/**
 Whole runs of the bot: chat messages, edits of the command files, reloads, stream resets and
 redraws in any order (src/application.cpp).

 The disk is constant within one step. A message carries the two clock readings a Lua handler may
 make, and the two map orders a reload may walk.
 */
module Bot {
  import opened Text
  import opened Parser
  import opened Cooldown
  import opened Registry
  import opened Gate
  import opened AppState

  /** What a message makes the bot do: reply in chat, or call a Lua function with the command word and the
      arguments as they were typed, under the metadata that admitted it. */
  datatype Effect = Reply(text: string) | Ran(call: Call<Handler>, message: ChatMessage, gatedBy: CommandMetadata)

  /** `log` is the history of executions and resets; the code keeps only its summary, `tracker`.
      `effects` is everything the bot did. */
  datatype Bot = Bot(disk: Disk, commands: Commands, handlers: map<string, Handler>,
                     tracker: Tracker, log: seq<Entry>, now: int, chat: Chat, effects: seq<Effect>)

  datatype Event =
    | EditDisk(disk: Disk)
    | Message(message: ChatMessage, checkTime: int, recordTime: int, loadOrder: seq<string>, registerOrder: seq<string>)
    | ResetStream
    | DrawChat

  // ---------- steps ----------

  const NATIVES: seq<Registration<Handler>> :=
    [Registration("reload", Some(NativeReload)), Registration("commands", Some(NativeCommands))]

  /** The first load scans a directory in some order; the native commands are registered last. */
  ghost predicate Starts(disk: Disk, entries: seq<Path>, order: seq<string>, b: Bot) {
    && b.commands == LoadAll(Commands(map[], map[]), entries, disk)
    && Enumerates(order, b.commands.files.Keys)
    && b.handlers == RegisterAll(RegisterLua(map[], b.commands.files, disk, order), NATIVES)
    && b.disk == disk && b.tracker == FRESH_TRACKER && b.log == [] && b.now == 0 && b.chat == Chat([], []) && b.effects == []
  }

  predicate Reaches(b: Bot, text: string, h: Handler) {
    Dispatch(b.handlers, text).Some? && Dispatch(b.handlers, text).value.handler == h
  }

  ghost predicate Enabled(b: Bot, e: Event) {
    e.Message? ==>
      && b.now <= e.checkTime <= e.recordTime
      && (Reaches(b, e.message.text, NativeReload) ==>
            && Enumerates(e.loadOrder, b.commands.files.Keys)
            && Enumerates(e.registerOrder, Reload(b.commands, e.loadOrder, b.disk).files.Keys))
      && (Reaches(b, e.message.text, NativeCommands) ==> Enumerates(e.loadOrder, b.commands.files.Keys))
  }

  ghost function ReloadStep(b: Bot, loadOrder: seq<string>, registerOrder: seq<string>): Bot
    requires Enumerates(loadOrder, b.commands.files.Keys)
    requires Enumerates(registerOrder, Reload(b.commands, loadOrder, b.disk).files.Keys)
  {
    var reloaded := Reload(b.commands, loadOrder, b.disk);
    b.(commands := reloaded, handlers := RegisterLua(b.handlers, reloaded.files, b.disk, registerOrder))
  }

  function LuaStep(b: Bot, call: Call<Handler>, m: ChatMessage, checkTime: int, recordTime: int): Bot
    requires call.handler.LuaCommand?
  {
    var name := call.handler.name;
    var outcome := Decide(b.commands.metadata, b.tracker, name, m.user, m.badges, checkTime);
    if outcome == Executed then
      var meta := b.commands.metadata[name].meta;
      b.(tracker := b.tracker.Record(name, m.user, recordTime),
         log := b.log + [Execution(name, m.user, checkTime, recordTime, meta)],
         effects := b.effects + [Ran(call, m, meta)])
    else match ReplyTo(outcome)
      case None => b
      case Some(text) => b.(effects := b.effects + [Reply(text)])
  }

  const RELOAD_REPLIES: seq<Effect> := [Reply("Reloading Lua commands..."), Reply("Lua commands reloaded!")]

  /** The reply of the `commands` command, for the names in the order the map was walked. */
  function CommandsReply(order: seq<string>): string {
    if order == [] then "No Lua commands loaded" else "Loaded commands: " + Joined(order, ", ")
  }

  ghost function Step(b: Bot, e: Event): Bot
    requires Enabled(b, e)
  {
    match e
    case EditDisk(disk) => b.(disk := disk)
    case ResetStream => b.(tracker := b.tracker.ResetStream(), log := b.log + [StreamReset])
    case DrawChat => b.(chat := b.chat.Process())
    case Message(m, checkTime, recordTime, loadOrder, registerOrder) =>
      var pushed := b.(chat := b.chat.Push(m), now := recordTime);
      match Dispatch(b.handlers, m.text)
      case None => pushed
      case Some(call) =>
        match call.handler
        case NativeReload =>
          ReloadStep(pushed.(effects := b.effects + RELOAD_REPLIES), loadOrder, registerOrder)
        case NativeCommands => pushed.(effects := b.effects + [Reply(CommandsReply(loadOrder))])
        case LuaCommand(_, _) => LuaStep(pushed, call, m, checkTime, recordTime)
  }

  /** The state after the events, unless one of them was not enabled. */
  ghost function Run(b: Bot, events: seq<Event>): Option<Bot> {
    if |events| == 0 then Some(b)
    else match Run(b, events[..|events| - 1])
      case None => None
      case Some(before) =>
        if Enabled(before, events[|events| - 1]) then Some(Step(before, events[|events| - 1])) else None
  }

  // ---------- invariants of every run ----------

  /** The tracker summarises a history in which every cooldown and every limit was respected. */
  ghost predicate HistoryKept(b: Bot) {
    && Summarises(b.tracker, b.log)
    && Chronological(b.log, b.now)
    && Spaced(b.log)
    && WithinLimits(b.log)
  }

  ghost predicate HandlersKept(b: Bot) {
    WellKeyed(b.handlers) && HasMetadata(b.handlers, b.commands.metadata)
  }

  lemma RegisteringNatives(handlers: map<string, Handler>)
    ensures RegisterAll(handlers, NATIVES) == Register(Register(handlers, NATIVES[0]), NATIVES[1])
  {
    assert NATIVES[..1] == [NATIVES[0]] && [NATIVES[0]][..0] == [];
    assert RegisterAll(handlers, [NATIVES[0]]) == Register(handlers, NATIVES[0]);
  }

  lemma RegisteringNativesKeepsLua(handlers: map<string, Handler>, k: string)
    ensures var r := RegisterAll(handlers, NATIVES);
            k in r && r[k].LuaCommand? ==> k in handlers && handlers[k] == r[k]
    ensures "reload" in RegisterAll(handlers, NATIVES) && RegisterAll(handlers, NATIVES)["reload"] == NativeReload
  {
    RegisteringNatives(handlers);
    assert Lower("reload") == "reload" && Lower("commands") == "commands";
  }

  lemma StartKeepsHandlers(disk: Disk, entries: seq<Path>, order: seq<string>, b: Bot)
    requires Starts(disk, entries, order, b)
    ensures HandlersKept(b) && SameVersions(b.handlers, b.commands.metadata)
  {
    var lua := RegisterLua(map[], b.commands.files, disk, order);
    CycleKeepsMetadata(Commands(map[], map[]), map[], entries, order, disk, b.commands, lua);
    CycleKeepsVersionsIff(Commands(map[], map[]), map[], entries, order, disk, b.commands, lua);
    forall k | k in b.handlers && b.handlers[k].LuaCommand? ensures k in lua && lua[k] == b.handlers[k] {
      RegisteringNativesKeepsLua(lua, k);
    }
  }

  /** The event reloads from a file that cannot be registered over the handler of a name it declares. */
  ghost predicate Strands(b: Bot, e: Event)
    requires Enabled(b, e)
  {
    e.Message? && Reaches(b, e.message.text, NativeReload)
    && exists n :: Stranded(b.handlers, Reload(b.commands, e.loadOrder, b.disk).files, b.disk, n)
  }

  lemma StepKeepsHandlers(b: Bot, e: Event)
    requires Enabled(b, e) && HandlersKept(b)
    ensures HandlersKept(Step(b, e))
    ensures SameVersions(b.handlers, b.commands.metadata) ==>
              (SameVersions(Step(b, e).handlers, Step(b, e).commands.metadata) <==> !Strands(b, e))
  {
    if e.Message? && Reaches(b, e.message.text, NativeReload) {
      var b' := Step(b, e);
      var paths := PathsOf(b.commands.files, e.loadOrder);
      CycleKeepsMetadata(b.commands, b.handlers, paths, e.registerOrder, b.disk, b'.commands, b'.handlers);
      if SameVersions(b.handlers, b.commands.metadata) {
        CycleKeepsVersionsIff(b.commands, b.handlers, paths, e.registerOrder, b.disk, b'.commands, b'.handlers);
      }
    }
  }

  /** An admissible execution extends a kept history to a kept history. */
  lemma AdmittedKeepsHistory(t: Tracker, log: seq<Entry>, e: Entry)
    requires e.Execution? && e.checked <= e.recorded
    requires Summarises(t, log) && Chronological(log, e.checked) && Spaced(log) && WithinLimits(log)
    requires !BlockedByHistory(log, e.command, e.user, e.meta, e.checked)
    requires e.meta.maxUsesPerStream > 0 ==> UsesSinceReset(log, e.command) < e.meta.maxUsesPerStream
    ensures Summarises(t.Record(e.command, e.user, e.recorded), log + [e]) && Chronological(log + [e], e.recorded)
    ensures Spaced(log + [e]) && WithinLimits(log + [e])
  {
    RecordSummary(t, log, e);
    AdmittedStaysChronological(log, e);
    AdmittedStaysSpaced(log, e);
    AdmittedStaysWithinLimits(log, e);
  }

  lemma LuaStepKeepsHistory(b: Bot, call: Call<Handler>, m: ChatMessage, checkTime: int, recordTime: int)
    requires call.handler.LuaCommand?
    requires HistoryKept(b.(now := checkTime)) && checkTime <= recordTime == b.now
    ensures HistoryKept(LuaStep(b, call, m, checkTime, recordTime))
  {
    var name := call.handler.name;
    if Decide(b.commands.metadata, b.tracker, name, m.user, m.badges, checkTime) == Executed {
      GateAgreesWithHistory(b.commands.metadata, b.tracker, b.log, name, m.user, m.badges, checkTime);
      AdmittedKeepsHistory(b.tracker, b.log,
                           Execution(name, m.user, checkTime, recordTime, b.commands.metadata[name].meta));
    }
  }

  lemma ResetKeepsHistory(t: Tracker, log: seq<Entry>, now: int)
    requires Summarises(t, log) && Chronological(log, now) && Spaced(log) && WithinLimits(log)
    ensures Summarises(t.ResetStream(), log + [StreamReset]) && Chronological(log + [StreamReset], now)
    ensures Spaced(log + [StreamReset]) && WithinLimits(log + [StreamReset])
  {
    ResetSummary(t, log);
    AdmittedStaysWithinLimits(log, StreamReset);
  }

  lemma StepKeepsHistory(b: Bot, e: Event)
    requires Enabled(b, e) && HistoryKept(b)
    ensures HistoryKept(Step(b, e)) && b.log <= Step(b, e).log
  {
    match e
    case EditDisk(_) =>
    case DrawChat =>
    case ResetStream => ResetKeepsHistory(b.tracker, b.log, b.now);
    case Message(m, checkTime, recordTime, _, _) =>
      var pushed := b.(chat := b.chat.Push(m), now := recordTime);
      if Dispatch(b.handlers, m.text).Some? && Dispatch(b.handlers, m.text).value.handler.LuaCommand? {
        LuaStepKeepsHistory(pushed, Dispatch(b.handlers, m.text).value, m, checkTime, recordTime);
      }
  }

  lemma HandlerReached(b: Bot, text: string)
    requires Dispatch(b.handlers, text).Some?
    ensures exists k :: k in b.handlers && b.handlers[k] == Dispatch(b.handlers, text).value.handler
  {
    var (command, _) := ParseCommand(text);
    assert Lower(command) in b.handlers;
  }

  // ---------- main results ----------

  /** In every run, whatever is edited, reloaded, renamed or reset: every handler finds its metadata,
      every cooldown in force was respected against the whole history, and so was every limit. */
  lemma {:induction false} EveryRunKeepsItsPromises(disk: Disk, entries: seq<Path>, order: seq<string>, start: Bot,
                                                    events: seq<Event>, b: Bot)
    requires Starts(disk, entries, order, start) && Run(start, events) == Some(b)
    ensures HasMetadata(b.handlers, b.commands.metadata) && WellKeyed(b.handlers)
    ensures Summarises(b.tracker, b.log) && Chronological(b.log, b.now)
    ensures Spaced(b.log) && WithinLimits(b.log)
  {
    if |events| == 0 {
      StartKeepsHandlers(disk, entries, order, start);
      FreshSummary();
    } else {
      var before := Run(start, events[..|events| - 1]).value;
      EveryRunKeepsItsPromises(disk, entries, order, start, events[..|events| - 1], before);
      StepKeepsHandlers(before, events[|events| - 1]);
      StepKeepsHistory(before, events[|events| - 1]);
    }
  }

  /** In every state the run goes through, each Lua handler executes the version that gates it. */
  ghost predicate AlwaysSameVersions(start: Bot, events: seq<Event>)
    requires Run(start, events).Some?
  {
    var b := Run(start, events).value;
    SameVersions(b.handlers, b.commands.metadata)
    && (|events| > 0 ==> AlwaysSameVersions(start, events[..|events| - 1]))
  }

  ghost predicate NeverStrands(start: Bot, events: seq<Event>)
    requires Run(start, events).Some?
  {
    |events| > 0 ==>
      var earlier := events[..|events| - 1];
      NeverStrands(start, earlier) && !Strands(Run(start, earlier).value, events[|events| - 1])
  }

  /** A run keeps handlers and metadata in step throughout exactly when none of its reloads strands a
      handler, whatever it edits, renames, drops or fails to load. */
  lemma {:induction false} EveryRunKeepsVersionsIff(disk: Disk, entries: seq<Path>, order: seq<string>, start: Bot,
                                                    events: seq<Event>, b: Bot)
    requires Starts(disk, entries, order, start) && Run(start, events) == Some(b)
    ensures AlwaysSameVersions(start, events) <==> NeverStrands(start, events)
  {
    if |events| == 0 {
      StartKeepsHandlers(disk, entries, order, start);
    } else {
      var earlier := events[..|events| - 1];
      var before := Run(start, earlier).value;
      EveryRunKeepsVersionsIff(disk, entries, order, start, earlier, before);
      EveryRunKeepsItsPromises(disk, entries, order, start, earlier, before);
      StepKeepsHandlers(before, events[|events| - 1]);
    }
  }

  /** Every disk of the run gives each loadable file a function to execute. */
  ghost predicate OnlyFunctionsThroughout(disk: Disk, events: seq<Event>) {
    OnlyFunctions(disk) && forall i :: 0 <= i < |events| && events[i].EditDisk? ==> OnlyFunctions(events[i].disk)
  }

  lemma {:induction false} FunctionsNeverStrand(disk: Disk, entries: seq<Path>, order: seq<string>, start: Bot,
                                                events: seq<Event>, b: Bot)
    requires Starts(disk, entries, order, start) && Run(start, events) == Some(b)
    requires OnlyFunctionsThroughout(disk, events)
    ensures OnlyFunctions(b.disk) && NeverStrands(start, events)
  {
    if |events| > 0 {
      var earlier, e := events[..|events| - 1], events[|events| - 1];
      var before := Run(start, earlier).value;
      assert OnlyFunctionsThroughout(disk, earlier) by {
        assert forall i :: 0 <= i < |earlier| ==> earlier[i] == events[i];
      }
      FunctionsNeverStrand(disk, entries, order, start, earlier, before);
      if e.Message? && Reaches(before, e.message.text, NativeReload) {
        FunctionsStrandNothing(before.commands, before.handlers, PathsOf(before.commands.files, e.loadOrder), before.disk);
      }
    }
  }

  /** In every run whose files hold functions, each Lua handler in the parser executes the file version
      whose metadata gates it. */
  lemma EveryRunKeepsVersions(disk: Disk, entries: seq<Path>, order: seq<string>, start: Bot, events: seq<Event>, b: Bot)
    requires Starts(disk, entries, order, start) && Run(start, events) == Some(b)
    requires OnlyFunctionsThroughout(disk, events)
    ensures SameVersions(b.handlers, b.commands.metadata)
  {
    FunctionsNeverStrand(disk, entries, order, start, events, b);
    EveryRunKeepsVersionsIff(disk, entries, order, start, events, b);
  }

  /** The reply "Command configuration error" is unreachable, and a request is executed exactly when
      the history of the whole run admits it. */
  lemma RequestsAreJudgedByHistory(disk: Disk, entries: seq<Path>, order: seq<string>, start: Bot,
                                   events: seq<Event>, b: Bot, m: ChatMessage, name: string, script: Script, now: int)
    requires Starts(disk, entries, order, start) && Run(start, events) == Some(b)
    requires Reaches(b, m.text, LuaCommand(name, script)) && b.now <= now
    ensures name in b.commands.metadata
    ensures var outcome := Decide(b.commands.metadata, b.tracker, name, m.user, m.badges, now);
            outcome != ConfigurationError
            && (outcome == Executed <==>
                  Admissible(b.log, b.commands.metadata[name].meta, name, m.user, m.badges, now))
  {
    EveryRunKeepsItsPromises(disk, entries, order, start, events, b);
    assert Dispatch(b.handlers, m.text).value.handler in b.handlers.Values;
    var k :| k in b.handlers && b.handlers[k] == LuaCommand(name, script);
    GateAgreesWithHistory(b.commands.metadata, b.tracker, b.log, name, m.user, m.badges, now);
  }

  /** In every run, between two resets, the names of one file under one limit run at most that many
      times each. */
  lemma EveryRunKeepsTheBudget(disk: Disk, entries: seq<Path>, order: seq<string>, start: Bot,
                               events: seq<Event>, b: Bot, from: nat, to: nat, names: set<string>, limit: int)
    requires Starts(disk, entries, order, start) && Run(start, events) == Some(b)
    requires from <= to <= |b.log| && NoReset(b.log[from..to])
    requires limit > 0 && ConstantLimit(b.log[from..to], names, limit)
    ensures ExecutionsOf(b.log[from..to], names) <= |names| * limit
  {
    EveryRunKeepsItsPromises(disk, entries, order, start, events, b);
    var upTo := b.log[..to];
    assert upTo == b.log[..from] + b.log[from..to];
    assert WithinLimits(upTo) by {
      forall j | 0 <= j < |upTo| ensures upTo[..j] == b.log[..j] {
      }
    }
    StreamBudget(b.log[..from], b.log[from..to], names, limit);
  }

  /** In every run, a scope under a cooldown of at least `cooldown` seconds ran at most once per cooldown,
      and once more, in any stretch of history recorded within `seconds`. */
  lemma EveryRunIsRateLimited(disk: Disk, entries: seq<Path>, order: seq<string>, start: Bot, events: seq<Event>, b: Bot,
                              from: nat, to: nat, scope: Scope, cooldown: int, begin: int, seconds: nat)
    requires Starts(disk, entries, order, start) && Run(start, events) == Some(b)
    requires from <= to <= |b.log| && cooldown > 0 && CooldownAtLeast(b.log[from..to], scope, cooldown)
    requires forall i :: from <= i < to && b.log[i].Execution? ==>
               begin <= b.log[i].recorded <= begin + seconds * NANOS_PER_SECOND
    ensures var k := |TimesIn(b.log[from..to], scope)|; k > 0 ==> (k - 1) * cooldown <= seconds
  {
    EveryRunKeepsItsPromises(disk, entries, order, start, events, b);
    StretchIsKept(b.log, b.now, from, to);
    var part := b.log[from..to];
    forall i | 0 <= i < |part| && part[i].Execution?
      ensures begin <= part[i].recorded <= begin + seconds * NANOS_PER_SECOND
    {
      assert part[i] == b.log[from + i];
    }
    RateLimit(part, b.now, scope, cooldown, begin, seconds);
  }

  function Received(events: seq<Event>): seq<ChatMessage> {
    if |events| == 0 then []
    else Received(events[..|events| - 1]) + if events[|events| - 1].Message? then [events[|events| - 1].message] else []
  }

  /** Every message of the run, command or not, is shown or pending exactly once, in order. */
  lemma {:induction false} EveryMessageIsKept(start: Bot, events: seq<Event>, b: Bot)
    requires start.chat == Chat([], []) && Run(start, events) == Some(b)
    ensures b.chat.log + b.chat.pending == Received(events)
    ensures |events| > 0 && events[|events| - 1].DrawChat? ==> b.chat.pending == [] && b.chat.log == Received(events)
  {
    if |events| > 0 {
      var before := Run(start, events[..|events| - 1]).value;
      EveryMessageIsKept(start, events[..|events| - 1], before);
      var e := events[|events| - 1];
      if e.Message? {
        assert b.chat == before.chat.Push(e.message);
        assert b.chat.log + (before.chat.pending + [e.message]) == before.chat.log + before.chat.pending + [e.message];
      }
    }
  }
}
