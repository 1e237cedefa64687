/**
 What the bot does in chat over whole runs: the replies it sends and the Lua functions it calls.
 */
module Effects {
  import opened Text
  import opened Parser
  import opened Cooldown
  import opened Registry
  import opened Gate
  import opened AppState
  import opened Bot

  // ---------- what each event does ----------

  /** In every run a request runs exactly when the history of the run admits it. Then the function is
      called with the words as typed, and the execution is recorded with both clock readings. Otherwise
      nothing is recorded and the first failing check names the reply. */
  lemma RequestsRunIffAdmitted(disk: Disk, entries: seq<Path>, order: seq<string>, start: Bot, events: seq<Event>, b: Bot,
                               e: Event, name: string, script: Script, command: string, args: seq<string>)
    requires Starts(disk, entries, order, start) && Run(start, events) == Some(b) && Enabled(b, e)
    requires e.Message? && Dispatch(b.handlers, e.message.text) == Some(Call(LuaCommand(name, script), command, args))
    ensures name in b.commands.metadata
    ensures var b', m, meta := Step(b, e), e.message, b.commands.metadata[name].meta;
            if Admissible(b.log, meta, name, m.user, m.badges, e.checkTime) then
              && b'.effects == b.effects + [Ran(Call(LuaCommand(name, script), command, args), m, meta)]
              && b'.log == b.log + [Execution(name, m.user, e.checkTime, e.recordTime, meta)]
              && Summarises(b'.tracker, b'.log)
            else
              && b'.log == b.log && b'.tracker == b.tracker
              && b'.effects == b.effects +
                   if !meta.enabled then []
                   else if m.user !in meta.allowedUsers && Rank(m.badges) < RequiredRank(meta) then [Reply("You don't have permission to use this command.")]
                   else if BlockedByHistory(b.log, name, m.user, meta, e.checkTime) then [Reply("Command is on cooldown.")]
                   else [Reply("Command has reached its usage limit for this stream.")]
    ensures var b' := Step(b, e);
            && b'.disk == b.disk && b'.commands == b.commands && b'.handlers == b.handlers
            && b'.chat == b.chat.Push(e.message) && b'.now == e.recordTime
  {
    EveryRunKeepsItsPromises(disk, entries, order, start, events, b);
    HandlerReached(b, e.message.text);
    GateAgreesWithHistory(b.commands.metadata, b.tracker, b.log, name, e.message.user, e.message.badges, e.checkTime);
    var meta := b.commands.metadata[name].meta;
    if Admissible(b.log, meta, name, e.message.user, e.message.badges, e.checkTime) {
      RecordSummary(b.tracker, b.log, Execution(name, e.message.user, e.checkTime, e.recordTime, meta));
    }
  }

  /** Any other message changes the chat queue and the clock, and for the native commands what they say
      and reload. */
  lemma OtherMessages(b: Bot, e: Event)
    requires e.Message? && Enabled(b, e)
    ensures var b', d := Step(b, e), Dispatch(b.handlers, e.message.text);
            && (d.None? ==> b' == b.(chat := b.chat.Push(e.message), now := e.recordTime))
            && (d.Some? && d.value.handler == NativeCommands ==>
                  b' == b.(chat := b.chat.Push(e.message), now := e.recordTime,
                           effects := b.effects + [Reply(CommandsReply(e.loadOrder))]))
            && (d.Some? && d.value.handler == NativeReload ==>
                  && b'.commands == Reload(b.commands, e.loadOrder, b.disk)
                  && b'.handlers == RegisterLua(b.handlers, b'.commands.files, b.disk, e.registerOrder)
                  && b'.effects == b.effects + [Reply("Reloading Lua commands..."), Reply("Lua commands reloaded!")]
                  && b' == b.(chat := b.chat.Push(e.message), now := e.recordTime, commands := b'.commands,
                              handlers := b'.handlers, effects := b'.effects))
  {
  }

  /** The `commands` reply shows each loaded name, once, between commas. */
  lemma CommandsReplyShowsEachName(files: map<string, Path>, order: seq<string>, i: nat)
    requires Enumerates(order, files.Keys)
    ensures order == [] <==> files == map[]
    ensures order == [] ==> CommandsReply(order) == "No Lua commands loaded"
    ensures i < |order| ==>
              order[i] in files
              && CommandsReply(order)
                   == "Loaded commands: "
                      + (if i == 0 then "" else Joined(order[..i], ", ") + ", ")
                      + order[i]
                      + (if i == |order| - 1 then "" else ", " + Joined(order[i + 1..], ", "))
  {
    if order != [] {
      assert order[0] in files;
    }
    if i < |order| {
      JoinedAround(order, ", ", i);
      assert order[i] in order;
      var before := if i == 0 then "" else Joined(order[..i], ", ") + ", ";
      var after := if i == |order| - 1 then "" else ", " + Joined(order[i + 1..], ", ");
      Regroup("Loaded commands: ", before, order[i], after);
    }
  }

  /** A stream reset zeroes every use counter and keeps every cooldown timestamp. */
  lemma ResetOnlyZeroesTheCounters(b: Bot, command: string, scope: Scope)
    ensures var b' := Step(b, ResetStream);
            && b'.tracker.Uses(command) == 0 && b'.tracker.Last(scope) == b.tracker.Last(scope)
            && b' == b.(tracker := b'.tracker, log := b.log + [StreamReset])
  {
  }

  // ---------- letter case ----------

  predicate SameEffectUpToCase(e1: Effect, e2: Effect) {
    match (e1, e2)
    case (Reply(t1), Reply(t2)) => t1 == t2
    case (Ran(c1, m1, g1), Ran(c2, m2, g2)) =>
      && c1.handler == c2.handler && Lower(c1.command) == Lower(c2.command) && LowerAll(c1.args) == LowerAll(c2.args)
      && m1.user == m2.user && m1.badges == m2.badges && Lower(m1.text) == Lower(m2.text) && g1 == g2
    case _ => false
  }

  /** The two states agree but for the chat log, and did the same up to case since `done`. */
  ghost predicate SameUpToCase(b1: Bot, b2: Bot, done: seq<Effect>) {
    && b2 == b1.(chat := b2.chat, effects := b2.effects)
    && done <= b1.effects && done <= b2.effects && |b1.effects| == |b2.effects|
    && forall i :: |done| <= i < |b1.effects| ==> SameEffectUpToCase(b1.effects[i], b2.effects[i])
  }

  lemma LuaStepIgnoresCase(b: Bot, chat: Chat, call1: Call<Handler>, call2: Call<Handler>, m1: ChatMessage, m2: ChatMessage,
                           checkTime: int, recordTime: int)
    requires call1.handler.LuaCommand? && SameCallUpToCase(Some(call1), Some(call2))
    requires m1.user == m2.user && m1.badges == m2.badges && Lower(m1.text) == Lower(m2.text)
    ensures SameUpToCase(LuaStep(b, call1, m1, checkTime, recordTime),
                         LuaStep(b.(chat := chat), call2, m2, checkTime, recordTime), b.effects)
  {
  }

  /** Messages that differ only in letter case do the same: the same replies, the same function called
      under the same metadata with words equal up to case, and the same state otherwise. */
  lemma CaseOnlyReachesTheArguments(b: Bot, m1: ChatMessage, m2: ChatMessage, checkTime: int, recordTime: int,
                                    loadOrder: seq<string>, registerOrder: seq<string>)
    requires m1.user == m2.user && m1.badges == m2.badges && Lower(m1.text) == Lower(m2.text)
    requires Enabled(b, Message(m1, checkTime, recordTime, loadOrder, registerOrder))
    ensures Enabled(b, Message(m2, checkTime, recordTime, loadOrder, registerOrder))
    ensures SameUpToCase(Step(b, Message(m1, checkTime, recordTime, loadOrder, registerOrder)),
                         Step(b, Message(m2, checkTime, recordTime, loadOrder, registerOrder)), b.effects)
  {
    DispatchIgnoresCase(b.handlers, m1.text, m2.text);
    var d1, d2 := Dispatch(b.handlers, m1.text), Dispatch(b.handlers, m2.text);
    if d1.Some? && d1.value.handler.LuaCommand? {
      var pushed := b.(chat := b.chat.Push(m1), now := recordTime);
      LuaStepIgnoresCase(pushed, b.chat.Push(m2), d1.value, d2.value, m1, m2, checkTime, recordTime);
    }
  }

  // ---------- what every run did ----------

  /** The executions of the log, as who ran what under which metadata. */
  function Executions(log: seq<Entry>): seq<(string, string, CommandMetadata)> {
    if |log| == 0 then []
    else Executions(log[..|log| - 1])
         + match log[|log| - 1]
           case StreamReset => []
           case Execution(command, user, _, _, meta) => [(command, user, meta)]
  }

  /** The same, from the functions that were called. */
  function Called(effects: seq<Effect>): seq<(string, string, CommandMetadata)> {
    if |effects| == 0 then []
    else Called(effects[..|effects| - 1])
         + match effects[|effects| - 1]
           case Reply(_) => []
           case Ran(call, m, gatedBy) =>
             if call.handler.LuaCommand? then [(call.handler.name, m.user, gatedBy)] else []
  }

  lemma CalledAppend(effects: seq<Effect>, e: Effect)
    ensures Called(effects + [e]) == Called(effects) + Called([e])
  {
    assert (effects + [e])[..|effects|] == effects && [e][..0] == [];
  }

  lemma ExecutionsAppend(log: seq<Entry>, e: Entry)
    ensures Executions(log + [e]) == Executions(log) + Executions([e])
  {
    assert (log + [e])[..|log|] == log && [e][..0] == [];
  }

  lemma LuaStepCallsWhatItLogs(b: Bot, call: Call<Handler>, m: ChatMessage, checkTime: int, recordTime: int)
    requires call.handler.LuaCommand? && Executions(b.log) == Called(b.effects)
    ensures var b' := LuaStep(b, call, m, checkTime, recordTime); Executions(b'.log) == Called(b'.effects)
  {
    var name := call.handler.name;
    var outcome := Decide(b.commands.metadata, b.tracker, name, m.user, m.badges, checkTime);
    if outcome == Executed {
      var meta := b.commands.metadata[name].meta;
      ExecutionsAppend(b.log, Execution(name, m.user, checkTime, recordTime, meta));
      CalledAppend(b.effects, Ran(call, m, meta));
    } else if ReplyTo(outcome).Some? {
      CalledAppend(b.effects, Reply(ReplyTo(outcome).value));
    }
  }

  lemma RepliesCallNothing(effects: seq<Effect>)
    ensures Called(effects + RELOAD_REPLIES) == Called(effects)
  {
    CalledAppend(effects, RELOAD_REPLIES[0]);
    CalledAppend(effects + [RELOAD_REPLIES[0]], RELOAD_REPLIES[1]);
    assert effects + RELOAD_REPLIES == effects + [RELOAD_REPLIES[0]] + [RELOAD_REPLIES[1]];
  }

  lemma StepCallsWhatItLogs(b: Bot, e: Event)
    requires Enabled(b, e) && Executions(b.log) == Called(b.effects)
    ensures Executions(Step(b, e).log) == Called(Step(b, e).effects)
  {
    match e
    case EditDisk(_) =>
    case DrawChat =>
    case ResetStream => ExecutionsAppend(b.log, StreamReset);
    case Message(m, checkTime, recordTime, loadOrder, _) =>
      if Dispatch(b.handlers, m.text).Some? {
        var call := Dispatch(b.handlers, m.text).value;
        match call.handler
        case NativeReload => RepliesCallNothing(b.effects);
        case NativeCommands => CalledAppend(b.effects, Reply(CommandsReply(loadOrder)));
        case LuaCommand(_, _) =>
          LuaStepCallsWhatItLogs(b.(chat := b.chat.Push(m), now := recordTime), call, m, checkTime, recordTime);
      }
  }

  /** In every run the Lua functions called are exactly the executions recorded, in order. */
  lemma {:induction false} EveryCallIsRecorded(start: Bot, events: seq<Event>, b: Bot)
    requires start.log == [] && start.effects == [] && Run(start, events) == Some(b)
    ensures Executions(b.log) == Called(b.effects)
  {
    if |events| > 0 {
      var before := Run(start, events[..|events| - 1]).value;
      EveryCallIsRecorded(start, events[..|events| - 1], before);
      StepCallsWhatItLogs(before, events[|events| - 1]);
    }
  }

  /** Each function called is the one declared with the metadata that admitted it. */
  ghost predicate OwnVersionsOnly(effects: seq<Effect>) {
    forall i :: 0 <= i < |effects| && effects[i].Ran? ==>
      effects[i].call.handler.LuaCommand? && effects[i].gatedBy == effects[i].call.handler.script.meta
  }

  /** No reply is the configuration error. */
  ghost predicate NoConfigurationError(effects: seq<Effect>) {
    forall i :: 0 <= i < |effects| ==> effects[i] != Reply(CONFIGURATION_ERROR)
  }

  lemma LuaStepEffects(b: Bot, call: Call<Handler>, m: ChatMessage, checkTime: int, recordTime: int)
    requires call.handler.LuaCommand? && call.handler.name in b.commands.metadata
    ensures var b' := LuaStep(b, call, m, checkTime, recordTime);
            && (NoConfigurationError(b.effects) ==> NoConfigurationError(b'.effects))
            && (InStep(call.handler, b.commands.metadata) && OwnVersionsOnly(b.effects) ==> OwnVersionsOnly(b'.effects))
  {
  }

  lemma StepEffects(b: Bot, e: Event)
    requires Enabled(b, e) && HasMetadata(b.handlers, b.commands.metadata)
    ensures NoConfigurationError(b.effects) ==> NoConfigurationError(Step(b, e).effects)
    ensures SameVersions(b.handlers, b.commands.metadata) && OwnVersionsOnly(b.effects) ==>
              OwnVersionsOnly(Step(b, e).effects)
  {
    if e.Message? && Dispatch(b.handlers, e.message.text).Some? {
      HandlerReached(b, e.message.text);
      var call := Dispatch(b.handlers, e.message.text).value;
      if call.handler.LuaCommand? {
        var pushed := b.(chat := b.chat.Push(e.message), now := e.recordTime);
        LuaStepEffects(pushed, call, e.message, e.checkTime, e.recordTime);
      } else {
        assert CommandsReply(e.loadOrder)[0] != CONFIGURATION_ERROR[0];
      }
    }
  }

  /** In every run, no reply is "Command configuration error". */
  lemma {:induction false} EveryRunAvoidsTheConfigurationError(disk: Disk, entries: seq<Path>, order: seq<string>, start: Bot,
                                                               events: seq<Event>, b: Bot)
    requires Starts(disk, entries, order, start) && Run(start, events) == Some(b)
    ensures NoConfigurationError(b.effects)
  {
    if |events| > 0 {
      var earlier := events[..|events| - 1];
      var before := Run(start, earlier).value;
      EveryRunAvoidsTheConfigurationError(disk, entries, order, start, earlier, before);
      EveryRunKeepsItsPromises(disk, entries, order, start, earlier, before);
      StepEffects(before, events[|events| - 1]);
    }
  }

  /** In every run that strands no handler, each function was called under the metadata of its own file
      version. */
  lemma {:induction false} EveryCallRanItsOwnVersion(disk: Disk, entries: seq<Path>, order: seq<string>, start: Bot,
                                                     events: seq<Event>, b: Bot)
    requires Starts(disk, entries, order, start) && Run(start, events) == Some(b) && NeverStrands(start, events)
    ensures OwnVersionsOnly(b.effects)
  {
    if |events| > 0 {
      var earlier := events[..|events| - 1];
      var before := Run(start, earlier).value;
      EveryCallRanItsOwnVersion(disk, entries, order, start, earlier, before);
      EveryRunKeepsItsPromises(disk, entries, order, start, earlier, before);
      EveryRunKeepsVersionsIff(disk, entries, order, start, earlier, before);
      StepEffects(before, events[|events| - 1]);
    }
  }
}
