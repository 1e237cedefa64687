/**
 Reloading in whole runs: which names answer afterwards, when a second reload is idle, how an edit can
 strand a handler, and when the commands can never change again.
 */
module Reloading {
  import opened Text
  import Tokenizer
  import opened Parser
  import opened Cooldown
  import opened Registry
  import opened AppState
  import opened Bot

  // ---------- after a reload ----------

  /** After a reload, quoting any loaded name that has a function reaches a loaded command of that
      name up to case, in step with its metadata; it is the very name when no other differs by case. */
  lemma LoadedNamesAnswer(b: Bot, loadOrder: seq<string>, registerOrder: seq<string>, name: string, args: seq<string>)
    requires Enumerates(loadOrder, b.commands.files.Keys)
    requires Enumerates(registerOrder, Reload(b.commands, loadOrder, b.disk).files.Keys)
    requires var files := Reload(b.commands, loadOrder, b.disk).files;
             name in files && name != "" && HandlerFor(files, b.disk, name).Some?
    requires forall i :: 0 <= i < |args| ==> args[i] != ""
    ensures var b' := ReloadStep(b, loadOrder, registerOrder);
            var call := Dispatch(b'.handlers, PREFIX + Tokenizer.Printed([name] + args));
            && call.Some? && call.value.command == name && call.value.args == args
            && call.value.handler.LuaCommand? && Lower(call.value.handler.name) == Lower(name)
            && call.value.handler.name in b'.commands.files
            && InStep(call.value.handler, b'.commands.metadata)
            && (NoCaseCollision(b'.commands.files, b.disk) ==> call.value.handler.name == name)
  {
    var b' := ReloadStep(b, loadOrder, registerOrder);
    var files := b'.commands.files;
    LatestRegistrationWins(b.handlers, Registrations(files, b.disk, registerOrder), Lower(name));
    var i :| 0 <= i < |registerOrder| && registerOrder[i] == name;
    assert Accepted(Registrations(files, b.disk, registerOrder)[i]);
    HandlerAfterCycle(b.commands, b.handlers, PathsOf(b.commands.files, loadOrder), registerOrder, b.disk,
                      b'.commands, b'.handlers, Lower(name));
    QuotedWordsArrive(b'.handlers, name, args);
  }

  /** A reload in any orders is a no-op: engine and parser stay as they are. */
  ghost predicate ReloadsIdly(b: Bot) {
    forall load, register ::
      Enumerates(load, b.commands.files.Keys) && Enumerates(register, Reload(b.commands, load, b.disk).files.Keys) ==>
        ReloadStep(b, load, register) == b
  }

  lemma IdleWithoutCollisions(b: Bot, once: Bot, load: seq<string>, register: seq<string>,
                              load2: seq<string>, register2: seq<string>)
    requires Enumerates(load, b.commands.files.Keys)
    requires Enumerates(register, Reload(b.commands, load, b.disk).files.Keys)
    requires once == ReloadStep(b, load, register)
    requires Enumerates(load2, once.commands.files.Keys)
    requires Enumerates(register2, Reload(once.commands, load2, b.disk).files.Keys)
    requires NoSharedNames(once.commands, b.disk) && NoCaseCollision(once.commands.files, b.disk)
    ensures ReloadStep(once, load2, register2) == once
  {
    LoadingSettles(b.commands.metadata, PathsOf(b.commands.files, load), b.disk);
    ReloadWithoutSharing(once.commands, load2, b.disk);
    RegisteringAgain(b.handlers, once.commands.files, b.disk, register, register2);
  }

  /** When two registrable names differ only in case, some order hands their key to the other. */
  lemma CollisionMovesAHandler(b: Bot, m: string, n: string) returns (register: seq<string>)
    requires m in b.commands.files && n in b.commands.files && m != n && Lower(m) == Lower(n)
    requires HandlerFor(b.commands.files, b.disk, m).Some? && HandlerFor(b.commands.files, b.disk, n).Some?
    ensures Enumerates(register, b.commands.files.Keys)
    ensures RegisterLua(b.handlers, b.commands.files, b.disk, register) != b.handlers
  {
    var k := Lower(m);
    assert |k| == |m| && |k| == |n|;
    assert m != "" && n != "";
    var holdsM := k in b.handlers && Some(b.handlers[k]) == HandlerFor(b.commands.files, b.disk, m);
    var last := if holdsM then n else m;
    var rest := SomeOrder(b.commands.files.Keys - {last});
    register := rest + [last];
    var rs := Registrations(b.commands.files, b.disk, register);
    assert rs[|rs| - 1] == Registration(last, HandlerFor(b.commands.files, b.disk, last));
    LatestRegistrationWins(b.handlers, rs, k);
  }

  lemma SharingUnsettlesAReload(b: Bot)
    requires Settled(b.commands, b.disk) && !NoSharedNames(b.commands, b.disk)
    ensures !ReloadsIdly(b)
  {
    var c, disk := b.commands, b.disk;
    var x, y, n :| x in c.files && y in c.files && Declares(disk, c.files[x], n) && Declares(disk, c.files[y], n)
                   && c.files[x] != c.files[y];
    var load := SharingChangesSomeReload(c, disk, x, y, n);
    var register := SomeOrder(Reload(c, load, disk).files.Keys);
    assert ReloadStep(b, load, register) != b;
  }

  /** A second reload of an unchanged disk changes neither engine nor parser, for every pair of orders,
      exactly when no two loaded files share a name and no two registrable names differ only in case. */
  lemma SecondReloadIsIdleIff(b: Bot, once: Bot, load: seq<string>, register: seq<string>)
    requires Enumerates(load, b.commands.files.Keys)
    requires Enumerates(register, Reload(b.commands, load, b.disk).files.Keys)
    requires once == ReloadStep(b, load, register)
    ensures ReloadsIdly(once) <==> NoSharedNames(once.commands, b.disk) && NoCaseCollision(once.commands.files, b.disk)
  {
    LoadingSettles(b.commands.metadata, PathsOf(b.commands.files, load), b.disk);
    var c, disk := once.commands, b.disk;
    if NoSharedNames(c, disk) && NoCaseCollision(c.files, disk) {
      forall load2, register2
        | Enumerates(load2, c.files.Keys) && Enumerates(register2, Reload(c, load2, disk).files.Keys)
        ensures ReloadStep(once, load2, register2) == once
      {
        IdleWithoutCollisions(b, once, load, register, load2, register2);
      }
    } else if NoSharedNames(c, disk) {
      var m, n :| m in c.files && n in c.files && HandlerFor(c.files, disk, m).Some? && HandlerFor(c.files, disk, n).Some?
                  && Lower(m) == Lower(n) && m != n;
      var load2 := SomeOrder(c.files.Keys);
      ReloadWithoutSharing(c, load2, disk);
      var register2 := CollisionMovesAHandler(once, m, n);
      assert ReloadStep(once, load2, register2) != once;
    } else {
      SharingUnsettlesAReload(once);
    }
  }

  // ---------- a run that strands a handler ----------

  lemma RegisteringNativesKeepsOthers(handlers: map<string, Handler>, k: string)
    requires k != "reload" && k != "commands" && k in handlers
    ensures k in RegisterAll(handlers, NATIVES) && RegisterAll(handlers, NATIVES)[k] == handlers[k]
  {
    RegisteringNatives(handlers);
    assert Lower("reload") == "reload" && Lower("commands") == "commands";
  }

  lemma EnumeratesOne(name: string)
    ensures Enumerates([name], {name})
  {
  }

  /** The bot started with one file, whose command is `hi`. */
  lemma StartWithOneFile(path: Path, s: Script) returns (start: Bot)
    requires s.name == "hi" && s.aliases == [] && s.execute.Function?
    ensures Starts(map[path := Some(s)], [path], ["hi"], start)
    ensures start.commands.files == map["hi" := path]
    ensures "hi" in start.handlers && start.handlers["hi"] == LuaCommand("hi", s)
    ensures "reload" in start.handlers && start.handlers["reload"] == NativeReload
  {
    var disk: Disk := map[path := Some(s)];
    LoadingOneFile(map[], path, disk, s);
    var commands := LoadAll(Commands(map[], map[]), [path], disk);
    EnumeratesOne("hi");
    var lua := RegisterLua(map[], commands.files, disk, ["hi"]);
    assert Lower("hi") == "hi";
    var rs := Registrations(commands.files, disk, ["hi"]);
    LatestRegistrationWins(map[], rs, "hi");
    assert rs[0] == Registration("hi", Some(LuaCommand("hi", s)));
    RegisteringNativesKeepsOthers(lua, "hi");
    RegisteringNativesKeepsLua(lua, "hi");
    start := Bot(disk, commands, RegisterAll(lua, NATIVES), FRESH_TRACKER, [], 0, Chat([], []), []);
  }

  /** The message that asks for a reload, with the orders it walks. */
  function AskToReload(now: int, load: seq<string>, register: seq<string>): Event {
    Message(ChatMessage("", PREFIX + Tokenizer.Printed(["reload"]), []), now, now, load, register)
  }

  lemma AskingReaches(b: Bot)
    requires "reload" in b.handlers
    ensures Dispatch(b.handlers, PREFIX + Tokenizer.Printed(["reload"])) == Some(Call(b.handlers["reload"], "reload", []))
  {
    assert Lower("reload") == "reload" && ["reload"] + [] == ["reload"];
    QuotedWordsArrive(b.handlers, "reload", []);
  }

  lemma ReloadStrandsHi(b: Bot, path: Path, s: Script)
    requires b.commands.files == map["hi" := path] && b.disk == map[path := Some(s)]
    requires s.name == "hi" && s.aliases == [] && s.execute.NotAFunction?
    requires "hi" in b.handlers && b.handlers["hi"].LuaCommand? && b.handlers["hi"].name == "hi"
    requires "reload" in b.handlers && b.handlers["reload"] == NativeReload
    ensures Enabled(b, AskToReload(b.now, ["hi"], ["hi"])) && Strands(b, AskToReload(b.now, ["hi"], ["hi"]))
  {
    AskingReaches(b);
    EnumeratesOne("hi");
    assert PathsOf(b.commands.files, ["hi"]) == [path];
    LoadingOneFile(b.commands.metadata, path, b.disk, s);
    assert Lower("hi") == "hi";
    assert Stranded(b.handlers, Reload(b.commands, ["hi"], b.disk).files, b.disk, "hi");
  }

  lemma TwoSteps(b: Bot, e1: Event, e2: Event)
    requires Enabled(b, e1) && Enabled(Step(b, e1), e2)
    ensures Run(b, [e1]) == Some(Step(b, e1)) && Run(b, [e1, e2]) == Some(Step(Step(b, e1), e2))
    ensures NeverStrands(b, [e1, e2]) ==> !Strands(Step(b, e1), e2)
  {
    assert [e1, e2][..1] == [e1] && [e1][..0] == [];
  }

  /** Editing a file so that `execute` is not a function, then asking for a reload, leaves the old
      function behind the new metadata. */
  lemma AnEditCanStrandAHandler(path: Path, meta: CommandMetadata, newMeta: CommandMetadata)
    returns (start: Bot, events: seq<Event>, b: Bot)
    ensures Starts(map[path := Some(Script("hi", [], meta, Function(0)))], [path], ["hi"], start)
    ensures Run(start, events) == Some(b) && !NeverStrands(start, events)
    ensures !SameVersions(b.handlers, b.commands.metadata)
  {
    var was, edited := Script("hi", [], meta, Function(0)), Script("hi", [], newMeta, NotAFunction);
    start := StartWithOneFile(path, was);
    StartKeepsHandlers(map[path := Some(was)], [path], ["hi"], start);
    var edit, ask := EditDisk(map[path := Some(edited)]), AskToReload(0, ["hi"], ["hi"]);
    var middle := Step(start, edit);
    ReloadStrandsHi(middle, path, edited);
    StepKeepsHandlers(middle, ask);
    events, b := [edit, ask], Step(middle, ask);
    TwoSteps(start, edit, ask);
  }

  // ---------- when the commands can never change again ----------

  /** Native handlers sit under their own names only. */
  ghost predicate NativesInPlace(handlers: map<string, Handler>) {
    && "reload" in handlers
    && (forall k :: k in handlers && handlers[k] == NativeReload ==> k == "reload")
    && (forall k :: k in handlers && handlers[k] == NativeCommands ==> k == "commands")
  }

  lemma StartPlacesNatives(disk: Disk, entries: seq<Path>, order: seq<string>, b: Bot)
    requires Starts(disk, entries, order, b)
    ensures NativesInPlace(b.handlers) && b.handlers["reload"] == NativeReload
    ensures "commands" in b.handlers && b.handlers["commands"] == NativeCommands
  {
    var empty := Commands(map[], map[]);
    var lua := RegisterLua(map[], b.commands.files, disk, order);
    forall k | k in lua ensures lua[k].LuaCommand? {
      HandlerAfterCycle(empty, map[], entries, order, disk, b.commands, lua, k);
    }
    RegisteringNatives(lua);
    assert Lower("reload") == "reload" && Lower("commands") == "commands";
  }

  lemma StepKeepsNatives(b: Bot, e: Event)
    requires Enabled(b, e) && NativesInPlace(b.handlers)
    ensures NativesInPlace(Step(b, e).handlers)
  {
    if e.Message? && Reaches(b, e.message.text, NativeReload) {
      var b' := Step(b, e);
      LatestRegistrationWins(b.handlers, Registrations(b'.commands.files, b.disk, e.registerOrder), "reload");
      forall k | k in b'.handlers && !b'.handlers[k].LuaCommand? ensures k in b.handlers && b'.handlers[k] == b.handlers[k] {
        HandlerAfterCycle(b.commands, b.handlers, PathsOf(b.commands.files, e.loadOrder), e.registerOrder, b.disk,
                          b'.commands, b'.handlers, k);
      }
    }
  }

  lemma {:induction false} EveryRunPlacesNatives(disk: Disk, entries: seq<Path>, order: seq<string>, start: Bot,
                                                 events: seq<Event>, b: Bot)
    requires Starts(disk, entries, order, start) && Run(start, events) == Some(b)
    ensures NativesInPlace(b.handlers)
  {
    if |events| == 0 {
      StartPlacesNatives(disk, entries, order, start);
    } else {
      var before := Run(start, events[..|events| - 1]).value;
      EveryRunPlacesNatives(disk, entries, order, start, events[..|events| - 1], before);
      StepKeepsNatives(before, events[|events| - 1]);
    }
  }

  /** No continuation changes the loaded files, the metadata or the handlers. */
  ghost predicate Frozen(b: Bot) {
    forall more, b' :: Run(b, more) == Some(b') ==> b'.commands == b.commands && b'.handlers == b.handlers
  }

  ghost predicate CannotReload(b: Bot) {
    b.commands.files == map[] || ("reload" in b.handlers && b.handlers["reload"].LuaCommand?)
  }

  lemma NothingToEnumerate(order: seq<string>, keys: set<string>)
    requires Enumerates(order, keys)
    ensures keys == {} ==> order == []
  {
    if order != [] {
      assert order[0] in keys;
    }
  }

  lemma CannotReloadStep(b: Bot, e: Event)
    requires Enabled(b, e) && NativesInPlace(b.handlers) && CannotReload(b)
    ensures Step(b, e).commands == b.commands && Step(b, e).handlers == b.handlers
  {
    if e.Message? && Reaches(b, e.message.text, NativeReload) {
      HandlerReached(b, e.message.text);
      assert b.commands.files == map[];
      NothingToEnumerate(e.loadOrder, b.commands.files.Keys);
      assert Reload(b.commands, [], b.disk) == b.commands;
      NothingToEnumerate(e.registerOrder, b.commands.files.Keys);
    }
  }

  lemma {:induction false} CannotReloadStays(b: Bot, more: seq<Event>, b': Bot)
    requires NativesInPlace(b.handlers) && CannotReload(b) && Run(b, more) == Some(b')
    ensures b'.commands == b.commands && b'.handlers == b.handlers
  {
    if |more| > 0 {
      var before := Run(b, more[..|more| - 1]).value;
      CannotReloadStays(b, more[..|more| - 1], before);
      CannotReloadStep(before, more[|more| - 1]);
    }
  }

  lemma NothingLoadsFromAnEmptyDisk(metadata: map<string, Script>, paths: seq<Path>)
    ensures LoadAll(Commands(map[], metadata), paths, map[]).files == map[]
  {
    forall n ensures n !in LoadAll(Commands(map[], metadata), paths, map[]).files {
      LastDeclaringFileWins(Commands(map[], metadata), paths, map[], n);
    }
  }

  lemma ReloadingNothing(b: Bot, load: seq<string>)
    requires b.disk == map[] && "reload" in b.handlers && b.handlers["reload"] == NativeReload
    requires Enumerates(load, b.commands.files.Keys)
    ensures var ask := AskToReload(b.now, load, []); Enabled(b, ask) && Step(b, ask).commands.files == map[]
  {
    NothingLoadsFromAnEmptyDisk(b.commands.metadata, PathsOf(b.commands.files, load));
    AskingReaches(b);
  }

  /** While `reload` is native and something is loaded, deleting the files and asking for a reload empties
      the files map. */
  lemma DeletingAndReloadingChanges(b: Bot)
    requires NativesInPlace(b.handlers) && !CannotReload(b)
    ensures !Frozen(b)
  {
    var load := SomeOrder(b.commands.files.Keys);
    assert b.handlers["reload"] == NativeReload;
    ReloadingNothing(Step(b, EditDisk(map[])), load);
    TwoSteps(b, EditDisk(map[]), AskToReload(b.now, load, []));
  }

  /** In every run, the commands can never change again exactly when a Lua command has taken the name
      `reload` in any letter case, or nothing is loaded. */
  lemma CommandsFreezeIff(disk: Disk, entries: seq<Path>, order: seq<string>, start: Bot, events: seq<Event>, b: Bot)
    requires Starts(disk, entries, order, start) && Run(start, events) == Some(b)
    ensures Frozen(b) <==> CannotReload(b)
  {
    EveryRunPlacesNatives(disk, entries, order, start, events, b);
    if CannotReload(b) {
      forall more, b' | Run(b, more) == Some(b') ensures b'.commands == b.commands && b'.handlers == b.handlers {
        CannotReloadStays(b, more, b');
      }
    } else {
      DeletingAndReloadingChanges(b);
    }
  }
}
