/**
 Loading, reloading and registering Lua commands (src/core/lua_command_engine.cpp).

 Three maps change at different times: the loaded files, the metadata, and the parser's handlers.
 A reload clears only the first. The order in which an unordered map is walked is a parameter.
 */
module Registry {
  import opened Text
  import opened Cooldown
  import opened Parser

  type Path = string

  /** What a file's `execute` field holds; the identity tells one version of a function from another. */
  datatype Execute = Function(id: nat) | NotAFunction

  /** One version of a command file, as the table it returns. */
  datatype Script = Script(name: string, aliases: seq<string>, meta: CommandMetadata, execute: Execute)

  /** A file is missing, or fails to give a usable table, or gives one. */
  type Disk = map<Path, Option<Script>>

  /** The metadata map keeps the whole table, of which the engine reads `meta`: the rest says which
      version of which file the metadata came from. */
  datatype Commands = Commands(files: map<string, Path>, metadata: map<string, Script>)

  /** A handler captures the name it was registered for and the execute function it runs. */
  datatype Handler = LuaCommand(name: string, script: Script) | NativeReload | NativeCommands

  // ---------- loading ----------

  function Loadable(disk: Disk, path: Path): Option<Script> {
    if path in disk && disk[path].Some? && disk[path].value.name != "" then disk[path] else None
  }

  function Names(s: Script): seq<string> {
    [s.name] + s.aliases
  }

  predicate Declares(disk: Disk, path: Path, name: string) {
    Loadable(disk, path).Some? && name in Names(Loadable(disk, path).value)
  }

  function Bind(c: Commands, names: seq<string>, path: Path, s: Script): (r: Commands)
    ensures forall n :: n in names ==> n in r.files && r.files[n] == path && n in r.metadata && r.metadata[n] == s
    ensures forall n :: n !in names ==> (n in r.files <==> n in c.files) && (n in r.metadata <==> n in c.metadata)
    ensures forall n :: n !in names && n in c.files ==> r.files[n] == c.files[n]
    ensures forall n :: n !in names && n in c.metadata ==> r.metadata[n] == c.metadata[n]
  {
    if |names| == 0 then c
    else
      var b := Bind(c, names[..|names| - 1], path, s);
      Commands(b.files[names[|names| - 1] := path], b.metadata[names[|names| - 1] := s])
  }

  function Load(c: Commands, path: Path, disk: Disk): Commands {
    match Loadable(disk, path)
    case None => c
    case Some(s) => Bind(c, Names(s), path, s)
  }

  /** Loading a usable file binds its name and every alias to it and to its table, and touches no other
      name; any other file changes nothing. */
  lemma LoadSpelledOut(c: Commands, path: Path, disk: Disk)
    ensures var r := Load(c, path, disk);
            if path in disk && disk[path].Some? && disk[path].value.name != "" then
              var s := disk[path].value;
              && (forall n :: n == s.name || n in s.aliases ==>
                    n in r.files && r.files[n] == path && n in r.metadata && r.metadata[n] == s)
              && (forall n :: n != s.name && n !in s.aliases ==>
                    && (n in r.files <==> n in c.files) && (n in c.files ==> r.files[n] == c.files[n])
                    && (n in r.metadata <==> n in c.metadata) && (n in c.metadata ==> r.metadata[n] == c.metadata[n]))
            else r == c
  {
    if path in disk && disk[path].Some? && disk[path].value.name != "" {
      var s := disk[path].value;
      forall n ensures n in Names(s) <==> n == s.name || n in s.aliases {
      }
    }
  }

  /** A file declares the name of its table and every alias in it. */
  lemma DeclaresSpelledOut(disk: Disk, path: Path, n: string)
    ensures Declares(disk, path, n)
       <==> path in disk && disk[path].Some? && disk[path].value.name != ""
            && (n == disk[path].value.name || n in disk[path].value.aliases)
  {
  }

  function LoadAll(c: Commands, paths: seq<Path>, disk: Disk): Commands {
    if |paths| == 0 then c
    else Load(LoadAll(c, paths[..|paths| - 1], disk), paths[|paths| - 1], disk)
  }

  /** The last of `paths` whose file declares `name`. */
  function LastDeclaring(paths: seq<Path>, disk: Disk, name: string): (r: Option<Path>)
    ensures r.Some? ==> r.value in paths && Declares(disk, r.value, name)
    ensures r.None? ==> forall i :: 0 <= i < |paths| ==> !Declares(disk, paths[i], name)
  {
    if |paths| == 0 then None
    else if Declares(disk, paths[|paths| - 1], name) then Some(paths[|paths| - 1])
    else LastDeclaring(paths[..|paths| - 1], disk, name)
  }

  lemma {:induction false} LastDeclaringIsLast(paths: seq<Path>, disk: Disk, name: string) returns (i: nat)
    requires LastDeclaring(paths, disk, name).Some?
    ensures i < |paths| && paths[i] == LastDeclaring(paths, disk, name).value && Declares(disk, paths[i], name)
    ensures forall j :: i < j < |paths| ==> !Declares(disk, paths[j], name)
  {
    if Declares(disk, paths[|paths| - 1], name) {
      i := |paths| - 1;
    } else {
      i := LastDeclaringIsLast(paths[..|paths| - 1], disk, name);
    }
  }

  /** Loading writes a name's file and metadata together, and the last file to declare it wins both. */
  lemma {:induction false} LastDeclaringFileWins(c: Commands, paths: seq<Path>, disk: Disk, name: string)
    ensures var r := LoadAll(c, paths, disk);
            match LastDeclaring(paths, disk, name)
            case Some(p) => name in r.files && r.files[name] == p
                            && name in r.metadata && r.metadata[name] == Loadable(disk, p).value
            case None => (name in r.files <==> name in c.files) && (name in r.metadata <==> name in c.metadata)
                         && (name in c.files ==> r.files[name] == c.files[name])
                         && (name in c.metadata ==> r.metadata[name] == c.metadata[name])
  {
    if |paths| > 0 {
      LastDeclaringFileWins(c, paths[..|paths| - 1], disk, name);
    }
  }

  // ---------- reloading ----------

  /** `order` lists each of `keys` once: one way of walking an unordered map. */
  ghost predicate Enumerates(order: seq<string>, keys: set<string>) {
    && (forall n :: n in order <==> n in keys)
    && (forall i, j :: 0 <= i < j < |order| ==> order[i] != order[j])
  }

  function PathsOf(files: map<string, Path>, order: seq<string>): (r: seq<Path>)
    requires forall n :: n in order ==> n in files
    ensures |r| == |order| && forall i :: 0 <= i < |order| ==> r[i] == files[order[i]]
  {
    seq(|order|, i requires 0 <= i < |order| => files[order[i]])
  }

  function Reload(c: Commands, order: seq<string>, disk: Disk): Commands
    requires forall n :: n in order ==> n in c.files
  {
    LoadAll(Commands(map[], c.metadata), PathsOf(c.files, order), disk)
  }

  /** After a reload a name is loaded exactly when the table of some file that was loaded gives it, as its
      name or an alias; it maps to such a file and to that file's table. Other metadata stays. */
  lemma ReloadSpelledOut(c: Commands, order: seq<string>, disk: Disk, n: string)
    requires Enumerates(order, c.files.Keys)
    ensures var r := Reload(c, order, disk);
            && (n in r.files <==>
                  exists m :: m in c.files && c.files[m] in disk && disk[c.files[m]].Some?
                              && var s := disk[c.files[m]].value; s.name != "" && (n == s.name || n in s.aliases))
            && (n in r.files ==>
                  && r.files[n] in c.files.Values && r.files[n] in disk && disk[r.files[n]].Some?
                  && var s := disk[r.files[n]].value;
                     (n == s.name || n in s.aliases) && n in r.metadata && r.metadata[n] == s)
            && (n !in r.files ==>
                  (n in r.metadata <==> n in c.metadata) && (n in c.metadata ==> r.metadata[n] == c.metadata[n]))
  {
    var paths := PathsOf(c.files, order);
    LastDeclaringFileWins(Commands(map[], c.metadata), paths, disk, n);
    if LastDeclaring(paths, disk, n).Some? {
      var i := LastDeclaringIsLast(paths, disk, n);
      DeclaresSpelledOut(disk, paths[i], n);
      assert order[i] in c.files && c.files[order[i]] == paths[i];
    } else {
      forall m | m in c.files ensures !Declares(disk, c.files[m], n) {
        var i :| 0 <= i < |order| && order[i] == m;
        assert paths[i] == c.files[m];
      }
    }
  }

  /** The loaded names are complete for the disk: each maps to a file that declares it, with that
      file's metadata, and no name of a listed file is missing. */
  ghost predicate Settled(c: Commands, disk: Disk) {
    forall n :: n in c.files ==>
      && Declares(disk, c.files[n], n)
      && n in c.metadata && c.metadata[n] == Loadable(disk, c.files[n]).value
      && forall m :: m in Names(Loadable(disk, c.files[n]).value) ==> m in c.files
  }

  /** Loading from scratch settles, whatever is loaded and however often. */
  lemma {:induction false} LoadingSettles(metadata: map<string, Script>, paths: seq<Path>, disk: Disk)
    ensures Settled(LoadAll(Commands(map[], metadata), paths, disk), disk)
  {
    var c := Commands(map[], metadata);
    var r := LoadAll(c, paths, disk);
    forall n | n in r.files
      ensures Declares(disk, r.files[n], n)
      ensures n in r.metadata && r.metadata[n] == Loadable(disk, r.files[n]).value
      ensures forall m :: m in Names(Loadable(disk, r.files[n]).value) ==> m in r.files
    {
      LastDeclaringFileWins(c, paths, disk, n);
      var p := r.files[n];
      var i :| 0 <= i < |paths| && paths[i] == p;
      forall m | m in Names(Loadable(disk, p).value) ensures m in r.files {
        assert Declares(disk, paths[i], m);
        LastDeclaringFileWins(c, paths, disk, m);
      }
    }
  }

  lemma ReloadKeepsName(c: Commands, order: seq<string>, disk: Disk, n: string)
    requires Settled(c, disk) && Enumerates(order, c.files.Keys)
    ensures n in Reload(c, order, disk).files <==> n in c.files
  {
    var paths := PathsOf(c.files, order);
    LastDeclaringFileWins(Commands(map[], c.metadata), paths, disk, n);
    if n in c.files {
      var i :| 0 <= i < |order| && order[i] == n;
      assert Declares(disk, paths[i], n);
    }
    if LastDeclaring(paths, disk, n).Some? {
      var i :| 0 <= i < |paths| && paths[i] == LastDeclaring(paths, disk, n).value;
      assert order[i] in c.files;
    }
  }

  /** Reloading an unchanged disk keeps the set of names, even when files share names. */
  lemma ReloadKeepsNames(c: Commands, order: seq<string>, disk: Disk)
    requires Settled(c, disk) && Enumerates(order, c.files.Keys)
    ensures Reload(c, order, disk).files.Keys == c.files.Keys
    ensures Settled(Reload(c, order, disk), disk)
  {
    forall n ensures n in Reload(c, order, disk).files <==> n in c.files {
      ReloadKeepsName(c, order, disk, n);
    }
    LoadingSettles(c.metadata, PathsOf(c.files, order), disk);
  }

  /** No two of the loaded files declare a common name. */
  ghost predicate NoSharedNames(c: Commands, disk: Disk) {
    forall a, b, n :: a in c.files && b in c.files && Declares(disk, c.files[a], n) && Declares(disk, c.files[b], n) ==>
      c.files[a] == c.files[b]
  }

  lemma UnsharedNameIsUnmoved(c: Commands, order: seq<string>, disk: Disk, n: string)
    requires Settled(c, disk) && Enumerates(order, c.files.Keys) && NoSharedNames(c, disk)
    requires n in c.files && n in Reload(c, order, disk).files
    ensures Reload(c, order, disk).files[n] == c.files[n]
  {
    var paths := PathsOf(c.files, order);
    LastDeclaringFileWins(Commands(map[], c.metadata), paths, disk, n);
    var p := LastDeclaring(paths, disk, n).value;
    var i :| 0 <= i < |paths| && paths[i] == p;
    var m := order[i];
    assert m in order && c.files[m] == p;
    assert Declares(disk, c.files[m], n) && Declares(disk, c.files[n], n);
  }

  lemma UnmovedMetadata(c: Commands, order: seq<string>, disk: Disk, n: string)
    requires Settled(c, disk) && Enumerates(order, c.files.Keys) && Reload(c, order, disk).files == c.files
    ensures n in Reload(c, order, disk).metadata <==> n in c.metadata
    ensures n in c.metadata ==> Reload(c, order, disk).metadata[n] == c.metadata[n]
  {
    LastDeclaringFileWins(Commands(map[], c.metadata), PathsOf(c.files, order), disk, n);
  }

  lemma UnsharedFilesAreUnmoved(c: Commands, order: seq<string>, disk: Disk)
    requires Settled(c, disk) && Enumerates(order, c.files.Keys) && NoSharedNames(c, disk)
    ensures Reload(c, order, disk).files == c.files
  {
    var files := Reload(c, order, disk).files;
    forall n ensures (n in files <==> n in c.files) && (n in c.files ==> files[n] == c.files[n]) {
      ReloadKeepsName(c, order, disk, n);
      if n in c.files {
        UnsharedNameIsUnmoved(c, order, disk, n);
      }
    }
  }

  lemma UnmovedFilesKeepMetadata(c: Commands, order: seq<string>, disk: Disk)
    requires Settled(c, disk) && Enumerates(order, c.files.Keys) && Reload(c, order, disk).files == c.files
    ensures Reload(c, order, disk).metadata == c.metadata
  {
    var metadata := Reload(c, order, disk).metadata;
    forall n ensures (n in metadata <==> n in c.metadata) && (n in c.metadata ==> metadata[n] == c.metadata[n]) {
      UnmovedMetadata(c, order, disk, n);
    }
  }

  lemma ReloadWithoutSharing(c: Commands, order: seq<string>, disk: Disk)
    requires Settled(c, disk) && Enumerates(order, c.files.Keys) && NoSharedNames(c, disk)
    ensures Reload(c, order, disk) == c
  {
    UnsharedFilesAreUnmoved(c, order, disk);
    UnmovedFilesKeepMetadata(c, order, disk);
  }

  lemma {:induction false} SomeOrder(keys: set<string>) returns (order: seq<string>)
    ensures Enumerates(order, keys)
  {
    if keys == {} {
      order := [];
    } else {
      var n :| n in keys;
      var rest := SomeOrder(keys - {n});
      order := rest + [n];
    }
  }

  /** When two loaded files share a name, some order moves that name to another file. */
  lemma SharingChangesSomeReload(c: Commands, disk: Disk, a: string, b: string, n: string) returns (order: seq<string>)
    requires Settled(c, disk) && a in c.files && b in c.files && c.files[a] != c.files[b]
    requires Declares(disk, c.files[a], n) && Declares(disk, c.files[b], n)
    ensures Enumerates(order, c.files.Keys) && Reload(c, order, disk) != c
  {
    assert n in c.files;
    var last := if c.files[a] == c.files[n] then b else a;
    var rest := SomeOrder(c.files.Keys - {last});
    order := rest + [last];
    var paths := PathsOf(c.files, order);
    assert paths[|paths| - 1] == c.files[last];
    LastDeclaringFileWins(Commands(map[], c.metadata), paths, disk, n);
  }

  /** A reload of an unchanged disk is a no-op for every iteration order exactly when no name is shared. */
  lemma ReloadIsDeterministicIff(c: Commands, disk: Disk)
    requires Settled(c, disk)
    ensures (forall order :: Enumerates(order, c.files.Keys) ==> Reload(c, order, disk) == c)
        <==> NoSharedNames(c, disk)
  {
    if NoSharedNames(c, disk) {
      forall order | Enumerates(order, c.files.Keys) ensures Reload(c, order, disk) == c {
        ReloadWithoutSharing(c, order, disk);
      }
    } else {
      var a, b, n :| a in c.files && b in c.files && Declares(disk, c.files[a], n) && Declares(disk, c.files[b], n)
                     && c.files[a] != c.files[b];
      var order := SharingChangesSomeReload(c, disk, a, b, n);
    }
  }

  // ---------- registering ----------

  /** Registration runs the file again and gives up on an `execute` that is not a function. */
  function HandlerFor(files: map<string, Path>, disk: Disk, name: string): Option<Handler>
    requires name in files
  {
    if files[name] in disk && disk[files[name]].Some? && disk[files[name]].value.execute.Function?
    then Some(LuaCommand(name, disk[files[name]].value)) else None
  }

  function Registrations(files: map<string, Path>, disk: Disk, order: seq<string>): (r: seq<Registration<Handler>>)
    requires forall n :: n in order ==> n in files
    ensures |r| == |order|
    ensures forall i :: 0 <= i < |order| ==> r[i] == Registration(order[i], HandlerFor(files, disk, order[i]))
  {
    seq(|order|, i requires 0 <= i < |order| => Registration(order[i], HandlerFor(files, disk, order[i])))
  }

  function RegisterLua(handlers: map<string, Handler>, files: map<string, Path>, disk: Disk, order: seq<string>)
    : map<string, Handler>
    requires forall n :: n in order ==> n in files
  {
    RegisterAll(handlers, Registrations(files, disk, order))
  }

  /** Every loaded name whose file holds a function gets a handler, under its lower-cased form: its own,
      unless another loaded name differs from it only in case and took the key. */
  lemma RegistrationSpelledOut(handlers: map<string, Handler>, files: map<string, Path>, disk: Disk, order: seq<string>,
                               n: string, s: Script)
    requires Enumerates(order, files.Keys)
    requires n in files && n != "" && files[n] in disk && disk[files[n]] == Some(s) && s.execute.Function?
    ensures var r, k := RegisterLua(handlers, files, disk, order), Lower(n);
            && k in r && r[k].LuaCommand? && Lower(r[k].name) == k
            && r[k].name in files && files[r[k].name] in disk && disk[files[r[k].name]] == Some(r[k].script)
            && r[k].script.execute.Function?
            && ((forall m :: m in files && Lower(m) == k ==> m == n) ==> r[k] == LuaCommand(n, s))
  {
    var rs, k := Registrations(files, disk, order), Lower(n);
    LatestRegistrationWins(handlers, rs, k);
    var i :| 0 <= i < |order| && order[i] == n;
    assert Accepted(rs[i]) && Lower(rs[i].name) == k;
    var h := LastAccepted(rs, k).value;
    var j :| 0 <= j < |rs| && Lower(rs[j].name) == k && rs[j].handler == Some(h);
    var m := order[j];
    assert m in order && rs[j] == Registration(m, HandlerFor(files, disk, m));
  }

  /** Any other key keeps what it had. */
  lemma RegistrationTouchesNothingElse(handlers: map<string, Handler>, files: map<string, Path>, disk: Disk,
                                       order: seq<string>, k: string)
    requires Enumerates(order, files.Keys)
    requires forall n :: n in files && n != "" && Lower(n) == k ==>
               files[n] !in disk || disk[files[n]].None? || disk[files[n]].value.execute.NotAFunction?
    ensures var r := RegisterLua(handlers, files, disk, order);
            (k in r <==> k in handlers) && (k in handlers ==> r[k] == handlers[k])
  {
    var rs := Registrations(files, disk, order);
    LatestRegistrationWins(handlers, rs, k);
    forall i | 0 <= i < |rs| && Lower(rs[i].name) == k ensures !Accepted(rs[i]) {
      assert order[i] in files;
    }
  }

  // ---------- handlers and metadata stay in step ----------

  /** Handlers sit under the lower-cased name they captured and run a function. */
  ghost predicate WellKeyed(handlers: map<string, Handler>) {
    forall k :: k in handlers && handlers[k].LuaCommand? ==>
      handlers[k].name != "" && Lower(handlers[k].name) == k && handlers[k].script.execute.Function?
  }

  /** The lookup that opens every Lua handler succeeds. */
  ghost predicate HasMetadata(handlers: map<string, Handler>, metadata: map<string, Script>) {
    forall k :: k in handlers && handlers[k].LuaCommand? ==> handlers[k].name in metadata
  }

  /** The metadata that gates a handler comes from the file version whose function it runs. */
  predicate InStep(h: Handler, metadata: map<string, Script>) {
    h.LuaCommand? ==> h.name in metadata && metadata[h.name] == h.script
  }

  ghost predicate SameVersions(handlers: map<string, Handler>, metadata: map<string, Script>) {
    forall k :: k in handlers ==> InStep(handlers[k], metadata)
  }

  /** A standing handler whose name was reloaded from a file that cannot be registered, with nothing
      else registered over it. */
  ghost predicate Stranded(handlers: map<string, Handler>, files: map<string, Path>, disk: Disk, n: string) {
    && n in files && n != "" && HandlerFor(files, disk, n).None?
    && Lower(n) in handlers && handlers[Lower(n)].LuaCommand? && handlers[Lower(n)].name == n
    && forall m :: m in files && m != "" && Lower(m) == Lower(n) ==> HandlerFor(files, disk, m).None?
  }

  /** The state after loading `paths` over an emptied files map and registering the result. */
  ghost predicate Cycle(c: Commands, handlers: map<string, Handler>, paths: seq<Path>, order: seq<string>, disk: Disk,
                        c': Commands, handlers': map<string, Handler>) {
    && c' == LoadAll(Commands(map[], c.metadata), paths, disk)
    && Enumerates(order, c'.files.Keys)
    && handlers' == RegisterLua(handlers, c'.files, disk, order)
  }

  /** Where a handler comes from after a cycle: freshly registered and in step, or left standing. */
  lemma HandlerAfterCycle(c: Commands, handlers: map<string, Handler>, paths: seq<Path>, order: seq<string>, disk: Disk,
                          c': Commands, handlers': map<string, Handler>, k: string)
    requires Cycle(c, handlers, paths, order, disk, c', handlers') && k in handlers'
    ensures (exists n :: n in c'.files && n != "" && Lower(n) == k && HandlerFor(c'.files, disk, n) == Some(handlers'[k])
                         && InStep(handlers'[k], c'.metadata))
         || (k in handlers && handlers'[k] == handlers[k]
             && forall n :: n in c'.files && n != "" && Lower(n) == k ==> HandlerFor(c'.files, disk, n).None?)
  {
    var rs := Registrations(c'.files, disk, order);
    LatestRegistrationWins(handlers, rs, k);
    if LastAccepted(rs, k).Some? {
      var i :| 0 <= i < |rs| && Accepted(rs[i]) && Lower(rs[i].name) == k && rs[i].handler == Some(handlers'[k]);
      var n := order[i];
      assert n in order;
      LastDeclaringFileWins(Commands(map[], c.metadata), paths, disk, n);
      assert InStep(handlers'[k], c'.metadata);
    } else {
      forall n | n in c'.files && n != "" && Lower(n) == k ensures HandlerFor(c'.files, disk, n).None? {
        var i :| 0 <= i < |order| && order[i] == n;
        assert !Accepted(rs[i]);
      }
    }
  }

  /** Whatever is on disk, a cycle leaves every Lua handler well keyed and with metadata. */
  lemma CycleKeepsMetadata(c: Commands, handlers: map<string, Handler>, paths: seq<Path>, order: seq<string>, disk: Disk,
                           c': Commands, handlers': map<string, Handler>)
    requires Cycle(c, handlers, paths, order, disk, c', handlers')
    requires WellKeyed(handlers) && HasMetadata(handlers, c.metadata)
    ensures WellKeyed(handlers') && HasMetadata(handlers', c'.metadata)
  {
    forall k | k in handlers' && handlers'[k].LuaCommand?
      ensures handlers'[k].name != "" && Lower(handlers'[k].name) == k && handlers'[k].script.execute.Function?
      ensures handlers'[k].name in c'.metadata
    {
      HandlerAfterCycle(c, handlers, paths, order, disk, c', handlers', k);
      LastDeclaringFileWins(Commands(map[], c.metadata), paths, disk, handlers'[k].name);
    }
  }

  /** Starting in step, a cycle ends in step exactly when it strands no handler. */
  lemma CycleKeepsVersionsIff(c: Commands, handlers: map<string, Handler>, paths: seq<Path>, order: seq<string>, disk: Disk,
                              c': Commands, handlers': map<string, Handler>)
    requires Cycle(c, handlers, paths, order, disk, c', handlers')
    requires WellKeyed(handlers) && SameVersions(handlers, c.metadata)
    ensures SameVersions(handlers', c'.metadata) <==> forall n :: !Stranded(handlers, c'.files, disk, n)
  {
    var empty := Commands(map[], c.metadata);
    if forall n :: !Stranded(handlers, c'.files, disk, n) {
      forall k | k in handlers' ensures InStep(handlers'[k], c'.metadata) {
        HandlerAfterCycle(c, handlers, paths, order, disk, c', handlers', k);
        if handlers'[k].LuaCommand? && !InStep(handlers'[k], c'.metadata) {
          var n := handlers'[k].name;
          LastDeclaringFileWins(empty, paths, disk, n);
          assert InStep(handlers[k], c.metadata);
          assert Stranded(handlers, c'.files, disk, n);
        }
      }
    }
    forall n | Stranded(handlers, c'.files, disk, n) ensures !SameVersions(handlers', c'.metadata) {
      var k := Lower(n);
      var rs := Registrations(c'.files, disk, order);
      LatestRegistrationWins(handlers, rs, k);
      assert k in handlers';
      HandlerAfterCycle(c, handlers, paths, order, disk, c', handlers', k);
      LastDeclaringFileWins(empty, paths, disk, n);
      assert !InStep(handlers'[k], c'.metadata);
    }
  }

  /** Every file that loads has a function to run. */
  ghost predicate OnlyFunctions(disk: Disk) {
    forall p :: p in disk && Loadable(disk, p).Some? ==> Loadable(disk, p).value.execute.Function?
  }

  lemma FunctionsStrandNothing(c: Commands, handlers: map<string, Handler>, paths: seq<Path>, disk: Disk)
    requires OnlyFunctions(disk)
    ensures forall n :: !Stranded(handlers, LoadAll(Commands(map[], c.metadata), paths, disk).files, disk, n)
  {
    forall n ensures !Stranded(handlers, LoadAll(Commands(map[], c.metadata), paths, disk).files, disk, n) {
      LastDeclaringFileWins(Commands(map[], c.metadata), paths, disk, n);
    }
  }

  /** Loading one file without aliases. */
  lemma LoadingOneFile(metadata: map<string, Script>, path: Path, disk: Disk, s: Script)
    requires Loadable(disk, path) == Some(s) && s.aliases == []
    ensures LoadAll(Commands(map[], metadata), [path], disk) == Commands(map[s.name := path], metadata[s.name := s])
  {
    var empty := Commands(map[], metadata);
    assert [path][..0] == [] && Names(s) == [s.name] && [s.name][..0] == [];
    assert LoadAll(empty, [], disk) == empty;
    assert Bind(empty, [], path, s) == empty;
  }

  /** No two names that can be registered differ only in letter case. */
  ghost predicate NoCaseCollision(files: map<string, Path>, disk: Disk) {
    forall m, n :: m in files && n in files && HandlerFor(files, disk, m).Some? && HandlerFor(files, disk, n).Some? ==>
      Lower(m) == Lower(n) ==> m == n
  }

  /** Whatever the order, a key ends with the one name that can be registered there. */
  lemma SoleRegistrant(files: map<string, Path>, disk: Disk, order: seq<string>, n: string)
    requires Enumerates(order, files.Keys) && NoCaseCollision(files, disk)
    requires n in files && n != "" && HandlerFor(files, disk, n).Some?
    ensures LastAccepted(Registrations(files, disk, order), Lower(n)) == HandlerFor(files, disk, n)
  {
    var rs := Registrations(files, disk, order);
    var i :| 0 <= i < |order| && order[i] == n;
    assert Accepted(rs[i]) && Lower(rs[i].name) == Lower(n);
    var h := LastAccepted(rs, Lower(n)).value;
    var j :| 0 <= j < |rs| && Lower(rs[j].name) == Lower(n) && rs[j].handler == Some(h);
    var m := order[j];
    assert m in order && rs[j] == Registration(m, HandlerFor(files, disk, m));
    assert HandlerFor(files, disk, m).Some? && Lower(m) == Lower(n);
    assert m == n;
  }

  /** Two orders that both register something at a key agree on it. */
  lemma OrdersAgree(files: map<string, Path>, disk: Disk, order1: seq<string>, order2: seq<string>, k: string)
    requires Enumerates(order1, files.Keys) && Enumerates(order2, files.Keys) && NoCaseCollision(files, disk)
    requires LastAccepted(Registrations(files, disk, order2), k).Some?
    ensures LastAccepted(Registrations(files, disk, order1), k) == LastAccepted(Registrations(files, disk, order2), k)
  {
    var rs := Registrations(files, disk, order2);
    var i :| 0 <= i < |rs| && Accepted(rs[i]) && Lower(rs[i].name) == k && rs[i].handler == LastAccepted(rs, k);
    var n := order2[i];
    assert n in order2 && rs[i] == Registration(n, HandlerFor(files, disk, n));
    SoleRegistrant(files, disk, order1, n);
    SoleRegistrant(files, disk, order2, n);
  }

  /** Registering again, in any other order, changes nothing. */
  lemma RegisteringAgain(handlers: map<string, Handler>, files: map<string, Path>, disk: Disk,
                         order1: seq<string>, order2: seq<string>)
    requires Enumerates(order1, files.Keys) && Enumerates(order2, files.Keys) && NoCaseCollision(files, disk)
    ensures RegisterLua(RegisterLua(handlers, files, disk, order1), files, disk, order2)
         == RegisterLua(handlers, files, disk, order1)
  {
    var once := RegisterLua(handlers, files, disk, order1);
    var twice := RegisterLua(once, files, disk, order2);
    forall k ensures (k in twice <==> k in once) && (k in once ==> twice[k] == once[k]) {
      var rs1, rs2 := Registrations(files, disk, order1), Registrations(files, disk, order2);
      if LastAccepted(rs2, k).Some? {
        OrdersAgree(files, disk, order1, order2, k);
      }
      RegisteredBefore(handlers, rs1, rs2, k);
    }
  }

  /** The native `reload` survives a cycle exactly when no registrable name lower-cases to it. */
  lemma ReloadCommandSurvivesIff(c: Commands, handlers: map<string, Handler>, paths: seq<Path>, order: seq<string>, disk: Disk,
                                 c': Commands, handlers': map<string, Handler>)
    requires Cycle(c, handlers, paths, order, disk, c', handlers')
    requires "reload" in handlers && handlers["reload"] == NativeReload
    ensures "reload" in handlers'
    ensures handlers'["reload"] == NativeReload
       <==> forall n :: n in c'.files && Lower(n) == "reload" ==> HandlerFor(c'.files, disk, n).None?
  {
    LatestRegistrationWins(handlers, Registrations(c'.files, disk, order), "reload");
    HandlerAfterCycle(c, handlers, paths, order, disk, c', handlers', "reload");
    assert forall n {:trigger Lower(n)} :: Lower(n) == "reload" ==> n != "";
  }
}
