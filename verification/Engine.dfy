/** The Lua command engine as an object (src/core/lua_command_engine.cpp). */
module Engine {
  import opened Text
  import opened Cooldown
  import opened Parser
  import opened Registry
  import opened Gate

  /** How many of the entries load. */
  function LoadableCount(entries: seq<Path>, disk: Disk): nat {
    if |entries| == 0 then 0
    else LoadableCount(entries[..|entries| - 1], disk) + if Loadable(disk, entries[|entries| - 1]).Some? then 1 else 0
  }

  lemma {:induction false} LoadableCountCounts(entries: seq<Path>, disk: Disk)
    ensures var loading := set i | 0 <= i < |entries| && Loadable(disk, entries[i]).Some?;
            LoadableCount(entries, disk) == |loading|
  {
    var loading := set i | 0 <= i < |entries| && Loadable(disk, entries[i]).Some?;
    if |entries| > 0 {
      var shorter, k := entries[..|entries| - 1], |entries| - 1;
      var before := set i | 0 <= i < |shorter| && Loadable(disk, shorter[i]).Some?;
      LoadableCountCounts(shorter, disk);
      if Loadable(disk, entries[k]).Some? {
        assert loading == before + {k};
      } else {
        assert loading == before;
      }
    }
  }

  class LuaCommandEngine {
    var initialized: bool
    var commandFiles: map<string, Path>
    var commandMetadata: map<string, Script>
    const tracker: CooldownTracker

    function View(): Commands
      reads this
    {
      Commands(commandFiles, commandMetadata)
    }

    constructor ()
      ensures !initialized && View() == Commands(map[], map[])
      ensures fresh(tracker) && tracker.View() == FRESH_TRACKER
    {
      initialized, commandFiles, commandMetadata := false, map[], map[];
      tracker := new CooldownTracker();
    }

    method Initialize()
      modifies this
      ensures initialized && View() == old(View())
    {
      initialized := true;
    }

    method LoadLuaCommand(path: Path, disk: Disk) returns (loaded: bool)
      modifies this
      ensures initialized == old(initialized)
      ensures loaded <==> initialized && Loadable(disk, path).Some?
      ensures View() == if initialized then Load(old(View()), path, disk) else old(View())
    {
      if !initialized {
        return false;
      }
      if path !in disk {
        return false;
      }
      if disk[path].None? {
        return false;
      }
      var script := disk[path].value;
      if script.name == "" {
        return false;
      }
      commandFiles := commandFiles[script.name := path];
      commandMetadata := commandMetadata[script.name := script];
      ghost var names := Names(script);
      assert names[..1] == [script.name];
      for i := 0 to |script.aliases|
        invariant View() == Bind(old(View()), names[..i + 1], path, script)
        invariant initialized
      {
        var alias := script.aliases[i];
        commandMetadata := commandMetadata[alias := script];
        commandFiles := commandFiles[alias := path];
        assert names[..i + 2][..i + 1] == names[..i + 1];
      }
      assert names[..|names|] == names;
      return true;
    }

    /** `entries` are the .lua files in the order the directory scan met them. */
    method LoadCommandsFromDirectory(entries: seq<Path>, disk: Disk) returns (count: nat)
      modifies this
      ensures initialized == old(initialized)
      ensures View() == if initialized then LoadAll(old(View()), entries, disk) else old(View())
      ensures var loading := set i | 0 <= i < |entries| && Loadable(disk, entries[i]).Some?;
              count == if initialized then |loading| else 0
    {
      count := 0;
      for i := 0 to |entries|
        invariant initialized == old(initialized)
        invariant View() == if initialized then LoadAll(old(View()), entries[..i], disk) else old(View())
        invariant count == if initialized then LoadableCount(entries[..i], disk) else 0
      {
        assert entries[..i + 1][..i] == entries[..i];
        var loaded := LoadLuaCommand(entries[i], disk);
        if loaded {
          count := count + 1;
        }
      }
      assert entries[..|entries|] == entries;
      LoadableCountCounts(entries, disk);
    }

    /** Walks the files map in an arbitrary order, returned as `order`. */
    method ReloadAllCommands(disk: Disk) returns (ghost order: seq<string>)
      modifies this
      ensures initialized == old(initialized)
      ensures Enumerates(order, old(commandFiles).Keys)
      ensures View() == if initialized then Reload(old(View()), order, disk) else Commands(map[], old(commandMetadata))
    {
      var filesToReload := commandFiles;
      commandFiles := map[];
      order := [];
      var left := filesToReload.Keys;
      while left != {}
        invariant initialized == old(initialized) && left <= filesToReload.Keys
        invariant Enumerates(order, filesToReload.Keys - left)
        invariant var cleared := Commands(map[], old(commandMetadata));
                  View() == if initialized then LoadAll(cleared, PathsOf(filesToReload, order), disk) else cleared
      {
        var name :| name in left;
        var _ := LoadLuaCommand(filesToReload[name], disk);
        ghost var paths := PathsOf(filesToReload, order + [name]);
        assert paths[..|order|] == PathsOf(filesToReload, order);
        order := order + [name];
        left := left - {name};
      }
    }

    /** Registers the files in an arbitrary order, returned as `order`. */
    method RegisterWithParser(parser: CommandParser<Handler>, disk: Disk) returns (ghost order: seq<string>)
      modifies parser
      ensures !initialized ==> parser.commands == old(parser.commands)
      ensures initialized ==> Enumerates(order, commandFiles.Keys)
                              && parser.commands == RegisterLua(old(parser.commands), commandFiles, disk, order)
    {
      order := [];
      if !initialized {
        return;
      }
      var left := commandFiles.Keys;
      while left != {}
        invariant left <= commandFiles.Keys
        invariant Enumerates(order, commandFiles.Keys - left)
        invariant parser.commands == RegisterLua(old(parser.commands), commandFiles, disk, order)
      {
        var name :| name in left;
        left := left - {name};
        ghost var rs := Registrations(commandFiles, disk, order + [name]);
        assert rs[..|order|] == Registrations(commandFiles, disk, order);
        order := order + [name];
        var path := commandFiles[name];
        if path !in disk || disk[path].None? {
          continue;
        }
        var script := disk[path].value;
        if !script.execute.Function? {
          continue;
        }
        parser.RegisterCommand(name, Some(LuaCommand(name, script)));
      }
    }

    /** The loaded names, in an arbitrary order. */
    method GetLoadedCommands() returns (names: seq<string>)
      ensures Enumerates(names, commandFiles.Keys)
    {
      names := [];
      var left := commandFiles.Keys;
      while left != {}
        invariant left <= commandFiles.Keys
        invariant Enumerates(names, commandFiles.Keys - left)
      {
        var name :| name in left;
        names := names + [name];
        left := left - {name};
      }
    }

    /** The body of a Lua handler, up to the call of its function. The clock is read once by the check
        and once by the record. */
    method RunHandler(name: string, user: string, badges: seq<string>, checkTime: int, recordTime: int)
      returns (outcome: Outcome, reply: Option<string>)
      modifies tracker
      ensures outcome == Decide(commandMetadata, old(tracker.View()), name, user, badges, checkTime)
      ensures reply == ReplyTo(outcome)
      ensures tracker.View() == if outcome == Executed then old(tracker.View()).Record(name, user, recordTime)
                                else old(tracker.View())
    {
      if name !in commandMetadata {
        return ConfigurationError, Some("Command configuration error");
      }
      var meta := commandMetadata[name].meta;
      if !meta.enabled {
        return Disabled, None;
      }
      if !HasPermission(user, badges, meta) {
        return NotPermitted, Some("You don't have permission to use this command.");
      }
      var cooling := tracker.IsOnCooldown(name, user, meta, checkTime);
      if cooling {
        return CoolingDown, Some("Command is on cooldown.");
      }
      if meta.maxUsesPerStream > 0 {
        var currentUses := if name in tracker.commandUseCount then tracker.commandUseCount[name] else 0;
        if currentUses >= meta.maxUsesPerStream {
          return LimitReached, Some("Command has reached its usage limit for this stream.");
        }
      }
      tracker.RecordUsage(name, user, recordTime);
      return Executed, None;
    }
  }
}
