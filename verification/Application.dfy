/**
 The application object (src/application.cpp): its startup and its message callback, proved to be
 the start and the steps of module Bot.
 */
module Application {
  import opened Text
  import opened Parser
  import opened Cooldown
  import opened Registry
  import opened Gate
  import opened Engine
  import opened AppState
  import opened Bot

  class Application {
    const engine: LuaCommandEngine
    const parser: CommandParser<Handler>
    const chat: ChatState
    var disk: Disk
    ghost var log: seq<Entry>
    ghost var now: int
    ghost var effects: seq<Effect>

    ghost function View(): Bot
      reads this, engine, engine.tracker, parser, chat
    {
      Bot(disk, engine.View(), parser.commands, engine.tracker.View(), log, now, chat.View(), effects)
    }

    /** Builds the services, loads and registers the command files, then registers the native commands. */
    constructor (commandFiles: Disk, entries: seq<Path>)
      ensures engine.initialized
      ensures exists order :: Starts(commandFiles, entries, order, View())
    {
      engine := new LuaCommandEngine();
      parser := new CommandParser<Handler>();
      chat := new ChatState();
      disk, log, now, effects := commandFiles, [], 0, [];
      new;
      engine.Initialize();
      var _ := engine.LoadCommandsFromDirectory(entries, disk);
      ghost var order := engine.RegisterWithParser(parser, disk);
      ghost var lua := parser.commands;
      parser.RegisterCommand("reload", Some(NativeReload));
      parser.RegisterCommand("commands", Some(NativeCommands));
      RegisteringNatives(lua);
      assert Starts(commandFiles, entries, order, View());
    }

    /** The text of the `commands` reply. */
    method ListCommands(loaded: seq<string>) returns (response: string)
      ensures response == CommandsReply(loaded)
    {
      if |loaded| == 0 {
        return "No Lua commands loaded";
      }
      response := "Loaded commands: ";
      for i := 0 to |loaded|
        invariant response == "Loaded commands: " + Joined(loaded[..i], ", ")
      {
        ghost var before := Joined(loaded[..i], ", ");
        JoinedAppend(loaded[..i], ", ", loaded[i]);
        Regroup("Loaded commands: ", before, ", ", loaded[i]);
        assert loaded[..i + 1] == loaded[..i] + [loaded[i]];
        assert i == 0 ==> before == "" && "Loaded commands: " + "" == "Loaded commands: ";
        if i > 0 {
          response := response + ", ";
        }
        response := response + loaded[i];
      }
      assert loaded[..|loaded|] == loaded;
    }

    /** The native `reload` command. */
    method RunReload() returns (done: seq<Effect>, ghost loadOrder: seq<string>, ghost registerOrder: seq<string>)
      requires engine.initialized
      modifies this, engine, parser
      ensures engine.initialized && done == RELOAD_REPLIES
      ensures Enumerates(loadOrder, old(View()).commands.files.Keys)
      ensures Enumerates(registerOrder, Reload(old(View()).commands, loadOrder, old(disk)).files.Keys)
      ensures View() == ReloadStep(old(View()).(effects := old(effects) + RELOAD_REPLIES), loadOrder, registerOrder)
    {
      done := [Reply("Reloading Lua commands...")];
      loadOrder := engine.ReloadAllCommands(disk);
      registerOrder := engine.RegisterWithParser(parser, disk);
      done := done + [Reply("Lua commands reloaded!")];
      effects := effects + done;
    }

    /** The native `commands` command. */
    method RunCommands() returns (done: seq<Effect>, loaded: seq<string>)
      modifies this
      ensures Enumerates(loaded, engine.commandFiles.Keys) && done == [Reply(CommandsReply(loaded))]
      ensures disk == old(disk) && log == old(log) && now == old(now) && effects == old(effects) + done
    {
      loaded := engine.GetLoadedCommands();
      var response := ListCommands(loaded);
      done := [Reply(response)];
      effects := effects + done;
    }

    /** What the handler of a Lua command does with the message. */
    method RunLua(call: Call<Handler>, m: ChatMessage, checkTime: int, recordTime: int) returns (done: seq<Effect>)
      requires call.handler.LuaCommand?
      modifies this, engine.tracker
      ensures disk == old(disk) && now == old(now)
      ensures View() == LuaStep(old(View()), call, m, checkTime, recordTime)
      ensures effects == old(effects) + done
    {
      var name := call.handler.name;
      var outcome, reply := engine.RunHandler(name, m.user, m.badges, checkTime, recordTime);
      done := [];
      if outcome == Executed {
        var meta := engine.commandMetadata[name].meta;
        log := log + [Execution(name, m.user, checkTime, recordTime, meta)];
        done := [Ran(call, m, meta)];
      } else if reply.Some? {
        done := [Reply(reply.value)];
      }
      assert effects + [] == effects;
      effects := effects + done;
    }

    /** Pushes the message to the chat log, then runs the command it names, if any. `done` are the
        replies it sent and the Lua function it called. */
    method OnMessage(m: ChatMessage, checkTime: int, recordTime: int) returns (done: seq<Effect>, ghost e: Event)
      requires engine.initialized && now <= checkTime <= recordTime
      modifies this, engine, engine.tracker, parser, chat
      ensures engine.initialized
      ensures e.Message? && e.message == m && e.checkTime == checkTime && e.recordTime == recordTime
      ensures Enabled(old(View()), e) && View() == Step(old(View()), e)
      ensures effects == old(effects) + done
    {
      chat.PushChatMessage(m);
      now := recordTime;
      e := Message(m, checkTime, recordTime, [], []);
      done := [];
      var call := parser.ParseAndExecute(m.text);
      if call.None? {
        return;
      }
      match call.value.handler
      case NativeReload =>
        ghost var loadOrder, registerOrder;
        done, loadOrder, registerOrder := RunReload();
        e := Message(m, checkTime, recordTime, loadOrder, registerOrder);
      case NativeCommands =>
        var loaded;
        done, loaded := RunCommands();
        e := Message(m, checkTime, recordTime, loaded, []);
        assert View() == Step(old(View()), e);
      case LuaCommand(_, _) =>
        done := RunLua(call.value, m, checkTime, recordTime);
        assert View() == Step(old(View()), e);
    }
  }
}
