# SeraphBot in Dafny

SeraphBot is a Twitch bot. Its users write chat commands as Lua files. The bot loads them, gates them with
cooldowns, limits and badges, and can reload them while it runs. This project models the parts of the bot that
keep state over time, and proves what they promise over every run.

`dafny verify dfyconfig.toml` checks the whole project.

## Layout

| file | part of the bot |
|---|---|
| `Text.dfy` | character classes, lower-casing, joining |
| `Tokenizer.dfy`, `Grammar.dfy`, `Parser.dfy` | the quote-and-escape scanner, the language it reads, registration and dispatch |
| `Cooldown.dfy`, `Gate.dfy` | the rate limiter against the full history, badges, the checks before a command runs |
| `Registry.dfy`, `Engine.dfy` | loading, reloading and registering command files; the engine object |
| `Bot.dfy` | whole runs of messages, edits, reloads, resets and redraws |
| `Reloading.dfy`, `Effects.dfy` | what runs do to the loaded commands, and what they do in chat |
| `Application.dfy` | the application object, whose startup and callback are the start and steps of a run |
| `AppState.dfy` | the queue of pending chat messages |
| `Session.dfy`, `TwitchService.dfy` | the login and chat-connection protocol under interleaving; the service object |
| `SoundList.dfy` | the paginated `!sfx list` |
| `Whitelist.dfy` | the directory whitelist |
| `LoginPoll.dfy` | polling for login tokens |

Objects that the program changes in place are classes. Each method is proved against a function on values, and
the results over runs are proved about those functions.

## Main results

* **Histories.** In every run a request runs, with its words as typed, exactly when metadata, badges and the whole
  history admit it; otherwise nothing is recorded. The tracker keeps one timestamp per scope and truncates to seconds.
  It still refuses exactly when the full history has an execution inside a window. So in every run of messages, edits,
  reloads and resets, each execution respects every cooldown in force against every earlier execution, a scope runs at
  most once per cooldown and once more in any interval, and k names under a limit m run at most k·m times per stream.
* **Hot reload.** Every Lua handler finds its metadata in every run, so the configuration-error reply never appears.
  Handler and metadata stay on the same file version throughout a run exactly when no reload strands a handler; then
  every function was called under the metadata of its own version. Stranding needs an `execute` field that is not
  a function, and a concrete run shows it. Reloading an unchanged disk keeps the engine's two maps, for every iteration
  order, exactly when no two loaded files share a name; with shared names the set of names still survives. It keeps
  the parser's handlers too exactly when, besides, no two registrable names differ only in letter case. The commands
  can never change again exactly when a Lua command has taken the name `reload`, or nothing is loaded.
* **Tokenizer.** Every text has a reading in a small grammar of gaps, plain and escaped characters and quotations, and
  its tokens are the words of that reading. `tokenize(joinArgs(args)) == args` exactly for non-empty arguments without
  space, quote or backslash.
  A space splits exactly when it is read outside quotes with no escape pending. A quoting printer is inverted up to
  empty tokens, so the tokenizations are exactly the lists of non-empty words. Tokenizing commutes with lower-casing.
* **Session.** Under the buttons the screen offers, every interleaving keeps at most one login or connect in flight,
  services that are all absent or all copies of the live configuration, and posts whose sender is the broadcaster.
  Every run keeps this exactly when Disconnect is offered neither during a login nor during a connect; a concrete run
  shows a message posted for the wrong user otherwise. Under the offered buttons the events alone tell the state and
  whether the services live: chat is connected exactly after three resumptions of a connect that started right after a
  login. A login or connect takes at most three steps of its own and ends where Disconnect is offered.
* **Sound list.** Over every 64-bit page number, including those whose start index wraps, a sound is listed on some
  page exactly when its name has at most 432 characters. Among the pages that do not wrap it is listed exactly when
  its home page fits up to it, and 26 is the largest name length for which every sound is on its home page. Every reply
  is under 500 characters.

## Assumptions

* A Lua file is loaded deterministically, and the disk does not change within one load-and-register cycle.
* A path that is missing, whose script fails, or whose table lacks a field is one that does not load.
* Registration gives up on an `execute` that is not a function, as the check at
  `src/core/lua_command_engine.cpp:249` intends.
* Each stretch of a coroutine between two `co_await`s is atomic. A click acts on the state that offered the button.
* The steady clock is monotone and starts at its epoch. Chat messages are handled one after another.
* `isspace` and `tolower` are those of the C locale on ASCII.

## Model

| member | source | states |
|---|---|---|
| `Tokenizer.Tokenize` | src/core/command_parser.cpp:111-150 | the scanning loop computes `Tokens`, which the grammar and the round trips below determine on every text |
| `Tokenizer.JoinArgs` | src/core/command_parser.cpp:152-162 | the joining loop gives the arguments from the start index on, with single spaces between; the empty string past the end |
| `Tokenizer.JoinRoundTrip` | src/core/command_parser.cpp:111-162 | tokenizing the joined arguments gives them back if and only if each is non-empty and free of spaces, quotes and backslashes |
| `Tokenizer.SurvivorsArePlain` | src/core/command_parser.cpp:111-162 | the hard direction, by counting the characters a scan can waste |
| `Tokenizer.SplitAtSpace` | src/core/command_parser.cpp:135-139 | a space separates what is before it from every continuation if and only if it is read outside quotes with no escape pending |
| `Tokenizer.PrintRoundTrip` | src/core/command_parser.cpp:118-149 | tokenizing words printed in quotes, with quotes and backslashes escaped, gives the non-empty ones in order |
| `Tokenizer.BackslashedRoundTrip` | src/core/command_parser.cpp:119-128 | a backslash keeps whatever character follows it: words with every character escaped, outside quotes, come back, empty ones dropped |
| `Tokenizer.TokenListsAreNonEmptyLists` | src/core/command_parser.cpp:111-150 | a list of words is the tokenization of some text if and only if none of them is empty |
| `Tokenizer.TokensLower` | src/core/command_parser.cpp:111-150 | tokenizing commutes with lower-casing |
| `Grammar.EveryTextHasAReading` | src/core/command_parser.cpp:118-147 | every text is spelled from gaps, plain characters, escaped characters and quotations, with at most an unclosed quotation and a lone backslash at its end |
| `Grammar.EveryTextReads` | src/core/command_parser.cpp:111-150 | the tokens of every text are the non-empty words of its reading; an unclosed quotation counts as closed, a lone final backslash as nothing |
| `Text.SpacesAreSix` | src/core/command_parser.cpp:135 | the six space characters of the C locale |
| `Text.LowerLetters` | src/core/command_parser.cpp:38-39 | lower-casing maps each capital letter to its small one and nothing else |
| `Parser.CommandParser.RegisterCommand` | src/core/command_parser.cpp:24-43 | an empty name or a null handler changes nothing; otherwise the handler replaces the one under the lower-cased name |
| `Parser.CommandParser.ParseAndExecute` | src/core/command_parser.cpp:50-109 | which handler runs, with which command word and arguments, or none |
| `Parser.LatestRegistrationWins` | src/core/command_parser.cpp:24-43 | after any registrations a key holds the handler of the last accepted one whose name lower-cases to it, else what it held before |
| `Parser.KeysAreLowerCase` | src/core/command_parser.cpp:27-41 | every key is a non-empty lower-case word |
| `Parser.DispatchIgnoresCase` | src/core/command_parser.cpp:50-109 | messages that differ only in letter case reach the same handler, with arguments equal up to case |
| `Parser.RegisteredCommandIsReachable` | src/core/command_parser.cpp:24-109 | every accepted name, in any letter case, can be called with any non-empty arguments by quoting, and they arrive unchanged |
| `Parser.EveryCommandReads` | src/core/command_parser.cpp:50-109 | for every text after the exclamation mark, the first word of its reading picks the handler and the others are the arguments; no word or an unknown one picks none |
| `Parser.PlainWordsArrive` | src/core/command_parser.cpp:50-109 | plain words arrive without quoting |
| `Parser.OtherTextIsNoCommand` | src/core/command_parser.cpp:45-55 | text that does not begin with an exclamation mark is no command |
| `Parser.LastAcceptedIsLast` | src/core/command_parser.cpp:41 | the handler a key holds is that of the last registration with a name and a handler |
| `Cooldown.CooldownTracker.IsOnCooldown` | src/core/lua_command_engine.cpp:16-56 | for every history the tracker summarises, true if and only if some execution of the full history lies in a positive window, the epoch counting as one global execution |
| `Cooldown.CooldownTracker.RecordUsage` | src/core/lua_command_engine.cpp:58-66 | the three timestamps and the counter after an execution |
| `Cooldown.CooldownTracker.ResetStreamCounters` | src/core/lua_command_engine.cpp:68-70 | only the use counters are cleared |
| `Cooldown.RecordSummary` | src/core/lua_command_engine.cpp:58-66 | recording keeps the tracker a summary of the history: latest time per scope, uses since the reset |
| `Cooldown.ResetSummary` | src/core/lua_command_engine.cpp:68-70 | a reset keeps the summary, and every cooldown in it |
| `Cooldown.UsesAreCounted` | src/core/lua_command_engine.cpp:65-69 | the uses of a name since the last reset are the number of its executions in the log that no reset follows |
| `Cooldown.TrackerAgreesWithHistory` | src/core/lua_command_engine.cpp:16-66 | keeping only the latest timestamp and truncating to seconds loses nothing |
| `Cooldown.AdmittedStaysSpaced` | src/core/lua_command_engine.cpp:271-289 | admitting only what the history allows keeps every pair of executions a cooldown apart, in every scope they share |
| `Cooldown.StreamBudget` | src/core/lua_command_engine.cpp:276-289 | between two resets, k names under one limit m run at most k·m times |
| `Cooldown.RateLimit` | src/core/lua_command_engine.cpp:16-66 | executions of a scope recorded within T seconds under a cooldown c number at most one more than T/c |
| `Gate.PermissionIsARank` | src/core/lua_command_engine.cpp:388-408 | the three flags ask for the strictest badge rank among them; a listed user needs none |
| `Gate.GateAgreesWithHistory` | src/core/lua_command_engine.cpp:255-290 | a request is executed if and only if metadata, badges and the whole history admit it, and each refusal has its first failing reason |
| `Gate.AdmissionSpelledOut` | src/core/lua_command_engine.cpp:264-287 | admission in terms of the log, the badges and nanoseconds: enabled, permitted, every positive cooldown over against every execution it counts, fewer uses than a positive limit |
| `Gate.RefusalsDiffer` | src/core/lua_command_engine.cpp:260-285 | each refusal that speaks has a text of its own; a disabled command says nothing |
| `Engine.LuaCommandEngine.LoadLuaCommand` | src/core/lua_command_engine.cpp:127-196 | success exactly when initialised and the file loads; the new maps are those of `Load`, spelled out in the next row |
| `Registry.LoadSpelledOut` | src/core/lua_command_engine.cpp:157-188 | a usable file binds its name and every alias to it and to its table and touches no other name; any other file changes nothing |
| `Engine.LuaCommandEngine.LoadCommandsFromDirectory` | src/core/lua_command_engine.cpp:198-226 | loads the entries in scan order and counts those that load |
| `Engine.LuaCommandEngine.ReloadAllCommands` | src/core/lua_command_engine.cpp:302-315 | clears only the files map and loads the old files in some order of their names |
| `Engine.LuaCommandEngine.RegisterWithParser` | src/core/lua_command_engine.cpp:228-300 | registers, in some order, each name whose file holds a function, and nothing when uninitialised |
| `Engine.LuaCommandEngine.RunHandler` | src/core/lua_command_engine.cpp:255-290 | the outcome of the checks in order with its reply; usage is recorded exactly when the command ran |
| `Registry.LastDeclaringFileWins` | src/core/lua_command_engine.cpp:179-185 | after any loads a name's file and metadata both come from the last file that declared it, else are unchanged |
| `Registry.LoadingSettles` | src/core/lua_command_engine.cpp:179-185 | after loading into an empty files map each name maps to a file that declares it, with that file's metadata, and no name of a listed file is missing |
| `Registry.ReloadKeepsNames` | src/core/lua_command_engine.cpp:302-315 | reloading an unchanged disk keeps the set of names in every order, even when files share names |
| `Registry.ReloadSpelledOut` | src/core/lua_command_engine.cpp:302-315 | after a reload a name is loaded exactly when some file that was loaded gives it as its name or an alias, and maps to such a file and its table; other metadata stays |
| `Registry.RegistrationSpelledOut` | src/core/lua_command_engine.cpp:238-292 | every loaded name whose file holds a function gets a handler under its lower-cased form, its own unless another name differs from it only in case |
| `Registry.RegistrationTouchesNothingElse` | src/core/lua_command_engine.cpp:238-292 | every other key keeps its handler |
| `Registry.ReloadIsDeterministicIff` | src/core/lua_command_engine.cpp:302-315 | reloading an unchanged disk gives back the same files and metadata in every order if and only if no two loaded files share a name |
| `Registry.CycleKeepsMetadata` | src/core/lua_command_engine.cpp:255-262 | after any load-and-register cycle every Lua handler has metadata |
| `Registry.CycleKeepsVersionsIff` | src/core/lua_command_engine.cpp:228-315 | a cycle keeps handlers and metadata on the same file versions if and only if it strands no handler |
| `Registry.ReloadCommandSurvivesIff` | src/application.cpp:111-117 | the native `reload` command survives a cycle if and only if no registrable name lower-cases to it |
| `Bot.EveryRunKeepsItsPromises` | src/core/lua_command_engine.cpp:16-70 | in every run each handler has metadata, and each execution respected every cooldown and limit in force against the whole history; reloads and resets weaken neither |
| `Bot.EveryRunKeepsVersionsIff` | src/application.cpp:109-117 | a run keeps every handler on the version that gates it throughout if and only if none of its reloads strands a handler |
| `Bot.EveryRunKeepsVersions` | src/core/lua_command_engine.cpp:127-315 | so it does in every run whose loadable files hold functions, under edits, failed loads, shared names, case collisions and dropped names |
| `Bot.RequestsAreJudgedByHistory` | src/core/lua_command_engine.cpp:255-290 | in every reachable state the configuration-error reply is unreachable and a request runs if and only if the history of the run admits it |
| `Bot.EveryRunKeepsTheBudget` | src/core/lua_command_engine.cpp:276-289 | in every run the names of a file under one limit run at most that often each between resets |
| `Bot.EveryRunIsRateLimited` | src/core/lua_command_engine.cpp:16-66 | in every run a scope under a cooldown runs at most once per cooldown, and once more, in any interval |
| `Reloading.LoadedNamesAnswer` | src/application.cpp:111-117 | after a reload every loaded name with a function answers to its quoted form, up to letter case, in step with its metadata |
| `Reloading.SecondReloadIsIdleIff` | src/application.cpp:111-117 | a second reload of an unchanged disk changes neither engine nor parser, in every pair of orders, if and only if no two loaded files share a name and no two registrable names differ only in case |
| `Reloading.AnEditCanStrandAHandler` | src/core/lua_command_engine.cpp:163-252 | a run from startup: a file edited so that `execute` is not a function, then a reload, leaves the old function behind the new metadata |
| `Reloading.CommandsFreezeIff` | src/application.cpp:109-117 | in every reachable state no continuation changes files, metadata or handlers if and only if a Lua command holds the name `reload` or nothing is loaded |
| `Effects.RequestsRunIffAdmitted` | src/core/lua_command_engine.cpp:255-290 | in every run a message that reaches a Lua handler calls its function with the words as typed and records it with both clock readings if and only if it is admitted; else nothing is recorded and the first failing check names the reply |
| `Effects.OtherMessages` | src/application.cpp:84-133 | any other message changes the queue and the clock, and the native commands their replies and the reload |
| `Effects.CommandsReplyShowsEachName` | src/application.cpp:118-133 | the `commands` reply shows each loaded name once, between commas |
| `Effects.ResetOnlyZeroesTheCounters` | src/core/lua_command_engine.cpp:68-70 | a stream reset zeroes every use counter and keeps every timestamp |
| `Effects.CaseOnlyReachesTheArguments` | src/application.cpp:84-93 | messages that differ only in letter case send the same replies, or call the same function under the same metadata with command word and arguments equal up to case, and leave the same state but for the chat log |
| `Effects.EveryCallIsRecorded` | src/core/lua_command_engine.cpp:288-289 | in every run the Lua functions called are exactly the executions recorded, in order |
| `Effects.EveryRunAvoidsTheConfigurationError` | src/core/lua_command_engine.cpp:257-262 | in every run no reply is the configuration error |
| `Effects.EveryCallRanItsOwnVersion` | src/core/lua_command_engine.cpp:255-289 | in every run that strands no handler each function was called under the metadata of its own file version |
| `Bot.EveryMessageIsKept` | src/application.cpp:85-93 | every message of a run is shown or pending exactly once, in order, and shown after a redraw |
| `Application.Application.constructor` | src/application.cpp:53-133 | startup is a start of the run model, the native commands registered last |
| `Application.Application.OnMessage` | src/application.cpp:84-133 | the message callback is one step of the run model: the message pushed, the replies sent, the function called with its command word and arguments |
| `Application.Application.ListCommands` | src/application.cpp:118-133 | the `commands` reply: the names joined by commas, or that there are none |
| `Engine.LuaCommandEngine.GetLoadedCommands` | src/core/lua_command_engine.cpp:317-326 | each loaded name once |
| `AppState.ChatState.ProcessPendingMessages` | src/core/app_state.cpp:25-32 | the draining loop moves the whole queue to the log in order |
| `AppState.ChatState.PushChatMessage` | src/core/app_state.cpp:20-23 | appends to the queue only |
| `AppState.ChatState.PendingMessageCount` | src/core/app_state.cpp:34-37 | the length of the queue |
| `Session.EveryRunKeeps` | src/core/twitch_service.cpp:49-207 | in every interleaving, for every screen that offers Disconnect in neither busy state: at most one login or connect in flight, each exactly in its own state; services all absent or all current; absent before and present while connected |
| `Session.ServicesAreNeitherOverwrittenNorMissing` | src/core/twitch_service.cpp:84-120 | services are made only where none is alive, kept while alive, and alive whenever a connect resumes |
| `Session.ConnectedMeansCurrent` | src/core/twitch_service.cpp:161-207 | when connected, the copies in the services are the live configuration; every post of the run has sender equal to broadcaster |
| `Session.EventsTellTheState` | src/core/twitch_service.cpp:49-191 | in every run under the buttons the screen offers, the events alone give the state, the stage of a connect and whether the services live |
| `Session.ConnectedAfterThreeResumptions` | src/core/twitch_service.cpp:78-158 | under the offered buttons chat is connected if and only if a connect that started right after a login resumed three times with no failure and no Disconnect since; a run that ends in a failure is in Error |
| `Session.ConnectsAreSpawnedByClicks` | include/seraphbot/viewmodels/auth_viewmodel.hpp:31-34 | every click on Connect is a connect that waits to start or has started |
| `Session.EveryRunSpeaksForTheLastUser` | src/core/twitch_service.cpp:61-68 | the configuration and user shown are those of the last login that finished, with its tokens |
| `Session.EveryPostCarriesTheLogin` | src/tw/chat/send.cpp:37-50 | under the offered buttons each post is a waiting message, as and to the user of the last login, with its client id and its token without the prefix |
| `Session.AcceptedMessagesAreConserved` | src/core/twitch_service.cpp:161-182 | every message accepted for sending is waiting or was posted, once |
| `Session.DisconnectIsSafeIff` | src/ui/imgui_manager.cpp:219-252 | for every set of states that offer Disconnect, every run keeps the invariant if and only if the set avoids LoggingIn and ConnectingToChat |
| `Session.DisconnectDuringLoginBreaksSends` | src/ui/imgui_manager.cpp:225-227 | wherever Disconnect is offered during a login, a run ends with a post for the wrong user |
| `Session.BusyStepProgresses` | src/core/twitch_service.cpp:59-159 | in a busy state a step of the login or connect is always possible; any step leaves fewer of them or ends where Disconnect is offered |
| `Session.BusySpellsAreShort` | src/core/twitch_service.cpp:59-159 | while a login or connect runs, whatever else happens, at most two of its own steps pass |
| `Session.DisconnectIsClean` | src/core/twitch_service.cpp:184-191 | outside a login or connect one click gives a Disconnected state without services, user, login or connect |
| `TwitchService.TwitchService.StartLogin` | src/core/twitch_service.cpp:49-59 | the login step: refused outside Disconnected; keeps the invariant |
| `TwitchService.TwitchService.LoginUserFetched` | src/core/twitch_service.cpp:62-68 | the step that copies credentials into the shared configuration; keeps the invariant |
| `TwitchService.TwitchService.LoginThrows` | src/core/twitch_service.cpp:69-72 | the failure step; keeps the invariant |
| `TwitchService.TwitchService.ConnectToChat` | src/core/twitch_service.cpp:78-91 | the connect step up to its first suspension: refused outside LoggedIn; keeps the invariant |
| `TwitchService.TwitchService.SetupChatServices` | src/core/twitch_service.cpp:203-207 | the three services copy the configuration and nothing else changes |
| `TwitchService.TwitchService.ConnectResumes` | src/core/twitch_service.cpp:91-153 | the three suspensions, the last of which connects; keeps the invariant |
| `TwitchService.TwitchService.ConnectThrows` | src/core/twitch_service.cpp:154-158 | the failure step keeps the services; keeps the invariant |
| `TwitchService.TwitchService.SendMessage` | src/core/twitch_service.cpp:161-182 | queues the message only when connected; keeps the invariant |
| `TwitchService.TwitchService.SendResumes` | src/tw/chat/send.cpp:37-50 | the post: broadcaster, client and token, without its `oauth:` prefix, from the copy, sender from the live configuration; keeps the invariant |
| `TwitchService.TwitchService.Disconnect` | src/core/twitch_service.cpp:184-191 | drops the services and the user, not the running coroutines; keeps the invariant in the states that offer it |
| `SoundList.List` | src/commands/sfx.lua:28-72 | the loop computes the reply that the next four rows determine |
| `SoundList.ListingShowsThePage` | src/commands/sfx.lua:35-69 | a listing is the header, exactly the sounds of the page joined in order, and, beyond one page, the page number and the total, both reading back as numbers |
| `SoundList.WhichReply` | src/commands/sfx.lua:29-61 | which reply is given: no sounds, a script error before the first sound, a listing exactly when some sound is on the page, else an empty page |
| `SoundList.StartIndexSpelledOut` | src/commands/sfx.lua:37 | the start index is fifteen per earlier page plus one, modulo 2^64 |
| `SoundList.OtherReplyTexts` | src/commands/sfx.lua:29-61 | the texts of the other replies; the page number an empty page shows reads back |
| `SoundList.ListedOnSomePageIff` | src/commands/sfx.lua:35-56 | over every 64-bit page number a sound is on some page if and only if its name has at most 432 characters |
| `SoundList.ListedIff` | src/commands/sfx.lua:35-56 | among the pages whose start index does not wrap, a sound is on some page if and only if it is on its home page, if and only if that page fits the budget up to it |
| `SoundList.WrappedPageShowsTheLast` | src/commands/sfx.lua:37 | fifteen names of 27 characters leave the last off its home page but on a page whose start wraps |
| `SoundList.TwentySixIsTheLimit` | src/commands/sfx.lua:37-51 | every sound is on its home page, whatever the list, if and only if names have at most 26 characters |
| `SoundList.RepliesFitAChatMessage` | src/commands/sfx.lua:29-71 | every reply is under 500 characters, for every list and every 64-bit page number |
| `SoundList.TotalPagesRoundsUp` | src/commands/sfx.lua:66 | the printed total is the number of sounds over those on the page, rounded up |
| `Whitelist.DirectoryWhitelist.constructor` | src/core/audio_system.cpp:15-22 | exactly the default directories that resolve are whitelisted, normalized |
| `Whitelist.DirectoryWhitelist.NormalizePath` | src/core/audio_system.cpp:72-82 | backslashes become slashes and a non-empty path ends in one |
| `Whitelist.DirectoryWhitelist.AddWhitelistedDirectory` | src/core/audio_system.cpp:24-37 | adds the normalized directory, or nothing when it cannot be resolved |
| `Whitelist.DirectoryWhitelist.IsPathAllowed` | src/core/audio_system.cpp:39-58 | true if and only if the path resolves and some whitelisted string begins it |
| `Whitelist.AllowedIffUnderADirectory` | src/core/audio_system.cpp:24-82 | for absolute canonical paths, with or without a drive, the root included and either separator, allowed if and only if some whitelisted directory has the same root and its components begin those of the path |
| `Whitelist.AllowedIsInherited` | src/core/audio_system.cpp:39-58 | descendants of an allowed path are allowed, and stay so as directories are added |
| `LoginPoll.Auth.RequestToken` | src/tw/auth.cpp:233-245 | the access token is stored even when the refresh token is missing and the request fails |
| `LoginPoll.Auth.Poll` | src/tw/auth.cpp:289-321 | ends; succeeds exactly when some allowed response is complete, with both tokens from the first such one; says how long it slept and what a timeout leaves behind |
| `LoginPoll.WaitedClosedForm` | src/tw/auth.cpp:294-316 | n failures wait n + n(n+1)/2 - 3 delays for n at least 3, and 2n below |
| `LoginPoll.TimeoutDuration` | src/tw/auth.cpp:292-315 | a timed-out login slept for 18.6 seconds |

## Left out

- Networking, TLS, WebSockets, HTTP, JSON, OBS and Discord: foreign input and output.
- Lua itself and the parsing of a command's table: a file loads to a table or does not.
- A file whose separator-like characters are part of its name: a backslash in a component is read as a separator, as the code reads it.
- Directory listing, audio lookup and playback, and the volume conversion: foreign calls and float rounding.
- Send steps that run after the services were dropped, the read loop after a disconnect, and data races on the state field: outside atomic steps, and nothing is claimed about them.
- The partial writes of the Auth object before a login is authorised: one step writes them, or the failure step does.
- Page numbers of `!sfx list` that are not integers.
- SoundList.TotalPagesRoundsUp: the exact quotient rounded up; the script divides in floating point, which can round differently beyond 2^53 sounds.
- Configuration fields that never change: the hosts and ports.
- Network share paths, whose root name holds separators.
- Connects that were spawned and not started survive a disconnect, and start in the next session if one logs in first: the model has them, and nothing is claimed against it.
- Overflow of the use counter, an `int` in the program and unbounded here.
- The random and single-sound branches of `sfx.lua`, colours of chat messages, logging and drawing: they keep no state that the promises above depend on.
- What a Lua function does with its arguments, its own replies, and its errors: the function call is the last thing the model sees.
