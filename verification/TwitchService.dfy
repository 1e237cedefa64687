/** The service object (src/core/twitch_service.cpp): its methods are the steps of module Session and keep
    its invariant, Disconnect in the states that offer it. */
module TwitchService {
  import opened Text
  import opened Session

  class TwitchService {
    var state: State
    var eventSub: Option<Config>
    var chatRead: Option<Config>
    var chatSend: Option<Config>
    var config: Config
    var auth: Auth
    var currentUser: string
    /** The coroutines on the thread pool, and what they posted. */
    var logins: seq<LoginStage>
    var spawned: nat
    var connects: seq<ConnectStage>
    var sends: seq<string>
    var posts: seq<Post>

    function View(): Session
      reads this
    {
      Session(state, eventSub, chatRead, chatSend, config, auth, currentUser, logins, spawned, connects, sends, posts)
    }

    /** The invariant of the protocol. */
    ghost predicate Valid()
      reads this
    {
      Kept(View())
    }

    constructor (shared: Config, held: Auth)
      ensures View() == Fresh(shared, held) && Valid()
    {
      state, eventSub, chatRead, chatSend := Disconnected, None, None, None;
      config, auth, currentUser := shared, held, "";
      logins, spawned, connects, sends, posts := [], 0, [], [], [];
    }

    method StartLogin()
      modifies this
      ensures View() == Step(old(View()), ClickLogin)
      ensures old(Valid()) ==> Valid()
    {
      if Valid() && state == Disconnected {
        StepKeeps(View(), ClickLogin, OFFERED);
      }
      if state != Disconnected {
        return;
      }
      state := LoggingIn;
      logins := logins + [Authorising];
    }

    /** Login resumes with the tokens written. */
    method LoginAuthorised(i: nat, written: Auth)
      requires Possible(View(), Authorised(i, written))
      modifies this
      ensures View() == Step(old(View()), Authorised(i, written))
      ensures old(Valid()) ==> Valid()
    {
      if Valid() {
        StepKeeps(View(), Authorised(i, written), OFFERED);
      }
      auth := written;
      logins := logins[i := FetchingUser];
    }

    /** Login resumes with the user: copies the credentials to the shared configuration. */
    method LoginUserFetched(i: nat, id: string, displayName: string)
      requires Possible(View(), UserFetched(i, id, displayName))
      modifies this
      ensures View() == Step(old(View()), UserFetched(i, id, displayName))
      ensures old(Valid()) ==> Valid()
    {
      if Valid() {
        StepKeeps(View(), UserFetched(i, id, displayName), OFFERED);
      }
      currentUser := displayName;
      config := config.(accessToken := auth.accessToken);
      config := config.(broadcasterId := id);
      config := config.(clientId := auth.clientId);
      state := LoggedIn;
      logins := logins[..i] + logins[i + 1..];
    }

    /** An exception ends the login, whatever it had written by then. */
    method LoginThrows(i: nat, written: Auth)
      requires Possible(View(), LoginFailed(i, written))
      modifies this
      ensures View() == Step(old(View()), LoginFailed(i, written))
      ensures old(Valid()) ==> Valid()
    {
      if Valid() {
        StepKeeps(View(), LoginFailed(i, written), OFFERED);
      }
      auth := written;
      state := Error;
      logins := logins[..i] + logins[i + 1..];
    }

    method SpawnConnect()
      modifies this
      ensures View() == Step(old(View()), ClickConnect)
      ensures old(Valid()) ==> Valid()
    {
      spawned := spawned + 1;
    }

    /** The part of connectToChat before its first co_await. */
    method ConnectToChat()
      requires Possible(View(), ConnectStarts)
      modifies this
      ensures View() == Step(old(View()), ConnectStarts)
      ensures old(Valid()) ==> Valid()
    {
      if Valid() {
        StepKeeps(View(), ConnectStarts, OFFERED);
      }
      spawned := spawned - 1;
      if state != LoggedIn {
        return;
      }
      state := ConnectingToChat;
      SetupChatServices();
      connects := connects + [AwaitingSocket];
    }

    method SetupChatServices()
      modifies this`eventSub, this`chatRead, this`chatSend
      ensures eventSub == chatRead == chatSend == Some(config)
    {
      eventSub := Some(config);
      chatRead := eventSub;
      chatSend := Some(config);
    }

    method ConnectResumes(i: nat)
      requires Possible(View(), ConnectContinues(i))
      modifies this
      ensures View() == Step(old(View()), ConnectContinues(i))
      ensures old(Valid()) ==> Valid()
    {
      if Valid() {
        StepKeeps(View(), ConnectContinues(i), OFFERED);
      }
      match connects[i]
      case AwaitingSocket => connects := connects[i := AwaitingTimer];
      case AwaitingTimer => connects := connects[i := AwaitingSubscription];
      case AwaitingSubscription =>
        state := ChatConnected;
        connects := connects[..i] + connects[i + 1..];
    }

    method ConnectThrows(i: nat)
      requires Possible(View(), ConnectFails(i))
      modifies this
      ensures View() == Step(old(View()), ConnectFails(i))
      ensures old(Valid()) ==> Valid()
    {
      if Valid() {
        StepKeeps(View(), ConnectFails(i), OFFERED);
      }
      state := Error;
      connects := connects[..i] + connects[i + 1..];
    }

    method SendMessage(message: string)
      modifies this
      ensures View() == Step(old(View()), SendRequested(message))
      ensures old(Valid()) ==> Valid()
    {
      if Valid() {
        StepKeeps(View(), SendRequested(message), OFFERED);
      }
      if state != ChatConnected {
        return;
      }
      sends := sends + [message];
    }

    method SendResumes(i: nat)
      requires Possible(View(), SendRuns(i))
      modifies this
      ensures View() == Step(old(View()), SendRuns(i))
      ensures old(Valid()) ==> Valid()
    {
      if Valid() {
        StepKeeps(View(), SendRuns(i), OFFERED);
      }
      var service := chatSend.value;
      var token := if "oauth:" <= service.accessToken then service.accessToken[6..] else service.accessToken;
      posts := posts + [Post(sends[i], service.broadcasterId, config.broadcasterId, service.clientId, token)];
      sends := sends[..i] + sends[i + 1..];
    }

    method Disconnect()
      modifies this
      ensures View() == Step(old(View()), ClickDisconnect)
      ensures old(Valid()) && old(state) in OFFERED ==> Valid()
    {
      if Valid() && state in OFFERED {
        StepKeeps(View(), ClickDisconnect, OFFERED);
      }
      state := Disconnected;
      chatRead := None;
      chatSend := None;
      eventSub := None;
      currentUser := "";
    }
  }
}
