/**
 The login and chat-connection protocol (src/core/twitch_service.cpp), as steps that interleave.

 Each stretch of code between two co_awaits is one atomic step. A coroutine that was spawned or
 suspended is an element of `logins`, `connects` or `sends`; connects that have not started yet are
 counted by `spawned`. The buttons are offered as in src/ui/imgui_manager.cpp, and a click acts on
 the state that offered it.
 */
module Session {
  import opened Text

  datatype State = Disconnected | LoggingIn | LoggedIn | ConnectingToChat | ChatConnected | Error

  datatype Config = Config(clientId: string, accessToken: string, broadcasterId: string)

  /** What the Auth object holds: written while a login runs. */
  datatype Auth = Auth(clientId: string, accessToken: string)

  datatype LoginStage = Authorising | FetchingUser

  datatype ConnectStage = AwaitingSocket | AwaitingTimer | AwaitingSubscription

  /** A request to the chat endpoint. */
  datatype Post = Post(message: string, broadcasterId: string, senderId: string, clientId: string, accessToken: string)

  /** The three services are copies of the configuration taken when they were made. */
  datatype Session = Session(
    state: State,
    eventSub: Option<Config>, chatRead: Option<Config>, chatSend: Option<Config>,
    config: Config, auth: Auth, currentUser: string,
    logins: seq<LoginStage>, spawned: nat, connects: seq<ConnectStage>, sends: seq<string>, posts: seq<Post>)

  datatype Event =
    | ClickLogin
    | ClickConnect
    | ClickDisconnect
    | Authorised(i: nat, auth: Auth)
    | UserFetched(i: nat, id: string, displayName: string)
    | LoginFailed(i: nat, auth: Auth)
    | ConnectStarts
    | ConnectContinues(i: nat)
    | ConnectFails(i: nat)
    | SendRequested(message: string)
    | SendRuns(i: nat)

  function Fresh(config: Config, auth: Auth): Session {
    Session(Disconnected, None, None, None, config, auth, "", [], 0, [], [], [])
  }

  function Without<T>(s: seq<T>, i: nat): seq<T>
    requires i < |s|
  {
    s[..i] + s[i + 1..]
  }

  // ---------- steps ----------

  /** The states in which the screen offers to log out, disconnect or reset. */
  const OFFERED: set<State> := {LoggedIn, ChatConnected, Error}

  /** When a screen that offers Disconnect in the states `d` offers the button. */
  predicate Offered(s: Session, e: Event, d: set<State>) {
    match e
    case ClickLogin => s.state == Disconnected
    case ClickConnect => s.state == LoggedIn
    case ClickDisconnect => s.state in d
    case _ => true
  }

  /** When the scheduler can take the step. A send dereferences its service. */
  predicate Possible(s: Session, e: Event) {
    match e
    case Authorised(i, _) => i < |s.logins| && s.logins[i] == Authorising
    case UserFetched(i, _, _) => i < |s.logins| && s.logins[i] == FetchingUser
    case LoginFailed(i, _) => i < |s.logins|
    case ConnectStarts => s.spawned > 0
    case ConnectContinues(i) => i < |s.connects|
    case ConnectFails(i) => i < |s.connects|
    case SendRuns(i) => i < |s.sends| && s.chatSend.Some?
    case _ => true
  }

  function StartLogin(s: Session): Session {
    if s.state != Disconnected then s else s.(state := LoggingIn, logins := s.logins + [Authorising])
  }

  function FinishLogin(s: Session, i: nat, id: string, displayName: string): Session
    requires i < |s.logins|
  {
    s.(state := LoggedIn, currentUser := displayName, logins := Without(s.logins, i),
       config := Config(s.auth.clientId, s.auth.accessToken, id))
  }

  function StartConnect(s: Session): Session
    requires s.spawned > 0
  {
    if s.state != LoggedIn then s.(spawned := s.spawned - 1)
    else s.(state := ConnectingToChat, spawned := s.spawned - 1, connects := s.connects + [AwaitingSocket],
            eventSub := Some(s.config), chatRead := Some(s.config), chatSend := Some(s.config))
  }

  function ContinueConnect(s: Session, i: nat): Session
    requires i < |s.connects|
  {
    match s.connects[i]
    case AwaitingSocket => s.(connects := s.connects[i := AwaitingTimer])
    case AwaitingTimer => s.(connects := s.connects[i := AwaitingSubscription])
    case AwaitingSubscription => s.(state := ChatConnected, connects := Without(s.connects, i))
  }

  function StripOauthPrefix(token: string): string {
    if "oauth:" <= token then token[6..] else token
  }

  function RunSend(s: Session, i: nat): Session
    requires i < |s.sends| && s.chatSend.Some?
  {
    var c := s.chatSend.value;
    s.(sends := Without(s.sends, i),
       posts := s.posts + [Post(s.sends[i], c.broadcasterId, s.config.broadcasterId, c.clientId,
                                StripOauthPrefix(c.accessToken))])
  }

  function Disconnect(s: Session): Session {
    s.(state := Disconnected, eventSub := None, chatRead := None, chatSend := None, currentUser := "")
  }

  function Step(s: Session, e: Event): Session
    requires Possible(s, e)
  {
    match e
    case ClickLogin => StartLogin(s)
    case ClickConnect => s.(spawned := s.spawned + 1)
    case ClickDisconnect => Disconnect(s)
    case Authorised(i, auth) => s.(auth := auth, logins := s.logins[i := FetchingUser])
    case UserFetched(i, id, displayName) => FinishLogin(s, i, id, displayName)
    case LoginFailed(i, auth) => s.(state := Error, auth := auth, logins := Without(s.logins, i))
    case ConnectStarts => StartConnect(s)
    case ConnectContinues(i) => ContinueConnect(s, i)
    case ConnectFails(i) => s.(state := Error, connects := Without(s.connects, i))
    case SendRequested(message) => if s.state != ChatConnected then s else s.(sends := s.sends + [message])
    case SendRuns(i) => RunSend(s, i)
  }

  /** The state after the events, unless one of them could not happen. */
  function Run(s: Session, events: seq<Event>, d: set<State>): Option<Session> {
    if |events| == 0 then Some(s)
    else match Run(s, events[..|events| - 1], d)
      case None => None
      case Some(before) =>
        var e := events[|events| - 1];
        if Possible(before, e) && Offered(before, e, d) then Some(Step(before, e)) else None
  }

  // ---------- what every interleaving keeps ----------

  predicate ServicesAbsent(s: Session) {
    s.eventSub.None? && s.chatRead.None? && s.chatSend.None?
  }

  predicate ServicesCurrent(s: Session) {
    s.eventSub == s.chatRead == s.chatSend == Some(s.config)
  }

  predicate Kept(s: Session) {
    && |s.logins| + |s.connects| <= 1
    && (s.state == LoggingIn <==> |s.logins| == 1)
    && (s.state == ConnectingToChat <==> |s.connects| == 1)
    && (ServicesAbsent(s) || ServicesCurrent(s))
    && (s.state in {Disconnected, LoggingIn, LoggedIn} ==> ServicesAbsent(s))
    && (s.state in {ConnectingToChat, ChatConnected} ==> ServicesCurrent(s))
    && (s.state in {LoggedIn, ConnectingToChat, ChatConnected} ==>
          s.config.clientId == s.auth.clientId && s.config.accessToken == s.auth.accessToken)
    && (s.state in {Disconnected, LoggingIn} ==> s.currentUser == "")
    && (forall i :: 0 <= i < |s.posts| ==> s.posts[i].senderId == s.posts[i].broadcasterId)
  }

  /** Disconnect is not offered while a login or a connect runs. */
  predicate SparesBusyStates(d: set<State>) {
    LoggingIn !in d && ConnectingToChat !in d
  }

  lemma LoginStepKeeps(s: Session, e: Event, d: set<State>)
    requires Kept(s) && Possible(s, e) && Offered(s, e, d) && SparesBusyStates(d)
    requires e.ClickLogin? || e.Authorised? || e.UserFetched? || e.LoginFailed?
    ensures Kept(Step(s, e))
  {
  }

  lemma ConnectStepKeeps(s: Session, e: Event, d: set<State>)
    requires Kept(s) && Possible(s, e) && Offered(s, e, d) && SparesBusyStates(d)
    requires e.ClickConnect? || e.ConnectStarts? || e.ConnectContinues? || e.ConnectFails?
    ensures Kept(Step(s, e))
  {
  }

  lemma SendStepKeeps(s: Session, e: Event, d: set<State>)
    requires Kept(s) && Possible(s, e) && Offered(s, e, d) && SparesBusyStates(d)
    requires e.ClickDisconnect? || e.SendRequested? || e.SendRuns?
    ensures Kept(Step(s, e))
  {
  }

  lemma StepKeeps(s: Session, e: Event, d: set<State>)
    requires Kept(s) && Possible(s, e) && Offered(s, e, d) && SparesBusyStates(d)
    ensures Kept(Step(s, e))
  {
    match e
    case ClickLogin => LoginStepKeeps(s, e, d);
    case Authorised(_, _) => LoginStepKeeps(s, e, d);
    case UserFetched(_, _, _) => LoginStepKeeps(s, e, d);
    case LoginFailed(_, _) => LoginStepKeeps(s, e, d);
    case ClickConnect => ConnectStepKeeps(s, e, d);
    case ConnectStarts => ConnectStepKeeps(s, e, d);
    case ConnectContinues(_) => ConnectStepKeeps(s, e, d);
    case ConnectFails(_) => ConnectStepKeeps(s, e, d);
    case ClickDisconnect => SendStepKeeps(s, e, d);
    case SendRequested(_) => SendStepKeeps(s, e, d);
    case SendRuns(_) => SendStepKeeps(s, e, d);
  }

  /** Services are only made where none is alive, and a running connect finds its services alive. */
  lemma ServicesAreNeitherOverwrittenNorMissing(s: Session, e: Event)
    requires Kept(s) && Possible(s, e) && Offered(s, e, OFFERED)
    ensures e.ConnectStarts? && s.state == LoggedIn ==> ServicesAbsent(s) && ServicesCurrent(Step(s, e))
    ensures e.ConnectContinues? || e.ConnectFails? ==> ServicesCurrent(s)
    ensures s.eventSub.Some? && Step(s, e).eventSub.Some? ==>
              Step(s, e).eventSub == s.eventSub && Step(s, e).chatSend == s.chatSend && Step(s, e).chatRead == s.chatRead
  {
  }

  /** The invariant, in every state of every run, for every screen that spares the busy states. */
  lemma {:induction false} EveryRunKeeps(config: Config, auth: Auth, d: set<State>, events: seq<Event>, s: Session)
    requires SparesBusyStates(d) && Run(Fresh(config, auth), events, d) == Some(s)
    ensures Kept(s)
  {
    if |events| > 0 {
      var before := Run(Fresh(config, auth), events[..|events| - 1], d).value;
      EveryRunKeeps(config, auth, d, events[..|events| - 1], before);
      StepKeeps(before, events[|events| - 1], d);
    }
  }

  /** Whenever chat is connected, the copies in the services are the live configuration, with the
      credentials of the latest login; so every post of the run names one user as both ids. */
  lemma ConnectedMeansCurrent(config: Config, auth: Auth, events: seq<Event>, s: Session)
    requires Run(Fresh(config, auth), events, OFFERED) == Some(s)
    ensures s.state == ChatConnected ==>
              && s.eventSub == Some(s.config) && s.chatSend == Some(s.config)
              && s.auth == Auth(s.config.clientId, s.config.accessToken)
    ensures forall i :: 0 <= i < |s.posts| ==> s.posts[i].senderId == s.posts[i].broadcasterId
  {
    EveryRunKeeps(config, auth, OFFERED, events, s);
  }

  /** What the Auth object was last given. */
  function LastWritten(events: seq<Event>, initial: Auth): Auth {
    if |events| == 0 then initial
    else match events[|events| - 1]
      case Authorised(_, auth) => auth
      case LoginFailed(_, auth) => auth
      case _ => LastWritten(events[..|events| - 1], initial)
  }

  /** The user of the last login that finished. */
  function LastUser(events: seq<Event>): Option<(string, string)> {
    if |events| == 0 then None
    else match events[|events| - 1]
      case UserFetched(_, id, displayName) => Some((id, displayName))
      case _ => LastUser(events[..|events| - 1])
  }

  /** The session speaks for `user`, the last to log in, or for nobody yet. */
  predicate SpeaksFor(s: Session, user: Option<(string, string)>, initial: Config) {
    match user
    case None => s.config == initial && s.state in {Disconnected, LoggingIn, Error} && s.chatSend.None?
    case Some((id, displayName)) =>
      s.config.broadcasterId == id
      && (s.state in {LoggedIn, ConnectingToChat, ChatConnected} ==>
            s.currentUser == displayName && s.config == Config(s.auth.clientId, s.auth.accessToken, id))
      && (s.chatSend.Some? ==> s.config == Config(s.auth.clientId, s.auth.accessToken, id))
  }

  lemma StepSpeaks(s: Session, e: Event, user: Option<(string, string)>, initial: Config)
    requires Kept(s) && Possible(s, e) && Offered(s, e, OFFERED) && SpeaksFor(s, user, initial)
    ensures SpeaksFor(Step(s, e), if e.UserFetched? then Some((e.id, e.displayName)) else user, initial)
  {
  }

  /** Once logged in, and until disconnected, the session speaks for the user who logged in last, with
      the tokens of that login. */
  lemma {:induction false} EveryRunSpeaksForTheLastUser(config: Config, auth: Auth, events: seq<Event>, s: Session)
    requires Run(Fresh(config, auth), events, OFFERED) == Some(s)
    ensures s.auth == LastWritten(events, auth)
    ensures SpeaksFor(s, LastUser(events), config)
  {
    if |events| > 0 {
      var before := Run(Fresh(config, auth), events[..|events| - 1], OFFERED).value;
      EveryRunSpeaksForTheLastUser(config, auth, events[..|events| - 1], before);
      EveryRunKeeps(config, auth, OFFERED, events[..|events| - 1], before);
      StepSpeaks(before, events[|events| - 1], LastUser(events[..|events| - 1]), config);
    }
  }

  lemma OauthPrefixIsStripped(token: string)
    ensures StripOauthPrefix("oauth:" + token) == token
    ensures !("oauth:" <= token) ==> StripOauthPrefix(token) == token
  {
    assert ("oauth:" + token)[6..] == token;
  }

  /** A send step posts the waiting message once: as and to the user of the last login, with the client id
      of that login and its token without the prefix. */
  lemma EveryPostCarriesTheLogin(config: Config, auth: Auth, events: seq<Event>, before: Session, i: nat, s: Session)
    requires Run(Fresh(config, auth), events, OFFERED) == Some(before)
    requires Run(Fresh(config, auth), events + [SendRuns(i)], OFFERED) == Some(s)
    ensures i < |before.sends| && LastUser(events).Some?
    ensures var id, written := LastUser(events).value.0, LastWritten(events, auth);
            s.posts == before.posts
                       + [Post(before.sends[i], id, id, written.clientId, StripOauthPrefix(written.accessToken))]
  {
    assert (events + [SendRuns(i)])[..|events|] == events;
    EveryRunSpeaksForTheLastUser(config, auth, events, before);
    EveryRunKeeps(config, auth, OFFERED, events, before);
  }

  // ---------- the state, told from the events alone ----------

  /** The last event that moved the session on. A connect that starts counts only right after a login. */
  function Milestone(events: seq<Event>): Option<Event> {
    if |events| == 0 then None
    else
      var earlier, e := Milestone(events[..|events| - 1]), events[|events| - 1];
      match e
      case ClickLogin => Some(e)
      case UserFetched(_, _, _) => Some(e)
      case LoginFailed(_, _) => Some(e)
      case ConnectFails(_) => Some(e)
      case ClickDisconnect => Some(e)
      case ConnectStarts => if earlier.Some? && earlier.value.UserFetched? then Some(e) else earlier
      case _ => earlier
  }

  /** How often a connect resumed since the last one that counted. */
  function Resumptions(events: seq<Event>): nat {
    if |events| == 0 then 0
    else
      var shorter, e := events[..|events| - 1], events[|events| - 1];
      if e.ConnectContinues? then Resumptions(shorter) + 1
      else if e.ConnectStarts? && Milestone(shorter).Some? && Milestone(shorter).value.UserFetched? then 0
      else Resumptions(shorter)
  }

  /** What the state must be. */
  function Expected(milestone: Option<Event>, resumptions: nat): State {
    match milestone
    case None => Disconnected
    case Some(e) =>
      match e
      case ClickLogin => LoggingIn
      case UserFetched(_, _, _) => LoggedIn
      case LoginFailed(_, _) => Error
      case ConnectFails(_) => Error
      case ConnectStarts => if resumptions < 3 then ConnectingToChat else ChatConnected
      case _ => Disconnected
  }

  predicate FitsTheEvents(s: Session, milestone: Option<Event>, resumptions: nat) {
    var connecting := milestone.Some? && milestone.value.ConnectStarts?;
    && s.state == Expected(milestone, resumptions)
    && (connecting ==> resumptions <= 3)
    && (connecting && resumptions < 3 ==>
          s.connects == [[AwaitingSocket, AwaitingTimer, AwaitingSubscription][resumptions]])
    && (ServicesAbsent(s) <==> !(connecting || (milestone.Some? && milestone.value.ConnectFails?)))
  }

  lemma StepFitsTheEvents(s: Session, events: seq<Event>, e: Event)
    requires Kept(s) && Possible(s, e) && Offered(s, e, OFFERED)
    requires FitsTheEvents(s, Milestone(events), Resumptions(events))
    ensures FitsTheEvents(Step(s, e), Milestone(events + [e]), Resumptions(events + [e]))
  {
    assert (events + [e])[..|events|] == events;
    if e.ConnectContinues? || e.ConnectFails? {
      assert e.i == 0 && |s.connects| == 1;
    }
  }

  /** In every run the events alone tell the state: a failure of a login or connect leaves Error, a connect
      that started right after a login is connected from its third resumption on, and the services live
      from its start until Disconnect. */
  lemma {:induction false} EventsTellTheState(config: Config, auth: Auth, events: seq<Event>, s: Session)
    requires Run(Fresh(config, auth), events, OFFERED) == Some(s)
    ensures FitsTheEvents(s, Milestone(events), Resumptions(events))
  {
    if |events| > 0 {
      var earlier, e := events[..|events| - 1], events[|events| - 1];
      var before := Run(Fresh(config, auth), earlier, OFFERED).value;
      EventsTellTheState(config, auth, earlier, before);
      EveryRunKeeps(config, auth, OFFERED, earlier, before);
      StepFitsTheEvents(before, earlier, e);
      assert earlier + [e] == events;
    }
  }

  /** Chat is connected exactly when a connect that started right after a login resumed three times, with
      no failure and no Disconnect since. A run that ends in a failure is in Error. */
  lemma ConnectedAfterThreeResumptions(config: Config, auth: Auth, events: seq<Event>, s: Session)
    requires Run(Fresh(config, auth), events, OFFERED) == Some(s)
    ensures s.state == ChatConnected <==> Milestone(events) == Some(ConnectStarts) && Resumptions(events) == 3
    ensures |events| > 0 && (events[|events| - 1].ConnectFails? || events[|events| - 1].LoginFailed?) ==> s.state == Error
  {
    EventsTellTheState(config, auth, events, s);
  }

  function Count(events: seq<Event>, e: Event): nat {
    if |events| == 0 then 0 else Count(events[..|events| - 1], e) + if events[|events| - 1] == e then 1 else 0
  }

  /** Every click on Connect is a connect that is waiting to start or has started. */
  lemma {:induction false} ConnectsAreSpawnedByClicks(config: Config, auth: Auth, events: seq<Event>, s: Session, d: set<State>)
    requires Run(Fresh(config, auth), events, d) == Some(s)
    ensures s.spawned + Count(events, ConnectStarts) == Count(events, ClickConnect)
  {
    if |events| > 0 {
      var before := Run(Fresh(config, auth), events[..|events| - 1], d).value;
      ConnectsAreSpawnedByClicks(config, auth, events[..|events| - 1], before, d);
    }
  }

  // ---------- messages are neither lost nor repeated ----------

  predicate Accepts(s: Session, e: Event) {
    e.SendRequested? && s.state == ChatConnected
  }

  /** The messages the run accepted for sending: those asked for while chat was connected. */
  function AcceptedMessages(s: Session, events: seq<Event>, d: set<State>): seq<string>
    requires Run(s, events, d).Some?
  {
    if |events| == 0 then []
    else
      var earlier, e := events[..|events| - 1], events[|events| - 1];
      AcceptedMessages(s, earlier, d) + if Accepts(Run(s, earlier, d).value, e) then [e.message] else []
  }

  function Messages(posts: seq<Post>): (r: seq<string>)
    ensures |r| == |posts| && forall i :: 0 <= i < |posts| ==> r[i] == posts[i].message
  {
    seq(|posts|, i requires 0 <= i < |posts| => posts[i].message)
  }

  ghost function Handled(s: Session): multiset<string> {
    multiset(s.sends) + multiset(Messages(s.posts))
  }

  lemma TakenOut(s: seq<string>, i: nat)
    requires i < |s|
    ensures multiset(Without(s, i)) + multiset{s[i]} == multiset(s)
  {
    assert s == s[..i] + [s[i]] + s[i + 1..];
  }

  lemma RunSendConserves(s: Session, i: nat)
    requires Possible(s, SendRuns(i))
    ensures Handled(RunSend(s, i)) == Handled(s)
  {
    TakenOut(s.sends, i);
    assert Messages(RunSend(s, i).posts) == Messages(s.posts) + [s.sends[i]];
  }

  lemma StepConserves(s: Session, e: Event)
    requires Possible(s, e)
    ensures Handled(Step(s, e)) == Handled(s) + if Accepts(s, e) then multiset{e.message} else multiset{}
  {
    if e.SendRuns? {
      RunSendConserves(s, e.i);
    } else if Accepts(s, e) {
      assert multiset(s.sends + [e.message]) == multiset(s.sends) + multiset{e.message};
    } else {
      assert Step(s, e).posts == s.posts && Step(s, e).sends == s.sends;
    }
  }

  /** Every accepted message is waiting or was posted, once, wherever Disconnect is offered. */
  lemma {:induction false} AcceptedMessagesAreConserved(config: Config, auth: Auth, events: seq<Event>, s: Session,
                                                        d: set<State>)
    requires Run(Fresh(config, auth), events, d) == Some(s)
    ensures multiset(AcceptedMessages(Fresh(config, auth), events, d)) == multiset(s.sends) + multiset(Messages(s.posts))
  {
    if |events| > 0 {
      var earlier := events[..|events| - 1];
      var before := Run(Fresh(config, auth), earlier, d).value;
      AcceptedMessagesAreConserved(config, auth, earlier, before, d);
      StepConserves(before, events[|events| - 1]);
    }
  }

  // ---------- where Disconnect may be offered ----------

  lemma RunSnoc(s: Session, events: seq<Event>, e: Event, d: set<State>)
    ensures Run(s, events + [e], d)
         == match Run(s, events, d)
            case None => None
            case Some(before) => if Possible(before, e) && Offered(before, e, d) then Some(Step(before, e)) else None
  {
    assert (events + [e])[..|events|] == events;
  }

  /** One more step of a run. */
  lemma Extend(s0: Session, d: set<State>, events: seq<Event>, s: Session, e: Event)
    returns (events': seq<Event>, s': Session)
    requires Run(s0, events, d) == Some(s) && Possible(s, e) && Offered(s, e, d)
    ensures events' == events + [e] && s' == Step(s, e) && Run(s0, events', d) == Some(s')
  {
    RunSnoc(s0, events, e, d);
    events', s' := events + [e], Step(s, e);
  }

  /** Whatever the screen, a first login can finish. */
  lemma ReachLoggedIn(config: Config, auth: Auth, d: set<State>, id: string) returns (events: seq<Event>, s: Session)
    ensures Run(Fresh(config, auth), events, d) == Some(s)
    ensures s == Fresh(config, auth).(state := LoggedIn, currentUser := id, config := Config(auth.clientId, auth.accessToken, id))
  {
    var s0 := Fresh(config, auth);
    events, s := Extend(s0, d, [], s0, ClickLogin);
    events, s := Extend(s0, d, events, s, Authorised(0, auth));
    events, s := Extend(s0, d, events, s, UserFetched(0, id, id));
  }

  /** A screen that offers Disconnect in a busy state has a run that breaks the invariant. */
  lemma OfferedWhileBusyBreaks(config: Config, auth: Auth, d: set<State>) returns (events: seq<Event>, s: Session)
    requires !SparesBusyStates(d)
    ensures Run(Fresh(config, auth), events, d) == Some(s) && !Kept(s)
  {
    var s0 := Fresh(config, auth);
    if LoggingIn in d {
      events, s := Extend(s0, d, [], s0, ClickLogin);
    } else {
      events, s := ReachLoggedIn(config, auth, d, "1");
      events, s := Extend(s0, d, events, s, ClickConnect);
      events, s := Extend(s0, d, events, s, ConnectStarts);
    }
    events, s := Extend(s0, d, events, s, ClickDisconnect);
  }

  ghost predicate RunsKeep(config: Config, auth: Auth, d: set<State>) {
    forall events, s :: Run(Fresh(config, auth), events, d) == Some(s) ==> Kept(s)
  }

  /** Every run keeps the invariant exactly when Disconnect is offered neither during a login nor
      during a connect. */
  lemma DisconnectIsSafeIff(config: Config, auth: Auth, d: set<State>)
    ensures RunsKeep(config, auth, d) <==> SparesBusyStates(d)
  {
    if SparesBusyStates(d) {
      forall events, s | Run(Fresh(config, auth), events, d) == Some(s) ensures Kept(s) {
        EveryRunKeeps(config, auth, d, events, s);
      }
    } else {
      var events, s := OfferedWhileBusyBreaks(config, auth, d);
    }
  }

  /** Offered during a login, Disconnect leaves that login running behind the next one. */
  lemma LoggedInWithALoginBehind(config: Config, auth: Auth, d: set<State>) returns (events: seq<Event>, s: Session)
    requires LoggingIn in d
    ensures Run(Fresh(config, auth), events, d) == Some(s)
    ensures s.state == LoggedIn && s.logins == [Authorising] && s.connects == [] && s.sends == [] && s.posts == []
    ensures s.config.broadcasterId == "1"
  {
    var s0 := Fresh(config, auth);
    events, s := Extend(s0, d, [], s0, ClickLogin);
    events, s := Extend(s0, d, events, s, ClickDisconnect);
    events, s := Extend(s0, d, events, s, ClickLogin);
    events, s := Extend(s0, d, events, s, Authorised(0, auth));
    events, s := Extend(s0, d, events, s, UserFetched(0, "1", "first"));
  }

  lemma ConnectedWithALoginBehind(config: Config, auth: Auth, d: set<State>) returns (events: seq<Event>, s: Session)
    requires LoggingIn in d
    ensures Run(Fresh(config, auth), events, d) == Some(s)
    ensures s.state == ChatConnected && s.logins == [Authorising] && s.sends == [] && s.posts == []
    ensures s.chatSend.Some? && s.chatSend.value.broadcasterId == "1"
  {
    var s0 := Fresh(config, auth);
    events, s := LoggedInWithALoginBehind(config, auth, d);
    events, s := Extend(s0, d, events, s, ClickConnect);
    events, s := Extend(s0, d, events, s, ConnectStarts);
    events, s := Extend(s0, d, events, s, ConnectContinues(0));
    events, s := Extend(s0, d, events, s, ConnectContinues(0));
    events, s := Extend(s0, d, events, s, ConnectContinues(0));
  }

  /** When that login finishes, a queued send posts to one channel in the name of another user. */
  lemma DisconnectDuringLoginBreaksSends(config: Config, auth: Auth, d: set<State>) returns (events: seq<Event>, s: Session)
    requires LoggingIn in d
    ensures Run(Fresh(config, auth), events, d) == Some(s)
    ensures |s.posts| == 1 && s.posts[0].broadcasterId == "1" && s.posts[0].senderId == "2"
  {
    var s0 := Fresh(config, auth);
    events, s := ConnectedWithALoginBehind(config, auth, d);
    events, s := Extend(s0, d, events, s, SendRequested("hello"));
    events, s := Extend(s0, d, events, s, Authorised(0, auth));
    events, s := Extend(s0, d, events, s, UserFetched(0, "2", "second"));
    events, s := Extend(s0, d, events, s, SendRuns(0));
  }

  // ---------- no dead end ----------

  predicate Busy(s: Session) {
    s.state == LoggingIn || s.state == ConnectingToChat
  }

  /** Steps the running login or connect has left, at most. */
  function StepsLeft(s: Session): nat {
    if |s.logins| == 1 then (if s.logins[0] == Authorising then 2 else 1)
    else if |s.connects| == 1 then
      (match s.connects[0] case AwaitingSocket => 3 case AwaitingTimer => 2 case AwaitingSubscription => 1)
    else 0
  }

  /** A step of a login or of a connect past its guard. */
  predicate IsTaskStep(e: Event) {
    e.Authorised? || e.UserFetched? || e.LoginFailed? || e.ConnectContinues? || e.ConnectFails?
  }

  /** Whatever happens in a busy state, it stays the same with fewer steps left, or it ends where
      Disconnect is offered. */
  lemma BusyStepProgresses(s: Session, e: Event)
    requires Kept(s) && Busy(s) && Possible(s, e) && Offered(s, e, OFFERED)
    ensures var t := Step(s, e);
            if Busy(t) then t.state == s.state && StepsLeft(t) + (if IsTaskStep(e) then 1 else 0) <= StepsLeft(s)
            else Offered(t, ClickDisconnect, OFFERED)
    ensures exists e' :: IsTaskStep(e') && Possible(s, e') && Offered(s, e', OFFERED)
  {
    var some := if s.state == LoggingIn then LoginFailed(0, s.auth) else ConnectFails(0);
    assert IsTaskStep(some) && Possible(s, some) && Offered(s, some, OFFERED);
  }

  function TaskSteps(events: seq<Event>): nat {
    if |events| == 0 then 0
    else TaskSteps(events[..|events| - 1]) + if IsTaskStep(events[|events| - 1]) then 1 else 0
  }

  /** Every state that the continuation `more` goes through is busy. */
  ghost predicate BusyThroughout(s: Session, more: seq<Event>) {
    && Run(s, more, OFFERED).Some? && Busy(Run(s, more, OFFERED).value)
    && (|more| > 0 ==> BusyThroughout(s, more[..|more| - 1]))
  }

  /** A busy spell is short: from any state that keeps the invariant, whatever else happens, it takes at
      most two steps of its own; the next one ends it, in a state that offers Disconnect. */
  lemma {:induction false} BusySpellsAreShort(s: Session, more: seq<Event>)
    requires Kept(s) && BusyThroughout(s, more)
    ensures var t := Run(s, more, OFFERED).value;
            Kept(t) && TaskSteps(more) + StepsLeft(t) <= StepsLeft(s) <= 3 && 1 <= StepsLeft(t)
  {
    if |more| > 0 {
      var before := Run(s, more[..|more| - 1], OFFERED).value;
      BusySpellsAreShort(s, more[..|more| - 1]);
      StepKeeps(before, more[|more| - 1], OFFERED);
      BusyStepProgresses(before, more[|more| - 1]);
    }
  }

  /** From every reachable state that is not busy one click leads to a clean Disconnected, or it is one. */
  lemma DisconnectIsClean(config: Config, auth: Auth, events: seq<Event>, s: Session)
    requires Run(Fresh(config, auth), events, OFFERED) == Some(s) && !Busy(s)
    ensures s.state == Disconnected || Run(Fresh(config, auth), events + [ClickDisconnect], OFFERED) == Some(Disconnect(s))
    ensures var t := if s.state == Disconnected then s else Disconnect(s);
            t.state == Disconnected && ServicesAbsent(t) && t.logins == [] && t.connects == [] && t.currentUser == ""
  {
    EveryRunKeeps(config, auth, OFFERED, events, s);
    RunSnoc(Fresh(config, auth), events, ClickDisconnect, OFFERED);
  }
}
