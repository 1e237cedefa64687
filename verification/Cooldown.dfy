/**
 The rate limiter of src/core/lua_command_engine.cpp: one timestamp per scope and a use counter,
 judged against the whole history of executions.

 Times are nanoseconds on the steady clock. The check and the record read the clock separately.
 */
module Cooldown {
  import opened Text

  const NANOS_PER_SECOND := 1_000_000_000

  datatype CommandMetadata = CommandMetadata(
    globalCooldown: int, commandCooldown: int, userCooldown: int,
    modOnly: bool, vipOnly: bool, subscriberOnly: bool, allowedUsers: seq<string>,
    enabled: bool, maxUsesPerStream: int)

  /** The three places a cooldown is counted from. */
  datatype Scope = Global | OfCommand(command: string) | OfUser(command: string, user: string)

  /** One line of history. `meta` is the metadata in force when the execution was admitted. */
  datatype Entry =
    | Execution(command: string, user: string, checked: int, recorded: int, meta: CommandMetadata)
    | StreamReset

  // ---------- the tracker's state ----------

  /** duration_cast to seconds: truncation toward zero. */
  function WholeSeconds(nanos: int): int {
    if nanos >= 0 then nanos / NANOS_PER_SECOND else -(-nanos / NANOS_PER_SECOND)
  }

  datatype Tracker = Tracker(
    lastGlobalCommand: int,
    lastCommandUse: map<string, int>,
    userCommandCooldowns: map<string, map<string, int>>,
    commandUseCount: map<string, int>)
  {
    /** The timestamp kept for a scope. The global one exists from the start. */
    function Last(scope: Scope): Option<int> {
      match scope
      case Global => Some(lastGlobalCommand)
      case OfCommand(c) => if c in lastCommandUse then Some(lastCommandUse[c]) else None
      case OfUser(c, u) =>
        if c in userCommandCooldowns && u in userCommandCooldowns[c] then Some(userCommandCooldowns[c][u]) else None
    }

    function Uses(command: string): int {
      if command in commandUseCount then commandUseCount[command] else 0
    }

    predicate Holds(scope: Scope, cooldown: int, now: int) {
      cooldown > 0 && Last(scope).Some? && WholeSeconds(now - Last(scope).value) < cooldown
    }

    predicate OnCooldown(command: string, user: string, meta: CommandMetadata, now: int) {
      Holds(Global, meta.globalCooldown, now)
      || Holds(OfCommand(command), meta.commandCooldown, now)
      || Holds(OfUser(command, user), meta.userCooldown, now)
    }

    function Record(command: string, user: string, now: int): Tracker {
      var users := if command in userCommandCooldowns then userCommandCooldowns[command] else map[];
      Tracker(now, lastCommandUse[command := now],
              userCommandCooldowns[command := users[user := now]],
              commandUseCount[command := Uses(command) + 1])
    }

    function ResetStream(): Tracker {
      this.(commandUseCount := map[])
    }
  }

  const FRESH_TRACKER := Tracker(0, map[], map[], map[])

  // ---------- the history ----------

  predicate InScope(e: Entry, scope: Scope) {
    e.Execution? && match scope
                    case Global => true
                    case OfCommand(c) => e.command == c
                    case OfUser(c, u) => e.command == c && e.user == u
  }

  /** Whether some execution of the scope is less than `cooldown` seconds old. The clock's epoch
      counts as one execution of the global scope. */
  ghost predicate RecentlyUsed(log: seq<Entry>, scope: Scope, cooldown: int, now: int) {
    (scope.Global? && now < cooldown * NANOS_PER_SECOND)
    || exists i :: 0 <= i < |log| && InScope(log[i], scope) && now - log[i].recorded < cooldown * NANOS_PER_SECOND
  }

  ghost predicate BlockedByHistory(log: seq<Entry>, command: string, user: string, meta: CommandMetadata, now: int) {
    (meta.globalCooldown > 0 && RecentlyUsed(log, Global, meta.globalCooldown, now))
    || (meta.commandCooldown > 0 && RecentlyUsed(log, OfCommand(command), meta.commandCooldown, now))
    || (meta.userCooldown > 0 && RecentlyUsed(log, OfUser(command, user), meta.userCooldown, now))
  }

  /** Executions of a registered name since the latest reset. */
  function UsesSinceReset(log: seq<Entry>, command: string): nat {
    if |log| == 0 then 0
    else match log[|log| - 1]
      case StreamReset => 0
      case Execution(c, _, _, _, _) => UsesSinceReset(log[..|log| - 1], command) + if c == command then 1 else 0
  }

  predicate NoResetAfter(log: seq<Entry>, i: int)
    requires 0 <= i
  {
    forall j :: i < j < |log| ==> !log[j].StreamReset?
  }

  /** The executions of a registered name that no reset follows, by their place in the log. */
  function PlacesSinceReset(log: seq<Entry>, command: string): set<int> {
    set i | 0 <= i < |log| && log[i].Execution? && log[i].command == command && NoResetAfter(log, i)
  }

  lemma NoResetAfterSnoc(log: seq<Entry>, i: int)
    requires 0 <= i < |log| - 1
    ensures NoResetAfter(log, i) <==> NoResetAfter(log[..|log| - 1], i) && !log[|log| - 1].StreamReset?
  {
    var shorter := log[..|log| - 1];
    assert forall j :: 0 <= j < |shorter| ==> shorter[j] == log[j];
  }

  lemma PlacesSnoc(log: seq<Entry>, command: string)
    requires |log| > 0
    ensures var k := |log| - 1;
            PlacesSinceReset(log, command)
              == if log[k].StreamReset? then {}
                 else PlacesSinceReset(log[..k], command) + if log[k].command == command then {k} else {}
  {
    var k, shorter := |log| - 1, log[..|log| - 1];
    forall i | 0 <= i < k ensures shorter[i] == log[i]
                          ensures NoResetAfter(log, i) <==> NoResetAfter(shorter, i) && !log[k].StreamReset?
    {
      NoResetAfterSnoc(log, i);
    }
    assert NoResetAfter(log, k);
  }

  lemma {:induction false} UsesAreCounted(log: seq<Entry>, command: string)
    ensures UsesSinceReset(log, command) == |PlacesSinceReset(log, command)|
  {
    if |log| > 0 {
      UsesAreCounted(log[..|log| - 1], command);
      PlacesSnoc(log, command);
    }
  }

  /** A monotone clock: no record time before the epoch, after `now`, or after a later one. */
  ghost predicate Chronological(log: seq<Entry>, now: int) {
    && 0 <= now
    && (forall i :: 0 <= i < |log| && log[i].Execution? ==> 0 <= log[i].checked <= log[i].recorded <= now)
    && (forall i, j :: 0 <= i < j < |log| && log[i].Execution? && log[j].Execution? ==>
          log[i].recorded <= log[j].checked)
  }

  /** The record time of the scope's latest execution. */
  function Latest(log: seq<Entry>, scope: Scope): Option<int> {
    if |log| == 0 then None
    else if InScope(log[|log| - 1], scope) then Some(log[|log| - 1].recorded)
    else Latest(log[..|log| - 1], scope)
  }

  /** The tracker is the summary of the history. */
  ghost predicate Summarises(t: Tracker, log: seq<Entry>) {
    && t.lastGlobalCommand == (match Latest(log, Global) case None => 0 case Some(r) => r)
    && (forall scope: Scope :: !scope.Global? ==> t.Last(scope) == Latest(log, scope))
    && (forall command :: t.Uses(command) == UsesSinceReset(log, command))
  }

  lemma FreshSummary()
    ensures Summarises(FRESH_TRACKER, []) && Chronological([], 0)
  {
  }

  lemma RecordSummary(t: Tracker, log: seq<Entry>, e: Entry)
    requires e.Execution? && Summarises(t, log)
    ensures Summarises(t.Record(e.command, e.user, e.recorded), log + [e])
  {
    var t' := t.Record(e.command, e.user, e.recorded);
    var log' := log + [e];
    assert log'[..|log'| - 1] == log;
    forall scope: Scope | !scope.Global? ensures t'.Last(scope) == Latest(log', scope) {
      assert t.Last(scope) == Latest(log, scope);
    }
    forall command ensures t'.Uses(command) == UsesSinceReset(log', command) {
      assert t.Uses(command) == UsesSinceReset(log, command);
    }
  }

  lemma ResetSummary(t: Tracker, log: seq<Entry>)
    requires Summarises(t, log)
    ensures Summarises(t.ResetStream(), log + [StreamReset])
  {
    var log' := log + [StreamReset];
    assert log'[..|log'| - 1] == log;
    forall scope: Scope ensures Latest(log', scope) == Latest(log, scope) {
    }
    forall scope: Scope | !scope.Global? ensures t.ResetStream().Last(scope) == Latest(log', scope) {
      assert t.Last(scope) == Latest(log, scope);
    }
  }

  // ---------- one timestamp per scope is enough ----------

  /** Truncating to whole seconds changes no comparison against a whole number of seconds. */
  lemma TruncationIsHarmless(nanos: int, cooldown: int)
    requires nanos >= 0
    ensures WholeSeconds(nanos) < cooldown <==> nanos < cooldown * NANOS_PER_SECOND
  {
  }

  lemma {:induction false} LatestDecides(log: seq<Entry>, scope: Scope, cooldown: int, now: int)
    requires Chronological(log, now)
    ensures (exists i :: 0 <= i < |log| && InScope(log[i], scope) && now - log[i].recorded < cooldown * NANOS_PER_SECOND)
        <==> Latest(log, scope).Some? && now - Latest(log, scope).value < cooldown * NANOS_PER_SECOND
    ensures Latest(log, scope).Some? ==> 0 <= Latest(log, scope).value <= now
  {
    if |log| > 0 {
      var shorter := log[..|log| - 1];
      assert Chronological(shorter, now);
      LatestDecides(shorter, scope, cooldown, now);
      var last := log[|log| - 1];
      assert forall i :: 0 <= i < |shorter| ==> shorter[i] == log[i];
      if InScope(last, scope) {
        assert forall i :: 0 <= i < |log| && InScope(log[i], scope) ==> log[i].recorded <= last.recorded;
      }
    }
  }

  lemma HoldsMeansRecentlyUsed(t: Tracker, log: seq<Entry>, scope: Scope, cooldown: int, now: int)
    requires Summarises(t, log) && Chronological(log, now) && cooldown > 0
    ensures t.Holds(scope, cooldown, now) <==> RecentlyUsed(log, scope, cooldown, now)
  {
    LatestDecides(log, scope, cooldown, now);
    if t.Last(scope).Some? {
      TruncationIsHarmless(now - t.Last(scope).value, cooldown);
    }
  }

  /** The tracker refuses exactly when the full history has an execution inside a window. */
  lemma TrackerAgreesWithHistory(t: Tracker, log: seq<Entry>, command: string, user: string,
                                 meta: CommandMetadata, now: int)
    requires Summarises(t, log) && Chronological(log, now)
    ensures t.OnCooldown(command, user, meta, now) <==> BlockedByHistory(log, command, user, meta, now)
  {
    if meta.globalCooldown > 0 {
      HoldsMeansRecentlyUsed(t, log, Global, meta.globalCooldown, now);
    }
    if meta.commandCooldown > 0 {
      HoldsMeansRecentlyUsed(t, log, OfCommand(command), meta.commandCooldown, now);
    }
    if meta.userCooldown > 0 {
      HoldsMeansRecentlyUsed(t, log, OfUser(command, user), meta.userCooldown, now);
    }
  }

  // ---------- the tracker object ----------

  class CooldownTracker {
    var lastGlobalCommand: int
    var lastCommandUse: map<string, int>
    var userCommandCooldowns: map<string, map<string, int>>
    var commandUseCount: map<string, int>

    function View(): Tracker
      reads this
    {
      Tracker(lastGlobalCommand, lastCommandUse, userCommandCooldowns, commandUseCount)
    }

    constructor ()
      ensures View() == FRESH_TRACKER
    {
      lastGlobalCommand := 0;
      lastCommandUse, userCommandCooldowns, commandUseCount := map[], map[], map[];
    }

    /** Whatever history the tracker summarises, the answer is the one the full history gives. */
    method IsOnCooldown(command: string, user: string, meta: CommandMetadata, now: int) returns (r: bool)
      ensures r <==> View().OnCooldown(command, user, meta, now)
      ensures forall log :: Summarises(View(), log) && Chronological(log, now) ==>
                (r <==> BlockedByHistory(log, command, user, meta, now))
    {
      forall log | Summarises(View(), log) && Chronological(log, now)
        ensures View().OnCooldown(command, user, meta, now) <==> BlockedByHistory(log, command, user, meta, now)
      {
        TrackerAgreesWithHistory(View(), log, command, user, meta, now);
      }
      if meta.globalCooldown > 0 {
        var since := WholeSeconds(now - lastGlobalCommand);
        if since < meta.globalCooldown {
          return true;
        }
      }
      if meta.commandCooldown > 0 {
        if command in lastCommandUse {
          var since := WholeSeconds(now - lastCommandUse[command]);
          if since < meta.commandCooldown {
            return true;
          }
        }
      }
      if meta.userCooldown > 0 {
        if command in userCommandCooldowns {
          var users := userCommandCooldowns[command];
          if user in users {
            var since := WholeSeconds(now - users[user]);
            if since < meta.userCooldown {
              return true;
            }
          }
        }
      }
      return false;
    }

    method RecordUsage(command: string, user: string, now: int)
      modifies this
      ensures View() == old(View()).Record(command, user, now)
    {
      lastGlobalCommand := now;
      lastCommandUse := lastCommandUse[command := now];
      var users := if command in userCommandCooldowns then userCommandCooldowns[command] else map[];
      userCommandCooldowns := userCommandCooldowns[command := users[user := now]];
      var count := if command in commandUseCount then commandUseCount[command] else 0;
      commandUseCount := commandUseCount[command := count + 1];
    }

    method ResetStreamCounters()
      modifies this
      ensures View() == old(View()).ResetStream()
    {
      commandUseCount := map[];
    }
  }

  // ---------- what the gate guarantees about a history ----------

  /** The cooldown that an execution had to respect in a scope. */
  function CooldownIn(meta: CommandMetadata, scope: Scope): int {
    match scope
    case Global => meta.globalCooldown
    case OfCommand(_) => meta.commandCooldown
    case OfUser(_, _) => meta.userCooldown
  }

  /** Execution `e` was checked at least its cooldown after `earlier` was recorded, in every scope they share. */
  predicate SpacedAfter(earlier: Entry, e: Entry)
    requires e.Execution?
  {
    forall scope | scope in {Global, OfCommand(e.command), OfUser(e.command, e.user)} ::
      InScope(earlier, scope) && CooldownIn(e.meta, scope) > 0 ==>
        e.checked - earlier.recorded >= CooldownIn(e.meta, scope) * NANOS_PER_SECOND
  }

  ghost predicate Spaced(log: seq<Entry>) {
    && (forall i, j :: 0 <= i < j < |log| && log[j].Execution? ==> SpacedAfter(log[i], log[j]))
    && (forall j :: 0 <= j < |log| && log[j].Execution? && log[j].meta.globalCooldown > 0 ==>
          log[j].checked >= log[j].meta.globalCooldown * NANOS_PER_SECOND)
  }

  /** Every limited execution found fewer uses since the reset than the limit then in force. */
  ghost predicate WithinLimits(log: seq<Entry>) {
    forall j :: 0 <= j < |log| && log[j].Execution? && log[j].meta.maxUsesPerStream > 0 ==>
      UsesSinceReset(log[..j], log[j].command) < log[j].meta.maxUsesPerStream
  }

  /** Admitting only unblocked executions keeps the whole history spaced. */
  lemma AdmittedStaysSpaced(log: seq<Entry>, e: Entry)
    requires e.Execution? && Spaced(log)
    requires !BlockedByHistory(log, e.command, e.user, e.meta, e.checked)
    ensures Spaced(log + [e])
  {
    var log' := log + [e];
    forall i, j | 0 <= i < j < |log'| && log'[j].Execution? ensures SpacedAfter(log'[i], log'[j]) {
      if j == |log| {
        assert log'[i] == log[i];
      }
    }
  }

  lemma AdmittedStaysChronological(log: seq<Entry>, e: Entry)
    requires e.Execution? && Chronological(log, e.checked) && e.checked <= e.recorded
    ensures Chronological(log + [e], e.recorded)
  {
    var log' := log + [e];
    assert forall i :: 0 <= i < |log| ==> log'[i] == log[i];
  }

  lemma AdmittedStaysWithinLimits(log: seq<Entry>, e: Entry)
    requires WithinLimits(log)
    requires e.Execution? && e.meta.maxUsesPerStream > 0 ==> UsesSinceReset(log, e.command) < e.meta.maxUsesPerStream
    ensures WithinLimits(log + [e])
  {
    var log' := log + [e];
    forall j | 0 <= j < |log'| ensures log'[..j] == log[..j] {
    }
    assert log[..|log|] == log;
  }

  // ---------- the budget of one stream ----------

  /** Executions in `log` whose name is one of `names`. */
  function ExecutionsOf(log: seq<Entry>, names: set<string>): nat {
    if |log| == 0 then 0
    else ExecutionsOf(log[..|log| - 1], names)
         + if log[|log| - 1].Execution? && log[|log| - 1].command in names then 1 else 0
  }

  function PlacesOf(log: seq<Entry>, names: set<string>): set<int> {
    set i | 0 <= i < |log| && log[i].Execution? && log[i].command in names
  }

  lemma PlacesOfSnoc(log: seq<Entry>, names: set<string>)
    requires |log| > 0
    ensures var k := |log| - 1;
            PlacesOf(log, names)
              == PlacesOf(log[..k], names) + if log[k].Execution? && log[k].command in names then {k} else {}
  {
  }

  lemma {:induction false} ExecutionsAreCounted(log: seq<Entry>, names: set<string>)
    ensures ExecutionsOf(log, names) == |PlacesOf(log, names)|
  {
    if |log| > 0 {
      ExecutionsAreCounted(log[..|log| - 1], names);
      PlacesOfSnoc(log, names);
    }
  }

  ghost predicate NoReset(log: seq<Entry>) {
    forall i :: 0 <= i < |log| ==> !log[i].StreamReset?
  }

  /** Every execution of one of `names` in `stream` ran under the limit `limit`. */
  ghost predicate ConstantLimit(stream: seq<Entry>, names: set<string>, limit: int) {
    forall i :: 0 <= i < |stream| && stream[i].Execution? && stream[i].command in names ==>
      stream[i].meta.maxUsesPerStream == limit
  }

  lemma {:induction false} StreamCountsTowardsUses(before: seq<Entry>, stream: seq<Entry>, name: string)
    requires NoReset(stream)
    ensures ExecutionsOf(stream, {name}) <= UsesSinceReset(before + stream, name)
  {
    if |stream| > 0 {
      var shorter := stream[..|stream| - 1];
      assert (before + stream)[..|before + stream| - 1] == before + shorter;
      StreamCountsTowardsUses(before, shorter, name);
    }
  }

  lemma {:induction false} OneNameBudget(before: seq<Entry>, stream: seq<Entry>, name: string, limit: int)
    requires WithinLimits(before + stream) && NoReset(stream)
    requires limit > 0 && ConstantLimit(stream, {name}, limit)
    ensures ExecutionsOf(stream, {name}) <= limit
  {
    if |stream| > 0 {
      var k := |stream| - 1;
      var shorter := stream[..k];
      var log := before + stream;
      assert log[..|before| + k] == before + shorter;
      assert stream[k] == log[|before| + k];
      if stream[k].Execution? && stream[k].command == name {
        StreamCountsTowardsUses(before, shorter, name);
      } else {
        assert WithinLimits(before + shorter) by {
          forall j | 0 <= j < |before + shorter| ensures (before + shorter)[..j] == log[..j] {
          }
        }
        OneNameBudget(before, shorter, name, limit);
      }
    }
  }

  lemma {:induction false} ExecutionsSplit(log: seq<Entry>, names: set<string>, name: string)
    requires name in names
    ensures ExecutionsOf(log, names) == ExecutionsOf(log, {name}) + ExecutionsOf(log, names - {name})
  {
    if |log| > 0 {
      ExecutionsSplit(log[..|log| - 1], names, name);
    }
  }

  lemma {:induction false} ExecutionsOfNobody(log: seq<Entry>)
    ensures ExecutionsOf(log, {}) == 0
  {
    if |log| > 0 {
      ExecutionsOfNobody(log[..|log| - 1]);
    }
  }

  /** Between two resets, k names under one limit run at most k times the limit. */
  lemma {:induction false} StreamBudget(before: seq<Entry>, stream: seq<Entry>, names: set<string>, limit: int)
    requires WithinLimits(before + stream) && NoReset(stream)
    requires limit > 0 && ConstantLimit(stream, names, limit)
    ensures ExecutionsOf(stream, names) <= |names| * limit
    decreases |names|
  {
    if names == {} {
      ExecutionsOfNobody(stream);
    } else {
      var name :| name in names;
      var others := names - {name};
      ExecutionsSplit(stream, names, name);
      OneNameBudget(before, stream, name, limit);
      StreamBudget(before, stream, others, limit);
      assert |names| == |others| + 1;
      assert (|others| + 1) * limit == |others| * limit + limit;
    }
  }

  // ---------- the rate of one scope ----------

  /** The record times of the scope's executions, oldest first. */
  function TimesIn(log: seq<Entry>, scope: Scope): seq<int> {
    if |log| == 0 then []
    else TimesIn(log[..|log| - 1], scope) + if InScope(log[|log| - 1], scope) then [log[|log| - 1].recorded] else []
  }

  function PlacesIn(log: seq<Entry>, scope: Scope): set<int> {
    set i | 0 <= i < |log| && InScope(log[i], scope)
  }

  lemma PlacesInSnoc(log: seq<Entry>, scope: Scope)
    requires |log| > 0
    ensures var k := |log| - 1; PlacesIn(log, scope) == PlacesIn(log[..k], scope) + if InScope(log[k], scope) then {k} else {}
  {
  }

  lemma {:induction false} TimesAreCounted(log: seq<Entry>, scope: Scope)
    ensures |TimesIn(log, scope)| == |PlacesIn(log, scope)|
  {
    if |log| > 0 {
      TimesAreCounted(log[..|log| - 1], scope);
      PlacesInSnoc(log, scope);
    }
  }

  /** Every execution of the scope had to respect a cooldown of at least `cooldown` seconds there. */
  ghost predicate CooldownAtLeast(log: seq<Entry>, scope: Scope, cooldown: int) {
    forall i :: 0 <= i < |log| && InScope(log[i], scope) ==> CooldownIn(log[i].meta, scope) >= cooldown
  }

  /** Each recorded time belongs to an execution of the scope. */
  lemma {:induction false} TimesAreEntries(log: seq<Entry>, scope: Scope, t: int)
    requires t in TimesIn(log, scope)
    ensures exists i :: 0 <= i < |log| && InScope(log[i], scope) && log[i].recorded == t
  {
    var shorter := log[..|log| - 1];
    if t in TimesIn(shorter, scope) {
      TimesAreEntries(shorter, scope, t);
      var i :| 0 <= i < |shorter| && InScope(shorter[i], scope) && shorter[i].recorded == t;
      assert log[i] == shorter[i];
    } else {
      assert log[|log| - 1].recorded == t;
    }
  }

  /** A stretch of a kept history is a kept history. */
  lemma StretchIsKept(log: seq<Entry>, now: int, from: nat, to: nat)
    requires Spaced(log) && Chronological(log, now) && from <= to <= |log|
    ensures Spaced(log[from..to]) && Chronological(log[from..to], now)
  {
    var part := log[from..to];
    assert forall i :: 0 <= i < |part| ==> part[i] == log[from + i];
  }

  /** The newest execution of a scope comes at least one cooldown after any before it. */
  lemma NewestIsSpaced(log: seq<Entry>, now: int, scope: Scope, cooldown: int, t: int)
    requires Spaced(log) && Chronological(log, now) && cooldown > 0 && CooldownAtLeast(log, scope, cooldown)
    requires |log| > 0 && InScope(log[|log| - 1], scope) && t in TimesIn(log[..|log| - 1], scope)
    ensures log[|log| - 1].recorded - t >= cooldown * NANOS_PER_SECOND
  {
    var shorter, e := log[..|log| - 1], log[|log| - 1];
    TimesAreEntries(shorter, scope, t);
    var i :| 0 <= i < |shorter| && InScope(shorter[i], scope) && shorter[i].recorded == t;
    assert shorter[i] == log[i];
    assert SpacedAfter(log[i], e);
    assert scope in {Global, OfCommand(e.command), OfUser(e.command, e.user)};
    assert CooldownIn(e.meta, scope) >= cooldown;
  }

  ghost predicate Gaps(times: seq<int>, gap: int) {
    forall j :: 0 < j < |times| ==> times[j] - times[j - 1] >= gap
  }

  lemma {:induction false} TimesAreSpaced(log: seq<Entry>, now: int, scope: Scope, cooldown: int)
    requires Spaced(log) && Chronological(log, now) && cooldown > 0 && CooldownAtLeast(log, scope, cooldown)
    ensures Gaps(TimesIn(log, scope), cooldown * NANOS_PER_SECOND)
  {
    if |log| > 0 {
      var shorter := log[..|log| - 1];
      assert log[0..|log| - 1] == shorter;
      StretchIsKept(log, now, 0, |log| - 1);
      TimesAreSpaced(shorter, now, scope, cooldown);
      var times := TimesIn(shorter, scope);
      if InScope(log[|log| - 1], scope) && |times| > 0 {
        NewestIsSpaced(log, now, scope, cooldown, times[|times| - 1]);
      }
    }
  }

  /** Gaps add up: k times span at least k - 1 gaps. */
  lemma {:induction false} GapsAddUp(times: seq<int>, gap: int)
    requires |times| > 0 && Gaps(times, gap)
    ensures times[|times| - 1] - times[0] >= (|times| - 1) * gap
  {
    if |times| > 1 {
      var shorter := times[..|times| - 1];
      assert forall j :: 0 <= j < |shorter| ==> shorter[j] == times[j];
      GapsAddUp(shorter, gap);
      assert (|times| - 1) * gap == (|shorter| - 1) * gap + gap;
    }
  }

  lemma SpanBoundsCount(times: seq<int>, cooldown: int, seconds: nat)
    requires |times| > 0 && Gaps(times, cooldown * NANOS_PER_SECOND)
    requires times[|times| - 1] - times[0] <= seconds * NANOS_PER_SECOND
    ensures (|times| - 1) * cooldown <= seconds
  {
    GapsAddUp(times, cooldown * NANOS_PER_SECOND);
    var k := |times| - 1;
    assert k * (cooldown * NANOS_PER_SECOND) == (k * cooldown) * NANOS_PER_SECOND;
  }

  /** Executions of a scope under a cooldown, all recorded within `seconds`: one, and one more per
      cooldown that passed. */
  lemma RateLimit(log: seq<Entry>, now: int, scope: Scope, cooldown: int, begin: int, seconds: nat)
    requires Spaced(log) && Chronological(log, now) && cooldown > 0 && CooldownAtLeast(log, scope, cooldown)
    requires forall i :: 0 <= i < |log| && log[i].Execution? ==>
               begin <= log[i].recorded <= begin + seconds * NANOS_PER_SECOND
    ensures var k := |TimesIn(log, scope)|; k > 0 ==> (k - 1) * cooldown <= seconds
  {
    var times := TimesIn(log, scope);
    if |times| > 0 {
      TimesAreSpaced(log, now, scope, cooldown);
      TimesAreEntries(log, scope, times[0]);
      TimesAreEntries(log, scope, times[|times| - 1]);
      SpanBoundsCount(times, cooldown, seconds);
    }
  }
}
