/**
 The checks every Lua handler makes before it runs its function, in order
 (src/core/lua_command_engine.cpp), and the badge predicates they use.
 */
module Gate {
  import opened Text
  import opened Cooldown
  import opened Registry

  // ---------- permission ----------

  predicate IsModerator(badges: seq<string>) {
    exists i :: 0 <= i < |badges| && badges[i] in {"moderator", "broadcaster"}
  }

  predicate IsVip(badges: seq<string>) {
    exists i :: 0 <= i < |badges| && badges[i] in {"vip", "moderator", "broadcaster"}
  }

  predicate IsSubscriber(badges: seq<string>) {
    exists i :: 0 <= i < |badges| && badges[i] in {"subscriber", "vip", "moderator", "broadcaster"}
  }

  predicate HasPermission(user: string, badges: seq<string>, meta: CommandMetadata) {
    if user in meta.allowedUsers then true
    else if meta.modOnly && !IsModerator(badges) then false
    else if meta.vipOnly && !IsVip(badges) then false
    else if meta.subscriberOnly && !IsSubscriber(badges) then false
    else true
  }

  /** The badge ladder: everyone, subscriber, VIP, moderator or broadcaster. */
  function BadgeRank(badge: string): nat {
    if badge in {"moderator", "broadcaster"} then 3 else if badge == "vip" then 2 else if badge == "subscriber" then 1 else 0
  }

  function Rank(badges: seq<string>): nat {
    if |badges| == 0 then 0
    else
      var rest := Rank(badges[1..]);
      if BadgeRank(badges[0]) > rest then BadgeRank(badges[0]) else rest
  }

  function RequiredRank(meta: CommandMetadata): nat {
    if meta.modOnly then 3 else if meta.vipOnly then 2 else if meta.subscriberOnly then 1 else 0
  }

  lemma {:induction false} RankIsTheBestBadge(badges: seq<string>, r: nat)
    ensures Rank(badges) >= r <==> r == 0 || exists i :: 0 <= i < |badges| && BadgeRank(badges[i]) >= r
  {
    if |badges| > 0 {
      RankIsTheBestBadge(badges[1..], r);
      assert forall i :: 1 <= i < |badges| ==> badges[i] == badges[1..][i - 1];
      assert forall i :: 0 <= i < |badges[1..]| ==> badges[1..][i] == badges[i + 1];
    }
  }

  /** The three flags together ask for the strictest one; a listed user needs no badge. */
  lemma PermissionIsARank(user: string, badges: seq<string>, meta: CommandMetadata)
    ensures HasPermission(user, badges, meta) <==> user in meta.allowedUsers || Rank(badges) >= RequiredRank(meta)
  {
    RankIsTheBestBadge(badges, 1);
    RankIsTheBestBadge(badges, 2);
    RankIsTheBestBadge(badges, 3);
    assert IsModerator(badges) <==> Rank(badges) >= 3;
    assert IsVip(badges) <==> Rank(badges) >= 2;
    assert IsSubscriber(badges) <==> Rank(badges) >= 1;
  }

  lemma BadgesSpelledOut(badges: seq<string>)
    ensures IsModerator(badges) <==> "moderator" in badges || "broadcaster" in badges
    ensures IsVip(badges) <==> "vip" in badges || "moderator" in badges || "broadcaster" in badges
    ensures IsSubscriber(badges)
       <==> "subscriber" in badges || "vip" in badges || "moderator" in badges || "broadcaster" in badges
  {
  }

  // ---------- the gate ----------

  datatype Outcome = ConfigurationError | Disabled | NotPermitted | CoolingDown | LimitReached | Executed

  const CONFIGURATION_ERROR := "Command configuration error"

  /** What a refusal says in chat. */
  function ReplyTo(outcome: Outcome): Option<string> {
    match outcome
    case ConfigurationError => Some(CONFIGURATION_ERROR)
    case Disabled => None
    case NotPermitted => Some("You don't have permission to use this command.")
    case CoolingDown => Some("Command is on cooldown.")
    case LimitReached => Some("Command has reached its usage limit for this stream.")
    case Executed => None
  }

  /** Each refusal that speaks has a text of its own; a disabled command and an executed one say nothing. */
  lemma RefusalsDiffer(a: Outcome, b: Outcome)
    ensures ReplyTo(a).None? <==> a == Disabled || a == Executed
    ensures a != b && ReplyTo(a).Some? && ReplyTo(b).Some? ==> ReplyTo(a) != ReplyTo(b)
  {
    var texts := [CONFIGURATION_ERROR, "You don't have permission to use this command.", "Command is on cooldown.",
                  "Command has reached its usage limit for this stream."];
    assert |texts[0]| == 27 && |texts[1]| == 46 && |texts[2]| == 23 && |texts[3]| == 52;
  }

  function Decide(metadata: map<string, Script>, tracker: Tracker, name: string, user: string, badges: seq<string>, now: int)
    : Outcome
  {
    if name !in metadata then ConfigurationError
    else
      var meta := metadata[name].meta;
      if !meta.enabled then Disabled
      else if !HasPermission(user, badges, meta) then NotPermitted
      else if tracker.OnCooldown(name, user, meta, now) then CoolingDown
      else if meta.maxUsesPerStream > 0 && tracker.Uses(name) >= meta.maxUsesPerStream then LimitReached
      else Executed
  }

  /** What the history says about a request for a command with metadata `meta`. */
  ghost predicate Admissible(log: seq<Entry>, meta: CommandMetadata, name: string, user: string, badges: seq<string>, now: int) {
    && meta.enabled
    && (user in meta.allowedUsers || Rank(badges) >= RequiredRank(meta))
    && !BlockedByHistory(log, name, user, meta, now)
    && (meta.maxUsesPerStream > 0 ==> UsesSinceReset(log, name) < meta.maxUsesPerStream)
  }

  lemma HistorySpelledOut(log: seq<Entry>, meta: CommandMetadata, name: string, user: string, now: int)
    ensures !BlockedByHistory(log, name, user, meta, now)
       <==> && (meta.globalCooldown > 0 ==>
                  && now >= meta.globalCooldown * 1_000_000_000
                  && forall i :: 0 <= i < |log| && log[i].Execution? ==>
                       now - log[i].recorded >= meta.globalCooldown * 1_000_000_000)
            && (meta.commandCooldown > 0 ==>
                  forall i :: 0 <= i < |log| && log[i].Execution? && log[i].command == name ==>
                    now - log[i].recorded >= meta.commandCooldown * 1_000_000_000)
            && (meta.userCooldown > 0 ==>
                  forall i :: 0 <= i < |log| && log[i].Execution? && log[i].command == name && log[i].user == user ==>
                    now - log[i].recorded >= meta.userCooldown * 1_000_000_000)
  {
  }

  lemma SinceResetSpelledOut(log: seq<Entry>, name: string)
    ensures PlacesSinceReset(log, name)
         == set i | 0 <= i < |log| && log[i].Execution? && log[i].command == name
                    && forall j :: i < j < |log| ==> !log[j].StreamReset?
  {
  }

  /** What it takes to be admitted, spelled out over the whole history, in nanoseconds and badges. */
  lemma AdmissionSpelledOut(log: seq<Entry>, meta: CommandMetadata, name: string, user: string, badges: seq<string>, now: int)
    ensures Admissible(log, meta, name, user, badges, now)
       <==> && meta.enabled
            && (user in meta.allowedUsers
                || (&& (meta.modOnly ==> "moderator" in badges || "broadcaster" in badges)
                    && (meta.vipOnly ==> "vip" in badges || "moderator" in badges || "broadcaster" in badges)
                    && (meta.subscriberOnly ==>
                          "subscriber" in badges || "vip" in badges || "moderator" in badges || "broadcaster" in badges)))
            && (meta.globalCooldown > 0 ==>
                  && now >= meta.globalCooldown * 1_000_000_000
                  && forall i :: 0 <= i < |log| && log[i].Execution? ==>
                       now - log[i].recorded >= meta.globalCooldown * 1_000_000_000)
            && (meta.commandCooldown > 0 ==>
                  forall i :: 0 <= i < |log| && log[i].Execution? && log[i].command == name ==>
                    now - log[i].recorded >= meta.commandCooldown * 1_000_000_000)
            && (meta.userCooldown > 0 ==>
                  forall i :: 0 <= i < |log| && log[i].Execution? && log[i].command == name && log[i].user == user ==>
                    now - log[i].recorded >= meta.userCooldown * 1_000_000_000)
            && (meta.maxUsesPerStream > 0 ==>
                  var sinceReset := set i | 0 <= i < |log| && log[i].Execution? && log[i].command == name
                                            && forall j :: i < j < |log| ==> !log[j].StreamReset?;
                  |sinceReset| < meta.maxUsesPerStream)
  {
    PermissionIsARank(user, badges, meta);
    BadgesSpelledOut(badges);
    HistorySpelledOut(log, meta, name, user, now);
    UsesAreCounted(log, name);
    SinceResetSpelledOut(log, name);
  }

  /** The gate admits exactly what the full history allows, and each refusal names its first reason. */
  lemma GateAgreesWithHistory(metadata: map<string, Script>, tracker: Tracker, log: seq<Entry>,
                              name: string, user: string, badges: seq<string>, now: int)
    requires Summarises(tracker, log) && Chronological(log, now) && name in metadata
    ensures var outcome := Decide(metadata, tracker, name, user, badges, now);
            var meta := metadata[name].meta;
            var permitted := user in meta.allowedUsers || Rank(badges) >= RequiredRank(meta);
            var blocked := BlockedByHistory(log, name, user, meta, now);
            && outcome != ConfigurationError
            && (outcome == Executed <==> Admissible(log, meta, name, user, badges, now))
            && (outcome == Disabled <==> !meta.enabled)
            && (outcome == NotPermitted <==> meta.enabled && !permitted)
            && (outcome == CoolingDown <==> meta.enabled && permitted && blocked)
            && (outcome == LimitReached <==> meta.enabled && permitted && !blocked
                                             && 0 < meta.maxUsesPerStream <= UsesSinceReset(log, name))
  {
    PermissionIsARank(user, badges, metadata[name].meta);
    TrackerAgreesWithHistory(tracker, log, name, user, metadata[name].meta, now);
    assert tracker.Uses(name) == UsesSinceReset(log, name);
  }
}
