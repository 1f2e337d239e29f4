/** Per-account group scoring, the risky queue and account health. */
module SmartEngine {
  import opened Wrappers
  import opened IstTime
  import opened Sequences

  const GROUP_RETRY_MAX := 3
  const RISKY_COOLDOWN := 86400 * SECOND
  const HEALTH_GOOD := 70.0
  const HEALTH_MEDIUM := 50.0

  /** The result and outcome codes; `Other` is any further text. */
  datatype Code =
    | Sent | JoinedSent | Okay | Skipped | JoinLimited | PreJoined | JoinedNew | AlreadyIn
    | Flood | Invalid | Blocked | CantWrite | Other(text: string)

  datatype Membership = Unknown | Member | NotMember

  datatype GroupEntry = GroupEntry(
    success: nat,
    failure: nat,
    retries: nat,
    score: int,
    lastProcessed: Option<int>,
    riskyUntil: Option<int>,
    lastResult: Option<Code>,
    joinAttempts: nat,
    joinSuccesses: nat,
    lastMembership: Membership)

  datatype Account = Account(totalSuccess: nat, totalFailure: nat, rateLimits: nat, health: real, delayMultiplier: real)

  datatype Intel = Intel(groups: map<string, GroupEntry>, account: Account)

  const DEFAULT_ENTRY := GroupEntry(0, 0, 0, 0, None, None, None, 0, 0, Unknown)
  const DEFAULT_ACCOUNT := Account(0, 0, 0, 100.0, 1.0)

  predicate IsSuccess(result: Code) {
    result.Sent? || result.JoinedSent? || result.Okay?
  }

  predicate IsNeutral(result: Code) {
    result.Skipped? || result.JoinLimited? || result.PreJoined?
  }

  predicate IsFailure(result: Code) {
    !IsSuccess(result) && !IsNeutral(result)
  }

  predicate IsJoined(outcome: Code) {
    outcome.JoinedNew? || outcome.AlreadyIn? || outcome.JoinedSent? || outcome.PreJoined?
  }

  predicate IsRefused(outcome: Code) {
    outcome.Blocked? || outcome.Invalid? || outcome.CantWrite?
  }

  /** Rounding to the nearest integer, ties to even. */
  function Round(x: real): int {
    var f := x.Floor;
    var part := x - f as real;
    if part < 0.5 || (part == 0.5 && f % 2 == 0) then f else f + 1
  }

  function Round1(x: real): real {
    Round(x * 10.0) as real / 10.0
  }

  function Round2(x: real): real {
    Round(x * 100.0) as real / 100.0
  }

  function MaxReal(a: real, b: real): real {
    if a >= b then a else b
  }

  function Clamp(x: real): real {
    if x < 0.0 then 0.0 else if x > 100.0 then 100.0 else x
  }

  function HealthDelta(result: Code): real {
    if IsSuccess(result) then 1.5
    else if IsNeutral(result) then 0.0
    else if result.Flood? then -8.0
    else if IsRefused(result) then -2.0
    else -3.0
  }

  /** The health after a result; a neutral result does not touch it. */
  function Bumped(health: real, result: Code): real {
    if IsNeutral(result) then health else Round1(Clamp(health + HealthDelta(result)))
  }

  function TierMultiplier(health: real): real {
    if health >= HEALTH_GOOD then 1.0
    else if health >= HEALTH_MEDIUM then 1.12
    else if health >= 30.0 then 1.35
    else 1.6
  }

  function DelayMultiplier(health: real, floor: real): real {
    Round2(MaxReal(TierMultiplier(health), floor))
  }

  function EntryOf(groups: map<string, GroupEntry>, group: string): GroupEntry {
    if group in groups then groups[group] else DEFAULT_ENTRY
  }

  function EntryAfter(e: GroupEntry, result: Code, now: int): GroupEntry {
    var success := if IsSuccess(result) then e.success + 1 else e.success;
    var failure := if IsFailure(result) then e.failure + 1 else e.failure;
    var retries := if IsSuccess(result) then 0 else if IsFailure(result) then e.retries + 1 else e.retries;
    e.(success := success, failure := failure, retries := retries, score := success - failure,
       lastProcessed := Some(now), lastResult := Some(result),
       riskyUntil := if retries > GROUP_RETRY_MAX then Some(now + RISKY_COOLDOWN) else e.riskyUntil)
  }

  function AccountAfter(a: Account, result: Code, floor: real): Account {
    var health := Bumped(a.health, result);
    Account(
      if IsSuccess(result) then a.totalSuccess + 1 else a.totalSuccess,
      if IsFailure(result) then a.totalFailure + 1 else a.totalFailure,
      if result.Flood? then a.rateLimits + 1 else a.rateLimits,
      health,
      DelayMultiplier(health, floor))
  }

  function AfterResult(intel: Intel, group: string, result: Code, now: int, floor: real): Intel {
    Intel(intel.groups[group := EntryAfter(EntryOf(intel.groups, group), result, now)],
          AccountAfter(intel.account, result, floor))
  }

  function AfterJoinOutcome(intel: Intel, group: string, outcome: Code): Intel {
    var e := EntryOf(intel.groups, group);
    var joined := IsJoined(outcome);
    intel.(groups := intel.groups[group :=
      e.(joinAttempts := e.joinAttempts + 1,
         joinSuccesses := if joined then e.joinSuccesses + 1 else e.joinSuccesses,
         lastMembership := if joined then Member else if IsRefused(outcome) then NotMember else e.lastMembership)])
  }

  /** Any query of a group creates its entry. */
  function Touched(intel: Intel, group: string): Intel {
    intel.(groups := intel.groups[group := EntryOf(intel.groups, group)])
  }

  function Risky(intel: Intel, group: string, now: int): bool {
    var until := EntryOf(intel.groups, group).riskyUntil;
    until.Some? && until.value != 0 && now < until.value
  }

  class GroupIntelligence {
    const profileFloor: real
    var groups: map<string, GroupEntry>
    var account: Account

    function View(): Intel
      reads this
    {
      Intel(groups, account)
    }

    constructor (profileFloor: real)
      ensures View() == Intel(map[], DEFAULT_ACCOUNT) && this.profileFloor == profileFloor
    {
      this.profileFloor := profileFloor;
      groups, account := map[], DEFAULT_ACCOUNT;
    }

    method Group(name: string) returns (entry: GroupEntry)
      modifies this`groups
      ensures View() == Touched(old(View()), name) && entry == groups[name]
    {
      if name !in groups {
        groups := groups[name := DEFAULT_ENTRY];
      }
      entry := groups[name];
      assert groups == old(groups)[name := EntryOf(old(groups), name)];
    }

    method IsRisky(group: string, now: int) returns (risky: bool)
      modifies this`groups
      ensures View() == Touched(old(View()), group)
      ensures risky == Risky(old(View()), group, now)
    {
      var g := Group(group);
      var until := g.riskyUntil;
      if until.None? || until.value == 0 {
        return false;
      }
      risky := now < until.value;
    }

    method RecordJoinOutcome(group: string, outcome: Code)
      modifies this`groups
      ensures View() == AfterJoinOutcome(old(View()), group, outcome)
    {
      var g := Group(group);
      g := g.(joinAttempts := g.joinAttempts + 1);
      if IsJoined(outcome) {
        g := g.(joinSuccesses := g.joinSuccesses + 1, lastMembership := Member);
      } else if IsRefused(outcome) {
        g := g.(lastMembership := NotMember);
      }
      groups := groups[group := g];
    }

    method RecordResult(group: string, result: Code, now: int)
      modifies this
      ensures View() == AfterResult(old(View()), group, result, now, profileFloor)
    {
      ScoreGroup(group, result, now);
      CountResult(result);
      SyncDelayMultiplier();
    }

    /** The group's own counters, its score and its risky flag. */
    method ScoreGroup(group: string, result: Code, now: int)
      modifies this`groups
      ensures groups == old(groups)[group := EntryAfter(EntryOf(old(groups), group), result, now)]
    {
      var g := Group(group);
      g := g.(lastProcessed := Some(now), lastResult := Some(result));
      if IsSuccess(result) {
        g := g.(success := g.success + 1, retries := 0);
      } else if IsFailure(result) {
        g := g.(failure := g.failure + 1, retries := g.retries + 1);
      }
      g := g.(score := g.success - g.failure);
      if g.retries > GROUP_RETRY_MAX {
        g := g.(riskyUntil := Some(now + RISKY_COOLDOWN));
      }
      groups := groups[group := g];
    }

    /** The account totals and the health, branch by branch. */
    method CountResult(result: Code)
      modifies this`account
      ensures account == AccountAfter(old(account), result,
          profileFloor).(delayMultiplier := old(account).delayMultiplier)
    {
      if IsSuccess(result) {
        account := account.(totalSuccess := account.totalSuccess + 1);
        BumpHealth(1.5);
      } else if IsNeutral(result) {
      } else if result.Flood? {
        account := account.(rateLimits := account.rateLimits + 1, totalFailure := account.totalFailure + 1);
        BumpHealth(-8.0);
      } else if IsRefused(result) {
        account := account.(totalFailure := account.totalFailure + 1);
        BumpHealth(-2.0);
      } else {
        account := account.(totalFailure := account.totalFailure + 1);
        BumpHealth(-3.0);
      }
    }

    method BumpHealth(delta: real)
      modifies this`account
      ensures account == old(account).(health := Round1(Clamp(old(account).health + delta)))
    {
      var score := account.health + delta;
      score := if score > 100.0 then 100.0 else score;
      score := if score < 0.0 then 0.0 else score;
      account := account.(health := Round1(score));
    }

    method SyncDelayMultiplier()
      modifies this`account
      ensures account == old(account).(delayMultiplier := DelayMultiplier(old(account).health, profileFloor))
    {
      var h := account.health;
      var mult := 1.6;
      if h >= HEALTH_GOOD {
        mult := 1.0;
      } else if h >= HEALTH_MEDIUM {
        mult := 1.12;
      } else if h >= 30.0 {
        mult := 1.35;
      }
      account := account.(delayMultiplier := Round2(MaxReal(mult, profileFloor)));
    }
  }

  /** What happened, in order. */
  datatype Event = Result(group: string, result: Code, t: int) | Join(group: string,
      outcome: Code) | Query(group: string)

  datatype World = World(now: int, intel: Intel, events: seq<Event>)

  datatype Step =
    | Wait(elapsed: nat)
    | RecordResult(group: string, result: Code)
    | RecordJoin(group: string, outcome: Code)
    | AskRisky(group: string)

  function Begin(now: int): World {
    World(now, Intel(map[], DEFAULT_ACCOUNT), [])
  }

  function Next(w: World, step: Step, floor: real): World {
    match step
    case Wait(elapsed) => w.(now := w.now + elapsed)
    case RecordResult(group, result) =>
      w.(intel := AfterResult(w.intel, group, result, w.now, floor),
         events := w.events + [Result(group, result, w.now)])
    case RecordJoin(group, outcome) =>
      w.(intel := AfterJoinOutcome(w.intel, group, outcome), events := w.events + [Join(group, outcome)])
    case AskRisky(group) => w.(intel := Touched(w.intel, group), events := w.events + [Query(group)])
  }

  function Run(w: World, steps: seq<Step>, floor: real): World {
    if steps == [] then w else Next(Run(w, steps[..|steps| - 1], floor), steps[|steps| - 1], floor)
  }

  function SuccessesOf(group: string): Event -> bool {
    (e: Event) => e.Result? && e.group == group && IsSuccess(e.result)
  }

  function FailuresOf(group: string): Event -> bool {
    (e: Event) => e.Result? && e.group == group && IsFailure(e.result)
  }

  function JoinsOf(group: string, onlyGood: bool): Event -> bool {
    (e: Event) => e.Join? && e.group == group && (onlyGood ==> IsJoined(e.outcome))
  }

  /** The run of failures a group is in: failures since its last success, neutral results aside. */
  function Streak(events: seq<Event>, group: string): nat {
    if events == [] then 0
    else
      var before, e := Streak(events[..|events| - 1], group), events[|events| - 1];
      if !e.Result? || e.group != group || IsNeutral(e.result) then before
      else if IsSuccess(e.result) then 0
      else before + 1
  }

  /** The event at `i` is a result of the group that left it with too many retries. */
  predicate TripsAt(events: seq<Event>, group: string, i: nat)
    requires i < |events|
  {
    events[i].Result? && events[i].group == group && Streak(events[..i + 1], group) > 3
  }

  ghost predicate EntryTrue(e: GroupEntry, events: seq<Event>, group: string) {
    && e.success == Count(events, SuccessesOf(group))
    && e.failure == Count(events, FailuresOf(group))
    && e.score == e.success - e.failure
    && e.retries == Streak(events, group)
    && e.joinAttempts == Count(events, JoinsOf(group, false))
    && e.joinSuccesses == Count(events, JoinsOf(group, true))
  }

  function LastTrip(events: seq<Event>, group: string): Option<int> {
    if events == [] then None
    else if TripsAt(events, group, |events| - 1) then Some(events[|events| - 1].t)
    else LastTrip(events[..|events| - 1], group)
  }

  ghost predicate GroupInv(w: World, group: string) {
    var e := EntryOf(w.intel.groups, group);
    && EntryTrue(e, w.events, group)
    && e.riskyUntil == match LastTrip(w.events, group) { case None => None case Some(t) => Some(t + RISKY_COOLDOWN) }
  }

  lemma Snoc(events: seq<Event>, e: Event, group: string)
    ensures Count(events + [e], SuccessesOf(group)) ==
        Count(events, SuccessesOf(group)) + if SuccessesOf(group)(e) then 1 else 0
    ensures Count(events + [e], FailuresOf(group)) ==
        Count(events, FailuresOf(group)) + if FailuresOf(group)(e) then 1 else 0
    ensures Count(events + [e], JoinsOf(group, false)) ==
        Count(events, JoinsOf(group, false)) + if JoinsOf(group, false)(e) then 1 else 0
    ensures Count(events + [e], JoinsOf(group, true)) ==
        Count(events, JoinsOf(group, true)) + if JoinsOf(group, true)(e) then 1 else 0
    ensures Streak(events + [e], group) ==
            if !e.Result? || e.group != group || IsNeutral(e.result) then Streak(events, group)
            else if IsSuccess(e.result) then 0 else Streak(events, group) + 1
    ensures LastTrip(events + [e], group) ==
            if e.Result? && e.group ==
                group && Streak(events + [e], group) > GROUP_RETRY_MAX then Some(e.t) else LastTrip(events, group)
  {
    assert (events + [e])[..|events|] == events;
    assert (events + [e])[..|events| + 1] == events + [e];
    FilterSnoc(events, e, SuccessesOf(group));
    FilterSnoc(events, e, FailuresOf(group));
    FilterSnoc(events, e, JoinsOf(group, false));
    FilterSnoc(events, e, JoinsOf(group, true));
  }

  lemma ResultKeepsGroup(w: World, g: string, result: Code, floor: real, group: string)
    requires GroupInv(w, group)
    ensures GroupInv(Next(w, RecordResult(g, result), floor), group)
  {
    Snoc(w.events, Result(g, result, w.now), group);
    var v := Next(w, RecordResult(g, result), floor);
    assert v.events == w.events + [Result(g, result, w.now)];
    if g == group {
      assert EntryOf(v.intel.groups, group) == EntryAfter(EntryOf(w.intel.groups, group), result, w.now);
    } else {
      assert EntryOf(v.intel.groups, group) == EntryOf(w.intel.groups, group);
    }
  }

  lemma JoinKeepsGroup(w: World, g: string, outcome: Code, floor: real, group: string)
    requires GroupInv(w, group)
    ensures GroupInv(Next(w, RecordJoin(g, outcome), floor), group)
  {
    Snoc(w.events, Join(g, outcome), group);
    var v := Next(w, RecordJoin(g, outcome), floor);
    assert v.events == w.events + [Join(g, outcome)];
    if g != group {
      assert EntryOf(v.intel.groups, group) == EntryOf(w.intel.groups, group);
    }
  }

  lemma QueryKeepsGroup(w: World, g: string, floor: real, group: string)
    requires GroupInv(w, group)
    ensures GroupInv(Next(w, AskRisky(g), floor), group)
  {
    Snoc(w.events, Query(g), group);
    var v := Next(w, AskRisky(g), floor);
    assert v.events == w.events + [Query(g)] && EntryOf(v.intel.groups, group) == EntryOf(w.intel.groups, group);
  }

  lemma StepKeepsGroup(w: World, step: Step, floor: real, group: string)
    requires GroupInv(w, group)
    ensures GroupInv(Next(w, step, floor), group)
  {
    match step {
      case Wait(_) =>
      case RecordResult(g, result) => ResultKeepsGroup(w, g, result, floor, group);
      case RecordJoin(g, outcome) => JoinKeepsGroup(w, g, outcome, floor, group);
      case AskRisky(g) => QueryKeepsGroup(w, g, floor, group);
    }
  }

  /** Sums one counter over all groups. */
  ghost function Total(groups: map<string, GroupEntry>, f: GroupEntry -> int): int {
    if groups == map[] then 0
    else
      var g :| g in groups;
      f(groups[g]) + Total(groups - {g}, f)
  }

  lemma {:induction false} TotalWithout(groups: map<string, GroupEntry>, f: GroupEntry -> int, group: string)
    requires group in groups
    ensures Total(groups, f) == f(groups[group]) + Total(groups - {group}, f)
    decreases |groups|
  {
    var g :| g in groups && Total(groups, f) == f(groups[g]) + Total(groups - {g}, f);
    if g == group {
    } else {
      TotalWithout(groups - {g}, f, group);
      TotalWithout(groups - {group}, f, g);
      assert groups - {g} - {group} == groups - {group} - {g};
    }
  }

  lemma TotalUpdate(groups: map<string, GroupEntry>, f: GroupEntry -> int, group: string, e: GroupEntry)
    requires f(DEFAULT_ENTRY) == 0
    ensures Total(groups[group := e], f) == Total(groups, f) - f(EntryOf(groups, group)) + f(e)
  {
    TotalWithout(groups[group := e], f, group);
    assert groups[group := e] - {group} == groups - {group};
    if group in groups {
      TotalWithout(groups, f, group);
    } else {
      assert groups - {group} == groups;
    }
  }

  function SuccessOf(): GroupEntry -> int {
    (e: GroupEntry) => e.success
  }

  function FailureOf(): GroupEntry -> int {
    (e: GroupEntry) => e.failure
  }

  predicate HalfSteps(x: real) {
    0.0 <= x <= 100.0 && (x * 2.0).Floor as real == x * 2.0
  }

  ghost predicate AccountInv(w: World, floor: real) {
    var a := w.intel.account;
    && a.totalSuccess == Total(w.intel.groups, SuccessOf())
    && a.totalFailure == Total(w.intel.groups, FailureOf())
    && a.rateLimits <= a.totalFailure
    && HalfSteps(a.health)
    && (a.delayMultiplier == DelayMultiplier(a.health, floor) || forall e :: e in w.events ==> !e.Result?)
  }

  /** Rounding to one decimal loses nothing on multiples of one half. */
  lemma RoundingIsExact(x: real)
    requires HalfSteps(x)
    ensures Round1(x) == x
  {
    var n := (x * 2.0).Floor;
    assert x * 10.0 == (5 * n) as real;
  }

  lemma BumpKeepsHalfSteps(health: real, result: Code)
    requires HalfSteps(health)
    ensures HalfSteps(Bumped(health, result))
    ensures Bumped(health, result) == if IsNeutral(result) then health else Clamp(health + HealthDelta(result))
  {
    var n := (health * 2.0).Floor;
    var d :=
      if IsSuccess(result) then 3
      else if IsNeutral(result) then 0
      else if result.Flood? then -16
      else if IsRefused(result) then -4
      else -6;
    assert (health + HealthDelta(result)) * 2.0 == (n + d) as real;
    RoundingIsExact(Clamp(health + HealthDelta(result)));
  }

  lemma StepKeepsAccount(w: World, step: Step, floor: real)
    requires AccountInv(w, floor)
    ensures AccountInv(Next(w, step, floor), floor)
  {
    match step {
      case Wait(_) =>
      case RecordResult(g, result) =>
        var e := EntryAfter(EntryOf(w.intel.groups, g), result, w.now);
        TotalUpdate(w.intel.groups, SuccessOf(), g, e);
        TotalUpdate(w.intel.groups, FailureOf(), g, e);
        BumpKeepsHalfSteps(w.intel.account.health, result);
      case RecordJoin(g, outcome) =>
        var e := EntryOf(AfterJoinOutcome(w.intel, g, outcome).groups, g);
        TotalUpdate(w.intel.groups, SuccessOf(), g, e);
        TotalUpdate(w.intel.groups, FailureOf(), g, e);
      case AskRisky(g) =>
        TotalUpdate(w.intel.groups, SuccessOf(), g, EntryOf(w.intel.groups, g));
        TotalUpdate(w.intel.groups, FailureOf(), g, EntryOf(w.intel.groups, g));
    }
  }

  ghost predicate TimesAscend(events: seq<Event>) {
    forall i, j :: 0 <= i < j < |events| && events[i].Result? && events[j].Result? ==> events[i].t <= events[j].t
  }

  ghost predicate InOrder(w: World) {
    0 < w.now && (forall e :: e in w.events && e.Result? ==> 0 < e.t <= w.now) && TimesAscend(w.events)
  }

  lemma StepKeepsOrder(w: World, step: Step, floor: real)
    requires InOrder(w)
    ensures InOrder(Next(w, step, floor))
  {
  }

  ghost predicate Inv(w: World, floor: real, group: string) {
    GroupInv(w, group) && AccountInv(w, floor) && InOrder(w)
  }

  lemma BeginInv(start: int, floor: real, group: string)
    requires 0 < start
    ensures Inv(Begin(start), floor, group)
  {
    assert (100.0 * 2.0).Floor == 200;
  }

  lemma {:induction false} RunInvariants(start: int, steps: seq<Step>, floor: real, group: string)
    requires 0 < start
    ensures Inv(Run(Begin(start), steps, floor), floor, group)
  {
    if steps == [] {
      BeginInv(start, floor, group);
    } else {
      RunInvariants(start, steps[..|steps| - 1], floor, group);
      StepKeepsInv(Run(Begin(start), steps[..|steps| - 1], floor), steps[|steps| - 1], floor, group);
    }
  }

  lemma {:induction false} StepKeepsInv(w: World, step: Step, floor: real, group: string)
    requires Inv(w, floor, group)
    ensures Inv(Next(w, step, floor), floor, group)
  {
    StepKeepsGroup(w, step, floor, group);
    StepKeepsAccount(w, step, floor);
    StepKeepsOrder(w, step, floor);
  }

  /** The last trip is the latest one, so the stored deadline speaks for all trips. */
  lemma {:induction false} LastTripIsLatest(events: seq<Event>, group: string, now: int)
    requires TimesAscend(events)
    ensures (LastTrip(events, group).Some? && now < LastTrip(events, group).value + RISKY_COOLDOWN) <==>
            exists i :: 0 <= i < |events| && TripsAt(events, group, i) && now < events[i].t + RISKY_COOLDOWN
  {
    if events == [] {
    } else {
      var n := |events| - 1;
      LastTripIsLatest(events[..n], group, now);
      forall i | 0 <= i < n
        ensures TripsAt(events, group, i) <==> TripsAt(events[..n], group, i)
      {
        assert events[..n][..i + 1] == events[..i + 1];
      }
    }
  }

  /** Main result, conservation: over every run the group counters sum to the account totals,
      every score is successes minus failures, rate limits are failures, and health stays within
      0 to 100 on multiples of one half, where rounding loses nothing. */
  lemma {:induction false} TotalsAreConserved(start: int, steps: seq<Step>, floor: real, group: string)
    requires 0 < start
    ensures var w := Run(Begin(start), steps, floor);
            var a, e := w.intel.account, EntryOf(w.intel.groups, group);
            && Total(w.intel.groups, SuccessOf()) == a.totalSuccess
            && Total(w.intel.groups, FailureOf()) == a.totalFailure
            && a.rateLimits <= a.totalFailure
            && e.score == e.success - e.failure ==
                Count(w.events, SuccessesOf(group)) - Count(w.events, FailuresOf(group))
            && e.joinSuccesses <= e.joinAttempts == Count(w.events, JoinsOf(group, false))
            && HalfSteps(a.health) && Round1(a.health) == a.health
  {
    RunInvariants(start, steps, floor, group);
    var w := Run(Begin(start), steps, floor);
    CountMonotone(w.events, JoinsOf(group, true), JoinsOf(group, false));
    RoundingIsExact(w.intel.account.health);
  }

  /** Main result, risk: a group is risky exactly when, within the last 24 hours, some recorded
      result left it with more than the permitted run of failures. */
  lemma RiskyIffRecentTrip(start: int, steps: seq<Step>, floor: real, group: string)
    requires 0 < start
    ensures var w := Run(Begin(start), steps, floor);
            Risky(w.intel, group, w.now) <==>
            exists i :: 0 <= i < |w.events| && TripsAt(w.events, group, i) && w.now - w.events[i].t < 24 * HOUR
  {
    RunInvariants(start, steps, floor, group);
    var w := Run(Begin(start), steps, floor);
    LastTripIsLatest(w.events, group, w.now);
    LastTripIsMember(w.events, group);
  }

  lemma {:induction false} LastTripIsMember(events: seq<Event>, group: string)
    ensures LastTrip(events, group).Some? ==>
              exists e :: e in events && e.Result? && e.t == LastTrip(events, group).value
  {
    if events != [] && !TripsAt(events, group, |events| - 1) {
      LastTripIsMember(events[..|events| - 1], group);
    } else if events != [] {
      assert events[|events| - 1] in events;
    }
  }

  /** Worse health never shortens the delays. */
  lemma WorseHealthSlowsDown(healthy: real, sick: real, floor: real)
    requires sick <= healthy
    ensures DelayMultiplier(healthy, floor) <= DelayMultiplier(sick, floor)
  {
    RoundMonotone(MaxReal(TierMultiplier(healthy), floor) * 100.0, MaxReal(TierMultiplier(sick), floor) * 100.0);
  }

  lemma RoundMonotone(x: real, y: real)
    requires x <= y
    ensures Round(x) <= Round(y)
  {
    if x.Floor < y.Floor {
      assert Round(x) <= x.Floor + 1 <= y.Floor;
    }
  }

  /** Main result on results, code by code: what a result does to its group and to the account totals. */
  lemma {:induction false} ResultTakesEffect(w: World, group: string, result: Code, floor: real, other: string)
    ensures var v := Next(w, RecordResult(group, result), floor);
            var e, f := EntryOf(w.intel.groups, group), EntryOf(v.intel.groups, group);
            var a, b := w.intel.account, v.intel.account;
            var good := result in {Sent, JoinedSent, Okay};
            var bad := !good && result !in {Skipped, JoinLimited, PreJoined};
            && f.success == e.success + (if good then 1 else 0) && f.failure == e.failure + (if bad then 1 else 0)
            && f.retries == (if good then 0 else if bad then e.retries + 1 else e.retries)
            && f.score == f.success - f.failure
            && f.lastProcessed == Some(w.now) && f.lastResult == Some(result)
            && f.riskyUntil == (if f.retries > 3 then Some(w.now + 24 * HOUR) else e.riskyUntil)
            && f.joinAttempts == e.joinAttempts && f.joinSuccesses == e.joinSuccesses
            && f.lastMembership == e.lastMembership
            && b.totalSuccess == a.totalSuccess + (if good then 1 else 0)
            && b.totalFailure == a.totalFailure + (if bad then 1 else 0)
            && b.rateLimits == a.rateLimits + (if result == Flood then 1 else 0)
            && (other != group ==> EntryOf(v.intel.groups, other) == EntryOf(w.intel.groups, other))
  {
  }

  /** What a result does to health, over every run: a success never lowers it, a failure never raises it, and
      a flood costs most. */
  lemma {:induction false} HealthAfterResult(start: int, steps: seq<Step>, floor: real, group: string, result: Code)
    requires 0 < start
    ensures var w := Run(Begin(start), steps, floor);
            var h, k := w.intel.account.health, Next(w, RecordResult(group, result), floor).intel.account.health;
            match result
            case Sent | JoinedSent | Okay => k == (if h + 1.5 > 100.0 then 100.0 else h + 1.5)
            case Skipped | JoinLimited | PreJoined => k == h
            case Flood => k == (if h - 8.0 < 0.0 then 0.0 else h - 8.0)
            case Invalid | Blocked | CantWrite => k == (if h - 2.0 < 0.0 then 0.0 else h - 2.0)
            case _ => k == (if h - 3.0 < 0.0 then 0.0 else h - 3.0)
  {
    RunInvariants(start, steps, floor, group);
    BumpKeepsHalfSteps(Run(Begin(start), steps, floor).intel.account.health, result);
  }

  lemma HealthOrder(health: real, result: Code)
    requires HalfSteps(health)
    ensures result in {Sent, JoinedSent, Okay} ==> Bumped(health, result) >= health
    ensures result !in {Sent, JoinedSent, Okay} ==> Bumped(health, Flood) <= Bumped(health, result) <= health
  {
    BumpKeepsHalfSteps(health, result);
    BumpKeepsHalfSteps(health, Flood);
  }

  /** What a join outcome does, code by code. */
  lemma {:induction false} JoinTakesEffect(w: World, group: string, outcome: Code, floor: real, other: string)
    ensures var v := Next(w, RecordJoin(group, outcome), floor);
            var e, f := EntryOf(w.intel.groups, group), EntryOf(v.intel.groups, group);
            var joined := outcome in {JoinedNew, AlreadyIn, JoinedSent, PreJoined};
            && f == e.(joinAttempts := f.joinAttempts,
                       joinSuccesses := f.joinSuccesses,
                       lastMembership := f.lastMembership)
            && f.joinAttempts == e.joinAttempts + 1 && f.joinSuccesses == e.joinSuccesses + (if joined then 1 else 0)
            && f.lastMembership ==
               (if joined then Member
                else if outcome in {Blocked, Invalid, CantWrite} then NotMember else e.lastMembership)
            && v.intel.account == w.intel.account
            && (other != group ==> EntryOf(v.intel.groups, other) == EntryOf(w.intel.groups, other))
  {
  }

  function FloodResults(): Event -> bool {
    (e: Event) => e.Result? && e.result == Flood
  }

  /** Over every run the rate limits are the floods. */
  lemma {:induction false} RateLimitsAreFloods(start: int, steps: seq<Step>, floor: real)
    ensures var w := Run(Begin(start), steps, floor); w.intel.account.rateLimits == Count(w.events, FloodResults())
  {
    if steps == [] {
    } else {
      RateLimitsAreFloods(start, steps[..|steps| - 1], floor);
      StepCountsFloods(Run(Begin(start), steps[..|steps| - 1], floor), steps[|steps| - 1], floor);
    }
  }

  lemma StepCountsFloods(w: World, step: Step, floor: real)
    requires w.intel.account.rateLimits == Count(w.events, FloodResults())
    ensures var v := Next(w, step, floor); v.intel.account.rateLimits == Count(v.events, FloodResults())
  {
    match step {
      case Wait(_) =>
      case RecordResult(g, result) => FilterSnoc(w.events, Result(g, result, w.now), FloodResults());
      case RecordJoin(g, outcome) => FilterSnoc(w.events, Join(g, outcome), FloodResults());
      case AskRisky(g) => FilterSnoc(w.events, Query(g), FloodResults());
    }
  }

  /** Rounding goes to the nearest integer, and from halfway to the even one. */
  lemma RoundIsNearest(x: real)
    ensures -0.5 <= Round(x) as real - x <= 0.5
    ensures Round(x) as real - x == 0.5 || x - Round(x) as real == 0.5 ==> Round(x) % 2 == 0
  {
  }

  lemma Round2Exact(n: int)
    ensures Round2(n as real / 100.0) == n as real / 100.0
  {
    assert n as real / 100.0 * 100.0 == n as real;
  }

  /** The delay multiplier by health, for a floor of two decimals. */
  lemma {:induction false} DelayIs(health: real, cents: int)
    ensures var floor := cents as real / 100.0;
            var tier :=
              if health >= 70.0 then 1.0 else if health >= 50.0 then 1.12 else if health >= 30.0 then 1.35 else 1.6;
            DelayMultiplier(health, floor) == if tier >= floor then tier else floor
  {
    Round2Exact(cents);
    Round2Exact(100);
    Round2Exact(112);
    Round2Exact(135);
    Round2Exact(160);
  }
}
