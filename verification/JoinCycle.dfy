/** The join rate limiter of one account: daily limit, burst window, minimum gap, restriction
    and per-group backoff. */
module JoinCycle {
  import opened Wrappers
  import opened IstTime
  import opened Sequences

  const RECENT_WINDOW := 7200 * SECOND
  const MIN_INTERVAL := 7200 * SECOND
  const COOLDOWN := 7200 * SECOND
  const COUNT_THRESHOLD := 100
  const FAILURE_STREAK_CAP := 4
  const FAILURE_BACKOFF_MAX := 86400

  /** The account profile; both limits are positive in every profile. */
  datatype Profile = Profile(dailyLimit: int, recentMax: int) {
    predicate Sound() {
      dailyLimit > 0 && recentMax > 0
    }
  }

  /** Times written as ISO text lose their fraction of a second. */
  function Iso(t: int): (r: int)
    ensures r <= t < r + SECOND
    ensures r % SECOND == 0
  {
    t / SECOND * SECOND
  }

  datatype JoinState = JoinState(
    dailyDate: int,
    dailyNewJoins: int,
    recent: seq<int>,
    lastNewJoinAt: Option<int>,
    lastAttemptAt: Option<int>,
    restrictionUntil: Option<int>,
    groupFailures: map<string, nat>)

  /** A missing file reads as the default state of the day. */
  function Load(file: Option<JoinState>, now: int): JoinState {
    match file
    case Some(state) => state
    case None => JoinState(DayIndex(now), 0, [], None, None, None, map[])
  }

  function InWindow(now: int): int -> bool {
    (t: int) => t != 0 && now - t < RECENT_WINDOW
  }

  function PruneRecent(s: JoinState, now: int): JoinState {
    s.(recent := Filter(s.recent, InWindow(now)))
  }

  function ResetDailyIfNeeded(s: JoinState, now: int): JoinState {
    if s.dailyDate != DayIndex(now) then s.(dailyDate := DayIndex(now), dailyNewJoins := 0) else s
  }

  function Failures(s: JoinState, group: string): nat {
    if group in s.groupFailures then s.groupFailures[group] else 0
  }

  datatype Reason = AccountRestricted | GroupBackoff | DailyLimit | RecentBurst | MinInterval | Clear

  datatype Decision = Decision(allowed: bool, waitSeconds: int, reason: Reason)

  /** Whole seconds, rounded down; only used on nonnegative spans. */
  function WholeSeconds(span: int): int {
    span / SECOND
  }

  function Oldest(times: seq<int>): int
    requires times != []
  {
    if |times| == 1 then times[0]
    else
      var rest := Oldest(times[..|times| - 1]);
      if times[|times| - 1] < rest then times[|times| - 1] else rest
  }

  function MinGap(joinedTotal: int): int {
    if joinedTotal > COUNT_THRESHOLD && COOLDOWN > MIN_INTERVAL then COOLDOWN else MIN_INTERVAL
  }

  /** A recorded time that reads as the epoch counts as absent. */
  function Read(t: Option<int>): Option<int> {
    if t.Some? && t.value != 0 then t else None
  }

  /** The decision on the state already rolled over to today and pruned. */
  function Decide(p: Profile, s: JoinState, group: string, joinedTotal: int, now: int): Decision
    requires p.Sound()
  {
    var until, last := Read(s.restrictionUntil), Read(s.lastNewJoinAt);
    if until.Some? && now < until.value then
      Decision(false, WholeSeconds(until.value - now), AccountRestricted)
    else if Failures(s, group) >= FAILURE_STREAK_CAP then
      Decision(false, FAILURE_BACKOFF_MAX, GroupBackoff)
    else if s.dailyNewJoins >= p.dailyLimit then
      Decision(false, 3600, DailyLimit)
    else if |s.recent| >= p.recentMax then
      var left := WholeSeconds(RECENT_WINDOW - (now - Oldest(s.recent))) + 1;
      Decision(false, if left > 1 then left else 1, RecentBurst)
    else if last.Some? && now - last.value < MinGap(joinedTotal) then
      Decision(false, WholeSeconds(MinGap(joinedTotal) - (now - last.value)) + 1, MinInterval)
    else Decision(true, 0, Clear)
  }

  function Evaluated(file: Option<JoinState>, now: int): JoinState {
    PruneRecent(ResetDailyIfNeeded(Load(file, now), now), now)
  }

  function EvaluateJoin(p: Profile, file: Option<JoinState>, group: string, joinedTotal: int, now: int): Decision
    requires p.Sound()
  {
    Decide(p, Evaluated(file, now), group, joinedTotal, now)
  }

  function Succeeded(file: Option<JoinState>, now: int): JoinState {
    var s := ResetDailyIfNeeded(Load(file, now), now);
    s.(lastNewJoinAt := Some(Iso(now)),
       lastAttemptAt := Some(Iso(now)),
       dailyNewJoins := s.dailyNewJoins + 1,
       recent := Filter(s.recent, InWindow(now)) + [now])
  }

  function Failed(file: Option<JoinState>, group: string, now: int): JoinState {
    var s := Load(file, now);
    s.(groupFailures := s.groupFailures[group := Failures(s, group) + 1], lastAttemptAt := Some(Iso(now)))
  }

  class JoinCycleStore {
    const profile: Profile
    var file: Option<JoinState>

    constructor (profile: Profile)
      ensures this.profile == profile && file == None
    {
      this.profile := profile;
      file := None;
    }

    method EvaluateJoinNow(group: string, joinedTotal: int, now: int) returns (d: Decision)
      requires profile.Sound()
      modifies this
      ensures file == Some(Evaluated(old(file), now))
      ensures d == EvaluateJoin(profile, old(file), group, joinedTotal, now)
    {
      var state := Load(file, now);
      if state.dailyDate != DayIndex(now) {
        state := state.(dailyDate := DayIndex(now), dailyNewJoins := 0);
      }
      var recent := Prune(state.recent, now);
      state := state.(recent := recent);
      file := Some(state);

      var until := Read(state.restrictionUntil);
      if until.Some? && now < until.value {
        return Decision(false, WholeSeconds(until.value - now), AccountRestricted);
      }
      if Failures(state, group) >= FAILURE_STREAK_CAP {
        return Decision(false, FAILURE_BACKOFF_MAX, GroupBackoff);
      }
      if state.dailyNewJoins >= profile.dailyLimit {
        return Decision(false, 3600, DailyLimit);
      }
      if |recent| >= profile.recentMax {
        var left := WholeSeconds(RECENT_WINDOW - (now - Oldest(recent))) + 1;
        return Decision(false, if left > 1 then left else 1, RecentBurst);
      }
      var minGap := MIN_INTERVAL;
      if joinedTotal > COUNT_THRESHOLD {
        minGap := if COOLDOWN > minGap then COOLDOWN else minGap;
      }
      var last := Read(state.lastNewJoinAt);
      if last.Some? && now - last.value < minGap {
        return Decision(false, WholeSeconds(minGap - (now - last.value)) + 1, MinInterval);
      }
      d := Decision(true, 0, Clear);
    }

    method RecordJoinSuccess(now: int)
      modifies this
      ensures file == Some(Succeeded(old(file), now))
    {
      var state := Load(file, now);
      if state.dailyDate != DayIndex(now) {
        state := state.(dailyDate := DayIndex(now), dailyNewJoins := 0);
      }
      state := state.(lastNewJoinAt := Some(Iso(now)), lastAttemptAt := Some(Iso(now)));
      state := state.(dailyNewJoins := state.dailyNewJoins + 1);
      var recent := Prune(state.recent, now);
      file := Some(state.(recent := recent + [now]));
    }

    /** The backoff is drawn from the tier of the new failure count. */
    method RecordJoinFailure(group: string, now: int, draw: nat) returns (backoff: int)
      modifies this
      ensures file == Some(Failed(old(file), group, now))
      ensures Failures(file.value, group) == Failures(Load(old(file), now), group) + 1
      ensures var n := Failures(file.value, group);
              if n <= 1 then 600 <= backoff <= 1800
              else if n == 2 then 1800 <= backoff <= 7200
              else if n == 3 then 7200 <= backoff <= 43200
              else 43200 <= backoff <= 86400
    {
      var state := Load(file, now);
      var n := Failures(state, group) + 1;
      file := Some(state.(groupFailures := state.groupFailures[group := n], lastAttemptAt := Some(Iso(now))));
      var tiers := [(600, 1800), (1800, 7200), (7200, 43200), (43200, 86400)];
      var idx := if n - 1 < |tiers| - 1 then n - 1 else |tiers| - 1;
      var tier := tiers[idx];
      backoff := tier.0 + draw % (tier.1 - tier.0 + 1);
    }

    method RecordJoinAttempt(now: int)
      modifies this
      ensures file == Some(Load(old(file), now).(lastAttemptAt := Some(Iso(now))))
    {
      file := Some(Load(file, now).(lastAttemptAt := Some(Iso(now))));
    }

    method SetJoinRestriction(until: int, now: int)
      modifies this
      ensures file == Some(Load(old(file), now).(restrictionUntil := Some(Iso(until))))
    {
      file := Some(Load(file, now).(restrictionUntil := Some(Iso(until))));
    }

    method ClearJoinRestriction(now: int)
      modifies this
      ensures file == Some(Load(old(file), now).(restrictionUntil := None))
    {
      file := Some(Load(file, now).(restrictionUntil := None));
    }
  }

  method Prune(raw: seq<int>, now: int) returns (out: seq<int>)
    ensures out == Filter(raw, InWindow(now))
  {
    out := [];
    for i := 0 to |raw|
      invariant out == Filter(raw[..i], InWindow(now))
    {
      assert raw[..i + 1] == raw[..i] + [raw[i]];
      FilterSnoc(raw[..i], raw[i], InWindow(now));
      if raw[i] != 0 && now - raw[i] < RECENT_WINDOW {
        out := out + [raw[i]];
      }
    }
    assert raw[..|raw|] == raw;
  }

  /** One account over time. `joins` remembers every recorded join. `permit` holds from an
      evaluation that allows a join until the next recorded join. */
  datatype System = System(now: int, file: Option<JoinState>, joins: seq<int>, permit: bool)

  datatype Step =
    | Advance(elapsed: nat)
    | Evaluate(group: string, joinedTotal: int)
    | Success
    | Failure(group: string)
    | Attempt
    | Restrict(until: int)
    | ClearRestriction

  function Begin(now: int): System {
    System(now, None, [], false)
  }

  /** A success without a permit breaks the protocol and is not a step of the run. */
  function Next(p: Profile, sys: System, step: Step): System
    requires p.Sound()
  {
    match step
    case Advance(elapsed) => sys.(now := sys.now + elapsed)
    case Evaluate(group, total) =>
      sys.(file := Some(Evaluated(sys.file, sys.now)),
           permit := sys.permit || EvaluateJoin(p, sys.file, group, total, sys.now).allowed)
    case Success =>
      if !sys.permit then sys
      else sys.(file := Some(Succeeded(sys.file, sys.now)), joins := sys.joins + [sys.now], permit := false)
    case Failure(group) => sys.(file := Some(Failed(sys.file, group, sys.now)))
    case Attempt => sys.(file := Some(Load(sys.file, sys.now).(lastAttemptAt := Some(Iso(sys.now)))))
    case Restrict(until) => sys.(file := Some(Load(sys.file, sys.now).(restrictionUntil := Some(Iso(until)))))
    case ClearRestriction => sys.(file := Some(Load(sys.file, sys.now).(restrictionUntil := None)))
  }

  function Run(p: Profile, sys: System, steps: seq<Step>): System
    requires p.Sound()
  {
    if steps == [] then sys else Next(p, Run(p, sys, steps[..|steps| - 1]), steps[|steps| - 1])
  }

  function OnDay(day: int): int -> bool {
    (t: int) => DayIndex(t) == day
  }

  /** The joins of a window of the burst length that begins at `from`. */
  function Between(from: int): int -> bool {
    (t: int) => from <= t < from + 2 * HOUR
  }

  function State(sys: System): JoinState {
    Load(sys.file, sys.now)
  }

  ghost predicate Past(joins: seq<int>, now: int) {
    now >= DAY && forall t :: t in joins ==> DAY <= t <= now
  }

  /** The stored recent joins show a reader of the window exactly the joins of the history. */
  ghost predicate RecentFaithful(recent: seq<int>, joins: seq<int>, now: int) {
    Filter(recent, InWindow(now)) == Filter(joins, InWindow(now))
  }

  /** The stored counter is the number of joins on the stored day, and no join is on a later one. */
  ghost predicate DayFaithful(date: int, count: int, joins: seq<int>, today: int) {
    && date <= today
    && count == Count(joins, OnDay(date))
    && forall t :: t in joins ==> DayIndex(t) <= date
  }

  function LastJoin(joins: seq<int>): Option<int> {
    if joins == [] then None else Some(Iso(joins[|joins| - 1]))
  }

  ghost predicate Faithful(sys: System) {
    var s := State(sys);
    && Past(sys.joins, sys.now)
    && RecentFaithful(s.recent, sys.joins, sys.now)
    && DayFaithful(s.dailyDate, s.dailyNewJoins, sys.joins, DayIndex(sys.now))
    && s.lastNewJoinAt == LastJoin(sys.joins)
  }

  /** What a permit still guarantees at any later time before the join. */
  ghost predicate PermitHolds(p: Profile, sys: System) {
    sys.permit ==>
      && Count(sys.joins, InWindow(sys.now)) < p.recentMax
      && Count(sys.joins, OnDay(DayIndex(sys.now))) < p.dailyLimit
      && (sys.joins != [] ==> sys.now - Iso(sys.joins[|sys.joins| - 1]) >= MIN_INTERVAL)
  }

  ghost predicate WithinLimits(p: Profile, joins: seq<int>) {
    && (forall from :: Count(joins, Between(from)) <= p.recentMax)
    && (forall day :: Count(joins, OnDay(day)) <= p.dailyLimit)
    && (forall i :: 0 < i < |joins| ==> joins[i] - Iso(joins[i - 1]) >= MIN_INTERVAL)
  }

  ghost predicate Inv(p: Profile, sys: System) {
    p.Sound() && Faithful(sys) && PermitHolds(p, sys) && WithinLimits(p, sys.joins)
  }

  lemma RecentFaithfulLater(recent: seq<int>, joins: seq<int>, now: int, later: int)
    requires RecentFaithful(recent, joins, now) && now <= later
    ensures RecentFaithful(recent, joins, later)
  {
    FilterOfFilter(recent, InWindow(now), InWindow(later));
    FilterOfFilter(joins, InWindow(now), InWindow(later));
  }

  lemma AdvanceKeepsFaithful(sys: System, now: int)
    requires Faithful(sys) && sys.now <= now
    ensures Faithful(sys.(now := now))
  {
    DayStartSplitsDates(sys.now, now);
    RecentFaithfulLater(State(sys).recent, sys.joins, sys.now, now);
  }

  lemma AdvanceKeepsPermit(p: Profile, sys: System, now: int)
    requires p.Sound() && Faithful(sys) && PermitHolds(p, sys) && sys.now <= now
    ensures PermitHolds(p, sys.(now := now))
  {
    CountMonotone(sys.joins, InWindow(now), InWindow(sys.now));
    DayStartSplitsDates(sys.now, now);
    if DayIndex(sys.now) != DayIndex(now) {
      CountNone(sys.joins, OnDay(DayIndex(now)));
    }
  }

  /** Rolling over to today keeps the counter true: no join can be on a day yet to come. */
  lemma RolledOverIsFaithful(s: JoinState, joins: seq<int>, now: int)
    requires DayFaithful(s.dailyDate, s.dailyNewJoins, joins, DayIndex(now))
    ensures DayFaithful(DayIndex(now), ResetDailyIfNeeded(s, now).dailyNewJoins, joins, DayIndex(now))
  {
    if s.dailyDate != DayIndex(now) {
      CountNone(joins, OnDay(DayIndex(now)));
    }
  }

  /** The state an evaluation decides on shows exactly today's joins and the joins in the window. */
  lemma EvaluatedIsFaithful(sys: System)
    requires Faithful(sys)
    ensures var s := Evaluated(sys.file, sys.now);
            && Faithful(sys.(file := Some(s)))
            && s.recent == Filter(sys.joins, InWindow(sys.now))
            && s.dailyNewJoins == Count(sys.joins, OnDay(DayIndex(sys.now)))
            && s.restrictionUntil == State(sys).restrictionUntil
            && s.groupFailures == State(sys).groupFailures
  {
    RolledOverIsFaithful(State(sys), sys.joins, sys.now);
    FilterOfFilter(State(sys).recent, InWindow(sys.now), InWindow(sys.now));
  }

  /** The decision in terms of the whole history: every join counts, however old the state. */
  lemma AllowedIff(p: Profile, sys: System, group: string, total: int)
    requires p.Sound() && Faithful(sys)
    ensures var until := Read(State(sys).restrictionUntil);
            EvaluateJoin(p, sys.file, group, total, sys.now).allowed <==>
            && (until.Some? ==> until.value <= sys.now)
            && Failures(State(sys), group) < FAILURE_STREAK_CAP
            && Count(sys.joins, OnDay(DayIndex(sys.now))) < p.dailyLimit
            && Count(sys.joins, InWindow(sys.now)) < p.recentMax
            && (sys.joins != [] ==> sys.now - Iso(sys.joins[|sys.joins| - 1]) >= MinGap(total))
  {
    EvaluatedIsFaithful(sys);
    var s := Evaluated(sys.file, sys.now);
    if sys.joins != [] {
      assert sys.joins[|sys.joins| - 1] in sys.joins;
      assert Read(s.lastNewJoinAt) == s.lastNewJoinAt;
    }
    DecideAllowsIff(p, s, group, total, sys.now);
  }

  lemma DecideAllowsIff(p: Profile, s: JoinState, group: string, total: int, now: int)
    requires p.Sound()
    ensures Decide(p, s, group, total, now).allowed <==>
            && (Read(s.restrictionUntil).Some? ==> s.restrictionUntil.value <= now)
            && Failures(s, group) < FAILURE_STREAK_CAP
            && s.dailyNewJoins < p.dailyLimit
            && |s.recent| < p.recentMax
            && (Read(s.lastNewJoinAt).Some? ==> now - s.lastNewJoinAt.value >= MinGap(total))
  {
  }

  lemma {:induction false} EvaluateKeepsInv(p: Profile, sys: System, group: string, total: int)
    requires Inv(p, sys)
    ensures Inv(p, Next(p, sys, Evaluate(group, total)))
  {
    EvaluatedIsFaithful(sys);
    AllowedIff(p, sys, group, total);
  }

  lemma AppendKeepsDay(count: int, joins: seq<int>, now: int)
    requires DayFaithful(DayIndex(now), count, joins, DayIndex(now))
    ensures DayFaithful(DayIndex(now), count + 1, joins + [now], DayIndex(now))
  {
    FilterSnoc(joins, now, OnDay(DayIndex(now)));
  }

  lemma AppendKeepsRecent(recent: seq<int>, joins: seq<int>, now: int)
    requires RecentFaithful(recent, joins, now) && now != 0
    ensures RecentFaithful(Filter(recent, InWindow(now)) + [now], joins + [now], now)
  {
    FilterOfFilter(recent, InWindow(now), InWindow(now));
    FilterSnoc(Filter(recent, InWindow(now)), now, InWindow(now));
    FilterSnoc(joins, now, InWindow(now));
  }

  lemma SucceededFields(s: JoinState, now: int)
    ensures var v := Succeeded(Some(s), now);
            && v.dailyDate == DayIndex(now)
            && v.dailyNewJoins == ResetDailyIfNeeded(s, now).dailyNewJoins + 1
            && v.recent == Filter(s.recent, InWindow(now)) + [now]
            && v.lastNewJoinAt == Some(Iso(now))
  {
  }

  lemma AppendKeepsPast(joins: seq<int>, now: int)
    requires Past(joins, now)
    ensures Past(joins + [now], now) && LastJoin(joins + [now]) == Some(Iso(now))
  {
  }

  lemma SuccessIsFaithful(s: JoinState, joins: seq<int>, now: int)
    requires Past(joins, now) && RecentFaithful(s.recent, joins, now)
    requires DayFaithful(s.dailyDate, s.dailyNewJoins, joins, DayIndex(now))
    ensures var v := Succeeded(Some(s), now);
            && Past(joins + [now], now)
            && RecentFaithful(v.recent, joins + [now], now)
            && DayFaithful(v.dailyDate, v.dailyNewJoins, joins + [now], DayIndex(now))
            && v.lastNewJoinAt == LastJoin(joins + [now])
  {
    SucceededFields(s, now);
    RolledOverIsFaithful(s, joins, now);
    AppendKeepsDay(ResetDailyIfNeeded(s, now).dailyNewJoins, joins, now);
    AppendKeepsRecent(s.recent, joins, now);
    AppendKeepsPast(joins, now);
  }

  lemma SuccessFitsWindow(recentMax: int, joins: seq<int>, now: int, from: int)
    requires Count(joins, InWindow(now)) < recentMax && Count(joins, Between(from)) <= recentMax
    requires forall t :: t in joins ==> 0 < t <= now
    ensures Count(joins + [now], Between(from)) <= recentMax
  {
    FilterSnoc(joins, now, Between(from));
    if Between(from)(now) {
      CountMonotone(joins, Between(from), InWindow(now));
    }
  }

  lemma SuccessFitsDay(dailyLimit: int, joins: seq<int>, now: int, day: int)
    requires Count(joins, OnDay(DayIndex(now))) < dailyLimit && Count(joins, OnDay(day)) <= dailyLimit
    ensures Count(joins + [now], OnDay(day)) <= dailyLimit
  {
    FilterSnoc(joins, now, OnDay(day));
  }

  lemma SuccessStaysWithinLimits(p: Profile, joins: seq<int>, now: int)
    requires WithinLimits(p, joins) && Past(joins, now)
    requires Count(joins, InWindow(now)) < p.recentMax && Count(joins, OnDay(DayIndex(now))) < p.dailyLimit
    requires joins != [] ==> now - Iso(joins[|joins| - 1]) >= MIN_INTERVAL
    ensures WithinLimits(p, joins + [now])
  {
    forall from
      ensures Count(joins + [now], Between(from)) <= p.recentMax
    {
      SuccessFitsWindow(p.recentMax, joins, now, from);
    }
    forall day
      ensures Count(joins + [now], OnDay(day)) <= p.dailyLimit
    {
      SuccessFitsDay(p.dailyLimit, joins, now, day);
    }
  }

  /** Attempts, failures and restrictions leave the counters alone. */
  lemma OtherStepsKeepInv(p: Profile, sys: System, step: Step)
    requires Inv(p, sys) && !step.Advance? && !step.Evaluate? && !step.Success?
    ensures Inv(p, Next(p, sys, step))
  {
    var v := Next(p, sys, step);
    assert State(v).dailyDate == State(sys).dailyDate && State(v).dailyNewJoins == State(sys).dailyNewJoins;
    assert State(v).recent == State(sys).recent && State(v).lastNewJoinAt == State(sys).lastNewJoinAt;
  }

  lemma SuccessKeepsInv(p: Profile, sys: System)
    requires Inv(p, sys)
    ensures Inv(p, Next(p, sys, Success))
  {
    if sys.permit {
      SuccessIsFaithful(State(sys), sys.joins, sys.now);
      assert Succeeded(sys.file, sys.now) == Succeeded(Some(State(sys)), sys.now);
      SuccessStaysWithinLimits(p, sys.joins, sys.now);
    }
  }

  lemma StepKeepsInv(p: Profile, sys: System, step: Step)
    requires Inv(p, sys)
    ensures Inv(p, Next(p, sys, step))
  {
    match step {
      case Advance(elapsed) => AdvanceKeepsInv(p, sys, sys.now + elapsed);
      case Evaluate(group, total) => EvaluateKeepsInv(p, sys, group, total);
      case Success => SuccessKeepsInv(p, sys);
      case _ => OtherStepsKeepInv(p, sys, step);
    }
  }

  lemma {:induction false} RunKeepsInv(p: Profile, sys: System, steps: seq<Step>)
    requires Inv(p, sys)
    ensures Inv(p, Run(p, sys, steps))
  {
    if steps == [] {
    } else {
      RunKeepsInv(p, sys, steps[..|steps| - 1]);
      StepKeepsInv(p, Run(p, sys, steps[..|steps| - 1]), steps[|steps| - 1]);
    }
  }

  /** Main result. In every run that records a join only under a permit, every window of the
      burst length holds at most the burst maximum, every IST day at most the daily limit (also
      when midnight falls between evaluation and join), successive joins are more than the
      minimum interval less a second apart, and the daily counter is the true one. */
  lemma LimitsHoldOverRuns(p: Profile, start: int, steps: seq<Step>, from: int, day: int)
    requires p.Sound() && DAY <= start
    ensures var sys := Run(p, Begin(start), steps);
            && Count(sys.joins, Between(from)) <= p.recentMax
            && Count(sys.joins, OnDay(day)) <= p.dailyLimit
            && (forall i :: 0 < i < |sys.joins| ==> sys.joins[i] - sys.joins[i - 1] > 2 * HOUR - 1000)
            && (forall i :: 0 < i < |sys.joins| ==>
                sys.joins[i] - sys.joins[i - 1] >= 2 * HOUR - sys.joins[i - 1] % 1000)
            && State(sys).dailyNewJoins == Count(sys.joins, OnDay(State(sys).dailyDate))
            && Evaluated(sys.file, sys.now).recent == Filter(sys.joins, InWindow(sys.now))
  {
    BeginInv(p, start);
    RunKeepsInv(p, Begin(start), steps);
    EvaluatedIsFaithful(Run(p, Begin(start), steps));
  }

  /** Neither restricted nor backing off from any group. */
  ghost predicate Free(sys: System) {
    State(sys).restrictionUntil == None && State(sys).groupFailures == map[]
  }

  /** An allowed evaluation followed at once by the join. */
  function EvaluateAndJoin(p: Profile, sys: System, group: string): System
    requires p.Sound()
  {
    Next(p, Next(p, sys, Evaluate(group, 0)), Success)
  }

  ghost predicate Ready(p: Profile, sys: System) {
    && Free(sys)
    && Count(sys.joins, OnDay(DayIndex(sys.now))) < p.dailyLimit && Count(sys.joins, InWindow(sys.now)) < p.recentMax
    && (sys.joins != [] ==> sys.now - Iso(sys.joins[|sys.joins| - 1]) >= MIN_INTERVAL)
  }

  lemma ReadyIsAllowed(p: Profile, sys: System, group: string)
    requires p.Sound() && Faithful(sys) && Ready(p, sys)
    ensures EvaluateJoin(p, sys.file, group, 0, sys.now).allowed
  {
    AllowedIff(p, sys, group, 0);
  }

  lemma EvaluateThenJoin(p: Profile, sys: System, group: string)
    requires Inv(p, sys) && Ready(p, sys)
    ensures var v := EvaluateAndJoin(p, sys, group);
            Inv(p, v) && Free(v) && v.now == sys.now && v.joins == sys.joins + [sys.now]
  {
    ReadyIsAllowed(p, sys, group);
    EvaluateKeepsInv(p, sys, group, 0);
    SuccessKeepsInv(p, Next(p, sys, Evaluate(group, 0)));
  }

  lemma BeginInv(p: Profile, start: int)
    requires p.Sound() && DAY <= start
    ensures Inv(p, Begin(start))
  {
  }

  lemma {:induction false} FirstJoin(p: Profile, start: int) returns (steps: seq<Step>)
    requires p.Sound() && DAY <= start
    ensures var v := Run(p, Begin(start), steps);
            Inv(p, v) && Free(v) && v.now == start && v.joins == [start]
  {
    BeginInv(p, start);
    EvaluateThenJoin(p, Begin(start), "g");
    RunSnoc(p, Begin(start), [], Evaluate("g", 0));
    RunSnoc(p, Begin(start), [] + [Evaluate("g", 0)], Success);
    steps := [] + [Evaluate("g", 0)] + [Success];
  }

  lemma AdvanceKeepsInv(p: Profile, sys: System, later: int)
    requires Inv(p, sys) && sys.now <= later
    ensures Inv(p, sys.(now := later))
    ensures Free(sys) ==> Free(sys.(now := later))
  {
    AdvanceKeepsFaithful(sys, later);
    AdvanceKeepsPermit(p, sys, later);
  }

  lemma CountOne(t: int, keep: int -> bool)
    ensures Count([t], keep) == if keep(t) then 1 else 0
  {
    FilterSnoc([], t, keep);
    assert [] + [t] == [t];
  }

  /** The checks before the minimum interval, over the whole history. */
  ghost predicate OtherChecksPass(p: Profile, sys: System, group: string) {
    && (Read(State(sys).restrictionUntil).Some? ==> State(sys).restrictionUntil.value <= sys.now)
    && Failures(State(sys), group) < FAILURE_STREAK_CAP
    && Count(sys.joins, OnDay(DayIndex(sys.now))) < p.dailyLimit
    && Count(sys.joins, InWindow(sys.now)) < p.recentMax
  }

  /** A join is allowed before the minimum interval is over exactly when the other checks pass and no
      more of the interval is missing than the fraction of a second lost from the last join. */
  lemma {:induction false} EarlyJoinIff(p: Profile, sys: System, group: string, total: int)
    requires p.Sound() && Faithful(sys) && sys.joins != []
    ensures var last := sys.joins[|sys.joins| - 1];
            EvaluateJoin(p, sys.file, group, total, sys.now).allowed && sys.now - last < MIN_INTERVAL <==>
            OtherChecksPass(p, sys, group) && MIN_INTERVAL - last % SECOND <= sys.now - last < MIN_INTERVAL
  {
    AllowedIff(p, sys, group, total);
  }

  /** After a join on a whole second every allowed join keeps the interval; after any other join the
      first one allowed comes early, if the other checks pass then. */
  lemma {:induction false} IntervalKeptAfterWholeSecond(p: Profile, sys: System, group: string, total: int)
    requires p.Sound() && Faithful(sys) && sys.joins != []
    ensures var last := sys.joins[|sys.joins| - 1];
            && (last % SECOND == 0 && EvaluateJoin(p, sys.file, group, total, sys.now).allowed ==>
                sys.now - last >= MIN_INTERVAL)
            && (last % SECOND != 0 && OtherChecksPass(p, sys, group) && sys.now == Iso(last) + MIN_INTERVAL ==>
                  EvaluateJoin(p, sys.file, group, total, sys.now).allowed && sys.now - last < MIN_INTERVAL)
  {
    EarlyJoinIff(p, sys, group, total);
  }

  /** The time of the early join after one at `start`. */
  function EarlyTime(start: int): int {
    Iso(start) + MIN_INTERVAL
  }

  lemma SecondJoinIsReady(p: Profile, sys: System, start: int)
    requires Free(sys) && sys.joins == [start] && sys.now == EarlyTime(start) && p.recentMax >= 2
    requires p.dailyLimit >= 2 || (p.dailyLimit >= 1 && DayIndex(start) != DayIndex(sys.now))
    ensures Ready(p, sys)
  {
    CountOne(start, OnDay(DayIndex(sys.now)));
    CountOne(start, InWindow(sys.now));
  }

  lemma RunThreeMore(p: Profile, sys: System, steps: seq<Step>, a: Step, b: Step, c: Step)
    requires p.Sound()
    ensures Run(p, sys, steps + [a] + [b] + [c]) == Next(p, Next(p, Next(p, Run(p, sys, steps), a), b), c)
  {
    RunSnoc(p, sys, steps, a);
    RunSnoc(p, sys, steps + [a], b);
    RunSnoc(p, sys, steps + [a] + [b], c);
  }

  lemma EarlySecondJoin(p: Profile, sys: System, start: int)
    requires Inv(p, sys) && Free(sys) && sys.joins == [start] && sys.now == start && p.recentMax >= 2
    requires p.dailyLimit >= 2 || DayIndex(start) != DayIndex(EarlyTime(start))
    ensures Next(p, Next(p, Next(p, sys, Advance(EarlyTime(start) - start)), Evaluate("g", 0)), Success).joins ==
            [start] + [EarlyTime(start)]
  {
    var later := sys.(now := EarlyTime(start));
    assert Next(p, sys, Advance(EarlyTime(start) - start)) == later;
    AdvanceKeepsInv(p, sys, EarlyTime(start));
    SecondJoinIsReady(p, later, start);
    EvaluateThenJoin(p, later, "g");
  }

  /** A run of two joins less than the interval apart, from any start within a second, if two joins
      fit into a window and, unless midnight falls between them, into a day. */
  lemma {:induction false} GapMayFallShortOfInterval(p: Profile, start: int) returns (steps: seq<Step>)
    requires p.Sound() && DAY <= start && start % SECOND != 0 && p.recentMax >= 2
    requires p.dailyLimit >= 2 || DayIndex(start) != DayIndex(EarlyTime(start))
    ensures Run(p, Begin(start), steps).joins == [start] + [EarlyTime(start)]
    ensures EarlyTime(start) - start == MIN_INTERVAL - start % SECOND < MIN_INTERVAL
  {
    var first := FirstJoin(p, start);
    var advance := Advance(EarlyTime(start) - start);
    EarlySecondJoin(p, Run(p, Begin(start), first), start);
    RunThreeMore(p, Begin(start), first, advance, Evaluate("g", 0), Success);
    steps := first + [advance] + [Evaluate("g", 0)] + [Success];
  }

  ghost predicate KeepsInterval(joins: seq<int>) {
    forall i :: 0 < i < |joins| ==> joins[i] - joins[i - 1] >= 2 * HOUR
  }

  lemma TwoInWindow(joins: seq<int>, i: int, keep: int -> bool)
    requires 0 < i < |joins| && keep(joins[i - 1]) && keep(joins[i])
    ensures Count(joins, keep) >= 2
  {
    assert joins == joins[..i - 1] + ([joins[i - 1]] + [joins[i]]) + joins[i + 1..];
    FilterSnoc([joins[i - 1]], joins[i], keep);
    CountOne(joins[i - 1], keep);
    FilterConcat(joins[..i - 1], [joins[i - 1]] + [joins[i]], keep);
    FilterConcat(joins[..i - 1] + ([joins[i - 1]] + [joins[i]]), joins[i + 1..], keep);
  }

  lemma OneAWindowKeepsInterval(p: Profile, joins: seq<int>)
    requires WithinLimits(p, joins) && p.recentMax == 1
    ensures KeepsInterval(joins)
  {
    forall i | 0 < i < |joins|
      ensures joins[i] - joins[i - 1] >= MIN_INTERVAL
    {
      if joins[i] - joins[i - 1] < MIN_INTERVAL {
        assert joins[i] - Iso(joins[i - 1]) >= MIN_INTERVAL;
        TwoInWindow(joins, i, Between(joins[i - 1]));
      }
    }
  }

  /** The last millisecond of an IST day. */
  const LATE := 2 * DAY - IST_OFFSET - 1 + DAY

  /** Main result on the interval. A profile keeps the full minimum interval over every run exactly when
      it admits a single join to a window. */
  lemma {:induction false} IntervalKeptIff(p: Profile)
    requires p.Sound()
    ensures (forall start, steps :: DAY <= start ==> KeepsInterval(Run(p, Begin(start), steps).joins)) <==>
            p.recentMax == 1
  {
    if p.recentMax == 1 {
      forall start, steps | DAY <= start
        ensures KeepsInterval(Run(p, Begin(start), steps).joins)
      {
        BeginInv(p, start);
        RunKeepsInv(p, Begin(start), steps);
        OneAWindowKeepsInterval(p, Run(p, Begin(start), steps).joins);
      }
    } else {
      assert DayIndex(LATE) != DayIndex(EarlyTime(LATE));
      var steps := GapMayFallShortOfInterval(p, LATE);
      var joins := Run(p, Begin(LATE), steps).joins;
      assert joins[1] - joins[0] < MIN_INTERVAL;
      assert !KeepsInterval(joins);
    }
  }

  lemma RunSnoc(p: Profile, sys: System, steps: seq<Step>, step: Step)
    requires p.Sound()
    ensures Run(p, sys, steps + [step]) == Next(p, Run(p, sys, steps), step)
  {
    assert (steps + [step])[..|steps|] == steps;
  }

  lemma {:induction false} OldestIsMember(times: seq<int>)
    requires times != []
    ensures Oldest(times) in times && forall t :: t in times ==> Oldest(times) <= t
  {
    var init, last := times[..|times| - 1], times[|times| - 1];
    assert times == init + [last];
    if init == [] {
    } else {
      OldestIsMember(init);
      assert Oldest(times) == if last < Oldest(init) then last else Oldest(init);
      forall t | t in times
        ensures Oldest(times) <= t
      {
        assert t in init || t == last;
      }
    }
  }

  /** The reported wait suffices: after it, with no further join, the same reason is gone. */
  lemma WaitSuffices(p: Profile, start: int, steps: seq<Step>, group: string, total: int, later: int)
    requires p.Sound() && DAY <= start
    requires var sys := Run(p, Begin(start), steps);
             var d := EvaluateJoin(p, sys.file, group, total, sys.now);
             (d.reason.RecentBurst? || d.reason.MinInterval?) && sys.now + d.waitSeconds * SECOND <= later
    ensures var sys := Run(p, Begin(start), steps);
            var d := EvaluateJoin(p, sys.file, group, total, sys.now);
            EvaluateJoin(p, Some(Evaluated(sys.file, sys.now)), group, total, later).reason != d.reason
  {
    var sys := Run(p, Begin(start), steps);
    BeginInv(p, start);
    RunKeepsInv(p, Begin(start), steps);
    EvaluatedIsFaithful(sys);
    FilterExt(sys.joins, InWindow(sys.now), Between(sys.now - RECENT_WINDOW + 1));
    var s := Evaluated(sys.file, sys.now);
    if Decide(p, s, group, total, sys.now).reason.RecentBurst? {
      BurstWaitSuffices(p, s, group, total, sys.now, later);
    } else {
      IntervalWaitSuffices(p, s, group, total, sys.now, later);
    }
  }

  lemma BurstWaitSuffices(p: Profile, s: JoinState, group: string, total: int, now: int, later: int)
    requires p.Sound() && |s.recent| <= p.recentMax
    requires var d := Decide(p, s, group, total, now); d.reason.RecentBurst? && now + d.waitSeconds * SECOND <= later
    ensures !EvaluateJoin(p, Some(s), group, total, later).reason.RecentBurst?
  {
    var oldest := Oldest(s.recent);
    OldestIsMember(s.recent);
    assert Decide(p, s, group, total, now).waitSeconds >= WholeSeconds(RECENT_WINDOW - (now - oldest)) + 1;
    assert later - oldest >= RECENT_WINDOW;
    FilterDrops(s.recent, InWindow(later), oldest);
    assert Evaluated(Some(s), later).recent == Filter(s.recent, InWindow(later));
  }

  lemma IntervalWaitSuffices(p: Profile, s: JoinState, group: string, total: int, now: int, later: int)
    requires p.Sound()
    requires var d := Decide(p, s, group, total, now); d.reason.MinInterval? && now + d.waitSeconds * SECOND <= later
    ensures !EvaluateJoin(p, Some(s), group, total, later).reason.MinInterval?
  {
    assert Evaluated(Some(s), later).lastNewJoinAt == s.lastNewJoinAt;
    var last := s.lastNewJoinAt.value;
    assert Decide(p, s, group, total, now).waitSeconds == WholeSeconds(MinGap(total) - (now - last)) + 1;
    assert later - last >= MinGap(total);
  }

  lemma FilterDrops(s: seq<int>, keep: int -> bool, x: int)
    requires x in s && !keep(x)
    ensures |Filter(s, keep)| < |s|
  {
    if |Filter(s, keep)| == |s| {
      FilterFull(s, keep);
    }
  }

  /** The wait reported for a restriction is rounded down: at its end the account is still
      restricted exactly when the restriction does not end on a whole second from now. */
  lemma RestrictionWaitFallsShortIff(p: Profile, file: Option<JoinState>, group: string, total: int, now: int)
    requires p.Sound() && EvaluateJoin(p, file, group, total, now).reason.AccountRestricted?
    ensures var d := EvaluateJoin(p, file, group, total, now);
            EvaluateJoin(p, Some(Evaluated(file, now)), group, total, now +
                d.waitSeconds * SECOND).reason.AccountRestricted? <==>
            (Load(file, now).restrictionUntil.value - now) % SECOND != 0
  {
    var until := Load(file, now).restrictionUntil.value;
    assert Evaluated(file, now).restrictionUntil == Some(until);
  }

  lemma FailuresAreKept(p: Profile, sys: System, step: Step, group: string)
    requires p.Sound()
    ensures Failures(State(Next(p, sys, step)), group) >= Failures(State(sys), group)
  {
  }

  lemma BackoffRefuses(p: Profile, file: Option<JoinState>, group: string, total: int, now: int)
    requires p.Sound() && Failures(Load(file, now), group) >= FAILURE_STREAK_CAP
    ensures !EvaluateJoin(p, file, group, total, now).allowed
  {
  }

  /** Failures are never forgotten, so a group that reached the cap is never allowed again. */
  lemma {:induction false} BackoffIsForever(p: Profile, sys: System, steps: seq<Step>, group: string, total: int)
    requires p.Sound() && Failures(State(sys), group) >= FAILURE_STREAK_CAP
    ensures var later := Run(p, sys, steps);
            && Failures(State(later), group) >= FAILURE_STREAK_CAP
            && !EvaluateJoin(p, later.file, group, total, later.now).allowed
  {
    if steps == [] {
    } else {
      BackoffIsForever(p, sys, steps[..|steps| - 1], group, total);
      FailuresAreKept(p, Run(p, sys, steps[..|steps| - 1]), steps[|steps| - 1], group);
    }
    var later := Run(p, sys, steps);
    BackoffRefuses(p, later.file, group, total, later.now);
  }
}
