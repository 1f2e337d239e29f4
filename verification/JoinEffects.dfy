/** The decision on a join and what each step records, in terms of the steps and joins of a run. */
module JoinEffects {
  import opened Wrappers
  import opened IstTime
  import opened Sequences
  import opened JoinCycle

  /** The joins of the last two hours. */
  function LastTwoHours(now: int): int -> bool {
    (t: int) => now - t < 2 * HOUR
  }

  lemma WindowIs(joins: seq<int>, now: int)
    requires Past(joins, now)
    ensures Filter(joins, InWindow(now)) == Filter(joins, LastTwoHours(now))
  {
    FilterExt(joins, InWindow(now), LastTwoHours(now));
  }

  /** The restriction that the steps leave. */
  function LastRestriction(steps: seq<Step>): Option<int> {
    if steps == [] then None
    else
      match steps[|steps| - 1]
      case Restrict(until) => Some(Iso(until))
      case ClearRestriction => None
      case _ => LastRestriction(steps[..|steps| - 1])
  }

  /** How often the group failed. */
  function FailuresIn(steps: seq<Step>, group: string): nat {
    if steps == [] then 0
    else FailuresIn(steps[..|steps| - 1], group) + if steps[|steps| - 1] == Failure(group) then 1 else 0
  }

  /** The time of the last attempt, failure or join, in whole seconds. */
  function LastAttempt(p: Profile, start: int, steps: seq<Step>): Option<int>
    requires p.Sound()
  {
    if steps == [] then None
    else
      var sys := Run(p, Begin(start), steps[..|steps| - 1]);
      match steps[|steps| - 1]
      case Attempt => Some(Iso(sys.now))
      case Failure(_) => Some(Iso(sys.now))
      case Success => if sys.permit then Some(Iso(sys.now)) else LastAttempt(p, start, steps[..|steps| - 1])
      case _ => LastAttempt(p, start, steps[..|steps| - 1])
  }

  /** Main result on what is recorded. Over every run the stored restriction is the last one set and not
      cleared, the failures of a group are those recorded, and the last attempt is the last one made. */
  lemma {:induction false} StateFollowsSteps(p: Profile, start: int, steps: seq<Step>, group: string)
    requires p.Sound()
    ensures var s := State(Run(p, Begin(start), steps));
            && s.restrictionUntil == LastRestriction(steps)
            && Failures(s, group) == FailuresIn(steps, group)
            && s.lastAttemptAt == LastAttempt(p, start, steps)
  {
    if steps == [] {
    } else {
      var init, last := steps[..|steps| - 1], steps[|steps| - 1];
      StateFollowsSteps(p, start, init, group);
      StepRecords(p, Run(p, Begin(start), init), last, group);
    }
  }

  lemma StepRecords(p: Profile, sys: System, step: Step, group: string)
    requires p.Sound()
    ensures var s, v := State(sys), State(Next(p, sys, step));
            && v.restrictionUntil ==
               (if step.Restrict? then Some(Iso(step.until))
                else if step.ClearRestriction? then None else s.restrictionUntil)
            && Failures(v, group) == Failures(s, group) + (if step == Failure(group) then 1 else 0)
            && v.lastAttemptAt ==
               if step.Attempt? || step.Failure? || (step.Success? && sys.permit) then Some(Iso(sys.now))
               else s.lastAttemptAt
  {
  }

  /** The checks in their order, over the steps and joins of a run. */
  function ReasonOver(p: Profile, sys: System, steps: seq<Step>, group: string): Reason {
    var until := LastRestriction(steps);
    if until.Some? && sys.now < until.value then AccountRestricted
    else if FailuresIn(steps, group) >= 4 then GroupBackoff
    else if Count(sys.joins, OnDay(DayIndex(sys.now))) >= p.dailyLimit then DailyLimit
    else if Count(sys.joins, LastTwoHours(sys.now)) >= p.recentMax then RecentBurst
    else if sys.joins != [] && sys.now - Iso(sys.joins[|sys.joins| - 1]) < 2 * HOUR then MinInterval
    else Clear
  }

  /** A wait in whole seconds that is just longer than a span. */
  predicate JustLonger(wait: int, span: int) {
    (wait - 1) * 1000 <= span < wait * 1000
  }

  /** One of the joins of the last two hours, and none of them is older. */
  ghost predicate IsOldest(joins: seq<int>, now: int, t: int) {
    t in joins && now - t < 2 * HOUR && forall u :: u in joins && now - u < 2 * HOUR ==> t <= u
  }

  /** The wait that goes with a reason. */
  ghost predicate WaitFits(p: Profile, sys: System, steps: seq<Step>, d: Decision) {
    match d.reason
    case AccountRestricted =>
      var until := LastRestriction(steps);
      until.Some? && d.waitSeconds * 1000 <= until.value - sys.now < (d.waitSeconds + 1) * 1000
    case GroupBackoff => d.waitSeconds == 24 * 3600
    case DailyLimit => d.waitSeconds == 3600
    case RecentBurst =>
      exists t :: IsOldest(sys.joins, sys.now, t) && JustLonger(d.waitSeconds, 2 * HOUR - (sys.now - t))
    case MinInterval =>
      && sys.joins != []
      && JustLonger(d.waitSeconds, 2 * HOUR - (sys.now - Iso(sys.joins[|sys.joins| - 1])))
    case Clear => d.waitSeconds == 0
  }

  /** Main result on decisions. In every run the first failing check, counted over the whole run, gives the
      reason, the join is allowed exactly if none fails, and the wait is the one that goes with the reason. */
  lemma {:induction false} DecisionIs(p: Profile, start: int, steps: seq<Step>, group: string, total: int)
    requires p.Sound() && DAY <= start
    ensures var sys := Run(p, Begin(start), steps);
            var d := EvaluateJoin(p, sys.file, group, total, sys.now);
            && d.reason == ReasonOver(p, sys, steps, group)
            && (d.allowed <==> d.reason == Clear)
            && WaitFits(p, sys, steps, d)
  {
    var sys := Run(p, Begin(start), steps);
    BeginInv(p, start);
    RunKeepsInv(p, Begin(start), steps);
    StateFollowsSteps(p, start, steps, group);
    EvaluatedIsFaithful(sys);
    WindowIs(sys.joins, sys.now);
    DecideFollows(p, Evaluated(sys.file, sys.now), sys, steps, group, total);
  }

  /** The decision on a state that is true to the run. */
  lemma DecideFollows(p: Profile, s: JoinState, sys: System, steps: seq<Step>, group: string, total: int)
    requires p.Sound() && Past(sys.joins, sys.now)
    requires s.restrictionUntil == LastRestriction(steps) && Failures(s, group) == FailuresIn(steps, group)
    requires s.dailyNewJoins == Count(sys.joins, OnDay(DayIndex(sys.now)))
    requires s.recent == Filter(sys.joins, LastTwoHours(sys.now)) && s.lastNewJoinAt == LastJoin(sys.joins)
    ensures var d := Decide(p, s, group, total, sys.now);
            && d.reason == ReasonOver(p, sys, steps, group)
            && (d.allowed <==> d.reason == Clear)
            && WaitFits(p, sys, steps, d)
  {
    if sys.joins != [] {
      LastJoinReads(sys.joins, sys.now);
    }
    var d := Decide(p, s, group, total, sys.now);
    if d.reason == RecentBurst {
      OldestOfWindow(sys.joins, sys.now);
    }
  }

  lemma LastJoinReads(joins: seq<int>, now: int)
    requires Past(joins, now) && joins != []
    ensures Iso(joins[|joins| - 1]) > 0 && Iso(joins[|joins| - 1]) <= now
  {
    assert joins[|joins| - 1] in joins;
  }

  lemma OldestOfWindow(joins: seq<int>, now: int)
    requires Filter(joins, LastTwoHours(now)) != []
    ensures IsOldest(joins, now, Oldest(Filter(joins, LastTwoHours(now))))
  {
    FilterMembers(joins, LastTwoHours(now));
    OldestIsMember(Filter(joins, LastTwoHours(now)));
  }
}
