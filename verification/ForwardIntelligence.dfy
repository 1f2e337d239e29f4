/** Flood history of a forwarding account and the tick profile recommended from it. */
module ForwardIntelligence {
  import opened IstTime
  import opened Sequences

  const FLOOD_LIGHT := 60
  const FLOOD_MEDIUM := 300
  const FLOOD_HEAVY := 3600
  const FLOOD_CRITICAL := 86400
  const HEALTH_EXCELLENT := 90.0
  const HEALTH_POOR := 40.0
  const HISTORY_WINDOW := 6 * HOUR
  const MAX_HISTORY := 100

  datatype Severity = Light | Medium | Heavy | Critical

  datatype Flood = Flood(t: int, seconds: int, group: string) {
    function Severity(): Severity {
      if seconds < FLOOD_LIGHT then Light
      else if seconds < FLOOD_MEDIUM then Medium
      else if seconds < FLOOD_HEAVY then Heavy
      else Critical
    }
  }

  datatype Profile = Aggressive | Normal | Cautious | Conservative | Cooldown {
    /** How cautious a profile is; a higher rank means longer intervals. */
    function Rank(): nat {
      match this
      case Aggressive => 0
      case Normal => 1
      case Cautious => 2
      case Conservative => 3
      case Cooldown => 4
    }

    /** The tick interval range in seconds. */
    function Interval(): (int, int) {
      match this
      case Aggressive => (480, 900)
      case Normal => (600, 1800)
      case Cautious => (1200, 2700)
      case Conservative => (2400, 5400)
      case Cooldown => (7200, 10800)
    }
  }

  datatype Intel = Intel(floods: seq<Flood>, cooldownUntil: int)

  function After(cutoff: int): Flood -> bool {
    (e: Flood) => e.t > cutoff
  }

  function HeavyAfter(cutoff: int): Flood -> bool {
    (e: Flood) => e.t > cutoff && (e.Severity().Heavy? || e.Severity().Critical?)
  }

  function LastOf<T>(s: seq<T>, n: nat): seq<T> {
    if |s| <= n then s else s[|s| - n..]
  }

  /** One and a half times the flood time, in milliseconds. */
  function CooldownEnd(seconds: int, now: int): int {
    now + seconds * 1500
  }

  function AddFlood(intel: Intel, seconds: int, group: string, now: int): Intel {
    Intel(LastOf(Filter(intel.floods + [Flood(now, seconds, group)], After(now - HISTORY_WINDOW)), MAX_HISTORY),
          if seconds >= FLOOD_CRITICAL then CooldownEnd(seconds, now) else intel.cooldownUntil)
  }

  function RecentFloods(intel: Intel, hours: int, now: int): nat {
    Count(intel.floods, After(now - hours * HOUR))
  }

  function RecentHeavyFloods(intel: Intel, hours: int, now: int): nat {
    Count(intel.floods, HeavyAfter(now - hours * HOUR))
  }

  /** The profile by whether a cooldown runs, the health, the heavy floods of six hours and the floods
      of one hour. */
  function ProfileFor(coolingDown: bool, health: real, heavy: nat, floods: nat): Profile {
    if coolingDown then Cooldown
    else if health < HEALTH_POOR then Conservative
    else if heavy >= 2 then Cooldown
    else if floods >= 3 then Conservative
    else if floods >= 2 then Cautious
    else if floods >= 1 then Normal
    else if health >= HEALTH_EXCELLENT then Aggressive
    else Normal
  }

  function Recommend(intel: Intel, health: real, now: int): Profile {
    ProfileFor(now < intel.cooldownUntil, health, RecentHeavyFloods(intel, 6, now), RecentFloods(intel, 1, now))
  }

  class FloodTracker {
    var floodHistory: seq<Flood>
    var cooldownUntil: int

    function View(): Intel
      reads this
    {
      Intel(floodHistory, cooldownUntil)
    }

    constructor ()
      ensures View() == Intel([], 0)
    {
      floodHistory, cooldownUntil := [], 0;
    }

    method AddFloodEvent(seconds: int, group: string, now: int)
      modifies this
      ensures View() == AddFlood(old(View()), seconds, group, now)
    {
      var all := floodHistory + [Flood(now, seconds, group)];
      var recent: seq<Flood> := [];
      for i := 0 to |all|
        invariant recent == Filter(all[..i], After(now - HISTORY_WINDOW))
        invariant cooldownUntil == old(cooldownUntil)
      {
        assert all[..i + 1] == all[..i] + [all[i]];
        FilterSnoc(all[..i], all[i], After(now - HISTORY_WINDOW));
        if all[i].t > now - HISTORY_WINDOW {
          recent := recent + [all[i]];
        }
      }
      assert all[..|all|] == all;
      floodHistory := LastOf(recent, MAX_HISTORY);
      if seconds >= FLOOD_CRITICAL {
        cooldownUntil := CooldownEnd(seconds, now);
      }
    }
  }

  /** Caution and interval agree: a more cautious profile waits longer at both ends. */
  lemma RanksOrderIntervals(a: Profile, b: Profile)
    ensures a.Rank() <= b.Rank() <==> a.Interval().0 <= b.Interval().0
    ensures a.Rank() <= b.Rank() <==> a.Interval().1 <= b.Interval().1
  {
  }

  /** What the recommendation depends on, and in which direction. */
  lemma RecommendIsMonotone(a: Intel, s: int, b: Intel, t: int, health: real)
    requires s < a.cooldownUntil ==> t < b.cooldownUntil
    requires RecentFloods(a, 1, s) <= RecentFloods(b, 1, t)
    requires RecentHeavyFloods(a, 6, s) <= RecentHeavyFloods(b, 6, t)
    ensures Recommend(a, health, s).Rank() <= Recommend(b, health, t).Rank()
  {
  }

  /** Waiting, with nothing recorded, never makes the recommendation more cautious. */
  lemma TimeNeverTightens(intel: Intel, health: real, now: int, later: int)
    requires now <= later
    ensures Recommend(intel, health, later).Rank() <= Recommend(intel, health, now).Rank()
  {
    CountMonotone(intel.floods, After(later - HOUR), After(now - HOUR));
    CountMonotone(intel.floods, HeavyAfter(later - 6 * HOUR), HeavyAfter(now - 6 * HOUR));
    RecommendIsMonotone(intel, later, intel, now, health);
  }

  /** While the window holds fewer than 100 floods, recording one trims nothing a reader of the
      last six hours sees. */
  lemma NothingTrimmed(intel: Intel, seconds: int, group: string, now: int, cutoff: int)
    requires Count(intel.floods, After(now - HISTORY_WINDOW)) < MAX_HISTORY
    requires now - HISTORY_WINDOW <= cutoff
    ensures var e := Flood(now, seconds, group);
            var after := AddFlood(intel, seconds, group, now);
            && Count(after.floods, After(cutoff)) ==
                Count(intel.floods, After(cutoff)) + (if After(cutoff)(e) then 1 else 0)
            && Count(after.floods, HeavyAfter(cutoff)) ==
                Count(intel.floods, HeavyAfter(cutoff)) + (if HeavyAfter(cutoff)(e) then 1 else 0)
  {
    var e, window := Flood(now, seconds, group), After(now - HISTORY_WINDOW);
    FilterSnoc(intel.floods, e, window);
    FilterOfFilter(intel.floods + [e], window, After(cutoff));
    FilterOfFilter(intel.floods + [e], window, HeavyAfter(cutoff));
    FilterSnoc(intel.floods, e, After(cutoff));
    FilterSnoc(intel.floods, e, HeavyAfter(cutoff));
  }

  /** Recording a flood never makes the present recommendation less cautious. */
  lemma FloodNeverRelaxes(intel: Intel, seconds: int, group: string, health: real, now: int)
    requires Count(intel.floods, After(now - HISTORY_WINDOW)) < MAX_HISTORY
    ensures Recommend(intel, health, now).Rank() <= Recommend(AddFlood(intel, seconds, group, now), health, now).Rank()
  {
    NothingTrimmed(intel, seconds, group, now, now - HOUR);
    NothingTrimmed(intel, seconds, group, now, now - 6 * HOUR);
    RecommendIsMonotone(intel, now, AddFlood(intel, seconds, group, now), now, health);
  }

  lemma CountCons(x: Flood, s: seq<Flood>, keep: Flood -> bool)
    ensures Count([x] + s, keep) == (if keep(x) then 1 else 0) + Count(s, keep)
  {
    FilterConcat([x], s, keep);
    FilterSnoc([], x, keep);
    assert [] + [x] == [x];
  }

  ghost predicate Ascending(s: seq<Flood>) {
    s == [] || (Ascending(s[..|s| - 1]) && AllBy(s[..|s| - 1], s[|s| - 1].t))
  }

  ghost predicate AllBy(s: seq<Flood>, cutoff: int) {
    forall e :: e in s ==> e.t <= cutoff
  }

  predicate IsHeavy(e: Flood) {
    e.Severity().Heavy? || e.Severity().Critical?
  }

  lemma {:induction false} FirstIsOldest(floods: seq<Flood>)
    requires Ascending(floods) && floods != []
    ensures AllFrom(floods, floods[0].t)
  {
    var init, last := floods[..|floods| - 1], floods[|floods| - 1];
    if init == [] {
      assert floods == [last];
    } else {
      FirstIsOldest(init);
      assert init[0] in init && init[0] == floods[0];
      forall e | e in floods
        ensures floods[0].t <= e.t
      {
        assert e in init || e == last;
      }
    }
  }

  ghost predicate AllFrom(s: seq<Flood>, cutoff: int) {
    forall e :: e in s ==> cutoff <= e.t
  }

  /** Into a full history, all of it in the window, a flood goes in at the end and the first goes out. */
  lemma PushOut(intel: Intel, seconds: int, group: string, now: int)
    requires |intel.floods| == Count(intel.floods, After(now - HISTORY_WINDOW)) == MAX_HISTORY
    ensures AddFlood(intel, seconds, group, now).floods == intel.floods[1..] + [Flood(now, seconds, group)]
  {
    FilterFull(intel.floods, After(now - HISTORY_WINDOW));
    FilterSnoc(intel.floods, Flood(now, seconds, group), After(now - HISTORY_WINDOW));
    assert (intel.floods + [Flood(now, seconds, group)])[1..] == intel.floods[1..] + [Flood(now, seconds, group)];
  }

  /** How a count changes when the first flood goes out and another comes in. */
  lemma CountSwap(floods: seq<Flood>, e: Flood, keep: Flood -> bool)
    requires floods != []
    ensures Count(floods[1..] + [e], keep) + (if keep(floods[0]) then 1 else 0) ==
        Count(floods, keep) + if keep(e) then 1 else 0
  {
    assert floods == [floods[0]] + floods[1..];
    CountCons(floods[0], floods[1..], keep);
    FilterSnoc(floods[1..], e, keep);
  }

  /** What recording into a full history does to the two counts a later recommendation reads. */
  lemma FullSwap(intel: Intel, seconds: int, group: string, now: int, later: int)
    requires |intel.floods| == Count(intel.floods, After(now - HISTORY_WINDOW)) == MAX_HISTORY
    requires intel.floods[0].t <= now
    ensures var e, after := Flood(now, seconds, group), AddFlood(intel, seconds, group, now);
            && RecentFloods(intel, 1, later) <= RecentFloods(after, 1, later)
            && RecentHeavyFloods(after, 6, later) + (if HeavyAfter(later - 6 * HOUR)(intel.floods[0]) then 1 else 0) ==
               RecentHeavyFloods(intel, 6, later) + (if HeavyAfter(later - 6 * HOUR)(e) then 1 else 0)
  {
    PushOut(intel, seconds, group, now);
    CountSwap(intel.floods, Flood(now, seconds, group), After(later - HOUR));
    CountSwap(intel.floods, Flood(now, seconds, group), HeavyAfter(later - 6 * HOUR));
  }

  /** The recommendation for the given health at a later time is less cautious for the flood. */
  predicate RelaxedAt(intel: Intel, seconds: int, group: string, now: int, health: real, later: int) {
    Recommend(AddFlood(intel, seconds, group, now), health, later).Rank() < Recommend(intel, health, later).Rank()
  }

  /** With no fewer floods and no cooldown lost, a profile becomes less cautious only by a drop of the
      heavy floods from two to one. */
  lemma ProfileDropsIff(cool: bool, cool': bool, health: real, heavy: nat, heavy': nat, floods: nat, floods': nat)
    requires (cool ==> cool') && floods <= floods' && heavy <= heavy' + 1
    ensures ProfileFor(cool', health, heavy', floods').Rank() < ProfileFor(cool, health, heavy, floods).Rank() <==>
            !cool' && health >= HEALTH_POOR && heavy == 2 && heavy' == 1
  {
  }

  lemma FullRelaxesIff(intel: Intel, seconds: int, group: string, now: int, health: real, later: int)
    requires |intel.floods| == Count(intel.floods, After(now - HISTORY_WINDOW)) == MAX_HISTORY
    requires intel.floods[0].t <= now <= later && !ShortensCooldown(intel, seconds, now)
    ensures RelaxedAt(intel, seconds, group, now, health, later) <==>
            && AddFlood(intel, seconds, group, now).cooldownUntil <= later && health >= HEALTH_POOR
            && RecentHeavyFloods(intel, 6, later) == 2
            && HeavyAfter(later - 6 * HOUR)(intel.floods[0]) &&
                !HeavyAfter(later - 6 * HOUR)(Flood(now, seconds, group))
  {
    var after := AddFlood(intel, seconds, group, now);
    FullSwap(intel, seconds, group, now, later);
    ProfileDropsIff(later < intel.cooldownUntil, later < after.cooldownUntil, health,
                    RecentHeavyFloods(intel, 6, later), RecentHeavyFloods(after, 6, later),
                    RecentFloods(intel, 1, later), RecentFloods(after, 1, later));
  }

  /** The history is full and all in the window, exactly two of its floods are heavy, the oldest one of
      them goes out, a flood `e` that is not heavy comes in, and no cooldown or poor health decides. */
  predicate DropsToOneHeavy(intel: Intel, e: Flood, health: real) {
    && intel.cooldownUntil <= e.t && health >= HEALTH_POOR
    && |intel.floods| > 0 && Count(intel.floods, After(e.t - HISTORY_WINDOW)) == MAX_HISTORY
    && RecentHeavyFloods(intel, 6, e.t) == 2
    && IsHeavy(intel.floods[0]) && !IsHeavy(e)
  }

  /** Recording a flood makes the present recommendation less cautious in that case only. */
  lemma {:induction false} FloodRelaxesIff(intel: Intel, seconds: int, group: string, health: real, now: int)
    requires |intel.floods| <= MAX_HISTORY && AllBy(intel.floods, now)
    ensures RelaxedAt(intel, seconds, group, now, health, now) <==>
            DropsToOneHeavy(intel, Flood(now, seconds, group), health)
  {
    if Count(intel.floods, After(now - HISTORY_WINDOW)) < MAX_HISTORY {
      FloodNeverRelaxes(intel, seconds, group, health, now);
    } else {
      FullIsInWindow(intel.floods, now);
      if seconds >= FLOOD_CRITICAL {
        assert Recommend(AddFlood(intel, seconds, group, now), health, now).Cooldown?;
      } else {
        FullRelaxesIff(intel, seconds, group, now, health, now);
      }
    }
  }

  lemma FullIsInWindow(floods: seq<Flood>, now: int)
    requires |floods| <= MAX_HISTORY == Count(floods, After(now - HISTORY_WINDOW)) && AllBy(floods, now)
    ensures |floods| == MAX_HISTORY && now - HISTORY_WINDOW < floods[0].t <= now
  {
    FilterFull(floods, After(now - HISTORY_WINDOW));
    FilterMembers(floods, After(now - HISTORY_WINDOW));
    assert floods[0] in floods;
  }

  /** The flood is critical and its own cooldown ends before the one already running. */
  predicate ShortensCooldown(intel: Intel, seconds: int, now: int) {
    seconds >= FLOOD_CRITICAL && CooldownEnd(seconds, now) < intel.cooldownUntil
  }

  /** The flood is not heavy and takes the place of one of the only two heavy ones of a full history,
      which is still in the window when the running cooldown is over. */
  predicate PushesHeavyOut(intel: Intel, e: Flood) {
    && |intel.floods| == MAX_HISTORY
    && IsHeavy(intel.floods[0]) && !IsHeavy(e)
    && Count(intel.floods, IsHeavy) == 2
    && intel.floods[0].t > e.t - HISTORY_WINDOW && intel.floods[0].t > intel.cooldownUntil - HISTORY_WINDOW
  }

  /** From the present on and for every health, recording the flood is never less cautious. */
  ghost predicate NeverRelaxes(intel: Intel, seconds: int, group: string, now: int) {
    forall health, later :: now <= later ==> !RelaxedAt(intel, seconds, group, now, health, later)
  }

  /** Looked at from the present and every later time, for every health, recording a flood is never
      less cautious than not recording it, exactly unless it shortens a cooldown or pushes a heavy
      flood out. */
  lemma {:induction false} FloodRelaxesLaterIff(intel: Intel, seconds: int, group: string, now: int)
    requires |intel.floods| <= MAX_HISTORY && Ascending(intel.floods) && AllBy(intel.floods, now)
    ensures NeverRelaxes(intel, seconds, group, now) <==>
            !ShortensCooldown(intel, seconds, now) && !PushesHeavyOut(intel, Flood(now, seconds, group))
  {
    if ShortensCooldown(intel, seconds, now) {
      ShorteningRelaxes(intel, seconds, group, now);
    } else if PushesHeavyOut(intel, Flood(now, seconds, group)) {
      PushingRelaxes(intel, seconds, group, now);
    } else {
      NeverRelaxesOtherwise(intel, seconds, group, now);
    }
  }

  lemma ShorteningRelaxes(intel: Intel, seconds: int, group: string, now: int)
    requires AllBy(intel.floods, now) && ShortensCooldown(intel, seconds, now)
    ensures !NeverRelaxes(intel, seconds, group, now)
  {
    ShorterCooldownRelaxes(intel, seconds, group, now);
    OnceRelaxed(intel, seconds, group, now, CooldownEnd(seconds, now));
  }

  lemma PushingRelaxes(intel: Intel, seconds: int, group: string, now: int)
    requires Ascending(intel.floods) && AllBy(intel.floods, now) && PushesHeavyOut(intel, Flood(now, seconds, group))
    ensures !NeverRelaxes(intel, seconds, group, now)
  {
    var later := if intel.cooldownUntil > now then intel.cooldownUntil else now;
    assert intel.floods[0] in intel.floods;
    PushedOutRelaxes(intel, seconds, group, now, later);
    OnceRelaxed(intel, seconds, group, now, later);
  }

  lemma OnceRelaxed(intel: Intel, seconds: int, group: string, now: int, later: int)
    requires now <= later && RelaxedAt(intel, seconds, group, now, 100.0, later)
    ensures !NeverRelaxes(intel, seconds, group, now)
  {
  }

  lemma NeverRelaxesOtherwise(intel: Intel, seconds: int, group: string, now: int)
    requires |intel.floods| <= MAX_HISTORY && Ascending(intel.floods) && AllBy(intel.floods, now)
    requires !ShortensCooldown(intel, seconds, now) && !PushesHeavyOut(intel, Flood(now, seconds, group))
    ensures NeverRelaxes(intel, seconds, group, now)
  {
    forall health, later | now <= later
      ensures !RelaxedAt(intel, seconds, group, now, health, later)
    {
      OtherwiseNeverRelaxes(intel, seconds, group, now, health, later);
    }
  }

  /** While the oldest flood is in the window, all are, and the heavy ones of the window are all heavy ones. */
  lemma AllInWindow(floods: seq<Flood>, cutoff: int)
    requires Ascending(floods) && floods != [] && floods[0].t > cutoff
    ensures Count(floods, After(cutoff)) == |floods|
    ensures Count(floods, HeavyAfter(cutoff)) == Count(floods, IsHeavy)
  {
    FirstIsOldest(floods);
    FilterAll(floods, After(cutoff));
    FilterExt(floods, HeavyAfter(cutoff), IsHeavy);
  }

  lemma PushedOutRelaxes(intel: Intel, seconds: int, group: string, now: int, later: int)
    requires Ascending(intel.floods) && PushesHeavyOut(intel, Flood(now, seconds, group)) && intel.floods[0].t <= now
    requires later == if intel.cooldownUntil > now then intel.cooldownUntil else now
    ensures RelaxedAt(intel, seconds, group, now, 100.0, later)
  {
    AllInWindow(intel.floods, now - HISTORY_WINDOW);
    AllInWindow(intel.floods, later - HISTORY_WINDOW);
    FullRelaxesIff(intel, seconds, group, now, 100.0, later);
  }

  lemma OtherwiseNeverRelaxes(intel: Intel, seconds: int, group: string, now: int, health: real, later: int)
    requires |intel.floods| <= MAX_HISTORY && Ascending(intel.floods) && AllBy(intel.floods, now) && now <= later
    requires !ShortensCooldown(intel, seconds, now) && !PushesHeavyOut(intel, Flood(now, seconds, group))
    ensures !RelaxedAt(intel, seconds, group, now, health, later)
  {
    if Count(intel.floods, After(now - HISTORY_WINDOW)) < MAX_HISTORY {
      FloodNeverRelaxesLater(intel, seconds, group, health, now, later);
    } else {
      FullIsInWindow(intel.floods, now);
      FullRelaxesIff(intel, seconds, group, now, health, later);
      if intel.floods[0].t > later - HISTORY_WINDOW {
        AllInWindow(intel.floods, later - HISTORY_WINDOW);
      }
    }
  }

  lemma ShorterCooldownRelaxes(intel: Intel, seconds: int, group: string, now: int)
    requires forall e :: e in intel.floods ==> e.t <= now
    requires seconds >= FLOOD_CRITICAL && CooldownEnd(seconds, now) < intel.cooldownUntil
    ensures var later := CooldownEnd(seconds, now);
            now <= later && Recommend(intel, 100.0, later).Cooldown? &&
                !Recommend(AddFlood(intel, seconds, group, now), 100.0, later).Cooldown?
  {
    var after, later := AddFlood(intel, seconds, group, now), CooldownEnd(seconds, now);
    FilterMembers(intel.floods + [Flood(now, seconds, group)], After(now - HISTORY_WINDOW));
    forall e | e in after.floods
      ensures e.t <= now
    {
      assert e in intel.floods + [Flood(now, seconds, group)];
    }
    CountNone(after.floods, HeavyAfter(later - 6 * HOUR));
  }

  lemma FloodNeverRelaxesLater(intel: Intel, seconds: int, group: string, health: real, now: int, later: int)
    requires Count(intel.floods, After(now - HISTORY_WINDOW)) < MAX_HISTORY && now <= later
    requires !(seconds >= FLOOD_CRITICAL && CooldownEnd(seconds, now) < intel.cooldownUntil)
    ensures Recommend(intel, health, later).Rank() <=
            Recommend(AddFlood(intel, seconds, group, now), health, later).Rank()
  {
    NothingTrimmed(intel, seconds, group, now, later - HOUR);
    NothingTrimmed(intel, seconds, group, now, later - 6 * HOUR);
    RecommendIsMonotone(intel, later, AddFlood(intel, seconds, group, now), later, health);
  }

  /** A full history, all of it recent, whose first two floods are heavy and all others light: a light
      flood ends the cooldown profile. */
  lemma FullHistoryMayRelax(intel: Intel, health: real, now: int)
    requires |intel.floods| == MAX_HISTORY && intel.cooldownUntil <= now && health >= HEALTH_POOR
    requires forall e :: e in intel.floods ==> now - HOUR < e.t <= now
    requires intel.floods[0].Severity().Heavy? && intel.floods[1].Severity().Heavy?
    requires forall i :: 2 <= i < MAX_HISTORY ==> intel.floods[i].Severity().Light?
    ensures Recommend(intel, health, now).Cooldown?
    ensures Recommend(AddFlood(intel, 1, "", now), health, now).Conservative?
  {
    AllRecentTwoHeavy(intel.floods, now);
    FullSwap(intel, 1, "", now, now);
    StillAllRecent(intel, now);
  }

  lemma AllRecentTwoHeavy(floods: seq<Flood>, now: int)
    requires |floods| >= 2 && floods[0].Severity().Heavy? && floods[1].Severity().Heavy?
    requires forall e :: e in floods ==> now - HOUR < e.t <= now
    requires forall i :: 2 <= i < |floods| ==> floods[i].Severity().Light?
    ensures Count(floods, After(now - HISTORY_WINDOW)) == |floods| && floods[0].t <= now
    ensures Count(floods, HeavyAfter(now - 6 * HOUR)) == 2
    ensures HeavyAfter(now - 6 * HOUR)(floods[0])
  {
    assert floods[0] in floods && floods[1] in floods;
    FilterAll(floods, After(now - HISTORY_WINDOW));
    TwoHeavy(floods, now);
  }

  lemma StillAllRecent(intel: Intel, now: int)
    requires |intel.floods| == Count(intel.floods, After(now - HISTORY_WINDOW)) == MAX_HISTORY
    requires forall e :: e in intel.floods ==> now - HOUR < e.t <= now
    ensures RecentFloods(AddFlood(intel, 1, "", now), 1, now) == MAX_HISTORY
  {
    PushOut(intel, 1, "", now);
    FilterAll(intel.floods[1..] + [Flood(now, 1, "")], After(now - HOUR));
  }

  lemma TwoHeavy(floods: seq<Flood>, now: int)
    requires |floods| >= 2 && IsHeavy(floods[0]) && IsHeavy(floods[1])
    requires floods[0].t > now - 6 * HOUR && floods[1].t > now - 6 * HOUR
    requires forall i :: 2 <= i < |floods| ==> !IsHeavy(floods[i])
    ensures Count(floods, HeavyAfter(now - 6 * HOUR)) == 2
  {
    var heavy, rest := HeavyAfter(now - 6 * HOUR), floods[2..];
    assert floods == [floods[0]] + ([floods[1]] + rest);
    CountCons(floods[0], [floods[1]] + rest, heavy);
    CountCons(floods[1], rest, heavy);
    CountNone(rest, heavy);
  }

  /** The tracker over time, with every flood ever recorded. */
  datatype World = World(now: int, intel: Intel, history: seq<Flood>)

  datatype Step = Wait(elapsed: nat) | Record(seconds: int, group: string)

  function Begin(now: int): World {
    World(now, Intel([], 0), [])
  }

  function Next(w: World, step: Step): World {
    match step
    case Wait(elapsed) => w.(now := w.now + elapsed)
    case Record(seconds, group) =>
      w.(intel := AddFlood(w.intel, seconds, group, w.now), history := w.history + [Flood(w.now, seconds, group)])
  }

  function Run(w: World, steps: seq<Step>): World {
    if steps == [] then w else Next(Run(w, steps[..|steps| - 1]), steps[|steps| - 1])
  }

  /** All but the last `n` elements, and the last `n` elements. */
  function Head(s: seq<Flood>, n: nat): seq<Flood>
    requires n <= |s|
  {
    s[..|s| - n]
  }

  function Tail(s: seq<Flood>, n: nat): seq<Flood>
    requires n <= |s|
  {
    s[|s| - n..]
  }

  /** The kept floods are the most recent ones: whatever is missing is too old, or lies behind
      100 kept ones. */
  ghost predicate Inv(w: World) {
    && Ascending(w.history)
    && AllBy(w.history, w.now)
    && |w.intel.floods| <= |w.history| && |w.intel.floods| <= MAX_HISTORY
    && w.intel.floods == Tail(w.history, |w.intel.floods|)
    && (|w.intel.floods| == MAX_HISTORY || AllBy(Head(w.history, |w.intel.floods|), w.now - HISTORY_WINDOW))
  }

  /** In time order, the floods after a cutoff are a tail of the list. */
  lemma {:induction false} FilterIsTail(s: seq<Flood>, cutoff: int)
    requires Ascending(s)
    ensures Filter(s, After(cutoff)) == Tail(s, Count(s, After(cutoff)))
    ensures AllBy(Head(s, Count(s, After(cutoff))), cutoff)
  {
    if s == [] {
    } else {
      var init, last := s[..|s| - 1], s[|s| - 1];
      if last.t > cutoff {
        FilterIsTail(init, cutoff);
        var n := Count(init, After(cutoff));
        assert Tail(s, n + 1) == Tail(init, n) + [last];
        assert Head(s, n + 1) == Head(init, n);
      } else {
        assert s == init + [last];
        CountNone(s, After(cutoff));
      }
    }
  }

  lemma {:induction false} TailAscends(s: seq<Flood>, n: nat)
    requires Ascending(s) && n <= |s|
    ensures Ascending(Tail(s, n))
  {
    if n == 0 {
    } else {
      var init := s[..|s| - 1];
      TailAscends(init, n - 1);
      assert Tail(s, n)[..n - 1] == Tail(init, n - 1);
    }
  }

  lemma TailOfTail(s: seq<Flood>, m: nat, n: nat)
    requires n <= m <= |s|
    ensures Tail(Tail(s, m), n) == Tail(s, n)
    ensures Head(s, n) == Head(s, m) + Head(Tail(s, m), n)
  {
  }

  /** Everything before a flood of a list in time order is no later than it. */
  lemma {:induction false} EarlierIsOlder(s: seq<Flood>, n: nat)
    requires Ascending(s) && 0 < n <= |s|
    ensures AllBy(Head(s, n), s[|s| - n].t)
  {
    if n <= 1 {
    } else {
      EarlierIsOlder(s[..|s| - 1], n - 1);
      assert Head(s[..|s| - 1], n - 1) == Head(s, n);
    }
  }

  /** The trimmed history is a tail of the untrimmed one. */
  lemma KeptIsTail(intel: Intel, seconds: int, group: string, now: int)
    requires Ascending(intel.floods + [Flood(now, seconds, group)])
    ensures var floods := intel.floods + [Flood(now, seconds, group)];
            var n, kept := Count(floods, After(now - HISTORY_WINDOW)), AddFlood(intel, seconds, group, now).floods;
            && |kept| == (if n <= MAX_HISTORY then n else MAX_HISTORY)
            && kept == Tail(floods, |kept|)
            && AllBy(Head(floods, n), now - HISTORY_WINDOW)
  {
    FilterIsTail(intel.floods + [Flood(now, seconds, group)], now - HISTORY_WINDOW);
  }

  lemma AscendingSnoc(s: seq<Flood>, e: Flood)
    requires Ascending(s) && AllBy(s, e.t)
    ensures Ascending(s + [e]) && AllBy(s + [e], e.t)
  {
    var longer := s + [e];
    assert longer[..|longer| - 1] == s;
  }

  lemma TailSnoc<T>(s: seq<T>, n: nat, e: T)
    requires n <= |s|
    ensures (s + [e])[|s| - n..] == s[|s| - n..] + [e]
    ensures (s + [e])[..|s| - n] == s[..|s| - n]
  {
  }

  lemma RecordKeepsInv(w: World, seconds: int, group: string)
    requires Inv(w)
    ensures Inv(Next(w, Record(seconds, group)))
  {
    var e, size := Flood(w.now, seconds, group), |w.intel.floods|;
    AscendingSnoc(w.history, e);
    TailSnoc(w.history, size, e);
    KeptKeepsInv(w.intel, seconds, group, w.now, w.history + [e], size + 1);
  }

  /** The trimmed history is the tail of the whole history that the invariant asks for. */
  lemma {:induction false} KeptKeepsInv(intel: Intel, seconds: int, group: string, now: int, history: seq<Flood>,
      size: nat)
    requires Ascending(history) && 0 < size <= |history| && size <= MAX_HISTORY + 1
    requires intel.floods + [Flood(now, seconds, group)] == Tail(history, size)
    requires size == MAX_HISTORY + 1 || AllBy(Head(history, size), now - HISTORY_WINDOW)
    ensures var kept := AddFlood(intel, seconds, group, now).floods;
            && |kept| <= |history| && |kept| <= MAX_HISTORY && kept == Tail(history, |kept|)
            && (|kept| == MAX_HISTORY || AllBy(Head(history, |kept|), now - HISTORY_WINDOW))
  {
    TailAscends(history, size);
    KeptIsTail(intel, seconds, group, now);
    var kept := AddFlood(intel, seconds, group, now).floods;
    TailOfTail(history, size, |kept|);
    if |kept| < MAX_HISTORY {
      DroppedAreOld(history, size, |kept|, now - HISTORY_WINDOW);
    }
  }

  /** What a recording drops is old: it was too old before, or fell out of the window now. */
  lemma {:induction false} DroppedAreOld(history: seq<Flood>, size: nat, n: nat, cutoff: int)
    requires Ascending(history) && n <= size <= |history| && n < MAX_HISTORY && size > 0
    requires size == MAX_HISTORY + 1 || AllBy(Head(history, size), cutoff)
    requires AllBy(Head(Tail(history, size), n), cutoff)
    ensures AllBy(Head(history, n), cutoff)
  {
    TailOfTail(history, size, n);
    if size == MAX_HISTORY + 1 {
      EarlierIsOlder(history, size);
      assert Tail(history, size)[0] in Head(Tail(history, size), n);
    }
  }

  lemma StepKeepsInv(w: World, step: Step)
    requires Inv(w)
    ensures Inv(Next(w, step))
  {
    match step {
      case Wait(elapsed) => WaitKeepsInv(w, elapsed);
      case Record(seconds, group) => RecordKeepsInv(w, seconds, group);
    }
  }

  lemma WaitKeepsInv(w: World, elapsed: nat)
    requires Inv(w)
    ensures Inv(w.(now := w.now + elapsed))
  {
  }

  lemma BeginInv(start: int)
    ensures Inv(Begin(start))
  {
  }

  lemma {:induction false} RunKeepsInv(start: int, steps: seq<Step>)
    ensures Inv(Run(Begin(start), steps))
  {
    if steps == [] {
      BeginInv(start);
    } else {
      RunKeepsInv(start, steps[..|steps| - 1]);
      StepKeepsInv(Run(Begin(start), steps[..|steps| - 1]), steps[|steps| - 1]);
    }
  }

  lemma OldHeadIsNotCounted(s: seq<Flood>, size: nat, cutoff: int)
    requires size <= |s| && AllBy(Head(s, size), cutoff)
    ensures Count(s, After(cutoff)) == Count(Tail(s, size), After(cutoff)) <= size
  {
    assert s == Head(s, size) + Tail(s, size);
    FilterConcat(Head(s, size), Tail(s, size), After(cutoff));
    CountNone(Head(s, size), After(cutoff));
  }

  lemma LongerTailOlderHead(s: seq<Flood>, n: nat, size: nat, cutoff: int)
    requires n <= size <= |s| && AllBy(Head(s, n), cutoff)
    ensures AllBy(Head(s, size), cutoff)
  {
    assert Head(s, size) == Head(s, n)[..|s| - size];
  }

  lemma RecentTailIsCounted(s: seq<Flood>, n: nat, size: nat, cutoff: int)
    requires size <= n <= |s| && Tail(s, n) == Filter(s, After(cutoff))
    ensures Count(Tail(s, size), After(cutoff)) == size
  {
    FilterMembers(s, After(cutoff));
    assert Tail(s, size) == Tail(s, n)[n - size..];
    FilterAll(Tail(s, size), After(cutoff));
  }

  /** A tail of a list in time order sees all of the recent floods, up to its own length. */
  lemma {:induction false} TailCounts(s: seq<Flood>, size: nat, cutoff: int)
    requires Ascending(s) && size <= |s|
    ensures Count(Tail(s, size), After(cutoff)) ==
        if Count(s, After(cutoff)) < size then Count(s, After(cutoff)) else size
  {
    var n := Count(s, After(cutoff));
    FilterIsTail(s, cutoff);
    if n >= size {
      RecentTailIsCounted(s, n, size, cutoff);
    } else {
      LongerTailOlderHead(s, n, size, cutoff);
      OldHeadIsNotCounted(s, size, cutoff);
    }
  }

  /** The floods counted are the smaller of 100 and all floods ever recorded in the time. */
  ghost predicate CountsUpTo100(w: World, hours: int) {
    var all := Count(w.history, Within(w.now, hours));
    RecentFloods(w.intel, hours, w.now) == if all < 100 then all else 100
  }

  /** A flood of the last hours. */
  function Within(now: int, hours: int): Flood -> bool {
    (e: Flood) => now - e.t < hours * 3600 * 1000
  }

  /** One of at least five minutes. */
  function LongWithin(now: int, hours: int): Flood -> bool {
    (e: Flood) => now - e.t < hours * 3600 * 1000 && e.seconds >= 300
  }

  lemma WithinIs(s: seq<Flood>, now: int, hours: int)
    ensures Count(s, After(now - hours * HOUR)) == Count(s, Within(now, hours))
    ensures Count(s, HeavyAfter(now - hours * HOUR)) == Count(s, LongWithin(now, hours))
  {
    FilterExt(s, After(now - hours * HOUR), Within(now, hours));
    FilterExt(s, HeavyAfter(now - hours * HOUR), LongWithin(now, hours));
  }

  /** Main result. At any time of any run, the floods counted over the last one to six hours are
      the smaller of 100 and all floods ever recorded in that time. */
  lemma {:induction false} CountsAreTrueUpTo100(start: int, steps: seq<Step>, hours: int)
    requires 1 <= hours <= 6
    ensures CountsUpTo100(Run(Begin(start), steps), hours)
  {
    RunKeepsInv(start, steps);
    InvCountsHours(Run(Begin(start), steps), hours);
  }

  lemma InvCountsHours(w: World, hours: int)
    requires Inv(w) && 1 <= hours <= 6
    ensures CountsUpTo100(w, hours)
  {
    InvCounts(w, w.now - hours * HOUR);
    WithinIs(w.history, w.now, hours);
  }

  lemma InvCounts(w: World, cutoff: int)
    requires Inv(w) && w.now - HISTORY_WINDOW <= cutoff
    ensures var all := Count(w.history, After(cutoff));
            Count(w.intel.floods, After(cutoff)) == if all < MAX_HISTORY then all else MAX_HISTORY
  {
    var size := |w.intel.floods|;
    TailCounts(w.history, size, cutoff);
    if size < MAX_HISTORY {
      OldHeadIsNotCounted(w.history, size, cutoff);
    }
  }

  lemma {:induction false} TailAscendsInOrder(w: World)
    requires Inv(w)
    ensures Ascending(w.intel.floods) && AllBy(w.intel.floods, w.now)
  {
    TailAscends(w.history, |w.intel.floods|);
  }

  /** Main result on recording. At any time of any run, the two conditions above say exactly when a
      flood makes the present recommendation, or any later one, less cautious. */
  lemma {:induction false} FloodRelaxesIffOverRuns(start: int, steps: seq<Step>, seconds: int, group: string,
      health: real)
    ensures var w := Run(Begin(start), steps);
            RelaxedAt(w.intel, seconds, group, w.now, health, w.now) <==>
            DropsToOneHeavy(w.intel, Flood(w.now, seconds, group), health)
    ensures var w := Run(Begin(start), steps);
            NeverRelaxes(w.intel, seconds, group, w.now) <==>
            !ShortensCooldown(w.intel, seconds, w.now) && !PushesHeavyOut(w.intel, Flood(w.now, seconds, group))
  {
    var w := Run(Begin(start), steps);
    RunKeepsInv(start, steps);
    TailAscendsInOrder(w);
    FloodRelaxesIff(w.intel, seconds, group, health, w.now);
    FloodRelaxesLaterIff(w.intel, seconds, group, w.now);
  }

  /** `n` floods at one instant, the first two of them heavy. */
  function Burst(n: nat): seq<Step> {
    if n == 0 then [] else Burst(n - 1) + [Record(BurstSeconds(n), "")]
  }

  function BurstSeconds(n: nat): int {
    if n <= 2 then FLOOD_MEDIUM else 1
  }

  function BurstFloods(start: int, n: nat): (floods: seq<Flood>)
    ensures |floods| == n
    ensures forall i :: 0 <= i < n ==> floods[i] == Flood(start, BurstSeconds(i + 1), "")
  {
    if n == 0 then [] else BurstFloods(start, n - 1) + [Flood(start, BurstSeconds(n), "")]
  }

  lemma BurstGrows(start: int, n: nat)
    requires 0 < n <= MAX_HISTORY
    ensures AddFlood(Intel(BurstFloods(start, n - 1), 0), BurstSeconds(n), "", start) == Intel(BurstFloods(start, n), 0)
  {
    FilterAll(BurstFloods(start, n), After(start - HISTORY_WINDOW));
  }

  lemma {:induction false} BurstIsKept(start: int, n: nat)
    requires n <= MAX_HISTORY
    ensures Run(Begin(start), Burst(n)).now == start
    ensures Run(Begin(start), Burst(n)).intel == Intel(BurstFloods(start, n), 0)
  {
    if n == 0 {
    } else {
      BurstIsKept(start, n - 1);
      BurstGrows(start, n);
      assert Burst(n)[..|Burst(n)| - 1] == Burst(n - 1);
    }
  }

  /** The relaxing case is reached by a run: after two heavy and 98 light floods, one more light flood
      turns the cooldown profile into the conservative one. */
  lemma {:induction false} BurstRelaxes(start: int, health: real)
    requires 0 <= start && health >= HEALTH_POOR
    ensures var w := Run(Begin(start), Burst(MAX_HISTORY));
            && Recommend(w.intel, health, w.now).Cooldown?
            && Recommend(Next(w, Record(1, "")).intel, health, w.now).Conservative?
  {
    BurstIsKept(start, MAX_HISTORY);
    BurstIsFull(start, health);
  }

  lemma BurstIsFull(start: int, health: real)
    requires 0 <= start && health >= HEALTH_POOR
    ensures var intel := Intel(BurstFloods(start, MAX_HISTORY), 0);
            Recommend(intel, health, start).Cooldown? &&
            Recommend(AddFlood(intel, 1, "", start), health, start).Conservative?
  {
    var floods := BurstFloods(start, MAX_HISTORY);
    forall e | e in floods
      ensures e.t == start
    {
      var i :| 0 <= i < |floods| && floods[i] == e;
    }
    FullHistoryMayRelax(Intel(floods, 0), health, start);
  }

  /** The heavy floods counted are all heavy floods of the time exactly when none of them lies behind
      the kept floods; with fewer than 100 floods in that time none does. */
  ghost predicate HeavyCountsTrueIff(w: World, hours: int) {
    var cutoff, kept := w.now - hours * HOUR, |w.intel.floods|;
    && kept <= |w.history|
    && (RecentHeavyFloods(w.intel, hours, w.now) == Count(w.history, HeavyAfter(cutoff)) <==>
        Count(Head(w.history, kept), HeavyAfter(cutoff)) == 0)
    && (Count(w.history, After(cutoff)) < MAX_HISTORY ==> Count(Head(w.history, kept), HeavyAfter(cutoff)) == 0)
  }

  /** The heavy floods counted over the last one to six hours are all heavy floods of that time exactly
      when none of them lies behind the kept floods; with fewer than 100 floods in that time none does. */
  lemma {:induction false} HeavyCountsAreTrueIff(start: int, steps: seq<Step>, hours: int)
    requires 1 <= hours <= 6
    ensures HeavyCountsTrueIff(Run(Begin(start), steps), hours)
  {
    RunKeepsInv(start, steps);
    InvCountsHeavy(Run(Begin(start), steps), hours);
  }

  lemma HeavySplits(history: seq<Flood>, size: nat, cutoff: int)
    requires size <= |history|
    ensures Count(history, HeavyAfter(cutoff)) ==
            Count(Head(history, size), HeavyAfter(cutoff)) + Count(Tail(history, size), HeavyAfter(cutoff))
  {
    assert history == Head(history, size) + Tail(history, size);
    FilterConcat(Head(history, size), Tail(history, size), HeavyAfter(cutoff));
  }

  lemma NoneBehind(history: seq<Flood>, size: nat, cutoff: int)
    requires Ascending(history) && size <= |history|
    requires size == MAX_HISTORY || AllBy(Head(history, size), cutoff)
    requires Count(history, After(cutoff)) < MAX_HISTORY
    ensures Count(Head(history, size), HeavyAfter(cutoff)) == 0
  {
    if size == MAX_HISTORY {
      FilterIsTail(history, cutoff);
      LongerTailOlderHead(history, Count(history, After(cutoff)), size, cutoff);
    }
    CountNone(Head(history, size), HeavyAfter(cutoff));
  }

  lemma {:induction false} InvCountsHeavy(w: World, hours: int)
    requires Inv(w) && 1 <= hours <= 6
    ensures HeavyCountsTrueIff(w, hours)
  {
    HeavySplits(w.history, |w.intel.floods|, w.now - hours * HOUR);
    if Count(w.history, After(w.now - hours * HOUR)) < MAX_HISTORY {
      NoneBehindKept(w, hours);
    }
  }

  lemma NoneBehindKept(w: World, hours: int)
    requires Inv(w) && 1 <= hours <= 6
    requires Count(w.history, After(w.now - hours * HOUR)) < MAX_HISTORY
    ensures Count(Head(w.history, |w.intel.floods|), HeavyAfter(w.now - hours * HOUR)) == 0
  {
    NoneBehind(w.history, |w.intel.floods|, w.now - hours * HOUR);
  }

  /** The profile, by its exact conditions. */
  lemma ProfileIff(cool: bool, health: real, heavy: nat, floods: nat)
    ensures var p := ProfileFor(cool, health, heavy, floods);
            && (p == Cooldown <==> cool || (health >= 40.0 && heavy >= 2))
            && (p == Conservative <==> !cool && (health < 40.0 || (heavy < 2 && floods >= 3)))
            && (p == Cautious <==> !cool && health >= 40.0 && heavy < 2 && floods == 2)
            && (p == Normal <==>
                  && !cool && health >= 40.0 && heavy < 2
                  && (floods == 1 || (floods == 0 && health < 90.0)))
            && (p == Aggressive <==> !cool && health >= 90.0 && heavy < 2 && floods == 0)
  {
  }

  /** Better health makes the recommendation more cautious in one case only: two heavy floods lie in the last
      six hours and the poor health that decided before them is gone. */
  lemma {:induction false} HealthTightensIff(intel: Intel, now: int, health: real, better: real)
    requires health <= better
    ensures Recommend(intel, better, now).Rank() > Recommend(intel, health, now).Rank() <==>
            intel.cooldownUntil <= now && health < 40.0 <= better && RecentHeavyFloods(intel, 6, now) >= 2
  {
    var heavy, floods := RecentHeavyFloods(intel, 6, now), RecentFloods(intel, 1, now);
    ProfileIff(now < intel.cooldownUntil, health, heavy, floods);
    ProfileIff(now < intel.cooldownUntil, better, heavy, floods);
  }

  /** Main result on recommendations. Over every run with fewer than 100 floods in the last six hours, the
      recommendation follows the floods ever recorded. */
  lemma {:induction false} RecommendationFollowsHistory(start: int, steps: seq<Step>, health: real)
    ensures var w := Run(Begin(start), steps);
            Count(w.history, Within(w.now, 6)) < 100 ==>
              Recommend(w.intel, health, w.now) ==
              ProfileFor(w.now < w.intel.cooldownUntil, health,
                         Count(w.history, LongWithin(w.now, 6)), Count(w.history, Within(w.now, 1)))
  {
    var w := Run(Begin(start), steps);
    CountsAreTrueUpTo100(start, steps, 1);
    HeavyCountsAreTrueIff(start, steps, 6);
    WithinIs(w.history, w.now, 6);
    CountMonotone(w.history, Within(w.now, 1), Within(w.now, 6));
  }

  /** The cooldown of a run: one and a half times the last flood of at least a day, from its time on. */
  function CooldownOf(history: seq<Flood>): real {
    if history == [] then 0.0
    else
      var last := history[|history| - 1];
      if last.seconds >= 86400 then last.t as real + 1.5 * last.seconds as real * 1000.0
      else CooldownOf(history[..|history| - 1])
  }

  lemma {:induction false} CooldownFollowsHistory(start: int, steps: seq<Step>)
    ensures var w := Run(Begin(start), steps); w.intel.cooldownUntil as real == CooldownOf(w.history)
  {
    if steps == [] {
    } else {
      var w, step := Run(Begin(start), steps[..|steps| - 1]), steps[|steps| - 1];
      CooldownFollowsHistory(start, steps[..|steps| - 1]);
      if step.Record? {
        assert (w.history + [Flood(w.now, step.seconds, step.group)])[..|w.history|] == w.history;
      }
    }
  }

  /** The intervals of the profiles, in minutes. */
  lemma IntervalsAre(p: Profile)
    ensures p.Interval() ==
            match p
            case Aggressive => (8 * 60, 15 * 60)
            case Normal => (10 * 60, 30 * 60)
            case Cautious => (20 * 60, 45 * 60)
            case Conservative => (40 * 60, 90 * 60)
            case Cooldown => (120 * 60, 180 * 60)
  {
  }

  /** In that case better health does tighten the profile: after two heavy floods, from poor to fair health. */
  lemma {:induction false} HealthMayTighten(start: int)
    requires 0 <= start
    ensures var w := Run(Begin(start), Burst(2));
            && Recommend(w.intel, 39.0, w.now) == Conservative
            && Recommend(w.intel, 41.0, w.now) == Cooldown
  {
    BurstIsKept(start, 2);
    var floods := BurstFloods(start, 2);
    FilterAll(floods, HeavyAfter(start - 6 * HOUR));
  }
}
