/** The send history of each account, pruned at the reset cutoff whenever it is rewritten. */
module SendStats {
  import opened Wrappers
  import opened IstTime
  import opened Sequences
  import opened StatsReset

  const CACHE_TTL := 30 * SECOND

  datatype Kind = Campaign | Forward

  datatype Event = Event(t: int, kind: Kind)

  datatype Counts = Counts(campaign: nat, forward: nat, total: nat)

  datatype Cached = Cached(at: int, counts: Counts)

  /** The history files and the in-memory totals, both by account. */
  datatype State = State(files: map<string, seq<Event>>, cache: map<string, Cached>)

  function NormalizeKind(kind: string): Kind {
    if kind == "forward" then Forward else Campaign
  }

  /** The test for an event at or after `cutoff`, of the given kind if one is given. */
  function Counted(cutoff: int, kind: Option<Kind>): Event -> bool {
    (e: Event) => e.t >= cutoff && (kind.None? || e.kind == kind.value)
  }

  function Tally(events: seq<Event>, cutoff: int): Counts {
    Counts(
      Count(events, Counted(cutoff, Some(Campaign))),
      Count(events, Counted(cutoff, Some(Forward))),
      Count(events, Counted(cutoff, None)))
  }

  function RecordedSend(st: State, resets: Resets, slot: string, kind: string, now: int): State {
    if slot == "" then st
    else
      var cutoff := EffectiveCutoff(resets, slot, now);
      var events := Filter(Log(st.files, slot), Counted(cutoff, None)) + [Event(now, NormalizeKind(kind))];
      State(st.files[slot := events],
            st.cache[slot := Cached(now, Tally(events, cutoff).(total := |events|))])
  }

  predicate CacheFresh(st: State, slot: string, now: int) {
    slot in st.cache && now - st.cache[slot].at < CACHE_TTL
  }

  /** The file of `slot` after a count: rewritten without the events before the cutoff. */
  function Pruned(st: State, resets: Resets, slot: string, now: int): State {
    var events := Log(st.files, slot);
    var kept := Filter(events, Counted(EffectiveCutoff(resets, slot, now), None));
    if kept == events then st else st.(files := st.files[slot := kept])
  }

  function Counted24h(st: State, resets: Resets, slot: string, kind: Option<Kind>, now: int): (State, nat) {
    if slot == "" then (st, 0)
    else if kind == None && CacheFresh(st, slot, now) then (st, st.cache[slot].counts.total)
    else
      var cutoff := EffectiveCutoff(resets, slot, now);
      var counts := Tally(Log(st.files, slot), cutoff);
      var pruned := Pruned(st, resets, slot, now);
      if kind.Some? then (pruned, if kind.value.Campaign? then counts.campaign else counts.forward)
      else (pruned.(cache := pruned.cache[slot := Cached(now, counts)]), counts.total)
  }

  /** Invalidating "" clears the cache. Invalidating an account drops the keys whose first
      character, not whose name, is that account. */
  function Invalidated(st: State, slot: string): State {
    if slot == "" then st.(cache := map[])
    else st.(cache := map k | k in st.cache && !(k != "" && [k[0]] == slot) :: st.cache[k])
  }

  class SendHistory {
    var files: map<string, seq<Event>>
    var cache: map<string, Cached>

    function View(): State
      reads this
    {
      State(files, cache)
    }

    constructor ()
      ensures View() == State(map[], map[])
    {
      files := map[];
      cache := map[];
    }

    method InvalidateCache(slot: string)
      modifies this`cache
      ensures View() == Invalidated(old(View()), slot)
    {
      if slot != "" {
        cache := map k | k in cache && !(k != "" && [k[0]] == slot) :: cache[k];
      } else {
        cache := map[];
      }
    }

    method CountSinceCutoff(slot: string, cutoff: int, kind: Option<Kind>) returns (n: nat)
      ensures n == if slot == "" then 0 else Count(Log(files, slot), Counted(cutoff, kind))
    {
      if slot == "" {
        return 0;
      }
      var raw := Log(files, slot);
      n := 0;
      for i := 0 to |raw|
        invariant n == Count(raw[..i], Counted(cutoff, kind))
      {
        assert raw[..i + 1] == raw[..i] + [raw[i]];
        FilterSnoc(raw[..i], raw[i], Counted(cutoff, kind));
        if raw[i].t >= cutoff && (kind.None? || raw[i].kind == kind.value) {
          n := n + 1;
        }
      }
      assert raw[..|raw|] == raw;
    }

    method RecordSend(resets: Resets, slot: string, kind: string, now: int) returns (n: nat)
      modifies this
      ensures View() == RecordedSend(old(View()), resets, slot, kind, now)
      ensures n == if slot == "" then 0
                   else Count(files[slot], Counted(EffectiveCutoff(resets, slot, now), Some(NormalizeKind(kind))))
    {
      if slot == "" {
        return 0;
      }
      var events := FilterSinceCutoff(Log(files, slot), resets, slot, now, None);
      events := events + [Event(now, NormalizeKind(kind))];
      files := files[slot := events];
      var campaign := FilterSinceCutoff(events, resets, slot, now, Some(Campaign));
      var forward := FilterSinceCutoff(events, resets, slot, now, Some(Forward));
      cache := cache[slot := Cached(now, Counts(|campaign|, |forward|, |events|))];
      n := if NormalizeKind(kind).Campaign? then |campaign| else |forward|;
    }

    /** Rewrites the file of `slot` if the requested filter drops anything. */
    method PruneFile(resets: Resets, slot: string, kind: Option<Kind>, now: int) returns (filtered: seq<Event>)
      modifies this`files
      ensures View() == Pruned(old(View()), resets, slot, now)
      ensures filtered == Filter(old(Log(files, slot)), Counted(EffectiveCutoff(resets, slot, now), kind))
    {
      var events := Log(files, slot);
      filtered := FilterSinceCutoff(events, resets, slot, now, kind);
      if |filtered| != |events| {
        var kept := FilterSinceCutoff(events, resets, slot, now, None);
        files := files[slot := kept];
      } else {
        var cutoff := EffectiveCutoff(resets, slot, now);
        FilterFull(events, Counted(cutoff, kind));
        FilterMembers(events, Counted(cutoff, kind));
        FilterAll(events, Counted(cutoff, None));
      }
    }

    method Count24h(resets: Resets, slot: string, kind: Option<Kind>, now: int) returns (n: nat)
      modifies this
      ensures (View(), n) == Counted24h(old(View()), resets, slot, kind, now)
    {
      if slot == "" {
        return 0;
      }
      if slot in cache && now - cache[slot].at < CACHE_TTL && kind.None? {
        return cache[slot].counts.total;
      }
      var events := Log(files, slot);
      var filtered := PruneFile(resets, slot, kind, now);
      if kind.Some? {
        return |filtered|;
      }
      var total := FilterSinceCutoff(events, resets, slot, now, None);
      var campaign := FilterSinceCutoff(events, resets, slot, now, Some(Campaign));
      var forward := FilterSinceCutoff(events, resets, slot, now, Some(Forward));
      cache := cache[slot := Cached(now, Counts(|campaign|, |forward|, |total|))];
      n := |total|;
    }

    /** Sends per hour over the given accounts; the last bucket is the current hour. */
    method HourlyBuckets(slots: seq<string>, bucketCount: nat, now: int) returns (buckets: seq<int>)
      ensures |buckets| == bucketCount
      ensures forall b :: 0 <= b < bucketCount ==>
                buckets[b] == CountOver(files, slots, InBucket(now, bucketCount, b))
      ensures Sum(buckets) == CountOver(files, slots, InLastHours(now, bucketCount))
    {
      buckets := seq(bucketCount, _ => 0);
      SumZero(buckets);
      for s := 0 to |slots|
        invariant |buckets| == bucketCount
        invariant forall b :: 0 <= b < bucketCount ==>
                    buckets[b] == CountOver(files, slots[..s], InBucket(now, bucketCount, b))
        invariant Sum(buckets) == CountOver(files, slots[..s], InLastHours(now, bucketCount))
      {
        assert slots[..s + 1][..s] == slots[..s];
        if slots[s] != "" {
          buckets := AddSlot(buckets, Log(files, slots[s]), now);
        }
      }
      assert slots[..|slots|] == slots;
    }
  }

  method FilterSinceCutoff(events: seq<Event>, resets: Resets, slot: string, now: int, kind: Option<Kind>)
    returns (out: seq<Event>)
    ensures out == Filter(events, Counted(EffectiveCutoff(resets, slot, now), kind))
  {
    var cutoff := EffectiveCutoff(resets, slot, now);
    out := [];
    for i := 0 to |events|
      invariant out == Filter(events[..i], Counted(cutoff, kind))
    {
      assert events[..i + 1] == events[..i] + [events[i]];
      FilterSnoc(events[..i], events[i], Counted(cutoff, kind));
      if events[i].t < cutoff {
        continue;
      }
      if kind.Some? && events[i].kind != kind.value {
        continue;
      }
      out := out + [events[i]];
    }
    assert events[..|events|] == events;
  }

  /** Events of bucket `b` of `n`: the last bucket covers ages below one hour, the one before it
      ages from one hour to below two, and so on. */
  function InBucket(now: int, n: nat, b: nat): Event -> bool
    requires b < n
  {
    (e: Event) => (n - 1 - b) * HOUR <= now - e.t < (n - b) * HOUR
  }

  function InLastHours(now: int, hours: nat): Event -> bool {
    (e: Event) => 0 <= now - e.t < hours * HOUR
  }

  function CountOver(files: map<string, seq<Event>>, slots: seq<string>, keep: Event -> bool): nat {
    if slots == [] then 0
    else
      CountOver(files, slots[..|slots| - 1], keep) +
      if slots[|slots| - 1] == "" then 0 else Count(Log(files, slots[|slots| - 1]), keep)
  }

  function BucketIndex(age: int, n: nat): (b: nat)
    requires 0 <= age < n * HOUR
    ensures b < n
    ensures (n - 1 - b) * HOUR <= age < (n - b) * HOUR
  {
    n - 1 - age / HOUR
  }

  /** One more event adds one to the bucket of its age, if its age is inside the window. */
  lemma OneBucketPerEvent(events: seq<Event>, e: Event, now: int, n: nat)
    ensures Count(events + [e], InLastHours(now, n)) ==
            Count(events, InLastHours(now, n)) + if 0 <= now - e.t < n * HOUR then 1 else 0
    ensures forall b :: 0 <= b < n ==>
              Count(events + [e], InBucket(now, n, b)) ==
              Count(events, InBucket(now, n, b)) +
              if 0 <= now - e.t < n * HOUR && b == BucketIndex(now - e.t, n) then 1 else 0
  {
    FilterSnoc(events, e, InLastHours(now, n));
    forall b | 0 <= b < n
      ensures Count(events + [e], InBucket(now, n, b)) ==
              Count(events, InBucket(now, n, b)) +
              if 0 <= now - e.t < n * HOUR && b == BucketIndex(now - e.t, n) then 1 else 0
    {
      FilterSnoc(events, e, InBucket(now, n, b));
    }
  }

  /** The buckets are those of before plus the events, and so is their sum. */
  ghost predicate Tallied(before: seq<int>, buckets: seq<int>, events: seq<Event>, now: int) {
    var n := |before|;
    && |buckets| == n
    && (forall b :: 0 <= b < n ==> buckets[b] == before[b] + Count(events, InBucket(now, n, b)))
    && Sum(buckets) == Sum(before) + Count(events, InLastHours(now, n))
  }

  /** The buckets after one more event. */
  function WithEvent(buckets: seq<int>, e: Event, now: int): seq<int> {
    if 0 <= now - e.t < |buckets| * HOUR then
      var idx := BucketIndex(now - e.t, |buckets|);
      buckets[idx := buckets[idx] + 1]
    else buckets
  }

  lemma TalliedSnoc(before: seq<int>, buckets: seq<int>, events: seq<Event>, e: Event, now: int)
    requires Tallied(before, buckets, events, now)
    ensures Tallied(before, WithEvent(buckets, e, now), events + [e], now)
  {
    OneBucketPerEvent(events, e, now, |before|);
    SumWithEvent(buckets, e, now);
  }

  lemma SumWithEvent(buckets: seq<int>, e: Event, now: int)
    ensures Sum(WithEvent(buckets, e, now)) == Sum(buckets) + if 0 <= now - e.t < |buckets| * HOUR then 1 else 0
    ensures |WithEvent(buckets, e, now)| == |buckets|
  {
    if 0 <= now - e.t < |buckets| * HOUR {
      var idx := BucketIndex(now - e.t, |buckets|);
      SumUpdate(buckets, idx, buckets[idx] + 1);
    }
  }

  /** One account's share: each event inside the window lands in exactly one bucket. */
  method AddSlot(before: seq<int>, events: seq<Event>, now: int) returns (buckets: seq<int>)
    ensures |buckets| == |before|
    ensures forall b :: 0 <= b < |before| ==> buckets[b] == before[b] + Count(events, InBucket(now, |before|, b))
    ensures Sum(buckets) == Sum(before) + Count(events, InLastHours(now, |before|))
  {
    buckets := before;
    for i := 0 to |events|
      invariant Tallied(before, buckets, events[..i], now)
    {
      assert events[..i + 1] == events[..i] + [events[i]];
      TalliedSnoc(before, buckets, events[..i], events[i], now);
      var age := now - events[i].t;
      if 0 <= age < |buckets| * HOUR {
        var idx := BucketIndex(age, |buckets|);
        buckets := buckets[idx := buckets[idx] + 1];
      }
    }
    assert events[..|events|] == events;
  }

  /** An event of age zero is in the last bucket, and each full hour of age takes it one bucket back. */
  lemma InBucketIff(now: int, n: nat, b: nat, e: Event)
    requires b < n
    ensures InBucket(now, n, b)(e) <==> e.t <= now && (now - e.t) / (3600 * 1000) == n - 1 - b
  {
  }
}
