/** Accounts that have not posted for too long rest on a shutdown list. */
module AccountShutdown {
  import opened Wrappers
  import opened IstTime
  import opened Sequences
  import opened StatsReset
  import S = SendStats
  import G = GroupSendStats
  import opened StatsWindow

  const SHUTDOWN_DURATION := 7 * DAY

  const DEFAULT_REASON := "no_post_6h"

  datatype Entry = Entry(shutdownAt: int, resumeAt: int, reason: string, wasRunning: bool, lastSendAt: Option<int>)

  datatype ShutdownError = SlotRequired

  /** The stored entry as read back: a missing resume time is made up from the start time. */
  function Normalized(raw: Entry): Entry {
    raw.(resumeAt :=
           if raw.resumeAt <= 0 && raw.shutdownAt > 0 then raw.shutdownAt + SHUTDOWN_DURATION else raw.resumeAt,
         reason := if raw.reason == "" then DEFAULT_REASON else raw.reason)
  }

  predicate Expired(raw: Entry, now: int) {
    now >= Normalized(raw).resumeAt
  }

  function ShutdownInfo(accounts: map<string, Entry>, slot: string, now: int): Option<Entry> {
    if slot == "" || slot !in accounts || Expired(accounts[slot], now) then None
    else Some(Normalized(accounts[slot]))
  }

  class ShutdownList {
    var accounts: map<string, Entry>

    constructor ()
      ensures accounts == map[]
    {
      accounts := map[];
    }

    method PutOnShutdownList(slot: string, reason: string, wasRunning: bool, lastSendAt: Option<int>, now: int)
      returns (result: Result<Entry, ShutdownError>)
      requires now > 0
      modifies this
      ensures slot == "" ==> result == Err(SlotRequired) && accounts == old(accounts)
      ensures slot != "" ==>
                && result.Ok?
                && accounts.Keys == old(accounts).Keys + {slot}
                && (forall other :: other in old(accounts) && other != slot ==> accounts[other] == old(accounts)[other])
                && result.value.shutdownAt == now
                && result.value.wasRunning == wasRunning && result.value.lastSendAt == lastSendAt
                && result.value.reason == (if reason == "" then DEFAULT_REASON else reason)
                && forall t :: now <= t ==>
                     ShutdownInfo(accounts, slot, t) == if t < now + SHUTDOWN_DURATION then Some(result.value) else None
    {
      if slot == "" {
        return Err(SlotRequired);
      }
      var entry := Entry(now, now + SHUTDOWN_DURATION, reason, wasRunning, lastSendAt);
      accounts := accounts[slot := entry];
      result := Ok(Normalized(entry));
    }

    method ClearShutdown(slot: string) returns (cleared: bool)
      modifies this
      ensures cleared <==> slot != "" && slot in old(accounts)
      ensures accounts == if cleared then old(accounts) - {slot} else old(accounts)
    {
      if slot == "" || slot !in accounts {
        return false;
      }
      accounts := accounts - {slot};
      cleared := true;
    }

    /** Drops exactly the expired entries, which changes nothing a reader sees now or later. */
    method PurgeExpired(now: int) returns (cleared: set<string>)
      modifies this
      ensures cleared == set s | s in old(accounts) && Expired(old(accounts)[s], now)
      ensures accounts == old(accounts) - cleared
      ensures forall slot, t :: now <= t ==> ShutdownInfo(accounts, slot, t) == ShutdownInfo(old(accounts), slot, t)
    {
      var keep: map<string, Entry> := map[];
      var pending := accounts.Keys;
      cleared := {};
      while pending != {}
        invariant pending <= accounts.Keys
        invariant accounts == old(accounts)
        invariant forall s :: s in cleared <==> s in accounts && s !in pending && Expired(accounts[s], now)
        invariant forall s :: s in keep <==> s in accounts && s !in pending && !Expired(accounts[s], now)
        invariant forall s :: s in keep ==> keep[s] == accounts[s]
        decreases |pending|
      {
        var slot :| slot in pending;
        pending := pending - {slot};
        if Expired(accounts[slot], now) {
          cleared := cleared + {slot};
        } else {
          keep := keep[slot := accounts[slot]];
        }
      }
      if cleared != {} {
        accounts := keep;
      }
      assert accounts == old(accounts) - cleared;
      forall slot, t | now <= t
        ensures ShutdownInfo(accounts, slot, t) == ShutdownInfo(old(accounts), slot, t)
      {
        PurgeHidesNothing(old(accounts), cleared, slot, now, t);
      }
    }
  }

  lemma PurgeHidesNothing(accounts: map<string, Entry>, cleared: set<string>, slot: string, now: int, t: int)
    requires now <= t && forall s :: s in accounts && s in cleared ==> Expired(accounts[s], now)
    ensures ShutdownInfo(accounts - cleared, slot, t) == ShutdownInfo(accounts, slot, t)
  {
  }

  /** An entry reads as active until its resume time, or if that is missing for seven days from its start. */
  lemma {:induction false} ActiveUntil(accounts: map<string, Entry>, slot: string, now: int)
    requires slot != "" && slot in accounts && accounts[slot].shutdownAt > 0
    ensures var raw := accounts[slot];
            var until := if raw.resumeAt > 0 then raw.resumeAt else raw.shutdownAt + 7 * 24 * HOUR;
            var reason := if raw.reason == "" then "no_post_6h" else raw.reason;
            && (ShutdownInfo(accounts, slot, now) != None <==> now < until)
            && (now < until ==> ShutdownInfo(accounts, slot, now).value == raw.(resumeAt := until, reason := reason))
  {
  }

  /** The latest of a list of positive times, with `last` the latest seen before. */
  function Later(last: Option<int>, t: int): Option<int> {
    Some(Max(if last.Some? then last.value else 0, t))
  }

  function LastSend(events: seq<S.Event>): Option<int> {
    if events == [] then None
    else
      var last, t := LastSend(events[..|events| - 1]), events[|events| - 1].t;
      if t > 0 then Later(last, t) else last
  }

  function LastGroupSend(events: seq<G.GroupEvent>): Option<int> {
    if events == [] then None
    else
      var last, t := LastGroupSend(events[..|events| - 1]), events[|events| - 1].t;
      if last.Some? && last.value > t then last else Some(t)
  }

  function LastPost(sends: seq<S.Event>, groups: seq<G.GroupEvent>): Option<int> {
    var last, g := LastSend(sends), LastGroupSend(groups);
    if g.Some? && g.value != 0 then Later(last, g.value) else last
  }

  method GetLastPostTimestamp(sends: seq<S.Event>, groups: seq<G.GroupEvent>) returns (last: Option<int>)
    ensures last == LastPost(sends, groups)
  {
    last := None;
    for i := 0 to |sends|
      invariant last == LastSend(sends[..i])
    {
      assert sends[..i + 1][..i] == sends[..i];
      if sends[i].t > 0 {
        last := Later(last, sends[i].t);
      }
    }
    assert sends[..|sends|] == sends;
    var g: Option<int> := None;
    for i := 0 to |groups|
      invariant g == LastGroupSend(groups[..i])
    {
      assert groups[..i + 1][..i] == groups[..i];
      if g.None? || g.value <= groups[i].t {
        g := Some(groups[i].t);
      }
    }
    assert groups[..|groups|] == groups;
    if g.Some? && g.value != 0 {
      last := Later(last, g.value);
    }
  }

  datatype Reason = NoReason | NoPostEver(hours: int) | NoPost(hours: int) | NoPostSinceReset(hours: int)

  datatype Verdict = Verdict(shutDown: bool, reason: Reason, idle: int, lastPost: Option<int>)

  /** The worker: whether the account is expected to post, whether it runs, and since when
      (not positive when unknown). */
  datatype Worker = Worker(expected: bool, running: bool, startedAt: int) {
    predicate StartKnown() {
      running && startedAt > 0
    }
  }

  /** What the decision reads: the two logs and the effective cutoff of the account. */
  datatype Evidence = Evidence(sends: seq<S.Event>, groups: seq<G.GroupEvent>, cutoff: int)

  function EvaluatePostingIdle(ev: Evidence, w: Worker, now: int, threshold: int): Verdict {
    if !w.expected then Verdict(false, NoReason, 0, None)
    else
      var lastPost := LastPost(ev.sends, ev.groups);
      var reference :=
        if w.StartKnown() && (lastPost.None? || w.startedAt > lastPost.value) then Some(w.startedAt) else lastPost;
      match reference
      case Some(since) =>
        var idle := now - since;
        if idle >= threshold then
          var never := lastPost.None? || (w.running && w.startedAt > lastPost.value);
          Verdict(true, if never then NoPostEver(idle / HOUR) else NoPost(idle / HOUR), idle, lastPost)
        else Verdict(false, NoReason, idle, lastPost)
      case None =>
        var cutoff := if w.StartKnown() then Max(ev.cutoff, w.startedAt) else ev.cutoff;
        var idle := now - cutoff;
        if idle < threshold then Verdict(false, NoReason, idle, None)
        else if Count(ev.sends, S.Counted(cutoff, None)) == 0 && Count(ev.groups, G.SentSince(cutoff)) == 0 then
          Verdict(true, NoPostSinceReset(idle / HOUR), idle, None)
        else Verdict(false, NoReason, idle, None)
  }

  ghost predicate Positive(ev: Evidence) {
    (forall e :: e in ev.sends ==> e.t > 0) && forall g :: g in ev.groups ==> g.t > 0
  }

  lemma {:induction false} LastSendIsLatest(events: seq<S.Event>)
    requires forall e :: e in events ==> e.t > 0
    ensures LastSend(events).None? <==> events == []
    ensures LastSend(events).Some? ==>
              (exists e :: e in events && e.t == LastSend(events).value) &&
              forall e :: e in events ==> e.t <= LastSend(events).value
  {
    if events == [] {
    } else {
      var init, last := events[..|events| - 1], events[|events| - 1];
      LastSendIsLatest(init);
      assert events == init + [last] && last in events;
    }
  }

  lemma {:induction false} LastGroupSendIsLatest(events: seq<G.GroupEvent>)
    ensures LastGroupSend(events).None? <==> events == []
    ensures LastGroupSend(events).Some? ==>
              (exists e :: e in events && e.t == LastGroupSend(events).value) &&
              forall e :: e in events ==> e.t <= LastGroupSend(events).value
  {
    if events == [] {
    } else {
      var init, last := events[..|events| - 1], events[|events| - 1];
      LastGroupSendIsLatest(init);
      assert events == init + [last] && last in events;
    }
  }

  /** The last post is at least `threshold` old exactly when every retained post is. */
  lemma LastPostOldIffAllOld(ev: Evidence, now: int, threshold: int)
    requires Positive(ev)
    ensures LastPost(ev.sends, ev.groups).None? <==> ev.sends == [] && ev.groups == []
    ensures LastPost(ev.sends, ev.groups).Some? ==>
              (now - LastPost(ev.sends, ev.groups).value >= threshold <==>
               (forall e :: e in ev.sends ==> now - e.t >= threshold) &&
               (forall g :: g in ev.groups ==> now - g.t >= threshold))
  {
    LastSendIsLatest(ev.sends);
    LastGroupSendIsLatest(ev.groups);
  }

  /** The verdict without its branches: shut down an account that should post exactly when every
      retained post and the known start are old enough, and, with neither, the cutoff is. */
  lemma ShutDownIff(ev: Evidence, w: Worker, now: int, threshold: int)
    requires Positive(ev)
    ensures EvaluatePostingIdle(ev, w, now, threshold).shutDown <==>
            && w.expected
            && (forall e :: e in ev.sends ==> now - e.t >= threshold)
            && (forall g :: g in ev.groups ==> now - g.t >= threshold)
            && (w.StartKnown() ==> now - w.startedAt >= threshold)
            && (ev.sends == [] && ev.groups == [] && !w.StartKnown() ==> now - ev.cutoff >= threshold)
  {
    LastPostOldIffAllOld(ev, now, threshold);
  }

  /** Which reason is given: "ever" when the reference is the start of the worker, "since reset"
      when nothing is retained and no start is known. */
  lemma ReasonFollowsReference(ev: Evidence, w: Worker, now: int, threshold: int)
    requires Positive(ev) && EvaluatePostingIdle(ev, w, now, threshold).shutDown
    ensures var v := EvaluatePostingIdle(ev, w, now, threshold);
            var noPosts := ev.sends == [] && ev.groups == [];
            && (v.reason.NoPostSinceReset? <==> noPosts && !w.StartKnown())
            && (v.reason.NoPostEver? <==> w.StartKnown() && (forall e :: e in ev.sends ==> e.t < w.startedAt)
                                                       && (forall g :: g in ev.groups ==> g.t < w.startedAt))
            && v.idle >= threshold
            && v.reason != NoReason && v.reason.hours == v.idle / HOUR
  {
    LastPostOldIffAllOld(ev, now, threshold);
    LastSendIsLatest(ev.sends);
    LastGroupSendIsLatest(ev.groups);
  }

  /** Some post of either log is of this time. */
  ghost predicate IsPostTime(ev: Evidence, t: int) {
    (exists e :: e in ev.sends && e.t == t) || (exists g :: g in ev.groups && g.t == t)
  }

  /** The last post is the latest positive one of both logs. */
  lemma {:induction false} LastPostIs(ev: Evidence)
    requires Positive(ev)
    ensures var last := LastPost(ev.sends, ev.groups);
            && (last == None <==> ev.sends == [] && ev.groups == [])
            && (last != None ==>
                  && IsPostTime(ev, last.value)
                  && (forall e :: e in ev.sends ==> e.t <= last.value)
                  && (forall g :: g in ev.groups ==> g.t <= last.value))
  {
    LastSendIsLatest(ev.sends);
    LastGroupSendIsLatest(ev.groups);
  }

  /** The verdict carries the last post, and as idle time the time since the later of it and the known
      start, or else since the cutoff; without being expected to post an account is never idle. */
  lemma {:induction false} IdleTimeIs(ev: Evidence, w: Worker, now: int, threshold: int)
    ensures var v, last := EvaluatePostingIdle(ev, w, now, threshold), LastPost(ev.sends, ev.groups);
            if !w.expected then v == Verdict(false, NoReason, 0, None)
            else
              && v.lastPost == last
              && (last != None && !w.StartKnown() ==> v.idle == now - last.value)
              && (last == None && w.StartKnown() ==> v.idle == now - w.startedAt)
              && (last != None && w.StartKnown() ==> v.idle == now - Max(last.value, w.startedAt))
              && (last == None && !w.StartKnown() ==> v.idle == now - ev.cutoff)
              && (v.shutDown <==> v.idle >= threshold && v.reason != NoReason)
  {
  }

  function EvidenceIn(w: World, slot: string): Evidence {
    Evidence(Log(w.sends.files, slot), Log(w.groupFiles, slot), Cutoff(w, slot))
  }

  /** Main result. In every run, an account that is shut down has no post, in either history and
      pruned or not, that is at or after its cutoff and younger than the threshold; and its worker
      was not started within the threshold. */
  lemma ShutDownOnlyIdleAccounts(start: int, steps: seq<Step>, slot: string, worker: Worker, threshold: int)
    requires DAY <= start
    requires var w := Run(Fresh(start), steps);
             EvaluatePostingIdle(EvidenceIn(w, slot), worker, w.now, threshold).shutDown
    ensures var w := Run(Fresh(start), steps);
            && (forall e :: e in Log(w.sent, slot) && Cutoff(w, slot) <= e.t ==> w.now - e.t >= threshold)
            && (forall g :: g in Log(w.groupSent, slot) && Cutoff(w, slot) <= g.t ==> w.now - g.t >= threshold)
            && (worker.StartKnown() ==> w.now - worker.startedAt >= threshold)
  {
    FreshInv(start);
    RunKeepsInv(Fresh(start), steps);
    var w := Run(Fresh(start), steps);
    assert SlotInv(w, slot);
    ShutDownIff(EvidenceIn(w, slot), worker, w.now, threshold);
    LogsRetain(w, slot);
  }

  /** What the decision would read had nothing been pruned. */
  function FullEvidenceIn(w: World, slot: string): Evidence {
    Evidence(Log(w.sent, slot), Log(w.groupSent, slot), Cutoff(w, slot))
  }

  /** Some post ever recorded is younger than the threshold. */
  ghost predicate PostedWithin(ev: Evidence, now: int, threshold: int) {
    (exists e :: e in ev.sends && now - e.t < threshold) || exists g :: g in ev.groups && now - g.t < threshold
  }

  /** The retained evidence is part of the full one, and has all of it from the cutoff on. */
  ghost predicate RetainsFromCutoff(kept: Evidence, full: Evidence) {
    && kept.cutoff == full.cutoff
    && (forall e :: e in kept.sends ==> e in full.sends) && (forall g :: g in kept.groups ==> g in full.groups)
    && (forall e :: e in full.sends && full.cutoff <= e.t ==> e in kept.sends)
    && (forall g :: g in full.groups && full.cutoff <= g.t ==> g in kept.groups)
  }

  /** Some post or a known start is there to count from, or the cutoff is old enough to count instead. */
  predicate Decidable(ev: Evidence, worker: Worker, now: int, threshold: int) {
    ev.sends != [] || ev.groups != [] || worker.StartKnown() || now - ev.cutoff >= threshold
  }

  lemma LogsRetain(w: World, slot: string)
    requires Valid(w.resets, w.now) && SlotInv(w, slot)
    ensures RetainsFromCutoff(EvidenceIn(w, slot), FullEvidenceIn(w, slot))
  {
    GroupLogsFromCutoff(w, slot, Cutoff(w, slot));
    FilterMembers(Log(w.sent, slot), Since(Cutoff(w, slot)));
    FilterMembers(Log(w.sends.files, slot), Since(Cutoff(w, slot)));
    FilterMembers(Log(w.groupSent, slot), G.SentSince(Cutoff(w, slot)));
    FilterMembers(Log(w.groupFiles, slot), G.SentSince(Cutoff(w, slot)));
    forall e | e in Log(w.sent, slot) && Cutoff(w, slot) <= e.t
      ensures e in Log(w.sends.files, slot)
    {
      assert e in Filter(Log(w.sent, slot), Since(Cutoff(w, slot)));
    }
    forall g | g in Log(w.groupSent, slot) && Cutoff(w, slot) <= g.t
      ensures g in Log(w.groupFiles, slot)
    {
      assert g in Filter(Log(w.groupSent, slot), G.SentSince(Cutoff(w, slot)));
    }
  }

  /** The verdicts on the retained and on the full evidence, compared. */
  lemma {:induction false} VerdictsDifferIff(kept: Evidence, full: Evidence, worker: Worker, now: int, threshold: int)
    requires Positive(full) && RetainsFromCutoff(kept, full)
    ensures var p := EvaluatePostingIdle(kept, worker, now, threshold).shutDown;
            var f := EvaluatePostingIdle(full, worker, now, threshold).shutDown;
            && (p ==> (f <==> !PostedWithin(full, now, threshold)))
            && (f ==> (p <==> Decidable(kept, worker, now, threshold)))
            && (now - kept.cutoff >= threshold ==> p == f)
  {
    assert Positive(kept);
    ShutDownIff(kept, worker, now, threshold);
    ShutDownIff(full, worker, now, threshold);
    assert full.sends == [] || full.sends[0] in full.sends;
    assert full.groups == [] || full.groups[0] in full.groups;
    assert kept.sends == [] || kept.sends[0] in full.sends;
    assert kept.groups == [] || kept.groups[0] in full.groups;
  }

  /** Main result on pruning. In every run, an account shut down on its pruned logs would be on the full
      histories exactly when no post ever recorded is younger than the threshold, and one shut down on
      the full histories is on the pruned logs exactly when a post is left, the start is known or the
      cutoff is old enough; once the cutoff is that old, the two verdicts are the same. */
  lemma {:induction false} PrunedVerdictIff(start: int, steps: seq<Step>, slot: string, worker: Worker, threshold: int)
    requires DAY <= start
    ensures var w := Run(Fresh(start), steps);
            var kept, full := EvidenceIn(w, slot), FullEvidenceIn(w, slot);
            var p := EvaluatePostingIdle(kept, worker, w.now, threshold).shutDown;
            var f := EvaluatePostingIdle(full, worker, w.now, threshold).shutDown;
            && (p ==> (f <==> !PostedWithin(full, w.now, threshold)))
            && (f ==> (p <==> Decidable(kept, worker, w.now, threshold)))
            && (w.now - kept.cutoff >= threshold ==> p == f)
  {
    FreshInv(start);
    RunKeepsInv(Fresh(start), steps);
    var w := Run(Fresh(start), steps);
    assert SlotInv(w, slot);
    LogsRetain(w, slot);
    VerdictsDifferIff(EvidenceIn(w, slot), FullEvidenceIn(w, slot), worker, w.now, threshold);
  }

  /** Six hours after the start a post, an hour later a reset and a count that prunes the log. */
  function ResetAfterPost(slot: string): seq<Step> {
    [] + [Advance(6 * HOUR)] + [Send(slot, "campaign")] + [Advance(HOUR)] + [Reset(slot, false)] +
    [Count24h(slot, Some(S.Campaign))]
  }

  lemma RunFive(w: World, a: Step, b: Step, c: Step, d: Step, e: Step)
    ensures Run(w, [] + [a] + [b] + [c] + [d] + [e]) == Next(Next(Next(Next(Next(w, a), b), c), d), e)
  {
    RunSnoc(w, [], a);
    RunSnoc(w, [] + [a], b);
    RunSnoc(w, [] + [a] + [b], c);
    RunSnoc(w, [] + [a] + [b] + [c], d);
    RunSnoc(w, [] + [a] + [b] + [c] + [d], e);
  }

  lemma ResetAfterPostWorld(start: int, slot: string)
    requires DAY <= start && slot != ""
    ensures var w := Run(Fresh(start), ResetAfterPost(slot));
            && w.now == start + 7 * HOUR
            && Log(w.sent, slot) == [S.Event(start + 6 * HOUR, S.NormalizeKind("campaign"))]
            && Log(w.sends.files, slot) == [] && Log(w.groupFiles, slot) == []
  {
    var reset, count := Reset(slot, false), Count24h(slot, Some(S.Campaign));
    RunFive(Fresh(start), Advance(6 * HOUR), Send(slot, "campaign"), Advance(HOUR), reset, count);
    var before := Fresh(start).(now := start + 6 * HOUR);
    var posted := AfterSend(before, slot, "campaign");
    PostIsStored(before, slot);
    var later := posted.(now := start + 7 * HOUR);
    assert Next(Next(Fresh(start), Advance(6 * HOUR)), Send(slot, "campaign")) == posted;
    assert Next(posted, Advance(HOUR)) == later;
    ResetPrunes(later, slot, S.Event(start + 6 * HOUR, S.NormalizeKind("campaign")));
  }

  lemma PostIsStored(w: World, slot: string)
    requires slot != "" && Log(w.sends.files, slot) == [] && Log(w.sent, slot) == []
    ensures var v, e := AfterSend(w, slot, "campaign"), S.Event(w.now, S.NormalizeKind("campaign"));
            Log(v.sends.files, slot) == [e] && Log(v.sent, slot) == [e]
  {
  }

  lemma ResetPrunes(w: World, slot: string, e: S.Event)
    requires w.resets == NO_RESETS && w.lastReset == map[] && DAY <= w.now && slot != ""
    requires Log(w.sends.files, slot) == [e] && e.t < w.now
    ensures var v := AfterCount(Next(w, Reset(slot, false)), slot, Some(S.Campaign));
            && Log(v.sends.files, slot) == [] && v.now == w.now
            && v.sent == w.sent && v.groupFiles == w.groupFiles
  {
    var u := Next(w, Reset(slot, false));
    assert u.resets == WriteReset(NO_RESETS, w.now, slot);
    CutoffIsLatest(u.resets, slot, u.now);
    assert Cutoff(u, slot) == w.now;
    CountNone([e], S.Counted(w.now, None));
    assert Log(u.sends.files, slot) == [e];
  }

  /** So an account may be shut down one hour after a post: the reset took the post out of its logs. */
  lemma {:induction false} ShutDownAnHourAfterPost(start: int, slot: string)
    requires DAY <= start && slot != ""
    ensures var w := Run(Fresh(start), ResetAfterPost(slot));
            var v := EvaluatePostingIdle(EvidenceIn(w, slot), Worker(true, true, start), w.now, 6 * HOUR);
            v.shutDown && v.reason == NoPostEver(7) && PostedWithin(FullEvidenceIn(w, slot), w.now, HOUR + 1)
  {
    ResetAfterPostWorld(start, slot);
    var w := Run(Fresh(start), ResetAfterPost(slot));
    assert Log(w.sent, slot)[0] in Log(w.sent, slot);
    assert (7 * HOUR) / HOUR == 7;
  }
}
