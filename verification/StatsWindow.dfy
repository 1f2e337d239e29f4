/** Runs of resets, rollovers, sends and counts against the history that is never pruned. */
module StatsWindow {
  import opened Wrappers
  import opened IstTime
  import opened Sequences
  import opened StatsReset
  import opened Text
  import S = SendStats
  import G = GroupSendStats

  /** The stored files and caches, together with what an observer remembers: every send ever
      recorded, and the cutoff that held when each cached total was taken. */
  datatype World = World(
    now: int,
    resets: Resets,
    lastReset: map<string, int>,
    sends: S.State,
    groupFiles: G.Files,
    sent: map<string, seq<S.Event>>,
    groupSent: G.Files,
    cachedCutoff: map<string, int>)

  datatype Step =
    | Advance(elapsed: nat)
    | Reset(account: string, skipDebounce: bool)
    | AutoReset(slots: seq<string>)
    | Invalidate(account: string)
    | Send(slot: string, kind: string)
    | Count24h(slot: string, filter: Option<S.Kind>)
    | GroupSend(slot: string, group: string)

  function Cutoff(w: World, account: string): int {
    EffectiveCutoff(w.resets, account, w.now)
  }

  function Fresh(now: int): World {
    World(now, NO_RESETS, map[], S.State(map[], map[]), map[], map[], map[], map[])
  }

  function InvalidateEach(st: S.State, accounts: seq<string>): S.State {
    if accounts == [] then st
    else S.Invalidated(InvalidateEach(st, accounts[..|accounts| - 1]), accounts[|accounts| - 1])
  }

  function AfterAutoReset(w: World, slots: seq<string>): World {
    var outcome := AutoResetOutcome(w.resets, slots, w.now);
    var sends :=
      match outcome
      case None => w.sends
      case Some(GlobalScope(_, _)) => S.Invalidated(w.sends, "")
      case Some(AccountScope(due, _)) => InvalidateEach(w.sends, due);
    w.(resets := AutoReseted(w.resets, slots, w.now),
       lastReset := AutoLastReset(w.lastReset, outcome, w.now),
       sends := sends)
  }

  function AfterSend(w: World, slot: string, kind: string): World {
    if slot == "" then w
    else
      w.(sends := S.RecordedSend(w.sends, w.resets, slot, kind, w.now),
         sent := w.sent[slot := Log(w.sent, slot) + [S.Event(w.now, S.NormalizeKind(kind))]],
         cachedCutoff := w.cachedCutoff[slot := Cutoff(w, slot)])
  }

  function AfterCount(w: World, slot: string, filter: Option<S.Kind>): World {
    var recached := slot != "" && filter == None && !S.CacheFresh(w.sends, slot, w.now);
    w.(sends := S.Counted24h(w.sends, w.resets, slot, filter, w.now).0,
       cachedCutoff := if recached then w.cachedCutoff[slot := Cutoff(w, slot)] else w.cachedCutoff)
  }

  function AfterGroupSend(w: World, slot: string, group: string): World {
    var g := G.NormalizeGroup(group);
    if slot == "" || g == "" then w
    else
      w.(groupFiles := G.RecordedGroupSend(w.groupFiles, slot, group, w.now),
         groupSent := w.groupSent[slot := Log(w.groupSent, slot) + [G.GroupEvent(g, w.now)]])
  }

  function Next(w: World, step: Step): World {
    match step
    case Advance(elapsed) => w.(now := w.now + elapsed)
    case Reset(account, skipDebounce) =>
      if !skipDebounce && TooSoon(w.lastReset, account, w.now) then w
      else w.(resets := WriteReset(w.resets, w.now, account),
              lastReset := w.lastReset[DebounceKey(account) := w.now])
    case AutoReset(slots) => AfterAutoReset(w, slots)
    case Invalidate(account) => w.(sends := S.Invalidated(w.sends, account))
    case Send(slot, kind) => AfterSend(w, slot, kind)
    case Count24h(slot, filter) => AfterCount(w, slot, filter)
    case GroupSend(slot, group) => AfterGroupSend(w, slot, group)
  }

  function Run(w: World, steps: seq<Step>): World {
    if steps == [] then w else Next(Run(w, steps[..|steps| - 1]), steps[|steps| - 1])
  }

  lemma RunSnoc(w: World, steps: seq<Step>, step: Step)
    ensures Run(w, steps + [step]) == Next(Run(w, steps), step)
  {
    assert (steps + [step])[..|steps|] == steps;
  }

  function Since(cutoff: int): S.Event -> bool {
    S.Counted(cutoff, None)
  }

  /** A reader who looks only at the events `since` admits sees in the stored log exactly the
      sends that were recorded; and nothing stored was not recorded. */
  ghost predicate Agree<E(!new)>(stored: seq<E>, sent: seq<E>, since: E -> bool) {
    Filter(stored, since) == Filter(sent, since) && forall e :: e in stored ==> e in sent
  }

  /** A cached total is the true count for the cutoff under which it was taken. */
  ghost predicate CacheOnceTrue(w: World, slot: string) {
    slot in w.sends.cache ==>
      && slot in w.cachedCutoff
      && w.cachedCutoff[slot] <= Cutoff(w, slot)
      && w.sends.cache[slot].counts.total == Count(Log(w.sent, slot), Since(w.cachedCutoff[slot]))
  }

  /** From its cutoff on, the pruned log of an account still holds every send ever recorded. */
  ghost predicate SendsInv(w: World, slot: string) {
    && Agree(Log(w.sends.files, slot), Log(w.sent, slot), Since(Cutoff(w, slot)))
    && (forall e :: e in Log(w.sent, slot) ==> 0 < e.t <= w.now)
    && CacheOnceTrue(w, slot)
  }

  /** Over the retention time, so does the log of its group sends. */
  ghost predicate GroupsInv(w: World, slot: string) {
    && Agree(Log(w.groupFiles, slot), Log(w.groupSent, slot), G.SentSince(w.now - G.RETAIN))
    && (forall e :: e in Log(w.groupSent, slot) ==> 0 < e.t <= w.now && Strip(e.group) != "")
  }

  ghost predicate SlotInv(w: World, slot: string) {
    SendsInv(w, slot) && GroupsInv(w, slot)
  }

  ghost predicate Inv(w: World) {
    Valid(w.resets, w.now) && forall slot :: SlotInv(w, slot)
  }

  lemma AgreeOnLess<E(!new)>(stored: seq<E>, sent: seq<E>, since: E -> bool, later: E -> bool)
    requires Agree(stored, sent, since)
    requires forall e :: later(e) ==> since(e)
    ensures Agree(stored, sent, later)
  {
    FilterOfFilter(stored, since, later);
    FilterOfFilter(sent, since, later);
  }

  /** Pruning events no reader asks for, and then appending a new event to both logs. */
  lemma AgreeAfterAppend<E(!new)>(stored: seq<E>, sent: seq<E>, since: E -> bool, keep: E -> bool, event: E)
    requires Agree(stored, sent, since)
    requires forall e :: since(e) ==> keep(e)
    ensures Agree(Filter(stored, keep), sent, since)
    ensures Agree(Filter(stored, keep) + [event], sent + [event], since)
  {
    FilterMembers(stored, keep);
    FilterOfFilter(stored, keep, since);
    FilterSnoc(Filter(stored, keep), event, since);
    FilterSnoc(sent, event, since);
  }

  /** Steps that leave this account's logs alone: its cutoff may grow, its cache entry may go. */
  lemma QuietStep(w: World, v: World, slot: string)
    requires SlotInv(w, slot) && w.now <= v.now && Cutoff(w, slot) <= Cutoff(v, slot)
    requires Log(v.sends.files, slot) == Log(w.sends.files, slot) && Log(v.groupFiles, slot) == Log(w.groupFiles, slot)
    requires Log(v.sent, slot) == Log(w.sent, slot) && Log(v.groupSent, slot) == Log(w.groupSent, slot)
    requires slot in v.sends.cache ==> slot in w.sends.cache && v.sends.cache[slot] == w.sends.cache[slot]
    requires slot in w.cachedCutoff ==> slot in v.cachedCutoff && v.cachedCutoff[slot] == w.cachedCutoff[slot]
    ensures SlotInv(v, slot)
  {
    AgreeOnLess(Log(w.sends.files, slot), Log(w.sent, slot), Since(Cutoff(w, slot)), Since(Cutoff(v, slot)));
    AgreeOnLess(Log(w.groupFiles, slot), Log(w.groupSent, slot),
                G.SentSince(w.now - G.RETAIN), G.SentSince(v.now - G.RETAIN));
  }

  /** Eight days reach behind every cutoff. */
  lemma GroupLogsFromCutoff(w: World, slot: string, cutoff: int)
    requires Valid(w.resets, w.now) && SlotInv(w, slot) && Cutoff(w, slot) <= cutoff
    ensures Agree(Log(w.groupFiles, slot), Log(w.groupSent, slot), G.SentSince(cutoff))
  {
    CutoffIsLatest(w.resets, slot, w.now);
    AgreeOnLess(Log(w.groupFiles, slot), Log(w.groupSent, slot), G.SentSince(w.now - G.RETAIN), G.SentSince(cutoff));
  }

  lemma {:induction false} InvalidateEachOnlyDrops(st: S.State, accounts: seq<string>)
    ensures InvalidateEach(st, accounts).files == st.files
    ensures forall k :: k in InvalidateEach(st, accounts).cache ==>
              k in st.cache && InvalidateEach(st, accounts).cache[k] == st.cache[k]
  {
    if accounts == [] {
    } else {
      InvalidateEachOnlyDrops(st, accounts[..|accounts| - 1]);
    }
  }

  lemma GroupsUnchanged(w: World, v: World, slot: string)
    requires GroupsInv(w, slot) && v.now == w.now
    requires Log(v.groupFiles, slot) == Log(w.groupFiles, slot) && Log(v.groupSent, slot) == Log(w.groupSent, slot)
    ensures GroupsInv(v, slot)
  {
  }

  /** What a send stores: the log from the cutoff on, and the send, which counts. */
  lemma SendLogs(w: World, slot: string, kind: string)
    requires Valid(w.resets, w.now) && slot != ""
    ensures var v, cutoff, event := AfterSend(w, slot, kind), Cutoff(w, slot), S.Event(w.now, S.NormalizeKind(kind));
            var stored := Filter(Log(w.sends.files, slot), Since(cutoff)) + [event];
            && Cutoff(v, slot) == cutoff && cutoff <= w.now && v.now == w.now
            && Log(v.sends.files, slot) == stored && Log(v.sent, slot) == Log(w.sent, slot) + [event]
            && Filter(stored, Since(cutoff)) == stored
            && slot in v.sends.cache && v.sends.cache[slot].counts.total == |stored|
            && slot in v.cachedCutoff && v.cachedCutoff[slot] == cutoff
  {
    var cutoff := Cutoff(w, slot);
    CutoffIsLatest(w.resets, slot, w.now);
    FilterMembers(Log(w.sends.files, slot), Since(cutoff));
    FilterAll(Filter(Log(w.sends.files, slot), Since(cutoff)) + [S.Event(w.now, S.NormalizeKind(kind))], Since(cutoff));
  }

  lemma SendsAfterSend(w: World, slot: string, kind: string)
    requires Valid(w.resets, w.now) && SendsInv(w, slot) && slot != ""
    ensures SendsInv(AfterSend(w, slot, kind), slot)
  {
    var cutoff, event := Cutoff(w, slot), S.Event(w.now, S.NormalizeKind(kind));
    SendLogs(w, slot, kind);
    AgreeAfterAppend(Log(w.sends.files, slot), Log(w.sent, slot), Since(cutoff), Since(cutoff), event);
  }

  lemma SendStep(w: World, slot: string, kind: string)
    requires Valid(w.resets, w.now) && SlotInv(w, slot) && slot != ""
    ensures SlotInv(AfterSend(w, slot, kind), slot)
  {
    SendsAfterSend(w, slot, kind);
    GroupsUnchanged(w, AfterSend(w, slot, kind), slot);
  }

  /** What a count leaves stored and cached. */
  lemma CountLogs(w: World, slot: string, filter: Option<S.Kind>)
    ensures var v, cutoff := AfterCount(w, slot, filter), Cutoff(w, slot);
            var stored := Log(w.sends.files, slot);
            && Cutoff(v, slot) == cutoff && v.now == w.now && v.sent == w.sent
            && (Log(v.sends.files, slot) == stored || Log(v.sends.files, slot) == Filter(stored, Since(cutoff)))
            && (slot in v.sends.cache ==>
                  || (slot in w.sends.cache && v.sends.cache[slot] == w.sends.cache[slot]
                      && v.cachedCutoff == w.cachedCutoff)
                  || (v.sends.cache[slot].counts.total == Count(stored, Since(cutoff))
                      && slot in v.cachedCutoff && v.cachedCutoff[slot] == cutoff))
  {
  }

  lemma SendsAfterCount(w: World, slot: string, filter: Option<S.Kind>)
    requires SendsInv(w, slot)
    ensures SendsInv(AfterCount(w, slot, filter), slot)
  {
    var cutoff, stored := Cutoff(w, slot), Log(w.sends.files, slot);
    CountLogs(w, slot, filter);
    FilterMembers(stored, Since(cutoff));
    FilterOfFilter(stored, Since(cutoff), Since(cutoff));
  }

  lemma CountStep(w: World, slot: string, filter: Option<S.Kind>)
    requires SlotInv(w, slot)
    ensures SlotInv(AfterCount(w, slot, filter), slot)
  {
    SendsAfterCount(w, slot, filter);
    GroupsUnchanged(w, AfterCount(w, slot, filter), slot);
  }

  lemma GroupSendLogs(w: World, slot: string, group: string)
    requires slot != "" && G.NormalizeGroup(group) != ""
    ensures var v, event := AfterGroupSend(w, slot, group), G.GroupEvent(G.NormalizeGroup(group), w.now);
            && Log(v.groupFiles, slot) == Filter(Log(w.groupFiles, slot), G.SentSince(w.now - G.RETAIN)) + [event]
            && Log(v.groupSent, slot) == Log(w.groupSent, slot) + [event]
            && Strip(event.group) != "" && v.now == w.now
  {
    G.NormalizedIsStripped(group);
  }

  lemma GroupsAfterSend(w: World, slot: string, group: string)
    requires GroupsInv(w, slot) && 0 < w.now && slot != "" && G.NormalizeGroup(group) != ""
    ensures GroupsInv(AfterGroupSend(w, slot, group), slot)
  {
    GroupSendLogs(w, slot, group);
    AgreeAfterAppend(Log(w.groupFiles, slot), Log(w.groupSent, slot), G.SentSince(w.now - G.RETAIN),
                     G.SentSince(w.now - G.RETAIN), G.GroupEvent(G.NormalizeGroup(group), w.now));
  }

  lemma SendsAfterGroupSend(w: World, slot: string, group: string)
    requires SendsInv(w, slot)
    ensures SendsInv(AfterGroupSend(w, slot, group), slot)
  {
    var v := AfterGroupSend(w, slot, group);
    assert v.now == w.now && v.resets == w.resets;
    assert v.sends == w.sends && v.sent == w.sent && v.cachedCutoff == w.cachedCutoff;
  }

  lemma GroupSendStep(w: World, slot: string, group: string)
    requires Valid(w.resets, w.now) && SlotInv(w, slot) && slot != "" && G.NormalizeGroup(group) != ""
    ensures SlotInv(AfterGroupSend(w, slot, group), slot)
  {
    SendsAfterGroupSend(w, slot, group);
    GroupsAfterSend(w, slot, group);
  }

  lemma ResetStep(w: World, account: string, skipDebounce: bool, slot: string)
    requires Valid(w.resets, w.now) && SlotInv(w, slot)
    ensures SlotInv(Next(w, Reset(account, skipDebounce)), slot)
    ensures Cutoff(w, slot) <= Cutoff(Next(w, Reset(account, skipDebounce)), slot)
  {
    CutoffNeverMovesBack(w.resets, w.now, w.now, account, [], slot);
    QuietStep(w, Next(w, Reset(account, skipDebounce)), slot);
  }

  lemma AutoResetStep(w: World, slots: seq<string>, slot: string)
    requires Valid(w.resets, w.now) && SlotInv(w, slot)
    ensures SlotInv(AfterAutoReset(w, slots), slot)
    ensures Cutoff(w, slot) <= Cutoff(AfterAutoReset(w, slots), slot)
  {
    CutoffNeverMovesBack(w.resets, w.now, w.now, "", slots, slot);
    InvalidateEachOnlyDrops(w.sends, DueAccounts(w.resets, slots, w.now));
    QuietStep(w, AfterAutoReset(w, slots), slot);
  }

  lemma InvalidateStep(w: World, account: string, slot: string)
    requires SlotInv(w, slot)
    ensures SlotInv(Next(w, Invalidate(account)), slot)
    ensures Cutoff(w, slot) == Cutoff(Next(w, Invalidate(account)), slot)
  {
    QuietStep(w, Next(w, Invalidate(account)), slot);
  }

  lemma AdvanceStep(w: World, elapsed: nat, slot: string)
    requires Valid(w.resets, w.now) && SlotInv(w, slot)
    ensures SlotInv(Next(w, Advance(elapsed)), slot)
    ensures Cutoff(w, slot) <= Cutoff(Next(w, Advance(elapsed)), slot)
  {
    CutoffNeverMovesBack(w.resets, w.now, w.now + elapsed, "", [], slot);
    QuietStep(w, Next(w, Advance(elapsed)), slot);
  }

  /** Whatever happens, to this account or another, the account's files keep what counts. */
  lemma SlotStep(w: World, step: Step, slot: string)
    requires Valid(w.resets, w.now) && SlotInv(w, slot)
    ensures SlotInv(Next(w, step), slot)
    ensures Cutoff(w, slot) <= Cutoff(Next(w, step), slot)
  {
    match step {
      case Advance(elapsed) => AdvanceStep(w, elapsed, slot);
      case Reset(account, skipDebounce) => ResetStep(w, account, skipDebounce, slot);
      case AutoReset(slots) => AutoResetStep(w, slots, slot);
      case Invalidate(account) => InvalidateStep(w, account, slot);
      case Send(s, kind) => SendSlotStep(w, step, slot);
      case Count24h(s, filter) => CountSlotStep(w, step, slot);
      case GroupSend(s, group) => GroupSendSlotStep(w, step, slot);
    }
  }

  lemma SendSlotStep(w: World, step: Step, slot: string)
    requires Valid(w.resets, w.now) && SlotInv(w, slot) && step.Send?
    ensures SlotInv(Next(w, step), slot)
    ensures Cutoff(Next(w, step), slot) == Cutoff(w, slot)
  {
    var v := Next(w, step);
    assert v.resets == w.resets && v.now == w.now;
    if step.slot == slot && slot != "" {
      SendStep(w, slot, step.kind);
    } else {
      QuietStep(w, v, slot);
    }
  }

  lemma CountSlotStep(w: World, step: Step, slot: string)
    requires Valid(w.resets, w.now) && SlotInv(w, slot) && step.Count24h?
    ensures SlotInv(Next(w, step), slot)
    ensures Cutoff(Next(w, step), slot) == Cutoff(w, slot)
  {
    var v := Next(w, step);
    assert v.resets == w.resets && v.now == w.now;
    if step.slot == slot {
      CountStep(w, slot, step.filter);
    } else {
      CountElsewhere(w, step.slot, step.filter, slot);
      QuietStep(w, v, slot);
    }
  }

  lemma CountElsewhere(w: World, other: string, filter: Option<S.Kind>, slot: string)
    requires other != slot
    ensures var v := AfterCount(w, other, filter);
            && Log(v.sends.files, slot) == Log(w.sends.files, slot) && v.groupFiles == w.groupFiles
            && v.sent == w.sent && v.groupSent == w.groupSent
            && (slot in v.sends.cache ==> slot in w.sends.cache && v.sends.cache[slot] == w.sends.cache[slot])
            && (slot in w.cachedCutoff ==> slot in v.cachedCutoff && v.cachedCutoff[slot] == w.cachedCutoff[slot])
  {
  }

  lemma GroupSendSlotStep(w: World, step: Step, slot: string)
    requires Valid(w.resets, w.now) && SlotInv(w, slot) && step.GroupSend?
    ensures SlotInv(Next(w, step), slot)
    ensures Cutoff(Next(w, step), slot) == Cutoff(w, slot)
  {
    var v := Next(w, step);
    assert v.resets == w.resets && v.now == w.now;
    if step.slot == slot && slot != "" && G.NormalizeGroup(step.group) != "" {
      GroupSendStep(w, slot, step.group);
    } else {
      QuietStep(w, v, slot);
    }
  }

  lemma {:induction false} StepKeepsInv(w: World, step: Step)
    requires Inv(w)
    ensures Inv(Next(w, step))
    ensures forall a :: Cutoff(w, a) <= Cutoff(Next(w, step), a)
  {
    forall slot
      ensures SlotInv(Next(w, step), slot) && Cutoff(w, slot) <= Cutoff(Next(w, step), slot)
    {
      SlotStep(w, step, slot);
    }
    StepKeepsValid(w, step);
  }

  lemma StepKeepsValid(w: World, step: Step)
    requires Valid(w.resets, w.now)
    ensures Valid(Next(w, step).resets, Next(w, step).now)
  {
    match step {
      case Reset(account, _) => ResetKeepsValid(w.resets, w.now, account);
      case AutoReset(slots) => AutoResetKeepsValid(w.resets, w.now, slots);
      case _ =>
    }
  }

  lemma {:induction false} RunKeepsInv(w: World, steps: seq<Step>)
    requires Inv(w)
    ensures Inv(Run(w, steps))
    ensures forall a :: Cutoff(w, a) <= Cutoff(Run(w, steps), a)
  {
    if steps == [] {
    } else {
      RunKeepsInv(w, steps[..|steps| - 1]);
      StepKeepsInv(Run(w, steps[..|steps| - 1]), steps[|steps| - 1]);
    }
  }

  lemma FreshInv(now: int)
    requires DAY <= now
    ensures Inv(Fresh(now))
  {
  }

  /** Main result on cutoffs. Over every run they never move back, they stay between the IST day
      start and the present, and no account's cutoff or reset is earlier than the global one. */
  lemma CutoffsOverRuns(start: int, steps: seq<Step>, more: seq<Step>, account: string)
    requires DAY <= start
    ensures var w := Run(Fresh(start), steps);
            var v := Run(w, more);
            && Cutoff(w, account) <= Cutoff(v, account)
            && DayStart(v.now) <= Cutoff(v, account) <= v.now
            && Cutoff(v, "") <= Cutoff(v, account)
            && (account in v.resets.perAccount ==> v.resets.globalTs <= v.resets.perAccount[account])
  {
    FreshInv(start);
    RunKeepsInv(Fresh(start), steps);
    var w := Run(Fresh(start), steps);
    RunKeepsInv(w, more);
    CutoffIsLatest(Run(w, more).resets, account, Run(w, more).now);
  }

  /** Main result on pruning. After any run, counting the pruned files from the current cutoff
      or any later one, for any kind, counts the history that was never pruned. */
  lemma {:induction false} PrunedCountsAreTrueCounts(start: int, steps: seq<Step>, slot: string, cutoff: int,
      filter: Option<S.Kind>)
    requires DAY <= start
    requires Cutoff(Run(Fresh(start), steps), slot) <= cutoff
    ensures var w := Run(Fresh(start), steps);
            && Count(Log(w.sends.files, slot), S.Counted(cutoff, filter)) ==
                Count(Log(w.sent, slot), S.Counted(cutoff, filter))
            && Count(Log(w.groupFiles, slot), G.SentSince(cutoff)) == Count(Log(w.groupSent, slot), G.SentSince(cutoff))
  {
    FreshInv(start);
    RunKeepsInv(Fresh(start), steps);
    CountsAgree(Run(Fresh(start), steps), slot, cutoff, filter);
  }

  lemma CountsAgree(w: World, slot: string, cutoff: int, filter: Option<S.Kind>)
    requires Valid(w.resets, w.now) && SlotInv(w, slot) && Cutoff(w, slot) <= cutoff
    ensures Count(Log(w.sends.files, slot), S.Counted(cutoff, filter)) ==
        Count(Log(w.sent, slot), S.Counted(cutoff, filter))
    ensures Count(Log(w.groupFiles, slot), G.SentSince(cutoff)) == Count(Log(w.groupSent, slot), G.SentSince(cutoff))
  {
    AgreeOnLess(Log(w.sends.files, slot), Log(w.sent, slot), Since(Cutoff(w, slot)), S.Counted(cutoff, filter));
    GroupLogsFromCutoff(w, slot, cutoff);
  }

  /** What `count_24h` answers in a world. */
  function Answer(w: World, slot: string, filter: Option<S.Kind>): nat {
    S.Counted24h(w.sends, w.resets, slot, filter, w.now).1
  }

  function TrueCount(w: World, slot: string, filter: Option<S.Kind>): nat {
    Count(Log(w.sent, slot), S.Counted(Cutoff(w, slot), filter))
  }

  /** A count for one kind is always the true count. A total read from the cache is the true
      count exactly when no send lies between the cutoff it was taken under and the present one. */
  lemma Count24hIsTrueUnlessStale(start: int, steps: seq<Step>, slot: string, filter: Option<S.Kind>)
    requires DAY <= start && slot != ""
    ensures var w := Run(Fresh(start), steps);
            && (filter.Some? || !S.CacheFresh(w.sends, slot, w.now) ==>
                Answer(w, slot, filter) == TrueCount(w, slot, filter))
            && (filter == None && S.CacheFresh(w.sends, slot, w.now) ==>
                  && slot in w.cachedCutoff
                  && TrueCount(w, slot, None) <= Answer(w, slot, None)
                  && (Answer(w, slot, None) == TrueCount(w, slot, None) <==>
                      !exists e :: e in Log(w.sent, slot) && w.cachedCutoff[slot] <= e.t < Cutoff(w, slot)))
  {
    FreshInv(start);
    RunKeepsInv(Fresh(start), steps);
    var w := Run(Fresh(start), steps);
    assert SlotInv(w, slot);
    if filter == None && S.CacheFresh(w.sends, slot, w.now) {
      StaleCache(w, slot);
    } else {
      ComputedAnswer(w, slot, filter);
    }
  }

  lemma ComputedAnswer(w: World, slot: string, filter: Option<S.Kind>)
    requires Valid(w.resets, w.now) && SlotInv(w, slot) && slot != ""
    requires filter.Some? || !S.CacheFresh(w.sends, slot, w.now)
    ensures Answer(w, slot, filter) == TrueCount(w, slot, filter)
  {
    CountsAgree(w, slot, Cutoff(w, slot), filter);
  }

  lemma StaleCache(w: World, slot: string)
    requires SlotInv(w, slot) && slot != "" && S.CacheFresh(w.sends, slot, w.now)
    ensures slot in w.cachedCutoff && TrueCount(w, slot, None) <= Answer(w, slot, None)
    ensures Answer(w, slot, None) == TrueCount(w, slot, None) <==>
            !exists e :: e in Log(w.sent, slot) && w.cachedCutoff[slot] <= e.t < Cutoff(w, slot)
  {
    var sent, earlier, current := Log(w.sent, slot), Since(w.cachedCutoff[slot]), Since(Cutoff(w, slot));
    CountMonotone(sent, current, earlier);
    CountEqualIff(sent, current, earlier);
    assert forall e :: e in sent ==> (current(e) == earlier(e) <==> !(w.cachedCutoff[slot] <= e.t < Cutoff(w, slot)));
  }

  /** The stale total is reachable: one send, an account reset a second later with the cache
      invalidated for that account, and the total still says one. */
  lemma ResetLeavesStaleTotal(start: int)
    requires DAY <= start
    ensures var w := Run(Fresh(start), [Send("account1", "forward"), Advance(1000),
                                        Reset("account1", false), Invalidate("account1")]);
            Answer(w, "account1", None) == 1 && TrueCount(w, "account1", None) == 0
  {
    var slot := "account1";
    var w0 := Fresh(start);
    var w1 := AfterSend(w0, slot, "forward");
    var w2 := w1.(now := start + 1000);
    var w3 := Next(w2, Reset(slot, false));
    var w4 := Next(w3, Invalidate(slot));
    var s1 := [Send(slot, "forward")];
    var s2, s3 := s1 + [Advance(1000)], s1 + [Advance(1000)] + [Reset(slot, false)];
    assert [] + s1 == s1;
    RunSnoc(w0, [], Send(slot, "forward"));
    RunSnoc(w0, s1, Advance(1000));
    RunSnoc(w0, s2, Reset(slot, false));
    RunSnoc(w0, s3, Invalidate(slot));
    assert s3 + [Invalidate(slot)] == [Send(slot, "forward"), Advance(1000), Reset(slot, false), Invalidate(slot)];
    assert Log(w4.sent, slot) == [S.Event(start, S.Forward)];
    assert Cutoff(w4, slot) == start + 1000 by {
      CutoffIsLatest(w4.resets, slot, w4.now);
    }
    assert w1.sends.cache[slot].counts.total == 1;
    assert slot in w4.sends.cache && w4.sends.cache[slot] == w1.sends.cache[slot];
  }

  /** The number `record_send` returns: all sends of that kind in the window, the new one included. */
  lemma RecordedCountIsTrue(start: int, steps: seq<Step>, slot: string, kind: string)
    requires DAY <= start && slot != ""
    ensures var w := Run(Fresh(start), steps + [Send(slot, kind)]);
            var filter := Some(S.NormalizeKind(kind));
            Count(w.sends.files[slot], S.Counted(Cutoff(w, slot), filter)) == TrueCount(w, slot, filter) >= 1
  {
    var all := steps + [Send(slot, kind)];
    FreshInv(start);
    RunKeepsInv(Fresh(start), all);
    var w := Run(Fresh(start), all);
    assert all[..|steps|] == steps;
    var v := Run(Fresh(start), steps);
    assert w == AfterSend(v, slot, kind);
    RunKeepsInv(Fresh(start), steps);
    CutoffIsLatest(v.resets, slot, v.now);
    assert Cutoff(w, slot) == Cutoff(v, slot);
    CountsAgree(w, slot, Cutoff(w, slot), Some(S.NormalizeKind(kind)));
    var filter := Some(S.NormalizeKind(kind));
    FilterSnoc(Log(v.sent, slot), S.Event(v.now, S.NormalizeKind(kind)), S.Counted(Cutoff(w, slot), filter));
  }

  /** Every hourly bucket that begins at or after the cutoff shows the true number of sends. */
  lemma RecentBucketsAreTrue(start: int, steps: seq<Step>, slot: string, n: nat, b: nat)
    requires DAY <= start && b < n
    ensures var w := Run(Fresh(start), steps);
            Cutoff(w, slot) <= w.now - (n - b) * HOUR + 1 ==>
              Count(Log(w.sends.files, slot), S.InBucket(w.now, n, b)) ==
                  Count(Log(w.sent, slot), S.InBucket(w.now, n, b))
  {
    FreshInv(start);
    RunKeepsInv(Fresh(start), steps);
    var w := Run(Fresh(start), steps);
    assert SlotInv(w, slot);
    if Cutoff(w, slot) <= w.now - (n - b) * HOUR + 1 {
      AgreeOnLess(Log(w.sends.files, slot), Log(w.sent, slot), Since(Cutoff(w, slot)), S.InBucket(w.now, n, b));
    }
  }

  function TrueGroupTotal(w: World): string -> int {
    (slot: string) => Count(Log(w.groupSent, slot), G.SentSince(Cutoff(w, slot)))
  }

  /** The matrix loses nothing to retention: for distinct accounts its grand total is the sum of
      its rows, and the number of group sends in the full history since each account's cutoff. */
  lemma MatrixCountsHistory(start: int, steps: seq<Step>, slots: seq<string>, groups: seq<string>)
    requires DAY <= start && NoRepeats(slots)
    requires var w := Run(Fresh(start), steps); G.Lists(groups, G.Source(w.groupFiles, w.resets, w.now), slots)
    ensures var w := Run(Fresh(start), steps);
            var src := G.Source(w.groupFiles, w.resets, w.now);
            && SumOver(Distinct(slots), G.AccountTotalOf(src)) == SumOver(groups, G.RowTotalOf(src, slots))
            && SumOver(Distinct(slots), G.AccountTotalOf(src)) == SumOver(slots, TrueGroupTotal(w))
  {
    FreshInv(start);
    RunKeepsInv(Fresh(start), steps);
    var w := Run(Fresh(start), steps);
    var src := G.Source(w.groupFiles, w.resets, w.now);
    G.GrandTotalIsRowSum(src, slots, groups);
    DistinctFixed(slots);
    forall slot
      ensures src.AccountTotal(slot) == TrueGroupTotal(w)(slot)
    {
      assert SlotInv(w, slot);
      CountsAgree(w, slot, Cutoff(w, slot), None);
      G.AllNamedAreShown(Log(w.groupFiles, slot), Cutoff(w, slot));
    }
    SumOverExt(slots, G.AccountTotalOf(src), TrueGroupTotal(w));
  }
}
