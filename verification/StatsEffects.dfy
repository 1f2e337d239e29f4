/** What sends, counts, resets and rollovers bring about, in terms of the history and of plain times. */
module StatsEffects {
  import opened Wrappers
  import opened IstTime
  import opened Sequences
  import opened StatsReset
  import opened Text
  import S = SendStats
  import G = GroupSendStats
  import opened StatsWindow

  /** Counting by going through the log. */
  function CountSince(log: seq<S.Event>, cutoff: int, filter: Option<S.Kind>): nat {
    if log == [] then 0
    else
      var last := log[|log| - 1];
      CountSince(log[..|log| - 1], cutoff, filter) +
      if last.t >= cutoff && (filter == None || filter == Some(last.kind)) then 1 else 0
  }

  lemma {:induction false} CountIsPlain(log: seq<S.Event>, cutoff: int, filter: Option<S.Kind>)
    ensures Count(log, S.Counted(cutoff, filter)) == CountSince(log, cutoff, filter)
  {
    if log == [] {
    } else {
      CountIsPlain(log[..|log| - 1], cutoff, filter);
    }
  }

  lemma {:induction false} KindsAddUp(log: seq<S.Event>, cutoff: int)
    ensures CountSince(log, cutoff, None) ==
            CountSince(log, cutoff, Some(S.Campaign)) + CountSince(log, cutoff, Some(S.Forward))
  {
    if log == [] {
    } else {
      KindsAddUp(log[..|log| - 1], cutoff);
      assert log[|log| - 1].kind == S.Campaign || log[|log| - 1].kind == S.Forward;
    }
  }

  /** The sends of an account since its cutoff in the full history. */
  function Sends(w: World, slot: string, filter: Option<S.Kind>): nat {
    CountSince(Log(w.sent, slot), Cutoff(w, slot), filter)
  }

  /** No cached total is from the future. */
  ghost predicate CachedBefore(w: World) {
    forall slot :: slot in w.sends.cache ==> w.sends.cache[slot].at <= w.now
  }

  lemma AutoResetOnlyDropsTotals(w: World, slots: seq<string>)
    requires CachedBefore(w)
    ensures CachedBefore(AfterAutoReset(w, slots))
  {
    InvalidateEachOnlyDrops(w.sends, DueAccounts(w.resets, slots, w.now));
  }

  lemma StepKeepsCachedBefore(w: World, step: Step)
    requires CachedBefore(w)
    ensures CachedBefore(Next(w, step))
  {
    match step {
      case AutoReset(slots) => AutoResetOnlyDropsTotals(w, slots);
      case Send(slot, kind) => SendCachesNow(w, slot, kind);
      case Count24h(slot, filter) => CountCachesNow(w, slot, filter);
      case _ =>
    }
  }

  lemma SendCachesNow(w: World, slot: string, kind: string)
    requires CachedBefore(w)
    ensures CachedBefore(AfterSend(w, slot, kind))
  {
  }

  lemma CountCachesNow(w: World, slot: string, filter: Option<S.Kind>)
    requires CachedBefore(w)
    ensures CachedBefore(AfterCount(w, slot, filter))
  {
  }

  lemma {:induction false} RunIsSound(start: int, steps: seq<Step>)
    requires DAY <= start
    ensures Inv(Run(Fresh(start), steps)) && CachedBefore(Run(Fresh(start), steps))
  {
    FreshInv(start);
    RunKeepsInv(Fresh(start), steps);
    if steps == [] {
    } else {
      RunIsSound(start, steps[..|steps| - 1]);
      StepKeepsCachedBefore(Run(Fresh(start), steps[..|steps| - 1]), steps[|steps| - 1]);
    }
  }

  /** An answer is the number of sends, unless a total is asked for that was cached less than half a
      minute ago; then it is the cached one. */
  lemma AnswerIs(w: World, slot: string, filter: Option<S.Kind>)
    requires Inv(w) && slot != ""
    ensures Answer(w, slot, filter) ==
            if filter == None && slot in w.sends.cache && w.now - w.sends.cache[slot].at < 30 * 1000
            then w.sends.cache[slot].counts.total else Sends(w, slot, filter)
  {
    assert SlotInv(w, slot);
    CountIsPlain(Log(w.sent, slot), Cutoff(w, slot), filter);
    if filter.Some? || !S.CacheFresh(w.sends, slot, w.now) {
      ComputedAnswer(w, slot, filter);
    }
  }

  /** Main result on kinds. After every run, a count by kind is the number of sends of that kind since the
      cutoff in the full history, and the two kinds make up all sends. */
  lemma {:induction false} KindedCountsAreTrue(start: int, steps: seq<Step>, slot: string, kind: S.Kind)
    requires DAY <= start && slot != ""
    ensures var w := Run(Fresh(start), steps);
            && Answer(w, slot, Some(kind)) == Sends(w, slot, Some(kind))
            && Sends(w, slot, None) == Sends(w, slot, Some(S.Campaign)) + Sends(w, slot, Some(S.Forward))
  {
    RunIsSound(start, steps);
    AnswerIs(Run(Fresh(start), steps), slot, Some(kind));
    KindsAddUp(Log(Run(Fresh(start), steps).sent, slot), Cutoff(Run(Fresh(start), steps), slot));
  }

  lemma CountSinceSnoc(log: seq<S.Event>, e: S.Event, cutoff: int, filter: Option<S.Kind>)
    ensures CountSince(log + [e], cutoff, filter) ==
            CountSince(log, cutoff, filter) +
            if e.t >= cutoff && (filter == None || filter == Some(e.kind)) then 1 else 0
  {
    assert (log + [e])[..|log|] == log;
  }

  /** A send named "forward" counts as a forward, every other one as a campaign post, for its own account. */
  lemma {:induction false} SendCountsOnce(start: int, steps: seq<Step>, slot: string, kind: string, other: string)
    requires DAY <= start && slot != "" && other != ""
    ensures var w := Run(Fresh(start), steps);
            var v := Next(w, Send(slot, kind));
            && Answer(v, other, Some(S.Forward)) ==
               Answer(w, other, Some(S.Forward)) + (if other == slot && kind == "forward" then 1 else 0)
            && Answer(v, other, Some(S.Campaign)) ==
               Answer(w, other, Some(S.Campaign)) + (if other == slot && kind != "forward" then 1 else 0)
  {
    RunIsSound(start, steps);
    SendCountsIn(Run(Fresh(start), steps), slot, kind, other, S.Forward);
    SendCountsIn(Run(Fresh(start), steps), slot, kind, other, S.Campaign);
  }

  lemma SendCountsIn(w: World, slot: string, kind: string, other: string, counted: S.Kind)
    requires Inv(w) && slot != "" && other != ""
    ensures Answer(Next(w, Send(slot, kind)), other, Some(counted)) ==
            Answer(w, other, Some(counted)) +
            if other == slot && (counted == S.Forward <==> kind == "forward") then 1 else 0
  {
    var v := Next(w, Send(slot, kind));
    StepKeepsInv(w, Send(slot, kind));
    AnswerIs(w, other, Some(counted));
    AnswerIs(v, other, Some(counted));
    HistoryAfterSend(w, slot, kind, other, counted);
  }

  lemma HistoryAfterSend(w: World, slot: string, kind: string, other: string, counted: S.Kind)
    requires Valid(w.resets, w.now) && slot != ""
    ensures Sends(Next(w, Send(slot, kind)), other, Some(counted)) ==
            Sends(w, other, Some(counted)) +
            if other == slot && (counted == S.Forward <==> kind == "forward") then 1 else 0
  {
    var event := S.Event(w.now, S.NormalizeKind(kind));
    CutoffIsLatest(w.resets, slot, w.now);
    assert Log(AfterSend(w, slot, kind).sent, other) == Log(w.sent, other) + if other == slot then [event] else [];
    if other == slot {
      CountSinceSnoc(Log(w.sent, slot), event, Cutoff(w, slot), Some(counted));
    }
  }

  /** Main result on staleness. Half a minute without a send or count makes every total true. */
  lemma {:induction false} TotalsExpire(start: int, steps: seq<Step>, slot: string, elapsed: nat)
    requires DAY <= start && slot != "" && elapsed >= 30 * 1000
    ensures var w := Next(Run(Fresh(start), steps), Advance(elapsed));
            Answer(w, slot, None) == Sends(w, slot, None)
  {
    RunIsSound(start, steps);
    StepKeepsInv(Run(Fresh(start), steps), Advance(elapsed));
    AnswerIs(Next(Run(Fresh(start), steps), Advance(elapsed)), slot, None);
  }

  /** Until then the total is that of the last send, whatever is reset in between. */
  lemma {:induction false} TotalsAreHeld(start: int, steps: seq<Step>, slot: string, kind: string, elapsed: nat,
      account: string)
    requires DAY <= start && slot != "" && elapsed < 30 * 1000
    ensures var v := Next(Run(Fresh(start), steps), Send(slot, kind));
            var later := Next(Next(v, Advance(elapsed)), Reset(account, true));
            Answer(later, slot, None) == Sends(v, slot, None)
  {
    var w := Run(Fresh(start), steps);
    RunIsSound(start, steps);
    var v := Next(w, Send(slot, kind));
    StepKeepsInv(w, Send(slot, kind));
    StepKeepsInv(v, Advance(elapsed));
    StepKeepsInv(Next(v, Advance(elapsed)), Reset(account, true));
    AnswerIs(Next(Next(v, Advance(elapsed)), Reset(account, true)), slot, None);
    HeldTotal(w, slot, kind);
  }

  lemma HeldTotal(w: World, slot: string, kind: string)
    requires Inv(w) && slot != ""
    ensures var v := Next(w, Send(slot, kind));
            && slot in v.sends.cache && v.sends.cache[slot].at == w.now
            && v.sends.cache[slot].counts.total == Sends(v, slot, None)
  {
    var v := Next(w, Send(slot, kind));
    StepKeepsInv(w, Send(slot, kind));
    assert SlotInv(v, slot);
    SendLogs(w, slot, kind);
    CountIsPlain(Log(v.sent, slot), Cutoff(v, slot), None);
  }

  /** A count that finds no recent total takes one, which is held as well. */
  lemma {:induction false} CountsAreHeld(start: int, steps: seq<Step>, slot: string, elapsed: nat)
    requires DAY <= start && slot != "" && elapsed < 30 * 1000
    ensures var w := Next(Run(Fresh(start), steps), Advance(30 * 1000));
            Answer(Next(Next(w, Count24h(slot, None)), Advance(elapsed)), slot, None) == Sends(w, slot, None)
  {
    var w := Next(Run(Fresh(start), steps), Advance(30 * 1000));
    RunIsSound(start, steps);
    StepKeepsInv(Run(Fresh(start), steps), Advance(30 * 1000));
    AnswerIs(w, slot, None);
    var v := Next(w, Count24h(slot, None));
    StepKeepsInv(w, Count24h(slot, None));
    StepKeepsInv(v, Advance(elapsed));
    AnswerIs(Next(v, Advance(elapsed)), slot, None);
    assert v.sends.cache[slot].at == w.now && v.sends.cache[slot].counts.total == Answer(w, slot, None);
  }

  /** Invalidating everything makes every total true; invalidating one account does so only for an account
      whose name is a single character, the first of the key, and leaves all other totals. */
  lemma {:induction false} InvalidationClears(start: int, steps: seq<Step>, account: string, slot: string)
    requires DAY <= start && slot != ""
    ensures var w := Run(Fresh(start), steps);
            var v := Next(w, Invalidate(account));
            Answer(v, slot, None) ==
            if account == "" || account == [slot[0]] then Sends(w, slot, None) else Answer(w, slot, None)
  {
    var w := Run(Fresh(start), steps);
    RunIsSound(start, steps);
    StepKeepsInv(w, Invalidate(account));
    AnswerIs(w, slot, None);
    AnswerIs(Next(w, Invalidate(account)), slot, None);
  }

  /** A log that is pruned and appended to is the pruned history. */
  lemma PrunedIsPrunedHistory<E>(stored: seq<E>, sent: seq<E>, since: E -> bool, event: E)
    requires Filter(stored, since) == Filter(sent, since) && since(event)
    ensures Filter(stored, since) + [event] == Filter(sent + [event], since)
  {
    FilterSnoc(sent, event, since);
  }

  /** After a send the log is exactly the history since the cutoff. */
  lemma {:induction false} SendPrunesToCutoff(start: int, steps: seq<Step>, slot: string, kind: string)
    requires DAY <= start && slot != ""
    ensures var v := Next(Run(Fresh(start), steps), Send(slot, kind));
            Log(v.sends.files, slot) == Filter(Log(v.sent, slot), Since(Cutoff(v, slot)))
  {
    RunIsSound(start, steps);
    SendPrunes(Run(Fresh(start), steps), slot, kind);
  }

  lemma SendPrunes(w: World, slot: string, kind: string)
    requires Inv(w) && slot != ""
    ensures var v := AfterSend(w, slot, kind);
            Log(v.sends.files, slot) == Filter(Log(v.sent, slot), Since(Cutoff(v, slot)))
  {
    assert SlotInv(w, slot);
    SendLogs(w, slot, kind);
    var event := S.Event(w.now, S.NormalizeKind(kind));
    PrunedIsPrunedHistory(Log(w.sends.files, slot), Log(w.sent, slot), Since(Cutoff(w, slot)), event);
  }

  ghost predicate HoldsEightDays(w: World, slot: string) {
    Log(w.groupFiles, slot) == Filter(Log(w.groupSent, slot), G.SentSince(w.now - 8 * DAY))
  }

  /** After a group send the log is exactly the history of the last eight days. */
  lemma {:induction false} GroupSendPrunesToEightDays(start: int, steps: seq<Step>, slot: string, group: string)
    requires DAY <= start && slot != "" && G.NormalizeGroup(group) != ""
    ensures HoldsEightDays(Next(Run(Fresh(start), steps), GroupSend(slot, group)), slot)
  {
    var w := Run(Fresh(start), steps);
    assert SlotInv(w, slot) by { RunIsSound(start, steps); }
    var event := G.GroupEvent(G.NormalizeGroup(group), w.now);
    GroupSendLogs(w, slot, group);
    GroupSendPrunes(w, AfterGroupSend(w, slot, group), slot, event);
  }

  lemma GroupSendPrunes(w: World, v: World, slot: string, event: G.GroupEvent)
    requires GroupsInv(w, slot) && v.now == w.now == event.t
    requires Log(v.groupFiles, slot) == Filter(Log(w.groupFiles, slot), G.SentSince(w.now - G.RETAIN)) + [event]
    requires Log(v.groupSent, slot) == Log(w.groupSent, slot) + [event]
    ensures HoldsEightDays(v, slot)
  {
    assert w.now - G.RETAIN == w.now - 8 * DAY;
    PrunedIsPrunedHistory(Log(w.groupFiles, slot), Log(w.groupSent, slot), G.SentSince(w.now - G.RETAIN), event);
  }

  /** The matrix cell of a group and an account. */
  function Cell(w: World, group: string, slot: string): nat {
    G.Source(w.groupFiles, w.resets, w.now).Cell(group, slot)
  }

  /** Main result on cells. After every run, a cell of the matrix is the number of sends of the account to
      that group since its cutoff in the full history. */
  lemma {:induction false} CellsAreTrue(start: int, steps: seq<Step>, group: string, slot: string)
    requires DAY <= start && group != ""
    ensures var w := Run(Fresh(start), steps);
            Cell(w, group, slot) == Count(Log(w.groupSent, slot), G.ToGroup(Cutoff(w, slot), group))
  {
    RunIsSound(start, steps);
    CellIs(Run(Fresh(start), steps), group, slot);
  }

  lemma CellIs(w: World, group: string, slot: string)
    requires Inv(w) && group != ""
    ensures Cell(w, group, slot) == Count(Log(w.groupSent, slot), G.ToGroup(Cutoff(w, slot), group))
  {
    assert SlotInv(w, slot);
    var cutoff := Cutoff(w, slot);
    G.ShownAsOftenAsSent(Log(w.groupFiles, slot), cutoff, group);
    GroupLogsFromCutoff(w, slot, cutoff);
    AgreeOnLess(Log(w.groupFiles, slot), Log(w.groupSent, slot), G.SentSince(cutoff), G.ToGroup(cutoff, group));
  }

  /** A group send raises the cell of its group and account by one and no other cell. */
  lemma {:induction false} GroupSendCountsOnce(start: int, steps: seq<Step>, slot: string, name: string,
      group: string, other: string)
    requires DAY <= start && slot != "" && group != ""
    ensures var w := Run(Fresh(start), steps);
            Cell(Next(w, GroupSend(slot, name)), group, other) ==
            Cell(w, group, other) + if other == slot && group == G.NormalizeGroup(name) then 1 else 0
  {
    var w := Run(Fresh(start), steps);
    RunIsSound(start, steps);
    StepKeepsInv(w, GroupSend(slot, name));
    CellIs(w, group, other);
    CellIs(Next(w, GroupSend(slot, name)), group, other);
    HistoryAfterGroupSend(w, slot, name, group, other);
  }

  lemma HistoryAfterGroupSend(w: World, slot: string, name: string, group: string, other: string)
    requires Valid(w.resets, w.now) && slot != "" && group != ""
    ensures var v, cutoff := Next(w, GroupSend(slot, name)), Cutoff(w, other);
            && Cutoff(v, other) == cutoff
            && Count(Log(v.groupSent, other), G.ToGroup(cutoff, group)) ==
               Count(Log(w.groupSent, other), G.ToGroup(cutoff, group)) +
               if other == slot && group == G.NormalizeGroup(name) then 1 else 0
  {
    if other == slot && G.NormalizeGroup(name) != "" {
      CutoffIsLatest(w.resets, slot, w.now);
      GroupSendLogs(w, slot, name);
      G.NormalizedIsStripped(name);
      var event := G.GroupEvent(G.NormalizeGroup(name), w.now);
      FilterSnoc(Log(w.groupSent, slot), event, G.ToGroup(Cutoff(w, slot), group));
    }
  }

  /** A reset takes effect unless the same account was reset less than two seconds before: it moves the
      cutoff of the account, or of all, to the present, and no other. */
  lemma {:induction false} ResetTakesEffect(start: int, steps: seq<Step>, account: string, elapsed: nat, any: string)
    requires DAY <= start && account != GLOBAL_KEY
    ensures var first := Next(Run(Fresh(start), steps), Reset(account, true));
            var w := Next(first, Advance(elapsed));
            var v := Next(w, Reset(account, false));
            Cutoff(v, any) == if elapsed >= 2000 && (account == "" || any == account) then w.now else Cutoff(w, any)
  {
    RunIsSound(start, steps);
    var first := Next(Run(Fresh(start), steps), Reset(account, true));
    StepKeepsInv(Run(Fresh(start), steps), Reset(account, true));
    StepKeepsInv(first, Advance(elapsed));
    ResetMovesCutoffToNow(Next(first, Advance(elapsed)).resets, Next(first, Advance(elapsed)).now, account, any);
  }

  /** The first reset of an account takes effect as well. */
  lemma {:induction false} FirstResetTakesEffect(start: int, steps: seq<Step>, account: string, any: string)
    requires DAY <= start
    ensures var w := Run(Fresh(start), steps);
            DebounceKey(account) !in w.lastReset ==>
              Cutoff(Next(w, Reset(account, false)), any) ==
              if account == "" || any == account then w.now else Cutoff(w, any)
  {
    RunIsSound(start, steps);
    var w := Run(Fresh(start), steps);
    ResetMovesCutoffToNow(w.resets, w.now, account, any);
  }

  /** Main result on rollovers. In every run a poll restarts the count of an account exactly when the global
      reset, or else its own one, is on file for 24 hours, and leaves every other cutoff. */
  lemma {:induction false} RolloverRestartsIff(start: int, steps: seq<Step>, slots: seq<string>, account: string)
    requires DAY <= start
    ensures var w := Run(Fresh(start), steps);
            var whole := slots != [] && w.resets.globalTs > 0 && w.now - w.resets.globalTs >= 24 * HOUR;
            Cutoff(Next(w, AutoReset(slots)), account) ==
            if whole || (account in slots && DayOld(w.resets, account, w.now)) then w.now else Cutoff(w, account)
  {
    RunIsSound(start, steps);
    var w := Run(Fresh(start), steps);
    RolloverIff(w.resets, slots, w.now);
    AutoResetKeepsValid(w.resets, w.now, slots);
    CutoffIsLatest(w.resets, account, w.now);
    CutoffIsLatest(Next(w, AutoReset(slots)).resets, account, w.now);
  }

  /** A rollover of everything also makes every total true. */
  lemma {:induction false} WholeRolloverClears(start: int, steps: seq<Step>, slots: seq<string>, slot: string)
    requires DAY <= start && slot != "" && slots != []
    ensures var w := Run(Fresh(start), steps);
            var v := Next(w, AutoReset(slots));
            w.resets.globalTs > 0 && w.now - w.resets.globalTs >= 24 * HOUR ==>
              Answer(v, slot, None) == Sends(v, slot, None)
  {
    RunIsSound(start, steps);
    var w := Run(Fresh(start), steps);
    StepKeepsInv(w, AutoReset(slots));
    RolloverIff(w.resets, slots, w.now);
    AnswerIs(Next(w, AutoReset(slots)), slot, None);
  }
}
