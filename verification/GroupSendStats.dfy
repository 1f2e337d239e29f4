/** Per-group send counts of each account since the account's own cutoff. */
module GroupSendStats {
  import opened IstTime
  import opened Sequences
  import opened StatsReset
  import opened Text

  const RETAIN := 8 * DAY

  datatype GroupEvent = GroupEvent(group: string, t: int)

  type Files = map<string, seq<GroupEvent>>

  function NormalizeGroup(group: string): (name: string)
    ensures name == "" || (!IsSpace(name[0]) && !IsSpace(name[|name| - 1]))
    ensures name != "" ==> name[0] == '@'
    ensures name == "" <==> Strip(group) == ""
  {
    var g := Strip(group);
    if g == "" then ""
    else if !StartsWith(g, "@") then "@" + DropAts(g)
    else g
  }

  function SentSince(cutoff: int): GroupEvent -> bool {
    (e: GroupEvent) => e.t >= cutoff
  }

  function RecordedGroupSend(files: Files, slot: string, group: string, now: int): Files {
    var g := NormalizeGroup(group);
    if slot == "" || g == "" then files
    else files[slot := Filter(Log(files, slot), SentSince(now - RETAIN)) + [GroupEvent(g, now)]]
  }

  lemma NormalizedIsStripped(group: string)
    ensures Strip(NormalizeGroup(group)) == NormalizeGroup(group)
  {
    StripFixed(NormalizeGroup(group));
  }

  /** The groups of the events the matrix counts, one entry an event: those at or after the
      cutoff whose group name is not blank. */
  function ShownGroups(events: seq<GroupEvent>, cutoff: int): seq<string> {
    if events == [] then []
    else
      var rest, last := ShownGroups(events[..|events| - 1], cutoff), events[|events| - 1];
      if last.t >= cutoff && Strip(last.group) != "" then rest + [Strip(last.group)] else rest
  }

  /** Events with proper group names are all shown from the cutoff on. */
  lemma {:induction false} AllNamedAreShown(events: seq<GroupEvent>, cutoff: int)
    requires forall e :: e in events ==> Strip(e.group) != ""
    ensures |ShownGroups(events, cutoff)| == Count(events, SentSince(cutoff))
  {
    if events == [] {
    } else {
      AllNamedAreShown(events[..|events| - 1], cutoff);
    }
  }

  /** An event at or after the cutoff whose group name, trimmed, is the given one. */
  function ToGroup(cutoff: int, group: string): GroupEvent -> bool {
    (e: GroupEvent) => e.t >= cutoff && Strip(e.group) == group
  }

  /** Each group is shown as often as it was sent to since the cutoff. */
  lemma {:induction false} ShownAsOftenAsSent(events: seq<GroupEvent>, cutoff: int, group: string)
    requires group != ""
    ensures multiset(ShownGroups(events, cutoff))[group] == Count(events, ToGroup(cutoff, group))
  {
    if events == [] {
    } else {
      ShownAsOftenAsSent(events[..|events| - 1], cutoff, group);
    }
  }

  /** A blank name stays blank; any other is trimmed and gets an @ in front unless it has one. */
  lemma NormalizedGroupIs(group: string)
    ensures var s := Strip(group);
            NormalizeGroup(group) == if s == "" || s[0] == '@' then s else "@" + s
  {
  }

  /** What the matrix is computed from. */
  datatype Source = Source(files: Files, resets: Resets, now: int) {
    function Names(slot: string): seq<string> {
      ShownGroups(Log(files, slot), EffectiveCutoff(resets, slot, now))
    }

    function Cell(group: string, slot: string): nat {
      multiset(Names(slot))[group]
    }

    function AccountTotal(slot: string): nat {
      |Names(slot)|
    }
  }

  datatype Matrix = Matrix(
    groups: seq<string>,
    counts: map<string, map<string, int>>,
    rowTotals: seq<int>,
    totalsByAccount: map<string, int>,
    grandTotal: int)

  function CellOf(src: Source, group: string): string -> int {
    (slot: string) => src.Cell(group, slot)
  }

  function ColumnOf(src: Source, slot: string): string -> int {
    (group: string) => src.Cell(group, slot)
  }

  function RowTotalOf(src: Source, slots: seq<string>): string -> int {
    (group: string) => SumOver(slots, CellOf(src, group))
  }

  function AccountTotalOf(src: Source): string -> int {
    (slot: string) => src.AccountTotal(slot)
  }

  /** Some account of the list sent to the group since its cutoff. */
  ghost predicate SentBy(src: Source, slots: seq<string>, group: string) {
    exists s :: s in slots && group in src.Names(s)
  }

  /** Every group listed was sent to by some account since its cutoff, and no such group is missing. */
  ghost predicate Lists(groups: seq<string>, src: Source, slots: seq<string>) {
    NoRepeats(groups) && forall g :: g in groups <==> SentBy(src, slots, g)
  }

  class GroupSendHistory {
    var files: Files

    constructor ()
      ensures files == map[]
    {
      files := map[];
    }

    method RecordGroupSend(slot: string, group: string, now: int)
      modifies this
      ensures files == RecordedGroupSend(old(files), slot, group, now)
    {
      var g := NormalizeGroup(group);
      if slot == "" || g == "" {
        return;
      }
      var events := Retained(Log(files, slot), now - RETAIN);
      files := files[slot := events + [GroupEvent(g, now)]];
    }

    method CountGroupSendsSinceCutoff(slot: string, cutoff: int) returns (n: nat)
      ensures n == if slot == "" then 0 else Count(Log(files, slot), SentSince(cutoff))
    {
      if slot == "" {
        return 0;
      }
      var counted := Retained(Log(files, slot), cutoff);
      n := |counted|;
    }
  }

  method Retained(raw: seq<GroupEvent>, cutoff: int) returns (events: seq<GroupEvent>)
    ensures events == Filter(raw, SentSince(cutoff))
  {
    events := [];
    for i := 0 to |raw|
      invariant events == Filter(raw[..i], SentSince(cutoff))
    {
      assert raw[..i + 1] == raw[..i] + [raw[i]];
      FilterSnoc(raw[..i], raw[i], SentSince(cutoff));
      if raw[i].t >= cutoff {
        events := events + [raw[i]];
      }
    }
    assert raw[..|raw|] == raw;
  }

  type Counts = map<string, map<string, int>>

  /** A table entry; a missing row or column counts as zero. */
  function At(counts: Counts, group: string, slot: string): int {
    if group in counts && slot in counts[group] then counts[group][slot] else 0
  }

  /** The table under construction: one row per listed group, one column per account. */
  ghost predicate Table(groups: seq<string>, counts: Counts, slots: seq<string>) {
    && NoRepeats(groups)
    && (forall g :: g in groups <==> g in counts)
    && forall g :: g in counts ==> counts[g].Keys == set s | s in slots
  }

  /** Adds one at a cell, opening the row if this is its first event. */
  method Increment(groups: seq<string>, counts: Counts, slots: seq<string>, group: string, slot: string)
    returns (groups': seq<string>, counts': Counts)
    requires slot in slots && Table(groups, counts, slots)
    ensures Table(groups', counts', slots)
    ensures counts'.Keys == counts.Keys + {group}
    ensures forall g, s :: At(counts', g, s) == At(counts, g, s) + if g == group && s == slot then 1 else 0
  {
    groups', counts' := groups, counts;
    if group !in counts' {
      groups' := groups' + [group];
      counts' := counts'[group := map s | s in slots :: 0];
    }
    counts' := counts'[group := counts'[group][slot := counts'[group][slot] + 1]];
  }

  /** Adds every shown event of one account. */
  method TallyAccount(src: Source, slots: seq<string>, slot: string, groups: seq<string>, counts: Counts)
    returns (groups': seq<string>, counts': Counts, total: nat)
    requires slot in slots && Table(groups, counts, slots)
    ensures Table(groups', counts', slots)
    ensures total == src.AccountTotal(slot)
    ensures forall g :: g in counts' <==> g in counts || g in src.Names(slot)
    ensures forall g, s :: At(counts', g, s) == At(counts, g, s) + if s == slot then src.Cell(g, slot) else 0
  {
    var names := CollectShown(Log(src.files, slot), EffectiveCutoff(src.resets, slot, src.now));
    groups', counts', total := groups, counts, 0;
    for i := 0 to |names|
      invariant Table(groups', counts', slots)
      invariant total == i
      invariant forall g :: g in counts' <==> g in counts || g in names[..i]
      invariant forall g, s :: At(counts', g, s) ==
                               At(counts, g, s) + if s == slot then multiset(names[..i])[g] else 0
    {
      assert names[..i + 1] == names[..i] + [names[i]];
      groups', counts' := Increment(groups', counts', slots, names[i], slot);
      total := total + 1;
    }
    assert names[..|names|] == names;
  }

  method CollectShown(raw: seq<GroupEvent>, cutoff: int) returns (names: seq<string>)
    ensures names == ShownGroups(raw, cutoff)
  {
    names := [];
    for i := 0 to |raw|
      invariant names == ShownGroups(raw[..i], cutoff)
    {
      assert raw[..i + 1][..i] == raw[..i];
      var g := Strip(raw[i].group);
      if raw[i].t >= cutoff && g != "" {
        names := names + [g];
      }
    }
    assert raw[..|raw|] == raw;
  }

  /** The account by group matrix. */
  method ComputeGroupSendMatrix(src: Source, slots: seq<string>) returns (m: Matrix)
    ensures Lists(m.groups, src, slots)
    ensures m.totalsByAccount.Keys == set s | s in slots
    ensures forall s :: s in slots ==> m.totalsByAccount[s] == src.AccountTotal(s)
    ensures forall g, s :: g in m.groups && s in slots ==> At(m.counts, g, s) == src.Cell(g, s)
    ensures |m.rowTotals| == |m.groups|
    ensures forall i :: 0 <= i < |m.groups| ==> m.rowTotals[i] == RowTotalOf(src, slots)(m.groups[i])
    ensures m.grandTotal == SumOver(Distinct(slots), AccountTotalOf(src))
  {
    var groups, counts, totals := BuildTable(src, slots);
    var rowTotals := RowTotals(src, slots, groups, counts);
    var grandTotal := 0;
    var order := Distinct(slots);
    for i := 0 to |order|
      invariant grandTotal == SumOver(order[..i], AccountTotalOf(src))
    {
      assert order[..i + 1] == order[..i] + [order[i]];
      assert order[i] in slots;
      SumOverSnoc(order[..i], order[i], AccountTotalOf(src));
      grandTotal := grandTotal + totals[order[i]];
    }
    assert order[..|order|] == order;
    m := Matrix(groups, counts, rowTotals, totals, grandTotal);
  }

  /** The rows and columns tallied for the accounts of `done`. */
  ghost predicate Tallied(counts: Counts, src: Source, done: seq<string>) {
    && (forall g :: g in counts <==> SentBy(src, done, g))
    && (forall g, s :: At(counts, g, s) == if s in done then src.Cell(g, s) else 0)
  }

  lemma TalliedSnoc(counts: Counts, counts': Counts, src: Source, done: seq<string>, slot: string)
    requires Tallied(counts, src, done) && slot !in done
    requires forall g :: g in counts' <==> g in counts || g in src.Names(slot)
    requires forall g, s :: At(counts', g, s) == At(counts, g, s) + if s == slot then src.Cell(g, slot) else 0
    ensures Tallied(counts', src, done + [slot])
  {
    forall g
      ensures SentBy(src, done + [slot], g) <==> SentBy(src, done, g) || g in src.Names(slot)
    {
      if SentBy(src, done, g) {
        var s :| s in done && g in src.Names(s);
        assert s in done + [slot];
      }
      assert slot in done + [slot];
    }
  }

  lemma SameAccounts(src: Source, slots: seq<string>, g: string)
    ensures SentBy(src, Distinct(slots), g) <==> SentBy(src, slots, g)
  {
  }

  method BuildTable(src: Source, slots: seq<string>)
    returns (groups: seq<string>, counts: Counts, totals: map<string, int>)
    ensures Lists(groups, src, slots)
    ensures totals.Keys == set s | s in slots
    ensures forall s :: s in slots ==> totals[s] == src.AccountTotal(s)
    ensures forall g, s :: s in slots ==> At(counts, g, s) == src.Cell(g, s)
  {
    var order := Distinct(slots);
    groups, counts := [], map[];
    totals := map s | s in slots :: 0;
    for i := 0 to |order|
      invariant Table(groups, counts, slots)
      invariant totals.Keys == set s | s in slots
      invariant forall s :: s in order[..i] ==> totals[s] == src.AccountTotal(s)
      invariant Tallied(counts, src, order[..i])
    {
      assert order[..i + 1] == order[..i] + [order[i]];
      assert order[i] in slots && order[i] !in order[..i];
      var groups', counts', total := TallyAccount(src, slots, order[i], groups, counts);
      TalliedSnoc(counts, counts', src, order[..i], order[i]);
      groups, counts := groups', counts';
      totals := totals[order[i] := total];
    }
    assert order[..|order|] == order;
    forall g
      ensures SentBy(src, order, g) <==> SentBy(src, slots, g)
    {
      SameAccounts(src, slots, g);
    }
  }

  method RowTotals(src: Source, slots: seq<string>, groups: seq<string>, counts: Counts) returns (totals: seq<int>)
    requires forall g, s :: g in groups && s in slots ==> At(counts, g, s) == src.Cell(g, s)
    ensures |totals| == |groups|
    ensures forall i :: 0 <= i < |groups| ==> totals[i] == RowTotalOf(src, slots)(groups[i])
  {
    totals := [];
    for i := 0 to |groups|
      invariant |totals| == i
      invariant forall k :: 0 <= k < i ==> totals[k] == RowTotalOf(src, slots)(groups[k])
    {
      var total := 0;
      for j := 0 to |slots|
        invariant total == SumOver(slots[..j], CellOf(src, groups[i]))
      {
        assert slots[..j + 1] == slots[..j] + [slots[j]];
        SumOverSnoc(slots[..j], slots[j], CellOf(src, groups[i]));
        assert slots[j] in slots && groups[i] in groups;
        total := total + At(counts, groups[i], slots[j]);
      }
      assert slots[..|slots|] == slots;
      totals := totals + [total];
    }
  }

  function TimesIn(names: seq<string>): string -> int {
    (group: string) => multiset(names)[group]
  }

  /** The occurrences of the groups of a list, each group taken once, sum to its length. */
  lemma {:induction false} OccurrencesSum(names: seq<string>, groups: seq<string>)
    requires NoRepeats(groups)
    requires forall g :: g in names ==> g in groups
    ensures SumOver(groups, TimesIn(names)) == |names|
  {
    if names == [] {
      SumOverZero(groups, TimesIn(names));
    } else {
      var init, last := names[..|names| - 1], names[|names| - 1];
      assert names == init + [last];
      OccurrencesSum(init, groups);
      SumOverBump(groups, TimesIn(init), TimesIn(names), last);
    }
  }

  /** Rows and accounts are two ways to count the same events. */
  lemma {:induction false} RowsSumToAccounts(src: Source, groups: seq<string>, slots: seq<string>)
    requires NoRepeats(groups)
    requires forall g, s :: s in slots && g in src.Names(s) ==> g in groups
    ensures SumOver(groups, RowTotalOf(src, slots)) == SumOver(slots, AccountTotalOf(src))
  {
    if slots == [] {
      SumOverZero(groups, RowTotalOf(src, slots));
    } else {
      var init, last := slots[..|slots| - 1], slots[|slots| - 1];
      RowsSumToAccounts(src, groups, init);
      SumOverPlus(groups, RowTotalOf(src, slots), RowTotalOf(src, init), ColumnOf(src, last));
      OccurrencesSum(src.Names(last), groups);
      SumOverExt(groups, ColumnOf(src, last), TimesIn(src.Names(last)));
    }
  }

  /** The grand total is the sum of the row totals exactly when no account that sent anything
      is listed twice. */
  lemma GrandTotalIsRowSum(src: Source, slots: seq<string>, groups: seq<string>)
    requires Lists(groups, src, slots)
    ensures SumOver(Distinct(slots), AccountTotalOf(src)) == SumOver(groups, RowTotalOf(src, slots)) <==>
            RepeatsAreFree(slots, AccountTotalOf(src))
    ensures SumOver(Distinct(slots), AccountTotalOf(src)) <= SumOver(groups, RowTotalOf(src, slots))
  {
    RowsSumToAccounts(src, groups, slots);
    RepeatsOvercount(slots, AccountTotalOf(src));
  }
}
