/** Round-robin distribution of the master group list over the logged-in accounts. */
module GroupAssignment {
  import opened Sequences

  function LoggedIn(accounts: set<string>): string -> bool {
    (slot: string) => slot in accounts
  }

  function ActiveSlots(slots: seq<string>, accounts: set<string>): seq<string> {
    Filter(slots, LoggedIn(accounts))
  }

  function PartitionSlots(slots: seq<string>, accounts: set<string>): seq<string> {
    var actives := ActiveSlots(slots, accounts);
    if actives != [] then actives else slots
  }

  function IndexOf(s: seq<string>, x: string): (i: nat)
    requires x in s
    ensures i < |s| && s[i] == x && x !in s[..i]
  {
    if s[0] == x then 0 else 1 + IndexOf(s[1..], x)
  }

  /** The elements at the positions that leave remainder `k` modulo `n`, in order. */
  function EveryNth<T>(master: seq<T>, n: nat, k: nat): seq<T>
    requires k < n
  {
    if master == [] then []
    else
      var rest := EveryNth(master[..|master| - 1], n, k);
      if (|master| - 1) % n == k then rest + [master[|master| - 1]] else rest
  }

  function GroupsForSlot(slots: seq<string>, accounts: set<string>, slot: string, master: seq<string>): seq<string> {
    if master == [] then []
    else if slot !in accounts then []
    else
      var parts := PartitionSlots(slots, accounts);
      if slot !in parts then [] else EveryNth(master, |parts|, IndexOf(parts, slot))
  }

  lemma MulLess(a: int, b: int, n: int)
    requires n > 0 && a * n < b * n
    ensures a < b
  {
  }

  /** Positions in rows of length `n` are ordered by row first. */
  lemma RowOrder(a: int, k: int, b: int, l: int, n: int)
    requires 0 <= k && l < n && n > 0 && a * n + k <= b * n + l
    ensures a <= b
  {
    assert (b + 1) * n == b * n + n;
    MulLess(a, b + 1, n);
  }

  lemma DivMod(i: nat, n: nat)
    requires n > 0
    ensures i == (i / n) * n + i % n
    ensures 0 <= i % n < n
    ensures 0 <= i / n
  {
    RowOrder(0, 0, i / n, i % n, n);
  }

  /** Row and column of a position are its quotient and remainder. */
  lemma RowAndColumn(j: nat, n: nat, k: nat)
    requires k < n
    ensures (j * n + k) / n == j && (j * n + k) % n == k
  {
    var i := j * n + k;
    DivMod(i, n);
    RowOrder(i / n, i % n, j, k, n);
    RowOrder(j, k, i / n, i % n, n);
  }

  /** A slice holds the positions k, n + k, 2n + k, ... and stops only at the end of the list. */
  lemma {:induction false} SlicePositions<T>(master: seq<T>, n: nat, k: nat)
    requires k < n
    ensures |EveryNth(master, n, k)| * n + k >= |master|
    ensures forall j :: 0 <= j < |EveryNth(master, n, k)| ==>
              j * n + k < |master| && EveryNth(master, n, k)[j] == master[j * n + k]
  {
    if master == [] {
    } else {
      var m := |master| - 1;
      var rest := EveryNth(master[..m], n, k);
      SlicePositions(master[..m], n, k);
      NextPosition(m, |rest|, n, k);
      forall j | 0 <= j < |rest|
        ensures j * n + k < m && rest[j] == master[j * n + k]
      {
        assert rest[j] == master[..m][j * n + k];
      }
    }
  }

  /** Extending a list by position `m`: the slice grows just when `m` is its next position. */
  lemma NextPosition(m: nat, size: nat, n: nat, k: nat)
    requires k < n && size * n + k >= m
    requires size > 0 ==> (size - 1) * n + k < m
    ensures m % n == k <==> size * n + k == m
    ensures (size + 1) * n + k == size * n + n + k
  {
    DivMod(m, n);
    assert (size + 1) * n == size * n + n;
    if size * n + k == m {
      RowAndColumn(size, n, k);
    }
    if m % n == k {
      RowOrder(m / n, k, size, k, n);
      if size > 0 {
        assert (size - 1) * n == size * n - n;
        RowOrder(size, 0, m / n, k, n);
      }
    }
  }

  /** The slices of any two accounts differ in size by at most one. */
  lemma SlicesAreBalanced<T>(master: seq<T>, n: nat, k: nat, l: nat)
    requires k < n && l < n
    ensures |EveryNth(master, n, k)| <= |EveryNth(master, n, l)| + 1
  {
    SlicePositions(master, n, k);
    SlicePositions(master, n, l);
    var a, b := |EveryNth(master, n, k)|, |EveryNth(master, n, l)|;
    if a > 0 {
      RowOrder(a - 1, k, b, l, n);
    }
  }

  /** Dealing the slices back out in turn. */
  function Interleave<T>(slices: seq<seq<T>>, total: nat): seq<T>
    requires total == 0 || |slices| > 0
    requires forall i :: 0 <= i < total ==> i % |slices| < |slices| && i / |slices| < |slices[i % |slices|]|
  {
    seq(total, i requires 0 <= i < total => slices[i % |slices|][i / |slices|])
  }

  function SliceSizes(master: seq<string>, n: nat): seq<int> {
    seq(n, k requires 0 <= k < n => |EveryNth(master, n, k)|)
  }

  /** Nothing is dealt twice or lost: the sizes of all slices add up to the list. */
  lemma {:induction false} SliceSizesSum(master: seq<string>, n: nat)
    requires n > 0
    ensures Sum(SliceSizes(master, n)) == |master|
  {
    if master == [] {
      SumZero(SliceSizes(master, n));
    } else {
      var m := |master| - 1;
      SliceSizesSum(master[..m], n);
      DivMod(m, n);
      var k, before := m % n, SliceSizes(master[..m], n);
      assert SliceSizes(master, n) == before[k := before[k] + 1];
      SumUpdate(before, k, before[k] + 1);
    }
  }

  lemma {:induction false} IndexInDistinct(s: seq<string>, k: nat)
    requires NoRepeats(s) && k < |s|
    ensures IndexOf(s, s[k]) == k
  {
    if k == 0 {
    } else {
      assert s[0] != s[k];
      IndexInDistinct(s[1..], k - 1);
    }
  }

  lemma {:induction false} FilterKeepsDistinct(s: seq<string>, keep: string -> bool)
    requires NoRepeats(s)
    ensures NoRepeats(Filter(s, keep))
  {
    if s == [] {
    } else {
      var rest := Filter(s[..|s| - 1], keep);
      FilterKeepsDistinct(s[..|s| - 1], keep);
      FilterMembers(s[..|s| - 1], keep);
      forall i | 0 <= i < |rest|
        ensures rest[i] != s[|s| - 1]
      {
        assert rest[i] in s[..|s| - 1];
      }
    }
  }

  /** The slices of the logged-in accounts, in account order. */
  function Slices(slots: seq<string>, accounts: set<string>, master: seq<string>): seq<seq<string>> {
    var actives := ActiveSlots(slots, accounts);
    seq(|actives|, k requires 0 <= k < |actives| => GroupsForSlot(slots, accounts, actives[k], master))
  }

  lemma {:induction false} SliceOfActive(slots: seq<string>, accounts: set<string>, master: seq<string>, k: nat)
    requires NoRepeats(slots) && k < |ActiveSlots(slots, accounts)|
    ensures var actives := ActiveSlots(slots, accounts);
            GroupsForSlot(slots, accounts, actives[k], master) == EveryNth(master, |actives|, k)
  {
    var actives := ActiveSlots(slots, accounts);
    assert actives[k] in actives;
    FilterMembers(slots, LoggedIn(accounts));
    FilterKeepsDistinct(slots, LoggedIn(accounts));
    IndexInDistinct(actives, k);
  }

  /** How many of the configured accounts are logged in. */
  function LoggedInAmong(slots: seq<string>, accounts: set<string>): nat {
    if slots == [] then 0
    else LoggedInAmong(slots[..|slots| - 1], accounts) + if slots[|slots| - 1] in accounts then 1 else 0
  }

  /** The active accounts are the configured ones that are logged in, each once and in their order. */
  lemma {:induction false} ActiveSlotsAre(slots: seq<string>, accounts: set<string>)
    requires NoRepeats(slots)
    ensures forall s :: s in ActiveSlots(slots, accounts) <==> s in slots && s in accounts
    ensures |ActiveSlots(slots, accounts)| == LoggedInAmong(slots, accounts) && NoRepeats(ActiveSlots(slots, accounts))
    ensures forall i :: 0 <= i < |slots| && slots[i] in accounts ==>
              && LoggedInAmong(slots[..i], accounts) < LoggedInAmong(slots, accounts)
              && ActiveSlots(slots, accounts)[LoggedInAmong(slots[..i], accounts)] == slots[i]
  {
    FilterMembers(slots, LoggedIn(accounts));
    FilterKeepsDistinct(slots, LoggedIn(accounts));
    if slots == [] {
    } else {
      var n := |slots| - 1;
      ActiveSlotsAre(slots[..n], accounts);
      forall i | 0 <= i < |slots| && slots[i] in accounts
        ensures LoggedInAmong(slots[..i], accounts) < LoggedInAmong(slots, accounts)
        ensures ActiveSlots(slots, accounts)[LoggedInAmong(slots[..i], accounts)] == slots[i]
      {
        if i < n {
          assert slots[..n][..i] == slots[..i] && slots[..n][i] == slots[i];
        }
      }
    }
  }

  /** Main result on slices. Of `n` logged-in accounts, the one with `k` before it gets the groups at the
      positions k, n + k, 2n + k and so on to the end of the list, hence some group if the list has as many
      as there are accounts; an account that is not configured or not logged in gets nothing. */
  lemma {:induction false} SliceIs(slots: seq<string>, accounts: set<string>, slot: string, master: seq<string>)
    requires NoRepeats(slots)
    ensures var slice := GroupsForSlot(slots, accounts, slot, master);
            if slot in slots && slot in accounts then
              var n, k := LoggedInAmong(slots, accounts), LoggedInAmong(slots[..IndexOf(slots, slot)], accounts);
              && k < n && |slice| * n + k >= |master|
              && (forall j :: 0 <= j < |slice| ==> j * n + k < |master| && slice[j] == master[j * n + k])
              && (|master| >= n ==> slice != [])
            else slice == []
  {
    ActiveSlotsAre(slots, accounts);
    if slot in slots && slot in accounts {
      var k := LoggedInAmong(slots[..IndexOf(slots, slot)], accounts);
      SliceOfActive(slots, accounts, master, k);
      SlicePositions(master, |ActiveSlots(slots, accounts)|, k);
    } else {
      OnlyActiveSlotsGetGroups(slots, accounts, slot, master);
    }
  }

  /** Main result on the partition. With at least one configured account logged in, there is one slice
      for each, and dealing the slices back out in turn rebuilds the master list: they are disjoint by
      position, cover the list and keep its order. Their sizes differ by at most one. */
  lemma {:induction false} SlicesRebuildMaster(slots: seq<string>, accounts: set<string>, master: seq<string>)
    requires NoRepeats(slots) && exists s :: s in slots && s in accounts
    ensures |Slices(slots, accounts, master)| == LoggedInAmong(slots, accounts) > 0
    ensures var slices := Slices(slots, accounts, master);
            && (forall i :: 0 <= i < |master| ==>
                0 <= i % |slices| < |slices| && 0 <= i / |slices| < |slices[i % |slices|]|)
            && Interleave(slices, |master|) == master
            && Sum(seq(|slices|, k requires 0 <= k < |slices| => |slices[k]|)) == |master|
            && forall k, l :: 0 <= k < |slices| && 0 <= l < |slices| ==> |slices[k]| <= |slices[l]| + 1
  {
    ActiveSlotsAre(slots, accounts);
    var slices, n := Slices(slots, accounts, master), |ActiveSlots(slots, accounts)|;
    forall k | 0 <= k < n
      ensures slices[k] == EveryNth(master, n, k)
    {
      SliceOfActive(slots, accounts, master, k);
    }
    forall i | 0 <= i < |master|
      ensures 0 <= i % n < n && 0 <= i / n < |slices[i % n]| && slices[i % n][i / n] == master[i]
    {
      DivMod(i, n);
      SlicePositions(master, n, i % n);
      PositionInSlice(i, |slices[i % n]|, |master|, n);
    }
    forall k, l | 0 <= k < n && 0 <= l < n
      ensures |slices[k]| <= |slices[l]| + 1
    {
      SlicesAreBalanced(master, n, k, l);
    }
    SliceSizesSum(master, n);
    assert SliceSizes(master, n) == seq(n, k requires 0 <= k < n => |slices[k]|);
  }

  lemma PositionInSlice(i: nat, size: nat, total: nat, n: nat)
    requires n > 0 && i < total && size * n + i % n >= total
    ensures i / n < size
  {
    DivMod(i, n);
    MulLess(i / n, size, n);
  }

  /** An account that is logged out, or not configured, gets nothing. */
  lemma OnlyActiveSlotsGetGroups(slots: seq<string>, accounts: set<string>, slot: string, master: seq<string>)
    requires slot !in slots || slot !in accounts
    ensures GroupsForSlot(slots, accounts, slot, master) == []
  {
    FilterMembers(slots, LoggedIn(accounts));
  }
}
