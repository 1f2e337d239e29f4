/** Filtering, counting and summing over event lists. */
module Sequences {

  /** The elements of `s` that `keep` accepts, in order. */
  function Filter<T>(s: seq<T>, keep: T -> bool): (kept: seq<T>)
    ensures |kept| <= |s|
  {
    if s == [] then []
    else
      var rest := Filter(s[..|s| - 1], keep);
      if keep(s[|s| - 1]) then rest + [s[|s| - 1]] else rest
  }

  function Count<T>(s: seq<T>, keep: T -> bool): nat {
    |Filter(s, keep)|
  }

  lemma {:induction false} FilterMembers<T>(s: seq<T>, keep: T -> bool)
    ensures forall x :: x in Filter(s, keep) ==> x in s && keep(x)
    ensures forall x :: x in s && keep(x) ==> x in Filter(s, keep)
  {
    if s == [] {
    } else {
      FilterMembers(s[..|s| - 1], keep);
    }
  }

  lemma FilterSnoc<T>(s: seq<T>, x: T, keep: T -> bool)
    ensures Filter(s + [x], keep) == if keep(x) then Filter(s, keep) + [x] else Filter(s, keep)
  {
    assert (s + [x])[..|s|] == s;
  }

  /** Filtering by a weaker test first does not change what a stronger test keeps. */
  lemma {:induction false} FilterOfFilter<T>(s: seq<T>, weak: T -> bool, strong: T -> bool)
    requires forall x :: x in s && strong(x) ==> weak(x)
    ensures Filter(Filter(s, weak), strong) == Filter(s, strong)
  {
    if s == [] {
    } else {
      var init, x := s[..|s| - 1], s[|s| - 1];
      FilterOfFilter(init, weak, strong);
      if weak(x) {
        FilterSnoc(Filter(init, weak), x, strong);
      }
    }
  }

  lemma {:induction false} FilterExt<T>(s: seq<T>, p: T -> bool, q: T -> bool)
    requires forall x :: x in s ==> p(x) == q(x)
    ensures Filter(s, p) == Filter(s, q)
  {
    if s == [] {
    } else {
      FilterExt(s[..|s| - 1], p, q);
    }
  }

  lemma {:induction false} FilterAll<T>(s: seq<T>, p: T -> bool)
    requires forall x :: x in s ==> p(x)
    ensures Filter(s, p) == s
  {
    if s == [] {
    } else {
      FilterAll(s[..|s| - 1], p);
    }
  }

  /** A filter as long as its input dropped nothing. */
  lemma {:induction false} FilterFull<T>(s: seq<T>, p: T -> bool)
    requires |Filter(s, p)| == |s|
    ensures Filter(s, p) == s
  {
    if s == [] {
    } else {
      FilterFull(s[..|s| - 1], p);
    }
  }

  lemma {:induction false} CountNone<T>(s: seq<T>, keep: T -> bool)
    requires forall x :: x in s ==> !keep(x)
    ensures Count(s, keep) == 0
  {
    if s == [] {
    } else {
      CountNone(s[..|s| - 1], keep);
    }
  }

  lemma {:induction false} CountMonotone<T>(s: seq<T>, p: T -> bool, q: T -> bool)
    requires forall x :: x in s && p(x) ==> q(x)
    ensures Count(s, p) <= Count(s, q)
  {
    if s == [] {
    } else {
      CountMonotone(s[..|s| - 1], p, q);
    }
  }

  /** Equal counts of nested tests: the tests agree on every element, and conversely. */
  lemma {:induction false} CountEqualIff<T>(s: seq<T>, p: T -> bool, q: T -> bool)
    requires forall x :: x in s && p(x) ==> q(x)
    ensures Count(s, p) == Count(s, q) <==> forall x :: x in s ==> p(x) == q(x)
  {
    if s == [] {
    } else {
      var init, last := s[..|s| - 1], s[|s| - 1];
      CountEqualIff(init, p, q);
      CountMonotone(init, p, q);
      assert forall x :: x in s <==> x in init || x == last;
    }
  }

  lemma {:induction false} FilterConcat<T>(a: seq<T>, b: seq<T>, p: T -> bool)
    ensures Filter(a + b, p) == Filter(a, p) + Filter(b, p)
  {
    if b == [] {
      assert a + b == a;
    } else {
      var init, last := b[..|b| - 1], b[|b| - 1];
      FilterConcat(a, init, p);
      assert a + b == (a + init) + [last];
      FilterSnoc(a + init, last, p);
    }
  }

  /** The sum of a list of counters. */
  function Sum(s: seq<int>): int {
    if s == [] then 0 else Sum(s[..|s| - 1]) + s[|s| - 1]
  }

  lemma {:induction false} SumUpdate(s: seq<int>, i: nat, v: int)
    requires i < |s|
    ensures Sum(s[i := v]) == Sum(s) - s[i] + v
  {
    var n := |s| - 1;
    if i == n {
      assert s[i := v][..n] == s[..n];
    } else {
      assert s[i := v][..n] == s[..n][i := v];
      SumUpdate(s[..n], i, v);
    }
  }

  lemma {:induction false} SumZero(s: seq<int>)
    requires forall i :: 0 <= i < |s| ==> s[i] == 0
    ensures Sum(s) == 0
  {
    if s == [] {
    } else {
      SumZero(s[..|s| - 1]);
    }
  }

  /** The events stored for one account; a missing file reads as empty. */
  function Log<E>(files: map<string, seq<E>>, slot: string): seq<E> {
    if slot in files then files[slot] else []
  }

  /** The values of `xs` without repeats, in order of first appearance: a dict's key order. */
  function Distinct<T(==)>(xs: seq<T>): (ds: seq<T>)
    ensures forall x :: x in ds ==> x in xs
    ensures forall x :: x in xs ==> x in ds
    ensures forall i, j :: 0 <= i < j < |ds| ==> ds[i] != ds[j]
  {
    if xs == [] then []
    else
      var ds := Distinct(xs[..|xs| - 1]);
      if xs[|xs| - 1] in ds then ds else ds + [xs[|xs| - 1]]
  }

  ghost predicate NoRepeats<T>(xs: seq<T>) {
    forall i, j :: 0 <= i < j < |xs| ==> xs[i] != xs[j]
  }

  lemma {:induction false} DistinctFixed<T>(xs: seq<T>)
    requires NoRepeats(xs)
    ensures Distinct(xs) == xs
  {
    if xs == [] {
    } else {
      DistinctFixed(xs[..|xs| - 1]);
    }
  }

  function SumOver<T>(xs: seq<T>, f: T -> int): int {
    if xs == [] then 0 else SumOver(xs[..|xs| - 1], f) + f(xs[|xs| - 1])
  }

  lemma SumOverSnoc<T>(xs: seq<T>, x: T, f: T -> int)
    ensures SumOver(xs + [x], f) == SumOver(xs, f) + f(x)
  {
    assert (xs + [x])[..|xs|] == xs;
  }

  lemma {:induction false} SumOverPlus<T>(xs: seq<T>, f: T -> int, g: T -> int, h: T -> int)
    requires forall x :: x in xs ==> f(x) == g(x) + h(x)
    ensures SumOver(xs, f) == SumOver(xs, g) + SumOver(xs, h)
  {
    if xs == [] {
    } else {
      SumOverPlus(xs[..|xs| - 1], f, g, h);
    }
  }

  lemma {:induction false} SumOverExt<T>(xs: seq<T>, f: T -> int, g: T -> int)
    requires forall x :: x in xs ==> f(x) == g(x)
    ensures SumOver(xs, f) == SumOver(xs, g)
  {
    if xs == [] {
    } else {
      SumOverExt(xs[..|xs| - 1], f, g);
    }
  }

  lemma {:induction false} SumOverZero<T>(xs: seq<T>, f: T -> int)
    requires forall x :: x in xs ==> f(x) == 0
    ensures SumOver(xs, f) == 0
  {
    if xs == [] {
    } else {
      SumOverZero(xs[..|xs| - 1], f);
    }
  }

  /** Adding one at a single value of a list without repeats adds one to the sum. */
  lemma {:induction false} SumOverBump<T>(xs: seq<T>, f: T -> int, g: T -> int, x: T)
    requires NoRepeats(xs) && x in xs
    requires forall y :: y in xs ==> g(y) == if y == x then f(y) + 1 else f(y)
    ensures SumOver(xs, g) == SumOver(xs, f) + 1
  {
    var init, last := xs[..|xs| - 1], xs[|xs| - 1];
    if last == x {
      SumOverExt(init, f, g);
    } else {
      SumOverBump(init, f, g, x);
    }
  }

  /** Every repeated value contributes nothing. */
  ghost predicate RepeatsAreFree<T>(xs: seq<T>, f: T -> int) {
    forall i, j :: 0 <= i < j < |xs| && xs[i] == xs[j] ==> f(xs[j]) == 0
  }

  lemma RepeatsAreFreeSnoc<T>(init: seq<T>, last: T, f: T -> int)
    ensures RepeatsAreFree(init + [last], f) <==> RepeatsAreFree(init, f) && (last in init ==> f(last) == 0)
  {
    var xs := init + [last];
    assert forall i :: 0 <= i < |init| ==> xs[i] == init[i];
    if last in init {
      var i :| 0 <= i < |init| && init[i] == last;
      assert xs[i] == xs[|init|];
    }
  }

  /** Summing a list with repeats overcounts unless every repeated value contributes nothing. */
  lemma {:induction false} RepeatsOvercount<T>(xs: seq<T>, f: T -> int)
    requires forall x :: x in xs ==> f(x) >= 0
    ensures SumOver(Distinct(xs), f) <= SumOver(xs, f)
    ensures SumOver(Distinct(xs), f) == SumOver(xs, f) <==> RepeatsAreFree(xs, f)
  {
    if xs == [] {
    } else {
      var init, last := xs[..|xs| - 1], xs[|xs| - 1];
      assert xs == init + [last];
      RepeatsOvercount(init, f);
      RepeatsAreFreeSnoc(init, last, f);
      SumOverSnoc(Distinct(init), last, f);
    }
  }
}
