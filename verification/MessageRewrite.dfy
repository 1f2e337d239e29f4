/** Per-cycle variation of a message: contact lines stay, bullets move only within their run. */
module MessageRewrite {
  import opened Text

  predicate IsBullet(line: string) {
    var s := Strip(line);
    s != "" && (s[0] as int == 0x2022 || s[0] == '-' || s[0] == '*' || s[0] as int == 0xB7)
  }

  /** A message as lines, with the test for contact lines, and what the random choices make of
      each line: its text after the phrase swaps, and the first line with another opener. */
  datatype Draft = Draft(lines: seq<string>, isProtected: string -> bool, swapped: seq<string>, opener: string) {
    predicate Matched() {
      |swapped| == |lines|
    }

    predicate MovesAt(i: int)
      requires 0 <= i < |lines|
    {
      !isProtected(lines[i]) && IsBullet(lines[i])
    }

    /** What a line that does not move becomes. */
    function FixedAt(i: int): string
      requires Matched() && 0 <= i < |lines|
    {
      if isProtected(lines[i]) then lines[i] else if i == 0 then opener else swapped[i]
    }

    /** A run of consecutive bullets that cannot be extended. */
    ghost predicate Run(a: int, b: int) {
      && 0 <= a < b <= |lines|
      && (forall i :: a <= i < b ==> MovesAt(i))
      && (a == 0 || !MovesAt(a - 1))
      && (b == |lines| || !MovesAt(b))
    }

    /** The lines up to `n` are rewritten as they should be. */
    ghost predicate RewrittenUpTo(out: seq<string>, n: int)
      requires Matched() && 0 <= n <= |lines|
    {
      && |out| == n
      && (forall i :: 0 <= i < n && !MovesAt(i) ==> out[i] == FixedAt(i))
      && (forall a, b :: Run(a, b) && b <= n ==> multiset(out[a..b]) == multiset(swapped[a..b]))
    }
  }

  /** Any shuffle: exchanges from the back with positions drawn at random. */
  method Shuffle(lines: seq<string>) returns (r: seq<string>)
    ensures multiset(r) == multiset(lines) && |r| == |lines|
  {
    r := lines;
    var i := |r| - 1;
    while i > 0
      invariant |r| == |lines| && i < |r|
      invariant multiset(r) == multiset(lines)
      decreases i
    {
      var draw: nat := *;
      var j := draw % (i + 1);
      r := r[i := r[j]][j := r[i]];
      i := i - 1;
    }
  }

  method FlushBullets(out: seq<string>, bullets: seq<string>) returns (r: seq<string>)
    ensures |r| == |out| + |bullets| && r[..|out|] == out
    ensures multiset(r[|out|..]) == multiset(bullets)
  {
    var order := bullets;
    if |bullets| > 1 {
      if * {
        order := Shuffle(bullets);
      }
    }
    r := out + order;
    assert r[|out|..] == order;
  }

  /** A flush completes the run of bullets collected since the last line that stayed. */
  lemma FlushCompletesRun(d: Draft, out: seq<string>, r: seq<string>, n: int)
    requires d.Matched() && |out| <= n <= |d.lines| && d.RewrittenUpTo(out, |out|)
    requires forall i :: |out| <= i < n ==> d.MovesAt(i)
    requires |out| == 0 || |out| == n || !d.MovesAt(|out| - 1)
    requires n == |d.lines| || !d.MovesAt(n)
    requires |r| == n && r[..|out|] == out && multiset(r[|out|..]) == multiset(d.swapped[|out|..n])
    ensures d.RewrittenUpTo(r, n)
  {
    forall i | 0 <= i < n && !d.MovesAt(i)
      ensures r[i] == d.FixedAt(i)
    {
      assert r[..|out|][i] == r[i];
    }
    forall a, b | d.Run(a, b) && b <= n
      ensures multiset(r[a..b]) == multiset(d.swapped[a..b])
    {
      if b <= |out| {
        assert r[a..b] == out[a..b];
      } else {
        assert d.MovesAt(b - 1);
        assert a == |out| && b == n;
        assert r[a..b] == r[|out|..];
      }
    }
  }

  /** A line that stays is appended in its own place. */
  lemma FixedLineFollows(d: Draft, out: seq<string>, n: int)
    requires d.Matched() && 0 <= n < |d.lines| && d.RewrittenUpTo(out, n) && !d.MovesAt(n)
    ensures d.RewrittenUpTo(out + [d.FixedAt(n)], n + 1)
  {
    var r := out + [d.FixedAt(n)];
    forall a, b | d.Run(a, b) && b <= n + 1
      ensures multiset(r[a..b]) == multiset(d.swapped[a..b])
    {
      assert d.MovesAt(b - 1);
      assert r[a..b] == out[a..b];
    }
  }

  /** Main result. For any random choices, every contact line stays verbatim in its place, every
      other line that is not a bullet keeps its place, and each run of bullets is a permutation
      of its own rewritten bullets. */
  method RewriteLines(d: Draft) returns (out: seq<string>)
    requires d.Matched()
    ensures |out| == |d.lines|
    ensures forall i :: 0 <= i < |d.lines| && d.isProtected(d.lines[i]) ==> out[i] == d.lines[i]
    ensures forall i :: 0 <= i < |d.lines| && !d.MovesAt(i) ==> out[i] == d.FixedAt(i)
    ensures forall a, b :: d.Run(a, b) ==> multiset(out[a..b]) == multiset(d.swapped[a..b])
  {
    out := [];
    var bullets: seq<string> := [];
    for i := 0 to |d.lines|
      invariant |out| + |bullets| == i
      invariant d.RewrittenUpTo(out, |out|)
      invariant bullets == d.swapped[|out|..i]
      invariant forall k :: |out| <= k < i ==> d.MovesAt(k)
      invariant |out| == 0 || !d.MovesAt(|out| - 1)
    {
      var line := d.lines[i];
      if d.isProtected(line) || !IsBullet(line) {
        var flushed := FlushBullets(out, bullets);
        FlushCompletesRun(d, out, flushed, i);
        FixedLineFollows(d, flushed, i);
        var first := i == 0 || flushed == [];
        out := flushed + [if d.isProtected(line) then line else if first then d.opener else d.swapped[i]];
        bullets := [];
      } else {
        bullets := bullets + [d.swapped[i]];
      }
    }
    var flushed := FlushBullets(out, bullets);
    FlushCompletesRun(d, out, flushed, |d.lines|);
    out := flushed;
  }

  function JoinLines(lines: seq<string>): string {
    if lines == [] then ""
    else if |lines| == 1 then lines[0]
    else lines[0] + "\n" + JoinLines(lines[1..])
  }

  predicate Blank(s: string) {
    Strip(s) == ""
  }

  /** The lines of a joined text after its ends are stripped. */
  function EndsStripped(lines: seq<string>): seq<string>
    requires lines != []
  {
    var front := lines[0 := LStrip(lines[0])];
    front[|front| - 1 := RStrip(front[|front| - 1])]
  }

  lemma {:induction false} LStripKeepsRest(a: string, b: string)
    requires LStrip(a) != ""
    ensures LStrip(a + b) == LStrip(a) + b
  {
    if !IsSpace(a[0]) {
    } else {
      assert (a + b)[1..] == a[1..] + b;
      LStripKeepsRest(a[1..], b);
    }
  }

  lemma {:induction false} RStripKeepsRest(a: string, b: string)
    requires RStrip(b) != ""
    ensures RStrip(a + b) == a + RStrip(b)
  {
    if !IsSpace(b[|b| - 1]) {
    } else {
      assert (a + b)[..|a + b| - 1] == a + b[..|b| - 1];
      RStripKeepsRest(a, b[..|b| - 1]);
    }
  }

  lemma {:induction false} RStripJoined(lines: seq<string>)
    requires lines != [] && RStrip(lines[|lines| - 1]) != ""
    ensures RStrip(JoinLines(lines)) == JoinLines(lines[|lines| - 1 := RStrip(lines[|lines| - 1])]) != ""
  {
    if |lines| <= 1 {
    } else {
      var n := |lines| - 1;
      RStripJoined(lines[1..]);
      var stripped := lines[n := RStrip(lines[n])];
      assert stripped[1..] == lines[1..][n - 1 := RStrip(lines[n])];
      RStripKeepsRest(lines[0] + "\n", JoinLines(lines[1..]));
    }
  }

  lemma LStripJoined(lines: seq<string>)
    requires lines != [] && LStrip(lines[0]) != ""
    ensures LStrip(JoinLines(lines)) == JoinLines(lines[0 := LStrip(lines[0])])
  {
    if |lines| > 1 {
      var front, rest := lines[0 := LStrip(lines[0])], "\n" + JoinLines(lines[1..]);
      assert front[1..] == lines[1..];
      LStripKeepsRest(lines[0], rest);
      assert JoinLines(lines) == lines[0] + rest;
      assert JoinLines(front) == front[0] + rest;
    }
  }

  /** Stripping the joined text strips only the outer ends of its first and last lines. */
  lemma {:induction false} StripJoined(lines: seq<string>)
    requires lines != [] && !Blank(lines[0]) && !Blank(lines[|lines| - 1])
    ensures Strip(JoinLines(lines)) == JoinLines(EndsStripped(lines))
  {
    NotBlank(lines[0]);
    NotBlank(lines[|lines| - 1]);
    LStripJoined(lines);
    RStripJoined(lines[0 := LStrip(lines[0])]);
  }

  lemma NotBlank(s: string)
    requires !Blank(s)
    ensures LStrip(s) != "" && RStrip(s) != ""
  {
    if RStrip(s) == "" {
      AllSpaceOnRight(s);
      AllSpaceOnLeft(s);
    }
  }

  lemma {:induction false} AllSpaceOnRight(s: string)
    requires RStrip(s) == ""
    ensures forall c :: c in s ==> IsSpace(c)
  {
    if s == "" {
    } else {
      AllSpaceOnRight(s[..|s| - 1]);
      assert s == s[..|s| - 1] + [s[|s| - 1]];
    }
  }

  lemma {:induction false} AllSpaceOnLeft(s: string)
    requires forall c :: c in s ==> IsSpace(c)
    ensures LStrip(s) == ""
  {
    if s == "" {
    } else {
      assert s[0] in s && forall c :: c in s[1..] ==> c in s;
      AllSpaceOnLeft(s[1..]);
    }
  }

  /** The run of bullets around a bullet. */
  lemma RunAround(d: Draft, i: int) returns (a: int, b: int)
    requires 0 <= i < |d.lines| && d.MovesAt(i)
    ensures a <= i < b && d.Run(a, b)
  {
    a, b := i, i + 1;
    while a > 0 && d.MovesAt(a - 1)
      invariant 0 <= a <= i && forall k :: a <= k <= i ==> d.MovesAt(k)
    {
      a := a - 1;
    }
    while b < |d.lines| && d.MovesAt(b)
      invariant i < b <= |d.lines| && forall k :: i <= k < b ==> d.MovesAt(k)
    {
      b := b + 1;
    }
  }

  /** A bullet's place is taken by a rewritten bullet of the same run. */
  lemma BulletComesFromRun(d: Draft, out: seq<string>, i: int) returns (k: int)
    requires d.Matched() && d.RewrittenUpTo(out, |d.lines|) && 0 <= i < |d.lines| && d.MovesAt(i)
    ensures 0 <= k < |d.lines| && d.MovesAt(k) && out[i] == d.swapped[k]
  {
    var a, b := RunAround(d, i);
    assert out[a..b][i - a] == out[i];
    assert out[i] in multiset(out[a..b]);
    assert out[i] in d.swapped[a..b];
    var j :| 0 <= j < b - a && d.swapped[a..b][j] == out[i];
    k := a + j;
  }

  /** The choices never blank out a line that had text. */
  ghost predicate KeepsText(d: Draft)
    requires d.Matched()
  {
    && (forall k :: 0 <= k < |d.lines| && !Blank(d.lines[k]) ==> !Blank(d.swapped[k]))
    && (d.lines != [] && !Blank(d.lines[0]) ==> !Blank(d.opener))
  }

  lemma LineStaysVisible(d: Draft, out: seq<string>, i: int)
    requires d.Matched() && KeepsText(d) && d.RewrittenUpTo(out, |d.lines|)
    requires 0 <= i < |d.lines| && !Blank(d.lines[i])
    ensures !Blank(out[i])
  {
    if d.MovesAt(i) {
      var k := BulletComesFromRun(d, out, i);
      assert IsBullet(d.lines[k]);
    } else {
      assert out[i] == d.FixedAt(i);
    }
  }

  /** The message was stripped before it was split into lines. */
  predicate StrippedEnds(lines: seq<string>) {
    lines != [] &&
    var first, last := lines[0], lines[|lines| - 1];
    first != "" && !IsSpace(first[0]) && last != "" && !IsSpace(last[|last| - 1])
  }

  lemma OuterLinesStayVisible(d: Draft, out: seq<string>)
    requires d.Matched() && KeepsText(d) && d.RewrittenUpTo(out, |d.lines|)
    requires StrippedEnds(d.lines)
    ensures !Blank(out[0]) && !Blank(out[|out| - 1])
  {
    VisibleEnds(d.lines[0]);
    VisibleEnds(d.lines[|d.lines| - 1]);
    LineStaysVisible(d, out, 0);
    LineStaysVisible(d, out, |d.lines| - 1);
  }

  /** Main result for the text. If the message was stripped before it was split, stripping the
      joined result again touches no contact line: each is a line of the final text, verbatim. */
  lemma ContactLinesSurvive(d: Draft, out: seq<string>, i: int)
    requires d.Matched() && KeepsText(d) && d.RewrittenUpTo(out, |d.lines|)
    requires StrippedEnds(d.lines) && 0 <= i < |d.lines| && d.isProtected(d.lines[i])
    ensures Strip(JoinLines(out)) == JoinLines(EndsStripped(out))
    ensures EndsStripped(out)[i] == d.lines[i]
  {
    OuterLinesStayVisible(d, out);
    StripJoined(out);
    ContactLineInPlace(d, out, i);
    VisibleLineKept(d.lines, out, i);
  }

  lemma ContactLineInPlace(d: Draft, out: seq<string>, i: int)
    requires d.Matched() && d.RewrittenUpTo(out, |d.lines|) && 0 <= i < |d.lines| && d.isProtected(d.lines[i])
    ensures out[i] == d.lines[i]
  {
    assert !d.MovesAt(i);
  }

  /** A line that was stripped where the text begins and ends is not touched by stripping. */
  lemma VisibleLineKept(lines: seq<string>, out: seq<string>, i: int)
    requires |out| == |lines| && StrippedEnds(lines) && 0 <= i < |out| && out[i] == lines[i]
    ensures EndsStripped(out)[i] == lines[i]
  {
  }

  lemma VisibleEnds(s: string)
    requires s != "" && (!IsSpace(s[0]) || !IsSpace(s[|s| - 1]))
    ensures !Blank(s)
  {
    if Blank(s) {
      if LStrip(s) == "" {
        NoVisibleOnLeft(s);
      } else {
        AllSpaceOnRight(LStrip(s));
      }
    }
  }

  lemma {:induction false} NoVisibleOnLeft(s: string)
    requires LStrip(s) == ""
    ensures forall c :: c in s ==> IsSpace(c)
  {
    if s == "" {
    } else {
      NoVisibleOnLeft(s[1..]);
      assert s == [s[0]] + s[1..];
    }
  }

  /** A bullet is a line whose first visible character is a bullet, a hyphen, a star or a middle dot. */
  lemma {:induction false} BulletIff(line: string)
    ensures IsBullet(line) <==>
            exists i :: 0 <= i < |line| && AllSpace(line[..i]) && line[i] as int in {0x2022, 0x2D, 0x2A, 0xB7}
  {
    var lead, end := StripIsMiddle(line);
    if IsBullet(line) {
      assert line[..|lead|] == lead && line[|lead|] == Strip(line)[0];
    }
    forall i | 0 <= i < |line| && AllSpace(line[..i]) && line[i] as int in {0x2022, 0x2D, 0x2A, 0xB7}
      ensures IsBullet(line)
    {
      FirstVisible(line, i);
    }
  }

  lemma FirstVisible(line: string, i: int)
    requires 0 <= i < |line| && AllSpace(line[..i]) && !IsSpace(line[i])
    ensures Strip(line) != "" && Strip(line)[0] == line[i]
  {
    assert line == line[..i] + line[i..];
    LStripSkips(line[..i], line[i..]);
    assert LStrip(line[i..]) == line[i..];
    VisibleEnds(line[i..]);
  }
}
