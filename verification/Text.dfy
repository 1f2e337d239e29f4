/** Strings: white space, trimming, decimal numbers, and code-point order. */
module Text {

  /** White space as `str.isspace` and the regular expression class \s see it. */
  predicate IsSpace(c: char) {
    var k := c as int;
    || 9 <= k <= 13 || 28 <= k <= 32 || k == 0x85 || k == 0xA0 || k == 0x1680
    || 0x2000 <= k <= 0x200A || k == 0x2028 || k == 0x2029 || k == 0x202F || k == 0x205F || k == 0x3000
  }

  function LStrip(s: string): (r: string)
    ensures r == "" || !IsSpace(r[0])
  {
    if s != "" && IsSpace(s[0]) then LStrip(s[1..]) else s
  }

  function RStrip(s: string): (r: string)
    ensures r == "" || !IsSpace(r[|r| - 1])
    ensures r != "" ==> s != "" && r[0] == s[0]
  {
    if s != "" && IsSpace(s[|s| - 1]) then RStrip(s[..|s| - 1]) else s
  }

  function Strip(s: string): (r: string)
    ensures r == "" || (!IsSpace(r[0]) && !IsSpace(r[|r| - 1]))
  {
    RStrip(LStrip(s))
  }

  lemma StripFixed(s: string)
    requires s == "" || (!IsSpace(s[0]) && !IsSpace(s[|s| - 1]))
    ensures Strip(s) == s
  {
  }

  /** Drops every leading '@'. */
  function DropAts(s: string): (r: string)
    ensures r == "" || r[0] != '@'
    ensures s == "" || s[0] != '@' ==> r == s
  {
    if s != "" && s[0] == '@' then DropAts(s[1..]) else s
  }

  predicate StartsWith(s: string, prefix: string) {
    prefix <= s
  }

  /** Lower case of the ASCII letters. */
  function LowerChar(c: char): char {
    if 'A' <= c <= 'Z' then (c as int + 32) as char else c
  }

  function Lower(s: string): (r: string)
    ensures |r| == |s|
  {
    seq(|s|, i requires 0 <= i < |s| => LowerChar(s[i]))
  }

  predicate IsDigit(c: char) {
    '0' <= c <= '9'
  }

  /** A nonempty run of digits. */
  predicate IsDigits(s: string) {
    s != "" && forall i :: 0 <= i < |s| ==> IsDigit(s[i])
  }

  function DigitValue(c: char): nat
    requires IsDigit(c)
  {
    c as int - '0' as int
  }

  function DigitChar(d: nat): (c: char)
    requires d < 10
    ensures IsDigit(c) && DigitValue(c) == d
  {
    ('0' as int + d) as char
  }

  /** The number a run of digits denotes; leading zeros do not matter. */
  function ToNat(s: string): nat
    requires IsDigits(s)
  {
    if |s| == 1 then DigitValue(s[0]) else ToNat(s[..|s| - 1]) * 10 + DigitValue(s[|s| - 1])
  }

  /** The decimal text of a number, without leading zeros. */
  function NatText(n: nat): (s: string)
    ensures IsDigits(s)
    decreases n
  {
    if n < 10 then [DigitChar(n)] else NatText(n / 10) + [DigitChar(n % 10)]
  }

  lemma {:induction false} NatTextRoundTrip(n: nat)
    ensures ToNat(NatText(n)) == n
    decreases n
  {
    if n < 10 {
    } else {
      NatTextRoundTrip(n / 10);
      var s := NatText(n);
      assert s[..|s| - 1] == NatText(n / 10) && s[|s| - 1] == DigitChar(n % 10);
    }
  }

  ghost predicate AllSpace(s: string) {
    forall i :: 0 <= i < |s| ==> IsSpace(s[i])
  }

  lemma {:induction false} LStripIsTail(s: string) returns (lead: string)
    ensures s == lead + LStrip(s) && AllSpace(lead)
  {
    if s == "" || !IsSpace(s[0]) {
      lead := "";
    } else {
      var rest := LStripIsTail(s[1..]);
      lead := [s[0]] + rest;
      assert s == [s[0]] + s[1..];
    }
  }

  lemma {:induction false} RStripIsHead(s: string) returns (end: string)
    ensures s == RStrip(s) + end && AllSpace(end)
  {
    if s == "" || !IsSpace(s[|s| - 1]) {
      end := "";
    } else {
      var rest := RStripIsHead(s[..|s| - 1]);
      end := rest + [s[|s| - 1]];
      assert s == s[..|s| - 1] + [s[|s| - 1]];
    }
  }

  /** Stripping takes white space off both ends and nothing else. */
  lemma {:induction false} StripIsMiddle(s: string) returns (lead: string, end: string)
    ensures s == lead + Strip(s) + end && AllSpace(lead) && AllSpace(end)
  {
    lead := LStripIsTail(s);
    end := RStripIsHead(LStrip(s));
  }

  lemma {:induction false} LStripSkips(lead: string, s: string)
    requires AllSpace(lead)
    ensures LStrip(lead + s) == LStrip(s)
  {
    if lead == "" {
      assert lead + s == s;
    } else {
      assert (lead + s)[1..] == lead[1..] + s;
      LStripSkips(lead[1..], s);
    }
  }

  lemma {:induction false} RStripSkips(s: string, end: string)
    requires AllSpace(end)
    ensures RStrip(s + end) == RStrip(s)
  {
    if end == "" {
      assert s + end == s;
    } else {
      assert (s + end)[..|s + end| - 1] == s + end[..|end| - 1];
      RStripSkips(s, end[..|end| - 1]);
    }
  }

  /** White space around a text that has none at its ends does not matter. */
  lemma {:induction false} StripSkips(lead: string, s: string, end: string)
    requires AllSpace(lead) && AllSpace(end) && s != "" && !IsSpace(s[0]) && !IsSpace(s[|s| - 1])
    ensures Strip(lead + s + end) == s
  {
    assert lead + s + end == lead + (s + end);
    LStripSkips(lead, s + end);
    assert LStrip(s + end) == s + end;
    RStripSkips(s, end);
  }

  /** The letters of a text in lower case; all other characters and a text without capitals stay. */
  lemma LowerIs(s: string, i: nat)
    requires i < |s|
    ensures Lower(s)[i] as int - s[i] as int == if 'A' <= s[i] <= 'Z' then 'a' as int - 'A' as int else 0
  {
  }

  lemma {:induction false} LeadingZerosDoNotCount(s: string)
    requires IsDigits(s)
    ensures ToNat("0" + s) == ToNat(s)
  {
    if |s| == 1 {
      assert ("0" + s)[..1] == "0" && ToNat("0") == 0;
    } else {
      assert ("0" + s)[..|s|] == "0" + s[..|s| - 1];
      LeadingZerosDoNotCount(s[..|s| - 1]);
    }
  }

  /** White space among the ASCII characters: tab to carriage return, the four separators and the blank. */
  lemma AsciiSpaces(c: char)
    requires c as int < 128
    ensures IsSpace(c) <==> c in {'\t', '\n', '\r', ' '} || c as int in {11, 12, 28, 29, 30, 31}
  {
  }
}
