/** Log lines of key=value fields, and the reader that takes them apart again. */
module StructuredLogging {
  import opened Wrappers
  import opened Text

  /** A field value: nothing, a truth value, or anything else as its text. */
  datatype Value = Null | Flag(on: bool) | Other(text: string)

  predicate Special(c: char) {
    IsSpace(c) || c == '=' || c == '|' || c == '"' || c == '\''
  }

  predicate NeedsQuotes(s: string) {
    exists i :: 0 <= i < |s| && Special(s[i])
  }

  /** Replaces every `from` by `to`. */
  function ReplaceAll(s: string, from: char, to: string): string {
    if s == "" then "" else (if s[0] == from then to else [s[0]]) + ReplaceAll(s[1..], from, to)
  }

  function Escape(s: string): string {
    ReplaceAll(ReplaceAll(s, '\\', "\\\\"), '"', "\\\"")
  }

  function PrintText(s: string): string {
    if s == "" then "\"\""
    else if NeedsQuotes(s) then "\"" + Escape(s) + "\""
    else s
  }

  function FormatKvValue(v: Value): string {
    match v
    case Null => ""
    case Flag(on) => if on then "true" else "false"
    case Other(text) => PrintText(Strip(text))
  }

  /** Code-point order of strings. */
  predicate Less(a: string, b: string) {
    b != "" && (a == "" || a[0] < b[0] || (a[0] == b[0] && Less(a[1..], b[1..])))
  }

  predicate Sorted(keys: seq<string>) {
    forall i, j :: 0 <= i < j < |keys| ==> Less(keys[i], keys[j])
  }

  /** The one listing of a set of keys in sorted order. */
  ghost predicate ListsKeys(keys: seq<string>, ks: set<string>) {
    Sorted(keys) && forall k :: k in keys <==> k in ks
  }

  function Join(parts: seq<string>): string {
    if parts == [] then ""
    else if |parts| == 1 then parts[0]
    else Join(parts[..|parts| - 1]) + " " + parts[|parts| - 1]
  }

  /** The printed fields, in the order of the keys, nothing for a null value. */
  function Parts(fields: map<string, Value>, keys: seq<string>): seq<string>
    requires forall k :: k in keys ==> k in fields
  {
    if keys == [] then []
    else
      var key := keys[|keys| - 1];
      var rest := Parts(fields, keys[..|keys| - 1]);
      if fields[key].Null? then rest else rest + [key + "=" + FormatKvValue(fields[key])]
  }

  lemma {:induction false} LessIrreflexive(a: string)
    ensures !Less(a, a)
  {
    if a == "" {
    } else {
      LessIrreflexive(a[1..]);
    }
  }

  lemma {:induction false} LessTransitive(a: string, b: string, c: string)
    requires Less(a, b) && Less(b, c)
    ensures Less(a, c)
  {
    if a == "" || a[0] != b[0] || b[0] != c[0] {
    } else {
      LessTransitive(a[1..], b[1..], c[1..]);
    }
  }

  lemma {:induction false} LessTotal(a: string, b: string)
    requires a != b
    ensures Less(a, b) || Less(b, a)
  {
    if a == "" || b == "" || a[0] != b[0] {
    } else {
      assert a == [a[0]] + a[1..] && b == [b[0]] + b[1..];
      LessTotal(a[1..], b[1..]);
    }
  }

  /** A set has only one sorted listing, so the printed line is determined by the fields. */
  lemma {:induction false} ListingIsUnique(a: seq<string>, b: seq<string>, ks: set<string>)
    requires ListsKeys(a, ks) && ListsKeys(b, ks)
    ensures a == b
  {
    EmptyListing(a, ks);
    EmptyListing(b, ks);
    if a == [] {
    } else {
      FirstIsLeast(a, ks, b[0]);
      FirstIsLeast(b, ks, a[0]);
      if a[0] != b[0] {
        LessTransitive(a[0], b[0], a[0]);
        LessIrreflexive(a[0]);
      }
      RestListsRest(a, ks);
      RestListsRest(b, ks);
      ListingIsUnique(a[1..], b[1..], ks - {a[0]});
    }
  }

  lemma EmptyListing(keys: seq<string>, ks: set<string>)
    requires ListsKeys(keys, ks)
    ensures keys == [] <==> ks == {}
  {
    if keys != [] {
      assert keys[0] in keys;
    }
  }

  lemma FirstIsLeast(keys: seq<string>, ks: set<string>, k: string)
    requires ListsKeys(keys, ks) && keys != [] && k in ks
    ensures k == keys[0] || Less(keys[0], k)
  {
    assert k in keys;
  }

  lemma RestListsRest(keys: seq<string>, ks: set<string>)
    requires ListsKeys(keys, ks) && keys != []
    ensures ListsKeys(keys[1..], ks - {keys[0]})
  {
    forall i | 1 <= i < |keys|
      ensures keys[i] != keys[0]
    {
      LessIrreflexive(keys[0]);
    }
    assert keys == [keys[0]] + keys[1..];
  }

  /** Inserts a new key at its place. */
  method Insert(keys: seq<string>, k: string) returns (r: seq<string>)
    requires Sorted(keys) && k !in keys
    ensures Sorted(r) && forall x :: x in r <==> x in keys || x == k
  {
    var i := 0;
    while i < |keys| && Less(keys[i], k)
      invariant 0 <= i <= |keys|
      invariant forall j :: 0 <= j < i ==> Less(keys[j], k)
    {
      i := i + 1;
    }
    if i < |keys| {
      LessTotal(keys[i], k);
      forall j | i < j < |keys|
        ensures Less(k, keys[j])
      {
        LessTransitive(k, keys[i], keys[j]);
      }
    }
    r := keys[..i] + [k] + keys[i..];
    assert keys == keys[..i] + keys[i..];
  }

  method SortKeys(ks: set<string>) returns (keys: seq<string>)
    ensures ListsKeys(keys, ks)
  {
    keys := [];
    var pending := ks;
    while pending != {}
      invariant pending <= ks && ListsKeys(keys, ks - pending)
      decreases |pending|
    {
      var k :| k in pending;
      keys := Insert(keys, k);
      pending := pending - {k};
    }
    assert ks - pending == ks;
  }

  method FormatFields(fields: map<string, Value>) returns (line: string)
    ensures forall keys :: ListsKeys(keys, fields.Keys) ==> line == Join(Parts(fields, keys))
  {
    var keys := SortKeys(fields.Keys);
    var parts: seq<string> := [];
    for i := 0 to |keys|
      invariant parts == Parts(fields, keys[..i])
    {
      assert keys[..i + 1][..i] == keys[..i];
      var key := keys[i];
      assert key in keys;
      if !fields[key].Null? {
        parts := parts + [key + "=" + FormatKvValue(fields[key])];
      }
    }
    assert keys[..|keys|] == keys;
    line := Join(parts);
    forall other | ListsKeys(other, fields.Keys)
      ensures line == Join(Parts(fields, other))
    {
      ListingIsUnique(keys, other, fields.Keys);
    }
  }

  /** The reader. It takes a key up to the first '=', then a value, quoted or up to a blank. */
  datatype Item = Item(key: string, value: string)

  function ReadUntil(s: string, stop: char): (r: (string, string))
    ensures |r.0| + |r.1| == |s|
    ensures stop !in r.0
    ensures r.1 == "" || r.1[0] == stop
  {
    if s == "" || s[0] == stop then ("", s)
    else
      var (word, rest) := ReadUntil(s[1..], stop);
      ([s[0]] + word, rest)
  }

  function ReadQuoted(s: string): (r: Option<(string, string)>)
    ensures r.Some? ==> |r.value.1| < |s|
  {
    if s == "" then None
    else if s[0] == '"' then Some(("", s[1..]))
    else if s[0] == '\\' && |s| == 1 then None
    else
      var skip := if s[0] == '\\' then 1 else 0;
      match ReadQuoted(s[skip + 1..])
      case None => None
      case Some((text, rest)) => Some(([s[skip]] + text, rest))
  }

  function ReadValue(s: string): (r: Option<(string, string)>)
    ensures r.Some? ==> |r.value.1| <= |s|
  {
    if s != "" && s[0] == '"' then ReadQuoted(s[1..]) else Some(ReadUntil(s, ' '))
  }

  function Decode(s: string): Option<seq<Item>>
    decreases |s|
  {
    if s == "" then Some([])
    else
      var (key, afterKey) := ReadUntil(s, '=');
      if afterKey == "" then None
      else
        match ReadValue(afterKey[1..])
        case None => None
        case Some((value, rest)) =>
          if rest == "" then Some([Item(key, value)])
          else if rest[0] != ' ' || rest == " " then None
          else
            match Decode(rest[1..])
            case None => None
            case Some(items) => Some([Item(key, value)] + items)
  }

  function Printed(items: seq<Item>): seq<string> {
    if items == [] then []
    else Printed(items[..|items| - 1]) + [PrintItem(items[|items| - 1])]
  }

  function PrintItem(x: Item): string {
    x.key + "=" + PrintText(x.value)
  }

  /** What a field holds once printed: the stripped text. */
  function Plain(v: Value): string {
    match v
    case Null => ""
    case Flag(on) => if on then "true" else "false"
    case Other(text) => Strip(text)
  }

  /** The non-null fields in the order of the keys. */
  function Items(fields: map<string, Value>, keys: seq<string>): seq<Item>
    requires forall k :: k in keys ==> k in fields
  {
    if keys == [] then []
    else
      var key := keys[|keys| - 1];
      var rest := Items(fields, keys[..|keys| - 1]);
      if fields[key].Null? then rest else rest + [Item(key, Plain(fields[key]))]
  }

  lemma ReplaceCons(c: char, t: string, from: char, to: string)
    ensures ReplaceAll([c] + t, from, to) == (if c == from then to else [c]) + ReplaceAll(t, from, to)
  {
    assert ([c] + t)[1..] == t;
  }

  /** How one character is written between quotes. */
  function Escaped(c: char): string {
    if c == '\\' then "\\\\" else if c == '"' then "\\\"" else [c]
  }

  /** Escaping works character by character. */
  lemma EscapeStep(s: string)
    requires s != ""
    ensures Escape(s) == Escaped(s[0]) + Escape(s[1..])
  {
    var tail := ReplaceAll(s[1..], '\\', "\\\\");
    if s[0] == '\\' {
      assert ReplaceAll(s, '\\', "\\\\") == ['\\'] + (['\\'] + tail);
      ReplaceCons('\\', ['\\'] + tail, '"', "\\\"");
      ReplaceCons('\\', tail, '"', "\\\"");
    } else {
      ReplaceCons(s[0], tail, '"', "\\\"");
    }
  }

  lemma ReadOne(c: char, tail: string)
    ensures ReadQuoted(Escaped(c) + tail) ==
            match ReadQuoted(tail) case None => None case Some((text, rest)) => Some(([c] + text, rest))
  {
    var lead := Escaped(c);
    assert (lead + tail)[|lead|..] == tail;
  }

  lemma {:induction false} ReadEscaped(s: string, rest: string)
    ensures ReadQuoted(Escape(s) + "\"" + rest) == Some((s, rest))
  {
    if s == "" {
      assert Escape(s) + "\"" + rest == ['"'] + rest;
    } else {
      EscapeStep(s);
      ReadEscaped(s[1..], rest);
      var tail := Escape(s[1..]) + "\"" + rest;
      assert Escape(s) + "\"" + rest == Escaped(s[0]) + tail;
      ReadOne(s[0], tail);
      assert s == [s[0]] + s[1..];
    }
  }

  lemma {:induction false} ReadBare(s: string, rest: string, stop: char)
    requires stop !in s && (rest == "" || rest[0] == stop)
    ensures ReadUntil(s + rest, stop) == (s, rest)
  {
    if s == "" {
      assert s + rest == rest;
    } else {
      assert (s + rest)[1..] == s[1..] + rest;
      ReadBare(s[1..], rest, stop);
      assert s == [s[0]] + s[1..];
    }
  }

  lemma ReadQuotedText(s: string, rest: string)
    ensures ReadValue("\"" + Escape(s) + "\"" + rest) == Some((s, rest))
  {
    var line := "\"" + Escape(s) + "\"" + rest;
    assert line[1..] == Escape(s) + "\"" + rest;
    ReadEscaped(s, rest);
  }

  lemma NoBlank(s: string)
    requires !NeedsQuotes(s)
    ensures ' ' !in s && (s != "" ==> s[0] != '"')
  {
    assert Special(' ') && Special('"');
  }

  /** Whatever a printed value is followed by, the reader finds its end and its text. */
  lemma ReadPrinted(s: string, rest: string)
    requires rest == "" || rest[0] == ' '
    ensures ReadValue(PrintText(s) + rest) == Some((s, rest))
  {
    if s == "" {
      assert "\"\"" == "\"" + Escape("") + "\"";
      ReadQuotedText("", rest);
    } else if NeedsQuotes(s) {
      ReadQuotedText(s, rest);
    } else {
      NoBlank(s);
      ReadBare(s, rest, ' ');
    }
  }

  /** Joining from the front, as the reader reads. */
  function FrontJoin(parts: seq<string>): string {
    if parts == [] then ""
    else if |parts| == 1 then parts[0]
    else parts[0] + " " + FrontJoin(parts[1..])
  }

  lemma {:induction false} FrontJoinSnoc(parts: seq<string>, last: string)
    requires parts != []
    ensures FrontJoin(parts + [last]) == FrontJoin(parts) + " " + last
  {
    assert (parts + [last])[1..] == parts[1..] + [last];
    if |parts| <= 1 {
    } else {
      FrontJoinSnoc(parts[1..], last);
    }
  }

  lemma {:induction false} JoinBothWays(parts: seq<string>)
    ensures Join(parts) == FrontJoin(parts)
  {
    if |parts| <= 1 {
    } else {
      var init, last := parts[..|parts| - 1], parts[|parts| - 1];
      JoinBothWays(init);
      assert parts == init + [last];
      FrontJoinSnoc(init, last);
    }
  }

  lemma {:induction false} PrintedCons(items: seq<Item>)
    requires items != []
    ensures Printed(items) == [PrintItem(items[0])] + Printed(items[1..])
    ensures |Printed(items)| == |items|
  {
    if |items| <= 1 {
    } else {
      var init := items[..|items| - 1];
      PrintedCons(init);
      assert init[1..] == items[1..][..|items| - 2];
    }
  }

  /** What the reader makes of an item and the text behind it. */
  function ItemThen(x: Item, rest: string): Option<seq<Item>> {
    if rest == "" then Some([x])
    else match Decode(rest[1..]) case None => None case Some(items) => Some([x] + items)
  }

  lemma DecodeStep(s: string, x: Item, afterKey: string, rest: string)
    requires s != "" && ReadUntil(s, '=') == (x.key, afterKey) && afterKey != ""
    requires ReadValue(afterKey[1..]) == Some((x.value, rest))
    requires rest == "" || (rest[0] == ' ' && rest != " ")
    ensures Decode(s) == ItemThen(x, rest)
  {
  }

  lemma ReadItemKey(key: string, after: string)
    requires '=' !in key
    ensures ReadUntil(key + ("=" + after), '=') == (key, "=" + after)
    ensures ("=" + after)[1..] == after
  {
    ReadBare(key, "=" + after, '=');
  }

  lemma PrintedThen(x: Item, rest: string)
    ensures PrintItem(x) + rest == x.key + ("=" + (PrintText(x.value) + rest))
  {
  }

  /** One step of the reader on a printed item with a key it can read. */
  lemma DecodeItem(x: Item, rest: string)
    requires '=' !in x.key && (rest == "" || (rest[0] == ' ' && rest != " "))
    ensures Decode(PrintItem(x) + rest) == ItemThen(x, rest)
  {
    var after := PrintText(x.value) + rest;
    PrintedThen(x, rest);
    ReadItemKey(x.key, after);
    ReadPrinted(x.value, rest);
    DecodeStep(PrintItem(x) + rest, x, "=" + after, rest);
  }

  /** The reader never returns a key with '=' in it. */
  lemma {:induction false} DecodedKeys(s: string)
    ensures Decode(s).Some? ==> forall i :: 0 <= i < |Decode(s).value| ==> '=' !in Decode(s).value[i].key
    decreases |s|
  {
    var (key, afterKey) := ReadUntil(s, '=');
    if afterKey == "" {
    } else {
      var value := ReadValue(afterKey[1..]);
      if value.Some? && value.value.1 != "" {
        DecodedKeys(value.value.1[1..]);
      }
    }
  }

  lemma FrontJoinCons(first: string, rest: seq<string>)
    ensures FrontJoin([first] + rest) == if rest == [] then first else first + (" " + FrontJoin(rest))
  {
    assert ([first] + rest)[1..] == rest;
  }

  lemma PrintItemIsNotEmpty(x: Item)
    ensures PrintItem(x) != ""
  {
  }

  /** The rendered items, from the first one on. */
  lemma {:induction false} RenderedCons(items: seq<Item>)
    requires items != []
    ensures FrontJoin(Printed(items)) ==
            if |items| == 1 then PrintItem(items[0]) else PrintItem(items[0]) + (" " + FrontJoin(Printed(items[1..])))
    ensures FrontJoin(Printed(items)) != ""
  {
    var first, rest := PrintItem(items[0]), Printed(items[1..]);
    PrintedCons(items);
    assert rest == [] <==> |items| == 1;
    FrontJoinCons(first, rest);
    PrintItemIsNotEmpty(items[0]);
  }

  lemma ItemThenItems(x: Item, s: string, items: seq<Item>)
    requires Decode(s) == Some(items)
    ensures ItemThen(x, " " + s) == Some([x] + items)
  {
    assert (" " + s)[1..] == s;
  }

  lemma {:induction false} DecodeRender(items: seq<Item>)
    requires forall i :: 0 <= i < |items| ==> '=' !in items[i].key
    ensures Decode(FrontJoin(Printed(items))) == Some(items)
  {
    if items == [] {
    } else {
      RenderedCons(items);
      var rest := FrontJoin(Printed(items[1..]));
      if |items| == 1 {
        DecodeItem(items[0], "");
        assert PrintItem(items[0]) + "" == PrintItem(items[0]);
        assert items == [items[0]];
      } else {
        RenderedCons(items[1..]);
        DecodeItem(items[0], " " + rest);
        DecodeRender(items[1..]);
        ItemThenItems(items[0], rest, items[1..]);
        assert items == [items[0]] + items[1..];
      }
    }
  }

  /** Main result. The reader recovers the printed items, whatever the values hold, exactly when
      no key contains '='. */
  lemma {:induction false} DecodeRenderIff(items: seq<Item>)
    ensures Decode(Join(Printed(items))) == Some(items) <==> forall i :: 0 <= i < |items| ==> '=' !in items[i].key
  {
    JoinBothWays(Printed(items));
    DecodedKeys(Join(Printed(items)));
    if forall i :: 0 <= i < |items| ==> '=' !in items[i].key {
      DecodeRender(items);
    }
  }

  lemma LettersNeedNoQuotes(s: string)
    requires forall i :: 0 <= i < |s| ==> 'a' <= s[i] <= 'z'
    ensures !NeedsQuotes(s)
  {
  }

  lemma PlainIsPrinted(v: Value)
    requires !v.Null?
    ensures FormatKvValue(v) == PrintText(Plain(v))
  {
    LettersNeedNoQuotes("true");
    LettersNeedNoQuotes("false");
  }

  /** The program prints each field as the reader's item for it. */
  lemma {:induction false} PartsArePrinted(fields: map<string, Value>, keys: seq<string>)
    requires forall k :: k in keys ==> k in fields
    ensures Parts(fields, keys) == Printed(Items(fields, keys))
  {
    if keys == [] {
    } else {
      var init, key := keys[..|keys| - 1], keys[|keys| - 1];
      PartsArePrinted(fields, init);
      if !fields[key].Null? {
        PlainIsPrinted(fields[key]);
        var items := Items(fields, init);
        assert (items + [Item(key, Plain(fields[key]))])[..|items|] == items;
      }
    }
  }

  lemma {:induction false} ItemKeys(fields: map<string, Value>, keys: seq<string>)
    requires forall k :: k in keys ==> k in fields
    ensures forall x :: x in Items(fields, keys) ==>
        x.key in keys && !fields[x.key].Null? && x.value == Plain(fields[x.key])
    ensures forall k :: k in keys && !fields[k].Null? ==> Item(k, Plain(fields[k])) in Items(fields, keys)
  {
    if keys == [] {
    } else {
      ItemKeys(fields, keys[..|keys| - 1]);
    }
  }

  /** Main result for field maps. Reading back the printed line gives exactly the non-null fields,
      sorted, with their stripped texts, whatever the values hold, exactly when no key of a
      non-null field contains '='. */
  lemma FieldsRoundTripIff(fields: map<string, Value>, keys: seq<string>)
    requires ListsKeys(keys, fields.Keys)
    ensures Decode(Join(Parts(fields, keys))) == Some(Items(fields, keys)) <==>
            forall k :: k in fields && !fields[k].Null? ==> '=' !in k
  {
    PartsArePrinted(fields, keys);
    var items := Items(fields, keys);
    DecodeRenderIff(items);
    ItemKeys(fields, keys);
    assert (forall i :: 0 <= i < |items| ==> '=' !in items[i].key) <==> (forall x :: x in items ==> '=' !in x.key);
    assert forall k :: k in fields && !fields[k].Null? ==> Item(k, Plain(fields[k])) in items;
  }

  /** So two field maps that print alike hold the same texts. */
  lemma {:induction false} SameLineSameFields(a: map<string, Value>, ka: seq<string>, b: map<string, Value>,
      kb: seq<string>)
    requires ListsKeys(ka, a.Keys) && ListsKeys(kb, b.Keys)
    requires forall k :: k in a && !a[k].Null? ==> '=' !in k
    requires forall k :: k in b && !b[k].Null? ==> '=' !in k
    requires Join(Parts(a, ka)) == Join(Parts(b, kb))
    ensures forall k :: (k in a && !a[k].Null?) <==> (k in b && !b[k].Null?)
    ensures forall k :: k in a && !a[k].Null? ==> Plain(a[k]) == Plain(b[k])
  {
    FieldsRoundTripIff(a, ka);
    FieldsRoundTripIff(b, kb);
    ItemKeys(a, ka);
    ItemKeys(b, kb);
    assert Items(a, ka) == Items(b, kb);
    forall k | (k in a && !a[k].Null?) || (k in b && !b[k].Null?)
      ensures k in a && k in b && !a[k].Null? && !b[k].Null? && Plain(a[k]) == Plain(b[k])
    {
      var x := if k in a && !a[k].Null? then Item(k, Plain(a[k])) else Item(k, Plain(b[k]));
      assert x in Items(a, ka);
    }
  }

  /** With '=' in a key the line is ambiguous: these two maps print the same. */
  lemma EqualsInKeyIsAmbiguous()
    ensures Join(Printed([Item("x=y z", "t")])) == Join(Printed([Item("x", "y"), Item("z", "t")]))
  {
    var two := [Item("x", "y"), Item("z", "t")];
    PrintedCons(two);
    PrintedCons([Item("x=y z", "t")]);
    PrintedCons(two[1..]);
    assert two[1..] == [Item("z", "t")] && two[1..][1..] == [];
    LettersNeedNoQuotes("t");
    LettersNeedNoQuotes("y");
    JoinSnoc([PrintItem(two[0])], PrintItem(two[1]));
    assert "x=y z" + "=" + "t" == "x" + "=" + "y" + " " + ("z" + "=" + "t");
  }

  /** The part of a line before the fields. */
  datatype LineHead = LineHead(
    timestamp: string,
    level: string,
    account: string,
    cycle: Option<string>,
    event: string)
  {
    /** No part holds a blank, and the event name no '='. */
    predicate Plain() {
      && ' ' !in timestamp && ' ' !in level && ' ' !in account && ' ' !in event && '=' !in event
      && (cycle.Some? ==> ' ' !in cycle.value)
    }
  }

  function FormatLogLine(h: LineHead, tail: string): string {
    var cycle := if h.cycle.Some? then ["cycle=" + h.cycle.value] else [];
    var head := [h.timestamp, h.level, h.account] + cycle + [h.event];
    Join(head + if tail != "" then [tail] else [])
  }

  /** A word up to the next blank, and what follows the blank. */
  function Word(s: string): (string, string) {
    var (word, rest) := ReadUntil(s, ' ');
    (word, if rest == "" then "" else rest[1..])
  }

  function ReadLine(line: string): (LineHead, string) {
    var (timestamp, r1) := Word(line);
    var (level, r2) := Word(r1);
    var (account, r3) := Word(r2);
    var (fourth, r4) := Word(r3);
    if StartsWith(fourth, "cycle=") then
      var (event, tail) := Word(r4);
      (LineHead(timestamp, level, account, Some(fourth[6..]), event), tail)
    else (LineHead(timestamp, level, account, None, fourth), r4)
  }

  lemma WordOf(word: string, rest: string)
    requires ' ' !in word
    ensures Word(word + " " + rest) == (word, rest)
    ensures Word(word) == (word, "")
  {
    assert word + " " + rest == word + (" " + rest);
    ReadBare(word, " " + rest, ' ');
    assert (" " + rest)[1..] == rest;
    ReadBare(word, "", ' ');
    assert word + "" == word;
  }

  /** A whole line, with or without a cycle and with or without fields, can be taken apart. */
  lemma LineRoundTrip(h: LineHead, tail: string)
    requires h.Plain()
    ensures ReadLine(FormatLogLine(h, tail)) == (h, tail)
  {
    var cycle := if h.cycle.Some? then "cycle=" + h.cycle.value else "";
    var end := if tail == "" then h.event else h.event + " " + tail;
    var middle := if h.cycle.Some? then cycle + " " + end else end;
    LineFromFront(h, tail);
    WordOf(h.timestamp, h.level + " " + (h.account + " " + middle));
    WordOf(h.level, h.account + " " + middle);
    WordOf(h.account, middle);
    WordOf(h.event, tail);
    if h.cycle.Some? {
      forall c | c in cycle
        ensures c != ' '
      {
        assert c in "cycle=" || c in h.cycle.value;
      }
      WordOf(cycle, end);
    } else {
      NotACycle(h.event);
    }
  }

  lemma NotACycle(event: string)
    requires '=' !in event
    ensures !StartsWith(event, "cycle=")
  {
    if |event| >= 6 {
      assert event[5] in event;
    }
  }

  lemma LineFromFront(h: LineHead, tail: string)
    ensures var end := if tail == "" then h.event else h.event + " " + tail;
            var middle := if h.cycle.Some? then "cycle=" + h.cycle.value + " " + end else end;
            FormatLogLine(h, tail) == h.timestamp + " " + (h.level + " " + (h.account + " " + middle))
  {
    var t, l, a, e := h.timestamp, h.level, h.account, h.event;
    JoinThree(t, l, a);
    if h.cycle.Some? {
      var c := "cycle=" + h.cycle.value;
      JoinSnoc([t, l, a], c);
      JoinSnoc([t, l, a] + [c], e);
      JoinSnoc([t, l, a] + [c] + [e], tail);
      assert [t, l, a] + [c] + [e] + [] == [t, l, a] + [c] + [e];
    } else {
      JoinSnoc([t, l, a], e);
      JoinSnoc([t, l, a] + [e], tail);
      assert [t, l, a] + [] + [e] == [t, l, a] + [e];
      assert [t, l, a] + [e] + [] == [t, l, a] + [e];
    }
  }

  lemma JoinSnoc(parts: seq<string>, last: string)
    requires parts != []
    ensures Join(parts + [last]) == Join(parts) + " " + last
  {
    assert (parts + [last])[..|parts|] == parts;
  }

  lemma JoinThree(a: string, b: string, c: string)
    ensures Join([a, b, c]) == a + " " + b + " " + c
  {
    JoinSnoc([a], b);
    JoinSnoc([a] + [b], c);
    assert [a] + [b] + [c] == [a, b, c];
  }

  lemma {:induction false} EscapeGrows(s: string)
    ensures |Escape(s)| >= |s|
  {
    if s == "" {
    } else {
      EscapeStep(s);
      EscapeGrows(s[1..]);
    }
  }

  /** A value is printed as it is exactly if it holds text without blanks, equals signs, bars and quotes;
      any other one stands in double quotes. Truth values are printed as words. */
  lemma {:induction false} PrintedBareIff(text: string)
    ensures var s, printed := Strip(text), FormatKvValue(Other(text));
            && (printed == s <==>
                  && s != ""
                  && forall i :: 0 <= i < |s| ==> !IsSpace(s[i]) && s[i] !in {'=', '|', '"', '\''})
            && (printed != s ==> |printed| >= 2 && printed[0] == '"' && printed[|printed| - 1] == '"')
    ensures FormatKvValue(Flag(true)) == "true" && FormatKvValue(Flag(false)) == "false"
  {
    EscapeGrows(Strip(text));
  }
}
