/** Links to Telegram posts and the short labels made from them. */
module PostingMode {
  import opened Wrappers
  import opened Text

  datatype Post = Post(peer: string, messageId: nat, shortLabel: string)

  /** `NoPeer` stands for the index error raised when a bare number is followed by a slash. */
  datatype LinkError = Missing | NotAPostLink | NoPeer

  predicate StartsWithNoCase(s: string, prefix: string) {
    |prefix| <= |s| && Lower(s[..|prefix|]) == prefix
  }

  function Skip(s: string, prefix: string): string {
    if StartsWithNoCase(s, prefix) then s[|prefix|..] else s
  }

  function WithoutScheme(text: string): string {
    if StartsWithNoCase(text, "https://") then text[8..] else Skip(text, "http://")
  }

  /** What follows an optional scheme, an optional "www." and the host. */
  function AfterHost(text: string): Option<string> {
    var rest := Skip(WithoutScheme(text), "www.");
    if StartsWithNoCase(rest, "t.me/") then Some(rest[5..]) else None
  }

  /** The part up to the first slash, and the part from it on. */
  function UntilSlash(s: string): (r: (string, string))
    ensures '/' !in r.0 && r.0 + r.1 == s
  {
    if s == "" || s[0] == '/' then ("", s)
    else
      var (word, rest) := UntilSlash(s[1..]);
      ([s[0]] + word, rest)
  }

  predicate IsWordChar(c: char) {
    'a' <= c <= 'z' || 'A' <= c <= 'Z' || IsDigit(c) || c == '_'
  }

  predicate IsWord(s: string) {
    s != "" && forall i :: 0 <= i < |s| ==> IsWordChar(s[i])
  }

  /** "host/c/channel/message", both numbers. */
  function MatchPrivate(text: string): (r: Option<(string, string)>)
    ensures r.Some? ==> IsDigits(r.value.0) && IsDigits(r.value.1)
  {
    match AfterHost(text)
    case None => None
    case Some(path) =>
      if !StartsWithNoCase(path, "c/") then None
      else
        var (channel, rest) := UntilSlash(path[2..]);
        if IsDigits(channel) && rest != "" && IsDigits(rest[1..]) then Some((channel, rest[1..])) else None
  }

  /** "host/username/message". */
  function MatchPublic(text: string): (r: Option<(string, string)>)
    ensures r.Some? ==> IsWord(r.value.0) && IsDigits(r.value.1)
  {
    match AfterHost(text)
    case None => None
    case Some(path) =>
      var (username, rest) := UntilSlash(path);
      if IsWord(username) && rest != "" && IsDigits(rest[1..]) then Some((username, rest[1..])) else None
  }

  function DropTrailingSlashes(s: string): string {
    if s != "" && s[|s| - 1] == '/' then DropTrailingSlashes(s[..|s| - 1]) else s
  }

  predicate EndsWith(s: string, end: string) {
    |end| <= |s| && s[|s| - |end|..] == end
  }

  /** The last segment of a path, and what comes before its slash. */
  function LastSegment(s: string): (r: string)
    ensures '/' !in r && EndsWith(s, r)
    ensures r == s || s[|s| - |r| - 1] == '/'
  {
    if s == "" || s[|s| - 1] == '/' then "" else LastSegment(s[..|s| - 1]) + [s[|s| - 1]]
  }

  function BeforeLastSegment(s: string): string
    requires '/' in s
  {
    if s[|s| - 1] == '/' then s[..|s| - 1]
    else
      assert s == s[..|s| - 1] + [s[|s| - 1]];
      BeforeLastSegment(s[..|s| - 1])
  }

  function PrivatePost(channel: string, id: nat): Post {
    Post("-100" + channel, id, "c/" + channel + "/" + NatText(id))
  }

  function PublicPost(username: string, id: nat): Post {
    Post("@" + username, id, "@" + username + "/" + NatText(id))
  }

  function ParseFallback(text: string): Result<Post, LinkError> {
    var path := DropTrailingSlashes(text);
    if '/' !in text || !IsDigits(LastSegment(path)) then Err(NotAPostLink)
    else if '/' !in path then Err(NoPeer)
    else
      var id := ToNat(LastSegment(path));
      var peer := DropAts(LastSegment(BeforeLastSegment(path)));
      if IsDigits(peer) then Ok(PrivatePost(peer, id)) else Ok(PublicPost(peer, id))
  }

  function ParseForwardSourceUrl(url: string): Result<Post, LinkError> {
    var text := Strip(url);
    if text == "" then Err(Missing)
    else
      match MatchPrivate(text)
      case Some((channel, id)) => Ok(PrivatePost(NatText(ToNat(channel)), ToNat(id)))
      case None =>
        match MatchPublic(text)
        case Some((username, id)) => Ok(PublicPost(DropAts(username), ToNat(id)))
        case None => ParseFallback(text)
  }

  lemma {:induction false} LastSegmentOf(prefix: string, last: string)
    requires '/' !in last
    ensures LastSegment(prefix + "/" + last) == last
    ensures BeforeLastSegment(prefix + "/" + last) == prefix
  {
    var s := prefix + "/" + last;
    if last == "" {
      assert s == prefix + "/" && s[..|s| - 1] == prefix;
    } else {
      var init := last[..|last| - 1];
      assert s[..|s| - 1] == prefix + "/" + init && s[|s| - 1] == last[|last| - 1];
      assert last == init + [last[|last| - 1]];
      LastSegmentOf(prefix, init);
    }
  }

  lemma {:induction false} SegmentWithoutSlash(s: string)
    requires '/' !in s
    ensures LastSegment(s) == s
  {
    if s == "" {
    } else {
      var init := s[..|s| - 1];
      assert s == init + [s[|s| - 1]];
      SegmentWithoutSlash(init);
    }
  }

  lemma DigitsHaveNoSlash(s: string)
    requires IsDigits(s)
    ensures '/' !in s && !IsSpace(s[|s| - 1]) && s[|s| - 1] != '/' && DropAts(s) == s
  {
  }

  /** A short label "segment/number" is read by the fallback branch: the host patterns fail. */
  lemma LabelIsReadByFallback(segment: string, id: nat)
    requires segment != "" && (segment[0] == '@' || segment[0] == 'c')
    ensures ParseForwardSourceUrl(segment + "/" + NatText(id)) == ParseFallback(segment + "/" + NatText(id))
  {
    var text := segment + "/" + NatText(id);
    DigitsHaveNoSlash(NatText(id));
    assert text[0] == segment[0] && text[|text| - 1] == NatText(id)[|NatText(id)| - 1];
    assert !IsSpace(text[0]);
    StripFixed(text);
    NoHost(text);
  }

  lemma NoHost(text: string)
    requires text != "" && (text[0] == '@' || text[0] == 'c' || IsDigit(text[0]))
    ensures AfterHost(text) == None
  {
    OtherFirstChar(text, "https://");
    OtherFirstChar(text, "http://");
    OtherFirstChar(text, "www.");
    OtherFirstChar(text, "t.me/");
  }

  lemma OtherFirstChar(text: string, prefix: string)
    requires text != "" && prefix != "" && LowerChar(text[0]) != prefix[0]
    ensures !StartsWithNoCase(text, prefix)
  {
    if |prefix| <= |text| {
      assert Lower(text[..|prefix|])[0] == LowerChar(text[0]);
    }
  }

  lemma {:induction false} FallbackOf(before: string, last: string, id: nat)
    requires '/' !in last
    ensures var text := before + "/" + last + "/" + NatText(id);
            ParseFallback(text) ==
            if IsDigits(DropAts(last)) then Ok(PrivatePost(DropAts(last), id)) else Ok(PublicPost(DropAts(last), id))
  {
    var path := before + "/" + last;
    var text := path + "/" + NatText(id);
    DigitsHaveNoSlash(NatText(id));
    assert text[|text| - 1] == NatText(id)[|NatText(id)| - 1];
    LastSegmentOf(path, NatText(id));
    LastSegmentOf(before, last);
    NatTextRoundTrip(id);
  }

  lemma {:induction false} FallbackOfOne(last: string, id: nat)
    requires '/' !in last
    ensures ParseFallback(last + "/" + NatText(id)) ==
            if IsDigits(DropAts(last)) then Ok(PrivatePost(DropAts(last), id)) else Ok(PublicPost(DropAts(last), id))
  {
    var text := last + "/" + NatText(id);
    DigitsHaveNoSlash(NatText(id));
    assert text[|text| - 1] == NatText(id)[|NatText(id)| - 1];
    LastSegmentOf(last, NatText(id));
    SegmentWithoutSlash(last);
    NatTextRoundTrip(id);
  }

  lemma PrivateLabelFallsBack(channel: string, id: nat)
    requires IsDigits(channel)
    ensures ParseFallback("c" + "/" + channel + "/" + NatText(id)) == Ok(PrivatePost(channel, id))
  {
    DigitsHaveNoSlash(channel);
    FallbackOf("c", channel, id);
  }

  lemma SameLabel(channel: string, id: string)
    ensures "c/" + channel + "/" + id == "c" + "/" + channel + "/" + id
  {
    assert "c/" == "c" + "/";
  }

  /** The label of a private post reads back as that post. */
  lemma PrivateLabelReadsBack(channel: string, id: nat)
    requires IsDigits(channel)
    ensures ParseForwardSourceUrl(PrivatePost(channel, id).shortLabel) == Ok(PrivatePost(channel, id))
  {
    PrivateLabelFallsBack(channel, id);
    LabelIsReadByFallback("c" + "/" + channel, id);
    SameLabel(channel, NatText(id));
  }

  /** The label of a public post reads back as the private or public post of the same segment. */
  lemma PublicLabelReadsBack(username: string, id: nat)
    requires '/' !in username && (username == "" || username[0] != '@')
    ensures ParseForwardSourceUrl(PublicPost(username, id).shortLabel) ==
            Ok(if IsDigits(username) then PrivatePost(username, id) else PublicPost(username, id))
  {
    var segment := "@" + username;
    assert DropAts(segment) == username by {
      assert segment[1..] == username;
    }
    LabelIsReadByFallback(segment, id);
    FallbackOfOne(segment, id);
  }

  /** A post whose peer is an all-digit user name. */
  predicate AllDigitUser(p: Post) {
    p.peer != "" && p.peer[0] == '@' && IsDigits(p.peer[1..])
  }

  /** A path segment without leading '@'. */
  predicate IsSegment(s: string) {
    '/' !in s && (s == "" || s[0] != '@')
  }

  /** What a parsed post can be. */
  lemma {:induction false} ParsedForms(url: string)
    ensures ParseForwardSourceUrl(url).Ok? ==>
            var p := ParseForwardSourceUrl(url).value;
            || (exists channel :: IsDigits(channel) && p == PrivatePost(channel, p.messageId))
            || (exists username :: IsSegment(username) && p == PublicPost(username, p.messageId))
  {
    if ParseForwardSourceUrl(url).Err? {
      return;
    }
    var text := Strip(url);
    var p := ParseForwardSourceUrl(url).value;
    if MatchPrivate(text).Some? {
      assert p == PrivatePost(NatText(ToNat(MatchPrivate(text).value.0)), p.messageId);
    } else if MatchPublic(text).Some? {
      var username := MatchPublic(text).value.0;
      assert DropAts(username) == username && '/' !in username;
      assert p == PublicPost(username, p.messageId);
    } else {
      var last := LastSegment(BeforeLastSegment(DropTrailingSlashes(text)));
      DropAtsIsPart(last);
      assert p == PrivatePost(DropAts(last), p.messageId) || p == PublicPost(DropAts(last), p.messageId);
    }
  }

  lemma {:induction false} DropAtsIsPart(s: string)
    ensures forall c :: c in DropAts(s) ==> c in s
  {
    if s == "" || s[0] != '@' {
    } else {
      DropAtsIsPart(s[1..]);
    }
  }

  /** A link names an all-digit user exactly when it is a public link with an all-digit name. */
  predicate NamesDigitUser(text: string) {
    MatchPrivate(text).None? && MatchPublic(text).Some? && IsDigits(MatchPublic(text).value.0)
  }

  lemma {:induction false} DigitUserIff(url: string)
    ensures ParseForwardSourceUrl(url).Ok? ==>
              (AllDigitUser(ParseForwardSourceUrl(url).value) <==> NamesDigitUser(Strip(url)))
  {
    if ParseForwardSourceUrl(url).Err? {
      return;
    }
    var text := Strip(url);
    var p := ParseForwardSourceUrl(url).value;
    if MatchPrivate(text).Some? {
      assert p.peer[0] == '-';
    } else if MatchPublic(text).Some? {
      var username := MatchPublic(text).value.0;
      WordHasNoSlash(username);
      assert p.peer[1..] == username;
    } else {
      var peer := DropAts(LastSegment(BeforeLastSegment(DropTrailingSlashes(text))));
      assert ("@" + peer)[1..] == peer && ("-100" + peer)[0] == '-';
    }
  }

  /** Main result. Whenever a link is accepted, its label is a canonical link, giving the same
      peer, message and label, exactly when the link does not name an all-digit user. */
  lemma {:induction false} LabelIsCanonicalIff(url: string)
    ensures ParseForwardSourceUrl(url).Ok? ==>
            var p := ParseForwardSourceUrl(url).value;
            (ParseForwardSourceUrl(p.shortLabel) == Ok(p) <==> !AllDigitUser(p)) &&
            (AllDigitUser(p) <==> NamesDigitUser(Strip(url)))
  {
    if ParseForwardSourceUrl(url).Err? {
      return;
    }
    ParsedForms(url);
    DigitUserIff(url);
    var p := ParseForwardSourceUrl(url).value;
    if channel :| IsDigits(channel) && p == PrivatePost(channel, p.messageId) {
      PrivateLabelReadsBack(channel, p.messageId);
      assert p.peer[0] == '-';
    } else {
      var username :| IsSegment(username) && p == PublicPost(username, p.messageId);
      PublicLabelReadsBack(username, p.messageId);
      assert p.peer[1..] == username;
      assert PrivatePost(username, p.messageId).peer[0] == '-';
    }
  }

  /** The label of the label is always canonical: an all-digit user name turns once into a
      private channel and then stays. */
  lemma {:induction false} LabelsSettle(url: string)
    ensures ParseForwardSourceUrl(url).Ok? ==>
            var p := ParseForwardSourceUrl(url).value;
            && ParseForwardSourceUrl(p.shortLabel).Ok?
            && ParseForwardSourceUrl(p.shortLabel).value.messageId == p.messageId
            && var q := ParseForwardSourceUrl(p.shortLabel).value;
               ParseForwardSourceUrl(q.shortLabel) == Ok(q)
  {
    if ParseForwardSourceUrl(url).Err? {
      return;
    }
    ParsedForms(url);
    var p := ParseForwardSourceUrl(url).value;
    if channel :| IsDigits(channel) && p == PrivatePost(channel, p.messageId) {
      PrivateLabelReadsBack(channel, p.messageId);
    } else {
      var username :| IsSegment(username) && p == PublicPost(username, p.messageId);
      PublicLabelReadsBack(username, p.messageId);
      if IsDigits(username) {
        PrivateLabelReadsBack(username, p.messageId);
      }
    }
  }

  datatype Scheme = Https | Http | Bare

  function SchemeText(scheme: Scheme): string {
    match scheme
    case Https => "https://"
    case Http => "http://"
    case Bare => ""
  }

  function HostText(scheme: Scheme, www: bool): string {
    SchemeText(scheme) + ((if www then "www." else "") + "t.me/")
  }

  /** Text that begins with a lower-case prefix, and what is left without it. */
  lemma PrefixIsSeen(prefix: string, rest: string)
    requires forall i :: 0 <= i < |prefix| ==> !('A' <= prefix[i] <= 'Z')
    ensures StartsWithNoCase(prefix + rest, prefix) && (prefix + rest)[|prefix|..] == rest
  {
    assert (prefix + rest)[..|prefix|] == prefix;
    assert Lower(prefix) == prefix;
  }

  function Site(www: bool, path: string): string {
    (if www then "www." else "") + ("t.me/" + path)
  }

  lemma WwwIsSkipped(www: bool, path: string)
    ensures Skip(Site(www, path), "www.") == "t.me/" + path
    ensures !StartsWithNoCase(Site(www, path), "https://") && !StartsWithNoCase(Site(www, path), "http://")
  {
    var tail := "t.me/" + path;
    if www {
      PrefixIsSeen("www.", tail);
    } else {
      assert Site(www, path) == tail;
      OtherFirstChar(tail, "www.");
    }
    assert Site(www, path)[0] == 'w' || Site(www, path)[0] == 't';
    OtherFirstChar(Site(www, path), "https://");
    OtherFirstChar(Site(www, path), "http://");
  }

  lemma SchemeIsSkipped(scheme: Scheme, site: string)
    requires !StartsWithNoCase(site, "https://") && !StartsWithNoCase(site, "http://")
    ensures WithoutScheme(SchemeText(scheme) + site) == site
  {
    match scheme {
      case Https => PrefixIsSeen("https://", site);
      case Http =>
        PrefixIsSeen("http://", site);
        HttpIsNotHttps(site);
      case Bare => assert "" + site == site;
    }
  }

  lemma HostIsSkipped(scheme: Scheme, www: bool, path: string)
    ensures AfterHost(HostText(scheme, www) + path) == Some(path)
  {
    WwwIsSkipped(www, path);
    SchemeIsSkipped(scheme, Site(www, path));
    HostAndPath(scheme, www, path);
    AfterHostOf(HostText(scheme, www) + path, Site(www, path), path);
  }

  lemma AfterHostOf(text: string, site: string, path: string)
    requires WithoutScheme(text) == site && Skip(site, "www.") == "t.me/" + path
    ensures AfterHost(text) == Some(path)
  {
    PrefixIsSeen("t.me/", path);
  }

  lemma HostAndPath(scheme: Scheme, www: bool, path: string)
    ensures HostText(scheme, www) + path == SchemeText(scheme) + Site(www, path)
  {
    var s, w, t := SchemeText(scheme), if www then "www." else "", "t.me/";
    assert (s + (w + t)) + path == s + (w + (t + path));
  }

  lemma HttpIsNotHttps(site: string)
    ensures !StartsWithNoCase("http://" + site, "https://")
  {
    var text := "http://" + site;
    if |text| >= 8 {
      assert Lower(text[..8])[4] == ':';
    }
  }

  lemma {:induction false} UntilSlashOf(word: string, rest: string)
    requires '/' !in word && (rest == "" || rest[0] == '/')
    ensures UntilSlash(word + rest) == (word, rest)
  {
    if word == "" {
      assert word + rest == rest;
    } else {
      assert (word + rest)[1..] == word[1..] + rest;
      UntilSlashOf(word[1..], rest);
      assert word == [word[0]] + word[1..];
    }
  }

  lemma LinkIsTrimmed(scheme: Scheme, www: bool, path: string)
    requires path != "" && IsDigit(path[|path| - 1])
    ensures Strip(HostText(scheme, www) + path) == HostText(scheme, www) + path
  {
    var host := HostText(scheme, www);
    assert host[0] == 'h' || host[0] == 'w' || host[0] == 't';
    StripFixed(host + path);
  }

  lemma WordHasNoSlash(s: string)
    requires IsWord(s)
    ensures '/' !in s && DropAts(s) == s
  {
  }

  /** A public link, in any of its spellings, is read as its user name and message. */
  lemma PublicLinkIsRead(scheme: Scheme, www: bool, username: string, id: string)
    requires IsWord(username) && IsDigits(id)
    ensures ParseForwardSourceUrl(HostText(scheme, www) + (username + "/" + id)) == Ok(PublicPost(username, ToNat(id)))
  {
    var path := username + "/" + id;
    WordHasNoSlash(username);
    DigitsHaveNoSlash(id);
    assert path[|path| - 1] == id[|id| - 1];
    LinkIsTrimmed(scheme, www, path);
    HostIsSkipped(scheme, www, path);
    PublicPathMatches(username, id);
    ReadsPublic(HostText(scheme, www) + path, path, username, id);
  }

  lemma ReadsPublic(text: string, path: string, username: string, id: string)
    requires text != "" && Strip(text) == text && AfterHost(text) == Some(path)
    requires IsWord(username) && IsDigits(id)
    requires UntilSlash(path) == (username, "/" + id) && ("/" + id)[1..] == id
    requires StartsWithNoCase(path, "c/") ==> UntilSlash(path[2..]) == (id, "")
    ensures ParseForwardSourceUrl(text) == Ok(PublicPost(username, ToNat(id)))
  {
    WordHasNoSlash(username);
  }

  lemma PublicPathMatches(username: string, id: string)
    requires IsWord(username) && IsDigits(id)
    ensures var path := username + "/" + id;
            && UntilSlash(path) == (username, "/" + id) && ("/" + id)[1..] == id
            && (StartsWithNoCase(path, "c/") ==> UntilSlash(path[2..]) == (id, ""))
  {
    var path := username + "/" + id;
    WordHasNoSlash(username);
    DigitsHaveNoSlash(id);
    assert path == username + ("/" + id);
    UntilSlashOf(username, "/" + id);
    if StartsWithNoCase(path, "c/") {
      assert Lower(path[..2])[1] == LowerChar(path[1]) == '/';
      assert path[1] == '/';
      assert |username| == 1;
      assert path[2..] == id + "";
      UntilSlashOf(id, "");
    }
  }

  /** A private link is read as its channel, without leading zeros, and message. */
  lemma PrivateLinkIsRead(scheme: Scheme, www: bool, channel: string, id: string)
    requires IsDigits(channel) && IsDigits(id)
    ensures ParseForwardSourceUrl(HostText(scheme, www) + ("c/" + channel + "/" + id)) ==
            Ok(PrivatePost(NatText(ToNat(channel)), ToNat(id)))
  {
    var path := "c/" + channel + "/" + id;
    assert path[|path| - 1] == id[|id| - 1];
    LinkIsTrimmed(scheme, www, path);
    HostIsSkipped(scheme, www, path);
    PrivatePathMatches(channel, id);
    ReadsPrivate(HostText(scheme, www) + path, path, channel, id);
  }

  lemma ReadsPrivate(text: string, path: string, channel: string, id: string)
    requires text != "" && Strip(text) == text && AfterHost(text) == Some(path)
    requires IsDigits(channel) && IsDigits(id) && StartsWithNoCase(path, "c/")
    requires UntilSlash(path[2..]) == (channel, "/" + id) && ("/" + id)[1..] == id
    ensures ParseForwardSourceUrl(text) == Ok(PrivatePost(NatText(ToNat(channel)), ToNat(id)))
  {
  }

  lemma PrivatePathMatches(channel: string, id: string)
    requires IsDigits(channel) && IsDigits(id)
    ensures var path := "c/" + channel + "/" + id;
            StartsWithNoCase(path, "c/") && UntilSlash(path[2..]) == (channel, "/" + id) && ("/" + id)[1..] == id
  {
    var tail := channel + ("/" + id);
    DigitsHaveNoSlash(channel);
    PrefixIsSeen("c/", tail);
    assert "c/" + channel + "/" + id == "c/" + tail;
    UntilSlashOf(channel, "/" + id);
  }

  lemma {:induction false} DropTrailingSlashesIsPrefix(s: string)
    ensures DropTrailingSlashes(s) <= s
  {
    if s == "" || s[|s| - 1] != '/' {
    } else {
      DropTrailingSlashesIsPrefix(s[..|s| - 1]);
    }
  }

  /** The fallback finds no peer exactly when the text is a number and slashes. */
  lemma {:induction false} FallbackHasNoPeerIff(text: string)
    ensures ParseFallback(text) == Err(NoPeer) <==> '/' in text && IsDigits(DropTrailingSlashes(text))
  {
    var path := DropTrailingSlashes(text);
    if '/' !in path {
      SegmentWithoutSlash(path);
    }
    if IsDigits(path) {
      DigitsHaveNoSlash(path);
    }
  }

  /** Main result on errors. The index error is raised exactly for a bare number with slashes behind it. */
  lemma {:induction false} NoPeerIff(url: string)
    ensures ParseForwardSourceUrl(url) == Err(NoPeer) <==>
            '/' in Strip(url) && IsDigits(DropTrailingSlashes(Strip(url)))
  {
    var text := Strip(url);
    FallbackHasNoPeerIff(text);
    if IsDigits(DropTrailingSlashes(text)) {
      DropTrailingSlashesIsPrefix(text);
      assert text[0] == DropTrailingSlashes(text)[0];
      NoHost(text);
    }
  }

  lemma {:induction false} NumberAndSlashHasNoPeer(number: string)
    requires IsDigits(number)
    ensures ParseForwardSourceUrl(number + "/") == Err(NoPeer)
  {
    var text := number + "/";
    DigitsHaveNoSlash(number);
    assert text[|text| - 1] == '/' && text[0] == number[0] && text[..|text| - 1] == number;
    StripFixed(text);
    assert DropTrailingSlashes(text) == DropTrailingSlashes(number) == number;
    NoPeerIff(text);
  }

  /** For one, the link "123/". */
  lemma OneTwoThreeHasNoPeer()
    ensures ParseForwardSourceUrl("123/") == Err(NoPeer)
  {
    NumberAndSlashHasNoPeer("123");
    assert "123" + "/" == "123/";
  }

  lemma PrefixIsBefore(s: string, prefix: string)
    ensures EndsWith(s, Skip(s, prefix))
  {
  }

  lemma {:induction false} PathIsTail(text: string)
    ensures AfterHost(text).Some? ==> EndsWith(text, "/" + AfterHost(text).value)
  {
    var site := WithoutScheme(text);
    var rest := Skip(site, "www.");
    if AfterHost(text).Some? {
      assert Lower(rest[..5])[4] == LowerChar(rest[4]) == '/';
      assert rest[4..] == "/" + rest[5..];
      PrefixIsBefore(site, "www.");
      PrefixIsBefore(text, "http://");
      TailOfTail(site, rest, "/" + rest[5..]);
      TailOfTail(text, site, "/" + rest[5..]);
    }
  }

  lemma TailOfTail(s: string, middle: string, end: string)
    requires EndsWith(s, middle) && EndsWith(middle, end)
    ensures EndsWith(s, end)
  {
  }

  lemma SlashesBetween(word: string, tail: string)
    ensures "/" + (word + ("/" + tail)) == "/" + word + "/" + tail
  {
  }

  lemma TwoSegments(s: string)
    ensures var (word, rest) := UntilSlash(s); rest != "" ==> "/" + s == "/" + word + "/" + rest[1..]
  {
    var (word, rest) := UntilSlash(s);
    if rest != "" {
      SlashSplits(s);
      assert rest == "/" + rest[1..];
      SlashesBetween(word, rest[1..]);
    }
  }

  lemma {:induction false} SlashSplits(s: string)
    ensures UntilSlash(s).1 != "" ==> UntilSlash(s).1[0] == '/'
  {
    if s == "" || s[0] == '/' {
    } else {
      SlashSplits(s[1..]);
    }
  }

  /** What the public pattern takes out is what stands at the end of the link, between slashes. */
  lemma {:induction false} PublicMatchIsTail(text: string)
    ensures MatchPublic(text).Some? ==>
        EndsWith(text, "/" + MatchPublic(text).value.0 + "/" + MatchPublic(text).value.1)
  {
    if MatchPublic(text).Some? {
      PathIsTail(text);
      TwoSegments(AfterHost(text).value);
    }
  }

  /** The same for the private pattern. */
  lemma {:induction false} PrivateMatchIsTail(text: string)
    ensures MatchPrivate(text).Some? ==>
              EndsWith(text, "/" + MatchPrivate(text).value.0 + "/" + MatchPrivate(text).value.1)
  {
    if MatchPrivate(text).Some? {
      var path := AfterHost(text).value;
      PathIsTail(text);
      TwoSegments(path[2..]);
      AfterC(path);
      TailOfTail(text, "/" + path, "/" + path[2..]);
    }
  }

  lemma AfterC(path: string)
    requires StartsWithNoCase(path, "c/")
    ensures EndsWith("/" + path, "/" + path[2..])
  {
    assert Lower(path[..2])[1] == LowerChar(path[1]);
    assert path[1] == '/';
    assert path[1..] == "/" + path[2..];
    assert ("/" + path)[2..] == path[1..];
  }

  /** Links are recognised in any case, and white space around them does not matter. */
  lemma PrefixInAnyCase(p: string, prefix: string, rest: string)
    requires Lower(p) == prefix
    ensures StartsWithNoCase(p + rest, prefix) && (p + rest)[|prefix|..] == rest
  {
    assert (p + rest)[..|prefix|] == p;
  }

  lemma SiteInAnyCase(w: string, t: string, www: bool, path: string)
    requires Lower(w) == (if www then "www." else "") && Lower(t) == "t.me/"
    ensures Skip(w + (t + path), "www.") == t + path
    ensures !StartsWithNoCase(w + (t + path), "https://") && !StartsWithNoCase(w + (t + path), "http://")
  {
    var tail := t + path;
    assert LowerChar(t[0]) == Lower(t)[0];
    if www {
      assert LowerChar(w[0]) == Lower(w)[0];
      PrefixInAnyCase(w, "www.", tail);
    } else {
      assert w + tail == tail;
      OtherFirstChar(tail, "www.");
    }
    OtherFirstChar(w + tail, "https://");
    OtherFirstChar(w + tail, "http://");
  }

  lemma SchemeInAnyCase(s: string, scheme: Scheme, site: string)
    requires Lower(s) == SchemeText(scheme)
    requires !StartsWithNoCase(site, "https://") && !StartsWithNoCase(site, "http://")
    ensures WithoutScheme(s + site) == site
  {
    match scheme {
      case Https => PrefixInAnyCase(s, "https://", site);
      case Http =>
        PrefixInAnyCase(s, "http://", site);
        NotHttps(s, site);
      case Bare => assert s + site == site;
    }
  }

  lemma NotHttps(s: string, site: string)
    requires Lower(s) == "http://"
    ensures !StartsWithNoCase(s + site, "https://")
  {
    assert LowerChar(s[4]) == Lower(s)[4] == ':';
    if |s + site| >= 8 {
      assert Lower((s + site)[..8])[4] == ':';
    }
  }

  lemma HostInAnyCase(scheme: Scheme, www: bool, s: string, w: string, t: string, path: string)
    requires Lower(s) == SchemeText(scheme) && Lower(w) == (if www then "www." else "") && Lower(t) == "t.me/"
    ensures AfterHost(s + (w + (t + path))) == Some(path)
  {
    SiteInAnyCase(w, t, www, path);
    SchemeInAnyCase(s, scheme, w + (t + path));
    PrefixInAnyCase(t, "t.me/", path);
  }

  lemma VisibleStart(scheme: Scheme, www: bool, s: string, w: string, t: string, path: string)
    requires Lower(s) == SchemeText(scheme) && Lower(w) == (if www then "www." else "") && Lower(t) == "t.me/"
    ensures !IsSpace((s + (w + (t + path)))[0])
  {
    var link := s + (w + (t + path));
    assert LowerChar(t[0]) == Lower(t)[0];
    assert www ==> LowerChar(w[0]) == Lower(w)[0];
    assert scheme != Bare ==> LowerChar(s[0]) == Lower(s)[0];
    assert LowerChar(link[0]) in {'h', 'w', 't'};
  }

  lemma StripDecides(url: string, text: string)
    requires Strip(url) == text && Strip(text) == text
    ensures ParseForwardSourceUrl(url) == ParseForwardSourceUrl(text)
  {
  }

  /** A public link, with scheme and host in any case and white space around it, gives its user and message. */
  lemma {:induction false} PublicLinkInAnyCase(scheme: Scheme, www: bool, s: string, w: string, t: string,
      username: string, id: string, lead: string, end: string)
    requires Lower(s) == SchemeText(scheme) && Lower(w) == (if www then "www." else "") && Lower(t) == "t.me/"
    requires IsWord(username) && IsDigits(id) && AllSpace(lead) && AllSpace(end)
    ensures ParseForwardSourceUrl(lead + (s + (w + (t + (username + "/" + id)))) + end) ==
            Ok(PublicPost(username, ToNat(id)))
  {
    var path := username + "/" + id;
    var link := s + (w + (t + path));
    DigitsHaveNoSlash(id);
    assert link[|link| - 1] == id[|id| - 1];
    VisibleStart(scheme, www, s, w, t, path);
    StripSkips(lead, link, end);
    StripFixed(link);
    StripDecides(lead + link + end, link);
    HostInAnyCase(scheme, www, s, w, t, path);
    PublicPathMatches(username, id);
    ReadsPublic(link, path, username, id);
  }

  /** The same for a private link, its "c" in either case. */
  lemma {:induction false} PrivateLinkInAnyCase(scheme: Scheme, www: bool, s: string, w: string, t: string, c: string,
      channel: string, id: string, lead: string, end: string)
    requires Lower(s) == SchemeText(scheme) && Lower(w) == (if www then "www." else "") && Lower(t) == "t.me/"
    requires Lower(c) == "c/" && IsDigits(channel) && IsDigits(id) && AllSpace(lead) && AllSpace(end)
    ensures ParseForwardSourceUrl(lead + (s + (w + (t + (c + (channel + ("/" + id)))))) + end) ==
            Ok(PrivatePost(NatText(ToNat(channel)), ToNat(id)))
  {
    var tail := channel + ("/" + id);
    var path := c + tail;
    var link := s + (w + (t + path));
    DigitsHaveNoSlash(id);
    DigitsHaveNoSlash(channel);
    assert link[|link| - 1] == id[|id| - 1];
    VisibleStart(scheme, www, s, w, t, path);
    StripSkips(lead, link, end);
    StripFixed(link);
    StripDecides(lead + link + end, link);
    HostInAnyCase(scheme, www, s, w, t, path);
    PrefixInAnyCase(c, "c/", tail);
    UntilSlashOf(channel, "/" + id);
    ReadsPrivate(link, path, channel, id);
  }

  /** A blank link is reported missing, and only that. */
  lemma {:induction false} MissingIff(url: string)
    ensures ParseForwardSourceUrl(url) == Err(Missing) <==> AllSpace(url)
  {
    var lead, end := StripIsMiddle(url);
    if AllSpace(url) {
      LStripSkips(url, "");
      assert url + "" == url;
    }
  }

  lemma {:induction false} SlashesDrop(path: string, slashes: string)
    requires path != "" && path[|path| - 1] != '/' && forall i :: 0 <= i < |slashes| ==> slashes[i] == '/'
    ensures DropTrailingSlashes(path + slashes) == path
  {
    if slashes == "" {
      assert path + slashes == path;
    } else {
      assert (path + slashes)[..|path + slashes| - 1] == path + slashes[..|slashes| - 1];
      SlashesDrop(path, slashes[..|slashes| - 1]);
    }
  }

  /** Any other path that ends in a segment and a number, with or without slashes behind them, gives the
      segment as a user or, if it is all digits, as a private channel. */
  lemma {:induction false} OtherPathIsRead(before: string, last: string, id: string, slashes: string)
    requires '/' !in last && IsDigits(id) && forall i :: 0 <= i < |slashes| ==> slashes[i] == '/'
    requires before == "" || before[|before| - 1] == '/'
    requires var text := before + last + "/" + id + slashes; Strip(text) == text && AfterHost(text) == None
    ensures ParseForwardSourceUrl(before + last + "/" + id + slashes) ==
            Ok(if IsDigits(DropAts(last)) then PrivatePost(DropAts(last), ToNat(id))
               else PublicPost(DropAts(last), ToNat(id)))
  {
    var head := before + last;
    DigitsHaveNoSlash(id);
    assert (head + "/" + id)[|head + "/" + id| - 1] == id[|id| - 1];
    SlashesDrop(head + "/" + id, slashes);
    LastSegmentOf(head, id);
    SegmentBehind(before, last);
    FallsBack(head + "/" + id + slashes);
    FallbackOfPath(head + "/" + id + slashes, head, last, id);
  }

  lemma SegmentBehind(before: string, last: string)
    requires '/' !in last && (before == "" || before[|before| - 1] == '/')
    ensures LastSegment(before + last) == last
  {
    if before == "" {
      assert before + last == last;
      SegmentWithoutSlash(last);
    } else {
      assert before + last == before[..|before| - 1] + "/" + last;
      LastSegmentOf(before[..|before| - 1], last);
    }
  }

  lemma FallsBack(text: string)
    requires text != "" && Strip(text) == text && AfterHost(text) == None
    ensures ParseForwardSourceUrl(text) == ParseFallback(text)
  {
  }

  lemma FallbackOfPath(text: string, head: string, last: string, id: string)
    requires '/' in text && IsDigits(id) && DropTrailingSlashes(text) == head + "/" + id
    requires LastSegment(head + "/" + id) == id && BeforeLastSegment(head + "/" + id) == head
    requires LastSegment(head) == last
    ensures ParseFallback(text) ==
            Ok(if IsDigits(DropAts(last)) then PrivatePost(DropAts(last), ToNat(id))
               else PublicPost(DropAts(last), ToNat(id)))
  {
    assert '/' in head + "/" + id;
  }
}
