/** Links in notification texts: printing them, recognising them again, and the route targets they lead
    to (`app/utils/notify_markup.py`, `app/utils/route_target.py`).

    Targets come first: how they are built, that the route is read back from every one of them, and what
    characters they are made of. Then links: which are printed, and what the pattern makes of a text,
    written as the lengths that its parts can match. A link that stands alone is recognised exactly by
    `AloneRecognisedIff`, one inside a text by `RecognisedInTextIff` and `AppLinkInTextIff`, and the links
    of a whole text by `LinksAreRecoveredIff`. */
module NotifyMarkup {
  import opened Wrappers
  import opened Text

  // ---------- route targets ----------

  const ROUTE_SCHEME := "route:"

  /** The registered routes of the front end. */
  datatype Route = LotteryCardDetail | OthersLotDynDetail | MomentDetail | AdminMessageDm

  function NameOf(r: Route): string {
    match r
    case LotteryCardDetail => "抽奖卡片详情"
    case OthersLotDynDetail => "第三方抽奖动态详情"
    case MomentDetail => "MOMENT_DETAIL"
    case AdminMessageDm => "ADMIN_MESSAGE_DM"
  }

  /** `FrontendRouteEnum.from_name`; `None` is its error. */
  function FromName(name: string): Option<Route> {
    if name == NameOf(LotteryCardDetail) then Some(LotteryCardDetail)
    else if name == NameOf(OthersLotDynDetail) then Some(OthersLotDynDetail)
    else if name == NameOf(MomentDetail) then Some(MomentDetail)
    else if name == NameOf(AdminMessageDm) then Some(AdminMessageDm)
    else None
  }

  predicate Unreserved(c: char) {
    || 'a' <= c <= 'z' || 'A' <= c <= 'Z' || '0' <= c <= '9'
    || c == '_' || c == '.' || c == '-' || c == '~' || c == ':'
  }

  function HexDigit(n: nat): char
    requires n < 16
  {
    if n < 10 then ('0' as int + n) as char else ('A' as int + n - 10) as char
  }

  function Percent(byte: nat): string
    requires byte < 256
  {
    ['%', HexDigit(byte / 16), HexDigit(byte % 16)]
  }

  /** The escapes of the UTF-8 bytes of a character. */
  function Escaped(c: char): string {
    var n := c as int;
    if n < 0x80 then Percent(n)
    else if n < 0x800 then Percent(0xC0 + n / 0x40) + Percent(0x80 + n % 0x40)
    else if n < 0x1_0000 then Percent(0xE0 + n / 0x1000) + Percent(0x80 + n / 0x40 % 0x40) + Percent(0x80 + n % 0x40)
    else Percent(0xF0 + n / 0x4_0000) + Percent(0x80 + n / 0x1000 % 0x40) + Percent(0x80 + n / 0x40 % 0x40)
         + Percent(0x80 + n % 0x40)
  }

  /** `quote_plus(s, safe=":")` */
  function QuotePlus(s: string): string {
    if |s| == 0 then ""
    else (if Unreserved(s[0]) then [s[0]] else if s[0] == ' ' then "+" else Escaped(s[0])) + QuotePlus(s[1..])
  }

  /** A query parameter; `None` is a null value. */
  datatype Param = Param(key: string, value: Option<string>)

  predicate Skipped(p: Param) {
    p.value == None || p.value.value == ""
  }

  /** `urlencode` of the parameters that have a value. */
  function UrlEncode(params: seq<Param>): string {
    if |params| == 0 then ""
    else
      var p, rest := params[0], UrlEncode(params[1..]);
      if Skipped(p) then rest
      else QuotePlus(p.key) + "=" + QuotePlus(p.value.value) + (if rest == "" then "" else "&" + rest)
  }

  /** `build_route_target` */
  function BuildRouteTarget(r: Route, params: seq<Param>): string {
    var target, query := ROUTE_SCHEME + NameOf(r), UrlEncode(params);
    if query == "" then target else target + "?" + query
  }

  /** `split("?", 1)[0]` */
  function UpToQuestion(s: string): string {
    if |s| == 0 || s[0] == '?' then "" else [s[0]] + UpToQuestion(s[1..])
  }

  /** `parse_route_name`, with the route instead of its name. */
  function ParseRoute(url: string): Option<Route> {
    if !Starts(url, ROUTE_SCHEME) then None
    else FromName(Strip(UpToQuestion(url[|ROUTE_SCHEME|..])))
  }

  // ---------- what targets are made of ----------

  /** The characters of an encoded query. */
  predicate InQuery(c: char) {
    Unreserved(c) || c == '+' || c == '%' || c == '=' || c == '&'
  }

  lemma EscapedIsInQuery(c: char)
    ensures forall i :: 0 <= i < |Escaped(c)| ==> InQuery(Escaped(c)[i])
  {
  }

  lemma {:induction false} QuotedIsInQuery(s: string)
    ensures forall i :: 0 <= i < |QuotePlus(s)| ==> InQuery(QuotePlus(s)[i])
  {
    if |s| > 0 {
      QuotedIsInQuery(s[1..]);
      EscapedIsInQuery(s[0]);
    }
  }

  /** Encoded queries are free of quotes, white space, braces and question marks. */
  lemma {:induction false} EncodedIsInQuery(params: seq<Param>)
    ensures forall i :: 0 <= i < |UrlEncode(params)| ==> InQuery(UrlEncode(params)[i])
  {
    if |params| > 0 {
      EncodedIsInQuery(params[1..]);
      QuotedIsInQuery(params[0].key);
      if !Skipped(params[0]) {
        QuotedIsInQuery(params[0].value.value);
      }
    }
  }

  predicate NameChar(c: char) {
    !IsSpace(c) && c != '"' && c != '?'
  }

  lemma RouteNames(r: Route)
    ensures |NameOf(r)| > 0 && FromName(NameOf(r)) == Some(r)
    ensures forall i :: 0 <= i < |NameOf(r)| ==> NameChar(NameOf(r)[i])
  {
    assert |NameOf(LotteryCardDetail)| == 6 && |NameOf(OthersLotDynDetail)| == 9;
    assert |NameOf(MomentDetail)| == 13 && |NameOf(AdminMessageDm)| == 16;
  }

  lemma {:induction false} QuestionFound(name: string, rest: string)
    requires forall i :: 0 <= i < |name| ==> name[i] != '?'
    requires rest == "" || rest[0] == '?'
    ensures UpToQuestion(name + rest) == name
  {
    if |name| == 0 {
      assert name + rest == rest;
    } else {
      assert (name + rest)[1..] == name[1..] + rest;
      QuestionFound(name[1..], rest);
    }
  }

  /** The route is recovered from every target that is built, whatever the parameters are. */
  lemma RouteIsRecovered(r: Route, params: seq<Param>)
    ensures ParseRoute(BuildRouteTarget(r, params)) == Some(r)
  {
    var name, query := NameOf(r), UrlEncode(params);
    var rest := if query == "" then "" else "?" + query;
    var url := BuildRouteTarget(r, params);
    assert url == ROUTE_SCHEME + (name + rest);
    assert url[|ROUTE_SCHEME|..] == name + rest;
    RouteNames(r);
    QuestionFound(name, rest);
    assert Strip(name) == name;
  }

  // ---------- printing links ----------

  function Lower(c: char): char {
    if 'A' <= c <= 'Z' then ((c as int) - 'A' as int + 'a' as int) as char else c
  }

  /** `str.lower`, as far as the three prefixes can tell: no other character becomes one of their
      letters. */
  function Lowered(s: string): (r: string)
    ensures |r| == |s| && forall i :: 0 <= i < |r| ==> r[i] == Lower(s[i])
  {
    seq(|s|, i requires 0 <= i < |s| => Lower(s[i]))
  }

  /** `_is_safe_target` */
  predicate IsSafeTarget(url: string) {
    var stripped := Strip(url);
    var lowered := Lowered(stripped);
    if Starts(lowered, "http://") || Starts(lowered, "https://") then true
    else if Starts(lowered, "route:") then ParseRoute(stripped).Some?
    else Starts(lowered, "/app/")
  }

  /** Capitals of the alphabet are lowered, and nothing else. */
  lemma LowerIs(c: char, i: nat)
    requires i < 26
    ensures c == ('A' as int + i) as char ==> Lower(c) == ('a' as int + i) as char
    ensures !('A' <= c <= 'Z') ==> Lower(c) == c
  {
  }

  /** The safety test does not tell capitals from small letters, but for the name of a route. */
  lemma SafeInAnyCase(url: string, other: string)
    requires |url| == |other| > 0 && !IsSpace(url[0]) && !IsSpace(url[|url| - 1])
    requires !IsSpace(other[0]) && !IsSpace(other[|other| - 1])
    requires forall i :: 0 <= i < |url| ==> Lower(url[i]) == Lower(other[i])
    requires !Starts(Lowered(url), "route:")
    ensures IsSafeTarget(url) <==> IsSafeTarget(other)
  {
    assert Lowered(url) == Lowered(other);
  }

  function LinkText(text: string, url: string): string {
    "#{" + (text + ("}{\"" + (url + "\"}")))
  }

  /** `markup_inline_link` */
  function MarkupInlineLink(text: string, url: Option<string>): string {
    if url == None || url.value == "" || text == "" then text
    else if !IsSafeTarget(url.value) then text
    else LinkText(text, url.value)
  }

  // ---------- recognising links ----------

  datatype Link = Link(text: string, url: string)

  predicate IsBrace(c: char) {
    c == '{' || c == '}'
  }

  /** `[^{}]*?` up to the first brace: no other length can be followed by one. */
  function TextLength(s: string): (n: nat)
    ensures n <= |s| && (n < |s| ==> IsBrace(s[n])) && forall i :: 0 <= i < n ==> !IsBrace(s[i])
  {
    if |s| == 0 || IsBrace(s[0]) then 0 else 1 + TextLength(s[1..])
  }

  predicate EndsRun(c: char) {
    c == '"' || IsSpace(c)
  }

  /** `[^"\s]+` up to the first quote or white space. */
  function RunLength(s: string): (n: nat)
    ensures n <= |s| && (n < |s| ==> EndsRun(s[n])) && forall i :: 0 <= i < n ==> !EndsRun(s[i])
  {
    if |s| == 0 || EndsRun(s[0]) then 0 else 1 + RunLength(s[1..])
  }

  function NonSpaceLength(s: string): (n: nat)
    ensures n <= |s| && (n < |s| ==> IsSpace(s[n])) && forall i :: 0 <= i < n ==> !IsSpace(s[i])
  {
    if |s| == 0 || IsSpace(s[0]) then 0 else 1 + NonSpaceLength(s[1..])
  }

  predicate ClosesAt(s: string, k: nat) {
    k + 1 < |s| && s[k] == '"' && s[k + 1] == '}'
  }

  /** `\S+` takes all it can and gives back until the link closes: the last close at or before `k`. */
  function LastClose(s: string, k: nat): (n: nat)
    ensures n <= k && (n > 0 ==> ClosesAt(s, n)) && forall i :: n < i <= k ==> !ClosesAt(s, i)
  {
    if k == 0 || ClosesAt(s, k) then k else LastClose(s, k - 1)
  }

  /** The length of the target after a prefix of length `p`, for the two forms that stop at a quote. */
  function RunTarget(s: string, p: nat): Option<nat>
    requires p <= |s|
  {
    var n := RunLength(s[p..]);
    if n > 0 && ClosesAt(s, p + n) then Some(p + n) else None
  }

  /** The length of the target at the start of `s`, if the link closes after it. */
  function TargetLength(s: string): Option<nat> {
    if Starts(s, "http://") then RunTarget(s, 7)
    else if Starts(s, "https://") then RunTarget(s, 8)
    else if Starts(s, "/app/") then
      var n := LastClose(s[5..], NonSpaceLength(s[5..]));
      if n > 0 then Some(5 + n) else None
    else if Starts(s, "route:") then RunTarget(s, 6)
    else None
  }

  datatype Match = Match(link: Link, length: nat)

  /** The part of a link from its text on. */
  function MatchInner(inner: string): Option<Match> {
    var t := TextLength(inner);
    if !Starts(inner[t..], "}{\"") then None else MatchOf(inner[..t], inner[t + 3..])
  }

  /** The match when the text is known and `target` is what follows the opening quote. */
  function MatchOf(text: string, target: string): Option<Match> {
    var u := TargetLength(target);
    if u.None? || u.value > |target| then None
    else Some(Match(Link(text, target[..u.value]), |text| + u.value + 7))
  }

  /** `INLINE_LINK_RE` at the start of `s`. */
  function MatchAt(s: string): (m: Option<Match>)
    ensures m.Some? ==> 0 < m.value.length
  {
    if Starts(s, "#{") then MatchInner(s[2..]) else None
  }

  /** All links of a text, from left to right, none overlapping another. */
  function Scan(s: string): seq<Link>
    decreases |s|
  {
    if |s| == 0 then []
    else
      var m := MatchAt(s);
      if m.Some? && m.value.length <= |s| then [m.value.link] + Scan(s[m.value.length..]) else Scan(s[1..])
  }

  // ---------- when a link is recognised ----------

  predicate BraceFree(s: string) {
    forall i :: 0 <= i < |s| ==> !IsBrace(s[i])
  }

  /** Something, without quotes and white space, follows a prefix of length `p`. */
  predicate CleanAfter(url: string, p: nat) {
    p < |url| && forall i :: p <= i < |url| ==> !EndsRun(url[i])
  }

  /** Outside addresses and routes that the pattern takes up to the closing quote. */
  predicate CleanTarget(url: string) {
    || (Starts(url, "http://") && CleanAfter(url, 7))
    || (Starts(url, "https://") && CleanAfter(url, 8))
    || (Starts(url, "route:") && CleanAfter(url, 6))
  }

  /** `url` and the end of a link stand at the start of `s`. */
  predicate ShowsTarget(s: string, url: string) {
    |url| + 2 <= |s| && s[..|url|] == url && s[|url|] == '"' && s[|url| + 1] == '}'
  }

  /** A link stands at the start of `s`. */
  predicate Shows(s: string, text: string, url: string) {
    && 5 + |text| <= |s| && s[0] == '#' && s[1] == '{' && s[2..2 + |text|] == text
    && s[2 + |text|] == '}' && s[3 + |text|] == '{' && s[4 + |text|] == '"'
    && ShowsTarget(s[5 + |text|..], url)
  }

  lemma PrintedLinkShows(text: string, url: string, rest: string)
    ensures Shows(LinkText(text, url) + rest, text, url)
    ensures |LinkText(text, url)| == |text| + |url| + 7
  {
    var s := LinkText(text, url) + rest;
    assert s[2..2 + |text|] == text;
    assert s[5 + |text|..][..|url|] == url;
  }

  lemma SamePrefix(s: string, url: string, prefix: string)
    requires ShowsTarget(s, url) && |prefix| <= |url|
    ensures Starts(s, prefix) <==> Starts(url, prefix)
  {
    assert s[..|prefix|] == url[..|prefix|];
  }

  lemma CleanRunTarget(s: string, url: string, p: nat)
    requires ShowsTarget(s, url) && CleanAfter(url, p)
    ensures RunTarget(s, p) == Some(|url|)
  {
    var tail, n := s[p..], RunLength(s[p..]);
    assert tail[|url| - p] == '"';
    forall i | p <= i < |url| ensures tail[i - p] == url[i] {
      assert s[..|url|][i] == url[i];
    }
    assert n == |url| - p;
  }

  /** A clean target is read in full, whatever follows the link. */
  lemma CleanTargetIsRead(s: string, url: string)
    requires ShowsTarget(s, url) && CleanTarget(url)
    ensures TargetLength(s) == Some(|url|)
  {
    if Starts(url, "http://") && CleanAfter(url, 7) {
      SamePrefix(s, url, "http://");
      CleanRunTarget(s, url, 7);
    } else if Starts(url, "https://") && CleanAfter(url, 8) {
      SamePrefix(s, url, "https://");
      SamePrefix(s, url, "http://");
      assert url[..8][4] == 's' && "http://"[4] == ':' && url[..7][4] == url[..8][4];
      CleanRunTarget(s, url, 8);
    } else {
      SamePrefix(s, url, "route:");
      assert s[0] == url[..6][0] == 'r';
      CleanRunTarget(s, url, 6);
    }
  }

  lemma TextLengthIs(inner: string, text: string)
    requires BraceFree(text) && |text| < |inner| && inner[..|text|] == text && IsBrace(inner[|text|])
    ensures TextLength(inner) == |text|
  {
    forall i | 0 <= i < |text| ensures !IsBrace(inner[i]) {
      assert inner[..|text|][i] == text[i];
    }
  }

  lemma OpensTarget(s: string)
    requires |s| > 2 && s[0] == '}' && s[1] == '{' && s[2] == '"'
    ensures Starts(s, "}{\"")
  {
    assert s[..3] == [s[0], s[1], s[2]];
  }

  /** The match when the text is known and `target` is what follows the opening quote. */
  lemma InnerMatch(inner: string, text: string, target: string)
    requires BraceFree(text) && |text| + 3 <= |inner| && inner[..|text|] == text && inner[|text| + 3..] == target
    requires inner[|text|] == '}' && inner[|text| + 1] == '{' && inner[|text| + 2] == '"'
    ensures MatchInner(inner) == MatchOf(text, target)
  {
    TextLengthIs(inner, text);
    OpensTarget(inner[|text|..]);
  }

  lemma MatchOfShown(s: string, text: string, url: string)
    requires BraceFree(text) && Shows(s, text, url)
    ensures MatchAt(s) == MatchOf(text, s[5 + |text|..])
  {
    OpensLink(s);
    assert s[2..][..|text|] == s[2..2 + |text|];
    assert s[2..][|text| + 3..] == s[5 + |text|..];
    InnerMatch(s[2..], text, s[5 + |text|..]);
  }

  /** Scanning goes on right after a matched link. */
  lemma ScanPastMatch(s: string, link: Link, n: nat)
    requires 0 < n <= |s| && MatchAt(s) == Some(Match(link, n))
    ensures Scan(s) == [link] + Scan(s[n..])
  {
  }

  lemma Split(a: string, b: string)
    ensures (a + b)[..|a|] == a && (a + b)[|a|..] == b
  {
  }

  // ---------- a single link, exactly ----------

  /** What the pattern takes for a target when the link stands alone. */
  predicate RecognisedTarget(url: string) {
    CleanTarget(url) || (Starts(url, "/app/") && |url| > 5 && forall i :: 5 <= i < |url| ==> !IsSpace(url[i]))
  }

  /** `s` is a target and the end of its link, and nothing else. */
  predicate IsTarget(s: string, url: string) {
    ShowsTarget(s, url) && |s| == |url| + 2
  }

  lemma RunAlone(s: string, url: string)
    requires IsTarget(s, url) && TargetLength(s) == Some(|url|) && !Starts(s, "/app/")
    ensures CleanTarget(url)
  {
    var prefix := if Starts(s, "http://") then "http://" else if Starts(s, "https://") then "https://" else "route:";
    var p := |prefix|;
    assert RunTarget(s, p) == Some(|url|);
    SamePrefix(s, url, prefix);
    forall i | p <= i < |url| ensures !EndsRun(url[i]) {
      assert s[p..][i - p] == s[..|url|][i];
    }
  }

  lemma LongEnough(s: string, url: string, prefix: string)
    requires IsTarget(s, url) && Starts(s, prefix) && forall i :: 0 <= i < |prefix| ==> prefix[i] != '"'
    ensures |prefix| <= |url|
  {
    assert forall i :: 0 <= i < |prefix| ==> s[i] == s[..|prefix|][i] == prefix[i];
  }

  lemma FirstChar(s: string, prefix: string)
    requires |prefix| > 0
    ensures Starts(s, prefix) ==> |s| > 0 && s[0] == prefix[0]
  {
    if |prefix| <= |s| {
      assert s[..|prefix|][0] == s[0];
    }
  }

  /** How internal paths are read. */
  lemma AppTarget(s: string)
    requires Starts(s, "/app/")
    ensures var n := LastClose(s[5..], NonSpaceLength(s[5..])); TargetLength(s) == if n > 0 then Some(5 + n) else None
  {
    FirstChar(s, "/app/");
    FirstChar(s, "http://");
    FirstChar(s, "https://");
  }

  /** The greedy pattern takes everything up to the close at the very end, unless there is white space. */
  lemma GreedyTakesAll(x: string, n: nat)
    requires |x| == n + 2 && x[n] == '"' && x[n + 1] == '}'
    ensures LastClose(x, NonSpaceLength(x)) == n <==> forall i :: 0 <= i < n ==> !IsSpace(x[i])
  {
    var m := NonSpaceLength(x);
    if forall i :: 0 <= i < n ==> !IsSpace(x[i]) {
      assert m >= n;
      assert n > 0 ==> ClosesAt(x, n);
      assert forall i :: n < i <= m ==> !ClosesAt(x, i);
    } else {
      var i :| 0 <= i < n && IsSpace(x[i]);
      assert m <= i;
    }
  }

  lemma AppTargetIff(s: string, url: string)
    requires IsTarget(s, url) && Starts(s, "/app/")
    ensures TargetLength(s) == Some(|url|) <==> |url| > 5 && forall i :: 5 <= i < |url| ==> !IsSpace(url[i])
  {
    LongEnough(s, url, "/app/");
    AppTarget(s);
    var x, n := s[5..], |url| - 5;
    assert forall i :: 0 <= i < n ==> x[i] == s[..|url|][i + 5] == url[i + 5];
    GreedyTakesAll(x, n);
    assert (forall i :: 0 <= i < n ==> !IsSpace(x[i])) <==> forall i :: 5 <= i < |url| ==> !IsSpace(url[i]) by {
      assert forall i :: 5 <= i < |url| ==> url[i] == x[i - 5];
    }
  }

  lemma TargetAloneIff(s: string, url: string)
    requires IsTarget(s, url)
    ensures TargetLength(s) == Some(|url|) <==> RecognisedTarget(url)
  {
    if CleanTarget(url) {
      CleanTargetIsRead(s, url);
    } else if Starts(s, "/app/") {
      AppTargetIff(s, url);
      LongEnough(s, url, "/app/");
      SamePrefix(s, url, "/app/");
    } else {
      if |url| >= 5 {
        SamePrefix(s, url, "/app/");
      }
      if TargetLength(s) == Some(|url|) {
        RunAlone(s, url);
      }
    }
  }

  lemma BracesEndTheText(s: string, text: string, url: string)
    requires !BraceFree(text) && Shows(s, text, url)
    ensures MatchAt(s).Some? ==> MatchAt(s).value.link.text != text
  {
    var i :| 0 <= i < |text| && IsBrace(text[i]);
    assert s[2..][i] == s[2..2 + |text|][i] == text[i];
    TextIsShort(s, i);
  }

  lemma TextIsShort(s: string, i: nat)
    requires 2 <= |s| && i < |s[2..]| && IsBrace(s[2..][i])
    ensures MatchAt(s).Some? ==> |MatchAt(s).value.link.text| <= i
  {
  }

  lemma ShownBraceFreeIff(s: string, text: string, url: string, n: nat)
    requires BraceFree(text) && Shows(s, text, url) && |s| == n == |text| + |url| + 7
    ensures MatchAt(s) == Some(Match(Link(text, url), n)) <==> RecognisedTarget(url)
  {
    ShownIsItselfIff(s, text, url);
    TargetAloneIff(s[5 + |text|..], url);
  }

  lemma ShownAloneIff(s: string, text: string, url: string)
    requires Shows(s, text, url) && |s| == |text| + |url| + 7
    ensures MatchAt(s) == Some(Match(Link(text, url), |s|)) <==> BraceFree(text) && RecognisedTarget(url)
  {
    if BraceFree(text) {
      ShownBraceFreeIff(s, text, url, |s|);
    } else {
      BracesEndTheText(s, text, url);
    }
  }

  /** A link that stands alone is recognised as itself exactly when its text is free of braces and its
      target has one of the three forms as the pattern writes them; being safe is not enough. */
  lemma AloneRecognisedIff(text: string, url: string)
    ensures var s := LinkText(text, url);
            MatchAt(s) == Some(Match(Link(text, url), |s|)) <==> BraceFree(text) && RecognisedTarget(url)
  {
    PrintedLinkShows(text, url, "");
    assert LinkText(text, url) + "" == LinkText(text, url);
    ShownAloneIff(LinkText(text, url), text, url);
  }

  // ---------- a link inside a text, exactly ----------

  /** A link closes again in `rest` before its first white space. */
  predicate ClosesBeforeSpace(rest: string) {
    exists j :: 0 <= j < NonSpaceLength(rest) && ClosesAt(rest, j)
  }

  lemma NonSpaceIs(x: string, m: nat)
    requires m <= |x| && (m < |x| ==> IsSpace(x[m])) && forall i :: 0 <= i < m ==> !IsSpace(x[i])
    ensures NonSpaceLength(x) == m
  {
  }

  /** The greedy pattern stops at the close at `n` exactly when there is no white space before it and no
      other close between it and the next white space. */
  lemma GreedyStopsAt(x: string, n: nat)
    requires 0 < n && ClosesAt(x, n)
    ensures LastClose(x, NonSpaceLength(x)) == n
       <==> && (forall i :: 0 <= i < n ==> !IsSpace(x[i]))
            && forall i :: n < i <= NonSpaceLength(x) ==> !ClosesAt(x, i)
  {
    var m := NonSpaceLength(x);
    if forall i :: 0 <= i < n ==> !IsSpace(x[i]) {
      assert m >= n;
    } else {
      var i :| 0 <= i < n && IsSpace(x[i]);
      assert m <= i;
    }
  }

  /** `rest` follows the close at `n`. */
  predicate Behind(x: string, n: nat, rest: string) {
    n + 2 <= |x| && x[n] == '"' && x[n + 1] == '}' && x[n + 2..] == rest
  }

  lemma NonSpaceBehind(x: string, n: nat, rest: string)
    requires Behind(x, n, rest) && forall i :: 0 <= i < n ==> !IsSpace(x[i])
    ensures NonSpaceLength(x) == n + 2 + NonSpaceLength(rest)
  {
    var r := NonSpaceLength(rest);
    forall i | 0 <= i < n + 2 + r ensures !IsSpace(x[i]) {
      assert i >= n + 2 ==> x[i] == x[n + 2..][i - n - 2];
    }
    assert r < |rest| ==> x[n + 2 + r] == x[n + 2..][r];
    NonSpaceIs(x, n + 2 + r);
  }

  lemma CloseBehind(x: string, n: nat, rest: string, j: nat)
    requires Behind(x, n, rest)
    ensures ClosesAt(x, n + 2 + j) <==> ClosesAt(rest, j)
  {
    assert j < |rest| ==> x[n + 2 + j] == x[n + 2..][j];
    assert j + 1 < |rest| ==> x[n + 2 + j + 1] == x[n + 2..][j + 1];
  }

  /** The closes behind the one at `n` are those of `rest` before its first white space. */
  lemma ClosesBehind(x: string, n: nat, rest: string)
    requires Behind(x, n, rest) && forall i :: 0 <= i < n ==> !IsSpace(x[i])
    ensures (exists i :: n < i <= NonSpaceLength(x) && ClosesAt(x, i)) <==> ClosesBeforeSpace(rest)
  {
    NonSpaceBehind(x, n, rest);
    if i :| n < i <= NonSpaceLength(x) && ClosesAt(x, i) {
      CloseBehind(x, n, rest, i - n - 2);
    }
    if j :| 0 <= j < NonSpaceLength(rest) && ClosesAt(rest, j) {
      CloseBehind(x, n, rest, j);
    }
  }

  predicate NoSpaceAfter(url: string, p: nat) {
    forall i :: p <= i < |url| ==> !IsSpace(url[i])
  }

  /** The pattern reads an internal path up to its own close exactly when it holds no white space and no
      further close follows before the next white space. */
  lemma AppTargetIsReadIff(s: string, url: string)
    requires ShowsTarget(s, url) && Starts(url, "/app/") && |url| > 5
    ensures TargetLength(s) == Some(|url|) <==> NoSpaceAfter(url, 5) && !ClosesBeforeSpace(s[|url| + 2..])
  {
    SamePrefix(s, url, "/app/");
    AppTarget(s);
    var x, n := s[5..], |url| - 5;
    forall i | 5 <= i < |url| ensures x[i - 5] == url[i] {
      assert s[..|url|][i] == url[i];
    }
    assert ClosesAt(x, n);
    GreedyStopsAt(x, n);
    assert (forall i :: 0 <= i < n ==> !IsSpace(x[i])) <==> NoSpaceAfter(url, 5) by {
      assert forall i :: 0 <= i < n ==> x[i] == url[i + 5];
    }
    if NoSpaceAfter(url, 5) {
      assert x[n + 2..] == s[|url| + 2..];
      ClosesBehind(x, n, s[|url| + 2..]);
    }
  }

  /** What follows does not disturb the link: only an internal path can be disturbed. */
  predicate Undisturbed(url: string, rest: string) {
    CleanTarget(url) || !ClosesBeforeSpace(rest)
  }

  /** What the pattern sees after the opening quote of a printed link. */
  lemma TargetOfPrinted(text: string, url: string, rest: string)
    ensures var s := LinkText(text, url) + rest;
            && Shows(s, text, url) && |LinkText(text, url)| == |text| + |url| + 7
            && s[5 + |text|..][|url| + 2..] == rest
  {
    var s := LinkText(text, url) + rest;
    PrintedLinkShows(text, url, rest);
    assert s[5 + |text|..][|url| + 2..] == s[|text| + |url| + 7..];
    Split(LinkText(text, url), rest);
  }

  lemma MatchIsItselfIff(target: string, text: string, url: string)
    requires ShowsTarget(target, url)
    ensures MatchOf(text, target) == Some(Match(Link(text, url), |text| + |url| + 7)) <==> TargetLength(target) == Some(|url|)
  {
  }

  lemma ShownIsItselfIff(s: string, text: string, url: string)
    requires BraceFree(text) && Shows(s, text, url)
    ensures MatchAt(s) == Some(Match(Link(text, url), |text| + |url| + 7)) <==> TargetLength(s[5 + |text|..]) == Some(|url|)
  {
    MatchOfShown(s, text, url);
    MatchIsItselfIff(s[5 + |text|..], text, url);
  }

  lemma TargetUndisturbedIff(s: string, url: string)
    requires ShowsTarget(s, url) && RecognisedTarget(url)
    ensures TargetLength(s) == Some(|url|) <==> Undisturbed(url, s[|url| + 2..])
  {
    if CleanTarget(url) {
      CleanTargetIsRead(s, url);
    } else {
      AppTargetIsReadIff(s, url);
    }
  }

  lemma ShownUndisturbedIff(s: string, text: string, url: string, rest: string, n: nat)
    requires BraceFree(text) && Shows(s, text, url) && RecognisedTarget(url)
    requires s[5 + |text|..][|url| + 2..] == rest && n == |text| + |url| + 7
    ensures MatchAt(s) == Some(Match(Link(text, url), n)) <==> Undisturbed(url, rest)
  {
    ShownIsItselfIff(s, text, url);
    TargetUndisturbedIff(s[5 + |text|..], url);
  }

  /** A link at the start of a text is recognised as itself exactly when its target has one of the forms
      of the pattern and what follows does not disturb it. */
  lemma RecognisedInTextIff(text: string, url: string, rest: string)
    requires BraceFree(text) && RecognisedTarget(url)
    ensures MatchAt(LinkText(text, url) + rest) == Some(Match(Link(text, url), |LinkText(text, url)|))
       <==> Undisturbed(url, rest)
  {
    TargetOfPrinted(text, url, rest);
    ShownUndisturbedIff(LinkText(text, url) + rest, text, url, rest, |LinkText(text, url)|);
  }

  lemma ShownAppIff(s: string, text: string, url: string, rest: string, n: nat)
    requires BraceFree(text) && Shows(s, text, url) && Starts(url, "/app/") && |url| > 5
    requires s[5 + |text|..][|url| + 2..] == rest && n == |text| + |url| + 7
    ensures MatchAt(s) == Some(Match(Link(text, url), n)) <==> NoSpaceAfter(url, 5) && !ClosesBeforeSpace(rest)
  {
    ShownIsItselfIff(s, text, url);
    AppTargetIsReadIff(s[5 + |text|..], url);
  }

  /** The same for an internal path, whatever it holds. */
  lemma AppLinkInTextIff(text: string, url: string, rest: string)
    requires BraceFree(text) && Starts(url, "/app/") && |url| > 5
    ensures MatchAt(LinkText(text, url) + rest) == Some(Match(Link(text, url), |LinkText(text, url)|))
       <==> NoSpaceAfter(url, 5) && !ClosesBeforeSpace(rest)
  {
    TargetOfPrinted(text, url, rest);
    ShownAppIff(LinkText(text, url) + rest, text, url, rest, |LinkText(text, url)|);
  }

  // ---------- texts made of links and plain segments ----------

  /** A text: a plain segment before each link, and one at the end. */
  datatype Document = End(plain: string) | Part(plain: string, link: Link, rest: Document)

  /** The text is built with the printer. */
  function Printed(d: Document): string {
    match d
    case End(plain) => plain
    case Part(plain, link, rest) => plain + (MarkupInlineLink(link.text, Some(link.url)) + Printed(rest))
  }

  function Links(d: Document): seq<Link> {
    match d
    case End(_) => []
    case Part(_, link, rest) => [link] + Links(rest)
  }

  /** Free of the two characters that open a link. */
  predicate Plain(s: string) {
    forall i :: 0 <= i < |s| - 1 ==> !(s[i] == '#' && s[i + 1] == '{')
  }

  /** Plain segments are plain, link texts are not empty and free of braces, and targets are safe and have
      one of the three forms as the pattern writes them. */
  predicate WellMade(d: Document) {
    match d
    case End(plain) => Plain(plain)
    case Part(plain, link, rest) =>
      && Plain(plain) && link.text != "" && BraceFree(link.text)
      && IsSafeTarget(link.url) && RecognisedTarget(link.url) && WellMade(rest)
  }

  /** Behind every link to an internal path comes white space, or the end, before anything closes again. */
  predicate PathsAreApart(d: Document) {
    match d
    case End(_) => true
    case Part(_, link, rest) => Undisturbed(link.url, Printed(rest)) && PathsAreApart(rest)
  }

  lemma OpensLink(s: string)
    ensures Starts(s, "#{") <==> |s| >= 2 && s[0] == '#' && s[1] == '{'
  {
    if |s| >= 2 {
      assert s[..2] == [s[0], s[1]];
    }
  }

  /** No link opens in `plain`, not even with the first character after it. */
  lemma {:induction false} PlainIsSkipped(plain: string, rest: string)
    requires Plain(plain) && (rest == "" || rest[0] != '{' || plain == "" || plain[|plain| - 1] != '#')
    ensures Scan(plain + rest) == Scan(rest)
  {
    if |plain| == 0 {
      assert plain + rest == rest;
    } else {
      var s := plain + rest;
      assert s[1..] == plain[1..] + rest;
      OpensLink(s);
      assert MatchAt(s) == None;
      PlainIsSkipped(plain[1..], rest);
    }
  }

  /** A match fits into the text. */
  lemma MatchFits(s: string)
    ensures MatchAt(s).Some? ==> MatchAt(s).value.length <= |s|
  {
  }

  /** Undisturbed, a printed link is found and scanning goes on behind it. */
  lemma PrintedLinkIsFound(text: string, url: string, rest: string)
    requires BraceFree(text) && RecognisedTarget(url) && Undisturbed(url, rest)
    ensures Scan(LinkText(text, url) + rest) == [Link(text, url)] + Scan(rest)
  {
    RecognisedInTextIff(text, url, rest);
    ScanPastMatch(LinkText(text, url) + rest, Link(text, url), |LinkText(text, url)|);
    Split(LinkText(text, url), rest);
  }

  /** Disturbed, it is not the link that is found. */
  lemma PrintedLinkIsMissed(text: string, url: string, rest: string, links: seq<Link>)
    requires BraceFree(text) && RecognisedTarget(url) && !Undisturbed(url, rest)
    ensures Scan(LinkText(text, url) + rest) != [Link(text, url)] + links
  {
    LongerTarget(text, url, rest);
    FirstIsAnother(LinkText(text, url) + rest, Link(text, url), links);
  }

  lemma FirstIsAnother(s: string, link: Link, links: seq<Link>)
    requires MatchAt(s).Some? && MatchAt(s).value.link != link
    ensures Scan(s) != [link] + links
  {
    MatchFits(s);
    ScanPastMatch(s, MatchAt(s).value.link, MatchAt(s).value.length);
    assert Scan(s)[0] == MatchAt(s).value.link && ([link] + links)[0] == link;
  }

  /** The disturbed path is read on to a later close. */
  lemma LongerTarget(text: string, url: string, rest: string)
    requires BraceFree(text) && RecognisedTarget(url) && !Undisturbed(url, rest)
    ensures var m := MatchAt(LinkText(text, url) + rest); m.Some? && |m.value.link.url| > |url|
  {
    var s := LinkText(text, url) + rest;
    TargetOfPrinted(text, url, rest);
    MatchOfShown(s, text, url);
    LongerRead(s[5 + |text|..], url);
  }

  lemma LongerRead(s: string, url: string)
    requires ShowsTarget(s, url) && Starts(url, "/app/") && |url| > 5 && NoSpaceAfter(url, 5)
    requires ClosesBeforeSpace(s[|url| + 2..])
    ensures TargetLength(s).Some? && |url| < TargetLength(s).value <= |s|
  {
    SamePrefix(s, url, "/app/");
    AppTarget(s);
    var x, n := s[5..], |url| - 5;
    forall i | 0 <= i < n ensures x[i] == url[i + 5] {
      assert s[..|url|][i + 5] == url[i + 5];
    }
    assert x[n + 2..] == s[|url| + 2..];
    ClosesBehind(x, n, s[|url| + 2..]);
  }

  /** A link after a plain segment is found, and scanning goes on behind it. */
  lemma LinkIsFound(plain: string, link: Link, rest: string)
    requires Plain(plain) && BraceFree(link.text) && RecognisedTarget(link.url)
    ensures Undisturbed(link.url, rest) ==> Scan(plain + (LinkText(link.text, link.url) + rest)) == [link] + Scan(rest)
    ensures !Undisturbed(link.url, rest) ==>
              forall links :: Scan(plain + (LinkText(link.text, link.url) + rest)) != [link] + links
  {
    var shown := LinkText(link.text, link.url);
    assert shown[0] == '#' && (shown + rest)[0] == '#';
    PlainIsSkipped(plain, shown + rest);
    if Undisturbed(link.url, rest) {
      PrintedLinkIsFound(link.text, link.url, rest);
    } else {
      forall links ensures Scan(shown + rest) != [link] + links {
        PrintedLinkIsMissed(link.text, link.url, rest, links);
      }
    }
  }

  /** Scanning a well-made text gives back its links, in order, exactly when its internal paths are kept
      apart from later closes. */
  lemma {:induction false} LinksAreRecoveredIff(d: Document)
    requires WellMade(d)
    ensures Scan(Printed(d)) == Links(d) <==> PathsAreApart(d)
  {
    match d
    case End(plain) =>
      assert plain + "" == plain;
      PlainIsSkipped(plain, "");
    case Part(plain, link, rest) =>
      assert link.url != "";
      LinkIsFound(plain, link, Printed(rest));
      LinksAreRecoveredIff(rest);
      if Undisturbed(link.url, Printed(rest)) {
        assert ([link] + Scan(Printed(rest)))[1..] == Scan(Printed(rest));
        assert Links(d)[1..] == Links(rest);
      }
  }

  /** What follows the scheme in a target that is built. */
  function AfterScheme(r: Route, params: seq<Param>): string {
    NameOf(r) + if UrlEncode(params) == "" then "" else "?" + UrlEncode(params)
  }

  lemma AfterSchemeIsClean(r: Route, params: seq<Param>)
    ensures |AfterScheme(r, params)| > 0
    ensures forall i :: 0 <= i < |AfterScheme(r, params)| ==> !EndsRun(AfterScheme(r, params)[i])
  {
    RouteNames(r);
    EncodedIsInQuery(params);
    var s, name, query := AfterScheme(r, params), NameOf(r), UrlEncode(params);
    forall i | 0 <= i < |s| ensures !EndsRun(s[i]) {
      if i < |name| {
        assert s[i] == name[i];
      } else if i > |name| {
        assert s[i] == query[i - |name| - 1];
      }
    }
  }

  lemma TargetChars(r: Route, params: seq<Param>)
    ensures CleanTarget(BuildRouteTarget(r, params))
  {
    var url, after := BuildRouteTarget(r, params), AfterScheme(r, params);
    assert url == ROUTE_SCHEME + after;
    Split(ROUTE_SCHEME, after);
    AfterSchemeIsClean(r, params);
    forall i | 6 <= i < |url| ensures !EndsRun(url[i]) {
      assert url[i] == after[i - 6];
    }
  }

  lemma LowerScheme(url: string)
    requires Starts(url, "route:")
    ensures Starts(Lowered(url), "route:") && !Starts(Lowered(url), "http://") && !Starts(Lowered(url), "https://")
  {
    var lowered := Lowered(url);
    assert forall i :: 0 <= i < 6 ==> lowered[i] == Lower(url[..6][i]) == "route:"[i];
    assert lowered[..6] == "route:";
    FirstChar(lowered, "http://");
    FirstChar(lowered, "https://");
  }

  lemma BuiltTargetIsTrimmed(r: Route, params: seq<Param>)
    ensures Strip(BuildRouteTarget(r, params)) == BuildRouteTarget(r, params)
  {
    var url, after := BuildRouteTarget(r, params), AfterScheme(r, params);
    AfterSchemeIsClean(r, params);
    assert url == ROUTE_SCHEME + after;
    assert url[0] == 'r' && url[|url| - 1] == after[|after| - 1];
  }

  /** Every target that is built is safe and clean: a link to it is printed, and recognised in any text. */
  lemma BuiltTargetsAreLinks(r: Route, params: seq<Param>)
    ensures IsSafeTarget(BuildRouteTarget(r, params)) && CleanTarget(BuildRouteTarget(r, params))
  {
    TargetChars(r, params);
    RouteIsRecovered(r, params);
    BuiltTargetIsTrimmed(r, params);
    LowerScheme(BuildRouteTarget(r, params));
  }

  /** All links of the text lead to targets that `build_route_target` has built, from any parameters. */
  ghost predicate LinksToRoutes(d: Document) {
    match d
    case End(plain) => Plain(plain)
    case Part(plain, link, rest) =>
      && Plain(plain) && link.text != "" && BraceFree(link.text)
      && (exists r: Route, params: seq<Param> :: link.url == BuildRouteTarget(r, params))
      && LinksToRoutes(rest)
  }

  /** A text of plain segments and links to routes is scanned back to the same links, in order. */
  lemma {:induction false} RouteLinksAreRecovered(d: Document)
    requires LinksToRoutes(d)
    ensures WellMade(d) && PathsAreApart(d) && Scan(Printed(d)) == Links(d)
  {
    match d
    case End(_) =>
      LinksAreRecoveredIff(d);
    case Part(_, link, rest) =>
      var r: Route, params: seq<Param> :| link.url == BuildRouteTarget(r, params);
      BuiltTargetsAreLinks(r, params);
      RouteLinksAreRecovered(rest);
      LinksAreRecoveredIff(d);
  }

  lemma ScanOne(s: string, text: string, url: string)
    requires Shows(s, text, url) && |s| == |text| + |url| + 7 && BraceFree(text) && RecognisedTarget(url)
    ensures Scan(s) == [Link(text, url)]
  {
    ShownAloneIff(s, text, url);
    ScanPastMatch(s, Link(text, url), |s|);
    assert s[|s|..] == "";
  }

  /** What stands between two links that are read as one. */
  function Joined(first: string, text: string, second: string): string {
    first + ("\"}#{" + (text + ("}{\"" + second)))
  }

  /** Two links to internal paths are taken for one whenever neither the paths nor the second text hold
      white space. */
  lemma AppLinksRunTogether(a: string, first: string, b: string, second: string)
    requires BraceFree(a) && Starts(first, "/app/") && NoSpaceAfter(first, 5)
    requires NoSpaceAfter(b, 0) && NoSpaceAfter(second, 0)
    ensures Scan(LinkText(a, first) + LinkText(b, second)) == [Link(a, Joined(first, b, second))]
  {
    JoinedReads(a, first, b, second);
    JoinedIsRecognised(first, b, second);
    ScanOne(LinkText(a, first) + LinkText(b, second), a, Joined(first, b, second));
  }

  lemma JoinedIsRecognised(first: string, b: string, second: string)
    requires Starts(first, "/app/") && NoSpaceAfter(first, 5) && NoSpaceAfter(b, 0) && NoSpaceAfter(second, 0)
    ensures RecognisedTarget(Joined(first, b, second))
  {
    var j := Joined(first, b, second);
    assert j[..5] == first[..5];
    forall i | 5 <= i < |j| ensures !IsSpace(j[i]) {
      var o := i - |first|;
      if i < |first| {
        assert j[i] == first[i];
      } else if 4 <= o < 4 + |b| {
        assert j[i] == b[o - 4];
      } else if o >= 7 + |b| {
        assert j[i] == second[o - 7 - |b|];
      }
    }
  }

  lemma JoinedReads(a: string, first: string, b: string, second: string)
    ensures var s := LinkText(a, first) + LinkText(b, second);
            Shows(s, a, Joined(first, b, second)) && |s| == |a| + |Joined(first, b, second)| + 7
  {
    var s, j := LinkText(a, first) + LinkText(b, second), Joined(first, b, second);
    var target := s[5 + |a|..];
    assert s[2..2 + |a|] == a;
    forall i | 0 <= i < |j| ensures target[i] == j[i] {
      var o := i - |first|;
      if i < |first| {
        assert target[i] == first[i];
      } else if 4 <= o < 4 + |b| {
        assert target[i] == b[o - 4];
      } else if o >= 7 + |b| {
        assert target[i] == second[o - 7 - |b|];
      }
    }
    assert target[..|j|] == j;
  }

  /** A safe target that is printed but not recognised: nothing follows the scheme. */
  lemma SafeIsNotEnough()
    ensures IsSafeTarget("https://") && !RecognisedTarget("https://")
  {
    var url := "https://";
    assert Strip(url) == url && Lowered(url) == url;
    assert |url| == 8 && url[0] == 'h' && url[4] == 's';
    assert Starts(url, "https://");
    assert "http://"[4] == ':' && url[..7][4] == 's';
  }
}
