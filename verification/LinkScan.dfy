/** How the scan for links passes through a printed link (`app/utils/notify_markup.py`), from the text into
    the target and the end of the link.

    The scan of the text alone says how it comes to the target (`EntryOf`): in the plain, as the target of
    the link itself, or in a path that is still open. That fixes what it leaves of the target (`LeftOf`),
    and `SafeAcrossIff` says that only this and the text decide. What the pattern reads from a safe target
    is itself safe, even when it stops before the end (`ReadTargetIsSafe`). */
module LinkScan {
  import opened NotifyMarkup
  import opened Text
  import opened Wrappers

  /** Every recognised link leads to a safe target. */
  ghost predicate AllSafe(links: seq<Link>) {
    forall i :: 0 <= i < |links| ==> IsSafeTarget(links[i].url)
  }

  lemma AllSafeFirst(link: Link, rest: seq<Link>)
    ensures AllSafe([link] + rest) <==> IsSafeTarget(link.url) && AllSafe(rest)
  {
    var all := [link] + rest;
    assert forall i :: 0 <= i < |rest| ==> all[i + 1] == rest[i];
    assert all[0] == link;
  }

  // ---------- safe forms ----------

  lemma {:induction false} StripKeepsPrefix(s: string, prefix: string)
    requires Starts(s, prefix) && forall i :: 0 <= i < |prefix| ==> !IsSpace(prefix[i])
    ensures Starts(Strip(s), prefix)
    decreases |s|
  {
    if |s| > 0 && |prefix| > 0 {
      assert s[0] == s[..|prefix|][0];
      if IsSpace(s[|s| - 1]) {
        assert forall i :: 0 <= i < |prefix| ==> s[i] == s[..|prefix|][i];
        assert |prefix| < |s|;
        assert s[..|s| - 1][..|prefix|] == s[..|prefix|];
        StripKeepsPrefix(s[..|s| - 1], prefix);
      }
    }
  }

  /** Addresses and internal paths as the pattern writes them are always safe. */
  lemma FormIsSafe(url: string)
    requires Starts(url, "http://") || Starts(url, "https://") || Starts(url, "/app/")
    ensures IsSafeTarget(url)
  {
    var prefix := if Starts(url, "http://") then "http://" else if Starts(url, "https://") then "https://" else "/app/";
    StripKeepsPrefix(url, prefix);
    FirstChar(Lowered(Strip(url)), prefix);
    FirstChar(Lowered(Strip(url)), "route:");
  }

  /** Stripping what starts with a visible character only drops white space at the end. */
  lemma {:induction false} StripDropsEnd(s: string)
    requires |s| > 0 && !IsSpace(s[0])
    ensures 0 < |Strip(s)| <= |s| && Strip(s) == s[..|Strip(s)|]
    ensures forall i :: |Strip(s)| <= i < |s| ==> IsSpace(s[i])
    decreases |s|
  {
    if IsSpace(s[|s| - 1]) {
      var init := s[..|s| - 1];
      StripDropsEnd(init);
      assert init[..|Strip(init)|] == s[..|Strip(init)|];
    } else {
      assert s[..|s|] == s;
    }
  }

  lemma {:induction false} QuestionAt(s: string)
    ensures |UpToQuestion(s)| <= |s| && UpToQuestion(s) == s[..|UpToQuestion(s)|]
    ensures forall i :: 0 <= i < |UpToQuestion(s)| ==> s[i] != '?'
    ensures |UpToQuestion(s)| < |s| ==> s[|UpToQuestion(s)|] == '?'
  {
    if |s| > 0 && s[0] != '?' {
      QuestionAt(s[1..]);
      assert s[..|UpToQuestion(s)|] == [s[0]] + s[1..][..|UpToQuestion(s[1..])|];
    }
  }

  /** The name of a registered route: nothing but characters that no run ends at. */
  lemma RegisteredName(name: string)
    requires FromName(name).Some?
    ensures |name| > 0 && forall i :: 0 <= i < |name| ==> NameChar(name[i])
  {
    RouteNames(FromName(name).value);
  }

  /** The name at the start of what follows the scheme. */
  lemma NameIn(a: string) returns (name: string)
    requires |a| > 0 && !IsSpace(a[0]) && FromName(Strip(UpToQuestion(a))).Some?
    ensures FromName(name).Some? && Starts(a, name)
    ensures |name| < |a| && !IsSpace(a[|name|]) ==> a[|name|] == '?'
  {
    QuestionAt(a);
    name := Strip(UpToQuestion(a));
    RegisteredName(name);
    NameInPrefix(a, UpToQuestion(a));
  }

  lemma NameInPrefix(a: string, q: string)
    requires |q| > 0 && Starts(a, q) && !IsSpace(a[0]) && (|q| < |a| ==> a[|q|] == '?')
    ensures var name := Strip(q);
            Starts(a, name) && (|name| < |a| && !IsSpace(a[|name|]) ==> a[|name|] == '?')
  {
    assert forall i :: 0 <= i < |q| ==> q[i] == a[..|q|][i] == a[i];
    StripDropsEnd(q);
    assert a[..|Strip(q)|] == q[..|Strip(q)|];
  }

  /** The name in a safe route target, read off the target as it is written. */
  lemma NameInTarget(url: string) returns (name: string)
    requires Starts(url, "route:") && |url| > 6 && !IsSpace(url[6]) && IsSafeTarget(url)
    ensures FromName(name).Some? && 6 + |name| <= |url| && url[6..6 + |name|] == name
    ensures 6 + |name| < |url| && !IsSpace(url[6 + |name|]) ==> url[6 + |name|] == '?'
  {
    FirstChar(url, "route:");
    StripDropsEnd(url);
    var stripped := Strip(url);
    StripKeepsPrefix(url, "route:");
    LowerScheme(stripped);
    assert |stripped| > 6;
    var a := stripped[6..];
    assert a[0] == url[6];
    name := NameIn(a);
    NamePlace(url, |stripped|, name);
  }

  lemma NamePlace(url: string, n: nat, name: string)
    requires 6 <= n <= |url| && Starts(url[..n][6..], name)
    ensures 6 + |name| <= n && url[6..6 + |name|] == name
    ensures 6 + |name| < n ==> url[6 + |name|] == url[..n][6..][|name|]
  {
    assert url[6..6 + |name|] == url[..n][6..][..|name|];
  }

  /** Cutting a safe route target where a run ends leaves it safe. */
  lemma CutRouteIsSafe(url: string, u: nat)
    requires Starts(url, "route:") && IsSafeTarget(url) && 6 < u <= |url|
    requires forall i :: 6 <= i < u ==> !EndsRun(url[i])
    requires u < |url| ==> EndsRun(url[u])
    ensures IsSafeTarget(url[..u])
  {
    var name := NameInTarget(url);
    NameUncut(url, u, name);
    assert url[..u][..6] == url[..6];
    RegisteredName(name);
    NameAhead(url[..u][6..], name);
    TrimmedRouteIff(url[..u]);
  }

  lemma NameUncut(url: string, u: nat, name: string)
    requires 6 < u <= |url| && FromName(name).Some? && 6 + |name| <= |url| && url[6..6 + |name|] == name
    requires 6 + |name| < |url| && !IsSpace(url[6 + |name|]) ==> url[6 + |name|] == '?'
    requires forall i :: 6 <= i < u ==> !EndsRun(url[i])
    requires u < |url| ==> EndsRun(url[u])
    ensures Starts(url[..u][6..], name)
    ensures |name| < |url[..u][6..]| ==> url[..u][6..][|name|] == '?'
  {
    RegisteredName(name);
    assert forall i :: 0 <= i < |name| ==> url[6 + i] == url[6..6 + |name|][i] == name[i];
    assert u >= 6 + |name|;
    assert url[..u][6..][..|name|] == url[6..6 + |name|];
  }

  lemma NameIsTrimmed(name: string)
    requires |name| > 0 && forall i :: 0 <= i < |name| ==> NameChar(name[i])
    ensures Strip(name) == name && forall i :: 0 <= i < |name| ==> name[i] != '?'
  {
    assert NameChar(name[0]) && NameChar(name[|name| - 1]);
  }

  lemma NameAhead(w: string, name: string)
    requires |name| > 0 && (forall i :: 0 <= i < |name| ==> NameChar(name[i]))
    requires Starts(w, name) && (|name| < |w| ==> w[|name|] == '?')
    ensures Strip(UpToQuestion(w)) == name
  {
    NameIsTrimmed(name);
    assert w == name + w[|name|..];
    QuestionFound(name, w[|name|..]);
  }

  lemma TrimmedRouteIff(v: string)
    requires Starts(v, "route:") && |v| > 6 && !IsSpace(v[|v| - 1])
    ensures IsSafeTarget(v) <==> FromName(Strip(UpToQuestion(v[6..]))).Some?
  {
    FirstChar(v, "route:");
    LowerScheme(v);
  }

  /** The target that the pattern reads from `url` and the closing quote is safe when `url` is. */
  lemma ReadTargetIsSafe(url: string, u: nat)
    requires IsSafeTarget(url) && TargetLength(url + "\"}") == Some(u)
    ensures u <= |url| && IsSafeTarget((url + "\"}")[..u])
  {
    var s := url + "\"}";
    var v := s[..u];
    if Starts(s, "http://") {
      assert v[..7] == s[..7];
      FormIsSafe(v);
    } else if Starts(s, "https://") {
      assert v[..8] == s[..8];
      FormIsSafe(v);
    } else if Starts(s, "/app/") {
      assert v[..5] == s[..5];
      FormIsSafe(v);
    } else {
      RouteRun(url, u);
    }
  }

  lemma RouteRun(url: string, u: nat)
    requires IsSafeTarget(url) && Starts(url + "\"}", "route:") && RunTarget(url + "\"}", 6) == Some(u)
    ensures u <= |url| && IsSafeTarget((url + "\"}")[..u])
  {
    var s := url + "\"}";
    assert forall i :: 6 <= i < u ==> s[i] == s[6..][i - 6];
    assert u < |s| && s[u] == s[6..][u - 6];
    assert u <= |url|;
    assert forall i :: 0 <= i < u ==> url[i] == s[i];
    assert url[..6] == s[..6];
    assert s[..u] == url[..u];
    CutRouteIsSafe(url, u);
  }

  // ---------- texts without links ----------

  lemma {:induction false} NoCloseNoLinks(z: string)
    requires forall i :: 0 < i < |z| ==> !ClosesAt(z, i)
    ensures Scan(z) == []
  {
    if |z| > 0 {
      if MatchAt(z).Some? {
        MatchCloses(z);
      }
      forall i | 0 < i < |z| - 1 ensures !ClosesAt(z[1..], i) {
        assert !ClosesAt(z, i + 1);
      }
      NoCloseNoLinks(z[1..]);
    }
  }

  /** The parts of a match: the quote that opens its target, and the target behind it. */
  lemma MatchParts(s: string) returns (t: nat, u: nat)
    requires MatchAt(s).Some?
    ensures 5 + t <= |s| && s[4 + t] == '"' && TargetLength(s[5 + t..]) == Some(u) && MatchAt(s).value.length == t + u + 7
  {
    var inner := s[2..];
    t := TextLength(inner);
    assert inner[t..][..3] == "}{\"";
    assert inner[t + 2] == inner[t..][..3][2];
    assert inner[t + 3..] == s[5 + t..];
    u := TargetLength(s[5 + t..]).value;
  }

  /** A match ends in a close, after an opening quote. */
  lemma MatchCloses(s: string)
    requires MatchAt(s).Some?
    ensures var n := MatchAt(s).value.length;
            && 7 < n <= |s| && ClosesAt(s, n - 2)
            && exists q :: 0 < q < n - 2 && s[q] == '"'
  {
    var t, u := MatchParts(s);
    TargetCloses(s[5 + t..]);
    assert s[5 + t..][u] == s[5 + t + u] && s[5 + t..][u + 1] == s[6 + t + u];
  }

  lemma TargetCloses(s: string)
    requires TargetLength(s).Some?
    ensures TargetLength(s).value > 5 && ClosesAt(s, TargetLength(s).value)
  {
    if Starts(s, "/app/") {
      AppTarget(s);
      var n := LastClose(s[5..], NonSpaceLength(s[5..]));
      assert ClosesAt(s[5..], n);
      assert s[5..][n] == s[5 + n] && s[5..][n + 1] == s[6 + n];
    }
  }

  /** At most one quote. */
  ghost predicate OneQuote(z: string) {
    forall i, j :: 0 <= i < j < |z| ==> !(z[i] == '"' && z[j] == '"')
  }

  lemma {:induction false} OneQuoteNoLinks(z: string)
    requires OneQuote(z)
    ensures Scan(z) == []
  {
    if |z| > 0 {
      if MatchAt(z).Some? {
        MatchCloses(z);
      }
      OneQuoteNoLinks(z[1..]);
    }
  }

  lemma BraceFreeNoLinks(text: string)
    requires BraceFree(text)
    ensures Scan(text) == [] && Scan("#{" + text + "}") == []
  {
    assert text + "" == text;
    PlainIsSkipped(text, "");
    var x := "#{" + text + "}";
    OpenedNoLinks(x, text);
  }

  /** A link that opens and is not closed by more than a brace is none. */
  lemma OpenedNoLinks(x: string, text: string)
    requires BraceFree(text) && x == "#{" + text + "}"
    ensures MatchAt(x) == None && Scan(x[1..]) == [] && Scan(x) == []
  {
    var inner := x[2..];
    assert inner == text + "}";
    var t := TextLength(inner);
    assert inner[|text|] == '}';
    assert forall i :: 0 <= i < |text| ==> inner[i] == text[i];
    assert t == |text|;
    assert |inner[t..]| == 1;
    var y := x[1..];
    assert y == "{" + (text + "}");
    assert forall i :: 0 < i < |y| - 1 ==> y[i] == text[i - 1];
    assert y + "" == y;
    PlainIsSkipped(y, "");
  }

  // ---------- scanning past the text ----------

  /** What follows the text in a printed link. */
  function AfterText(url: string): string {
    "{\"" + (url + "\"}")
  }

  /** The text ends where its own closing brace is. */
  ghost predicate EndsInBrace(x: string) {
    |x| > 0 ==> x[|x| - 1] == '}'
  }

  /** The scan of `x + t`, when nothing matches at its start. */
  lemma Skip(x: string, t: string)
    requires |x| > 0 && MatchAt(x + t) == None
    ensures Scan(x + t) == Scan(x[1..] + t)
  {
    assert (x + t)[1..] == x[1..] + t;
  }

  /** When the match ends within `x`. */
  lemma Inside(x: string, t: string, m: Match)
    requires MatchAt(x + t) == Some(m) && 0 < m.length <= |x|
    ensures Scan(x + t) == [m.link] + Scan(x[m.length..] + t)
  {
    assert (x + t)[m.length..] == x[m.length..] + t;
    ScanPastMatch(x + t, m.link, m.length);
  }

  lemma Suffix(a: string, b: string, k: nat)
    requires k <= |b|
    ensures (a + b)[|a| + k..] == b[k..]
  {
  }

  /** Behind a safe link the rest decides. */
  lemma SafeBehind(s: string, m: Match, rest: string)
    requires MatchAt(s) == Some(m) && 0 < m.length <= |s| && s[m.length..] == rest && IsSafeTarget(m.link.url)
    ensures AllSafe(Scan(s)) <==> AllSafe(Scan(rest))
  {
    ScanPastMatch(s, m.link, m.length);
    AllSafeFirst(m.link, Scan(rest));
  }

  /** A quote and a brace open nothing. */
  lemma FromQuoteOn(target: string)
    ensures Scan("{\"" + target) == Scan(target)
  {
    PlainIsSkipped("{\"", target);
  }

  // ---------- how the scan comes to the target ----------

  /** The text ends within a link of its own, whose target is the one given. */
  predicate OpensOwn(x: string) {
    |x| > 2 && x[0] == '#' && x[1] == '{' && TextLength(x[2..]) == |x| - 3
  }

  /** A link to an internal path opens at the start of `x`, and `x` ends before white space does. */
  predicate OpensPath(x: string) {
    && |x| > 2 && x[0] == '#' && x[1] == '{'
    && var n := TextLength(x[2..]);
       Starts(x[2 + n..], "}{\"") && Starts(x[5 + n..], "/app/") && NoSpaceAfter(x[5 + n..], 5)
  }

  /** Where the scan of a text finds the target behind it: in the plain, as the target of the link itself,
      or in the path of a link that is still open. */
  datatype Entry = InThePlain | AsTheTarget | InAPath

  /** The scan of `x` alone says it; `closes` is all it needs to know about the target. */
  function EntryOf(x: string, closes: bool): Entry
    decreases |x|
  {
    if |x| == 0 then InThePlain
    else if OpensOwn(x) then AsTheTarget
    else if closes && OpensPath(x) then InAPath
    else
      var m := MatchAt(x);
      EntryOf(if m.Some? && m.value.length <= |x| then x[m.value.length..] else x[1..], closes)
  }

  /** The last close of a target and the end of its link before the first white space, or 0. */
  function Reach(target: string): nat {
    LastClose(target, NonSpaceLength(target))
  }

  /** What is left of a target and the end of its link when the pattern has read it. */
  function Unread(target: string): string {
    var n := TargetLength(target);
    if n.Some? && n.value + 2 <= |target| then target[n.value + 2..] else target
  }

  /** What is left of it for further links. */
  function LeftOf(entry: Entry, target: string): string {
    match entry
    case InThePlain => target
    case AsTheTarget => Unread(target)
    case InAPath => if Reach(target) + 2 <= |target| then target[Reach(target) + 2..] else ""
  }

  /** What the scan leaves of `url` and the end of its link, once it has passed `x`. */
  function LeftBehind(x: string, url: string): string {
    var target := url + "\"}";
    LeftOf(EntryOf(x, Reach(target) > 0), target)
  }

  // ---------- what follows a text changes nothing before it ----------

  lemma StartsAlike(y: string, t: string, prefix: string)
    requires |y| > 0 && y[|y| - 1] == '}' && forall i :: 0 <= i < |prefix| ==> prefix[i] != '}'
    ensures Starts(y + t, prefix) <==> Starts(y, prefix)
  {
    if |prefix| <= |y| {
      assert (y + t)[..|prefix|] == y[..|prefix|];
    } else if |prefix| <= |y + t| {
      assert (y + t)[..|prefix|][|y| - 1] == '}' != prefix[|y| - 1];
    }
  }

  /** What follows the text starts like this, with neither a brace nor another quote after the quote. */
  ghost predicate IsAfterText(t: string) {
    |t| > 2 && t[0] == '{' && t[1] == '"' && t[2] != '}' && t[2] != '"'
  }

  lemma SafeStart(url: string)
    requires IsSafeTarget(url)
    ensures |url| > 0 && url[0] != '}' && url[0] != '"' && IsAfterText(AfterText(url))
  {
    if |url| == 0 || url[0] == '}' || url[0] == '"' {
      var stripped := Strip(url);
      Unstripped(url);
      FirstChar(Lowered(stripped), "http://");
      FirstChar(Lowered(stripped), "https://");
      FirstChar(Lowered(stripped), "route:");
      FirstChar(Lowered(stripped), "/app/");
    }
  }

  lemma Unstripped(s: string)
    requires |s| == 0 || !IsSpace(s[0])
    ensures |Strip(s)| > 0 ==> |s| > 0 && Strip(s)[0] == s[0]
  {
    if |s| > 0 {
      StripDropsEnd(s);
    }
  }

  lemma RunAcross(y: string, t: string, p: nat)
    requires p < |y| && y[|y| - 1] == '}' && IsAfterText(t)
    ensures RunTarget(y + t, p) == RunTarget(y, p)
  {
    var a, b := y[p..], (y + t)[p..];
    assert b == a + t;
    RunMeets(a, t);
    assert forall i :: 0 <= i < |b| ==> b[i] == (y + t)[p + i];
    assert forall i :: 0 <= i < |a| ==> a[i] == y[p + i];
  }

  /** A run that goes on behind `a` ends at the quote of `t`, which closes nothing. */
  lemma RunMeets(a: string, t: string)
    requires |a| > 0 && a[|a| - 1] == '}' && IsAfterText(t)
    ensures var n, m := RunLength(a), RunLength(a + t);
            && (n < |a| ==> m == n && n + 1 < |a|)
            && (n == |a| ==> m == |a| + 1)
  {
    var n, m, b := RunLength(a), RunLength(a + t), a + t;
    assert forall i :: 0 <= i < |a| ==> b[i] == a[i];
    assert b[|a|] == '{' && b[|a| + 1] == '"';
  }

  /** An internal path without white space to the end of the text, which may run on into what follows. */
  ghost predicate IsPath(y: string) {
    Starts(y, "/app/") && NoSpaceAfter(y, 5)
  }

  /** Any other target ends in `y`, if it ends at all. */
  lemma TargetAcross(y: string, t: string)
    requires |y| > 0 && y[|y| - 1] == '}' && IsAfterText(t) && !IsPath(y)
    ensures TargetLength(y + t) == TargetLength(y)
  {
    StartsAlike(y, t, "http://");
    StartsAlike(y, t, "https://");
    StartsAlike(y, t, "/app/");
    StartsAlike(y, t, "route:");
    if Starts(y, "http://") {
      RunAcrossPrefix(y, t, "http://");
    } else if Starts(y, "https://") {
      RunAcrossPrefix(y, t, "https://");
    } else if Starts(y, "/app/") {
      AppAcross(y, t);
    } else if Starts(y, "route:") {
      RunAcrossPrefix(y, t, "route:");
    }
  }

  lemma RunAcrossPrefix(y: string, t: string, prefix: string)
    requires |y| > 0 && y[|y| - 1] == '}' && Starts(y, prefix) && IsAfterText(t)
    requires |prefix| > 0 && prefix[|prefix| - 1] != '}'
    ensures RunTarget(y + t, |prefix|) == RunTarget(y, |prefix|)
  {
    assert y[|prefix| - 1] == y[..|prefix|][|prefix| - 1];
    RunAcross(y, t, |prefix|);
  }

  lemma NotAPath(y: string)
    requires Starts(y, "/app/") && !IsPath(y)
    ensures NonSpaceLength(y[5..]) < |y[5..]|
  {
    assert forall i :: 5 <= i < |y| ==> y[i] == y[5..][i - 5];
  }

  lemma AppAcross(y: string, t: string)
    requires Starts(y, "/app/") && Starts(y + t, "/app/") && !IsPath(y)
    ensures TargetLength(y + t) == TargetLength(y)
  {
    AppTarget(y);
    AppTarget(y + t);
    assert (y + t)[5..] == y[5..] + t;
    NotAPath(y);
    GreedyAcross(y[5..], t);
  }

  lemma GreedyAcross(a: string, t: string)
    requires NonSpaceLength(a) < |a|
    ensures LastClose(a + t, NonSpaceLength(a + t)) == LastClose(a, NonSpaceLength(a))
  {
    var b, n := a + t, NonSpaceLength(a);
    assert forall i :: 0 <= i < |a| ==> b[i] == a[i];
    NonSpaceIs(b, n);
    assert forall i: nat :: i <= n ==> (ClosesAt(b, i) <==> ClosesAt(a, i));
    LastCloseIs(b, n, LastClose(a, n));
  }

  // ---------- how a link that opens in the text ends ----------

  /** `x` opens a link whose text `inside` its own last brace ends. */
  ghost predicate OpensOnly(x: string, inside: string) {
    BraceFree(inside) && x == "#{" + inside + "}"
  }

  /** `x` holds a link up to its opening quote, and `y` is what comes then. */
  ghost predicate Opens(x: string, inside: string, y: string) {
    && 5 + |inside| <= |x| && x[0] == '#' && x[1] == '{' && x[2..2 + |inside|] == inside
    && x[2 + |inside|] == '}' && x[3 + |inside|] == '{' && x[4 + |inside|] == '"' && x[5 + |inside|..] == y
  }

  /** The link opens in a text that ends in a brace. */
  ghost predicate OpensUpTo(x: string, inside: string, y: string) {
    BraceFree(inside) && |y| > 0 && y[|y| - 1] == '}' && Opens(x, inside, y)
  }

  /** Otherwise there is no link, whatever follows. */
  lemma HowItOpens(x: string, t: string) returns (inside: string, y: string)
    requires |x| > 0 && x[|x| - 1] == '}' && IsAfterText(t)
    ensures OpensOwn(x) ==> OpensOnly(x, inside)
    ensures !OpensOwn(x) ==> OpensUpTo(x, inside, y) || MatchAt(x + t) == MatchAt(x) == None
    ensures OpensPath(x) <==> OpensUpTo(x, inside, y) && IsPath(y)
  {
    inside, y := "", "";
    StartsAlike(x, t, "#{");
    OpensLink(x);
    if Starts(x, "#{") {
      assert (x + t)[2..] == x[2..] + t;
      inside, y := HowTextEnds(x, x[2..], t);
    }
  }

  lemma HowTextEnds(x: string, inner: string, t: string) returns (inside: string, y: string)
    requires |x| > 2 && x[0] == '#' && x[1] == '{' && x[2..] == inner && inner[|inner| - 1] == '}'
    ensures OpensOwn(x) ==> OpensOnly(x, inside)
    ensures !OpensOwn(x) ==> OpensUpTo(x, inside, y) || MatchInner(inner + t) == MatchInner(inner) == None
    ensures OpensPath(x) <==> OpensUpTo(x, inside, y) && IsPath(y)
  {
    var n := TextLength(inner);
    SameText(inner, t);
    inside, y := inner[..n], "";
    assert x[2 + n..] == inner[n..];
    if n == |inner| - 1 {
      EndsWithText(x, inner);
    } else if Starts(inner[n..], "}{\"") {
      y := inner[n + 3..];
      QuoteInside(inner, n);
      EndsBeyondText(x, inner, n);
      assert x[5 + n..] == y;
    } else {
      NoQuoteInside(inner, n, t);
    }
  }

  lemma EndsWithText(x: string, inner: string)
    requires |x| > 2 && x[0] == '#' && x[1] == '{' && x[2..] == inner && inner[|inner| - 1] == '}'
    requires BraceFree(inner[..|inner| - 1])
    ensures OpensOnly(x, inner[..|inner| - 1])
  {
    assert x[..2] == "#{" && x == x[..2] + inner;
    assert inner == inner[..|inner| - 1] + "}";
  }

  lemma EndsBeyondText(x: string, inner: string, n: nat)
    requires |x| > 2 && x[0] == '#' && x[1] == '{' && x[2..] == inner && inner[|inner| - 1] == '}'
    requires n + 3 < |inner| && inner[n] == '}' && inner[n + 1] == '{' && inner[n + 2] == '"' && BraceFree(inner[..n])
    ensures OpensUpTo(x, inner[..n], inner[n + 3..])
  {
    assert inner[..n] == x[2..2 + n];
    assert inner[n + 3..] == x[5 + n..];
  }

  lemma SameText(inner: string, t: string)
    requires |inner| > 0 && inner[|inner| - 1] == '}'
    ensures TextLength(inner) < |inner| && TextLength(inner + t) == TextLength(inner)
    ensures BraceFree(inner[..TextLength(inner)])
  {
    var n, m := TextLength(inner), TextLength(inner + t);
    assert forall i :: 0 <= i < |inner| ==> (inner + t)[i] == inner[i];
  }

  lemma QuoteInside(inner: string, n: nat)
    requires n < |inner| && inner[|inner| - 1] == '}' && Starts(inner[n..], "}{\"")
    ensures n + 3 < |inner| && inner[n] == '}' && inner[n + 1] == '{' && inner[n + 2] == '"'
  {
    var three := inner[n..][..3];
    assert inner[n] == three[0] && inner[n + 1] == three[1] && inner[n + 2] == three[2];
  }

  lemma SecondChar(s: string, prefix: string)
    requires |prefix| > 1
    ensures Starts(s, prefix) ==> |s| > 1 && s[1] == prefix[1]
  {
    if |prefix| <= |s| {
      assert s[..|prefix|][1] == s[1];
    }
  }

  lemma NoQuoteInside(inner: string, n: nat, t: string)
    requires n < |inner| - 1 && inner[|inner| - 1] == '}' && !Starts(inner[n..], "}{\"")
    ensures !Starts((inner + t)[n..], "}{\"")
  {
    assert (inner + t)[n..] == inner[n..] + t;
    if n + 3 <= |inner| {
      assert (inner + t)[n..][..3] == inner[n..][..3];
    } else {
      assert (inner[n..] + t)[1] == '}';
      SecondChar((inner + t)[n..], "}{\"");
    }
  }

  /** The text of a link that opens is read up to its brace. */
  lemma OpenedRead(x: string, inside: string, y: string)
    requires BraceFree(inside) && Opens(x, inside, y)
    ensures MatchAt(x) == MatchOf(inside, y)
  {
    OpensLink(x);
    assert x[2..][..|inside|] == x[2..2 + |inside|];
    assert x[2..][|inside| + 3..] == x[5 + |inside|..];
    InnerMatch(x[2..], inside, y);
  }

  lemma OpensWithMore(x: string, inside: string, y: string, t: string)
    requires Opens(x, inside, y)
    ensures Opens(x + t, inside, y + t)
  {
    assert (x + t)[2..2 + |inside|] == x[2..2 + |inside|];
    assert (x + t)[5 + |inside|..] == x[5 + |inside|..] + t;
  }

  lemma OpenedMatch(x: string, inside: string, y: string, t: string)
    requires OpensUpTo(x, inside, y)
    ensures MatchAt(x) == MatchOf(inside, y) && MatchAt(x + t) == MatchOf(inside, y + t)
  {
    OpenedRead(x, inside, y);
    OpensWithMore(x, inside, y, t);
    OpenedRead(x + t, inside, y + t);
  }

  lemma LastCloseIs(x: string, k: nat, n: nat)
    requires n <= k && (n > 0 ==> ClosesAt(x, n)) && forall i :: n < i <= k ==> !ClosesAt(x, i)
    ensures LastClose(x, k) == n
  {
  }

  /** `b` is `a`, a brace and a quote, and `target`. */
  ghost predicate JoinedAs(b: string, a: string, target: string) {
    && |a| > 0 && a[|a| - 1] == '}' && |target| > 0 && target[0] != '}' && target[0] != '"'
    && |b| == |a| + 2 + |target| && b[|a|] == '{' && b[|a| + 1] == '"'
    && (forall i :: 0 <= i < |a| ==> b[i] == a[i])
    && forall i :: |a| + 2 <= i < |b| ==> b[i] == target[i - |a| - 2]
  }

  lemma {:induction false} NonSpaceConcat(a: string, c: string)
    requires NonSpaceLength(a) == |a|
    ensures NonSpaceLength(a + c) == |a| + NonSpaceLength(c)
    decreases |a|
  {
    if |a| == 0 {
      assert a + c == c;
    } else {
      assert (a + c)[1..] == a[1..] + c;
      NonSpaceConcat(a[1..], c);
    }
  }

  /** Nothing closes where the three meet. */
  lemma ClosesAcross(b: string, a: string, target: string, i: nat)
    requires JoinedAs(b, a, target)
    ensures ClosesAt(b, i) <==> if i < |a| then ClosesAt(a, i) else i > |a| + 2 && ClosesAt(target, i - |a| - 2)
  {
  }

  /** The last close of a path that is still open where the text ends is that of the target, if there is
      any before its first white space. */
  lemma GreedyReach(b: string, a: string, target: string)
    requires JoinedAs(b, a, target) && NonSpaceLength(a) == |a| && NonSpaceLength(b) == |a| + 2 + NonSpaceLength(target)
    ensures LastClose(b, NonSpaceLength(b)) == if Reach(target) > 0 then |a| + 2 + Reach(target) else LastClose(a, |a|)
  {
    forall i: nat
      ensures ClosesAt(b, i) <==> if i < |a| then ClosesAt(a, i) else i > |a| + 2 && ClosesAt(target, i - |a| - 2)
    {
      ClosesAcross(b, a, target, i);
    }
    LastCloseIs(b, NonSpaceLength(b), if Reach(target) > 0 then |a| + 2 + Reach(target) else LastClose(a, |a|));
  }

  lemma TailJoined(y: string, t: string, target: string)
    requires |y| > 0 && y[|y| - 1] == '}' && Starts(y, "/app/") && t == "{\"" + target && IsAfterText(t)
    ensures Starts(y + t, "/app/") && JoinedAs((y + t)[5..], y[5..], target) && (y + t)[5..] == y[5..] + t
  {
    StartsAlike(y, t, "/app/");
    assert y[4] == y[..5][4] == '/';
    assert (y + t)[5..] == y[5..] + t;
    assert forall i :: 0 <= i < |target| ==> t[2 + i] == target[i];
  }

  lemma ReachAcross(a: string, t: string, target: string)
    requires t == "{\"" + target && JoinedAs(a + t, a, target) && NonSpaceLength(a) == |a|
    ensures LastClose(a + t, NonSpaceLength(a + t))
         == if Reach(target) > 0 then |a| + 2 + Reach(target) else LastClose(a, |a|)
  {
    NonSpaceConcat(a, t);
    NonSpaceConcat("{\"", target);
    GreedyReach(a + t, a, target);
  }

  lemma PathIsNonSpace(y: string)
    requires IsPath(y)
    ensures NonSpaceLength(y[5..]) == |y[5..]|
  {
    assert forall i :: 0 <= i < |y[5..]| ==> y[5..][i] == y[i + 5];
  }

  lemma PathAcross(y: string, t: string, target: string)
    requires |y| > 0 && y[|y| - 1] == '}' && IsPath(y) && t == "{\"" + target && IsAfterText(t)
    ensures TargetLength(y + t) == if Reach(target) > 0 then Some(|y| + 2 + Reach(target)) else TargetLength(y)
  {
    TailJoined(y, t, target);
    AppTarget(y);
    AppTarget(y + t);
    PathIsNonSpace(y);
    ReachAcross(y[5..], t, target);
  }

  /** A path that is still open takes the target up to there, and the link is safe. */
  lemma OpenPathAcross(x: string, inside: string, y: string, t: string, target: string)
    requires OpensUpTo(x, inside, y) && IsPath(y) && t == "{\"" + target && IsAfterText(t) && Reach(target) > 0
    ensures var m := MatchAt(x + t);
            m.Some? && IsSafeTarget(m.value.link.url) && m.value.length == |x| + 4 + Reach(target)
  {
    PathAcross(y, t, target);
    Split(y, t);
    PathMatch(inside, y, y + t, |y| + 2 + Reach(target));
    OpenedMatch(x, inside, y, t);
    assert |x| == 5 + |inside| + |y|;
  }

  lemma PathMatch(inside: string, y: string, s: string, u: nat)
    requires |y| >= 5 && Starts(y, "/app/") && Starts(s, y) && TargetLength(s) == Some(u)
    ensures var m := MatchOf(inside, s);
            m.Some? && IsSafeTarget(m.value.link.url) && m.value.length == |inside| + u + 7
  {
    TargetFits(s);
    assert s[..5] == s[..|y|][..5] == y[..5];
    PathIsSafe(s, u);
  }

  lemma TargetFits(s: string)
    ensures TargetLength(s).Some? ==> 5 < TargetLength(s).value && TargetLength(s).value + 2 <= |s|
  {
    if TargetLength(s).Some? {
      TargetCloses(s);
    }
  }

  /** The only link that can close in such a text is the first one. */
  lemma PathsOnly(x: string, inside: string, y: string)
    requires OpensUpTo(x, inside, y) && IsPath(y)
    ensures AllSafe(Scan(x))
  {
    OpenedRead(x, inside, y);
    if TargetLength(y).Some? {
      TargetFits(y);
      var u := TargetLength(y).value;
      MatchOfIs(inside, y, u);
      NothingCloses(y, u);
      PathIsSafe(y, u);
      DropTwice(x, 5 + |inside|, u + 2);
      SafeBehind(x, Match(Link(inside, y[..u]), |inside| + u + 7), y[u + 2..]);
    } else {
      NoPath(x, inside, y);
    }
  }

  lemma PathClose(y: string)
    requires IsPath(y)
    ensures forall i :: 5 < i && (TargetLength(y).Some? ==> TargetLength(y).value < i) ==> !ClosesAt(y, i)
  {
    AppTarget(y);
    var a := y[5..];
    assert forall i :: 0 <= i < |a| ==> a[i] == y[i + 5];
    NonSpaceIs(a, |a|);
    assert forall i :: 5 <= i ==> (ClosesAt(y, i) <==> ClosesAt(a, i - 5));
  }

  lemma MatchOfIs(inside: string, y: string, u: nat)
    requires TargetLength(y) == Some(u) && u <= |y|
    ensures MatchOf(inside, y) == Some(Match(Link(inside, y[..u]), |inside| + u + 7))
  {
  }

  lemma DropTwice(x: string, m: nat, n: nat)
    requires m + n <= |x|
    ensures x[m..][n..] == x[m + n..]
  {
  }

  lemma PathIsSafe(y: string, u: nat)
    requires Starts(y, "/app/") && 5 <= u <= |y|
    ensures IsSafeTarget(y[..u])
  {
    assert y[..u][..5] == y[..5];
    FormIsSafe(y[..u]);
  }

  lemma NothingCloses(y: string, u: nat)
    requires IsPath(y) && TargetLength(y) == Some(u) && u + 2 <= |y|
    ensures Scan(y[u + 2..]) == []
  {
    PathClose(y);
    TargetFits(y);
    var rest := y[u + 2..];
    forall i | 0 < i < |rest| ensures !ClosesAt(rest, i) {
      assert !ClosesAt(y, u + 2 + i);
    }
    NoCloseNoLinks(rest);
  }

  lemma OpeningIsPlain(x: string, inside: string, y: string)
    requires OpensUpTo(x, inside, y) && Starts(y, "/app/")
    ensures var plain := x[1..10 + |inside|]; Plain(plain) && plain[|plain| - 1] == '/'
  {
    var plain := x[1..10 + |inside|];
    assert forall i :: 0 < i <= |inside| ==> plain[i] == x[2..2 + |inside|][i - 1] == inside[i - 1];
    assert plain[4 + |inside|..] == y[..5];
    assert forall i :: 0 <= i < 5 ==> plain[4 + |inside| + i] == y[..5][i];
  }

  lemma NoPath(x: string, inside: string, y: string)
    requires OpensUpTo(x, inside, y) && IsPath(y)
    requires MatchAt(x) == None && TargetLength(y).None?
    ensures AllSafe(Scan(x))
  {
    var plain, rest := x[1..10 + |inside|], x[10 + |inside|..];
    DropTwice(x, 5 + |inside|, 5);
    assert x[1..] == plain + rest;
    OpeningIsPlain(x, inside, y);
    PlainIsSkipped(plain, rest);
    NothingClosesAtAll(y);
  }

  lemma NothingClosesAtAll(y: string)
    requires IsPath(y) && TargetLength(y).None?
    ensures Scan(y[5..]) == []
  {
    PathClose(y);
    var rest := y[5..];
    forall i | 0 < i < |rest| ensures !ClosesAt(rest, i) {
      assert !ClosesAt(y, 5 + i);
    }
    NoCloseNoLinks(rest);
  }

  // ---------- the links of a printed link ----------

  lemma OwnOpens(x: string, inside: string, target: string, s: string)
    requires OpensOnly(x, inside) && s == x + ("{\"" + target)
    ensures Opens(s, inside, target)
  {
    assert s[2..2 + |inside|] == inside;
    assert s[5 + |inside|..] == target;
  }

  /** The text of the link itself ends at the end of `x`. */
  lemma OwnTarget(x: string, inside: string, url: string)
    requires OpensOnly(x, inside) && IsSafeTarget(url)
    ensures Scan(x) == [] && MatchAt(x) == None && MatchAt(x + AfterText(url)) == MatchOf(inside, url + "\"}")
    ensures MatchAt(x + AfterText(url)).Some? ==>
              IsSafeTarget(MatchAt(x + AfterText(url)).value.link.url) && |x| < MatchAt(x + AfterText(url)).value.length
  {
    var target := url + "\"}";
    OpenedNoLinks(x, inside);
    OwnOpens(x, inside, target, x + AfterText(url));
    OpenedRead(x + AfterText(url), inside, target);
    if TargetLength(target).Some? {
      ReadTargetIsSafe(url, TargetLength(target).value);
    }
  }

  lemma SameMatch(inside: string, y: string, t: string)
    requires TargetLength(y + t) == TargetLength(y)
    ensures MatchOf(inside, y + t) == MatchOf(inside, y)
  {
    TargetFits(y);
    if TargetLength(y).Some? {
      assert (y + t)[..TargetLength(y).value] == y[..TargetLength(y).value];
    }
  }

  lemma InsideAlike(x: string, inside: string, y: string, t: string)
    requires OpensUpTo(x, inside, y) && TargetLength(y + t) == TargetLength(y)
    ensures MatchAt(x + t) == MatchAt(x) && (MatchAt(x).Some? ==> MatchAt(x).value.length <= |x|)
  {
    OpenedMatch(x, inside, y, t);
    SameMatch(inside, y, t);
    MatchFits(x);
  }

  /** The link itself: nothing matches in its text, and the scan goes on with what the pattern leaves. */
  lemma OwnLink(x: string, inside: string, url: string)
    requires OpensOnly(x, inside) && IsSafeTarget(url)
    ensures AllSafe(Scan(x)) && (AllSafe(Scan(x + AfterText(url))) <==> AllSafe(Scan(Unread(url + "\"}"))))
  {
    var target := url + "\"}";
    OwnTarget(x, inside, url);
    TargetFits(target);
    if TargetLength(target).Some? {
      MatchOfIs(inside, target, TargetLength(target).value);
      BehindAt(x, AfterText(url), target, MatchAt(x + AfterText(url)).value, TargetLength(target).value + 2);
    } else {
      FromTargetOn(x, inside, target);
    }
  }

  /** Without a match at its start, a printed link with a text free of braces is scanned from its target on. */
  lemma FromTargetOn(x: string, text: string, target: string)
    requires OpensOnly(x, text) && MatchAt(x + ("{\"" + target)) == None
    ensures Scan(x + ("{\"" + target)) == Scan(target)
  {
    var plain, t := x[1..], "{\"" + target;
    assert forall i :: 0 < i <= |text| ==> plain[i] == text[i - 1];
    Skip(x, t);
    PlainIsSkipped(plain, t);
    FromQuoteOn(target);
  }

  lemma ReachFits(target: string)
    ensures Reach(target) > 0 ==> Reach(target) + 2 <= |target|
  {
  }

  /** A link to an internal path that is still open: it is safe, and the scan goes on behind it. */
  lemma OpenPath(x: string, inside: string, y: string, t: string, target: string)
    requires OpensUpTo(x, inside, y) && IsPath(y) && t == "{\"" + target && IsAfterText(t) && Reach(target) > 0
    ensures AllSafe(Scan(x)) && (AllSafe(Scan(x + t)) <==> AllSafe(Scan(LeftOf(InAPath, target))))
  {
    ReachFits(target);
    PathsOnly(x, inside, y);
    OpenPathAcross(x, inside, y, t, target);
    BehindAt(x, t, target, MatchAt(x + t).value, Reach(target) + 2);
  }

  /** Behind a safe link that ends in the target the rest of the target decides. */
  lemma BehindAt(x: string, t: string, target: string, m: Match, k: nat)
    requires t == "{\"" + target && k <= |target|
    requires MatchAt(x + t) == Some(m) && m.length == |x| + 2 + k && IsSafeTarget(m.link.url)
    ensures AllSafe(Scan(x + t)) <==> AllSafe(Scan(target[k..]))
  {
    Suffix(x, t, k + 2);
    Suffix("{\"", target, k);
    SafeBehind(x + t, m, target[k..]);
  }

  /** One step of the scan over the text: it sees nothing of what follows, unless the text ends in the link
      itself or in a path that takes some of the target. */
  lemma StepAcross(x: string, url: string)
    requires |x| > 0 && EndsInBrace(x) && IsSafeTarget(url)
    requires !OpensOwn(x) && !(Reach(url + "\"}") > 0 && OpensPath(x))
    ensures MatchAt(x + AfterText(url)) == MatchAt(x) && (MatchAt(x).Some? ==> MatchAt(x).value.length <= |x|)
  {
    var t, target := AfterText(url), url + "\"}";
    SafeStart(url);
    var inside, y := HowItOpens(x, t);
    if OpensUpTo(x, inside, y) {
      if IsPath(y) {
        PathAcross(y, t, target);
      } else {
        TargetAcross(y, t);
      }
      InsideAlike(x, inside, y, t);
    }
  }

  /** All links in `x`, followed by the rest of a printed link, are safe exactly when those of `x` alone
      are and those in what the scan leaves of the target. */
  lemma {:induction false} SafeAcrossIff(x: string, url: string)
    requires EndsInBrace(x) && IsSafeTarget(url)
    ensures AllSafe(Scan(x + AfterText(url))) <==> AllSafe(Scan(x)) && AllSafe(Scan(LeftBehind(x, url)))
    decreases |x|
  {
    var t, target := AfterText(url), url + "\"}";
    if |x| == 0 {
      assert x + t == t;
      FromQuoteOn(target);
    } else {
      SafeStart(url);
      var inside, y := HowItOpens(x, t);
      if OpensOwn(x) {
        OwnLink(x, inside, url);
      } else if Reach(target) > 0 && OpensPath(x) {
        OpenPath(x, inside, y, t, target);
      } else {
        StepAcross(x, url);
        var m := MatchAt(x);
        if m == None {
          Skip(x, t);
          SafeAcrossIff(x[1..], url);
        } else {
          var n := m.value.length;
          Inside(x, t, m.value);
          ScanPastMatch(x, m.value.link, n);
          SafeAcrossIff(x[n..], url);
          AllSafeFirst(m.value.link, Scan(x[n..] + t));
          AllSafeFirst(m.value.link, Scan(x[n..]));
        }
      }
    }
  }
}
