/** What a reader of a printed notification link recognises in it (`app/utils/notify_markup.py`): neither
    the text nor the target is escaped, so either can carry further links. */
module LinkSafety {
  import opened LinkScan
  import opened NotifyMarkup
  import opened Text
  import opened Wrappers

  // ---------- when every recognised link is safe ----------

  /** What stands before the target in a printed link. */
  function UpToText(text: string): string {
    "#{" + text + "}"
  }

  predicate QuoteFree(url: string) {
    forall i :: 0 <= i < |url| ==> url[i] != '"'
  }

  lemma PrintedInTwo(text: string, url: string)
    ensures LinkText(text, url) == UpToText(text) + AfterText(url)
  {
  }

  /** For every text and target: all links recognised in a printed link are safe exactly when those within
      its text are, and those in what the scan of the text leaves of the target. */
  lemma SafeIff(text: string, url: string)
    requires text != "" && IsSafeTarget(url)
    ensures AllSafe(Scan(MarkupInlineLink(text, Some(url))))
       <==> AllSafe(Scan(UpToText(text))) && AllSafe(Scan(LeftBehind(UpToText(text), url)))
  {
    SafeStart(url);
    PrintedInTwo(text, url);
    SafeAcrossIff(UpToText(text), url);
  }

  /** The end of a target that holds no quote carries no link. */
  lemma TargetOnly(url: string, target: string, k: nat)
    requires QuoteFree(url) && target == url + "\"}" && k <= |target|
    ensures Scan(target[k..]) == []
  {
    assert forall i :: 0 <= i < |target| && target[i] == '"' ==> i == |url|;
    OneQuoteNoLinks(target[k..]);
  }

  lemma LeftIsTheEnd(entry: Entry, target: string) returns (k: nat)
    ensures k <= |target| && LeftOf(entry, target) == target[k..]
  {
    k := |target| - |LeftOf(entry, target)|;
    assert target[0..] == target && target[|target|..] == "";
  }

  /** When the target holds no quote, only the text decides. */
  lemma SafeWithQuoteFreeUrlIff(text: string, url: string)
    requires text != "" && IsSafeTarget(url) && QuoteFree(url)
    ensures AllSafe(Scan(MarkupInlineLink(text, Some(url)))) <==> AllSafe(Scan(UpToText(text)))
  {
    SafeIff(text, url);
    var target := url + "\"}";
    var k := LeftIsTheEnd(EntryOf(UpToText(text), Reach(target) > 0), target);
    TargetOnly(url, target, k);
  }

  /** When the text holds no brace, only what the pattern does not read of the target decides. */
  lemma SafeWithBraceFreeTextIff(text: string, url: string)
    requires text != "" && BraceFree(text) && IsSafeTarget(url)
    ensures AllSafe(Scan(MarkupInlineLink(text, Some(url)))) <==> AllSafe(Scan(Unread(url + "\"}")))
  {
    SafeIff(text, url);
    BraceFreeNoLinks(text);
    TextIsOwn(text);
  }

  /** The text of the link ends within its own link as soon as it holds no brace. */
  lemma TextIsOwn(text: string)
    requires BraceFree(text)
    ensures OpensOwn(UpToText(text))
  {
    var inner := UpToText(text)[2..];
    assert inner == text + "}";
    assert forall i :: 0 <= i < |text| ==> inner[i] == text[i];
    assert inner[|text|] == '}';
    assert TextLength(inner) == |text|;
  }

  // ---------- exactly the printed link ----------

  lemma {:induction false} LinksFit(s: string)
    ensures forall i :: 0 <= i < |Scan(s)| ==> |Scan(s)[i].text| + |Scan(s)[i].url| + 7 <= |s|
    decreases |s|
  {
    if |s| > 0 {
      var m := MatchAt(s);
      if m.Some? {
        MatchFits(s);
        MatchLength(s);
        ScanPastMatch(s, m.value.link, m.value.length);
        LinksFit(s[m.value.length..]);
      } else {
        LinksFit(s[1..]);
      }
    }
  }

  lemma MatchLength(s: string)
    requires MatchAt(s).Some?
    ensures var m := MatchAt(s).value; m.length == |m.link.text| + |m.link.url| + 7
  {
  }

  /** A link as long as the text is the only one exactly when it is matched at once. */
  lemma WholeIff(s: string, link: Link)
    requires |s| == |link.text| + |link.url| + 7
    ensures Scan(s) == [link] <==> MatchAt(s) == Some(Match(link, |s|))
  {
    var m := MatchAt(s);
    if m == None {
      NotWhole(s, link);
    } else if m.value.link == link {
      MatchLength(s);
      ScanPastMatch(s, link, |s|);
      assert s[|s|..] == "";
    } else {
      FirstIsAnother(s, link, []);
      assert [link] + [] == [link];
    }
  }

  lemma NotWhole(s: string, link: Link)
    requires |s| == |link.text| + |link.url| + 7 && MatchAt(s) == None
    ensures Scan(s) != [link]
  {
    LinksFit(s[1..]);
    assert |Scan(s[1..])| > 0 ==> Scan(s[1..])[0] != link;
  }

  lemma PrintedAlone(text: string, url: string)
    ensures Scan(LinkText(text, url)) == [Link(text, url)] <==> BraceFree(text) && RecognisedTarget(url)
  {
    AloneRecognisedIff(text, url);
    PrintedLinkShows(text, url, "");
    WholeIff(LinkText(text, url), Link(text, url));
  }

  /** The links recognised in what is printed are the given one, and nothing else, exactly when the target
      is safe and has a form of the pattern, and the text is not empty and free of braces. */
  lemma RecognisedAsGivenIff(text: string, url: string)
    ensures Scan(MarkupInlineLink(text, Some(url))) == [Link(text, url)]
       <==> IsSafeTarget(url) && text != "" && BraceFree(text) && RecognisedTarget(url)
  {
    if IsSafeTarget(url) && text != "" {
      SafeStart(url);
      PrintedAlone(text, url);
    } else {
      LinksFit(text);
      assert |Scan(text)| > 0 ==> |Scan(text)[0].text| < |text|;
    }
  }

  lemma NotRead(url: string)
    requires QuoteFree(url) && !RecognisedTarget(url)
    ensures TargetLength(url + "\"}") == None
  {
    var target := url + "\"}";
    assert forall i :: 0 <= i < |target| && target[i] == '"' ==> i == |url|;
    assert target[..|url|] == url;
    TargetAloneIff(target, url);
    if TargetLength(target).Some? {
      TargetCloses(target);
    }
  }

  lemma UnreadQuoteFree(text: string, url: string)
    requires BraceFree(text) && IsSafeTarget(url) && QuoteFree(url) && !RecognisedTarget(url)
    ensures Scan(LinkText(text, url)) == []
  {
    NotRead(url);
    OwnTarget(UpToText(text), text, url);
    PrintedInTwo(text, url);
    FromTargetOn(UpToText(text), text, url + "\"}");
    TargetOnly(url, url + "\"}", 0);
    assert (url + "\"}")[0..] == url + "\"}";
  }

  /** With a text free of braces and a target free of quotes, no link but the given one is ever recognised,
      and only when it is safe. */
  lemma OnlySafeLinksArePrinted(text: string, url: Option<string>)
    requires BraceFree(text) && (url.Some? ==> QuoteFree(url.value))
    ensures Scan(MarkupInlineLink(text, url))
         == (if url.Some? && IsSafeTarget(url.value) && text != "" && RecognisedTarget(url.value)
             then [Link(text, url.value)] else [])
    ensures AllSafe(Scan(MarkupInlineLink(text, url)))
  {
    BraceFreeNoLinks(text);
    if url.Some? && IsSafeTarget(url.value) && text != "" {
      SafeStart(url.value);
      if RecognisedTarget(url.value) {
        PrintedAlone(text, url.value);
      } else {
        UnreadQuoteFree(text, url.value);
      }
    }
  }

  // ---------- links that texts and targets carry ----------

  /** A text that carries a link of its own. */
  function Carrying(x: string, target: string): string {
    x + ("}{\"" + (target + "\"}"))
  }

  /** Whatever the target is, a text can be printed so that the first link recognised leads elsewhere. */
  lemma TextSmuggles(x: string, target: string, url: string)
    requires BraceFree(x) && CleanTarget(target) && IsSafeTarget(url)
    ensures Scan(MarkupInlineLink(Carrying(x, target), Some(url))) == [Link(x, target)] + Scan("}" + AfterText(url))
  {
    SafeStart(url);
    CarriedFirst(x, target, url);
    PrintedLinkIsFound(x, target, "}" + AfterText(url));
  }

  lemma CarriedFirst(x: string, target: string, url: string)
    ensures LinkText(Carrying(x, target), url) == LinkText(x, target) + ("}" + AfterText(url))
  {
  }

  /** A safe target can carry a second link. */
  lemma UrlSmuggles(text: string, first: string, x: string, target: string)
    requires text != "" && BraceFree(text) && CleanTarget(first) && IsSafeTarget(Joined(first, x, target))
    requires BraceFree(x) && CleanTarget(target)
    ensures Scan(MarkupInlineLink(text, Some(Joined(first, x, target)))) == [Link(text, first), Link(x, target)]
  {
    SafeStart(Joined(first, x, target));
    PrintedApart(text, first, x, target);
    PrintedLinkIsFound(text, first, LinkText(x, target));
    PrintedAlone(x, target);
  }

  lemma PrintedApart(text: string, first: string, x: string, target: string)
    ensures LinkText(text, Joined(first, x, target)) == LinkText(text, first) + LinkText(x, target)
  {
  }

  /** A route that is not registered can be recognised and is not safe. */
  lemma UnknownRoute(name: string)
    requires Unregistered(name)
    ensures CleanTarget("route:" + name) && !IsSafeTarget("route:" + name)
  {
    var url := "route:" + name;
    Split("route:", name);
    assert forall i :: 6 <= i < |url| ==> url[i] == name[i - 6];
    TrimmedRouteIff(url);
    NameAhead(name, name);
  }

  predicate Unregistered(name: string) {
    |name| > 0 && FromName(name) == None && forall i :: 0 <= i < |name| ==> NameChar(name[i])
  }

  /** Every safe target is printed behind a text that carries a link to a route that is not registered. */
  lemma UnsafeByText(x: string, name: string, url: string)
    requires BraceFree(x) && Unregistered(name) && IsSafeTarget(url)
    ensures !AllSafe(Scan(MarkupInlineLink(Carrying(x, "route:" + name), Some(url))))
  {
    UnknownRoute(name);
    TextSmuggles(x, "route:" + name, url);
    AllSafeFirst(Link(x, "route:" + name), Scan("}" + AfterText(url)));
  }

  /** And every outside address that carries one is printed as safe. */
  lemma UnsafeByUrl(text: string, first: string, x: string, name: string)
    requires text != "" && BraceFree(text) && BraceFree(x) && Unregistered(name)
    requires CleanTarget(first) && (Starts(first, "http://") || Starts(first, "https://"))
    ensures var url := Joined(first, x, "route:" + name);
            IsSafeTarget(url) && !AllSafe(Scan(MarkupInlineLink(text, Some(url))))
  {
    var target := "route:" + name;
    UnknownRoute(name);
    JoinedIsSafe(first, x, target);
    UrlSmuggles(text, first, x, target);
    assert [Link(text, first), Link(x, target)][1].url == target;
  }

  lemma JoinedIsSafe(first: string, x: string, target: string)
    requires Starts(first, "http://") || Starts(first, "https://")
    ensures IsSafeTarget(Joined(first, x, target))
  {
    var url := Joined(first, x, target);
    assert Starts(first, "http://") ==> url[..7] == first[..7];
    assert Starts(first, "https://") ==> url[..8] == first[..8];
    FormIsSafe(url);
  }

  lemma Example()
    ensures Unregistered("evil")
    ensures Starts("https://a", "https://") && CleanTarget("https://a") && IsSafeTarget("https://a")
  {
    assert "https://a"[..8] == "https://";
    FormIsSafe("https://a");
  }

  lemma ExampleText(name: string)
    requires name == "evil"
    ensures Carrying("x", "route:" + name) == "x}{\"route:evil\"}"
  {
  }

  lemma ExampleUrl(first: string, name: string)
    requires first == "https://a" && name == "evil"
    ensures Joined(first, "b", "route:" + name) == "https://a\"}#{b}{\"route:evil"
  {
  }

  /** For example. */
  lemma EvilIsPrinted()
    ensures !AllSafe(Scan(MarkupInlineLink("x}{\"route:evil\"}", Some("https://a"))))
    ensures !AllSafe(Scan(MarkupInlineLink("a", Some("https://a\"}#{b}{\"route:evil"))))
  {
    var evil, first := "evil", "https://a";
    Example();
    UnsafeByText("x", evil, first);
    UnsafeByUrl("a", first, "b", evil);
    ExampleText(evil);
    ExampleUrl(first, evil);
  }
}
