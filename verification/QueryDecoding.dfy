/** Reading the parameters back from a route target (`app/utils/route_target.py`): a decoder that knows
    nothing of the encoder, and what it finds in every target that is built.

    The decoder cuts at the first question mark, at ampersands and at equals signs, and reads escapes as
    the bytes of UTF-8. `EscapedIsRead` says that it reads every single character back, `QuotingIsUndone`
    every text, `ParametersAreRecovered` every query and `QueryIsRecovered` every target. */
module QueryDecoding {
  import opened NotifyMarkup
  import opened Wrappers

  // ---------- the decoder ----------

  datatype Pair = Pair(key: string, value: string)

  /** The position of the first `c`, or the length. */
  function Find(s: string, c: char): (n: nat)
    ensures n <= |s| && (n < |s| ==> s[n] == c) && forall i :: 0 <= i < n ==> s[i] != c
  {
    if |s| == 0 || s[0] == c then 0 else 1 + Find(s[1..], c)
  }

  /** What stands behind the first question mark, if there is one. */
  function QueryOf(url: string): Option<string> {
    var n := Find(url, '?');
    if n < |url| then Some(url[n + 1..]) else None
  }

  function HexValue(c: char): Option<nat> {
    if '0' <= c <= '9' then Some(c as int - '0' as int)
    else if 'A' <= c <= 'F' then Some(c as int - 'A' as int + 10)
    else if 'a' <= c <= 'f' then Some(c as int - 'a' as int + 10)
    else None
  }

  /** The byte of an escape at position `p`. */
  function ByteAt(s: string, p: nat): Option<nat> {
    if p + 2 < |s| && s[p] == '%' && HexValue(s[p + 1]).Some? && HexValue(s[p + 2]).Some?
    then Some(16 * HexValue(s[p + 1]).value + HexValue(s[p + 2]).value)
    else None
  }

  /** The last six bits that the escape at position `p` carries, if it is a continuation byte. */
  function Continuation(s: string, p: nat): Option<nat> {
    var b := ByteAt(s, p);
    if b.Some? && 0x80 <= b.value < 0xC0 then Some(b.value - 0x80) else None
  }

  /** A character and the number of characters that wrote it. */
  datatype Read = Read(c: char, length: nat)

  function CharOf(n: nat, length: nat): Option<Read> {
    if n < 0xD800 || 0xE000 <= n < 0x11_0000 then Some(Read(n as char, length)) else None
  }

  /** The character that the escapes at the start of `s` mean in UTF-8. */
  function ReadEscapes(s: string): Option<Read> {
    var b, c, d, e := ByteAt(s, 0), Continuation(s, 3), Continuation(s, 6), Continuation(s, 9);
    if b.None? then None
    else if b.value < 0x80 then CharOf(b.value, 3)
    else if 0xC0 <= b.value < 0xE0 && c.Some? then CharOf((b.value - 0xC0) * 0x40 + c.value, 6)
    else if 0xE0 <= b.value < 0xF0 && c.Some? && d.Some? then
      CharOf((b.value - 0xE0) * 0x1000 + c.value * 0x40 + d.value, 9)
    else if 0xF0 <= b.value < 0xF8 && c.Some? && d.Some? && e.Some? then
      CharOf((b.value - 0xF0) * 0x4_0000 + c.value * 0x1000 + d.value * 0x40 + e.value, 12)
    else None
  }

  /** Plus signs are spaces, escapes are characters, and everything else stands for itself. */
  function Unquote(s: string): string
    decreases |s|
  {
    if |s| == 0 then ""
    else if s[0] == '+' then " " + Unquote(s[1..])
    else
      var r := ReadEscapes(s);
      if r.Some? && 0 < r.value.length <= |s| then [r.value.c] + Unquote(s[r.value.length..])
      else [s[0]] + Unquote(s[1..])
  }

  function ReadPair(piece: string): Pair {
    var n := Find(piece, '=');
    Pair(Unquote(piece[..n]), if n < |piece| then Unquote(piece[n + 1..]) else "")
  }

  /** What stands between the ampersands. */
  function Pieces(query: string): seq<string>
    decreases |query|
  {
    if |query| == 0 then []
    else
      var n := Find(query, '&');
      [query[..n]] + if n < |query| then Pieces(query[n + 1..]) else []
  }

  function ReadAll(pieces: seq<string>): seq<Pair> {
    if |pieces| == 0 then [] else [ReadPair(pieces[0])] + ReadAll(pieces[1..])
  }

  function Decode(query: string): seq<Pair> {
    ReadAll(Pieces(query))
  }

  // ---------- one character ----------

  lemma HexIsRead(n: nat)
    requires n < 16
    ensures HexValue(HexDigit(n)) == Some(n)
  {
  }

  /** The escape of a byte stands at position `p`. */
  predicate ShowsByte(s: string, p: nat, byte: nat)
    requires byte < 256
  {
    p + 2 < |s| && s[p] == '%' && s[p + 1] == HexDigit(byte / 16) && s[p + 2] == HexDigit(byte % 16)
  }

  lemma ByteIsRead(s: string, p: nat, byte: nat)
    requires byte < 256 && ShowsByte(s, p, byte)
    ensures ByteAt(s, p) == Some(byte)
    ensures 0x80 <= byte < 0xC0 ==> Continuation(s, p) == Some(byte - 0x80)
  {
    HexIsRead(byte / 16);
    HexIsRead(byte % 16);
  }

  lemma OneByte(c: char, s: string)
    requires c as int < 0x80 && Escaped(c) <= s
    ensures ReadEscapes(s) == Some(Read(c, 3)) && |Escaped(c)| == 3
  {
    var n := c as int;
    assert ShowsByte(s, 0, n);
    ByteIsRead(s, 0, n);
  }

  lemma TwoBytes(c: char, s: string)
    requires 0x80 <= c as int < 0x800 && Escaped(c) <= s
    ensures ReadEscapes(s) == Some(Read(c, 6)) && |Escaped(c)| == 6
  {
    var n := c as int;
    var b0, b1 := 0xC0 + n / 0x40, 0x80 + n % 0x40;
    assert ShowsByte(Escaped(c), 0, b0) && ShowsByte(Escaped(c), 3, b1);
    ByteIsRead(s, 0, b0);
    ByteIsRead(s, 3, b1);
  }

  lemma ThreeDigits(n: nat)
    ensures n / 0x1000 * 0x1000 + n / 0x40 % 0x40 * 0x40 + n % 0x40 == n
  {
  }

  lemma FourDigits(n: nat)
    ensures n / 0x4_0000 * 0x4_0000 + n / 0x1000 % 0x40 * 0x1000 + n / 0x40 % 0x40 * 0x40 + n % 0x40 == n
  {
    ThreeDigits(n);
    assert n / 0x1000 == n / 0x4_0000 * 0x40 + n / 0x1000 % 0x40;
  }

  lemma EscapesShow(s: string, b0: nat, b1: nat, b2: nat)
    requires b0 < 256 && b1 < 256 && b2 < 256 && Percent(b0) + Percent(b1) + Percent(b2) <= s
    ensures ShowsByte(s, 0, b0) && ShowsByte(s, 3, b1) && ShowsByte(s, 6, b2)
  {
    var e := Percent(b0) + Percent(b1) + Percent(b2);
    assert ShowsByte(e, 0, b0) && ShowsByte(e, 3, b1) && ShowsByte(e, 6, b2);
  }

  lemma ThreeBytes(c: char, s: string)
    requires 0x800 <= c as int < 0x1_0000 && Escaped(c) <= s
    ensures ReadEscapes(s) == Some(Read(c, 9)) && |Escaped(c)| == 9
  {
    var n := c as int;
    var b0, b1, b2 := 0xE0 + n / 0x1000, 0x80 + n / 0x40 % 0x40, 0x80 + n % 0x40;
    EscapesShow(s, b0, b1, b2);
    ByteIsRead(s, 0, b0);
    ByteIsRead(s, 3, b1);
    ByteIsRead(s, 6, b2);
    ThreeDigits(n);
  }

  lemma LastEscape(s: string, front: string, byte: nat)
    requires byte < 256 && front + Percent(byte) <= s
    ensures ShowsByte(s, |front|, byte) && front <= s
  {
    var e := front + Percent(byte);
    assert ShowsByte(e, |front|, byte);
  }

  lemma FourBytes(c: char, s: string)
    requires 0x1_0000 <= c as int && Escaped(c) <= s
    ensures ReadEscapes(s) == Some(Read(c, 12)) && |Escaped(c)| == 12
  {
    var n := c as int;
    var b0, b1, b2, b3 := 0xF0 + n / 0x4_0000, 0x80 + n / 0x1000 % 0x40, 0x80 + n / 0x40 % 0x40, 0x80 + n % 0x40;
    LastEscape(s, Percent(b0) + Percent(b1) + Percent(b2), b3);
    EscapesShow(s, b0, b1, b2);
    ByteIsRead(s, 0, b0);
    ByteIsRead(s, 3, b1);
    ByteIsRead(s, 6, b2);
    ByteIsRead(s, 9, b3);
    FourDigits(n);
  }

  /** Every escaped character is read as itself, whatever follows. */
  lemma EscapedIsRead(c: char, s: string)
    requires Escaped(c) <= s
    ensures ReadEscapes(s) == Some(Read(c, |Escaped(c)|)) && 0 < |Escaped(c)| && Escaped(c)[0] == '%'
  {
    if c as int < 0x80 {
      OneByte(c, s);
    } else if c as int < 0x800 {
      TwoBytes(c, s);
    } else if c as int < 0x1_0000 {
      ThreeBytes(c, s);
    } else {
      FourBytes(c, s);
    }
  }

  /** What `QuotePlus` writes for one character. */
  function Quoted(c: char): string {
    if Unreserved(c) then [c] else if c == ' ' then "+" else Escaped(c)
  }

  lemma QuotedIsRead(c: char, rest: string)
    ensures Unquote(Quoted(c) + rest) == [c] + Unquote(rest)
  {
    var s := Quoted(c) + rest;
    if Unreserved(c) {
      assert s[0] == c && s[1..] == rest;
      assert ByteAt(s, 0) == None;
    } else if c == ' ' {
      assert s[0] == '+' && s[1..] == rest;
    } else {
      EscapedIsRead(c, s);
      assert s[0] == Escaped(c)[0];
      assert s[|Escaped(c)|..] == rest;
    }
  }

  /** Unquoting undoes quoting, for every text. */
  lemma {:induction false} QuotingIsUndone(s: string)
    ensures Unquote(QuotePlus(s)) == s
  {
    if |s| > 0 {
      QuotingIsUndone(s[1..]);
      QuotedIsRead(s[0], QuotePlus(s[1..]));
      assert QuotePlus(s) == Quoted(s[0]) + QuotePlus(s[1..]);
    }
  }

  /** Letters, digits and five marks are written as they are, a space as a plus sign, and any other character
      as escapes. */
  lemma UnescapedAre(c: char)
    ensures QuotePlus([c]) == [c]
       <==> 'a' <= c <= 'z' || 'A' <= c <= 'Z' || '0' <= c <= '9' || c in {'_', '.', '-', '~', ':'}
    ensures c == ' ' ==> QuotePlus([c]) == "+"
  {
    assert [c][1..] == "";
    assert QuotePlus([c]) == Quoted(c);
    if !Unreserved(c) && c != ' ' {
      EscapedIsRead(c, Escaped(c));
    }
  }

  // ---------- whole queries ----------

  /** The parameters that have a value, as pairs. */
  function Kept(params: seq<Param>): seq<Pair> {
    if |params| == 0 then []
    else
      (if params[0].value.None? || params[0].value.value == "" then []
       else [Pair(params[0].key, params[0].value.value)]) + Kept(params[1..])
  }

  lemma FindBehind(before: string, c: char, after: string)
    requires forall i :: 0 <= i < |before| ==> before[i] != c
    ensures Find(before + ([c] + after), c) == |before|
  {
    var s := before + ([c] + after);
    assert s[|before|] == c;
    assert forall i :: 0 <= i < |before| ==> s[i] != c;
  }

  lemma FindNone(s: string, c: char)
    requires forall i :: 0 <= i < |s| ==> s[i] != c
    ensures Find(s, c) == |s|
  {
  }

  /** Quoted texts are free of the characters that structure a query. */
  lemma {:induction false} QuotedIsPlain(s: string)
    ensures forall i :: 0 <= i < |QuotePlus(s)| ==> QuotePlus(s)[i] !in {'&', '=', '?'}
  {
    if |s| > 0 {
      QuotedIsPlain(s[1..]);
      EscapedIsPlain(s[0]);
      assert QuotePlus(s) == Quoted(s[0]) + QuotePlus(s[1..]);
    }
  }

  lemma EscapedIsPlain(c: char)
    ensures forall i :: 0 <= i < |Escaped(c)| ==> Escaped(c)[i] !in {'&', '=', '?'}
  {
  }

  function PieceOf(key: string, value: string): string {
    QuotePlus(key) + ("=" + QuotePlus(value))
  }

  lemma PieceIsRead(key: string, value: string)
    ensures ReadPair(PieceOf(key, value)) == Pair(key, value)
    ensures |PieceOf(key, value)| > 0
    ensures forall i :: 0 <= i < |PieceOf(key, value)| ==> PieceOf(key, value)[i] !in {'&', '?'}
  {
    var k, v, piece := QuotePlus(key), QuotePlus(value), PieceOf(key, value);
    QuotedIsPlain(key);
    QuotedIsPlain(value);
    FindBehind(k, '=', v);
    CutAtMark(k, '=', v);
    QuotingIsUndone(key);
    QuotingIsUndone(value);
  }

  lemma PiecesOnly(piece: string)
    requires |piece| > 0 && Free(piece, '&')
    ensures Pieces(piece) == [piece]
  {
    FindNone(piece, '&');
    assert piece[..|piece|] == piece;
  }

  lemma PiecesFirst(piece: string, rest: string)
    requires |piece| > 0 && Free(piece, '&')
    ensures Pieces(piece + ("&" + rest)) == [piece] + Pieces(rest)
  {
    FindBehind(piece, '&', rest);
    CutAtMark(piece, '&', rest);
  }

  lemma ReadFirst(piece: string, pieces: seq<string>)
    ensures ReadAll([piece] + pieces) == [ReadPair(piece)] + ReadAll(pieces)
  {
    assert ([piece] + pieces)[1..] == pieces;
  }

  lemma DecodeFirst(piece: string, rest: string)
    requires |piece| > 0 && Free(piece, '&')
    ensures Decode(WithPiece(piece, rest)) == [ReadPair(piece)] + Decode(rest)
  {
    PiecesOnly(piece);
    PiecesFirst(piece, rest);
    ReadFirst(piece, Pieces(rest));
    assert [piece] + [] == [piece];
  }

  lemma CutAtMark(before: string, c: char, after: string)
    ensures var s := before + ([c] + after); s[..|before|] == before && s[|before| + 1..] == after && |before| < |s|
  {
  }

  /** One more pair in front. */
  lemma EncodedFirst(params: seq<Param>)
    requires |params| > 0
    ensures var rest := UrlEncode(params[1..]);
            UrlEncode(params) == if Skipped(params[0]) then rest
                                 else WithPiece(PieceOf(params[0].key, params[0].value.value), rest)
  {
  }

  function WithPiece(piece: string, rest: string): string {
    if rest == "" then piece else piece + ("&" + rest)
  }

  predicate Free(s: string, c: char) {
    forall i :: 0 <= i < |s| ==> s[i] != c
  }

  lemma FreeTogether(a: string, b: string, c: char)
    requires Free(a, c) && Free(b, c) && c != '&'
    ensures Free(WithPiece(a, b), c)
  {
  }

  lemma PieceFirst(key: string, value: string, rest: string)
    ensures Decode(WithPiece(PieceOf(key, value), rest)) == [Pair(key, value)] + Decode(rest)
    ensures |WithPiece(PieceOf(key, value), rest)| > 0
    ensures Free(rest, '?') ==> Free(WithPiece(PieceOf(key, value), rest), '?')
  {
    var piece := PieceOf(key, value);
    PieceIsRead(key, value);
    DecodeFirst(piece, rest);
    if Free(rest, '?') {
      FreeTogether(piece, rest, '?');
    }
  }

  /** The query carries exactly the parameters that have a value, in order. */
  lemma {:induction false} ParametersAreRecovered(params: seq<Param>)
    ensures Decode(UrlEncode(params)) == Kept(params) && (UrlEncode(params) == "" <==> Kept(params) == [])
    ensures Free(UrlEncode(params), '?')
  {
    if |params| > 0 {
      ParametersAreRecovered(params[1..]);
      EncodedFirst(params);
      if !Skipped(params[0]) {
        PieceFirst(params[0].key, params[0].value.value, UrlEncode(params[1..]));
      }
    }
  }

  lemma QuestionFirst(before: string, query: string)
    requires forall i :: 0 <= i < |before| ==> before[i] != '?'
    ensures QueryOf(before) == None && QueryOf(before + ("?" + query)) == Some(query)
  {
    FindNone(before, '?');
    FindBehind(before, '?', query);
    assert (before + ("?" + query))[|before| + 1..] == query;
  }

  lemma NoQuestion(r: Route)
    ensures forall i :: 0 <= i < |ROUTE_SCHEME + NameOf(r)| ==> (ROUTE_SCHEME + NameOf(r))[i] != '?'
  {
    RouteNames(r);
    var name := NameOf(r);
    assert forall i :: 0 <= i < 6 ==> ROUTE_SCHEME[i] != '?';
    forall i | 0 <= i < |name| ensures name[i] != '?' {
      assert NameChar(name[i]);
    }
  }

  /** Every target that is built has a query exactly when some parameter has a value, and the query carries
      just those parameters, in order, with their keys and values as they were given. */
  lemma QueryIsRecovered(r: Route, params: seq<Param>)
    ensures QueryOf(BuildRouteTarget(r, params)).Some? <==> Kept(params) != []
    ensures QueryOf(BuildRouteTarget(r, params)).Some? ==>
              Decode(QueryOf(BuildRouteTarget(r, params)).value) == Kept(params)
  {
    ParametersAreRecovered(params);
    NoQuestion(r);
    QuestionFirst(ROUTE_SCHEME + NameOf(r), UrlEncode(params));
    TargetIs(ROUTE_SCHEME + NameOf(r), UrlEncode(params), BuildRouteTarget(r, params));
  }

  lemma TargetIs(before: string, query: string, url: string)
    requires url == if query == "" then before else before + "?" + query
    ensures url == if query == "" then before else before + ("?" + query)
  {
  }
}
