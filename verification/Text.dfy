/** Characters, prefixes and decimal numbers.

    White space is what Python takes for it, character by character (`SpacesAre`); stripping takes it from
    both ends of a text, all of it and nothing else (`StripTakesSpace`). Numbers are printed in decimal, as
    Python prints them: the modules that print names with them prove that they can be read back. */
module Text {
  /** Python's white space, as `str.strip` and `\s` see it. */
  predicate IsSpace(c: char) {
    var n := c as int;
    || 0x09 <= n <= 0x0D || 0x1C <= n <= 0x20 || n == 0x85 || n == 0xA0 || n == 0x1680
    || 0x2000 <= n <= 0x200A || n == 0x2028 || n == 0x2029 || n == 0x202F || n == 0x205F || n == 0x3000
  }

  predicate Starts(s: string, prefix: string) {
    |prefix| <= |s| && s[..|prefix|] == prefix
  }

  /** `str.strip` */
  function Strip(s: string): (r: string)
    ensures |r| > 0 ==> !IsSpace(r[0]) && !IsSpace(r[|r| - 1])
    decreases |s|
  {
    if |s| == 0 then s
    else if IsSpace(s[0]) then Strip(s[1..])
    else if IsSpace(s[|s| - 1]) then Strip(s[..|s| - 1])
    else s
  }

  /** The white space there is, one code after the other. */
  lemma SpacesAre(c: char)
    ensures IsSpace(c)
       <==> c as int in {0x09, 0x0A, 0x0B, 0x0C, 0x0D, 0x1C, 0x1D, 0x1E, 0x1F, 0x20, 0x85, 0xA0, 0x1680, 0x2000, 0x2001,
                         0x2002, 0x2003, 0x2004, 0x2005, 0x2006, 0x2007, 0x2008, 0x2009, 0x200A, 0x2028, 0x2029, 0x202F,
                         0x205F, 0x3000}
  {
  }

  /** Stripping takes white space from both ends, all of it, and nothing else: what is left stands from `lo`
      up to `hi`. */
  lemma {:induction false} StripTakesSpace(s: string) returns (lo: nat, hi: nat)
    ensures lo <= hi <= |s| && Strip(s) == s[lo..hi]
    ensures forall i :: 0 <= i < |s| && !(lo <= i < hi) ==> IsSpace(s[i])
    decreases |s|
  {
    if |s| == 0 {
      lo, hi := 0, 0;
    } else if IsSpace(s[0]) {
      lo, hi := StripTakesSpace(s[1..]);
      FrontDropped(s, lo, hi);
      lo, hi := lo + 1, hi + 1;
    } else if IsSpace(s[|s| - 1]) {
      lo, hi := StripTakesSpace(s[..|s| - 1]);
      BackDropped(s, lo, hi);
    } else {
      lo, hi := 0, |s|;
    }
  }

  lemma FrontDropped(s: string, lo: nat, hi: nat)
    requires lo <= hi < |s|
    ensures s[1..][lo..hi] == s[lo + 1..hi + 1]
    ensures forall i :: 1 <= i < |s| ==> s[i] == s[1..][i - 1]
  {
  }

  lemma BackDropped(s: string, lo: nat, hi: nat)
    requires lo <= hi < |s|
    ensures s[..|s| - 1][lo..hi] == s[lo..hi]
    ensures forall i :: 0 <= i < |s| - 1 ==> s[i] == s[..|s| - 1][i]
  {
  }

  function Digit(d: nat): char
    requires d < 10
  {
    ('0' as int + d) as char
  }

  /** `str(n)` */
  function Decimal(n: nat): (s: string)
    ensures |s| > 0
  {
    if n < 10 then [Digit(n)] else Decimal(n / 10) + [Digit(n % 10)]
  }
}
