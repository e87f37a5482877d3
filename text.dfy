/** The pieces of Go's standard library the core relies on for text: `strings.TrimSpace`,
    `strings.HasPrefix`, `hex.EncodeToString`, the `%d` verb of `fmt.Sprintf` and the `<`
    operator on strings. Strings are `seq<char>`; Dafny's `char` is a Unicode scalar value, so
    comparing characters by code point gives the same order as Go's byte-wise comparison of
    their UTF-8 encodings. */
module Text {

  type byte = x: int | 0 <= x < 256

  // ---------------------------------------------------------------------------------------
  // strings.TrimSpace

  /** Go's `unicode.IsSpace`: the Latin-1 spaces plus the Unicode White_Space characters
      above Latin-1. */
  predicate IsSpace(c: char) {
    c == '\t' || c == '\n' || c == '\U{000B}' || c == '\U{000C}' || c == '\r' || c == ' ' ||
    c == '\U{0085}' || c == '\U{00A0}' || c == '\U{1680}' || ('\U{2000}' <= c <= '\U{200A}') ||
    c == '\U{2028}' || c == '\U{2029}' || c == '\U{202F}' || c == '\U{205F}' || c == '\U{3000}'
  }

  predicate AllSpace(s: string) {
    forall i :: 0 <= i < |s| ==> IsSpace(s[i])
  }

  /** White space followed by white space. */
  lemma SpaceThenSpaces(s: string, k: int)
    requires 0 < k <= |s| && IsSpace(s[0]) && AllSpace(s[1..][..k - 1])
    ensures AllSpace(s[..k]) && s[1..][k - 1..] == s[k..]
  {
    forall i | 0 <= i < k ensures IsSpace(s[..k][i]) {
      if i > 0 {
        assert s[..k][i] == s[1..][..k - 1][i - 1];
      }
    }
  }

  /** White space followed by white space, seen from the other end. */
  lemma SpacesThenSpace(s: string, k: int)
    requires 0 <= k < |s| && IsSpace(s[|s| - 1]) && AllSpace(s[..|s| - 1][k..])
    ensures AllSpace(s[k..]) && s[..|s| - 1][..k] == s[..k]
  {
    forall i | 0 <= i < |s| - k ensures IsSpace(s[k..][i]) {
      if i < |s| - 1 - k {
        assert s[k..][i] == s[..|s| - 1][k..][i];
      }
    }
  }

  /** `r` is what is left of `s` once some white space is cut from its front. */
  predicate DropsLeadingSpace(s: string, r: string) {
    |r| <= |s| && r == s[|s| - |r|..] && AllSpace(s[..|s| - |r|])
  }

  /** `r` is what is left of `s` once some white space is cut from its end. */
  predicate DropsTrailingSpace(s: string, r: string) {
    |r| <= |s| && r == s[..|r|] && AllSpace(s[|r|..])
  }

  /** What trimming the rest of a string that starts with white space says about the string. */
  lemma TrimLeftStep(s: string, r: string)
    requires |s| > 0 && IsSpace(s[0])
    requires DropsLeadingSpace(s[1..], r)
    ensures DropsLeadingSpace(s, r)
  {
    SpaceThenSpaces(s, |s| - |r|);
  }

  /** What trimming the front of a string that ends with white space says about the string. */
  lemma TrimRightStep(s: string, r: string)
    requires |s| > 0 && IsSpace(s[|s| - 1])
    requires DropsTrailingSpace(s[..|s| - 1], r)
    ensures DropsTrailingSpace(s, r)
  {
    SpacesThenSpace(s, |r|);
  }

  /** Drops leading white space. */
  function TrimLeft(s: string): (r: string)
    ensures DropsLeadingSpace(s, r)
    ensures r == [] || !IsSpace(r[0])
  {
    if |s| > 0 && IsSpace(s[0]) then
      var r := TrimLeft(s[1..]);
      TrimLeftStep(s, r);
      r
    else s
  }

  /** Drops trailing white space. */
  function TrimRight(s: string): (r: string)
    ensures DropsTrailingSpace(s, r)
    ensures r == [] || !IsSpace(r[|r| - 1])
  {
    if |s| > 0 && IsSpace(s[|s| - 1]) then
      var r := TrimRight(s[..|s| - 1]);
      TrimRightStep(s, r);
      r
    else s
  }

  /** A prefix of a suffix of `s` is a slice of `s`; white space after the prefix is white space
      at the end of `s`. */
  lemma SliceOfSuffix(s: string, l: string, r: string)
    requires DropsLeadingSpace(s, l) && DropsTrailingSpace(l, r)
    ensures exists i, j :: 0 <= i <= j <= |s| && r == s[i..j] && AllSpace(s[..i]) && AllSpace(s[j..])
  {
    var i := |s| - |l|;
    assert s[i + |r|..] == l[|r|..];
    assert r == s[i..i + |r|];
  }

  /** Cutting the left end and then the right end leaves a slice of `s` with only white space
      around it. */
  lemma TrimBothEndsSlice(s: string)
    ensures var r := TrimRight(TrimLeft(s));
      exists i, j :: 0 <= i <= j <= |s| && r == s[i..j] && AllSpace(s[..i]) && AllSpace(s[j..])
  {
    SliceOfSuffix(s, TrimLeft(s), TrimRight(TrimLeft(s)));
  }

  /** ... and that slice has no white space at its own ends. */
  lemma TrimBothEndsNoSpace(s: string)
    ensures var r := TrimRight(TrimLeft(s));
      r == [] || (!IsSpace(r[0]) && !IsSpace(r[|r| - 1]))
  {
    var l := TrimLeft(s);
    var r := TrimRight(l);
    assert r == l[..|r|];
    assert r != [] ==> l != [] && r[0] == l[0];
  }

  /** `strings.TrimSpace`: the slice of `s` left once the white space at both ends is cut. */
  function TrimSpace(s: string): (r: string)
    ensures exists i, j :: 0 <= i <= j <= |s| && r == s[i..j] && AllSpace(s[..i]) && AllSpace(s[j..])
    ensures r == [] || (!IsSpace(r[0]) && !IsSpace(r[|r| - 1]))
  {
    TrimBothEndsSlice(s);
    TrimBothEndsNoSpace(s);
    TrimRight(TrimLeft(s))
  }

  /** Trimming a string that already has no white space at either end changes nothing. */
  lemma TrimSpaceOfTrimmed(s: string)
    requires s == [] || (!IsSpace(s[0]) && !IsSpace(s[|s| - 1]))
    ensures TrimSpace(s) == s
  {
  }

  /** `strings.TrimSpace` is idempotent. */
  lemma TrimSpaceIdempotent(s: string)
    ensures TrimSpace(TrimSpace(s)) == TrimSpace(s)
  {
    TrimSpaceOfTrimmed(TrimSpace(s));
  }

  lemma {:induction false} TrimLeftSpacePrefix(pre: string, x: string)
    requires AllSpace(pre)
    ensures TrimLeft(pre + x) == TrimLeft(x)
  {
    if pre == [] {
      assert pre + x == x;
    } else {
      assert (pre + x)[0] == pre[0] && IsSpace(pre[0]);
      assert (pre + x)[1..] == pre[1..] + x;
      TrimLeftSpacePrefix(pre[1..], x);
    }
  }

  lemma {:induction false} TrimRightSpaceSuffix(x: string, post: string)
    requires AllSpace(post)
    ensures TrimRight(x + post) == TrimRight(x)
  {
    if post == [] {
      assert x + post == x;
    } else {
      var n := |post| - 1;
      assert (x + post)[|x + post| - 1] == post[n] && IsSpace(post[n]);
      assert (x + post)[..|x + post| - 1] == x + post[..n];
      TrimRightSpaceSuffix(x, post[..n]);
    }
  }

  lemma {:induction false} TrimSpaceSpaceSuffix(x: string, post: string)
    requires AllSpace(post)
    ensures TrimRight(TrimLeft(x + post)) == TrimRight(TrimLeft(x))
  {
    if x == [] {
      assert x + post == post;
      TrimLeftSpacePrefix(post, []);
      assert post + [] == post;
    } else if IsSpace(x[0]) {
      assert (x + post)[1..] == x[1..] + post;
      TrimSpaceSpaceSuffix(x[1..], post);
    } else {
      TrimRightSpaceSuffix(x, post);
    }
  }

  /** `strings.TrimSpace` cuts the left end first, then the right end. */
  lemma TrimSpaceUnfold(s: string)
    ensures TrimSpace(s) == TrimRight(TrimLeft(s))
  {
  }

  /** Leading white space does not survive `strings.TrimSpace`. */
  lemma TrimSpaceIgnoresLeftPadding(pre: string, x: string)
    requires AllSpace(pre)
    ensures TrimRight(TrimLeft(pre + x)) == TrimRight(TrimLeft(x))
  {
    TrimLeftSpacePrefix(pre, x);
  }

  /** White space added at either end of a string does not survive `strings.TrimSpace`. */
  lemma TrimSpaceIgnoresPadding(pre: string, s: string, post: string)
    requires AllSpace(pre) && AllSpace(post)
    ensures TrimSpace(pre + s + post) == TrimSpace(s)
  {
    assert pre + s + post == pre + (s + post);
    calc {
      TrimSpace(pre + (s + post));
    == { TrimSpaceUnfold(pre + (s + post)); }
      TrimRight(TrimLeft(pre + (s + post)));
    == { TrimSpaceIgnoresLeftPadding(pre, s + post); }
      TrimRight(TrimLeft(s + post));
    == { TrimSpaceSpaceSuffix(s, post); }
      TrimRight(TrimLeft(s));
    == { TrimSpaceUnfold(s); }
      TrimSpace(s);
    }
  }

  // ---------------------------------------------------------------------------------------
  // strings.HasPrefix

  predicate HasPrefix(s: string, prefix: string) {
    |prefix| <= |s| && s[..|prefix|] == prefix
  }

  predicate EndsWith(s: string, suffix: string) {
    |suffix| <= |s| && s[|s| - |suffix|..] == suffix
  }

  // ---------------------------------------------------------------------------------------
  // hex.EncodeToString

  /** The lower-case hexadecimal digit for a nibble. */
  function HexDigit(n: nat): (c: char)
    requires n < 16
  {
    if n < 10 then ('0' as int + n) as char else ('a' as int + n - 10) as char
  }

  predicate IsHexDigit(c: char) {
    '0' <= c <= '9' || 'a' <= c <= 'f'
  }

  /** Lower-case hexadecimal, two digits per byte, high nibble first. */
  function HexEncode(b: seq<byte>): (r: string)
    ensures |r| == 2 * |b|
    ensures forall i :: 0 <= i < |r| ==> IsHexDigit(r[i])
  {
    if b == [] then ""
    else [HexDigit(b[0] / 16), HexDigit(b[0] % 16)] + HexEncode(b[1..])
  }

  /** Two digests have the same hex text only if they are the same digest. */
  lemma {:induction false} HexEncodeInjective(a: seq<byte>, b: seq<byte>)
    requires HexEncode(a) == HexEncode(b)
    ensures a == b
  {
    if a != [] {
      var ea, eb := HexEncode(a), HexEncode(b);
      assert ea[0] == eb[0] && ea[1] == eb[1];
      assert a[0] / 16 == b[0] / 16 && a[0] % 16 == b[0] % 16;
      assert ea[2..] == HexEncode(a[1..]) && eb[2..] == HexEncode(b[1..]);
      HexEncodeInjective(a[1..], b[1..]);
    }
  }

  /** The bytes of an ASCII string, as Go's `[]byte(s)` gives them. */
  function AsciiBytes(s: string): (b: seq<byte>)
    requires forall i :: 0 <= i < |s| ==> s[i] as int < 128
    ensures |b| == |s| && forall i :: 0 <= i < |s| ==> b[i] == s[i] as int
  {
    if s == [] then [] else [s[0] as int] + AsciiBytes(s[1..])
  }

  // ---------------------------------------------------------------------------------------
  // fmt's %d verb

  function DigitChar(d: nat): (c: char)
    requires d < 10
  {
    "0123456789"[d]
  }

  function DigitValue(c: char): nat {
    if '0' <= c <= '9' then (c as int - '0' as int) as nat else 0
  }

  /** Decimal digits of a natural number, most significant first, without leading zeros. */
  function NatToString(n: nat): (r: string)
    ensures |r| > 0
    ensures forall i :: 0 <= i < |r| ==> '0' <= r[i] <= '9'
    ensures |r| > 1 ==> r[0] != '0'
  {
    if n < 10 then [DigitChar(n)] else NatToString(n / 10) + [DigitChar(n % 10)]
  }

  /** `%d` of an integer: a minus sign for negatives, then the digits of the magnitude. */
  function IntToString(n: int): string {
    if n < 0 then "-" + NatToString(-n) else NatToString(n)
  }

  /** Reads a string of decimal digits back as a number. */
  function ParseNat(s: string): nat {
    if s == [] then 0 else 10 * ParseNat(s[..|s| - 1]) + DigitValue(s[|s| - 1])
  }

  /** Reads the output of `%d` back as an integer. */
  function ParseInt(s: string): int {
    if |s| > 0 && s[0] == '-' then -(ParseNat(s[1..]) as int) else ParseNat(s)
  }

  /** A digit reads back as itself. */
  lemma DigitRoundTrip(d: nat)
    requires d < 10
    ensures DigitValue(DigitChar(d)) == d
  {
  }

  lemma {:induction false} NatToStringRoundTrip(n: nat)
    ensures ParseNat(NatToString(n)) == n
  {
    DigitRoundTrip(n % 10);
    if n >= 10 {
      var s, prefix, last := NatToString(n), NatToString(n / 10), DigitChar(n % 10);
      assert s == prefix + [last];
      assert s[..|s| - 1] == prefix && s[|s| - 1] == last;
      NatToStringRoundTrip(n / 10);
      assert ParseNat(s) == 10 * ParseNat(prefix) + DigitValue(last);
    }
  }

  /** `%d` loses nothing: the number can be read back from its text. */
  lemma IntToStringRoundTrip(n: int)
    ensures ParseInt(IntToString(n)) == n
  {
    if n < 0 {
      var digits := NatToString(-n);
      var s := "-" + digits;
      assert IntToString(n) == s;
      assert s[0] == '-' && s[1..] == digits;
      NatToStringRoundTrip(-n);
      assert ParseInt(s) == -(ParseNat(digits) as int);
    } else {
      var digits := NatToString(n);
      assert IntToString(n) == digits;
      assert digits[0] != '-';
      NatToStringRoundTrip(n);
      assert ParseInt(digits) == ParseNat(digits);
    }
  }

  // ---------------------------------------------------------------------------------------
  // Go's `<` on strings

  /** Lexicographic order: the first differing character decides, a proper prefix comes first. */
  predicate StrLess(a: string, b: string) {
    if a == [] then b != []
    else if b == [] then false
    else if a[0] != b[0] then a[0] < b[0]
    else StrLess(a[1..], b[1..])
  }

  lemma {:induction false} StrLessIrreflexive(a: string)
    ensures !StrLess(a, a)
  {
    if a != [] {
      StrLessIrreflexive(a[1..]);
    }
  }

  lemma {:induction false} StrLessTransitive(a: string, b: string, c: string)
    requires StrLess(a, b) && StrLess(b, c)
    ensures StrLess(a, c)
  {
    if a != [] && b != [] && c != [] && a[0] == b[0] == c[0] {
      StrLessTransitive(a[1..], b[1..], c[1..]);
    }
  }

  /** Any two different strings are ordered one way or the other. */
  lemma {:induction false} StrLessTotal(a: string, b: string)
    requires a != b
    ensures StrLess(a, b) || StrLess(b, a)
  {
    if a != [] && b != [] && a[0] == b[0] {
      assert a == [a[0]] + a[1..] && b == [b[0]] + b[1..];
      StrLessTotal(a[1..], b[1..]);
    }
  }

  lemma StrLessAsymmetric(a: string, b: string)
    requires StrLess(a, b)
    ensures !StrLess(b, a)
  {
    if StrLess(b, a) {
      StrLessTransitive(a, b, a);
      StrLessIrreflexive(a);
    }
  }
}
