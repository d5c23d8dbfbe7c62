/**
  Small pieces of Python's string behaviour that the scanner relies on:
  `str(n)` for a non-negative integer, reading such a numeral back, and
  `str.strip()` with no argument.
 */
module Text {

  predicate IsDigit(c: char) {
    '0' <= c <= '9'
  }

  predicate AllDigits(s: string) {
    forall i :: 0 <= i < |s| ==> IsDigit(s[i])
  }

  function DigitChar(d: nat): (c: char)
    requires d < 10
    ensures IsDigit(c) && c as int - '0' as int == d
  {
    (d + '0' as int) as char
  }

  function DigitValue(c: char): (d: nat)
    requires IsDigit(c)
    ensures d < 10
  {
    c as int - '0' as int
  }

  /** `str(n)`: the decimal numeral of `n`, without leading zeros. */
  function NatStr(n: nat): (s: string)
    ensures |s| >= 1 && AllDigits(s)
    ensures s[0] == '0' ==> n == 0 && |s| == 1
    ensures n < 10 <==> |s| == 1
    decreases n
  {
    if n < 10 then [DigitChar(n)] else NatStr(n / 10) + [DigitChar(n % 10)]
  }

  /** The value of a numeral made of decimal digits (`int(s)` for such an `s`). */
  function DecimalValue(s: string): nat
    requires AllDigits(s)
  {
    if s == [] then 0 else 10 * DecimalValue(s[..|s| - 1]) + DigitValue(s[|s| - 1])
  }

  /** Reading back the numeral `str(n)` gives `n`. */
  lemma {:induction false} DecimalRoundTrip(n: nat)
    ensures DecimalValue(NatStr(n)) == n
  {
    var s := NatStr(n);
    if n >= 10 {
      DecimalRoundTrip(n / 10);
      assert s[..|s| - 1] == NatStr(n / 10);
    }
  }

  /** The numeral is the only one of its value without a leading zero. */
  lemma {:induction false} NatStrInjective(m: nat, n: nat)
    requires NatStr(m) == NatStr(n)
    ensures m == n
  {
    DecimalRoundTrip(m);
    DecimalRoundTrip(n);
  }

  /** The characters for which Python's `str.isspace()` holds. */
  predicate IsSpace(c: char) {
    || ('\t' <= c <= '\r')
    || ('\U{1c}' <= c <= '\U{1f}')
    || c == ' '
    || c == '\U{85}'
    || c == '\U{a0}'
    || c == '\U{1680}'
    || ('\U{2000}' <= c <= '\U{200a}')
    || c == '\U{2028}'
    || c == '\U{2029}'
    || c == '\U{202f}'
    || c == '\U{205f}'
    || c == '\U{3000}'
  }

  predicate AllSpace(s: string) {
    forall i :: 0 <= i < |s| ==> IsSpace(s[i])
  }

  /** `str.lstrip()`: drops the leading whitespace and nothing else. */
  function StripLeading(s: string): (r: string)
    ensures |r| <= |s| && r == s[|s| - |r|..]
    ensures r != [] ==> !IsSpace(r[0])
  {
    if s != [] && IsSpace(s[0]) then StripLeading(s[1..]) else s
  }

  /** `str.rstrip()`: drops the trailing whitespace and nothing else. */
  function StripTrailing(s: string): (r: string)
    ensures |r| <= |s| && r == s[..|r|]
    ensures r != [] ==> !IsSpace(r[|r| - 1])
  {
    if s != [] && IsSpace(s[|s| - 1]) then StripTrailing(s[..|s| - 1]) else s
  }

  /** What `str.lstrip()` drops is whitespace. */
  lemma {:induction false} StripLeadingCut(s: string)
    ensures AllSpace(s[..|s| - |StripLeading(s)|])
  {
    if s != [] && IsSpace(s[0]) {
      var rest := s[1..];
      StripLeadingCut(rest);
      var n := |s| - |StripLeading(s)|;
      forall k | 0 <= k < n
        ensures IsSpace(s[k])
      {
        if k > 0 {
          assert s[k] == rest[..n - 1][k - 1];
        }
      }
    }
  }

  /** What `str.rstrip()` drops is whitespace. */
  lemma {:induction false} StripTrailingCut(s: string)
    ensures AllSpace(s[|StripTrailing(s)|..])
  {
    if s != [] && IsSpace(s[|s| - 1]) {
      var init := s[..|s| - 1];
      StripTrailingCut(init);
      var m := |StripTrailing(s)|;
      forall k | m <= k < |s|
        ensures IsSpace(s[k])
      {
        if k < |s| - 1 {
          assert s[k] == init[m..][k - m];
        }
      }
    }
  }

  /** `str.strip()`: the part of `s` between its leading and trailing whitespace. */
  function Strip(s: string): (r: string)
  {
    StripTrailing(StripLeading(s))
  }

  /** How many whitespace characters `Strip` cuts from the front of `s`. */
  function LeadWidth(s: string): nat
  {
    |s| - |StripLeading(s)|
  }

  /**
    What `Strip` keeps: one contiguous slice of `s`, with only whitespace cut
    on either side, that neither starts nor ends with whitespace.
   */
  lemma StripSlice(s: string)
    ensures LeadWidth(s) + |Strip(s)| <= |s|
    ensures Strip(s) == s[LeadWidth(s)..LeadWidth(s) + |Strip(s)|]
    ensures AllSpace(s[..LeadWidth(s)]) && AllSpace(s[LeadWidth(s) + |Strip(s)|..])
    ensures Strip(s) != [] ==> !IsSpace(Strip(s)[0]) && !IsSpace(Strip(s)[|Strip(s)| - 1])
  {
    StripKept(s);
    StripLeadingCut(s);
    StripTrailCut(s);
    StripEnds(s);
  }

  lemma StripKept(s: string)
    ensures LeadWidth(s) + |Strip(s)| <= |s|
    ensures Strip(s) == s[LeadWidth(s)..LeadWidth(s) + |Strip(s)|]
  {
    var l := StripLeading(s);
    SuffixPrefix(s, l, StripTrailing(l));
  }

  lemma StripTrailCut(s: string)
    ensures LeadWidth(s) + |Strip(s)| <= |s|
    ensures AllSpace(s[LeadWidth(s) + |Strip(s)|..])
  {
    var l := StripLeading(s);
    StripTrailingCut(l);
    SpaceAfterPrefix(s, l, StripTrailing(l));
  }

  /** Whitespace after a prefix `r` of a suffix `l` of `s` is whitespace at the same place in `s`. */
  lemma SpaceAfterPrefix(s: string, l: string, r: string)
    requires |l| <= |s| && l == s[|s| - |l|..]
    requires |r| <= |l| && AllSpace(l[|r|..])
    ensures AllSpace(s[|s| - |l| + |r|..])
  {
    var tail := s[|s| - |l| + |r|..];
    forall k | 0 <= k < |tail|
      ensures IsSpace(tail[k])
    {
      assert tail[k] == l[|r|..][k];
    }
  }

  lemma StripEnds(s: string)
    ensures Strip(s) != [] ==> !IsSpace(Strip(s)[0]) && !IsSpace(Strip(s)[|Strip(s)| - 1])
  {
    var l := StripLeading(s);
    var r := StripTrailing(l);
    if r != [] {
      assert r[0] == l[0];
    }
  }

  /** A prefix `r` of a suffix `l` of `s` is a slice of `s`, and what follows it in `l` follows it in `s`. */
  lemma SuffixPrefix<T>(s: seq<T>, l: seq<T>, r: seq<T>)
    requires |l| <= |s| && l == s[|s| - |l|..]
    requires |r| <= |l| && r == l[..|r|]
    ensures var i := |s| - |l|;
      r == s[i..i + |r|] && l[|r|..] == s[i + |r|..]
  {
  }

  /** A text without leading or trailing whitespace is its own strip. */
  lemma {:induction false} StripFixed(s: string)
    requires s == [] || (!IsSpace(s[0]) && !IsSpace(s[|s| - 1]))
    ensures Strip(s) == s
  {
  }

  /** Stripping twice is stripping once. */
  lemma StripIdempotent(s: string)
    ensures Strip(Strip(s)) == Strip(s)
  {
    StripSlice(s);
    StripFixed(Strip(s));
  }
}
