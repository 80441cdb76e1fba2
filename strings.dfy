/**
 * The two pieces of JavaScript string behaviour the dataset builder uses: the
 * text a template literal gives a positive integer, and element 1 of
 * `s.split(sep)`.
 */
module Strings {
  import opened Wrappers
  import Arrays

  predicate IsDigit(c: char) {
    '0' <= c <= '9'
  }

  function DigitChar(d: nat): (c: char)
    requires d < 10
    ensures IsDigit(c)
  {
    (48 + d) as char
  }

  /** Decimal notation of `n` without leading zeros, as `${n}` prints an integer. */
  function NatToString(n: nat): (s: string)
    ensures |s| >= 1
    ensures forall i :: 0 <= i < |s| ==> IsDigit(s[i])
    ensures |s| == 1 <==> n < 10
    decreases n
  {
    if n < 10 then [DigitChar(n)] else NatToString(n / 10) + [DigitChar(n % 10)]
  }

  /** Different numbers print differently, so numbered labels never collide. */
  lemma {:induction false} NatToStringInjective(a: nat, b: nat)
    requires NatToString(a) == NatToString(b)
    ensures a == b
    decreases a
  {
    var sa, sb := NatToString(a), NatToString(b);
    if a >= 10 && b >= 10 {
      assert sa == NatToString(a / 10) + [DigitChar(a % 10)];
      assert sb == NatToString(b / 10) + [DigitChar(b % 10)];
      assert NatToString(a / 10) == sa[..|sa| - 1] == sb[..|sb| - 1] == NatToString(b / 10);
      NatToStringInjective(a / 10, b / 10);
      assert DigitChar(a % 10) == sa[|sa| - 1] == sb[|sb| - 1] == DigitChar(b % 10);
      assert a % 10 == b % 10;
    } else if a < 10 && b < 10 {
      assert DigitChar(a) == sa[0] == sb[0] == DigitChar(b);
    }
  }

  /** The number a string of decimal digits denotes. */
  function DigitsValue(s: string): int
    requires forall i :: 0 <= i < |s| ==> IsDigit(s[i])
  {
    if |s| == 0 then 0 else DigitsValue(s[..|s| - 1]) * 10 + (s[|s| - 1] as int - 48)
  }

  /** The digits `${n}` prints read back as n. */
  lemma {:induction false} NatToStringValue(n: nat)
    ensures DigitsValue(NatToString(n)) == n
    decreases n
  {
    var s := NatToString(n);
    if n < 10 {
      assert s[..0] == [];
    } else {
      assert s[..|s| - 1] == NatToString(n / 10);
      NatToStringValue(n / 10);
      assert s[|s| - 1] == DigitChar(n % 10);
    }
  }

  /** A number's text, followed by a non-digit, is determined by the whole string. */
  lemma NumberBeforeNonDigit(a: nat, b: nat, ra: string, rb: string)
    requires NatToString(a) + ra == NatToString(b) + rb
    requires |ra| > 0 && !IsDigit(ra[0])
    requires |rb| > 0 && !IsDigit(rb[0])
    ensures a == b
  {
    var sa, sb := NatToString(a), NatToString(b);
    var s := sa + ra;
    assert forall k :: 0 <= k < |sa| ==> IsDigit(s[k]);
    assert forall k :: 0 <= k < |sb| ==> IsDigit(s[k]);
    assert !IsDigit(s[|sa|]) && !IsDigit(s[|sb|]);
    assert sa == s[..|sa|] == sb;
    NatToStringInjective(a, b);
  }

  /** `s.indexOf(c)`, with None for -1. */
  function IndexOf(s: string, c: char): Option<nat>
  {
    Arrays.FirstIndex(s, (x: char) => x == c)
  }

  /** Element 1 of `s.split(sep)`: the text between the first and the second `sep`
      (or the end); None, that is undefined, when `sep` does not occur. */
  function SecondField(s: string, sep: char): (r: Option<string>)
    ensures r.None? <==> sep !in s
    ensures r.Some? ==> sep !in r.value
  {
    match IndexOf(s, sep)
    case None => None
    case Some(i) =>
      var rest := s[i + 1..];
      match IndexOf(rest, sep)
      case None => Some(rest)
      case Some(j) => Some(rest[..j])
  }

  /** The text JavaScript produces when an optional string is concatenated. */
  function Text(o: Option<string>): string
  {
    match o
    case None => "undefined"
    case Some(w) => w
  }

  /** IndexOf finds the separator right after a separator-free prefix. */
  lemma IndexOfAfter(w: string, sep: char, rest: string)
    requires sep !in w
    ensures IndexOf(w + [sep] + rest, sep) == Some(|w|)
  {
    var s := w + [sep] + rest;
    var r := IndexOf(s, sep);
    assert s[|w|] == sep;
    assert r.Some?;
  }

  /** `(w0 + sep + w1 + tail).split(sep)[1] == w1` when w0 and w1 hold no separator
      and tail is empty or starts with one. */
  lemma SecondFieldOf(w0: string, w1: string, tail: string, sep: char)
    requires sep !in w0 && sep !in w1
    requires tail == [] || tail[0] == sep
    ensures SecondField(w0 + [sep] + w1 + tail, sep) == Some(w1)
  {
    var s := w0 + [sep] + w1 + tail;
    assert s == w0 + [sep] + (w1 + tail);
    IndexOfAfter(w0, sep, w1 + tail);
    var rest := s[|w0| + 1..];
    assert rest == w1 + tail;
    if tail == [] {
      assert rest == w1;
      assert IndexOf(rest, sep).None?;
    } else {
      assert rest == w1 + [sep] + tail[1..];
      IndexOfAfter(w1, sep, tail[1..]);
      assert rest[..|w1|] == w1;
    }
  }
}
