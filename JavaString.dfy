/**
 * The parts of `java.lang.String` and `String.format` that the value
 * objects use: `isBlank`, `trim`, the `%-15s` left-justified field and
 * the `%d` decimal conversion of a non-negative number.  Beside each
 * operation stands its partner: a characterisation, or a parser that
 * undoes it.
 */
module JavaString {

  /** `Character.isWhitespace`: the ASCII controls U+0009..U+000D and
      U+001C..U+001F, and every Unicode space, line or paragraph separator
      except the no-break spaces U+00A0, U+2007 and U+202F. */
  predicate IsWhitespace(c: char) {
    var n := c as int;
    || (0x09 <= n <= 0x0D)
    || (0x1C <= n <= 0x20)
    || n == 0x1680
    || (0x2000 <= n <= 0x2006)
    || (0x2008 <= n <= 0x200A)
    || n == 0x2028 || n == 0x2029 || n == 0x205F || n == 0x3000
  }

  /** `String.isBlank`: empty, or whitespace only. */
  predicate IsBlank(s: string) {
    forall i :: 0 <= i < |s| ==> IsWhitespace(s[i])
  }

  /** `String.trim` removes every character at or below U+0020 from both ends;
      this is a different set from `IsWhitespace`. */
  predicate IsTrimmable(c: char) {
    c <= ' '
  }

  predicate AllTrimmable(s: string) {
    forall i :: 0 <= i < |s| ==> IsTrimmable(s[i])
  }

  /** A string that `trim` leaves as it is. */
  predicate IsTrimmed(s: string) {
    s == [] || (!IsTrimmable(s[0]) && !IsTrimmable(s[|s| - 1]))
  }

  /** `isBlank` and `trim` judge characters differently: every ASCII
      whitespace character is trimmed, but U+0001 is trimmed without being
      whitespace and U+3000 is whitespace without being trimmed. */
  lemma WhitespaceVersusTrimmable(c: char)
    requires c as int < 0x80
    ensures IsWhitespace(c) ==> IsTrimmable(c)
    ensures IsTrimmable('\U{1}') && !IsWhitespace('\U{1}')
    ensures IsWhitespace('\U{3000}') && !IsTrimmable('\U{3000}')
  {
  }

  /** The leading part of `trim`: drop trimmable characters from the front. */
  function TrimStart(s: string): (r: string)
    ensures |r| <= |s| && r == s[|s| - |r|..]
    ensures forall i :: 0 <= i < |s| - |r| ==> IsTrimmable(s[i])
    ensures r != [] ==> !IsTrimmable(r[0])
  {
    if s != [] && IsTrimmable(s[0]) then
      var r := TrimStart(s[1..]);
      assert forall i :: 1 <= i < |s| - |r| ==> s[i] == s[1..][i - 1];
      r
    else s
  }

  /** The trailing part of `trim`: drop trimmable characters from the back. */
  function TrimEnd(s: string): (r: string)
    ensures |r| <= |s| && r == s[..|r|]
    ensures forall i :: |r| <= i < |s| ==> IsTrimmable(s[i])
    ensures r != [] ==> !IsTrimmable(r[|r| - 1])
  {
    if s != [] && IsTrimmable(s[|s| - 1]) then
      var r := TrimEnd(s[..|s| - 1]);
      assert forall i :: |r| <= i < |s| - 1 ==> s[i] == s[..|s| - 1][i];
      r
    else s
  }

  /** `String.trim`. */
  function Trim(s: string): (r: string)
    ensures IsTrimmed(r)
    ensures r == [] <==> AllTrimmable(s)
    ensures |r| <= |s|
  {
    var t := TrimStart(s);
    var r := TrimEnd(t);
    assert AllTrimmable(s) ==> t == [] by {
      if t != [] {
        assert t[0] == s[|s| - |t|];
      }
    }
    r
  }

  /** `trim` returns the middle of its input, between two runs of characters
      at or below U+0020. */
  lemma TrimIsMiddle(s: string)
    ensures exists p, q :: AllTrimmable(p) && AllTrimmable(q) && s == p + Trim(s) + q
  {
    var t := TrimStart(s);
    var r := TrimEnd(t);
    var p := TrimStartDropped(s);
    var q := TrimEndDropped(t);
    PaddedMiddle(s, p, t, r, q);
  }

  lemma PaddedMiddle(s: string, p: string, t: string, m: string, q: string)
    requires s == p + t && t == m + q
    requires AllTrimmable(p) && AllTrimmable(q)
    ensures exists p, q :: AllTrimmable(p) && AllTrimmable(q) && s == p + m + q
  {
    assert s == p + m + q;
  }

  /** What the leading part of `trim` drops: `s` is that, then `TrimStart(s)`. */
  function TrimStartDropped(s: string): (p: string)
    ensures AllTrimmable(p) && s == p + TrimStart(s)
  {
    var t := TrimStart(s);
    var p := s[..|s| - |t|];
    assert forall i :: 0 <= i < |p| ==> p[i] == s[i];
    assert s == p + s[|s| - |t|..];
    p
  }

  /** What the trailing part of `trim` drops: `t` is `TrimEnd(t)`, then that. */
  function TrimEndDropped(t: string): (q: string)
    ensures AllTrimmable(q) && t == TrimEnd(t) + q
  {
    var r := TrimEnd(t);
    var q := t[|r|..];
    assert forall i :: 0 <= i < |q| ==> q[i] == t[|r| + i];
    assert t == t[..|r|] + q;
    q
  }

  lemma {:induction false} TrimStartOfPadded(p: string, t: string)
    requires AllTrimmable(p)
    requires t == [] || !IsTrimmable(t[0])
    ensures TrimStart(p + t) == t
  {
    if p != [] {
      assert (p + t)[0] == p[0];
      assert (p + t)[1..] == p[1..] + t;
      TrimStartOfPadded(p[1..], t);
    }
  }

  lemma {:induction false} TrimEndOfPadded(t: string, q: string)
    requires AllTrimmable(q)
    requires t == [] || !IsTrimmable(t[|t| - 1])
    ensures TrimEnd(t + q) == t
  {
    if q != [] {
      assert (t + q)[|t + q| - 1] == q[|q| - 1];
      assert (t + q)[..|t + q| - 1] == t + q[..|q| - 1];
      TrimEndOfPadded(t, q[..|q| - 1]);
    }
  }

  /** `trim` strips exactly the padding: any trimmed string surrounded by
      characters at or below U+0020 comes back unchanged. */
  lemma TrimOfPadded(p: string, m: string, q: string)
    requires AllTrimmable(p) && AllTrimmable(q)
    requires IsTrimmed(m)
    ensures Trim(p + m + q) == m
  {
    if m == [] {
      assert p + m + q == p + q;
      assert forall i :: 0 <= i < |p + q| ==> IsTrimmable((p + q)[i]) by {
        forall i | 0 <= i < |p + q| ensures IsTrimmable((p + q)[i]) {
          if i >= |p| { assert (p + q)[i] == q[i - |p|]; }
        }
      }
    } else {
      assert p + m + q == p + (m + q);
      TrimStartOfPadded(p, m + q);
      TrimEndOfPadded(m, q);
    }
  }

  /** `trim` leaves a trimmed string as it is. */
  lemma TrimmedIsFixed(s: string)
    requires IsTrimmed(s)
    ensures Trim(s) == s
  {
    assert TrimStart(s) == s;
    assert TrimEnd(s) == s;
  }

  /** `trim` is idempotent, and its fixed points are exactly the trimmed strings. */
  lemma TrimFixedPoints(s: string)
    ensures Trim(Trim(s)) == Trim(s)
    ensures Trim(s) == s <==> IsTrimmed(s)
  {
    TrimmedIsFixed(Trim(s));
    if IsTrimmed(s) {
      TrimmedIsFixed(s);
    }
  }

  /** The `%-15s` conversion: the text, then spaces up to the width; a longer
      text is never truncated. */
  function PadRight(s: string, width: nat): (r: string)
    ensures |r| == if |s| >= width then |s| else width
    ensures r[..|s|] == s
    ensures forall i :: |s| <= i < |r| ==> r[i] == ' '
  {
    if |s| >= width then s else s + seq(width - |s|, _ => ' ')
  }

  predicate IsDigit(c: char) {
    '0' <= c <= '9'
  }

  predicate AllDigits(s: string) {
    forall i :: 0 <= i < |s| ==> IsDigit(s[i])
  }

  function DigitChar(d: nat): (c: char)
    requires d < 10
    ensures IsDigit(c)
  {
    ('0' as int + d) as char
  }

  function DigitValue(c: char): (d: nat)
    requires IsDigit(c)
    ensures d < 10 && DigitChar(d) == c
  {
    c as int - '0' as int
  }

  /** The `%d` conversion of a non-negative number (no sign, no grouping). */
  function Decimal(n: nat): (r: string)
    ensures |r| >= 1 && AllDigits(r)
    ensures |r| > 1 ==> r[0] != '0'
  {
    if n < 10 then [DigitChar(n)] else Decimal(n / 10) + [DigitChar(n % 10)]
  }

  /** The value of a string of decimal digits, most significant first. */
  function DecimalValue(s: string): nat
    requires AllDigits(s)
  {
    if s == [] then 0 else DecimalValue(s[..|s| - 1]) * 10 + DigitValue(s[|s| - 1])
  }

  /** Reading back what `%d` wrote gives the number. */
  lemma {:induction false} DecimalRoundTrip(n: nat)
    ensures DecimalValue(Decimal(n)) == n
  {
    var r := Decimal(n);
    if n < 10 {
      assert r[..0] == [];
    } else {
      assert r[..|r| - 1] == Decimal(n / 10);
      DecimalRoundTrip(n / 10);
    }
  }

  /** Where the run of digits that ends `s` begins. */
  function TrailingDigitsStart(s: string): (k: nat)
    ensures k <= |s| && AllDigits(s[k..])
    ensures k > 0 ==> !IsDigit(s[k - 1])
  {
    if s != [] && IsDigit(s[|s| - 1]) then
      var k := TrailingDigitsStart(s[..|s| - 1]);
      assert s[k..] == s[..|s| - 1][k..] + [s[|s| - 1]];
      k
    else |s|
  }

  /** Digits written after a non-digit are found again as the trailing run. */
  lemma {:induction false} TrailingDigitsOfJoin(x: string, d: string)
    requires AllDigits(d)
    requires x != [] && !IsDigit(x[|x| - 1])
    ensures TrailingDigitsStart(x + d) == |x|
  {
    if d == [] {
      assert x + d == x;
    } else {
      assert (x + d)[..|x + d| - 1] == x + d[..|d| - 1];
      TrailingDigitsOfJoin(x, d[..|d| - 1]);
    }
  }
}
