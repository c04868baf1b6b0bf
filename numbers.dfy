/**
 * Decimal digits: the `parseInt` that reads the numeric criteria, and the
 * decimal rendering it is the inverse of.
 */
module Numbers {
  import opened Wrappers

  predicate IsDigit(c: char) {
    '0' <= c <= '9'
  }

  predicate AllDigits(s: string) {
    forall i :: 0 <= i < |s| ==> IsDigit(s[i])
  }

  function DigitChar(d: nat): (c: char)
    requires d < 10
    ensures IsDigit(c) && c as int - '0' as int == d
  {
    ('0' as int + d) as char
  }

  /** The number a string of decimal digits denotes, most significant first. */
  function DecimalValue(s: string): nat
    requires AllDigits(s)
    decreases |s|
  {
    if s == [] then 0
    else 10 * DecimalValue(s[..|s| - 1]) + (s[|s| - 1] as int - '0' as int)
  }

  function Pow10(w: nat): (p: nat)
    ensures p >= 1
  {
    if w == 0 then 1 else 10 * Pow10(w - 1)
  }

  /** The last `w` decimal digits of `n`, zero-padded on the left. */
  function PadDigits(n: nat, w: nat): (s: string)
    ensures |s| == w && AllDigits(s)
  {
    if w == 0 then [] else PadDigits(n / 10, w - 1) + [DigitChar(n % 10)]
  }

  /** Padding to enough places loses nothing: the digits read back as `n`. */
  lemma {:induction false} PadDigitsValue(n: nat, w: nat)
    requires n < Pow10(w)
    ensures DecimalValue(PadDigits(n, w)) == n
  {
    if w > 0 {
      var s := PadDigits(n / 10, w - 1);
      assert n / 10 < Pow10(w - 1);
      PadDigitsValue(n / 10, w - 1);
      var t := s + [DigitChar(n % 10)];
      assert t[..|t| - 1] == s;
    }
  }

  /** The number of decimal digits of `n` (at least one). */
  function Width(n: nat): (w: nat)
    ensures w >= 1
  {
    if n < 10 then 1 else 1 + Width(n / 10)
  }

  lemma {:induction false} WidthFits(n: nat)
    ensures n < Pow10(Width(n))
  {
    if n >= 10 {
      WidthFits(n / 10);
    }
  }

  /** Decimal rendering of a non-negative number, without leading zeros. */
  function ShowNat(n: nat): (s: string)
    ensures |s| >= 1 && AllDigits(s)
  {
    PadDigits(n, Width(n))
  }

  /** The rendering reads back as the number. */
  lemma ShowNatValue(n: nat)
    ensures DecimalValue(ShowNat(n)) == n
  {
    WidthFits(n);
    PadDigitsValue(n, Width(n));
  }

  /** Decimal rendering of an integer, with a leading '-' when negative. */
  function ShowInt(i: int): string {
    if i < 0 then "-" + ShowNat(-i) else ShowNat(i)
  }

  /** The white space `parseInt` skips before the number. */
  predicate IsSpace(c: char) {
    c == ' ' || c == '\t' || c == '\n' || c == '\r' ||
    c as int == 0x0B || c as int == 0x0C || c as int == 0xA0 || c as int == 0xFEFF
  }

  function TrimStart(s: string): (r: string)
    ensures |r| <= |s| && r == s[|s| - |r|..]
    ensures forall k :: 0 <= k < |s| - |r| ==> IsSpace(s[k])
    ensures r == [] || !IsSpace(r[0])
  {
    if s != [] && IsSpace(s[0]) then
      var r := TrimStart(s[1..]);
      assert forall k :: 1 <= k < |s| - |r| ==> s[k] == s[1..][k - 1];
      r
    else s
  }

  /** The length of the longest all-digit prefix. */
  function DigitRun(s: string): (n: nat)
    ensures n <= |s| && AllDigits(s[..n])
    ensures n < |s| ==> !IsDigit(s[n])
  {
    if s != [] && IsDigit(s[0]) then
      var k := DigitRun(s[1..]);
      assert s[..1 + k] == [s[0]] + s[1..][..k];
      1 + k
    else 0
  }

  /** The longest run of leading digits as a number; `None` when there is none. */
  function ParseDigits(body: string): Option<nat> {
    var n := DigitRun(body);
    if n == 0 then None else Some(DecimalValue(body[..n]))
  }

  /**
   * `parseInt(s)` in base ten: leading white space, an optional sign, then
   * the longest run of digits; `None` (the source's NaN) when there is no digit.
   */
  function ParseInt(s: string): Option<int> {
    var t := TrimStart(s);
    if t != [] && t[0] == '-' then
      match ParseDigits(t[1..])
      case None => None
      case Some(v) => Some(-(v as int))
    else if t != [] && t[0] == '+' then
      match ParseDigits(t[1..])
      case None => None
      case Some(v) => Some(v)
    else
      match ParseDigits(t)
      case None => None
      case Some(v) => Some(v)
  }

  /**
   * `s` starts like a number: white space, at most one sign, then a digit;
   * `n` is where the sign or the first digit sits.
   */
  ghost predicate NumberStartsAt(s: string, n: int) {
    0 <= n < |s| && (forall j :: 0 <= j < n ==> IsSpace(s[j])) &&
    (IsDigit(s[n]) || ((s[n] == '-' || s[n] == '+') && n + 1 < |s| && IsDigit(s[n + 1])))
  }

  /** Two positions that each end a run of white space at a non-space character are the same. */
  lemma FirstNonSpace(s: string, n: int, m: int)
    requires 0 <= n < |s| && !IsSpace(s[n]) && forall j :: 0 <= j < n ==> IsSpace(s[j])
    requires 0 <= m <= |s| && (m == |s| || !IsSpace(s[m])) && forall j :: 0 <= j < m ==> IsSpace(s[j])
    ensures n == m
  {
  }

  /** `parseInt` gives NaN exactly when no digit follows the white space and an optional sign. */
  lemma ParseIntNaN(s: string)
    ensures ParseInt(s).None? <==> !exists n :: NumberStartsAt(s, n)
  {
    var t := TrimStart(s);
    var m := |s| - |t|;
    forall n | NumberStartsAt(s, n)
      ensures n == m && ParseInt(s).Some?
    {
      assert m == |s| || !IsSpace(s[m]);
      FirstNonSpace(s, n, m);
      assert t[0] == s[n];
      if IsDigit(t[0]) {
        assert DigitRun(t) > 0;
      } else {
        assert t[1..][0] == s[n + 1];
        assert DigitRun(t[1..]) > 0;
      }
    }
    if ParseInt(s).Some? {
      assert t != [];
      assert s[m] == t[0];
      if t[0] == '-' || t[0] == '+' {
        assert DigitRun(t[1..]) > 0;
        assert s[m + 1] == t[1..][0];
      } else {
        assert DigitRun(t) > 0;
      }
      assert NumberStartsAt(s, m);
    }
  }

  /** Digits followed by a non-digit are read up to the non-digit. */
  lemma {:induction false} ParseDigitsOf(d: string, tail: string)
    requires d != [] && AllDigits(d)
    requires tail == [] || !IsDigit(tail[0])
    ensures ParseDigits(d + tail) == Some(DecimalValue(d))
  {
    DigitRunOfDigits(d, tail);
    assert (d + tail)[..|d|] == d;
  }

  lemma {:induction false} DigitRunOfDigits(d: string, tail: string)
    requires AllDigits(d)
    requires tail == [] || !IsDigit(tail[0])
    ensures DigitRun(d + tail) == |d|
  {
    if d != [] {
      assert (d + tail)[1..] == d[1..] + tail;
      DigitRunOfDigits(d[1..], tail);
    } else {
      assert d + tail == tail;
    }
  }

  /** Unsigned digits, then a non-digit, read as their decimal value. */
  lemma ParseIntOfDigits(d: string, tail: string)
    requires d != [] && AllDigits(d)
    requires tail == [] || !IsDigit(tail[0])
    ensures ParseInt(d + tail) == Some(DecimalValue(d) as int)
  {
    var s := d + tail;
    assert !IsSpace(s[0]) && s[0] != '-' && s[0] != '+';
    assert TrimStart(s) == s;
    ParseDigitsOf(d, tail);
  }

  lemma ConcatAssociates(a: string, b: string, c: string)
    ensures a + b + c == a + (b + c)
  {
  }

  /** A leading minus sign is kept by the trim and negates the digits after it. */
  lemma NegatedBody(body: string, v: nat)
    requires ParseDigits(body) == Some(v)
    ensures ParseInt("-" + body) == Some(-(v as int))
  {
    var s := "-" + body;
    assert !IsSpace(s[0]);
    assert TrimStart(s) == s;
    assert s[1..] == body;
  }

  lemma ParseShowNegative(i: int, tail: string)
    requires i < 0
    requires tail == [] || !IsDigit(tail[0])
    ensures ParseInt(ShowInt(i) + tail) == Some(i)
  {
    var n: nat := -i;
    var d := ShowNat(n);
    assert ShowInt(i) == "-" + d;
    ConcatAssociates("-", d, tail);
    ParseDigitsOf(d, tail);
    ShowNatValue(n);
    NegatedBody(d + tail, n);
  }

  lemma ParseShowNonNegative(i: int, tail: string)
    requires i >= 0
    requires tail == [] || !IsDigit(tail[0])
    ensures ParseInt(ShowInt(i) + tail) == Some(i)
  {
    var d := ShowNat(i);
    assert ShowInt(i) == d;
    ParseIntOfDigits(d, tail);
    ShowNatValue(i);
  }

  /**
   * Reading back a rendered integer gives the integer, whatever non-digit text
   * follows it (so "3.5" and "1e5" read as 3 and 1, as `parseInt` does).
   */
  lemma ParseShowInt(i: int, tail: string)
    requires tail == [] || !IsDigit(tail[0])
    ensures ParseInt(ShowInt(i) + tail) == Some(i)
  {
    if i < 0 {
      ParseShowNegative(i, tail);
    } else {
      ParseShowNonNegative(i, tail);
    }
  }
}
