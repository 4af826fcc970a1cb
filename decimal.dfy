/** Decimal text of integers as Go's strconv.Itoa and fmt's %d, and
    JavaScript's String(n), produce it; the zero padding of fmt's %0Nd and
    of String.prototype.padStart / padEnd; and the reading of decimal text
    back into numbers, which is the partner every printing function is
    checked against. */
module Decimal {
  import opened Wrappers

  predicate IsDigit(c: char) { '0' <= c <= '9' }

  predicate AllDigits(s: string) { forall i :: 0 <= i < |s| ==> IsDigit(s[i]) }

  /** A non-empty run of decimal digits. */
  predicate IsNumeral(s: string) { |s| > 0 && AllDigits(s) }

  function DigitValue(c: char): (d: nat)
    requires IsDigit(c)
    ensures d < 10
  {
    c as int - '0' as int
  }

  function DigitChar(d: nat): (c: char)
    requires d < 10
    ensures IsDigit(c) && DigitValue(c) == d
  {
    ('0' as int + d) as char
  }

  function Pow10(k: nat): (p: nat)
    ensures p >= 1
  {
    if k == 0 then 1 else 10 * Pow10(k - 1)
  }

  /** The value of a run of digits, most significant first; the empty run reads as 0. */
  function NumeralValue(s: string): nat
    requires AllDigits(s)
  {
    if s == [] then 0 else 10 * NumeralValue(s[..|s| - 1]) + DigitValue(s[|s| - 1])
  }

  /** Decimal digits of a natural number, without leading zeros. */
  function NatToString(n: nat): string
  {
    if n < 10 then [DigitChar(n)] else NatToString(n / 10) + [DigitChar(n % 10)]
  }

  /** The digits of n read back as n, and there are just enough of them. */
  lemma {:induction false} NatToStringReads(n: nat)
    ensures IsNumeral(NatToString(n))
    ensures NumeralValue(NatToString(n)) == n
    ensures n < Pow10(|NatToString(n)|)
    ensures |NatToString(n)| > 1 ==> Pow10(|NatToString(n)| - 1) <= n
  {
    var s := NatToString(n);
    if n >= 10 {
      NatToStringReads(n / 10);
      assert s[..|s| - 1] == NatToString(n / 10);
    }
  }

  /** Reads an optionally '-'-signed run of digits. */
  function ParseInt(s: string): Option<int>
  {
    if |s| > 0 && s[0] == '-' then
      if IsNumeral(s[1..]) then Some(0 - NumeralValue(s[1..]) as int) else None
    else if IsNumeral(s) then Some(NumeralValue(s))
    else None
  }

  /** strconv.Itoa(i), fmt's %d and JavaScript's String(i) on an integer. */
  function IntToString(i: int): string
  {
    if i < 0 then "-" + NatToString(-i) else NatToString(i)
  }

  /** Printing an integer and reading it back gives the integer; the text
      starts with '-' exactly for negative integers. */
  lemma IntToStringRoundTrip(i: int)
    ensures ParseInt(IntToString(i)) == Some(i)
    ensures |IntToString(i)| > 0 && (IntToString(i)[0] == '-' <==> i < 0)
  {
    var m := if i < 0 then -i else i;
    NatToStringReads(m);
    SignedReads(i < 0, NatToString(m));
  }

  /** An optional '-' followed by a numeral reads back as its signed value. */
  lemma SignedReads(negative: bool, d: string)
    requires IsNumeral(d)
    ensures var text := if negative then "-" + d else d;
      && |text| > 0 && (text[0] == '-' <==> negative)
      && ParseInt(text) == Some(if negative then 0 - NumeralValue(d) as int else NumeralValue(d))
  {
    if negative {
      assert ("-" + d)[1..] == d;
    }
  }

  function Zeros(k: nat): (z: string)
    ensures |z| == k && forall i :: 0 <= i < k ==> z[i] == '0'
  {
    if k == 0 then [] else Zeros(k - 1) + ['0']
  }

  /** s.padStart(width, '0'): zeros in front until the text is width long. */
  function PadStart(s: string, width: nat): (r: string)
    ensures |r| == if |s| < width then width else |s|
  {
    if |s| < width then Zeros(width - |s|) + s else s
  }

  /** s.padEnd(width, '0'): zeros behind until the text is width long. */
  function PadEnd(s: string, width: nat): (r: string)
    ensures |r| == if |s| < width then width else |s|
  {
    if |s| < width then s + Zeros(width - |s|) else s
  }

  /** padStart leaves a text at least width long as it is; otherwise the
      text ends the result and only '0's come before it. */
  lemma PadStartShape(s: string, width: nat)
    ensures |s| >= width ==> PadStart(s, width) == s
    ensures var r := PadStart(s, width);
      r[|r| - |s|..] == s && forall i :: 0 <= i < |r| - |s| ==> r[i] == '0'
  {
  }

  /** padEnd leaves a text at least width long as it is; otherwise the text
      begins the result and only '0's come after it. */
  lemma PadEndShape(s: string, width: nat)
    ensures |s| >= width ==> PadEnd(s, width) == s
    ensures var r := PadEnd(s, width);
      r[..|s|] == s && forall i :: |s| <= i < |r| ==> r[i] == '0'
  {
  }

  /** fmt's %0<width>d: the sign counts towards the width and the zeros go
      between the sign and the digits. */
  function ZeroPadded(n: int, width: nat): string
  {
    if n < 0 then "-" + PadStart(NatToString(-n), if width > 0 then width - 1 else 0)
    else PadStart(NatToString(n), width)
  }

  /** The padded text is at least width long and reads back as n. */
  lemma ZeroPaddedReads(n: int, width: nat)
    ensures ParseInt(ZeroPadded(n, width)) == Some(n)
    ensures |ZeroPadded(n, width)| >= width
  {
    var m := if n < 0 then -n else n;
    NatToStringReads(m);
    SignedPaddingReads(n < 0, NatToString(m), width);
  }

  /** An optional '-' followed by a numeral padded to fill the width (the
      sign included) reads back as the signed value of the numeral. */
  lemma SignedPaddingReads(negative: bool, d: string, width: nat)
    requires IsNumeral(d)
    ensures var text := if negative then "-" + PadStart(d, if width > 0 then width - 1 else 0) else PadStart(d, width);
      && |text| >= width
      && ParseInt(text) == Some(if negative then 0 - NumeralValue(d) as int else NumeralValue(d))
  {
    var w := if !negative then width else if width > 0 then width - 1 else 0;
    PaddedNumeral(d, w);
    SignedReads(negative, PadStart(d, w));
  }

  /** A numeral padded at the start is still a numeral of the same value. */
  lemma PaddedNumeral(s: string, width: nat)
    requires IsNumeral(s)
    ensures IsNumeral(PadStart(s, width)) && NumeralValue(PadStart(s, width)) == NumeralValue(s)
    ensures PadStart(s, width)[0] != '-'
  {
    LeadingZerosIgnored(|PadStart(s, width)| - |s|, s);
  }

  /** Zeros in front do not change the value of a numeral. */
  lemma {:induction false} LeadingZerosIgnored(k: nat, s: string)
    requires AllDigits(s)
    ensures AllDigits(Zeros(k) + s)
    ensures NumeralValue(Zeros(k) + s) == NumeralValue(s)
    decreases |s|, k
  {
    var t := Zeros(k) + s;
    if s == [] {
      assert t == Zeros(k);
      if k > 0 {
        assert t[..|t| - 1] == Zeros(k - 1) + [];
        LeadingZerosIgnored(k - 1, s);
      }
    } else {
      assert t[..|t| - 1] == Zeros(k) + s[..|s| - 1];
      LeadingZerosIgnored(k, s[..|s| - 1]);
    }
  }

  /** The padding of JavaScript's String(n).padStart(2, '0') and of Go's
      %02d agree on every integer, negative ones included. */
  lemma TwoDigitPaddingsAgree(n: int)
    ensures PadStart(IntToString(n), 2) == ZeroPadded(n, 2)
  {
    if n < 0 {
      NatToStringReads(-n);
      assert PadStart(NatToString(-n), 1) == NatToString(-n);
    }
  }

  /** A number below 100 padded to two places is exactly two digits. */
  lemma {:induction false} PadTwoDigits(n: int)
    requires 0 <= n < 100
    ensures |PadStart(IntToString(n), 2)| == 2
    ensures IsNumeral(PadStart(IntToString(n), 2))
    ensures NumeralValue(PadStart(IntToString(n), 2)) == n
  {
    var s := IntToString(n);
    assert s == NatToString(n);
    NatToStringReads(n);
    LeadingZerosIgnored(|PadStart(s, 2)| - |s|, s);
  }

  lemma {:induction false} PowMonotone(a: nat, b: nat)
    requires a <= b
    ensures Pow10(a) <= Pow10(b)
    decreases b
  {
    if a < b { PowMonotone(a, b - 1); }
  }
}
