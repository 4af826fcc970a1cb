/** frontend/src/App.js: the duration text sent to the server for a
    position in milliseconds, the label of a session, and the start and end
    positions the user edits, which are kept more than half a second apart. */
module Frontend {
  import opened Wrappers
  import opened Decimal

  /** JavaScript's % on integers: the remainder has the sign of the dividend. */
  function JsRem(a: int, b: int): (r: int)
    requires b > 0
    ensures -b < r < b
    ensures a >= 0 ==> r == a % b
    ensures a <= 0 ==> r <= 0
  {
    if a >= 0 then a % b else -((-a) % b)
  }

  /** Unlike Dafny's %, JavaScript's is odd in the dividend. */
  lemma JsRemOdd(a: int, b: int)
    requires b > 0
    ensures JsRem(-a, b) == -JsRem(a, b)
  {
  }

  /** String(n).padStart(2, '0'). */
  function Pad2(n: int): string
  {
    PadStart(IntToString(n), 2)
  }

  /** The hours, minutes and seconds of a position: whole hours, not reduced
      modulo 24; minutes and seconds by JavaScript's %. */
  function Clock(millis: int): string
  {
    ClockOf(millis / 3600000, JsRem(millis / 60000, 60), JsRem(millis / 1000, 60))
  }

  function ClockOf(hours: int, minutes: int, seconds: int): string
  {
    Pad2(hours) + ":" + Pad2(minutes) + ":" + Pad2(seconds)
  }

  /** millisToDuration as written: the sub-second remainder, when not zero,
      follows a '.' padded at the END to three characters. */
  function MillisToDuration(millis: int): (s: string)
  {
    var rest := JsRem(millis, 1000);
    if rest == 0 then Clock(millis)
    else Clock(millis) + ("." + PadEnd(IntToString(rest), 3))
  }

  /** millisToDuration as evidently intended: the remainder padded at the
      START, so that the three digits are the milliseconds. */
  function MillisToDurationCorrected(millis: int): (s: string)
  {
    var rest := JsRem(millis, 1000);
    if rest == 0 then Clock(millis)
    else Clock(millis) + ("." + PadStart(IntToString(rest), 3))
  }

  // ---------------------------------------------------------------------
  // Reading a duration back

  /** Index of the first c in s, or |s| when there is none. */
  function IndexOf(s: string, c: char): (i: nat)
    ensures i <= |s|
  {
    if s == [] || s[0] == c then 0 else 1 + IndexOf(s[1..], c)
  }

  /** The duration a text "H:MM:SS" or "H:MM:SS.f" denotes, in milliseconds:
      hours of any number of digits, minutes and seconds of two digits below
      60, and a fraction of one to three digits read as a decimal fraction
      of a second (so ".5" and ".500" are both half a second). */
  function ReadDuration(s: string): Option<int>
  {
    var a := IndexOf(s, ':');
    if a == |s| then None else ReadAfterHours(s[..a], s[a + 1..])
  }

  /** The reading once the hours are split off at the first ':'. */
  function ReadAfterHours(h: string, rest: string): Option<int>
  {
    if !(IsNumeral(h) && |rest| >= 5 && rest[2] == ':' && AllDigits(rest[..2]) && AllDigits(rest[3..5])) then None
    else
      var m, sec, fraction := NumeralValue(rest[..2]), NumeralValue(rest[3..5]), ReadFraction(rest[5..]);
      if m >= 60 || sec >= 60 || fraction.None? then None
      else Some(Whole(NumeralValue(h), m, sec) + fraction.value)
  }

  /** Nothing, or '.' and one to three digits as milliseconds. */
  function ReadFraction(tail: string): Option<int>
  {
    if tail == [] then Some(0)
    else if tail[0] == '.' && 2 <= |tail| <= 4 && AllDigits(tail[1..]) then
      Some(FractionMillis(|tail| - 1, NumeralValue(tail[1..])))
    else None
  }

  /** The milliseconds denoted by a decimal fraction of a second written
      with the given number of digits (one to three). */
  function FractionMillis(digits: nat, value: nat): nat
  {
    if digits == 1 then value * 100 else if digits == 2 then value * 10 else value
  }

  /** Hours, minutes and seconds in milliseconds. */
  function Whole(h: int, m: int, s: int): int
  {
    ((h * 60 + m) * 60 + s) * 1000
  }

  /** How the fields of "H:MM:SS" followed by a tail are found. */
  lemma ReadFields(clock: string, H: string, M: string, S: string, tail: string)
    requires clock == H + ":" + M + ":" + S
    requires IsNumeral(H) && |M| == 2 && |S| == 2 && AllDigits(M) && AllDigits(S)
    requires NumeralValue(M) < 60 && NumeralValue(S) < 60
    ensures var whole, fraction := Whole(NumeralValue(H), NumeralValue(M), NumeralValue(S)), ReadFraction(tail);
      ReadDuration(clock + tail) == if fraction.None? then None else Some(whole + fraction.value)
  {
    SplitFields(clock, H, M, S, tail);
    var s := clock + tail;
    var rest := s[|H| + 1..];
    assert ReadDuration(s) == ReadAfterHours(H, rest);
    ReadAfterFields(H, rest, M, S, tail);
  }

  lemma ReadAfterFields(H: string, rest: string, M: string, S: string, tail: string)
    requires IsNumeral(H) && |M| == 2 && |S| == 2 && AllDigits(M) && AllDigits(S)
    requires NumeralValue(M) < 60 && NumeralValue(S) < 60
    requires |rest| >= 5 && rest[..2] == M && rest[2] == ':' && rest[3..5] == S && rest[5..] == tail
    ensures var whole, fraction := Whole(NumeralValue(H), NumeralValue(M), NumeralValue(S)), ReadFraction(tail);
      ReadAfterHours(H, rest) == if fraction.None? then None else Some(whole + fraction.value)
  {
    assert NumeralValue(rest[..2]) == NumeralValue(M) && NumeralValue(rest[3..5]) == NumeralValue(S);
  }

  lemma SplitFields(clock: string, H: string, M: string, S: string, tail: string)
    requires clock == H + ":" + M + ":" + S
    requires AllDigits(H) && |M| == 2 && |S| == 2
    ensures var s := clock + tail;
      && IndexOf(s, ':') == |H| && s[..|H|] == H
      && var rest := s[|H| + 1..];
         |rest| >= 5 && rest[..2] == M && rest[2] == ':' && rest[3..5] == S && rest[5..] == tail
  {
    DigitsHaveNoSeparator(H);
    var after := M + ":" + S + tail;
    var s := clock + tail;
    assert s == H + [':'] + after by {
      assert |s| == |H| + 1 + |after|;
      forall k | 0 <= k < |s| ensures s[k] == (H + [':'] + after)[k] {
        if k < |H| + 1 + 2 + 1 + 2 {
          assert s[k] == clock[k];
        }
      }
    }
    IndexOfFirst(H, ':', after);
    assert s[|H| + 1..] == after;
  }

  lemma {:induction false} IndexOfFirst(prefix: string, c: char, rest: string)
    requires c !in prefix
    ensures IndexOf(prefix + [c] + rest, c) == |prefix|
  {
    if prefix != [] {
      assert (prefix + [c] + rest)[1..] == prefix[1..] + [c] + rest;
      IndexOfFirst(prefix[1..], c, rest);
    } else {
      assert (prefix + [c] + rest)[0] == c;
    }
  }

  /** A position splits into hours, minutes, seconds and milliseconds. */
  lemma ClockArithmetic(millis: nat)
    ensures millis / 60000 == (millis / 1000) / 60
    ensures millis / 3600000 == (millis / 60000) / 60
    ensures ((millis / 3600000 * 60 + (millis / 60000) % 60) * 60 + (millis / 1000) % 60) * 1000 + millis % 1000 == millis
  {
    var t := millis / 1000;
    var q := millis / 60000;
    assert millis == q * 60000 + millis % 60000;
    assert millis % 60000 == (millis % 60000) / 1000 * 1000 + (millis % 60000) % 1000;
    assert millis == (q * 60 + (millis % 60000) / 1000) * 1000 + (millis % 60000) % 1000;
    assert t == q * 60 + (millis % 60000) / 1000;
    var h := millis / 3600000;
    assert millis == h * 3600000 + millis % 3600000;
    assert millis % 3600000 == (millis % 3600000) / 60000 * 60000 + (millis % 3600000) % 60000;
    assert millis == (h * 60 + (millis % 3600000) / 60000) * 60000 + (millis % 3600000) % 60000;
    assert q == h * 60 + (millis % 3600000) / 60000;
    assert t == (t / 60) * 60 + t % 60;
    assert q == (q / 60) * 60 + q % 60;
    assert millis == t * 1000 + millis % 1000;
  }

  lemma DigitsHaveNoSeparator(s: string)
    requires AllDigits(s)
    ensures ':' !in s && '.' !in s
  {
  }

  /** A non-negative number padded to two places reads back as itself. */
  lemma Pad2Numeral(n: nat)
    ensures IsNumeral(Pad2(n)) && NumeralValue(Pad2(n)) == n
    ensures n < 100 ==> |Pad2(n)| == 2
  {
    NatToStringReads(n);
    assert IntToString(n) == NatToString(n);
    PaddedNumeral(NatToString(n), 2);
    if n < 100 {
      PadTwoDigits(n);
    }
  }

  lemma ReadClockOf(h: nat, m: nat, sec: nat, tail: string)
    requires m < 60 && sec < 60
    ensures ReadDuration(ClockOf(h, m, sec) + tail)
         == if ReadFraction(tail).None? then None else Some(Whole(h, m, sec) + ReadFraction(tail).value)
  {
    ClockDigits(h, m, sec);
    ReadClockDigits(h, m, sec, tail);
  }

  lemma ClockDigits(h: nat, m: nat, sec: nat)
    requires m < 60 && sec < 60
    ensures IsNumeral(Pad2(h)) && NumeralValue(Pad2(h)) == h
    ensures |Pad2(m)| == 2 && AllDigits(Pad2(m)) && NumeralValue(Pad2(m)) == m
    ensures |Pad2(sec)| == 2 && AllDigits(Pad2(sec)) && NumeralValue(Pad2(sec)) == sec
  {
    Pad2Numeral(h);
    Pad2Numeral(m);
    Pad2Numeral(sec);
  }

  lemma ReadClockDigits(h: nat, m: nat, sec: nat, tail: string)
    requires m < 60 && sec < 60
    requires IsNumeral(Pad2(h)) && NumeralValue(Pad2(h)) == h
    requires |Pad2(m)| == 2 && AllDigits(Pad2(m)) && NumeralValue(Pad2(m)) == m
    requires |Pad2(sec)| == 2 && AllDigits(Pad2(sec)) && NumeralValue(Pad2(sec)) == sec
    ensures ReadDuration(ClockOf(h, m, sec) + tail)
         == if ReadFraction(tail).None? then None else Some(Whole(h, m, sec) + ReadFraction(tail).value)
  {
    ReadFields(ClockOf(h, m, sec), Pad2(h), Pad2(m), Pad2(sec), tail);
  }

  lemma ReadDotFraction(f: string)
    requires 1 <= |f| <= 3 && AllDigits(f)
    ensures ReadFraction("." + f) == Some(FractionMillis(|f|, NumeralValue(f)))
  {
    assert ("." + f)[1..] == f;
  }

  lemma ClockFields(millis: nat)
    ensures var h, m, sec := millis / 3600000, JsRem(millis / 60000, 60), JsRem(millis / 1000, 60);
      && 0 <= m < 60 && 0 <= sec < 60
      && Clock(millis) == ClockOf(h, m, sec)
      && Whole(h, m, sec) + millis % 1000 == millis
  {
    ClockArithmetic(millis);
  }

  /** The clock of a non-negative position, followed by a tail that reads
      as a fraction, reads back as the position without its milliseconds
      plus the fraction. */
  lemma ReadClock(millis: nat, tail: string, fraction: nat)
    requires ReadFraction(tail) == Some(fraction)
    ensures ReadDuration(Clock(millis) + tail) == Some(millis - millis % 1000 + fraction)
  {
    ClockFields(millis);
    ReadFieldsOf(millis / 3600000, JsRem(millis / 60000, 60), JsRem(millis / 1000, 60), tail, fraction);
    assert Whole(millis / 3600000, JsRem(millis / 60000, 60), JsRem(millis / 1000, 60)) + fraction
        == millis - millis % 1000 + fraction;
  }

  lemma ReadFieldsOf(h: nat, m: nat, sec: nat, tail: string, fraction: nat)
    requires m < 60 && sec < 60
    requires ReadFraction(tail) == Some(fraction)
    ensures ReadDuration(ClockOf(h, m, sec) + tail) == Some(Whole(h, m, sec) + fraction)
  {
    ReadClockOf(h, m, sec, tail);
    assert ReadFraction(tail).value == fraction;
  }

  /** A text that is the clock of a position and a tail reads back as the
      clock with that tail does. */
  lemma ReadText(text: string, millis: nat, tail: string, fraction: nat)
    requires text == Clock(millis) + tail
    requires ReadFraction(tail) == Some(fraction)
    ensures ReadDuration(text) == Some(millis - millis % 1000 + fraction)
  {
    ReadClock(millis, tail, fraction);
  }

  /** The decimal text of a remainder below 1000 has one to three digits. */
  lemma NarrowRemainder(r: nat)
    requires r < 1000
    ensures 1 <= |IntToString(r)| <= 3 && IsNumeral(IntToString(r)) && NumeralValue(IntToString(r)) == r
  {
    NatToStringReads(r);
    var s := IntToString(r);
    assert s == NatToString(r);
    if |s| > 3 {
      PowMonotone(3, |s| - 1);
    }
  }

  /** Below 1000 the number of digits follows the magnitude: one below 10,
      two below 100, three from 100 on. */
  lemma {:induction false} DigitCount(r: nat)
    requires r < 1000
    ensures |IntToString(r)| == if r < 10 then 1 else if r < 100 then 2 else 3
  {
    NarrowRemainder(r);
    NatToStringReads(r);
    var s := IntToString(r);
    assert s == NatToString(r);
    if |s| == 1 {
      assert Pow10(1) == 10;
    } else if |s| == 2 {
      assert Pow10(1) == 10 && Pow10(2) == 100;
    } else {
      assert Pow10(2) == 100;
    }
  }

  /** What follows the clock in the corrected text reads as the remainder. */
  lemma CorrectedTail(millis: nat) returns (tail: string)
    ensures MillisToDurationCorrected(millis) == Clock(millis) + tail
    ensures ReadFraction(tail) == Some(millis % 1000)
  {
    if millis % 1000 == 0 {
      tail := [];
      assert Clock(millis) + [] == Clock(millis);
    } else {
      tail := "." + PadStart(IntToString(millis % 1000), 3);
      CorrectedFraction(millis % 1000);
    }
  }

  lemma CorrectedFraction(r: nat)
    requires 0 < r < 1000
    ensures ReadFraction("." + PadStart(IntToString(r), 3)) == Some(r)
  {
    NarrowRemainder(r);
    var d := IntToString(r);
    var f := PadStart(d, 3);
    LeadingZerosIgnored(|f| - |d|, d);
    ReadDotFraction(f);
  }

  /** The corrected text reads back as the position itself, for every
      non-negative position, including those of 100 hours or more. */
  lemma CorrectedRoundTrip(millis: nat)
    ensures ReadDuration(MillisToDurationCorrected(millis)) == Some(millis)
  {
    CorrectedReadBack(millis, millis % 1000);
  }

  lemma CorrectedReadBack(millis: nat, r: nat)
    requires r == millis % 1000
    ensures ReadDuration(MillisToDurationCorrected(millis)) == Some(millis)
  {
    var tail := CorrectedTail(millis);
    ReadText(MillisToDurationCorrected(millis), millis, tail, r);
    assert millis - millis % 1000 + r == millis;
  }

  /** The value the text as written gives a remainder r below 1000: a
      single digit is read as hundreds and two digits as tens. */
  function ShiftedRemainder(r: nat): nat
  {
    if r == 0 || r >= 100 then r else if r >= 10 then r * 10 else r * 100
  }

  /** What follows the clock in the text as written reads as the shifted
      remainder. */
  lemma AsWrittenTail(millis: nat) returns (tail: string)
    ensures MillisToDuration(millis) == Clock(millis) + tail
    ensures ReadFraction(tail) == Some(ShiftedRemainder(millis % 1000))
  {
    if millis % 1000 == 0 {
      tail := [];
      assert Clock(millis) + [] == Clock(millis);
    } else {
      tail := "." + PadEnd(IntToString(millis % 1000), 3);
      AsWrittenFraction(millis % 1000);
    }
  }

  lemma AsWrittenFraction(r: nat)
    requires 0 < r < 1000
    ensures ReadFraction("." + PadEnd(IntToString(r), 3)) == Some(ShiftedRemainder(r))
  {
    NarrowRemainder(r);
    DigitCount(r);
    var d := IntToString(r);
    ReadDotFraction(PadEnd(d, 3));
    ZerosBehind(d);
  }

  /** Zeros padded behind one or two digits multiply their value by 100 or 10. */
  lemma ZerosBehind(d: string)
    requires 1 <= |d| <= 3 && AllDigits(d)
    ensures AllDigits(PadEnd(d, 3)) && NumeralValue(PadEnd(d, 3)) == FractionMillis(|d|, NumeralValue(d))
  {
    if |d| == 2 {
      assert PadEnd(d, 3) == d + ['0'];
      AppendZero(d);
    } else if |d| == 1 {
      assert PadEnd(d, 3) == d + ['0'] + ['0'];
      AppendZero(d);
      AppendZero(d + ['0']);
    }
  }

  /** A zero behind a run of digits multiplies its value by ten. */
  lemma AppendZero(s: string)
    requires AllDigits(s)
    ensures AllDigits(s + ['0']) && NumeralValue(s + ['0']) == 10 * NumeralValue(s)
  {
    assert (s + ['0'])[..|s|] == s;
  }

  /** The text as written reads back with the remainder r's digits shifted
      left to fill three places: one digit counts hundreds, two count tens. */
  lemma AsWrittenReadBack(millis: nat, r: nat)
    requires r == millis % 1000
    ensures ReadDuration(MillisToDuration(millis)) == Some(millis - r + ShiftedRemainder(r))
  {
    var tail := AsWrittenTail(millis);
    ReadAsWritten(millis, r, tail, ShiftedRemainder(r));
  }

  lemma ReadAsWritten(millis: nat, r: nat, tail: string, fraction: nat)
    requires r == millis % 1000
    requires MillisToDuration(millis) == Clock(millis) + tail
    requires ReadFraction(tail) == Some(fraction)
    ensures ReadDuration(MillisToDuration(millis)) == Some(millis - r + fraction)
  {
    ReadClock(millis, tail, fraction);
    RemainderNamed(millis, r, fraction);
  }

  /** The reading stated with the remainder named. A lemma of its own, so
      that the arithmetic stays out of the reading proof above. */
  lemma RemainderNamed(millis: int, r: int, fraction: int)
    requires r == millis % 1000
    ensures Some(millis - millis % 1000 + fraction) == Some(millis - r + fraction)
  {
  }

  /** The text as written denotes the position exactly when the remainder
      is 0 or at least 100 milliseconds. */
  lemma AsWrittenFaithfulIff(millis: nat)
    ensures ReadDuration(MillisToDuration(millis)) == Some(millis)
        <==> millis % 1000 == 0 || millis % 1000 >= 100
  {
    FaithfulForRemainder(millis, millis % 1000);
  }

  lemma FaithfulForRemainder(millis: nat, r: nat)
    requires r == millis % 1000
    ensures ReadDuration(MillisToDuration(millis)) == Some(millis) <==> r == 0 || r >= 100
  {
    AsWrittenReadBack(millis, r);
    ShiftedExactly(millis, r);
  }

  /** Shifting leaves a remainder unchanged exactly when it is 0 or has
      three digits. */
  lemma ShiftedExactly(millis: nat, r: nat)
    requires r == millis % 1000
    ensures Some(millis - r + ShiftedRemainder(r)) == Some(millis) <==> r == 0 || r >= 100
  {
  }

  /** Five, fifty and five hundred milliseconds all print as ".500", which
      reads back as five hundred. */
  lemma ShortRemaindersCollide()
    ensures MillisToDuration(5) == MillisToDuration(50) == MillisToDuration(500)
    ensures ReadDuration(MillisToDuration(5)) == Some(500)
  {
    ShortTexts();
    AsWrittenReadBack(5, 5);
    FiveShifted();
  }

  /** A single digit 5 is read as five hundred milliseconds. */
  lemma FiveShifted()
    ensures Some(5 - 5 + ShiftedRemainder(5)) == Some(500)
  {
  }

  lemma ShortTexts()
    ensures MillisToDuration(5) == MillisToDuration(50) == MillisToDuration(500) == ClockOf(0, 0, 0) + ".500"
  {
    SubSecondText(5);
    SubSecondText(50);
    SubSecondText(500);
    ShortDigits();
  }

  lemma ShortDigits()
    ensures PadEnd(IntToString(5), 3) == PadEnd(IntToString(50), 3) == PadEnd(IntToString(500), 3) == "500"
  {
    assert IntToString(5) == "5" && IntToString(50) == "50" && IntToString(500) == "500";
  }

  /** Below one second the text is a zero clock and the padded remainder. */
  lemma SubSecondText(millis: nat)
    requires 0 < millis < 1000
    ensures MillisToDuration(millis) == ClockOf(0, 0, 0) + ("." + PadEnd(IntToString(millis), 3))
  {
    SubSecondFields(millis);
  }

  lemma SubSecondFields(millis: nat)
    requires 0 < millis < 1000
    ensures millis / 3600000 == 0 && JsRem(millis / 60000, 60) == 0 && JsRem(millis / 1000, 60) == 0
    ensures JsRem(millis, 1000) == millis
  {
  }

  /** Whole seconds print without a fraction, and only they do. */
  lemma FractionOnlyWhenNeeded(millis: int)
    ensures '.' in MillisToDuration(millis) <==> JsRem(millis, 1000) != 0
    ensures '.' in MillisToDurationCorrected(millis) <==> JsRem(millis, 1000) != 0
  {
    var hours, minutes, seconds := millis / 3600000, JsRem(millis / 60000, 60), JsRem(millis / 1000, 60);
    NoDotInNumber(hours);
    NoDotInNumber(minutes);
    NoDotInNumber(seconds);
    assert Clock(millis) == Pad2(hours) + ":" + Pad2(minutes) + ":" + Pad2(seconds);
    assert '.' !in Clock(millis);
  }

  lemma NoDotInNumber(n: int)
    ensures '.' !in Pad2(n)
  {
    var s := IntToString(n);
    var digits := if n < 0 then NatToString(-n) else NatToString(n);
    NatToStringReads(if n < 0 then -n else n);
    DigitsHaveNoSeparator(digits);
    assert s == (if n < 0 then "-" else "") + digits;
    DigitsHaveNoSeparator(Zeros(|Pad2(n)| - |s|));
    assert Pad2(n) == Zeros(|Pad2(n)| - |s|) + s;
  }

  /** From 100 hours on the hour field has three digits or more: it is
      neither wrapped nor cut. */
  lemma HoursNeverCut(millis: int)
    requires millis >= 100 * 3600000
    ensures IndexOf(MillisToDuration(millis), ':') >= 3
  {
    var tail := AsWrittenTail(millis);
    ClockFields(millis);
    HourDigits(millis / 3600000);
    ClockIndex(millis / 3600000, JsRem(millis / 60000, 60), JsRem(millis / 1000, 60), tail);
  }

  /** The first ':' of a clock followed by anything ends the hour field. */
  lemma ClockIndex(h: nat, m: nat, sec: nat, tail: string)
    requires m < 60 && sec < 60
    ensures IndexOf(ClockOf(h, m, sec) + tail, ':') == |Pad2(h)|
  {
    ClockDigits(h, m, sec);
    SplitFields(ClockOf(h, m, sec), Pad2(h), Pad2(m), Pad2(sec), tail);
  }

  lemma HourDigits(h: nat)
    requires h >= 100
    ensures |Pad2(h)| >= 3 && AllDigits(Pad2(h))
  {
    NatToStringReads(h);
    assert IntToString(h) == NatToString(h);
    if |NatToString(h)| <= 2 {
      PowMonotone(|NatToString(h)|, 2);
    }
    Pad2Numeral(h);
  }

  // ---------------------------------------------------------------------
  // Session label

  /** The fields of a session the label shows. */
  datatype SessionInfo = SessionInfo(
    Type: string, Title: string, GrandparentTitle: string, ParentIndex: int, Index: int, Year: int)

  /** What getVideoName shows: an episode's show on one line, then its
      season/episode code and title; anything else as title and year. */
  datatype Label = EpisodeLabel(show: string, line: string) | PlainLabel(text: string)

  function VideoName(s: SessionInfo): (l: Label)
    ensures l.EpisodeLabel? <==> s.Type == "episode"
  {
    if s.Type == "episode" then
      EpisodeLabel(s.GrandparentTitle, "S" + Pad2(s.ParentIndex) + "E" + Pad2(s.Index) + " " + s.Title)
    else
      PlainLabel(s.Title + " (" + IntToString(s.Year) + ")")
  }

  /** For seasons and episodes 0..99 the episode line starts with a code of
      exactly six characters whose digits are the two numbers. */
  lemma EpisodeLineReadsBack(s: SessionInfo)
    requires s.Type == "episode" && 0 <= s.ParentIndex < 100 && 0 <= s.Index < 100
    ensures var line := VideoName(s).line;
      && |line| >= 7 && line[0] == 'S' && line[3] == 'E' && line[6] == ' '
      && IsNumeral(line[1..3]) && NumeralValue(line[1..3]) == s.ParentIndex
      && IsNumeral(line[4..6]) && NumeralValue(line[4..6]) == s.Index
      && line[7..] == s.Title
  {
    PadTwoDigits(s.ParentIndex);
    PadTwoDigits(s.Index);
    var line := VideoName(s).line;
    assert line[1..3] == Pad2(s.ParentIndex);
    assert line[4..6] == Pad2(s.Index);
  }

  // ---------------------------------------------------------------------
  // Start and end positions

  /** WithMillis(pos, value): the whole seconds of pos with value as its
      milliseconds, as the "+ms" fields compute the candidate position. */
  function WithMillis(pos: int, value: int): (r: int)
    requires 0 <= value <= 999
    ensures r / 1000 == pos / 1000 && r % 1000 == value
  {
    pos / 1000 * 1000 + value
  }

  /** The "+ms" field shows a non-negative candidate's milliseconds. */
  lemma MillisFieldShowsValue(pos: int, value: int)
    requires 0 <= value <= 999 && pos >= 0
    ensures JsRem(WithMillis(pos, value), 1000) == value
  {
  }

  /** The selected clip range. Every change goes through a guard that keeps
      the end more than 500 ms after the start. */
  class Positions {
    var startPosition: int
    var endPosition: int

    predicate Valid()
      reads this
    {
      endPosition - startPosition > 500
    }

    /** Selecting a session: the clip starts at its view offset and lasts a minute. */
    constructor (viewOffset: int)
      ensures startPosition == viewOffset && endPosition == viewOffset + 60000
      ensures Valid()
    {
      startPosition := viewOffset;
      endPosition := viewOffset + 60000;
    }

    /** Selecting another session resets both positions the same way. */
    method Select(viewOffset: int)
      modifies this
      ensures startPosition == viewOffset && endPosition == viewOffset + 60000
      ensures Valid()
    {
      startPosition := viewOffset;
      endPosition := viewOffset + 60000;
    }

    /** setBoundedStartPosition: takes the value only when it is more than
      500 ms before the end; the end never moves. */
    method SetBoundedStart(newValue: int)
      modifies this
      ensures startPosition == if newValue < old(endPosition) - 500 then newValue else old(startPosition)
      ensures endPosition == old(endPosition)
      ensures old(Valid()) ==> Valid()
      ensures startPosition != old(startPosition) ==> Valid()
    {
      if newValue < endPosition - 500 {
        startPosition := newValue;
      }
    }

    /** setBoundedEndPosition: takes the value only when it is more than
      500 ms after the start; the start never moves. */
    method SetBoundedEnd(newValue: int)
      modifies this
      ensures endPosition == if newValue > old(startPosition) + 500 then newValue else old(endPosition)
      ensures startPosition == old(startPosition)
      ensures old(Valid()) ==> Valid()
      ensures endPosition != old(endPosition) ==> Valid()
    {
      if newValue > startPosition + 500 {
        endPosition := newValue;
      }
    }

    /** The start "+ms" field. An entry that is not a number (None) passes
      the range test but ends as NaN, which the guard rejects; an entry
      outside 0..999 is ignored; otherwise the start's whole seconds with
      the entry as milliseconds go through the start guard. */
    method SetStartMillis(entry: Option<int>)
      modifies this
      ensures entry.Some? && 0 <= entry.value <= 999 && WithMillis(old(startPosition), entry.value) < old(endPosition) - 500
        ==> startPosition == WithMillis(old(startPosition), entry.value)
      ensures !(entry.Some? && 0 <= entry.value <= 999 && WithMillis(old(startPosition), entry.value) < old(endPosition) - 500)
        ==> startPosition == old(startPosition)
      ensures endPosition == old(endPosition)
      ensures old(Valid()) ==> Valid()
    {
      if entry.None? {
        return;
      }
      var value := entry.value;
      if value > 999 || value < 0 {
        return;
      }
      var startPositionWithoutMillis := startPosition / 1000 * 1000;
      SetBoundedStart(startPositionWithoutMillis + value);
    }

    /** The end "+ms" field, symmetric to the start one. */
    method SetEndMillis(entry: Option<int>)
      modifies this
      ensures entry.Some? && 0 <= entry.value <= 999 && WithMillis(old(endPosition), entry.value) > old(startPosition) + 500
        ==> endPosition == WithMillis(old(endPosition), entry.value)
      ensures !(entry.Some? && 0 <= entry.value <= 999 && WithMillis(old(endPosition), entry.value) > old(startPosition) + 500)
        ==> endPosition == old(endPosition)
      ensures startPosition == old(startPosition)
      ensures old(Valid()) ==> Valid()
    {
      if entry.None? {
        return;
      }
      var value := entry.value;
      if value > 999 || value < 0 {
        return;
      }
      var endPositionWithoutMillis := endPosition / 1000 * 1000;
      SetBoundedEnd(endPositionWithoutMillis + value);
    }
  }
}
