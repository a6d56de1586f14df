/** Timestamps of the protocol: RFC 3339 UTC text with a trimmed fraction of 100-nanosecond ticks. */
module Timestamps {
  import opened Texts
  import opened Json
  import opened JsonRoundTrip

  /** A UTC instant by its calendar fields; `offset` is the offset from UTC in minutes it was given with. */
  datatype Timestamp = Timestamp(
    year: nat, month: nat, day: nat, hour: nat, minute: nat, second: nat, ticks: nat, offset: int)

  predicate LeapYear(year: nat) { year % 4 == 0 && (year % 100 != 0 || year % 400 == 0) }

  function DaysInMonth(year: nat, month: nat): nat {
    if month == 2 then (if LeapYear(year) then 29 else 28)
    else if month == 4 || month == 6 || month == 9 || month == 11 then 30
    else 31
  }

  function DaysOf(year: nat): nat {
    var spring := DaysInMonth(year, 1) + DaysInMonth(year, 2) + DaysInMonth(year, 3) + DaysInMonth(year, 4);
    var summer := DaysInMonth(year, 5) + DaysInMonth(year, 6) + DaysInMonth(year, 7) + DaysInMonth(year, 8);
    var autumn := DaysInMonth(year, 9) + DaysInMonth(year, 10) + DaysInMonth(year, 11) + DaysInMonth(year, 12);
    spring + summer + autumn
  }

  /** The days of the years before this one. */
  function DaysBefore(year: nat): nat {
    if year <= 1 then 0 else DaysBefore(year - 1) + DaysOf(year - 1)
  }

  lemma Multiples(y: nat)
    ensures (y % 400 == 0 ==> y % 100 == 0) && (y % 100 == 0 ==> y % 4 == 0)
  {
    assert y % 100 == 0 ==> y == 4 * (25 * (y / 100));
    assert y % 400 == 0 ==> y == 100 * (4 * (y / 400));
  }

  lemma Quotient(y: nat, k: nat)
    requires y >= 1 && k >= 1
    ensures y / k == (y - 1) / k + (if y % k == 0 then 1 else 0)
  {
    var q, r := (y - 1) / k, (y - 1) % k;
    assert y - 1 == q * k + r;
    if r == k - 1 { QuotientIs(y, k, q + 1, 0); } else { QuotientIs(y, k, q, r + 1); }
  }

  lemma QuotientIs(y: int, k: int, q: int, r: int)
    requires 0 <= r < k && y == q * k + r
    ensures y / k == q && y % k == r
  {
    var d := y / k - q;
    assert d * k == r - y % k;
    assert (d >= 1 ==> d * k >= k) && (d <= -1 ==> d * k <= -k);
  }

  lemma LeapStep(y: nat)
    requires y >= 1
    ensures y / 4 - y / 100 + y / 400 == (y - 1) / 4 - (y - 1) / 100 + (y - 1) / 400 + (if LeapYear(y) then 1 else 0)
  {
    Quotient(y, 4);
    Quotient(y, 100);
    Quotient(y, 400);
    Multiples(y);
  }

  /** The calendar of the timestamps is the Gregorian one: every fourth year is longer, but for three in four centuries. */
  lemma {:induction false} GregorianCalendar(year: nat)
    requires year >= 1
    ensures DaysBefore(year) == 365 * (year - 1) + (year - 1) / 4 - (year - 1) / 100 + (year - 1) / 400
  {
    if year > 1 {
      GregorianCalendar(year - 1);
      assert DaysOf(year - 1) == if LeapYear(year - 1) then 366 else 365;
      LeapStep(year - 1);
    }
  }

  /** A `DateTimeOffset` of .NET. */
  predicate IsInstant(t: Timestamp) {
    && 1 <= t.year <= 9999 && 1 <= t.month <= 12 && 1 <= t.day <= DaysInMonth(t.year, t.month)
    && t.hour < 24 && t.minute < 60 && t.second < 60 && t.ticks < 1000_0000
  }

  /** The last `width` decimal digits of `n`. */
  function Padded(n: nat, width: nat): (t: Text)
    ensures |t| == width && Digits(t)
  {
    if width == 0 then [] else Padded(n / 10, width - 1) + [n % 10 + 0x30]
  }

  function TrimZeros(t: Text): (r: Text)
    ensures |r| <= |t| && r == t[..|r|]
  {
    if t != [] && t[|t| - 1] == 0x30 then TrimZeros(t[..|t| - 1]) else t
  }

  const DASH: Unit := 0x2D
  const LETTER_T: Unit := 0x54
  const LETTER_Z: Unit := 0x5A

  function FractionOf(ticks: nat): Text {
    if ticks == 0 then [] else [POINT] + TrimZeros(Padded(ticks, 7))
  }

  /** `Time`: `yyyy-MM-dd'T'HH:mm:ss`, then the fraction without its trailing zeros, then `Z`. */
  function TimeText(t: Timestamp): Text {
    PrefixText(t) + (FractionOf(t.ticks) + [LETTER_Z])
  }

  function PrefixText(t: Timestamp): (r: Text)
    ensures |r| == 19
  {
    Padded(t.year, 4) + [DASH] + Padded(t.month, 2) + [DASH] + Padded(t.day, 2) + [LETTER_T]
    + Padded(t.hour, 2) + [COLON] + Padded(t.minute, 2) + [COLON] + Padded(t.second, 2)
  }

  function ReadFraction(f: Text): Option<nat> {
    if f == [] then Some(0)
    else if f[0] != POINT || |f| < 2 || |f| > 8 || !Digits(f[1..]) then None
    else
      var scaled := DigitsValue(f[1..]) * Power(10, 8 - |f|);
      if scaled < 0 then None else Some(scaled)
  }

  function Number(t: Text, from: nat, width: nat): (n: Option<nat>)
    requires from + width <= |t|
  {
    if Digits(t[from..from + width]) && DigitsValue(t[from..from + width]) >= 0
    then Some(DigitsValue(t[from..from + width])) else None
  }

  /** Reading that form back; the result has offset zero. */
  function ParseTime(t: Text): Option<Timestamp> {
    if |t| < 20 || t[|t| - 1] != LETTER_Z then None
    else if t[4] != DASH || t[7] != DASH || t[10] != LETTER_T || t[13] != COLON || t[16] != COLON then None
    else
      var year, month, day := Number(t, 0, 4), Number(t, 5, 2), Number(t, 8, 2);
      var hour, minute, second := Number(t, 11, 2), Number(t, 14, 2), Number(t, 17, 2);
      var ticks := ReadFraction(t[19..|t| - 1]);
      if year.None? || month.None? || day.None? || hour.None? || minute.None? || second.None? || ticks.None? then None
      else
        var r := Timestamp(year.value, month.value, day.value, hour.value, minute.value, second.value, ticks.value, 0);
        if IsInstant(r) then Some(r) else None
  }

  lemma {:induction false} PaddedValue(n: nat, width: nat)
    requires n < Power(10, width)
    ensures DigitsValue(Padded(n, width)) == n
  {
    if width > 0 {
      assert Padded(n, width)[..width - 1] == Padded(n / 10, width - 1);
      PaddedValue(n / 10, width - 1);
    }
  }

  lemma {:induction false} PowerPositive(width: nat)
    ensures Power(10, width) > 0
  {
    if width > 0 { PowerPositive(width - 1); }
  }

  lemma {:induction false} TrimmedValue(t: Text)
    requires Digits(t)
    ensures DigitsValue(TrimZeros(t)) * Power(10, |t| - |TrimZeros(t)|) == DigitsValue(t)
  {
    if t != [] && t[|t| - 1] == 0x30 {
      var s := t[..|t| - 1];
      TrimmedValue(s);
      var k := |s| - |TrimZeros(s)|;
      assert Power(10, k + 1) == 10 * Power(10, k);
      assert DigitsValue(TrimZeros(s)) * Power(10, k + 1) == 10 * (DigitsValue(TrimZeros(s)) * Power(10, k));
    } else {
      assert DigitsValue(t) * 1 == DigitsValue(t);
    }
  }

  lemma {:induction false} TrimmedEmpty(t: Text)
    requires Digits(t) && TrimZeros(t) == []
    ensures DigitsValue(t) == 0
  {
    TrimmedValue(t);
  }

  lemma FractionReads(ticks: nat)
    requires ticks < 1000_0000
    ensures ReadFraction(FractionOf(ticks)) == Some(ticks)
  {
    if ticks > 0 {
      var digits := Padded(ticks, 7);
      assert Power(10, 7) == 1000_0000 by { PowersOfTen(); }
      PaddedValue(ticks, 7);
      var kept := TrimZeros(digits);
      if kept == [] { TrimmedEmpty(digits); assert false; }
      TrimmedValue(digits);
      var f := FractionOf(ticks);
      assert f[1..] == kept;
      assert 8 - |f| == |digits| - |kept|;
    }
  }

  lemma PowersOfTen()
    ensures Power(10, 2) == 100 && Power(10, 4) == 10000 && Power(10, 7) == 1000_0000
  {
    assert Power(10, 1) == 10;
    assert Power(10, 2) == 100;
    assert Power(10, 3) == 1000;
    assert Power(10, 4) == 10000;
    assert Power(10, 5) == 100000;
    assert Power(10, 6) == 1000000;
  }

  lemma NumberReads(t: Text, from: nat, n: nat, width: nat)
    requires from + width <= |t| && t[from..from + width] == Padded(n, width) && n < Power(10, width)
    ensures Number(t, from, width) == Some(n)
  {
    PaddedValue(n, width);
  }

  lemma PrefixFields(t: Timestamp)
    ensures var p := PrefixText(t);
      && p[0..4] == Padded(t.year, 4) && p[5..7] == Padded(t.month, 2) && p[8..10] == Padded(t.day, 2)
      && p[11..13] == Padded(t.hour, 2) && p[14..16] == Padded(t.minute, 2) && p[17..19] == Padded(t.second, 2)
      && p[4] == DASH && p[7] == DASH && p[10] == LETTER_T && p[13] == COLON && p[16] == COLON
  {
  }

  lemma SameSlices(text: Text, p: Text)
    requires |p| == 19 && |text| >= 19 && text[..19] == p
    ensures text[0..4] == p[0..4] && text[5..7] == p[5..7] && text[8..10] == p[8..10]
    ensures text[11..13] == p[11..13] && text[14..16] == p[14..16] && text[17..19] == p[17..19]
    ensures forall i :: 0 <= i < 19 ==> text[i] == p[i]
  {
    assert forall i :: 0 <= i < 19 ==> text[..19][i] == text[i];
  }

  lemma PrefixReads(t: Timestamp, text: Text)
    requires IsInstant(t) && |text| >= 19 && text[..19] == PrefixText(t)
    ensures Number(text, 0, 4) == Some(t.year) && Number(text, 5, 2) == Some(t.month)
      && Number(text, 8, 2) == Some(t.day)
    ensures Number(text, 11, 2) == Some(t.hour) && Number(text, 14, 2) == Some(t.minute)
      && Number(text, 17, 2) == Some(t.second)
    ensures text[4] == DASH && text[7] == DASH && text[10] == LETTER_T && text[13] == COLON && text[16] == COLON
  {
    PowersOfTen();
    PrefixFields(t);
    SameSlices(text, PrefixText(t));
    NumberReads(text, 0, t.year, 4);
    NumberReads(text, 5, t.month, 2);
    NumberReads(text, 8, t.day, 2);
    NumberReads(text, 11, t.hour, 2);
    NumberReads(text, 14, t.minute, 2);
    NumberReads(text, 17, t.second, 2);
  }

  /** Every UTC instant is read back from its text, to the tick. */
  lemma TimeRoundTrip(t: Timestamp)
    requires IsInstant(t) && t.offset == 0
    ensures ParseTime(TimeText(t)) == Some(t)
  {
    var text := TimeText(t);
    var f := FractionOf(t.ticks);
    assert text[..19] == PrefixText(t);
    assert text[19..] == f + [LETTER_Z];
    assert text[19..|text| - 1] == f;
    PrefixReads(t, text);
    FractionReads(t.ticks);
  }
}
