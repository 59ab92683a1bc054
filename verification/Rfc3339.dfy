/**
 The text of an instant in time.RFC3339Nano, in UTC: the fraction of a second loses its trailing
 zeros and disappears with the last one. Parse is the reading of such a text. It leaves out the
 numeric zones and decimal commas that time.Parse also takes, since a text that has them is never
 the text its instant is written as.
 */
module Rfc3339 {
  import opened Schema
  import opened Calendar

  // ----- Decimal numbers -----

  predicate IsDigit(c: char) {
    '0' <= c <= '9'
  }

  predicate AllDigits(text: string) {
    forall i :: 0 <= i < |text| ==> IsDigit(text[i])
  }

  /** A number in at least `width` digits. */
  function Padded(n: nat, width: nat): (text: string)
    ensures |text| >= width && AllDigits(text)
    decreases n + width
  {
    if n == 0 && width == 0 then ""
    else Padded(n / 10, if width == 0 then 0 else width - 1) + ['0' + (n % 10) as char]
  }

  function Value(text: string): nat
    requires AllDigits(text)
  {
    if text == "" then 0 else Value(text[..|text| - 1]) * 10 + (text[|text| - 1] - '0') as int
  }

  function Power10(k: nat): nat {
    if k == 0 then 1 else 10 * Power10(k - 1)
  }

  lemma {:induction false} PaddedValue(n: nat, width: nat)
    ensures Value(Padded(n, width)) == n
    decreases n + width
  {
    if n > 0 || width > 0 {
      var w := if width == 0 then 0 else width - 1;
      PaddedValue(n / 10, w);
      var text := Padded(n, width);
      assert text[..|text| - 1] == Padded(n / 10, w);
    }
  }

  lemma {:induction false} PaddedLength(n: nat, width: nat)
    ensures |Padded(n, width)| == width <==> n < Power10(width)
    decreases n + width
  {
    if width > 0 {
      PaddedLength(n / 10, width - 1);
    }
  }

  // ----- Fractions of a second -----

  function WithoutZeros(text: string): (r: string)
    ensures |r| <= |text|
    ensures AllDigits(text) ==> AllDigits(r)
  {
    if text != "" && text[|text| - 1] == '0' then WithoutZeros(text[..|text| - 1]) else text
  }

  /** The first nine digits, with zeros for those that are missing. */
  function NineDigits(digits: string): (r: string)
    ensures |r| == 9
    ensures AllDigits(digits) ==> AllDigits(r)
    decreases 9 - |digits|
  {
    if |digits| >= 9 then digits[..9] else NineDigits(digits + "0")
  }

  function FractionText(nanos: int): (text: string)
    requires 0 <= nanos < SECOND
    ensures nanos == 0 <==> text == ""
    ensures text != "" ==> text[0] == '.' && AllDigits(text[1..])
  {
    if nanos == 0 then "" else "." + WithoutZeros(Padded(nanos, 9))
  }

  function FractionValue(text: string): (nanos: Option<int>)
  {
    if text == "" then Some(0)
    else if text[0] == '.' && |text| > 1 && AllDigits(text[1..]) then Some(Value(NineDigits(text[1..])))
    else None
  }

  lemma {:induction false} ZerosComeBack(text: string)
    requires |text| <= 9
    ensures NineDigits(WithoutZeros(text)) == NineDigits(text)
    decreases |text|
  {
    if text != "" && text[|text| - 1] == '0' {
      var shorter := text[..|text| - 1];
      ZerosComeBack(shorter);
      assert text == shorter + "0";
    }
  }

  lemma {:induction false} OnlyZeros(text: string)
    requires AllDigits(text) && WithoutZeros(text) == ""
    ensures Value(text) == 0
  {
    if text != "" { OnlyZeros(text[..|text| - 1]); }
  }

  lemma Billion()
    ensures Power10(9) == SECOND && Power10(4) == 10_000 && Power10(2) == 100
  {
    assert Power10(1) == 10 && Power10(2) == 100 && Power10(4) == 10_000;
    assert Power10(6) == 100 * Power10(4) && Power10(8) == 100 * Power10(6);
  }

  lemma FractionRoundTrip(nanos: int)
    requires 0 <= nanos < SECOND
    ensures FractionValue(FractionText(nanos)) == Some(nanos) && |FractionText(nanos)| <= 10
  {
    hide Padded;
    if nanos > 0 {
      var digits := Padded(nanos, 9);
      Billion();
      PaddedLength(nanos, 9);
      PaddedValue(nanos, 9);
      ZerosComeBack(digits);
      if WithoutZeros(digits) == "" { OnlyZeros(digits); }
      var text := FractionText(nanos);
      assert text[1..] == WithoutZeros(digits);
      assert NineDigits(digits) == digits;
    }
  }

  // ----- Date and time of day -----

  function YearText(year: int): string {
    if year < 0 then "-" + Padded(-year, 4) else Padded(year, 4)
  }

  function DateText(d: Date): string
    requires ValidDate(d)
  {
    YearText(d.year) + "-" + Padded(d.month, 2) + "-" + Padded(d.day, 2)
  }

  function ClockText(c: Clock): string
    requires ValidClock(c)
  {
    Padded(c.hour, 2) + ":" + Padded(c.minute, 2) + ":" + Padded(c.second, 2)
  }

  function ReadDate(text: string): (d: Option<Date>)
    requires |text| == 10
    ensures d.Some? ==> ValidDate(d.value) && 0 <= d.value.year
  {
    if !AllDigits(text[..4]) || text[4] != '-' || !AllDigits(text[5..7]) || text[7] != '-' ||
       !AllDigits(text[8..]) then None
    else
      var d := Date(Value(text[..4]), Value(text[5..7]), Value(text[8..]));
      if ValidDate(d) then Some(d) else None
  }

  function ReadClock(text: string, nanos: int): (c: Option<Clock>)
    requires |text| == 8
    ensures c.Some? ==> ValidClock(c.value)
  {
    if !AllDigits(text[..2]) || text[2] != ':' || !AllDigits(text[3..5]) || text[5] != ':' ||
       !AllDigits(text[6..]) then None
    else
      var c := Clock(Value(text[..2]), Value(text[3..5]), Value(text[6..]), nanos);
      if ValidClock(c) then Some(c) else None
  }

  lemma TwoDigits(n: nat)
    requires n < 100
    ensures |Padded(n, 2)| == 2 && AllDigits(Padded(n, 2)) && Value(Padded(n, 2)) == n
  {
    Billion();
    PaddedLength(n, 2);
    PaddedValue(n, 2);
  }

  lemma DateRoundTrip(d: Date)
    requires ValidDate(d) && 0 <= d.year <= 9999
    ensures |DateText(d)| == 10 && ReadDate(DateText(d)) == Some(d)
  {
    hide Padded, Leap, MonthLength;
    assert d.day < 100 by { MonthBound(d); }
    Billion();
    PaddedLength(d.year, 4);
    PaddedValue(d.year, 4);
    TwoDigits(d.month);
    TwoDigits(d.day);
    var y, m, n := Padded(d.year, 4), Padded(d.month, 2), Padded(d.day, 2);
    var text := DateText(d);
    assert text == y + "-" + m + "-" + n;
    assert text[..4] == y && text[5..7] == m && text[8..] == n;
  }

  lemma MonthBound(d: Date)
    requires ValidDate(d)
    ensures 1 <= d.day <= 31
  {
  }

  lemma ClockRoundTrip(c: Clock)
    requires ValidClock(c)
    ensures |ClockText(c)| == 8 && ReadClock(ClockText(c), c.nanos) == Some(c)
  {
    hide Padded;
    TwoDigits(c.hour);
    TwoDigits(c.minute);
    TwoDigits(c.second);
    var h, m, n := Padded(c.hour, 2), Padded(c.minute, 2), Padded(c.second, 2);
    var text := ClockText(c);
    assert text == h + ":" + m + ":" + n;
    assert text[..2] == h && text[3..5] == m && text[6..] == n;
  }

  /** Years before 0 and after 9999 are written so that no four-digit year can be read from them. */
  lemma FarYearsUnreadable(d: Date)
    requires ValidDate(d) && !(0 <= d.year <= 9999)
    ensures |DateText(d)| >= 10 && ReadDate(DateText(d)[..10]) == None
  {
    hide Padded, Leap, MonthLength;
    var text := DateText(d);
    if d.year < 0 {
      assert text[0] == '-' && text[..10][..4][0] == '-';
    } else {
      Billion();
      PaddedLength(d.year, 4);
      assert text[4] == Padded(d.year, 4)[4] && IsDigit(Padded(d.year, 4)[4]);
    }
  }

  // ----- Instants -----

  function Format(t: Time): string {
    var date, clock := DateOf(t / DAY), ClockOf(t % DAY);
    DateText(date) + ("T" + (ClockText(clock) + (FractionText(clock.nanos) + "Z")))
  }

  function Parse(text: string): Option<Time> {
    if |text| < 20 || text[10] != 'T' || text[|text| - 1] != 'Z' then None
    else
      var date := ReadDate(text[..10]);
      var nanos := FractionValue(text[19..|text| - 1]);
      if date.None? || nanos.None? then None
      else
        var clock := ReadClock(text[11..19], nanos.value);
        if clock.None? then None else Some(Instant(date.value, clock.value))
  }

  function Year(t: Time): int {
    DateOf(t / DAY).year
  }

  lemma Parts(a: string, b: string, c: string)
    requires |a| == 10 && |b| == 8
    ensures var text := a + ("T" + (b + (c + "Z")));
      && |text| == 20 + |c| && text[..10] == a && text[10] == 'T' && text[11..19] == b
      && text[19..|text| - 1] == c && text[|text| - 1] == 'Z'
  {
  }

  /** Reading what was written gives the instant back exactly when its year has four digits. */
  lemma ParseFormat(t: Time)
    ensures Parse(Format(t)) == if 0 <= Year(t) <= 9999 then Some(t) else None
    ensures 0 <= Year(t) <= 9999 ==> 20 <= |Format(t)| <= 30
  {
    hide DateOf, ClockOf, DateText, ClockText, FractionText, ReadDate, ReadClock, FractionValue, Instant;
    var date, clock := DateOf(t / DAY), ClockOf(t % DAY);
    if 0 <= date.year <= 9999 {
      DateRoundTrip(date);
      ClockRoundTrip(clock);
      FractionRoundTrip(clock.nanos);
      Parts(DateText(date), ClockText(clock), FractionText(clock.nanos));
      InstantExact(t, date, clock);
    } else {
      FarYearsUnreadable(date);
      assert Format(t)[..10] == DateText(date)[..10];
    }
  }

  predicate IsTimeChar(c: char) {
    IsDigit(c) || c == '-' || c == 'T' || c == ':' || c == '.' || c == 'Z'
  }

  lemma FormatChars(t: Time)
    ensures forall i :: 0 <= i < |Format(t)| ==> IsTimeChar(Format(t)[i])
  {
    hide DateOf, ClockOf, Padded, FractionText;
    var date, clock := DateOf(t / DAY), ClockOf(t % DAY);
    var fraction := FractionText(clock.nanos);
    if fraction != "" { assert fraction == [fraction[0]] + fraction[1..]; }
  }
}
