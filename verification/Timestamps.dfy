/** Stored timestamps are compared as text. The two layouts that occur in the tasks table are
    "2006-01-02 15:04:05.000" (written now) and "2006-01-02 15:04:05" (written by older versions). */
module Timestamps {

  // ---------------------------------------------------------------- text order

  /** Byte order of two strings: -1, 0 or 1. */
  function Compare(a: string, b: string): int {
    if a == [] then (if b == [] then 0 else -1)
    else if b == [] then 1
    else if a[0] < b[0] then -1
    else if a[0] > b[0] then 1
    else Compare(a[1..], b[1..])
  }

  function Sign(x: int): int { if x < 0 then -1 else if x > 0 then 1 else 0 }

  lemma {:induction false} CompareConcat(a: string, b: string, c: string, d: string)
    requires |a| == |c|
    ensures Compare(a + b, c + d) == if Compare(a, c) != 0 then Compare(a, c) else Compare(b, d)
  {
    if a == [] {
      assert a + b == b && c + d == d;
    } else {
      CompareConcat(a[1..], b, c[1..], d);
      assert (a + b)[1..] == a[1..] + b && (c + d)[1..] == c[1..] + d;
    }
  }

  lemma {:induction false} CompareSame(a: string)
    ensures Compare(a, a) == 0
  {
    if a != [] {
      CompareSame(a[1..]);
    }
  }

  function Digit(n: nat): char
    requires n < 10
  {
    '0' + n as char
  }

  function Pow10(w: nat): nat
    ensures Pow10(w) >= 1
  {
    if w == 0 then 1 else 10 * Pow10(w - 1)
  }

  /** n in decimal with exactly w digits. */
  function Digits(n: nat, w: nat): string
    ensures |Digits(n, w)| == w
  {
    if w == 0 then [] else Digits(n / 10, w - 1) + [Digit(n % 10)]
  }

  /** The number that a string of digits denotes. */
  function Value(s: string): int {
    if s == [] then 0 else 10 * Value(s[..|s| - 1]) + (s[|s| - 1] as int - '0' as int)
  }

  /** They denote n, and are digits. */
  lemma {:induction false} DigitsDenote(n: nat, w: nat)
    requires n < Pow10(w)
    ensures Value(Digits(n, w)) == n && forall i :: 0 <= i < w ==> '0' <= Digits(n, w)[i] <= '9'
  {
    if w > 0 {
      DigitsDenote(n / 10, w - 1);
      assert Digits(n, w)[..w - 1] == Digits(n / 10, w - 1);
    }
  }

  lemma CompareDigit(m: nat, n: nat)
    requires m < 10 && n < 10
    ensures Compare([Digit(m)], [Digit(n)]) == Sign(m - n)
  {
    assert [Digit(m)][1..] == [] && [Digit(n)][1..] == [];
  }

  /** Fixed-width decimals sort like their numbers. */
  lemma {:induction false} CompareDigits(m: nat, n: nat, w: nat)
    requires m < Pow10(w) && n < Pow10(w)
    ensures Compare(Digits(m, w), Digits(n, w)) == Sign(m - n)
  {
    if w > 0 {
      CompareDigits(m / 10, n / 10, w - 1);
      CompareConcat(Digits(m / 10, w - 1), [Digit(m % 10)], Digits(n / 10, w - 1), [Digit(n % 10)]);
      CompareDigit(m % 10, n % 10);
    }
  }

  // ---------------------------------------------------------------- fields

  /** A numeric field of a layout: its value, its width, and the text before it. */
  datatype Field = Field(value: nat, width: nat, before: string)

  function Render(fs: seq<Field>): string {
    if fs == [] then [] else fs[0].before + (Digits(fs[0].value, fs[0].width) + Render(fs[1..]))
  }

  function CompareFields(a: seq<Field>, b: seq<Field>): int {
    if a == [] then (if b == [] then 0 else -1)
    else if b == [] then 1
    else if a[0].value != b[0].value then Sign(a[0].value - b[0].value)
    else CompareFields(a[1..], b[1..])
  }

  ghost predicate SameLayout(a: seq<Field>, b: seq<Field>) {
    && (forall i :: 0 <= i < |a| ==> 0 < a[i].width && a[i].value < Pow10(a[i].width))
    && (forall i :: 0 <= i < |b| ==> 0 < b[i].width && b[i].value < Pow10(b[i].width))
    && (forall i :: 0 <= i < |a| && i < |b| ==> a[i].width == b[i].width && a[i].before == b[i].before)
  }

  /** Two renderings of one layout, or of a layout and its prefix, sort field by field. */
  lemma {:induction false} RenderOrder(a: seq<Field>, b: seq<Field>)
    requires SameLayout(a, b)
    ensures Compare(Render(a), Render(b)) == CompareFields(a, b)
  {
    if a != [] && b != [] {
      var x, y := a[0], b[0];
      RenderOrder(a[1..], b[1..]);
      CompareSame(x.before);
      CompareDigits(x.value, y.value, x.width);
      CompareConcat(x.before, Digits(x.value, x.width) + Render(a[1..]),
                    y.before, Digits(y.value, y.width) + Render(b[1..]));
      CompareConcat(Digits(x.value, x.width), Render(a[1..]), Digits(y.value, y.width), Render(b[1..]));
    } else if a != [] {
      assert |Digits(a[0].value, a[0].width)| > 0;
    } else if b != [] {
      assert |Digits(b[0].value, b[0].width)| > 0;
    }
  }

  // ---------------------------------------------------------------- calendar

  /** A UTC date and time of day with millisecond precision. */
  datatype Civil = Civil(year: nat, month: nat, day: nat, hour: nat, minute: nat, second: nat, milli: nat)

  predicate Leap(y: nat) { y % 4 == 0 && (y % 100 != 0 || y % 400 == 0) }

  function DaysIn(y: nat, m: nat): nat {
    if m == 2 then (if Leap(y) then 29 else 28)
    else if m == 4 || m == 6 || m == 9 || m == 11 then 30 else 31
  }

  function DaysBeforeMonth(y: nat, m: nat): nat {
    if m <= 1 then 0 else DaysBeforeMonth(y, m - 1) + DaysIn(y, m - 1)
  }

  function DaysBeforeYear(y: nat): nat {
    if y == 0 then 0 else DaysBeforeYear(y - 1) + (if Leap(y - 1) then 366 else 365)
  }

  predicate Valid(c: Civil) {
    && c.year <= 9999 && 1 <= c.month <= 12 && 1 <= c.day <= DaysIn(c.year, c.month)
    && c.hour < 24 && c.minute < 60 && c.second < 60 && c.milli < 1000
  }

  function DayNumber(c: Civil): int { DaysBeforeYear(c.year) + DaysBeforeMonth(c.year, c.month) + c.day }

  function MilliOfDay(c: Civil): int { ((c.hour * 60 + c.minute) * 60 + c.second) * 1000 + c.milli }

  /** Milliseconds on a linear time line. */
  function Instant(c: Civil): int { DayNumber(c) * 86_400_000 + MilliOfDay(c) }

  lemma {:induction false} MonthsAscend(y: nat, m: nat, n: nat)
    requires 1 <= m < n
    ensures DaysBeforeMonth(y, m) + DaysIn(y, m) <= DaysBeforeMonth(y, n)
    decreases n
  {
    if m < n - 1 {
      MonthsAscend(y, m, n - 1);
    }
  }

  lemma {:induction false} YearsAscend(y: nat, z: nat)
    requires y < z
    ensures DaysBeforeYear(y) + (if Leap(y) then 366 else 365) <= DaysBeforeYear(z)
    decreases z
  {
    if y < z - 1 {
      YearsAscend(y, z - 1);
    }
  }

  lemma MonthsAddUp(y: nat)
    ensures DaysBeforeMonth(y, 12) == 306 + DaysIn(y, 2)
  {
    assert DaysBeforeMonth(y, 2) == 31;
    assert DaysBeforeMonth(y, 4) == 62 + DaysIn(y, 2);
    assert DaysBeforeMonth(y, 6) == 123 + DaysIn(y, 2);
    assert DaysBeforeMonth(y, 8) == 184 + DaysIn(y, 2);
    assert DaysBeforeMonth(y, 10) == 245 + DaysIn(y, 2);
  }

  lemma YearHolds(c: Civil)
    requires Valid(c)
    ensures 1 <= DaysBeforeMonth(c.year, c.month) + c.day <= if Leap(c.year) then 366 else 365
  {
    var y := c.year;
    MonthsAddUp(y);
    if c.month < 12 {
      MonthsAscend(y, c.month, 12);
    }
  }

  function CompareDates(a: Civil, b: Civil): int {
    if a.year != b.year then Sign(a.year - b.year)
    else if a.month != b.month then Sign(a.month - b.month)
    else Sign(a.day - b.day)
  }

  /** From the year down to the second. */
  function CompareSeconds(a: Civil, b: Civil): int {
    if CompareDates(a, b) != 0 then CompareDates(a, b)
    else if a.hour != b.hour then Sign(a.hour - b.hour)
    else if a.minute != b.minute then Sign(a.minute - b.minute)
    else Sign(a.second - b.second)
  }

  lemma DateOrder(a: Civil, b: Civil)
    requires Valid(a) && Valid(b)
    ensures CompareDates(a, b) == Sign(DayNumber(a) - DayNumber(b))
  {
    YearHolds(a);
    YearHolds(b);
    if a.year < b.year {
      YearsAscend(a.year, b.year);
    } else if b.year < a.year {
      YearsAscend(b.year, a.year);
    } else if a.month < b.month {
      MonthsAscend(a.year, a.month, b.month);
    } else if b.month < a.month {
      MonthsAscend(a.year, b.month, a.month);
    }
  }

  /** Reading date and time from the year down is reading the time line. */
  lemma CivilOrder(a: Civil, b: Civil)
    requires Valid(a) && Valid(b)
    ensures Sign(Instant(a) - Instant(b)) ==
              if CompareSeconds(a, b) != 0 then CompareSeconds(a, b) else Sign(a.milli - b.milli)
  {
    DateOrder(a, b);
    assert 0 <= MilliOfDay(a) < 86_400_000 && 0 <= MilliOfDay(b) < 86_400_000;
  }

  /** A year has 365 days, or 366 in leap years, of which there are 97 in 400 years. */
  lemma YearLength(y: nat)
    ensures DaysBeforeMonth(y, 13) == DaysBeforeYear(y + 1) - DaysBeforeYear(y)
    ensures DaysBeforeMonth(y, 13) == DaysBeforeMonth(y, 12) + 31
    ensures DaysBeforeMonth(y, 13) == if (y % 4 == 0 && y % 100 != 0) || y % 400 == 0 then 366 else 365
  {
    MonthsAddUp(y);
  }

  /** The following day. */
  function NextDay(c: Civil): Civil {
    if c.day < DaysIn(c.year, c.month) then c.(day := c.day + 1)
    else if c.month < 12 then c.(month := c.month + 1, day := 1)
    else c.(year := c.year + 1, month := 1, day := 1)
  }

  /** Days follow each other without gaps: the next one is 24 hours later. */
  lemma DaysFollow(c: Civil)
    requires Valid(c)
    ensures Instant(NextDay(c)) == Instant(c) + 24 * 60 * 60 * 1000
  {
    YearLength(c.year);
  }

  // ---------------------------------------------------------------- layouts

  function DateFields(c: Civil): seq<Field> { [Field(c.year, 4, ""), Field(c.month, 2, "-"), Field(c.day, 2, "-")] }

  function TimeFields(c: Civil): seq<Field> {
    [Field(c.hour, 2, " "), Field(c.minute, 2, ":"), Field(c.second, 2, ":")]
  }

  function SecondFields(c: Civil): seq<Field> { DateFields(c) + TimeFields(c) }

  function MilliField(c: Civil): seq<Field> { [Field(c.milli, 3, ".")] }

  /** formatTime. */
  function Format(c: Civil): string { Render(SecondFields(c) + MilliField(c)) }

  /** The layout of rows written by older versions, which kept whole seconds. */
  function FormatSeconds(c: Civil): string { Render(SecondFields(c)) }

  lemma Regroup(a: string, b: string, c: string, d: string)
    ensures a + (b + (c + d)) == (a + (b + c)) + d
  {
  }

  lemma {:induction false} RenderConcat(a: seq<Field>, b: seq<Field>)
    ensures Render(a + b) == Render(a) + Render(b)
  {
    if a == [] {
      assert a + b == b;
    } else {
      RenderConcat(a[1..], b);
      assert (a + b)[0] == a[0] && (a + b)[1..] == a[1..] + b;
      Regroup(a[0].before, Digits(a[0].value, a[0].width), Render(a[1..]), Render(b));
    }
  }

  lemma RenderThree(a: Field, b: Field, c: Field)
    ensures Render([a, b, c]) == a.before + Digits(a.value, a.width) + b.before + Digits(b.value, b.width)
                                 + c.before + Digits(c.value, c.width)
  {
    assert [a, b, c][1..] == [b, c] && [b, c][1..] == [c] && [c][1..] == [];
    assert Render([c]) == c.before + (Digits(c.value, c.width) + []);
    assert Render([b, c]) == b.before + (Digits(b.value, b.width) + Render([c]));
  }

  function DateText(c: Civil): string { Digits(c.year, 4) + "-" + Digits(c.month, 2) + "-" + Digits(c.day, 2) }

  function TimeText(c: Civil): string { Digits(c.hour, 2) + ":" + Digits(c.minute, 2) + ":" + Digits(c.second, 2) }

  /** The two layouts: date and time of day, and the milliseconds or nothing. */
  lemma LayoutsAre(c: Civil)
    ensures FormatSeconds(c) == DateText(c) + " " + TimeText(c)
    ensures Format(c) == DateText(c) + " " + TimeText(c) + "." + Digits(c.milli, 3)
  {
    RenderConcat(DateFields(c), TimeFields(c));
    RenderConcat(SecondFields(c), MilliField(c));
    RenderThree(DateFields(c)[0], DateFields(c)[1], DateFields(c)[2]);
    RenderThree(TimeFields(c)[0], TimeFields(c)[1], TimeFields(c)[2]);
    assert MilliField(c)[1..] == [];
    assert Render(MilliField(c)) == "." + Digits(c.milli, 3);
  }

  lemma CompareFieldsConcat(a: seq<Field>, b: seq<Field>, c: seq<Field>, d: seq<Field>)
    requires |a| == |c|
    ensures CompareFields(a + b, c + d) == if CompareFields(a, c) != 0 then CompareFields(a, c) else CompareFields(b, d)
  {
    if a == [] {
      assert a + b == b && c + d == d;
    } else {
      CompareFieldsConcat(a[1..], b, c[1..], d);
      assert (a + b)[1..] == a[1..] + b && (c + d)[1..] == c[1..] + d;
    }
  }

  lemma CompareThree(a: seq<Field>, b: seq<Field>)
    requires |a| == |b| == 3
    ensures CompareFields(a, b) == if a[0].value != b[0].value then Sign(a[0].value - b[0].value)
                                   else if a[1].value != b[1].value then Sign(a[1].value - b[1].value)
                                   else Sign(a[2].value - b[2].value)
  {
    var a1, b1 := a[1..], b[1..];
    var a2, b2 := a1[1..], b1[1..];
    assert a2[1..] == [] && b2[1..] == [];
    assert a1[0] == a[1] && b1[0] == b[1] && a2[0] == a[2] && b2[0] == b[2];
    assert CompareFields(a2, b2) == Sign(a[2].value - b[2].value);
  }

  lemma SecondFieldsOrder(a: Civil, b: Civil)
    ensures CompareFields(SecondFields(a), SecondFields(b)) == CompareSeconds(a, b)
  {
    CompareFieldsConcat(DateFields(a), TimeFields(a), DateFields(b), TimeFields(b));
    CompareThree(DateFields(a), DateFields(b));
    CompareThree(TimeFields(a), TimeFields(b));
  }

  lemma FieldsFit(a: Civil, b: Civil)
    requires Valid(a) && Valid(b)
    ensures SameLayout(SecondFields(a), SecondFields(b))
    ensures SameLayout(SecondFields(a) + MilliField(a), SecondFields(b) + MilliField(b))
    ensures SameLayout(SecondFields(a), SecondFields(b) + MilliField(b))
  {
    assert Pow10(2) == 100 && Pow10(3) == 1000 && Pow10(4) == 10000;
  }

  /** The order of two formatted timestamps is the order of their instants. */
  lemma FormatOrder(a: Civil, b: Civil)
    requires Valid(a) && Valid(b)
    ensures Compare(Format(a), Format(b)) == Sign(Instant(a) - Instant(b))
  {
    FieldsFit(a, b);
    RenderOrder(SecondFields(a) + MilliField(a), SecondFields(b) + MilliField(b));
    CompareFieldsConcat(SecondFields(a), MilliField(a), SecondFields(b), MilliField(b));
    SecondFieldsOrder(a, b);
    assert MilliField(a)[1..] == [] && MilliField(b)[1..] == [];
    CivilOrder(a, b);
  }

  /** An old row against a formatted clock: it sorts by its instant, and before on a tie. */
  lemma FormatSecondsOrder(a: Civil, now: Civil)
    requires Valid(a) && Valid(now) && a.milli == 0
    ensures Compare(FormatSeconds(a), Format(now)) == if Instant(a) <= Instant(now) then -1 else 1
  {
    FieldsFit(a, now);
    assert SecondFields(a) + [] == SecondFields(a);
    RenderOrder(SecondFields(a), SecondFields(now) + MilliField(now));
    CompareFieldsConcat(SecondFields(a), [], SecondFields(now), MilliField(now));
    SecondFieldsOrder(a, now);
    CivilOrder(a, now);
    assert CompareSeconds(a, now) == 0 ==> Instant(a) <= Instant(now);
  }

  lemma OldRowsOrder(a: Civil, b: Civil)
    requires Valid(a) && Valid(b) && a.milli == b.milli == 0
    ensures Compare(FormatSeconds(a), FormatSeconds(b)) == Sign(Instant(a) - Instant(b))
  {
    FieldsFit(a, b);
    RenderOrder(SecondFields(a), SecondFields(b));
    SecondFieldsOrder(a, b);
    CivilOrder(a, b);
  }

  /** A stored timestamp in either layout. */
  datatype Stored = Millis(at: Civil) | Seconds(at: Civil)

  predicate WellFormed(t: Stored) { Valid(t.at) && (t.Seconds? ==> t.at.milli == 0) }

  function Text(t: Stored): string { if t.Millis? then Format(t.at) else FormatSeconds(t.at) }

  /** `next_attempt_at <= now`, decided on the text, is right for both layouts: it holds exactly when
      the stored instant is at or before the clock truncated to milliseconds. */
  lemma DueByText(t: Stored, now: Civil)
    requires WellFormed(t) && Valid(now)
    ensures Compare(Text(t), Format(now)) <= 0 <==> Instant(t.at) <= Instant(now)
  {
    if t.Millis? {
      FormatOrder(t.at, now);
    } else {
      FormatSecondsOrder(t.at, now);
    }
  }

  /** The order among rows of different layouts differs from time order in exactly one way: an old
      row sorts before a new row of the same instant. */
  lemma RowOrder(t: Stored, u: Stored)
    requires WellFormed(t) && WellFormed(u)
    ensures Compare(Text(t), Text(u)) ==
            if Instant(t.at) != Instant(u.at) then Sign(Instant(t.at) - Instant(u.at))
            else if t.Seconds? && u.Millis? then -1 else if t.Millis? && u.Seconds? then 1 else 0
  {
    if t.Millis? && u.Millis? {
      FormatOrder(t.at, u.at);
    } else if t.Seconds? && u.Millis? {
      FormatSecondsOrder(t.at, u.at);
    } else if t.Millis? {
      FormatSecondsOrder(u.at, t.at);
      CompareFlips(Text(t), Text(u));
    } else {
      OldRowsOrder(t.at, u.at);
    }
  }

  lemma {:induction false} CompareFlips(a: string, b: string)
    ensures Compare(a, b) == -Compare(b, a)
  {
    if a != [] && b != [] {
      CompareFlips(a[1..], b[1..]);
    }
  }
}
