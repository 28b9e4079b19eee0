/** Timestamps as text: RFC 3339 date-times at one fixed numeric offset, compared as strings by the database and
    by the poller's watermark. */
module Timestamps {
  import opened Prelude
  import Json
  import opened Canonical

  /** The fields of a date-time, with any number of fraction digits. */
  datatype Stamp = Stamp(year: nat, month: nat, day: nat, hour: nat, minute: nat, second: nat, frac: string)

  // ---------------------------------------------------------------- time

  predicate IsLeap(year: nat) {
    year % 4 == 0 && (year % 100 != 0 || year % 400 == 0)
  }

  function DaysIn(year: nat, month: nat): nat {
    if month == 2 then (if IsLeap(year) then 29 else 28)
    else if month == 4 || month == 6 || month == 9 || month == 11 then 30 else 31
  }

  function DaysBeforeMonth(year: nat, month: nat): nat {
    if month <= 1 then 0 else DaysBeforeMonth(year, month - 1) + DaysIn(year, month - 1)
  }

  function DaysBeforeYear(year: nat): nat {
    if year == 0 then 0 else DaysBeforeYear(year - 1) + (if IsLeap(year - 1) then 366 else 365)
  }

  predicate AllDigits(t: string) {
    forall i :: 0 <= i < |t| ==> Json.IsDigit(t[i])
  }

  predicate Valid(s: Stamp) {
    && s.year <= 9999 && 1 <= s.month <= 12 && 1 <= s.day <= DaysIn(s.year, s.month)
    && s.hour < 24 && s.minute < 60 && s.second < 60 && AllDigits(s.frac)
  }

  function DayNumber(s: Stamp): nat {
    DaysBeforeYear(s.year) + DaysBeforeMonth(s.year, s.month) + s.day
  }

  /** Whole seconds at the offset, from the start of year 0. */
  function Seconds(s: Stamp): int {
    ((DayNumber(s) * 24 + s.hour) * 60 + s.minute) * 60 + s.second
  }

  function DigitValue(c: char): int {
    c as int - '0' as int
  }

  function Fraction(t: string): real {
    if t == "" then 0.0 else (DigitValue(t[0]) as real + Fraction(t[1..])) / 10.0
  }

  function Time(s: Stamp): real {
    Seconds(s) as real + Fraction(s.frac)
  }

  // ---------------------------------------------------------------- text

  function Two(n: nat): string
    requires n < 100
  {
    [Json.Digit(n / 10), Json.Digit(n % 10)]
  }

  function Four(n: nat): string
    requires n < 10000
  {
    Two(n / 100) + Two(n % 100)
  }

  /** The fraction, if it has digits, and the offset. */
  function Tail(frac: string, offset: string): string {
    if frac == "" then offset else "." + (frac + offset)
  }

  function Clock(s: Stamp, offset: string): string
    requires Valid(s)
  {
    Two(s.hour) + (":" + (Two(s.minute) + (":" + (Two(s.second) + Tail(s.frac, offset)))))
  }

  function Text(s: Stamp, offset: string): string
    requires Valid(s)
  {
    Four(s.year) + ("-" + (Two(s.month) + ("-" + (Two(s.day) + ("T" + Clock(s, offset))))))
  }

  // ---------------------------------------------------------------- comparing text

  /** Texts with first parts of one length compare by those, then by the rest. */
  lemma {:induction false} LessOfPair(p: string, q: string, s: string, t: string)
    requires |p| == |q|
    ensures Less(p + s, q + t) <==> Less(p, q) || (p == q && Less(s, t))
  {
    if p == "" {
      assert p + s == s && q + t == t;
    } else {
      assert (p + s)[0] == p[0] && (q + t)[0] == q[0];
      assert (p + s)[1..] == p[1..] + s && (q + t)[1..] == q[1..] + t;
      LessOfPair(p[1..], q[1..], s, t);
      assert p == [p[0]] + p[1..] && q == [q[0]] + q[1..];
    }
  }

  lemma LessTwo(a: nat, b: nat)
    requires a < 100 && b < 100
    ensures Less(Two(a), Two(b)) <==> a < b
    ensures Two(a) == Two(b) <==> a == b
  {
    var p, q, u, v := Json.Digit(a / 10), Json.Digit(b / 10), Json.Digit(a % 10), Json.Digit(b % 10);
    assert Two(a) == [p] + [u] && Two(b) == [q] + [v];
    LessOne(p, q);
    LessOne(u, v);
    LessOfPair([p], [q], [u], [v]);
    assert Two(a) == Two(b) ==> Two(a)[0] == Two(b)[0] && Two(a)[1] == Two(b)[1];
  }

  lemma LessOne(a: char, b: char)
    ensures Less([a], [b]) <==> a < b
  {
    assert [a][1..] == "" && [b][1..] == "";
  }

  lemma LessFour(a: nat, b: nat)
    requires a < 10000 && b < 10000
    ensures Less(Four(a), Four(b)) <==> a < b
    ensures Four(a) == Four(b) <==> a == b
  {
    LessTwo(a / 100, b / 100);
    LessTwo(a % 100, b % 100);
    LessOfPair(Two(a / 100), Two(b / 100), Two(a % 100), Two(b % 100));
    assert Four(a)[..2] == Two(a / 100) && Four(a)[2..] == Two(a % 100);
    assert Four(b)[..2] == Two(b / 100) && Four(b)[2..] == Two(b % 100);
  }

  lemma LessOfSeparated(sep: char, s: string, t: string)
    ensures Less([sep] + s, [sep] + t) <==> Less(s, t)
  {
    LessOfPair([sep], [sep], s, t);
    assert [sep][1..] == "";
  }

  lemma LessOfField(a: nat, b: nat, sep: char, s: string, t: string)
    requires a < 100 && b < 100
    ensures Less(Two(a) + ([sep] + s), Two(b) + ([sep] + t)) <==> a < b || (a == b && Less(s, t))
  {
    LessTwo(a, b);
    LessOfPair(Two(a), Two(b), [sep] + s, [sep] + t);
    LessOfSeparated(sep, s, t);
  }

  // ---------------------------------------------------------------- fractions

  lemma {:induction false} FractionBounds(t: string)
    requires AllDigits(t)
    ensures 0.0 <= Fraction(t) < 1.0
  {
    if t != "" {
      assert AllDigits(t[1..]);
      FractionBounds(t[1..]);
      assert Json.IsDigit(t[0]);
      assert 0 <= DigitValue(t[0]) <= 9;
    }
  }

  /** A later value, or the same value with more digits. */
  predicate FractionBefore(a: string, b: string) {
    Fraction(a) < Fraction(b) || (Fraction(a) == Fraction(b) && |a| < |b|)
  }

  /** Digit strings followed by one text that sorts before every digit. */
  lemma {:induction false} LessOfDigits(a: string, b: string, offset: string)
    requires AllDigits(a) && AllDigits(b) && offset != "" && offset[0] < '0'
    ensures Less(a + offset, b + offset) <==> FractionBefore(a, b)
  {
    FractionBounds(a);
    FractionBounds(b);
    if a == "" && b == "" {
      assert a + offset == offset && b + offset == offset;
      NotLessItself(offset);
    } else if a == "" {
      assert a + offset == offset && (b + offset)[0] == b[0] && Json.IsDigit(b[0]);
    } else if b == "" {
      assert b + offset == offset && (a + offset)[0] == a[0] && Json.IsDigit(a[0]);
    } else {
      assert (a + offset)[0] == a[0] && (b + offset)[0] == b[0];
      assert (a + offset)[1..] == a[1..] + offset && (b + offset)[1..] == b[1..] + offset;
      assert Json.IsDigit(a[0]) && Json.IsDigit(b[0]);
      FractionBounds(a[1..]);
      FractionBounds(b[1..]);
      LessOfDigits(a[1..], b[1..], offset);
      FirstDigitDecides(DigitValue(a[0]), DigitValue(b[0]), Fraction(a[1..]), Fraction(b[1..]));
    }
  }

  lemma FirstDigitDecides(d: int, e: int, x: real, y: real)
    requires 0.0 <= x < 1.0 && 0.0 <= y < 1.0
    ensures d < e ==> (d as real + x) / 10.0 < (e as real + y) / 10.0
    ensures d > e ==> (d as real + x) / 10.0 > (e as real + y) / 10.0
    ensures d == e ==> ((d as real + x) / 10.0 < (e as real + y) / 10.0 <==> x < y)
    ensures d == e ==> ((d as real + x) / 10.0 == (e as real + y) / 10.0 <==> x == y)
  {
    assert d < e ==> d as real + x < e as real + y;
    assert d > e ==> d as real + x > e as real + y;
  }

  lemma {:induction false} NotLessItself(a: string)
    ensures !Less(a, a)
  {
    if a != "" {
      NotLessItself(a[1..]);
    }
  }

  /** A numeric offset starts with a sign, which sorts before the point and before every digit. */
  predicate Numeric(offset: string) {
    offset != "" && (offset[0] == '+' || offset[0] == '-')
  }

  lemma LessOfTail(a: string, b: string, offset: string)
    requires AllDigits(a) && AllDigits(b) && Numeric(offset)
    ensures Less(Tail(a, offset), Tail(b, offset)) <==> FractionBefore(a, b)
  {
    FractionBounds(a);
    FractionBounds(b);
    if a == "" && b == "" {
      NotLessItself(offset);
    } else if a != "" && b != "" {
      LessOfSeparated('.', a + offset, b + offset);
      LessOfDigits(a, b, offset);
    }
  }

  // ---------------------------------------------------------------- the calendar

  predicate ClockBefore(a: Stamp, b: Stamp) {
    a.hour < b.hour || (a.hour == b.hour && (a.minute < b.minute || (a.minute == b.minute &&
      (a.second < b.second || (a.second == b.second && FractionBefore(a.frac, b.frac))))))
  }

  predicate DateBefore(a: Stamp, b: Stamp) {
    a.year < b.year || (a.year == b.year && (a.month < b.month || (a.month == b.month && a.day < b.day)))
  }

  predicate SameDate(a: Stamp, b: Stamp) {
    a.year == b.year && a.month == b.month && a.day == b.day
  }

  lemma LessOfClock(a: Stamp, b: Stamp, offset: string)
    requires Valid(a) && Valid(b) && Numeric(offset)
    ensures Less(Clock(a, offset), Clock(b, offset)) <==> ClockBefore(a, b)
  {
    var s, t := Two(a.second) + Tail(a.frac, offset), Two(b.second) + Tail(b.frac, offset);
    LessOfTail(a.frac, b.frac, offset);
    LessTwo(a.second, b.second);
    LessOfPair(Two(a.second), Two(b.second), Tail(a.frac, offset), Tail(b.frac, offset));
    LessOfField(a.minute, b.minute, ':', s, t);
    LessOfField(a.hour, b.hour, ':', Two(a.minute) + (":" + s), Two(b.minute) + (":" + t));
  }

  lemma LessOfText(a: Stamp, b: Stamp, offset: string)
    requires Valid(a) && Valid(b) && Numeric(offset)
    ensures Less(Text(a, offset), Text(b, offset)) <==> DateBefore(a, b) || (SameDate(a, b) && ClockBefore(a, b))
  {
    LessOfClock(a, b, offset);
    var s, t := Two(a.day) + ("T" + Clock(a, offset)), Two(b.day) + ("T" + Clock(b, offset));
    LessOfField(a.day, b.day, 'T', Clock(a, offset), Clock(b, offset));
    LessOfField(a.month, b.month, '-', s, t);
    var u, v := Two(a.month) + ("-" + s), Two(b.month) + ("-" + t);
    LessOfSeparated('-', u, v);
    LessFour(a.year, b.year);
    LessOfPair(Four(a.year), Four(b.year), "-" + u, "-" + v);
  }

  lemma {:induction false} MonthsGrow(year: nat, m: nat, n: nat)
    requires 1 <= m < n <= 12
    ensures DaysBeforeMonth(year, m) + DaysIn(year, m) <= DaysBeforeMonth(year, n)
  {
    if m < n - 1 {
      MonthsGrow(year, m, n - 1);
    }
  }

  lemma YearLength(year: nat)
    ensures DaysBeforeMonth(year, 12) + DaysIn(year, 12) == if IsLeap(year) then 366 else 365
  {
    assert DaysBeforeMonth(year, 2) == 31;
    assert DaysBeforeMonth(year, 4) == DaysBeforeMonth(year, 3) + 31;
    assert DaysBeforeMonth(year, 6) == DaysBeforeMonth(year, 5) + 31;
    assert DaysBeforeMonth(year, 8) == DaysBeforeMonth(year, 7) + 31;
    assert DaysBeforeMonth(year, 10) == DaysBeforeMonth(year, 9) + 30;
    assert DaysBeforeMonth(year, 12) == DaysBeforeMonth(year, 11) + 30;
  }

  lemma {:induction false} YearsGrow(y: nat, z: nat)
    requires y < z
    ensures DaysBeforeYear(y) + (if IsLeap(y) then 366 else 365) <= DaysBeforeYear(z)
  {
    if y < z - 1 {
      YearsGrow(y, z - 1);
    }
  }

  /** A later date has a larger day number. */
  lemma DatesGrow(a: Stamp, b: Stamp)
    requires Valid(a) && Valid(b) && DateBefore(a, b)
    ensures DayNumber(a) < DayNumber(b)
  {
    if a.year < b.year {
      YearsGrow(a.year, b.year);
      YearLength(a.year);
      if a.month < 12 {
        MonthsGrow(a.year, a.month, 12);
      }
    } else if a.month < b.month {
      MonthsGrow(a.year, a.month, b.month);
    }
  }

  /** Whole seconds compare as the fields before the fraction do. */
  lemma SecondsGrow(a: Stamp, b: Stamp)
    requires Valid(a) && Valid(b)
    ensures DateBefore(a, b) ==> Seconds(a) < Seconds(b)
    ensures SameDate(a, b) ==> Seconds(b) - Seconds(a) == ((b.hour - a.hour) * 60 + (b.minute - a.minute)) * 60 + b.second - a.second
  {
    if DateBefore(a, b) {
      DatesGrow(a, b);
    }
  }

  /** The fields in order decide the order in time, and among equal times the number of fraction digits does. */
  predicate Before(a: Stamp, b: Stamp) {
    DateBefore(a, b) || (SameDate(a, b) && ClockBefore(a, b))
  }

  lemma BeforeIsInTime(a: Stamp, b: Stamp)
    requires Valid(a) && Valid(b) && Before(a, b)
    ensures Time(a) < Time(b) || (Time(a) == Time(b) && |a.frac| < |b.frac|)
  {
    SecondsGrow(a, b);
    FractionBounds(a.frac);
    FractionBounds(b.frac);
    if Seconds(a) != Seconds(b) {
      assert Seconds(a) + 1 <= Seconds(b);
    }
  }

  lemma OneIsBefore(a: Stamp, b: Stamp)
    requires Valid(a) && Valid(b)
    ensures Before(a, b) || Before(b, a) || (Time(a) == Time(b) && |a.frac| == |b.frac|)
  {
  }

  /** At one fixed numeric offset, with any fraction digits, text order is order in time; of two spellings of one
      instant the one with fewer fraction digits sorts first. */
  lemma TextOrderIsTimeOrder(a: Stamp, b: Stamp, offset: string)
    requires Valid(a) && Valid(b) && Numeric(offset)
    ensures Less(Text(a, offset), Text(b, offset)) <==> Time(a) < Time(b) || (Time(a) == Time(b) && |a.frac| < |b.frac|)
  {
    LessOfText(a, b, offset);
    OneIsBefore(a, b);
    if Before(a, b) {
      BeforeIsInTime(a, b);
    } else if Before(b, a) {
      BeforeIsInTime(b, a);
    }
  }

  /** The offset must be numeric: with `Z` a fraction sorts before the whole second it follows. */
  lemma ZuluSortsFractionsFirst(a: Stamp, frac: string)
    requires Valid(a) && a.frac == "" && frac != "" && AllDigits(frac)
    ensures var b := a.(frac := frac); Less(Text(b, "Z"), Text(a, "Z")) && Time(a) <= Time(b)
  {
    var b := a.(frac := frac);
    FractionBounds(frac);
    var s, t := Tail(b.frac, "Z"), Tail(a.frac, "Z");
    assert Less(s, t);
    LessOfPair(Two(a.second), Two(a.second), s, t);
    LessOfField(a.minute, a.minute, ':', Two(a.second) + s, Two(a.second) + t);
    LessOfField(a.hour, a.hour, ':', Two(a.minute) + (":" + (Two(a.second) + s)), Two(a.minute) + (":" + (Two(a.second) + t)));
    LessOfField(a.day, a.day, 'T', Clock(b, "Z"), Clock(a, "Z"));
    LessOfField(a.month, a.month, '-', Two(a.day) + ("T" + Clock(b, "Z")), Two(a.day) + ("T" + Clock(a, "Z")));
    var u, v := Two(a.month) + ("-" + (Two(a.day) + ("T" + Clock(b, "Z")))), Two(a.month) + ("-" + (Two(a.day) + ("T" + Clock(a, "Z"))));
    LessOfSeparated('-', u, v);
    LessOfPair(Four(a.year), Four(a.year), "-" + u, "-" + v);
  }
}
