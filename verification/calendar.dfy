/** The calendar behind timestamps, and the text of a timestamp field by field. */
module Calendar {
  import opened Prelude
  import opened Timestamps
  import Json

  // ---------------------------------------------------------------- days

  lemma Fourths(n: nat)
    ensures (n + 4) / 4 == (n + 3) / 4 + if n % 4 == 0 then 1 else 0
  {
  }

  lemma Hundredths(n: nat)
    ensures (n + 100) / 100 == (n + 99) / 100 + if n % 100 == 0 then 1 else 0
  {
  }

  lemma FourHundredths(n: nat)
    ensures (n + 400) / 400 == (n + 399) / 400 + if n % 400 == 0 then 1 else 0
  {
  }

  lemma CenturyIsFourth(n: nat)
    requires n % 100 == 0
    ensures n % 4 == 0
  {
    var q, d, r := n / 100, n / 4, n % 4;
    assert n == 100 * q && n == 4 * d + r;
    assert r == 4 * (25 * q - d);
  }

  lemma FourthCenturyIsCentury(n: nat)
    requires n % 400 == 0
    ensures n % 100 == 0
  {
    var q, d, r := n / 400, n / 100, n % 100;
    assert n == 400 * q && n == 100 * d + r;
    assert r == 100 * (4 * q - d);
  }

  lemma LeapMeans(n: nat)
    ensures (if IsLeap(n) then 1 else 0)
      == (if n % 4 == 0 then 1 else 0) - (if n % 100 == 0 then 1 else 0) + (if n % 400 == 0 then 1 else 0)
  {
    if n % 100 == 0 {
      CenturyIsFourth(n);
    }
    if n % 400 == 0 {
      FourthCenturyIsCentury(n);
    }
  }

  /** The days before a year: 365 each, and one more for every fourth year but of the centuries only every fourth. */
  lemma {:induction false} YearsAre(year: nat)
    ensures DaysBeforeYear(year) == 365 * year + (year + 3) / 4 - (year + 99) / 100 + (year + 399) / 400
  {
    if year > 0 {
      YearsAre(year - 1);
      Fourths(year - 1);
      Hundredths(year - 1);
      FourHundredths(year - 1);
      LeapMeans(year - 1);
    }
  }

  /** The lengths of the months, and that they add up to the year. */
  lemma MonthsAre(year: nat, month: nat)
    requires 1 <= month <= 12
    ensures month != 2 ==> DaysIn(year, month) == [31, 0, 31, 30, 31, 30, 31, 31, 30, 31, 30, 31][month - 1]
    ensures DaysIn(year, 2) == 28 + (DaysBeforeYear(year + 1) - DaysBeforeYear(year) - 365)
    ensures DaysBeforeYear(year) + DaysBeforeMonth(year, 13) == DaysBeforeYear(year + 1)
  {
    YearLength(year);
  }

  lemma YearLength(year: nat)
    ensures DaysBeforeMonth(year, 13) == if IsLeap(year) then 366 else 365
  {
    var leap := if IsLeap(year) then 1 else 0;
    assert DaysBeforeMonth(year, 1) == 0;
    assert DaysBeforeMonth(year, 2) == 31;
    assert DaysBeforeMonth(year, 3) == 59 + leap;
    assert DaysBeforeMonth(year, 4) == 90 + leap;
    assert DaysBeforeMonth(year, 5) == 120 + leap;
    assert DaysBeforeMonth(year, 6) == 151 + leap;
    assert DaysBeforeMonth(year, 7) == 181 + leap;
    assert DaysBeforeMonth(year, 8) == 212 + leap;
    assert DaysBeforeMonth(year, 9) == 243 + leap;
    assert DaysBeforeMonth(year, 10) == 273 + leap;
    assert DaysBeforeMonth(year, 11) == 304 + leap;
    assert DaysBeforeMonth(year, 12) == 334 + leap;
  }

  /** Every moment of the calendar from year 0 to 9999 can be written. */
  lemma MomentsAreValid(s: Stamp)
    ensures Valid(s) <==>
      && s.year < 10000 && s.month in {1, 2, 3, 4, 5, 6, 7, 8, 9, 10, 11, 12} && 0 < s.day < DaysIn(s.year, s.month) + 1
      && s.hour <= 23 && s.minute <= 59 && s.second <= 59
      && forall i :: 0 <= i < |s.frac| ==> 48 <= s.frac[i] as int <= 57
  {
  }

  // ---------------------------------------------------------------- seconds and fractions

  /** Days are 24 hours of 60 minutes of 60 seconds, and the time of day starts at midnight. */
  lemma SecondsAre(s: Stamp, t: Stamp)
    requires s.frac == t.frac
    ensures Time(t) - Time(s)
      == ((DayNumber(t) - DayNumber(s)) * 86400 + (t.hour - s.hour) * 3600 + (t.minute - s.minute) * 60 + (t.second - s.second)) as real
  {
    assert Seconds(s) == DayNumber(s) * 86400 + s.hour * 3600 + s.minute * 60 + s.second;
    assert Seconds(t) == DayNumber(t) * 86400 + t.hour * 3600 + t.minute * 60 + t.second;
  }

  /** The first digit after the point counts tenths, and everything behind it a tenth of what it would alone. */
  lemma TenthsAre(d: char, t: string)
    ensures Fraction("") == 0.0
    ensures 10.0 * Fraction([d] + t) == (d as int - 48) as real + Fraction(t)
  {
    assert ([d] + t)[1..] == t;
  }

  // ---------------------------------------------------------------- text

  lemma TwoReads(n: nat)
    requires n < 100
    ensures |Two(n)| == 2 && AllDigits(Two(n)) && Json.ReadNat(Two(n)) == n
  {
    var t := Two(n);
    assert Json.ReadNat(t[..1]) == Json.ReadNat(t[..1][..0]) * 10 + n / 10;
    assert t[..1][..0] == [] && t[..1][0] == t[0];
  }

  lemma FourReads(n: nat)
    requires n < 10000
    ensures |Four(n)| == 4 && AllDigits(Four(n)) && Json.ReadNat(Four(n)) == n
  {
    var t := Four(n);
    TwoReads(n / 100);
    TwoReads(n % 100);
    assert t[..3][..2] == Two(n / 100);
    assert t[3] == Two(n % 100)[1] && t[..3][2] == Two(n % 100)[0];
    assert Two(n % 100)[..1] == [t[2]] && [t[2]][..0] == [];
  }

  /** The text of a timestamp, read field by field (section 5.6 of RFC 3339). */
  lemma TextReadsBack(s: Stamp, offset: string)
    requires Valid(s)
    ensures var t := Text(s, offset);
      && |t| >= 19 && t[4] == t[7] == '-' && t[10] == 'T' && t[13] == t[16] == ':'
      && AllDigits(t[..4]) && AllDigits(t[5..7]) && AllDigits(t[8..10])
      && AllDigits(t[11..13]) && AllDigits(t[14..16]) && AllDigits(t[17..19])
      && Json.ReadNat(t[..4]) == s.year && Json.ReadNat(t[5..7]) == s.month && Json.ReadNat(t[8..10]) == s.day
      && Json.ReadNat(t[11..13]) == s.hour && Json.ReadNat(t[14..16]) == s.minute && Json.ReadNat(t[17..19]) == s.second
      && t[19..] == (if s.frac == "" then offset else ['.'] + s.frac + offset)
  {
    FourReads(s.year);
    TwoReads(s.month);
    TwoReads(s.day);
    TwoReads(s.hour);
    TwoReads(s.minute);
    TwoReads(s.second);
    TextPieces(s, offset);
    ClockPieces(s, offset);
    TimeInText(Text(s, offset), Clock(s, offset));
  }

  lemma FirstPiece(field: string, sep: char, rest: string)
    ensures var t := field + ([sep] + rest); |t| == |field| + 1 + |rest| && t[..|field|] == field && t[|field|] == sep && t[|field| + 1..] == rest
  {
  }

  lemma SliceOfSlice(t: string, i: nat, a: nat, b: nat)
    requires a <= b && i + b <= |t|
    ensures t[i..][a..b] == t[i + a..i + b] && t[i..][b..] == t[i + b..]
    ensures i + b < |t| ==> t[i..][b] == t[i + b]
  {
  }

  /** The time of day of a text, after its date. */
  lemma ClockPieces(s: Stamp, offset: string)
    requires Valid(s)
    ensures var c := Clock(s, offset);
      && |c| >= 8 && c[2] == c[5] == ':' && c[..2] == Two(s.hour) && c[3..5] == Two(s.minute) && c[6..8] == Two(s.second)
      && c[8..] == (if s.frac == "" then offset else ['.'] + s.frac + offset)
  {
    var tail := Tail(s.frac, offset);
    var c2 := Two(s.second) + tail;
    var c1 := Two(s.minute) + ([':'] + c2);
    var c := Clock(s, offset);
    assert c == Two(s.hour) + ([':'] + c1);
    FirstPiece(Two(s.hour), ':', c1);
    FirstPiece(Two(s.minute), ':', c2);
    SliceOfSlice(c, 3, 0, 2);
    SliceOfSlice(c, 3, 2, 3);
    SliceOfSlice(c, 6, 0, 2);
    assert c[6..] == c2 && c2[..2] == Two(s.second) && c2[2..] == tail;
    assert tail == if s.frac == "" then offset else ['.'] + s.frac + offset;
  }

  lemma TextPieces(s: Stamp, offset: string)
    requires Valid(s)
    ensures var t, c := Text(s, offset), Clock(s, offset);
      && |t| == 11 + |c| && t[4] == t[7] == '-' && t[10] == 'T' && t[11..] == c
      && t[..4] == Four(s.year) && t[5..7] == Two(s.month) && t[8..10] == Two(s.day)
  {
    var c := Clock(s, offset);
    var t2 := Two(s.day) + (['T'] + c);
    var t1 := Two(s.month) + (['-'] + t2);
    var t := Text(s, offset);
    assert t == Four(s.year) + (['-'] + t1);
    FirstPiece(Four(s.year), '-', t1);
    FirstPiece(Two(s.month), '-', t2);
    FirstPiece(Two(s.day), 'T', c);
    SliceOfSlice(t, 5, 0, 2);
    SliceOfSlice(t, 5, 2, 3);
    SliceOfSlice(t, 8, 0, 2);
    SliceOfSlice(t, 8, 2, 3);
  }

  lemma TimeInText(t: string, c: string)
    requires |t| == 11 + |c| && t[11..] == c && |c| >= 8
    ensures t[13] == c[2] && t[16] == c[5]
    ensures t[11..13] == c[..2] && t[14..16] == c[3..5] && t[17..19] == c[6..8] && t[19..] == c[8..]
  {
    assert forall i :: 0 <= i < |c| ==> t[11 + i] == c[i];
  }
}
