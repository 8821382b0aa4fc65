/** Gregorian calendar arithmetic on day numbers.

    A calendar date is an integer day number, day 0 being 1970-01-01. Conversion
    goes through "shifted" years that start on 1 March, so that the leap day is
    the last day of a shifted year and month lengths within a shifted year are
    fixed. */
module Calendar {

  /** Day number: days since 1970-01-01. */
  type Day = int

  datatype Civil = Civil(year: int, month: int, day: int)

  predicate IsLeapYear(y: int) {
    y % 4 == 0 && (y % 100 != 0 || y % 400 == 0)
  }

  function DaysInMonth(y: int, m: int): (n: int)
    requires 1 <= m <= 12
    ensures 28 <= n <= 31
    ensures n == 29 <==> m == 2 && IsLeapYear(y)
  {
    if m == 2 then (if IsLeapYear(y) then 29 else 28)
    else if m == 4 || m == 6 || m == 9 || m == 11 then 30
    else 31
  }

  predicate ValidCivil(c: Civil) {
    1 <= c.month <= 12 && 1 <= c.day <= DaysInMonth(c.year, c.month)
  }

  /** Days from 0000-03-01 to the first day (1 March) of shifted year y. */
  function DaysBeforeShiftedYear(y: int): int {
    365 * y + y / 4 - y / 100 + y / 400
  }

  /** Days from 1 March to the first day of shifted month mp (0 = March, ..., 11 = February). */
  function MonthOffset(mp: int): int {
    (153 * mp + 2) / 5
  }

  /** Days from 0000-03-01 to 1970-01-01. */
  const EpochShift: int := 719468

  /** Day number of (y, m, d). The day is added linearly, so a day past the end of
      the month lands in a following month, as `new Date(y, m - 1, d)` does. */
  function DayFromCivil(y: int, m: int, d: int): Day
    requires 1 <= m <= 12
  {
    var sy := if m <= 2 then y - 1 else y;
    var mp := if m <= 2 then m + 9 else m - 3;
    DaysBeforeShiftedYear(sy) + MonthOffset(mp) + d - 1 - EpochShift
  }

  /** The civil date of a day number. */
  function CivilFromDay(n: Day): (c: Civil)
    ensures ValidCivil(c)
    ensures DayFromCivil(c.year, c.month, c.day) == n
  {
    CivilInShiftedYear(n, ShiftedYearOf(n + EpochShift))
  }

  /** The civil date of a day number known to fall in shifted year sy. */
  function CivilInShiftedYear(n: Day, sy: int): (c: Civil)
    requires DaysBeforeShiftedYear(sy) <= n + EpochShift < DaysBeforeShiftedYear(sy + 1)
    ensures ValidCivil(c)
    ensures DayFromCivil(c.year, c.month, c.day) == n
  {
    CivilOfShifted(sy, n + EpochShift - DaysBeforeShiftedYear(sy))
  }

  /** The civil date of day `doy` (0 = 1 March) of shifted year sy. */
  function CivilOfShifted(sy: int, doy: int): (c: Civil)
    requires 0 <= doy < DaysBeforeShiftedYear(sy + 1) - DaysBeforeShiftedYear(sy)
    ensures ValidCivil(c)
    ensures DayFromCivil(c.year, c.month, c.day) == DaysBeforeShiftedYear(sy) + doy - EpochShift
  {
    ShiftedYearLength(sy);
    var mp := (5 * doy + 2) / 153;
    MonthIndexBounds(doy, mp);
    var d := doy - MonthOffset(mp) + 1;
    var m := if mp < 10 then mp + 3 else mp - 9;
    MonthLengthsWithinShiftedYear(sy, mp, m);
    Civil(if m <= 2 then sy + 1 else sy, m, d)
  }

  /** The shifted year containing day z (counted from 0000-03-01). */
  function ShiftedYearOf(z: int): (sy: int)
    ensures DaysBeforeShiftedYear(sy) <= z < DaysBeforeShiftedYear(sy + 1)
  {
    var y0 := (400 * z) / 146097;
    ScaledYearStart(y0 - 1);
    ScaledYearStart(y0 + 2);
    ShiftedYearLength(y0 - 1);
    ShiftedYearLength(y0);
    ShiftedYearLength(y0 + 1);
    if z < DaysBeforeShiftedYear(y0) then y0 - 1
    else if z < DaysBeforeShiftedYear(y0 + 1) then y0
    else y0 + 1
  }

  /** Weekday of a day number, 0 = Sunday ... 6 = Saturday (1970-01-01 was a Thursday). */
  function Weekday(n: Day): (w: int)
    ensures 0 <= w < 7
  {
    (n + 4) % 7
  }

  // ---------------------------------------------------------------------------
  // Arithmetic facts about shifted years and months

  /** 400 times the start of a shifted year is 146097 y up to a bounded correction. */
  lemma ScaledYearStart(y: int)
    ensures -699 <= 400 * DaysBeforeShiftedYear(y) - 146097 * y <= 396
  {
    assert y == 4 * (y / 4) + y % 4;
    assert y == 100 * (y / 100) + y % 100;
    assert y == 400 * (y / 400) + y % 400;
  }

  lemma SuccessorQuotient4(y: int)
    ensures (y + 1) / 4 - y / 4 == (if (y + 1) % 4 == 0 then 1 else 0)
  {
  }

  lemma SuccessorQuotient100(y: int)
    ensures (y + 1) / 100 - y / 100 == (if (y + 1) % 100 == 0 then 1 else 0)
  {
  }

  lemma SuccessorQuotient400(y: int)
    ensures (y + 1) / 400 - y / 400 == (if (y + 1) % 400 == 0 then 1 else 0)
  {
  }

  lemma DivisibilityChain(x: int)
    ensures x % 400 == 0 ==> x % 100 == 0
    ensures x % 100 == 0 ==> x % 4 == 0
  {
    if x % 400 == 0 {
      Multiple400(x);
    }
    if x % 100 == 0 {
      Multiple100(x);
    }
  }

  lemma Multiple400(x: int)
    requires x % 400 == 0
    ensures x % 100 == 0
  {
    var q := x / 400;
    assert x == 400 * q;
    assert x == 100 * (4 * q) + 0;
  }

  lemma Multiple100(x: int)
    requires x % 100 == 0
    ensures x % 4 == 0
  {
    var q := x / 100;
    assert x == 100 * q;
    assert x == 4 * (25 * q) + 0;
  }

  /** Shifted year y has 366 days exactly when the February it ends with is in a leap year. */
  lemma {:induction false} ShiftedYearLength(y: int)
    ensures DaysBeforeShiftedYear(y + 1) - DaysBeforeShiftedYear(y)
            == (if IsLeapYear(y + 1) then 366 else 365)
  {
    SuccessorQuotient4(y);
    SuccessorQuotient100(y);
    SuccessorQuotient400(y);
    DivisibilityChain(y + 1);
  }

  /** Shifted years start at strictly increasing day counts. */
  lemma YearStartsIncrease(a: int, b: int)
    requires a < b
    ensures DaysBeforeShiftedYear(a + 1) <= DaysBeforeShiftedYear(b)
  {
    ScaledYearStart(a + 1);
    ScaledYearStart(b);
    if b == a + 1 {
    } else {
      assert b >= a + 2;
    }
  }

  /** A day count lies in exactly one shifted year. */
  lemma ShiftedYearUnique(z: int, sy: int)
    requires DaysBeforeShiftedYear(sy) <= z < DaysBeforeShiftedYear(sy + 1)
    ensures ShiftedYearOf(z) == sy
  {
    var s := ShiftedYearOf(z);
    if s < sy {
      YearStartsIncrease(s, sy);
    } else if sy < s {
      YearStartsIncrease(sy, s);
    }
  }

  /** The month index formula inverts MonthOffset on a shifted year. */
  lemma MonthIndexBounds(doy: int, mp: int)
    requires 0 <= doy < 366
    requires mp == (5 * doy + 2) / 153
    ensures 0 <= mp <= 11
    ensures MonthOffset(mp) <= doy < MonthOffset(mp + 1)
  {
  }

  lemma MonthIndexRecovered(doy: int, mp: int)
    requires 0 <= mp <= 11
    requires MonthOffset(mp) <= doy < MonthOffset(mp + 1)
    ensures (5 * doy + 2) / 153 == mp
  {
  }

  /** Month lengths inside a shifted year agree with DaysInMonth of the civil month. */
  lemma MonthLengthsWithinShiftedYear(sy: int, mp: int, m: int)
    requires 0 <= mp <= 11
    requires m == (if mp < 10 then mp + 3 else mp - 9)
    ensures mp < 11 ==> MonthOffset(mp + 1) - MonthOffset(mp) == DaysInMonth(sy, m)
    ensures mp == 11 ==> MonthOffset(mp) + DaysInMonth(sy + 1, m)
                         == DaysBeforeShiftedYear(sy + 1) - DaysBeforeShiftedYear(sy)
  {
    ShiftedYearLength(sy);
  }

  // ---------------------------------------------------------------------------
  // Round trips

  /** Converting a valid civil date to a day number and back gives the date again. */
  lemma CivilRoundTrip(c: Civil)
    requires ValidCivil(c)
    ensures CivilFromDay(DayFromCivil(c.year, c.month, c.day)) == c
  {
    var y, m, d := c.year, c.month, c.day;
    var sy := if m <= 2 then y - 1 else y;
    var mp := if m <= 2 then m + 9 else m - 3;
    DayOfShiftedYearBounds(sy, mp, m, d);
    var n := DayFromCivil(y, m, d);
    DayFromCivilShifted(y, m, d);
    var doy := n + EpochShift - DaysBeforeShiftedYear(sy);
    assert doy == MonthOffset(mp) + d - 1;
    CivilFromDayUnfold(n, sy);
    assert (if mp < 10 then mp + 3 else mp - 9) == m;
    CivilOfShiftedAt(sy, doy, mp);
  }

  /** The day number counts from the start of the shifted year. */
  lemma DayFromCivilShifted(y: int, m: int, d: int)
    requires 1 <= m <= 12
    ensures var sy, mp := if m <= 2 then y - 1 else y, if m <= 2 then m + 9 else m - 3;
            DayFromCivil(y, m, d) + EpochShift == DaysBeforeShiftedYear(sy) + MonthOffset(mp) + d - 1
  {
  }

  /** Within a shifted year, the month is the one whose offsets bracket the day. */
  lemma CivilOfShiftedAt(sy: int, doy: int, mp: int)
    requires 0 <= doy < DaysBeforeShiftedYear(sy + 1) - DaysBeforeShiftedYear(sy)
    requires 0 <= mp <= 11
    requires MonthOffset(mp) <= doy < MonthOffset(mp + 1)
    ensures var m := if mp < 10 then mp + 3 else mp - 9;
            CivilOfShifted(sy, doy) == Civil(if m <= 2 then sy + 1 else sy, m, doy - MonthOffset(mp) + 1)
  {
    MonthIndexRecovered(doy, mp);
  }

  lemma CivilFromDayUnfold(n: Day, sy: int)
    requires DaysBeforeShiftedYear(sy) <= n + EpochShift < DaysBeforeShiftedYear(sy + 1)
    ensures CivilFromDay(n) == CivilOfShifted(sy, n + EpochShift - DaysBeforeShiftedYear(sy))
  {
    ShiftedYearUnique(n + EpochShift, sy);
    assert CivilFromDay(n) == CivilInShiftedYear(n, sy);
  }

  lemma DayOfShiftedYearBounds(sy: int, mp: int, m: int, d: int)
    requires 0 <= mp <= 11
    requires m == (if mp < 10 then mp + 3 else mp - 9)
    requires 1 <= d <= DaysInMonth(if m <= 2 then sy + 1 else sy, m)
    ensures MonthOffset(mp) <= MonthOffset(mp) + d - 1 < MonthOffset(mp + 1)
    ensures MonthOffset(mp) + d - 1 < DaysBeforeShiftedYear(sy + 1) - DaysBeforeShiftedYear(sy)
  {
    MonthLengthsWithinShiftedYear(sy, mp, m);
    ShiftedYearLength(sy);
    if mp < 10 {
      assert DaysInMonth(sy, m) == MonthOffset(mp + 1) - MonthOffset(mp);
    }
  }

  /** Day numbers and valid civil dates are in one-to-one correspondence. */
  lemma DayFromCivilInjective(a: Civil, b: Civil)
    requires ValidCivil(a) && ValidCivil(b)
    ensures DayFromCivil(a.year, a.month, a.day) == DayFromCivil(b.year, b.month, b.day) ==> a == b
  {
    CivilRoundTrip(a);
    CivilRoundTrip(b);
  }

  /** The day after the last day of a month is the first day of the next month. */
  lemma MonthRollover(y: int, m: int)
    requires 1 <= m <= 12
    ensures DayFromCivil(y, m, DaysInMonth(y, m) + 1)
            == (if m == 12 then DayFromCivil(y + 1, 1, 1) else DayFromCivil(y, m + 1, 1))
  {
    var sy := if m <= 2 then y - 1 else y;
    var mp := if m <= 2 then m + 9 else m - 3;
    MonthLengthsWithinShiftedYear(sy, mp, m);
  }

  /** `new Date(y, m - 1, d)` with d up to 31 keeps month m and day d exactly when
      (y, m, d) is a real date; an overflowing day rolls into the next month. */
  lemma OverflowChangesMonth(y: int, m: int, d: int)
    requires 1 <= m <= 12 && 1 <= d <= 31
    ensures var c := CivilFromDay(DayFromCivil(y, m, d));
            (c.month == m && c.day == d) <==> ValidCivil(Civil(y, m, d))
  {
    if ValidCivil(Civil(y, m, d)) {
      CivilRoundTrip(Civil(y, m, d));
    } else {
      var dim := DaysInMonth(y, m);
      var next := if m == 12 then Civil(y + 1, 1, d - dim) else Civil(y, m + 1, d - dim);
      MonthRollover(y, m);
      assert 1 <= d - dim <= 3;
      assert ValidCivil(next);
      assert DayFromCivil(y, m, d) == DayFromCivil(next.year, next.month, next.day);
      CivilRoundTrip(next);
    }
  }

  /** Moving a date by k days moves its weekday by k modulo 7. */
  lemma WeekdayShift(n: Day, k: int)
    ensures Weekday(n + k) == (Weekday(n) + k) % 7
  {
  }
}
