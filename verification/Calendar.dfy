/** The proleptic Gregorian calendar, and the civil-day algorithm that numbers its days. */
module Calendar {

  datatype Date = Date(year: int, month: int, day: int)

  /** Go's integer division and remainder, which truncate toward zero. */
  function TruncDiv(a: int, b: int): int
    requires b > 0
  {
    if a >= 0 then a / b else -((-a) / b)
  }

  function TruncMod(a: int, b: int): int
    requires b > 0
  {
    a - TruncDiv(a, b) * b
  }

  predicate Leap(y: int) {
    y % 4 == 0 && (y % 100 != 0 || y % 400 == 0)
  }

  function DaysIn(y: int, m: int): int {
    if m == 2 then (if Leap(y) then 29 else 28)
    else if m == 4 || m == 6 || m == 9 || m == 11 then 30
    else 31
  }

  predicate IsDate(t: Date) {
    1 <= t.month <= 12 && 1 <= t.day <= DaysIn(t.year, t.month)
  }

  function NextDay(t: Date): (r: Date)
    requires IsDate(t)
    ensures IsDate(r)
  {
    if t.day < DaysIn(t.year, t.month) then t.(day := t.day + 1)
    else if t.month < 12 then Date(t.year, t.month + 1, 1)
    else Date(t.year + 1, 1, 1)
  }

  function PrevDay(t: Date): (r: Date)
    requires IsDate(t)
    ensures IsDate(r) && NextDay(r) == t
  {
    if 1 < t.day then t.(day := t.day - 1)
    else if 1 < t.month then Date(t.year, t.month - 1, DaysIn(t.year, t.month - 1))
    else Date(t.year - 1, 12, 31)
  }

  function DaysFromCivil(t: Date): int {
    var y := if t.month <= 2 then t.year - 1 else t.year;
    var era := if y < 0 && TruncMod(y, 400) != 0 then TruncDiv(y, 400) - 1 else TruncDiv(y, 400);
    var yoe := y - era * 400;
    var mp := if t.month > 2 then t.month - 3 else t.month + 9;
    var doy := (153 * mp + 2) / 5 + t.day - 1;
    var doe := yoe * 365 + yoe / 4 - yoe / 100 + doy;
    era * 146097 + doe - 719468
  }

  /** The days before March 1st of year `y`: the part of the count that depends on the year alone. */
  ghost function YearStart(y: int): int {
    y * 365 + y / 4 - y / 100 + y / 400
  }

  /** The truncating era computation, corrected for negative years, is floor division. */
  lemma EraIsFloor(y: int)
    ensures (if y < 0 && TruncMod(y, 400) != 0 then TruncDiv(y, 400) - 1 else TruncDiv(y, 400)) == y / 400
  {
  }

  lemma CountByYear(t: Date)
    ensures var y := if t.month <= 2 then t.year - 1 else t.year;
            var mp := if t.month > 2 then t.month - 3 else t.month + 9;
            DaysFromCivil(t) == YearStart(y) + (153 * mp + 2) / 5 + t.day - 1 - 719468
  {
    var y := if t.month <= 2 then t.year - 1 else t.year;
    EraIsFloor(y);
    var era, yoe := y / 400, y % 400;
    assert y == era * 400 + yoe;
    assert y / 4 == era * 100 + yoe / 4;
    assert y / 100 == era * 4 + yoe / 100;
  }

  lemma Carry4(y: int)
    ensures (y + 1) / 4 == y / 4 + (if (y + 1) % 4 == 0 then 1 else 0)
  {
  }

  lemma Carry100(y: int)
    ensures (y + 1) / 100 == y / 100 + (if (y + 1) % 100 == 0 then 1 else 0)
    ensures y % 100 == 0 ==> y % 4 == 0
  {
  }

  lemma Carry400(y: int)
    ensures (y + 1) / 400 == y / 400 + (if (y + 1) % 400 == 0 then 1 else 0)
    ensures y % 400 == 0 ==> y % 100 == 0
  {
  }

  lemma YearLength(y: int)
    ensures YearStart(y + 1) == YearStart(y) + (if Leap(y + 1) then 366 else 365)
  {
    assert Leap(y + 1) <==> ((y + 1) % 4 == 0 && (y + 1) % 100 != 0) || (y + 1) % 400 == 0 by {
      Carry100(y + 1);
      Carry400(y + 1);
    }
    var c4, c100, c400 := (y + 1) / 4 - y / 4, (y + 1) / 100 - y / 100, (y + 1) / 400 - y / 400;
    assert c4 == if (y + 1) % 4 == 0 then 1 else 0 by { Carry4(y); }
    assert c100 == if (y + 1) % 100 == 0 then 1 else 0 by { Carry100(y); }
    assert c400 == if (y + 1) % 400 == 0 then 1 else 0 by { Carry400(y); }
    Carry100(y + 1);
    Carry400(y + 1);
  }

  /** The day-of-year formula gives each month its length, counting from March. */
  lemma MonthLength(mp: int)
    requires 0 <= mp < 11
    ensures (153 * (mp + 1) + 2) / 5 - (153 * mp + 2) / 5 ==
            if mp == 1 || mp == 3 || mp == 6 || mp == 8 then 30 else 31
  {
  }

  /** The next civil date has the next number, across every month, leap-day, century and era boundary. */
  lemma NextDayNumber(t: Date)
    requires IsDate(t)
    ensures DaysFromCivil(NextDay(t)) == DaysFromCivil(t) + 1
  {
    hide DaysFromCivil, YearStart;
    CountByYear(t);
    CountByYear(NextDay(t));
    if t.month == 2 {
      YearLength(t.year - 1);
    } else {
      MonthLength(if t.month > 2 then t.month - 3 else t.month + 9);
    }
  }

  lemma EpochIsZero()
    ensures DaysFromCivil(Date(1970, 1, 1)) == 0
  {
  }

  predicate Earlier(a: Date, b: Date) {
    a.year < b.year || (a.year == b.year && (a.month < b.month || (a.month == b.month && a.day < b.day)))
  }

  ghost function FirstOf(month: int): (r: Date)
    ensures IsDate(r)
  {
    Date(month / 12, month % 12 + 1, 1)
  }

  /** Months follow each other without gap or overlap. */
  lemma NextMonthNumber(month: int)
    ensures var t := FirstOf(month);
            DaysFromCivil(FirstOf(month + 1)) == DaysFromCivil(t) + DaysIn(t.year, t.month)
  {
    hide DaysFromCivil, YearStart, Leap;
    var t := FirstOf(month);
    var last := t.(day := DaysIn(t.year, t.month));
    NextDayNumber(last);
    assert NextDay(last) == FirstOf(month + 1);
    CountByYear(t);
    CountByYear(last);
  }

  lemma {:induction false} MonthsOrdered(a: int, b: int)
    requires a < b
    ensures var t := FirstOf(a);
            DaysFromCivil(t) + DaysIn(t.year, t.month) <= DaysFromCivil(FirstOf(b))
    decreases b - a
  {
    hide DaysFromCivil, DaysIn;
    NextMonthNumber(a);
    if a + 1 < b {
      MonthsOrdered(a + 1, b);
      MonthNotEmpty(FirstOf(a + 1));
    }
  }

  lemma MonthNotEmpty(t: Date)
    ensures 28 <= DaysIn(t.year, t.month) <= 31
  {
  }

  /** The numbering is strictly increasing in calendar order, hence one number names one date. */
  lemma EarlierNumber(a: Date, b: Date)
    requires IsDate(a) && IsDate(b) && Earlier(a, b)
    ensures DaysFromCivil(a) < DaysFromCivil(b)
  {
    hide DaysFromCivil, DaysIn;
    var i, j := 12 * a.year + a.month - 1, 12 * b.year + b.month - 1;
    WithinMonth(a);
    WithinMonth(b);
    if i < j {
      MonthsOrdered(i, j);
    }
  }

  lemma WithinMonth(t: Date)
    requires IsDate(t)
    ensures var f := FirstOf(12 * t.year + t.month - 1);
            f == t.(day := 1) && DaysFromCivil(t) == DaysFromCivil(f) + t.day - 1
  {
    hide DaysFromCivil, YearStart, Leap;
    CountByYear(t);
    CountByYear(t.(day := 1));
  }

  lemma SameNumber(a: Date, b: Date)
    requires IsDate(a) && IsDate(b)
    ensures DaysFromCivil(a) == DaysFromCivil(b) <==> a == b
    ensures DaysFromCivil(a) < DaysFromCivil(b) <==> Earlier(a, b)
  {
    hide DaysFromCivil;
    if Earlier(a, b) {
      EarlierNumber(a, b);
    } else if Earlier(b, a) {
      EarlierNumber(b, a);
    } else {
      assert a == b;
    }
  }

  /** `k` days later, or earlier when `k` is negative, one day at a time. */
  function AddDays(t: Date, k: int): (r: Date)
    requires IsDate(t)
    ensures IsDate(r) && DaysFromCivil(r) == DaysFromCivil(t) + k
    decreases if k < 0 then -k else k
  {
    if k == 0 then t
    else if k > 0 then
      NextDayNumber(t);
      AddDays(NextDay(t), k - 1)
    else
      NextDayNumber(PrevDay(t));
      AddDays(PrevDay(t), k + 1)
  }
}
