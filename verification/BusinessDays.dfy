/** Business-day arithmetic: week-at-a-time methods against walking and counting one day at a time. */
module BusinessDays {
  import opened Calendar

  const SUNDAY := 0
  const SATURDAY := 6
  const MAX_DAYS := 1000000

  /** An instant in one location: a civil date and the nanoseconds since its midnight. */
  datatype Moment = Moment(date: Date, nanos: nat)

  predicate Before(a: Moment, b: Moment) {
    Earlier(a.date, b.date) || (a.date == b.date && a.nanos < b.nanos)
  }

  /** The day of the week, Sunday being 0. */
  function Weekday(t: Date): int {
    (DaysFromCivil(t) + 4) % 7
  }

  predicate IsWeekday(t: Date) {
    Weekday(t) != SATURDAY && Weekday(t) != SUNDAY
  }

  /** The weekday moves on by one with each civil day, and 1970-01-01 was a Thursday. */
  lemma WeekdayCycle(t: Date)
    requires IsDate(t)
    ensures Weekday(NextDay(t)) == (Weekday(t) + 1) % 7
    ensures Weekday(Date(1970, 1, 1)) == 4
  {
    hide DaysFromCivil;
    NextDayNumber(t);
    EpochIsZero();
  }

  // ----- the naive definitions -----

  /** Walk forward a day at a time until `n` weekdays have been stepped on. */
  ghost function WalkForward(t: Date, n: nat): (r: Date)
    requires IsDate(t)
    ensures IsDate(r)
    decreases n, if Weekday(t) == SUNDAY then 0 else 7 - Weekday(t)
  {
    if n == 0 then t
    else
      WeekdayCycle(t);
      var next := NextDay(t);
      WalkForward(next, if IsWeekday(next) then n - 1 else n)
  }

  ghost function WalkBackward(t: Date, n: nat): (r: Date)
    requires IsDate(t)
    ensures IsDate(r)
    decreases n, (Weekday(t) + 1) % 7
  {
    if n == 0 then t
    else
      WeekdayCycle(PrevDay(t));
      var prev := PrevDay(t);
      WalkBackward(prev, if IsWeekday(prev) then n - 1 else n)
  }

  ghost function Walk(t: Date, n: int): (r: Date)
    requires IsDate(t)
    ensures IsDate(r)
  {
    if n >= 0 then WalkForward(t, n) else WalkBackward(t, -n)
  }

  /** The weekdays from `a` up to but not including `b`, looked at one by one. */
  ghost function WeekdaysIn(a: Date, b: Date): nat
    requires IsDate(a) && IsDate(b) && !Earlier(b, a)
    decreases DaysFromCivil(b) - DaysFromCivil(a)
  {
    if a == b then 0
    else
      NextDayNumber(a);
      SameNumber(a, b);
      SameNumber(b, NextDay(a));
      (if IsWeekday(a) then 1 else 0) + WeekdaysIn(NextDay(a), b)
  }

  ghost function SignedWeekdays(a: Date, b: Date): int
    requires IsDate(a) && IsDate(b)
  {
    SameNumber(a, b);
    SameNumber(b, a);
    if Earlier(b, a) then 0 - WeekdaysIn(b, a) else WeekdaysIn(a, b)
  }

  // ----- counting on day numbers -----

  ghost predicate Works(x: int) {
    (x + 4) % 7 != SATURDAY && (x + 4) % 7 != SUNDAY
  }

  /** The working days among the numbers a, ..., b - 1. */
  ghost function Count(a: int, b: int): nat
    requires a <= b
    decreases b - a
  {
    if a == b then 0 else (if Works(a) then 1 else 0) + Count(a + 1, b)
  }

  lemma {:induction false} CountSplit(a: int, b: int, c: int)
    requires a <= b <= c
    ensures Count(a, c) == Count(a, b) + Count(b, c)
    decreases b - a
  {
    if a < b {
      CountSplit(a + 1, b, c);
    }
  }

  lemma CountOne(a: int)
    ensures Count(a, a + 1) == if Works(a) then 1 else 0
  {
    assert Count(a + 1, a + 1) == 0;
  }

  lemma SevenDays(a: int)
    ensures var d := (x: int) => if Works(x) then 1 else 0;
            d(a) + d(a + 1) + d(a + 2) + d(a + 3) + d(a + 4) + d(a + 5) + d(a + 6) == 5
  {
  }

  /** Any seven days in a row hold five working days. */
  lemma CountWeek(a: int)
    ensures Count(a, a + 7) == 5
  {
    hide Count, Works;
    SevenDays(a);
    CountSplit(a, a + 1, a + 7);
    CountSplit(a + 1, a + 2, a + 7);
    CountSplit(a + 2, a + 3, a + 7);
    CountSplit(a + 3, a + 4, a + 7);
    CountSplit(a + 4, a + 5, a + 7);
    CountSplit(a + 5, a + 6, a + 7);
    CountOne(a);
    CountOne(a + 1);
    CountOne(a + 2);
    CountOne(a + 3);
    CountOne(a + 4);
    CountOne(a + 5);
    CountOne(a + 6);
  }

  lemma {:induction false} CountWeeks(a: int, weeks: nat)
    ensures Count(a, a + 7 * weeks) == 5 * weeks
    decreases weeks
  {
    hide Works;
    if weeks > 0 {
      CountWeek(a);
      CountWeeks(a + 7, weeks - 1);
      CountSplit(a, a + 7, a + 7 * weeks);
    }
  }

  lemma {:induction false} WeekdaysCounted(a: Date, b: Date)
    requires IsDate(a) && IsDate(b) && !Earlier(b, a)
    ensures DaysFromCivil(a) <= DaysFromCivil(b)
    ensures WeekdaysIn(a, b) == Count(DaysFromCivil(a), DaysFromCivil(b))
    decreases DaysFromCivil(b) - DaysFromCivil(a)
  {
    hide DaysFromCivil;
    SameNumber(a, b);
    SameNumber(b, a);
    if a != b {
      NextDayNumber(a);
      SameNumber(b, NextDay(a));
      WeekdaysCounted(NextDay(a), b);
    }
  }

  /** Where a walk ends: on a working day, with exactly `n` working days behind it. */
  lemma {:induction false} WalkForwardEnds(t: Date, n: nat)
    requires IsDate(t) && n > 0
    ensures var x, y := DaysFromCivil(t), DaysFromCivil(WalkForward(t, n));
            x < y && Works(y) && Count(x + 1, y + 1) == n
    decreases n, if Weekday(t) == SUNDAY then 0 else 7 - Weekday(t)
  {
    hide DaysFromCivil;
    var next := NextDay(t);
    var x := DaysFromCivil(t);
    NextDayNumber(t);
    WeekdayCycle(t);
    if IsWeekday(next) && n == 1 {
      CountOne(x + 1);
    } else {
      var m := if IsWeekday(next) then n - 1 else n;
      WalkForwardEnds(next, m);
      CountSplit(x + 1, x + 2, DaysFromCivil(WalkForward(next, m)) + 1);
      CountOne(x + 1);
    }
  }

  lemma {:induction false} WalkBackwardEnds(t: Date, n: nat)
    requires IsDate(t) && n > 0
    ensures var x, y := DaysFromCivil(t), DaysFromCivil(WalkBackward(t, n));
            y < x && Works(y) && Count(y, x) == n
    decreases n, (Weekday(t) + 1) % 7
  {
    hide DaysFromCivil;
    var prev := PrevDay(t);
    var x := DaysFromCivil(t);
    NextDayNumber(prev);
    WeekdayCycle(prev);
    CountOne(x - 1);
    if !(IsWeekday(prev) && n == 1) {
      var m := if IsWeekday(prev) then n - 1 else n;
      WalkBackwardEnds(prev, m);
      CountSplit(DaysFromCivil(WalkBackward(prev, m)), x - 1, x);
    }
  }

  /** `k` working days lie after `t` up to and including `d`. */
  ghost predicate Passed(t: Date, d: Date, k: int) {
    DaysFromCivil(t) <= DaysFromCivil(d) && Count(DaysFromCivil(t) + 1, DaysFromCivil(d) + 1) == k
  }

  lemma PassedStep(t: Date, d: Date, k: int)
    requires IsDate(d) && Passed(t, d, k)
    ensures var e := AddDays(d, 1);
            Weekday(e) == (Weekday(d) + 1) % 7 && Passed(t, e, if IsWeekday(e) then k + 1 else k)
  {
    hide DaysFromCivil, AddDays, Count;
    CountSplit(DaysFromCivil(t) + 1, DaysFromCivil(d) + 1, DaysFromCivil(d) + 2);
    CountOne(DaysFromCivil(d) + 1);
  }

  lemma PassedTwoSteps(t: Date)
    requires IsDate(t) && Weekday(t) == SATURDAY
    ensures IsWeekday(AddDays(t, 2)) && Passed(t, AddDays(t, 2), 1)
  {
    hide DaysFromCivil, AddDays;
    var d := AddDays(t, 1);
    PassedStep(t, t, 0);
    PassedStep(t, d, 0);
    SameNumber(AddDays(d, 1), AddDays(t, 2));
  }

  lemma PassedWeeks(t: Date, d: Date, k: int, weeks: nat)
    requires IsDate(d) && Passed(t, d, k)
    ensures var e := AddDays(d, weeks * 7); Weekday(e) == Weekday(d) && Passed(t, e, k + 5 * weeks)
  {
    hide DaysFromCivil, AddDays, Count;
    var x, y := DaysFromCivil(t), DaysFromCivil(d);
    WeekShift(y + 4, weeks);
    CountWeeks(y + 1, weeks);
    CountSplit(x + 1, y + 1, y + 1 + 7 * weeks);
  }

  /** `k` working days lie from `d` up to but not including `t`. */
  ghost predicate PassedBack(t: Date, d: Date, k: int) {
    DaysFromCivil(d) <= DaysFromCivil(t) && Count(DaysFromCivil(d), DaysFromCivil(t)) == k
  }

  lemma PassedBackStep(t: Date, d: Date, k: int)
    requires IsDate(d) && PassedBack(t, d, k)
    ensures var e := AddDays(d, -1);
            Weekday(e) == (Weekday(d) + 6) % 7 && PassedBack(t, e, if IsWeekday(e) then k + 1 else k)
  {
    hide DaysFromCivil, AddDays, Count;
    CountSplit(DaysFromCivil(d) - 1, DaysFromCivil(d), DaysFromCivil(t));
    CountOne(DaysFromCivil(d) - 1);
  }

  lemma PassedBackTwoSteps(t: Date)
    requires IsDate(t) && Weekday(t) == SUNDAY
    ensures IsWeekday(AddDays(t, -2)) && PassedBack(t, AddDays(t, -2), 1)
  {
    hide DaysFromCivil, AddDays;
    var d := AddDays(t, -1);
    PassedBackStep(t, t, 0);
    PassedBackStep(t, d, 0);
    SameNumber(AddDays(d, -1), AddDays(t, -2));
  }

  lemma WeekShift(x: int, weeks: int)
    ensures (x + 7 * weeks) % 7 == x % 7
  {
  }

  lemma PassedBackWeeks(t: Date, d: Date, k: int, weeks: int)
    requires IsDate(d) && PassedBack(t, d, k) && 0 <= weeks
    ensures var e := AddDays(d, -weeks * 7); Weekday(e) == Weekday(d) && PassedBack(t, e, k + 5 * weeks)
  {
    hide DaysFromCivil, AddDays, Count;
    var x, y := DaysFromCivil(t), DaysFromCivil(d);
    WeekShift(y + 4, -weeks);
    CountWeeks(y - 7 * weeks, weeks);
    CountSplit(y - 7 * weeks, y, x);
  }

  lemma ForwardUnique(t: Date, n: nat, r: Date)
    requires IsDate(t) && IsDate(r) && n > 0
    requires Passed(t, r, n) && IsWeekday(r)
    ensures r == WalkForward(t, n)
  {
    hide DaysFromCivil, WalkForward;
    WalkForwardEnds(t, n);
    var w := WalkForward(t, n);
    var x, y, z := DaysFromCivil(t), DaysFromCivil(w), DaysFromCivil(r);
    if y < z {
      CountSplit(x + 1, y + 1, z + 1);
      CountSplit(y + 1, z, z + 1);
      CountOne(z);
    } else if z < y {
      CountSplit(x + 1, z + 1, y + 1);
      CountSplit(z + 1, y, y + 1);
      CountOne(y);
    }
    SameNumber(w, r);
  }

  lemma BackwardUnique(t: Date, n: nat, r: Date)
    requires IsDate(t) && IsDate(r) && n > 0
    requires PassedBack(t, r, n) && IsWeekday(r)
    ensures r == WalkBackward(t, n)
  {
    hide DaysFromCivil, WalkBackward;
    WalkBackwardEnds(t, n);
    var w := WalkBackward(t, n);
    var x, y, z := DaysFromCivil(t), DaysFromCivil(w), DaysFromCivil(r);
    if y < z {
      CountSplit(y, z, x);
      CountSplit(y, y + 1, z);
      CountOne(y);
    } else if z < y {
      CountSplit(z, y, x);
      CountSplit(z, z + 1, y);
      CountOne(z);
    }
    SameNumber(w, r);
  }

  // ----- the program's methods -----

  method AddPositiveBusinessDays(t: Date, n: int) returns (d: Date)
    requires IsDate(t) && n > 0
    ensures IsDate(d) && d == WalkForward(t, n)
  {
    hide DaysFromCivil, AddDays, Passed, WalkForward, Weekday;
    d := t;
    var m := n;
    PassedNone(t);
    WeekdayRange(t);
    if Weekday(d) == SATURDAY {
      PassedTwoSteps(t);
      d := AddDays(d, 2);
      m := m - 1;
    } else if Weekday(d) == SUNDAY {
      PassedStep(t, t, 0);
      d := AddDays(d, 1);
      m := m - 1;
    }
    if m > 0 {
      var weeks, rem := m / 5, m % 5;
      PassedWeeks(t, d, n - m, weeks);
      if weeks > 0 {
        d := AddDays(d, weeks * 7);
      }
      PassedNoWeeks(d);
      while rem > 0
        invariant IsDate(d) && 0 <= rem && Passed(t, d, n - rem)
        invariant rem == 0 ==> IsWeekday(d)
        decreases rem, if Weekday(d) == SUNDAY then 0 else 7 - Weekday(d)
      {
        PassedStep(t, d, n - rem);
        WeekdayRange(d);
        d := AddDays(d, 1);
        if Weekday(d) != SATURDAY && Weekday(d) != SUNDAY {
          rem := rem - 1;
        }
      }
    }
    ForwardUnique(t, n, d);
  }

  method SubtractBusinessDays(t: Date, n: int) returns (d: Date)
    requires IsDate(t) && n < 0
    ensures IsDate(d) && d == WalkBackward(t, -n)
  {
    hide DaysFromCivil, AddDays, PassedBack, WalkBackward, Weekday;
    d := t;
    var m := n;
    PassedNone(t);
    WeekdayRange(t);
    if Weekday(d) == SUNDAY {
      PassedBackTwoSteps(t);
      d := AddDays(d, -2);
      m := m + 1;
    } else if Weekday(d) == SATURDAY {
      PassedBackStep(t, t, 0);
      d := AddDays(d, -1);
      m := m + 1;
    }
    if m < 0 {
      var pos := -m;
      var weeks, rem := pos / 5, pos % 5;
      PassedBackWeeks(t, d, m - n, weeks);
      if weeks > 0 {
        d := AddDays(d, -weeks * 7);
      }
      PassedNoWeeks(d);
      while rem > 0
        invariant IsDate(d) && 0 <= rem && PassedBack(t, d, -n - rem)
        invariant rem == 0 ==> IsWeekday(d)
        decreases rem, (Weekday(d) + 1) % 7
      {
        PassedBackStep(t, d, -n - rem);
        WeekdayRange(d);
        d := AddDays(d, -1);
        if Weekday(d) != SATURDAY && Weekday(d) != SUNDAY {
          rem := rem - 1;
        }
      }
    }
    BackwardUnique(t, -n, d);
  }

  lemma PassedNone(t: Date)
    ensures Passed(t, t, 0) && PassedBack(t, t, 0)
  {
  }

  lemma PassedNoWeeks(d: Date)
    requires IsDate(d)
    ensures AddDays(d, 0) == d
  {
  }

  lemma WeekdayRange(t: Date)
    ensures 0 <= Weekday(t) <= 6
  {
  }

  function Clamp(n: int): int {
    if n > MAX_DAYS then MAX_DAYS else if n < -MAX_DAYS then -MAX_DAYS else n
  }

  /** The time of day is kept; the date is that of the day-by-day walk, cut off at a million steps. */
  method AddBusinessDays(t: Moment, n: int) returns (r: Moment)
    requires IsDate(t.date)
    ensures r == Moment(Walk(t.date, Clamp(n)), t.nanos)
  {
    if n == 0 {
      return t;
    }
    var m := Clamp(n);
    var d: Date;
    if m > 0 {
      d := AddPositiveBusinessDays(t.date, m);
    } else {
      d := SubtractBusinessDays(t.date, m);
    }
    return Moment(d, t.nanos);
  }

  method BusinessDaysBetween(start: Moment, end: Moment) returns (days: int)
    requires IsDate(start.date) && IsDate(end.date)
    ensures days == SignedWeekdays(start.date, end.date)
    decreases if Before(end, start) then 1 else 0
  {
    hide DaysFromCivil, AddDays, Count, WeekdaysIn;
    SameNumber(start.date, end.date);
    if start == end {
      NoWeekdays(start.date);
      return 0;
    }
    if Before(end, start) {
      days := BusinessDaysBetween(end, start);
      NoWeekdays(start.date);
      return -days;
    }
    if start.date == end.date {
      NoWeekdays(start.date);
      return 0;
    }
    WeekdaysCounted(start.date, end.date);
    var day1, day2 := DaysFromCivil(start.date), DaysFromCivil(end.date);
    var totalDays := day2 - day1;
    var weeks, rem := totalDays / 7, totalDays % 7;
    CountSplit(day1, day1 + rem, day2);
    CountWeeks(day1 + rem, weeks);
    CountNone(day1);
    days := weeks * 5;
    var cur := start.date;
    for i := 0 to rem
      invariant IsDate(cur) && DaysFromCivil(cur) == day1 + i
      invariant days == weeks * 5 + Count(day1, day1 + i)
    {
      CountSplit(day1, day1 + i, day1 + i + 1);
      CountOne(day1 + i);
      if Weekday(cur) != SATURDAY && Weekday(cur) != SUNDAY {
        days := days + 1;
      }
      cur := AddDays(cur, 1);
    }
  }

  lemma CountNone(a: int)
    ensures Count(a, a) == 0
  {
  }

  lemma NoWeekdays(t: Date)
    requires IsDate(t)
    ensures !Earlier(t, t) && WeekdaysIn(t, t) == 0
  {
  }

  // ----- laws -----

  /** Counting back over a walk gives its length, less one if it goes forward from a weekend. */
  lemma WalkIsCounted(t: Date, n: int)
    requires IsDate(t)
    ensures SignedWeekdays(t, Walk(t, n)) == if IsWeekday(t) || n <= 0 then n else n - 1
  {
    hide DaysFromCivil, Count, WalkForward, WalkBackward, WeekdaysIn;
    var r := Walk(t, n);
    var x, y := DaysFromCivil(t), DaysFromCivil(r);
    SameNumber(t, r);
    if n == 0 {
      WalkNowhere(t);
      NoWeekdays(t);
    } else if n > 0 {
      WalkForwardEnds(t, n);
      WeekdaysCounted(t, r);
      CountSplit(x, x + 1, y + 1);
      CountSplit(x, y, y + 1);
      CountOne(x);
      CountOne(y);
    } else {
      WalkBackwardEnds(t, -n);
      WeekdaysCounted(r, t);
    }
  }

  /** The start is a weekday or lies behind, and the walk is not cut off. */
  predicate Invertible(t: Date, n: int) {
    (IsWeekday(t) || n <= 0) && -MAX_DAYS <= n <= MAX_DAYS
  }

  lemma RoundTrip(t: Date, n: int)
    requires IsDate(t)
    ensures SignedWeekdays(t, Walk(t, Clamp(n))) == n <==> Invertible(t, n)
  {
    hide IsWeekday, SignedWeekdays;
    WalkIsCounted(t, Clamp(n));
  }

  /** BusinessDaysBetween undoes AddBusinessDays exactly for these starts and lengths. */
  method AddThenCount(t: Moment, n: int) returns (days: int)
    requires IsDate(t.date)
    ensures days == n <==> Invertible(t.date, n)
  {
    hide SignedWeekdays, Walk, IsWeekday;
    var r := AddBusinessDays(t, n);
    RoundTrip(t.date, n);
    days := BusinessDaysBetween(t, r);
  }

  lemma WalkNowhere(t: Date)
    requires IsDate(t)
    ensures WalkForward(t, 0) == t
  {
  }

  /** Only the cut-off separates the method from the walk: beyond it the two never meet. */
  lemma ClampExact(t: Date, n: int)
    requires IsDate(t)
    ensures Walk(t, Clamp(n)) == Walk(t, n) <==> -MAX_DAYS <= n <= MAX_DAYS
  {
    hide DaysFromCivil, Count, WalkForward, WalkBackward;
    var m := Clamp(n);
    if n > MAX_DAYS {
      WalkForwardEnds(t, m);
      WalkForwardEnds(t, n);
    } else if n < -MAX_DAYS {
      WalkBackwardEnds(t, -m);
      WalkBackwardEnds(t, -n);
    }
  }
}
