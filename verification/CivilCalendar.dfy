/**
 The civil calendar without daylight saving time: days, months and weekdays, and the conversions that
 `localtime_r` and `mktime` perform.  Instants are seconds of local time, from 1970 and before it.
 */
module CivilCalendar {

  const DAY_S: int := 86400

  predicate IsLeap(year: int) {
    year % 4 == 0 && (year % 100 != 0 || year % 400 == 0)
  }

  /** `mon` counts from 0, as in `struct tm`. */
  function MonthLength(year: int, mon: nat): (n: nat)
    requires mon < 12
    ensures 28 <= n <= 31
  {
    if mon == 1 then if IsLeap(year) then 29 else 28
    else if mon in {3, 5, 8, 10} then 30
    else 31
  }

  /** The length of month `m`, counted from January 1970. */
  function LengthOf(m: int): (n: nat)
    ensures 28 <= n <= 31
  {
    MonthLength(1970 + m / 12, m % 12)
  }

  /** The number of the day on which month `m` begins. */
  function MonthStart(m: int): int
    decreases if m < 0 then -m else m
  {
    if m == 0 then 0
    else if m > 0 then MonthStart(m - 1) + LengthOf(m - 1)
    else MonthStart(m + 1) - LengthOf(m)
  }

  lemma NextMonthStart(m: int)
    ensures MonthStart(m + 1) == MonthStart(m) + LengthOf(m)
  {
  }

  lemma {:induction false} MonthsAreApart(m: int, n: int)
    requires m < n
    ensures MonthStart(m) + 28 <= MonthStart(n)
    decreases n - m
  {
    NextMonthStart(n - 1);
    if m < n - 1 { MonthsAreApart(m, n - 1); }
  }

  /** The leap days before year `y`, up to a constant. */
  function LeapDays(y: int): int {
    (y - 1) / 4 - (y - 1) / 100 + (y - 1) / 400
  }

  lemma LeapDaysNext(y: int)
    ensures LeapDays(y + 1) == LeapDays(y) + if IsLeap(y) then 1 else 0
  {
    QuotientNext(y - 1, 4);
    QuotientNext(y - 1, 100);
    QuotientNext(y - 1, 400);
    CenturiesAreFourthYears(y);
  }

  lemma CenturiesAreFourthYears(y: int)
    ensures y % 400 == 0 ==> y % 100 == 0
    ensures y % 100 == 0 ==> y % 4 == 0
  {
  }

  lemma QuotientNext(a: int, n: int)
    requires n > 0
    ensures (a + 1) / n == a / n + if (a + 1) % n == 0 then 1 else 0
  {
    var q, r := a / n, a % n;
    assert a == q * n + r;
    if r == n - 1 {
      QuotientIs(a + 1, q + 1, 0, n);
    } else {
      QuotientIs(a + 1, q, r + 1, n);
    }
  }

  lemma QuotientIs(a: int, q: int, r: int, n: int)
    requires n > 0 && a == q * n + r && 0 <= r < n
    ensures a / n == q && a % n == r
  {
    var d := a / n - q;
    assert d * n == r - a % n;
    MultipleIsAway(d, n);
  }

  lemma MultipleIsAway(d: int, n: int)
    requires n > 0
    ensures d >= 1 ==> d * n >= n
    ensures d <= -1 ==> d * n <= -n
  {
  }

  function Twelfths(mon: nat): nat {
    (367 * mon + 5) / 12
  }

  /** The days of a year before its month `mon`. */
  function BeforeMonth(y: int, mon: nat): int {
    Twelfths(mon) - if mon < 2 then 0 else 2 - (LeapDays(y + 1) - LeapDays(y))
  }

  lemma MonthsInYear(y: int, mon: nat)
    requires mon < 12
    ensures LengthOf(12 * (y - 1970) + mon) == BeforeMonth(y, mon + 1) - BeforeMonth(y, mon)
    ensures BeforeMonth(y, 12) == 365 + LeapDays(y + 1) - LeapDays(y) && BeforeMonth(y, 0) == 0
  {
    LeapDaysNext(y);
    LengthInYear(y, mon);
    TwelfthsStep(mon);
    hide IsLeap, LeapDays, LengthOf, Twelfths;
  }

  lemma TwelfthsStep(mon: nat)
    requires mon < 12
    ensures Twelfths(mon + 1) - Twelfths(mon) == if mon in {1, 3, 5, 8, 10} then 30 else 31
    ensures Twelfths(12) == 367 && Twelfths(0) == 0
  {
    if mon == 0 {
    } else if mon == 1 {
    } else if mon == 2 {
    } else if mon == 3 {
    } else if mon == 4 {
    } else if mon == 5 {
    } else if mon == 6 {
    }
  }

  lemma LengthInYear(y: int, mon: nat)
    requires mon < 12
    ensures LengthOf(12 * (y - 1970) + mon) == MonthLength(y, mon)
  {
    QuotientIs(12 * (y - 1970) + mon, y - 1970, mon, 12);
  }

  lemma {:induction false} MonthFromJanuary(y: int, mon: nat)
    requires mon <= 12
    ensures MonthStart(12 * (y - 1970) + mon) == MonthStart(12 * (y - 1970)) + BeforeMonth(y, mon)
  {
    hide BeforeMonth, LengthOf, MonthStart;
    if mon == 0 {
      MonthsInYear(y, 0);
    } else {
      MonthFromJanuary(y, mon - 1);
      MonthsInYear(y, mon - 1);
      NextMonthStart(12 * (y - 1970) + mon - 1);
    }
  }

  lemma YearAfter(y: int)
    ensures MonthStart(12 * (y + 1 - 1970)) == MonthStart(12 * (y - 1970)) + 365 + LeapDays(y + 1) - LeapDays(y)
  {
    hide MonthStart, LeapDays;
    MonthFromJanuary(y, 12);
    MonthsInYear(y, 11);
    assert 12 * (y + 1 - 1970) == 12 * (y - 1970) + 12;
  }

  lemma {:induction false} YearStart(y: int)
    ensures MonthStart(12 * (y - 1970)) == 365 * (y - 1970) + LeapDays(y) - 477
    decreases if y < 1970 then 1970 - y else y - 1970
  {
    if y == 1970 {
    } else {
      hide MonthStart, LeapDays;
      if y > 1970 {
        YearStart(y - 1);
        YearAfter(y - 1);
      } else {
        YearStart(y + 1);
        YearAfter(y);
      }
    }
  }

  /** The Gregorian calendar in one formula: the number of the day on which a month begins, from 1970 and
      before it, with a leap day in every fourth year, save those of a century unless it is a fourth one. */
  lemma {:induction false} MonthStartIs(y: int, mon: nat)
    requires mon < 12
    ensures var leaps := (y - 1) / 4 - (y - 1) / 100 + (y - 1) / 400;
            var leap := if y % 400 == 0 || (y % 4 == 0 && y % 100 != 0) then 1 else 0;
            MonthStart(12 * (y - 1970) + mon) ==
              365 * (y - 1970) + leaps - 477 + (367 * mon + 5) / 12 - (if mon < 2 then 0 else 2 - leap)
  {
    hide MonthStart;
    YearStart(y);
    MonthFromJanuary(y, mon);
    LeapDaysNext(y);
  }

  /** Known days: 1 January 1900, 29 February 2000, which was a Tuesday, and 1 March 2100. */
  lemma KnownDays()
    ensures MonthStart(12 * (1900 - 1970)) == -25567
    ensures MonthStart(12 * (2000 - 1970) + 1) + 28 == 11016 && LengthOf(12 * (2000 - 1970) + 1) == 29
    ensures WDay(11016 * 86400) == 2
    ensures MonthStart(12 * (2100 - 1970) + 2) == 47541 && LengthOf(12 * (2100 - 1970) + 1) == 28
  {
    hide MonthStart;
    MonthStartIs(1900, 0);
    MonthStartIs(2000, 1);
    MonthStartIs(2100, 2);
  }

  function MonthUp(day: int, m: int): (r: int)
    requires MonthStart(m) <= day
    ensures MonthStart(r) <= day < MonthStart(r + 1)
    decreases day - MonthStart(m)
  {
    NextMonthStart(m);
    if day < MonthStart(m + 1) then m else MonthUp(day, m + 1)
  }

  function MonthDown(day: int, m: int): (r: int)
    requires day < MonthStart(m)
    ensures MonthStart(r) <= day < MonthStart(r + 1)
    decreases MonthStart(m) - day
  {
    NextMonthStart(m - 1);
    if MonthStart(m - 1) <= day then m - 1 else MonthDown(day, m - 1)
  }

  /** The month that contains a day. */
  function MonthOf(day: int): (r: int)
    ensures MonthStart(r) <= day < MonthStart(r + 1)
  {
    if day >= 0 then MonthUp(day, 0) else MonthDown(day, 0)
  }

  lemma MonthOfIsUnique(day: int, m: int)
    requires MonthStart(m) <= day < MonthStart(m + 1)
    ensures MonthOf(day) == m
  {
    hide MonthOf, MonthStart;
    var r := MonthOf(day);
    if r < m { MonthsOrdered(r + 1, m); }
    if m < r { MonthsOrdered(m + 1, r); }
  }

  lemma {:induction false} MonthsOrdered(m: int, n: int)
    requires m <= n
    ensures MonthStart(m) <= MonthStart(n)
  {
    if m < n { MonthsAreApart(m, n); }
  }

  function DayNo(t: int): int {
    t / DAY_S
  }

  /** Day of the month, from 1. */
  function MDay(t: int): int {
    DayNo(t) - MonthStart(MonthOf(DayNo(t))) + 1
  }

  /** Day of the week, Sunday being 0; 1 January 1970 was a Thursday. */
  function WDay(t: int): nat {
    (DayNo(t) + 4) % 7
  }

  predicate AtTime(t: int, hour: int, min: int) {
    t % DAY_S == hour * 3600 + min * 60
  }

  predicate ValidTime(hour: int, min: int) {
    0 <= hour < 24 && 0 <= min < 60
  }

  /** The fields of `struct tm` that matter here; they may be out of range before `MkTime`. */
  datatype Tm = Tm(year: int, mon: int, mday: int, hour: int, min: int, sec: int, wday: int)

  function LocalTime(t: int): Tm {
    var m := MonthOf(DayNo(t));
    Tm(1970 + m / 12, m % 12, MDay(t), t % DAY_S / 3600, t % 3600 / 60, t % 60, WDay(t))
  }

  /** Fields out of range carry over into the next larger ones, as far as the year. */
  function MkTime(tm: Tm): int {
    (MonthStart(12 * (tm.year - 1970) + tm.mon) + tm.mday - 1) * DAY_S + tm.hour * 3600 + tm.min * 60 + tm.sec
  }

  /** `MkTime` undoes `LocalTime`. */
  lemma RoundTrip(t: int)
    ensures MkTime(LocalTime(t)) == t
  {
    hide MonthStart, MonthOf;
    var m := MonthOf(DayNo(t));
    assert 12 * (m / 12) + m % 12 == m;
    SecondsOfDay(t);
  }

  /** Moving a broken-down time to the next month adds the length of its month. */
  lemma NextMonthOf(t: int)
    ensures var tm := LocalTime(t);
            MkTime(tm.(mon := tm.mon + 1)) == t + LengthOf(MonthOf(DayNo(t))) * DAY_S
  {
    hide MonthStart, MonthOf, LengthOf;
    var m := MonthOf(DayNo(t));
    assert 12 * (m / 12) + m % 12 == m;
    NextMonthStart(m);
    RoundTrip(t);
  }

  lemma SecondsOfDay(t: int)
    ensures DayNo(t) * DAY_S + t % DAY_S / 3600 * 3600 + t % 3600 / 60 * 60 + t % 60 == t
  {
    var d, s := t / DAY_S, t % DAY_S;
    SameInHour(t, 24 * d, s);
    SameInMinute(t, 1440 * d, s);
    SameInMinute(s, s / 3600 * 60, s % 3600);
  }

  lemma SameInHour(t: int, k: int, s: int)
    requires t == k * 3600 + s
    ensures t % 3600 == s % 3600
  {
  }

  lemma SameInMinute(t: int, k: int, s: int)
    requires t == k * 60 + s
    ensures t % 60 == s % 60
  {
  }
}
