/** When a scheduled test runs next. */
module NextRun {
  import opened CivilCalendar

  function WeekdayOr(day: int): (w: int)
    ensures 0 <= w <= 6 && (w == day || (w == 0 && (day < 0 || day > 6)))
  {
    if 0 <= day <= 6 then day else 0
  }

  function MonthDayOr(day: int): (d: int)
    ensures 1 <= d <= 28 && (d == day || (d == 1 && (day < 1 || day > 28)))
  {
    if 1 <= day <= 28 then day else 1
  }

  /** The instant of a monthly run in month `m`. */
  function InMonth(m: int, mday: int, tod: int): int {
    (MonthStart(m) + mday - 1) * DAY_S + tod
  }

  /** The same date and time a month later, as the broken-down time of `t` counts months. */
  function MonthLater(t: int): int {
    t + LengthOf(MonthOf(DayNo(t))) * DAY_S
  }

  /** Days from today to the next weekday `w`, a week when it is today. */
  function DaysAhead(w: int, now: nat): int {
    var delta := (w - WDay(now) + 7) % 7;
    if delta == 0 then 7 else delta
  }

  /** The next run after `now`; any other frequency means a day from now. */
  function NextRunTs(freq: string, hour: int, min: int, day: int, now: nat): int {
    var tod := hour * 3600 + min * 60;
    if freq == "daily" then
      var cand := DayNo(now) * DAY_S + tod;
      if cand <= now then cand + DAY_S else cand
    else if freq == "weekly" then
      (DayNo(now) + DaysAhead(WeekdayOr(day), now)) * DAY_S + tod
    else if freq == "monthly" then
      var cand := InMonth(MonthOf(DayNo(now)), MonthDayOr(day), tod);
      if cand <= now then MonthLater(cand) else cand
    else now + DAY_S
  }

  /** What the broken-down time of now stands for once its time of day and its day are set. */
  lemma Composed(now: nat, hour: int, min: int, k: int, d: int)
    ensures var t := LocalTime(now).(sec := 0, min := min, hour := hour);
            var tod := hour * 3600 + min * 60;
            && t.wday == WDay(now)
            && MkTime(t.(mday := t.mday + k)) == (DayNo(now) + k) * DAY_S + tod
            && MkTime(t.(mday := d)) == InMonth(MonthOf(DayNo(now)), d, tod)
  {
    hide MonthOf, MonthStart, DayNo;
    var m := MonthOf(DayNo(now));
    assert 12 * (1970 + m / 12 - 1970) + m % 12 == m;
  }

  method ComputeNextRun(freq: string, hour: int, min: int, day: int, now: nat) returns (next: int)
    ensures next == NextRunTs(freq, hour, min, day, now)
  {
    hide MkTime, LocalTime, MonthOf, LengthOf, DayNo, WDay, InMonth;
    Composed(now, hour, min, 0, MonthDayOr(day));
    Composed(now, hour, min, DaysAhead(WeekdayOr(day), now), 0);
    var t := LocalTime(now);
    t := t.(sec := 0, min := min, hour := hour);
    if freq == "daily" {
      var cand := MkTime(t);
      assert cand == MkTime(t.(mday := t.mday + 0));
      return if cand <= now then cand + 86400 else cand;
    }
    if freq == "weekly" {
      var wday := if day >= 0 && day <= 6 then day else 0;
      var delta := (wday - t.wday + 7) % 7;
      if delta == 0 {
        t := t.(mday := t.mday + 7);
      } else {
        t := t.(mday := t.mday + delta);
      }
      return MkTime(t);
    }
    if freq == "monthly" {
      t := t.(mday := if day >= 1 && day <= 28 then day else 1);
      var cand := MkTime(t);
      // The conversion leaves the fields in range.
      t := LocalTime(cand);
      if cand <= now {
        NextMonthOf(cand);
        t := t.(mon := t.mon + 1);
        cand := MkTime(t);
      }
      return cand;
    }
    return now + 86400;
  }

  // ------------------------------------------------------------ what is promised

  /** `next` is the first instant after `now` that matches. */
  ghost predicate IsLeastAfter(now: nat, next: int, matches: int -> bool) {
    now < next && matches(next) && forall t: int :: now < t < next ==> !matches(t)
  }

  lemma DayAndTime(d: int, tod: int)
    requires 0 <= tod < DAY_S
    ensures DayNo(d * DAY_S + tod) == d && (d * DAY_S + tod) % DAY_S == tod
  {
  }

  lemma TimeOfDay(hour: int, min: int)
    requires ValidTime(hour, min)
    ensures 0 <= hour * 3600 + min * 60 < DAY_S
  {
  }

  lemma FromDayAndTime(t: int)
    ensures t == DayNo(t) * DAY_S + t % DAY_S
  {
  }

  /** No instant of that time of day lies between now and the next one. */
  lemma NoneBetween(d: int, r: int, e: int, tod: int)
    requires 0 <= r < DAY_S && 0 <= tod < DAY_S && d * DAY_S + r < e * DAY_S + tod
    ensures (if d * DAY_S + tod <= d * DAY_S + r then (d + 1) * DAY_S + tod else d * DAY_S + tod) <= e * DAY_S + tod
  {
  }

  lemma DailyIsLeast(hour: int, min: int, day: int, now: nat)
    requires ValidTime(hour, min)
    ensures IsLeastAfter(now, NextRunTs("daily", hour, min, day, now), (t: int) => AtTime(t, hour, min))
  {
    var d, tod, next := DayNo(now), hour * 3600 + min * 60, NextRunTs("daily", hour, min, day, now);
    assert next == if d * DAY_S + tod <= now then (d + 1) * DAY_S + tod else d * DAY_S + tod;
    TimeOfDay(hour, min);
    DayAndTime(d, tod);
    DayAndTime(d + 1, tod);
    FromDayAndTime(now);
    hide NextRunTs, DayNo;
    forall t: int | now < t < next ensures !AtTime(t, hour, min) {
      FromDayAndTime(t);
      if AtTime(t, hour, min) { NoneBetween(d, now % DAY_S, DayNo(t), tod); }
    }
  }

  predicate Weekly(t: int, wday: int, hour: int, min: int) {
    AtTime(t, hour, min) && WDay(t) == wday
  }

  /** A weekly run falls on the right weekday at the right time, on one of the next seven days, and no
      earlier day after today matches. */
  lemma WeeklyIsNextWeekday(hour: int, min: int, day: int, now: nat)
    requires ValidTime(hour, min)
    ensures var next := NextRunTs("weekly", hour, min, day, now);
            && next > now && Weekly(next, WeekdayOr(day), hour, min)
            && 1 <= DayNo(next) - DayNo(now) <= 7
            && forall t: int :: DayNo(now) < DayNo(t) && t < next ==> !Weekly(t, WeekdayOr(day), hour, min)
  {
    var tod, next := hour * 3600 + min * 60, NextRunTs("weekly", hour, min, day, now);
    var ahead := DaysAhead(WeekdayOr(day), now);
    TimeOfDay(hour, min);
    DayAndTime(DayNo(now) + ahead, tod);
    FromDayAndTime(now);
    WeekdayAhead(DayNo(now), WeekdayOr(day), ahead);
    hide DayNo;
    forall t: int | DayNo(now) < DayNo(t) && t < next ensures !Weekly(t, WeekdayOr(day), hour, min) {
      if AtTime(t, hour, min) {
        FromDayAndTime(t);
        NoEarlierWeekday(DayNo(now), WeekdayOr(day), ahead, DayNo(t) - DayNo(now));
      }
    }
  }

  lemma WeekdayAhead(d: int, w: int, ahead: int)
    requires 0 <= w <= 6 && var delta := (w - (d + 4) % 7 + 7) % 7; ahead == if delta == 0 then 7 else delta
    ensures (d + ahead + 4) % 7 == w
  {
  }

  lemma NoEarlierWeekday(d: int, w: int, ahead: int, k: int)
    requires 0 <= w <= 6 && var delta := (w - (d + 4) % 7 + 7) % 7; ahead == if delta == 0 then 7 else delta
    requires 0 < k < ahead
    ensures (d + k + 4) % 7 != w
  {
  }

  /** The weekly run skips a match that is still ahead today: it is the first match after `now` if and
      only if today is another weekday or today's time has passed. */
  lemma WeeklyIsLeastUnlessToday(hour: int, min: int, day: int, now: nat)
    requires ValidTime(hour, min)
    ensures var next := NextRunTs("weekly", hour, min, day, now);
            IsLeastAfter(now, next, (t: int) => Weekly(t, WeekdayOr(day), hour, min)) <==>
            WDay(now) != WeekdayOr(day) || hour * 3600 + min * 60 <= now % DAY_S
  {
    var tod, next := hour * 3600 + min * 60, NextRunTs("weekly", hour, min, day, now);
    var w := WeekdayOr(day);
    WeeklyIsNextWeekday(hour, min, day, now);
    TimeOfDay(hour, min);
    FromDayAndTime(now);
    var today := DayNo(now) * DAY_S + tod;
    DayAndTime(DayNo(now), tod);
    var matches := (t: int) => Weekly(t, WeekdayOr(day), hour, min);
    assert matches(next);
    if WDay(now) == w && tod > now % DAY_S {
      assert now < today < next && matches(today);
    } else {
      forall t: int | now < t < next ensures !matches(t) {
        if DayNo(t) <= DayNo(now) { SameDay(now, t); }
      }
    }
  }

  lemma SameDay(a: int, b: int)
    requires a < b && DayNo(b) <= DayNo(a)
    ensures DayNo(a) == DayNo(b) && a % DAY_S < b % DAY_S
  {
  }

  predicate Monthly(t: int, mday: int, hour: int, min: int) {
    AtTime(t, hour, min) && MDay(t) == mday
  }

  lemma InMonthMatches(m: int, mday: int, hour: int, min: int)
    requires ValidTime(hour, min) && 1 <= mday <= 28
    ensures var t := InMonth(m, mday, hour * 3600 + min * 60);
            Monthly(t, mday, hour, min) && MonthOf(DayNo(t)) == m
  {
    TimeOfDay(hour, min);
    DayAndTime(MonthStart(m) + mday - 1, hour * 3600 + min * 60);
    MonthsAreApart(m, m + 1);
    MonthOfIsUnique(MonthStart(m) + mday - 1, m);
  }

  lemma MatchIsInMonth(t: int, mday: int, hour: int, min: int)
    requires Monthly(t, mday, hour, min)
    ensures t == InMonth(MonthOf(DayNo(t)), mday, hour * 3600 + min * 60)
  {
    FromDayAndTime(t);
  }

  lemma InMonthIncreases(m: int, n: int, mday: int, tod: int)
    requires m <= n
    ensures InMonth(m, mday, tod) <= InMonth(n, mday, tod)
  {
    MonthsOrdered(m, n);
  }

  lemma MonthsFollowTime(a: int, b: int)
    requires a <= b
    ensures MonthOf(DayNo(a)) <= MonthOf(DayNo(b))
  {
    var m, n := MonthOf(DayNo(a)), MonthOf(DayNo(b));
    assert DayNo(a) <= DayNo(b);
    if n < m { MonthsOrdered(n + 1, m); }
  }

  lemma LaterMonthIsLater(a: int, b: int)
    requires MonthOf(DayNo(a)) < MonthOf(DayNo(b))
    ensures a < b
  {
    if b <= a { MonthsFollowTime(b, a); }
  }

  /** A monthly run is the first match after `now`, over the turn of the year included. */
  lemma MonthlyIsLeast(hour: int, min: int, day: int, now: nat)
    requires ValidTime(hour, min)
    ensures IsLeastAfter(now, NextRunTs("monthly", hour, min, day, now),
                         (t: int) => Monthly(t, MonthDayOr(day), hour, min))
  {
    MonthlyMatches(hour, min, day, now);
    forall t: int | now < t < NextRunTs("monthly", hour, min, day, now)
      ensures !Monthly(t, MonthDayOr(day), hour, min)
    {
      if Monthly(t, MonthDayOr(day), hour, min) { LaterMatchIsNoEarlier(hour, min, day, now, t); }
    }
  }

  lemma MonthlyMatches(hour: int, min: int, day: int, now: nat)
    requires ValidTime(hour, min)
    ensures var next := NextRunTs("monthly", hour, min, day, now);
            next > now && Monthly(next, MonthDayOr(day), hour, min)
  {
    var d, m := MonthDayOr(day), MonthOf(DayNo(now));
    InMonthMatches(m, d, hour, min);
    InMonthMatches(m + 1, d, hour, min);
    NextIsInMonth(hour, min, day, now);
    hide NextRunTs, MonthOf, DayNo, InMonth, MonthDayOr, Monthly;
    LaterMonthIsLater(now, InMonth(m + 1, d, hour * 3600 + min * 60));
  }

  lemma LaterMatchIsNoEarlier(hour: int, min: int, day: int, now: nat, t: int)
    requires ValidTime(hour, min) && now < t && Monthly(t, MonthDayOr(day), hour, min)
    ensures NextRunTs("monthly", hour, min, day, now) <= t
  {
    var tod, d, m, k := hour * 3600 + min * 60, MonthDayOr(day), MonthOf(DayNo(now)), MonthOf(DayNo(t));
    NextIsInMonth(hour, min, day, now);
    MatchIsInMonth(t, d, hour, min);
    MonthsFollowTime(now, t);
    hide *;
    InMonthIncreases(m, k, d, tod);
    if k > m { InMonthIncreases(m + 1, k, d, tod); }
  }

  lemma NextIsInMonth(hour: int, min: int, day: int, now: nat)
    requires ValidTime(hour, min)
    ensures var tod, d, m := hour * 3600 + min * 60, MonthDayOr(day), MonthOf(DayNo(now));
            && 1 <= d <= 28
            && NextRunTs("monthly", hour, min, day, now) ==
                 InMonth(if InMonth(m, d, tod) <= now then m + 1 else m, d, tod)
  {
    hide MonthStart, MonthOf, LengthOf, Monthly, DayNo;
    var d, m := MonthDayOr(day), MonthOf(DayNo(now));
    InMonthMatches(m, d, hour, min);
    NextMonthStart(m);
  }

  // ------------------------------------------------------------ any hour and minute

  /** The condition under which the next run lies in the future, for whatever hour and minute a schedule
      was stored with. */
  predicate RunsLater(freq: string, hour: int, min: int, day: int, now: nat) {
    var tod := hour * 3600 + min * 60;
    if freq == "daily" then tod + DAY_S > now % DAY_S
    else if freq == "weekly" then DaysAhead(WeekdayOr(day), now) * DAY_S + tod > now % DAY_S
    else if freq == "monthly" then MonthLater(InMonth(MonthOf(DayNo(now)), MonthDayOr(day), tod)) > now
    else true
  }

  lemma NextRunIsLaterIff(freq: string, hour: int, min: int, day: int, now: nat)
    ensures NextRunTs(freq, hour, min, day, now) > now <==> RunsLater(freq, hour, min, day, now)
  {
    hide MonthStart, MonthOf, LengthOf, DaysAhead;
    FromDayAndTime(now);
  }

  /** With a valid time of day it always does. */
  lemma NextRunIsLater(freq: string, hour: int, min: int, day: int, now: nat)
    requires ValidTime(hour, min)
    ensures NextRunTs(freq, hour, min, day, now) > now
  {
    hide NextRunTs;
    if freq == "daily" {
      DailyIsLeast(hour, min, day, now);
    } else if freq == "weekly" {
      WeeklyIsNextWeekday(hour, min, day, now);
    } else if freq == "monthly" {
      MonthlyIsLeast(hour, min, day, now);
    } else {
      OtherwiseTomorrow(freq, hour, min, day, now);
    }
  }

  lemma OtherwiseTomorrow(freq: string, hour: int, min: int, day: int, now: nat)
    requires freq != "daily" && freq != "weekly" && freq != "monthly"
    ensures NextRunTs(freq, hour, min, day, now) == now + 86400
  {
  }

  /** A daily schedule stored with hour -30 is due again at once. */
  lemma StaysDue()
    ensures NextRunTs("daily", -30, 0, 1, 86400) == 64800
  {
  }

  /** A weekly run at noon on a Thursday, asked for at midnight of a Thursday, is put off by a week. */
  lemma TodaySkipped()
    ensures WDay(0) == 4 && Weekly(43200, 4, 12, 0) && NextRunTs("weekly", 12, 0, 4, 0) == 648000
  {
  }
}
