/** The scheduler pass that runs about once a minute: it starts at most one due test. */
module Scheduler {
  import opened Options
  import opened TestRunner
  import opened NextRun
  import CivilCalendar

  datatype SkipReason = SocTooLow | VoltageTooLow | Maintenance | StartFailed

  datatype Schedule = Schedule(kind: TestType, frequency: string, hour: int, min: int, day: int, nextRunTs: int,
                               enabled: bool, lastSkip: Option<(int, SkipReason)>)

  predicate Due(r: Schedule, now: int) {
    r.enabled && r.nextRunTs <= now
  }

  function Moved(r: Schedule, now: nat): Schedule {
    r.(nextRunTs := NextRunTs(r.frequency, r.hour, r.min, r.day, now))
  }

  function Skipped(r: Schedule, now: nat, why: SkipReason): Schedule {
    Moved(r, now).(lastSkip := Some((now, why)))
  }

  function WhyNot(limits: Limits, b: Battery, maintenance: bool): Option<SkipReason> {
    if b.soc < limits.socFloorPct + 5.0 then Some(SocTooLow)
    else if b.voltageV < limits.voltageFloorV + 0.5 then Some(VoltageTooLow)
    else if maintenance then Some(Maintenance)
    else None
  }

  /** The runner and the schedules after visiting the schedules from `i` on. */
  function PassFrom(s: State, rows: seq<Schedule>, i: nat, latest: Option<Battery>, maintenance: bool, accepts: bool,
                    now: nat): (State, seq<Schedule>)
    requires latest.Some? && i <= |rows|
    decreases |rows| - i
  {
    if i == |rows| then (s, rows)
    else if !Due(rows[i], now) then PassFrom(s, rows, i + 1, latest, maintenance, accepts, now)
    else
      var why := WhyNot(s.limits, latest.value, maintenance);
      var begun := Step(s, Start(rows[i].kind, latest, maintenance, accepts));
      if why.Some? then
        PassFrom(s, rows[i := Skipped(rows[i], now, why.value)], i + 1, latest, maintenance, accepts, now)
      else if Ready(s, latest, maintenance) && accepts then (begun, rows[i := Moved(rows[i], now)])
      else PassFrom(s, rows[i := Skipped(rows[i], now, StartFailed)], i + 1, latest, maintenance, accepts, now)
  }

  function Pass(s: State, rows: seq<Schedule>, latest: Option<Battery>, maintenance: bool, accepts: bool, now: nat):
      (State, seq<Schedule>)
  {
    if !s.open || s.running || latest.None? || !latest.value.valid then (s, rows)
    else PassFrom(s, rows, 0, latest, maintenance, accepts, now)
  }

  class ScheduleTable {
    var rows: seq<Schedule>

    constructor (rows: seq<Schedule>)
      ensures this.rows == rows
    {
      this.rows := rows;
    }
  }

  method CheckScheduledTests(table: ScheduleTable, runner: TestRunner, latest: Option<Battery>,
                             maintenance: bool, now: nat)
    requires runner.Valid()
    modifies table, runner, runner.db`tables
    ensures runner.Valid()
    ensures (runner.Abs(), table.rows) ==
              Pass(old(runner.Abs()), old(table.rows), latest, maintenance, runner.db.accepts, now)
  {
    hide Step, NextRunTs;
    if !runner.db.isOpen || runner.running { return; }
    if latest.None? || !latest.value.valid { return; }
    var bat, lim := latest.value, runner.limits;
    var scheds := table.rows;
    for i := 0 to |scheds|
      invariant runner.Valid() && runner.Abs() == old(runner.Abs()) && |table.rows| == |scheds|
      invariant table.rows[i..] == scheds[i..]
      invariant PassFrom(old(runner.Abs()), old(table.rows), 0, latest, maintenance, runner.db.accepts, now) ==
                PassFrom(runner.Abs(), table.rows, i, latest, maintenance, runner.db.accepts, now)
    {
      var s := scheds[i];
      assert table.rows[i] == s by { assert table.rows[i..][0] == scheds[i..][0]; }
      if s.enabled && s.nextRunTs <= now {
        var reason: Option<SkipReason> := None;
        if bat.soc < lim.socFloorPct + 5.0 {
          reason := Some(SocTooLow);
        } else if bat.voltageV < lim.voltageFloorV + 0.5 {
          reason := Some(VoltageTooLow);
        } else if maintenance {
          reason := Some(Maintenance);
        }
        if reason.Some? {
          var next := ComputeNextRun(s.frequency, s.hour, s.min, s.day, now);
          table.rows := table.rows[i := s.(nextRunTs := next, lastSkip := Some((now, reason.value)))];
        } else {
          StartMeaning(runner.Abs(), s.kind, latest, maintenance, runner.db.accepts);
          var id := runner.StartTest(s.kind, latest, maintenance);
          var next := ComputeNextRun(s.frequency, s.hour, s.min, s.day, now);
          if id > 0 {
            table.rows := table.rows[i := s.(nextRunTs := next)];
            return;
          }
          table.rows := table.rows[i := s.(nextRunTs := next, lastSkip := Some((now, StartFailed)))];
        }
      }
    }
  }

  /** A visited schedule keeps its settings and gets the next run of its frequency, which lies past now
      exactly when its hour and minute allow. */
  ghost predicate Rescheduled(r: Schedule, r': Schedule, now: nat) {
    && r'.(nextRunTs := r.nextRunTs, lastSkip := r.lastSkip) == r
    && r'.nextRunTs == NextRunTs(r.frequency, r.hour, r.min, r.day, now)
    && (r'.nextRunTs > now <==> RunsLater(r.frequency, r.hour, r.min, r.day, now))
    && (CivilCalendar.ValidTime(r.hour, r.min) ==> r'.nextRunTs > now)
  }

  /** What one pass does: the schedules before some `k` are visited.  A visited due schedule is
      rescheduled; every other schedule is untouched.  At most one test is started, it is that of the last
      visited schedule, and if none is started then all schedules are visited. */
  ghost predicate PassEffect(s: State, rows: seq<Schedule>, i: nat, k: nat, s': State, rows': seq<Schedule>, now: nat) {
    && i <= k <= |rows| == |rows'|
    && (forall j :: 0 <= j < |rows| ==>
          if i <= j < k && Due(rows[j], now) then Rescheduled(rows[j], rows'[j], now)
          else rows'[j] == rows[j])
    && (s' == s ==> k == |rows|)
    && (s' != s ==>
          && i < k && Due(rows[k - 1], now)
          && |s'.db.runs| == |s.db.runs| + 1 && s'.db.runs[..|s.db.runs|] == s.db.runs
          && s'.db.runs[|s.db.runs|].testType == rows[k - 1].kind
          && s'.running && s'.id == |s.db.runs| + 1)
  }

  lemma {:induction false} PassFromEffect(s: State, rows: seq<Schedule>, i: nat, latest: Option<Battery>,
                                          maintenance: bool, accepts: bool, now: nat) returns (k: nat)
    requires latest.Some? && i <= |rows| && !s.running
    ensures var (s', rows') := PassFrom(s, rows, i, latest, maintenance, accepts, now);
            PassEffect(s, rows, i, k, s', rows', now)
    decreases |rows| - i
  {
    hide NextRunTs, RunsLater;
    k := i;
    if i < |rows| {
      var r := rows[i];
      NextRunIsLaterIff(r.frequency, r.hour, r.min, r.day, now);
      if CivilCalendar.ValidTime(r.hour, r.min) { NextRunIsLater(r.frequency, r.hour, r.min, r.day, now); }
      var why := WhyNot(s.limits, latest.value, maintenance);
      if !Due(r, now) {
        k := PassFromEffect(s, rows, i + 1, latest, maintenance, accepts, now);
      } else if why.None? && Ready(s, latest, maintenance) && accepts {
        k := i + 1;
      } else {
        var skipped := rows[i := Skipped(r, now, if why.Some? then why.value else StartFailed)];
        k := PassFromEffect(s, skipped, i + 1, latest, maintenance, accepts, now);
      }
    }
  }

  lemma PassStartsAtMostOne(s: State, rows: seq<Schedule>, latest: Option<Battery>, maintenance: bool, accepts: bool,
                            now: nat) returns (k: nat)
    requires s.open && !s.running && latest.Some? && latest.value.valid
    ensures var (s', rows') := Pass(s, rows, latest, maintenance, accepts, now);
            PassEffect(s, rows, 0, k, s', rows', now)
  {
    k := PassFromEffect(s, rows, 0, latest, maintenance, accepts, now);
  }

  /** Nothing stands in the way of a test: the battery is 5 percent and half a volt above the floors, no
      maintenance is going on, and the database takes the row. */
  ghost predicate Favourable(s: State, b: Battery, maintenance: bool, accepts: bool) {
    && b.soc >= s.limits.socFloorPct + 5.0 && b.voltageV >= s.limits.voltageFloorV + 0.5
    && !maintenance && accepts
  }

  lemma {:induction false} PassFromStarts(s: State, rows: seq<Schedule>, i: nat, k: nat, latest: Option<Battery>,
                                          maintenance: bool, accepts: bool, now: nat)
    requires s.open && !s.running && latest.Some? && latest.value.valid
    requires Favourable(s, latest.value, maintenance, accepts)
    requires i <= k < |rows| && rows[k].enabled && rows[k].nextRunTs <= now
    requires forall j :: i <= j < k ==> !(rows[j].enabled && rows[j].nextRunTs <= now)
    ensures PassFrom(s, rows, i, latest, maintenance, accepts, now) ==
              (Step(s, Start(rows[k].kind, latest, maintenance, accepts)), rows[k := Moved(rows[k], now)])
    decreases k - i
  {
    hide Step, Moved;
    if i < k { PassFromStarts(s, rows, i + 1, k, latest, maintenance, accepts, now); }
  }

  /** When nothing stands in the way, the test of the first schedule that is enabled and due starts; that
      schedule gets its next run and no skip is noted; all others wait. */
  lemma FirstDueStarts(s: State, rows: seq<Schedule>, k: nat, latest: Option<Battery>, maintenance: bool,
                       accepts: bool, now: nat)
    requires s.open && !s.running && latest.Some? && latest.value.valid
    requires Favourable(s, latest.value, maintenance, accepts)
    requires k < |rows| && rows[k].enabled && rows[k].nextRunTs <= now
    requires forall j :: 0 <= j < k ==> !(rows[j].enabled && rows[j].nextRunTs <= now)
    ensures var (s', rows') := Pass(s, rows, latest, maintenance, accepts, now);
            && s'.running && s'.kind == rows[k].kind && s'.id == |s.db.runs| + 1 && |s'.db.runs| == s'.id
            && |rows'| == |rows| && (forall j :: 0 <= j < |rows| && j != k ==> rows'[j] == rows[j])
            && Rescheduled(rows[k], rows'[k], now) && rows'[k].lastSkip == rows[k].lastSkip
  {
    var r := rows[k];
    PassFromStarts(s, rows, 0, k, latest, maintenance, accepts, now);
    StartsIff(s, r.kind, latest, maintenance, accepts);
    hide Step, NextRunTs, RunsLater, PassFrom;
    NextRunIsLaterIff(r.frequency, r.hour, r.min, r.day, now);
    if CivilCalendar.ValidTime(r.hour, r.min) { NextRunIsLater(r.frequency, r.hour, r.min, r.day, now); }
  }

  /** Why a due schedule is passed over, in the order in which the reasons are looked for. */
  ghost predicate NotedWhy(s: State, b: Battery, maintenance: bool, why: SkipReason) {
    if b.soc < s.limits.socFloorPct + 5.0 then why == SocTooLow
    else if b.voltageV < s.limits.voltageFloorV + 0.5 then why == VoltageTooLow
    else if maintenance then why == Maintenance
    else why == StartFailed
  }

  ghost predicate NotedSkip(s: State, r: Schedule, r': Schedule, b: Battery, maintenance: bool, now: nat) {
    && r'.lastSkip.Some? && r'.lastSkip.value.0 == now && NotedWhy(s, b, maintenance, r'.lastSkip.value.1)
    && r'.(nextRunTs := r.nextRunTs, lastSkip := r.lastSkip) == r
    && r'.nextRunTs == NextRunTs(r.frequency, r.hour, r.min, r.day, now)
  }

  lemma {:induction false} PassFromSkips(s: State, rows: seq<Schedule>, i: nat, latest: Option<Battery>,
                                         maintenance: bool, accepts: bool, now: nat)
    requires s.open && !s.running && latest.Some? && latest.value.valid && i <= |rows|
    requires !Favourable(s, latest.value, maintenance, accepts)
    ensures var (s', rows') := PassFrom(s, rows, i, latest, maintenance, accepts, now);
            && s' == s && |rows'| == |rows| && rows'[..i] == rows[..i]
            && forall j :: i <= j < |rows| ==>
                 if rows[j].enabled && rows[j].nextRunTs <= now
                 then NotedSkip(s, rows[j], rows'[j], latest.value, maintenance, now)
                 else rows'[j] == rows[j]
    decreases |rows| - i
  {
    hide Step, NextRunTs;
    if i < |rows| {
      var next := SkipOne(s, rows, i, latest, maintenance, accepts, now);
      hide PassFrom, NotedSkip;
      PassFromSkips(s, next, i + 1, latest, maintenance, accepts, now);
      var rows' := PassFrom(s, rows, i, latest, maintenance, accepts, now).1;
      assert rows'[..i + 1] == next[..i + 1];
      assert rows'[..i] == rows'[..i + 1][..i] && rows'[i] == rows'[..i + 1][i];
    }
  }

  lemma SkipOne(s: State, rows: seq<Schedule>, i: nat, latest: Option<Battery>, maintenance: bool, accepts: bool,
                now: nat) returns (next: seq<Schedule>)
    requires s.open && !s.running && latest.Some? && latest.value.valid && i < |rows|
    requires !Favourable(s, latest.value, maintenance, accepts)
    ensures |next| == |rows| && forall j :: 0 <= j < |rows| && j != i ==> next[j] == rows[j]
    ensures PassFrom(s, rows, i, latest, maintenance, accepts, now) ==
              PassFrom(s, next, i + 1, latest, maintenance, accepts, now)
    ensures if rows[i].enabled && rows[i].nextRunTs <= now
            then NotedSkip(s, rows[i], next[i], latest.value, maintenance, now)
            else next[i] == rows[i]
  {
    hide Step, NextRunTs;
    var why := WhyNot(s.limits, latest.value, maintenance);
    next := if !Due(rows[i], now) then rows
            else rows[i := Skipped(rows[i], now, if why.Some? then why.value else StartFailed)];
  }

  /** When something does, no test starts, and every schedule that is enabled and due is put off to its next
      run with the time and the reason noted. */
  lemma UnfavourableSkips(s: State, rows: seq<Schedule>, latest: Option<Battery>, maintenance: bool, accepts: bool,
                          now: nat)
    requires s.open && !s.running && latest.Some? && latest.value.valid
    requires !Favourable(s, latest.value, maintenance, accepts)
    ensures var (s', rows') := Pass(s, rows, latest, maintenance, accepts, now);
            && s' == s && |rows'| == |rows|
            && forall j :: 0 <= j < |rows| ==>
                 if rows[j].enabled && rows[j].nextRunTs <= now
                 then NotedSkip(s, rows[j], rows'[j], latest.value, maintenance, now)
                 else rows'[j] == rows[j]
  {
    PassFromSkips(s, rows, 0, latest, maintenance, accepts, now);
    hide PassFrom, NotedSkip;
  }

  /** A runner that is busy, a closed database or an unknown battery makes the pass do nothing. */
  lemma PassNeedsIdle(s: State, rows: seq<Schedule>, latest: Option<Battery>, maintenance: bool, accepts: bool,
                      now: nat)
    requires s.running || !s.open || latest.None? || !latest.value.valid
    ensures Pass(s, rows, latest, maintenance, accepts, now) == (s, rows)
  {
  }
}
