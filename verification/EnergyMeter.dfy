/**
 Energy accounting of the analytics engine: discharge power from two sources (battery readings and
 charger readings) is integrated into one running day total and one running hour total, which are
 archived when the day or the hour changes.

 `Meter` is the object with its counters and shifted archive arrays.  `Ledger` is what it stands
 for: every interval ever integrated, grouped into days and hours.
 */
module EnergyMeter {
  import opened Options
  import opened WattHours
  import opened Windows

  /** Local-time day and hour numbers; nothing is assumed about them. */
  datatype Calendar = Calendar(dayOf: nat -> nat, hourOf: nat -> nat)

  function Watts(volts: real, amps: real): real {
    volts * amps
  }

  datatype Input =
    | Battery(valid: bool, ts: nat, powerW: real)
    | Charger(valid: bool, ts: nat, solV: real, batV: real, batA: real)
  {
    /** The power the reading reports as drawn from the battery. */
    function DischargeW(): real {
      if Battery? then powerW else Watts(batV, -batA)
    }

    /** The power the reading reports as charging the battery. */
    function ChargeW(): real {
      if Battery? then -powerW else Watts(batV, batA)
    }
  }

  /** Gaps of five minutes or more are not integrated. */
  const MAX_GAP: nat := 300

  function Energy(powerW: real, seconds: int): real {
    powerW * (seconds as real / 3600.0)
  }

  datatype Interval = Interval(from: nat, to: nat, powerW: real) {
    function Wh(): real {
      Energy(powerW, to - from)
    }
  }

  function TotalWh(s: seq<Interval>): real {
    if s == [] then 0.0 else TotalWh(s[..|s| - 1]) + s[|s| - 1].Wh()
  }

  /** A closed day or hour. */
  datatype Bin = Bin(id: nat, wh: real)

  function BinsWh(s: seq<Bin>): real {
    if s == [] then 0.0 else BinsWh(s[..|s| - 1]) + s[|s| - 1].wh
  }

  // ------------------------------------------------------------ the ledger

  datatype Ledger = Ledger(
    journal: seq<Interval>,
    day: Option<nat>, dayStart: nat, today: seq<Interval>, days: seq<Bin>,
    hour: Option<nat>, thisHour: seq<Interval>, hours: seq<Bin>,
    mark: Option<nat>,
    prevBat: Option<nat>, charged: seq<Interval>,
    prevChg: Option<nat>, solar: seq<Interval>)
  {
    /** The closed days once today is closed too. */
    function DaysClosed(): seq<Bin> {
      if day.Some? then days + [Bin(day.value, TotalWh(today))] else days
    }

    /** A reading of another day closes the current one. */
    function EnterDay(d: nat, ts: nat): Ledger {
      if day == Some(d) then this
      else this.(day := Some(d), dayStart := ts, today := [], charged := [], solar := [], mark := Some(ts),
                 days := DaysClosed())
    }

    function EnterHour(h: nat): Ledger {
      if hour.Some? && hour.value != h
      then this.(hour := Some(h), thisHour := [], hours := hours + [Bin(hour.value, TotalWh(thisHour))])
      else this.(hour := Some(h))
    }

    /** Whichever source reports, the interval starts where the last integration ended. */
    function Discharge(ts: nat, powerW: real): Ledger {
      var from := if mark.Some? then mark.value else ts;
      if 0 < ts - from < MAX_GAP then
        var i := Interval(from, ts, powerW);
        this.(journal := journal + [i], today := today + [i], thisHour := thisHour + [i], mark := Some(ts))
      else this.(mark := Some(ts))
    }

    function BatteryFlow(ts: nat, powerW: real): Ledger {
      if prevBat.Some? && 0 < ts - prevBat.value < MAX_GAP then
        if powerW > 0.0 then Discharge(ts, powerW)
        else if powerW < 0.0 then this.(charged := charged + [Interval(prevBat.value, ts, -powerW)])
        else this
      else this
    }

    function SolarFlow(ts: nat, solV: real, batV: real, batA: real): Ledger {
      if prevChg.Some? && 0 < ts - prevChg.value < MAX_GAP && solV > 1.0 && batA > 0.0
      then this.(solar := solar + [Interval(prevChg.value, ts, Watts(batV, batA))])
      else this
    }

    function Step(cal: Calendar, i: Input): Ledger {
      if !i.valid then this
      else
        var l := EnterDay(cal.dayOf(i.ts), i.ts);
        match i
        case Battery(_, ts, powerW) =>
          l.BatteryFlow(ts, powerW).EnterHour(cal.hourOf(ts)).(prevBat := Some(ts))
        case Charger(_, ts, solV, batV, batA) =>
          var m := l.SolarFlow(ts, solV, batV, batA);
          (if batA < -0.05 then m.Discharge(ts, i.DischargeW()) else m).(prevChg := Some(ts))
    }
  }

  const EMPTY := Ledger([], None, 0, [], [], None, [], [], None, None, [], None, [])

  function Run(cal: Calendar, inputs: seq<Input>): Ledger {
    if inputs == [] then EMPTY else Run(cal, inputs[..|inputs| - 1]).Step(cal, inputs[|inputs| - 1])
  }

  // ------------------------------------------------------------ the object

  /** `totals[..count]` and `ids[..count]` are the latest closed bins, oldest first. */
  ghost predicate Archived(totals: array<real>, ids: array<int>, count: nat, bins: seq<Bin>)
    reads totals, ids
  {
    && totals.Length == ids.Length && count == Min(|bins|, totals.Length)
    && forall i :: 0 <= i < count ==>
         totals[i] == bins[|bins| - count + i].wh && ids[i] == bins[|bins| - count + i].id
  }

  method Archive(totals: array<real>, ids: array<int>, count: nat, wh: real, id: nat, ghost bins: seq<Bin>)
      returns (newCount: nat)
    requires totals.Length > 0 && Archived(totals, ids, count, bins)
    modifies totals, ids
    ensures Archived(totals, ids, newCount, bins + [Bin(id, wh)])
  {
    if count < totals.Length {
      totals[count] := wh;
      ids[count] := id;
      newCount := count + 1;
    } else {
      ghost var n := |bins| - count;
      for i := 0 to totals.Length - 1
        invariant forall j :: 0 <= j < i ==> totals[j] == bins[n + j + 1].wh && ids[j] == bins[n + j + 1].id
        invariant forall j :: i <= j < count ==> totals[j] == bins[n + j].wh && ids[j] == bins[n + j].id
      {
        totals[i] := totals[i + 1];
        ids[i] := ids[i + 1];
      }
      totals[totals.Length - 1] := wh;
      ids[totals.Length - 1] := id;
      newCount := count;
    }
  }

  class Meter {
    const cal: Calendar
    const energyByDay: array<real>
    const daysByDay: array<int>
    const whPerHour: array<real>
    const hourTs: array<int>
    var energyCharged: real
    var energyDischarged: real
    var solarEnergy: real
    var currentDay: int
    var daysCount: nat
    var prevBatTs: nat
    var prevChgTs: nat
    var batSeen: bool
    var chgSeen: bool
    var hourCount: nat
    var whThisHour: real
    var lastHour: int
    var lastIntegrationTs: int
    ghost var ledger: Ledger

    static ghost function Stamp(t: int): Option<nat> {
      if t < 0 then None else Some(t)
    }

    ghost predicate Counters()
      reads this
    {
      && -1 <= currentDay && Stamp(currentDay) == ledger.day
      && -1 <= lastHour && Stamp(lastHour) == ledger.hour
      && -1 <= lastIntegrationTs && Stamp(lastIntegrationTs) == ledger.mark
      && (if batSeen then Some(prevBatTs) else None) == ledger.prevBat
      && (if chgSeen then Some(prevChgTs) else None) == ledger.prevChg
      && energyDischarged == TotalWh(ledger.today) && whThisHour == TotalWh(ledger.thisHour)
      && energyCharged == TotalWh(ledger.charged) && solarEnergy == TotalWh(ledger.solar)
    }

    ghost predicate Valid()
      reads this, energyByDay, daysByDay, whPerHour, hourTs
    {
      && energyByDay.Length == daysByDay.Length == 8
      && whPerHour.Length == hourTs.Length == 24
      && energyByDay != whPerHour && daysByDay != hourTs
      && Archived(energyByDay, daysByDay, daysCount, ledger.days)
      && Archived(whPerHour, hourTs, hourCount, ledger.hours)
      && Counters()
    }

    constructor (cal: Calendar)
      ensures Valid() && this.cal == cal && ledger == EMPTY
      ensures fresh(energyByDay) && fresh(daysByDay) && fresh(whPerHour) && fresh(hourTs)
    {
      this.cal := cal;
      energyByDay := new real[8](i => 0.0);
      daysByDay := new int[8](i => 0);
      whPerHour := new real[24](i => 0.0);
      hourTs := new int[24](i => 0);
      energyCharged, energyDischarged, solarEnergy, whThisHour := 0.0, 0.0, 0.0, 0.0;
      currentDay, lastHour, lastIntegrationTs := -1, -1, -1;
      daysCount, hourCount, prevBatTs, prevChgTs := 0, 0, 0, 0;
      batSeen, chgSeen := false, false;
      ledger := EMPTY;
    }

    /** Archives the day that has ended, if there was one. */
    method CloseDay()
      requires Valid()
      modifies this`daysCount, energyByDay, daysByDay
      ensures Archived(energyByDay, daysByDay, daysCount, ledger.DaysClosed())
      ensures Archived(whPerHour, hourTs, hourCount, ledger.hours)
    {
      hide Archived, TotalWh;
      if currentDay >= 0 {
        daysCount := Archive(energyByDay, daysByDay, daysCount, energyDischarged, currentDay, ledger.days);
      }
    }

    /** Clears the daily counters and restarts integration. */
    method OpenDay(day: nat, ts: nat)
      requires Counters() && currentDay != day
      modifies this`currentDay, this`lastIntegrationTs, this`energyCharged, this`energyDischarged
      modifies this`solarEnergy, this`ledger
      ensures Counters() && ledger == old(ledger).EnterDay(day, ts)
    {
      hide TotalWh, Ledger.DaysClosed;
      TotalWhNothing();
      ledger := ledger.EnterDay(day, ts);
      currentDay, lastIntegrationTs := day, ts;
      energyCharged, energyDischarged, solarEnergy := 0.0, 0.0, 0.0;
    }

    method ResetDailyIfNeeded(day: nat, ts: nat)
      requires Valid()
      modifies this, energyByDay, daysByDay
      ensures Valid() && ledger == old(ledger).EnterDay(day, ts)
    {
      hide Archived, TotalWh, Ledger.DaysClosed;
      if currentDay == day { return; }
      CloseDay();
      OpenDay(day, ts);
    }

    method IntegrateDischargeWh(ts: nat, powerW: real)
      requires Valid()
      modifies this
      ensures Valid() && ledger == old(ledger).Discharge(ts, powerW)
    {
      hide Archived, TotalWh, Energy;
      var refTs := if lastIntegrationTs >= 0 then lastIntegrationTs else ts;
      var dtH := (ts - refTs) as real / 3600.0;
      EnergyOver(powerW, ts - refTs, dtH);
      if dtH > 0.0 && dtH < 5.0 / 60.0 {
        energyDischarged := energyDischarged + powerW * dtH;
        whThisHour := whThisHour + powerW * dtH;
        ghost var i := Interval(refTs, ts, powerW);
        TotalWhAppend(ledger.today, i);
        TotalWhAppend(ledger.thisHour, i);
      }
      lastIntegrationTs := ts;
      ledger := ledger.Discharge(ts, powerW);
    }

    method ArchiveHour(hour: nat)
      requires Valid()
      modifies this, whPerHour, hourTs
      ensures Valid() && ledger == old(ledger).EnterHour(hour)
    {
      hide Archived, TotalWh, BinsWh;
      TotalWhNothing();
      if lastHour >= 0 && hour != lastHour {
        hourCount := Archive(whPerHour, hourTs, hourCount, whThisHour, lastHour, ledger.hours);
        whThisHour := 0.0;
      }
      lastHour := hour;
      ledger := ledger.EnterHour(hour);
    }

    method IntegrateBattery(ts: nat, powerW: real)
      requires Valid()
      modifies this
      ensures Valid() && ledger == old(ledger).BatteryFlow(ts, powerW)
    {
      hide Archived, TotalWh, Energy, Ledger.Discharge;
      if batSeen && ts > prevBatTs {
        var dtH := (ts - prevBatTs) as real / 3600.0;
        EnergyOver(-powerW, ts - prevBatTs, dtH);
        if dtH > 0.0 && dtH < 5.0 / 60.0 {
          if powerW > 0.0 {
            IntegrateDischargeWh(ts, powerW);
          } else if powerW < 0.0 {
            energyCharged := energyCharged + (-powerW) * dtH;
            ghost var i := Interval(prevBatTs, ts, -powerW);
            TotalWhAppend(ledger.charged, i);
            ledger := ledger.(charged := ledger.charged + [i]);
          }
        }
      }
    }

    method OnBattery(valid: bool, ts: nat, powerW: real)
      requires Valid()
      modifies this, energyByDay, daysByDay, whPerHour, hourTs
      ensures Valid() && ledger == old(ledger).Step(cal, Battery(valid, ts, powerW))
    {
      hide Archived, TotalWh, Ledger.EnterDay, Ledger.EnterHour, Ledger.BatteryFlow;
      if !valid { return; }
      ResetDailyIfNeeded(cal.dayOf(ts), ts);
      IntegrateBattery(ts, powerW);
      ArchiveHour(cal.hourOf(ts));
      prevBatTs, batSeen := ts, true;
      ledger := ledger.(prevBat := Some(ts));
    }

    method IntegrateSolar(ts: nat, solV: real, batV: real, batA: real)
      requires Valid()
      modifies this
      ensures Valid() && ledger == old(ledger).SolarFlow(ts, solV, batV, batA)
    {
      hide Archived, TotalWh, Energy;
      if chgSeen && ts > prevChgTs && solV > 1.0 && batA > 0.0 {
        var dtH := (ts - prevChgTs) as real / 3600.0;
        var solPwr := batV * batA;
        assert solPwr == Watts(batV, batA);
        EnergyOver(solPwr, ts - prevChgTs, dtH);
        if dtH > 0.0 && dtH < 5.0 / 60.0 {
          solarEnergy := solarEnergy + solPwr * dtH;
          ghost var i := Interval(prevChgTs, ts, solPwr);
          TotalWhAppend(ledger.solar, i);
          ledger := ledger.(solar := ledger.solar + [i]);
        }
      }
    }

    method OnCharger(valid: bool, ts: nat, solV: real, batV: real, batA: real)
      requires Valid()
      modifies this, energyByDay, daysByDay
      ensures Valid() && ledger == old(ledger).Step(cal, Charger(valid, ts, solV, batV, batA))
    {
      hide Archived, TotalWh, Ledger.EnterDay, Ledger.Discharge, Ledger.SolarFlow;
      if !valid { return; }
      ResetDailyIfNeeded(cal.dayOf(ts), ts);
      IntegrateSolar(ts, solV, batV, batA);
      if batA < -0.05 {
        var loadW := batV * -batA;
        assert loadW == Charger(valid, ts, solV, batV, batA).DischargeW();
        IntegrateDischargeWh(ts, loadW);
      }
      prevChgTs, chgSeen := ts, true;
      ledger := ledger.(prevChg := Some(ts));
    }

    /** Energy used this week: today and the last six completed days. */
    method EnergyUsedWeekWh() returns (wh: real)
      requires Valid()
      ensures wh == TotalWh(ledger.today) + BinsWh(Last(ledger.days, 6))
    {
      hide TotalWh, BinsWh;
      BinsWhNothing();
      wh := energyDischarged;
      ghost var days := ledger.days;
      assert days[|days|..] == [];
      var i := 0;
      while i < daysCount && i < 6
        invariant i <= Min(daysCount, 6)
        invariant wh == energyDischarged + BinsWh(days[|days| - i..])
      {
        assert energyByDay[daysCount - 1 - i] == days[|days| - 1 - i].wh;
        BinsWhSplit(days, |days| - 1 - i);
        wh := wh + energyByDay[daysCount - 1 - i];
        i := i + 1;
      }
      assert days[|days| - i..] == Last(days, 6);
    }
  }

  // ------------------------------------------------------------ sums

  lemma TotalWhNothing()
    ensures TotalWh([]) == 0.0
  {
  }

  /** The product the program forms is the energy over that many seconds. */
  lemma EnergyOver(powerW: real, seconds: int, dtH: real)
    requires dtH == seconds as real / 3600.0
    ensures powerW * dtH == Energy(powerW, seconds)
    ensures 0.0 < dtH < 5.0 / 60.0 <==> 0 < seconds < MAX_GAP
  {
  }

  lemma {:induction false} TotalWhAppend(s: seq<Interval>, i: Interval)
    ensures TotalWh(s + [i]) == TotalWh(s) + i.Wh()
  {
    assert (s + [i])[..|s|] == s;
  }

  lemma BinsWhNothing()
    ensures BinsWh([]) == 0.0
  {
  }

  lemma {:induction false} BinsWhAppend(s: seq<Bin>, b: Bin)
    ensures BinsWh(s + [b]) == BinsWh(s) + b.wh
  {
    assert (s + [b])[..|s|] == s;
  }

  lemma {:induction false} BinsWhSplit(s: seq<Bin>, k: nat)
    requires k < |s|
    ensures BinsWh(s[k..]) == s[k].wh + BinsWh(s[k + 1..])
    decreases |s| - k
  {
    var n := |s| - 1;
    assert s[k..][..n - k] == s[k..n];
    if k < n {
      assert s[..n][k..] == s[k..n] && s[..n][k + 1..] == s[k + 1..n];
      assert s[k + 1..][..n - k - 1] == s[k + 1..n];
      BinsWhSplit(s[..n], k);
    }
  }

  // ------------------------------------------------------------ the books balance

  /** Closed days plus today, and closed hours plus this hour, both account for the whole journal. */
  ghost predicate Balanced(l: Ledger) {
    && BinsWh(l.days) + TotalWh(l.today) == TotalWh(l.journal)
    && BinsWh(l.hours) + TotalWh(l.thisHour) == TotalWh(l.journal)
    && (l.day == None ==> l.today == [])
  }

  lemma EnterDayBalances(l: Ledger, d: nat, ts: nat)
    requires Balanced(l)
    ensures Balanced(l.EnterDay(d, ts)) && l.EnterDay(d, ts).day.Some?
  {
    hide TotalWh, BinsWh;
    TotalWhNothing();
    if l.day.Some? { BinsWhAppend(l.days, Bin(l.day.value, TotalWh(l.today))); }
  }

  lemma EnterHourBalances(l: Ledger, h: nat)
    requires Balanced(l)
    ensures Balanced(l.EnterHour(h))
  {
    hide TotalWh, BinsWh;
    TotalWhNothing();
    if l.hour.Some? { BinsWhAppend(l.hours, Bin(l.hour.value, TotalWh(l.thisHour))); }
  }

  lemma DischargeBalances(l: Ledger, ts: nat, powerW: real)
    requires Balanced(l) && l.day.Some?
    ensures Balanced(l.Discharge(ts, powerW))
  {
    hide TotalWh, BinsWh, Energy;
    var from := if l.mark.Some? then l.mark.value else ts;
    var i := Interval(from, ts, powerW);
    TotalWhAppend(l.journal, i);
    TotalWhAppend(l.today, i);
    TotalWhAppend(l.thisHour, i);
  }

  lemma StepBalances(cal: Calendar, l: Ledger, i: Input)
    requires Balanced(l)
    ensures Balanced(l.Step(cal, i))
  {
    hide TotalWh, BinsWh, Ledger.EnterDay, Ledger.EnterHour, Ledger.Discharge;
    if i.valid {
      var m := l.EnterDay(cal.dayOf(i.ts), i.ts);
      EnterDayBalances(l, cal.dayOf(i.ts), i.ts);
      match i {
        case Battery(_, ts, powerW) =>
          DischargeBalances(m, ts, powerW);
          EnterHourBalances(m.BatteryFlow(ts, powerW), cal.hourOf(ts));
        case Charger(_, ts, solV, batV, batA) =>
          DischargeBalances(m.SolarFlow(ts, solV, batV, batA), ts, i.DischargeW());
      }
    }
  }

  /** Whatever the readings and whatever their timestamps, the day books and the hour books agree. */
  lemma {:induction false} LedgerBalances(cal: Calendar, inputs: seq<Input>)
    ensures var l := Run(cal, inputs);
            && Balanced(l)
            && BinsWh(l.days) + TotalWh(l.today) == BinsWh(l.hours) + TotalWh(l.thisHour)
  {
    if inputs != [] {
      LedgerBalances(cal, inputs[..|inputs| - 1]);
      StepBalances(cal, Run(cal, inputs[..|inputs| - 1]), inputs[|inputs| - 1]);
    }
  }

  // ------------------------------------------------------------ no second is counted twice

  /** Disjoint intervals in increasing order, between `lo` and `hi`. */
  ghost predicate Chain(s: seq<Interval>, lo: int, hi: int) {
    if s == [] then lo <= hi
    else
      var i := s[|s| - 1];
      i.from < i.to <= hi && Chain(s[..|s| - 1], lo, i.from)
  }

  lemma {:induction false} ChainExtends(s: seq<Interval>, lo: int, mid: int, hi: int)
    requires Chain(s, lo, mid) && mid <= hi
    ensures Chain(s, lo, hi)
  {
  }

  lemma {:induction false} ChainAppend(s: seq<Interval>, lo: int, i: Interval)
    requires Chain(s, lo, i.from) && i.from < i.to
    ensures Chain(s + [i], lo, i.to)
  {
    assert (s + [i])[..|s|] == s;
  }

  /** What `Chain` means: any two of its intervals are disjoint, in order, and inside the bounds. */
  lemma {:induction false} ChainIsDisjoint(s: seq<Interval>, lo: int, hi: int)
    requires Chain(s, lo, hi)
    ensures forall a :: 0 <= a < |s| ==> lo <= s[a].from < s[a].to <= hi
    ensures forall a, b :: 0 <= a < b < |s| ==> s[a].to <= s[b].from
  {
    if s != [] {
      ChainIsDisjoint(s[..|s| - 1], lo, s[|s| - 1].from);
    }
  }

  ghost predicate InOrder(inputs: seq<Input>) {
    forall i, j :: 0 <= i < j < |inputs| && inputs[i].valid && inputs[j].valid ==> inputs[i].ts <= inputs[j].ts
  }

  ghost predicate NoLaterThan(inputs: seq<Input>, now: int) {
    forall i :: 0 <= i < |inputs| && inputs[i].valid ==> inputs[i].ts <= now
  }

  /** The intervals of one source lie between `lo` and its previous reading. */
  ghost predicate ClosedBy(s: seq<Interval>, prev: Option<nat>, lo: int, now: int) {
    match prev
    case None => s == []
    case Some(t) => t <= now && (s == [] || Chain(s, lo, t))
  }

  lemma ClosedByNext(s: seq<Interval>, prev: Option<nat>, lo: int, ts: nat, powerW: real)
    requires ClosedBy(s, prev, lo, ts)
    ensures ClosedBy(s, Some(ts), lo, ts)
    ensures prev.Some? && lo <= prev.value < ts ==>
              ClosedBy(s + [Interval(prev.value, ts, powerW)], Some(ts), lo, ts)
  {
    if prev.Some? {
      if s != [] { ChainExtends(s, lo, prev.value, ts); }
      if lo <= prev.value < ts {
        assert Chain(s, lo, prev.value);
        ChainAppend(s, lo, Interval(prev.value, ts, powerW));
      }
    }
  }

  /** An interval of the day may begin before its first reading, by less than the longest gap. */
  function SourcesFrom(l: Ledger): int {
    l.dayStart - MAX_GAP
  }

  /** What ordered time from `lo` on buys, at the moment `now` of the latest reading. */
  ghost predicate Sequential(l: Ledger, lo: int, now: int) {
    && (l.day.Some? <==> l.mark.Some?)
    && (l.day == None ==> l.journal == [] && l.today == [])
    && (l.day.Some? ==>
         && l.dayStart <= l.mark.value <= now
         && Chain(l.today, l.dayStart, l.mark.value)
         && Chain(l.journal, lo, l.mark.value))
    && ClosedBy(l.charged, l.prevBat, SourcesFrom(l), now)
    && ClosedBy(l.solar, l.prevChg, SourcesFrom(l), now)
  }

  lemma ClosedByLater(s: seq<Interval>, prev: Option<nat>, lo: int, now: int, ts: int)
    requires ClosedBy(s, prev, lo, now) && now <= ts
    ensures ClosedBy(s, prev, lo, ts)
    ensures forall from: int :: ClosedBy([], prev, from, ts)
  {
  }

  lemma EnterDaySequential(l: Ledger, d: nat, ts: nat, lo: int, now: int)
    requires Sequential(l, lo, now) && now <= ts && lo <= ts
    ensures Sequential(l.EnterDay(d, ts), lo, ts) && l.EnterDay(d, ts).day.Some?
  {
    hide ClosedBy;
    ClosedByLater(l.charged, l.prevBat, SourcesFrom(l), now, ts);
    ClosedByLater(l.solar, l.prevChg, SourcesFrom(l), now, ts);
    if l.day.Some? { ChainExtends(l.journal, lo, l.mark.value, ts); }
  }

  lemma DischargeSequential(l: Ledger, ts: nat, powerW: real, lo: int)
    requires Sequential(l, lo, ts) && l.day.Some?
    ensures Sequential(l.Discharge(ts, powerW), lo, ts) && l.Discharge(ts, powerW).day.Some?
  {
    hide Chain, ClosedBy;
    var i := Interval(l.mark.value, ts, powerW);
    ChainExtends(l.today, l.dayStart, l.mark.value, ts);
    ChainExtends(l.journal, lo, l.mark.value, ts);
    if i.from < ts {
      ChainAppend(l.today, l.dayStart, i);
      ChainAppend(l.journal, lo, i);
    }
  }

  lemma BatteryFlowSequential(l: Ledger, ts: nat, powerW: real, lo: int)
    requires Sequential(l, lo, ts) && l.day.Some?
    ensures Sequential(l.BatteryFlow(ts, powerW).(prevBat := Some(ts)), lo, ts)
  {
    hide Ledger.Discharge, Chain, ClosedBy, Energy;
    DischargeSequential(l, ts, powerW, lo);
    DischargeKeepsSources(l, ts, powerW);
    ClosedByNext(l.charged, l.prevBat, SourcesFrom(l), ts, -powerW);
  }

  lemma DischargeKeepsSources(l: Ledger, ts: nat, powerW: real)
    ensures var m := l.Discharge(ts, powerW);
            && m.prevBat == l.prevBat && m.charged == l.charged && m.prevChg == l.prevChg && m.solar == l.solar
            && m.dayStart == l.dayStart
  {
  }

  lemma SolarFlowSequential(l: Ledger, ts: nat, solV: real, batV: real, batA: real, lo: int)
    requires Sequential(l, lo, ts) && l.day.Some?
    ensures Sequential(l.SolarFlow(ts, solV, batV, batA).(prevChg := Some(ts)), lo, ts)
  {
    hide Chain, ClosedBy, Energy;
    ClosedByNext(l.solar, l.prevChg, SourcesFrom(l), ts, Watts(batV, batA));
  }

  lemma StepSequential(cal: Calendar, l: Ledger, i: Input, lo: int, now: int)
    requires Sequential(l, lo, now) && (i.valid ==> now <= i.ts && lo <= i.ts)
    ensures Sequential(l.Step(cal, i), lo, if i.valid then i.ts else now)
  {
    hide Chain, ClosedBy, Energy, Ledger.EnterDay, Ledger.Discharge;
    if i.valid {
      EnterDaySequential(l, cal.dayOf(i.ts), i.ts, lo, now);
      var m := l.EnterDay(cal.dayOf(i.ts), i.ts);
      match i {
        case Battery(_, ts, powerW) =>
          BatteryFlowSequential(m, ts, powerW, lo);
        case Charger(_, ts, solV, batV, batA) =>
          SolarFlowSequential(m, ts, solV, batV, batA, lo);
          var f := m.SolarFlow(ts, solV, batV, batA);
          DischargeSequential(f.(prevChg := Some(ts)), ts, i.DischargeW(), lo);
          DischargeIgnoresCharger(f, ts, i.DischargeW());
      }
    }
  }

  lemma DischargeIgnoresCharger(l: Ledger, ts: nat, powerW: real)
    ensures l.Discharge(ts, powerW).(prevChg := Some(ts)) == l.(prevChg := Some(ts)).Discharge(ts, powerW)
  {
  }

  ghost predicate NoEarlierThan(inputs: seq<Input>, lo: int) {
    forall i :: 0 <= i < |inputs| && inputs[i].valid ==> lo <= inputs[i].ts
  }

  /** In ordered time the integrated intervals of both sources, taken together, are disjoint, and none
      begins before the first reading. */
  lemma {:induction false} IntervalsAreDisjoint(cal: Calendar, inputs: seq<Input>, lo: int, now: int)
    requires InOrder(inputs) && NoEarlierThan(inputs, lo) && NoLaterThan(inputs, now)
    ensures Sequential(Run(cal, inputs), lo, now)
  {
    hide Ledger.Step, Chain;
    if inputs == [] {
    } else {
      var last := inputs[|inputs| - 1];
      var before := if last.valid then last.ts as int else now;
      IntervalsAreDisjoint(cal, inputs[..|inputs| - 1], lo, before);
      StepSequential(cal, Run(cal, inputs[..|inputs| - 1]), last, lo, before);
    }
  }

  // ------------------------------------------------------------ hence the daily bound

  ghost predicate PowerAtMost(s: seq<Interval>, p: real) {
    forall i :: 0 <= i < |s| ==> s[i].powerW <= p
  }

  lemma EnergyLaws(p: real, q: real, a: int, b: int)
    requires p <= q && 0.0 <= q && 0 <= a
    ensures Energy(p, a) <= Energy(q, a)
    ensures Energy(q, a) + Energy(q, b) == Energy(q, a + b)
    ensures 0.0 <= Energy(q, a)
  {
  }

  lemma {:induction false} ChainEnergy(s: seq<Interval>, lo: int, hi: int, p: real)
    requires Chain(s, lo, hi) && PowerAtMost(s, p) && p >= 0.0
    ensures TotalWh(s) <= Energy(p, hi - lo)
  {
    hide Energy;
    if s == [] {
      EnergyLaws(p, p, hi - lo, 0);
    } else {
      var i := s[|s| - 1];
      ChainEnergy(s[..|s| - 1], lo, i.from, p);
      ChainIsDisjoint(s, lo, hi);
      EnergyLaws(i.powerW, p, i.to - i.from, 0);
      EnergyLaws(p, p, hi - i.to, i.to - lo);
      EnergyLaws(p, p, i.to - i.from, i.from - lo);
    }
  }

  /** One reading adds at most one interval, at the power it reports. */
  lemma StepAddsOne(cal: Calendar, l: Ledger, i: Input)
    ensures var m := l.Step(cal, i);
            var kept := if l.day == Some(cal.dayOf(i.ts)) then l.today else [];
            && (!i.valid ==> m == l)
            && (m.journal == l.journal || (i.valid && AddsOne(l.journal, m.journal, i.DischargeW())))
            && (i.valid ==> m.today == kept || AddsOne(kept, m.today, i.DischargeW()))
  {
  }

  ghost predicate AddsOne(s: seq<Interval>, t: seq<Interval>, powerW: real) {
    |t| == |s| + 1 && t[..|s|] == s && t[|s|].powerW == powerW
  }

  lemma OneMorePower(s: seq<Interval>, t: seq<Interval>, powerW: real, p: real)
    requires PowerAtMost(s, p) && powerW <= p && AddsOne(s, t, powerW)
    ensures PowerAtMost(t, p)
  {
    assert forall i :: 0 <= i < |s| ==> t[i] == t[..|s|][i];
  }

  lemma StepPowers(cal: Calendar, l: Ledger, i: Input, p: real)
    requires i.valid ==> i.DischargeW() <= p
    ensures var m := l.Step(cal, i);
            && (!i.valid ==> m == l)
            && (PowerAtMost(l.journal, p) ==> PowerAtMost(m.journal, p))
            && (i.valid && (l.day == Some(cal.dayOf(i.ts)) ==> PowerAtMost(l.today, p)) ==> PowerAtMost(m.today, p))
  {
    StepAddsOne(cal, l, i);
    var m, w := l.Step(cal, i), i.DischargeW();
    var kept := if l.day == Some(cal.dayOf(i.ts)) then l.today else [];
    hide Ledger.Step, Input.DischargeW, AddsOne;
    if PowerAtMost(l.journal, p) && m.journal != l.journal { OneMorePower(l.journal, m.journal, w, p); }
    if i.valid && PowerAtMost(kept, p) && m.today != kept { OneMorePower(kept, m.today, w, p); }
  }

  /** The same for the intervals of charging and of solar energy. */
  lemma StepAddsCharge(cal: Calendar, l: Ledger, i: Input)
    ensures var m := l.Step(cal, i);
            var kept := if l.day == Some(cal.dayOf(i.ts)) then l.charged else [];
            i.valid ==> m.charged == kept || (i.Battery? && AddsOne(kept, m.charged, i.ChargeW()))
  {
    hide Ledger.Discharge, Energy, TotalWh;
    var today := l.EnterDay(cal.dayOf(i.ts), i.ts);
    DischargeKeepsSources(today, i.ts, i.DischargeW());
    if i.Charger? {
      DischargeKeepsSources(today.SolarFlow(i.ts, i.solV, i.batV, i.batA), i.ts, i.DischargeW());
    }
  }

  lemma StepAddsSolar(cal: Calendar, l: Ledger, i: Input)
    ensures var m := l.Step(cal, i);
            var kept := if l.day == Some(cal.dayOf(i.ts)) then l.solar else [];
            i.valid ==> m.solar == kept || (i.Charger? && AddsOne(kept, m.solar, i.ChargeW()))
  {
    hide Ledger.Discharge, Energy, TotalWh;
    var today := l.EnterDay(cal.dayOf(i.ts), i.ts);
    DischargeKeepsSources(today, i.ts, i.DischargeW());
    if i.Charger? {
      DischargeKeepsSources(today.SolarFlow(i.ts, i.solV, i.batV, i.batA), i.ts, i.DischargeW());
    }
  }

  lemma StepSourcePowers(cal: Calendar, l: Ledger, i: Input, p: real, q: real)
    requires i.valid ==> (if i.Battery? then i.ChargeW() <= p else i.ChargeW() <= q)
    ensures var m := l.Step(cal, i);
            var same := l.day == Some(cal.dayOf(i.ts));
            && (!i.valid ==> m == l)
            && (i.valid && (same ==> PowerAtMost(l.charged, p)) ==> PowerAtMost(m.charged, p))
            && (i.valid && (same ==> PowerAtMost(l.solar, q)) ==> PowerAtMost(m.solar, q))
  {
    StepAddsCharge(cal, l, i);
    StepAddsSolar(cal, l, i);
    StepDay(cal, l, i);
    var m, w, same := l.Step(cal, i), i.ChargeW(), l.day == Some(cal.dayOf(i.ts));
    var charged, solar := if same then l.charged else [], if same then l.solar else [];
    hide Ledger.Step, Input.ChargeW, AddsOne;
    if i.valid && PowerAtMost(charged, p) && m.charged != charged { OneMorePower(charged, m.charged, w, p); }
    if i.valid && PowerAtMost(solar, q) && m.solar != solar { OneMorePower(solar, m.solar, w, q); }
  }

  lemma {:induction false} PowersComeFromReadings(cal: Calendar, inputs: seq<Input>, p: real)
    requires forall i :: 0 <= i < |inputs| && inputs[i].valid ==> inputs[i].DischargeW() <= p
    ensures PowerAtMost(Run(cal, inputs).journal, p)
  {
    hide Ledger.Step, Input.DischargeW;
    if inputs != [] {
      PowersComeFromReadings(cal, inputs[..|inputs| - 1], p);
      StepPowers(cal, Run(cal, inputs[..|inputs| - 1]), inputs[|inputs| - 1], p);
    }
  }

  lemma StepDay(cal: Calendar, l: Ledger, i: Input)
    ensures var m := l.Step(cal, i);
            && (!i.valid ==> m == l)
            && (i.valid ==> m.day == Some(cal.dayOf(i.ts)))
            && m.dayStart == if i.valid && l.day != m.day then i.ts else l.dayStart
  {
  }

  /** Reading `k` opened the present day, and every later one belongs to it. */
  ghost predicate OpensToday(cal: Calendar, inputs: seq<Input>, k: nat) {
    && k < |inputs| && inputs[k].valid && inputs[k].ts == Run(cal, inputs).dayStart
    && (forall j :: k <= j < |inputs| && inputs[j].valid ==> Run(cal, inputs).day == Some(cal.dayOf(inputs[j].ts)))
    && Run(cal, inputs[..k]).day != Run(cal, inputs).day
  }

  /** The start of today is the time of the first reading since the day changed. */
  lemma {:induction false} DayStartIsFirstReading(cal: Calendar, inputs: seq<Input>) returns (k: nat)
    requires Run(cal, inputs).day.Some?
    ensures OpensToday(cal, inputs, k)
  {
    var n := |inputs| - 1;
    var l, last := Run(cal, inputs[..n]), inputs[n];
    StepDay(cal, l, last);
    hide Ledger.Step;
    if last.valid && l.day != Some(cal.dayOf(last.ts)) {
      k := n;
    } else {
      k := DayStartIsFirstReading(cal, inputs[..n]);
      assert inputs[..n][..k] == inputs[..k];
    }
  }

  lemma {:induction false} DayIsOfReading(cal: Calendar, inputs: seq<Input>, k: nat) returns (j: nat)
    requires k < |inputs| && inputs[k].valid
    ensures k <= j < |inputs| && inputs[j].valid && Run(cal, inputs).day == Some(cal.dayOf(inputs[j].ts))
  {
    var n := |inputs| - 1;
    StepDay(cal, Run(cal, inputs[..n]), inputs[n]);
    hide Ledger.Step;
    j := n;
    if !inputs[n].valid { j := DayIsOfReading(cal, inputs[..n], k); }
  }

  lemma {:induction false} StillToday(cal: Calendar, inputs: seq<Input>, k: nat)
    requires OpensToday(cal, inputs, k)
    ensures var n := |inputs| - 1;
            var same := Run(cal, inputs[..n]).day == Run(cal, inputs).day;
            && (inputs[n].valid && same ==> k < n)
            && (k < n ==> same && OpensToday(cal, inputs[..n], k))
  {
    var n := |inputs| - 1;
    StepDay(cal, Run(cal, inputs[..n]), inputs[n]);
    hide Ledger.Step;
    if k < n {
      var j := DayIsOfReading(cal, inputs[..n], k);
      assert inputs[..n][j] == inputs[j];
      assert inputs[..n][..k] == inputs[..k];
    }
  }

  /** Today's powers are those of today's readings. */
  lemma {:induction false} TodaysPowers(cal: Calendar, inputs: seq<Input>, k: nat, p: real)
    requires OpensToday(cal, inputs, k)
    requires forall i :: k <= i < |inputs| && inputs[i].valid ==> inputs[i].DischargeW() <= p
    ensures PowerAtMost(Run(cal, inputs).today, p)
  {
    var n := |inputs| - 1;
    var l, last := Run(cal, inputs[..n]), inputs[n];
    StillToday(cal, inputs, k);
    StepDay(cal, l, last);
    StepPowers(cal, l, last, p);
    hide Ledger.Step, Input.DischargeW, OpensToday, PowerAtMost;
    if k < n { TodaysPowers(cal, inputs[..n], k, p); }
  }

  /** Today's consumption never exceeds the largest power reported today, held for the whole time since
      the day's first reading, although two sources feed it. */
  lemma {:induction false} NoDoubleCounting(cal: Calendar, inputs: seq<Input>, k: nat, now: int, p: real)
    requires InOrder(inputs) && NoLaterThan(inputs, now)
    requires OpensToday(cal, inputs, k)
    requires p >= 0.0
    requires forall i :: k <= i < |inputs| && inputs[i].valid ==> inputs[i].DischargeW() <= p
    ensures var l := Run(cal, inputs);
            l.mark.Some? && TotalWh(l.today) <= Energy(p, l.mark.value - inputs[k].ts)
  {
    hide Energy, TotalWh, Chain;
    IntervalsAreDisjoint(cal, inputs, 0, now);
    var j := DayIsOfReading(cal, inputs, k);
    TodaysPowers(cal, inputs, k, p);
    var l := Run(cal, inputs);
    hide Run;
    ChainEnergy(l.today, l.dayStart, l.mark.value, p);
  }

  lemma {:induction false} TodaysSourcePowers(cal: Calendar, inputs: seq<Input>, k: nat, p: real, q: real)
    requires OpensToday(cal, inputs, k)
    requires forall i :: k <= i < |inputs| && inputs[i].valid ==>
               if inputs[i].Battery? then inputs[i].ChargeW() <= p else inputs[i].ChargeW() <= q
    ensures PowerAtMost(Run(cal, inputs).charged, p) && PowerAtMost(Run(cal, inputs).solar, q)
  {
    var n := |inputs| - 1;
    var l, last := Run(cal, inputs[..n]), inputs[n];
    StillToday(cal, inputs, k);
    StepDay(cal, l, last);
    StepSourcePowers(cal, l, last, p, q);
    hide Ledger.Step, Input.ChargeW, OpensToday, PowerAtMost;
    if k < n { TodaysSourcePowers(cal, inputs[..n], k, p, q); }
  }

  lemma {:induction false} SourceEnergy(s: seq<Interval>, prev: Option<nat>, lo: int, now: int, p: real)
    requires ClosedBy(s, prev, lo, now) && lo <= now && PowerAtMost(s, p) && p >= 0.0
    ensures TotalWh(s) <= Energy(p, now - lo)
  {
    hide Energy;
    if s == [] {
      EnergyLaws(p, p, now - lo, 0);
    } else {
      ChainExtends(s, lo, prev.value, now);
      ChainEnergy(s, lo, now, p);
    }
  }

  /** Charging and solar energy, each from one source, are bounded alike: today's totals never exceed the
      largest charging power reported today, held since five minutes before the day's first reading. */
  lemma {:induction false} ChargeIsBounded(cal: Calendar, inputs: seq<Input>, k: nat, now: int, p: real, q: real)
    requires InOrder(inputs) && NoLaterThan(inputs, now)
    requires OpensToday(cal, inputs, k)
    requires p >= 0.0 && q >= 0.0
    requires forall i :: k <= i < |inputs| && inputs[i].valid ==>
               if inputs[i].Battery? then inputs[i].ChargeW() <= p else inputs[i].ChargeW() <= q
    ensures var l := Run(cal, inputs);
            && TotalWh(l.charged) <= Energy(p, now - inputs[k].ts + MAX_GAP)
            && TotalWh(l.solar) <= Energy(q, now - inputs[k].ts + MAX_GAP)
  {
    hide Energy, TotalWh, Chain, ClosedBy, Input.ChargeW, PowerAtMost;
    IntervalsAreDisjoint(cal, inputs, 0, now);
    TodaysSourcePowers(cal, inputs, k, p, q);
    var l := Run(cal, inputs);
    hide Run;
    SourceEnergy(l.charged, l.prevBat, SourcesFrom(l), now, p);
    SourceEnergy(l.solar, l.prevChg, SourcesFrom(l), now, q);
  }

  /** The same for a whole run: everything ever integrated is at most the largest reported power held
      since the first valid reading. */
  lemma {:induction false} NoDoubleCountingEver(cal: Calendar, inputs: seq<Input>, f: nat, now: int, p: real)
    requires InOrder(inputs) && NoLaterThan(inputs, now)
    requires f < |inputs| && inputs[f].valid && forall i :: 0 <= i < f ==> !inputs[i].valid
    requires p >= 0.0
    requires forall i :: 0 <= i < |inputs| && inputs[i].valid ==> inputs[i].DischargeW() <= p
    ensures var l := Run(cal, inputs);
            l.mark.Some? && TotalWh(l.journal) <= Energy(p, l.mark.value - inputs[f].ts)
  {
    hide Energy, TotalWh, Chain;
    assert NoEarlierThan(inputs, inputs[f].ts);
    IntervalsAreDisjoint(cal, inputs, inputs[f].ts, now);
    var j := DayIsOfReading(cal, inputs, f);
    PowersComeFromReadings(cal, inputs, p);
    var l := Run(cal, inputs);
    hide Run;
    ChainEnergy(l.journal, inputs[f].ts, l.mark.value, p);
  }

  // ------------------------------------------------------------ and what one reading adds, exactly

  /** The watt hours that `powerW` held for `seconds` amounts to. */
  lemma EnergyIsWattHours(powerW: real, seconds: int)
    ensures 3600.0 * Energy(powerW, seconds) == powerW * seconds as real
    ensures powerW == 0.0 || seconds == 0 ==> Energy(powerW, seconds) == 0.0
  {
  }

  /** The seconds since the previous reading of a source, when they are integrated at all. */
  function Seconds(prev: Option<nat>, ts: nat): nat {
    if prev.Some? && 0 < ts - prev.value < 300 then ts - prev.value else 0
  }

  /** The charging power a reading is integrated with. */
  function GainW(i: Input): real {
    if (if i.Battery? then i.powerW < 0.0 else i.solV > 1.0 && i.batA > 0.0) then i.ChargeW() else 0.0
  }

  lemma SolarFlowWh(l: Ledger, i: Input)
    requires i.Charger?
    ensures var m := l.SolarFlow(i.ts, i.solV, i.batV, i.batA);
            && m == l.(solar := m.solar)
            && TotalWh(m.solar) == TotalWh(l.solar) + Energy(GainW(i), Seconds(l.prevChg, i.ts))
  {
    hide Energy, TotalWh, Watts;
    if Seconds(l.prevChg, i.ts) > 0 && i.solV > 1.0 && i.batA > 0.0 {
      TotalWhAppend(l.solar, Interval(l.prevChg.value, i.ts, Watts(i.batV, i.batA)));
    } else {
      EnergyIsWattHours(GainW(i), Seconds(l.prevChg, i.ts));
    }
  }

  lemma BatteryFlowWh(l: Ledger, i: Input)
    requires i.Battery?
    ensures var m := l.BatteryFlow(i.ts, i.powerW);
            && m.solar == l.solar && m.prevChg == l.prevChg
            && TotalWh(m.charged) == TotalWh(l.charged) + Energy(GainW(i), Seconds(l.prevBat, i.ts))
  {
    hide Energy, TotalWh, Ledger.Discharge;
    DischargeKeepsSources(l, i.ts, i.powerW);
    if Seconds(l.prevBat, i.ts) > 0 && i.powerW < 0.0 {
      TotalWhAppend(l.charged, Interval(l.prevBat.value, i.ts, -i.powerW));
    } else {
      EnergyIsWattHours(GainW(i), Seconds(l.prevBat, i.ts));
    }
  }

  function Previous(l: Ledger, battery: bool): Option<nat> {
    if battery then l.prevBat else l.prevChg
  }

  /** Today's charged energy, which battery readings feed, or today's solar energy, which charger readings do. */
  function CollectedWh(l: Ledger, battery: bool): real {
    TotalWh(if battery then l.charged else l.solar)
  }

  lemma EnterDayKeepsSources(l: Ledger, d: nat, ts: nat, battery: bool)
    ensures var m, same := l.EnterDay(d, ts), l.day == Some(d);
            && m.prevBat == l.prevBat && m.prevChg == l.prevChg && m.day == Some(d)
            && CollectedWh(m, battery) == if same then CollectedWh(l, battery) else 0.0
  {
    TotalWhNothing();
    hide TotalWh;
  }

  /** What a reading adds to charged and to solar energy: its charging power times the seconds since the
      reading of the same source before it.  The first reading of another day starts from nothing. */
  lemma StepCollects(cal: Calendar, l: Ledger, i: Input, battery: bool)
    ensures var m := l.Step(cal, i);
            var kept := if l.day == Some(cal.dayOf(i.ts)) then CollectedWh(l, battery) else 0.0;
            var mine := i.Battery? == battery;
            && (!i.valid ==> m == l)
            && (i.valid ==> m.day == Some(cal.dayOf(i.ts)))
            && (i.valid ==> Previous(m, battery) == if mine then Some(i.ts) else Previous(l, battery))
            && (i.valid && !mine ==> CollectedWh(m, battery) == kept)
            && (i.valid && mine ==>
                  CollectedWh(m, battery) == kept + Energy(GainW(i), Seconds(Previous(l, battery), i.ts)))
  {
    hide Ledger.EnterDay, Ledger.Discharge, Ledger.SolarFlow, Ledger.BatteryFlow, Energy, TotalWh, GainW, Seconds;
    hide Watts;
    StepDay(cal, l, i);
    EnterDayKeepsSources(l, cal.dayOf(i.ts), i.ts, battery);
    var today := l.EnterDay(cal.dayOf(i.ts), i.ts);
    if i.Battery? {
      BatteryFlowWh(today, i);
    } else {
      SolarFlowWh(today, i);
      DischargeKeepsSources(today.SolarFlow(i.ts, i.solV, i.batV, i.batA), i.ts, i.DischargeW());
    }
  }

  /** The power a reading draws from the battery, when it integrates at all: a battery reading needs one
      before it by less than 300 seconds, a charger reading a current below -0.05 A. */
  function DrawnW(prevBat: Option<nat>, i: Input): Option<real> {
    if (if i.Battery? then Seconds(prevBat, i.ts) > 0 && i.powerW > 0.0 else i.batA < -0.05)
    then Some(i.DischargeW()) else None
  }

  /** Discharged energy, of today: a reading that draws power adds it times the seconds since the mark and
      moves the mark; the first reading of another day starts from nothing and sets the mark. */
  lemma StepDischargedWh(cal: Calendar, l: Ledger, i: Input)
    requires i.valid
    ensures var m := l.Step(cal, i);
            var same, w := l.day == Some(cal.dayOf(i.ts)), DrawnW(l.prevBat, i);
            && (!same ==> m.today == [] && m.mark == Some(i.ts))
            && (same && w.None? ==> m.today == l.today && m.mark == l.mark)
            && (same && w.Some? ==>
                 && m.mark == Some(i.ts)
                 && TotalWh(m.today) == TotalWh(l.today) + Energy(w.value, Seconds(l.mark, i.ts)))
  {
    hide Energy, TotalWh;
    var w := DrawnW(l.prevBat, i);
    if w.Some? { EnergyIsWattHours(w.value, Seconds(l.mark, i.ts)); }
    if w.Some? && Seconds(l.mark, i.ts) > 0 {
      TotalWhAppend(l.today, Interval(l.mark.value, i.ts, i.DischargeW()));
    }
  }

  // ------------------------------------------------------------ hence what a stretch of a day adds

  /** The valid readings of one source, in order. */
  function Readings(inputs: seq<Input>, battery: bool): (rs: seq<Input>)
    ensures forall k :: 0 <= k < |rs| ==> rs[k].valid && rs[k].Battery? == battery && rs[k] in inputs
  {
    if inputs == [] then []
    else
      var last := inputs[|inputs| - 1];
      Readings(inputs[..|inputs| - 1], battery) + if last.valid && last.Battery? == battery then [last] else []
  }

  ghost predicate OneDay(cal: Calendar, inputs: seq<Input>, day: nat) {
    forall k :: 0 <= k < |inputs| && inputs[k].valid ==> cal.dayOf(inputs[k].ts) == day
  }

  /** Each reading comes later than the one before it, by less than 300 seconds. */
  ghost predicate Close(rs: seq<Input>) {
    forall k :: 0 < k < |rs| ==> 0 < rs[k].ts - rs[k - 1].ts < 300
  }

  lemma {:induction false} RunAppend(cal: Calendar, before: seq<Input>, stretch: seq<Input>)
    requires |stretch| > 1
    ensures var n := |stretch| - 1;
            Run(cal, before + stretch) == Run(cal, before + stretch[..n]).Step(cal, stretch[n])
  {
    var n, all := |stretch| - 1, before + stretch;
    assert all[..|all| - 1] == before + stretch[..n];
  }

  lemma {:induction false} ReadingsAppend(stretch: seq<Input>, battery: bool)
    requires |stretch| > 1 && stretch[0].valid && stretch[0].Battery? == battery
    ensures var n := |stretch| - 1;
            var rs := Readings(stretch[..n], battery);
            && rs != [] && rs[0] == stretch[0]
            && Readings(stretch, battery) ==
                 rs + if stretch[n].valid && stretch[n].Battery? == battery then [stretch[n]] else []
  {
    FirstReading(stretch[..|stretch| - 1], battery);
  }

  lemma {:induction false} FirstReading(stretch: seq<Input>, battery: bool)
    requires stretch != [] && stretch[0].valid && stretch[0].Battery? == battery
    ensures Readings(stretch, battery) != [] && Readings(stretch, battery)[0] == stretch[0]
  {
    if |stretch| > 1 { FirstReading(stretch[..|stretch| - 1], battery); }
  }

  /** Inside a stretch of one day the ledger stands at that day, and at the latest reading of the source. */
  lemma {:induction false} StretchStands(cal: Calendar, before: seq<Input>, stretch: seq<Input>, battery: bool,
                                         day: nat)
    requires stretch != [] && stretch[0].valid && stretch[0].Battery? == battery && OneDay(cal, stretch, day)
    ensures var l, rs := Run(cal, before + stretch), Readings(stretch, battery);
            && rs != [] && l.day == Some(day) && Previous(l, battery) == Some(rs[|rs| - 1].ts)
  {
    hide Ledger.Step, Previous, CollectedWh, Energy;
    var n := |stretch| - 1;
    StepCollects(cal, Run(cal, before + stretch[..n]), stretch[n], battery);
    if n == 0 {
      assert (before + stretch)[..|before|] == before + stretch[..0];
      assert Readings(stretch, battery) == [stretch[0]];
    } else {
      StretchStands(cal, before, stretch[..n], battery, day);
      hide Run;
      RunAppend(cal, before, stretch);
      ReadingsAppend(stretch, battery);
    }
  }

  ghost predicate Held(p: real, wh: real, q: real, seconds: int) {
    Energy(p, seconds) <= wh <= Energy(q, seconds)
  }

  lemma NothingHeld(p: real, q: real)
    ensures Held(p, 0.0, q, 0)
  {
  }

  lemma EnergyAdds(p: real, w: real, a: int, b: int)
    requires 0 <= b
    ensures Energy(p, a) + Energy(p, b) == Energy(p, a + b)
    ensures p <= w ==> Energy(p, b) <= Energy(w, b)
  {
  }

  lemma MoreHeld(p: real, w: real, q: real, a: int, b: int, grown: real)
    requires p <= w <= q && 0 <= b && Held(p, grown, q, a)
    ensures Held(p, grown + Energy(w, b), q, a + b)
  {
    hide Energy;
    EnergyAdds(p, w, a, b);
    EnergyAdds(q, q, a, b);
    EnergyAdds(w, q, a, b);
  }

  ghost predicate Gaining(rs: seq<Input>, p: real, q: real) {
    Close(rs) && forall k :: 0 < k < |rs| ==> p <= GainW(rs[k]) <= q
  }

  lemma StretchStep(cal: Calendar, l: Ledger, last: Input, rs: seq<Input>, battery: bool, p: real, q: real, wh: real)
    requires rs != [] && l.day == Some(cal.dayOf(last.ts)) && Previous(l, battery) == Some(rs[|rs| - 1].ts)
    requires last.valid && last.Battery? == battery && Gaining(rs + [last], p, q)
    requires Held(p, CollectedWh(l, battery) - wh, q, rs[|rs| - 1].ts - rs[0].ts)
    ensures Held(p, CollectedWh(l.Step(cal, last), battery) - wh, q, last.ts - rs[0].ts)
  {
    hide Ledger.Step, GainW, CollectedWh, Held, Previous, Energy;
    StepCollects(cal, l, last, battery);
    assert (rs + [last])[|rs|] == last && (rs + [last])[|rs| - 1] == rs[|rs| - 1];
    var from := rs[|rs| - 1].ts;
    MoreHeld(p, GainW(last), q, from - rs[0].ts, last.ts - from, CollectedWh(l, battery) - wh);
  }

  lemma GainingPrefix(rs: seq<Input>, more: seq<Input>, p: real, q: real)
    requires Gaining(rs + more, p, q)
    ensures Gaining(rs, p, q)
  {
    hide GainW;
    assert forall k :: 0 <= k < |rs| ==> (rs + more)[k] == rs[k];
  }

  lemma OneDayPrefix(cal: Calendar, stretch: seq<Input>, n: nat, day: nat)
    requires OneDay(cal, stretch, day) && n < |stretch|
    ensures OneDay(cal, stretch[..n], day) && (stretch[n].valid ==> cal.dayOf(stretch[n].ts) == day)
  {
  }

  lemma OtherStep(cal: Calendar, l: Ledger, i: Input, battery: bool)
    requires i.valid ==> l.day == Some(cal.dayOf(i.ts)) && i.Battery? != battery
    ensures CollectedWh(l.Step(cal, i), battery) == CollectedWh(l, battery)
  {
    hide Ledger.Step, CollectedWh, Previous, Energy;
    StepCollects(cal, l, i, battery);
  }

  /** How far a stretch has been collected: everything since `wh`, up to the latest reading. */
  ghost predicate Collected(l: Ledger, rs: seq<Input>, battery: bool, p: real, q: real, wh: real) {
    rs != [] && Held(p, CollectedWh(l, battery) - wh, q, rs[|rs| - 1].ts - rs[0].ts)
  }

  lemma CollectedStep(cal: Calendar, l: Ledger, last: Input, rs: seq<Input>, battery: bool, day: nat,
                      p: real, q: real, wh: real)
    requires rs != [] && l.day == Some(day) && Previous(l, battery) == Some(rs[|rs| - 1].ts)
    requires last.valid ==> cal.dayOf(last.ts) == day
    requires Collected(l, rs, battery, p, q, wh)
    requires Gaining(rs + (if last.valid && last.Battery? == battery then [last] else []), p, q)
    ensures Collected(l.Step(cal, last), rs + (if last.valid && last.Battery? == battery then [last] else []),
                      battery, p, q, wh)
  {
    hide Ledger.Step, Previous, CollectedWh, Held, Gaining;
    if last.valid && last.Battery? == battery {
      StretchStep(cal, l, last, rs, battery, p, q, wh);
    } else {
      assert rs + [] == rs;
      OtherStep(cal, l, last, battery);
    }
  }

  lemma {:induction false} StretchCollects(cal: Calendar, before: seq<Input>, stretch: seq<Input>, battery: bool,
                                           day: nat, p: real, q: real)
    requires stretch != [] && stretch[0].valid && stretch[0].Battery? == battery && OneDay(cal, stretch, day)
    requires Gaining(Readings(stretch, battery), p, q)
    ensures Collected(Run(cal, before + stretch), Readings(stretch, battery), battery, p, q,
                      CollectedWh(Run(cal, before + [stretch[0]]), battery))
    ensures Readings(stretch, battery)[0] == stretch[0]
  {
    hide Run, Gaining, Held, Ledger.Step, CollectedWh, Previous, OneDay;
    var n := |stretch| - 1;
    if n == 0 {
      assert stretch == [stretch[0]];
      NothingHeld(p, q);
    } else {
      var last, rs := stretch[n], Readings(stretch[..n], battery);
      ReadingsAppend(stretch, battery);
      OneDayPrefix(cal, stretch, n, day);
      GainingPrefix(rs, if last.valid && last.Battery? == battery then [last] else [], p, q);
      StretchStands(cal, before, stretch[..n], battery, day);
      StretchCollects(cal, before, stretch[..n], battery, day, p, q);
      hide Readings, Collected;
      RunAppend(cal, before, stretch);
      CollectedStep(cal, Run(cal, before + stretch[..n]), last, rs, battery, day, p, q,
                    CollectedWh(Run(cal, before + [stretch[0]]), battery));
    }
  }

  lemma InWattHours(p: real, wh: real, q: real, seconds: int)
    requires Held(p, wh, q, seconds)
    ensures WattHoursBetween(p, wh, q, seconds)
  {
    EnergyIsWattHours(p, seconds);
    EnergyIsWattHours(q, seconds);
  }

  /** Charger readings that follow each other closely and show sun and charging power from `p` to `q`. */
  ghost predicate Sunny(cs: seq<Input>, p: real, q: real) {
    forall k :: 0 < k < |cs| ==>
      && 0 < cs[k].ts - cs[k - 1].ts < 300
      && cs[k].Charger? && cs[k].solV > 1.0 && cs[k].batA > 0.0 && p <= cs[k].batV * cs[k].batA <= q
  }

  lemma SunnyGains(cs: seq<Input>, p: real, q: real)
    requires Sunny(cs, p, q)
    ensures Gaining(cs, p, q)
  {
    forall k | 0 < k < |cs| ensures p <= GainW(cs[k]) <= q {
      var c := cs[k];
      assert GainW(c) == Watts(c.batV, c.batA);
    }
  }

  /** Solar energy is collected: over charger readings of one day that are close and sunny it grows by at
      least `p` and at most `q` times the time they cover, whatever battery readings lie between. */
  lemma {:induction false} SolarIsCollected(cal: Calendar, before: seq<Input>, stretch: seq<Input>, day: nat,
                                            p: real, q: real)
    requires stretch != [] && stretch[0].valid && stretch[0].Charger? && OneDay(cal, stretch, day)
    requires Sunny(Readings(stretch, false), p, q)
    ensures var cs := Readings(stretch, false);
            var wh := TotalWh(Run(cal, before + stretch).solar) - TotalWh(Run(cal, before + [stretch[0]]).solar);
            && cs != [] && cs[0] == stretch[0]
            && WattHoursBetween(p, wh, q, cs[|cs| - 1].ts - cs[0].ts)
  {
    hide Run, TotalWh, WattHoursBetween, Gaining, Held, OneDay, Sunny;
    var cs := Readings(stretch, false);
    SunnyGains(cs, p, q);
    StretchCollects(cal, before, stretch, false, day, p, q);
    InWattHours(p, TotalWh(Run(cal, before + stretch).solar) - TotalWh(Run(cal, before + [stretch[0]]).solar), q,
                cs[|cs| - 1].ts - cs[0].ts);
  }

  /** Battery readings that follow each other closely and show charging power from `p` to `q`. */
  ghost predicate Charging(bs: seq<Input>, p: real, q: real) {
    forall k :: 0 < k < |bs| ==>
      && 0 < bs[k].ts - bs[k - 1].ts < 300
      && bs[k].Battery? && bs[k].powerW < 0.0 && p <= -bs[k].powerW <= q
  }

  lemma ChargingGains(bs: seq<Input>, p: real, q: real)
    requires Charging(bs, p, q)
    ensures Gaining(bs, p, q)
  {
  }

  /** The same for the charged energy and the battery readings of negative power. */
  lemma {:induction false} ChargeIsCollected(cal: Calendar, before: seq<Input>, stretch: seq<Input>, day: nat,
                                             p: real, q: real)
    requires stretch != [] && stretch[0].valid && stretch[0].Battery? && OneDay(cal, stretch, day)
    requires Charging(Readings(stretch, true), p, q)
    ensures var bs := Readings(stretch, true);
            var wh := TotalWh(Run(cal, before + stretch).charged) - TotalWh(Run(cal, before + [stretch[0]]).charged);
            && bs != [] && bs[0] == stretch[0]
            && WattHoursBetween(p, wh, q, bs[|bs| - 1].ts - bs[0].ts)
  {
    hide Run, TotalWh, WattHoursBetween, Gaining, Held, OneDay, Charging;
    var bs := Readings(stretch, true);
    ChargingGains(bs, p, q);
    StretchCollects(cal, before, stretch, true, day, p, q);
    InWattHours(p, TotalWh(Run(cal, before + stretch).charged) - TotalWh(Run(cal, before + [stretch[0]]).charged), q,
                bs[|bs| - 1].ts - bs[0].ts);
  }

  /** When the latest valid reading was taken. */
  function LatestTs(inputs: seq<Input>): nat
    requires inputs != []
  {
    var last := inputs[|inputs| - 1];
    if last.valid || |inputs| == 1 then last.ts else LatestTs(inputs[..|inputs| - 1])
  }

  /** A battery reading reports a discharge from `p` to `q`, and so does a charger reading, unless it
      reports none. */
  ghost predicate Draws(i: Input, p: real, q: real) {
    if i.Battery? then i.powerW > 0.0 && p <= i.powerW <= q
    else i.batA >= -0.05 || p <= i.batV * -i.batA <= q
  }

  /** After the first reading, no valid one lies before the one before it, or 300 seconds or more after the
      latest battery reading, and each draws from `p` to `q` or nothing. */
  ghost predicate Drawing(stretch: seq<Input>, p: real, q: real) {
    |stretch| > 1 ==>
      var n := |stretch| - 1;
      var bs := Readings(stretch[..n], true);
      && Drawing(stretch[..n], p, q)
      && (stretch[n].valid ==>
            && LatestTs(stretch[..n]) <= stretch[n].ts
            && bs != [] && stretch[n].ts - bs[|bs| - 1].ts < 300
            && Draws(stretch[n], p, q))
  }

  lemma DrawnBetween(prevBat: Option<nat>, i: Input, p: real, q: real)
    requires Draws(i, p, q)
    ensures DrawnW(prevBat, i).Some? ==> p <= DrawnW(prevBat, i).value <= q
    ensures i.Battery? ==> DrawnW(prevBat, i).Some? == (Seconds(prevBat, i.ts) > 0)
  {
    if i.Charger? { assert i.DischargeW() == Watts(i.batV, -i.batA); }
  }

  /** How far the discharge of a stretch has been followed: up to the mark, at powers from `p` to `q`. */
  ghost predicate Followed(l: Ledger, day: nat, tb: int, now: int, p: real, q: real, wh: real, start: int) {
    && l.day == Some(day) && l.prevBat == Some(tb) && l.mark.Some? && tb <= l.mark.value <= now
    && Held(p, TotalWh(l.today) - wh, q, l.mark.value - start)
  }

  lemma FollowedStep(cal: Calendar, l: Ledger, i: Input, tb: int, now: int, p: real, q: real, wh: real, start: int)
    requires i.valid && now <= i.ts < tb + 300 && Draws(i, p, q)
    requires Followed(l, cal.dayOf(i.ts), tb, now, p, q, wh, start)
    ensures Followed(l.Step(cal, i), cal.dayOf(i.ts), if i.Battery? then i.ts else tb, i.ts, p, q, wh, start)
  {
    hide Ledger.Step, Held, TotalWh, DrawnW, Draws, Energy, CollectedWh, GainW, Watts;
    StepDischargedWh(cal, l, i);
    StepCollects(cal, l, i, true);
    DrawnBetween(l.prevBat, i, p, q);
    var w := DrawnW(l.prevBat, i);
    if w.Some? {
      assert Seconds(l.mark, i.ts) == i.ts - l.mark.value;
      MoreHeld(p, w.value, q, l.mark.value - start, i.ts - l.mark.value, TotalWh(l.today) - wh);
    } else if i.Battery? {
      assert i.ts == tb;
    }
  }

  lemma {:induction false} StretchDraws(cal: Calendar, before: seq<Input>, stretch: seq<Input>, day: nat,
                                        p: real, q: real)
    requires stretch != [] && stretch[0].valid && stretch[0].Battery? && OneDay(cal, stretch, day)
    requires Drawing(stretch, p, q)
    requires Run(cal, before + [stretch[0]]).mark == Some(stretch[0].ts)
    ensures var bs := Readings(stretch, true);
            && bs != []
            && Followed(Run(cal, before + stretch), day, bs[|bs| - 1].ts, LatestTs(stretch), p, q,
                        TotalWh(Run(cal, before + [stretch[0]]).today), stretch[0].ts)
  {
    hide Ledger.Step, Held, TotalWh, Draws, Run, OneDay;
    var n := |stretch| - 1;
    StretchStands(cal, before, stretch, true, day);
    if n == 0 {
      assert stretch == [stretch[0]];
      NothingHeld(p, q);
    } else {
      var l, last, bs := Run(cal, before + stretch[..n]), stretch[n], Readings(stretch[..n], true);
      ReadingsAppend(stretch, true);
      OneDayPrefix(cal, stretch, n, day);
      StretchDraws(cal, before, stretch[..n], day, p, q);
      RunAppend(cal, before, stretch);
      hide Followed, Drawing;
      if last.valid {
        FollowedStep(cal, l, last, bs[|bs| - 1].ts, LatestTs(stretch[..n]), p, q,
                     TotalWh(Run(cal, before + [stretch[0]]).today), stretch[0].ts);
      } else {
        StepDay(cal, l, last);
      }
    }
  }

  /** Discharge is collected from both sources: while every reading of a stretch of one day that draws
      power draws from `p` to `q`, and battery readings keep coming, today's discharge grows by at least
      `p` and at most `q` times the time up to the mark, which is the latest battery reading or later. */
  lemma {:induction false} DischargeIsCollected(cal: Calendar, before: seq<Input>, stretch: seq<Input>, day: nat,
                                                p: real, q: real)
    requires stretch != [] && stretch[0].valid && stretch[0].Battery? && OneDay(cal, stretch, day)
    requires Drawing(stretch, p, q)
    requires Run(cal, before + [stretch[0]]).mark == Some(stretch[0].ts)
    ensures var l, bs := Run(cal, before + stretch), Readings(stretch, true);
            var wh := TotalWh(l.today) - TotalWh(Run(cal, before + [stretch[0]]).today);
            && bs != [] && l.mark.Some? && bs[|bs| - 1].ts <= l.mark.value <= LatestTs(stretch)
            && WattHoursBetween(p, wh, q, l.mark.value - stretch[0].ts)
  {
    hide TotalWh, WattHoursBetween, Followed, OneDay, Draws, Ledger.Step;
    StretchDraws(cal, before, stretch, day, p, q);
    hide Drawing;
    var l, bs := Run(cal, before + stretch), Readings(stretch, true);
    FollowedInWattHours(l, day, bs[|bs| - 1].ts, LatestTs(stretch), p, q,
                        TotalWh(Run(cal, before + [stretch[0]]).today), stretch[0].ts);
  }

  lemma FollowedInWattHours(l: Ledger, day: nat, tb: int, now: int, p: real, q: real, wh: real, start: int)
    requires Followed(l, day, tb, now, p, q, wh, start)
    ensures l.mark.Some? && tb <= l.mark.value <= now
    ensures WattHoursBetween(p, TotalWh(l.today) - wh, q, l.mark.value - start)
  {
    hide Held, WattHoursBetween, TotalWh;
    InWattHours(p, TotalWh(l.today) - wh, q, l.mark.value - start);
  }

  /** What a charger reading draws from the battery: below -0.05 A its voltage times its current for the
      seconds since the mark, which it moves, and otherwise nothing. */
  lemma ChargerDraws(cal: Calendar, l: Ledger, i: Input, w: real)
    requires i.valid && i.Charger? && l.day == Some(cal.dayOf(i.ts)) && l.mark.Some?
    requires w == i.batV * -i.batA
    ensures var m, dt := l.Step(cal, i), i.ts - l.mark.value;
            var wh := TotalWh(m.today) - TotalWh(l.today);
            if 20.0 * i.batA >= -1.0 then m.today == l.today && m.mark == l.mark
            else m.mark == Some(i.ts) && WattHoursBetween(w, wh, w, if 0 < dt < 300 then dt else 0)
  {
    assert i.DischargeW() == w by { assert Watts(i.batV, -i.batA) == w; }
    StepDischargedWh(cal, l, i);
    hide Ledger.Step, Energy, TotalWh, Watts, Input.DischargeW, WattHoursBetween;
    var dt := i.ts - l.mark.value;
    EnergyInWattHours(w, if 0 < dt < 300 then dt else 0);
  }

  lemma EnergyInWattHours(powerW: real, seconds: int)
    ensures WattHoursBetween(powerW, Energy(powerW, seconds), powerW, seconds)
  {
    EnergyIsWattHours(powerW, seconds);
  }

  /** And a battery reading: its power, when it is positive and the battery reading before it is less than
      300 seconds old. */
  lemma BatteryDraws(cal: Calendar, l: Ledger, i: Input)
    requires i.valid && i.Battery? && l.day == Some(cal.dayOf(i.ts)) && l.mark.Some?
    ensures var m, dt := l.Step(cal, i), i.ts - l.mark.value;
            var wh := TotalWh(m.today) - TotalWh(l.today);
            if i.powerW > 0.0 && l.prevBat.Some? && 0 < i.ts - l.prevBat.value < 300
            then m.mark == Some(i.ts) && WattHoursBetween(i.powerW, wh, i.powerW, if 0 < dt < 300 then dt else 0)
            else m.today == l.today && m.mark == l.mark
  {
    StepDischargedWh(cal, l, i);
    hide Ledger.Step, Energy, TotalWh, WattHoursBetween;
    var dt := i.ts - l.mark.value;
    EnergyInWattHours(i.powerW, if 0 < dt < 300 then dt else 0);
  }

  /** When a battery reading moves the mark to itself: it is the first of its day, or it reports a discharge
      less than 300 seconds after the battery reading before it. */
  lemma BatterySetsMark(cal: Calendar, l: Ledger, i: Input)
    requires i.valid && i.Battery?
    requires l.day != Some(cal.dayOf(i.ts)) || (l.prevBat.Some? && 0 < i.ts - l.prevBat.value < 300 && i.powerW > 0.0)
    ensures l.Step(cal, i).mark == Some(i.ts)
  {
    hide Energy, TotalWh;
    StepDischargedWh(cal, l, i);
  }

  /** Any reading of another day closes the day; a battery reading of another hour closes the hour. */
  lemma StepClosesBins(cal: Calendar, l: Ledger, i: Input)
    requires i.valid
    ensures var m := l.Step(cal, i);
            && m.day == Some(cal.dayOf(i.ts))
            && m.days == l.days + (if l.day.Some? && l.day != m.day then [Bin(l.day.value, TotalWh(l.today))] else [])
            && (i.Charger? ==> m.hour == l.hour && m.hours == l.hours)
            && (i.Battery? ==>
                  && m.hour == Some(cal.hourOf(i.ts))
                  && (l.hour.None? || l.hour == m.hour ==> m.hours == l.hours)
                  && (l.hour.Some? && l.hour != m.hour ==>
                        && m.thisHour == [] && |m.hours| == |l.hours| + 1
                        && m.hours[..|l.hours|] == l.hours && m.hours[|l.hours|].id == l.hour.value))
  {
    hide Energy, TotalWh, Ledger.Discharge, Watts;
    var today := l.EnterDay(cal.dayOf(i.ts), i.ts);
    DischargeKeepsBins(today, i.ts, i.DischargeW());
    if i.Charger? { DischargeKeepsBins(today.SolarFlow(i.ts, i.solV, i.batV, i.batA), i.ts, i.DischargeW()); }
  }

  lemma DischargeKeepsBins(l: Ledger, ts: nat, powerW: real)
    ensures var m := l.Discharge(ts, powerW);
            m.day == l.day && m.days == l.days && m.hour == l.hour && m.hours == l.hours
  {
  }

  /** Two charger readings a minute apart, 13 V and 10 A under the sun: 130 W for 60 seconds. */
  lemma {:induction false} MinuteOfSun(cal: Calendar)
    requires cal.dayOf(100) == cal.dayOf(160)
    ensures var l := Run(cal, [Charger(true, 100, 40.0, 13.0, 10.0), Charger(true, 160, 40.0, 13.0, 10.0)]);
            l.solar == [Interval(100, 160, 130.0)] && 3600.0 * TotalWh(l.solar) == 7800.0
  {
    var a, b := Charger(true, 100, 40.0, 13.0, 10.0), Charger(true, 160, 40.0, 13.0, 10.0);
    assert [a, b][..1] == [a] && [a][..0] == [];
    var l := EMPTY.Step(cal, a);
    assert Run(cal, [a]) == l && Run(cal, [a, b]) == l.Step(cal, b);
    assert l.prevChg == Some(100) && l.solar == [] && l.day == Some(cal.dayOf(100));
    assert Watts(13.0, 10.0) == 130.0;
    assert l.Step(cal, b).solar == [] + [Interval(100, 160, 130.0)];
    TotalWhNothing();
    TotalWhAppend([], Interval(100, 160, 130.0));
  }

  // ------------------------------------------------------------ exactly when seconds are integrated again

  /** The end of the latest integrated interval. */
  function LatestEnd(s: seq<Interval>): int {
    if s == [] then 0 else s[|s| - 1].to
  }

  ghost predicate Orderly(s: seq<Interval>) {
    Chain(s, 0, LatestEnd(s))
  }

  predicate ReportsDischarge(l: Ledger, i: Input) {
    match i
    case Battery(_, ts, powerW) => l.prevBat.Some? && 0 < ts - l.prevBat.value < MAX_GAP && powerW > 0.0
    case Charger(_, _, _, _, batA) => batA < -0.05
  }

  /** The next reading will be integrated from a mark that lies before the end of what has been
      integrated already. */
  predicate Rewinds(cal: Calendar, l: Ledger, i: Input) {
    && i.valid && l.day == Some(cal.dayOf(i.ts)) && l.mark.Some?
    && 0 < i.ts - l.mark.value < MAX_GAP && ReportsDischarge(l, i)
    && l.mark.value < LatestEnd(l.journal)
  }

  lemma DischargeIsOrderlyIff(l: Ledger, ts: nat, powerW: real)
    requires Orderly(l.journal)
    ensures Orderly(l.Discharge(ts, powerW).journal) <==>
            !(l.mark.Some? && 0 < ts - l.mark.value < MAX_GAP) || LatestEnd(l.journal) <= l.mark.value
  {
    if l.mark.Some? && 0 < ts - l.mark.value < MAX_GAP {
      var i := Interval(l.mark.value, ts, powerW);
      assert (l.journal + [i])[..|l.journal|] == l.journal;
      assert Chain(l.journal + [i], 0, ts) <==> Chain(l.journal, 0, i.from);
      if LatestEnd(l.journal) <= i.from {
        ChainExtends(l.journal, 0, LatestEnd(l.journal), i.from);
      }
    }
  }

  /** What one reading integrates, as a plain discharge on the ledger before it. */
  lemma StepIntegrates(cal: Calendar, l: Ledger, i: Input)
    ensures l.Step(cal, i).journal ==
              if i.valid && l.day == Some(cal.dayOf(i.ts)) && ReportsDischarge(l, i)
              then l.Discharge(i.ts, i.DischargeW()).journal else l.journal
  {
  }

  lemma StepIsOrderlyIff(cal: Calendar, l: Ledger, i: Input)
    requires Orderly(l.journal)
    ensures Orderly(l.Step(cal, i).journal) <==> !Rewinds(cal, l, i)
  {
    hide Ledger.Step, Ledger.Discharge, Chain;
    StepIntegrates(cal, l, i);
    DischargeIsOrderlyIff(l, i.ts, i.DischargeW());
  }

  lemma {:induction false} ChainPrefix(s: seq<Interval>, n: nat, lo: int, hi: int)
    requires Chain(s, lo, hi) && n <= |s|
    ensures Chain(s[..n], lo, if n == 0 then hi else s[n - 1].to)
  {
    if n == |s| {
      assert s[..n] == s;
    } else {
      ChainPrefix(s[..|s| - 1], n, lo, s[|s| - 1].from);
      assert s[..|s| - 1][..n] == s[..n];
    }
  }

  lemma StaysDisorderly(cal: Calendar, l: Ledger, i: Input)
    requires Orderly(l.Step(cal, i).journal)
    ensures Orderly(l.journal)
  {
    StepAddsOne(cal, l, i);
    hide Ledger.Step;
    var j := l.Step(cal, i).journal;
    ChainPrefix(j, |l.journal|, 0, LatestEnd(j));
    assert j[..|l.journal|] == l.journal;
  }

  ghost predicate NeverRewinds(cal: Calendar, inputs: seq<Input>) {
    forall k :: 0 <= k < |inputs| ==> !Rewinds(cal, Run(cal, inputs[..k]), inputs[k])
  }

  lemma {:induction false} NeverRewindsStep(cal: Calendar, inputs: seq<Input>)
    requires inputs != []
    ensures var before, last := inputs[..|inputs| - 1], inputs[|inputs| - 1];
            NeverRewinds(cal, inputs) <==> NeverRewinds(cal, before) && !Rewinds(cal, Run(cal, before), last)
  {
    hide Run, Rewinds;
    var n := |inputs| - 1;
    assert forall k :: 0 <= k < n ==> inputs[..n][..k] == inputs[..k] && inputs[..n][k] == inputs[k];
  }

  /** Over any run, in whatever order the timestamps come: the integrated intervals are disjoint and in
      order if and only if no reading was integrated from a rewound mark. */
  lemma {:induction false} OrderlyIff(cal: Calendar, inputs: seq<Input>)
    ensures Orderly(Run(cal, inputs).journal) <==> NeverRewinds(cal, inputs)
  {
    hide Orderly, Rewinds, Ledger.Step, NeverRewinds;
    if inputs == [] {
      NothingIsOrderly(cal);
    } else {
      var n := |inputs| - 1;
      var l := Run(cal, inputs[..n]);
      OrderlyIff(cal, inputs[..n]);
      NeverRewindsStep(cal, inputs);
      if Orderly(Run(cal, inputs).journal) { StaysDisorderly(cal, l, inputs[n]); }
      if Orderly(l.journal) { StepIsOrderlyIff(cal, l, inputs[n]); }
    }
  }

  lemma NothingIsOrderly(cal: Calendar)
    ensures Orderly([]) && NeverRewinds(cal, [])
  {
  }

  /** Startup replays all battery readings and then all charger readings.  The charger readings move the
      mark back, so the next one rewinds: the same seconds are integrated again, and today's total passes
      the bound that holds in ordered time. */
  lemma {:induction false} ReplayDoubleCounts(cal: Calendar)
    requires cal.dayOf(100) == cal.dayOf(200) == cal.dayOf(110)
    ensures var inputs := [Battery(true, 100, 60.0), Battery(true, 200, 60.0),
                           Charger(true, 110, 0.0, 12.0, -5.0), Charger(true, 200, 0.0, 12.0, -5.0)];
            var l := Run(cal, inputs);
            && (forall i :: 0 <= i < |inputs| ==> inputs[i].DischargeW() <= 60.0)
            && Rewinds(cal, Run(cal, inputs[..3]), inputs[3]) && !Orderly(l.journal)
            && l.dayStart == 100 && l.mark == Some(200)
            && TotalWh(l.today) == Energy(60.0, 190) > Energy(60.0, 100)
  {
    var a, b := Battery(true, 100, 60.0), Battery(true, 200, 60.0);
    var c, d := Charger(true, 110, 0.0, 12.0, -5.0), Charger(true, 200, 0.0, 12.0, -5.0);
    ReplayPowers();
    hide TotalWh, Energy, Run, Orderly, Ledger.Step, Rewinds, Input.DischargeW, NeverRewinds;
    RunOfFour(cal, a, b, c, d);
    var l := ThreeReplayed(cal, a, b, c);
    FourthReplayed(cal, l, d);
    RewindIsDisorderly(cal, [a, b, c, d], 3);
    DoubledTotal();
  }

  lemma ReplayPowers()
    ensures var inputs := [Battery(true, 100, 60.0), Battery(true, 200, 60.0),
                           Charger(true, 110, 0.0, 12.0, -5.0), Charger(true, 200, 0.0, 12.0, -5.0)];
            forall i :: 0 <= i < |inputs| ==> inputs[i].DischargeW() <= 60.0
  {
  }

  lemma {:induction false} RewindIsDisorderly(cal: Calendar, inputs: seq<Input>, k: nat)
    requires k < |inputs| && Rewinds(cal, Run(cal, inputs[..k]), inputs[k])
    ensures !Orderly(Run(cal, inputs).journal)
  {
    hide Rewinds, Orderly, Run;
    OrderlyIff(cal, inputs);
  }

  lemma DoubledTotal()
    ensures TotalWh([Interval(100, 200, 60.0)] + [Interval(110, 200, 60.0)]) == Energy(60.0, 190) > Energy(60.0, 100)
  {
    hide TotalWh, Energy;
    var first, again := Interval(100, 200, 60.0), Interval(110, 200, 60.0);
    TotalWhAppend([first], again);
    TotalWhAppend([], first);
    TotalWhNothing();
    assert [] + [first] == [first];
    EnergyLaws(60.0, 60.0, 100, 90);
    PositiveEnergy(60.0, 90);
  }

  lemma ThreeReplayed(cal: Calendar, a: Input, b: Input, c: Input) returns (l: Ledger)
    requires a == Battery(true, 100, 60.0) && b == Battery(true, 200, 60.0) && c == Charger(true, 110, 0.0, 12.0, -5.0)
    requires cal.dayOf(100) == cal.dayOf(200) == cal.dayOf(110)
    ensures l == EMPTY.Step(cal, a).Step(cal, b).Step(cal, c)
    ensures l.mark == Some(110) && l.today == l.journal == [Interval(100, 200, 60.0)]
    ensures l.day == Some(cal.dayOf(100)) && l.dayStart == 100
  {
    hide TotalWh, Energy;
    var l1 := EMPTY.Step(cal, a);
    assert l1.mark == Some(100) && l1.prevBat == Some(100) && l1.today == l1.journal == [];
    assert l1.day == Some(cal.dayOf(100)) && l1.dayStart == 100;
    var l2 := l1.Step(cal, b);
    assert l2.mark == Some(200) && l2.today == l2.journal == [Interval(100, 200, 60.0)] && l2.day == l1.day;
    assert l2.dayStart == 100;
    l := l2.Step(cal, c);
  }

  lemma FourthReplayed(cal: Calendar, l: Ledger, d: Input)
    requires d == Charger(true, 200, 0.0, 12.0, -5.0)
    requires l.mark == Some(110) && l.day == Some(cal.dayOf(200)) && l.journal == [Interval(100, 200, 60.0)]
    ensures Rewinds(cal, l, d)
    ensures l.Step(cal, d).today == l.today + [Interval(110, 200, 60.0)]
    ensures l.Step(cal, d).mark == Some(200) && l.Step(cal, d).dayStart == l.dayStart
  {
    hide TotalWh;
  }

  lemma PositiveEnergy(p: real, seconds: int)
    requires p > 0.0 && seconds > 0
    ensures Energy(p, seconds) > 0.0
  {
  }

  lemma {:induction false} RunOfFour(cal: Calendar, a: Input, b: Input, c: Input, d: Input)
    ensures Run(cal, [a, b, c, d][..3]) == EMPTY.Step(cal, a).Step(cal, b).Step(cal, c)
    ensures Run(cal, [a, b, c, d]) == EMPTY.Step(cal, a).Step(cal, b).Step(cal, c).Step(cal, d)
  {
    hide Ledger.Step;
    assert [a, b, c, d][..3] == [a, b, c] && [a, b, c][..2] == [a, b] && [a, b][..1] == [a] && [a][..0] == [];
    assert Run(cal, [a, b]) == Run(cal, [a]).Step(cal, b);
    assert Run(cal, [a, b, c]) == Run(cal, [a, b]).Step(cal, c);
  }
}
