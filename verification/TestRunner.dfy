/**
 The battery test runner: one test at a time, recorded as a row of the test table that says 'running'
 until the test ends, with telemetry samples buffered and written in batches.

 `TestDb` is the database as a table that accepts writes, `TestRunner` the object, `Step` what one
 public call does.
 */
module TestRunner {
  import opened Options
  import opened WattHours

  const BATCH: nat := 50
  const TELEMETRY_INTERVAL_S: int := 2

  datatype TestType = UpsFailover | BatteryCapacity | LoadSpike | ChargerRecovery | SimulatedOutage

  datatype Status = Running | Passed | Failed | Aborted

  datatype Reason = UserStop | SafetyLimits | MaxDuration

  datatype Metadata =
    | NoMetadata
    | Stopped(reason: Reason)
    | Capacity(deliveredWh: real, socStart: real, socEnd: real, measuredWh: real, healthPct: real)

  datatype TestRow = TestRow(testType: TestType, startTime: int, endTime: int, duration: int, status: Status,
                             initialSoc: real, initialVoltage: real, metadata: Metadata)

  datatype Limits = Limits(socFloorPct: real, voltageFloorV: real, maxDurationS: int, abortOnOvertemp: bool)

  datatype Battery = Battery(ts: int, valid: bool, soc: real, voltageV: real, currentA: real, powerW: real,
                             nominalAh: real, cellDeltaV: real, temperaturesC: seq<real>, overtemp: bool)

  datatype Charger = Charger(valid: bool, psV: real, solV: real, batV: real, batA: real, state: string)

  /** What else is known when a battery reading arrives. */
  datatype Context = Context(loadW: real, charger: Option<Charger>, txActive: bool, txPower: real)

  const NO_CONTEXT := Context(0.0, None, false, 0.0)

  datatype BatteryView = BatteryView(voltageV: real, currentA: real, soc: real, loadW: real, cellDeltaV: real,
                                     temperatureC: real)

  datatype ChargerView = ChargerView(gridV: real, solarV: real, solarA: real, state: string, chargerV: real,
                                     chargerA: real)

  datatype Sample = Sample(testId: nat, timestamp: int, battery: BatteryView, charger: ChargerView,
                           txActive: bool, txPower: real)

  datatype CapacityRow = CapacityRow(ts: int, measuredWh: real, socStart: real, socEnd: real, energyWh: real,
                                     healthPct: real, testId: nat)

  function Max(a: int, b: int): int {
    if a < b then b else a
  }

  /** An invalid battery or charger leaves its fields at nought. */
  function MakeSample(id: nat, bat: Option<Battery>, cx: Context): Sample {
    var b := if bat.Some? && bat.value.valid then
               BatteryView(bat.value.voltageV, bat.value.currentA, bat.value.soc,
                           if cx.loadW > 0.0 then cx.loadW
                           else if bat.value.powerW > 0.0 then bat.value.powerW else 0.0,
                           bat.value.cellDeltaV,
                           if bat.value.temperaturesC == [] then 0.0 else bat.value.temperaturesC[0])
             else BatteryView(0.0, 0.0, 0.0, 0.0, 0.0, 0.0);
    var c := if cx.charger.Some? && cx.charger.value.valid then
               ChargerView(cx.charger.value.psV, cx.charger.value.solV,
                           if cx.charger.value.batA > 0.0 then cx.charger.value.batA else 0.0,
                           cx.charger.value.state, cx.charger.value.batV, cx.charger.value.batA)
             else ChargerView(0.0, 0.0, 0.0, "", 0.0, 0.0);
    Sample(id, if bat.Some? then bat.value.ts else 0, b, c, cx.txActive, cx.txPower)
  }

  // ------------------------------------------------------------ the database

  /** The test tables; the id of a run is its position, counted from 1. */
  datatype Tables = Tables(runs: seq<TestRow>, telemetry: seq<Sample>, capacity: seq<CapacityRow>)

  /** Runs left 'running' by a crash are closed. */
  function AbortRow(r: TestRow, now: int): TestRow {
    if r.status == Running then r.(status := Aborted, endTime := now, duration := Max(1, now - r.startTime)) else r
  }

  function AbortAll(runs: seq<TestRow>, now: int): (rs: seq<TestRow>)
    ensures |rs| == |runs|
  {
    seq(|runs|, i requires 0 <= i < |runs| => AbortRow(runs[i], now))
  }

  class TestDb {
    const isOpen: bool
    var tables: Tables
    /** Whether the next insertion of a test run succeeds. */
    var accepts: bool

    constructor (isOpen: bool, tables: Tables, accepts: bool)
      ensures this.isOpen == isOpen && this.tables == tables && this.accepts == accepts
    {
      this.isOpen, this.tables, this.accepts := isOpen, tables, accepts;
    }

    method AbortInterruptedTests(now: int)
      modifies this`tables
      ensures tables == old(tables).(runs := AbortAll(old(tables).runs, now))
    {
      var runs := tables.runs;
      for i := 0 to |runs|
        invariant |runs| == |old(tables).runs| && tables == old(tables)
        invariant forall j :: 0 <= j < i ==> runs[j] == AbortRow(old(tables).runs[j], now)
        invariant forall j :: i <= j < |runs| ==> runs[j] == old(tables).runs[j]
      {
        runs := runs[i := AbortRow(runs[i], now)];
      }
      assert runs == AbortAll(old(tables).runs, now);
      tables := tables.(runs := runs);
    }

    method InsertTestRun(row: TestRow) returns (id: nat)
      modifies this`tables
      ensures if accepts then id == |old(tables).runs| + 1 && tables == old(tables).(runs := old(tables).runs + [row])
              else id == 0 && tables == old(tables)
    {
      if !accepts { return 0; }
      tables := tables.(runs := tables.runs + [row]);
      id := |tables.runs|;
    }

    method UpdateTestRun(id: nat, endTime: int, duration: int, status: Status, metadata: Metadata)
      modifies this`tables
      ensures tables == CloseRun(old(tables), id, endTime, duration, status, metadata)
    {
      if 1 <= id <= |tables.runs| {
        var row := tables.runs[id - 1];
        row := row.(endTime := endTime, duration := duration, status := status, metadata := metadata);
        tables := tables.(runs := tables.runs[id - 1 := row]);
      }
    }
  }

  function CloseRun(t: Tables, id: nat, endTime: int, duration: int, status: Status, metadata: Metadata): Tables {
    if 1 <= id <= |t.runs|
    then t.(runs := t.runs[id - 1 := t.runs[id - 1].(endTime := endTime, duration := duration, status := status,
                                                    metadata := metadata)])
    else t
  }

  // ------------------------------------------------------------ the runner, as a specification

  /** `captured` records every sample ever captured. */
  datatype State = State(open: bool, db: Tables, limits: Limits, running: bool, id: nat, kind: TestType, startTs: int,
                         socStart: real, loadSumWh: real, loadCount: nat, lastTelemetryTs: int, lastTickTs: int,
                         buffer: seq<Sample>, captured: seq<Sample>)

  datatype Input =
    | SetLimits(limits: Limits)
    | Start(kind: TestType, latest: Option<Battery>, maintenance: bool, accepts: bool)
    | Stop(wall: int, latest: Option<Battery>)
    | Tick(bat: Option<Battery>, cx: Context, wall: int, latest: Option<Battery>)

  predicate Ready(s: State, latest: Option<Battery>, maintenance: bool) {
    && !s.running && s.open
    && latest.Some? && latest.value.valid
    && latest.value.soc >= s.limits.socFloorPct + 5.0
    && latest.value.voltageV >= s.limits.voltageFloorV + 0.5
    && !maintenance
  }

  function Began(s: State, kind: TestType, b: Battery): State {
    var row := TestRow(kind, b.ts, 0, 0, Running, b.soc, b.voltageV, NoMetadata);
    Armed(s.(db := s.db.(runs := s.db.runs + [row])), |s.db.runs| + 1, kind, b)
  }

  /** The counters of a test that begins with reading `b`. */
  function Armed(s: State, id: nat, kind: TestType, b: Battery): State {
    s.(running := true, id := id, kind := kind, startTs := b.ts, socStart := b.soc,
       loadSumWh := 0.0, loadCount := 0, lastTelemetryTs := 0, lastTickTs := b.ts)
  }

  function Flushed(s: State): State {
    s.(db := s.db.(telemetry := s.db.telemetry + s.buffer), buffer := [])
  }

  function SocEnd(latest: Option<Battery>): real {
    if latest.Some? && latest.value.valid then latest.value.soc else 0.0
  }

  /** Health in percent of the rated energy, -1 when the rating is unknown. */
  function HealthPct(measuredWh: real, latest: Option<Battery>): real {
    if latest.Some? && latest.value.valid && latest.value.nominalAh > 0.0 then
      var packV := if latest.value.voltageV > 0.0 then latest.value.voltageV else 13.0;
      var ratedWh := latest.value.nominalAh * packV;
      if ratedWh > 0.0 then 100.0 * (measuredWh / ratedWh) else -1.0
    else -1.0
  }

  /** What a finished test measured: nothing unless it was a capacity test with data. */
  function Measured(s: State, latest: Option<Battery>): Option<(real, real)> {
    var drop := s.socStart - SocEnd(latest);
    if s.kind == BatteryCapacity && s.loadCount > 0 && drop > 1.0 then
      var wh := s.loadSumWh / (drop / 100.0);
      Some((wh, HealthPct(wh, latest)))
    else None
  }

  function FinalMetadata(s: State, reason: Reason, latest: Option<Battery>): Metadata {
    if s.kind == BatteryCapacity && s.loadCount > 0 then
      var (wh, health) := if Measured(s, latest).Some? then Measured(s, latest).value else (0.0, -1.0);
      Capacity(s.loadSumWh, s.socStart, SocEnd(latest), wh, health)
    else Stopped(reason)
  }

  /** The capacity record, if any, carries the id that is current by then: 0. */
  function CapacityRows(s: State, wall: int, latest: Option<Battery>): seq<CapacityRow> {
    match Measured(s, latest)
    case None => []
    case Some((wh, health)) => [CapacityRow(wall, wh, s.socStart, SocEnd(latest), s.loadSumWh, health, 0)]
  }

  function Finished(s: State, status: Status, reason: Reason, wall: int, latest: Option<Battery>): State {
    var f := Flushed(s);
    var db := f.db.(capacity := f.db.capacity + CapacityRows(s, wall, latest));
    f.(running := false, id := 0,
       db := CloseRun(db, s.id, wall, Max(1, wall - s.startTs), status, FinalMetadata(s, reason, latest)))
  }

  predicate Unsafe(s: State, b: Battery, wall: int) {
    || b.soc < s.limits.socFloorPct
    || b.voltageV < s.limits.voltageFloorV
    || (s.limits.maxDurationS > 0 && wall - s.startTs >= s.limits.maxDurationS)
    || (s.limits.abortOnOvertemp && b.overtemp)
  }

  function TickTime(bat: Option<Battery>, wall: int): int {
    if bat.Some? && bat.value.valid then bat.value.ts else wall
  }

  function Energy(powerW: real, seconds: int): real {
    powerW * (seconds as real / 3600.0)
  }

  /** The power drawn from the battery, computed when it is not reported. */
  function DrawnW(b: Battery): real {
    if b.powerW > 0.0 then b.powerW else b.voltageV * b.currentA
  }

  lemma DrawnEnergy(b: Battery, pwr: real, dt: int)
    requires pwr == if b.powerW > 0.0 then b.powerW else b.voltageV * b.currentA
    ensures pwr * (dt as real / 3600.0) == Energy(DrawnW(b), dt)
  {
  }

  function Integrated(s: State, bat: Option<Battery>, now: int): State {
    var dt := if s.lastTickTs > 0 then now - s.lastTickTs else 0;
    if bat.Some? && bat.value.valid && bat.value.currentA > 0.01 && 0 < dt < 30 then
      s.(loadSumWh := s.loadSumWh + Energy(DrawnW(bat.value), dt), loadCount := s.loadCount + 1, lastTickTs := now)
    else s.(lastTickTs := now)
  }

  function Captured(s: State, bat: Option<Battery>, cx: Context, now: int): State {
    if now - s.lastTelemetryTs >= TELEMETRY_INTERVAL_S then
      var x := MakeSample(s.id, bat, cx);
      var c := s.(lastTelemetryTs := now, buffer := s.buffer + [x], captured := s.captured + [x]);
      if |c.buffer| >= BATCH then Flushed(c) else c
    else s
  }

  function Ticked(s: State, bat: Option<Battery>, cx: Context, wall: int, latest: Option<Battery>): State {
    var now := TickTime(bat, wall);
    if bat.Some? && bat.value.valid && Unsafe(s, bat.value, wall) then Finished(s, Aborted, SafetyLimits, wall, latest)
    else if now - s.startTs >= s.limits.maxDurationS then Finished(s, Aborted, MaxDuration, wall, latest)
    else Captured(Integrated(s, bat, now), bat, cx, now)
  }

  function Step(s: State, i: Input): State {
    match i
    case SetLimits(l) => s.(limits := l)
    case Start(kind, latest, maintenance, accepts) =>
      if Ready(s, latest, maintenance) && accepts then Began(s, kind, latest.value) else s
    case Stop(wall, latest) =>
      if s.running then Finished(s, Aborted, UserStop, wall, latest) else s
    case Tick(bat, cx, wall, latest) =>
      if s.running then Ticked(s, bat, cx, wall, latest) else s
  }

  lemma StartMeaning(s: State, kind: TestType, latest: Option<Battery>, maintenance: bool, accepts: bool)
    ensures Ready(s, latest, maintenance) ==> !s.running && s.open && latest.Some?
    ensures Step(s, Start(kind, latest, maintenance, accepts)) ==
              if Ready(s, latest, maintenance) && accepts then Began(s, kind, latest.value) else s
  {
  }

  function Run(s: State, inputs: seq<Input>): State {
    if inputs == [] then s else Step(Run(s, inputs[..|inputs| - 1]), inputs[|inputs| - 1])
  }

  /** The state a runner starts in: interrupted runs are closed when there is a database. */
  function Fresh(open: bool, db: Tables, limits: Limits, now: int): State {
    State(open, if open then db.(runs := AbortAll(db.runs, now)) else db, limits,
          false, 0, UpsFailover, 0, 0.0, 0.0, 0, 0, 0, [], db.telemetry)
  }

  // ------------------------------------------------------------ the runner, as a program

  class TestRunner {
    const db: TestDb
    var limits: Limits
    var running: bool
    var currentTestId: nat
    var currentTestType: TestType
    var stopRequested: bool
    var testStartTs: int
    var socAtStart: real
    var loadSumWh: real
    var loadSampleCount: nat
    var telemetryBuffer: seq<Sample>
    var lastTelemetryTs: int
    var lastTickTs: int
    ghost var captured: seq<Sample>

    ghost function Abs(): State
      reads this, db
    {
      State(db.isOpen, db.tables, limits, running, currentTestId, currentTestType, testStartTs, socAtStart, loadSumWh,
            loadSampleCount, lastTelemetryTs, lastTickTs, telemetryBuffer, captured)
    }

    /** Between public calls no stop is pending, and a running test has an id. */
    ghost predicate Valid()
      reads this
    {
      !stopRequested && (running <==> currentTestId != 0)
    }

    constructor (db: TestDb, limits: Limits, now: int)
      modifies db`tables
      ensures Valid() && this.db == db && Abs() == Fresh(db.isOpen, old(db.tables), limits, now)
    {
      this.db, this.limits := db, limits;
      running, currentTestId, currentTestType, stopRequested := false, 0, UpsFailover, false;
      testStartTs, socAtStart, loadSumWh, loadSampleCount := 0, 0.0, 0.0, 0;
      telemetryBuffer, lastTelemetryTs, lastTickTs := [], 0, 0;
      captured := db.tables.telemetry;
      new;
      if db.isOpen { db.AbortInterruptedTests(now); }
    }

    method SetSafetyLimits(l: Limits)
      requires Valid()
      modifies this`limits
      ensures Valid() && Abs() == Step(old(Abs()), SetLimits(l))
    {
      limits := l;
    }

    method Preflight(latest: Option<Battery>, maintenance: bool) returns (ready: bool)
      ensures ready == Ready(Abs(), latest, maintenance)
    {
      if running { return false; }
      if !db.isOpen { return false; }
      if latest.None? || !latest.value.valid { return false; }
      var bat := latest.value;
      if bat.soc < limits.socFloorPct + 5.0 { return false; }
      if bat.voltageV < limits.voltageFloorV + 0.5 { return false; }
      if maintenance { return false; }
      return true;
    }

    method StartTest(kind: TestType, latest: Option<Battery>, maintenance: bool) returns (id: nat)
      requires Valid()
      modifies this, db`tables
      ensures Valid() && Abs() == Step(old(Abs()), Start(kind, latest, maintenance, db.accepts))
      ensures id == if Ready(old(Abs()), latest, maintenance) && db.accepts then |old(db.tables.runs)| + 1 else 0
    {
      ghost var before := Abs();
      StartMeaning(before, kind, latest, maintenance, db.accepts);
      hide Step, Ready;
      var ready := Preflight(latest, maintenance);
      if !ready { return 0; }
      var bat := latest.value;
      var row := TestRow(kind, bat.ts, 0, 0, Running, bat.soc, bat.voltageV, NoMetadata);
      id := db.InsertTestRun(row);
      if id <= 0 { return 0; }
      hide Armed;
      Arm(id, kind, bat);
    }

    method Arm(id: nat, kind: TestType, bat: Battery)
      requires id != 0
      modifies this
      ensures Valid() && Abs() == Armed(old(Abs()), id, kind, bat)
    {
      ClearCounters(bat.ts);
      currentTestId, currentTestType, running, stopRequested := id, kind, true, false;
      testStartTs, socAtStart := bat.ts, bat.soc;
    }

    method ClearCounters(startTs: int)
      modifies this`loadSumWh, this`loadSampleCount, this`lastTelemetryTs, this`lastTickTs
      ensures Abs() == old(Abs()).(loadSumWh := 0.0, loadCount := 0, lastTelemetryTs := 0, lastTickTs := startTs)
    {
      loadSumWh, loadSampleCount := 0.0, 0;
      lastTelemetryTs, lastTickTs := 0, startTs;
    }

    method StopTest(wall: int, latest: Option<Battery>)
      requires Valid()
      modifies this, db`tables
      ensures Valid() && Abs() == Step(old(Abs()), Stop(wall, latest))
    {
      if !running { return; }
      stopRequested := true;
      TickLocked(None, NO_CONTEXT, wall, latest);
    }

    method OnTelemetryTick(bat: Option<Battery>, cx: Context, wall: int, latest: Option<Battery>)
      requires Valid()
      modifies this, db`tables
      ensures Valid() && Abs() == Step(old(Abs()), Tick(bat, cx, wall, latest))
    {
      TickLocked(bat, cx, wall, latest);
    }

    method TickLocked(bat: Option<Battery>, cx: Context, wall: int, latest: Option<Battery>)
      requires running <==> currentTestId != 0
      requires stopRequested ==> running
      modifies this, db`tables
      ensures Valid()
      ensures Abs() == if old(stopRequested) then Finished(old(Abs()), Aborted, UserStop, wall, latest)
                       else Step(old(Abs()), Tick(bat, cx, wall, latest))
    {
      hide Finished, Captured, Integrated;
      if !running || currentTestId == 0 { return; }
      if stopRequested {
        FinishTest(Aborted, UserStop, wall, latest);
        return;
      }
      var nowTs := if bat.Some? && bat.value.valid then bat.value.ts else wall;
      if bat.Some? && bat.value.valid {
        var bad := CheckSafetyLimits(bat.value, wall);
        if bad {
          FinishTest(Aborted, SafetyLimits, wall, latest);
          return;
        }
      }
      if nowTs - testStartTs >= limits.maxDurationS {
        FinishTest(Aborted, MaxDuration, wall, latest);
        return;
      }
      Integrate(bat, nowTs);
      Capture(bat, cx, nowTs);
    }

    method CheckSafetyLimits(bat: Battery, wall: int) returns (bad: bool)
      ensures bad == Unsafe(Abs(), bat, wall)
    {
      if bat.soc < limits.socFloorPct { return true; }
      if bat.voltageV < limits.voltageFloorV { return true; }
      if limits.maxDurationS > 0 && wall - testStartTs >= limits.maxDurationS { return true; }
      if limits.abortOnOvertemp && bat.overtemp { return true; }
      return false;
    }

    method Integrate(bat: Option<Battery>, nowTs: int)
      modifies this`loadSumWh, this`loadSampleCount, this`lastTickTs
      ensures Abs() == Integrated(old(Abs()), bat, nowTs)
    {
      hide Energy, DrawnW;
      if bat.Some? && bat.value.valid && bat.value.currentA > 0.01 {
        var b := bat.value;
        var pwr := if b.powerW > 0.0 then b.powerW else b.voltageV * b.currentA;
        var dt := if lastTickTs > 0 then nowTs - lastTickTs else 0;
        DrawnEnergy(b, pwr, dt);
        if dt > 0 && dt < 30 {
          loadSumWh := loadSumWh + pwr * (dt as real / 3600.0);
          loadSampleCount := loadSampleCount + 1;
        }
      }
      lastTickTs := nowTs;
    }

    method Capture(bat: Option<Battery>, cx: Context, nowTs: int)
      modifies this`lastTelemetryTs, this`telemetryBuffer, this`captured, db`tables
      ensures Abs() == Captured(old(Abs()), bat, cx, nowTs)
    {
      if nowTs - lastTelemetryTs >= TELEMETRY_INTERVAL_S {
        lastTelemetryTs := nowTs;
        var sample := MakeSample(currentTestId, bat, cx);
        telemetryBuffer := telemetryBuffer + [sample];
        captured := captured + [sample];
        if |telemetryBuffer| >= BATCH { FlushTelemetry(); }
      }
    }

    method FlushTelemetry()
      modifies this`telemetryBuffer, db`tables
      ensures Abs() == Flushed(old(Abs()))
    {
      var batch := telemetryBuffer;
      telemetryBuffer := [];
      if batch != [] { db.tables := db.tables.(telemetry := db.tables.telemetry + batch); }
    }

    /** Called when the current test id has been cleared already. */
    method RecordCapacity(reason: Reason, wall: int, latest: Option<Battery>) returns (meta: Metadata)
      requires currentTestId == 0
      modifies db`tables
      ensures meta == FinalMetadata(old(Abs()), reason, latest)
      ensures db.tables == old(db.tables).(capacity := old(db.tables).capacity + CapacityRows(old(Abs()), wall, latest))
    {
      hide HealthPct;
      var socEnd := if latest.Some? && latest.value.valid then latest.value.soc else 0.0;
      meta := Stopped(reason);
      ghost var s := Abs();
      if currentTestType == BatteryCapacity && loadSampleCount > 0 {
        var measuredWh, healthPct := 0.0, -1.0;
        var socDrop := socAtStart - socEnd;
        if socDrop > 1.0 {
          measuredWh := loadSumWh / (socDrop / 100.0);
          healthPct := HealthPct(measuredWh, latest);
          assert Measured(s, latest) == Some((measuredWh, healthPct));
          db.tables := db.tables.(capacity := db.tables.capacity +
            [CapacityRow(wall, measuredWh, socAtStart, socEnd, loadSumWh, healthPct, currentTestId)]);
        }
        meta := Capacity(loadSumWh, socAtStart, socEnd, measuredWh, healthPct);
      }
      if Measured(s, latest).None? { assert db.tables.capacity + [] == db.tables.capacity; }
    }

    method FinishTest(status: Status, reason: Reason, wall: int, latest: Option<Battery>)
      requires running
      modifies this, db`tables
      ensures Abs() == Finished(old(Abs()), status, reason, wall, latest)
      ensures !stopRequested && !running && currentTestId == 0
    {
      hide Measured, CloseRun;
      ghost var before := Abs();
      var idForLog := currentTestId;
      running := false;
      currentTestId := 0;
      FlushTelemetry();
      ghost var flushed := Abs();
      SameMeasurement(before, flushed, reason, wall, latest);
      var duration := Max(1, wall - testStartTs);
      var meta := RecordCapacity(reason, wall, latest);
      db.UpdateTestRun(idForLog, wall, duration, status, meta);
      stopRequested := false;
    }
  }

  /** A measurement depends only on what the test accumulated. */
  lemma SameMeasurement(s: State, t: State, reason: Reason, wall: int, latest: Option<Battery>)
    requires s.kind == t.kind && s.loadCount == t.loadCount && s.loadSumWh == t.loadSumWh && s.socStart == t.socStart
    ensures FinalMetadata(s, reason, latest) == FinalMetadata(t, reason, latest)
    ensures CapacityRows(s, wall, latest) == CapacityRows(t, wall, latest)
  {
    hide HealthPct;
  }

  // ------------------------------------------------------------ the lifecycle

  /** Exactly the run with this id says 'running'; with id 0 none does. */
  ghost predicate OnlyRunning(runs: seq<TestRow>, id: nat) {
    && id <= |runs|
    && forall i :: 0 <= i < |runs| ==> (runs[i].status == Running <==> i + 1 == id)
  }

  ghost predicate Consistent(s: State) {
    && (s.running <==> s.id != 0)
    && (s.running ==> s.open)
    && (s.open ==> OnlyRunning(s.db.runs, s.id))
    && |s.buffer| < 50
    && (!s.running ==> s.buffer == [])
    && s.db.telemetry + s.buffer == s.captured
    && forall i :: 0 <= i < |s.buffer| ==> s.buffer[i].testId == s.id
  }

  lemma FreshIsConsistent(open: bool, db: Tables, limits: Limits, now: int)
    ensures Consistent(Fresh(open, db, limits, now))
  {
  }

  lemma FinishedIsConsistent(s: State, status: Status, reason: Reason, wall: int, latest: Option<Battery>)
    requires Consistent(s) && s.running && status != Running
    ensures Consistent(Finished(s, status, reason, wall, latest))
  {
    hide Measured;
  }

  lemma CapturedIsConsistent(s: State, bat: Option<Battery>, cx: Context, now: int)
    requires Consistent(s) && s.running
    ensures Consistent(Captured(s, bat, cx, now))
    ensures Captured(s, bat, cx, now).db.runs == s.db.runs
  {
    var x := MakeSample(s.id, bat, cx);
    assert x.testId == s.id;
    assert s.db.telemetry + (s.buffer + [x]) == s.captured + [x];
  }

  lemma StepIsConsistent(s: State, i: Input)
    requires Consistent(s)
    ensures Consistent(Step(s, i))
  {
    hide Finished, Captured, Measured;
    match i {
      case SetLimits(_) =>
      case Start(_, _, _, _) =>
      case Stop(wall, latest) =>
        if s.running { FinishedIsConsistent(s, Aborted, UserStop, wall, latest); }
      case Tick(bat, cx, wall, latest) =>
        if s.running {
          FinishedIsConsistent(s, Aborted, SafetyLimits, wall, latest);
          FinishedIsConsistent(s, Aborted, MaxDuration, wall, latest);
          CapturedIsConsistent(Integrated(s, bat, TickTime(bat, wall)), bat, cx, TickTime(bat, wall));
        }
    }
  }

  /** In every reachable state the runner and the table agree: a test is running exactly when its id is
      not zero, exactly when one row says 'running', and it is that row; no sample is lost or reordered. */
  lemma {:induction false} LifecycleHolds(open: bool, db: Tables, limits: Limits, now: int, inputs: seq<Input>)
    ensures Consistent(Run(Fresh(open, db, limits, now), inputs))
  {
    hide Consistent, Step;
    if inputs == [] {
      FreshIsConsistent(open, db, limits, now);
    } else {
      LifecycleHolds(open, db, limits, now, inputs[..|inputs| - 1]);
      StepIsConsistent(Run(Fresh(open, db, limits, now), inputs[..|inputs| - 1]), inputs[|inputs| - 1]);
    }
  }

  /** Rows that do not say 'running' are never touched again. */
  ghost predicate KeepsClosedRows(a: seq<TestRow>, b: seq<TestRow>) {
    |a| <= |b| && forall i :: 0 <= i < |a| && a[i].status != Running ==> b[i] == a[i]
  }

  lemma FinishedKeeps(s: State, status: Status, reason: Reason, wall: int, latest: Option<Battery>)
    requires Consistent(s) && s.running
    ensures KeepsClosedRows(s.db.runs, Finished(s, status, reason, wall, latest).db.runs)
    ensures forall i :: 0 <= i < |s.db.runs| && s.db.runs[i].status == Running ==>
              Finished(s, status, reason, wall, latest).db.runs[i].status == status
  {
    hide Measured;
  }

  lemma StepKeeps(s: State, i: Input)
    requires Consistent(s)
    ensures KeepsClosedRows(s.db.runs, Step(s, i).db.runs)
    ensures forall k :: 0 <= k < |s.db.runs| ==> Step(s, i).db.runs[k].status in {s.db.runs[k].status, Aborted}
    ensures forall k :: |s.db.runs| <= k < |Step(s, i).db.runs| ==> Step(s, i).db.runs[k].status == Running
  {
    hide Finished, Captured, Measured, Consistent;
    match i {
      case SetLimits(_) =>
      case Start(_, _, _, _) =>
      case Stop(wall, latest) =>
        if s.running {
          FinishedKeeps(s, Aborted, UserStop, wall, latest);
          FinishedLength(s, Aborted, UserStop, wall, latest);
        }
      case Tick(bat, cx, wall, latest) =>
        if s.running {
          FinishedKeeps(s, Aborted, SafetyLimits, wall, latest);
          FinishedLength(s, Aborted, SafetyLimits, wall, latest);
          FinishedKeeps(s, Aborted, MaxDuration, wall, latest);
          FinishedLength(s, Aborted, MaxDuration, wall, latest);
          IntegratedConsistent(s, bat, TickTime(bat, wall));
          CapturedIsConsistent(Integrated(s, bat, TickTime(bat, wall)), bat, cx, TickTime(bat, wall));
        }
    }
  }

  lemma IntegratedConsistent(s: State, bat: Option<Battery>, now: int)
    requires Consistent(s)
    ensures Consistent(Integrated(s, bat, now))
  {
  }

  lemma FinishedLength(s: State, status: Status, reason: Reason, wall: int, latest: Option<Battery>)
    ensures |Finished(s, status, reason, wall, latest).db.runs| == |s.db.runs|
    ensures forall i :: 0 <= i < |s.db.runs| && i + 1 != s.id ==>
              Finished(s, status, reason, wall, latest).db.runs[i] == s.db.runs[i]
  {
    hide Measured;
  }

  /** A row that has left 'running' never changes again, over any continuation of any run. */
  lemma {:induction false} ClosedRowsAreFinal(open: bool, db: Tables, limits: Limits, now: int,
                                              inputs: seq<Input>, k: nat)
    requires k <= |inputs|
    ensures KeepsClosedRows(Run(Fresh(open, db, limits, now), inputs[..k]).db.runs,
                            Run(Fresh(open, db, limits, now), inputs).db.runs)
  {
    hide Consistent, Step;
    if k == |inputs| {
      assert inputs[..k] == inputs;
    } else {
      var n := |inputs| - 1;
      ClosedRowsAreFinal(open, db, limits, now, inputs[..n], k);
      assert inputs[..n][..k] == inputs[..k];
      LifecycleHolds(open, db, limits, now, inputs[..n]);
      StepKeeps(Run(Fresh(open, db, limits, now), inputs[..n]), inputs[n]);
    }
  }

  /** Whoever ends a test, it ends as 'aborted': no run started here is ever 'passed' or 'failed'. */
  lemma {:induction false} NoTestEverPasses(open: bool, db: Tables, limits: Limits, now: int, inputs: seq<Input>)
    ensures var runs := Run(Fresh(open, db, limits, now), inputs).db.runs;
            |runs| >= |db.runs| && forall i :: |db.runs| <= i < |runs| ==> runs[i].status in {Running, Aborted}
  {
    hide Consistent, Step;
    if inputs != [] {
      var n := |inputs| - 1;
      NoTestEverPasses(open, db, limits, now, inputs[..n]);
      LifecycleHolds(open, db, limits, now, inputs[..n]);
      StepKeeps(Run(Fresh(open, db, limits, now), inputs[..n]), inputs[n]);
    }
  }

  /** When a test has ended, the stored samples are exactly those captured, in order. */
  lemma {:induction false} StoredWhenIdle(open: bool, db: Tables, limits: Limits, now: int, inputs: seq<Input>)
    requires !Run(Fresh(open, db, limits, now), inputs).running
    ensures var s := Run(Fresh(open, db, limits, now), inputs);
            s.buffer == [] && s.db.telemetry == s.captured
  {
    LifecycleHolds(open, db, limits, now, inputs);
    hide Run;
  }

  /** A running test survives a tick exactly when it is within all its limits.  The battery's limits need a
      valid reading, whose own time is then the time of the tick; the clock on the wall counts as well. */
  lemma SurvivesIff(s: State, bat: Option<Battery>, cx: Context, wall: int, latest: Option<Battery>)
    requires s.running
    ensures var seen, max := bat.Some? && bat.value.valid, s.limits.maxDurationS;
            Step(s, Tick(bat, cx, wall, latest)).running <==>
              && (seen ==>
                    && bat.value.soc >= s.limits.socFloorPct && bat.value.voltageV >= s.limits.voltageFloorV
                    && (max > 0 ==> wall - s.startTs < max)
                    && !(s.limits.abortOnOvertemp && bat.value.overtemp))
              && (if seen then bat.value.ts else wall) - s.startTs < max
  {
    hide Measured, CloseRun;
  }

  /** A test starts exactly when none is running, the database is open and takes the row, no maintenance is
      going on, and the battery is known to stand 5 percent and half a volt above the floors.  It is recorded
      as a running row of its own; otherwise nothing changes at all. */
  lemma StartsIff(s: State, kind: TestType, latest: Option<Battery>, maintenance: bool, accepts: bool)
    ensures var t := Step(s, Start(kind, latest, maintenance, accepts));
            if && !s.running && s.open && accepts && !maintenance && latest.Some? && latest.value.valid
               && latest.value.soc >= s.limits.socFloorPct + 5.0
               && latest.value.voltageV >= s.limits.voltageFloorV + 0.5
            then
              && t.running && t.id == |s.db.runs| + 1 && t.kind == kind
              && t.startTs == t.lastTickTs == latest.value.ts && t.socStart == latest.value.soc
              && t.loadSumWh == 0.0 && t.loadCount == 0
              && t.db.runs == s.db.runs + [TestRow(kind, latest.value.ts, 0, 0, Running, latest.value.soc,
                                                   latest.value.voltageV, NoMetadata)]
            else t == s
  {
  }

  /** How a test ends: its row alone changes, to 'aborted', with the time on the wall, at least one second of
      duration, and the reason unless it was a capacity test with data; its samples are written. */
  ghost predicate Ended(s: State, t: State, reason: Reason, wall: int)
    requires 1 <= s.id <= |s.db.runs|
  {
    && !t.running && t.id == 0 && t.buffer == [] && t.db.telemetry == s.db.telemetry + s.buffer
    && |t.db.runs| == |s.db.runs|
    && (forall i :: 0 <= i < |s.db.runs| && i + 1 != s.id ==> t.db.runs[i] == s.db.runs[i])
    && var was, row := s.db.runs[s.id - 1], t.db.runs[s.id - 1];
       && row.status == Aborted && row.endTime == wall && row.duration >= 1
       && (row.duration == wall - s.startTs || (row.duration == 1 && wall - s.startTs < 1))
       && row.testType == was.testType && row.startTime == was.startTime
       && (s.kind != BatteryCapacity || s.loadCount == 0 ==> row.metadata == Stopped(reason))
  }

  lemma FinishedEnds(s: State, reason: Reason, wall: int, latest: Option<Battery>)
    requires 1 <= s.id <= |s.db.runs|
    ensures Ended(s, Finished(s, Aborted, reason, wall, latest), reason, wall)
  {
    hide Measured;
  }

  lemma StopEnds(s: State, wall: int, latest: Option<Battery>)
    requires Consistent(s)
    ensures var t := Step(s, Stop(wall, latest));
            if s.running then Ended(s, t, UserStop, wall) else t == s
  {
    if s.running { FinishedEnds(s, UserStop, wall, latest); }
    hide Finished, Ended;
  }

  lemma TickEnds(s: State, bat: Option<Battery>, cx: Context, wall: int, latest: Option<Battery>)
    requires Consistent(s) && s.running && !Step(s, Tick(bat, cx, wall, latest)).running
    ensures var t := Step(s, Tick(bat, cx, wall, latest));
            var unsafe := bat.Some? && bat.value.valid &&
              (|| bat.value.soc < s.limits.socFloorPct || bat.value.voltageV < s.limits.voltageFloorV
               || (s.limits.maxDurationS > 0 && wall - s.startTs >= s.limits.maxDurationS)
               || (s.limits.abortOnOvertemp && bat.value.overtemp));
            Ended(s, t, if unsafe then SafetyLimits else MaxDuration, wall)
  {
    FinishedEnds(s, SafetyLimits, wall, latest);
    FinishedEnds(s, MaxDuration, wall, latest);
    hide Finished, Ended;
  }

  /** What a sample records: an unreported load is the battery's power, a charger that draws from the battery
      shows no solar current, and a missing or invalid device leaves noughts. */
  lemma SampleExamples()
    ensures var b := Battery(100, true, 80.0, 13.2, 5.0, 66.0, 100.0, 0.01, [21.0, 22.0], false);
            var c := Charger(true, 14.0, 30.0, 13.1, -2.0, "Idle");
            && MakeSample(7, Some(b), Context(0.0, Some(c), true, 50.0)) ==
                 Sample(7, 100, BatteryView(13.2, 5.0, 80.0, 66.0, 0.01, 21.0),
                        ChargerView(14.0, 30.0, 0.0, "Idle", 13.1, -2.0), true, 50.0)
            && MakeSample(7, Some(b.(valid := false)), Context(40.0, None, false, 0.0)) ==
                 Sample(7, 100, BatteryView(0.0, 0.0, 0.0, 0.0, 0.0, 0.0),
                        ChargerView(0.0, 0.0, 0.0, "", 0.0, 0.0), false, 0.0)
            && MakeSample(7, Some(b.(powerW := -66.0)), Context(40.0, Some(c.(batA := 3.0)), false, 0.0)) ==
                 Sample(7, 100, BatteryView(13.2, 5.0, 80.0, 40.0, 0.01, 21.0),
                        ChargerView(14.0, 30.0, 3.0, "Idle", 13.1, 3.0), false, 0.0)
            && MakeSample(7, None, NO_CONTEXT).timestamp == 0
  {
  }

  // ------------------------------------------------------------ energy and measurement

  /** What a tick that the test survives adds: the reported power, or else voltage times current, for the
      seconds since the last tick, when a discharge is seen and the gap is shorter than 30 seconds.  A sample
      is captured when the last one is two seconds old, and the fiftieth empties the buffer. */
  lemma TickCounts(s: State, bat: Option<Battery>, cx: Context, wall: int, latest: Option<Battery>, w: real)
    requires s.running && Step(s, Tick(bat, cx, wall, latest)).running
    requires bat.Some? ==>
               w == if bat.value.powerW > 0.0 then bat.value.powerW else bat.value.voltageV * bat.value.currentA
    ensures var t := Step(s, Tick(bat, cx, wall, latest));
            var now := if bat.Some? && bat.value.valid then bat.value.ts else wall;
            var dt := now - s.lastTickTs;
            var x := MakeSample(s.id, bat, cx);
            && t.lastTickTs == now
            && (if bat.Some? && bat.value.valid && bat.value.currentA > 0.01 && s.lastTickTs > 0 && 0 < dt < 30
                then 3600.0 * (t.loadSumWh - s.loadSumWh) == w * dt as real && t.loadCount == s.loadCount + 1
                else t.loadSumWh == s.loadSumWh && t.loadCount == s.loadCount)
            && t.captured == s.captured + (if now - s.lastTelemetryTs >= 2 then [x] else [])
            && t.lastTelemetryTs == (if now - s.lastTelemetryTs >= 2 then now else s.lastTelemetryTs)
            && (now - s.lastTelemetryTs >= 2 && |s.buffer| >= 49 ==>
                  t.buffer == [] && t.db.telemetry == s.db.telemetry + s.buffer + [x])
            && (now - s.lastTelemetryTs >= 2 && |s.buffer| < 49 ==>
                  t.buffer == s.buffer + [x] && t.db.telemetry == s.db.telemetry)
  {
    var now := TickTime(bat, wall);
    SurvivorStep(s, bat, cx, wall, latest);
    IntegratedWh(s, bat, now, w);
    hide MakeSample, Step, Integrated;
    assert s.db.telemetry + (s.buffer + [MakeSample(s.id, bat, cx)]) ==
           s.db.telemetry + s.buffer + [MakeSample(s.id, bat, cx)];
  }

  lemma SurvivorStep(s: State, bat: Option<Battery>, cx: Context, wall: int, latest: Option<Battery>)
    requires s.running && Step(s, Tick(bat, cx, wall, latest)).running
    ensures Step(s, Tick(bat, cx, wall, latest)) ==
              Captured(Integrated(s, bat, TickTime(bat, wall)), bat, cx, TickTime(bat, wall))
  {
    hide Measured, CloseRun, Captured, Integrated;
  }

  lemma IntegratedWh(s: State, bat: Option<Battery>, now: int, w: real)
    requires bat.Some? ==>
               w == if bat.value.powerW > 0.0 then bat.value.powerW else bat.value.voltageV * bat.value.currentA
    ensures var t, dt := Integrated(s, bat, now), now - s.lastTickTs;
            && t == s.(loadSumWh := t.loadSumWh, loadCount := t.loadCount, lastTickTs := now)
            && (if bat.Some? && bat.value.valid && bat.value.currentA > 0.01 && s.lastTickTs > 0 && 0 < dt < 30
                then 3600.0 * (t.loadSumWh - s.loadSumWh) == w * dt as real && t.loadCount == s.loadCount + 1
                else t.loadSumWh == s.loadSumWh && t.loadCount == s.loadCount)
  {
    if bat.Some? {
      var dt := now - s.lastTickTs;
      DrawnEnergy(bat.value, w, dt);
      assert 3600.0 * (w * (dt as real / 3600.0)) == w * dt as real;
    }
    hide DrawnW, Energy;
  }

  /** A valid reading of a discharge from `p` to `q` watts, reported or computed. */
  ghost predicate Discharging(i: Input, p: real, q: real) {
    && i.Tick? && i.bat.Some? && i.bat.value.valid && i.bat.value.currentA > 0.01
    && if i.bat.value.powerW > 0.0 then p <= i.bat.value.powerW <= q
       else p <= i.bat.value.voltageV * i.bat.value.currentA <= q
  }

  /** Ticks of a discharge from `p` to `q` watts, each later than the one before by less than 30 seconds;
      the first follows the time `from`. */
  ghost predicate Steady(ticks: seq<Input>, from: int, p: real, q: real) {
    forall k :: 0 <= k < |ticks| ==> Discharging(ticks[k], p, q) && 0 < GapBefore(ticks, from, k) < 30
  }

  /** The seconds since the tick before, or since `from`. */
  ghost function GapBefore(ticks: seq<Input>, from: int, k: nat): int
    requires k < |ticks|
  {
    if !ticks[k].Tick? || ticks[k].bat.None? then 0
    else
      var ts := ticks[k].bat.value.ts;
      if k == 0 then ts - from
      else if ticks[k - 1].Tick? && ticks[k - 1].bat.Some? then ts - ticks[k - 1].bat.value.ts else 0
  }

  lemma SteadyTick(s: State, i: Input, p: real, q: real, wh: real, from: int)
    requires Discharging(i, p, q) && s.running && Step(s, i).running
    requires s.lastTickTs > 0 && 0 < i.bat.value.ts - s.lastTickTs < 30
    requires WattHoursBetween(p, s.loadSumWh - wh, q, s.lastTickTs - from)
    ensures var t := Step(s, i);
            && t.lastTickTs == i.bat.value.ts && t.loadCount == s.loadCount + 1
            && WattHoursBetween(p, t.loadSumWh - wh, q, t.lastTickTs - from)
  {
    hide Step, WattHoursBetween;
    var b := i.bat.value;
    var w := if b.powerW > 0.0 then b.powerW else b.voltageV * b.currentA;
    TickCounts(s, i.bat, i.cx, i.wall, i.latest, w);
    MoreWattHours(p, w, q, s.lastTickTs - from, b.ts - s.lastTickTs, s.loadSumWh - wh,
                  Step(s, i).loadSumWh - s.loadSumWh);
  }

  lemma SteadyPrefix(ticks: seq<Input>, from: int, p: real, q: real)
    requires ticks != [] && Steady(ticks, from, p, q)
    ensures var n := |ticks| - 1;
            && Steady(ticks[..n], from, p, q) && Discharging(ticks[n], p, q)
            && 0 < ticks[n].bat.value.ts - (if n == 0 then from else ticks[n - 1].bat.value.ts) < 30
  {
    var n := |ticks| - 1;
    assert Discharging(ticks[n], p, q);
    if n > 0 { assert Discharging(ticks[n - 1], p, q); }
    hide Discharging;
    forall k | 0 <= k < n ensures Discharging(ticks[..n][k], p, q) && 0 < GapBefore(ticks[..n], from, k) < 30 {
      assert ticks[..n][k] == ticks[k] && (k > 0 ==> ticks[..n][k - 1] == ticks[k - 1]);
    }
  }

  lemma TicksStartNothing(s: State, i: Input)
    requires i.Tick? && Step(s, i).running
    ensures s.running
  {
  }

  /** The energy a test delivers: while it survives ticks of a steady discharge, it grows by at least `p` and
      at most `q` times the time since the last tick before them, and every tick is counted. */
  lemma {:induction false} TestEnergyIsCounted(s: State, ticks: seq<Input>, p: real, q: real)
    requires s.lastTickTs > 0 && Steady(ticks, s.lastTickTs, p, q) && Run(s, ticks).running
    ensures var t := Run(s, ticks);
            && s.running && t.loadCount == s.loadCount + |ticks|
            && (ticks != [] ==> ticks[|ticks| - 1].Tick? && ticks[|ticks| - 1].bat.Some?)
            && t.lastTickTs == (if ticks == [] then s.lastTickTs else ticks[|ticks| - 1].bat.value.ts)
            && t.lastTickTs >= s.lastTickTs
            && WattHoursBetween(p, t.loadSumWh - s.loadSumWh, q, t.lastTickTs - s.lastTickTs)
  {
    hide Step, WattHoursBetween, Steady;
    if ticks == [] {
      NoWattHours(p, q);
    } else {
      var n := |ticks| - 1;
      SteadyPrefix(ticks, s.lastTickTs, p, q);
      TicksStartNothing(Run(s, ticks[..n]), ticks[n]);
      TestEnergyIsCounted(s, ticks[..n], p, q);
      SteadyTick(Run(s, ticks[..n]), ticks[n], p, q, s.loadSumWh, s.lastTickTs);
    }
  }

  /** What a capacity test measures: the delivered energy scaled up from the charge it took, and the health
      as that energy in percent of the rated one, where a battery without voltage counts as 13 V. */
  lemma MeasurementBalances(s: State, latest: Option<Battery>, packV: real)
    requires packV == if latest.Some? && latest.value.voltageV > 0.0 then latest.value.voltageV else 13.0
    ensures var known := latest.Some? && latest.value.valid;
            var drop := s.socStart - if known then latest.value.soc else 0.0;
            var m := Measured(s, latest);
            && (m.Some? <==> s.kind == BatteryCapacity && s.loadCount > 0 && drop > 1.0)
            && (m.Some? ==> m.value.0 * drop == 100.0 * s.loadSumWh)
            && (m.Some? && known && latest.value.nominalAh > 0.0 ==>
                  m.value.1 * (latest.value.nominalAh * packV) == 100.0 * m.value.0)
            && (m.Some? && (!known || latest.value.nominalAh <= 0.0) ==> m.value.1 == -1.0)
  {
    var known := latest.Some? && latest.value.valid;
    var drop := s.socStart - if known then latest.value.soc else 0.0;
    if Measured(s, latest).Some? {
      Scaled(s.loadSumWh, drop);
      if known && latest.value.nominalAh > 0.0 {
        HealthOf(Measured(s, latest).value.0, latest.value, packV);
      }
    }
    hide HealthPct;
  }

  lemma Scaled(wh: real, drop: real)
    requires drop > 1.0
    ensures wh / (drop / 100.0) * drop == 100.0 * wh
  {
    var part := drop / 100.0;
    assert wh / part * part == wh;
  }

  lemma HealthOf(wh: real, b: Battery, packV: real)
    requires b.valid && b.nominalAh > 0.0 && packV == if b.voltageV > 0.0 then b.voltageV else 13.0
    ensures HealthPct(wh, Some(b)) * (b.nominalAh * packV) == 100.0 * wh
  {
    var rated := b.nominalAh * packV;
    assert rated > 0.0;
    assert wh / rated * rated == wh;
    assert HealthPct(wh, Some(b)) == 100.0 * (wh / rated);
  }

  /** Where a measurement goes: into the metadata of the row, with noughts when there is none, and, when
      there is one, into one capacity record. */
  lemma FinishedRecords(s: State, reason: Reason, wall: int, latest: Option<Battery>)
    requires 1 <= s.id <= |s.db.runs| && s.kind == BatteryCapacity && s.loadCount > 0
    ensures var t, m := Finished(s, Aborted, reason, wall, latest), Measured(s, latest);
            var socEnd := if latest.Some? && latest.value.valid then latest.value.soc else 0.0;
            var (wh, health) := if m.Some? then m.value else (0.0, -1.0);
            && t.db.runs[s.id - 1].metadata == Capacity(s.loadSumWh, s.socStart, socEnd, wh, health)
            && t.db.capacity == s.db.capacity +
                 (if m.Some? then [CapacityRow(wall, wh, s.socStart, socEnd, s.loadSumWh, health, 0)] else [])
  {
    hide HealthPct;
    SameMeasurement(s, Flushed(s), reason, wall, latest);
  }

  /** At startup a database loses its interrupted runs, and nothing else. */
  lemma StartupClosesInterrupted(db: Tables, limits: Limits, now: int, i: nat)
    requires i < |db.runs|
    ensures var t := Fresh(true, db, limits, now);
            && !t.running && t.id == 0 && |t.db.runs| == |db.runs|
            && t.db.telemetry == db.telemetry && t.db.capacity == db.capacity
            && var was, row := db.runs[i], t.db.runs[i];
               if was.status != Running then row == was
               else
                 && row.status == Aborted && row.endTime == now && row.startTime == was.startTime
                 && row.duration >= 1 && (row.duration == now - was.startTime || now - was.startTime < 1)
    ensures Fresh(false, db, limits, now).db == db
  {
  }

  /** The capacity record of a finished test never names the test: its test id is 0. */
  lemma {:induction false} CapacityRowsAreAnonymous(open: bool, db: Tables, limits: Limits, now: int,
                                                    inputs: seq<Input>)
    ensures var rows := Run(Fresh(open, db, limits, now), inputs).db.capacity;
            |rows| >= |db.capacity| && forall i :: |db.capacity| <= i < |rows| ==> rows[i].testId == 0
  {
    if inputs != [] {
      CapacityRowsAreAnonymous(open, db, limits, now, inputs[..|inputs| - 1]);
      CapacityStep(Run(Fresh(open, db, limits, now), inputs[..|inputs| - 1]), inputs[|inputs| - 1]);
      hide Step;
    }
  }

  lemma CapacityStep(s: State, i: Input)
    ensures var rows := Step(s, i).db.capacity;
            |s.db.capacity| <= |rows| && rows[..|s.db.capacity|] == s.db.capacity
            && forall k :: |s.db.capacity| <= k < |rows| ==> rows[k].testId == 0
  {
    hide CapacityRows, FinalMetadata, Unsafe;
    match i {
      case SetLimits(_) =>
      case Start(_, _, _, _) =>
      case Stop(wall, latest) => AnonymousRows(s, wall, latest);
      case Tick(bat, cx, wall, latest) => AnonymousRows(s, wall, latest);
    }
  }

  lemma AnonymousRows(s: State, wall: int, latest: Option<Battery>)
    ensures forall k :: 0 <= k < |CapacityRows(s, wall, latest)| ==> CapacityRows(s, wall, latest)[k].testId == 0
  {
    hide Measured;
  }

  lemma {:induction false} RunOfThree(s: State, a: Input, b: Input, c: Input)
    ensures Run(s, [a, b, c]) == Step(Step(Step(s, a), b), c)
  {
    hide Step;
    assert [a, b, c][..2] == [a, b] && [a, b][..1] == [a] && [a][..0] == [];
    assert Run(s, [a, b]) == Step(Run(s, [a]), b);
  }

  /** A run that does write a capacity record: 720 W for ten seconds while the charge falls from 90 to 85
      percent measure 40 Wh, filed under test 0 although the test was number 1. */
  lemma CapacityRunIsAnonymous()
    ensures var limits := Limits(20.0, 11.0, 3600, true);
            var full := Battery(100, true, 90.0, 13.0, 60.0, 720.0, 100.0, 0.0, [], false);
            var inputs := [Start(BatteryCapacity, Some(full), false, true),
                           Tick(Some(full.(ts := 110)), NO_CONTEXT, 110, None),
                           Stop(120, Some(full.(ts := 120, soc := 85.0)))];
            var s := Run(Fresh(true, Tables([], [], []), limits, 50), inputs);
            && |s.db.runs| == 1 && s.db.runs[0].status == Aborted
            && |s.db.capacity| == 1 && s.db.capacity[0].measuredWh == 40.0 && s.db.capacity[0].testId == 0
  {
    var limits := Limits(20.0, 11.0, 3600, true);
    var full := Battery(100, true, 90.0, 13.0, 60.0, 720.0, 100.0, 0.0, [], false);
    var start := Fresh(true, Tables([], [], []), limits, 50);
    var a, b := Start(BatteryCapacity, Some(full), false, true), Tick(Some(full.(ts := 110)), NO_CONTEXT, 110, None);
    var c := Stop(120, Some(full.(ts := 120, soc := 85.0)));
    RunOfThree(start, a, b, c);
    hide Run, HealthPct, MakeSample;
    var s1 := Step(start, a);
    assert s1.running && s1.id == 1 && s1.kind == BatteryCapacity && s1.startTs == s1.lastTickTs == 100;
    assert |s1.db.runs| == 1 && s1.db.capacity == [] && s1.socStart == 90.0 && s1.loadSumWh == 0.0;
    var s2 := Step(s1, b);
    assert s2.running && s2.id == 1 && s2.kind == BatteryCapacity && |s2.db.runs| == 1 && s2.db.capacity == [];
    assert s2.loadSumWh == 2.0 && s2.loadCount == 1 && s2.socStart == 90.0;
  }
}
