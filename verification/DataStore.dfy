/**
 The store through which all readings pass: every reading goes to the transmission detector, then the
 estimator is shown the battery history and the queue of closed transmissions, then the reading joins
 its bounded history.
 */
module DataStore {
  import opened Windows
  import opened TxDetection
  import opened Resistance

  const DEFAULT_THRESHOLD_A: real := 1.0

  datatype PwrGateSnapshot = PwrGateSnapshot(ts: nat, valid: bool, batV: real, batA: real)

  datatype Input =
    | Battery(bat: BatterySnapshot)
    | Charger(chg: PwrGateSnapshot)
    | SetThreshold(amps: real)

  datatype State = State(ring: seq<BatterySnapshot>, chargers: seq<PwrGateSnapshot>, trace: seq<TxSample>,
                         threshold: real, record: Record)

  const START := State([], [], [], DEFAULT_THRESHOLD_A, NOTHING)

  // ------------------------------------------------------------ one reading, as a specification

  /** A battery reading is judged with the latest charger reading, valid or not. */
  function BatterySense(st: State, bat: BatterySnapshot): TxSample {
    var known := st.chargers != [];
    var chgA := if known then st.chargers[|st.chargers| - 1].batA else 0.0;
    var chgV := if known then st.chargers[|st.chargers| - 1].batV else bat.voltageV;
    Sense(bat.ts, bat.currentA, bat.voltageV, chgA, chgV, st.threshold)
  }

  function ChargerSense(st: State, chg: PwrGateSnapshot): TxSample {
    var known := st.ring != [];
    var batCur := if known then st.ring[|st.ring| - 1].currentA else 0.0;
    var batV := if known then st.ring[|st.ring| - 1].voltageV else chg.batV;
    Sense(chg.ts, batCur, batV, chg.batA, chg.batV, st.threshold)
  }

  function Queue(trace: seq<TxSample>): seq<TxEvent> {
    Last(Events(trace), TX_EVENTS_MAX)
  }

  ghost function Estimate(r: Record, ring: seq<BatterySnapshot>, trace: seq<TxSample>): Record {
    if ring == [] then r else VisitAll(r, ring, Queue(trace))
  }

  /** `n` bounds the histories; `ext` says whether the analytics extensions are on. */
  ghost function Step(n: nat, ext: bool, st: State, input: Input): State {
    match input
    case SetThreshold(a) => st.(threshold := a)
    case Battery(bat) =>
      var trace := if bat.valid then st.trace + [BatterySense(st, bat)] else st.trace;
      var ring := st.ring + [bat];
      st.(trace := trace, ring := Last(ring, n), record := if ext then Estimate(st.record, ring, trace) else st.record)
    case Charger(chg) =>
      var trace := if chg.valid then st.trace + [ChargerSense(st, chg)] else st.trace;
      st.(trace := trace, chargers := Last(st.chargers + [chg], n),
          record := if ext then Estimate(st.record, st.ring, trace) else st.record)
  }

  ghost function Run(n: nat, ext: bool, inputs: seq<Input>): State {
    if inputs == [] then START else Step(n, ext, Run(n, ext, inputs[..|inputs| - 1]), inputs[|inputs| - 1])
  }

  // ------------------------------------------------------------ the store object

  class DataStore {
    const maxHistory: nat
    const extensions: bool
    const tx: TxDetector
    const estimator: ResistanceEstimator
    var ring: seq<BatterySnapshot>
    var pwrgateRing: seq<PwrGateSnapshot>
    var txThreshold: real

    ghost predicate Valid()
      reads this, tx, estimator
    {
      tx.Valid() && estimator.Valid()
    }

    ghost function Abs(): State
      reads this, tx, estimator
    {
      State(ring, pwrgateRing, tx.trace, txThreshold, estimator.record)
    }

    constructor (maxHistory: nat, extensions: bool)
      ensures Valid() && Abs() == START
      ensures this.maxHistory == maxHistory && this.extensions == extensions
      ensures fresh(tx) && fresh(estimator)
    {
      this.maxHistory, this.extensions := maxHistory, extensions;
      ring, pwrgateRing, txThreshold := [], [], DEFAULT_THRESHOLD_A;
      tx := new TxDetector();
      estimator := new ResistanceEstimator();
    }

    method SetTxThreshold(amps: real)
      requires Valid()
      modifies this`txThreshold
      ensures Valid() && Abs() == Step(maxHistory, extensions, old(Abs()), SetThreshold(amps))
    {
      txThreshold := amps;
    }

    method ProcessBattery(snap: BatterySnapshot)
      requires Valid()
      modifies tx
      ensures tx.Valid()
      ensures tx.trace == if snap.valid then old(tx.trace) + [BatterySense(old(Abs()), snap)] else old(tx.trace)
    {
      hide Sense;
      if !snap.valid { return; }
      var known := pwrgateRing != [];
      var chgA := if known then pwrgateRing[|pwrgateRing| - 1].batA else 0.0;
      var chgV := if known then pwrgateRing[|pwrgateRing| - 1].batV else snap.voltageV;
      tx.RunTxDetection(snap.ts, snap.currentA, snap.voltageV, chgA, chgV, txThreshold);
    }

    method ProcessCharger(snap: PwrGateSnapshot)
      requires Valid()
      modifies tx
      ensures tx.Valid()
      ensures tx.trace == if snap.valid then old(tx.trace) + [ChargerSense(old(Abs()), snap)] else old(tx.trace)
    {
      hide Sense;
      if !snap.valid { return; }
      var known := ring != [];
      var batCur := if known then ring[|ring| - 1].currentA else 0.0;
      var batV := if known then ring[|ring| - 1].voltageV else snap.batV;
      tx.RunTxDetection(snap.ts, batCur, batV, snap.batA, snap.batV, txThreshold);
    }

    method Update(snap: BatterySnapshot)
      requires Valid()
      modifies this, tx, estimator
      ensures Valid() && Abs() == Step(maxHistory, extensions, old(Abs()), Battery(snap))
    {
      hide Sense, VisitAll, Events, Last;
      ProcessBattery(snap);
      ring := ring + [snap];
      if extensions { estimator.Update(ring, tx.events); }
      ring := TrimFront(ring, maxHistory);
    }

    method UpdatePwrgate(snap: PwrGateSnapshot)
      requires Valid()
      modifies this, tx, estimator
      ensures Valid() && Abs() == Step(maxHistory, extensions, old(Abs()), Charger(snap))
    {
      hide Sense, VisitAll, Events, Last;
      ProcessCharger(snap);
      if extensions && ring != [] { estimator.Update(ring, tx.events); }
      pwrgateRing := TrimFront(pwrgateRing + [snap], maxHistory);
    }
  }

  // ------------------------------------------------------------ runs in ordered time

  predicate Stamped(i: Input) {
    match i
    case Battery(b) => b.valid
    case Charger(c) => c.valid
    case SetThreshold(_) => false
  }

  function Ts(i: Input): int {
    match i
    case Battery(b) => b.ts
    case Charger(c) => c.ts
    case SetThreshold(_) => 0
  }

  ghost predicate OrderedTime(inputs: seq<Input>) {
    forall i, j :: 0 <= i < j < |inputs| && Stamped(inputs[i]) && Stamped(inputs[j]) ==> Ts(inputs[i]) <= Ts(inputs[j])
  }

  ghost predicate NoLaterThan(inputs: seq<Input>, now: int) {
    forall i :: 0 <= i < |inputs| && Stamped(inputs[i]) ==> Ts(inputs[i]) <= now
  }

  ghost function Closed(n: nat, ext: bool, inputs: seq<Input>): seq<TxEvent> {
    Events(Run(n, ext, inputs).trace)
  }

  /** How one input extends the trace. */
  lemma StepTrace(n: nat, ext: bool, st: State, input: Input) returns (s: TxSample)
    ensures Stamped(input) ==> Step(n, ext, st, input).trace == st.trace + [s] && s.now == Ts(input)
    ensures !Stamped(input) ==> Step(n, ext, st, input).trace == st.trace
  {
    s := match input
      case Battery(bat) => BatterySense(st, bat)
      case Charger(chg) => ChargerSense(st, chg)
      case SetThreshold(_) => TxSample(0, false, 0.0, 0.0);
  }

  lemma {:induction false} TraceInOrder(n: nat, ext: bool, inputs: seq<Input>, now: int)
    requires OrderedTime(inputs) && NoLaterThan(inputs, now)
    ensures var tr := Run(n, ext, inputs).trace;
            InOrder(tr) && forall i :: 0 <= i < |tr| ==> tr[i].now <= now
  {
    if inputs != [] {
      var last := inputs[|inputs| - 1];
      var before := inputs[..|inputs| - 1];
      TraceInOrder(n, ext, before, if Stamped(last) then Ts(last) else now);
      var _ := StepTrace(n, ext, Run(n, ext, before), last);
    }
  }

  lemma ClosedIncrease(tr: seq<TxSample>)
    requires InOrder(tr)
    ensures Increasing(Events(tr))
  {
    hide Events;
    forall a, b | 0 <= a < b < |Events(tr)| && Qualifies(Events(tr)[a]) && Qualifies(Events(tr)[b])
      ensures Events(tr)[a].endTime < Events(tr)[b].endTime
    {
      EventsAreDisjoint(tr, a, b);
    }
  }

  /** One input closes at most one transmission. */
  lemma TraceGrows(tr: seq<TxSample>, s: TxSample)
    ensures Events(tr + [s]) == Events(tr) || exists ev :: Events(tr + [s]) == Events(tr) + [ev]
  {
    hide Events;
    EventsAppend(tr, s);
  }

  lemma StepRemembers(n: nat, ext: bool, st: State, input: Input, low: int) returns (low': int)
    requires Remembers(st.record, Events(st.trace), low)
    requires InOrder(Step(n, ext, st, input).trace)
    ensures Remembers(Step(n, ext, st, input).record, Events(Step(n, ext, st, input).trace), low')
  {
    hide Events, Remembers, VisitAll, Last, BatterySense, ChargerSense;
    var st' := Step(n, ext, st, input);
    var closed, closed' := Events(st.trace), Events(st'.trace);
    var s := StepTrace(n, ext, st, input);
    ClosedIncrease(st'.trace);
    TraceGrows(st.trace, s);
    if closed' != closed {
      var ev :| closed' == closed + [ev];
      CloseRemembers(st.record, closed, low, ev);
    }
    low' := low;
    if st'.record != st.record {
      var ring := if input.Battery? then st.ring + [input.bat] else st.ring;
      assert st'.record == VisitAll(st.record, ring, Last(closed', TX_EVENTS_MAX));
      low' := VisitAllRemembers(st.record, ring, closed', low, Last(closed', TX_EVENTS_MAX));
    }
  }

  lemma NothingRemembers()
    ensures Remembers(NOTHING, Events([]), -1)
  {
  }

  lemma {:induction false} RunRemembers(n: nat, ext: bool, inputs: seq<Input>, now: int) returns (low: int)
    requires OrderedTime(inputs) && NoLaterThan(inputs, now)
    ensures Remembers(Run(n, ext, inputs).record, Closed(n, ext, inputs), low)
  {
    hide Remembers, Events, Step;
    if inputs == [] {
      NothingRemembers();
      low := -1;
    } else {
      TraceInOrder(n, ext, inputs, now);
      low := RunRemembers(n, ext, inputs[..|inputs| - 1], now);
      low := StepRemembers(n, ext, Run(n, ext, inputs[..|inputs| - 1]), inputs[|inputs| - 1], low);
    }
  }

  /** Over any run in ordered time, whatever the history bound and whenever the estimator is shown the
      queue, no transmission is examined twice, and only closed qualifying ones are examined. */
  lemma {:induction false} ExaminedAtMostOnce(n: nat, ext: bool, inputs: seq<Input>, now: int)
    requires OrderedTime(inputs) && NoLaterThan(inputs, now)
    ensures var examined := Run(n, ext, inputs).record.examined;
            && Distinct(examined)
            && (forall a, b :: 0 <= a < b < |examined| ==> examined[a] != examined[b])
            && forall a :: 0 <= a < |examined| ==> Qualifies(examined[a]) && examined[a] in Closed(n, ext, inputs)
  {
    var low := RunRemembers(n, ext, inputs, now);
    hide Run, Events;
  }

  // ------------------------------------------------------------ exactly once

  /** Some battery reading comes before the first charger reading. */
  ghost predicate BatteryFirst(inputs: seq<Input>) {
    forall i :: 0 <= i < |inputs| && inputs[i].Charger? ==> exists j :: 0 <= j < i && inputs[j].Battery?
  }

  lemma {:induction false} RingNotEmpty(n: nat, ext: bool, inputs: seq<Input>, j: nat)
    requires n > 0 && j < |inputs| && inputs[j].Battery?
    ensures Run(n, ext, inputs).ring != []
  {
    if j < |inputs| - 1 {
      RingNotEmpty(n, ext, inputs[..|inputs| - 1], j);
    }
  }

  lemma StepExamines(n: nat, st: State, input: Input, low: int)
    requires Remembers(st.record, Events(st.trace), low)
    requires InOrder(Step(n, true, st, input).trace)
    requires st.record.examined == Qualifying(Events(st.trace))
    requires input.Charger? ==> st.ring != []
    ensures Step(n, true, st, input).record.examined == Qualifying(Events(Step(n, true, st, input).trace))
  {
    hide Events, Remembers, VisitAll, Last, BatterySense, ChargerSense, Qualifying;
    var st' := Step(n, true, st, input);
    var closed, closed' := Events(st.trace), Events(st'.trace);
    var s := StepTrace(n, true, st, input);
    ClosedIncrease(st'.trace);
    TraceGrows(st.trace, s);
    if !input.SetThreshold? {
      var ring := if input.Battery? then st.ring + [input.bat] else st.ring;
      assert st'.record == VisitAll(st.record, ring, Last(closed', TX_EVENTS_MAX));
      if closed' == closed {
        UpdateRepeats(st.record, ring, closed, low);
      } else {
        var ev :| closed' == closed + [ev];
        UpdateAdvances(st.record, ring, closed, low, ev);
      }
    }
  }

  /** With the extensions on, room for history, and a battery reading before any charger reading, the
      examined transmissions are exactly the qualifying ones, each once and in order. */
  lemma {:induction false} ExaminedExactlyOnce(n: nat, inputs: seq<Input>, now: int)
    requires OrderedTime(inputs) && NoLaterThan(inputs, now)
    requires n > 0 && BatteryFirst(inputs)
    ensures Run(n, true, inputs).record.examined == Qualifying(Closed(n, true, inputs))
  {
    hide Remembers, Events, Step, Qualifying;
    if inputs == [] {
      NothingExamined();
    } else {
      var before, last := inputs[..|inputs| - 1], inputs[|inputs| - 1];
      BatteryFirstBefore(inputs);
      ExaminedExactlyOnce(n, before, now);
      TraceInOrder(n, true, inputs, now);
      var low := RunRemembers(n, true, before, now);
      if last.Charger? {
        var j :| 0 <= j < |inputs| - 1 && inputs[j].Battery?;
        RingNotEmpty(n, true, before, j);
      }
      StepExamines(n, Run(n, true, before), last, low);
    }
  }

  lemma NothingExamined()
    ensures Qualifying(Events([])) == []
  {
  }

  lemma BatteryFirstBefore(inputs: seq<Input>)
    requires BatteryFirst(inputs) && inputs != []
    ensures BatteryFirst(inputs[..|inputs| - 1])
    ensures inputs[|inputs| - 1].Charger? ==> exists j :: 0 <= j < |inputs| - 1 && inputs[j].Battery?
  {
    var before := inputs[..|inputs| - 1];
    forall i | 0 <= i < |before| && before[i].Charger? ensures exists j :: 0 <= j < i && before[j].Battery? {
      assert inputs[i].Charger?;
      var j :| 0 <= j < i && inputs[j].Battery?;
      assert before[j].Battery?;
    }
  }

  // ------------------------------------------------------------ when a closed transmission is measured

  function Batteries(inputs: seq<Input>): seq<BatterySnapshot> {
    if inputs == [] then []
    else Batteries(inputs[..|inputs| - 1]) + if inputs[|inputs| - 1].Battery? then [inputs[|inputs| - 1].bat] else []
  }

  /** The history is the last `n` battery readings. */
  lemma {:induction false} RingIsRecent(n: nat, ext: bool, inputs: seq<Input>)
    ensures Run(n, ext, inputs).ring == Last(Batteries(inputs), n)
  {
    hide VisitAll, Events, Last;
    if inputs == [] {
      NothingRecent(n);
    } else {
      var before, last := inputs[..|inputs| - 1], inputs[|inputs| - 1];
      RingIsRecent(n, ext, before);
      if last.Battery? {
        LastOfLast(Batteries(before), last.bat, n);
      } else {
        assert Batteries(inputs) == Batteries(before);
      }
    }
  }

  lemma NothingRecent(n: nat)
    ensures Last<BatterySnapshot>([], n) == []
  {
  }

  // ------------------------------------------------------------ which readings are merged

  /** The latest charger reading, if any. */
  function LatestCharger(inputs: seq<Input>): seq<PwrGateSnapshot> {
    if inputs == [] then []
    else if inputs[|inputs| - 1].Charger? then [inputs[|inputs| - 1].chg]
    else LatestCharger(inputs[..|inputs| - 1])
  }

  function LatestBattery(inputs: seq<Input>): seq<BatterySnapshot> {
    if inputs == [] then []
    else if inputs[|inputs| - 1].Battery? then [inputs[|inputs| - 1].bat]
    else LatestBattery(inputs[..|inputs| - 1])
  }

  /** The threshold set last, 1 A at first. */
  function LatestThreshold(inputs: seq<Input>): real {
    if inputs == [] then 1.0
    else if inputs[|inputs| - 1].SetThreshold? then inputs[|inputs| - 1].amps
    else LatestThreshold(inputs[..|inputs| - 1])
  }

  lemma {:induction false} StateIsLatest(n: nat, ext: bool, inputs: seq<Input>)
    requires n > 0
    ensures var st := Run(n, ext, inputs);
            && Last(st.ring, 1) == LatestBattery(inputs) && Last(st.chargers, 1) == LatestCharger(inputs)
            && st.threshold == LatestThreshold(inputs)
  {
    hide VisitAll, Events, BatterySense, ChargerSense;
    if inputs != [] {
      StateIsLatest(n, ext, inputs[..|inputs| - 1]);
    }
  }

  /** What one valid battery reading is judged with, over any run: the latest charger reading there was,
      valid or not, or no current at the battery's own voltage, and the threshold set last. */
  lemma {:induction false} BatteryIsMerged(n: nat, ext: bool, inputs: seq<Input>, bat: BatterySnapshot)
    requires n > 0 && bat.valid
    ensures var c, t := LatestCharger(inputs), LatestThreshold(inputs);
            Run(n, ext, inputs + [Battery(bat)]).trace == Run(n, ext, inputs).trace +
              [if c == [] then Sense(bat.ts, bat.currentA, bat.voltageV, 0.0, bat.voltageV, t)
               else Sense(bat.ts, bat.currentA, bat.voltageV, c[0].batA, c[0].batV, t)]
  {
    hide VisitAll, Events, Sense;
    assert (inputs + [Battery(bat)])[..|inputs|] == inputs;
    StateIsLatest(n, ext, inputs);
  }

  lemma {:induction false} ChargerIsMerged(n: nat, ext: bool, inputs: seq<Input>, chg: PwrGateSnapshot)
    requires n > 0 && chg.valid
    ensures var b, t := LatestBattery(inputs), LatestThreshold(inputs);
            Run(n, ext, inputs + [Charger(chg)]).trace == Run(n, ext, inputs).trace +
              [if b == [] then Sense(chg.ts, 0.0, chg.batV, chg.batA, chg.batV, t)
               else Sense(chg.ts, b[0].currentA, b[0].voltageV, chg.batA, chg.batV, t)]
  {
    hide VisitAll, Events, Sense;
    assert (inputs + [Charger(chg)])[..|inputs|] == inputs;
    StateIsLatest(n, ext, inputs);
  }

  /** The history the estimator is shown. */
  function Shown(st: State, input: Input): seq<BatterySnapshot> {
    if input.Battery? then st.ring + [input.bat] else st.ring
  }

  lemma EventEndsLater(tr: seq<TxSample>, a: nat)
    requires InOrder(tr) && a < |Events(tr)|
    ensures Events(tr)[a].startTime <= Events(tr)[a].endTime
  {
    EventsDescribeRuns(tr, a);
    var r := ClosedRuns(tr)[a];
    hide Events, ClosedRuns;
    assert r.i < r.j < |tr|;
  }

  /** Exactly when the reading that closes a transmission makes the estimator record a resistance. */
  lemma {:induction false} ClosingRecordsIff(n: nat, inputs: seq<Input>, now: int, ev: TxEvent)
    requires OrderedTime(inputs) && NoLaterThan(inputs, now)
    requires n > 0 && BatteryFirst(inputs) && inputs != []
    requires Closed(n, true, inputs) == Closed(n, true, inputs[..|inputs| - 1]) + [ev]
    ensures var st, last := Run(n, true, inputs[..|inputs| - 1]), inputs[|inputs| - 1];
            Run(n, true, inputs).record.samples != st.record.samples <==>
            Qualifies(ev) && Separated(Shown(st, last), ev) && ShowsDrop(Shown(st, last), ev)
  {
    hide Remembers, Events, VisitAll, Visit, Qualifying, Last, BatterySense, ChargerSense, Separated, ShowsDrop;
    var before, last := inputs[..|inputs| - 1], inputs[|inputs| - 1];
    var st := Run(n, true, before);
    var closed := Closed(n, true, before);
    BatteryFirstBefore(inputs);
    ExaminedExactlyOnce(n, before, now);
    TraceInOrder(n, true, inputs, now);
    ClosedIncrease(Run(n, true, inputs).trace);
    EventEndsLater(Run(n, true, inputs).trace, |closed|);
    assert Closed(n, true, inputs)[|closed|] == ev;
    var low := RunRemembers(n, true, before, now);
    if last.Charger? {
      var j :| 0 <= j < |inputs| - 1 && inputs[j].Battery?;
      RingNotEmpty(n, true, before, j);
    }
    UpdateAdvances(st.record, Shown(st, last), closed, low, ev);
    RecordsIff(st.record, Shown(st, last), ev);
  }

  /** Every stamped input leaves a sample with its time in the trace. */
  lemma {:induction false} TraceStamp(n: nat, ext: bool, inputs: seq<Input>, b: nat)
    requires b < |inputs| && Stamped(inputs[b])
    ensures var tr, i := Run(n, ext, inputs).trace, |Run(n, ext, inputs[..b]).trace|;
            i < |tr| && tr[i].now == Ts(inputs[b])
  {
    hide Step;
    var m := |inputs| - 1;
    var s := StepTrace(n, ext, Run(n, ext, inputs[..m]), inputs[m]);
    if b < m {
      TraceStamp(n, ext, inputs[..m], b);
      assert inputs[..m][..b] == inputs[..b];
    }
  }

  /** The event that a reading closes starts with the first sample of the open run. */
  lemma {:induction false} ClosedStart(tr: seq<TxSample>, s: TxSample, ev: TxEvent)
    requires Events(tr + [s]) == Events(tr) + [ev]
    ensures OpenStart(tr) < |tr| && ev.startTime == tr[OpenStart(tr)].now
  {
    hide Events;
    EventsAppend(tr, s);
    assert Events(tr + [s])[|Events(tr)|] == ev;
  }

  /** The latest run of above-threshold samples was opened by input `b`. */
  ghost predicate OpenedBy(n: nat, inputs: seq<Input>, b: nat) {
    b < |inputs| && Stamped(inputs[b])
    && OpenStart(Run(n, true, inputs).trace) == |Run(n, true, inputs[..b]).trace|
  }

  /** A transmission that a battery reading opened yields no resistance while that reading is in the
      history, for it is taken both for the snapshot before and for the one during the transmission. */
  lemma {:induction false} BatteryOpenedMeasuresNothing(n: nat, inputs: seq<Input>, now: int, ev: TxEvent, b: nat)
    requires OrderedTime(inputs) && NoLaterThan(inputs, now)
    requires n > 0 && BatteryFirst(inputs) && inputs != []
    requires Closed(n, true, inputs) == Closed(n, true, inputs[..|inputs| - 1]) + [ev]
    requires OpenedBy(n, inputs[..|inputs| - 1], b) && inputs[b].Battery?
    requires inputs[b].bat in Shown(Run(n, true, inputs[..|inputs| - 1]), inputs[|inputs| - 1])
    ensures Run(n, true, inputs).record.samples == Run(n, true, inputs[..|inputs| - 1]).record.samples
  {
    hide Events, Step, Separated, ShowsDrop;
    var before, last := inputs[..|inputs| - 1], inputs[|inputs| - 1];
    var st := Run(n, true, before);
    var s := StepTrace(n, true, st, last);
    assert Run(n, true, inputs) == Step(n, true, st, last);
    assert Stamped(last);
    ClosedStart(st.trace, s, ev);
    TraceStamp(n, true, before, b);
    assert before[b] == inputs[b];
    ClosingRecordsIff(n, inputs, now, ev);
    NotSeparated(Shown(st, last), ev, inputs[b].bat);
  }

  lemma NotSeparated(h: seq<BatterySnapshot>, ev: TxEvent, bat: BatterySnapshot)
    requires bat in h && bat.valid && bat.ts == ev.startTime
    ensures !Separated(h, ev)
  {
    var k :| 0 <= k < |h| && h[k] == bat;
    assert StampedAt(h, ev.startTime);
  }

  // ------------------------------------------------------------ a transmission that is lost

  lemma Calm(s0: TxSample, s1: TxSample, s2: TxSample, s3: TxSample)
    requires !s0.above && s1.above && s2.above && !s3.above
    ensures OpenStart([s0, s1, s2]) == 1
    ensures Events([]) == Events([s0]) == Events([s0, s1]) == Events([s0, s1, s2]) == []
    ensures Events([s0, s1, s2, s3]) == [EventOf([s0, s1, s2, s3], TxDetection.Run(1, 3))]
  {
    NothingClosed();
    hide Events, EventOf;
    assert [] + [s0] == [s0] && [s0] + [s1] == [s0, s1] && [s0, s1] + [s2] == [s0, s1, s2];
    assert [s0, s1, s2] + [s3] == [s0, s1, s2, s3];
    OpenStartAppend([], s0);
    OpenStartAppend([s0], s1);
    OpenStartAppend([s0, s1], s2);
    EventsAppend([], s0);
    EventsAppend([s0], s1);
    EventsAppend([s0, s1], s2);
    EventsAppend([s0, s1, s2], s3);
    var ev := EventOf([s0, s1, s2, s3], TxDetection.Run(1, 3));
    assert [] + [ev] == [ev];
  }

  lemma NothingClosed()
    ensures Events([]) == [] && OpenStart([]) == 0
  {
  }

  lemma {:induction false} NothingVisited(r: Record, h: seq<BatterySnapshot>)
    ensures VisitAll(r, h, []) == r && Last<TxEvent>([], TX_EVENTS_MAX) == []
  {
  }

  /** No charger has reported, the threshold is the default one, and nothing has been examined. */
  ghost predicate Fresh(st: State, ring: seq<BatterySnapshot>, trace: seq<TxSample>) {
    st == State(ring, [], trace, DEFAULT_THRESHOLD_A, NOTHING)
  }

  /** One battery reading that closes no transmission while none has been closed. */
  lemma {:induction false} CalmStep(n: nat, inputs: seq<Input>, ring: seq<BatterySnapshot>, trace: seq<TxSample>,
                 bat: BatterySnapshot, s: TxSample)
    requires Fresh(Run(n, true, inputs), ring, trace) && |ring| < n && bat.valid
    requires s == Sense(bat.ts, bat.currentA, bat.voltageV, 0.0, bat.voltageV, DEFAULT_THRESHOLD_A)
    ensures Run(n, true, inputs + [Battery(bat)]).trace == trace + [s]
    ensures Events(trace + [s]) == [] ==> Fresh(Run(n, true, inputs + [Battery(bat)]), ring + [bat], trace + [s])
  {
    hide VisitAll, Events, Sense;
    assert (inputs + [Battery(bat)])[..|inputs|] == inputs;
    NothingVisited(NOTHING, ring + [bat]);
  }

  const BEFORE := BatterySnapshot(0, true, 13.0, 0.0)
  const OPENING := BatterySnapshot(10, true, 12.0, 5.0)
  const WITHIN := BatterySnapshot(12, true, 12.0, 5.0)
  const CLOSING := BatterySnapshot(20, true, 13.0, 0.0)

  const QUIET := TxSample(0, false, 0.0, 0.0)
  const KEYED := TxSample(10, true, 5.0, 60.0)
  const HELD := TxSample(12, true, 5.0, 60.0)
  const RELEASED := TxSample(20, false, 0.0, 0.0)

  lemma LostSamples()
    ensures QUIET == Sense(0, 0.0, 13.0, 0.0, 13.0, DEFAULT_THRESHOLD_A)
    ensures KEYED == Sense(10, 5.0, 12.0, 0.0, 12.0, DEFAULT_THRESHOLD_A)
    ensures HELD == Sense(12, 5.0, 12.0, 0.0, 12.0, DEFAULT_THRESHOLD_A)
    ensures RELEASED == Sense(20, 0.0, 13.0, 0.0, 13.0, DEFAULT_THRESHOLD_A)
  {
  }

  /** Each reading is sensed on its own, there being no charger. */
  ghost predicate Sensed(bats: seq<BatterySnapshot>, tr: seq<TxSample>, inputs: seq<Input>) {
    && |bats| == |tr| == |inputs|
    && forall i :: 0 <= i < |bats| ==>
         && bats[i].valid && inputs[i] == Battery(bats[i])
         && tr[i] == Sense(bats[i].ts, bats[i].currentA, bats[i].voltageV, 0.0, bats[i].voltageV, DEFAULT_THRESHOLD_A)
  }

  lemma {:induction false} CalmStart(n: nat)
    ensures Fresh(Run(n, true, []), [], [])
  {
  }

  /** Readings of which none closes a transmission. */
  lemma {:induction false} CalmReadings(n: nat, bats: seq<BatterySnapshot>, tr: seq<TxSample>, inputs: seq<Input>,
                                        k: nat)
    requires Sensed(bats, tr, inputs) && k <= |bats| <= n
    requires forall i :: 0 <= i <= k ==> Events(tr[..i]) == []
    ensures Fresh(Run(n, true, inputs[..k]), bats[..k], tr[..k])
  {
    hide Run, Events, Sense, Fresh;
    if k == 0 {
      CalmStart(n);
      assert inputs[..0] == [] && bats[..0] == [] && tr[..0] == [];
    } else {
      CalmReadings(n, bats, tr, inputs, k - 1);
      assert tr[..k] == tr[..k - 1] + [tr[k - 1]] && bats[..k] == bats[..k - 1] + [bats[k - 1]];
      assert inputs[..k] == inputs[..k - 1] + [Battery(bats[k - 1])];
      CalmStep(n, inputs[..k - 1], bats[..k - 1], tr[..k - 1], bats[k - 1], tr[k - 1]);
    }
  }

  /** Four readings of which the middle two transmit. */
  lemma {:induction false} FourReadings(n: nat, bats: seq<BatterySnapshot>, tr: seq<TxSample>, inputs: seq<Input>)
    requires n >= 4 == |bats| && Sensed(bats, tr, inputs)
    requires !tr[0].above && tr[1].above && tr[2].above && !tr[3].above
    ensures |Run(n, true, inputs[..1]).trace| == 1
    ensures Fresh(Run(n, true, inputs[..3]), bats[..3], tr[..3])
    ensures Run(n, true, inputs).trace == tr
  {
    assert tr[..1] == [tr[0]] && tr[..2] == [tr[0], tr[1]] && tr[..3] == [tr[0], tr[1], tr[2]] && tr[..0] == [];
    Calm(tr[0], tr[1], tr[2], tr[3]);
    hide Run, Events, Sense, OpenStart, EventOf;
    CalmReadings(n, bats, tr, inputs, 1);
    CalmReadings(n, bats, tr, inputs, 3);
    assert inputs == inputs[..3] + [Battery(bats[3])] && tr == tr[..3] + [tr[3]];
    CalmStep(n, inputs[..3], bats[..3], tr[..3], bats[3], tr[3]);
  }

  lemma MiddleEvent(tr: seq<TxSample>) returns (ev: TxEvent)
    requires |tr| == 4 && !tr[0].above && tr[1].above && tr[2].above && !tr[3].above
    requires tr[2].current <= tr[1].current
    ensures Events(tr) == Events(tr[..3]) + [ev] == [ev] && OpenStart(tr[..3]) == 1
    ensures ev.startTime == tr[1].now && ev.endTime == tr[3].now && ev.duration == ev.endTime - ev.startTime
    ensures ev.peakCurrent == tr[1].current
  {
    ev := EventOf(tr, TxDetection.Run(1, 3));
    assert FirstPeak(tr, 1, 3) == if tr[2].current > tr[FirstPeak(tr, 1, 2)].current then 2 else FirstPeak(tr, 1, 2);
    Calm(tr[0], tr[1], tr[2], tr[3]);
    assert tr[..3] == [tr[0], tr[1], tr[2]] && tr == [tr[0], tr[1], tr[2], tr[3]];
    hide Events, EventOf, FirstPeak, OpenStart;
    assert [] + [ev] == [ev];
  }

  lemma QualifyingOne(ev: TxEvent)
    requires Qualifies(ev)
    ensures Qualifying([ev]) == [ev]
  {
    assert [ev][..0] == [];
  }

  /** Four battery readings, one before a transmission of 5 A, two within it and one after it: the drop
      from 13 V to 12 V shows a plausible 200 milliohm, but the transmission is examined in vain. */
  lemma LostTransmission()
    ensures var r := Run(10, true, [Battery(BEFORE), Battery(OPENING), Battery(WITHIN), Battery(CLOSING)]).record;
            && PlausibleDrop(BEFORE, WITHIN, 5.0)
            && |r.examined| == 1 && r.examined[0].startTime == 10 && r.examined[0].peakCurrent == 5.0
            && r.samples == []
  {
    var inputs := [Battery(BEFORE), Battery(OPENING), Battery(WITHIN), Battery(CLOSING)];
    var bats, tr := [BEFORE, OPENING, WITHIN, CLOSING], [QUIET, KEYED, HELD, RELEASED];
    LostSamples();
    hide Run, Events, OpenStart, Qualifying, Sense;
    FourReadings(10, bats, tr, inputs);
    var ev := MiddleEvent(tr);
    QualifyingOne(ev);
    assert bats[..3][1] == OPENING;
    assert inputs[..3][..1] == inputs[..1];
    BatteryOpenedMeasuresNothing(10, inputs, 20, ev, 1);
    ExaminedExactlyOnce(10, inputs, 20);
  }
}
