/**
 Detection of radio transmissions in the merged trace of battery and charger readings.

 `TxDetector` is the automaton that sees one reading at a time.  `ClosedRuns` lists the maximal runs
 of above-threshold readings of a whole trace, and `Events` describes them; the automaton's bounded
 queue is proved to hold the last hundred of those.
 */
module TxDetection {
  import opened Windows

  const TX_EVENTS_MAX: nat := 100
  /** The charger ramp-up floor. */
  const CHG_HIGH_A: real := 5.0

  /** A transmission; times are Unix seconds. */
  datatype TxEvent = TxEvent(startTime: nat, endTime: nat, duration: int, peakCurrent: real, peakPower: real)

  /** What the detector derives from one reading. */
  datatype TxSample = TxSample(now: nat, above: bool, current: real, power: real)

  function Positive(x: real): real {
    if x > 0.0 then x else 0.0
  }

  function RampUp(chgA: real): real {
    if chgA > CHG_HIGH_A then chgA else 0.0
  }

  function Max(a: real, b: real): real {
    if a < b then b else a
  }

  /** The three trigger paths, and the strongest discharge signal with the voltage it goes with. */
  function Sense(now: nat, batCur: real, batV: real, chgA: real, chgV: real, threshold: real): (s: TxSample)
    ensures s.above <==> Positive(batCur) > threshold || Positive(-chgA) > threshold || chgA > 5.0
    ensures s.current >= 0.0 && s.current >= batCur && s.current >= -chgA
    ensures threshold >= 0.0 && s.above ==> s.current > threshold || s.current > 5.0
  {
    var discharge, chgDischarge := Positive(batCur), Positive(-chgA);
    var current := Max(Max(discharge, chgDischarge), RampUp(chgA));
    TxSample(now, discharge > threshold || chgA > CHG_HIGH_A || chgDischarge > threshold, current,
             current * if chgDischarge > 0.0 then chgV else batV)
  }

  /** The signals are compared, never added: the current is the largest of the battery's discharge, the
      charger's, and a charge above 5 A.  The power goes with the charger's voltage exactly when the charger
      reports a discharge. */
  lemma SenseTakesStrongest(now: nat, batCur: real, batV: real, chgA: real, chgV: real, threshold: real)
    ensures var s := Sense(now, batCur, batV, chgA, chgV, threshold);
            && s.now == now
            && (s.above <==> threshold < 0.0 || batCur > threshold || -chgA > threshold || chgA > 5.0)
            && s.current >= 0.0 && s.current >= batCur && s.current >= -chgA && (chgA > 5.0 ==> s.current >= chgA)
            && (s.current == 0.0 || s.current == batCur || s.current == -chgA || (chgA > 5.0 && s.current == chgA))
            && (chgA < 0.0 ==> s.power == s.current * chgV)
            && (chgA >= 0.0 ==> s.power == s.current * batV)
  {
  }

  /** One discharge reported by both devices is counted once. */
  lemma DischargeCountsOnce(now: nat)
    ensures Sense(now, 6.0, 12.0, -6.0, 12.0, 1.0) == TxSample(now, true, 6.0, 72.0)
    ensures Sense(now, 0.5, 13.0, 8.0, 13.0, 1.0) == TxSample(now, true, 8.0, 104.0)
    ensures Sense(now, 0.5, 13.0, 5.0, 13.0, 1.0) == TxSample(now, false, 0.5, 6.5)
    ensures Sense(now, 2.0, 13.0, -3.0, 12.0, 1.0) == TxSample(now, true, 3.0, 36.0)
  {
  }

  // ------------------------------------------------------------ runs of a trace

  /** Readings `i` up to, not including, `j` are above threshold, and reading `j` ends the run. */
  datatype Run = Run(i: nat, j: nat)

  ghost predicate IsClosedRun(tr: seq<TxSample>, r: Run) {
    && r.i < r.j < |tr|
    && (forall k :: r.i <= k < r.j ==> tr[k].above)
    && !tr[r.j].above
    && (r.i == 0 || !tr[r.i - 1].above)
  }

  /** Where the run of above-threshold readings at the end of the trace begins. */
  function OpenStart(tr: seq<TxSample>): (i: nat)
    ensures i <= |tr|
  {
    if tr == [] || !tr[|tr| - 1].above then |tr| else OpenStart(tr[..|tr| - 1])
  }

  function ClosedRuns(tr: seq<TxSample>): (rs: seq<Run>)
    ensures forall a :: 0 <= a < |rs| ==> rs[a].i < rs[a].j < |tr|
  {
    if tr == [] then []
    else
      var m := |tr| - 1;
      var i := OpenStart(tr[..m]);
      ClosedRuns(tr[..m]) + if !tr[m].above && i < m then [Run(i, m)] else []
  }

  /** The first reading at which the strongest current of the run occurs. */
  function FirstPeak(tr: seq<TxSample>, i: nat, j: nat): (k: nat)
    requires i < j <= |tr|
    ensures i <= k < j
    decreases j
  {
    if j == i + 1 then i
    else
      var k := FirstPeak(tr, i, j - 1);
      if tr[j - 1].current > tr[k].current then j - 1 else k
  }

  function EventOf(tr: seq<TxSample>, r: Run): TxEvent
    requires r.i < r.j < |tr|
  {
    var peak := tr[FirstPeak(tr, r.i, r.j)];
    TxEvent(tr[r.i].now, tr[r.j].now, tr[r.j].now - tr[r.i].now, peak.current, peak.power)
  }

  function Describe(tr: seq<TxSample>, rs: seq<Run>): (es: seq<TxEvent>)
    requires forall a :: 0 <= a < |rs| ==> rs[a].i < rs[a].j < |tr|
    ensures |es| == |rs|
  {
    seq(|rs|, a requires 0 <= a < |rs| => EventOf(tr, rs[a]))
  }

  function Events(tr: seq<TxSample>): (es: seq<TxEvent>)
    ensures |es| == |ClosedRuns(tr)|
  {
    Describe(tr, ClosedRuns(tr))
  }

  // ------------------------------------------------------------ the automaton

  class TxDetector {
    var active: bool
    var startTime: nat
    var peakCurrent: real
    var peakPower: real
    var events: seq<TxEvent>
    ghost var trace: seq<TxSample>

    ghost predicate Valid()
      reads this
    {
      && active == (OpenStart(trace) < |trace|)
      && (active ==>
           && startTime == trace[OpenStart(trace)].now
           && var peak := trace[FirstPeak(trace, OpenStart(trace), |trace|)];
              peakCurrent == peak.current && peakPower == peak.power)
      && events == Last(Events(trace), 100)
    }

    constructor ()
      ensures Valid() && trace == []
    {
      active, startTime, peakCurrent, peakPower, events, trace := false, 0, 0.0, 0.0, [], [];
    }

    method RunTxDetection(now: nat, batCur: real, batV: real, chgA: real, chgV: real, threshold: real)
      requires Valid()
      modifies this
      ensures Valid() && trace == old(trace) + [Sense(now, batCur, batV, chgA, chgV, threshold)]
    {
      var discharge := if batCur > 0.0 then batCur else 0.0;
      var chgDischarge := if chgA < 0.0 then -chgA else 0.0;
      var above := discharge > threshold || chgA > CHG_HIGH_A || chgDischarge > threshold;
      var effectiveCur := Max(Max(discharge, chgDischarge), if chgA > CHG_HIGH_A then chgA else 0.0);
      var effectiveV := if chgDischarge > 0.0 then chgV else batV;
      var pwr := effectiveCur * effectiveV;
      ghost var s := Sense(now, batCur, batV, chgA, chgV, threshold);
      assert s == TxSample(now, above, effectiveCur, pwr);
      Observe(now, above, effectiveCur, pwr);
    }

    method Observe(now: nat, above: bool, current: real, power: real)
      requires Valid()
      modifies this
      ensures Valid() && trace == old(trace) + [TxSample(now, above, current, power)]
    {
      hide FirstPeak, ClosedRuns, Events, Last;
      ghost var s := TxSample(now, above, current, power);
      OpenStartAppend(trace, s);
      EventsAppend(trace, s);
      if above {
        PeakAppend(trace, s);
        if !active {
          active, startTime, peakCurrent, peakPower := true, now, current, power;
        } else if current > peakCurrent {
          peakCurrent, peakPower := current, power;
        }
      } else if active {
        var ev := TxEvent(startTime, now, now - startTime, peakCurrent, peakPower);
        PeakIsLocal(trace, s, OpenStart(trace), |trace|);
        LastOfLast(Events(trace), ev, TX_EVENTS_MAX);
        events := TrimFront(events + [ev], TX_EVENTS_MAX);
        active := false;
      }
      trace := trace + [s];
    }
  }

  lemma {:induction false} OpenStartAppend(tr: seq<TxSample>, s: TxSample)
    ensures OpenStart(tr + [s]) == if s.above then OpenStart(tr) else |tr| + 1
  {
    assert (tr + [s])[..|tr|] == tr;
  }

  lemma {:induction false} PeakIsLocal(tr: seq<TxSample>, s: TxSample, i: nat, j: nat)
    requires i < j <= |tr|
    ensures FirstPeak(tr + [s], i, j) == FirstPeak(tr, i, j)
    decreases j
  {
    if j > i + 1 { PeakIsLocal(tr, s, i, j - 1); }
  }

  /** How the running peak of the open run moves. */
  lemma {:induction false} PeakAppend(tr: seq<TxSample>, s: TxSample)
    ensures var i, n := OpenStart(tr), |tr|;
            if i == n then FirstPeak(tr + [s], i, n + 1) == n
            else FirstPeak(tr + [s], i, n + 1) ==
                   if s.current > tr[FirstPeak(tr, i, n)].current then n else FirstPeak(tr, i, n)
  {
    if OpenStart(tr) < |tr| { PeakIsLocal(tr, s, OpenStart(tr), |tr|); }
  }

  /** Which events one more reading adds. */
  lemma {:induction false} EventsAppend(tr: seq<TxSample>, s: TxSample)
    ensures var i, n := OpenStart(tr), |tr|;
            Events(tr + [s]) == if !s.above && i < n then Events(tr) + [EventOf(tr + [s], Run(i, n))] else Events(tr)
  {
    ClosedRunsAppend(tr, s);
    hide ClosedRuns, EventOf, OpenStart, Describe;
    DescribeIsLocal(tr, s, ClosedRuns(tr));
    if !s.above && OpenStart(tr) < |tr| {
      DescribeAppend(tr + [s], ClosedRuns(tr), Run(OpenStart(tr), |tr|));
    }
  }

  lemma DescribeIsLocal(tr: seq<TxSample>, s: TxSample, rs: seq<Run>)
    requires forall a :: 0 <= a < |rs| ==> rs[a].i < rs[a].j < |tr|
    ensures Describe(tr + [s], rs) == Describe(tr, rs)
  {
    hide EventOf;
    forall a | 0 <= a < |rs| ensures EventOf(tr + [s], rs[a]) == EventOf(tr, rs[a]) {
      EventIsLocal(tr, s, rs[a]);
    }
  }

  lemma DescribeAppend(tr: seq<TxSample>, rs: seq<Run>, r: Run)
    requires forall a :: 0 <= a < |rs| ==> rs[a].i < rs[a].j < |tr|
    requires r.i < r.j < |tr|
    ensures Describe(tr, rs + [r]) == Describe(tr, rs) + [EventOf(tr, r)]
  {
    hide EventOf;
  }

  lemma {:induction false} ClosedRunsAppend(tr: seq<TxSample>, s: TxSample)
    ensures var i, n := OpenStart(tr), |tr|;
            ClosedRuns(tr + [s]) == if !s.above && i < n then ClosedRuns(tr) + [Run(i, n)] else ClosedRuns(tr)
  {
    assert (tr + [s])[..|tr|] == tr;
  }

  lemma EventIsLocal(tr: seq<TxSample>, s: TxSample, r: Run)
    requires r.i < r.j < |tr|
    ensures EventOf(tr + [s], r) == EventOf(tr, r)
  {
    PeakIsLocal(tr, s, r.i, r.j);
  }

  // ------------------------------------------------------------ what runs and events are

  lemma {:induction false} OpenStartMeaning(tr: seq<TxSample>)
    ensures forall k :: OpenStart(tr) <= k < |tr| ==> tr[k].above
    ensures OpenStart(tr) > 0 && tr != [] ==> !tr[OpenStart(tr) - 1].above
  {
    if tr != [] && tr[|tr| - 1].above {
      OpenStartMeaning(tr[..|tr| - 1]);
    }
  }

  ghost predicate RunsInOrder(rs: seq<Run>, n: int) {
    && (forall a :: 0 <= a < |rs| ==> rs[a].i < rs[a].j < n)
    && forall a, b :: 0 <= a < b < |rs| ==> rs[a].j < rs[b].i
  }

  lemma {:induction false} RunsAreOrdered(tr: seq<TxSample>)
    ensures RunsInOrder(ClosedRuns(tr), |tr|)
  {
    if tr != [] {
      var m := |tr| - 1;
      var g := tr[..m];
      RunsAreOrdered(g);
      OpenStartMeaning(g);
      var i, rs := OpenStart(g), ClosedRuns(g);
      if i < m {
        forall a | 0 <= a < |rs| ensures rs[a].j < i {
          RunsAreRuns(g, rs[a]);
          assert !g[rs[a].j].above;
        }
      }
    }
  }

  /** The run, if any, that the last reading of a trace closes. */
  lemma LastRun(tr: seq<TxSample>, r: Run)
    requires r.j == |tr| - 1
    ensures var i := OpenStart(tr[..r.j]);
            IsClosedRun(tr, r) <==> !tr[r.j].above && r.i == i < r.j
  {
    var g := tr[..r.j];
    var i := OpenStart(g);
    OpenStartMeaning(g);
    if r.i < r.j {
      assert i > 0 ==> tr[i - 1] == g[i - 1];
      assert r.i > 0 ==> tr[r.i - 1] == g[r.i - 1];
      assert forall k :: i <= k < r.j ==> tr[k] == g[k];
    }
  }

  /** Exactly the maximal runs that have ended are listed. */
  lemma {:induction false} RunsAreRuns(tr: seq<TxSample>, r: Run)
    ensures r in ClosedRuns(tr) <==> IsClosedRun(tr, r)
  {
    if tr != [] {
      var g := tr[..|tr| - 1];
      RunsAreRuns(g, r);
      if r.j == |tr| - 1 {
        LastRun(tr, r);
        assert r !in ClosedRuns(g);
      } else {
        assert IsClosedRun(tr, r) <==> IsClosedRun(g, r);
      }
    }
  }

  lemma {:induction false} PeakMeaning(tr: seq<TxSample>, i: nat, j: nat)
    requires i < j <= |tr|
    ensures var k := FirstPeak(tr, i, j);
            && (forall m :: i <= m < j ==> tr[m].current <= tr[k].current)
            && (forall m :: i <= m < k ==> tr[m].current < tr[k].current)
    decreases j
  {
    if j > i + 1 { PeakMeaning(tr, i, j - 1); }
  }

  /** The segmentation in one statement: the queue of events describes the closed maximal runs in
      order; each starts at its run's first reading, ends at the first reading below, and carries the
      run's largest current and the power at the first reading that reaches it. */
  lemma {:induction false} EventsDescribeRuns(tr: seq<TxSample>, a: nat)
    requires a < |Events(tr)|
    ensures var r, e := ClosedRuns(tr)[a], Events(tr)[a];
            && IsClosedRun(tr, r)
            && e.startTime == tr[r.i].now && e.endTime == tr[r.j].now && e.duration == e.endTime - e.startTime
            && exists k :: r.i <= k < r.j && e.peakCurrent == tr[k].current && e.peakPower == tr[k].power
                 && (forall m :: r.i <= m < r.j ==> tr[m].current <= tr[k].current)
                 && (forall m :: r.i <= m < k ==> tr[m].current < tr[k].current)
  {
    var r := ClosedRuns(tr)[a];
    RunsAreRuns(tr, r);
    PeakMeaning(tr, r.i, r.j);
    var k := FirstPeak(tr, r.i, r.j);
    assert Events(tr)[a] == EventOf(tr, r);
    assert r.i <= k < r.j;
  }

  ghost predicate InOrder(tr: seq<TxSample>) {
    forall i, j :: 0 <= i < j < |tr| ==> tr[i].now <= tr[j].now
  }

  /** In ordered time events are disjoint and sorted, and an event of positive duration ends strictly
      after every earlier one. */
  lemma EventsAreDisjoint(tr: seq<TxSample>, a: nat, b: nat)
    requires InOrder(tr) && a < b < |Events(tr)|
    ensures var e, f := Events(tr)[a], Events(tr)[b];
            && e.startTime <= e.endTime <= f.startTime <= f.endTime
            && (f.duration > 0 ==> e.endTime < f.endTime)
  {
    RunsAreOrdered(tr);
    var r, q := ClosedRuns(tr)[a], ClosedRuns(tr)[b];
    assert r.j < q.i < q.j && r.i < r.j;
  }
}
