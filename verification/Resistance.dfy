/**
 Internal resistance from transmissions: each transmission long and strong enough is examined once,
 by comparing the battery voltage before it with the voltage during it.

 The estimator remembers the end times of at most 200 examined transmissions and forgets the
 smallest first; the queue it is shown holds at most 100.
 */
module Resistance {
  import opened Options
  import opened Windows
  import opened TxDetection

  const ROLLING_N: nat := 20
  const PROCESSED_MAX: nat := 200

  datatype BatterySnapshot = BatterySnapshot(ts: nat, valid: bool, voltageV: real, currentA: real)

  datatype ResistanceSample = ResistanceSample(timestamp: nat, mohm: real)

  predicate Qualifies(ev: TxEvent) {
    ev.peakCurrent >= 0.5 && ev.duration as real >= 0.5
  }

  // ------------------------------------------------------------ choosing the two snapshots

  /** The latest valid snapshot at or before `start`, the first one stored when several tie. */
  ghost predicate IsPre(h: seq<BatterySnapshot>, start: int, k: nat) {
    && k < |h| && h[k].valid && h[k].ts <= start
    && forall j :: 0 <= j < |h| && h[j].valid && h[j].ts <= start ==>
         h[j].ts <= h[k].ts && (j < k ==> h[j].ts < h[k].ts)
  }

  /** The earliest valid snapshot within the transmission, the first one stored when several tie. */
  ghost predicate IsDuring(h: seq<BatterySnapshot>, start: int, end: int, k: nat) {
    && k < |h| && h[k].valid && start <= h[k].ts <= end
    && forall j :: 0 <= j < |h| && h[j].valid && start <= h[j].ts <= end ==>
         h[k].ts <= h[j].ts && (j < k ==> h[k].ts < h[j].ts)
  }

  function PreIndex(h: seq<BatterySnapshot>, start: int): (r: Option<nat>)
    ensures r.Some? ==> IsPre(h, start, r.value)
    ensures r.None? ==> forall j :: 0 <= j < |h| && h[j].valid ==> start < h[j].ts
  {
    if h == [] then None
    else
      var r, s := PreIndex(h[..|h| - 1], start), h[|h| - 1];
      if s.valid && s.ts <= start && (r.None? || s.ts > h[r.value].ts) then Some(|h| - 1) else r
  }

  function DuringIndex(h: seq<BatterySnapshot>, start: int, end: int): (r: Option<nat>)
    ensures r.Some? ==> IsDuring(h, start, end, r.value)
    ensures r.None? ==> forall j :: 0 <= j < |h| && h[j].valid ==> h[j].ts < start || end < h[j].ts
  {
    if h == [] then None
    else
      var r, s := DuringIndex(h[..|h| - 1], start, end), h[|h| - 1];
      if s.valid && start <= s.ts <= end && (r.None? || s.ts < h[r.value].ts) then Some(|h| - 1) else r
  }

  /** The resistance one transmission yields, in milliohm. */
  function Measure(h: seq<BatterySnapshot>, ev: TxEvent): Option<real> {
    var pre, during := PreIndex(h, ev.startTime), DuringIndex(h, ev.startTime, ev.endTime);
    if pre.None? || during.None? then None
    else
      var dV := h[pre.value].voltageV - h[during.value].voltageV;
      var dI := ev.peakCurrent - Positive(h[pre.value].currentA);
      if dI < 0.3 then None else Some(dV / dI * 1000.0)
  }

  predicate Plausible(mohm: real) {
    0.0 < mohm <= 500.0
  }

  // ------------------------------------------------------------ remembering what was examined

  predicate IsSmallest(m: int, p: set<int>) {
    m in p && forall x :: x in p ==> m <= x
  }

  lemma Member<T>(p: set<T>) returns (x: T)
    requires p != {}
    ensures x in p
  {
    x :| x in p;
  }

  lemma {:induction false} HasSmallest(p: set<int>) returns (m: int)
    requires p != {}
    ensures IsSmallest(m, p)
    decreases |p|
  {
    var y := Member(p);
    m := y;
    if p != {y} {
      var n := HasSmallest(p - {y});
      if n < y { m := n; }
      assert forall x :: x in p ==> x == y || x in p - {y};
    }
  }

  lemma SmallestIsUnique(m: int, n: int, p: set<int>)
    requires IsSmallest(m, p) && IsSmallest(n, p)
    ensures m == n
  {
  }

  ghost function Smallest(p: set<int>): (m: int)
    requires p != {}
    ensures IsSmallest(m, p)
  {
    assert exists m :: IsSmallest(m, p) by { var m := HasSmallest(p); }
    var m :| IsSmallest(m, p);
    m
  }

  /** Forget the smallest end times until at most 200 are left. */
  ghost function Trim(p: set<int>): set<int> {
    if |p| <= PROCESSED_MAX then p else Trim(p - {Smallest(p)})
  }

  /** `examined` and `samples` are complete records; the estimator keeps only parts of them. */
  datatype Record = Record(processed: set<int>, examined: seq<TxEvent>, samples: seq<ResistanceSample>)

  const NOTHING := Record({}, [], [])

  ghost function Visit(r: Record, h: seq<BatterySnapshot>, ev: TxEvent): Record {
    if !Qualifies(ev) || ev.endTime in r.processed then r
    else
      var m := Measure(h, ev);
      Record(Trim(r.processed + {ev.endTime}), r.examined + [ev],
             if m.Some? && Plausible(m.value) then r.samples + [ResistanceSample(ev.endTime, m.value)] else r.samples)
  }

  ghost function VisitAll(r: Record, h: seq<BatterySnapshot>, evs: seq<TxEvent>): Record {
    if evs == [] then r else Visit(VisitAll(r, h, evs[..|evs| - 1]), h, evs[|evs| - 1])
  }

  class ResistanceEstimator {
    var rRing: seq<real>
    var rTs: seq<nat>
    var processedEndTimes: set<int>
    ghost var record: Record

    ghost predicate Valid()
      reads this
    {
      var kept := Last(record.samples, 20);
      && processedEndTimes == record.processed
      && |rRing| == |rTs| == |kept|
      && (forall i :: 0 <= i < |kept| ==> ResistanceSample(rTs[i], rRing[i]) == kept[i])
      && forall i :: 0 <= i < |record.samples| ==> Plausible(record.samples[i].mohm)
    }

    constructor ()
      ensures Valid() && record == NOTHING
    {
      rRing, rTs, processedEndTimes, record := [], [], {}, NOTHING;
    }

    method PushSample(ts: nat, rMohm: real)
      requires Valid()
      modifies this`rRing, this`rTs, this`record
      ensures Valid()
      ensures record == if !Plausible(rMohm) then old(record)
                        else old(record).(samples := old(record).samples + [ResistanceSample(ts, rMohm)])
    {
      if rMohm <= 0.0 || rMohm > 500.0 { return; }
      ghost var s := ResistanceSample(ts, rMohm);
      LastOfLast(record.samples, s, ROLLING_N);
      rRing := TrimFront(rRing + [rMohm], ROLLING_N);
      rTs := TrimFront(rTs + [ts], ROLLING_N);
      record := record.(samples := record.samples + [s]);
    }

    /** The scan for the snapshot before and the snapshot during a transmission. */
    static method Select(history: seq<BatterySnapshot>, startTs: nat, endTs: nat)
        returns (pre: Option<nat>, during: Option<nat>)
      ensures pre == PreIndex(history, startTs) && during == DuringIndex(history, startTs, endTs)
    {
      pre, during := None, None;
      for i := 0 to |history|
        invariant pre == PreIndex(history[..i], startTs)
        invariant during == DuringIndex(history[..i], startTs, endTs)
      {
        assert history[..i + 1][..i] == history[..i];
        var s := history[i];
        if s.valid {
          if s.ts <= startTs && (pre.None? || s.ts > history[pre.value].ts) { pre := Some(i); }
          if startTs <= s.ts <= endTs && (during.None? || s.ts < history[during.value].ts) { during := Some(i); }
        }
      }
      assert history[..|history|] == history;
    }

    method MarkProcessed(end: nat)
      requires Valid()
      modifies this`processedEndTimes
      ensures processedEndTimes == Trim(old(processedEndTimes) + {end})
    {
      processedEndTimes := processedEndTimes + {end};
      while |processedEndTimes| > PROCESSED_MAX
        invariant Trim(processedEndTimes) == Trim(old(processedEndTimes) + {end})
        decreases |processedEndTimes|
      {
        ghost var least := Smallest(processedEndTimes);
        var first :| first in processedEndTimes && IsSmallest(first, processedEndTimes);
        SmallestIsUnique(first, least, processedEndTimes);
        processedEndTimes := processedEndTimes - {first};
      }
    }

    method Examine(history: seq<BatterySnapshot>, ev: TxEvent)
      requires Valid()
      modifies this
      ensures Valid() && record == Visit(old(record), history, ev)
    {
      hide PreIndex, DuringIndex, Trim;
      if ev.peakCurrent < 0.5 || (ev.duration as real) < 0.5 { return; }
      if ev.endTime in processedEndTimes { return; }
      MarkProcessed(ev.endTime);
      record := record.(processed := processedEndTimes, examined := record.examined + [ev]);
      var pre, during := Select(history, ev.startTime, ev.endTime);
      if pre.None? || during.None? { return; }
      var vIdle := history[pre.value].voltageV;
      var vTx := history[during.value].voltageV;
      var iIdle := if history[pre.value].currentA > 0.0 then history[pre.value].currentA else 0.0;
      var dV := vIdle - vTx;
      var dI := ev.peakCurrent - iIdle;
      if dI < 0.3 { return; }
      var rOhm := dV / dI;
      PushSample(ev.endTime, rOhm * 1000.0);
    }

    method Update(history: seq<BatterySnapshot>, txEvents: seq<TxEvent>)
      requires Valid()
      modifies this
      ensures Valid()
      ensures record == if history == [] then old(record) else VisitAll(old(record), history, txEvents)
    {
      if history == [] { return; }
      for i := 0 to |txEvents|
        invariant Valid() && record == VisitAll(old(record), history, txEvents[..i])
      {
        assert txEvents[..i + 1][..i] == txEvents[..i];
        Examine(history, txEvents[i]);
      }
      assert txEvents[..|txEvents|] == txEvents;
    }

    /** The average of the kept samples: always a plausible resistance once there is one. */
    method InternalResistanceMohm() returns (r: real)
      requires Valid()
      ensures if record.samples == [] then r == 0.0
              else r * |rRing| as real == Sum(rRing) && rRing != [] && 0.0 < r <= 500.0
    {
      if rRing == [] { return 0.0; }
      var sum := 0.0;
      for i := 0 to |rRing|
        invariant sum == Sum(rRing[..i])
      {
        assert rRing[..i + 1] == rRing[..i] + [rRing[i]];
        SumAppend(rRing[..i], rRing[i]);
        sum := sum + rRing[i];
      }
      assert rRing[..|rRing|] == rRing;
      r := sum / |rRing| as real;
      AllPlausible();
      SumPlausible(rRing);
      AverageWithin(sum, |rRing| as real, r);
    }

    lemma AllPlausible()
      requires Valid()
      ensures forall i :: 0 <= i < |rRing| ==> Plausible(rRing[i])
    {
      var kept := Last(record.samples, ROLLING_N);
      forall i | 0 <= i < |rRing| ensures Plausible(rRing[i]) {
        assert kept[i] == record.samples[|record.samples| - |kept| + i];
        assert ResistanceSample(rTs[i], rRing[i]) == kept[i];
      }
    }
  }

  lemma {:induction false} SumPlausible(s: seq<real>)
    requires forall i :: 0 <= i < |s| ==> Plausible(s[i])
    ensures Sum(s) <= 500.0 * |s| as real
    ensures s != [] ==> Sum(s) > 0.0
  {
    if s != [] {
      SumPlausible(s[1..]);
      if s[1..] == [] { assert Sum(s[1..]) == 0.0; }
      assert |s| as real == |s[1..]| as real + 1.0;
    }
  }

  lemma AverageWithin(sum: real, n: real, r: real)
    requires n > 0.0 && r == sum / n && 0.0 < sum <= 500.0 * n
    ensures r * n == sum && Plausible(r)
  {
    assert r * n == sum;
    assert (500.0 - r) * n >= 0.0;
  }

  // ------------------------------------------------------------ a transmission is examined at most once

  /** Qualifying events end at strictly increasing times. */
  ghost predicate Increasing(evs: seq<TxEvent>) {
    forall a, b :: 0 <= a < b < |evs| && Qualifies(evs[a]) && Qualifies(evs[b]) ==> evs[a].endTime < evs[b].endTime
  }

  ghost function Ends(evs: seq<TxEvent>): set<int> {
    set i | 0 <= i < |evs| && Qualifies(evs[i]) :: evs[i].endTime as int
  }

  lemma {:induction false} FewEnds(evs: seq<TxEvent>)
    ensures |Ends(evs)| <= |evs|
  {
    if evs != [] {
      var n := |evs| - 1;
      FewEnds(evs[..n]);
      assert Ends(evs) == Ends(evs[..n]) + if Qualifies(evs[n]) then {evs[n].endTime as int} else {};
    }
  }

  ghost predicate Distinct(evs: seq<TxEvent>) {
    forall a, b :: 0 <= a < b < |evs| ==> evs[a].endTime != evs[b].endTime
  }

  /** What holds of the record when the events closed so far are `closed`: everything examined is
      still remembered or no later than `low`, and `low` precedes every event still in the queue. */
  ghost predicate Remembers(r: Record, closed: seq<TxEvent>, low: int) {
    && Bounded(r.processed, closed, low)
    && Accounted(r.examined, r.processed, closed, low)
  }

  ghost predicate Bounded(p: set<int>, closed: seq<TxEvent>, low: int) {
    && |p| <= 200 && p <= Ends(closed)
    && (low < 0 || low in Ends(closed))
    && (forall q :: q in p ==> low < q)
    && (forall q :: q in Ends(Last(closed, TX_EVENTS_MAX)) ==> low < q)
  }

  ghost predicate Accounted(examined: seq<TxEvent>, p: set<int>, closed: seq<TxEvent>, low: int) {
    && Distinct(examined)
    && forall a :: 0 <= a < |examined| ==>
         && Qualifies(examined[a]) && examined[a] in closed
         && (examined[a].endTime <= low || examined[a].endTime in p)
  }

  /** An end that has left the queue precedes every end still in it. */
  lemma OldEndsAreSmaller(closed: seq<TxEvent>, p: int, q: int)
    requires Increasing(closed)
    requires p in Ends(closed) && p !in Ends(Last(closed, TX_EVENTS_MAX))
    requires q in Ends(Last(closed, TX_EVENTS_MAX))
    ensures p < q
  {
    var w := Last(closed, TX_EVENTS_MAX);
    var off := |closed| - |w|;
    var i :| 0 <= i < |closed| && Qualifies(closed[i]) && closed[i].endTime == p;
    var j :| 0 <= j < |w| && Qualifies(w[j]) && w[j].endTime == q;
    assert w[j] == closed[off + j];
    assert forall k :: off <= k < |closed| ==> closed[k] == w[k - off];
    assert i < off;
  }

  /** When 201 ends are remembered, the smallest is older than everything in the queue of 100. */
  lemma SmallestIsOld(closed: seq<TxEvent>, p: set<int>)
    requires Increasing(closed) && |p| > PROCESSED_MAX && p <= Ends(closed)
    ensures forall q :: q in Ends(Last(closed, TX_EVENTS_MAX)) ==> Smallest(p) < q
  {
    var w := Ends(Last(closed, TX_EVENTS_MAX));
    FewEnds(Last(closed, TX_EVENTS_MAX));
    if p <= w {
      SubsetSize(p, w);
    } else {
      var gone :| gone in p && gone !in w;
      forall q | q in w ensures Smallest(p) < q {
        OldEndsAreSmaller(closed, gone, q);
      }
    }
  }

  lemma {:induction false} SubsetSize<T>(a: set<T>, b: set<T>)
    requires a <= b
    ensures |a| <= |b|
  {
    if a != {} {
      var x :| x in a;
      SubsetSize(a - {x}, b - {x});
    }
  }

  lemma InEnds(closed: seq<TxEvent>, ev: TxEvent)
    requires Qualifies(ev) && ev in Last(closed, TX_EVENTS_MAX)
    ensures ev in closed && (ev.endTime as int) in Ends(closed)
    ensures (ev.endTime as int) in Ends(Last(closed, TX_EVENTS_MAX))
  {
    var w := Last(closed, TX_EVENTS_MAX);
    var i :| 0 <= i < |w| && w[i] == ev;
    assert closed[|closed| - |w| + i] == ev;
  }

  /** Up to 200 ends are remembered; of 201 the smallest is forgotten. */
  lemma {:induction false} TrimOnce(p: set<int>)
    requires |p| <= 201
    ensures Trim(p) == if |p| <= 200 then p else p - {Smallest(p)}
    ensures |Trim(p)| <= 200
  {
  }

  lemma RememberOneMore(p: set<int>, closed: seq<TxEvent>, low: int, e: int) returns (low': int)
    requires Increasing(closed) && Bounded(p, closed, low)
    requires e in Ends(closed) && e in Ends(Last(closed, TX_EVENTS_MAX))
    ensures Bounded(Trim(p + {e}), closed, low') && low <= low'
    ensures forall x :: x in p + {e} ==> x <= low' || x in Trim(p + {e})
  {
    hide Ends, Last;
    TrimOnce(p + {e});
    low' := low;
    if |p + {e}| > PROCESSED_MAX {
      SmallestIsOld(closed, p + {e});
      low' := Smallest(p + {e});
    }
  }

  /** One visit keeps the record sound, and examines the event only if it was never examined. */
  lemma VisitRemembers(r: Record, h: seq<BatterySnapshot>, closed: seq<TxEvent>, low: int, ev: TxEvent)
      returns (low': int)
    requires Increasing(closed) && Remembers(r, closed, low)
    requires ev in Last(closed, TX_EVENTS_MAX)
    ensures Remembers(Visit(r, h, ev), closed, low')
  {
    hide Measure, Trim, Ends, Last;
    low' := low;
    if Qualifies(ev) && ev.endTime !in r.processed {
      InEnds(closed, ev);
      low' := RememberOneMore(r.processed, closed, low, ev.endTime);
      assert Visit(r, h, ev).examined == r.examined + [ev];
      hide Bounded, Visit;
    }
  }

  lemma {:induction false} VisitAllRemembers(r: Record, h: seq<BatterySnapshot>, closed: seq<TxEvent>, low: int,
                                             evs: seq<TxEvent>) returns (low': int)
    requires Increasing(closed) && Remembers(r, closed, low)
    requires forall i :: 0 <= i < |evs| ==> evs[i] in Last(closed, TX_EVENTS_MAX)
    ensures Remembers(VisitAll(r, h, evs), closed, low')
  {
    hide Remembers, Visit, Last;
    low' := low;
    if evs != [] {
      low' := VisitAllRemembers(r, h, closed, low, evs[..|evs| - 1]);
      low' := VisitRemembers(VisitAll(r, h, evs[..|evs| - 1]), h, closed, low', evs[|evs| - 1]);
    }
  }

  /** A newly closed event is later than everything remembered or forgotten. */
  lemma CloseRemembers(r: Record, closed: seq<TxEvent>, low: int, ev: TxEvent)
    requires Increasing(closed + [ev]) && Remembers(r, closed, low)
    ensures Remembers(r, closed + [ev], low)
  {
    var all := closed + [ev];
    assert forall i :: 0 <= i < |closed| ==> all[i] == closed[i];
    assert Ends(closed) <= Ends(all) by {
      forall p | p in Ends(closed) ensures p in Ends(all) {
        var i :| 0 <= i < |closed| && Qualifies(closed[i]) && closed[i].endTime == p;
        assert all[i].endTime == p;
      }
    }
    forall p | p in Ends(Last(all, TX_EVENTS_MAX)) ensures low < p {
      var w := Last(all, TX_EVENTS_MAX);
      var i :| 0 <= i < |w| && Qualifies(w[i]) && w[i].endTime == p;
      var k := |all| - |w| + i;
      assert w[i] == all[k];
      if k < |closed| {
        var u := Last(closed, TX_EVENTS_MAX);
        assert u[k - (|closed| - |u|)] == closed[k];
        assert p in Ends(u);
      } else if low >= 0 {
        var j :| 0 <= j < |closed| && Qualifies(closed[j]) && closed[j].endTime == low;
        assert all[j].endTime < all[k].endTime;
      }
    }
  }

  // ------------------------------------------------------------ when every closing is followed by an update

  function Qualifying(evs: seq<TxEvent>): seq<TxEvent> {
    if evs == [] then []
    else Qualifying(evs[..|evs| - 1]) + if Qualifies(evs[|evs| - 1]) then [evs[|evs| - 1]] else []
  }

  lemma {:induction false} QualifyingHasAll(evs: seq<TxEvent>, ev: TxEvent)
    requires ev in evs && Qualifies(ev)
    ensures exists a :: 0 <= a < |Qualifying(evs)| && Qualifying(evs)[a] == ev
  {
    var n := |evs| - 1;
    if evs[n] == ev {
      assert Qualifying(evs)[|Qualifying(evs[..n])|] == ev;
    } else {
      QualifyingHasAll(evs[..n], ev);
      var a :| 0 <= a < |Qualifying(evs[..n])| && Qualifying(evs[..n])[a] == ev;
      assert Qualifying(evs)[a] == ev;
    }
  }

  ghost predicate Known(r: Record, evs: seq<TxEvent>) {
    forall i :: 0 <= i < |evs| && Qualifies(evs[i]) ==> evs[i].endTime in r.processed
  }

  lemma {:induction false} KnownAreSkipped(r: Record, h: seq<BatterySnapshot>, evs: seq<TxEvent>)
    requires Known(r, evs)
    ensures VisitAll(r, h, evs) == r
  {
    hide Measure;
    if evs != [] {
      KnownAreSkipped(r, h, evs[..|evs| - 1]);
    }
  }

  lemma {:induction false} WindowIsKnown(r: Record, closed: seq<TxEvent>, low: int)
    requires Remembers(r, closed, low) && r.examined == Qualifying(closed)
    ensures Known(r, Last(closed, TX_EVENTS_MAX))
  {
    var w := Last(closed, TX_EVENTS_MAX);
    forall i | 0 <= i < |w| && Qualifies(w[i]) ensures w[i].endTime in r.processed {
      assert w[i] in w;
      InEnds(closed, w[i]);
      QualifyingHasAll(closed, w[i]);
    }
  }

  /** Nothing new: an update changes nothing. */
  lemma {:induction false} UpdateRepeats(r: Record, h: seq<BatterySnapshot>, closed: seq<TxEvent>, low: int)
    requires Remembers(r, closed, low) && r.examined == Qualifying(closed)
    ensures VisitAll(r, h, Last(closed, TX_EVENTS_MAX)) == r
  {
    WindowIsKnown(r, closed, low);
    KnownAreSkipped(r, h, Last(closed, TX_EVENTS_MAX));
  }

  /** One event newly closed: an update is a visit to it alone, and examines it if it qualifies. */
  lemma {:induction false} UpdateAdvances(r: Record, h: seq<BatterySnapshot>, closed: seq<TxEvent>, low: int,
                                          ev: TxEvent)
    requires Increasing(closed + [ev]) && Remembers(r, closed, low) && r.examined == Qualifying(closed)
    ensures VisitAll(r, h, Last(closed + [ev], TX_EVENTS_MAX)) == Visit(r, h, ev)
    ensures Visit(r, h, ev).examined == Qualifying(closed + [ev])
    ensures Qualifies(ev) ==> ev.endTime !in r.processed
  {
    hide Measure, Remembers, Increasing, Last;
    var all := closed + [ev];
    var w := Last(all, TX_EVENTS_MAX);
    var v := w[..|w| - 1];
    WindowIsKnown(r, closed, low);
    NewestInWindow(r, closed, ev);
    KnownAreSkipped(r, h, v);
    assert all[..|closed|] == closed;
    NewEndIsUnknown(r, closed, low, ev);
  }

  lemma NewestInWindow(r: Record, closed: seq<TxEvent>, ev: TxEvent)
    requires Known(r, Last(closed, TX_EVENTS_MAX))
    ensures var w := Last(closed + [ev], TX_EVENTS_MAX);
            w != [] && w[|w| - 1] == ev && Known(r, w[..|w| - 1])
  {
    var u := Last(closed, TX_EVENTS_MAX);
    LastSlides(closed, ev, TX_EVENTS_MAX);
    assert Known(r, if |u| == 0 then u else u[1..]);
    var w := Last(closed + [ev], TX_EVENTS_MAX);
    assert w[..|w| - 1] == if |closed| < TX_EVENTS_MAX then u else u[1..];
  }

  lemma NewEndIsUnknown(r: Record, closed: seq<TxEvent>, low: int, ev: TxEvent)
    requires Increasing(closed + [ev]) && Remembers(r, closed, low)
    ensures Qualifies(ev) ==> ev.endTime !in r.processed
  {
    var all := closed + [ev];
    if Qualifies(ev) {
      forall p | p in Ends(closed) ensures p < ev.endTime {
        var i :| 0 <= i < |closed| && Qualifies(closed[i]) && closed[i].endTime == p;
        assert all[i] == closed[i] && all[|closed|] == ev;
      }
    }
  }

  // ------------------------------------------------------------ exactly when a resistance is recorded

  /** A valid snapshot carries this very time. */
  ghost predicate StampedAt(h: seq<BatterySnapshot>, t: int) {
    exists k :: 0 <= k < |h| && h[k].valid && h[k].ts == t
  }

  /** Both scans pick the same snapshot if and only if one is stamped with the start of the transmission. */
  lemma {:induction false} SameSnapshotIff(h: seq<BatterySnapshot>, ev: TxEvent)
    requires ev.startTime <= ev.endTime
    ensures PreIndex(h, ev.startTime).Some? && PreIndex(h, ev.startTime) == DuringIndex(h, ev.startTime, ev.endTime)
            <==> StampedAt(h, ev.startTime)
  {
    hide PreIndex, DuringIndex;
    var pre, during := PreIndex(h, ev.startTime), DuringIndex(h, ev.startTime, ev.endTime);
    if StampedAt(h, ev.startTime) {
      var k :| 0 <= k < |h| && h[k].valid && h[k].ts == ev.startTime;
      assert pre.Some? && during.Some?;
      StartStampIsChosenTwice(h, ev.startTime, ev.endTime, pre.value, during.value);
    }
    if pre.Some? && pre == during {
      assert h[pre.value].ts == ev.startTime;
    }
  }

  /** There is a snapshot before the transmission and one within it, and none at its very start. */
  ghost predicate Separated(h: seq<BatterySnapshot>, ev: TxEvent) {
    && !StampedAt(h, ev.startTime)
    && (exists k :: 0 <= k < |h| && h[k].valid && h[k].ts < ev.startTime)
    && exists k :: 0 <= k < |h| && h[k].valid && ev.startTime < h[k].ts <= ev.endTime
  }

  /** The drop in voltage over the rise in current, between two snapshots, is a plausible resistance. */
  predicate PlausibleDrop(pre: BatterySnapshot, during: BatterySnapshot, peakCurrent: real) {
    var dI := peakCurrent - Positive(pre.currentA);
    dI >= 0.3 && Plausible((pre.voltageV - during.voltageV) / dI * 1000.0)
  }

  /** The latest snapshot before the transmission and the earliest one within it show such a drop. */
  ghost predicate ShowsDrop(h: seq<BatterySnapshot>, ev: TxEvent) {
    exists a: nat, b: nat :: IsPre(h, ev.startTime, a) && IsDuring(h, ev.startTime, ev.endTime, b)
                             && PlausibleDrop(h[a], h[b], ev.peakCurrent)
  }

  lemma ChoicesAreUnique(h: seq<BatterySnapshot>, start: int, end: int, a: nat, b: nat)
    ensures IsPre(h, start, a) && IsPre(h, start, b) ==> a == b
    ensures IsDuring(h, start, end, a) && IsDuring(h, start, end, b) ==> a == b
  {
  }

  lemma MeasureShowsDrop(h: seq<BatterySnapshot>, ev: TxEvent)
    ensures Measure(h, ev).Some? && Plausible(Measure(h, ev).value) <==> ShowsDrop(h, ev)
  {
    hide PreIndex, DuringIndex;
    var pre, during := PreIndex(h, ev.startTime), DuringIndex(h, ev.startTime, ev.endTime);
    if ShowsDrop(h, ev) {
      var a: nat, b: nat :| IsPre(h, ev.startTime, a) && IsDuring(h, ev.startTime, ev.endTime, b)
                            && PlausibleDrop(h[a], h[b], ev.peakCurrent);
      NothingChosen(h, ev, a, b);
      ChoicesAreUnique(h, ev.startTime, ev.endTime, a, pre.value);
      ChoicesAreUnique(h, ev.startTime, ev.endTime, b, during.value);
    }
  }

  lemma {:induction false} NothingChosen(h: seq<BatterySnapshot>, ev: TxEvent, a: nat, b: nat)
    requires IsPre(h, ev.startTime, a) && IsDuring(h, ev.startTime, ev.endTime, b)
    ensures PreIndex(h, ev.startTime).Some? && DuringIndex(h, ev.startTime, ev.endTime).Some?
  {
    hide PreIndex, DuringIndex;
  }

  lemma NoDropIsImplausible(pre: BatterySnapshot, peakCurrent: real)
    ensures !PlausibleDrop(pre, pre, peakCurrent)
  {
  }

  lemma StartStampIsChosenTwice(h: seq<BatterySnapshot>, start: int, end: int, a: nat, b: nat)
    requires IsPre(h, start, a) && IsDuring(h, start, end, b) && StampedAt(h, start) && start <= end
    ensures a == b
  {
    var k :| 0 <= k < |h| && h[k].valid && h[k].ts == start;
    assert h[a].ts == start == h[b].ts;
  }

  /** A drop can only be seen between two different snapshots. */
  lemma DropNeedsSeparation(h: seq<BatterySnapshot>, ev: TxEvent)
    requires ShowsDrop(h, ev) && ev.startTime <= ev.endTime
    ensures Separated(h, ev)
  {
    var a: nat, b: nat :| IsPre(h, ev.startTime, a) && IsDuring(h, ev.startTime, ev.endTime, b)
                          && PlausibleDrop(h[a], h[b], ev.peakCurrent);
    hide PlausibleDrop;
    if StampedAt(h, ev.startTime) {
      StartStampIsChosenTwice(h, ev.startTime, ev.endTime, a, b);
      NoDropIsImplausible(h[a], ev.peakCurrent);
    }
    NotAtStart(h, ev.startTime, a);
    NotAtStart(h, ev.startTime, b);
  }

  lemma NotAtStart(h: seq<BatterySnapshot>, t: int, k: nat)
    requires !StampedAt(h, t) && k < |h| && h[k].valid
    ensures h[k].ts != t
  {
  }

  /** Exactly when examining a transmission records a resistance: it qualifies, it is not remembered, a
      snapshot lies before it and another within it but none at its very start, and these two show a
      plausible drop. */
  lemma RecordsIff(r: Record, h: seq<BatterySnapshot>, ev: TxEvent)
    requires ev.startTime <= ev.endTime
    ensures Visit(r, h, ev).samples != r.samples <==>
            Qualifies(ev) && ev.endTime !in r.processed && Separated(h, ev) && ShowsDrop(h, ev)
  {
    hide Measure, Trim, Separated, ShowsDrop;
    MeasureShowsDrop(h, ev);
    if ShowsDrop(h, ev) { DropNeedsSeparation(h, ev); }
  }

  /** Hence a transmission whose start is stamped on a snapshot of the history yields no resistance. */
  lemma StartStampMeasuresNothing(r: Record, h: seq<BatterySnapshot>, ev: TxEvent)
    requires ev.startTime <= ev.endTime && StampedAt(h, ev.startTime)
    ensures Visit(r, h, ev).samples == r.samples
  {
    hide Visit;
    RecordsIff(r, h, ev);
  }

  // ------------------------------------------------------------ the same in plain numbers

  /** A transmission is examined when it lasted a second or more, durations being whole, and drew half an
      ampere or more. */
  lemma QualifiesIff(ev: TxEvent)
    ensures Qualifies(ev) <==> 2.0 * ev.peakCurrent >= 1.0 && ev.duration >= 1
  {
  }

  /** The current a transmission adds to what the battery delivered before it. */
  function AddedA(pre: BatterySnapshot, peakCurrent: real): real {
    if pre.currentA > 0.0 then peakCurrent - pre.currentA else peakCurrent
  }

  /** A drop is plausible when the current rises by 0.3 A or more and the voltage falls, by no more than
      half a volt for each ampere. */
  lemma DropIff(pre: BatterySnapshot, during: BatterySnapshot, peakCurrent: real)
    ensures var dV, dI := pre.voltageV - during.voltageV, AddedA(pre, peakCurrent);
            PlausibleDrop(pre, during, peakCurrent) <==> dI >= 0.3 && dV > 0.0 && 2.0 * dV <= dI
  {
    var dV, dI := pre.voltageV - during.voltageV, AddedA(pre, peakCurrent);
    if dI >= 0.3 {
      var q := dV / dI;
      QuotientIsPlausible(dV, dI, q);
    }
  }

  lemma QuotientIsPlausible(dV: real, dI: real, q: real)
    requires dI > 0.0 && q == dV / dI
    ensures Plausible(q * 1000.0) <==> dV > 0.0 && 2.0 * dV <= dI
  {
    assert q * dI == dV;
    SignOfProduct(q, dI);
    SignOfProduct(1.0 - 2.0 * q, dI);
    TwiceTimes(q, dI, dV);
  }

  lemma TwiceTimes(q: real, n: real, v: real)
    requires q * n == v
    ensures (1.0 - 2.0 * q) * n == n - 2.0 * v
  {
  }

  lemma SignOfProduct(a: real, b: real)
    requires b > 0.0
    ensures a > 0.0 <==> a * b > 0.0
    ensures a < 0.0 <==> a * b < 0.0
  {
  }

  /** What is recorded: one sample, stamped with the end of the transmission, whose resistance in milliohm
      times the added current is the voltage drop in millivolt, between the snapshots chosen. */
  lemma RecordedValue(r: Record, h: seq<BatterySnapshot>, ev: TxEvent)
    requires Visit(r, h, ev).samples != r.samples
    ensures var s := Visit(r, h, ev).samples;
            |s| == |r.samples| + 1 && s[..|r.samples|] == r.samples && s[|r.samples|].timestamp == ev.endTime
            && exists a: nat, b: nat ::
                 IsPre(h, ev.startTime, a) && IsDuring(h, ev.startTime, ev.endTime, b)
                 && s[|r.samples|].mohm * AddedA(h[a], ev.peakCurrent) == 1000.0 * (h[a].voltageV - h[b].voltageV)
  {
    hide PreIndex, DuringIndex, Trim;
    var a, b := PreIndex(h, ev.startTime).value, DuringIndex(h, ev.startTime, ev.endTime).value;
    var dV, dI := h[a].voltageV - h[b].voltageV, AddedA(h[a], ev.peakCurrent);
    assert dV / dI * dI == dV;
    assert IsPre(h, ev.startTime, a) && IsDuring(h, ev.startTime, ev.endTime, b);
  }
}
