/**
 The load profile: about an hour of power readings in a ring of 720, thinned to one reading per 2.5
 seconds, with its average, peak and idle level recomputed from the ring in storage order.
 */
module LoadProfile {
  import opened Windows

  const LOAD_N: nat := 720
  const IDLE_BELOW_W: real := 15.0

  datatype Offer = Offer(ts: nat, watts: real)

  /** The readings that are kept: one that comes less than 2.5 s after the last kept one is not. */
  function Accepted(offers: seq<Offer>): seq<Offer> {
    if offers == [] then []
    else
      var kept, last := Accepted(offers[..|offers| - 1]), offers[|offers| - 1];
      if kept != [] && (last.ts - kept[|kept| - 1].ts) as real < 2.5 then kept else kept + [last]
  }

  function Watts(s: seq<Offer>): (w: seq<real>)
    ensures |w| == |s|
  {
    seq(|s|, i requires 0 <= i < |s| => s[i].watts)
  }

  function Idle(w: seq<real>): seq<real> {
    if w == [] then [] else (if w[0] < IDLE_BELOW_W then [w[0]] else []) + Idle(w[1..])
  }

  /** A ring read from its oldest sample to its newest. */
  function Unroll(cells: seq<real>, head: nat, count: nat): seq<real>
    requires |cells| == LOAD_N && head < LOAD_N && count <= LOAD_N
  {
    if count < LOAD_N then cells[..count] else cells[head..] + cells[..head]
  }

  lemma UnrollAppends(cells: seq<real>, head: nat, count: nat, w: real)
    requires |cells| == LOAD_N && head < LOAD_N && count <= LOAD_N && (count < LOAD_N ==> head == count)
    ensures Unroll(cells[head := w], (head + 1) % LOAD_N, Min(count + 1, LOAD_N)) ==
              (if count == LOAD_N then Unroll(cells, head, count)[1..] else Unroll(cells, head, count)) + [w]
  {
    var after, next := cells[head := w], if head + 1 == LOAD_N then 0 else head + 1;
    assert next == (head + 1) % LOAD_N;
    if count == LOAD_N {
      RingOverwrites(cells, head, w);
    } else {
      RingFills(cells, head, w);
      if head + 1 == LOAD_N { WholeRing(after); }
    }
  }

  lemma WholeRing<T>(cells: seq<T>)
    ensures cells[0..] + cells[..0] == cells
  {
  }

  lemma RingFills<T>(cells: seq<T>, head: nat, w: T)
    requires head < |cells|
    ensures cells[head := w][..head + 1] == cells[..head] + [w]
    ensures head + 1 == |cells| ==> cells[head := w] == cells[..head] + [w]
  {
  }

  lemma RingOverwrites<T>(cells: seq<T>, head: nat, w: T)
    requires head < |cells|
    ensures var after, unrolled := cells[head := w], (cells[head..] + cells[..head])[1..];
            && unrolled == cells[head + 1..] + cells[..head]
            && after[head + 1..] + after[..head + 1] == unrolled + [w]
            && (head + 1 == |cells| ==> after[0..] + after[..0] == unrolled + [w])
  {
    var after := cells[head := w];
    RingFills(cells, head, w);
    assert after[head + 1..] == cells[head + 1..];
    WholeRing(after);
  }

  datatype Stats = Stats(avg: real, peak: real, idle: real)

  /** `p` is the largest reading, or 0 when no reading is positive. */
  ghost predicate IsPeak(p: real, w: seq<real>) {
    (forall i :: 0 <= i < |w| ==> w[i] <= p) && 0.0 <= p && (p == 0.0 || p in w)
  }

  ghost predicate AreStats(s: Stats, w: seq<real>)
    requires w != []
  {
    && s.avg == Average(w)
    && IsPeak(s.peak, w)
    && s.idle == if Idle(w) == [] then s.avg else Average(Idle(w))
  }

  lemma {:induction false} AcceptedAppend(offers: seq<Offer>, o: Offer)
    ensures var kept := Accepted(offers);
            Accepted(offers + [o]) ==
              if kept != [] && (o.ts - kept[|kept| - 1].ts) as real < 2.5 then kept else kept + [o]
  {
    assert (offers + [o])[..|offers|] == offers;
  }

  lemma WattsAppend(kept: seq<Offer>, o: Offer)
    ensures Watts(kept + [o]) == Watts(kept) + [o.watts]
  {
  }

  class LoadRing {
    const ring: array<real>
    var head: nat
    var count: nat
    var lastPushTs: int
    var stats: Stats
    ghost var offers: seq<Offer>

    ghost function Window(): seq<real>
      reads this
    {
      Last(Watts(Accepted(offers)), 720)
    }

    ghost predicate Valid()
      reads this, ring
    {
      var kept := Accepted(offers);
      && ring.Length == LOAD_N && head < LOAD_N && count == Min(|kept|, LOAD_N)
      && (count < LOAD_N ==> head == count)
      && Unroll(ring[..], head, count) == Window()
      && lastPushTs == if kept == [] then -1 else kept[|kept| - 1].ts
    }

    constructor ()
      ensures Valid() && offers == [] && fresh(ring) && stats == Stats(0.0, 0.0, 0.0)
    {
      ring := new real[LOAD_N](i => 0.0);
      head, count, lastPushTs, stats, offers := 0, 0, -1, Stats(0.0, 0.0, 0.0), [];
    }

    /** Offers a reading; the ring holds exactly the last 720 accepted ones. */
    method PushLoadSample(ts: nat, watts: real)
      requires Valid()
      modifies this`head, this`count, this`lastPushTs, this`offers, ring
      ensures Valid() && offers == old(offers) + [Offer(ts, watts)]
    {
      hide Accepted, Unroll, Last, Watts;
      ghost var kept := Accepted(offers);
      AcceptedAppend(offers, Offer(ts, watts));
      offers := offers + [Offer(ts, watts)];
      if lastPushTs >= 0 && (ts - lastPushTs) as real < 2.5 { return; }
      lastPushTs := ts;
      ghost var was := ring[..];
      WattsAppend(kept, Offer(ts, watts));
      LastSlides(Watts(kept), watts, LOAD_N);
      UnrollAppends(was, head, count, watts);
      ring[head] := watts;
      assert ring[..] == was[head := watts];
      head := (head + 1) % LOAD_N;
      if count < LOAD_N { count := count + 1; }
    }

    /** The occupied slots are the window, rotated. */
    lemma WindowIsRotated(k: nat)
      requires Valid() && k == if count < LOAD_N then 0 else head
      ensures Window() == ring[..count][k..] + ring[..count][..k]
    {
      hide Last, Watts, Accepted;
      if count == LOAD_N { assert ring[..count] == ring[..]; }
    }

    /** The statistics of the occupied slots, visited in storage order. */
    method ScanRing() returns (s: Stats)
      requires 0 < count <= ring.Length
      ensures AreStats(s, ring[..count])
    {
      hide Idle, Sum, IsPeak;
      var sum, peak, idleSum := 0.0, 0.0, 0.0;
      var idleN := 0;
      ghost var cells := ring[..count];
      NoCells();
      for i := 0 to count
        invariant sum == Sum(cells[..i]) && IsPeak(peak, cells[..i])
        invariant idleSum == Sum(Idle(cells[..i])) && idleN == |Idle(cells[..i])|
      {
        var w := ring[i];
        OneMore(cells, i);
        PeakAppend(peak, cells[..i], w);
        sum := sum + w;
        if w > peak { peak := w; }
        if w < IDLE_BELOW_W { idleSum, idleN := idleSum + w, idleN + 1; }
      }
      assert cells[..count] == cells;
      var avg := sum / count as real;
      s := Stats(avg, peak, if idleN > 0 then idleSum / idleN as real else avg);
    }

    /** The statistics of the window, although the loop visits the samples in storage order. */
    method RecomputeLoadStats()
      requires Valid()
      modifies this`stats
      ensures Valid()
      ensures if Window() == [] then stats == old(stats) else AreStats(stats, Window())
    {
      hide Accepted, Watts, Last, AreStats;
      if count == 0 { return; }
      var s := ScanRing();
      ghost var k := if count < LOAD_N then 0 else head;
      WindowIsRotated(k);
      StorageOrderIsIrrelevant(ring[..count], k, s);
      stats := s;
    }
  }

  lemma NoCells()
    ensures Sum([]) == 0.0 && Idle([]) == [] && IsPeak(0.0, [])
  {
  }

  lemma OneMore(cells: seq<real>, i: nat)
    requires i < |cells|
    ensures var a, w := cells[..i], cells[i];
            && cells[..i + 1] == a + [w] && Sum(a + [w]) == Sum(a) + w
            && Idle(a + [w]) == (if w < IDLE_BELOW_W then Idle(a) + [w] else Idle(a))
            && Sum(Idle(a + [w])) == if w < IDLE_BELOW_W then Sum(Idle(a)) + w else Sum(Idle(a))
  {
    var a, w := cells[..i], cells[i];
    SumAppend(a, w);
    IdleConcat(a, [w]);
    assert [w][1..] == [];
    assert Idle([w]) == if w < IDLE_BELOW_W then [w] else [];
    SumAppend(Idle(a), w);
  }

  lemma PeakAppend(p: real, a: seq<real>, w: real)
    requires IsPeak(p, a)
    ensures IsPeak(if w > p then w else p, a + [w])
  {
  }

  // ------------------------------------------------------------ storage order

  lemma {:induction false} IdleConcat(a: seq<real>, b: seq<real>)
    ensures Idle(a + b) == Idle(a) + Idle(b)
  {
    if a == [] {
      assert a + b == b;
    } else {
      assert (a + b)[1..] == a[1..] + b;
      IdleConcat(a[1..], b);
    }
  }

  lemma {:induction false} SumRotates(a: seq<real>, b: seq<real>)
    ensures Sum(b + a) == Sum(a + b)
  {
    SumConcat(a, b);
    SumConcat(b, a);
  }

  lemma AverageRotates(a: seq<real>, b: seq<real>)
    requires a + b != []
    ensures b + a != [] && Average(b + a) == Average(a + b)
  {
    hide Sum;
    SumRotates(a, b);
  }

  lemma {:induction false} IdleRotates(a: seq<real>, b: seq<real>)
    ensures Idle(b + a) == [] <==> Idle(a + b) == []
    ensures Idle(a + b) != [] ==> Average(Idle(b + a)) == Average(Idle(a + b))
  {
    hide Idle, Average;
    IdleConcat(a, b);
    IdleConcat(b, a);
    if Idle(a) + Idle(b) != [] { AverageRotates(Idle(a), Idle(b)); }
  }

  /** Rotating a window changes none of its statistics. */
  lemma StorageOrderIsIrrelevant(w: seq<real>, k: nat, s: Stats)
    requires k <= |w| && w != [] && AreStats(s, w)
    ensures AreStats(s, w[k..] + w[..k])
  {
    hide Average, Idle, IsPeak;
    var a, b := w[..k], w[k..];
    assert w == a + b;
    AverageRotates(a, b);
    IdleRotates(a, b);
    PeakRotates(s.peak, a, b);
  }

  lemma PeakRotates(p: real, a: seq<real>, b: seq<real>)
    requires IsPeak(p, a + b)
    ensures IsPeak(p, b + a)
  {
    forall i | 0 <= i < |b + a| ensures (b + a)[i] <= p {
      assert (b + a)[i] in a + b;
    }
  }

  // ------------------------------------------------------------ what the readings promise

  ghost predicate Spaced(k: seq<Offer>) {
    forall i, j :: 0 <= i < j < |k| ==> (k[j].ts - k[i].ts) as real >= 2.5
  }

  lemma SpacedAppend(k: seq<Offer>, o: Offer)
    requires Spaced(k) && (k != [] ==> (o.ts - k[|k| - 1].ts) as real >= 2.5)
    ensures Spaced(k + [o])
  {
    forall i | 0 <= i < |k| ensures (o.ts - k[i].ts) as real >= 2.5 {
      if i < |k| - 1 { assert (k[|k| - 1].ts - k[i].ts) as real >= 2.5; }
    }
  }

  /** Accepted readings are spaced by at least 2.5 s, whatever order the timestamps arrive in. */
  lemma {:induction false} AcceptedAreSpaced(offers: seq<Offer>)
    ensures Spaced(Accepted(offers))
  {
    if offers != [] {
      AcceptedAreSpaced(offers[..|offers| - 1]);
      var kept, last := Accepted(offers[..|offers| - 1]), offers[|offers| - 1];
      if Accepted(offers) != kept { SpacedAppend(kept, last); }
    }
  }

  lemma Grow(n: real, m: real, x: real)
    requires m == n + 1.0
    ensures m * x == n * x + x
  {
  }

  /** The idle readings and the others: their counts and sums add up. */
  lemma {:induction false} IdleSplit(w: seq<real>)
    ensures |Idle(w)| <= |w|
    ensures Sum(Idle(w)) <= IDLE_BELOW_W * |Idle(w)| as real
    ensures Sum(w) - Sum(Idle(w)) >= IDLE_BELOW_W * (|w| - |Idle(w)|) as real
  {
    if w != [] {
      var t := w[1..];
      IdleSplit(t);
      assert Idle(w) == (if w[0] < IDLE_BELOW_W then [w[0]] + Idle(t) else Idle(t));
      if w[0] < IDLE_BELOW_W {
        assert Idle(w)[1..] == Idle(t);
        assert |Idle(w)| as real == |Idle(t)| as real + 1.0;
      }
      assert (|w| - |Idle(w)|) as real == (|t| - |Idle(t)|) as real + if w[0] < IDLE_BELOW_W then 0.0 else 1.0;
    }
  }

  lemma Quotients(s: real, n: real, t: real, m: real)
    requires 0.0 < n <= m && s <= IDLE_BELOW_W * n && t - s >= IDLE_BELOW_W * (m - n)
    ensures s / n <= t / m
  {
    var p, q := s / n, t / m;
    assert p * n == s && q * m == t;
    assert p <= IDLE_BELOW_W by { if p > IDLE_BELOW_W { Scale(p, IDLE_BELOW_W, n); } }
    if p > q {
      Scale(p, q, m);
      assert p * m == p * n + p * (m - n);
      if m > n && p < IDLE_BELOW_W { Scale(IDLE_BELOW_W, p, m - n); }
    }
  }

  lemma Scale(a: real, b: real, n: real)
    requires a > b && n > 0.0
    ensures a * n > b * n
  {
  }

  lemma AtMost(t: real, m: real, p: real)
    requires m > 0.0 && t <= m * p
    ensures t / m <= p
  {
    var q := t / m;
    assert q * m == t;
    if q > p { Scale(q, p, m); }
  }

  /** After every recompute, idle <= average <= peak. */
  lemma StatsAreOrdered(s: Stats, w: seq<real>)
    requires w != [] && AreStats(s, w)
    ensures s.idle <= s.avg <= s.peak
  {
    hide Sum, Idle;
    IdleSplit(w);
    if Idle(w) != [] {
      Quotients(Sum(Idle(w)), |Idle(w)| as real, Sum(w), |w| as real);
    }
    SumAtMost(w, s.peak);
    AtMost(Sum(w), |w| as real, s.peak);
  }

  lemma {:induction false} SumAtMost(w: seq<real>, hi: real)
    requires forall i :: 0 <= i < |w| ==> w[i] <= hi
    ensures Sum(w) <= |w| as real * hi
  {
    if w != [] {
      SumAtMost(w[1..], hi);
      Grow(|w[1..]| as real, |w| as real, hi);
    }
  }

  /** A reading is turned away only for one accepted before it and less than 2.5 s older. */
  lemma {:induction false} TurnedAwayIsClose(offers: seq<Offer>, i: nat)
    requires i < |offers|
    ensures var kept := Accepted(offers[..i]);
            || (|Accepted(offers)| > |kept| && Accepted(offers)[|kept|] == offers[i])
            || (kept != [] && (offers[i].ts - kept[|kept| - 1].ts) as real < 2.5)
    ensures Accepted(offers[..i]) <= Accepted(offers)
  {
    var n := |offers| - 1;
    if i < n {
      TurnedAwayIsClose(offers[..n], i);
      assert offers[..n][..i] == offers[..i];
    }
  }

  /** The idle readings are exactly those below 15 W, each as often as it was read. */
  lemma {:induction false} IdleMeaning(w: seq<real>, x: real)
    ensures multiset(Idle(w))[x] == if x < 15.0 then multiset(w)[x] else 0
  {
    if w != [] {
      assert w == [w[0]] + w[1..];
      IdleMeaning(w[1..], x);
    }
  }

  /** The averages in whole sums: of all readings, and of the idle ones when there are some. */
  lemma {:induction false} StatsBalance(s: Stats, w: seq<real>)
    requires w != [] && AreStats(s, w)
    ensures s.avg * |w| as real == Sum(w)
    ensures if Idle(w) == [] then s.idle == s.avg else s.idle * |Idle(w)| as real == Sum(Idle(w))
    ensures s.peak >= 0.0 && (forall i :: 0 <= i < |w| ==> w[i] <= s.peak) && (s.peak > 0.0 ==> s.peak in w)
  {
    hide Sum, Idle;
    AverageTimesSize(w);
    if Idle(w) != [] { AverageTimesSize(Idle(w)); }
  }

  lemma {:induction false} AverageTimesSize(w: seq<real>)
    requires w != []
    ensures Average(w) * |w| as real == Sum(w)
  {
    hide Sum;
    var q := Sum(w) / |w| as real;
    assert q * |w| as real == Sum(w);
  }
}
