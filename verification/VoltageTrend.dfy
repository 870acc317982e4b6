/**
 Voltage and state-of-charge trends: a least-squares slope over the last 12 samples, kept by
 running sums that are corrected when a sample enters and when one leaves a ring buffer.

 `TrendRing` is the object; `TrendOf` says what it computes in textbook terms (deviations from the
 mean, sums over pairs), and the lemmas relate the two and draw the consequences.
 */
module VoltageTrend {
  import opened Windows

  const VOLTAGE_N: nat := 12

  /** The ring slot of the i-th sample ever pushed. */
  function Slot(i: nat): (k: nat)
    ensures k < VOLTAGE_N
  {
    i % VOLTAGE_N
  }

  datatype Trend = Unknown | Up | Down | Stable

  datatype Sample = Sample(ts: real, v: real, soc: real)

  datatype Point = Point(x: real, y: real)

  /** The sums a regression needs: of x, of y, of x squared and of x times y. */
  datatype Moments = Moments(x: real, y: real, x2: real, xy: real) {
    function Plus(p: Point): Moments {
      Moments(x + p.x, y + p.y, x2 + p.x * p.x, xy + p.x * p.y)
    }

    function Minus(p: Point): Moments {
      Moments(x - p.x, y - p.y, x2 - p.x * p.x, xy - p.x * p.y)
    }

    /** n times the sum of squared deviations, as the program computes it. */
    function Denominator(n: real): real {
      n * x2 - x * x
    }

    function Numerator(n: real): real {
      n * xy - x * y
    }
  }

  const NONE := Moments(0.0, 0.0, 0.0, 0.0)

  function MomentsOf(ps: seq<Point>): Moments {
    if ps == [] then NONE else MomentsOf(ps[1..]).Plus(ps[0])
  }

  function VPoints(w: seq<Sample>): (ps: seq<Point>)
    ensures |ps| == |w|
  {
    seq(|w|, i requires 0 <= i < |w| => Point(w[i].ts, w[i].v))
  }

  function SPoints(w: seq<Sample>): (ps: seq<Point>)
    ensures |ps| == |w|
  {
    seq(|w|, i requires 0 <= i < |w| => Point(w[i].ts, w[i].soc))
  }

  // ------------------------------------------------------------ the textbook regression

  function Size(ps: seq<Point>): real {
    |ps| as real
  }

  function Deviation(c: Point, p: Point): real {
    (c.x - p.x) * (c.y - p.y)
  }

  /** Sum of the products of deviations from `c`. */
  function DeviationProduct(c: Point, ps: seq<Point>): real {
    if ps == [] then 0.0 else Deviation(c, ps[0]) + DeviationProduct(c, ps[1..])
  }

  function Mean(ps: seq<Point>): Point
    requires ps != []
  {
    Point(MomentsOf(ps).x / Size(ps), MomentsOf(ps).y / Size(ps))
  }

  /** The points (x, x), so that a squared deviation is a product of deviations. */
  function Diagonal(ps: seq<Point>): (ds: seq<Point>)
    ensures |ds| == |ps|
  {
    seq(|ps|, i requires 0 <= i < |ps| => Point(ps[i].x, ps[i].x))
  }

  function Scaled(k: real, a: real): real {
    k * a
  }

  function Ratio(a: real, b: real): real
    requires b != 0.0
  {
    a / b
  }

  /** The centred form of the least-squares slope. */
  function CentredSlope(ps: seq<Point>): real
    requires ps != [] && DeviationProduct(Mean(Diagonal(ps)), Diagonal(ps)) != 0.0
  {
    Ratio(DeviationProduct(Mean(ps), ps), DeviationProduct(Mean(Diagonal(ps)), Diagonal(ps)))
  }

  /** Sum over all pairs i < j of (x_i - x_j) * (y_i - y_j). */
  function PairSum(ps: seq<Point>): real {
    if ps == [] then 0.0 else DeviationProduct(ps[0], ps[1..]) + PairSum(ps[1..])
  }

  /** Sum over all pairs of the squared distance in time. */
  function Spread(ps: seq<Point>): real {
    PairSum(Diagonal(ps))
  }

  function Classify(slope: real, eps: real): Trend {
    if slope > eps then Up else if slope < -eps then Down else Stable
  }

  ghost function Slope(ps: seq<Point>): real
    requires ps != [] && Spread(ps) != 0.0
  {
    SpreadIsCentred(ps);
    CentredSlope(ps)
  }

  /** What the trend display means. */
  ghost function TrendOf(ps: seq<Point>, eps: real): Trend {
    if |ps| < 6 then Unknown
    else if Spread(ps) < 0.000001 then Stable
    else Classify(Slope(ps), eps)
  }

  // ------------------------------------------------------------ the ring

  class TrendRing {
    const vRing: array<real>
    const socRing: array<real>
    const tsRing: array<real>
    var head: nat
    var count: nat
    var vSums: Moments
    var sSums: Moments
    var voltageTrend: Trend
    var socTrend: Trend
    var socRatePctPerH: real
    ghost var history: seq<Sample>

    ghost function Window(): seq<Sample>
      reads this
    {
      Last(history, 12)
    }

    ghost predicate Valid()
      reads this, vRing, socRing, tsRing
    {
      && vRing.Length == socRing.Length == tsRing.Length == VOLTAGE_N
      && vRing != socRing && vRing != tsRing && socRing != tsRing
      && count == Min(|history|, VOLTAGE_N)
      && head == Slot(|history|)
      && (forall i :: |history| - count <= i < |history| ==>
            Sample(tsRing[Slot(i)], vRing[Slot(i)], socRing[Slot(i)]) == history[i])
      && vSums == MomentsOf(VPoints(Window()))
      && sSums == MomentsOf(SPoints(Window()))
    }

    constructor ()
      ensures Valid() && history == []
      ensures fresh(vRing) && fresh(socRing) && fresh(tsRing)
    {
      vRing := new real[VOLTAGE_N](i => 0.0);
      socRing := new real[VOLTAGE_N](i => 0.0);
      tsRing := new real[VOLTAGE_N](i => 0.0);
      head, count := 0, 0;
      vSums, sSums := NONE, NONE;
      voltageTrend, socTrend, socRatePctPerH := Unknown, Unknown, 0.0;
      history := [];
    }

    /** Records a sample; the running sums stay the sums over the last 12 samples. */
    method PushVoltageSocSample(ts: real, v: real, soc: real)
      requires Valid()
      modifies this, vRing, socRing, tsRing
      ensures Valid() && history == old(history) + [Sample(ts, v, soc)]
      ensures voltageTrend == old(voltageTrend) && socTrend == old(socTrend)
      ensures socRatePctPerH == old(socRatePctPerH)
    {
      hide Moments.Plus, Moments.Minus, MomentsOf, Slot, Last, VPoints, SPoints;
      ghost var w, s := Window(), Sample(ts, v, soc);
      WindowMoments(history, s);
      if count == VOLTAGE_N {
        var oldTs, oldV, oldSoc := tsRing[head], vRing[head], socRing[head];
        OldestSlot(history);
        assert Sample(oldTs, oldV, oldSoc) == w[0];
        vSums := vSums.Minus(Point(oldTs, oldV));
        sSums := sSums.Minus(Point(oldTs, oldSoc));
      }
      vRing[head] := v;
      socRing[head] := soc;
      tsRing[head] := ts;
      vSums := vSums.Plus(Point(ts, v));
      sSums := sSums.Plus(Point(ts, soc));
      OtherSlots(|history|);
      head := (head + 1) % VOLTAGE_N;
      if count < VOLTAGE_N { count := count + 1; }
      history := history + [s];
    }

    method ComputeVoltageTrend()
      requires Valid()
      modifies this`voltageTrend
      ensures Valid() && voltageTrend == TrendOf(VPoints(Window()), 0.000001)
    {
      ghost var ps := VPoints(Window());
      if count < 6 {
        voltageTrend := Unknown;
        return;
      }
      var n := count as real;
      var denominator := vSums.Denominator(n);
      PairIdentities(ps);
      if denominator < 0.000001 {
        voltageTrend := Stable;
        return;
      }
      var slope := vSums.Numerator(n) / denominator;
      SlopeIsCentred(ps);
      voltageTrend := Classify(slope, 0.000001);
    }

    method ComputeSocTrend()
      requires Valid()
      modifies this`socTrend, this`socRatePctPerH
      ensures Valid() && socTrend == TrendOf(SPoints(Window()), 0.00001)
      ensures |Window()| < 6 || Spread(SPoints(Window())) < 0.000001 ==> socRatePctPerH == 0.0
      ensures |Window()| >= 6 && Spread(SPoints(Window())) >= 0.000001 ==>
                socRatePctPerH == Slope(SPoints(Window())) * 3600.0
    {
      ghost var ps := SPoints(Window());
      if count < 6 {
        socTrend, socRatePctPerH := Unknown, 0.0;
        return;
      }
      var n := count as real;
      var denominator := sSums.Denominator(n);
      PairIdentities(ps);
      if denominator < 0.000001 {
        socTrend, socRatePctPerH := Stable, 0.0;
        return;
      }
      var slope := sSums.Numerator(n) / denominator;
      SlopeIsCentred(ps);
      socRatePctPerH := slope * 3600.0;
      socTrend := Classify(slope, 0.00001);
    }
  }

  // ------------------------------------------------------------ ring arithmetic

  lemma OldestSlot(history: seq<Sample>)
    requires |history| >= VOLTAGE_N
    ensures Slot(|history| - VOLTAGE_N) == Slot(|history|)
    ensures Last(history, VOLTAGE_N)[0] == history[|history| - VOLTAGE_N]
  {
  }

  /** Writing the slot of sample n overwrites none of the 11 samples before sample n. */
  lemma OtherSlots(n: nat)
    ensures forall i: nat :: n - VOLTAGE_N < i < n ==> Slot(i) != Slot(n)
    ensures (Slot(n) + 1) % VOLTAGE_N == Slot(n + 1)
  {
  }

  lemma PlusLaws(m: Moments, p: Point, q: Point)
    ensures m.Plus(p).Plus(q) == m.Plus(q).Plus(p)
    ensures m.Plus(p).Minus(p) == m
  {
  }

  lemma {:induction false} MomentsAppend(ps: seq<Point>, p: Point)
    ensures MomentsOf(ps + [p]) == MomentsOf(ps).Plus(p)
  {
    hide Moments.Plus;
    if ps == [] {
      assert ps + [p] == [p];
      assert [p][1..] == [];
    } else {
      assert (ps + [p])[1..] == ps[1..] + [p];
      MomentsAppend(ps[1..], p);
      PlusLaws(MomentsOf(ps[1..]), ps[0], p);
    }
  }

  /** One sample in and, when the window is full, the oldest one out. */
  lemma {:induction false} SlideMoments(ps: seq<Point>, p: Point, full: bool)
    requires full ==> ps != []
    ensures MomentsOf((if full then ps[1..] else ps) + [p]) ==
              (if full then MomentsOf(ps).Minus(ps[0]) else MomentsOf(ps)).Plus(p)
  {
    MomentsAppend(if full then ps[1..] else ps, p);
    hide Moments.Plus, Moments.Minus;
    if full { PlusLaws(MomentsOf(ps[1..]), ps[0], p); }
  }

  lemma WindowMoments(history: seq<Sample>, s: Sample)
    ensures var w, full := Last(history, VOLTAGE_N), |history| >= VOLTAGE_N;
            && MomentsOf(VPoints(Last(history + [s], VOLTAGE_N))) ==
                 (if full then MomentsOf(VPoints(w)).Minus(Point(w[0].ts, w[0].v)) else MomentsOf(VPoints(w)))
                 .Plus(Point(s.ts, s.v))
            && MomentsOf(SPoints(Last(history + [s], VOLTAGE_N))) ==
                 (if full then MomentsOf(SPoints(w)).Minus(Point(w[0].ts, w[0].soc)) else MomentsOf(SPoints(w)))
                 .Plus(Point(s.ts, s.soc))
  {
    hide Moments.Plus, Moments.Minus, MomentsOf;
    var w, full := Last(history, VOLTAGE_N), |history| >= VOLTAGE_N;
    LastSlides(history, s, VOLTAGE_N);
    SlideMoments(VPoints(w), Point(s.ts, s.v), full);
    SlideMoments(SPoints(w), Point(s.ts, s.soc), full);
    var w' := Last(history + [s], VOLTAGE_N);
    assert VPoints(w') == (if full then VPoints(w)[1..] else VPoints(w)) + [Point(s.ts, s.v)];
    assert SPoints(w') == (if full then SPoints(w)[1..] else SPoints(w)) + [Point(s.ts, s.soc)];
  }

  // ------------------------------------------------------------ the algebra

  /** A sum of products of deviations, multiplied out. */
  function Expansion(n: real, c: Point, m: Moments): real {
    n * (c.x * c.y) - c.x * m.y - c.y * m.x + m.xy
  }

  lemma DeviationStep(c: Point, p: Point, n: real, m: Moments)
    ensures Deviation(c, p) + Expansion(n, c, m) == Expansion(n + 1.0, c, m.Plus(p))
  {
  }

  lemma {:induction false} DeviationsExpand(c: Point, ps: seq<Point>)
    ensures DeviationProduct(c, ps) == Expansion(Size(ps), c, MomentsOf(ps))
  {
    if ps != [] {
      DeviationsExpand(c, ps[1..]);
      hide Moments.Plus, Expansion, Deviation;
      DeviationStep(c, ps[0], Size(ps[1..]), MomentsOf(ps[1..]));
    }
  }

  lemma NumeratorStep(p: Point, n: real, m: Moments)
    ensures m.Plus(p).Numerator(n + 1.0) == Expansion(n, p, m) + m.Numerator(n)
  {
  }

  lemma NothingToDivide()
    ensures NONE.Numerator(0.0) == 0.0
  {
  }

  /** Lagrange's identity: the numerator the program computes is the sum over pairs. */
  lemma {:induction false} NumeratorIsPairSum(ps: seq<Point>)
    ensures MomentsOf(ps).Numerator(Size(ps)) == PairSum(ps)
  {
    hide Deviation, DeviationProduct, Expansion, Moments.Plus, Moments.Numerator;
    if ps == [] {
      NothingToDivide();
    } else {
      NumeratorIsPairSum(ps[1..]);
      DeviationsExpand(ps[0], ps[1..]);
      NumeratorStep(ps[0], Size(ps[1..]), MomentsOf(ps[1..]));
    }
  }

  lemma DiagonalStep(d: Moments, m: Moments, p: Point)
    requires d.xy == m.x2 && d.x == d.y == m.x
    ensures d.Plus(Point(p.x, p.x)).xy == m.Plus(p).x2
    ensures d.Plus(Point(p.x, p.x)).x == d.Plus(Point(p.x, p.x)).y == m.Plus(p).x
  {
  }

  lemma {:induction false} DiagonalMoments(ps: seq<Point>)
    ensures MomentsOf(Diagonal(ps)).xy == MomentsOf(ps).x2
    ensures MomentsOf(Diagonal(ps)).x == MomentsOf(Diagonal(ps)).y == MomentsOf(ps).x
  {
    hide Moments.Plus;
    if ps != [] {
      DiagonalMoments(ps[1..]);
      assert Diagonal(ps)[1..] == Diagonal(ps[1..]);
      DiagonalStep(MomentsOf(Diagonal(ps[1..])), MomentsOf(ps[1..]), ps[0]);
    }
  }

  lemma {:induction false} SpreadNonNegative(ps: seq<Point>)
    ensures Spread(ps) >= 0.0
  {
    if ps != [] {
      SpreadNonNegative(ps[1..]);
      assert Diagonal(ps)[1..] == Diagonal(ps[1..]);
      SquaresNonNegative(Diagonal(ps)[0], ps[1..]);
    }
  }

  lemma {:induction false} SquaresNonNegative(c: Point, ps: seq<Point>)
    requires c.x == c.y
    ensures DeviationProduct(c, Diagonal(ps)) >= 0.0
  {
    hide Deviation;
    if ps != [] {
      SquaresNonNegative(c, ps[1..]);
      assert Diagonal(ps)[1..] == Diagonal(ps[1..]);
      SquareNonNegative(c, Diagonal(ps)[0]);
    }
  }

  lemma SquareNonNegative(c: Point, p: Point)
    requires c.x == c.y && p.x == p.y
    ensures Deviation(c, p) >= 0.0
  {
    SameSign(c.x - p.x, c.x - p.x);
  }

  lemma SameSign(a: real, b: real)
    requires (a >= 0.0 && b >= 0.0) || (a <= 0.0 && b <= 0.0)
    ensures a * b >= 0.0
  {
  }

  /** Both quantities the program divides, as sums over pairs of samples. */
  lemma {:induction false} PairIdentities(ps: seq<Point>)
    ensures MomentsOf(ps).Numerator(Size(ps)) == PairSum(ps)
    ensures MomentsOf(ps).Denominator(Size(ps)) == Spread(ps) >= 0.0
  {
    NumeratorIsPairSum(ps);
    NumeratorIsPairSum(Diagonal(ps));
    DiagonalMoments(ps);
    SpreadNonNegative(ps);
    hide PairSum, MomentsOf;
  }

  lemma CentredStep(n: real, m: Moments, a: real, b: real)
    requires n * a == m.x && n * b == m.y
    ensures Scaled(n, Expansion(n, Point(a, b), m)) == m.Numerator(n)
  {
    assert n * (a * m.y) == m.x * m.y;
    assert n * (b * m.x) == m.x * m.y;
    assert n * (n * (a * b)) == (n * a) * (n * b);
  }

  lemma {:induction false} MeanTimesSize(ps: seq<Point>)
    requires ps != []
    ensures Size(ps) * Mean(ps).x == MomentsOf(ps).x && Size(ps) * Mean(ps).y == MomentsOf(ps).y
  {
    hide MomentsOf;
  }

  /** Deviations from the mean: n times their sum of products is the sum over pairs. */
  lemma {:induction false} CentredIsPairSum(ps: seq<Point>)
    requires ps != []
    ensures Scaled(Size(ps), DeviationProduct(Mean(ps), ps)) == PairSum(ps)
  {
    hide MomentsOf, Moments.Numerator, PairSum, DeviationProduct, Mean, Size, Expansion, Scaled;
    DeviationsExpand(Mean(ps), ps);
    NumeratorIsPairSum(ps);
    MeanTimesSize(ps);
    CentredStep(Size(ps), MomentsOf(ps), Mean(ps).x, Mean(ps).y);
  }

  lemma SpreadIsCentred(ps: seq<Point>)
    requires ps != []
    ensures Scaled(Size(ps), DeviationProduct(Mean(Diagonal(ps)), Diagonal(ps))) == Spread(ps)
    ensures Spread(ps) != 0.0 ==> DeviationProduct(Mean(Diagonal(ps)), Diagonal(ps)) != 0.0
  {
    hide PairSum, DeviationProduct, Mean;
    CentredIsPairSum(Diagonal(ps));
  }

  lemma CancelFactor(n: real, a: real, b: real, na: real, nb: real)
    requires n > 0.0 && b != 0.0 && Scaled(n, a) == na && Scaled(n, b) == nb && nb != 0.0
    ensures Ratio(na, nb) == Ratio(a, b)
  {
    var q := a / b;
    assert q * b == a;
    assert q * (n * b) == n * (q * b);
    assert q * nb == na;
  }

  /** The quotient of sums over pairs is the centred slope. */
  lemma {:induction false} SlopeIsCentred(ps: seq<Point>)
    requires ps != [] && Spread(ps) > 0.0
    ensures Ratio(PairSum(ps), Spread(ps)) == Slope(ps)
  {
    CentredIsPairSum(ps);
    SpreadIsCentred(ps);
    hide PairSum, DeviationProduct, Mean, Spread, Ratio, Scaled;
    CancelFactor(Size(ps), DeviationProduct(Mean(ps), ps), DeviationProduct(Mean(Diagonal(ps)), Diagonal(ps)),
                 PairSum(ps), Spread(ps));
  }

  // ------------------------------------------------------------ consequences

  /** Pairwise agreement of two orderings, sign +1, or disagreement, sign -1. */
  ghost predicate Ordered(ps: seq<Point>, sign: real) {
    forall i, j :: 0 <= i < j < |ps| ==> ps[i].x <= ps[j].x && sign * ps[i].y <= sign * ps[j].y
  }

  lemma SignedStep(sign: real, c: Point, p: Point, rest: real, all: real)
    requires c.x <= p.x && sign * c.y <= sign * p.y
    requires all == Deviation(c, p) + rest && sign * rest >= 0.0
    ensures sign * all >= 0.0
  {
    SameSign(p.x - c.x, sign * p.y - sign * c.y);
    assert sign * ((c.x - p.x) * (c.y - p.y)) == (p.x - c.x) * (sign * p.y - sign * c.y);
  }

  lemma SignedSum(sign: real, a: real, b: real)
    requires sign * a >= 0.0 && sign * b >= 0.0
    ensures sign * (a + b) >= 0.0
  {
  }

  lemma {:induction false} ChebyshevHead(c: Point, ps: seq<Point>, sign: real)
    requires forall j :: 0 <= j < |ps| ==> c.x <= ps[j].x && sign * c.y <= sign * ps[j].y
    ensures sign * DeviationProduct(c, ps) >= 0.0
  {
    if ps != [] {
      ChebyshevHead(c, ps[1..], sign);
      SignedStep(sign, c, ps[0], DeviationProduct(c, ps[1..]), DeviationProduct(c, ps));
    }
  }

  /** Chebyshev's sum inequality, for both directions. */
  lemma {:induction false} Chebyshev(ps: seq<Point>, sign: real)
    requires Ordered(ps, sign)
    ensures sign * PairSum(ps) >= 0.0
  {
    if ps != [] {
      Chebyshev(ps[1..], sign);
      ChebyshevHead(ps[0], ps[1..], sign);
      SignedSum(sign, DeviationProduct(ps[0], ps[1..]), PairSum(ps[1..]));
    }
  }

  lemma QuotientSign(a: real, b: real)
    requires b > 0.0
    ensures a >= 0.0 ==> Ratio(a, b) >= 0.0
    ensures a <= 0.0 ==> Ratio(a, b) <= 0.0
  {
    var q := a / b;
    assert q * b == a;
  }

  lemma QuotientAgainst(a: real, b: real, eps: real)
    requires b > 0.0
    ensures Ratio(a, b) > eps <==> a > eps * b
    ensures Ratio(a, b) < -eps <==> a < -eps * b
  {
    var q := a / b;
    assert q * b == a;
    MultiplyThrough(q, eps, b);
    MultiplyThrough(-eps, q, b);
  }

  lemma MultiplyThrough(x: real, y: real, b: real)
    requires b > 0.0
    ensures x > y <==> x * b > y * b
  {
    if x > y {
      assert (x - y) * b > 0.0;
    } else if x < y {
      assert (y - x) * b > 0.0;
    }
  }

  /** What is shown, without a division: it takes six samples; samples that lie too close in time show
      "stable"; otherwise the sum over pairs is compared with `eps` times the spread. */
  lemma {:induction false} TrendIff(ps: seq<Point>, eps: real)
    requires eps >= 0.0
    ensures TrendOf(ps, eps) == Unknown <==> |ps| < 6
    ensures TrendOf(ps, eps) == Up <==> |ps| >= 6 && Spread(ps) >= 0.000001 && PairSum(ps) > eps * Spread(ps)
    ensures TrendOf(ps, eps) == Down <==> |ps| >= 6 && Spread(ps) >= 0.000001 && PairSum(ps) < -eps * Spread(ps)
    ensures TrendOf(ps, eps) == Stable <==>
              |ps| >= 6 && (Spread(ps) < 0.000001 || -eps * Spread(ps) <= PairSum(ps) <= eps * Spread(ps))
  {
    hide PairSum, Spread, Slope, Ratio;
    if |ps| >= 6 && Spread(ps) >= 0.000001 {
      SlopeIsCentred(ps);
      QuotientAgainst(PairSum(ps), Spread(ps), eps);
      if eps > 0.0 {
        MultiplyThrough(eps, -eps, Spread(ps));
      }
    }
  }

  /** A window that does not fall over time never shows "down"; one that does not rise never
      shows "up". */
  lemma TrendFollowsOrder(ps: seq<Point>, eps: real)
    requires eps >= 0.0
    ensures Ordered(ps, 1.0) ==> TrendOf(ps, eps) != Down
    ensures Ordered(ps, -1.0) ==> TrendOf(ps, eps) != Up
  {
    hide PairSum, Spread, Slope;
    if |ps| >= 6 && Spread(ps) >= 0.000001 {
      SlopeIsCentred(ps);
      QuotientSign(PairSum(ps), Spread(ps));
      if Ordered(ps, 1.0) { Chebyshev(ps, 1.0); }
      if Ordered(ps, -1.0) { Chebyshev(ps, -1.0); }
    }
  }

  function Shifted(ps: seq<Point>, dx: real, dy: real): (qs: seq<Point>)
    ensures |qs| == |ps|
  {
    seq(|ps|, i requires 0 <= i < |ps| => Point(ps[i].x + dx, ps[i].y + dy))
  }

  lemma {:induction false} ShiftDeviations(c: Point, ps: seq<Point>, dx: real, dy: real)
    ensures DeviationProduct(Point(c.x + dx, c.y + dy), Shifted(ps, dx, dy)) == DeviationProduct(c, ps)
  {
    if ps != [] {
      ShiftDeviations(c, ps[1..], dx, dy);
      assert Shifted(ps, dx, dy)[1..] == Shifted(ps[1..], dx, dy);
    }
  }

  lemma {:induction false} ShiftPairs(ps: seq<Point>, dx: real, dy: real)
    ensures PairSum(Shifted(ps, dx, dy)) == PairSum(ps)
  {
    if ps != [] {
      ShiftPairs(ps[1..], dx, dy);
      assert Shifted(ps, dx, dy)[1..] == Shifted(ps[1..], dx, dy);
      ShiftDeviations(ps[0], ps[1..], dx, dy);
    }
  }

  /** The choice of clock origin, or of a constant sensor offset, does not change the trend. */
  lemma TrendIgnoresOrigin(ps: seq<Point>, dx: real, dy: real, eps: real)
    ensures TrendOf(Shifted(ps, dx, dy), eps) == TrendOf(ps, eps)
  {
    var qs := Shifted(ps, dx, dy);
    ShiftPairs(ps, dx, dy);
    assert Diagonal(qs) == Shifted(Diagonal(ps), dx, dx);
    ShiftPairs(Diagonal(ps), dx, dx);
    assert Spread(qs) == Spread(ps);
    hide PairSum, Spread, Slope;
    if |ps| >= 6 && Spread(ps) >= 0.000001 {
      SlopeIsCentred(ps);
      SlopeIsCentred(qs);
    }
  }

  function LineAt(slope: real, offset: real, x: real): real {
    slope * x + offset
  }

  ghost predicate OnLine(ps: seq<Point>, slope: real, offset: real) {
    forall i :: 0 <= i < |ps| ==> ps[i].y == LineAt(slope, offset, ps[i].x)
  }

  lemma LineStep(slope: real, offset: real, c: Point, p: Point)
    requires c.y == LineAt(slope, offset, c.x) && p.y == LineAt(slope, offset, p.x)
    ensures Deviation(c, p) == Scaled(slope, Deviation(Point(c.x, c.x), Point(p.x, p.x)))
  {
  }

  lemma Distribute(k: real, a: real, b: real)
    ensures Scaled(k, a) + Scaled(k, b) == Scaled(k, a + b)
    ensures Scaled(k, 0.0) == 0.0
  {
  }

  lemma {:induction false} LineDeviations(c: Point, ps: seq<Point>, slope: real, offset: real)
    requires OnLine(ps, slope, offset) && c.y == LineAt(slope, offset, c.x)
    ensures DeviationProduct(c, ps) == Scaled(slope, DeviationProduct(Point(c.x, c.x), Diagonal(ps)))
  {
    hide LineAt, Scaled, Deviation;
    if ps == [] {
      Distribute(slope, 0.0, 0.0);
    } else {
      LineDeviations(c, ps[1..], slope, offset);
      assert Diagonal(ps)[1..] == Diagonal(ps[1..]);
      LineStep(slope, offset, c, ps[0]);
      Distribute(slope, Deviation(Point(c.x, c.x), Diagonal(ps)[0]),
                 DeviationProduct(Point(c.x, c.x), Diagonal(ps[1..])));
    }
  }

  lemma {:induction false} LinePairs(ps: seq<Point>, slope: real, offset: real)
    requires OnLine(ps, slope, offset)
    ensures PairSum(ps) == Scaled(slope, Spread(ps))
  {
    hide LineAt, Scaled, DeviationProduct;
    if ps == [] {
      Distribute(slope, 0.0, 0.0);
    } else {
      LinePairs(ps[1..], slope, offset);
      LineDeviations(ps[0], ps[1..], slope, offset);
      assert Diagonal(ps)[1..] == Diagonal(ps[1..]);
      Distribute(slope, DeviationProduct(Diagonal(ps)[0], Diagonal(ps[1..])), Spread(ps[1..]));
    }
  }

  lemma RatioOfScaled(k: real, a: real)
    requires a != 0.0
    ensures Ratio(Scaled(k, a), a) == k
  {
  }

  /** Samples on a straight line: "up" or "down" when the line rises or falls by more than `eps`, and
      otherwise "stable". */
  lemma TrendOfLine(ps: seq<Point>, slope: real, offset: real, eps: real)
    requires OnLine(ps, slope, offset) && eps >= 0.0
    requires |ps| >= 6 && Spread(ps) >= 0.000001
    ensures TrendOf(ps, eps) == Up <==> slope > eps
    ensures TrendOf(ps, eps) == Down <==> slope < -eps
    ensures TrendOf(ps, eps) == Stable <==> -eps <= slope <= eps
    ensures Slope(ps) == slope
  {
    LinePairs(ps, slope, offset);
    SlopeIsCentred(ps);
    hide PairSum, Spread, Slope, Ratio, Scaled;
    RatioOfScaled(slope, Spread(ps));
  }

  lemma {:induction false} SquaresCover(c: Point, ps: seq<Point>, j: nat)
    requires c.x == c.y && j < |ps|
    ensures DeviationProduct(c, Diagonal(ps)) >= Deviation(c, Diagonal(ps)[j])
  {
    hide Deviation;
    assert Diagonal(ps)[1..] == Diagonal(ps[1..]);
    SquareNonNegative(c, Diagonal(ps)[0]);
    if j == 0 {
      SquaresNonNegative(c, ps[1..]);
    } else {
      SquaresCover(c, ps[1..], j - 1);
    }
  }

  lemma {:induction false} SpreadCoversPair(ps: seq<Point>, i: nat, j: nat)
    requires i < j < |ps|
    ensures Spread(ps) >= Deviation(Diagonal(ps)[i], Diagonal(ps)[j])
  {
    hide DeviationProduct, Deviation;
    var ds := Diagonal(ps);
    assert ds[1..] == Diagonal(ps[1..]);
    SpreadNonNegative(ps[1..]);
    SquaresNonNegative(ds[0], ps[1..]);
    if i == 0 {
      SquaresCover(ds[0], ps[1..], j - 1);
      assert ds[1..][j - 1] == ds[j];
    } else {
      SpreadCoversPair(ps[1..], i - 1, j - 1);
      assert ds[1..][i - 1] == ds[i] && ds[1..][j - 1] == ds[j];
    }
  }

  /** The spread is at least the squared distance in time of any two samples. */
  lemma SpreadCovers(ps: seq<Point>, i: nat, j: nat)
    requires i < j < |ps|
    ensures Spread(ps) >= (ps[j].x - ps[i].x) * (ps[j].x - ps[i].x)
  {
    hide Spread;
    SpreadCoversPair(ps, i, j);
    SquareOfDifference(ps[i].x, ps[j].x);
  }

  lemma SquareOfDifference(a: real, b: real)
    ensures Deviation(Point(a, a), Point(b, b)) == (b - a) * (b - a)
  {
  }

  /** Six samples on a line, two of them a second apart or more: the direction of the line is shown. */
  lemma LineIsShown(ps: seq<Point>, slope: real, offset: real, eps: real, i: nat, j: nat)
    requires OnLine(ps, slope, offset) && eps >= 0.0
    requires |ps| >= 6 && i < j < |ps| && ps[j].x - ps[i].x >= 1.0
    ensures TrendOf(ps, eps) == if slope > eps then Up else if slope < -eps then Down else Stable
  {
    hide TrendOf, OnLine, Spread;
    SpreadCovers(ps, i, j);
    SquareAtLeastOne(ps[j].x - ps[i].x);
    TrendOfLine(ps, slope, offset, eps);
  }

  lemma SquareAtLeastOne(d: real)
    requires d >= 1.0
    ensures d * d >= 1.0
  {
  }
}
