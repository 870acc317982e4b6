/**
 The projected state of charge: each slot adds its net energy, as a percentage of the capacity, and
 the result is clamped to [0, 100].
 */
module SocWalk {
  import opened Windows

  function Clamp(x: real): (y: real)
    ensures 0.0 <= y <= 100.0
  {
    if x < 0.0 then 0.0 else if x > 100.0 then 100.0 else x
  }

  /** A charge in range is left alone, and any other goes to the nearer end. */
  lemma ClampIsNearest(x: real)
    ensures 0.0 <= x <= 100.0 ==> Clamp(x) == x
    ensures x < 0.0 ==> Clamp(x) == 0.0
    ensures x > 100.0 ==> Clamp(x) == 100.0
  {
  }

  function Percent(wh: real, capacityWh: real): real
    requires capacityWh > 0.0
  {
    wh / capacityWh * 100.0
  }

  /** The net change of each slot, in percent. */
  function Deltas(capacityWh: real, gen: seq<real>, use: seq<real>): (ds: seq<real>)
    requires capacityWh > 0.0
    ensures |ds| == Min(|gen|, |use|)
  {
    seq(Min(|gen|, |use|), i requires 0 <= i < Min(|gen|, |use|) => Percent(gen[i] - use[i], capacityWh))
  }

  /** Where the walk ends. */
  function Final(soc: real, ds: seq<real>): real {
    if ds == [] then soc else Clamp(Final(soc, ds[..|ds| - 1]) + ds[|ds| - 1])
  }

  function Projection(start: real, capacityWh: real, gen: seq<real>, use: seq<real>): (r: seq<real>)
    ensures |r| == Min(|gen|, |use|)
  {
    var n := Min(|gen|, |use|);
    if capacityWh <= 0.0 then seq(n, _ => Clamp(start))
    else
      var ds := Deltas(capacityWh, gen, use);
      seq(n, i requires 0 <= i < n => Final(Clamp(start), ds[..i + 1]))
  }

  method ProjectBatterySoc(start: real, capacityWh: real, gen: seq<real>, use: seq<real>) returns (result: seq<real>)
    ensures result == Projection(start, capacityWh, gen, use)
  {
    var n := Min(|gen|, |use|);
    if capacityWh <= 0.0 || n == 0 {
      result := seq(n, _ => Clamp(start));
      return;
    }
    ghost var ds := Deltas(capacityWh, gen, use);
    var soc := Clamp(start);
    result := [];
    for i := 0 to n
      invariant |result| == i && soc == Final(Clamp(start), ds[..i])
      invariant forall k :: 0 <= k < i ==> result[k] == Final(Clamp(start), ds[..k + 1])
    {
      assert ds[..i + 1][..i] == ds[..i];
      var netWh := gen[i] - use[i];
      soc := soc + netWh / capacityWh * 100.0;
      soc := Clamp(soc);
      result := result + [soc];
    }
  }

  /** The state of charge a later projection has to start from. */
  function End(start: real, r: seq<real>): real {
    if r == [] then start else r[|r| - 1]
  }

  // ------------------------------------------------------------ concatenation

  lemma {:induction false} FinalConcat(soc: real, a: seq<real>, b: seq<real>)
    ensures Final(soc, a + b) == Final(Final(soc, a), b)
  {
    if b == [] {
      assert a + b == a;
    } else {
      assert (a + b)[..|a + b| - 1] == a + b[..|b| - 1];
      FinalConcat(soc, a, b[..|b| - 1]);
    }
  }

  lemma {:induction false} FinalInRange(soc: real, ds: seq<real>)
    requires 0.0 <= soc <= 100.0
    ensures 0.0 <= Final(soc, ds) <= 100.0
  {
  }

  lemma EndIsFinal(start: real, capacityWh: real, gen: seq<real>, use: seq<real>)
    requires capacityWh > 0.0
    ensures Clamp(End(start, Projection(start, capacityWh, gen, use))) ==
              Final(Clamp(start), Deltas(capacityWh, gen, use))
    ensures |gen| > 0 && |use| > 0 ==>
              End(start, Projection(start, capacityWh, gen, use)) ==
                Final(Clamp(start), Deltas(capacityWh, gen, use))
  {
    hide Percent;
    var ds := Deltas(capacityWh, gen, use);
    assert ds[..|ds|] == ds;
    FinalInRange(Clamp(start), ds);
  }

  lemma EndWithoutCapacity(start: real, capacityWh: real, gen: seq<real>, use: seq<real>)
    ensures capacityWh <= 0.0 ==> Clamp(End(start, Projection(start, capacityWh, gen, use))) == Clamp(start)
  {
  }

  /** Without a known capacity the charge stands still. */
  lemma NoCapacityStandsStill(start: real, capacityWh: real, gen: seq<real>, use: seq<real>, i: nat)
    requires capacityWh <= 0.0 && i < |gen| && i < |use|
    ensures |Projection(start, capacityWh, gen, use)| > i && Projection(start, capacityWh, gen, use)[i] == Clamp(start)
  {
  }

  /** The walk over the first `k` changes of two stretches. */
  lemma {:induction false} FinalOfTwo(soc: real, a: seq<real>, b: seq<real>, k: nat)
    requires k <= |a| + |b|
    ensures Final(soc, (a + b)[..k]) ==
              if k <= |a| then Final(soc, a[..k]) else Final(Final(soc, a), b[..k - |a|])
  {
    hide Final;
    if k <= |a| {
      assert (a + b)[..k] == a[..k];
    } else {
      assert (a + b)[..k] == a + b[..k - |a|];
      FinalConcat(soc, a, b[..k - |a|]);
    }
  }

  lemma DeltasConcat(capacityWh: real, g1: seq<real>, u1: seq<real>, g2: seq<real>, u2: seq<real>)
    requires capacityWh > 0.0 && |g1| == |u1|
    ensures Deltas(capacityWh, g1 + g2, u1 + u2) == Deltas(capacityWh, g1, u1) + Deltas(capacityWh, g2, u2)
  {
    hide Percent;
  }

  /** Projecting two stretches in one go, or one after the other, is the same. */
  lemma ProjectionConcat(start: real, capacityWh: real, g1: seq<real>, u1: seq<real>, g2: seq<real>, u2: seq<real>)
    requires |g1| == |u1|
    ensures var first := Projection(start, capacityWh, g1, u1);
            Projection(start, capacityWh, g1 + g2, u1 + u2) ==
              first + Projection(End(start, first), capacityWh, g2, u2)
  {
    var first := Projection(start, capacityWh, g1, u1);
    var second := Projection(End(start, first), capacityWh, g2, u2);
    var whole := Projection(start, capacityWh, g1 + g2, u1 + u2);
    EndWithoutCapacity(start, capacityWh, g1, u1);
    if capacityWh > 0.0 {
      EndIsFinal(start, capacityWh, g1, u1);
      DeltasConcat(capacityWh, g1, u1, g2, u2);
      hide Final, Deltas, End;
      var a, b := Deltas(capacityWh, g1, u1), Deltas(capacityWh, g2, u2);
      forall i | 0 <= i < |whole| ensures whole[i] == (first + second)[i] {
        FinalOfTwo(Clamp(start), a, b, i + 1);
      }
    }
  }

  // ------------------------------------------------------------ one map for any number of slots

  /** x is shifted, then limited from below and from above. */
  datatype Limiter = Limiter(lo: real, hi: real, shift: real) {
    predicate Proper() {
      0.0 <= lo <= hi <= 100.0
    }

    function Apply(x: real): real {
      var y := x + shift;
      if y < lo then lo else if y > hi then hi else y
    }
  }

  function Collapse(ds: seq<real>): Limiter {
    if ds == [] then Limiter(0.0, 100.0, 0.0)
    else
      var m, d := Collapse(ds[..|ds| - 1]), ds[|ds| - 1];
      Limiter(Clamp(m.lo + d), Clamp(m.hi + d), m.shift + d)
  }

  lemma NoWalk(start: real)
    ensures Clamp(start) == Limiter(0.0, 100.0, 0.0).Apply(start)
  {
  }

  lemma CollapseStep(m: Limiter, d: real, x: real)
    requires m.Proper()
    ensures var next := Limiter(Clamp(m.lo + d), Clamp(m.hi + d), m.shift + d);
            next.Proper() && Clamp(m.Apply(x) + d) == next.Apply(x)
  {
  }

  /** Any number of slots acts on the starting charge like a single shift and clamp. */
  lemma {:induction false} WalkCollapses(start: real, ds: seq<real>)
    ensures Collapse(ds).Proper() && Collapse(ds).shift == Sum(ds)
    ensures Final(Clamp(start), ds) == Collapse(ds).Apply(start)
  {
    hide Clamp, Limiter.Apply;
    if ds == [] {
      NoWalk(start);
    } else {
      var m, d := Collapse(ds[..|ds| - 1]), ds[|ds| - 1];
      WalkCollapses(start, ds[..|ds| - 1]);
      CollapseStep(m, d, start);
      SumAppend(ds[..|ds| - 1], d);
      assert ds[..|ds| - 1] + [d] == ds;
    }
  }

  /** More charge at the start never ends lower, and differences never grow. */
  lemma {:induction false} WalkIsMonotone(x: real, y: real, ds: seq<real>)
    requires x <= y
    ensures Final(Clamp(x), ds) <= Final(Clamp(y), ds) <= Final(Clamp(x), ds) + (y - x)
  {
    WalkCollapses(x, ds);
    WalkCollapses(y, ds);
  }

  // ------------------------------------------------------------ energy balance

  /** Percentage points lost because the battery was full. */
  function Spill(soc: real, ds: seq<real>): real {
    if ds == [] then 0.0
    else
      var x := Final(soc, ds[..|ds| - 1]) + ds[|ds| - 1];
      Spill(soc, ds[..|ds| - 1]) + if x > 100.0 then x - 100.0 else 0.0
  }

  /** Percentage points asked of an empty battery. */
  function Shortfall(soc: real, ds: seq<real>): real {
    if ds == [] then 0.0
    else
      var x := Final(soc, ds[..|ds| - 1]) + ds[|ds| - 1];
      Shortfall(soc, ds[..|ds| - 1]) + if x < 0.0 then -x else 0.0
  }

  /** Nothing is created or lost except at the two clamps. */
  lemma {:induction false} WalkBalances(soc: real, ds: seq<real>)
    ensures Final(soc, ds) - soc == Sum(ds) - Spill(soc, ds) + Shortfall(soc, ds)
    ensures Spill(soc, ds) >= 0.0 && Shortfall(soc, ds) >= 0.0
  {
    if ds != [] {
      WalkBalances(soc, ds[..|ds| - 1]);
      SumAppend(ds[..|ds| - 1], ds[|ds| - 1]);
      assert ds[..|ds| - 1] + [ds[|ds| - 1]] == ds;
    }
  }

  lemma PercentAdds(a: real, b: real, capacityWh: real)
    requires capacityWh > 0.0
    ensures Percent(a, capacityWh) + Percent(b, capacityWh) == Percent(a + b, capacityWh)
    ensures Percent(0.0, capacityWh) == 0.0
  {
  }

  /** The net change of all slots is the net energy, as a percentage of the capacity. */
  lemma {:induction false} DeltasAreNetEnergy(capacityWh: real, gen: seq<real>, use: seq<real>)
    requires capacityWh > 0.0
    ensures var n := Min(|gen|, |use|);
            Sum(Deltas(capacityWh, gen, use)) == Percent(Sum(gen[..n]) - Sum(use[..n]), capacityWh)
    decreases |gen|
  {
    hide Percent;
    var n := Min(|gen|, |use|);
    if n == 0 {
      PercentAdds(0.0, 0.0, capacityWh);
    } else {
      DeltasAreNetEnergy(capacityWh, gen[1..], use[1..]);
      assert Deltas(capacityWh, gen, use)[1..] == Deltas(capacityWh, gen[1..], use[1..]);
      assert gen[..n][1..] == gen[1..][..n - 1] && use[..n][1..] == use[1..][..n - 1];
      PercentAdds(gen[0] - use[0], Sum(gen[1..][..n - 1]) - Sum(use[1..][..n - 1]), capacityWh);
    }
  }

  /** The balance of a whole projection: the last value minus the clamped start is the net energy in
      percent, minus what spilled at 100, plus what was short at 0. */
  lemma {:induction false} ProjectionBalances(start: real, capacityWh: real, gen: seq<real>, use: seq<real>)
    requires capacityWh > 0.0 && |gen| == |use| > 0
    ensures var ds := Deltas(capacityWh, gen, use);
            End(start, Projection(start, capacityWh, gen, use)) - Clamp(start) ==
              Percent(Sum(gen) - Sum(use), capacityWh) - Spill(Clamp(start), ds) + Shortfall(Clamp(start), ds)
  {
    hide *;
    var ds := Deltas(capacityWh, gen, use);
    MinOfEquals(|gen|, |use|);
    assert gen[..|gen|] == gen && use[..|use|] == use;
    DeltasAreNetEnergy(capacityWh, gen, use);
    EndIsFinal(start, capacityWh, gen, use);
    WalkBalances(Clamp(start), ds);
  }

  /** The capacity times the percentage points is a hundred times the watt hours. */
  ghost predicate PointsOf(points: real, wh: real, capacityWh: real) {
    capacityWh * points == 100.0 * wh
  }

  /** The same without percentages: the points by which the projection rises, counting the spill and not the
      shortfall, are those of the net energy. */
  lemma {:induction false} ProjectionConserves(start: real, capacityWh: real, gen: seq<real>, use: seq<real>)
    requires capacityWh > 0.0 && |gen| == |use| > 0
    ensures var ds := Deltas(capacityWh, gen, use);
            var rise := End(start, Projection(start, capacityWh, gen, use)) - Clamp(start);
            var spill, short := Spill(Clamp(start), ds), Shortfall(Clamp(start), ds);
            PointsOf(rise + spill - short, Sum(gen) - Sum(use), capacityWh) && spill >= 0.0 && short >= 0.0
  {
    hide *;
    ProjectionBalances(start, capacityWh, gen, use);
    WalkBalances(Clamp(start), Deltas(capacityWh, gen, use));
    PercentIsPoints(Sum(gen) - Sum(use), capacityWh);
  }

  lemma PercentIsPoints(wh: real, capacityWh: real)
    requires capacityWh > 0.0
    ensures PointsOf(Percent(wh, capacityWh), wh, capacityWh)
  {
    var q := wh / capacityWh;
    assert q * capacityWh == wh;
  }

  lemma MinOfEquals(a: int, b: int)
    requires a == b
    ensures Min(a, b) == a
  {
  }
}
