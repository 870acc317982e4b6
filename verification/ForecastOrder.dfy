/**
 When the two passes of the solar forecast agree although the slots are not listed in the order of their
 days: exactly when grouping by day leaves the slots that can yield anything in their order.
 */
module ForecastOrder {
  import opened Windows
  import opened Forecast
  import opened OrderedMap

  predicate IsSunny(s: Slot) {
    s.daytime && s.cloud < 1.0
  }

  /** The cloud covers of the slots that can yield anything. */
  function Sunny(ss: seq<Slot>): seq<real> {
    if ss == [] then []
    else
      var s := ss[|ss| - 1];
      Sunny(ss[..|ss| - 1]) + if IsSunny(s) then [s.cloud] else []
  }

  ghost predicate CloudsInRange(ss: seq<Slot>) {
    forall i :: 0 <= i < |ss| ==> 0.0 <= ss[i].cloud <= 1.0
  }

  /** Daytime slots with these cloud covers. */
  function AsSlots(cs: seq<real>): (ss: seq<Slot>)
    ensures |ss| == |cs|
  {
    seq(|cs|, i requires 0 <= i < |cs| => Slot(0, cs[i], true))
  }

  lemma AsSlotsAppend(cs: seq<real>, c: real)
    ensures AsSlots(cs + [c]) == AsSlots(cs) + [Slot(0, c, true)]
    ensures AsSlots(cs + [c])[..|cs|] == AsSlots(cs)
  {
  }

  /** Two slots that are alike for the simulation, and one that yields nothing. */
  lemma SlotEffects(p: Plan, soc: real, s: Slot)
    requires p.Proper() && soc <= 100.0 && s.cloud <= 1.0
    ensures SocAfter(p, soc, s) <= 100.0
    ensures s.daytime ==> Accepted(p, soc, s) == Accepted(p, soc, Slot(0, s.cloud, true))
                          && SocAfter(p, soc, s) == SocAfter(p, soc, Slot(0, s.cloud, true))
    ensures !IsSunny(s) ==> Accepted(p, soc, s) == 0.0 && SocAfter(p, soc, s) == soc
  {
    hide Acceptance;
    if s.daytime && s.cloud == 1.0 { NothingOffered(p, s); }
  }

  lemma NothingOffered(p: Plan, s: Slot)
    requires p.Proper() && s.cloud == 1.0
    ensures SlotKwh(p, s) == 0.0
  {
    TimesNought(p.panelWatts * 3.0 * p.efficiency, 1.0 - s.cloud);
  }

  lemma TimesNought(x: real, z: real)
    requires z == 0.0
    ensures x * z == 0.0
  {
  }

  lemma {:induction false} WalkAppend(p: Plan, soc: real, ss: seq<Slot>, s: Slot)
    requires p.Proper()
    ensures var at := SocThrough(p, soc, ss);
            && SocThrough(p, soc, ss + [s]) == SocAfter(p, at, s)
            && Sum(Charges(p, soc, ss + [s])) == Sum(Charges(p, soc, ss)) + Accepted(p, at, s)
  {
    hide Accepted, SocAfter;
    assert (ss + [s])[..|ss|] == ss;
    SumAppend(Charges(p, soc, ss), Accepted(p, SocThrough(p, soc, ss), s));
  }

  lemma {:induction false} SunnyAppend(ss: seq<Slot>, s: Slot)
    ensures Sunny(ss + [s]) == if IsSunny(s) then Sunny(ss) + [s.cloud] else Sunny(ss)
  {
    assert (ss + [s])[..|ss|] == ss;
  }

  /** The simulation depends on the sunny slots alone. */
  lemma {:induction false} SunnyDecides(p: Plan, soc: real, ss: seq<Slot>)
    requires p.Proper() && soc <= 100.0 && CloudsInRange(ss)
    ensures var light := AsSlots(Sunny(ss));
            && SocThrough(p, soc, ss) == SocThrough(p, soc, light) <= 100.0
            && Sum(Charges(p, soc, ss)) == Sum(Charges(p, soc, light))
  {
    if ss == [] {
      assert AsSlots([]) == [];
    } else {
      hide Accepted, SocAfter, AsSlots, Sum, Charges, SocThrough, Sunny, IsSunny;
      var before, s := ss[..|ss| - 1], ss[|ss| - 1];
      assert ss == before + [s];
      var at, light := SocThrough(p, soc, before), AsSlots(Sunny(before));
      SunnyDecides(p, soc, before);
      SlotEffects(p, at, s);
      SunnyAppend(before, s);
      WalkAppend(p, soc, before, s);
      if IsSunny(s) {
        SunnyByDay(s);
        AsSlotsAppend(Sunny(before), s.cloud);
        WalkAppend(p, soc, light, Slot(0, s.cloud, true));
      }
    }
  }

  lemma SunnyByDay(s: Slot)
    requires IsSunny(s)
    ensures s.daytime
  {
  }

  /** The energy of these sunny slots when a clear one yields one kilowatt hour. */
  function Light(cs: seq<real>): real {
    if cs == [] then 0.0 else Light(cs[..|cs| - 1]) + (1.0 - cs[|cs| - 1])
  }

  /** What is taken of it by a battery that accepts everything until it has `full`, and then nothing. */
  function Taken(cs: seq<real>, full: real): real {
    if cs == [] then 0.0
    else
      var t := Taken(cs[..|cs| - 1], full);
      if t < full then t + (1.0 - cs[|cs| - 1]) else t
  }

  ghost predicate AllSunny(cs: seq<real>) {
    forall i :: 0 <= i < |cs| ==> 0.0 <= cs[i] < 1.0
  }

  lemma {:induction false} SunnyAreSunny(ss: seq<Slot>)
    requires CloudsInRange(ss)
    ensures AllSunny(Sunny(ss))
  {
    if ss != [] { SunnyAreSunny(ss[..|ss| - 1]); }
  }

  lemma {:induction false} LightIsPositive(cs: seq<real>)
    requires AllSunny(cs)
    ensures Light(cs) >= 0.0 && (cs != [] ==> Light(cs) > 0.0)
  {
    if cs != [] { LightIsPositive(cs[..|cs| - 1]); }
  }

  lemma {:induction false} LightGrows(cs: seq<real>, i: nat)
    requires AllSunny(cs) && i < |cs|
    ensures Light(cs[..i]) < Light(cs)
  {
    var n := |cs| - 1;
    if i < n {
      LightGrows(cs[..n], i);
      assert cs[..n][..i] == cs[..i];
    }
  }

  /** While it is not full everything is taken. */
  lemma {:induction false} TakenBelow(cs: seq<real>, full: real)
    requires AllSunny(cs) && Light(cs) < full
    ensures Taken(cs, full) == Light(cs)
  {
    if cs != [] { TakenBelow(cs[..|cs| - 1], full); }
  }

  /** The slot that fills it is the last one taken. */
  lemma {:induction false} TakenThrough(cs: seq<real>, i: nat, full: real)
    requires AllSunny(cs) && i < |cs|
    requires Light(cs[..i]) < full <= Light(cs[..i]) + (1.0 - cs[i])
    ensures Taken(cs, full) == Light(cs[..i]) + (1.0 - cs[i])
  {
    var n := |cs| - 1;
    if i == n {
      TakenBelow(cs[..i], full);
    } else {
      assert cs[..n][..i] == cs[..i];
      TakenThrough(cs[..n], i, full);
    }
  }

  const ALL := Bucket(1.0, 3)
  const NONE_AT_ALL := Bucket(0.0, 3)
  const STEP: seq<Bucket> := [
    ALL, NONE_AT_ALL, NONE_AT_ALL, NONE_AT_ALL, NONE_AT_ALL,
    NONE_AT_ALL, NONE_AT_ALL, NONE_AT_ALL, NONE_AT_ALL, NONE_AT_ALL]

  /** A plan whose battery takes everything below ten percent, which `full` kilowatt hours are, and nothing
      from there on. */
  function StepPlan(full: real): Plan {
    Plan(1000.0 / 3.0, 1.0, 1000.0, full * 10000.0, 10.0, STEP)
  }

  lemma StepAcceptance(soc: real)
    requires 0.0 <= soc
    ensures Acceptance(STEP, soc) == if soc < 10.0 then 1.0 else 0.0
  {
    var b := BucketOf(soc);
    assert b == 0 <==> soc < 10.0;
    assert STEP[b] == if b == 0 then Bucket(1.0, 3) else Bucket(0.0, 3);
  }

  lemma StepOffer(full: real, s: Slot)
    requires full > 0.0 && 0.0 <= s.cloud <= 1.0
    ensures SlotKwh(StepPlan(full), s) == 1.0 - s.cloud
  {
  }

  lemma StepPlanIsProper(full: real)
    requires full > 0.0
    ensures StepPlan(full).Proper() && StepPlan(full).Realistic()
    ensures forall k :: 0 <= k < |STEP| ==> 0.0 <= STEP[k].ratio <= 1.0
  {
  }

  lemma StepShift(full: real, kwh: real)
    requires full > 0.0 && kwh >= 0.0
    ensures StepPlan(full).Proper() && Shift(StepPlan(full), kwh) >= 0.0
    ensures Shift(StepPlan(full), kwh) < 10.0 <==> kwh < full
  {
    var q := kwh * 1000.0 / (full * 10000.0);
    assert q * (full * 10000.0) == kwh * 1000.0;
    assert q * full == kwh / 10.0;
    if q < 0.1 { assert (0.1 - q) * full > 0.0; }
    if q >= 0.1 { assert (q - 0.1) * full >= 0.0; }
    NonNegativeQuotient(kwh * 1000.0, full * 10000.0);
  }

  lemma NonNegativeQuotient(a: real, b: real)
    requires a >= 0.0 && b > 0.0
    ensures a / b >= 0.0
  {
  }

  lemma StepIsPhysical(full: real, cs: seq<real>)
    requires full > 0.0 && AllSunny(cs)
    ensures Physical(StepPlan(full), AsSlots(cs))
  {
    hide SlotKwh;
    StepPlanIsProper(full);
    forall i | 0 <= i < |cs| ensures SlotKwh(StepPlan(full), AsSlots(cs)[i]) >= 0.0 {
      StepOffer(full, AsSlots(cs)[i]);
    }
  }

  lemma {:induction false} TakenAppend(cs: seq<real>, c: real, full: real)
    ensures Taken(cs + [c], full) ==
              if Taken(cs, full) < full then Taken(cs, full) + (1.0 - c) else Taken(cs, full)
  {
    assert (cs + [c])[..|cs|] == cs;
  }

  /** What the simulation of such a plan accepts from an empty battery. */
  lemma {:induction false} StepCharges(full: real, cs: seq<real>)
    requires full > 0.0 && AllSunny(cs)
    ensures StepPlan(full).Proper()
    ensures Sum(Charges(StepPlan(full), 0.0, AsSlots(cs))) == Taken(cs, full) >= 0.0
  {
    StepPlanIsProper(full);
    if cs == [] {
      assert AsSlots(cs) == [];
    } else {
      hide StepPlan, AsSlots, Charges, SocThrough, Taken, Sum, Accepted, SocAfter, Physical;
      var p, n := StepPlan(full), |cs| - 1;
      var before, ss := cs[..n], AsSlots(cs[..n]);
      assert cs == before + [cs[n]];
      StepCharges(full, before);
      StepIsPhysical(full, before);
      SocIsAccumulated(p, 0.0, ss);
      StepSlot(full, Taken(before, full), SocThrough(p, 0.0, ss), cs[n]);
      TakenAppend(before, cs[n], full);
      AsSlotsAppend(before, cs[n]);
      WalkAppend(p, 0.0, ss, Slot(0, cs[n], true));
    }
  }

  lemma StepSlot(full: real, taken: real, soc: real, c: real)
    requires full > 0.0 && 0.0 <= c < 1.0 && taken >= 0.0 && StepPlan(full).Proper()
    requires soc == MinReal(0.0 + Shift(StepPlan(full), taken), 100.0)
    ensures Accepted(StepPlan(full), soc, Slot(0, c, true)) == if taken < full then 1.0 - c else 0.0
  {
    StepShift(full, taken);
    StepAcceptance(soc);
    StepOffer(full, Slot(0, c, true));
    hide Shift, Acceptance, SlotKwh;
  }

  lemma {:induction false} LightAppend(cs: seq<real>, c: real)
    ensures Light(cs + [c]) == Light(cs) + (1.0 - c)
  {
    assert (cs + [c])[..|cs|] == cs;
  }

  lemma StepNominal(s: Slot)
    requires 0.0 <= s.cloud <= 1.0
    ensures Nominal(StepPlan(1.0), s) == if IsSunny(s) then 1.0 - s.cloud else 0.0
  {
    StepOffer(1.0, s);
    hide SlotKwh, StepPlan;
  }

  /** The nominal energy of any list under such a plan is the light of its sunny slots. */
  lemma {:induction false} NominalIsLight(ss: seq<Slot>)
    requires CloudsInRange(ss)
    ensures NominalSum(StepPlan(1.0), ss) == Light(Sunny(ss))
  {
    if ss != [] {
      hide Nominal, StepPlan, Light, Sunny, IsSunny;
      var before, s := ss[..|ss| - 1], ss[|ss| - 1];
      assert ss == before + [s];
      NominalIsLight(before);
      StepNominal(s);
      SunnyAppend(before, s);
      LightAppend(Sunny(before), s.cloud);
    }
  }

  ghost predicate DifferAt(a: seq<real>, b: seq<real>, i: nat) {
    i < |a| && i < |b| && a[..i] == b[..i] && a[i] != b[i]
  }

  lemma {:induction false} PrefixIsDarker(a: seq<real>, b: seq<real>)
    requires AllSunny(b) && |a| < |b| && a == b[..|a|]
    ensures Light(a) < Light(b)
  {
    LightGrows(b, |a|);
  }

  /** Two different lists with the same light differ somewhere. */
  lemma {:induction false} FirstDifference(a: seq<real>, b: seq<real>, n: nat) returns (i: nat)
    requires AllSunny(a) && AllSunny(b) && a != b && Light(a) == Light(b)
    requires n <= |a| && n <= |b| && a[..n] == b[..n]
    ensures DifferAt(a, b, i)
    decreases |a| - n
  {
    hide Light;
    if n < |b| && a == b[..n] { PrefixIsDarker(a, b); }
    if n < |a| && b == a[..n] { PrefixIsDarker(b, a); }
    assert a[..|a|] == a && b[..|b|] == b;
    assert n < |a| && n < |b|;
    if a[n] == b[n] {
      assert a[..n + 1] == a[..n] + [a[n]] && b[..n + 1] == b[..n] + [b[n]];
      i := FirstDifference(a, b, n + 1);
    } else {
      i := n;
    }
  }

  /** Then some battery takes more from one than from the other. */
  lemma TakenDiffer(a: seq<real>, b: seq<real>, i: nat) returns (full: real)
    requires AllSunny(a) && AllSunny(b) && DifferAt(a, b, i)
    ensures full > 0.0 && Taken(a, full) != Taken(b, full)
  {
    hide Light, Taken;
    LightIsPositive(a[..i]);
    full := Light(a[..i]) + (1.0 - if a[i] < b[i] then b[i] else a[i]);
    TakenThrough(a, i, full);
    TakenThrough(b, i, full);
  }

  /** Both passes accept the same energy and end with the same charge, for every realistic plan and every
      state of charge. */
  ghost predicate AlwaysAgree(m: Days, slots: seq<Slot>) {
    forall p: Plan, soc: real :: p.Proper() && p.Realistic() && soc <= 100.0 ==>
      WeekOf(p, soc, m).accepted == Sum(Charges(p, soc, slots)) && WeekOf(p, soc, m).soc == SocThrough(p, soc, slots)
  }

  lemma {:induction false} GroupedClouds(dayKey: DayKey, slots: seq<Slot>)
    requires CloudsInRange(slots)
    ensures CloudsInRange(Flatten(ByDay(dayKey, slots)))
  {
    if slots != [] {
      var before, s := slots[..|slots| - 1], slots[|slots| - 1];
      GroupedClouds(dayKey, before);
      ByDaySorted(dayKey, before);
      assert CloudsInRange([s]);
      hide CloudsInRange;
      AddedClouds(ByDay(dayKey, before), dayKey(s.ts), s);
    }
  }

  lemma CloudsConcat(a: seq<Slot>, b: seq<Slot>)
    ensures CloudsInRange(a + b) <==> CloudsInRange(a) && CloudsInRange(b)
  {
    assert forall i :: 0 <= i < |a| ==> (a + b)[i] == a[i];
    assert forall i :: 0 <= i < |b| ==> (a + b)[|a| + i] == b[i];
  }

  lemma {:induction false} AddedClouds(m: Days, k: int, s: Slot)
    requires Sorted(m, Earlier) && CloudsInRange(Flatten(m)) && CloudsInRange([s])
    ensures CloudsInRange(Flatten(AddSlot(m, k, s)))
  {
    hide CloudsInRange, Sorted;
    if m == [] || Earlier(k, m[0].key) {
      if m != [] { AbsentBefore(m, k); }
      assert DaySlots(m, k) + [s] == [s];
      assert AddSlot(m, k, s) == [Entry(k, [s])] + m;
      assert Flatten(AddSlot(m, k, s)) == [s] + Flatten(m);
      CloudsConcat([s], Flatten(m));
    } else {
      CloudsConcat(m[0].value, Flatten(m[1..]));
      if m[0].key == k {
        assert AddSlot(m, k, s) == [Entry(k, m[0].value + [s])] + m[1..];
        CloudsConcat(m[0].value, [s]);
        CloudsConcat(m[0].value + [s], Flatten(m[1..]));
      } else {
        SortedTail(m);
        AddedClouds(m[1..], k, s);
        assert AddSlot(m, k, s) == [m[0]] + AddSlot(m[1..], k, s);
        CloudsConcat(m[0].value, Flatten(AddSlot(m[1..], k, s)));
      }
    }
  }

  /** Exactly when the two passes agree whatever the plan: grouping by day leaves the sunny slots in the
      order in which they were listed.  Slots that yield nothing may come in any order. */
  lemma {:induction false} AgreeIff(dayKey: DayKey, slots: seq<Slot>)
    requires CloudsInRange(slots)
    ensures AlwaysAgree(ByDay(dayKey, slots), slots) <==> Sunny(Flatten(ByDay(dayKey, slots))) == Sunny(slots)
  {
    hide SocThrough, Charges, NominalSum, Sum, Sunny, ByDay, WeekOf, Taken, Light, StepPlan, CloudsInRange;
    var m := ByDay(dayKey, slots);
    GroupedClouds(dayKey, slots);
    var a, b := Sunny(slots), Sunny(Flatten(m));
    if a == b {
      forall p: Plan, soc: real | p.Proper() && p.Realistic() && soc <= 100.0
        ensures WeekOf(p, soc, m).accepted == Sum(Charges(p, soc, slots))
        ensures WeekOf(p, soc, m).soc == SocThrough(p, soc, slots)
      {
        WeekIsFlatWalk(p, soc, m);
        SunnyDecides(p, soc, slots);
        SunnyDecides(p, soc, Flatten(m));
      }
    } else {
      SunnyAreSunny(slots);
      SunnyAreSunny(Flatten(m));
      StepPlanIsProper(1.0);
      GroupingKeepsNominal(StepPlan(1.0), dayKey, slots);
      NominalIsLight(slots);
      NominalIsLight(Flatten(m));
      var i := FirstDifference(a, b, 0);
      var full := TakenDiffer(a, b, i);
      var p := StepPlan(full);
      StepPlanIsProper(full);
      StepCharges(full, a);
      StepCharges(full, b);
      WeekIsFlatWalk(p, 0.0, m);
      SunnyDecides(p, 0.0, slots);
      SunnyDecides(p, 0.0, Flatten(m));
      assert WeekOf(p, 0.0, m).accepted != Sum(Charges(p, 0.0, slots));
    }
  }

  /** Takes everything below ten percent and half of it from there on. */
  function HalvingPlan(): Plan {
    var all, half := Bucket(1.0, 3), Bucket(0.5, 3);
    Plan(100.0, 1.0, 1000.0, 1000.0, 10.0, [all, half, half, half, half, half, half, half, half, half])
  }

  lemma HalvingAcceptance()
    ensures HalvingPlan().Proper()
    ensures Acceptance(HalvingPlan().profile, 0.0) == 1.0
    ensures Acceptance(HalvingPlan().profile, 15.0) == Acceptance(HalvingPlan().profile, 30.0) == 0.5
  {
    assert BucketOf(0.0) == 0 && BucketOf(30.0) == 3 && BucketOf(15.0) == 1;
  }

  lemma HalvingOffers(clear: Slot, cloudy: Slot)
    requires clear.daytime && clear.cloud == 0.0 && cloudy.daytime && cloudy.cloud == 0.5
    ensures SlotKwh(HalvingPlan(), clear) == 0.3 && SlotKwh(HalvingPlan(), cloudy) == 0.15
  {
  }

  lemma HalvingAccepts(clear: Slot, cloudy: Slot)
    requires clear.daytime && clear.cloud == 0.0 && cloudy.daytime && cloudy.cloud == 0.5
    ensures var p := HalvingPlan();
            && p.Proper() && Physical(p, [clear, cloudy])
            && Accepted(p, 0.0, clear) == 0.3 && SocAfter(p, 0.0, clear) == 30.0
            && Accepted(p, 0.0, cloudy) == 0.15 && SocAfter(p, 0.0, cloudy) == 15.0
            && Accepted(p, 30.0, cloudy) == 0.075 && Accepted(p, 15.0, clear) == 0.15
  {
    HalvingAcceptance();
    HalvingOffers(clear, cloudy);
    hide SlotKwh, Acceptance;
  }

  lemma {:induction false} TwoSlotsOutOfOrder(p: Plan, soc: real, dayKey: DayKey, a: Slot, b: Slot)
    requires p.Proper() && dayKey(b.ts) < dayKey(a.ts)
    ensures Sum(Charges(p, soc, [a, b])) == Accepted(p, soc, a) + Accepted(p, SocAfter(p, soc, a), b)
    ensures WeekOf(p, soc, ByDay(dayKey, [a, b])).accepted ==
              Accepted(p, soc, b) + Accepted(p, SocAfter(p, soc, b), a)
  {
    hide WeekOf, ByDay, Charges, NominalSum, Sum, Flatten, Accepted, SocAfter;
    GroupTwo(dayKey, a, b);
    WeekIsFlatWalk(p, soc, ByDay(dayKey, [a, b]));
    TwoSlots(p, soc, a, b);
    TwoSlots(p, soc, b, a);
  }

  /** Two slots listed with the later day first for which the two passes report different totals. */
  lemma OutOfOrderDisagree()
    ensures var p, slots := HalvingPlan(), [Slot(97200, 0.0, true), Slot(10800, 0.5, true)];
            var dayKey: DayKey := ts => ts / 86400;
            && p.Proper() && Physical(p, slots)
            && Sum(Charges(p, 0.0, slots)) == 0.375
            && WeekOf(p, 0.0, ByDay(dayKey, slots)).accepted == 0.3
  {
    hide WeekOf, ByDay, Charges, Sum, Accepted, SocAfter, Physical, HalvingPlan;
    var a, b := Slot(97200, 0.0, true), Slot(10800, 0.5, true);
    var dayKey: DayKey := ts => ts / 86400;
    HalvingAccepts(a, b);
    TwoSlotsOutOfOrder(HalvingPlan(), 0.0, dayKey, a, b);
  }

  /** Two slots whose days come in the wrong order. */
  lemma GroupTwo(dayKey: DayKey, a: Slot, b: Slot)
    requires dayKey(b.ts) < dayKey(a.ts)
    ensures Flatten(ByDay(dayKey, [a, b])) == [b, a]
  {
    var m := [Entry(dayKey(a.ts), [a])];
    assert [a, b][..1] == [a] && [a][..0] == [];
    var none: Days := [];
    assert ByDay(dayKey, []) == none;
    assert DaySlots(none, dayKey(a.ts)) + [a] == [a];
    assert AddSlot(none, dayKey(a.ts), a) == m;
    assert ByDay(dayKey, [a]) == m;
    assert m[1..] == [];
    AbsentBelow(m, dayKey(b.ts));
    assert DaySlots(m, dayKey(b.ts)) + [b] == [b];
    assert Earlier(dayKey(b.ts), m[0].key);
    var two := [Entry(dayKey(b.ts), [b])] + m;
    assert AddSlot(m, dayKey(b.ts), b) == two;
    assert ByDay(dayKey, [a, b]) == two;
    assert two[1..] == m && Flatten(m) == [a] + [];
  }

  lemma {:induction false} TwoSlots(p: Plan, soc: real, a: Slot, b: Slot)
    requires p.Proper()
    ensures Sum(Charges(p, soc, [a, b])) == Accepted(p, soc, a) + Accepted(p, SocAfter(p, soc, a), b)
  {
    hide SocAfter, Accepted;
    assert [a, b][..1] == [a] && [a][..0] == [];
    assert SocThrough(p, soc, [a]) == SocAfter(p, soc, a);
    var x, y := Accepted(p, soc, a), Accepted(p, SocAfter(p, soc, a), b);
    assert Charges(p, soc, [a]) == [] + [x];
    assert Charges(p, soc, [a, b]) == [x] + [y];
    SumAppend([x], y);
    SumAppend([], x);
    assert [] + [x] == [x];
  }
}
