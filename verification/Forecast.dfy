/**
 The solar week forecast.  The list of three-hour slots is simulated twice: slot by slot, and again
 grouped by local day through an ordered map.  Both passes follow a state of charge that lowers the
 charge the battery accepts.
 */
module Forecast {
  import opened Windows
  import opened Options
  import opened OrderedMap

  datatype Slot = Slot(ts: int, cloud: real, daytime: bool)

  /** Fraction of the offered charge that is accepted at a state of charge, from history. */
  datatype Bucket = Bucket(ratio: real, samples: int)

  datatype Plan = Plan(panelWatts: real, efficiency: real, maxChargeW: real, capWh: real, voltage: real,
                       profile: seq<Bucket>) {
    /** An empty profile means a nominal forecast; otherwise there are ten buckets. */
    predicate Proper() {
      capWh > 0.0 && maxChargeW > 0.0 && voltage > 0.0 && (profile == [] || |profile| == 10)
    }

    predicate Realistic() {
      profile != []
    }
  }

  type DayKey = int -> int

  function MinReal(a: real, b: real): real {
    if b < a then b else a
  }

  /** What the panels offer in one slot, limited by the charger. */
  function SlotKwh(p: Plan, s: Slot): real {
    MinReal(p.panelWatts * 3.0 * p.efficiency * (1.0 - s.cloud) / 1000.0, p.maxChargeW * 3.0 / 1000.0)
  }

  /** Missing or implausible inputs are replaced by defaults. */
  function MakePlan(panelWatts: real, efficiency: real, maxChargeA: real, batteryV: real, nominalAh: real,
                    profile: seq<Bucket>): (p: Plan)
    requires profile == [] || |profile| == 10
    ensures p.Proper()
  {
    var maxA := if maxChargeA > 0.0 then maxChargeA else 10.0;
    var v := if batteryV > 1.0 then batteryV else 51.2;
    var capAh := if nominalAh > 0.0 then nominalAh else 100.0;
    PositiveProduct(maxA, v);
    PositiveProduct(capAh, v);
    Plan(panelWatts, efficiency, maxA * v, capAh * v, v, profile)
  }

  lemma PositiveProduct(a: real, b: real)
    requires a > 0.0 && b > 0.0
    ensures a * b > 0.0
  {
  }

  // ------------------------------------------------------------ charge acceptance

  function BucketOf(soc: real): (b: nat)
    ensures b <= 9
    ensures 0.0 <= soc < 100.0 ==> 10.0 * b as real <= soc < 10.0 * (b + 1) as real
    ensures (soc < 0.0 ==> b == 0) && (soc >= 100.0 ==> b == 9)
  {
    var k := (soc / 10.0).Floor;
    if k < 0 then 0 else if k > 9 then 9 else k
  }

  predicate Usable(profile: seq<Bucket>, k: int) {
    0 <= k < |profile| && profile[k].samples >= 3
  }

  /** The nearest bucket with three samples or more, at most four away, the lower one when two are equally
      near. */
  ghost predicate IsNearest(profile: seq<Bucket>, b: int, k: int) {
    && 0 <= k < |profile| && profile[k].samples >= 3 && -4 <= k - b <= 4
    && forall j :: 0 <= j < |profile| && profile[j].samples >= 3 ==>
         (if k <= b then b - k else k - b) <= (if j <= b then b - j else j - b)
         && (j != k && j - b == b - k ==> k < j)
  }

  lemma NearestUsable(profile: seq<Bucket>, b: int, k: int)
    requires Usable(profile, k) && -4 <= k - b <= 4
    requires forall j :: Usable(profile, j) ==>
               (if k <= b then b - k else k - b) <= (if j <= b then b - j else j - b)
               && (j != k && j - b == b - k ==> k < j)
    ensures IsNearest(profile, b, k)
  {
    assert forall j :: 0 <= j < |profile| && profile[j].samples >= 3 ==> Usable(profile, j);
  }

  function Search(profile: seq<Bucket>, b: int, delta: nat): real
    decreases 5 - delta
  {
    if delta > 4 then 1.0
    else if Usable(profile, b - delta) then profile[b - delta].ratio
    else if Usable(profile, b + delta) then profile[b + delta].ratio
    else Search(profile, b, delta + 1)
  }

  function Acceptance(profile: seq<Bucket>, soc: real): real {
    if profile == [] then 1.0 else Search(profile, BucketOf(soc), 0)
  }

  method AcceptanceAtSoc(profile: seq<Bucket>, soc: real) returns (ratio: real)
    requires profile == [] || |profile| == 10
    ensures ratio == Acceptance(profile, soc)
  {
    if profile == [] { return 1.0; }
    var bucket := (soc / 10.0).Floor;
    if bucket < 0 { bucket := 0; }
    if bucket > 9 { bucket := 9; }
    if profile[bucket].samples < 3 {
      for delta := 1 to 5
        invariant Search(profile, bucket, 0) == Search(profile, bucket, delta)
      {
        if bucket - delta >= 0 && profile[bucket - delta].samples >= 3 { return profile[bucket - delta].ratio; }
        if bucket + delta <= 9 && profile[bucket + delta].samples >= 3 { return profile[bucket + delta].ratio; }
      }
      return 1.0;
    }
    ratio := profile[bucket].ratio;
  }

  lemma {:induction false} SearchMeaning(profile: seq<Bucket>, b: int, delta: nat)
    requires delta <= 5
    requires forall j :: Usable(profile, j) ==> j <= b - delta || b + delta <= j
    ensures (exists k :: IsNearest(profile, b, k) && Search(profile, b, delta) == profile[k].ratio)
            || (Search(profile, b, delta) == 1.0 && forall j :: Usable(profile, j) ==> j < b - 4 || b + 4 < j)
    decreases 5 - delta
  {
    if delta <= 4 {
      if Usable(profile, b - delta) {
        NearestUsable(profile, b, b - delta);
      } else if Usable(profile, b + delta) {
        NearestUsable(profile, b, b + delta);
      } else {
        SearchMeaning(profile, b, delta + 1);
      }
    }
  }

  /** The acceptance is that of the nearest bucket with enough data, or 1 when there is none near. */
  lemma AcceptanceMeaning(profile: seq<Bucket>, soc: real)
    ensures profile == [] ==> Acceptance(profile, soc) == 1.0
    ensures var b := BucketOf(soc);
            (exists k :: IsNearest(profile, b, k) && Acceptance(profile, soc) == profile[k].ratio)
            || (Acceptance(profile, soc) == 1.0 &&
                forall j :: 0 <= j < |profile| && profile[j].samples >= 3 ==> j < b - 4 || b + 4 < j)
  {
    hide IsNearest, BucketOf;
    if profile != [] { SearchMeaning(profile, BucketOf(soc), 0); }
    assert forall j :: 0 <= j < |profile| && profile[j].samples >= 3 ==> Usable(profile, j);
  }

  // ------------------------------------------------------------ one slot, many slots

  function Reduced(kwh: real, ratio: real): real {
    kwh * ratio
  }

  function Accepted(p: Plan, soc: real, s: Slot): real {
    if s.daytime then Reduced(SlotKwh(p, s), Acceptance(p.profile, soc)) else 0.0
  }

  function Nominal(p: Plan, s: Slot): real {
    if s.daytime then SlotKwh(p, s) else 0.0
  }

  /** Charge raises the projected state of charge, in a realistic forecast, up to 100. */
  function Advance(p: Plan, soc: real, kwh: real): real
    requires p.Proper()
  {
    MinReal(soc + kwh * 1000.0 / p.capWh * 100.0, 100.0)
  }

  function SocAfter(p: Plan, soc: real, s: Slot): real
    requires p.Proper()
  {
    if s.daytime && p.Realistic() then Advance(p, soc, Accepted(p, soc, s)) else soc
  }

  function SocThrough(p: Plan, soc: real, ss: seq<Slot>): real
    requires p.Proper()
  {
    if ss == [] then soc else SocAfter(p, SocThrough(p, soc, ss[..|ss| - 1]), ss[|ss| - 1])
  }

  /** The charge accepted in each slot when the slots are gone through in order. */
  function Charges(p: Plan, soc: real, ss: seq<Slot>): (ks: seq<real>)
    requires p.Proper()
    ensures |ks| == |ss|
  {
    if ss == [] then []
    else
      var before := ss[..|ss| - 1];
      Charges(p, soc, before) + [Accepted(p, SocThrough(p, soc, before), ss[|ss| - 1])]
  }

  function NominalSum(p: Plan, ss: seq<Slot>): real {
    if ss == [] then 0.0 else NominalSum(p, ss[..|ss| - 1]) + Nominal(p, ss[|ss| - 1])
  }

  /** How one slot's numbers come about, spelled out for the two passes. */
  lemma SlotArithmetic(p: Plan, soc: real, s: Slot)
    requires p.Proper()
    ensures !p.Realistic() ==> Accepted(p, soc, s) == Nominal(p, s)
    ensures s.daytime && p.Realistic() ==> Accepted(p, soc, s) == Reduced(SlotKwh(p, s), Acceptance(p.profile, soc))
  {
  }

  /** A slot charges with the offered energy times the acceptance at the charge reached by then. */
  lemma {:induction false} ChargesAreAccepted(p: Plan, soc: real, ss: seq<Slot>, i: nat)
    requires p.Proper() && i < |ss|
    ensures Charges(p, soc, ss)[i] == Nominal(p, ss[i]) * Acceptance(p.profile, SocThrough(p, soc, ss[..i]))
  {
    hide Acceptance, SlotKwh, SocAfter;
    var n := |ss| - 1;
    if i < n {
      ChargesAreAccepted(p, soc, ss[..n], i);
      assert ss[..n][..i] == ss[..i];
    } else {
      FractionOfNominal(p, SocThrough(p, soc, ss[..n]), ss[n]);
    }
  }

  lemma FractionOfNominal(p: Plan, soc: real, s: Slot)
    ensures Accepted(p, soc, s) == Nominal(p, s) * Acceptance(p.profile, soc)
  {
    hide Acceptance, SlotKwh;
    var k, a := Nominal(p, s), Acceptance(p.profile, soc);
    if s.daytime { assert Reduced(k, a) == k * a; }
  }

  lemma NightAcceptsNothing(p: Plan, soc: real, s: Slot)
    ensures !s.daytime ==> Accepted(p, soc, s) == 0.0
  {
  }

  lemma AdvanceArithmetic(p: Plan, soc: real, kwh: real, x: real)
    requires p.Proper() && x == soc + kwh * 1000.0 / p.capWh * 100.0
    ensures Advance(p, soc, kwh) == if x > 100.0 then 100.0 else x
  {
  }

  // ------------------------------------------------------------ margins

  datatype Estimate = Estimate(mid: real, lo: real, hi: real)

  function MaxReal(a: real, b: real): real {
    if a < b then b else a
  }

  /** Half the width of a 95 percent interval; the spread grows with the cloud cover. */
  function Margin(cloud: real): real {
    1.96 * (0.10 + 0.10 * cloud)
  }

  function WithMargin(x: real, cloud: real): Estimate {
    Estimate(x, x * MaxReal(0.0, 1.0 - Margin(cloud)), x * (1.0 + Margin(cloud)))
  }

  /** An estimate brackets its middle: 19.6 percent to either side under a clear sky, twice that under a
      whole cover, and never below nothing. */
  lemma MarginsBracket(x: real, cloud: real)
    requires x >= 0.0 && -1.0 <= cloud
    ensures var e := WithMargin(x, cloud); 0.0 <= e.lo <= e.mid == x <= e.hi
    ensures var e := WithMargin(x, cloud); e.hi - x == x * (0.196 * (1.0 + cloud))
    ensures var e := WithMargin(x, cloud); x - e.lo == e.hi - x || (e.lo == 0.0 && 0.196 * (1.0 + cloud) > 1.0)
  {
    assert Margin(cloud) == 0.196 * (1.0 + cloud);
    var lo, hi := MaxReal(0.0, 1.0 - Margin(cloud)), 1.0 + Margin(cloud);
    hide Margin;
    assert 0.0 <= lo <= 1.0 <= hi by { assert Margin(cloud) >= 0.0 by { MarginNonNegative(cloud); } }
    NonNegativeProduct(x, lo);
    NonNegativeProduct(x, 1.0 - lo);
    NonNegativeProduct(x, hi - 1.0);
  }

  lemma MarginNonNegative(cloud: real)
    requires -1.0 <= cloud
    ensures Margin(cloud) >= 0.0
  {
  }

  datatype SlotForecast = SlotForecast(slot: Slot, kwh: Estimate)

  function Forecasts(ss: seq<Slot>, ks: seq<real>): (fs: seq<SlotForecast>)
    requires |ks| == |ss|
    ensures |fs| == |ss|
  {
    seq(|ss|, i requires 0 <= i < |ss| => SlotForecast(ss[i], WithMargin(ks[i], ss[i].cloud)))
  }

  lemma ForecastsAppend(ss: seq<Slot>, ks: seq<real>, s: Slot, k: real)
    requires |ks| == |ss|
    ensures Forecasts(ss + [s], ks + [k]) == Forecasts(ss, ks) + [SlotForecast(s, WithMargin(k, s.cloud))]
  {
  }

  lemma NoEnergyNoMargin(cloud: real)
    ensures WithMargin(0.0, cloud) == Estimate(0.0, 0.0, 0.0)
  {
  }

  // ------------------------------------------------------------ the pass over slots

  method SlotPass(p: Plan, soc: real, slots: seq<Slot>) returns (out: seq<SlotForecast>, projectedSoc: real)
    requires p.Proper()
    ensures out == Forecasts(slots, Charges(p, soc, slots)) && projectedSoc == SocThrough(p, soc, slots)
  {
    hide SlotKwh, Acceptance, Accepted, Advance, Reduced, Forecasts, WithMargin;
    out, projectedSoc := [], soc;
    NoForecasts();
    for i := 0 to |slots|
      invariant out == Forecasts(slots[..i], Charges(p, soc, slots[..i]))
      invariant projectedSoc == SocThrough(p, soc, slots[..i])
    {
      assert slots[..i + 1] == slots[..i] + [slots[i]] && slots[..i + 1][..i] == slots[..i];
      var s := slots[i];
      var kwh := Estimate(0.0, 0.0, 0.0);
      ghost var before := projectedSoc;
      SlotArithmetic(p, before, s);
      NightAcceptsNothing(p, before, s);
      NoEnergyNoMargin(s.cloud);
      ForecastsAppend(slots[..i], Charges(p, soc, slots[..i]), s, Accepted(p, before, s));
      if s.daytime {
        var slotKwh := SlotKwh(p, s);
        if p.profile != [] {
          var ar := AcceptanceAtSoc(p.profile, projectedSoc);
          slotKwh := Reduced(slotKwh, ar);
        }
        kwh := WithMargin(slotKwh, s.cloud);
        if p.profile != [] && p.capWh > 0.0 {
          var whAdded := slotKwh * 1000.0;
          projectedSoc := projectedSoc + whAdded / p.capWh * 100.0;
          AdvanceArithmetic(p, before, slotKwh, projectedSoc);
          if projectedSoc > 100.0 { projectedSoc := 100.0; }
        }
      }
      out := out + [SlotForecast(s, kwh)];
    }
    assert slots[..|slots|] == slots;
  }

  lemma NoForecasts()
    ensures Forecasts([], []) == []
  {
  }

  // ------------------------------------------------------------ grouping by day

  type Days = seq<Entry<int, seq<Slot>>>

  const Earlier: (int, int) -> bool := (a, b) => a < b

  function DaySlots(m: Days, k: int): seq<Slot> {
    match Find(m, k)
    case None => []
    case Some(ss) => ss
  }

  /** `by_day[key].push_back(slot)`. */
  function AddSlot(m: Days, k: int, s: Slot): Days {
    Put(m, k, DaySlots(m, k) + [s], Earlier)
  }

  function ByDay(dayKey: DayKey, slots: seq<Slot>): Days {
    if slots == [] then []
    else
      var s := slots[|slots| - 1];
      AddSlot(ByDay(dayKey, slots[..|slots| - 1]), dayKey(s.ts), s)
  }

  function Flatten(m: Days): seq<Slot> {
    if m == [] then [] else m[0].value + Flatten(m[1..])
  }

  // ------------------------------------------------------------ the pass over days

  /** The sun of a day: mean cloud cover and effective hours of its daytime slots, and the first and the
      last slot that is mostly clear. */
  datatype Sky = Sky(cloudCover: real, sunHours: real, clear: Option<(nat, nat)>)

  /** The ends of the interval around the recovery, in watt hours, ampere hours and percent. */
  datatype Range = Range(whLo: real, whHi: real, ah: real, ahLo: real, ahHi: real, pctLo: real, pctHi: real)

  /** One day of the result. */
  datatype Day = Day(kwh: real, acceptedKwh: real, recoveryWh: real, recoveryPct: real, range: Range, sky: Sky,
                     socAfter: real)

  function Clouds(ss: seq<Slot>): seq<real> {
    if ss == [] then []
    else
      var s := ss[|ss| - 1];
      Clouds(ss[..|ss| - 1]) + if s.daytime then [s.cloud] else []
  }

  function SunHours(ss: seq<Slot>): real {
    if ss == [] then 0.0
    else
      var s := ss[|ss| - 1];
      SunHours(ss[..|ss| - 1]) + if s.daytime then 3.0 * (1.0 - s.cloud) else 0.0
  }

  predicate Clear(s: Slot) {
    s.daytime && s.cloud < 0.5
  }

  /** The first and the last clear slot. */
  function ClearSpan(ss: seq<Slot>): (r: Option<(nat, nat)>)
    ensures r.None? ==> forall i :: 0 <= i < |ss| ==> !Clear(ss[i])
    ensures r.Some? ==>
              && r.value.0 <= r.value.1 < |ss| && Clear(ss[r.value.0]) && Clear(ss[r.value.1])
              && forall i :: 0 <= i < |ss| && Clear(ss[i]) ==> r.value.0 <= i <= r.value.1
  {
    if ss == [] then None
    else
      var r, n := ClearSpan(ss[..|ss| - 1]), |ss| - 1;
      if !Clear(ss[n]) then r else Some((if r.Some? then r.value.0 else n, n))
  }

  /** Every daytime slot with less than half of the sky covered lies in the span, and its ends are such. */
  lemma {:induction false} ClearSpanMeaning(ss: seq<Slot>, i: nat)
    requires i < |ss|
    ensures var r := ClearSpan(ss);
            && (ss[i].daytime && ss[i].cloud < 0.5 ==> r.Some? && r.value.0 <= i <= r.value.1)
            && (r.Some? && (i == r.value.0 || i == r.value.1) ==> ss[i].daytime && ss[i].cloud < 0.5)
  {
    assert Clear(ss[i]) <==> ss[i].daytime && ss[i].cloud < 0.5;
  }

  function Mean(w: seq<real>): real {
    if w == [] then 0.0 else Average(w)
  }

  function SkyOf(ss: seq<Slot>): Sky {
    Sky(Mean(Clouds(ss)), SunHours(ss), ClearSpan(ss))
  }

  function RangeOf(p: Plan, wh: real, cloud: real, headroom: real): Range
    requires p.Proper()
  {
    var e := WithMargin(wh, cloud);
    Range(e.lo, e.hi, wh / p.voltage, e.lo / p.voltage, e.hi / p.voltage,
          MaxReal(0.0, MinReal(headroom, e.lo / p.capWh * 100.0)), MinReal(headroom, e.hi / p.capWh * 100.0))
  }

  function Headroom(soc: real): real {
    MaxReal(0.0, 100.0 - soc)
  }

  function DayOf(p: Plan, soc: real, ss: seq<Slot>): Day
    requires p.Proper()
  {
    var nominal, accepted, after := NominalSum(p, ss), Sum(Charges(p, soc, ss)), SocThrough(p, soc, ss);
    var wh := (if p.Realistic() then accepted else nominal) * 1000.0;
    Day(nominal, accepted, wh, MinReal(Headroom(after), wh / p.capWh * 100.0),
        RangeOf(p, wh, SkyOf(ss).cloudCover, Headroom(after)), SkyOf(ss), after)
  }

  datatype Week = Week(daily: seq<Day>, nominal: real, accepted: real, soc: real)

  function WeekOf(p: Plan, soc: real, m: Days): (w: Week)
    requires p.Proper()
    ensures |w.daily| == |m|
  {
    if m == [] then Week([], 0.0, 0.0, soc)
    else
      var w := WeekOf(p, soc, m[..|m| - 1]);
      var d := DayOf(p, w.soc, m[|m| - 1].value);
      Week(w.daily + [d], w.nominal + d.kwh, w.accepted + d.acceptedKwh, d.socAfter)
  }

  method GroupByDay(dayKey: DayKey, slots: seq<Slot>) returns (m: Days)
    ensures m == ByDay(dayKey, slots)
  {
    m := [];
    for i := 0 to |slots|
      invariant m == ByDay(dayKey, slots[..i])
    {
      assert slots[..i + 1][..i] == slots[..i];
      var key := dayKey(slots[i].ts);
      m := Put(m, key, DaySlots(m, key) + [slots[i]], Earlier);
    }
    assert slots[..|slots|] == slots;
  }

  lemma SkyStep(ss: seq<Slot>, i: nat)
    requires i < |ss|
    ensures ss[..i + 1][..i] == ss[..i] && ss[..i + 1] == ss[..i] + [ss[i]]
    ensures var a, s := ss[..i], ss[i];
            && Clouds(ss[..i + 1]) == (if s.daytime then Clouds(a) + [s.cloud] else Clouds(a))
            && (s.daytime ==> Sum(Clouds(ss[..i + 1])) == Sum(Clouds(a)) + s.cloud)
            && SunHours(ss[..i + 1]) == (if s.daytime then SunHours(a) + 3.0 * (1.0 - s.cloud) else SunHours(a))
            && ClearSpan(ss[..i + 1]) ==
                 if !Clear(s) then ClearSpan(a) else Some((if ClearSpan(a).Some? then ClearSpan(a).value.0 else i, i))
  {
    assert ss[..i + 1][..i] == ss[..i];
    SumAppend(Clouds(ss[..i]), ss[i].cloud);
  }

  method DayPass(p: Plan, soc: real, daySlots: seq<Slot>) returns (d: Day)
    requires p.Proper()
    ensures d == DayOf(p, soc, daySlots)
  {
    hide SlotKwh, Acceptance, Accepted, Advance, Reduced, Clouds, SunHours, ClearSpan, Sum, WithMargin;
    var nominal, accepted, after := 0.0, 0.0, soc;
    var cloudSum, cloudN, sunHours := 0.0, 0, 0.0;
    var clear: Option<(nat, nat)> := None;
    NoSky();
    for i := 0 to |daySlots|
      invariant nominal == NominalSum(p, daySlots[..i]) && after == SocThrough(p, soc, daySlots[..i])
      invariant accepted == Sum(Charges(p, soc, daySlots[..i]))
      invariant cloudSum == Sum(Clouds(daySlots[..i])) && cloudN == |Clouds(daySlots[..i])|
      invariant sunHours == SunHours(daySlots[..i]) && clear == ClearSpan(daySlots[..i])
    {
      SkyStep(daySlots, i);
      SumAppend(Charges(p, soc, daySlots[..i]), Accepted(p, after, daySlots[i]));
      var s := daySlots[i];
      SlotArithmetic(p, after, s);
      NightAcceptsNothing(p, after, s);
      ghost var before := after;
      if s.daytime {
        var slotKwh := SlotKwh(p, s);
        nominal := nominal + slotKwh;
        var acc := slotKwh;
        if p.profile != [] {
          var ar := AcceptanceAtSoc(p.profile, after);
          acc := Reduced(acc, ar);
        }
        accepted := accepted + acc;
        cloudSum, cloudN := cloudSum + s.cloud, cloudN + 1;
        sunHours := sunHours + 3.0 * (1.0 - s.cloud);
        if p.profile != [] && p.capWh > 0.0 {
          after := after + acc * 1000.0 / p.capWh * 100.0;
          AdvanceArithmetic(p, before, acc, after);
          if after > 100.0 { after := 100.0; }
        }
      }
      if s.daytime && s.cloud < 0.5 {
        clear := Some((if clear.Some? then clear.value.0 else i, i));
      }
    }
    assert daySlots[..|daySlots|] == daySlots;
    var cloudCover := if cloudN > 0 then cloudSum / cloudN as real else 0.0;
    var dayWh := (if p.profile != [] then accepted else nominal) * 1000.0;
    var headroom := MaxReal(0.0, 100.0 - after);
    var e := WithMargin(dayWh, cloudCover);
    var range := Range(e.lo, e.hi, dayWh / p.voltage, e.lo / p.voltage, e.hi / p.voltage,
                       MaxReal(0.0, MinReal(headroom, e.lo / p.capWh * 100.0)),
                       MinReal(headroom, e.hi / p.capWh * 100.0));
    d := Day(nominal, accepted, dayWh, MinReal(headroom, dayWh / p.capWh * 100.0), range,
             Sky(cloudCover, sunHours, clear), after);
  }

  lemma NoSky()
    ensures Clouds([]) == [] && SunHours([]) == 0.0 && ClearSpan([]) == None && Sum([]) == 0.0
  {
  }

  /** The first of the days with the largest nominal energy, if any has some. */
  function BestDay(daily: seq<Day>): (r: Option<nat>)
    ensures r.None? ==> forall j :: 0 <= j < |daily| ==> daily[j].kwh <= 0.0
    ensures r.Some? ==>
              && r.value < |daily| && daily[r.value].kwh > 0.0
              && forall j :: 0 <= j < |daily| ==>
                   daily[j].kwh <= daily[r.value].kwh && (j < r.value ==> daily[j].kwh < daily[r.value].kwh)
  {
    if daily == [] then None
    else
      var r, n := BestDay(daily[..|daily| - 1]), |daily| - 1;
      if daily[n].kwh > (if r.Some? then daily[r.value].kwh else 0.0) then Some(n) else r
  }

  method WeekPass(p: Plan, soc: real, m: Days) returns (w: Week, best: Option<nat>, recoveryWh: real)
    requires p.Proper()
    ensures w == WeekOf(p, soc, m) && best == BestDay(w.daily)
    ensures recoveryWh == (if p.Realistic() then w.accepted else w.nominal) * 1000.0
  {
    hide DayOf, BestDay;
    var daily, nominal, accepted, projected := [], 0.0, 0.0, soc;
    var bestKwh := 0.0;
    best := None;
    NoBestDay();
    for i := 0 to |m|
      invariant Week(daily, nominal, accepted, projected) == WeekOf(p, soc, m[..i]) && |daily| == i
      invariant best == BestDay(daily) && bestKwh == if best.Some? then daily[best.value].kwh else 0.0
    {
      assert m[..i + 1][..i] == m[..i];
      var d := DayPass(p, projected, m[i].value);
      BestDayAppend(daily, d);
      daily := daily + [d];
      nominal, accepted, projected := nominal + d.kwh, accepted + d.acceptedKwh, d.socAfter;
      if d.kwh > bestKwh { bestKwh, best := d.kwh, Some(i); }
    }
    assert m[..|m|] == m;
    w := Week(daily, nominal, accepted, projected);
    recoveryWh := (if p.profile != [] then accepted else nominal) * 1000.0;
  }

  lemma NoBestDay()
    ensures BestDay([]) == None
  {
  }

  lemma {:induction false} BestDayAppend(daily: seq<Day>, d: Day)
    ensures BestDay(daily + [d]) ==
              var r := BestDay(daily);
              if d.kwh > (if r.Some? then daily[r.value].kwh else 0.0) then Some(|daily|) else r
  {
    assert (daily + [d])[..|daily|] == daily;
  }

  /** Days until the battery is full: the first day whose accumulated recovery covers the missing
      energy, or all the days there are when none does and there is some sun. */
  method DaysToFull(daily: seq<Day>, energyToFull: real, weekNominal: real) returns (days: nat)
    ensures days == FullOn(daily, energyToFull, weekNominal)
  {
    var cumul := 0.0;
    days := 0;
    for i := 0 to |daily|
      invariant cumul == RecoveredWh(daily[..i])
      invariant days <= i
      invariant days == 0 ==> forall k :: 0 < k <= i ==> RecoveredWh(daily[..k]) < energyToFull
      invariant days > 0 ==> IsFirstFull(daily, energyToFull, days)
    {
      assert daily[..i + 1][..i] == daily[..i];
      cumul := cumul + daily[i].recoveryWh;
      if cumul >= energyToFull && days == 0 {
        days := i + 1;
      }
    }
    FirstFullIsUnique(daily, energyToFull);
    if days == 0 && weekNominal > 0.0 { days := |daily|; }
  }

  function RecoveredWh(daily: seq<Day>): real {
    if daily == [] then 0.0 else RecoveredWh(daily[..|daily| - 1]) + daily[|daily| - 1].recoveryWh
  }

  /** Day number `d`, counted from 1, is the first by whose end the missing energy is recovered. */
  ghost predicate IsFirstFull(daily: seq<Day>, energyToFull: real, d: nat) {
    && 0 < d <= |daily| && RecoveredWh(daily[..d]) >= energyToFull
    && forall k :: 0 < k < d ==> RecoveredWh(daily[..k]) < energyToFull
  }

  ghost function FullOn(daily: seq<Day>, energyToFull: real, weekNominal: real): nat {
    if exists d: nat :: IsFirstFull(daily, energyToFull, d) then
      var d: nat :| IsFirstFull(daily, energyToFull, d); d
    else if weekNominal > 0.0 then |daily| else 0
  }

  lemma FirstFullIsUnique(daily: seq<Day>, energyToFull: real)
    ensures forall c: nat, d: nat ::
              IsFirstFull(daily, energyToFull, c) && IsFirstFull(daily, energyToFull, d) ==> c == d
  {
    hide RecoveredWh;
  }

  // ------------------------------------------------------------ the two passes agree

  lemma {:induction false} Concatenation(p: Plan, soc: real, a: seq<Slot>, b: seq<Slot>)
    requires p.Proper()
    ensures SocThrough(p, soc, a + b) == SocThrough(p, SocThrough(p, soc, a), b)
    ensures Charges(p, soc, a + b) == Charges(p, soc, a) + Charges(p, SocThrough(p, soc, a), b)
    ensures NominalSum(p, a + b) == NominalSum(p, a) + NominalSum(p, b)
    decreases |b|
  {
    hide SocAfter, Accepted, Nominal;
    if b == [] {
      assert a + b == a;
    } else {
      var n := |b| - 1;
      Concatenation(p, soc, a, b[..n]);
      assert (a + b)[..|a + b| - 1] == a + b[..n];
    }
  }

  lemma {:induction false} FlattenSnoc(m: Days)
    requires m != []
    ensures Flatten(m) == Flatten(m[..|m| - 1]) + m[|m| - 1].value
  {
    if |m| > 1 {
      FlattenSnoc(m[1..]);
      assert m[1..][..|m[1..]| - 1] == m[..|m| - 1][1..];
    } else {
      assert m[1..] == [] && m[..0] == [];
    }
  }

  /** Going through the days is going through their slots one after the other. */
  lemma {:induction false} WeekIsFlatWalk(p: Plan, soc: real, m: Days)
    requires p.Proper()
    ensures var w, ss := WeekOf(p, soc, m), Flatten(m);
            w.soc == SocThrough(p, soc, ss) && w.accepted == Sum(Charges(p, soc, ss)) && w.nominal == NominalSum(p, ss)
  {
    hide SocAfter, Accepted, Nominal;
    if m != [] {
      var front, last := m[..|m| - 1], m[|m| - 1].value;
      WeekIsFlatWalk(p, soc, front);
      FlattenSnoc(m);
      Concatenation(p, soc, Flatten(front), last);
      SumConcat(Charges(p, soc, Flatten(front)), Charges(p, SocThrough(p, soc, Flatten(front)), last));
    }
  }

  ghost predicate KeysInOrder(dayKey: DayKey, slots: seq<Slot>) {
    forall i, j :: 0 <= i < j < |slots| ==> dayKey(slots[i].ts) <= dayKey(slots[j].ts)
  }

  ghost predicate KeysUpTo(m: Days, k: int) {
    forall i :: 0 <= i < |m| ==> m[i].key <= k
  }

  lemma {:induction false} AddLatest(m: Days, k: int, s: Slot)
    requires Sorted(m, Earlier) && KeysUpTo(m, k)
    ensures Flatten(AddSlot(m, k, s)) == Flatten(m) + [s] && KeysUpTo(AddSlot(m, k, s), k)
  {
    if m == [] {
    } else if m[0].key == k {
      var first, last := m[0], m[|m| - 1];
      assert 0 < |m| - 1 ==> Earlier(first.key, last.key);
      assert m[1..] == [];
      assert AddSlot(m, k, s)[1..] == [];
    } else {
      AddLatest(m[1..], k, s);
      assert AddSlot(m, k, s) == [m[0]] + AddSlot(m[1..], k, s);
    }
  }

  lemma EarlierIsOrder()
    ensures StrictOrder(Earlier)
  {
  }

  lemma {:induction false} ByDaySorted(dayKey: DayKey, slots: seq<Slot>)
    ensures Sorted(ByDay(dayKey, slots), Earlier)
  {
    if slots != [] {
      var s := slots[|slots| - 1];
      var m := ByDay(dayKey, slots[..|slots| - 1]);
      ByDaySorted(dayKey, slots[..|slots| - 1]);
      EarlierIsOrder();
      PutSorts(m, dayKey(s.ts), DaySlots(m, dayKey(s.ts)) + [s], Earlier);
    }
  }

  lemma {:induction false} GroupingKeepsSorted(dayKey: DayKey, slots: seq<Slot>)
    requires KeysInOrder(dayKey, slots)
    ensures Flatten(ByDay(dayKey, slots)) == slots
    ensures slots != [] ==> KeysUpTo(ByDay(dayKey, slots), dayKey(slots[|slots| - 1].ts))
  {
    if slots != [] {
      var before, s := slots[..|slots| - 1], slots[|slots| - 1];
      GroupingKeepsSorted(dayKey, before);
      ByDaySorted(dayKey, before);
      if before != [] {
        assert dayKey(slots[|slots| - 2].ts) <= dayKey(s.ts);
      }
      AddLatest(ByDay(dayKey, before), dayKey(s.ts), s);
      assert slots == before + [s];
    }
  }

  /** Every slot is filed under its own day. */
  ghost predicate Filed(dayKey: DayKey, m: Days) {
    forall i, j :: 0 <= i < |m| && 0 <= j < |m[i].value| ==> dayKey(m[i].value[j].ts) == m[i].key
  }

  lemma {:induction false} AddSlotFiles(dayKey: DayKey, m: Days, s: Slot)
    requires Filed(dayKey, m) && Sorted(m, Earlier)
    ensures Filed(dayKey, AddSlot(m, dayKey(s.ts), s))
  {
    var k := dayKey(s.ts);
    if m == [] {
    } else if m[0].key == k {
      assert AddSlot(m, k, s) == [Entry(k, m[0].value + [s])] + m[1..];
    } else if Earlier(k, m[0].key) {
      AbsentBefore(m, k);
      assert AddSlot(m, k, s) == [Entry(k, [] + [s])] + m;
    } else {
      AddSlotFiles(dayKey, m[1..], s);
      assert AddSlot(m, k, s) == [m[0]] + AddSlot(m[1..], k, s);
    }
  }

  lemma {:induction false} ByDayFiles(dayKey: DayKey, slots: seq<Slot>)
    ensures Filed(dayKey, ByDay(dayKey, slots))
  {
    if slots != [] {
      ByDayFiles(dayKey, slots[..|slots| - 1]);
      ByDaySorted(dayKey, slots[..|slots| - 1]);
      AddSlotFiles(dayKey, ByDay(dayKey, slots[..|slots| - 1]), slots[|slots| - 1]);
    }
  }

  lemma {:induction false} FlattenedKeys(dayKey: DayKey, m: Days)
    requires Filed(dayKey, m) && Sorted(m, Earlier)
    ensures KeysInOrder(dayKey, Flatten(m))
    ensures forall j :: 0 <= j < |Flatten(m)| ==> exists i :: 0 <= i < |m| && dayKey(Flatten(m)[j].ts) == m[i].key
  {
    if m != [] {
      var first, rest := m[0].value, Flatten(m[1..]);
      FlattenedKeys(dayKey, m[1..]);
      forall j | 0 <= j < |rest|
        ensures m[0].key < dayKey(rest[j].ts)
        ensures exists i :: 0 <= i < |m| && dayKey(rest[j].ts) == m[i].key
      {
        var i :| 0 <= i < |m[1..]| && dayKey(rest[j].ts) == m[1..][i].key;
        assert m[i + 1].key == m[1..][i].key && Earlier(m[0].key, m[i + 1].key);
      }
    }
  }

  /** Grouping loses nothing and reorders nothing if and only if the day keys do not decrease. */
  lemma {:induction false} GroupingKeepsOrder(dayKey: DayKey, slots: seq<Slot>)
    ensures Flatten(ByDay(dayKey, slots)) == slots <==> KeysInOrder(dayKey, slots)
  {
    ByDaySorted(dayKey, slots);
    ByDayFiles(dayKey, slots);
    FlattenedKeys(dayKey, ByDay(dayKey, slots));
    if KeysInOrder(dayKey, slots) { GroupingKeepsSorted(dayKey, slots); }
  }

  /** The pass over slots and the pass over days end with the same accepted energy and the same state
      of charge, for every profile, whenever the slots come in the order of their days. */
  lemma {:induction false} PassesAgree(p: Plan, soc: real, dayKey: DayKey, slots: seq<Slot>)
    requires p.Proper() && KeysInOrder(dayKey, slots)
    ensures var w := WeekOf(p, soc, ByDay(dayKey, slots));
            && w.accepted == Sum(Charges(p, soc, slots))
            && w.nominal == NominalSum(p, slots)
            && w.soc == SocThrough(p, soc, slots)
  {
    GroupingKeepsOrder(dayKey, slots);
    WeekIsFlatWalk(p, soc, ByDay(dayKey, slots));
  }

  lemma {:induction false} AddSlotNominal(p: Plan, m: Days, k: int, s: Slot)
    ensures NominalSum(p, Flatten(AddSlot(m, k, s))) == NominalSum(p, Flatten(m)) + Nominal(p, s)
    requires p.Proper()
    requires Sorted(m, Earlier)
  {
    hide Nominal, Sorted;
    NominalOne(p, s);
    if m == [] || Earlier(k, m[0].key) {
      if m != [] { AbsentBefore(m, k); }
      assert DaySlots(m, k) + [s] == [s];
      assert AddSlot(m, k, s) == [Entry(k, [s])] + m;
      assert Flatten(AddSlot(m, k, s)) == [s] + Flatten(m);
      Concatenation(p, 0.0, [s], Flatten(m));
    } else if m[0].key == k {
      assert AddSlot(m, k, s) == [Entry(k, m[0].value + [s])] + m[1..];
      assert Flatten(AddSlot(m, k, s)) == m[0].value + ([s] + Flatten(m[1..]));
      Concatenation(p, 0.0, m[0].value, [s] + Flatten(m[1..]));
      Concatenation(p, 0.0, [s], Flatten(m[1..]));
      Concatenation(p, 0.0, m[0].value, Flatten(m[1..]));
    } else {
      SortedTail(m);
      AddSlotNominal(p, m[1..], k, s);
      assert AddSlot(m, k, s) == [m[0]] + AddSlot(m[1..], k, s);
      assert Flatten(AddSlot(m, k, s)) == m[0].value + Flatten(AddSlot(m[1..], k, s));
      Concatenation(p, 0.0, m[0].value, Flatten(AddSlot(m[1..], k, s)));
      Concatenation(p, 0.0, m[0].value, Flatten(m[1..]));
    }
  }

  lemma {:induction false} NominalOne(p: Plan, s: Slot)
    ensures NominalSum(p, [s]) == Nominal(p, s)
  {
    assert [s][..0] == [];
  }

  lemma SortedTail(m: Days)
    requires Sorted(m, Earlier) && m != []
    ensures Sorted(m[1..], Earlier)
  {
  }

  lemma AbsentBefore(m: Days, k: int)
    requires Sorted(m, Earlier) && m != [] && Earlier(k, m[0].key)
    ensures DaySlots(m, k) == []
  {
    forall i | 0 <= i < |m| ensures m[i].key != k {
      if i > 0 { assert Earlier(m[0].key, m[i].key); }
    }
    AbsentBelow(m, k);
  }

  lemma {:induction false} GroupingKeepsNominal(p: Plan, dayKey: DayKey, slots: seq<Slot>)
    requires p.Proper()
    ensures NominalSum(p, Flatten(ByDay(dayKey, slots))) == NominalSum(p, slots)
  {
    if slots != [] {
      var before, s := slots[..|slots| - 1], slots[|slots| - 1];
      GroupingKeepsNominal(p, dayKey, before);
      ByDaySorted(dayKey, before);
      AddSlotNominal(p, ByDay(dayKey, before), dayKey(s.ts), s);
    }
  }

  lemma {:induction false} NominalCharges(p: Plan, soc: real, ss: seq<Slot>)
    requires p.Proper() && !p.Realistic()
    ensures Sum(Charges(p, soc, ss)) == NominalSum(p, ss) && SocThrough(p, soc, ss) == soc
  {
    hide Accepted, Nominal;
    if ss != [] {
      var before := ss[..|ss| - 1];
      NominalCharges(p, soc, before);
      SumAppend(Charges(p, soc, before), Accepted(p, SocThrough(p, soc, before), ss[|ss| - 1]));
      SlotArithmetic(p, SocThrough(p, soc, before), ss[|ss| - 1]);
    }
  }

  /** A nominal forecast needs no order: its totals agree however the slots are listed. */
  lemma {:induction false} NominalPassesAgree(p: Plan, soc: real, dayKey: DayKey, slots: seq<Slot>)
    requires p.Proper() && !p.Realistic()
    ensures var w := WeekOf(p, soc, ByDay(dayKey, slots));
            && w.nominal == w.accepted == Sum(Charges(p, soc, slots))
            && w.soc == SocThrough(p, soc, slots) == soc
  {
    var m := ByDay(dayKey, slots);
    WeekIsFlatWalk(p, soc, m);
    GroupingKeepsNominal(p, dayKey, slots);
    NominalCharges(p, soc, slots);
    NominalCharges(p, soc, Flatten(m));
  }

  // ------------------------------------------------------------ what the slots offer

  /** A daytime slot offers what the panels yield in three hours or what the charger can take in them,
      whichever is less. */
  lemma SlotOffer(p: Plan, s: Slot, panels: real, limit: real)
    requires panels == p.panelWatts * p.efficiency * (1.0 - s.cloud) * 3.0 / 1000.0
    requires limit == p.maxChargeW * 3.0 / 1000.0
    ensures s.daytime ==> Nominal(p, s) <= limit && Nominal(p, s) <= panels
    ensures s.daytime ==> Nominal(p, s) == limit || Nominal(p, s) == panels
    ensures !s.daytime ==> Nominal(p, s) == 0.0
  {
    RegroupedYield(p.panelWatts, p.efficiency, 1.0 - s.cloud);
  }

  lemma RegroupedYield(w: real, e: real, c: real)
    ensures w * 3.0 * e * c / 1000.0 == w * e * c * 3.0 / 1000.0
  {
    assert w * 3.0 * e == w * e * 3.0;
  }

  function DaytimeSlots(ss: seq<Slot>): nat {
    if ss == [] then 0 else DaytimeSlots(ss[..|ss| - 1]) + if ss[|ss| - 1].daytime then 1 else 0
  }

  /** The panels yield no more than the charger can take. */
  ghost predicate ChargerKeepsUp(p: Plan, s: Slot) {
    p.panelWatts * p.efficiency * (1.0 - s.cloud) <= p.maxChargeW
  }

  ghost predicate ChargerAlwaysKeepsUp(p: Plan, ss: seq<Slot>) {
    forall i :: 0 <= i < |ss| && ss[i].daytime ==> ChargerKeepsUp(p, ss[i])
  }

  /** Energy `kwh` is at most what the charger takes, and what the panels yield, in so many hours. */
  ghost predicate Limited(p: Plan, kwh: real, hours: real, sunHours: real) {
    1000.0 * kwh <= p.maxChargeW * hours && 1000.0 * kwh <= p.panelWatts * p.efficiency * sunHours
  }

  /** Energy `kwh` is what the panels yield in so many hours of full sun. */
  ghost predicate Yielded(p: Plan, kwh: real, sunHours: real) {
    1000.0 * kwh == p.panelWatts * p.efficiency * sunHours
  }

  lemma NothingLimited(p: Plan)
    ensures Limited(p, 0.0, 0.0, 0.0) && Yielded(p, 0.0, 0.0)
  {
  }

  lemma LimitsAdd(p: Plan, k1: real, h1: real, s1: real, k2: real, h2: real, s2: real)
    ensures Limited(p, k1, h1, s1) && Limited(p, k2, h2, s2) ==> Limited(p, k1 + k2, h1 + h2, s1 + s2)
    ensures Yielded(p, k1, s1) && Yielded(p, k2, s2) ==> Yielded(p, k1 + k2, s1 + s2)
  {
    Distributes(p.maxChargeW, h1, h2);
    Distributes(p.panelWatts * p.efficiency, s1, s2);
  }

  lemma Distributes(k: real, a: real, b: real)
    ensures k * (a + b) == k * a + k * b
  {
  }

  lemma SlotIsLimited(p: Plan, s: Slot)
    requires s.daytime
    ensures Limited(p, Nominal(p, s), 3.0, 3.0 * (1.0 - s.cloud))
    ensures ChargerKeepsUp(p, s) ==> Yielded(p, Nominal(p, s), 3.0 * (1.0 - s.cloud))
  {
    var w, clear := p.panelWatts * p.efficiency, 1.0 - s.cloud;
    SlotOffer(p, s, w * clear * 3.0 / 1000.0, p.maxChargeW * 3.0 / 1000.0);
    assert w * (3.0 * clear) == w * clear * 3.0;
    hide Nominal;
  }

  /** The nominal energy of any slots is at most the charger's limit for the daytime ones, and at most what
      the panels yield in their sun hours; it is that yield when the charger keeps up. */
  lemma {:induction false} NominalIsLimited(p: Plan, ss: seq<Slot>)
    ensures Limited(p, NominalSum(p, ss), 3.0 * DaytimeSlots(ss) as real, SunHours(ss))
    ensures ChargerAlwaysKeepsUp(p, ss) ==> Yielded(p, NominalSum(p, ss), SunHours(ss))
  {
    hide Nominal, Limited, Yielded, ChargerKeepsUp;
    if ss == [] {
      NothingLimited(p);
    } else {
      var before, s := ss[..|ss| - 1], ss[|ss| - 1];
      NominalIsLimited(p, before);
      if ChargerAlwaysKeepsUp(p, ss) { assert ChargerAlwaysKeepsUp(p, before); }
      if s.daytime {
        SlotIsLimited(p, s);
        LimitsAdd(p, NominalSum(p, before), 3.0 * DaytimeSlots(before) as real, SunHours(before),
                  Nominal(p, s), 3.0, 3.0 * (1.0 - s.cloud));
      } else {
        NightOffersNothing(p, s);
      }
    }
  }

  lemma NightOffersNothing(p: Plan, s: Slot)
    requires !s.daytime
    ensures Nominal(p, s) == 0.0
  {
  }

  lemma {:induction false} SunHoursOfClouds(ss: seq<Slot>)
    ensures |Clouds(ss)| == DaytimeSlots(ss)
    ensures SunHours(ss) == 3.0 * (DaytimeSlots(ss) as real - Sum(Clouds(ss)))
  {
    if ss == [] {
      NoSky();
    } else {
      var before, s := ss[..|ss| - 1], ss[|ss| - 1];
      SunHoursOfClouds(before);
      SumAppend(Clouds(before), s.cloud);
      assert Clouds(before) + [] == Clouds(before);
      hide Sum;
    }
  }

  lemma {:induction false} MeanTimesSize(w: seq<real>, n: nat)
    requires n == |w|
    ensures if n == 0 then Mean(w) == 0.0 && Sum(w) == 0.0 else Mean(w) * n as real == Sum(w)
  {
    if w != [] {
      var q := Sum(w) / n as real;
      assert q * n as real == Sum(w);
    }
  }

  /** The cloud cover of a day is the mean over its daytime slots: the sky left clear, over three hours for
      each of them, is the day's sun hours. */
  lemma {:induction false} CloudCoverIsMean(ss: seq<Slot>)
    ensures var sky, n := SkyOf(ss), DaytimeSlots(ss);
            if n == 0 then sky.cloudCover == 0.0 && sky.sunHours == 0.0
            else sky.sunHours == 3.0 * (n as real - sky.cloudCover * n as real)
  {
    hide Sum, Clouds, SunHours, ClearSpan, Mean, DaytimeSlots;
    SunHoursOfClouds(ss);
    MeanTimesSize(Clouds(ss), DaytimeSlots(ss));
  }

  /** The same of a week: grouping the slots into days does not change what they offer. */
  lemma {:induction false} WeekIsLimited(p: Plan, soc: real, dayKey: DayKey, slots: seq<Slot>)
    requires p.Proper()
    ensures var w := WeekOf(p, soc, ByDay(dayKey, slots));
            && Limited(p, w.nominal, 3.0 * DaytimeSlots(slots) as real, SunHours(slots))
            && (ChargerAlwaysKeepsUp(p, slots) ==> Yielded(p, w.nominal, SunHours(slots)))
  {
    hide WeekOf, NominalSum, ChargerAlwaysKeepsUp, Limited, Yielded;
    WeekIsFlatWalk(p, soc, ByDay(dayKey, slots));
    GroupingKeepsNominal(p, dayKey, slots);
    NominalIsLimited(p, slots);
  }

  /** 2000 W of panels on a 13 V battery with a 10 A charger: 0.39 kWh in a clear slot, where the panels
      would yield 4.5; and the defaults for missing inputs. */
  lemma SmallCharger(ts: int)
    ensures var p := MakePlan(2000.0, 0.75, 10.0, 13.0, 100.0, []);
            && p == Plan(2000.0, 0.75, 130.0, 1300.0, 13.0, [])
            && Nominal(p, Slot(ts, 0.0, true)) == 0.39 && Nominal(p, Slot(ts, 0.96, true)) == 0.18
    ensures MakePlan(100.0, 0.75, 0.0, 1.0, 0.0, []) == Plan(100.0, 0.75, 512.0, 5120.0, 51.2, [])
    ensures Nominal(MakePlan(100.0, 0.75, 0.0, 1.0, 0.0, []), Slot(ts, 0.2, true)) == 0.18
  {
  }

  // ------------------------------------------------------------ accepted, nominal and full

  /** Ratios are fractions and no slot offers negative energy. */
  ghost predicate Physical(p: Plan, ss: seq<Slot>) {
    && p.Proper()
    && (forall k :: 0 <= k < |p.profile| ==> 0.0 <= p.profile[k].ratio <= 1.0)
    && forall i :: 0 <= i < |ss| ==> SlotKwh(p, ss[i]) >= 0.0
  }

  /** Panels never draw power, ratios are fractions, and cloud cover is at most whole. */
  ghost predicate Panels(p: Plan, ss: seq<Slot>) {
    && p.Proper() && p.panelWatts >= 0.0 && p.efficiency >= 0.0
    && (forall k :: 0 <= k < |p.profile| ==> 0.0 <= p.profile[k].ratio <= 1.0)
    && forall i :: 0 <= i < |ss| ==> ss[i].cloud <= 1.0
  }

  lemma PanelsArePhysical(p: Plan, ss: seq<Slot>)
    requires Panels(p, ss)
    ensures Physical(p, ss)
  {
    hide SlotKwh;
    forall i | 0 <= i < |ss| ensures SlotKwh(p, ss[i]) >= 0.0 {
      PanelOffers(p, ss[i]);
    }
  }

  lemma PanelOffers(p: Plan, s: Slot)
    requires p.Proper() && p.panelWatts >= 0.0 && p.efficiency >= 0.0 && s.cloud <= 1.0
    ensures SlotKwh(p, s) >= 0.0
  {
    NonNegativeProduct(p.panelWatts * 3.0, p.efficiency);
    NonNegativeProduct(p.panelWatts * 3.0 * p.efficiency, 1.0 - s.cloud);
  }

  lemma NonNegativeProduct(a: real, b: real)
    requires a >= 0.0 && b >= 0.0
    ensures a * b >= 0.0
  {
  }

  lemma {:induction false} SearchInRange(profile: seq<Bucket>, b: int, delta: nat)
    requires forall k :: 0 <= k < |profile| ==> 0.0 <= profile[k].ratio <= 1.0
    ensures 0.0 <= Search(profile, b, delta) <= 1.0
    decreases 5 - delta
  {
    if delta <= 4 { SearchInRange(profile, b, delta + 1); }
  }

  lemma ReducedInRange(kwh: real, ratio: real)
    requires kwh >= 0.0 && 0.0 <= ratio <= 1.0
    ensures 0.0 <= Reduced(kwh, ratio) <= kwh
  {
  }

  lemma SlotInRange(p: Plan, soc: real, s: Slot)
    requires p.Proper() && (forall k :: 0 <= k < |p.profile| ==> 0.0 <= p.profile[k].ratio <= 1.0)
    requires SlotKwh(p, s) >= 0.0
    ensures 0.0 <= Accepted(p, soc, s) <= Nominal(p, s)
  {
    SearchInRange(p.profile, BucketOf(soc), 0);
    hide SlotKwh, Search, Reduced;
    ReducedInRange(SlotKwh(p, s), Acceptance(p.profile, soc));
  }

  lemma {:induction false} ChargesWithinNominal(p: Plan, soc: real, ss: seq<Slot>)
    requires Physical(p, ss)
    ensures 0.0 <= Sum(Charges(p, soc, ss)) <= NominalSum(p, ss)
    ensures forall i :: 0 <= i < |ss| ==> 0.0 <= Charges(p, soc, ss)[i] <= Nominal(p, ss[i])
  {
    hide SlotKwh, Accepted, Nominal, SocAfter;
    if ss != [] {
      var before, s := ss[..|ss| - 1], ss[|ss| - 1];
      var at := SocThrough(p, soc, before);
      ChargesWithinNominal(p, soc, before);
      SlotInRange(p, at, s);
      SumAppend(Charges(p, soc, before), Accepted(p, at, s));
    }
  }

  /** The accepted energy never exceeds the nominal one, in total and in every slot. */
  lemma {:induction false} AcceptedWithinNominal(p: Plan, soc: real, ss: seq<Slot>)
    requires Panels(p, ss)
    ensures 0.0 <= Sum(Charges(p, soc, ss)) <= NominalSum(p, ss)
    ensures forall i :: 0 <= i < |ss| ==> 0.0 <= Charges(p, soc, ss)[i] <= Nominal(p, ss[i])
  {
    PanelsArePhysical(p, ss);
    ChargesWithinNominal(p, soc, ss);
  }

  function Shift(p: Plan, kwh: real): real
    requires p.Proper()
  {
    kwh * 1000.0 / p.capWh * 100.0
  }

  lemma ShiftAdds(p: Plan, soc: real, a: real, b: real)
    requires p.Proper()
    ensures Shift(p, a) + Shift(p, b) == Shift(p, a + b) && Shift(p, 0.0) == 0.0
    ensures a >= 0.0 ==> Shift(p, a) >= 0.0
    ensures Advance(p, soc, a) == MinReal(soc + Shift(p, a), 100.0)
  {
  }

  /** In a realistic forecast the projected charge is the start plus everything accepted, up to 100. */
  lemma {:induction false} SocIsAccumulated(p: Plan, soc: real, ss: seq<Slot>)
    requires Physical(p, ss) && p.Realistic() && soc <= 100.0
    ensures SocThrough(p, soc, ss) == MinReal(soc + Shift(p, Sum(Charges(p, soc, ss))), 100.0)
  {
    hide SlotKwh, Accepted, Advance, Shift;
    if ss == [] {
      ShiftAdds(p, soc, 0.0, 0.0);
    } else {
      var before, s := ss[..|ss| - 1], ss[|ss| - 1];
      var at := SocThrough(p, soc, before);
      var total, k := Sum(Charges(p, soc, before)), Accepted(p, at, s);
      SocIsAccumulated(p, soc, before);
      SlotInRange(p, at, s);
      NightAcceptsNothing(p, at, s);
      SumAppend(Charges(p, soc, before), k);
      ShiftAdds(p, at, k, total);
    }
  }

  /** The same without percentages of percentages: as long as the battery is not full, the capacity times
      the percentage points gained is a hundred times the accepted watt hours. */
  lemma {:induction false} ChargeBalances(p: Plan, soc: real, ss: seq<Slot>)
    requires Physical(p, ss) && p.Realistic() && soc <= 100.0
    ensures var end, wh := SocThrough(p, soc, ss), Sum(Charges(p, soc, ss)) * 1000.0;
            && soc <= end <= 100.0 && p.capWh * (end - soc) <= 100.0 * wh
            && (end < 100.0 ==> p.capWh * (end - soc) == 100.0 * wh)
  {
    hide Charges, SocThrough, Sum, SlotKwh;
    SocIsAccumulated(p, soc, ss);
    ChargesWithinNominal(p, soc, ss);
    var kwh := Sum(Charges(p, soc, ss));
    ShiftAdds(p, soc, kwh, 0.0);
    ShiftTimesCapacity(p, kwh);
    if SocThrough(p, soc, ss) < soc + Shift(p, kwh) {
      assert p.capWh * (soc + Shift(p, kwh) - SocThrough(p, soc, ss)) >= 0.0;
    }
  }

  lemma ShiftTimesCapacity(p: Plan, kwh: real)
    requires p.Proper()
    ensures p.capWh * Shift(p, kwh) == 100.0 * (kwh * 1000.0)
  {
    var q := kwh * 1000.0 / p.capWh;
    assert q * p.capWh == kwh * 1000.0;
  }

  ghost function EnergyToFull(p: Plan, soc: real): real {
    (100.0 - soc) / 100.0 * p.capWh
  }

  lemma FullWhenRecovered(p: Plan, soc: real, kwh: real)
    requires p.Proper()
    ensures MinReal(soc + Shift(p, kwh), 100.0) == 100.0 <==> kwh * 1000.0 >= EnergyToFull(p, soc)
  {
    var x := kwh * 1000.0;
    var q := x / p.capWh;
    assert q * p.capWh == x;
    var need := (100.0 - soc) / 100.0;
    if q >= need { assert (q - need) * p.capWh >= 0.0; }
    if q < need { assert (need - q) * p.capWh > 0.0; }
  }

  lemma {:induction false} RecoveredIsAccepted(p: Plan, soc: real, m: Days)
    requires p.Proper() && p.Realistic()
    ensures RecoveredWh(WeekOf(p, soc, m).daily) == WeekOf(p, soc, m).accepted * 1000.0
  {
    hide Charges, SocThrough, NominalSum, Sum;
    if m != [] {
      RecoveredIsAccepted(p, soc, m[..|m| - 1]);
      var w := WeekOf(p, soc, m);
      assert w.daily[..|w.daily| - 1] == WeekOf(p, soc, m[..|m| - 1]).daily;
    }
  }

  lemma {:induction false} WeekPrefix(p: Plan, soc: real, m: Days, d: nat)
    requires p.Proper() && d <= |m|
    ensures WeekOf(p, soc, m).daily[..d] == WeekOf(p, soc, m[..d]).daily
  {
    hide DayOf;
    if d == |m| {
      assert m[..d] == m;
      if m != [] { WeekPrefix(p, soc, m[..|m| - 1], |m| - 1); }
    } else {
      WeekPrefix(p, soc, m[..|m| - 1], d);
      assert m[..|m| - 1][..d] == m[..d];
    }
  }

  /** By the end of a day the accumulated recovery covers the missing energy exactly when the projection
      stands at 100 then. */
  lemma {:induction false} FullDayIsFullProjection(p: Plan, soc: real, m: Days, d: nat)
    requires Physical(p, Flatten(m)) && p.Realistic() && soc <= 100.0 && d <= |m|
    ensures RecoveredWh(WeekOf(p, soc, m).daily[..d]) >= EnergyToFull(p, soc) <==> WeekOf(p, soc, m[..d]).soc == 100.0
  {
    hide RecoveredWh, WeekOf, SocThrough, Charges, EnergyToFull, SlotKwh;
    WeekPrefix(p, soc, m, d);
    RecoveredIsAccepted(p, soc, m[..d]);
    WeekIsFlatWalk(p, soc, m[..d]);
    FlattenPrefix(m, d);
    SocIsAccumulated(p, soc, Flatten(m[..d]));
    FullWhenRecovered(p, soc, Sum(Charges(p, soc, Flatten(m[..d]))));
  }

  /** The projection first stands at 100 at the end of day number `d`. */
  ghost predicate FirstProjectedFull(p: Plan, soc: real, m: Days, d: nat)
    requires p.Proper()
  {
    && 0 < d <= |m| && WeekOf(p, soc, m[..d]).soc == 100.0
    && forall k :: 0 < k < d ==> WeekOf(p, soc, m[..k]).soc != 100.0
  }

  lemma {:induction false} FirstFullIsFirstProjected(p: Plan, soc: real, m: Days, d: nat)
    requires Physical(p, Flatten(m)) && p.Realistic() && soc <= 100.0
    ensures IsFirstFull(WeekOf(p, soc, m).daily, EnergyToFull(p, soc), d) <==> FirstProjectedFull(p, soc, m, d)
  {
    hide RecoveredWh, WeekOf, EnergyToFull;
    forall k: nat | k <= |m|
      ensures RecoveredWh(WeekOf(p, soc, m).daily[..k]) >= EnergyToFull(p, soc) <==> WeekOf(p, soc, m[..k]).soc == 100.0
    {
      FullDayIsFullProjection(p, soc, m, k);
    }
  }

  /** The number of days to full that is reported is that of the first day whose projection stands at
      100, when there is one. */
  lemma {:induction false} DaysToFullIsProjected(p: Plan, soc: real, m: Days)
    requires Physical(p, Flatten(m)) && p.Realistic() && soc <= 100.0
    ensures var w := WeekOf(p, soc, m);
            var n := FullOn(w.daily, EnergyToFull(p, soc), w.nominal);
            if exists d: nat :: FirstProjectedFull(p, soc, m, d) then FirstProjectedFull(p, soc, m, n)
            else n == if w.nominal > 0.0 then |m| else 0
  {
    hide WeekOf, EnergyToFull, IsFirstFull, FirstProjectedFull;
    forall d: nat
      ensures IsFirstFull(WeekOf(p, soc, m).daily, EnergyToFull(p, soc), d) <==> FirstProjectedFull(p, soc, m, d)
    {
      FirstFullIsFirstProjected(p, soc, m, d);
    }
  }

  lemma {:induction false} FlattenPrefix(m: Days, d: nat)
    requires d <= |m|
    ensures Flatten(m[..d]) <= Flatten(m)
  {
    if d > 0 {
      FlattenPrefix(m[1..], d - 1);
      assert m[..d][1..] == m[1..][..d - 1];
    }
  }

  /** What a day adds to the projected charge, in percentage points, before the cap at 100. */
  function Gain(p: Plan, soc: real, ss: seq<Slot>): real
    requires p.Proper()
  {
    Shift(p, Sum(Charges(p, soc, ss)))
  }

  lemma {:induction false} RecoveryFormula(p: Plan, soc: real, ss: seq<Slot>)
    requires Physical(p, ss) && p.Realistic() && soc <= 100.0
    ensures Gain(p, soc, ss) >= 0.0 && SocThrough(p, soc, ss) == MinReal(soc + Gain(p, soc, ss), 100.0)
    ensures DayOf(p, soc, ss).recoveryPct == MinReal(100.0 - SocThrough(p, soc, ss), Gain(p, soc, ss))
  {
    hide Charges, SocThrough, Sum, NominalSum;
    SocIsAccumulated(p, soc, ss);
    ChargesWithinNominal(p, soc, ss);
    ShiftAdds(p, soc, Sum(Charges(p, soc, ss)), 0.0);
  }

  /** The interval around a day's recovery brackets it, in watt hours, in ampere hours and in percent. */
  lemma RecoveryIsBracketed(p: Plan, soc: real, ss: seq<Slot>)
    requires Panels(p, ss) && SkyOf(ss).cloudCover >= -1.0
    ensures var d := DayOf(p, soc, ss);
            && 0.0 <= d.range.whLo <= d.recoveryWh <= d.range.whHi
            && d.range.ah * p.voltage == d.recoveryWh && d.range.ahLo <= d.range.ah <= d.range.ahHi
            && 0.0 <= d.range.pctLo <= d.recoveryPct <= d.range.pctHi
            && d.recoveryWh == 1000.0 * if p.Realistic() then d.acceptedKwh else d.kwh
  {
    hide Charges, SocThrough, Sum, NominalSum, SkyOf, WithMargin;
    AcceptedWithinNominal(p, soc, ss);
    var d := DayOf(p, soc, ss);
    MarginsBracket(d.recoveryWh, SkyOf(ss).cloudCover);
    var e := WithMargin(d.recoveryWh, SkyOf(ss).cloudCover);
    DividesInOrder(e.lo, e.mid, p.voltage);
    DividesInOrder(e.mid, e.hi, p.voltage);
    DividesInOrder(e.lo, e.mid, p.capWh);
    DividesInOrder(e.mid, e.hi, p.capWh);
    assert d.recoveryWh / p.voltage * p.voltage == d.recoveryWh;
  }

  lemma DividesInOrder(a: real, b: real, n: real)
    requires 0.0 <= a <= b && n > 0.0
    ensures 0.0 <= a / n <= b / n
  {
  }

  /** A recovery in percent is what its watt hours amount to, and at most the headroom. */
  ghost predicate Recovers(pct: real, wh: real, headroom: real, p: Plan) {
    && pct <= headroom && p.capWh * pct <= 100.0 * wh
    && (pct == headroom || p.capWh * pct == 100.0 * wh)
  }

  lemma RecoversWithin(p: Plan, wh: real, headroom: real)
    requires p.Proper()
    ensures Recovers(MinReal(headroom, wh / p.capWh * 100.0), wh, headroom, p)
  {
    var q := wh / p.capWh;
    assert q * p.capWh == wh;
    if headroom < q * 100.0 { NonNegativeProduct(p.capWh, q * 100.0 - headroom); }
  }

  /** The recovery of any day, nominal or realistic, from its watt hours and the charge it ends with. */
  lemma DayRecovers(p: Plan, soc: real, ss: seq<Slot>)
    requires p.Proper()
    ensures var d := DayOf(p, soc, ss);
            Recovers(d.recoveryPct, d.recoveryWh, if d.socAfter < 100.0 then 100.0 - d.socAfter else 0.0, p)
  {
    hide Charges, SocThrough, Sum, NominalSum, SkyOf, RangeOf, Recovers;
    var d := DayOf(p, soc, ss);
    RecoversWithin(p, d.recoveryWh, Headroom(d.socAfter));
  }

  /** The headroom is taken after the day has charged the battery.  So the recovery reported for a day of
      a realistic forecast is what the day really adds if and only if it adds at most half of the headroom
      it found, or found none. */
  lemma {:induction false} RecoveryIsRightIff(p: Plan, soc: real, ss: seq<Slot>)
    requires Physical(p, ss) && p.Realistic() && soc <= 100.0
    ensures DayOf(p, soc, ss).recoveryPct == SocThrough(p, soc, ss) - soc <==>
            2.0 * Gain(p, soc, ss) <= 100.0 - soc || soc == 100.0
  {
    hide DayOf, SocThrough, Gain;
    RecoveryFormula(p, soc, ss);
  }

  /** In particular the day that fills a battery with room left reports a recovery of nought percent. */
  lemma {:induction false} FillingDayReportsNothing(p: Plan, soc: real, ss: seq<Slot>)
    requires Physical(p, ss) && p.Realistic() && soc <= 100.0 && SocThrough(p, soc, ss) == 100.0
    ensures DayOf(p, soc, ss).recoveryPct == 0.0
    ensures DayOf(p, soc, ss).recoveryWh == Sum(Charges(p, soc, ss)) * 1000.0
  {
    RecoveryFormula(p, soc, ss);
    hide Charges, SocThrough, Sum, Gain;
  }

  /** One slot of 1.2 kWh lifts a 3 kWh battery from 40 to 80 percent; the day reports 20. */
  lemma HalfOfTheGainReported()
    ensures var b := Bucket(1.0, 3);
            var p := Plan(400.0, 1.0, 1000.0, 3000.0, 10.0, [b, b, b, b, b, b, b, b, b, b]);
            var ss := [Slot(0, 0.0, true)];
            && Panels(p, ss) && SocThrough(p, 40.0, ss) == 80.0 && DayOf(p, 40.0, ss).recoveryPct == 20.0
  {
    var b, s := Bucket(1.0, 3), Slot(0, 0.0, true);
    var p := Plan(400.0, 1.0, 1000.0, 3000.0, 10.0, [b, b, b, b, b, b, b, b, b, b]);
    assert [s][..0] == [];
    assert SocThrough(p, 40.0, []) == 40.0 && Charges(p, 40.0, []) == [];
    assert BucketOf(40.0) == 4;
    var acceptance := Acceptance(p.profile, 40.0);
    assert acceptance == 1.0;
    assert SlotKwh(p, s) == 1.2;
    assert Accepted(p, 40.0, s) == 1.2;
    hide SlotKwh, Acceptance, Accepted, BucketOf;
    assert Charges(p, 40.0, [s]) == [] + [1.2];
    SumAppend([], 1.2);
  }
}
