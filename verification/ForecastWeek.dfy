/**
 The days that the daily weather service adds to the week after the days of the three-hour slots: dates
 that are covered already are skipped, and the charge simulation goes on in thirds of a day.
 */
module ForecastWeek {
  import opened Options
  import opened Windows
  import opened Forecast
  import opened OrderedMap

  datatype DailyEntry = DailyEntry(dt: int, cloud: real, daylightH: real, sunrise: int, sunset: int)

  /** The week so far with the dates it covers; `keys` and `windows` are those of the added days. */
  datatype Extension = Extension(week: Week, dates: set<int>, keys: seq<int>, windows: seq<Option<(int, int)>>)

  function ExtraNominal(p: Plan, e: DailyEntry): real {
    MinReal(p.panelWatts * e.daylightH * p.efficiency * (1.0 - e.cloud) / 1000.0, p.maxChargeW * e.daylightH / 1000.0)
  }

  /** The charge at the start of one third of a day, if the day yielded all it offers. */
  function SubSoc(p: Plan, soc: real, kwh: real, third: nat): real
    requires p.Proper()
  {
    MinReal(soc + third as real * kwh * 1000.0 / (3.0 * p.capWh) * 100.0, 100.0)
  }

  function SubAcceptance(p: Plan, soc: real, kwh: real, n: nat): real
    requires p.Proper()
  {
    if n == 0 then 0.0 else SubAcceptance(p, soc, kwh, n - 1) + Acceptance(p.profile, SubSoc(p, soc, kwh, n - 1))
  }

  function Thirds(kwh: real, total: real): real {
    kwh * total / 3.0
  }

  function ExtraAccepted(p: Plan, soc: real, kwh: real): real
    requires p.Proper()
  {
    if p.Realistic() then Thirds(kwh, SubAcceptance(p, soc, kwh, 3)) else kwh
  }

  function SunOf(e: DailyEntry): real {
    e.daylightH * (1.0 - e.cloud)
  }

  function ExtraSky(e: DailyEntry): Sky {
    Sky(e.cloud, SunOf(e), None)
  }

  /** The headroom of an added day is that of the present charge. */
  function ExtraDay(p: Plan, start: real, soc: real, e: DailyEntry): Day
    requires p.Proper()
  {
    var nominal := ExtraNominal(p, e);
    var accepted := ExtraAccepted(p, soc, nominal);
    var wh := (if p.Realistic() then accepted else nominal) * 1000.0;
    Day(nominal, accepted, wh, MinReal(Headroom(start), wh / p.capWh * 100.0),
        RangeOf(p, wh, e.cloud, Headroom(start)), ExtraSky(e),
        if p.Realistic() then Advance(p, soc, accepted) else soc)
  }

  function ExtraWindow(e: DailyEntry): (w: Option<(int, int)>)
    ensures w.Some? <==> e.cloud < 0.7 && 0 < e.sunrise < e.sunset
    ensures w.Some? ==> w.value == (e.sunrise, e.sunset)
  {
    if e.cloud < 0.7 && e.sunrise > 0 && e.sunset > e.sunrise then Some((e.sunrise, e.sunset)) else None
  }

  /** An entry whose date is covered already is skipped. */
  function ExtendOne(p: Plan, start: real, x: Extension, dayKey: DayKey, e: DailyEntry): Extension
    requires p.Proper()
  {
    var key, w := dayKey(e.dt), x.week;
    if key in x.dates then x
    else
      var d := ExtraDay(p, start, w.soc, e);
      Extension(Week(w.daily + [d], w.nominal + d.kwh, w.accepted + d.acceptedKwh, d.socAfter),
                x.dates + {key}, x.keys + [key], x.windows + [ExtraWindow(e)])
  }

  function Extended(p: Plan, start: real, x: Extension, dayKey: DayKey, es: seq<DailyEntry>): Extension
    requires p.Proper()
  {
    if es == [] then x else ExtendOne(p, start, Extended(p, start, x, dayKey, es[..|es| - 1]), dayKey, es[|es| - 1])
  }

  function Dates(m: Days): set<int> {
    set i | 0 <= i < |m| :: m[i].key
  }

  /** The week of the slots, before any day is added. */
  function SlotWeek(p: Plan, soc: real, m: Days): Extension
    requires p.Proper()
  {
    Extension(WeekOf(p, soc, m), Dates(m), [], [])
  }

  method AverageAcceptance(p: Plan, soc: real, kwh: real) returns (total: real)
    requires p.Proper()
    ensures total == SubAcceptance(p, soc, kwh, 3)
  {
    hide Acceptance;
    total := 0.0;
    for third := 0 to 3
      invariant total == SubAcceptance(p, soc, kwh, third)
    {
      var subSoc := soc + third as real * kwh * 1000.0 / (3.0 * p.capWh) * 100.0;
      if subSoc > 100.0 { subSoc := 100.0; }
      assert subSoc == SubSoc(p, soc, kwh, third);
      var ar := AcceptanceAtSoc(p.profile, subSoc);
      total := total + ar;
    }
  }

  method MakeExtraDay(p: Plan, start: real, soc: real, e: DailyEntry) returns (d: Day)
    requires p.Proper()
    ensures d == ExtraDay(p, start, soc, e)
  {
    hide ExtraNominal, SubAcceptance, Thirds, Advance, RangeOf, ExtraSky, Headroom;
    var nominal := ExtraNominal(p, e);
    var accepted, after := nominal, soc;
    if p.profile != [] {
      var total := AverageAcceptance(p, soc, nominal);
      accepted := Thirds(nominal, total);
      if p.capWh > 0.0 {
        after := soc + accepted * 1000.0 / p.capWh * 100.0;
        AdvanceArithmetic(p, soc, accepted, after);
        if after > 100.0 { after := 100.0; }
      }
    }
    var dayWh := (if p.profile != [] then accepted else nominal) * 1000.0;
    var headroom := Headroom(start);
    d := Day(nominal, accepted, dayWh, MinReal(headroom, dayWh / p.capWh * 100.0),
             RangeOf(p, dayWh, e.cloud, headroom), ExtraSky(e), after);
  }

  method ExtendWeek(p: Plan, start: real, x0: Extension, best0: Option<nat>, dayKey: DayKey, es: seq<DailyEntry>)
      returns (x: Extension, best: Option<nat>, recoveryWh: real)
    requires p.Proper() && best0 == BestDay(x0.week.daily)
    ensures x == Extended(p, start, x0, dayKey, es) && best == BestDay(x.week.daily)
    ensures recoveryWh == (if p.Realistic() then x.week.accepted else x.week.nominal) * 1000.0
  {
    hide ExtraDay, BestDay, ExtraWindow;
    x, best := x0, best0;
    for i := 0 to |es|
      invariant x == Extended(p, start, x0, dayKey, es[..i]) && best == BestDay(x.week.daily)
    {
      assert es[..i + 1][..i] == es[..i];
      var e, w := es[i], x.week;
      var key := dayKey(e.dt);
      if key !in x.dates {
        var d := MakeExtraDay(p, start, w.soc, e);
        BestDayAppend(w.daily, d);
        var bestKwh := if best.Some? then w.daily[best.value].kwh else 0.0;
        if d.kwh > bestKwh { best := Some(|w.daily|); }
        x := Extension(Week(w.daily + [d], w.nominal + d.kwh, w.accepted + d.acceptedKwh, d.socAfter),
                       x.dates + {key}, x.keys + [key], x.windows + [ExtraWindow(e)]);
      }
    }
    assert es[..|es|] == es;
    recoveryWh := (if p.profile != [] then x.week.accepted else x.week.nominal) * 1000.0;
  }

  /** Adding days keeps the days there are, and no date is covered twice. */
  lemma {:induction false} ExtensionKeepsDays(p: Plan, start: real, x: Extension, dayKey: DayKey, es: seq<DailyEntry>)
    requires p.Proper() && x.keys == []
    ensures var y := Extended(p, start, x, dayKey, es);
            && x.week.daily <= y.week.daily && |y.week.daily| == |x.week.daily| + |y.keys|
            && (forall i :: 0 <= i < |y.keys| ==> y.keys[i] !in x.dates && y.keys[i] in y.dates)
            && (forall i, j :: 0 <= i < j < |y.keys| ==> y.keys[i] != y.keys[j])
            && (forall i :: 0 <= i < |es| ==> dayKey(es[i].dt) in y.dates) && x.dates <= y.dates
  {
    hide ExtraDay, ExtraWindow;
    if es != [] {
      var before, e := es[..|es| - 1], es[|es| - 1];
      ExtensionKeepsDays(p, start, x, dayKey, before);
      OneMoreKeepsDays(p, start, Extended(p, start, x, dayKey, before), dayKey, e);
      hide ExtendOne;
      assert forall i :: 0 <= i < |before| ==> es[i] == before[i];
    }
  }

  lemma OneMoreKeepsDays(p: Plan, start: real, y: Extension, dayKey: DayKey, e: DailyEntry)
    requires p.Proper()
    ensures var z, key := ExtendOne(p, start, y, dayKey, e), dayKey(e.dt);
            if key in y.dates then z == y
            else
              && z.keys == y.keys + [key] && z.dates == y.dates + {key}
              && |z.week.daily| == |y.week.daily| + 1 && y.week.daily <= z.week.daily
  {
    hide ExtraDay, ExtraWindow;
  }

  /** The recoveries of all days add up to the accepted energy, and the projected charge is the start plus
      everything accepted, up to 100. */
  ghost predicate Accounted(p: Plan, start: real, w: Week)
    requires p.Proper()
  {
    RecoveredWh(w.daily) == w.accepted * 1000.0 && w.soc == MinReal(start + Shift(p, w.accepted), 100.0)
    && 0.0 <= w.accepted <= w.nominal
  }

  lemma {:induction false} SlotWeekIsAccounted(p: Plan, start: real, m: Days)
    requires Physical(p, Flatten(m)) && p.Realistic() && start <= 100.0
    ensures Accounted(p, start, WeekOf(p, start, m))
  {
    hide WeekOf, SocThrough, Charges, NominalSum, Sum, Shift, RecoveredWh;
    WeekIsFlatWalk(p, start, m);
    RecoveredIsAccepted(p, start, m);
    SocIsAccumulated(p, start, Flatten(m));
    ChargesWithinNominal(p, start, Flatten(m));
  }

  /** Daylight is positive and clouds are at most whole. */
  ghost predicate Daily(es: seq<DailyEntry>) {
    forall i :: 0 <= i < |es| ==> es[i].daylightH >= 0.0 && es[i].cloud <= 1.0
  }

  lemma ExtraOffers(p: Plan, e: DailyEntry)
    requires Panels(p, []) && e.daylightH >= 0.0 && e.cloud <= 1.0
    ensures ExtraNominal(p, e) >= 0.0
  {
    NonNegativeProduct(p.panelWatts, e.daylightH);
    NonNegativeProduct(p.panelWatts * e.daylightH, p.efficiency);
    NonNegativeProduct(p.panelWatts * e.daylightH * p.efficiency, 1.0 - e.cloud);
    NonNegativeProduct(p.maxChargeW, e.daylightH);
  }

  // ------------------------------------------------------------ what the further days offer

  /** A further day offers what the panels yield in its daylight or what the charger can take in it,
      whichever is less. */
  lemma ExtraOffer(p: Plan, e: DailyEntry, panels: real, limit: real)
    requires panels == p.panelWatts * p.efficiency * (e.daylightH * (1.0 - e.cloud)) / 1000.0
    requires limit == p.maxChargeW * e.daylightH / 1000.0
    ensures ExtraNominal(p, e) <= limit && ExtraNominal(p, e) <= panels
    ensures ExtraNominal(p, e) == limit || ExtraNominal(p, e) == panels
  {
    RegroupedDay(p.panelWatts, e.daylightH, p.efficiency, 1.0 - e.cloud);
  }

  lemma RegroupedDay(w: real, h: real, e: real, c: real)
    ensures w * h * e * c == w * e * (h * c)
  {
    assert w * h * e == w * e * h;
  }

  /** The entries whose dates were not covered before, in order. */
  function Added(p: Plan, start: real, x: Extension, dayKey: DayKey, es: seq<DailyEntry>): seq<DailyEntry>
    requires p.Proper()
  {
    if es == [] then []
    else
      var before, e := es[..|es| - 1], es[|es| - 1];
      Added(p, start, x, dayKey, before)
      + if dayKey(e.dt) in Extended(p, start, x, dayKey, before).dates then [] else [e]
  }

  function DaylightHours(es: seq<DailyEntry>): real {
    if es == [] then 0.0 else DaylightHours(es[..|es| - 1]) + es[|es| - 1].daylightH
  }

  function DailySunHours(es: seq<DailyEntry>): real {
    if es == [] then 0.0
    else DailySunHours(es[..|es| - 1]) + SunOf(es[|es| - 1])
  }

  /** The panels yield no more in the day's daylight than the charger can take. */
  ghost predicate ChargerKeepsUpWith(p: Plan, e: DailyEntry) {
    p.panelWatts * p.efficiency * (e.daylightH * (1.0 - e.cloud)) <= p.maxChargeW * e.daylightH
  }

  lemma ExtraIsLimited(p: Plan, e: DailyEntry)
    ensures Limited(p, ExtraNominal(p, e), e.daylightH, SunOf(e))
    ensures ChargerKeepsUpWith(p, e) ==> Yielded(p, ExtraNominal(p, e), SunOf(e))
  {
    var panels := p.panelWatts * p.efficiency * (e.daylightH * (1.0 - e.cloud));
    ExtraOffer(p, e, panels / 1000.0, p.maxChargeW * e.daylightH / 1000.0);
    hide ExtraNominal;
  }

  /** What an extension offers beyond the week it starts from, and what it starts from. */
  ghost predicate Offers(p: Plan, x: Extension, y: Extension, es: seq<DailyEntry>) {
    && |y.week.daily| == |x.week.daily| + |es|
    && Limited(p, y.week.nominal - x.week.nominal, DaylightHours(es), DailySunHours(es))
    && ((forall i :: 0 <= i < |es| ==> ChargerKeepsUpWith(p, es[i])) ==>
          Yielded(p, y.week.nominal - x.week.nominal, DailySunHours(es)))
  }

  lemma OneMoreOffers(p: Plan, start: real, x: Extension, y: Extension, es: seq<DailyEntry>, e: DailyEntry, d: Day)
    requires Offers(p, x, y, es) && d.kwh == ExtraNominal(p, e)
    ensures Offers(p, x, y.(week := Week(y.week.daily + [d], y.week.nominal + d.kwh, 0.0, 0.0)), es + [e])
  {
    hide ExtraNominal, Limited, Yielded, ChargerKeepsUpWith, SunOf, DaylightHours, DailySunHours;
    var more := es + [e];
    assert more[..|es|] == es && more[|es|] == e;
    HoursAppend(es, e);
    ExtraIsLimited(p, e);
    LimitsAdd(p, y.week.nominal - x.week.nominal, DaylightHours(es), DailySunHours(es),
              d.kwh, e.daylightH, SunOf(e));
    if forall i :: 0 <= i < |more| ==> ChargerKeepsUpWith(p, more[i]) {
      assert ChargerKeepsUpWith(p, more[|es|]);
      forall i | 0 <= i < |es| ensures ChargerKeepsUpWith(p, es[i]) {
        assert ChargerKeepsUpWith(p, more[i]);
      }
    }
  }

  lemma {:induction false} HoursAppend(es: seq<DailyEntry>, e: DailyEntry)
    ensures DaylightHours(es + [e]) == DaylightHours(es) + e.daylightH
    ensures DailySunHours(es + [e]) == DailySunHours(es) + SunOf(e)
  {
    hide SunOf;
    assert (es + [e])[..|es|] == es;
  }

  lemma NothingMoreOffered(p: Plan, x: Extension)
    ensures Offers(p, x, x, [])
  {
    NothingLimited(p);
  }

  /** The further days add at most the charger's limit for their daylight and at most the panels' yield in
      their sun hours; they add that yield when the charger keeps up. */
  lemma {:induction false} ExtensionIsLimited(p: Plan, start: real, x: Extension, dayKey: DayKey, es: seq<DailyEntry>)
    requires p.Proper()
    ensures Offers(p, x, Extended(p, start, x, dayKey, es), Added(p, start, x, dayKey, es))
  {
    if es == [] {
      NothingMoreOffered(p, x);
    } else {
      var before, e := es[..|es| - 1], es[|es| - 1];
      var y := Extended(p, start, x, dayKey, before);
      ExtensionIsLimited(p, start, x, dayKey, before);
      var d := ExtraDay(p, start, y.week.soc, e);
      assert d.kwh == ExtraNominal(p, e);
      hide ExtraDay, ExtraWindow, Limited, Yielded, ExtraNominal;
      if dayKey(e.dt) !in y.dates {
        OneMoreOffers(p, start, x, y, Added(p, start, x, dayKey, before), e, d);
      } else {
        assert Added(p, start, x, dayKey, before) + [] == Added(p, start, x, dayKey, before);
      }
    }
  }

  /** The charge at which each third of a further day is judged: the capacity times the percentage points
      gained by then is a hundred times the watt hours of the thirds before it, up to a full battery. */
  lemma ThirdsAreJudged(p: Plan, soc: real, kwh: real, third: nat)
    requires p.Proper() && soc <= 100.0
    ensures SubSoc(p, soc, kwh, 0) == soc && SubSoc(p, soc, kwh, third) <= 100.0
    ensures var s := SubSoc(p, soc, kwh, third);
            s < 100.0 ==> 3.0 * (p.capWh * (s - soc)) == 100000.0 * (third as real * kwh)
  {
    var x := third as real * kwh * 1000.0;
    var q := x / (3.0 * p.capWh);
    assert q * (3.0 * p.capWh) == x;
  }

  /** In a realistic forecast a further day charges with the mean acceptance of its thirds. */
  lemma MeanAcceptance(p: Plan, start: real, soc: real, e: DailyEntry)
    requires p.Proper() && p.Realistic()
    ensures var kwh := ExtraNominal(p, e);
            var a0 := Acceptance(p.profile, SubSoc(p, soc, kwh, 0));
            var a1 := Acceptance(p.profile, SubSoc(p, soc, kwh, 1));
            var a2 := Acceptance(p.profile, SubSoc(p, soc, kwh, 2));
            3.0 * ExtraDay(p, start, soc, e).acceptedKwh == kwh * (a0 + a1 + a2)
  {
    hide Acceptance, SubSoc, ExtraNominal;
    var kwh := ExtraNominal(p, e);
    assert SubAcceptance(p, soc, kwh, 1) == Acceptance(p.profile, SubSoc(p, soc, kwh, 0));
    assert SubAcceptance(p, soc, kwh, 3) ==
           SubAcceptance(p, soc, kwh, 1) + Acceptance(p.profile, SubSoc(p, soc, kwh, 1))
           + Acceptance(p.profile, SubSoc(p, soc, kwh, 2));
  }

  /** The recovery of a further day is limited by the headroom of the present charge, not of its own. */
  lemma ExtraDayRecovers(p: Plan, start: real, soc: real, e: DailyEntry)
    requires p.Proper()
    ensures var d := ExtraDay(p, start, soc, e);
            && Recovers(d.recoveryPct, d.recoveryWh, if start < 100.0 then 100.0 - start else 0.0, p)
            && d.recoveryWh == 1000.0 * if p.Realistic() then d.acceptedKwh else d.kwh
  {
    hide ExtraNominal, ExtraAccepted, RangeOf, ExtraSky, Advance, Recovers;
    RecoversWithin(p, ExtraDay(p, start, soc, e).recoveryWh, Headroom(start));
  }

  // ------------------------------------------------------------ the books of the further days

  lemma {:induction false} SubAcceptanceInRange(p: Plan, soc: real, kwh: real, n: nat)
    requires Panels(p, [])
    ensures 0.0 <= SubAcceptance(p, soc, kwh, n) <= n as real
  {
    if n > 0 {
      SubAcceptanceInRange(p, soc, kwh, n - 1);
      hide SubSoc;
      SearchInRange(p.profile, BucketOf(SubSoc(p, soc, kwh, n - 1)), 0);
    }
  }

  lemma ThirdsInRange(kwh: real, total: real)
    requires kwh >= 0.0 && 0.0 <= total <= 3.0
    ensures 0.0 <= Thirds(kwh, total) <= kwh
  {
    NonNegativeProduct(kwh, total);
    NonNegativeProduct(kwh, 3.0 - total);
  }

  lemma ExtraDayFacts(p: Plan, start: real, soc: real, e: DailyEntry)
    requires Panels(p, []) && p.Realistic() && e.daylightH >= 0.0 && e.cloud <= 1.0
    ensures var d := ExtraDay(p, start, soc, e);
            && 0.0 <= d.acceptedKwh <= d.kwh && d.recoveryWh == d.acceptedKwh * 1000.0
            && d.socAfter == Advance(p, soc, d.acceptedKwh)
  {
    hide ExtraNominal, SubAcceptance, Thirds, Advance, RangeOf;
    var nominal := ExtraNominal(p, e);
    ExtraOffers(p, e);
    SubAcceptanceInRange(p, soc, nominal, 3);
    ThirdsInRange(nominal, SubAcceptance(p, soc, nominal, 3));
  }

  lemma DayAccounts(p: Plan, start: real, w: Week, d: Day)
    requires p.Proper() && Accounted(p, start, w)
    requires 0.0 <= d.acceptedKwh <= d.kwh && d.recoveryWh == d.acceptedKwh * 1000.0
    requires d.socAfter == Advance(p, w.soc, d.acceptedKwh)
    ensures Accounted(p, start, Week(w.daily + [d], w.nominal + d.kwh, w.accepted + d.acceptedKwh, d.socAfter))
  {
    hide Advance, Shift, RecoveredWh;
    RecoveredAppend(w.daily, d);
    ShiftAdds(p, w.soc, d.acceptedKwh, w.accepted);
  }

  lemma {:induction false} RecoveredAppend(daily: seq<Day>, d: Day)
    ensures RecoveredWh(daily + [d]) == RecoveredWh(daily) + d.recoveryWh
  {
    assert (daily + [d])[..|daily|] == daily;
  }

  lemma ExtendOneAccounts(p: Plan, start: real, x: Extension, dayKey: DayKey, e: DailyEntry)
    requires Panels(p, []) && p.Realistic() && e.daylightH >= 0.0 && e.cloud <= 1.0
    requires Accounted(p, start, x.week)
    ensures Accounted(p, start, ExtendOne(p, start, x, dayKey, e).week)
  {
    hide ExtraDay, Accounted, ExtraWindow, Advance;
    ExtraDayFacts(p, start, x.week.soc, e);
    DayAccounts(p, start, x.week, ExtraDay(p, start, x.week.soc, e));
  }

  /** With the further days too: the books balance, nothing accepted exceeds what was offered, and the
      projection accounts for everything accepted. */
  lemma {:induction false} ExtensionAccounts(p: Plan, start: real, x: Extension, dayKey: DayKey, es: seq<DailyEntry>)
    requires Panels(p, []) && p.Realistic() && Daily(es)
    requires Accounted(p, start, x.week)
    ensures Accounted(p, start, Extended(p, start, x, dayKey, es).week)
  {
    hide Accounted, ExtendOne;
    if es != [] {
      ExtensionAccounts(p, start, x, dayKey, es[..|es| - 1]);
      ExtendOneAccounts(p, start, Extended(p, start, x, dayKey, es[..|es| - 1]), dayKey, es[|es| - 1]);
    }
  }

  /** By the end of any number of further days the accumulated recovery covers the missing energy exactly
      when the projection stands at 100. */
  lemma {:induction false} ExtendedFullIsProjected(p: Plan, start: real, m: Days, dayKey: DayKey, es: seq<DailyEntry>)
    requires Panels(p, Flatten(m)) && p.Realistic() && start <= 100.0 && Daily(es)
    ensures var w := Extended(p, start, SlotWeek(p, start, m), dayKey, es).week;
            RecoveredWh(w.daily) >= EnergyToFull(p, start) <==> w.soc == 100.0
  {
    hide Extended, WeekOf, Shift, EnergyToFull, RecoveredWh;
    PanelsArePhysical(p, Flatten(m));
    SlotWeekIsAccounted(p, start, m);
    ExtensionAccounts(p, start, SlotWeek(p, start, m), dayKey, es);
    FullWhenRecovered(p, start, Extended(p, start, SlotWeek(p, start, m), dayKey, es).week.accepted);
  }
}
