/**
 The two charging warnings of the analytics engine.

 `SlowdownDetector` compares the charge rate of the last 18 readings with that of 18 readings about
 three minutes earlier, over a ring buffer that is emptied logically (its count is zeroed, its head
 stays) whenever the battery is not charging.  `PsuDetector` watches for a voltage plateau of 15
 minutes.  Both feed their verdicts into the counters of `Debounce`.
 */
module ChargeWarnings {
  import opened Windows
  import opened Debounce

  const RATE_N: nat := 72
  const SLOWDOWN_CONFIRM: nat := 6
  const PSU_CONFIRM: nat := 4
  const PLATEAU_S: nat := 900

  // ------------------------------------------------------------ charge slowdown, as a specification

  datatype Reading = Reading(charging: bool, rate: real)

  /** The rates seen since the battery last stopped charging. */
  function Since(h: seq<Reading>): seq<real> {
    if h == [] then []
    else
      var last := h[|h| - 1];
      if last.charging then Since(h[..|h| - 1]) + [last.rate] else []
  }

  /** The rate has halved against 18 readings that ended 36 readings ago. */
  predicate Slowed(rates: seq<real>)
    requires |rates| >= 54
  {
    var n := |rates|;
    var recent, baseline := Average(rates[n - 18..]), Average(rates[n - 54..n - 36]);
    baseline > 0.05 && recent < baseline * 0.5
  }

  /** The evaluations so far; charging readings before the 54th give none. */
  function Signals(h: seq<Reading>): seq<Signal> {
    if h == [] then []
    else
      var before, rates := Signals(h[..|h| - 1]), Since(h);
      if !h[|h| - 1].charging then before + [Reset]
      else if |rates| < 54 then before
      else before + [if Slowed(rates) then Yes else No]
  }

  // ------------------------------------------------------------ charge slowdown, as a program

  class SlowdownDetector {
    const ring: array<real>
    var head: nat
    var count: nat
    var confirm: nat
    var clear: nat
    var warning: bool
    ghost var history: seq<Reading>

    /** The slot of the sample that is `j` places older than the newest one. */
    static function Back(head: nat, j: int): (k: nat)
      requires head < RATE_N && 0 <= j < RATE_N
      ensures k < RATE_N
    {
      (head + RATE_N - 1 - j) % RATE_N
    }

    ghost predicate Holds(rates: seq<real>)
      reads this, ring
    {
      && ring.Length == RATE_N && head < RATE_N && count == Min(|rates|, RATE_N)
      && forall j :: 0 <= j < count ==> ring[Back(head, j)] == rates[|rates| - 1 - j]
    }

    ghost predicate Valid()
      reads this, ring
    {
      && Holds(Since(history))
      && Alarm(confirm, clear, warning) == Run(6, Signals(history))
    }

    constructor ()
      ensures Valid() && history == [] && fresh(ring)
    {
      ring := new real[RATE_N](i => 0.0);
      head, count, history := 0, 0, [];
      confirm, clear, warning := 0, 0, false;
    }

    method PushRate(rate: real, ghost rates: seq<real>)
      requires Holds(rates)
      modifies this`head, this`count, ring
      ensures Holds(rates + [rate])
    {
      ring[head] := rate;
      BackShifts(head, (head + 1) % RATE_N);
      head := (head + 1) % RATE_N;
      if count < RATE_N { count := count + 1; }
    }

    /** The averages over the readings 1-18 and 37-54 back, 18 readings each. */
    method Averages(ghost rates: seq<real>) returns (recent: real, baseline: real)
      requires Holds(rates) && count >= 54
      ensures recent == Average(rates[|rates| - 18..])
      ensures baseline == Average(rates[|rates| - 54..|rates| - 36])
    {
      hide Sum, Back;
      ghost var n := |rates|;
      var recentSum, baselineSum := 0.0, 0.0;
      var recentN, baselineN := 0, 0;
      SumOfNothing(rates, n);
      SumOfNothing(rates, n - 36);
      for i := 0 to count
        invariant recentN == Min(i, 18) && recentSum == Sum(rates[n - recentN..n])
        invariant baselineN == Min(if i < 36 then 0 else i - 36, 18)
        invariant baselineSum == Sum(rates[n - 36 - baselineN..n - 36])
      {
        var idx := Back(head, i);
        assert ring[idx] == rates[n - 1 - i];
        if i < 18 {
          SumAhead(rates, n - 1 - i, n);
          recentSum, recentN := recentSum + ring[idx], recentN + 1;
        } else if i >= 36 && i < 54 {
          SumAhead(rates, n - 1 - i, n - 36);
          baselineSum, baselineN := baselineSum + ring[idx], baselineN + 1;
        }
      }
      assert rates[n - 18..n] == rates[n - 18..];
      recent := if recentN > 0 then recentSum / recentN as real else 0.0;
      baseline := if baselineN > 0 then baselineSum / baselineN as real else 0.0;
    }

    /** A negative current charges the battery. */
    method Evaluate(valid: bool, currentA: real, rate: real)
      requires Valid()
      modifies this, ring
      ensures Valid() && history == old(history) + [Reading(valid && currentA < -0.1, rate)]
    {
      hide Run, Average;
      ghost var h' := history + [Reading(valid && currentA < -0.1, rate)];
      assert h'[..|history|] == history;
      if currentA < -0.1 && valid {
        PushRate(rate, Since(history));
        if count >= 54 {
          var recent, baseline := Averages(Since(h'));
          var slowdownNow := baseline > 0.05 && recent < baseline * 0.5;
          assert slowdownNow == Slowed(Since(h'));
          RunAppend(SLOWDOWN_CONFIRM, Signals(history), if slowdownNow then Yes else No);
          if slowdownNow {
            clear := 0;
            confirm := confirm + 1;
            if confirm >= SLOWDOWN_CONFIRM { warning := true; }
          } else {
            confirm := 0;
            if warning {
              clear := clear + 1;
              if clear >= SLOWDOWN_CONFIRM { warning := false; }
            } else {
              clear := 0;
            }
          }
        }
      } else {
        count, confirm, clear, warning := 0, 0, 0, false;
        RunAppend(SLOWDOWN_CONFIRM, Signals(history), Reset);
      }
      history := h';
    }
  }

  lemma SumOfNothing(rates: seq<real>, k: nat)
    requires k <= |rates|
    ensures Sum(rates[k..k]) == 0.0
  {
  }

  lemma SumAhead(rates: seq<real>, from: nat, to: nat)
    requires from < to <= |rates|
    ensures Sum(rates[from..to]) == Sum(rates[from + 1..to]) + rates[from]
  {
    assert rates[from..to][1..] == rates[from + 1..to];
  }

  lemma BackShifts(head: nat, next: nat)
    requires head < RATE_N && next == (head + 1) % RATE_N
    ensures SlowdownDetector.Back(next, 0) == head
    ensures forall j :: 0 < j < RATE_N ==>
              head != SlowdownDetector.Back(next, j) == SlowdownDetector.Back(head, j - 1)
  {
  }

  // ------------------------------------------------------------ charge slowdown, over whole runs

  /** The ring holds the rates of the unbroken run of charging readings that ends now, and none from
      before the last reset. */
  lemma {:induction false} SinceIsUnbroken(h: seq<Reading>)
    ensures var k := |h| - |Since(h)|;
            && 0 <= k <= |h| && (k > 0 ==> !h[k - 1].charging)
            && forall j :: k <= j < |h| ==> h[j].charging && Since(h)[j - k] == h[j].rate
  {
    if h != [] {
      SinceIsUnbroken(h[..|h| - 1]);
    }
  }

  lemma {:induction false} NoSignalWhileWarming(h: seq<Reading>)
    requires |Since(h)| < 54
    ensures Signals(h) == [] || Signals(h)[|Signals(h)| - 1] == Reset
  {
    if h != [] && h[|h| - 1].charging {
      NoSignalWhileWarming(h[..|h| - 1]);
    }
  }

  /** A streak of positive signals comes from as many consecutive charging readings. */
  lemma {:induction false} StreakOfReadings(h: seq<Reading>, k: nat)
    requires Streak(Signals(h), Yes, k, |Signals(h)|) && k > 0 && |Since(h)| >= 54
    ensures |h| >= k && |Since(h)| >= 53 + k
    ensures forall i :: |h| - k < i <= |h| ==> |Since(h[..i])| >= 54 && Slowed(Since(h[..i]))
    decreases k
  {
    hide Slowed;
    assert h[..|h|] == h && |h| > 0;
    var g := h[..|h| - 1];
    var s := Signals(g);
    LastSignal(h);
    assert Signals(h)[|s|] == Yes;
    if k > 1 {
      ShorterStreak(s, Signals(h)[|s|], k);
      assert s[|s| - 1] == Yes;
      if |Since(g)| < 54 {
        NoSignalWhileWarming(g);
        assert false;
      }
      StreakOfReadings(g, k - 1);
      assert forall i :: 0 <= i < |h| ==> g[..i] == h[..i];
    }
  }

  lemma {:induction false} LastSignal(h: seq<Reading>)
    requires |Since(h)| >= 54
    ensures h != [] && Signals(h) == Signals(h[..|h| - 1]) + [if Slowed(Since(h)) then Yes else No]
    ensures |Since(h[..|h| - 1])| == |Since(h)| - 1
  {
  }

  lemma ShorterStreak(s: seq<Signal>, last: Signal, k: nat)
    requires k > 0 && Streak(s + [last], Yes, k, |s| + 1)
    ensures last == Yes && Streak(s, Yes, k - 1, |s|)
  {
    var t := s + [last];
    assert t[|s|] == last;
    assert forall j :: |s| - (k - 1) <= j < |s| ==> t[j] == s[j];
  }

  /** What "halved" means: the 18 rates that ended 36 readings ago add up to more than 0.9, and the last 18
      to less than half of that. */
  lemma SlowedIff(rates: seq<real>)
    requires |rates| >= 54
    ensures var n := |rates|;
            var recent, baseline := Sum(rates[n - 18..]), Sum(rates[n - 54..n - 36]);
            Slowed(rates) <==> baseline > 0.9 && 2.0 * recent < baseline
  {
    hide Sum;
    assert |rates[|rates| - 18..]| == 18 && |rates[|rates| - 54..|rates| - 36]| == 18;
  }

  /** The last six readings all saw the rate halved, over an unbroken run of 59 charging readings. */
  ghost predicate LongSlowdown(h: seq<Reading>) {
    && |h| >= |Since(h)| >= 59
    && forall i :: |h| - 6 < i <= |h| ==> |Since(h[..i])| >= 54 && Slowed(Since(h[..i]))
  }

  /** The last six readings all saw the rate not halved, over an unbroken run of 59 charging readings. */
  ghost predicate LongRecovery(h: seq<Reading>) {
    && |h| >= |Since(h)| >= 59
    && forall i :: |h| - 6 < i <= |h| ==> |Since(h[..i])| >= 54 && !Slowed(Since(h[..i]))
  }

  /** The slowdown warning appears only after at least 59 charging readings in a row, the last six of
      which all saw the rate halved; it goes only after six readings that did not, or at a reset. */
  lemma {:induction false} SlowdownEdges(h: seq<Reading>)
    requires h != []
    ensures var before, after := Run(6, Signals(h[..|h| - 1])).on, Run(6, Signals(h)).on;
            && (!before && after ==> LongSlowdown(h))
            && (before && !after ==> ClearAt(Signals(h), 6, |Signals(h)|))
  {
    hide Slowed, Run;
    var g := h[..|h| - 1];
    if Signals(h) != Signals(g) {
      var s := Signals(h)[|Signals(h)| - 1];
      assert Signals(h)[..|Signals(h)| - 1] == Signals(g);
      EdgesNeedStreaks(6, Signals(h));
      if SetAt(Signals(h), 6, |Signals(h)|) {
        assert Signals(h)[|Signals(h)| - 1] == Yes;
        SinceIsUnbroken(h);
        StreakOfReadings(h, 6);
        assert LongSlowdown(h);
      }
    }
  }

  lemma {:induction false} ReadingsMakeStreak(h: seq<Reading>, s: Signal, k: nat)
    requires s != Reset && k <= |h| && |Since(h)| >= 53 + k
    requires forall i :: |h| - k < i <= |h| ==> |Since(h[..i])| >= 54 && (s == Yes <==> Slowed(Since(h[..i])))
    ensures Streak(Signals(h), s, k, |Signals(h)|)
  {
    hide Slowed;
    if k > 0 {
      var g := h[..|h| - 1];
      assert h[..|h|] == h;
      LastSignal(h);
      assert forall i :: 0 <= i < |h| ==> g[..i] == h[..i];
      ReadingsMakeStreak(g, s, k - 1);
      hide Signals;
      assert Signals(h) == Signals(g) + [s];
    }
  }

  /** The other direction: a long slowdown shows the warning whatever came before, a long recovery does not,
      and neither does a reading that is not charging. */
  lemma {:induction false} SlowdownShows(h: seq<Reading>)
    requires h != []
    ensures LongSlowdown(h) ==> Run(6, Signals(h)).on
    ensures LongRecovery(h) || !h[|h| - 1].charging ==> !Run(6, Signals(h)).on
  {
    hide Run, Slowed;
    SinceIsUnbroken(h);
    if LongSlowdown(h) { ReadingsMakeStreak(h, Yes, 6); }
    if LongRecovery(h) { ReadingsMakeStreak(h, No, 6); }
    if Signals(h) != [] { StreaksDecide(6, Signals(h)); }
  }

  /** At every moment the slowdown warning shows exactly when six positive evaluations in a row have
      set it and neither six negative ones in a row nor a reset have followed. */
  lemma {:induction false} SlowdownMeaning(h: seq<Reading>)
    ensures Run(6, Signals(h)).on <==> Showing(Signals(h), 6)
  {
    AlarmMeaning(6, Signals(h));
  }

  // ------------------------------------------------------------ PSU limitation, as a specification

  datatype ChargerView = NoCharger | ChargerView(
    valid: bool, ts: nat, batV: real, targetV: real, batA: real, targetA: real, pwm: int, charging: bool)

  datatype PsuReading = PsuReading(chg: ChargerView, inBulk: bool, rising: bool)

  predicate Watching(r: PsuReading) {
    r.chg.ChargerView? && r.chg.valid && r.chg.targetV > 0.5
  }

  /** Charging flat out in bulk, yet the voltage neither reaches its target nor rises. */
  predicate Plateau(r: PsuReading) {
    && Watching(r)
    && r.inBulk && r.chg.charging && !r.rising
    && r.chg.batV < r.chg.targetV - 0.15
    && (r.chg.pwm > 800 || (r.chg.targetA > 0.5 && r.chg.batA >= r.chg.targetA * 0.85))
  }

  /** When the plateau that is still going on began. */
  function PlateauStart(h: seq<PsuReading>): int
    ensures PlateauStart(h) >= -1
  {
    if h == [] || !Plateau(h[|h| - 1]) then -1
    else
      var start := PlateauStart(h[..|h| - 1]);
      if start >= 0 then start else h[|h| - 1].chg.ts
  }

  function PsuSignal(h: seq<PsuReading>): Signal
    requires h != []
  {
    var last := h[|h| - 1];
    if !Watching(last) then Reset
    else if Plateau(last) && last.chg.ts - PlateauStart(h) >= PLATEAU_S then Yes
    else No
  }

  function PsuSignals(h: seq<PsuReading>): (s: seq<Signal>)
    ensures |s| == |h|
  {
    if h == [] then [] else PsuSignals(h[..|h| - 1]) + [PsuSignal(h)]
  }

  /** How one more reading moves the plateau start and which signal it gives. */
  lemma {:induction false} PsuAppend(h: seq<PsuReading>, r: PsuReading)
    ensures var h', start := h + [r], PlateauStart(h);
            && PsuSignals(h') == PsuSignals(h) + [PsuSignal(h')]
            && PlateauStart(h') == (if !Plateau(r) then -1 else if start >= 0 then start else r.chg.ts)
            && PsuSignal(h') == if !Watching(r) then Reset
                                else if Plateau(r) && r.chg.ts - PlateauStart(h') >= PLATEAU_S then Yes
                                else No
  {
    assert (h + [r])[..|h|] == h;
  }

  // ------------------------------------------------------------ PSU limitation, as a program

  class PsuDetector {
    var plateauStartTs: int
    var confirm: nat
    var clear: nat
    var warning: bool
    ghost var history: seq<PsuReading>

    ghost predicate Valid()
      reads this
    {
      && plateauStartTs == PlateauStart(history)
      && Alarm(confirm, clear, warning) == Run(4, PsuSignals(history))
    }

    constructor ()
      ensures Valid() && history == []
    {
      plateauStartTs, confirm, clear, warning, history := -1, 0, 0, false, [];
    }

    method Evaluate(chg: ChargerView, inBulk: bool, rising: bool)
      requires Valid()
      modifies this
      ensures Valid() && history == old(history) + [PsuReading(chg, inBulk, rising)]
    {
      hide Run, PsuSignals, PsuSignal, PlateauStart;
      ghost var h' := history + [PsuReading(chg, inBulk, rising)];
      PsuAppend(history, PsuReading(chg, inBulk, rising));
      if chg.ChargerView? && chg.valid && chg.targetV > 0.5 {
        var belowTarget := chg.batV < chg.targetV - 0.15;
        var chargerMaxed := chg.pwm > 800 || (chg.targetA > 0.5 && chg.batA >= chg.targetA * 0.85);
        var psuLimitedNow := false;
        if inBulk && belowTarget && chargerMaxed && !rising && chg.charging {
          if plateauStartTs < 0 { plateauStartTs := chg.ts; }
          var elapsed := chg.ts - plateauStartTs;
          if elapsed >= PLATEAU_S { psuLimitedNow := true; }
        } else {
          plateauStartTs := -1;
        }
        assert PsuSignal(h') == if psuLimitedNow then Yes else No;
        hide Plateau;
        RunAppend(PSU_CONFIRM, PsuSignals(history), if psuLimitedNow then Yes else No);
        if psuLimitedNow {
          clear := 0;
          confirm := confirm + 1;
          if confirm >= PSU_CONFIRM { warning := true; }
        } else {
          confirm := 0;
          if warning {
            clear := clear + 1;
            if clear >= PSU_CONFIRM { warning := false; }
          } else {
            clear := 0;
          }
        }
      } else {
        plateauStartTs, confirm, clear, warning := -1, 0, 0, false;
        RunAppend(PSU_CONFIRM, PsuSignals(history), Reset);
      }
      history := h';
    }
  }

  // ------------------------------------------------------------ PSU limitation, over whole runs

  /** The reading at which the plateau that ends with `h` began. */
  lemma {:induction false} PlateauRun(h: seq<PsuReading>) returns (k: nat)
    requires PlateauStart(h) >= 0
    ensures k < |h| && h[k].chg.ChargerView? && h[k].chg.ts == PlateauStart(h)
    ensures forall j :: k <= j < |h| ==> Plateau(h[j])
    ensures k > 0 ==> !Plateau(h[k - 1])
  {
    var n := |h| - 1;
    if PlateauStart(h[..n]) >= 0 {
      k := PlateauRun(h[..n]);
    } else {
      k := n;
      if n > 0 { assert h[..n][n - 1] == h[n - 1]; }
    }
  }

  lemma {:induction false} PsuSignalsAt(h: seq<PsuReading>, i: nat)
    requires i < |h|
    ensures PsuSignals(h)[i] == PsuSignal(h[..i + 1])
  {
    if i == |h| - 1 {
      assert h[..i + 1] == h;
    } else {
      PsuSignalsAt(h[..|h| - 1], i);
      assert h[..|h| - 1][..i + 1] == h[..i + 1];
    }
  }

  lemma {:induction false} LimitedAt(h: seq<PsuReading>, i: nat)
    requires i < |h| && PsuSignals(h)[i] == Yes
    ensures Plateau(h[i]) && PlateauStart(h[..i + 1]) >= 0
    ensures h[i].chg.ts - PlateauStart(h[..i + 1]) >= PLATEAU_S
  {
    PsuSignalsAt(h, i);
    assert h[..i + 1][i] == h[i];
  }

  /** When a reading is on a plateau, in whole numbers: the charger is known and heads for more than half a
      volt, works in bulk and charges, the voltage does not rise and lacks more than 0.15 V, and the charger
      runs above 800 of its pulse width or at 85 percent or more of a target current above half an ampere. */
  lemma PlateauIff(r: PsuReading)
    ensures Plateau(r) <==>
              && r.chg.ChargerView? && r.chg.valid && 2.0 * r.chg.targetV > 1.0
              && r.inBulk && r.chg.charging && !r.rising
              && 100.0 * (r.chg.targetV - r.chg.batV) > 15.0
              && (r.chg.pwm >= 801 || (2.0 * r.chg.targetA > 1.0 && 20.0 * r.chg.batA >= 17.0 * r.chg.targetA))
    ensures Watching(r) <==> r.chg.ChargerView? && r.chg.valid && 2.0 * r.chg.targetV > 1.0
  {
  }

  /** The plateau condition held at every reading from the `k`-th on and not just before it, and each of the
      last four readings is at least 15 minutes later than that one. */
  ghost predicate LongPlateau(h: seq<PsuReading>, k: nat) {
    && k + 4 <= |h|
    && (k > 0 ==> !Plateau(h[k - 1]))
    && (forall j :: k <= j < |h| ==> Plateau(h[j]))
    && forall j :: |h| - 4 <= j < |h| ==> h[j].chg.ts - h[k].chg.ts >= 900
  }

  /** The PSU warning appears only at the end of a long plateau. */
  lemma {:induction false} PsuWarningNeedsPlateau(h: seq<PsuReading>)
    requires h != []
    requires !Run(4, PsuSignals(h[..|h| - 1])).on && Run(4, PsuSignals(h)).on
    ensures exists k: nat :: LongPlateau(h, k)
  {
    hide Run;
    var n := |h|;
    EdgesNeedStreaks(4, PsuSignals(h));
    assert PsuSignals(h)[..n - 1] == PsuSignals(h[..n - 1]);
    LimitedAt(h, n - 4);
    LimitedAt(h, n - 3);
    LimitedAt(h, n - 2);
    LimitedAt(h, n - 1);
    hide PlateauStart, PsuSignals, Plateau;
    PlateauStartPersists(h, n - 2);
    PlateauStartPersists(h, n - 1);
    PlateauStartPersists(h, n);
    var k := PlateauRun(h);
    assert h[..n] == h;
    assert LongPlateau(h, k);
  }

  lemma PlateauStartPersists(h: seq<PsuReading>, i: nat)
    requires 0 < i <= |h| && PlateauStart(h[..i - 1]) >= 0 && Plateau(h[i - 1])
    ensures PlateauStart(h[..i]) == PlateauStart(h[..i - 1])
  {
    assert h[..i][..i - 1] == h[..i - 1];
  }

  /** Inside a plateau its start is the stamp of its first reading. */
  lemma {:induction false} PlateauStartIs(h: seq<PsuReading>, k: nat, i: nat)
    requires k < i <= |h| && (k > 0 ==> !Plateau(h[k - 1])) && forall j :: k <= j < i ==> Plateau(h[j])
    ensures h[k].chg.ChargerView? && PlateauStart(h[..i]) == h[k].chg.ts
    decreases i
  {
    assert h[..i][..i - 1] == h[..i - 1];
    if i > k + 1 { PlateauStartIs(h, k, i - 1); }
  }

  /** The other direction: a long plateau shows the warning whatever came before; an unwatched reading, or
      four watched ones off the plateau, do not. */
  lemma {:induction false} PsuShows(h: seq<PsuReading>, k: nat)
    requires h != []
    ensures LongPlateau(h, k) ==> Run(4, PsuSignals(h)).on
    ensures !Watching(h[|h| - 1]) ==> !Run(4, PsuSignals(h)).on
    ensures |h| >= 4 && (forall j :: |h| - 4 <= j < |h| ==> Watching(h[j]) && !Plateau(h[j])) ==>
              !Run(4, PsuSignals(h)).on
  {
    hide Run, Watching, Plateau, PlateauStart, PsuSignals;
    StreaksDecide(4, PsuSignals(h));
    SignalAt(h, k, |h| - 1);
    if |h| >= 4 {
      SignalAt(h, k, |h| - 2);
      SignalAt(h, k, |h| - 3);
      SignalAt(h, k, |h| - 4);
    }
  }

  lemma {:induction false} SignalAt(h: seq<PsuReading>, k: nat, i: nat)
    requires i < |h|
    ensures LongPlateau(h, k) && i >= |h| - 4 ==> PsuSignals(h)[i] == Yes
    ensures Watching(h[i]) && !Plateau(h[i]) ==> PsuSignals(h)[i] == No
    ensures !Watching(h[i]) ==> PsuSignals(h)[i] == Reset
  {
    hide Watching, Plateau, PlateauStart, PsuSignals;
    PsuSignalsAt(h, i);
    assert h[..i + 1][i] == h[i];
    if LongPlateau(h, k) && i >= |h| - 4 {
      PlateauStartIs(h, k, i + 1);
      PlateauIsWatched(h[i]);
    }
  }

  lemma PlateauIsWatched(r: PsuReading)
    requires Plateau(r)
    ensures Watching(r)
  {
  }

  lemma {:induction false} PsuMeaning(h: seq<PsuReading>)
    ensures Run(4, PsuSignals(h)).on <==> Showing(PsuSignals(h), 4)
  {
    AlarmMeaning(4, PsuSignals(h));
  }
}
