/**
 The confirm/clear counters behind both charging warnings: a warning shows after `n` positive
 evaluations in a row, goes away after `n` negative ones in a row, and is dropped by a reset.
 */
module Debounce {

  datatype Signal = Yes | No | Reset

  datatype Alarm = Alarm(confirm: nat, clear: nat, on: bool) {
    function Next(n: nat, s: Signal): Alarm {
      match s
      case Reset => Alarm(0, 0, false)
      case Yes => Alarm(confirm + 1, 0, on || confirm + 1 >= n)
      case No => if on then Alarm(0, clear + 1, clear + 1 < n) else Alarm(0, 0, false)
    }
  }

  const QUIET := Alarm(0, 0, false)

  function Run(n: nat, h: seq<Signal>): Alarm {
    if h == [] then QUIET else Run(n, h[..|h| - 1]).Next(n, h[|h| - 1])
  }

  lemma {:induction false} RunAppend(n: nat, h: seq<Signal>, s: Signal)
    ensures Run(n, h + [s]) == Run(n, h).Next(n, s)
  {
    assert (h + [s])[..|h|] == h;
  }

  /** Of the first `i` signals, the last `n` all equal `s`. */
  ghost predicate Streak(h: seq<Signal>, s: Signal, n: nat, i: nat)
    requires i <= |h|
  {
    n <= i && forall j :: i - n <= j < i ==> h[j] == s
  }

  ghost predicate SetAt(h: seq<Signal>, n: nat, i: nat)
    requires i <= |h|
  {
    Streak(h, Yes, n, i)
  }

  ghost predicate ClearAt(h: seq<Signal>, n: nat, i: nat)
    requires i <= |h|
  {
    Streak(h, No, n, i) || (i > 0 && h[i - 1] == Reset)
  }

  /** The alarm was set by the first `i` signals and nothing since has cleared it. */
  ghost predicate HeldSince(h: seq<Signal>, n: nat, i: nat)
    requires i <= |h|
  {
    SetAt(h, n, i) && forall j :: i < j <= |h| ==> !ClearAt(h, n, j)
  }

  ghost predicate Showing(h: seq<Signal>, n: nat) {
    exists i :: 0 <= i <= |h| && HeldSince(h, n, i)
  }

  /** The counters are the lengths of the streaks that end now. */
  lemma {:induction false} CountersAreStreaks(n: nat, h: seq<Signal>)
    requires n > 0
    ensures var a := Run(n, h);
            && (forall k: nat :: Streak(h, Yes, k, |h|) <==> k <= a.confirm)
            && (a.on ==> a.clear < n && forall k: nat :: Streak(h, No, k, |h|) <==> k <= a.clear)
  {
    if h != [] {
      var m := |h| - 1;
      var g, s := h[..m], h[m];
      CountersAreStreaks(n, g);
      forall k: nat, t: Signal ensures Streak(h, t, k, |h|) <==> k == 0 || (s == t && Streak(g, t, k - 1, m)) {
        if k > 0 && s == t && Streak(g, t, k - 1, m) {
          assert forall j :: m - (k - 1) <= j < m ==> g[j] == t;
        }
        if k > 0 && Streak(h, t, k, |h|) { assert h[m] == t; }
      }
    }
  }

  lemma PrefixStreaks(h: seq<Signal>, m: nat, n: nat, i: nat)
    requires i <= m <= |h|
    ensures SetAt(h[..m], n, i) == SetAt(h, n, i) && ClearAt(h[..m], n, i) == ClearAt(h, n, i)
  {
  }

  lemma ShowingStep(h: seq<Signal>, n: nat)
    requires h != []
    ensures Showing(h, n) <==> SetAt(h, n, |h|) || (Showing(h[..|h| - 1], n) && !ClearAt(h, n, |h|))
  {
    var m := |h| - 1;
    forall i | 0 <= i <= m ensures HeldSince(h, n, i) <==> HeldSince(h[..m], n, i) && !ClearAt(h, n, |h|) {
      PrefixStreaks(h, m, n, i);
      forall j | i < j <= m ensures ClearAt(h[..m], n, j) == ClearAt(h, n, j) {
        PrefixStreaks(h, m, n, j);
      }
    }
    if SetAt(h, n, |h|) { assert HeldSince(h, n, |h|); }
    if Showing(h[..m], n) && !ClearAt(h, n, |h|) {
      var i :| 0 <= i <= m && HeldSince(h[..m], n, i);
      assert HeldSince(h, n, i);
    }
    if Showing(h, n) && !SetAt(h, n, |h|) {
      var i :| 0 <= i <= |h| && HeldSince(h, n, i);
      assert HeldSince(h[..m], n, i);
    }
  }

  /** The hysteresis over whole runs, exactly: the warning shows if and only if at some point the
      last `n` evaluations were all positive, and at no later point were the last `n` all negative
      or the state reset. */
  lemma {:induction false} AlarmMeaning(n: nat, h: seq<Signal>)
    requires n > 0
    ensures Run(n, h).on <==> Showing(h, n)
  {
    if h == [] {
      assert !SetAt(h, n, 0);
    } else {
      var g := h[..|h| - 1];
      AlarmMeaning(n, g);
      CountersAreStreaks(n, h);
      CountersAreStreaks(n, g);
      ShowingStep(h, n);
      AlarmStep(n, h);
    }
  }

  lemma {:induction false} AlarmStep(n: nat, h: seq<Signal>)
    requires n > 0 && h != []
    ensures Run(n, h).on <==> SetAt(h, n, |h|) || (Run(n, h[..|h| - 1]).on && !ClearAt(h, n, |h|))
  {
    var g, s := h[..|h| - 1], h[|h| - 1];
    CountersAreStreaks(n, g);
    CountersAreStreaks(n, h);
    assert Streak(h, Yes, 1, |h|) <==> s == Yes;
    if s == No && Run(n, g).on {
      assert Streak(h, No, n, |h|) <==> Streak(g, No, n - 1, |g|) by {
        if Streak(g, No, n - 1, |g|) { assert forall j :: |g| - (n - 1) <= j < |g| ==> g[j] == No; }
      }
    }
  }

  /** The warning appears only at the end of `n` positives and disappears only at the end of `n`
      negatives or at a reset. */
  lemma {:induction false} EdgesNeedStreaks(n: nat, h: seq<Signal>)
    requires n > 0 && h != []
    ensures !Run(n, h[..|h| - 1]).on && Run(n, h).on ==> SetAt(h, n, |h|)
    ensures Run(n, h[..|h| - 1]).on && !Run(n, h).on ==> ClearAt(h, n, |h|)
  {
    AlarmStep(n, h);
  }

  /** A warning shows as soon as `n` positives in a row are in, and is gone as soon as `n` negatives in a row
      or a reset are. */
  lemma {:induction false} StreaksDecide(n: nat, h: seq<Signal>)
    requires n > 0 && h != []
    ensures SetAt(h, n, |h|) ==> Run(n, h).on
    ensures ClearAt(h, n, |h|) ==> !Run(n, h).on
  {
    AlarmStep(n, h);
    hide Run;
    assert SetAt(h, n, |h|) ==> h[|h| - 1] == Yes;
    assert ClearAt(h, n, |h|) ==> h[|h| - 1] != Yes;
  }
}
