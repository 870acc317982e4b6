/** Energies in watt hours, bounded by a power from `p` to `q` held for some seconds. */
module WattHours {

  /** The energy of a power between `p` and `q` held for some seconds, in watt hours. */
  ghost predicate WattHoursBetween(p: real, wh: real, q: real, seconds: int) {
    p * seconds as real <= 3600.0 * wh <= q * seconds as real
  }

  lemma NoWattHours(p: real, q: real)
    ensures WattHoursBetween(p, 0.0, q, 0)
  {
  }

  lemma MoreWattHours(p: real, w: real, q: real, a: int, b: int, wh: real, more: real)
    requires WattHoursBetween(p, wh, q, a) && p <= w <= q && 0 <= b && 3600.0 * more == w * b as real
    ensures WattHoursBetween(p, wh + more, q, a + b)
  {
    Dominates(p, w, b);
    Dominates(w, q, b);
  }

  lemma Dominates(p: real, w: real, b: int)
    requires p <= w && 0 <= b
    ensures p * b as real <= w * b as real
  {
  }
}
