/** Suffixes of a history and sums over them: what the bounded buffers of the monitor keep. */
module Windows {

  function Min(a: int, b: int): int {
    if a <= b then a else b
  }

  /** The last `n` elements of `s`, or all of `s` when it is shorter. */
  function Last<T>(s: seq<T>, n: nat): (r: seq<T>)
    ensures |r| == Min(|s|, n)
  {
    if |s| <= n then s else s[|s| - n..]
  }

  /** Appending one element to a history slides its window. */
  lemma LastSlides<T>(s: seq<T>, x: T, n: nat)
    requires n > 0
    ensures Last(s + [x], n) == (if |s| < n then Last(s, n) else Last(s, n)[1..]) + [x]
  {
  }

  /** Sliding a window that was cut off already gives the same window. */
  lemma LastOfLast<T>(s: seq<T>, x: T, n: nat)
    ensures Last(Last(s, n) + [x], n) == Last(s + [x], n)
  {
    var t := Last(s, n) + [x];
    if |s| > n {
      assert s + [x] == s[..|s| - n] + t;
    }
  }

  /** Drops elements at the front until at most `n` are left. */
  method TrimFront<T>(s: seq<T>, n: nat) returns (r: seq<T>)
    ensures r == Last(s, n)
  {
    r := s;
    while |r| > n
      invariant |r| <= |s| && r == s[|s| - |r|..] && |r| >= Min(|s|, n)
    {
      r := r[1..];
    }
  }

  function Sum(s: seq<real>): real {
    if s == [] then 0.0 else s[0] + Sum(s[1..])
  }

  function Average(s: seq<real>): real
    requires s != []
  {
    Sum(s) / |s| as real
  }

  lemma {:induction false} SumConcat(a: seq<real>, b: seq<real>)
    ensures Sum(a + b) == Sum(a) + Sum(b)
  {
    if a == [] {
      assert a + b == b;
    } else {
      assert (a + b)[1..] == a[1..] + b;
      SumConcat(a[1..], b);
    }
  }

  lemma {:induction false} SumAppend(a: seq<real>, x: real)
    ensures Sum(a + [x]) == Sum(a) + x
  {
    SumConcat(a, [x]);
    assert Sum([x]) == x + Sum([]);
  }
}
