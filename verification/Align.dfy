/**
  MY_ALIGN: rounding up by adding and masking. The mask has the width of L and is
  widened with zeros, so the width of L, not of A, decides where rounding is right.
 */
module Align {
  import opened LittleEndian
  import opened Bits

  function Max(a: nat, b: nat): nat { if a < b then b else a }

  /** ((A) + (L) - 1) & ~((L) - 1) for an unsigned A of wa bits and an unsigned L of wl bits. */
  function MyAlign(wa: nat, wl: nat, A: nat, L: nat): nat
    requires A < Pow2(wa) && 0 < L < Pow2(wl)
  {
    And((A + L - 1) % Pow2(Max(wa, wl)), Not(wl, L - 1))
  }

  ghost predicate LeastMultiple(m: nat, A: nat, L: nat)
    requires L > 0
  {
    && m % L == 0 && A <= m
    && forall n: nat :: n % L == 0 && A <= n ==> m <= n
  }

  /** The multiple of L that lies in [A, A+L) is the least one not below A. */
  lemma LeastInWindow(m: nat, A: nat, L: nat)
    requires L > 0 && m % L == 0 && A <= m < A + L
    ensures LeastMultiple(m, A, L)
  {
    forall n: nat | n % L == 0 && A <= n
      ensures m <= n
    {
      if n < m {
        MultiplesApart(n, m, L);
      }
    }
  }

  /** Two multiples of L are at least L apart. */
  lemma MultiplesApart(n: nat, m: nat, L: nat)
    requires L > 0 && n % L == 0 && m % L == 0 && n < m
    ensures n + L <= m
  {
    var i, j := n / L, m / L;
    assert n == L * i && m == L * j;
    if j <= i {
      MulAdd(L, j, i - j);
    }
    MulAdd(L, i, j - i);
    MulAtLeast(L, j - i);
  }

  lemma LeastUnique(m: nat, m': nat, A: nat, L: nat)
    requires L > 0 && LeastMultiple(m, A, L) && LeastMultiple(m', A, L)
    ensures m == m'
  {
  }

  lemma FloorMultiple(s: nat, L: nat)
    requires L > 0
    ensures s % L <= s && (s - s % L) % L == 0
  {
    DivModUnique(s - s % L, L, s / L, 0);
  }

  /** The masked sum, without the bit operations. */
  lemma Masked(wa: nat, wl: nat, A: nat, L: nat, k: nat)
    requires A < Pow2(wa) && L == Pow2(k) && L < Pow2(wl)
    ensures var s := (A + L - 1) % Pow2(Max(wa, wl)) % Pow2(wl);
            MyAlign(wa, wl, A, L) == s - s % L && MyAlign(wa, wl, A, L) % L == 0
  {
    var t := (A + L - 1) % Pow2(Max(wa, wl));
    if wl < k {
      Pow2Monotone(wl, k);
    }
    AndHighMask(t, k, wl);
    Pow2Sum(wl - k, k);
    RemainderTwice(t, Pow2(wl - k), L);
    FloorMultiple(t % Pow2(wl), L);
  }

  lemma RemainderTwice(t: nat, q: nat, L: nat)
    requires q > 0 && L > 0
    ensures q * L > 0 && t % (q * L) % L == t % L
  {
    DivModStep(t, L, q);
    assert q * L == L * q;
    DivModUnique(t % (q * L), L, t / L % q, t % L);
  }

  /** A power of two divides every larger one. */
  lemma Pow2Divides(k: nat, w: nat)
    requires k <= w
    ensures Pow2(w) % Pow2(k) == 0
  {
    Pow2Sum(k, w - k);
    MultipleRemainder(Pow2(w), Pow2(k), Pow2(w - k));
  }

  lemma MultipleRemainder(v: nat, m: nat, q: nat)
    requires m > 0 && v == m * q
    ensures v % m == 0
  {
    DivModUnique(v, m, q, 0);
  }

  lemma ExponentBelow(k: nat, w: nat)
    requires Pow2(k) < Pow2(w)
    ensures k < w
  {
    if w <= k {
      Pow2Monotone(w, k);
    }
  }

  /** Whatever A is, the result is a multiple of L that leaves room for one more below 2^wl. */
  lemma AlignStays(wa: nat, wl: nat, A: nat, L: nat, k: nat)
    requires A < Pow2(wa) && L == Pow2(k) && L < Pow2(wl)
    ensures var r := MyAlign(wa, wl, A, L);
            r % L == 0 && r + L <= Pow2(wl)
  {
    Masked(wa, wl, A, L, k);
    ExponentBelow(k, wl);
    Pow2Divides(k, wl);
    MultiplesApart(MyAlign(wa, wl, A, L), Pow2(wl), L);
  }

  /** With room for A + L the result is the multiple of L in [A, A+L). */
  lemma AlignInWindow(wa: nat, wl: nat, A: nat, L: nat, k: nat)
    requires A < Pow2(wa) && L == Pow2(k) && L < Pow2(wl)
    requires A + L <= Pow2(wl)
    ensures A <= MyAlign(wa, wl, A, L) < A + L
  {
    Masked(wa, wl, A, L, k);
    Pow2Monotone(wl, Max(wa, wl));
    var s := A + L - 1;
    DivModUnique(s, Pow2(Max(wa, wl)), 0, s);
    DivModUnique(s, Pow2(wl), 0, s);
    FloorWithin(MyAlign(wa, wl, A, L), s, A, L);
  }

  lemma FloorWithin(m: nat, s: nat, A: nat, L: nat)
    requires L > 0 && s == A + L - 1 && m == s - s % L
    ensures A <= m < A + L
  {
  }

  /**
    For L a power of two, MY_ALIGN(A, L) is the least multiple of L not below A
    exactly when A + L does not exceed the range of L's own type.
   */
  lemma AlignExact(wa: nat, wl: nat, A: nat, L: nat, k: nat)
    requires A < Pow2(wa) && L == Pow2(k) && L < Pow2(wl)
    ensures LeastMultiple(MyAlign(wa, wl, A, L), A, L) <==> A + L <= Pow2(wl)
  {
    AlignStays(wa, wl, A, L, k);
    if A + L <= Pow2(wl) {
      AlignInWindow(wa, wl, A, L, k);
      LeastInWindow(MyAlign(wa, wl, A, L), A, L);
    }
  }

  // ---- every A, with room or without ----

  /** The multiple of L in [A, A+L), without any bound on size. */
  function Ceil(A: nat, L: nat): (m: nat)
    requires L > 0
  {
    A + L - 1 - (A + L - 1) % L
  }

  lemma CeilInWindow(A: nat, L: nat)
    requires L > 0
    ensures Ceil(A, L) % L == 0 && A <= Ceil(A, L) < A + L
    ensures LeastMultiple(Ceil(A, L), A, L)
  {
    FloorMultiple(A + L - 1, L);
    LeastInWindow(Ceil(A, L), A, L);
  }

  /** Taking away a multiple of T, itself a multiple of L, takes the same away from the ceiling. */
  lemma CeilShift(A: nat, L: nat, T: nat, q: nat)
    requires L > 0 && T % L == 0
    ensures Ceil(T * q + A, L) == T * q + Ceil(A, L)
  {
    var s := A + L - 1;
    assert T == L * (T / L);
    MulAssoc(L, T / L, q);
    MulAdd(L, T / L * q, s / L);
    DivModUnique(T * q + s, L, T / L * q + s / L, s % L);
  }

  lemma FloorBelow(t: nat, L: nat, T: nat)
    requires L > 0 && T > 0 && T % L == 0
    ensures t % T - t % T % L == (t - t % L) % T
  {
    var u := t % T;
    FloorParts(t, L, T, T / L, t / T, u, u / L, u % L);
  }

  lemma FloorParts(t: nat, L: nat, T: nat, c: nat, q: nat, u: nat, a: nat, b: nat)
    requires L > 0 && T > 0 && T == L * c
    requires t == T * q + u && u < T
    requires u == L * a + b && b < L
    ensures t % T == u && u % L == b && t % L == b && (t - b) % T == u - b
  {
    DivModUnique(t, T, q, u);
    DivModUnique(u, L, a, b);
    MulAssoc(L, c, q);
    MulAdd(L, c * q, a);
    DivModUnique(t, L, c * q + a, b);
    DivModUnique(t - b, T, q, u - b);
  }

  /**
    For every A and every L that is a power of two, MY_ALIGN(A, L) is the least multiple
    of L not below A, reduced to the width of L.
   */
  lemma AlignModulo(wa: nat, wl: nat, A: nat, L: nat, k: nat)
    requires A < Pow2(wa) && L == Pow2(k) && L < Pow2(wl)
    ensures MyAlign(wa, wl, A, L) == Ceil(A, L) % Pow2(wl)
  {
    var w, t, T := Max(wa, wl), A + L - 1, Pow2(wl);
    Masked(wa, wl, A, L, k);
    ExponentBelow(k, wl);
    Pow2Divides(k, wl);
    RemainderChain(t, wl, w);
    FloorBelow(t, L, T);
    FloorIsCeil(MyAlign(wa, wl, A, L), t % Pow2(w) % T, t, A, L, T);
  }

  lemma FloorIsCeil(m: nat, s: nat, t: nat, A: nat, L: nat, T: nat)
    requires L > 0 && T > 0 && t == A + L - 1
    requires m == s - s % L && s == t % T && t % T - t % T % L == (t - t % L) % T
    ensures m == Ceil(A, L) % T
  {
  }

  lemma RemainderChain(t: nat, j: nat, k: nat)
    requires j <= k
    ensures t % Pow2(k) % Pow2(j) == t % Pow2(j)
  {
    Pow2Sum(k - j, j);
    RemainderTwice(t, Pow2(k - j), Pow2(j));
  }

  /** Rounding twice is rounding once, for every A. */
  lemma AlignIdempotent(wa: nat, wl: nat, A: nat, L: nat, k: nat)
    requires A < Pow2(wa) && L == Pow2(k) && L < Pow2(wl)
    ensures var m := MyAlign(wa, wl, A, L);
            m < Pow2(Max(wa, wl)) && MyAlign(Max(wa, wl), wl, m, L) == m
  {
    var m := MyAlign(wa, wl, A, L);
    AlignStays(wa, wl, A, L, k);
    Pow2Monotone(wl, Max(wa, wl));
    AlignExact(Max(wa, wl), wl, m, L, k);
    LeastInWindow(m, m, L);
    LeastUnique(MyAlign(Max(wa, wl), wl, m, L), m, m, L);
  }

  /** Rounding keeps order up to where it is exact. */
  lemma AlignMonotone(wa: nat, wl: nat, A: nat, A': nat, L: nat, k: nat)
    requires A <= A' < Pow2(wa) && L == Pow2(k) && L < Pow2(wl) && A' + L <= Pow2(wl)
    ensures MyAlign(wa, wl, A, L) <= MyAlign(wa, wl, A', L)
  {
    AlignExact(wa, wl, A, L, k);
    AlignExact(wa, wl, A', L, k);
  }

  /** When A is no wider than L, the first A without room already rounds to zero. */
  lemma AlignFallsToZero(wa: nat, wl: nat, A: nat, L: nat, k: nat)
    requires wa <= wl && A < Pow2(wa) && L == Pow2(k) && L < Pow2(wl)
    ensures MyAlign(wa, wl, A, L) == 0 <==> A == 0 || A + L > Pow2(wl)
  {
    Pow2Monotone(wa, wl);
    if A + L <= Pow2(wl) {
      AlignStays(wa, wl, A, L, k);
      AlignInWindow(wa, wl, A, L, k);
      if A == 0 {
        SmallMultiple(MyAlign(wa, wl, A, L), L);
      }
    } else {
      AlignModulo(wa, wl, A, L, k);
      ExponentBelow(k, wl);
      Pow2Divides(k, wl);
      CeilReaches(A, L, Pow2(wl));
      DivModUnique(Pow2(wl), Pow2(wl), 1, 0);
    }
  }

  /** So then the order of two operands is kept if and only if the smaller is zero or has no room, or the larger has. */
  lemma AlignMonotoneIff(wa: nat, wl: nat, A: nat, A': nat, L: nat, k: nat)
    requires wa <= wl && A <= A' < Pow2(wa) && L == Pow2(k) && L < Pow2(wl)
    ensures MyAlign(wa, wl, A, L) <= MyAlign(wa, wl, A', L)
            <==> A == 0 || A + L > Pow2(wl) || A' + L <= Pow2(wl)
  {
    AlignFallsToZero(wa, wl, A, L, k);
    AlignFallsToZero(wa, wl, A', L, k);
    if A' + L <= Pow2(wl) {
      AlignMonotone(wa, wl, A, A', L, k);
    }
  }

  lemma SmallMultiple(r: nat, L: nat)
    requires L > 0 && r % L == 0 && r < L
    ensures r == 0
  {
    DivModUnique(r, L, 0, r);
  }

  lemma CeilReaches(A: nat, L: nat, T: nat)
    requires L > 0 && T % L == 0 && A < T < A + L
    ensures Ceil(A, L) == T
  {
    CeilInWindow(A, L);
    LeastInWindow(T, A, L);
    LeastUnique(Ceil(A, L), T, A, L);
  }

  /** Rounding to a fine grid and then to a coarser one is rounding to the coarser one, for every A. */
  lemma AlignCoarser(wa: nat, wl: nat, A: nat, j: nat, k: nat)
    requires j <= k
    requires A < Pow2(wa) && Pow2(k) < Pow2(wl)
    ensures Pow2(j) < Pow2(wl)
    ensures var m := MyAlign(wa, wl, A, Pow2(j));
            m < Pow2(Max(wa, wl)) && MyAlign(Max(wa, wl), wl, m, Pow2(k)) == MyAlign(wa, wl, A, Pow2(k))
  {
    Pow2Monotone(j, k);
    Pow2Monotone(wl, Max(wa, wl));
    var L, M, T := Pow2(j), Pow2(k), Pow2(wl);
    AlignModulo(wa, wl, A, L, j);
    AlignModulo(wa, wl, A, M, k);
    AlignModulo(Max(wa, wl), wl, Ceil(A, L) % T, M, k);
    ExponentBelow(k, wl);
    Pow2Divides(k, wl);
    Pow2Divides(j, k);
    CeilOfRemainder(Ceil(A, L), M, T);
    CeilTwice(A, L, M);
  }

  lemma CeilOfRemainder(x: nat, M: nat, T: nat)
    requires M > 0 && T > 0 && T % M == 0
    ensures Ceil(x % T, M) % T == Ceil(x, M) % T
  {
    var q, u := x / T, x % T;
    assert x == T * q + u;
    CeilShift(u, M, T, q);
    var c := Ceil(u, M);
    MulAdd(T, q, c / T);
    DivModUnique(T * q + c, T, q + c / T, c % T);
  }

  lemma CeilTwice(A: nat, L: nat, M: nat)
    requires L > 0 && M > 0 && M % L == 0
    ensures Ceil(Ceil(A, L), M) == Ceil(A, M)
  {
    CeilInWindow(A, L);
    CeilInWindow(A, M);
    CeilInWindow(Ceil(A, L), M);
    MultipleOfMultiple(Ceil(A, M), M, L);
    CoarserLeast(A, L, M, Ceil(A, L), Ceil(A, M), Ceil(Ceil(A, L), M));
  }

  lemma MultipleOfMultiple(c: nat, M: nat, L: nat)
    requires L > 0 && M > 0 && c % M == 0 && M % L == 0
    ensures c % L == 0
  {
    var i, j := c / M, M / L;
    assert c == M * i && M == L * j;
    MulAssoc(L, j, i);
    DivModUnique(c, L, j * i, 0);
  }

  lemma CoarserLeast(A: nat, L: nat, M: nat, m: nat, c: nat, d: nat)
    requires L > 0 && M > 0
    requires LeastMultiple(m, A, L) && LeastMultiple(c, A, M) && LeastMultiple(d, m, M)
    requires c % L == 0
    ensures d == c
  {
  }
}
