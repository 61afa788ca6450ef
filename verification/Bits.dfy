/**
  Bitwise operators on natural numbers, defined bit by bit, and the lemmas that
  tie masks to division and remainder. They hold at every width.
 */
module Bits {
  import opened LittleEndian

  function Pow2(k: nat): (p: nat)
    ensures p > 0
  {
    if k == 0 then 1 else 2 * Pow2(k - 1)
  }

  function And(x: nat, y: nat): nat
  {
    if x == 0 || y == 0 then 0
    else 2 * And(x / 2, y / 2) + (if x % 2 == 1 && y % 2 == 1 then 1 else 0)
  }

  function Or(x: nat, y: nat): nat
  {
    if x == 0 then y
    else if y == 0 then x
    else 2 * Or(x / 2, y / 2) + (if x % 2 == 1 || y % 2 == 1 then 1 else 0)
  }

  function Xor(x: nat, y: nat): nat
  {
    if x == 0 then y
    else if y == 0 then x
    else 2 * Xor(x / 2, y / 2) + (if x % 2 == y % 2 then 0 else 1)
  }

  /** The complement of x in a word of the given width. */
  function Not(width: nat, x: nat): (r: nat)
    requires x < Pow2(width)
    ensures r < Pow2(width)
  {
    Pow2(width) - 1 - x
  }

  lemma {:induction false} Pow2Sum(j: nat, k: nat)
    ensures Pow2(j + k) == Pow2(j) * Pow2(k)
  {
    if j == 0 {
    } else {
      Pow2Sum(j - 1, k);
      MulAssoc(2, Pow2(j - 1), Pow2(k));
    }
  }

  lemma {:induction false} Pow2Monotone(j: nat, k: nat)
    requires j <= k
    ensures Pow2(j) <= Pow2(k)
  {
    if j < k {
      Pow2Monotone(j, k - 1);
    }
  }

  /** The k low bits of x. */
  function Low(x: nat, k: nat): nat
  {
    if k == 0 then 0 else x % 2 + 2 * Low(x / 2, k - 1)
  }

  lemma {:induction false} LowIsRemainder(x: nat, k: nat)
    ensures Low(x, k) == x % Pow2(k)
  {
    if k > 0 {
      LowIsRemainder(x / 2, k - 1);
      DivModStep(x, 2, Pow2(k - 1));
    }
  }

  lemma AndStep(x: nat, v: nat, m: nat, b: nat)
    requires v == 2 * m + b && b < 2
    ensures And(x, v) == 2 * And(x / 2, m) + (if b == 1 then x % 2 else 0)
  {
    assert v / 2 == m && v % 2 == b;
  }

  lemma {:induction false} AndLowBits(x: nat, k: nat)
    ensures And(x, Pow2(k) - 1) == Low(x, k)
  {
    if k > 0 {
      AndLowBits(x / 2, k - 1);
      AndStep(x, Pow2(k) - 1, Pow2(k - 1) - 1, 1);
    }
  }

  lemma {:induction false} AndHighBits(x: nat, k: nat, w: nat)
    requires k <= w
    ensures Pow2(k) <= Pow2(w)
    ensures And(x, Pow2(w) - Pow2(k)) == Low(x, w) - Low(x, k)
  {
    Pow2Monotone(k, w);
    if k == 0 {
      AndLowBits(x, w);
    } else {
      AndHighBits(x / 2, k - 1, w - 1);
      AndStep(x, Pow2(w) - Pow2(k), Pow2(w - 1) - Pow2(k - 1), 0);
    }
  }

  /** A mask of ones from bit k up to bit w-1 keeps x modulo 2^w and clears the k low bits. */
  lemma AndHighMask(x: nat, k: nat, w: nat)
    requires k <= w
    ensures Pow2(k) <= Pow2(w)
    ensures And(x, Pow2(w) - Pow2(k)) == x % Pow2(w) - x % Pow2(k)
  {
    AndHighBits(x, k, w);
    LowIsRemainder(x, w);
    LowIsRemainder(x, k);
  }

  /** Bit k of a number of at most k+1 bits. */
  lemma AndBit(x: nat, k: nat)
    requires x < Pow2(k + 1)
    ensures And(x, Pow2(k)) != 0 <==> x >= Pow2(k)
  {
    AndHighMask(x, k, k + 1);
    DivModUnique(x, Pow2(k + 1), 0, x);
    if x >= Pow2(k) {
      DivModUnique(x, Pow2(k), 1, x - Pow2(k));
    } else {
      DivModUnique(x, Pow2(k), 0, x);
    }
  }

  /** Or-ing a number shifted left by k with a number below 2^k is addition. */
  lemma {:induction false} OrDisjoint(hi: nat, lo: nat, k: nat)
    requires lo < Pow2(k)
    ensures Or(hi * Pow2(k), lo) == hi * Pow2(k) + lo
  {
    if k == 0 {
    } else {
      OrDisjoint(hi, lo / 2, k - 1);
      ShiftStep(hi, Pow2(k - 1));
      OrStep(hi * Pow2(k - 1), lo);
    }
  }

  lemma ShiftStep(hi: nat, m: nat)
    ensures hi * (2 * m) == 2 * (hi * m)
  {
  }

  lemma OrStep(h: nat, lo: nat)
    ensures Or(2 * h, lo) == 2 * Or(h, lo / 2) + lo % 2
  {
  }

  lemma {:induction false} OrCommutes(x: nat, y: nat)
    ensures Or(x, y) == Or(y, x)
    decreases x + y
  {
    if x > 0 && y > 0 {
      OrCommutes(x / 2, y / 2);
    }
  }

  /** Bit k of x, from the least significant. */
  function Bit(x: nat, k: nat): (b: nat) { x / Pow2(k) % 2 }

  lemma BitStep(x: nat, k: nat)
    ensures Bit(x, 0) == x % 2
    ensures k > 0 ==> Bit(x, k) == Bit(x / 2, k - 1)
  {
    assert x / Pow2(0) == x;
    if k > 0 {
      DivModStep(x, 2, Pow2(k - 1));
    }
  }

  /** What the three operators are, bit for bit. */
  lemma {:induction false} BitOfAnd(x: nat, y: nat, k: nat)
    ensures Bit(And(x, y), k) == if Bit(x, k) == 1 && Bit(y, k) == 1 then 1 else 0
  {
    AndHalves(x, y);
    BitStep(x, k);
    BitStep(y, k);
    BitStep(And(x, y), k);
    if k > 0 {
      BitOfAnd(x / 2, y / 2, k - 1);
    }
  }

  lemma AndHalves(x: nat, y: nat)
    ensures And(x, y) / 2 == And(x / 2, y / 2)
    ensures And(x, y) % 2 == if x % 2 == 1 && y % 2 == 1 then 1 else 0
  {
  }

  lemma {:induction false} BitOfOr(x: nat, y: nat, k: nat)
    ensures Bit(Or(x, y), k) == if Bit(x, k) == 1 || Bit(y, k) == 1 then 1 else 0
  {
    OrHalves(x, y);
    BitStep(x, k);
    BitStep(y, k);
    BitStep(Or(x, y), k);
    if k > 0 {
      BitOfOr(x / 2, y / 2, k - 1);
    }
  }

  lemma OrHalves(x: nat, y: nat)
    ensures Or(x, y) / 2 == Or(x / 2, y / 2)
    ensures Or(x, y) % 2 == if x % 2 == 1 || y % 2 == 1 then 1 else 0
  {
  }

  lemma {:induction false} BitOfXor(x: nat, y: nat, k: nat)
    ensures Bit(Xor(x, y), k) == if Bit(x, k) == Bit(y, k) then 0 else 1
  {
    XorStep(x, y);
    BitStep(x, k);
    BitStep(y, k);
    BitStep(Xor(x, y), k);
    if k > 0 {
      BitOfXor(x / 2, y / 2, k - 1);
    }
  }

  lemma XorStep(x: nat, y: nat)
    ensures Xor(x, y) == 2 * Xor(x / 2, y / 2) + (if x % 2 == y % 2 then 0 else 1)
    ensures Xor(x, y) / 2 == Xor(x / 2, y / 2)
    ensures Xor(x, y) % 2 == if x % 2 == y % 2 then 0 else 1
  {
  }

  lemma {:induction false} XorBound(x: nat, y: nat, k: nat)
    requires x < Pow2(k) && y < Pow2(k)
    ensures Xor(x, y) < Pow2(k)
  {
    if k > 0 {
      XorStep(x, y);
      XorBound(x / 2, y / 2, k - 1);
    }
  }

  /** The order in which masks are applied does not matter. */
  lemma {:induction false} XorSwap(x: nat, y: nat, z: nat)
    ensures Xor(Xor(x, y), z) == Xor(Xor(x, z), y)
    decreases x + y + z
  {
    if x + y + z > 0 {
      XorStep(x, y);
      XorStep(Xor(x, y), z);
      XorStep(x, z);
      XorStep(Xor(x, z), y);
      XorSwap(x / 2, y / 2, z / 2);
    }
  }

  /** Applying a mask twice undoes it. */
  lemma {:induction false} XorCancel(x: nat, y: nat)
    ensures Xor(Xor(x, y), y) == x
    decreases x + y
  {
    if x + y > 0 {
      XorStep(x, y);
      XorStep(Xor(x, y), y);
      XorCancel(x / 2, y / 2);
    }
  }
}
