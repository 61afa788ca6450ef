/**
  Reference meaning of "low byte first": the value of a byte string and the
  byte string of a value. Every codec of the repository is measured against
  these two functions.
 */
module LittleEndian {

  type byte = b: int | 0 <= b < 256

  // The powers of 256 that bound one, two, three, four, five and eight bytes.
  const B1 := 0x100
  const B2 := 0x1_0000
  const B3 := 0x100_0000
  const B4 := 0x1_0000_0000
  const B5 := 0x100_0000_0000
  const B8 := 0x1_0000_0000_0000_0000

  function Pow256(k: nat): (p: nat)
    ensures p > 0
  {
    if k == 0 then 1 else 256 * Pow256(k - 1)
  }

  /** The number denoted by s, least significant byte first. */
  function Value(s: seq<byte>): (v: nat)
    ensures v < Pow256(|s|)
  {
    if s == [] then 0 else s[0] + 256 * Value(s[1..])
  }

  /** The k low base-256 digits of v, least significant first. */
  function Digits(k: nat, v: nat): (s: seq<byte>)
    ensures |s| == k
  {
    if k == 0 then [] else [v % 256] + Digits(k - 1, v / 256)
  }

  lemma MulAdd(m: int, a: int, b: int)
    ensures m * (a + b) == m * a + m * b
  {
  }

  lemma MulAssoc(a: int, b: int, c: int)
    ensures a * (b * c) == (a * b) * c
  {
  }

  lemma MulAtLeast(m: nat, a: nat)
    requires a > 0
    ensures m * a >= m
  {
    MulAdd(m, 1, a - 1);
  }

  lemma QuotientUnique(m: nat, q: int, r: nat, q': int, r': nat)
    requires r < m && r' < m && m * q + r == m * q' + r'
    ensures q == q' && r == r'
  {
    if q < q' {
      MulAdd(m, q, q' - q);
      MulAtLeast(m, q' - q);
    } else if q' < q {
      MulAdd(m, q', q - q');
      MulAtLeast(m, q - q');
    }
  }

  lemma DivModUnique(v: nat, m: nat, q: nat, r: nat)
    requires r < m && v == m * q + r
    ensures v / m == q && v % m == r
  {
    QuotientUnique(m, q, r, v / m, v % m);
  }

  /** Division by b and then by m, and the two remainders joined, is division by b*m. */
  lemma DivModStep(v: nat, b: nat, m: nat)
    requires b > 0 && m > 0
    ensures b * m > 0
    ensures v / (b * m) == v / b / m
    ensures v % (b * m) == v % b + b * ((v / b) % m)
  {
    MulAtLeast(b, m);
    SplitTwice(v, b, m, v / b, v % b, v / b / m, (v / b) % m);
  }

  lemma SplitTwice(v: nat, b: nat, m: nat, h: nat, lo: nat, q: nat, r: nat)
    requires lo < b && r < m
    requires v == b * h + lo && h == m * q + r
    requires b * m > 0
    ensures v / (b * m) == q && v % (b * m) == lo + b * r
  {
    MulAdd(b, m * q, r);
    MulAssoc(b, m, q);
    MulAdd(b, r, m - r);
    MulAtLeast(b, m - r);
    DivModUnique(v, b * m, q, b * r + lo);
  }

  /** Reading the digits of v back gives v reduced to k bytes. */
  lemma {:induction false} ValueOfDigits(k: nat, v: nat)
    ensures Value(Digits(k, v)) == v % Pow256(k)
  {
    if k == 0 {
    } else {
      ValueOfDigits(k - 1, v / 256);
      DivModStep(v, 256, Pow256(k - 1));
      assert Digits(k, v)[1..] == Digits(k - 1, v / 256);
    }
  }

  /** Writing the value of s gives s back, whatever s is. */
  lemma {:induction false} DigitsOfValue(s: seq<byte>)
    ensures Digits(|s|, Value(s)) == s
  {
    if s == [] {
    } else {
      DigitsOfValue(s[1..]);
      assert Value(s) / 256 == Value(s[1..]);
      assert s == [s[0]] + s[1..];
    }
  }

  /** Two strings of one length denote the same number only if they are equal. */
  lemma ValueInjective(s: seq<byte>, t: seq<byte>)
    requires |s| == |t| && Value(s) == Value(t)
    ensures s == t
  {
    DigitsOfValue(s);
    DigitsOfValue(t);
  }

  lemma {:induction false} ValueConcat(s: seq<byte>, t: seq<byte>)
    ensures Value(s + t) == Value(s) + Pow256(|s|) * Value(t)
  {
    if s == [] {
      assert s + t == t;
    } else {
      ValueConcat(s[1..], t);
      assert (s + t)[1..] == s[1..] + t;
      MulAssoc(256, Pow256(|s| - 1), Value(t));
    }
  }

  /** Digit i of v, counted from the least significant. */
  lemma {:induction false} DigitAt(k: nat, v: nat, i: nat)
    requires i < k
    ensures Digits(k, v)[i] == v / Pow256(i) % 256
  {
    if i == 0 {
    } else {
      DigitAt(k - 1, v / 256, i - 1);
      DivModStep(v, 256, Pow256(i - 1));
    }
  }

  lemma {:induction false} DigitsJoin(j: nat, k: nat, v: nat, h: nat)
    requires h == v / Pow256(j)
    ensures Digits(j, v) + Digits(k, h) == Digits(j + k, v)
  {
    if j == 0 {
      assert Digits(0, v) == [];
    } else {
      DivModStep(v, 256, Pow256(j - 1));
      DigitsJoin(j - 1, k, v / 256, h);
      assert Digits(j, v) + Digits(k, h) == [v % 256] + (Digits(j - 1, v / 256) + Digits(k, h));
    }
  }

  /** The digits depend only on v modulo 256^k. */
  lemma DigitsOfMod(k: nat, v: nat)
    ensures Digits(k, v % Pow256(k)) == Digits(k, v)
  {
    ValueOfDigits(k, v);
    DigitsOfValue(Digits(k, v));
  }

  lemma Value2(s: seq<byte>)
    requires |s| == 2
    ensures Value(s) == s[0] as int + 0x100 * s[1] as int
  {
    assert s[1..][1..] == [];
  }

  lemma Value4(s: seq<byte>)
    requires |s| == 4
    ensures Value(s) == s[0] as int + 0x100 * s[1] as int + 0x1_0000 * s[2] as int + 0x100_0000 * s[3] as int
  {
    ValueConcat(s[..2], s[2..]);
    assert s == s[..2] + s[2..];
    Value2(s[..2]);
    Value2(s[2..]);
    Pow256Table();
  }

  lemma Pow256Table()
    ensures Pow256(0) == 1 && Pow256(1) == 0x100 && Pow256(2) == 0x1_0000
    ensures Pow256(3) == 0x100_0000 && Pow256(4) == 0x1_0000_0000
    ensures Pow256(5) == 0x100_0000_0000 && Pow256(6) == 0x1_0000_0000_0000
    ensures Pow256(8) == 0x1_0000_0000_0000_0000
  {
    assert Pow256(2) == 256 * Pow256(1);
    assert Pow256(4) == 256 * (256 * Pow256(2));
    assert Pow256(6) == 256 * (256 * Pow256(4));
    assert Pow256(8) == 256 * (256 * Pow256(6));
  }

  // ---- slices of byte strings ----

  lemma SliceJoin(log: seq<byte>, i: nat, j: nat, k: nat)
    requires i <= j <= k <= |log|
    ensures log[i..k] == log[i..j] + log[j..k]
  {
  }

  lemma SliceShift(buf: seq<byte>, n: nat, i: nat, j: nat)
    requires i <= j && n + j <= |buf|
    ensures buf[n..][i..j] == buf[n + i..n + j]
  {
  }

  lemma JoinThree(a: seq<byte>, b: seq<byte>, c: seq<byte>)
    ensures a + b + c == a + (b + c)
  {
  }

  lemma SliceOfSlice(s: seq<byte>, lo: nat, hi: nat, i: nat, j: nat)
    requires i <= j && lo + j <= hi <= |s|
    ensures s[lo..hi][i..j] == s[lo + i..lo + j]
  {
    assert forall k :: 0 <= k < j - i ==> s[lo..hi][i..j][k] == s[lo + i..lo + j][k];
  }
}
