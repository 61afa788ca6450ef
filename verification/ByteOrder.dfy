/**
  The machine-independent integer codecs: the korr readers, which are pure, and
  the store writers, which update a buffer in place. A reader takes the bytes
  from its pointer onwards; a writer takes the buffer and an offset.
  Shifts are written as multiplication and division by powers of two, casts as
  remainders, so every width of the source is explicit.
 */
module ByteOrder {
  import opened LittleEndian
  import opened Bits

  function ToSigned16(u: nat): int { if u % B2 < 0x8000 then u % B2 else u % B2 - B2 }

  function ToSigned32(u: nat): int { if u % B4 < 0x8000_0000 then u % B4 else u % B4 - B4 }

  function ToSigned64(u: nat): int {
    if u % B8 < 0x8000_0000_0000_0000 then u % B8 else u % B8 - B8
  }

  /** Conversion of a signed argument to an unsigned parameter of 32 bits. */
  function ToUnsigned32(v: int): (u: nat) { v % B4 }

  // ---- readers ----

  function Uint2korr(A: seq<byte>): (r: nat)
    requires |A| >= 2
    ensures r == Value(A[..2])
  {
    Value2(A[..2]);
    (A[0] as int + A[1] as int * B1) % B2
  }

  function Sint2korr(A: seq<byte>): (r: int)
    requires |A| >= 2
    ensures r == ToSigned16(Value(A[..2]))
  {
    Value2(A[..2]);
    ToSigned16(A[0] as int + A[1] as int * B1)
  }

  function Uint3korr(A: seq<byte>): (r: nat)
    requires |A| >= 3
    ensures r == Value(A[..3])
  {
    Value3(A[..3]);
    (A[0] as int + A[1] as int * B1 + A[2] as int * B2) % B4
  }

  function Uint4korr(A: seq<byte>): (r: nat)
    requires |A| >= 4
    ensures r == Value(A[..4])
  {
    Value4(A[..4]);
    (A[0] as int + A[1] as int * B1 + A[2] as int * B2 + A[3] as int * B3) % B4
  }

  function Sint4korr(A: seq<byte>): (r: int)
    requires |A| >= 4
    ensures r == ToSigned32(Value(A[..4]))
  {
    Value4(A[..4]);
    ToSigned32(A[0] as int + A[1] as int * B1 + A[2] as int * B2 + A[3] as int * B3)
  }

  function Uint5korr(A: seq<byte>): (r: nat)
    requires |A| >= 5
    ensures r == Value(A[..5])
  {
    Value4Then(A[..5]);
    assert A[..5][..4] == A[..4] && A[..5][4..] == [A[4]];
    (Uint4korr(A) + A[4] as int * B4) % B8
  }

  function Uint6korr(A: seq<byte>): (r: nat)
    requires |A| >= 6
    ensures r == Value(A[..6])
  {
    Value4Then(A[..6]);
    assert A[..6][..4] == A[..4] && A[..6][4..] == [A[4], A[5]];
    Value2([A[4], A[5]]);
    (Uint4korr(A) + A[4] as int * B4 + A[5] as int * B5) % B8
  }

  function Uint8korr(A: seq<byte>): (r: nat)
    requires |A| >= 8
    ensures r == Value(A[..8])
  {
    Value4Then(A[..8]);
    assert A[..8][..4] == A[..4] && A[..8][4..] == A[4..][..4];
    (Uint4korr(A) + Uint4korr(A[4..]) * B4) % B8
  }

  function Sint8korr(A: seq<byte>): (r: int)
    requires |A| >= 8
    ensures r == ToSigned64(Value(A[..8]))
  {
    ToSigned64(Uint8korr(A))
  }

  /** The branch on bit 7 of the top byte, with the source's masks and shifts. */
  function Sint3Bits(A: seq<byte>): (r: nat)
    requires |A| >= 3
  {
    if And(A[2], 128) != 0 then
      Or(Or(Or(255 * B3, A[2] as int * B2), A[1] as int * B1), A[0])
    else
      Or(Or(A[2] as int * B2, A[1] as int * B1), A[0])
  }

  function Sint3korr(A: seq<byte>): (r: int)
    requires |A| >= 3
  {
    ToSigned32(Sint3Bits(A))
  }

  lemma Value3(s: seq<byte>)
    requires |s| == 3
    ensures Value(s) == s[0] as int + B1 * s[1] as int + B2 * s[2] as int
  {
    assert s[1..][1..][1..] == [];
    Value2(s[1..]);
  }

  lemma Value4Then(s: seq<byte>)
    requires |s| >= 4
    ensures Value(s) == Value(s[..4]) + B4 * Value(s[4..])
  {
    ValueConcat(s[..4], s[4..]);
    assert s == s[..4] + s[4..];
    Pow256Table();
  }

  lemma TopBit(a: byte)
    ensures And(a, 128) != 0 <==> a >= 128
  {
    Pow2Table();
    AndBit(a, 7);
  }

  lemma Pow2Table()
    ensures Pow2(7) == 0x80 && Pow2(8) == B1 && Pow2(16) == B2 && Pow2(24) == B3
  {
    assert Pow2(4) == 16;
    Pow2Sum(4, 3);
    Pow2Sum(4, 4);
    Pow2Sum(8, 8);
    Pow2Sum(16, 8);
  }

  lemma OrBytes(hi: nat, b: byte, a: byte)
    ensures Or(Or(hi * B2, b as int * B1), a) == hi * B2 + b as int * B1 + a as int
  {
    Pow2Table();
    OrDisjoint(hi, b as int * B1, 16);
    OrDisjoint(hi * B1 + b as int, a, 8);
  }

  /** The masks of Sint3korr compute the two's-complement reading of three bytes. */
  lemma Sint3IsTwosComplement(A: seq<byte>)
    requires |A| >= 3
    ensures Sint3korr(A) == if Uint3korr(A) < 0x80_0000 then Uint3korr(A) else Uint3korr(A) - B3
  {
    Sint3Words(A);
    SignFill(A[0], A[1], A[2]);
    Uint3Sum(A);
  }

  lemma Uint3Sum(A: seq<byte>)
    requires |A| >= 3
    ensures Uint3korr(A) == A[2] as int * B2 + A[1] as int * B1 + A[0] as int
  {
  }

  lemma Sint3Words(A: seq<byte>)
    requires |A| >= 3
    ensures var w := A[2] as int * B2 + A[1] as int * B1 + A[0] as int;
            Sint3Bits(A) == if A[2] < 128 then w else 255 * B3 + w
  {
    TopBit(A[2]);
    MaskedBytes(A[0], A[1], A[2]);
  }

  lemma SignFill(a: byte, b: byte, c: byte)
    ensures var w := c as int * B2 + b as int * B1 + a as int;
            && (c < 128 <==> w < 0x80_0000)
            && w % B4 == w
            && (c < 128 ==> ToSigned32(w) == w)
            && (c >= 128 ==> ToSigned32(255 * B3 + w) == w - B3)
  {
  }

  lemma MaskedBytes(a: byte, b: byte, c: byte)
    ensures Or(Or(c as int * B2, b as int * B1), a) == c as int * B2 + b as int * B1 + a as int
    ensures Or(Or(Or(255 * B3, c as int * B2), b as int * B1), a)
         == 255 * B3 + c as int * B2 + b as int * B1 + a as int
  {
    Pow2Table();
    OrDisjoint(255, c as int * B2, 24);
    OrBytes(255 * B1 + c as int, b, a);
    OrBytes(c, b, a);
  }

  // ---- writers ----

  /** The buffer s with d written over it at offset off. */
  function Put(s: seq<byte>, off: nat, d: seq<byte>): (r: seq<byte>)
    requires off + |d| <= |s|
    ensures |r| == |s|
  {
    s[..off] + d + s[off + |d|..]
  }

  method Int2store(T: array<byte>, off: nat, A: nat)
    requires off + 2 <= T.Length && A < B2
    modifies T
    ensures T[..] == Put(old(T[..]), off, Digits(2, A))
  {
    T[off] := A % B1;
    T[off + 1] := A / B1 % B1;
    DigitsPoint(2, A);
  }

  method Int3store(T: array<byte>, off: nat, A: nat)
    requires off + 3 <= T.Length && A < B4
    modifies T
    ensures T[..] == Put(old(T[..]), off, Digits(3, A))
  {
    T[off] := A % B1;
    T[off + 1] := A / B1 % B1;
    T[off + 2] := A / B2 % B1;
    DigitsPoint(3, A);
  }

  method Int4store(T: array<byte>, off: nat, A: nat)
    requires off + 4 <= T.Length && A < B4
    modifies T
    ensures T[..] == Put(old(T[..]), off, Digits(4, A))
  {
    T[off] := A % B1;
    T[off + 1] := A / B1 % B1;
    T[off + 2] := A / B2 % B1;
    T[off + 3] := A / B3 % B1;
    DigitsPoint(4, A);
  }

  method Int5store(T: array<byte>, off: nat, A: nat)
    requires off + 5 <= T.Length && A < B8
    modifies T
    ensures T[..] == Put(old(T[..]), off, Digits(5, A))
  {
    T[off] := A % B1;
    T[off + 1] := A / B1 % B1;
    T[off + 2] := A / B2 % B1;
    T[off + 3] := A / B3 % B1;
    T[off + 4] := A / B4 % B1;
    DigitsPoint(5, A);
  }

  method Int6store(T: array<byte>, off: nat, A: nat)
    requires off + 6 <= T.Length && A < B8
    modifies T
    ensures T[..] == Put(old(T[..]), off, Digits(6, A))
  {
    T[off] := A % B1;
    T[off + 1] := A / B1 % B1;
    T[off + 2] := A / B2 % B1;
    T[off + 3] := A / B3 % B1;
    T[off + 4] := A / B4 % B1;
    T[off + 5] := A / B5 % B1;
    DigitsPoint(6, A);
  }

  /** Two four-byte stores of the two halves of the value. */
  method Int8store(T: array<byte>, off: nat, A: nat)
    requires off + 8 <= T.Length && A < B8
    modifies T
    ensures T[..] == Put(old(T[..]), off, Digits(8, A))
  {
    var low, high := A % B4, A / B4 % B4;
    Int4store(T, off, low);
    Int4store(T, off + 4, high);
    Pow256Table();
    DigitsOfMod(4, A);
    DigitsJoin(4, 4, A, high);
    PutJoin(old(T[..]), off, Digits(4, low), Digits(4, high));
  }

  lemma DigitsPoint(k: nat, v: nat)
    requires k <= 6
    ensures forall i :: 0 <= i < k ==> Digits(k, v)[i] == v / Pow256(i) % 256
    ensures Pow256(0) == 1 && Pow256(1) == B1 && Pow256(2) == B2 && Pow256(3) == B3
    ensures Pow256(4) == B4 && Pow256(5) == B5
  {
    forall i | 0 <= i < k
      ensures Digits(k, v)[i] == v / Pow256(i) % 256
    {
      DigitAt(k, v, i);
    }
    Pow256Table();
  }

  lemma PutJoin(s: seq<byte>, off: nat, d: seq<byte>, e: seq<byte>)
    requires off + |d| + |e| <= |s|
    ensures Put(Put(s, off, d), off + |d|, e) == Put(s, off, d + e)
  {
  }

  // ---- what storing and reading promise together ----

  /** Reading k bytes where the k bytes of v were stored gives v modulo 2^(8k). */
  lemma ReadAfterStore(s: seq<byte>, off: nat, k: nat, v: nat)
    requires off + k <= |s|
    ensures Value(Put(s, off, Digits(k, v))[off..][..k]) == v % Pow256(k)
  {
    assert Put(s, off, Digits(k, v))[off..][..k] == Digits(k, v);
    ValueOfDigits(k, v);
  }

  /** Storing what was read at the same place changes nothing. */
  lemma StoreAfterRead(s: seq<byte>, off: nat, k: nat)
    requires off + k <= |s|
    ensures Put(s, off, Digits(k, Value(s[off..][..k]))) == s
  {
    DigitsOfValue(s[off..][..k]);
  }

  /** Every unsigned reader applied where its writer stored v gives v modulo 2^(8k). */
  lemma UnsignedRoundTrip(s: seq<byte>, off: nat, k: nat, v: nat)
    requires off + k <= |s|
    ensures var A := Put(s, off, Digits(k, v))[off..];
            && (k == 2 ==> Uint2korr(A) == v % Pow256(k))
            && (k == 3 ==> Uint3korr(A) == v % Pow256(k))
            && (k == 4 ==> Uint4korr(A) == v % Pow256(k))
            && (k == 5 ==> Uint5korr(A) == v % Pow256(k))
            && (k == 6 ==> Uint6korr(A) == v % Pow256(k))
            && (k == 8 ==> Uint8korr(A) == v % Pow256(k))
  {
    ReadAfterStore(s, off, k, v);
  }

  /** A signed 16, 32 or 64 bit value stored in its own width is read back unchanged. */
  lemma SignedRoundTrip(s: seq<byte>, off: nat, k: nat, v: int)
    requires off + k <= |s| && k in {2, 4, 8}
    requires -(Pow256(k) as int) <= 2 * v < Pow256(k)
    ensures var A := Put(s, off, Digits(k, v % Pow256(k)))[off..];
            && (k == 2 ==> Sint2korr(A) == v)
            && (k == 4 ==> Sint4korr(A) == v)
            && (k == 8 ==> Sint8korr(A) == v)
  {
    var u := v % Pow256(k);
    ReadAfterStore(s, off, k, u);
    DivModUnique(u, Pow256(k), 0, u);
    SignedOfUnsigned(k, v, u);
  }

  lemma SignedOfUnsigned(k: nat, v: int, u: nat)
    requires -(Pow256(k) as int) <= 2 * v < Pow256(k) && u == v % Pow256(k)
    ensures k == 2 ==> ToSigned16(u) == v
    ensures k == 4 ==> ToSigned32(u) == v
    ensures k == 8 ==> ToSigned64(u) == v
  {
    Pow256Table();
  }

  /** A signed value stored in three bytes is read back exactly when it lies in INT_MIN24..INT_MAX24. */
  lemma Sint3RoundTrip(s: seq<byte>, off: nat, v: int)
    requires off + 3 <= |s|
    requires -0x8000_0000 <= v < 0x8000_0000
    ensures Sint3korr(Put(s, off, Digits(3, ToUnsigned32(v)))[off..]) == v
            <==> -0x80_0000 <= v <= 0x7F_FFFF
  {
    var A := Put(s, off, Digits(3, ToUnsigned32(v)))[off..];
    Sint3IsTwosComplement(A);
    UnsignedRoundTrip(s, off, 3, ToUnsigned32(v));
    Pow256Table();
    Signed24(v, ToUnsigned32(v), Uint3korr(A), Sint3korr(A));
  }

  lemma Signed24(v: int, u: nat, w: nat, r: int)
    requires -0x8000_0000 <= v < 0x8000_0000
    requires u == v % B4 && w == u % B3
    requires r == if w < 0x80_0000 then w else w - B3
    ensures r == v <==> -0x80_0000 <= v <= 0x7F_FFFF
  {
  }

  // ---- records of several fields ----

  datatype Field = Field(off: nat, width: nat, value: nat)

  predicate Disjoint(f: Field, g: Field) {
    f.off + f.width <= g.off || g.off + g.width <= f.off
  }

  predicate Laid(fs: seq<Field>, size: nat) {
    && (forall i :: 0 <= i < |fs| ==> fs[i].off + fs[i].width <= size)
    && (forall i, j :: 0 <= i < j < |fs| ==> Disjoint(fs[i], fs[j]))
  }

  /** Storing the fields one after the other, in the order of the list. */
  function StoreAll(s: seq<byte>, fs: seq<Field>): (r: seq<byte>)
    requires Laid(fs, |s|)
    ensures |r| == |s|
    decreases fs
  {
    if fs == [] then s
    else
      StoreAll(Put(s, fs[0].off, Digits(fs[0].width, fs[0].value)), fs[1..])
  }

  predicate Covers(f: Field, k: nat) { f.off <= k < f.off + f.width }

  /** Byte k of the record is decided by the one field that covers it, or is untouched. */
  lemma {:induction false} StoreAllAt(s: seq<byte>, fs: seq<Field>, k: nat)
    requires Laid(fs, |s|) && k < |s|
    ensures forall i :: 0 <= i < |fs| && Covers(fs[i], k) ==>
              StoreAll(s, fs)[k] == Digits(fs[i].width, fs[i].value)[k - fs[i].off]
    ensures (forall i :: 0 <= i < |fs| ==> !Covers(fs[i], k)) ==> StoreAll(s, fs)[k] == s[k]
    decreases fs
  {
    if fs == [] {
    } else {
      var f, rest := fs[0], fs[1..];
      var t := Put(s, f.off, Digits(f.width, f.value));
      StoreAllAt(t, rest, k);
      assert forall i :: 1 <= i < |fs| ==> fs[i] == rest[i - 1];
      if Covers(f, k) {
        assert forall i :: 0 <= i < |rest| ==> Disjoint(f, fs[i + 1]) && !Covers(rest[i], k);
      }
    }
  }

  /** Whatever the order of the stores, each field reads back its own value. */
  lemma FieldsReadBack(s: seq<byte>, fs: seq<Field>, i: nat)
    requires Laid(fs, |s|) && i < |fs|
    ensures Value(StoreAll(s, fs)[fs[i].off..][..fs[i].width]) == fs[i].value % Pow256(fs[i].width)
  {
    var f, t := fs[i], StoreAll(s, fs);
    forall k | 0 <= k < f.width
      ensures t[f.off..][..f.width][k] == Digits(f.width, f.value)[k]
    {
      StoreAllAt(s, fs, f.off + k);
      assert Covers(f, f.off + k);
    }
    assert t[f.off..][..f.width] == Digits(f.width, f.value);
    ValueOfDigits(f.width, f.value);
  }

  /** Two orders of the same stores leave the same record. */
  lemma StoreOrderIrrelevant(s: seq<byte>, fs: seq<Field>, gs: seq<Field>)
    requires Laid(fs, |s|) && Laid(gs, |s|)
    requires multiset(fs) == multiset(gs)
    ensures StoreAll(s, fs) == StoreAll(s, gs)
  {
    forall k | 0 <= k < |s|
      ensures StoreAll(s, fs)[k] == StoreAll(s, gs)[k]
    {
      StoreAllAt(s, fs, k);
      StoreAllAt(s, gs, k);
      if i :| 0 <= i < |fs| && Covers(fs[i], k) {
        assert fs[i] in multiset(gs);
        var j :| 0 <= j < |gs| && gs[j] == fs[i];
      } else {
        forall j | 0 <= j < |gs|
          ensures !Covers(gs[j], k)
        {
          assert gs[j] in multiset(fs);
        }
      }
    }
  }
}
