/**
  Machine-dependent stores and loads. A float or double is its bit pattern; what
  a memcpy from it sees depends on the host's memory order, which is a parameter.
  A MixedHost is the bi-endian hardware of little_endian.h: integers are
  little-endian, and the two words of a double are kept high word first.
 */
module HostOrder {
  import opened LittleEndian
  import opened ByteOrder

  datatype Host = LittleHost | BigHost | MixedHost

  function Reverse(s: seq<byte>): (r: seq<byte>)
    ensures |r| == |s|
    ensures forall i :: 0 <= i < |s| ==> r[i] == s[|s| - 1 - i]
  {
    if s == [] then [] else Reverse(s[1..]) + [s[0]]
  }

  /** Memory order of the bytes of a floating-point object, given low byte first. Its own inverse. */
  function Arrange(h: Host, s: seq<byte>): (r: seq<byte>)
    ensures |r| == |s|
  {
    match h
    case LittleHost => s
    case BigHost => Reverse(s)
    case MixedHost => if |s| == 8 then s[4..] + s[..4] else s
  }

  lemma ArrangeTwice(h: Host, s: seq<byte>)
    ensures Arrange(h, Arrange(h, s)) == s
  {
    if h.BigHost? {
      assert Reverse(Reverse(s)) == s;
    }
  }

  /** The bytes in memory of a k-byte floating-point object with bit pattern v. */
  function Image(h: Host, k: nat, v: nat): (m: seq<byte>)
    ensures |m| == k
  {
    Arrange(h, Digits(k, v))
  }

  /** The bit pattern of the object whose bytes in memory are m. */
  function Pattern(h: Host, m: seq<byte>): nat { Value(Arrange(h, m)) }

  /** The unsigned integer loaded from the bytes w on host h. */
  function HostWord(h: Host, w: seq<byte>): nat
  {
    if h.BigHost? then Value(Reverse(w)) else Value(w)
  }

  lemma PatternOfImage(h: Host, k: nat, v: nat)
    ensures Pattern(h, Image(h, k, v)) == v % Pow256(k)
  {
    ArrangeTwice(h, Digits(k, v));
    ValueOfDigits(k, v);
  }

  method Memcpy(T: array<byte>, off: nat, m: seq<byte>)
    requires off + |m| <= T.Length
    modifies T
    ensures T[..] == Put(old(T[..]), off, m)
  {
    forall i | 0 <= i < |m| {
      T[off + i] := m[i];
    }
  }

  // ---- big_endian.h ----

  method BigFloat4store(T: array<byte>, off: nat, A: nat)
    requires off + 4 <= T.Length && A < B4
    modifies T
    ensures T[..] == Put(old(T[..]), off, Digits(4, A))
  {
    var mem := Image(BigHost, 4, A);
    T[off] := mem[3];
    T[off + 1] := mem[2];
    T[off + 2] := mem[1];
    T[off + 3] := mem[0];
  }

  method BigFloat4get(M: seq<byte>) returns (V: nat)
    requires |M| >= 4
    ensures V == Value(M[..4])
  {
    var defTemp := [M[3], M[2], M[1], M[0]];
    assert Reverse(defTemp) == M[..4];
    V := Pattern(BigHost, defTemp);
  }

  method BigFloat8store(T: array<byte>, off: nat, V: nat)
    requires off + 8 <= T.Length && V < B8
    modifies T
    ensures T[..] == Put(old(T[..]), off, Digits(8, V))
  {
    var mem := Image(BigHost, 8, V);
    T[off] := mem[7];
    T[off + 1] := mem[6];
    T[off + 2] := mem[5];
    T[off + 3] := mem[4];
    T[off + 4] := mem[3];
    T[off + 5] := mem[2];
    T[off + 6] := mem[1];
    T[off + 7] := mem[0];
  }

  method BigFloat8get(M: seq<byte>) returns (V: nat)
    requires |M| >= 8
    ensures V == Value(M[..8])
  {
    var defTemp := [M[7], M[6], M[5], M[4], M[3], M[2], M[1], M[0]];
    assert Reverse(defTemp) == M[..8];
    V := Pattern(BigHost, defTemp);
  }

  method BigDoublestore(T: array<byte>, off: nat, V: nat)
    requires off + 8 <= T.Length && V < B8
    modifies T
    ensures T[..] == Put(old(T[..]), off, Reverse(Digits(8, V)))
  {
    Memcpy(T, off, Image(BigHost, 8, V));
  }

  method BigShortstore(T: array<byte>, off: nat, A: int)
    requires off + 2 <= T.Length && -0x8000 <= A < 0x8000
    modifies T
    ensures T[..] == Put(old(T[..]), off, Reverse(Digits(2, A % B2)))
  {
    var defTemp := ToUnsigned32(A);
    T[off + 1] := defTemp % B1;
    T[off] := defTemp / B1 % B1;
    LowBytes2(A, A % B2, defTemp);
    DigitsPoint(2, A % B2);
  }

  lemma LowBytes2(A: int, u: nat, w: nat)
    requires u == A % B2 && w == A % B4
    ensures u % B1 == w % B1 && u / B1 % B1 == w / B1 % B1
  {
    DivModStep(w, B2, B2);
    assert u == w % B2;
    DivModStep(w, B1, B1);
    DivModUnique(u, B1, w / B1 % B1, w % B1);
  }

  /** A signed value and its unsigned image shift to the same bytes. */
  lemma LowBytes4(A: int, u: nat)
    requires u == A % B4
    ensures u % B1 == A % B1 && u / B1 % B1 == A / B1 % B1
    ensures u / B2 % B1 == A / B2 % B1 && u / B3 % B1 == A / B3 % B1
  {
    var q := A / B4;
    ShiftByte(A, u, B3 * q);
    ShiftByte(A / B1, u / B1, B2 * q);
    ShiftByte(A / B2, u / B2, B1 * q);
  }

  lemma ShiftByte(A: int, u: nat, p: int)
    requires A == u + B1 * p
    ensures A % B1 == u % B1 && A / B1 == u / B1 + p
    ensures A / B1 / B1 == A / B2 && u / B1 / B1 == u / B2
    ensures A / B2 / B1 == A / B3 && u / B2 / B1 == u / B3
  {
  }

  function BigShortget(pM: seq<byte>): (r: int)
    requires |pM| >= 2
    ensures r == ToSigned16(Value(Reverse(pM[..2])))
  {
    Value2(Reverse(pM[..2]));
    ToSigned16(pM[1] as int + pM[0] as int * B1)
  }

  method BigLongstore(T: array<byte>, off: nat, A: int)
    requires off + 4 <= T.Length && -0x8000_0000 <= A < 0x8000_0000
    modifies T
    ensures T[..] == Put(old(T[..]), off, Reverse(Digits(4, A % B4)))
  {
    T[off + 3] := A % B1;
    T[off + 2] := A / B1 % B1;
    T[off + 1] := A / B2 % B1;
    T[off] := A / B3 % B1;
    LowBytes4(A, A % B4);
    DigitsPoint(4, A % B4);
  }

  function BigLongget(pM: seq<byte>): (r: int)
    requires |pM| >= 4
    ensures r == ToSigned32(Value(Reverse(pM[..4])))
  {
    var defTemp := [pM[0], pM[1], pM[2], pM[3]];
    assert defTemp == pM[..4];
    ToSigned32(Pattern(BigHost, defTemp))
  }

  // ---- little_endian.h ----

  method LittleFloat4store(h: Host, T: array<byte>, off: nat, M: nat)
    requires !h.BigHost? && off + 4 <= T.Length && M < B4
    modifies T
    ensures T[..] == Put(old(T[..]), off, Digits(4, M))
  {
    Memcpy(T, off, Image(h, 4, M));
  }

  method LittleFloat4get(h: Host, M: seq<byte>) returns (V: nat)
    requires !h.BigHost? && |M| >= 4
    ensures V == Value(M[..4])
  {
    V := Pattern(h, M[..4]);
  }

  method LittleFloat8store(h: Host, T: array<byte>, off: nat, M: nat)
    requires !h.BigHost? && off + 8 <= T.Length && M < B8
    modifies T
    ensures T[..] == Put(old(T[..]), off, Float8Bytes(h, M))
  {
    Memcpy(T, off, Image(h, 8, M));
  }

  method LittleFloat8get(h: Host, M: seq<byte>) returns (V: nat)
    requires !h.BigHost? && |M| >= 8
    ensures V == Float8Of(h, M[..8])
  {
    V := Pattern(h, M[..8]);
  }

  method LittleDoublestore(h: Host, T: array<byte>, off: nat, V: nat)
    requires !h.BigHost? && off + 8 <= T.Length && V < B8
    modifies T
    ensures T[..] == Put(old(T[..]), off, Digits(8, V))
  {
    var mem := Image(h, 8, V);
    if h.MixedHost? {
      T[off] := mem[4];
      T[off + 1] := mem[5];
      T[off + 2] := mem[6];
      T[off + 3] := mem[7];
      T[off + 4] := mem[0];
      T[off + 5] := mem[1];
      T[off + 6] := mem[2];
      T[off + 7] := mem[3];
    } else {
      Memcpy(T, off, mem);
    }
  }

  method LittleDoubleget(h: Host, M: seq<byte>) returns (V: nat)
    requires !h.BigHost? && |M| >= 8
    ensures V == Value(M[..8])
  {
    if h.MixedHost? {
      var defTemp := [M[4], M[5], M[6], M[7], M[0], M[1], M[2], M[3]];
      assert Arrange(h, defTemp) == M[..8];
      V := Pattern(h, defTemp);
    } else {
      V := Pattern(h, M[..8]);
    }
  }

  // ---- which stores are portable between which hosts ----

  /** The bytes float4store leaves on host h: a big-endian host reverses what it has in memory. */
  function Float4Bytes(h: Host, v: nat): (s: seq<byte>)
    ensures |s| == 4
  {
    if h.BigHost? then Reverse(Image(h, 4, v)) else Image(h, 4, v)
  }

  /** The pattern float4get obtains from four bytes on host h. */
  function Float4Of(h: Host, s: seq<byte>): nat
    requires |s| == 4
  {
    if h.BigHost? then Pattern(h, Reverse(s)) else Pattern(h, s)
  }

  /** A float survives between any two hosts: all store the same bytes, and all read them alike. */
  lemma Float4Portability(writer: Host, reader: Host, v: nat)
    requires v < B4
    ensures Float4Bytes(writer, v) == Digits(4, v)
    ensures Float4Of(reader, Float4Bytes(writer, v)) == v
  {
    var d := Digits(4, v);
    ArrangeTwice(BigHost, d);
    assert Value(d) == v by {
      Pow256Table();
      SameIffEqual(d, v);
    }
  }

  /** The bytes float8store leaves on host h. */
  function Float8Bytes(h: Host, v: nat): (s: seq<byte>)
    ensures |s| == 8
  {
    if h.MixedHost? then Image(h, 8, v) else Digits(8, v)
  }

  /** The pattern float8get obtains from eight bytes on host h. */
  function Float8Of(h: Host, s: seq<byte>): nat
    requires |s| == 8
  {
    if h.MixedHost? then Pattern(h, s) else Value(s)
  }

  /** The bytes doublestore leaves on host h. */
  function DoubleBytes(h: Host, v: nat): (s: seq<byte>)
    ensures |s| == 8
  {
    if h.BigHost? then Image(h, 8, v) else Digits(8, v)
  }

  function DoubleOf(h: Host, s: seq<byte>): nat
    requires |s| == 8
  {
    if h.BigHost? then Pattern(h, s) else Value(s)
  }

  /**
    A double written by float8store on one host and read by float8get on another
    survives for every pattern between a big-endian and a little-endian host. With
    bi-endian hardware on exactly one side it survives only if its two words are equal.
   */
  lemma Float8Portability(writer: Host, reader: Host, v: nat)
    requires v < B8
    ensures Float8Of(reader, Float8Bytes(writer, v)) == v
            <==> writer.MixedHost? == reader.MixedHost? || v / B4 == v % B4
  {
    if writer.MixedHost? == reader.MixedHost? {
      Float8Alike(writer, reader, v);
    } else {
      Float8Swapped(v);
    }
  }

  lemma Float8Alike(writer: Host, reader: Host, v: nat)
    requires v < B8 && writer.MixedHost? == reader.MixedHost?
    ensures Float8Of(reader, Float8Bytes(writer, v)) == v
  {
    Pow256Table();
    DivModUnique(v, B8, 0, v);
    if writer.MixedHost? {
      PatternOfImage(MixedHost, 8, v);
    } else {
      ValueOfDigits(8, v);
    }
  }

  lemma Float8Swapped(v: nat)
    requires v < B8
    ensures Value(Arrange(MixedHost, Digits(8, v))) == v <==> v / B4 == v % B4
  {
    assert Pow256(8) == B8 by {
      Pow256Table();
    }
    SameIffEqual(Arrange(MixedHost, Digits(8, v)), v);
    WordsSwapped(v);
  }

  /** A string of bytes denotes v only if it is the digits of v. */
  lemma SameIffEqual(s: seq<byte>, v: nat)
    requires v < Pow256(|s|)
    ensures Value(s) == v <==> s == Digits(|s|, v)
  {
    ValueOfDigits(|s|, v);
    DivModUnique(v, Pow256(|s|), 0, v);
    DigitsOfValue(s);
  }

  lemma WordsSwapped(v: nat)
    requires v < B8
    ensures Arrange(MixedHost, Digits(8, v)) == Digits(8, v) <==> v / B4 == v % B4
  {
    Pow256Table();
    var lo, hi := Digits(4, v), Digits(4, v / B4);
    DigitsJoin(4, 4, v, v / B4);
    ValueOfDigits(4, v);
    ValueOfDigits(4, v / B4);
    assert Digits(8, v)[..4] == lo && Digits(8, v)[4..] == hi;
    assert v / B4 % B4 == v / B4;
    if v / B4 == v % B4 {
      DigitsOfMod(4, v);
    }
    assert Arrange(MixedHost, lo + hi) == hi + lo;
    assert hi + lo == lo + hi ==> hi == lo by {
      assert (hi + lo)[..4] == hi && (lo + hi)[..4] == lo;
    }
  }

  /**
    doublestore complements float8store: it is portable between little-endian and
    bi-endian hosts, and towards or from a big-endian host only for patterns whose
    bytes read the same in both directions.
   */
  lemma DoublePortability(writer: Host, reader: Host, v: nat)
    requires v < B8
    ensures DoubleOf(reader, DoubleBytes(writer, v)) == v
            <==> writer.BigHost? == reader.BigHost? || Reverse(Digits(8, v)) == Digits(8, v)
  {
    var d := Digits(8, v);
    assert Value(d) == v by {
      Pow256Table();
      SameIffEqual(d, v);
    }
    DoubleBytesPortability(writer, reader, d);
  }

  lemma DoubleBytesPortability(writer: Host, reader: Host, d: seq<byte>)
    requires |d| == 8
    ensures DoubleOf(reader, if writer.BigHost? then Reverse(d) else d) == Value(d)
            <==> writer.BigHost? == reader.BigHost? || Reverse(d) == d
  {
    ArrangeTwice(BigHost, d);
    if Value(Reverse(d)) == Value(d) {
      ValueInjective(Reverse(d), d);
    }
  }

  /** What big-endian shortstore and longstore write, the same host's shortget and longget read back. */
  lemma BigMachineRoundTrip(s: seq<byte>, off: nat, k: nat, v: int)
    requires off + k <= |s| && k in {2, 4}
    requires -(Pow256(k) as int) <= 2 * v < Pow256(k)
    ensures var A := Put(s, off, Reverse(Digits(k, v % Pow256(k))))[off..];
            && (k == 2 ==> BigShortget(A) == v)
            && (k == 4 ==> BigLongget(A) == v)
  {
    var u := v % Pow256(k);
    BigImageRead(s, off, k, u);
    DivModUnique(u, Pow256(k), 0, u);
    SignedOfUnsigned(k, v, u);
  }

  lemma PutBack(s: seq<byte>, off: nat, d: seq<byte>)
    requires off + |d| <= |s|
    ensures Put(s, off, d)[off..][..|d|] == d
  {
  }

  lemma BigImageRead(s: seq<byte>, off: nat, k: nat, u: nat)
    requires off + k <= |s|
    ensures Value(Reverse(Put(s, off, Reverse(Digits(k, u)))[off..][..k])) == u % Pow256(k)
  {
    PutBack(s, off, Reverse(Digits(k, u)));
    PatternOfImage(BigHost, k, u);
  }
}
