/**
  Blowfish: the unrolled Feistel network over a pair of 32-bit words, and its inverse,
  for an arbitrary key schedule.
 */
module Blowfish {
  import opened LittleEndian
  import opened Bits
  import opened ByteOrder

  type word = w: int | 0 <= w < 0x1_0000_0000

  /** Four tables of 256 words, laid end to end. */
  type tables = s: seq<word> | |s| == 1024 witness seq(1024, _ => 0)

  /** BF_ROUNDS + 2 subkeys; BF_ROUNDS may be 16 or 20. */
  type subkeys = p: seq<word> | |p| == 18 || |p| == 22 witness seq(18, _ => 0)

  datatype Key = Key(P: subkeys, S: tables)

  /** data[0] and data[1]. */
  datatype Block = Block(l: word, r: word)

  function Flip(b: Block): Block { Block(b.r, b.l) }

  function XorWord(x: word, y: word): (r: word)
    ensures r == Xor(x, y)
  {
    Pow2Table();
    Pow2Sum(16, 16);
    XorBound(x, y, 32);
    Xor(x, y)
  }

  lemma XorTwice(x: word, y: word)
    ensures XorWord(XorWord(x, y), y) == x
  {
    XorCancel(x, y);
  }

  function Add32(x: word, y: word): word { (x + y) % B4 }

  /** Four table lookups, one for each byte of the word. */
  function F(S: tables, x: word): word
  {
    Add32(XorWord(Add32(S[x / B3 % B1], S[0x100 + x / B2 % B1]), S[0x200 + x / B1 % B1]), S[0x300 + x % B1])
  }

  /** What a round makes of the half LL, given the other half R and the subkey p. */
  type Mix = (word, word, word) -> word

  /** The macro BF_ENC: the new value of its first argument. */
  function BfEnc(S: tables): Mix { (LL, R, p) => XorWord(XorWord(LL, p), F(S, R)) }

  /**
    What a round computes, in the bytes of the other half, high byte first: the entries that
    the four bytes select in their tables, added, xor-ed and added again in 32 bits.
   */
  lemma RoundByBytes(S: tables, LL: word, R: word, p: word, c: seq<byte>)
    requires c == Digits(4, R)
    ensures BfEnc(S)(LL, R, p)
         == Xor(Xor(LL, p),
                (Xor((S[c[3]] as int + S[256 + c[2]] as int) % 0x1_0000_0000, S[512 + c[1]]) as int
                 + S[768 + c[0]] as int) % 0x1_0000_0000)
  {
    BytesOfWord(R, c);
    LookUp(S, R, c[3], c[2], c[1], c[0]);
  }

  lemma BytesOfWord(x: word, c: seq<byte>)
    requires c == Digits(4, x)
    ensures c[0] == x % B1 && c[1] == x / B1 % B1 && c[2] == x / B2 % B1 && c[3] == x / B3 % B1
  {
    DigitsPoint(4, x);
  }

  lemma LookUp(S: tables, x: word, a: byte, b: byte, c: byte, d: byte)
    requires a == x / B3 % B1 && b == x / B2 % B1 && c == x / B1 % B1 && d == x % B1
    ensures F(S, x) == (Xor((S[a] as int + S[256 + b] as int) % B4, S[512 + c]) as int + S[768 + d] as int) % B4
  {
  }

  /** Of the tables only those four entries matter. */
  lemma OtherEntriesIrrelevant(S: tables, S': tables, LL: word, R: word, p: word, c: seq<byte>)
    requires c == Digits(4, R)
    requires S[c[3]] == S'[c[3]] && S[256 + c[2]] == S'[256 + c[2]]
    requires S[512 + c[1]] == S'[512 + c[1]] && S[768 + c[0]] == S'[768 + c[0]]
    ensures BfEnc(S)(LL, R, p) == BfEnc(S')(LL, R, p)
  {
    RoundByBytes(S, LL, R, p, c);
    RoundByBytes(S', LL, R, p, c);
  }

  /** And each of them counts: when the other three are zero it is what the round mixes in. */
  lemma OneEntry(S: tables, LL: word, R: word, p: word, c: seq<byte>, i: nat)
    requires c == Digits(4, R) && i < 4
    requires forall j :: 0 <= j < 4 && j != i ==> S[256 * (3 - j) + c[j]] == 0
    ensures BfEnc(S)(LL, R, p) == Xor(Xor(LL, p), S[256 * (3 - i) + c[i]])
  {
    RoundByBytes(S, LL, R, p, c);
    var e := [S[768 + c[0]], S[512 + c[1]], S[256 + c[2]], S[c[3]]];
    assert forall j :: 0 <= j < 4 ==> e[j] == S[256 * (3 - j) + c[j]];
    OneOfFour(e, i);
  }

  lemma OneOfFour(e: seq<word>, i: nat)
    requires |e| == 4 && i < 4 && forall j :: 0 <= j < 4 && j != i ==> e[j] == 0
    ensures (Xor((e[3] as int + e[2] as int) % B4, e[1]) as int + e[0] as int) % B4 == e[i]
  {
    if i != 0 { assert e[0] == 0; }
    if i != 1 { assert e[1] == 0; }
    if i != 2 { assert e[2] == 0; }
    if i != 3 { assert e[3] == 0; }
  }

  /** The macro's own shifts and masks compute that round. */
  method BfEncMacro(S: tables, LL: word, R: word, p: word) returns (r: word)
    ensures r == BfEnc(S)(LL, R, p)
  {
    var l := XorWord(LL, p);
    var a := MaskByte(R / B3);
    var b := MaskByte(R / B2);
    var c := MaskByte(R / B1);
    var d := MaskByte(R);
    var sum := Add32(S[a], S[0x100 + b]);
    sum := XorWord(sum, S[0x200 + c]);
    sum := Add32(sum, S[0x300 + d]);
    r := XorWord(l, sum);
  }

  /** The mask & 0xff. */
  method MaskByte(x: nat) returns (b: byte)
    ensures b as int == x % B1
  {
    Pow2Table();
    AndLowBits(x, 8);
    LowIsRemainder(x, 8);
    b := And(x, 0xff);
  }

  /** Mixing twice with the same half and subkey is not mixing at all. */
  ghost predicate Undoes(g: Mix) { forall LL, R, p :: g(g(LL, R, p), R, p) == LL }

  lemma BfEncUndoes(S: tables)
    ensures Undoes(BfEnc(S))
  {
    forall LL: word, R: word, p: word
      ensures BfEnc(S)(BfEnc(S)(LL, R, p), R, p) == LL
    {
      MixTwice(LL, p, F(S, R));
    }
  }

  lemma MixTwice(x: word, p: word, f: word)
    ensures XorWord(XorWord(XorWord(XorWord(x, p), f), p), f) == x
  {
    XorSwap(Xor(Xor(x, p), f), p, f);
    XorCancel(Xor(x, p), f);
    XorCancel(x, p);
  }

  // ---- the network as a fold over its rounds, for any mixing ----

  /** One round, after which the halves change roles. */
  function Turn(g: Mix, p: word, b: Block): Block
  {
    Block(g(b.r, b.l, p), b.l)
  }

  /** The first n rounds under the subkeys P[1], P[2], ... */
  function Turns(P: seq<word>, g: Mix, b: Block, n: nat): Block
    requires n < |P|
    decreases n
  {
    if n == 0 then b else Turn(g, P[n], Turns(P, g, b, n - 1))
  }

  /** The first subkey goes in before the rounds, the last after them, and the halves leave crossed. */
  function Network(P: seq<word>, g: Mix, b: Block): Block
    requires |P| >= 2
  {
    var n := |P| - 2;
    var t := Turns(P, g, Block(XorWord(b.l, P[0]), b.r), n);
    Block(XorWord(t.r, P[n + 1]), t.l)
  }

  /**
    The cipher as one row of half blocks: the first two come from the block, each further one is the
    half two places back mixed with the one before it, and the last two are what comes out.
   */
  lemma NetworkByHalves(P: seq<word>, g: Mix, b: Block, H: seq<word>)
    requires |P| >= 2 && |H| == |P| && H[0] == b.r && H[1] == XorWord(b.l, P[0])
    requires forall k :: 2 <= k < |H| ==> H[k] == g(H[k - 2], H[k - 1], P[k - 1])
    ensures var n := |P| - 2;
            Network(P, g, b) == Block(XorWord(H[n], P[n + 1]), H[n + 1])
  {
    TurnsByHalves(P, g, b, H, |P| - 2);
  }

  lemma {:induction false} TurnsByHalves(P: seq<word>, g: Mix, b: Block, H: seq<word>, n: nat)
    requires n + 2 <= |P| == |H| && H[0] == b.r && H[1] == XorWord(b.l, P[0])
    requires forall k :: 2 <= k < |H| ==> H[k] == g(H[k - 2], H[k - 1], P[k - 1])
    ensures Turns(P, g, Block(XorWord(b.l, P[0]), b.r), n) == Block(H[n + 1], H[n])
  {
    if n > 0 {
      TurnsByHalves(P, g, b, H, n - 1);
    }
  }

  function Crypt(k: Key, b: Block): Block
  {
    Network(k.P, BfEnc(k.S), b)
  }

  function Enciphers(k: Key): Block -> Block { b => Crypt(k, b) }

  function Deciphers(k: Key): Block -> Block { b => Crypt(Reversed(k), b) }

  /** The subkeys P[i], P[i - 2], ... down to P[0] or P[1], laid over x one after the other. */
  function Masked(P: seq<word>, x: word, i: nat): word
    requires i < |P|
  {
    if i < 2 then XorWord(x, P[i]) else XorWord(Masked(P, x, i - 2), P[i])
  }

  /**
    What the network does apart from its tables: when these are all zero, the halves come out
    crossed, one under the subkeys of even number and the other under those of odd number.
   */
  lemma ZeroTables(k: Key, b: Block)
    requires forall i :: 0 <= i < 1024 ==> k.S[i] == 0
    ensures var n := |k.P| - 2;
            Crypt(k, b) == Block(Masked(k.P, b.r, n + 1), Masked(k.P, b.l, n))
  {
    var n := |k.P| - 2;
    ZeroTurns(k.P, k.S, b, n);
  }

  lemma {:induction false} ZeroTurns(P: seq<word>, S: tables, b: Block, n: nat)
    requires n + 1 < |P| && forall i :: 0 <= i < 1024 ==> S[i] == 0
    ensures Turns(P, BfEnc(S), Block(XorWord(b.l, P[0]), b.r), n) == ZeroHalves(P, b, n)
  {
    if n > 0 {
      ZeroTurns(P, S, b, n - 1);
      var t := Turns(P, BfEnc(S), Block(XorWord(b.l, P[0]), b.r), n - 1);
      ZeroTurn(S, P[n], t);
      HalvesStep(P, b, n);
    }
  }

  /** The halves after n rounds under tables that are all zero. */
  function ZeroHalves(P: seq<word>, b: Block, n: nat): Block
    requires n < |P|
  {
    if n == 0 then Block(Masked(P, b.l, 0), b.r)
    else if n % 2 == 0 then Block(Masked(P, b.l, n), Masked(P, b.r, n - 1))
    else Block(Masked(P, b.r, n), Masked(P, b.l, n - 1))
  }

  lemma HalvesStep(P: seq<word>, b: Block, n: nat)
    requires 0 < n < |P|
    ensures var t := ZeroHalves(P, b, n - 1);
            ZeroHalves(P, b, n) == Block(XorWord(t.r, P[n]), t.l)
  {
  }

  lemma ZeroTurn(S: tables, p: word, t: Block)
    requires forall i :: 0 <= i < 1024 ==> S[i] == 0
    ensures Turn(BfEnc(S), p, t) == Block(XorWord(t.r, p), t.l)
  {
    ZeroRound(S, t.r, t.l, p);
  }

  lemma ZeroRound(S: tables, LL: word, R: word, p: word)
    requires forall i :: 0 <= i < 1024 ==> S[i] == 0
    ensures BfEnc(S)(LL, R, p) == XorWord(LL, p)
  {
    RoundByBytes(S, LL, R, p, Digits(4, R));
  }

  /** The schedule with its subkeys in reverse order. */
  function Reversed(k: Key): (q: Key)
    ensures |q.P| == |k.P| && q.S == k.S
    ensures forall i :: 0 <= i < |k.P| ==> q.P[i] == k.P[|k.P| - 1 - i]
  {
    Key(seq(|k.P|, i requires 0 <= i < |k.P| => k.P[|k.P| - 1 - i]), k.S)
  }

  /** A round undoes itself once the halves have changed places. */
  lemma TurnBack(g: Mix, p: word, b: Block)
    requires Undoes(g)
    ensures Turn(g, p, Flip(Turn(g, p, b))) == Flip(b)
  {
  }

  /** Running i rounds of the reversed schedule takes back the last i rounds, for any mixing that undoes itself. */
  lemma {:induction false} TurnsBack(P: seq<word>, Q: seq<word>, g: Mix, b: Block, n: nat, i: nat)
    requires Undoes(g) && |P| == |Q| == n + 2 && i <= n
    requires forall j :: 0 <= j < n + 2 ==> Q[j] == P[n + 1 - j]
    ensures Turns(Q, g, Flip(Turns(P, g, b, n)), i) == Flip(Turns(P, g, b, n - i))
  {
    if i > 0 {
      TurnsBack(P, Q, g, b, n, i - 1);
      TurnBack(g, P[n + 1 - i], Turns(P, g, b, n - i));
    }
  }

  lemma NetworkInverse(P: seq<word>, Q: seq<word>, g: Mix, b: Block)
    requires Undoes(g) && |P| == |Q| >= 2
    requires forall j :: 0 <= j < |P| ==> Q[j] == P[|P| - 1 - j]
    ensures Network(Q, g, Network(P, g, b)) == b
  {
    var n, s := |P| - 2, Block(XorWord(b.l, P[0]), b.r);
    var t := Turns(P, g, s, n);
    TurnsBack(P, Q, g, s, n, n);
    XorTwice(t.r, P[n + 1]);
    XorTwice(b.l, P[0]);
  }

  /** The reversed schedule inverts the schedule, whatever this holds. */
  lemma CryptInverse(k: Key, b: Block)
    ensures Crypt(Reversed(k), Crypt(k, b)) == b
    ensures Crypt(k, Crypt(Reversed(k), b)) == b
  {
    BfEncUndoes(k.S);
    NetworkInverse(k.P, Reversed(k).P, BfEnc(k.S), b);
    NetworkInverse(Reversed(k).P, k.P, BfEnc(k.S), b);
  }

  // ---- the two unrolled functions ----

  method EncryptWith(data: array<word>, p: seq<word>, g: Mix)
    requires data.Length == 2 && (|p| == 18 || |p| == 22)
    modifies data
    ensures Block(data[0], data[1]) == Network(p, g, Block(old(data[0]), old(data[1])))
  {
    var l, r := data[0], data[1];
    l := XorWord(l, p[0]);
    ghost var b := Block(l, r);
    r := g(r, l, p[1]);
    l := g(l, r, p[2]);
    r := g(r, l, p[3]);
    l := g(l, r, p[4]);
    assert Block(l, r) == Turns(p, g, b, 4);
    r := g(r, l, p[5]);
    l := g(l, r, p[6]);
    r := g(r, l, p[7]);
    l := g(l, r, p[8]);
    assert Block(l, r) == Turns(p, g, b, 8);
    r := g(r, l, p[9]);
    l := g(l, r, p[10]);
    r := g(r, l, p[11]);
    l := g(l, r, p[12]);
    assert Block(l, r) == Turns(p, g, b, 12);
    r := g(r, l, p[13]);
    l := g(l, r, p[14]);
    r := g(r, l, p[15]);
    l := g(l, r, p[16]);
    assert Block(l, r) == Turns(p, g, b, 16);
    if |p| == 22 {
      r := g(r, l, p[17]);
      l := g(l, r, p[18]);
      r := g(r, l, p[19]);
      l := g(l, r, p[20]);
      assert Block(l, r) == Turns(p, g, b, 20);
    }
    r := XorWord(r, p[|p| - 1]);
    data[1] := l;
    data[0] := r;
  }

  method DecryptWith(data: array<word>, p: seq<word>, g: Mix, ghost q: seq<word>)
    requires data.Length == 2 && (|p| == 18 || |p| == 22)
    requires |q| == |p| && forall i :: 0 <= i < |p| ==> q[i] == p[|p| - 1 - i]
    modifies data
    ensures Block(data[0], data[1]) == Network(q, g, Block(old(data[0]), old(data[1])))
  {
    var l, r := data[0], data[1];
    l := XorWord(l, p[|p| - 1]);
    ghost var b := Block(l, r);
    if |p| == 22 {
      r := g(r, l, p[20]);
      l := g(l, r, p[19]);
      r := g(r, l, p[18]);
      l := g(l, r, p[17]);
      assert Block(l, r) == Turns(q, g, b, 4);
    }
    r := g(r, l, p[16]);
    l := g(l, r, p[15]);
    r := g(r, l, p[14]);
    l := g(l, r, p[13]);
    assert Block(l, r) == Turns(q, g, b, if |p| == 22 then 8 else 4);
    r := g(r, l, p[12]);
    l := g(l, r, p[11]);
    r := g(r, l, p[10]);
    l := g(l, r, p[9]);
    assert Block(l, r) == Turns(q, g, b, if |p| == 22 then 12 else 8);
    r := g(r, l, p[8]);
    l := g(l, r, p[7]);
    r := g(r, l, p[6]);
    l := g(l, r, p[5]);
    assert Block(l, r) == Turns(q, g, b, if |p| == 22 then 16 else 12);
    r := g(r, l, p[4]);
    l := g(l, r, p[3]);
    r := g(r, l, p[2]);
    l := g(l, r, p[1]);
    assert Block(l, r) == Turns(q, g, b, if |p| == 22 then 20 else 16);
    r := XorWord(r, p[0]);
    data[1] := l;
    data[0] := r;
  }

  method Encrypt(data: array<word>, key: Key)
    requires data.Length == 2
    modifies data
    ensures Block(data[0], data[1]) == Crypt(key, Block(old(data[0]), old(data[1])))
  {
    EncryptWith(data, key.P, BfEnc(key.S));
  }

  method Decrypt(data: array<word>, key: Key)
    requires data.Length == 2
    modifies data
    ensures Block(data[0], data[1]) == Crypt(Reversed(key), Block(old(data[0]), old(data[1])))
  {
    DecryptWith(data, key.P, BfEnc(key.S), Reversed(key).P);
  }
}
