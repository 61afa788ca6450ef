/**
  BF_cbc_encrypt as it works on buffers, in place where the caller wants that, proved
  against the block modes.
 */
module CbcBuffers {
  import opened LittleEndian
  import opened Bits
  import opened ByteOrder
  import opened HostOrder
  import opened Blowfish
  import opened BlockModes

  // ---- the macros that move words between buffers and registers ----

  lemma OrFour(a: byte, b: byte, c: byte, d: byte)
    ensures Or(Or(Or(a as int * B3, b as int * B2), c as int * B1), d)
         == a as int * B3 + b as int * B2 + c as int * B1 + d as int
  {
    Pow2Table();
    OrDisjoint(a, b as int * B2, 24);
    OrBytes(a as int * B1 + b as int, c, d);
  }

  /** n2l */
  method N2l(c: seq<byte>) returns (l: word)
    requires |c| >= 4
    ensures l == WordOf(c) == Value(Reverse(c[..4]))
  {
    OrFour(c[0], c[1], c[2], c[3]);
    WordOfValue(c);
    l := Or(Or(Or(c[0] as int * B3, c[1] as int * B2), c[2] as int * B1), c[3]);
  }

  method N2lTwice(c: seq<byte>) returns (b: Block)
    requires |c| >= 8
    ensures b == BlockOf(c)
  {
    var l := N2l(c);
    var r := N2l(c[4..]);
    b := Block(l, r);
  }

  lemma OrAbove(lo: nat, hi: nat, k: nat)
    requires k in {8, 16, 24}
    requires lo < Pow2(k)
    ensures k == 8 ==> Or(lo, hi * B1) == lo + hi * B1
    ensures k == 16 ==> Or(lo, hi * B2) == lo + hi * B2
    ensures k == 24 ==> Or(lo, hi * B3) == lo + hi * B3
  {
    Pow2Table();
    OrDisjoint(hi, lo, k);
    OrCommutes(lo, hi * Pow2(k));
  }

  /** l |= b << k, where the bits of l are below k and m is 2^k. */
  method OrInto(l: word, b: byte, m: nat) returns (r: word)
    requires m in {B1, B2, B3} && l < m
    ensures r == l + b * m
  {
    Pow2Table();
    OrAbove(l, b, if m == B1 then 8 else if m == B2 then 16 else 24);
    r := Or(l, b as int * m);
  }

  /** n2ln: the switch falls through from the last of the n bytes to the first. */
  method N2ln(c: seq<byte>, n: nat) returns (l1: word, l2: word)
    requires 1 <= n <= 8 && n <= |c|
    ensures Block(l1, l2) == BlockOf(FirstBlock(c[..n]))
  {
    l1, l2 := 0, 0;
    ghost var p := FirstBlock(c[..n]);
    if n >= 8 { l2 := c[7]; }
    if n >= 7 { l2 := OrInto(l2, c[6], B1); }
    if n >= 6 { l2 := OrInto(l2, c[5], B2); }
    if n >= 5 { l2 := OrInto(l2, c[4], B3); }
    if n >= 4 { l1 := c[3]; }
    if n >= 3 { l1 := OrInto(l1, c[2], B1); }
    if n >= 2 { l1 := OrInto(l1, c[1], B2); }
    l1 := OrInto(l1, c[0], B3);
  }

  method L2n(l: word, c: array<byte>, off: nat)
    requires off + 4 <= c.Length
    modifies c
    ensures c[..] == Put(old(c[..]), off, WordBytes(l))
  {
    c[off] := l / B3 % B1;
    c[off + 1] := l / B2 % B1;
    c[off + 2] := l / B1 % B1;
    c[off + 3] := l % B1;
  }

  /** Two words in a row. */
  method StoreBlock(b: Block, c: array<byte>, off: nat)
    requires off + 8 <= c.Length
    modifies c
    ensures c[..] == Put(old(c[..]), off, BytesOf(b))
  {
    L2n(b.l, c, off);
    L2n(b.r, c, off + 4);
    PutJoin(old(c[..]), off, WordBytes(b.l), WordBytes(b.r));
  }

  method StoreIvec(b: Block, ivec: array<byte>)
    requires ivec.Length == 8
    modifies ivec
    ensures ivec[..] == BytesOf(b)
  {
    StoreBlock(b, ivec, 0);
  }

  /** l2nn: the switch falls through from the last of the n bytes to the first. */
  method L2nn(l1: word, l2: word, c: array<byte>, off: nat, n: nat)
    requires 1 <= n <= 8 && off + n <= c.Length
    modifies c
    ensures c[..] == Put(old(c[..]), off, BytesOf(Block(l1, l2))[..n])
  {
    ghost var b := EightBytes(l1, l2);
    if n >= 8 { c[off + 7] := l2 % B1; }
    if n >= 7 { c[off + 6] := l2 / B1 % B1; }
    if n >= 6 { c[off + 5] := l2 / B2 % B1; }
    if n >= 5 { c[off + 4] := l2 / B3 % B1; }
    if n >= 4 { c[off + 3] := l1 % B1; }
    if n >= 3 { c[off + 2] := l1 / B1 % B1; }
    if n >= 2 { c[off + 1] := l1 / B2 % B1; }
    c[off] := l1 / B3 % B1;
    assert forall i :: 0 <= i < n ==> c[off + i] == b[i];
    PutIs(c[..], old(c[..]), off, b[..n]);
  }

  lemma PutIs(now: seq<byte>, was: seq<byte>, off: nat, d: seq<byte>)
    requires |now| == |was| && off + |d| <= |was|
    requires forall i :: 0 <= i < |d| ==> now[off + i] == d[i]
    requires forall i :: 0 <= i < |was| && !(off <= i < off + |d|) ==> now[i] == was[i]
    ensures now == Put(was, off, d)
  {
    assert forall i :: off <= i < off + |d| ==> now[i] == now[off + (i - off)];
  }

  ghost function EightBytes(l1: word, l2: word): (b: seq<byte>)
    ensures b == BytesOf(Block(l1, l2))
  {
    [l1 / B3 % B1, l1 / B2 % B1, l1 / B1 % B1, l1 % B1, l2 / B3 % B1, l2 / B2 % B1, l2 / B1 % B1, l2 % B1]
  }

  method EncryptBlock(b: Block, key: Key) returns (r: Block)
    ensures r == Enciphers(key)(b)
  {
    var tin := new word[2];
    tin[0], tin[1] := b.l, b.r;
    Encrypt(tin, key);
    r := Block(tin[0], tin[1]);
  }

  method DecryptBlock(b: Block, key: Key) returns (r: Block)
    ensures r == Deciphers(key)(b)
  {
    var tin := new word[2];
    tin[0], tin[1] := b.l, b.r;
    Decrypt(tin, key);
    r := Block(tin[0], tin[1]);
  }

  // ---- BF_cbc_encrypt ----

  /** The buffer holds the blocks cs from off on, and is otherwise as it was. */
  ghost predicate Filled(now: seq<byte>, was: seq<byte>, off: nat, cs: seq<Block>)
  {
    off + 8 * |cs| <= |was| && now == Put(was, off, Bytes(cs))
  }

  method AppendBlock(out: array<byte>, o: nat, b: Block, ghost was: seq<byte>, ghost off: nat, ghost cs: seq<Block>)
    requires Filled(out[..], was, off, cs) && o == off + 8 * |cs| && o + 8 <= out.Length
    modifies out
    ensures Filled(out[..], was, off, cs + [b])
    ensures forall j :: 0 <= j < out.Length && !(o <= j < o + 8) ==> out[j] == old(out[j])
  {
    StoreBlock(b, out, o);
    BytesSnoc(cs, b);
    PutJoin(was, off, Bytes(cs), BytesOf(b));
  }

  lemma ChainNext(enc: Block -> Block, iv: Block, bs: seq<Block>, cs: seq<Block>)
    requires |cs| < |bs| && cs == Chain(enc, iv, bs, |cs|)
    ensures cs + [enc(XorBlock(bs[|cs|], Last(iv, cs)))] == Chain(enc, iv, bs, |cs| + 1)
  {
  }

  /** What is left to read: the output has not reached it, even if it goes to the same buffer. */
  ghost predicate Unread(inp: array<byte>, inOff: nat, data: seq<byte>, k: nat)
    reads inp
  {
    inOff + |data| <= inp.Length && forall j :: 8 * k <= j < |data| ==> inp[inOff + j] == data[j]
  }

  /**
    Output at off never overwrites input of n bytes at inOff before that is read: it stays
    behind it, lies wholly after it, or there is only one block.
   */
  predicate Behind(off: nat, inOff: nat, n: nat) { off <= inOff || inOff + n <= off || n <= 8 }

  /** How many blocks a loop has left to do when it stops with l. */
  lemma CountAt(length: nat, k: nat, l: int)
    requires 8 * k + 8 + l == length && -8 <= l < 0
    ensures BlockCount(length) == if l == -8 then k else k + 1
  {
  }

  /** n2l twice */
  method ReadBlock(inp: array<byte>, i: nat, ghost inOff: nat, ghost data: seq<byte>, ghost k: nat) returns (b: Block)
    requires Unread(inp, inOff, data, k) && 8 * k + 8 <= |data| && i == inOff + 8 * k
    ensures k < |Blocks(data)| && b == Blocks(data)[k]
  {
    assert inp[i..i + 8] == FirstBlock(data[8 * k..]);
    b := N2lTwice(inp[i..i + 8]);
  }

  /** n2ln */
  method ReadPart(inp: array<byte>, i: nat, n: nat, ghost inOff: nat, ghost data: seq<byte>, ghost k: nat)
    returns (b: Block)
    requires Unread(inp, inOff, data, k) && 8 * k + n == |data| && 1 <= n < 8 && i == inOff + 8 * k
    ensures k < |Blocks(data)| && b == Blocks(data)[k]
  {
    assert FirstBlock(inp[i..][..n]) == FirstBlock(data[8 * k..]);
    var l1, l2 := N2ln(inp[i..], n);
    b := Block(l1, l2);
  }

  /** The blocks cs are the ciphertext of the first blocks of bs, and tout follows them. */
  ghost predicate Chained(enc: Block -> Block, iv: Block, bs: seq<Block>, cs: seq<Block>, tout: Block)
  {
    |cs| <= |bs| && tout == Last(iv, cs) && cs == Chain(enc, iv, bs, |cs|)
  }

  /** One block of the encrypting branch, from the input just read. */
  method EncryptNext(tin: Block, tout: Block, key: Key, out: array<byte>, o: nat,
                     ghost iv: Block, ghost bs: seq<Block>, ghost cs: seq<Block>, ghost was: seq<byte>, ghost off: nat,
                     ghost inp: array<byte>, ghost inOff: nat, ghost data: seq<byte>)
    returns (next: Block)
    requires Chained(Enciphers(key), iv, bs, cs, tout) && Filled(out[..], was, off, cs)
    requires |cs| < |bs| && tin == bs[|cs|] && o == off + 8 * |cs| && o + 8 <= out.Length
    requires Unread(inp, inOff, data, |cs|) && (inp == out ==> Behind(off, inOff, |data|))
    modifies out
    ensures Chained(Enciphers(key), iv, bs, cs + [next], next) && Filled(out[..], was, off, cs + [next])
    ensures Unread(inp, inOff, data, |cs| + 1)
  {
    ChainNext(Enciphers(key), iv, bs, cs);
    next := EncryptBlock(Block(XorWord(tin.l, tout.l), XorWord(tin.r, tout.r)), key);
    AppendBlock(out, o, next, was, off, cs);
  }

  method EncryptAll(inp: array<byte>, inOff: nat, out: array<byte>, outOff: nat, length: nat, key: Key, iv: Block)
    returns (tout: Block, ghost cs: seq<Block>)
    requires inOff + length <= inp.Length && outOff + 8 * BlockCount(length) <= out.Length
    requires inp == out ==> Behind(outOff, inOff, length)
    modifies out
    ensures cs == CbcBlocks(Enciphers(key), iv, old(inp[inOff..inOff + length]))
    ensures Filled(out[..], old(out[..]), outOff, cs) && tout == Last(iv, cs)
  {
    ghost var data, was, enc := inp[inOff..inOff + length], out[..], Enciphers(key);
    ghost var bs := Blocks(data);
    tout, cs := iv, [];
    var l: int, i, o := length - 8, inOff, outOff;
    assert Put(was, outOff, []) == was;
    while l >= 0
      invariant l >= -8 && 8 * |cs| + 8 + l == length && i == inOff + 8 * |cs| && o == outOff + 8 * |cs|
      invariant Chained(enc, iv, bs, cs, tout) && Filled(out[..], was, outOff, cs)
      invariant Unread(inp, inOff, data, |cs|)
    {
      var tin := ReadBlock(inp, i, inOff, data, |cs|);
      tout := EncryptNext(tin, tout, key, out, o, iv, bs, cs, was, outOff, inp, inOff, data);
      cs := cs + [tout];
      l, i, o := l - 8, i + 8, o + 8;
    }
    CountAt(length, |cs|, l);
    if l != -8 {
      var tin := ReadPart(inp, i, l + 8, inOff, data, |cs|);
      tout := EncryptNext(tin, tout, key, out, o, iv, bs, cs, was, outOff, inp, inOff, data);
      cs := cs + [tout];
    }
    AllChained(enc, iv, data, cs);
  }

  lemma AllChained(enc: Block -> Block, iv: Block, data: seq<byte>, cs: seq<Block>)
    requires |cs| == BlockCount(|data|) && cs == Chain(enc, iv, Blocks(data), |cs|)
    ensures cs == CbcBlocks(enc, iv, data)
  {
  }

  /** The branch that encrypts, from one buffer to another or within one. */
  method CbcEncrypt(inp: array<byte>, inOff: nat, out: array<byte>, outOff: nat, length: nat,
                    key: Key, ivec: array<byte>)
    requires inOff + length <= inp.Length && outOff + 8 * BlockCount(length) <= out.Length
    requires ivec.Length == 8 && ivec != inp && ivec != out
    requires inp == out ==> Behind(outOff, inOff, length)
    modifies out, ivec
    ensures var iv, data := old(BlockOf(ivec[..])), old(inp[inOff..inOff + length]);
            var cs := CbcBlocks(Enciphers(key), iv, data);
            && outOff + 8 * |cs| <= out.Length
            && out[..] == Put(old(out[..]), outOff, Bytes(cs)) && ivec[..] == BytesOf(Last(iv, cs))
  {
    var iv := N2lTwice(ivec[..]);
    var tout, cs := EncryptAll(inp, inOff, out, outOff, length, key, iv);
    StoreIvec(tout, ivec);
  }

  /** The blocks ps are the plaintext under the first blocks of cs, and xor is the ciphertext before the next. */
  ghost predicate Unchained(dec: Block -> Block, iv: Block, cs: seq<Block>, ps: seq<Block>, xor: Block)
  {
    |ps| <= |cs| && xor == Before(iv, cs, |ps|) && ps == Unchain(dec, iv, cs, |ps|)
  }

  lemma UnchainedNext(dec: Block -> Block, iv: Block, cs: seq<Block>, ps: seq<Block>, xor: Block, tin: Block, d: Block)
    requires Unchained(dec, iv, cs, ps, xor) && |ps| < |cs| && tin == cs[|ps|] && d == dec(tin)
    ensures Unchained(dec, iv, cs, ps + [XorBlock(d, xor)], tin)
  {
    var qs := ps + [XorBlock(d, xor)];
    assert |qs| == |ps| + 1;
    assert qs == Unchain(dec, iv, cs, |ps| + 1);
  }

  method DecryptNext(tin: Block, xor: Block, key: Key, ghost iv: Block, ghost cs: seq<Block>, ghost ps: seq<Block>)
    returns (tout: Block)
    requires Unchained(Deciphers(key), iv, cs, ps, xor) && |ps| < |cs| && tin == cs[|ps|]
    ensures Unchained(Deciphers(key), iv, cs, ps + [tout], tin)
  {
    tout := DecryptBlock(tin, key);
    UnchainedNext(Deciphers(key), iv, cs, ps, xor, tin, tout);
    tout := Block(XorWord(tout.l, xor.l), XorWord(tout.r, xor.r));
  }

  /** One whole block of the decrypting branch, from the input just read. */
  method DecryptWhole(tin: Block, xor: Block, key: Key, out: array<byte>, o: nat,
                      ghost iv: Block, ghost cs: seq<Block>, ghost ps: seq<Block>, ghost was: seq<byte>, ghost off: nat,
                      ghost inp: array<byte>, ghost inOff: nat, ghost data: seq<byte>)
    returns (tout: Block)
    requires Unchained(Deciphers(key), iv, cs, ps, xor) && Filled(out[..], was, off, ps)
    requires |ps| < |cs| && tin == cs[|ps|] && o == off + 8 * |ps| && o + 8 <= out.Length
    requires Unread(inp, inOff, data, |ps|) && (inp == out ==> Behind(off, inOff, |data|))
    modifies out
    ensures Unchained(Deciphers(key), iv, cs, ps + [tout], tin) && Filled(out[..], was, off, ps + [tout])
    ensures Unread(inp, inOff, data, |ps| + 1)
  {
    tout := DecryptNext(tin, xor, key, iv, cs, ps);
    AppendBlock(out, o, tout, was, off, ps);
  }

  method AppendPart(out: array<byte>, o: nat, b: Block, n: nat,
                    ghost was: seq<byte>, ghost off: nat, ghost ps: seq<Block>, ghost length: nat)
    requires Filled(out[..], was, off, ps) && o == off + 8 * |ps| && 1 <= n < 8 && o + n <= out.Length
    requires length == 8 * |ps| + n
    modifies out
    ensures off + length <= |was|
    ensures out[..] == Put(was, off, Bytes(ps + [b])[..length])
  {
    L2nn(b.l, b.r, out, o, n);
    BytesSnoc(ps, b);
    PutJoin(was, off, Bytes(ps), BytesOf(b)[..n]);
    assert Bytes(ps + [b])[..length] == Bytes(ps) + BytesOf(b)[..n];
  }

  lemma WholeBytes(ps: seq<Block>, length: nat)
    requires length == 8 * |ps|
    ensures Bytes(ps)[..length] == Bytes(ps)
  {
  }

  method DecryptAll(inp: array<byte>, inOff: nat, out: array<byte>, outOff: nat, length: nat, key: Key, iv: Block)
    returns (xor: Block)
    requires inOff + 8 * BlockCount(length) <= inp.Length && outOff + length <= out.Length
    requires inp == out ==> Behind(outOff, inOff, 8 * BlockCount(length))
    modifies out
    ensures var cipher := old(inp[inOff..inOff + 8 * BlockCount(length)]);
            && out[..] == Put(old(out[..]), outOff, CbcDecrypted(Deciphers(key), iv, cipher, length))
            && xor == Last(iv, Blocks(cipher))
  {
    ghost var data, was, dec := inp[inOff..inOff + 8 * BlockCount(length)], out[..], Deciphers(key);
    ghost var cs := Blocks(data);
    ghost var ps: seq<Block> := [];
    xor := iv;
    var l: int, i, o := length - 8, inOff, outOff;
    assert Put(was, outOff, []) == was;
    while l >= 0
      invariant l >= -8 && 8 * |ps| + 8 + l == length && i == inOff + 8 * |ps| && o == outOff + 8 * |ps|
      invariant Unchained(dec, iv, cs, ps, xor) && Filled(out[..], was, outOff, ps)
      invariant Unread(inp, inOff, data, |ps|)
    {
      var tin := ReadBlock(inp, i, inOff, data, |ps|);
      var tout := DecryptWhole(tin, xor, key, out, o, iv, cs, ps, was, outOff, inp, inOff, data);
      ps := ps + [tout];
      xor := tin;
      l, i, o := l - 8, i + 8, o + 8;
    }
    xor, ps := DecryptTail(inp, i, out, o, l, xor, key, iv, cs, ps, was, outOff, inOff, data, length);
    AllUnchained(dec, iv, data, cs, ps, xor, length);
  }

  lemma AllUnchained(dec: Block -> Block, iv: Block, data: seq<byte>, cs: seq<Block>, ps: seq<Block>, xor: Block,
                     length: nat)
    requires cs == Blocks(data) && 8 * BlockCount(length) <= |data|
    requires |ps| == |cs| == BlockCount(length) && Unchained(dec, iv, cs, ps, xor)
    ensures Bytes(ps)[..length] == CbcDecrypted(dec, iv, data, length) && xor == Last(iv, cs)
  {
  }

  /** After the loop: the last block, if it is not full. */
  method DecryptTail(inp: array<byte>, i: nat, out: array<byte>, o: nat, l: int, xor: Block, key: Key,
                     ghost iv: Block, ghost cs: seq<Block>, ghost ps: seq<Block>, ghost was: seq<byte>, ghost off: nat,
                     ghost inOff: nat, ghost data: seq<byte>, ghost length: nat)
    returns (xor': Block, ghost ps': seq<Block>)
    requires -8 <= l < 0 && 8 * |ps| + 8 + l == length && i == inOff + 8 * |ps| && o == off + 8 * |ps|
    requires Unchained(Deciphers(key), iv, cs, ps, xor) && Filled(out[..], was, off, ps)
    requires Unread(inp, inOff, data, |ps|) && cs == Blocks(data)
    requires off + length <= out.Length && |data| == 8 * BlockCount(length)
    modifies out
    ensures |ps'| == |cs| == BlockCount(length) && Unchained(Deciphers(key), iv, cs, ps', xor')
    ensures out[..] == Put(was, off, Bytes(ps')[..length])
  {
    CountAt(length, |ps|, l);
    if l == -8 {
      WholeBytes(ps, length);
      return xor, ps;
    }
    xor' := ReadBlock(inp, i, inOff, data, |ps|);
    ghost var tout := DecryptPart(xor', out, o, l + 8, xor, key, iv, cs, ps, was, off, length);
    ps' := ps + [tout];
  }

  method DecryptPart(tin: Block, out: array<byte>, o: nat, n: nat, xor: Block, key: Key,
                     ghost iv: Block, ghost cs: seq<Block>, ghost ps: seq<Block>, ghost was: seq<byte>, ghost off: nat,
                     ghost length: nat)
    returns (ghost b: Block)
    requires 1 <= n < 8 && length == 8 * |ps| + n && o == off + 8 * |ps| && o + n <= out.Length
    requires Unchained(Deciphers(key), iv, cs, ps, xor) && Filled(out[..], was, off, ps)
    requires |ps| < |cs| && tin == cs[|ps|]
    modifies out
    ensures Unchained(Deciphers(key), iv, cs, ps + [b], tin)
    ensures off + length <= |was| && out[..] == Put(was, off, Bytes(ps + [b])[..length])
  {
    var tout := DecryptNext(tin, xor, key, iv, cs, ps);
    AppendPart(out, o, tout, n, was, off, ps, length);
    b := tout;
  }

  /** The branch that decrypts: it reads whole blocks and writes length bytes. */
  method CbcDecrypt(inp: array<byte>, inOff: nat, out: array<byte>, outOff: nat, length: nat,
                    key: Key, ivec: array<byte>)
    requires inOff + 8 * BlockCount(length) <= inp.Length && outOff + length <= out.Length
    requires ivec.Length == 8 && ivec != inp && ivec != out
    requires inp == out ==> Behind(outOff, inOff, 8 * BlockCount(length))
    modifies out, ivec
    ensures var iv, cipher := old(BlockOf(ivec[..])), old(inp[inOff..inOff + 8 * BlockCount(length)]);
            && out[..] == Put(old(out[..]), outOff, CbcDecrypted(Deciphers(key), iv, cipher, length))
            && ivec[..] == BytesOf(Last(iv, Blocks(cipher)))
  {
    var iv := N2lTwice(ivec[..]);
    var xor := DecryptAll(inp, inOff, out, outOff, length, key, iv);
    StoreIvec(xor, ivec);
  }
}
