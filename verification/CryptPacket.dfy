/**
  Decryption of a received packet: a two-byte size in the host's order, then that many
  bytes, of which all whole blocks are decrypted in place one by one.
 */
module CryptPacket {
  import opened LittleEndian
  import opened ByteOrder
  import opened HostOrder
  import opened Blowfish
  import opened BlockModes
  import opened CbcBuffers

  /** Each whole block of s on its own; what does not fill a block stays as it is. */
  function Ecb(f: Block -> Block, s: seq<byte>): (r: seq<byte>)
    ensures |r| == |s|
    decreases |s|
  {
    if |s| < 8 then s else BytesOf(f(BlockOf(s))) + Ecb(f, s[8..])
  }

  /** Block i of the result is made of block i alone, and what fills no block stays. */
  lemma {:induction false} EcbAt(f: Block -> Block, s: seq<byte>, i: nat)
    requires 8 * i <= |s|
    ensures 8 * i + 8 <= |s| ==> Ecb(f, s)[8 * i..8 * i + 8] == BytesOf(f(BlockOf(s[8 * i..])))
    ensures |s| < 8 * i + 8 ==> Ecb(f, s)[8 * i..] == s[8 * i..]
    decreases i
  {
    if i > 0 {
      EcbAt(f, s[8..], i - 1);
      var first, rest := BytesOf(f(BlockOf(s))), Ecb(f, s[8..]);
      assert s[8..][8 * (i - 1)..] == s[8 * i..];
      assert (first + rest)[8 * i..] == rest[8 * (i - 1)..];
      if 8 * i + 8 <= |s| {
        assert (first + rest)[8 * i..8 * i + 8] == rest[8 * (i - 1)..8 * (i - 1) + 8];
      }
    } else {
      assert s[0..] == s && Ecb(f, s)[0..] == Ecb(f, s);
    }
  }

  lemma {:induction false} EcbRoundTrip(enc: Block -> Block, dec: Block -> Block, s: seq<byte>)
    requires Inverses(enc, dec)
    ensures Ecb(dec, Ecb(enc, s)) == s
    decreases |s|
  {
    if |s| >= 8 {
      EcbRoundTrip(enc, dec, s[8..]);
      var c, rest := enc(BlockOf(s)), Ecb(enc, s[8..]);
      BlockRoundTrip(c, rest);
      assert (BytesOf(c) + rest)[8..] == rest;
      EightRoundTrip(s);
      assert s == s[..8] + s[8..];
    }
  }

  /** BF_ecb_encrypt on one block. It reads all of it before it writes, so the buffers may overlap in any way. */
  method EcbEncrypt(inp: array<byte>, inOff: nat, out: array<byte>, outOff: nat, key: Key, encrypt: bool)
    requires inOff + 8 <= inp.Length && outOff + 8 <= out.Length
    modifies out
    ensures out[..] == Put(old(out[..]), outOff,
                           BytesOf((if encrypt then Enciphers(key) else Deciphers(key))(old(BlockOf(inp[inOff..])))))
  {
    var d := N2lTwice(inp[inOff..]);
    if encrypt {
      d := EncryptBlock(d, key);
    } else {
      d := DecryptBlock(d, key);
    }
    StoreBlock(d, out, outOff);
  }

  /** Of the packet s, done is decrypted and rest is still as it came. */
  ghost predicate Decrypting(now: seq<byte>, was: seq<byte>, start: nat, dec: Block -> Block,
                             s: seq<byte>, done: seq<byte>, rest: seq<byte>)
  {
    && |done| + |rest| == |s| && start + |s| <= |was|
    && now == Put(was, start, done + rest)
    && Ecb(dec, s) == done + Ecb(dec, rest)
  }

  lemma EcbStep(dec: Block -> Block, done: seq<byte>, b: seq<byte>, rest: seq<byte>)
    requires |rest| >= 8 && b == BytesOf(dec(BlockOf(rest)))
    ensures done + Ecb(dec, rest) == done + b + Ecb(dec, rest[8..])
  {
    JoinThree(done, b, Ecb(dec, rest[8..]));
  }

  lemma PutOver(was: seq<byte>, start: nat, done: seq<byte>, rest: seq<byte>, b: seq<byte>)
    requires |b| == 8 <= |rest| && start + |done| + |rest| <= |was|
    ensures Put(Put(was, start, done + rest), start + |done|, b) == Put(was, start, done + b + rest[8..])
  {
  }

  method DecryptNextBlock(packet: array<byte>, off: nat, key: Key, ghost was: seq<byte>, ghost start: nat,
                          ghost s: seq<byte>, ghost done: seq<byte>, ghost rest: seq<byte>)
    returns (ghost b: seq<byte>)
    requires Decrypting(packet[..], was, start, Deciphers(key), s, done, rest)
    requires |rest| >= 8 && off == start + |done|
    modifies packet
    ensures |b| == 8 && Decrypting(packet[..], was, start, Deciphers(key), s, done + b, rest[8..])
  {
    assert packet[off..][..8] == rest[..8];
    FirstEight(packet[off..], rest);
    b := BytesOf(Deciphers(key)(BlockOf(rest)));
    BlockDecrypted(packet[..], was, start, Deciphers(key), s, done, rest, b);
    EcbEncrypt(packet, off, packet, off, key, false);
  }

  /** One block more is decrypted once it is put where the decrypted part ends. */
  lemma BlockDecrypted(now: seq<byte>, was: seq<byte>, start: nat, dec: Block -> Block,
                       s: seq<byte>, done: seq<byte>, rest: seq<byte>, b: seq<byte>)
    requires Decrypting(now, was, start, dec, s, done, rest) && |rest| >= 8 && b == BytesOf(dec(BlockOf(rest)))
    ensures start + |done| + 8 <= |now|
    ensures Decrypting(Put(now, start + |done|, b), was, start, dec, s, done + b, rest[8..])
  {
    EcbStep(dec, done, b, rest);
    PutOver(was, start, done, rest, b);
  }

  lemma FirstEight(a: seq<byte>, b: seq<byte>)
    requires |a| >= 8 && |b| >= 8 && a[..8] == b[..8]
    ensures BlockOf(a) == BlockOf(b)
  {
    assert forall i :: 0 <= i < 8 ==> a[i] == a[..8][i] && b[i] == b[..8][i];
    assert a[4..][..4] == b[4..][..4] && a[..4] == b[..4];
  }

  /** The loop over the blocks of a packet that begins at offset start. */
  method DecryptBlocks(packet: array<byte>, start: nat, plainSize: nat, key: Key, ghost s: seq<byte>)
    requires start + plainSize <= packet.Length && s == packet[start..start + plainSize]
    modifies packet
    ensures packet[..] == Put(old(packet[..]), start, Ecb(Deciphers(key), s))
  {
    ghost var was, dec := packet[..], Deciphers(key);
    ghost var done: seq<byte>, rest := [], s;
    NothingDecrypted(was, start, dec, s);
    for i := 0 to plainSize / BLOCK
      invariant |done| == 8 * i
      invariant Decrypting(packet[..], was, start, dec, s, done, rest)
    {
      var offset := i * BLOCK;
      ghost var b := DecryptNextBlock(packet, start + offset, key, was, start, s, done, rest);
      done, rest := done + b, rest[8..];
    }
    AllDecrypted(packet[..], was, start, dec, s, done, rest);
  }

  lemma NothingDecrypted(was: seq<byte>, start: nat, dec: Block -> Block, s: seq<byte>)
    requires start + |s| <= |was| && s == was[start..start + |s|]
    ensures Decrypting(was, was, start, dec, s, [], s)
  {
    assert [] + s == s && [] + Ecb(dec, s) == Ecb(dec, s);
  }

  lemma AllDecrypted(now: seq<byte>, was: seq<byte>, start: nat, dec: Block -> Block,
                     s: seq<byte>, done: seq<byte>, rest: seq<byte>)
    requires Decrypting(now, was, start, dec, s, done, rest) && |rest| < 8
    ensures now == Put(was, start, Ecb(dec, s))
  {
  }

  /**
    cryptoDecryptPacket. The memcpy of the header reads two bytes whatever the size says;
    start and size come back past the header in any case, and a size below two comes back
    wrapped round, which no header agrees with.
   */
  method DecryptPacket(h: Host, packet: array<byte>, start: nat, size: nat, key: Key)
    returns (ok: bool, start': nat, size': nat)
    requires start + 2 <= packet.Length && start + size <= packet.Length && size < B8
    modifies packet
    ensures start' == start + 2 && size' == (size - 2) % B8
    ensures ok == (2 <= size && HostWord(h, old(packet[start..start + 2])) == size - 2)
    ensures ok ==> packet[..] == Put(old(packet[..]), start + 2,
                                     Ecb(Deciphers(key), old(packet[start + 2..start + size])))
    ensures !ok ==> packet[..] == old(packet[..])
  {
    var plainSize := HostWord(h, packet[start..start + 2]);
    HostWordBound(h, packet[start..start + 2]);
    start', size' := start + 2, (size - 2) % B8;
    ok := size' == plainSize;
    if ok {
      DecryptBlocks(packet, start', plainSize, key, packet[start + 2..start + size]);
    }
  }

  lemma HostWordBound(h: Host, w: seq<byte>)
    requires |w| == 2
    ensures HostWord(h, w) < B2
  {
    Pow256Table();
  }

  // ---- what sender and receiver promise together ----

  /** The header of a packet of n bytes, laid down by a sender of host order h. */
  function Header(h: Host, n: nat): (s: seq<byte>)
    ensures |s| == 2
  {
    if h.BigHost? then Reverse(Digits(2, n)) else Digits(2, n)
  }

  lemma HeaderRoundTrip(h: Host, n: nat)
    ensures HostWord(h, Header(h, n)) == n <==> n < B2
  {
    ValueOfDigits(2, n);
    assert Pow256(2) == B2;
    assert Reverse(Reverse(Digits(2, n))) == Digits(2, n);
  }

  /**
    A packet whose whole blocks were encrypted under the same key is accepted if and only
    if its size fits the header, and then its bytes come back.
   */
  lemma PacketRoundTrip(h: Host, key: Key, data: seq<byte>)
    ensures HostWord(h, Header(h, |data|)) == |Ecb(Enciphers(key), data)| <==> |data| < B2
    ensures Ecb(Deciphers(key), Ecb(Enciphers(key), data)) == data
  {
    HeaderRoundTrip(h, |data|);
    DecipherEncipher(key);
    EcbRoundTrip(Enciphers(key), Deciphers(key), data);
  }
}
