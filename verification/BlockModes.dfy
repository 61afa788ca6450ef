/**
  Blowfish over bytes: words are read and written high byte first, and cipher block
  chaining links the blocks through ivec. A last block that is not full is padded with
  zeros, and only its own bytes come back.
 */
module BlockModes {
  import opened LittleEndian
  import opened Bits
  import opened ByteOrder
  import opened HostOrder
  import opened Blowfish

  const BLOCK := 8                               // BF_BLOCK

  // ---- words and bytes ----

  /** The word whose bytes are c, high byte first. */
  function WordOf(c: seq<byte>): word
    requires |c| >= 4
  {
    c[0] as int * B3 + c[1] as int * B2 + c[2] as int * B1 + c[3] as int
  }

  lemma WordOfValue(c: seq<byte>)
    requires |c| >= 4
    ensures WordOf(c) == Value(Reverse(c[..4]))
  {
    Value4(Reverse(c[..4]));
  }

  /** The bytes of l, high byte first. */
  function WordBytes(l: word): (c: seq<byte>)
    ensures |c| == 4
  {
    [l / B3 % B1, l / B2 % B1, l / B1 % B1, l % B1]
  }

  lemma WordBytesDigits(l: word)
    ensures WordBytes(l) == Reverse(Digits(4, l))
  {
    DigitsPoint(4, l);
    assert forall i :: 0 <= i < 4 ==> WordBytes(l)[i] == Digits(4, l)[3 - i];
  }

  lemma WordRoundTrip(l: word, rest: seq<byte>)
    ensures WordOf(WordBytes(l) + rest) == l
  {
    var c := WordBytes(l);
    assert forall i :: 0 <= i < 4 ==> (c + rest)[i] == c[i];
    HighestFirst(l, c[0], c[1], c[2], c[3]);
  }

  lemma HighestFirst(l: word, a: byte, b: byte, c: byte, d: byte)
    requires a == l / B3 % B1 && b == l / B2 % B1 && c == l / B1 % B1 && d == l % B1
    ensures a as int * B3 + b as int * B2 + c as int * B1 + d as int == l
  {
    DivModStep(l, B1, B1);
    DivModStep(l, B2, B1);
    DivModUnique(l / B3, B1, 0, l / B3);
  }

  lemma BytesRoundTrip(c: seq<byte>)
    requires |c| >= 4
    ensures WordBytes(WordOf(c)) == c[..4]
  {
    BytesOfSum(WordOf(c), c[0], c[1], c[2], c[3]);
  }

  lemma BytesOfSum(l: word, a: byte, b: byte, c: byte, d: byte)
    requires l == a as int * B3 + b as int * B2 + c as int * B1 + d as int
    ensures l / B3 % B1 == a && l / B2 % B1 == b && l / B1 % B1 == c && l % B1 == d
  {
    LastByte(l, a as int * B2 + b as int * B1 + c as int, d);
    LastByte(l / B1, a as int * B1 + b as int, c);
    LastByte(l / B2, a, b);
    DivModStep(l, B1, B1);
    DivModStep(l, B2, B1);
  }

  lemma LastByte(l: nat, h: nat, d: byte)
    requires l == h * B1 + d as int
    ensures l / B1 == h && l % B1 == d
  {
    DivModUnique(l, B1, h, d);
  }

  function BlockOf(c: seq<byte>): Block
    requires |c| >= 8
  {
    Block(WordOf(c), WordOf(c[4..]))
  }

  function BytesOf(b: Block): (c: seq<byte>)
    ensures |c| == 8
  {
    WordBytes(b.l) + WordBytes(b.r)
  }

  lemma BlockRoundTrip(b: Block, rest: seq<byte>)
    ensures BlockOf(BytesOf(b) + rest) == b
  {
    WordRoundTrip(b.l, WordBytes(b.r) + rest);
    assert BytesOf(b) + rest == WordBytes(b.l) + (WordBytes(b.r) + rest);
    WordRoundTrip(b.r, rest);
    assert (BytesOf(b) + rest)[4..] == WordBytes(b.r) + rest;
  }

  lemma EightRoundTrip(c: seq<byte>)
    requires |c| >= 8
    ensures BytesOf(BlockOf(c)) == c[..8]
  {
    BytesRoundTrip(c);
    BytesRoundTrip(c[4..]);
  }

  function XorBlock(a: Block, b: Block): Block { Block(XorWord(a.l, b.l), XorWord(a.r, b.r)) }

  lemma XorBlockTwice(a: Block, b: Block)
    ensures XorBlock(XorBlock(a, b), b) == a
  {
    XorTwice(a.l, b.l);
    XorTwice(a.r, b.r);
  }

  /** The first eight bytes of s, with zeros for those it does not have. */
  function FirstBlock(s: seq<byte>): (c: seq<byte>)
    ensures |c| == 8
    ensures forall i :: 0 <= i < 8 ==> c[i] == if i < |s| then s[i] else 0
  {
    if |s| >= 8 then s[..8] else s + seq(8 - |s|, _ => 0)
  }

  /** How many blocks hold n bytes. */
  function BlockCount(n: nat): nat { (n + 7) / 8 }

  /** The bytes s as blocks, the last one padded. */
  function Blocks(s: seq<byte>): (bs: seq<Block>)
    ensures |bs| == BlockCount(|s|)
  {
    seq(BlockCount(|s|), i requires 0 <= i < BlockCount(|s|) => BlockOf(FirstBlock(s[8 * i..])))
  }

  function Bytes(bs: seq<Block>): (s: seq<byte>)
    ensures |s| == 8 * |bs|
  {
    seq(8 * |bs|, j requires 0 <= j < 8 * |bs| => BytesOf(bs[j / 8])[j % 8])
  }

  /** Bytes survive the way through blocks, and are followed by the padding. */
  lemma BytesOfBlocks(s: seq<byte>)
    ensures |s| <= |Bytes(Blocks(s))|
    ensures Bytes(Blocks(s))[..|s|] == s
  {
    forall j | 0 <= j < |s|
      ensures Bytes(Blocks(s))[j] == s[j]
    {
      EightRoundTrip(FirstBlock(s[8 * (j / 8)..]));
    }
  }

  lemma ByteAt(bs: seq<Block>, i: nat, j: nat)
    requires i < |bs| && j < 8
    ensures Bytes(bs)[8 * i + j] == BytesOf(bs[i])[j]
  {
    assert (8 * i + j) / 8 == i && (8 * i + j) % 8 == j;
  }

  lemma BlockAt(bs: seq<Block>, rest: seq<byte>, i: nat)
    requires i < |bs|
    ensures FirstBlock((Bytes(bs) + rest)[8 * i..]) == BytesOf(bs[i])
  {
    var t := (Bytes(bs) + rest)[8 * i..];
    forall j | 0 <= j < 8
      ensures FirstBlock(t)[j] == BytesOf(bs[i])[j]
    {
      ByteAt(bs, i, j);
      assert t[j] == Bytes(bs)[8 * i + j];
    }
  }

  lemma BytesSnoc(bs: seq<Block>, b: Block)
    ensures Bytes(bs + [b]) == Bytes(bs) + BytesOf(b)
  {
    forall j | 0 <= j < 8 * |bs| + 8
      ensures Bytes(bs + [b])[j] == (Bytes(bs) + BytesOf(b))[j]
    {
      assert j < 8 * |bs| <==> j / 8 < |bs|;
    }
  }

  /** Blocks written as bytes are read back, whatever follows them. */
  lemma BlocksOfBytes(bs: seq<Block>, rest: seq<byte>)
    ensures |bs| <= |Blocks(Bytes(bs) + rest)|
    ensures Blocks(Bytes(bs) + rest)[..|bs|] == bs
  {
    forall i | 0 <= i < |bs|
      ensures Blocks(Bytes(bs) + rest)[i] == bs[i]
    {
      BlockAt(bs, rest, i);
      BlockRoundTrip(bs[i], []);
      assert BytesOf(bs[i]) + [] == BytesOf(bs[i]);
    }
  }

  // ---- cipher block chaining over any block cipher ----

  // The block cipher is a parameter: dec has to undo enc.
  ghost predicate Inverses(enc: Block -> Block, dec: Block -> Block)
  {
    forall b :: dec(enc(b)) == b
  }

  /** The chaining value for block i of the ciphertext cs. */
  function Before(iv: Block, cs: seq<Block>, i: nat): Block
    requires i <= |cs|
  {
    if i == 0 then iv else cs[i - 1]
  }

  /** The chaining value that cs leaves in ivec. */
  function Last(iv: Block, cs: seq<Block>): Block { Before(iv, cs, |cs|) }

  /** The first n blocks of ciphertext: each block goes in mixed with the ciphertext before it. */
  function Chain(enc: Block -> Block, iv: Block, bs: seq<Block>, n: nat): (cs: seq<Block>)
    requires n <= |bs|
    ensures |cs| == n
  {
    if n == 0 then []
    else
      var cs := Chain(enc, iv, bs, n - 1);
      cs + [enc(XorBlock(bs[n - 1], Last(iv, cs)))]
  }

  /** The first n blocks of plaintext: what comes out is mixed with the ciphertext before it. */
  function Unchain(dec: Block -> Block, iv: Block, cs: seq<Block>, n: nat): (bs: seq<Block>)
    requires n <= |cs|
    ensures |bs| == n
    ensures forall i :: 0 <= i < n ==> bs[i] == XorBlock(dec(cs[i]), Before(iv, cs, i))
  {
    if n == 0 then []
    else Unchain(dec, iv, cs, n - 1) + [XorBlock(dec(cs[n - 1]), Before(iv, cs, n - 1))]
  }

  /** Block i of the ciphertext, in terms of the one before. */
  lemma {:induction false} ChainAt(enc: Block -> Block, iv: Block, bs: seq<Block>, n: nat, i: nat)
    requires i < n <= |bs|
    ensures Chain(enc, iv, bs, n)[i] == enc(XorBlock(bs[i], Before(iv, Chain(enc, iv, bs, n), i)))
  {
    if i < n - 1 {
      ChainAt(enc, iv, bs, n - 1, i);
    }
  }

  /** Both words of each plaintext block are mixed with the ciphertext before it, the first with iv. */
  lemma ChainWords(enc: Block -> Block, iv: Block, bs: seq<Block>, n: nat, i: nat)
    requires i < n <= |bs|
    ensures var cs := Chain(enc, iv, bs, n);
            var prev := if i == 0 then iv else cs[i - 1];
            cs[i] == enc(Block(XorWord(bs[i].l, prev.l), XorWord(bs[i].r, prev.r)))
  {
    ChainAt(enc, iv, bs, n, i);
  }

  /** And both words of each deciphered block with the ciphertext before. */
  lemma UnchainWords(dec: Block -> Block, iv: Block, cs: seq<Block>, n: nat, i: nat)
    requires i < n <= |cs|
    ensures var prev := if i == 0 then iv else cs[i - 1];
            && Unchain(dec, iv, cs, n)[i].l == Xor(dec(cs[i]).l, prev.l)
            && Unchain(dec, iv, cs, n)[i].r == Xor(dec(cs[i]).r, prev.r)
  {
  }

  ghost predicate Injective(enc: Block -> Block) { forall b, b' :: enc(b) == enc(b') ==> b == b' }

  lemma InverseInjective(enc: Block -> Block, dec: Block -> Block)
    requires Inverses(enc, dec)
    ensures Injective(enc)
  {
    forall b, b' | enc(b) == enc(b')
      ensures b == b'
    {
      assert dec(enc(b)) == b && dec(enc(b')) == b';
    }
  }

  /** Two blocks of ciphertext, of one message or of two, agree if and only if what was mixed agrees word by word. */
  lemma SameCipherIff(enc: Block -> Block, iv: Block, bs: seq<Block>, i: nat, iv': Block, bs': seq<Block>, j: nat)
    requires Injective(enc) && i < |bs| && j < |bs'|
    ensures var cs, cs' := Chain(enc, iv, bs, |bs|), Chain(enc, iv', bs', |bs'|);
            var prev, prev' := if i == 0 then iv else cs[i - 1], if j == 0 then iv' else cs'[j - 1];
            cs[i] == cs'[j]
            <==> Xor(bs[i].l, prev.l) == Xor(bs'[j].l, prev'.l) && Xor(bs[i].r, prev.r) == Xor(bs'[j].r, prev'.r)
  {
    ChainWords(enc, iv, bs, |bs|, i);
    ChainWords(enc, iv', bs', |bs'|, j);
  }

  lemma UnchainChain(enc: Block -> Block, dec: Block -> Block, iv: Block, bs: seq<Block>, n: nat)
    requires Inverses(enc, dec) && n <= |bs|
    ensures Unchain(dec, iv, Chain(enc, iv, bs, n), n) == bs[..n]
  {
    var cs := Chain(enc, iv, bs, n);
    forall i | 0 <= i < n
      ensures Unchain(dec, iv, cs, n)[i] == bs[i]
    {
      ChainAt(enc, iv, bs, n, i);
      UnmixBlock(enc, dec, bs[i], Before(iv, cs, i), cs[i]);
    }
  }

  lemma UnmixBlock(enc: Block -> Block, dec: Block -> Block, b: Block, before: Block, c: Block)
    requires Inverses(enc, dec) && c == enc(XorBlock(b, before))
    ensures XorBlock(dec(c), before) == b
  {
    XorBlockTwice(b, before);
  }

  /** Chaining a + b is chaining a, and then b from where a ended. */
  lemma {:induction false} ChainSplit(enc: Block -> Block, iv: Block, a: seq<Block>, b: seq<Block>, n: nat)
    requires n <= |b|
    ensures var c := Chain(enc, iv, a, |a|);
            Chain(enc, iv, a + b, |a| + n) == c + Chain(enc, Last(iv, c), b, n)
  {
    if n == 0 {
      ChainLocal(enc, iv, a, a + b, |a|);
    } else {
      ChainSplit(enc, iv, a, b, n - 1);
    }
  }

  lemma {:induction false} ChainLocal(enc: Block -> Block, iv: Block, a: seq<Block>, b: seq<Block>, n: nat)
    requires n <= |a| && n <= |b| && a[..n] == b[..n]
    ensures Chain(enc, iv, a, n) == Chain(enc, iv, b, n)
  {
    if n > 0 {
      assert a[..n - 1] == a[..n][..n - 1] && b[..n - 1] == b[..n][..n - 1];
      assert a[n - 1] == a[..n][n - 1] && b[n - 1] == b[..n][n - 1];
      ChainLocal(enc, iv, a, b, n - 1);
    }
  }

  // ---- BF_cbc_encrypt ----

  function CbcBlocks(enc: Block -> Block, iv: Block, data: seq<byte>): (cs: seq<Block>)
    ensures |cs| == BlockCount(|data|)
  {
    Chain(enc, iv, Blocks(data), BlockCount(|data|))
  }

  /** The first length bytes under the ciphertext. */
  function CbcDecrypted(dec: Block -> Block, iv: Block, cipher: seq<byte>, length: nat): (data: seq<byte>)
    requires 8 * BlockCount(length) <= |cipher|
    ensures |data| == length
  {
    Bytes(Unchain(dec, iv, Blocks(cipher), BlockCount(length)))[..length]
  }

  lemma DecipherEncipher(k: Key)
    ensures Inverses(Enciphers(k), Deciphers(k)) && Inverses(Deciphers(k), Enciphers(k))
  {
    forall b
      ensures Deciphers(k)(Enciphers(k)(b)) == b && Enciphers(k)(Deciphers(k)(b)) == b
    {
      CryptInverse(k, b);
    }
  }

  /**
    Data of any length comes back, a last block that is not full included, whatever
    follows the ciphertext.
   */
  lemma CbcRoundTrip(k: Key, iv: Block, data: seq<byte>, rest: seq<byte>)
    ensures CbcDecrypted(Deciphers(k), iv, Bytes(CbcBlocks(Enciphers(k), iv, data)) + rest, |data|) == data
  {
    DecipherEncipher(k);
    ChainRoundTrip(Enciphers(k), Deciphers(k), iv, data, rest);
  }

  lemma ChainRoundTrip(enc: Block -> Block, dec: Block -> Block, iv: Block, data: seq<byte>, rest: seq<byte>)
    requires Inverses(enc, dec)
    ensures CbcDecrypted(dec, iv, Bytes(CbcBlocks(enc, iv, data)) + rest, |data|) == data
  {
    var n, cs := BlockCount(|data|), CbcBlocks(enc, iv, data);
    BlocksOfBytes(cs, rest);
    UnchainReceived(enc, dec, iv, Blocks(data), Blocks(Bytes(cs) + rest), n);
    BytesOfBlocks(data);
  }

  lemma UnchainReceived(enc: Block -> Block, dec: Block -> Block, iv: Block,
                        bs: seq<Block>, received: seq<Block>, n: nat)
    requires Inverses(enc, dec) && n == |bs| <= |received|
    requires received[..n] == Chain(enc, iv, bs, n)
    ensures Unchain(dec, iv, received, n) == bs
  {
    UnchainChain(enc, dec, iv, bs, n);
    UnchainLocal(dec, iv, received, Chain(enc, iv, bs, n), n);
  }

  lemma {:induction false} UnchainLocal(dec: Block -> Block, iv: Block, cs: seq<Block>, cs': seq<Block>, n: nat)
    requires n <= |cs| && n <= |cs'| && cs[..n] == cs'[..n]
    ensures Unchain(dec, iv, cs, n) == Unchain(dec, iv, cs', n)
  {
    assert forall i :: 0 <= i < n ==> cs[..n][i] == cs'[..n][i];
    assert forall i :: 0 <= i < n ==> cs[i] == cs'[i];
  }

  /** A call may be split after any number of whole blocks when ivec is carried over. */
  lemma CbcSplit(enc: Block -> Block, iv: Block, a: seq<byte>, b: seq<byte>, i: nat)
    requires |a| == 8 * i
    ensures var c := CbcBlocks(enc, iv, a);
            CbcBlocks(enc, iv, a + b) == c + CbcBlocks(enc, Last(iv, c), b)
  {
    BlocksJoin(a, b, i);
    ChainJoin(enc, iv, Blocks(a + b), Blocks(a), Blocks(b));
  }

  lemma ChainJoin(enc: Block -> Block, iv: Block, cs: seq<Block>, a: seq<Block>, b: seq<Block>)
    requires cs == a + b
    ensures var c := Chain(enc, iv, a, |a|);
            Chain(enc, iv, cs, |cs|) == c + Chain(enc, Last(iv, c), b, |b|)
  {
    ChainSplit(enc, iv, a, b, |b|);
  }

  lemma BlocksJoin(a: seq<byte>, b: seq<byte>, n: nat)
    requires |a| == 8 * n
    ensures BlockCount(|a|) == n && BlockCount(|a + b|) == n + BlockCount(|b|)
    ensures Blocks(a + b) == Blocks(a) + Blocks(b)
  {
    forall i | 0 <= i < n + BlockCount(|b|)
      ensures Blocks(a + b)[i] == (Blocks(a) + Blocks(b))[i]
    {
      if i < n {
        FirstOfJoin(a, b, 8 * i);
      } else {
        DropJoin(a, b, 8 * i);
      }
    }
  }

  lemma FirstOfJoin(a: seq<byte>, b: seq<byte>, p: nat)
    requires p + 8 <= |a|
    ensures FirstBlock((a + b)[p..]) == FirstBlock(a[p..])
  {
  }

  lemma DropJoin(a: seq<byte>, b: seq<byte>, p: nat)
    requires |a| <= p <= |a + b|
    ensures (a + b)[p..] == b[p - |a|..]
  {
  }

  /** Decryption can start after any number of blocks: all it needs is the last of them. */
  lemma UnchainFrom(dec: Block -> Block, iv: Block, a: seq<Block>, b: seq<Block>, n: nat)
    requires n <= |b|
    ensures Unchain(dec, iv, a + b, |a| + n)[|a|..] == Unchain(dec, Last(iv, a), b, n)
  {
    forall j | 0 <= j < n
      ensures Unchain(dec, iv, a + b, |a| + n)[|a| + j] == Unchain(dec, Last(iv, a), b, n)[j]
    {
      assert Before(iv, a + b, |a| + j) == Before(Last(iv, a), b, j);
    }
  }

  // ---- runs of calls that carry ivec along ----

  /** The ciphertexts of a run of encrypting calls. */
  function SentAll(enc: Block -> Block, iv: Block, calls: seq<seq<byte>>): (ciphers: seq<seq<byte>>)
    ensures |ciphers| == |calls|
    ensures forall i :: 0 <= i < |calls| ==> |ciphers[i]| == 8 * BlockCount(|calls[i]|)
    decreases calls
  {
    if calls == [] then []
    else
      var cs := CbcBlocks(enc, iv, calls[0]);
      [Bytes(cs)] + SentAll(enc, Last(iv, cs), calls[1..])
  }

  /** What a run of decrypting calls of the given lengths makes of them. */
  function ReceivedAll(dec: Block -> Block, iv: Block, ciphers: seq<seq<byte>>, lengths: seq<nat>)
    : (calls: seq<seq<byte>>)
    requires |ciphers| == |lengths|
    requires forall i :: 0 <= i < |lengths| ==> |ciphers[i]| == 8 * BlockCount(lengths[i])
    decreases ciphers
  {
    if ciphers == [] then []
    else
      [CbcDecrypted(dec, iv, ciphers[0], lengths[0])]
      + ReceivedAll(dec, Last(iv, Blocks(ciphers[0])), ciphers[1..], lengths[1..])
  }

  function Lengths(calls: seq<seq<byte>>): (lengths: seq<nat>)
    ensures |lengths| == |calls|
    ensures forall i :: 0 <= i < |calls| ==> lengths[i] == |calls[i]|
  {
    if calls == [] then [] else [|calls[0]|] + Lengths(calls[1..])
  }

  /** Every call of a run comes back, those with a padded block included: both sides carry the same ivec. */
  lemma {:induction false} RunRoundTrip(enc: Block -> Block, dec: Block -> Block, iv: Block, calls: seq<seq<byte>>)
    requires Inverses(enc, dec)
    ensures ReceivedAll(dec, iv, SentAll(enc, iv, calls), Lengths(calls)) == calls
    decreases calls
  {
    if calls == [] {
    } else {
      CallRoundTrip(enc, dec, iv, calls[0]);
      var cs := CbcBlocks(enc, iv, calls[0]);
      RunRoundTrip(enc, dec, Last(iv, cs), calls[1..]);
      ReceivedStep(dec, iv, Bytes(cs), |calls[0]|, SentAll(enc, Last(iv, cs), calls[1..]), Lengths(calls[1..]));
    }
  }

  lemma ReceivedStep(dec: Block -> Block, iv: Block, cipher: seq<byte>, length: nat,
                     ciphers: seq<seq<byte>>, lengths: seq<nat>)
    requires |ciphers| == |lengths| && |cipher| == 8 * BlockCount(length)
    requires forall i :: 0 <= i < |lengths| ==> |ciphers[i]| == 8 * BlockCount(lengths[i])
    ensures ReceivedAll(dec, iv, [cipher] + ciphers, [length] + lengths)
         == [CbcDecrypted(dec, iv, cipher, length)] + ReceivedAll(dec, Last(iv, Blocks(cipher)), ciphers, lengths)
  {
    assert ([cipher] + ciphers)[1..] == ciphers && ([length] + lengths)[1..] == lengths;
  }

  lemma CallRoundTrip(enc: Block -> Block, dec: Block -> Block, iv: Block, data: seq<byte>)
    requires Inverses(enc, dec)
    ensures var cs := CbcBlocks(enc, iv, data);
            CbcDecrypted(dec, iv, Bytes(cs), |data|) == data && Blocks(Bytes(cs)) == cs
  {
    var cs := CbcBlocks(enc, iv, data);
    ChainRoundTrip(enc, dec, iv, data, []);
    BlocksOfBytes(cs, []);
    assert Bytes(cs) + [] == Bytes(cs);
  }
}
