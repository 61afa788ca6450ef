/**
  Skipping trailing spaces. Both optimised scanners are proved against Trimmed,
  the position where the plain backward byte scan stops.
 */
module TrailingSpace {
  import opened LittleEndian
  import opened ByteOrder
  import opened HostOrder

  const SPACE: byte := 0x20

  /** Length of s without its trailing spaces. */
  function Trimmed(s: seq<byte>): (n: nat)
    ensures n <= |s|
    ensures n > 0 ==> s[n - 1] != SPACE
    ensures forall i :: n <= i < |s| ==> s[i] == SPACE
  {
    if s != [] && s[|s| - 1] == SPACE then Trimmed(s[..|s| - 1]) else |s|
  }

  /** The three facts about Trimmed single it out. */
  lemma TrimmedUnique(s: seq<byte>, n: nat)
    requires n <= |s|
    requires n > 0 ==> s[n - 1] != SPACE
    requires forall i :: n <= i < |s| ==> s[i] == SPACE
    ensures n == Trimmed(s)
  {
  }

  function SpaceWord(W: nat): nat
  {
    if W == 4 then 0x2020_2020 else 0x2020_2020_2020_2020
  }

  predicate Aligned(addr: nat, W: nat)
    requires W > 0
  {
    addr % W == 0
  }

  /** A load through an unsigned pointer: the address must be aligned and the word inside the string. */
  function AlignedWord(h: Host, s: seq<byte>, ptr: nat, addr: nat, W: nat): nat
    requires W > 0 && Aligned(addr, W)
    requires ptr <= addr && addr + W <= ptr + |s|
  {
    HostWord(h, s[addr - ptr..addr - ptr + W])
  }

  ghost predicate AllSpaces(w: seq<byte>) { forall i :: 0 <= i < |w| ==> w[i] == SPACE }

  lemma SpacesValue(w: seq<byte>)
    requires |w| == 4 || |w| == 8
    requires AllSpaces(w)
    ensures Value(w) == SpaceWord(|w|)
  {
    if |w| == 4 {
      Value4(w);
    } else {
      Value4Then(w);
      Value4(w[..4]);
      Value4(w[4..]);
    }
  }

  /** A word equals the constant of spaces exactly when each of its bytes is a space. */
  lemma SpaceWordIff(w: seq<byte>)
    requires |w| == 4 || |w| == 8
    ensures Value(w) == SpaceWord(|w|) <==> AllSpaces(w)
  {
    var spaces := seq(|w|, i => SPACE);
    SpacesValue(spaces);
    if Value(w) == SpaceWord(|w|) {
      ValueInjective(w, spaces);
    }
    if AllSpaces(w) {
      SpacesValue(w);
    }
  }

  /** The comparison is blind to the host's byte order. */
  lemma HostSpaceWordIff(h: Host, w: seq<byte>)
    requires |w| == 4 || |w| == 8
    ensures HostWord(h, w) == SpaceWord(|w|) <==> AllSpaces(w)
  {
    SpaceWordIff(w);
    SpaceWordIff(Reverse(w));
    assert AllSpaces(Reverse(w)) ==> AllSpaces(w) by {
      assert forall i :: 0 <= i < |w| ==> w[i] == Reverse(w)[|w| - 1 - i];
    }
  }

  ghost predicate SpacesBetween(s: seq<byte>, lo: nat, hi: nat)
    requires hi <= |s|
  {
    forall i :: lo <= i < hi ==> s[i] == SPACE
  }

  /** Loads a word and says what comparing it with the constant of spaces means. */
  method LoadWord(h: Host, s: seq<byte>, ptr: nat, addr: nat, W: nat) returns (word: nat)
    requires (W == 4 || W == 8) && Aligned(addr, W)
    requires ptr <= addr && addr + W <= ptr + |s|
    ensures word == SpaceWord(W) <==> SpacesBetween(s, addr - ptr, addr - ptr + W)
  {
    word := AlignedWord(h, s, ptr, addr, W);
    var w := s[addr - ptr..addr - ptr + W];
    HostSpaceWordIff(h, w);
    assert forall i :: 0 <= i < W ==> w[i] == s[addr - ptr + i];
    assert forall i :: addr - ptr <= i < addr - ptr + W ==> s[i] == w[i - (addr - ptr)];
  }

  lemma Word8At(s: seq<byte>, i: nat)
    requires i + 8 <= |s|
    ensures Uint8korr(s[i..]) == 0x2020_2020_2020_2020 <==> SpacesBetween(s, i, i + 8)
  {
    var w := s[i..][..8];
    SpaceWordIff(w);
    assert forall j :: 0 <= j < 8 ==> w[j] == s[i + j];
    assert forall j :: i <= j < i + 8 ==> s[j] == w[j - i];
  }

  lemma NonSpace(s: seq<byte>, lo: nat, hi: nat) returns (i: nat)
    requires hi <= |s| && !SpacesBetween(s, lo, hi)
    ensures lo <= i < hi && s[i] != SPACE
  {
    i :| lo <= i < hi && s[i] != SPACE;
  }

  /** The largest multiple of W not above a. */
  method Floor(a: nat, W: nat) returns (r: nat)
    requires W > 0
    ensures r <= a < r + W && Aligned(r, W)
  {
    r := a / W * W;
    DivModUnique(r, W, a / W, 0);
  }

  /** The aligned addresses between which the scanner reads words. */
  method WordBounds(ptr: nat, end: nat, W: nat) returns (startWords: nat, endWords: nat)
    requires W == 4 || W == 8
    requires ptr + 20 < end < B8
    ensures Aligned(startWords, W) && ptr <= startWords < ptr + W
    ensures Aligned(endWords, W) && endWords <= end < endWords + W
    ensures startWords < endWords
  {
    endWords := Floor(end, W);
    startWords := Floor((ptr + W - 1) % B8, W);
  }

  /**
    The aligned scanner of the string s stored at address ptr, with words of W bytes.
    The number of bytes examined one at a time is bounded whatever the length.
   */
  method SkipAligned(h: Host, s: seq<byte>, ptr: nat, W: nat)
    returns (end: nat, ghost byteSteps: nat, ghost wordBytes: nat)
    requires W == 4 || W == 8
    requires ptr + |s| < B8
    ensures end == ptr + Trimmed(s)
    ensures byteSteps + wordBytes == |s| - Trimmed(s)
    ensures |s| > 20 ==> byteSteps <= 2 * (W - 1)
  {
    var len := |s|;
    end, byteSteps, wordBytes := ptr + len, 0, 0;
    ghost var stop: int := -1;                   // index of a byte known not to be a space, if any
    if len > 20 {
      var startWords, endWords := WordBounds(ptr, end, W);
      assert endWords > ptr;                     // the assertion of the source
      while end > endWords && s[end - 1 - ptr] == SPACE
        invariant endWords <= end <= ptr + len
        invariant SpacesBetween(s, end - ptr, len)
        invariant byteSteps == ptr + len - end
      {
        end := end - 1;
        byteSteps := byteSteps + 1;
      }
      if s[end - 1 - ptr] == SPACE && startWords < endWords {
        assert end == endWords;
        end, wordBytes, stop := SkipWords(h, s, ptr, W, startWords, end);
      } else {
        stop := end - 1 - ptr;
      }
    }
    ghost var tail, before := end, byteSteps;
    while end > ptr && s[end - 1 - ptr] == SPACE
      invariant ptr <= end <= tail
      invariant SpacesBetween(s, end - ptr, len)
      invariant byteSteps == before + (tail - end)
      invariant stop < end - ptr
    {
      end := end - 1;
      byteSteps := byteSteps + 1;
    }
    TrimmedUnique(s, end - ptr);
  }

  lemma WordBelow(a: nat, b: nat, W: nat)
    requires (W == 4 || W == 8) && Aligned(a, W) && Aligned(b, W) && b < a
    ensures b + W <= a && Aligned(a - W, W)
  {
    MultipleBelow(a, b, a / W, b / W, W);
  }

  lemma MultipleBelow(a: nat, b: nat, i: nat, j: nat, W: nat)
    requires a == W * i && b == W * j && b < a
    ensures W > 0 && b + W <= a && (a - W) % W == 0
  {
    MulAdd(W, j, i - j);
    assert i > j by {
      if i <= j { MulAdd(W, i, j - i); }
    }
    MulAtLeast(W, i - j);
    MulAdd(W, i - 1, 1);
    DivModUnique(a - W, W, i - 1, 0);
  }

  /** The word loop of the aligned scanner: from one aligned address down to another. */
  method SkipWords(h: Host, s: seq<byte>, ptr: nat, W: nat, startWords: nat, from: nat)
    returns (end: nat, ghost wordBytes: nat, ghost stop: int)
    requires W == 4 || W == 8
    requires ptr <= startWords <= from <= ptr + |s|
    requires Aligned(startWords, W) && Aligned(from, W)
    requires SpacesBetween(s, from - ptr, |s|)
    ensures startWords <= end <= from
    ensures SpacesBetween(s, end - ptr, |s|)
    ensures end + wordBytes == from
    ensures -1 <= stop < end - ptr
    ensures stop >= 0 ==> s[stop] != SPACE
    ensures if end == startWords then stop == -1 else end - ptr - W <= stop
  {
    end, wordBytes, stop := from, 0, -1;
    while end > startWords
      invariant startWords <= end <= from && Aligned(end, W)
      invariant SpacesBetween(s, end - ptr, |s|)
      invariant end + wordBytes == from
      invariant stop == -1
    {
      WordBelow(end, startWords, W);
      var word := LoadWord(h, s, ptr, end - W, W);
      if word != SpaceWord(W) {
        stop := NonSpace(s, end - W - ptr, end - ptr);
        break;
      }
      end := end - W;
      wordBytes := wordBytes + W;
    }
  }

  /** The scanner that reads eight bytes at a time at any address; end counts from the start of s. */
  method SkipUnaligned(s: seq<byte>) returns (end: nat, ghost tailSteps: nat)
    ensures end == Trimmed(s)
    ensures tailSteps <= 7
  {
    end, tailSteps := |s|, 0;
    ghost var stop: int := -1;                   // index of a byte known not to be a space, if any
    while end >= 8
      invariant end <= |s|
      invariant SpacesBetween(s, end, |s|)
      invariant stop == -1
    {
      Word8At(s, end - 8);
      if Uint8korr(s[end - 8..]) != 0x2020_2020_2020_2020 {
        stop := NonSpace(s, end - 8, end);
        break;
      }
      end := end - 8;
    }
    ghost var tail := end;
    while end > 0 && s[end - 1] == SPACE
      invariant end <= tail
      invariant SpacesBetween(s, end, |s|)
      invariant tailSteps == tail - end
      invariant stop < end
    {
      end := end - 1;
      tailSteps := tailSteps + 1;
    }
    TrimmedUnique(s, end);
  }
}
