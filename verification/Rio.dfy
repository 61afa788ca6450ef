/**
  The chunked, checksummed stream of rio.h. A request is cut into chunks, each
  chunk goes to an all-or-nothing backend and into a running checksum, and the
  bytes are counted. Writing feeds the checksum before the backend call, reading
  after it, so the two leave different states behind a refusal.
 */
module Rio {
  import opened LittleEndian

  type u64 = x: nat | x < 0x1_0000_0000_0000_0000

  /** update_cksum: absent, or any function of the current checksum and the next byte. */
  datatype Update = NoUpdate | Update(step: (u64, byte) -> u64)

  /** The checksum after feeding it the first n bytes of s. */
  function FeedFirst(u: Update, c: u64, s: seq<byte>, n: nat): u64
    requires n <= |s|
  {
    if u.NoUpdate? || n == 0 then c else u.step(FeedFirst(u, c, s, n - 1), s[n - 1])
  }

  /** The checksum after feeding it the bytes s. */
  function Feed(u: Update, c: u64, s: seq<byte>): u64
  {
    FeedFirst(u, c, s, |s|)
  }

  lemma {:induction false} FeedFirstOfPrefix(u: Update, c: u64, s: seq<byte>, t: seq<byte>, n: nat)
    requires n <= |s|
    ensures FeedFirst(u, c, s + t, n) == FeedFirst(u, c, s, n)
  {
    if n > 0 {
      FeedFirstOfPrefix(u, c, s, t, n - 1);
    }
  }

  lemma {:induction false} FeedFirstConcat(u: Update, c: u64, s: seq<byte>, t: seq<byte>, n: nat)
    requires n <= |t|
    ensures FeedFirst(u, c, s + t, |s| + n) == FeedFirst(u, Feed(u, c, s), t, n)
  {
    if n == 0 {
      FeedFirstOfPrefix(u, c, s, t, |s|);
    } else {
      FeedFirstConcat(u, c, s, t, n - 1);
    }
  }

  /** Nothing fed leaves the checksum, and each byte is one step with that byte. */
  lemma FeedByte(u: Update, c: u64, s: seq<byte>, b: byte)
    ensures Feed(u, c, []) == c
    ensures Feed(u, c, s + [b]) == if u.Update? then u.step(Feed(u, c, s), b) else Feed(u, c, s)
  {
    FeedFirstOfPrefix(u, c, s, [b], |s|);
  }

  /** Without an update function the checksum stays as it is. */
  lemma NoUpdateFeeds(c: u64, s: seq<byte>)
    ensures Feed(NoUpdate, c, s) == c
  {
  }

  /** An update that counts i bytes, looks whether the next is x, and then stays. */
  function Spotter(i: nat, x: byte): Update
    requires i + 2 < B8
  {
    Update((c, b) => if c < i then c + 1 else if c > i then c else if b == x then i + 1 else i + 2)
  }

  lemma {:induction false} Spotted(i: nat, x: byte, s: seq<byte>, n: nat)
    requires i + 2 < B8 && n <= |s|
    ensures FeedFirst(Spotter(i, x), 0, s, n) == if n <= i then n else if s[i] == x then i + 1 else i + 2
  {
    if n > 0 {
      Spotted(i, x, s, n - 1);
    }
  }

  /** So every byte counts: two different strings are told apart by the checksum of some update. */
  lemma StringsToldApart(s: seq<byte>, t: seq<byte>)
    requires s != t && |s| + 2 < B8 && |t| + 2 < B8
    ensures exists u :: Feed(u, 0, s) != Feed(u, 0, t)
  {
    var i := FirstDifference(s, t);
    var x: byte := if i < |s| then s[i] else t[i];
    Spotted(i, x, s, |s|);
    Spotted(i, x, t, |t|);
    assert Feed(Spotter(i, x), 0, s) != Feed(Spotter(i, x), 0, t);
  }

  lemma FirstDifference(s: seq<byte>, t: seq<byte>) returns (i: nat)
    requires s != t
    ensures i <= |s| && i <= |t| && s[..i] == t[..i]
    ensures if i < |s| && i < |t| then s[i] != t[i] else i < |s| || i < |t|
  {
    i := 0;
    while i < |s| && i < |t| && s[i] == t[i]
      invariant i <= |s| && i <= |t| && s[..i] == t[..i]
    {
      i := i + 1;
    }
    assert s[..|s|] == s && t[..|t|] == t;
  }

  /** Feeding a block and then another is feeding the two joined. */
  lemma FeedConcat(u: Update, c: u64, s: seq<byte>, t: seq<byte>)
    ensures Feed(u, c, s + t) == Feed(u, Feed(u, c, s), t)
  {
    FeedFirstConcat(u, c, s, t, |t|);
  }

  /** Result of one backend call. A refused block may still have moved a prefix of its bytes. */
  datatype Answer = Complete | Refused(landed: nat)

  function Min(a: nat, b: nat): nat { if a < b then a else b }

  /** Call number n moves a whole block of len bytes when the backend can still move room bytes. */
  predicate Accepts(replies: nat -> Answer, n: nat, len: nat, room: nat)
  {
    len <= room && replies(n).Complete?
  }

  /** The bytes that a refused call number n moved all the same. */
  function Landed(replies: nat -> Answer, n: nat, len: nat, room: nat): (k: nat)
    ensures k <= len && k <= room
  {
    if replies(n).Refused? then Min(replies(n).landed, Min(len, room)) else 0
  }

  /** The backend behind the function pointers: a log of bytes with a read position. */
  class Backend {
    const replies: nat -> Answer
    var calls: nat
    var log: seq<byte>
    var pos: nat

    constructor (replies: nat -> Answer, log: seq<byte>, pos: nat)
      requires pos <= |log|
      ensures this.replies == replies && this.log == log && this.pos == pos && calls == 0
    {
      this.replies, this.log, this.pos, calls := replies, log, pos, 0;
    }

    method Write(block: seq<byte>) returns (ok: bool)
      modifies this
      ensures calls == old(calls) + 1 && pos == old(pos)
      ensures ok == Accepts(replies, old(calls), |block|, |block|)
      ensures log == old(log) + (if ok then block else block[..Landed(replies, old(calls), |block|, |block|)])
    {
      ok := Accepts(replies, calls, |block|, |block|);
      log := log + (if ok then block else block[..Landed(replies, calls, |block|, |block|)]);
      calls := calls + 1;
    }

    method Read(buf: array<byte>, off: nat, len: nat) returns (ok: bool)
      requires off + len <= buf.Length && pos <= |log|
      modifies this, buf
      ensures calls == old(calls) + 1 && log == old(log)
      ensures ok == Accepts(replies, old(calls), len, |log| - old(pos))
      ensures pos == old(pos) + (if ok then len else Landed(replies, old(calls), len, |log| - old(pos))) <= |log|
      ensures buf[off..off + (pos - old(pos))] == log[old(pos)..pos]
      ensures forall i :: 0 <= i < buf.Length && !(off <= i < off + len) ==> buf[i] == old(buf[i])
    {
      ok := Accepts(replies, calls, len, |log| - pos);
      var moved := if ok then len else Landed(replies, calls, len, |log| - pos);
      forall i | 0 <= i < moved {
        buf[off + i] := log[pos + i];
      }
      assert buf[off..off + moved] == log[pos..pos + moved];
      pos := pos + moved;
      calls := calls + 1;
    }
  }

  /** The size of the next chunk when left bytes remain. */
  function Chunk(max: nat, left: nat): (n: nat)
    ensures n <= left && (left > 0 ==> n > 0)
  {
    if max != 0 && max < left then max else left
  }

  /** How many chunks a request of len bytes is cut into. */
  function Chunks(max: nat, len: nat): nat
    decreases len
  {
    if len == 0 then 0 else 1 + Chunks(max, len - Chunk(max, len))
  }

  /**
    How far a request gets: done bytes were accepted chunk by chunk; if a chunk of
    tried bytes was then refused, landed of them moved nevertheless; calls is the
    backend's call count afterwards.
   */
  datatype Progress = Progress(done: nat, tried: nat, landed: nat, calls: nat)

  function Advance(replies: nat -> Answer, room: nat, calls: nat, max: nat, len: nat): (p: Progress)
    ensures p.landed <= p.tried && p.done + p.tried <= len && p.done + p.landed <= room
    decreases len
  {
    if len == 0 then Progress(0, 0, 0, calls)
    else
      var n := Chunk(max, len);
      if Accepts(replies, calls, n, room) then
        Shift(Advance(replies, room - n, calls + 1, max, len - n), n)
      else
        Progress(0, n, Landed(replies, calls, n, room), calls + 1)
  }

  function Shift(p: Progress, n: nat): Progress { p.(done := n + p.done) }

  /** Room beyond the request makes no difference. */
  lemma {:induction false} RoomIrrelevant(replies: nat -> Answer, room: nat, room': nat, calls: nat, max: nat, len: nat)
    requires len <= room && len <= room'
    ensures Advance(replies, room, calls, max, len) == Advance(replies, room', calls, max, len)
    decreases len
  {
    if len == 0 {
    } else {
      var n := Chunk(max, len);
      RoomIrrelevant(replies, room - n, room' - n, calls + 1, max, len - n);
    }
  }

  /**
    No chunk exceeds a chunk size that is set, and each but the last has exactly that size;
    where none is set there is one chunk.
   */
  lemma ChunkBounded(max: nat, left: nat)
    ensures max != 0 ==> Chunk(max, left) <= max
    ensures max != 0 && Chunk(max, left) < left ==> Chunk(max, left) == max
    ensures max == 0 || left <= max ==> Chunk(max, left) == left
  {
  }

  /** So a request is cut into as few chunks as that allows: its length over max, rounded up. */
  lemma {:induction false} ChunksAreFew(max: nat, len: nat)
    ensures max == 0 ==> Chunks(max, len) == if len == 0 then 0 else 1
    ensures max != 0 ==> max * Chunks(max, len) < len + max
    ensures max != 0 ==> len <= max * Chunks(max, len)
    decreases len
  {
    if len > 0 {
      ChunksAreFew(max, len - Chunk(max, len));
      MulAdd(max, 1, Chunks(max, len - Chunk(max, len)));
    }
  }

  /** What stops a request short of its end: one refused chunk of the size the cut prescribes. */
  lemma {:induction false} RefusedChunk(replies: nat -> Answer, room: nat, calls: nat, max: nat, len: nat)
    ensures var p := Advance(replies, room, calls, max, len);
            if p.done < len then
              && p.tried == Chunk(max, len - p.done)
              && p.calls > calls
              && !Accepts(replies, p.calls - 1, p.tried, room - p.done)
              && p.landed == Landed(replies, p.calls - 1, p.tried, room - p.done)
            else
              p.tried == p.landed == 0
    decreases len
  {
    if len == 0 {
    } else {
      var n := Chunk(max, len);
      if Accepts(replies, calls, n, room) {
        RefusedChunk(replies, room - n, calls + 1, max, len - n);
      }
    }
  }

  /** Chunk i starts max*i bytes into the request and is answered by call number calls+i. */
  predicate ChunkAccepted(replies: nat -> Answer, room: nat, calls: nat, max: nat, len: nat, i: nat)
  {
    max * i <= len && max * i <= room && Accepts(replies, calls + i, Chunk(max, len - max * i), room - max * i)
  }

  /** A request is completed exactly when the backend accepts each of its chunks. */
  lemma {:induction false} CompletedIff(replies: nat -> Answer, room: nat, calls: nat, max: nat, len: nat)
    ensures Advance(replies, room, calls, max, len).done == len
            <==> forall i: nat :: i < Chunks(max, len) ==> ChunkAccepted(replies, room, calls, max, len, i)
    decreases len
  {
    if len == 0 {
    } else {
      var n := Chunk(max, len);
      assert ChunkAccepted(replies, room, calls, max, len, 0) <==> Accepts(replies, calls, n, room);
      if n <= room {
        var room', calls', len' := room - n, calls + 1, len - n;
        CompletedIff(replies, room', calls', max, len');
        forall i: nat | 0 < i < Chunks(max, len)
          ensures ChunkAccepted(replies, room, calls, max, len, i)
                  <==> ChunkAccepted(replies, room', calls', max, len', i - 1)
        {
          NextChunk(replies, room, calls, max, len, i);
        }
        forall i: nat | i < Chunks(max, len')
          ensures ChunkAccepted(replies, room', calls', max, len', i)
                  <==> ChunkAccepted(replies, room, calls, max, len, i + 1)
        {
          NextChunk(replies, room, calls, max, len, i + 1);
        }
      }
    }
  }

  lemma NextChunk(replies: nat -> Answer, room: nat, calls: nat, max: nat, len: nat, i: nat)
    requires 0 < i < Chunks(max, len) && Chunk(max, len) <= room
    ensures var n := Chunk(max, len);
            ChunkAccepted(replies, room, calls, max, len, i)
            <==> ChunkAccepted(replies, room - n, calls + 1, max, len - n, i - 1)
  {
    assert max != 0 && max < len;
    MulAdd(max, i - 1, 1);
  }

  // ---- the state of a stream and what one call does to it ----

  datatype State = State(cksum: u64, counted: nat, log: seq<byte>, pos: nat, calls: nat)

  datatype Env = Env(update: Update, replies: nat -> Answer)

  function WriteProgress(e: Env, s: State, max: nat, len: nat): (p: Progress)
    ensures p.landed <= p.tried && p.done + p.tried <= len
  {
    Advance(e.replies, len, s.calls, max, len)
  }

  /** What a write left behind: the bytes of its accepted chunks, and of the one chunk refused, if any. */
  datatype WriteResult = WriteResult(state: State, ok: bool, accepted: seq<byte>, refused: seq<byte>)

  /** The outcome in terms of the bytes accepted and refused. */
  function Outcome(u: Update, s: State, p: Progress, ok: bool, accepted: seq<byte>, refused: seq<byte>): WriteResult
    requires p.landed <= |refused|
  {
    WriteResult(State(Feed(u, Feed(u, s.cksum, accepted), refused), s.counted + p.done,
                      s.log + accepted + refused[..p.landed], s.pos, p.calls),
                ok, accepted, refused)
  }

  /** The outcome of a write of buf that got as far as p. */
  function Written(u: Update, s: State, buf: seq<byte>, p: Progress): WriteResult
    requires p.landed <= p.tried && p.done + p.tried <= |buf|
  {
    Outcome(u, s, p, p.done == |buf|, buf[..p.done], buf[p.done..p.done + p.tried])
  }

  function WriteOf(e: Env, s: State, max: nat, buf: seq<byte>): WriteResult
  {
    Written(e.update, s, buf, WriteProgress(e, s, max, |buf|))
  }

  predicate Readable(s: State) { s.pos <= |s.log| }

  function ReadProgress(e: Env, s: State, max: nat, len: nat): (p: Progress)
    requires Readable(s)
    ensures p.done + p.tried <= len && p.landed <= p.tried
    ensures s.pos + p.done + p.landed <= |s.log|
  {
    Advance(e.replies, |s.log| - s.pos, s.calls, max, len)
  }

  /** What a read left behind: the bytes of its accepted chunks. */
  datatype ReadResult = ReadResult(state: State, ok: bool, data: seq<byte>)

  /** The outcome of a read of len bytes that got as far as p; p.landed bytes of a refused chunk are lost. */
  function Taken(u: Update, s: State, len: nat, p: Progress): ReadResult
    requires s.pos + p.done + p.landed <= |s.log|
  {
    var data := s.log[s.pos..s.pos + p.done];
    ReadResult(State(Feed(u, s.cksum, data),
                     s.counted + p.done,
                     s.log,
                     s.pos + p.done + p.landed,
                     p.calls),
               p.done == len, data)
  }

  function ReadOf(e: Env, s: State, max: nat, len: nat): (r: ReadResult)
    requires Readable(s)
    ensures Readable(r.state) && r.state.log == s.log
  {
    Taken(e.update, s, len, ReadProgress(e, s, max, len))
  }

  // ---- the loops, one chunk at a time, and what they add up to ----

  /** One turn of the writing loop: checksum, then backend, then count. */
  function WriteChunk(e: Env, s: State, block: seq<byte>): (State, bool)
  {
    var n := |block|;
    var c := Feed(e.update, s.cksum, block);
    if Accepts(e.replies, s.calls, n, n) then
      (State(c, s.counted + n, s.log + block, s.pos, s.calls + 1), true)
    else
      (State(c, s.counted, s.log + block[..Landed(e.replies, s.calls, n, n)], s.pos, s.calls + 1), false)
  }

  function WriteLoop(e: Env, s: State, max: nat, buf: seq<byte>): WriteResult
    decreases |buf|
  {
    if buf == [] then WriteResult(s, true, [], [])
    else
      var block := buf[..Chunk(max, |buf|)];
      var (t, ok) := WriteChunk(e, s, block);
      if ok then
        var rest := WriteLoop(e, t, max, buf[|block|..]);
        rest.(accepted := block + rest.accepted)
      else
        WriteResult(t, false, [], block)
  }

  /** One turn of the reading loop: backend, then checksum, then count. */
  function ReadChunk(e: Env, s: State, n: nat): (r: (State, bool))
    requires Readable(s)
    ensures Readable(r.0) && r.0.log == s.log
  {
    var room := |s.log| - s.pos;
    if Accepts(e.replies, s.calls, n, room) then
      (State(Feed(e.update, s.cksum, s.log[s.pos..s.pos + n]), s.counted + n, s.log, s.pos + n, s.calls + 1), true)
    else
      (s.(pos := s.pos + Landed(e.replies, s.calls, n, room), calls := s.calls + 1), false)
  }

  function ReadLoop(e: Env, s: State, max: nat, len: nat): ReadResult
    requires Readable(s)
    decreases len
  {
    if len == 0 then ReadResult(s, true, [])
    else
      var n := Chunk(max, len);
      var (t, ok) := ReadChunk(e, s, n);
      if ok then
        var rest := ReadLoop(e, t, max, len - n);
        rest.(data := s.log[s.pos..t.pos] + rest.data)
      else
        ReadResult(t, false, [])
  }

  lemma WriteStep(e: Env, s: State, t: State, max: nat, len: nat, n: nat)
    requires len > 0 && n == Chunk(max, len)
    requires Accepts(e.replies, s.calls, n, n) && t.calls == s.calls + 1
    ensures WriteProgress(e, s, max, len) == Shift(WriteProgress(e, t, max, len - n), n)
  {
    RoomIrrelevant(e.replies, len, len - n, t.calls, max, len - n);
    assert Accepts(e.replies, s.calls, n, len);
  }

  lemma WriteStop(e: Env, s: State, max: nat, len: nat, n: nat)
    requires len > 0 && n == Chunk(max, len)
    requires !Accepts(e.replies, s.calls, n, n)
    ensures WriteProgress(e, s, max, len) == Progress(0, n, Landed(e.replies, s.calls, n, n), s.calls + 1)
  {
    assert !Accepts(e.replies, s.calls, n, len);
  }

  lemma WrittenMore(u: Update, s: State, t: State, buf: seq<byte>, n: nat, p: Progress)
    requires p.landed <= p.tried && n + p.done + p.tried <= |buf|
    requires t == State(Feed(u, s.cksum, buf[..n]), s.counted + n, s.log + buf[..n], s.pos, s.calls + 1)
    ensures var rest := Written(u, t, buf[n..], p);
            Written(u, s, buf, Shift(p, n)) == rest.(accepted := buf[..n] + rest.accepted)
  {
    var a, r := buf[n..][..p.done], buf[n..][p.done..p.done + p.tried];
    SliceShift(buf, n, 0, p.done);
    SliceShift(buf, n, p.done, p.done + p.tried);
    SliceJoin(buf, 0, n, n + p.done);
    WrittenFrom(u, s, t, buf[..n], a, r, p);
    WrittenAs(u, s, buf, Shift(p, n), buf[..n] + a, r);
  }

  lemma WrittenAs(u: Update, s: State, buf: seq<byte>, p: Progress, accepted: seq<byte>, refused: seq<byte>)
    requires p.landed <= p.tried && p.done + p.tried <= |buf|
    requires accepted == buf[..p.done] && refused == buf[p.done..p.done + p.tried]
    ensures Written(u, s, buf, p) == Outcome(u, s, p, p.done == |buf|, accepted, refused)
  {
  }

  /** The parts of a write that come after first, from the state t that first leads to. */
  lemma WrittenFrom(u: Update, s: State, t: State, first: seq<byte>, accepted: seq<byte>, refused: seq<byte>,
                    p: Progress)
    requires t == State(Feed(u, s.cksum, first), s.counted + |first|, s.log + first, s.pos, s.calls + 1)
    requires p.landed <= |refused|
    ensures forall ok :: Outcome(u, s, Shift(p, |first|), ok, first + accepted, refused)
                      == Outcome(u, t, p, ok, accepted, refused).(accepted := first + accepted)
  {
    FeedConcat(u, s.cksum, first, accepted);
    JoinThree(s.log, first, accepted);
  }

  lemma WriteOfStep(e: Env, s: State, t: State, max: nat, buf: seq<byte>, n: nat)
    requires buf != [] && n == Chunk(max, |buf|)
    requires WriteChunk(e, s, buf[..n]) == (t, true)
    ensures var rest := WriteOf(e, t, max, buf[n..]);
            WriteOf(e, s, max, buf) == rest.(accepted := buf[..n] + rest.accepted)
  {
    WriteStep(e, s, t, max, |buf|, n);
    WrittenMore(e.update, s, t, buf, n, WriteProgress(e, t, max, |buf| - n));
  }

  lemma WriteOfStop(e: Env, s: State, t: State, max: nat, buf: seq<byte>, n: nat)
    requires buf != [] && n == Chunk(max, |buf|)
    requires WriteChunk(e, s, buf[..n]) == (t, false)
    ensures WriteOf(e, s, max, buf) == WriteResult(t, false, [], buf[..n])
  {
    WriteStop(e, s, max, |buf|, n);
    assert s.log + buf[..0] == s.log;
  }

  /** The writing loop adds up to one transfer of the bytes its progress names. */
  lemma {:induction false} WriteLoopOutcome(e: Env, s: State, max: nat, buf: seq<byte>)
    ensures WriteLoop(e, s, max, buf) == WriteOf(e, s, max, buf)
    decreases |buf|
  {
    if buf == [] {
      assert s.log + buf[..0] + buf[..0] == s.log;
    } else {
      var n := Chunk(max, |buf|);
      var (t, ok) := WriteChunk(e, s, buf[..n]);
      if ok {
        WriteOfStep(e, s, t, max, buf, n);
        WriteLoopOutcome(e, t, max, buf[n..]);
      } else {
        WriteOfStop(e, s, t, max, buf, n);
      }
    }
  }

  lemma ReadStep(e: Env, s: State, t: State, max: nat, len: nat, n: nat)
    requires Readable(s) && len > 0 && n == Chunk(max, len)
    requires Accepts(e.replies, s.calls, n, |s.log| - s.pos)
    requires t.log == s.log && t.pos == s.pos + n && t.calls == s.calls + 1
    ensures var p := ReadProgress(e, t, max, len - n);
            && ReadProgress(e, s, max, len) == Shift(p, n)
            && s.pos + n + p.done + p.landed <= |s.log|
  {
  }

  lemma ReadOfStop(e: Env, s: State, t: State, max: nat, len: nat, n: nat)
    requires Readable(s) && len > 0 && n == Chunk(max, len)
    requires ReadChunk(e, s, n) == (t, false)
    ensures ReadOf(e, s, max, len) == ReadResult(t, false, [])
  {
    assert s.log[s.pos..s.pos] == [];
  }

  lemma TakenMore(u: Update, s: State, t: State, len: nat, n: nat, p: Progress)
    requires n <= len && s.pos + n + p.done + p.landed <= |s.log|
    requires t == State(Feed(u, s.cksum, s.log[s.pos..s.pos + n]), s.counted + n, s.log, s.pos + n, s.calls + 1)
    ensures var rest := Taken(u, t, len - n, p);
            Taken(u, s, len, Shift(p, n)) == rest.(data := s.log[s.pos..t.pos] + rest.data)
  {
    var k := t.pos + p.done;
    FeedSlices(u, s.cksum, s.log, s.pos, t.pos, k);
    TakenUpTo(u, s, len, Shift(p, n), k);
    TakenUpTo(u, t, len - n, p, k);
    SameTaken(Taken(u, s, len, Shift(p, n)), Taken(u, t, len - n, p), s.log[s.pos..t.pos]);
  }

  lemma TakenUpTo(u: Update, s: State, len: nat, p: Progress, k: nat)
    requires k == s.pos + p.done && k + p.landed <= |s.log|
    ensures Taken(u, s, len, p).data == s.log[s.pos..k]
    ensures Taken(u, s, len, p).state.cksum == Feed(u, s.cksum, s.log[s.pos..k])
  {
  }

  lemma SameTaken(whole: ReadResult, rest: ReadResult, first: seq<byte>)
    requires whole.data == first + rest.data && whole.ok == rest.ok
    requires whole.state.cksum == rest.state.cksum && whole.state.counted == rest.state.counted
    requires whole.state.log == rest.state.log && whole.state.pos == rest.state.pos
    requires whole.state.calls == rest.state.calls
    ensures whole == rest.(data := first + rest.data)
  {
  }

  lemma FeedSlices(u: Update, c: u64, log: seq<byte>, i: nat, j: nat, k: nat)
    requires i <= j <= k <= |log|
    ensures log[i..k] == log[i..j] + log[j..k]
    ensures Feed(u, c, log[i..k]) == Feed(u, Feed(u, c, log[i..j]), log[j..k])
  {
    SliceJoin(log, i, j, k);
    FeedConcat(u, c, log[i..j], log[j..k]);
  }

  lemma ReadChunkState(e: Env, s: State, n: nat)
    requires Readable(s) && Accepts(e.replies, s.calls, n, |s.log| - s.pos)
    ensures ReadChunk(e, s, n) ==
            (State(Feed(e.update, s.cksum, s.log[s.pos..s.pos + n]), s.counted + n, s.log, s.pos + n, s.calls + 1),
             true)
  {
  }

  lemma ReadOfStep(e: Env, s: State, t: State, max: nat, len: nat, n: nat)
    requires Readable(s) && len > 0 && n == Chunk(max, len)
    requires ReadChunk(e, s, n) == (t, true)
    ensures t.pos == s.pos + n && t.log == s.log && Readable(t)
    ensures var rest := ReadOf(e, t, max, len - n);
            ReadOf(e, s, max, len) == rest.(data := s.log[s.pos..t.pos] + rest.data)
  {
    ReadChunkState(e, s, n);
    ReadStep(e, s, t, max, len, n);
    TakenMore(e.update, s, t, len, n, ReadProgress(e, t, max, len - n));
  }

  lemma ReadLoopTurn(e: Env, s: State, t: State, ok: bool, max: nat, len: nat, n: nat)
    requires Readable(s) && len > 0 && n == Chunk(max, len)
    requires ReadChunk(e, s, n) == (t, ok)
    ensures var r := ReadLoop(e, s, max, len);
            if ok then
              && t.pos == s.pos + n <= |s.log|
              && var rest := ReadLoop(e, t, max, len - n); r == rest.(data := s.log[s.pos..t.pos] + rest.data)
            else
              r == ReadResult(t, false, [])
  {
  }

  /** The reading loop adds up to one transfer of the bytes its progress names. */
  lemma {:induction false} ReadLoopOutcome(e: Env, s: State, max: nat, len: nat)
    requires Readable(s)
    ensures ReadLoop(e, s, max, len) == ReadOf(e, s, max, len)
    decreases len
  {
    if len == 0 {
      assert s.log[s.pos..s.pos] == [];
    } else {
      var n := Chunk(max, len);
      var (t, ok) := ReadChunk(e, s, n);
      if ok {
        ReadChunkReadable(e, s, t, n);
        ReadLoopOutcome(e, t, max, len - n);
        ReadLoopGoesOn(e, s, t, max, len, n);
      } else {
        ReadLoopTurn(e, s, t, false, max, len, n);
        ReadOfStop(e, s, t, max, len, n);
      }
    }
  }

  lemma ReadChunkReadable(e: Env, s: State, t: State, n: nat)
    requires Readable(s) && ReadChunk(e, s, n) == (t, true)
    ensures Readable(t)
  {
  }

  lemma ReadLoopGoesOn(e: Env, s: State, t: State, max: nat, len: nat, n: nat)
    requires Readable(s) && Readable(t) && len > 0 && n == Chunk(max, len) && ReadChunk(e, s, n) == (t, true)
    requires ReadLoop(e, t, max, len - n) == ReadOf(e, t, max, len - n)
    ensures ReadLoop(e, s, max, len) == ReadOf(e, s, max, len)
  {
    ReadLoopTurn(e, s, t, true, max, len, n);
    ReadOfStep(e, s, t, max, len, n);
  }

  /** A write in progress: sent bytes have been accepted and rest is still to go, towards the result total. */
  ghost predicate Sending(e: Env, s: State, max: nat, rest: seq<byte>, sent: seq<byte>, total: WriteResult)
  {
    var r := WriteLoop(e, s, max, rest);
    total == r.(accepted := sent + r.accepted)
  }

  lemma SendingTurn(e: Env, s: State, t: State, ok: bool, max: nat, rest: seq<byte>, n: nat,
                    sent: seq<byte>, total: WriteResult)
    requires rest != [] && n == Chunk(max, |rest|) && Sending(e, s, max, rest, sent, total)
    requires WriteChunk(e, s, rest[..n]) == (t, ok)
    ensures if ok then Sending(e, t, max, rest[n..], sent + rest[..n], total)
            else total == WriteResult(t, false, sent, rest[..n])
  {
    if ok {
      var after := WriteLoop(e, t, max, rest[n..]);
      assert sent + (rest[..n] + after.accepted) == sent + rest[..n] + after.accepted;
    }
  }

  /** A read in progress: got bytes have been delivered and left are still to come, towards the result total. */
  ghost predicate Taking(e: Env, s: State, max: nat, left: nat, got: seq<byte>, total: ReadResult)
  {
    Readable(s) &&
    var r := ReadLoop(e, s, max, left);
    total == r.(data := got + r.data)
  }

  lemma TakingTurn(e: Env, s: State, t: State, ok: bool, max: nat, left: nat, n: nat, got: seq<byte>, total: ReadResult)
    requires left > 0 && n == Chunk(max, left) && Taking(e, s, max, left, got, total)
    requires ReadChunk(e, s, n) == (t, ok)
    ensures if ok then
              && t.pos == s.pos + n <= |s.log|
              && Taking(e, t, max, left - n, got + s.log[s.pos..t.pos], total)
            else
              total == ReadResult(t, false, got)
  {
    if ok {
      var after := ReadLoop(e, t, max, left - n);
      assert got + (s.log[s.pos..t.pos] + after.data) == got + s.log[s.pos..t.pos] + after.data;
    }
  }

  lemma TakingEnds(e: Env, s: State, max: nat, got: seq<byte>, total: ReadResult)
    requires Taking(e, s, max, 0, got, total)
    ensures total == ReadResult(s, true, got)
  {
  }

  class Stream {
    var cksum: u64
    var processedBytes: u64
    ghost var counted: nat                       // all bytes ever moved; processedBytes is its size_t image
    var maxProcessingChunk: nat
    const update: Update
    const io: Backend

    constructor (update: Update, io: Backend, cksum: u64, maxProcessingChunk: nat)
      ensures this.update == update && this.io == io && this.cksum == cksum
      ensures Valid() && counted == 0 && this.maxProcessingChunk == maxProcessingChunk
    {
      this.update, this.io, this.cksum := update, io, cksum;
      processedBytes, counted, this.maxProcessingChunk := 0, 0, maxProcessingChunk;
    }

    ghost predicate Valid()
      reads this
    {
      processedBytes == counted % B8
    }

    /** The line of both loops that counts n more bytes in a size_t. */
    method Tally(n: nat)
      requires Valid()
      modifies this`processedBytes, this`counted
      ensures Valid() && counted == old(counted) + n
    {
      processedBytes := (processedBytes + n) % B8;
      counted := counted + n;
    }

    ghost function Now(): State
      reads this, io
    {
      State(cksum, counted, io.log, io.pos, io.calls)
    }

    ghost function Here(): Env
    {
      Env(update, io.replies)
    }

    /** The loop of rioWrite; total is the result it works towards. */
    method SendAll(buf: seq<byte>, ghost total: WriteResult) returns (ok: bool)
      requires Valid() && Sending(Here(), Now(), maxProcessingChunk, buf, [], total)
      modifies this`cksum, this`processedBytes, this`counted, io
      ensures Valid() && total.state == Now() && total.ok == ok
    {
      var rest := buf;
      ghost var s, sent := Now(), [];
      while rest != []
        invariant Valid() && s == Now()
        invariant Sending(Here(), s, maxProcessingChunk, rest, sent, total)
        decreases |rest|
      {
        var n := Chunk(maxProcessingChunk, |rest|);
        if update.Update? {
          cksum := Feed(update, cksum, rest[..n]);
        }
        var accepted := io.Write(rest[..n]);
        if accepted {
          Tally(n);
        }
        ghost var t := Now();
        assert WriteChunk(Here(), s, rest[..n]) == (t, accepted);
        SendingTurn(Here(), s, t, accepted, maxProcessingChunk, rest, n, sent, total);
        if !accepted {
          return false;
        }
        s, sent := t, sent + rest[..n];
        rest := rest[n..];
      }
      return true;
    }

    /** rioWrite: the new state and the answer are those of one transfer, whatever the chunk size. */
    method Write(buf: seq<byte>) returns (ok: bool)
      requires Valid() && |buf| < B8
      modifies this`cksum, this`processedBytes, this`counted, io
      ensures Valid()
      ensures var r := WriteOf(Here(), old(Now()), maxProcessingChunk, buf);
              Now() == r.state && ok == r.ok
    {
      WriteLoopOutcome(Here(), Now(), maxProcessingChunk, buf);
      ok := SendAll(buf, WriteLoop(Here(), Now(), maxProcessingChunk, buf));
    }

    /** One turn of the reading loop. */
    method ReadBlock(buf: array<byte>, off: nat, n: nat, ghost s: State) returns (ok: bool, ghost t: State)
      requires off + n <= buf.Length
      requires Valid() && s == Now() && Readable(s)
      modifies this`cksum, this`processedBytes, this`counted, io, buf
      ensures Valid() && t == Now() && ReadChunk(Here(), s, n) == (t, ok)
      ensures ok ==> t.pos == s.pos + n <= |s.log|
      ensures ok ==> buf[..off + n] == old(buf[..off]) + s.log[s.pos..t.pos]
      ensures forall i :: 0 <= i < buf.Length && !(off <= i < off + n) ==> buf[i] == old(buf[i])
    {
      ok := io.Read(buf, off, n);
      t := Now();
      if !ok {
        return;
      }
      assert buf[..off] == old(buf[..off]);
      assert buf[..off + n] == buf[..off] + buf[off..off + n];
      assert buf[off..off + n] == s.log[s.pos..s.pos + n];
      if update.Update? {
        cksum := Feed(update, cksum, buf[off..off + n]);
      }
      Tally(n);
      t := Now();
    }

    /** One turn of the loop, with left bytes to go towards the result total. */
    method TakeBlock(buf: array<byte>, off: nat, left: nat, ghost total: ReadResult)
      returns (ok: bool, off': nat, left': nat)
      requires left > 0 && off + left <= buf.Length
      requires Valid() && Taking(Here(), Now(), maxProcessingChunk, left, buf[..off], total)
      modifies this`cksum, this`processedBytes, this`counted, io, buf
      ensures Valid() && off' + left' == off + left
      ensures if ok then left' < left && Taking(Here(), Now(), maxProcessingChunk, left', buf[..off'], total)
              else off' == off && total == ReadResult(Now(), false, buf[..off])
      ensures forall i :: off + left <= i < buf.Length ==> buf[i] == old(buf[i])
    {
      ghost var s, got, t := Now(), buf[..off], Now();
      var n := Chunk(maxProcessingChunk, left);
      ok, t := ReadBlock(buf, off, n, s);
      TakingTurn(Here(), s, t, ok, maxProcessingChunk, left, n, got, total);
      if !ok {
        return false, off, left;
      }
      off', left' := off + n, left - n;
      assert buf[..off'] == got + s.log[s.pos..t.pos];
    }

    /** The loop of rioRead; total is the result it works towards. */
    method TakeAll(buf: array<byte>, len: nat, ghost total: ReadResult) returns (ok: bool)
      requires len <= buf.Length
      requires Valid() && Taking(Here(), Now(), maxProcessingChunk, len, [], total)
      modifies this`cksum, this`processedBytes, this`counted, io, buf
      ensures Valid() && total.state == Now() && total.ok == ok
      ensures total.data <= buf[..len]
      ensures forall i :: len <= i < buf.Length ==> buf[i] == old(buf[i])
    {
      var off: nat, left: nat := 0, len;
      assert buf[..0] == [];
      while left != 0
        invariant off + left == len
        invariant Valid() && Taking(Here(), Now(), maxProcessingChunk, left, buf[..off], total)
        invariant forall i :: len <= i < buf.Length ==> buf[i] == old(buf[i])
        decreases left
      {
        var accepted;
        accepted, off, left := TakeBlock(buf, off, left, total);
        if !accepted {
          assert buf[..off] <= buf[..len];
          return false;
        }
      }
      TakingEnds(Here(), Now(), maxProcessingChunk, buf[..off], total);
      return true;
    }

    /** rioRead: one transfer into the start of buf; bytes of buf beyond len are not touched. */
    method Read(buf: array<byte>, len: nat) returns (ok: bool)
      requires len <= buf.Length && len < B8
      requires Valid() && Readable(Now())
      modifies this`cksum, this`processedBytes, this`counted, io, buf
      ensures Valid()
      ensures var r := ReadOf(Here(), old(Now()), maxProcessingChunk, len);
              Now() == r.state && ok == r.ok && r.data <= buf[..len]
      ensures forall i :: len <= i < buf.Length ==> buf[i] == old(buf[i])
    {
      ReadLoopOutcome(Here(), Now(), maxProcessingChunk, len);
      ok := TakeAll(buf, len, ReadLoop(Here(), Now(), maxProcessingChunk, len));
    }
  }
}
