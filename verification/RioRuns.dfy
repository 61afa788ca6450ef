/**
  Whole runs of writes and reads on a stream, with any chunk sizes, changing
  between calls, and any pattern of refusals.
 */
module RioRuns {
  import opened LittleEndian
  import opened Rio

  datatype Put = Put(max: nat, data: seq<byte>)

  datatype Get = Get(max: nat, len: nat)

  /** A run of writes: the final state, whether all completed, the bytes accepted and the bytes fed to the checksum. */
  datatype Sent = Sent(state: State, ok: bool, accepted: seq<byte>, fed: seq<byte>)

  function SendRun(e: Env, s: State, puts: seq<Put>): Sent
    decreases puts
  {
    if puts == [] then Sent(s, true, [], [])
    else
      var w := WriteOf(e, s, puts[0].max, puts[0].data);
      var rest := SendRun(e, w.state, puts[1..]);
      Sent(rest.state, w.ok && rest.ok, w.accepted + rest.accepted, w.accepted + w.refused + rest.fed)
  }

  /** A run of reads: the final state, whether all completed, and the bytes delivered. */
  function TakeRun(e: Env, s: State, gets: seq<Get>): (r: ReadResult)
    requires Readable(s)
    ensures Readable(r.state) && r.state.log == s.log
    decreases gets
  {
    if gets == [] then ReadResult(s, true, [])
    else
      var t := ReadOf(e, s, gets[0].max, gets[0].len);
      var rest := TakeRun(e, t.state, gets[1..]);
      ReadResult(rest.state, t.ok && rest.ok, t.data + rest.data)
  }

  function AllData(puts: seq<Put>): seq<byte>
  {
    if puts == [] then [] else puts[0].data + AllData(puts[1..])
  }

  function AllLen(gets: seq<Get>): nat
  {
    if gets == [] then 0 else gets[0].len + AllLen(gets[1..])
  }

  /**
    Reading, over any mix of completed and refused calls: the checksum covers
    exactly the bytes delivered, and the counter counts exactly them.
   */
  lemma {:induction false} ReadsKeepChecksum(e: Env, s: State, gets: seq<Get>)
    requires Readable(s)
    ensures var r := TakeRun(e, s, gets);
            && r.state.cksum == Feed(e.update, s.cksum, r.data)
            && r.state.counted == s.counted + |r.data|
            && |r.data| <= AllLen(gets)
    decreases gets
  {
    if gets == [] {
    } else {
      var t := ReadOf(e, s, gets[0].max, gets[0].len);
      ReadsKeepChecksum(e, t.state, gets[1..]);
      var rest := TakeRun(e, t.state, gets[1..]);
      FeedConcat(e.update, s.cksum, t.data, rest.data);
    }
  }

  /** A read that completes hands over exactly the next len bytes. */
  lemma CompletedRead(e: Env, s: State, max: nat, len: nat)
    requires Readable(s) && ReadOf(e, s, max, len).ok
    ensures var r := ReadOf(e, s, max, len);
            r.state.pos == s.pos + len && r.data == s.log[s.pos..s.pos + len]
  {
    RefusedChunk(e.replies, |s.log| - s.pos, s.calls, max, len);
  }

  lemma StretchesJoin(log: seq<byte>, i: nat, j: nat, k: nat, d: seq<byte>, d': seq<byte>)
    requires i <= j <= k <= |log| && d == log[i..j] && d' == log[j..k]
    ensures d + d' == log[i..k]
  {
    SliceJoin(log, i, j, k);
  }

  /** A run of reads that all complete delivers the next bytes of the source, in order, and nothing is lost. */
  lemma {:induction false} CompletedReads(e: Env, s: State, gets: seq<Get>)
    requires Readable(s) && TakeRun(e, s, gets).ok
    ensures var r := TakeRun(e, s, gets);
            && r.state.pos == s.pos + AllLen(gets)
            && r.data == s.log[s.pos..s.pos + AllLen(gets)]
    decreases gets
  {
    if gets == [] {
    } else {
      var t := ReadOf(e, s, gets[0].max, gets[0].len);
      CompletedRead(e, s, gets[0].max, gets[0].len);
      CompletedReads(e, t.state, gets[1..]);
      var rest := TakeRun(e, t.state, gets[1..]);
      StretchesJoin(s.log, s.pos, t.state.pos, t.state.pos + AllLen(gets[1..]), t.data, rest.data);
    }
  }

  /**
    Writing, over any mix of completed and refused calls: the counter counts the
    accepted bytes, but the checksum covers everything that was offered to the backend.
   */
  lemma {:induction false} WritesFeedWhatTheyOffer(e: Env, s: State, puts: seq<Put>)
    ensures var r := SendRun(e, s, puts);
            && r.state.cksum == Feed(e.update, s.cksum, r.fed)
            && r.state.counted == s.counted + |r.accepted|
            && |r.accepted| <= |r.fed|
            && (|r.accepted| == |r.fed| <==> r.ok)
    decreases puts
  {
    if puts == [] {
    } else {
      var w := WriteOf(e, s, puts[0].max, puts[0].data);
      RefusedChunk(e.replies, |puts[0].data|, s.calls, puts[0].max, |puts[0].data|);
      WritesFeedWhatTheyOffer(e, w.state, puts[1..]);
      var rest := SendRun(e, w.state, puts[1..]);
      FeedConcat(e.update, s.cksum, w.accepted, w.refused);
      FeedConcat(e.update, s.cksum, w.accepted + w.refused, rest.fed);
    }
  }

  /** A write that completes sent the whole buffer, and nothing of it was refused. */
  lemma CompletedWrite(e: Env, s: State, max: nat, buf: seq<byte>)
    requires WriteOf(e, s, max, buf).ok
    ensures var w := WriteOf(e, s, max, buf);
            && w.accepted == buf && w.refused == []
            && w.state == State(Feed(e.update, s.cksum, buf), s.counted + |buf|, s.log + buf, s.pos, w.state.calls)
  {
    RefusedChunk(e.replies, |buf|, s.calls, max, |buf|);
    assert buf[..|buf|] == buf;
    assert s.log + buf + [] == s.log + buf;
  }

  /** A run of writes that all complete is one transfer of all the data, in order. */
  lemma {:induction false} CompletedWrites(e: Env, s: State, puts: seq<Put>)
    requires SendRun(e, s, puts).ok
    ensures var r, d := SendRun(e, s, puts), AllData(puts);
            && r.accepted == d && r.fed == d
            && r.state == State(Feed(e.update, s.cksum, d), s.counted + |d|, s.log + d, s.pos, r.state.calls)
    decreases puts
  {
    if puts == [] {
      assert s.log + [] == s.log;
    } else {
      var buf, d := puts[0].data, AllData(puts[1..]);
      var w := WriteOf(e, s, puts[0].max, buf);
      CompletedWrite(e, s, puts[0].max, buf);
      CompletedWrites(e, w.state, puts[1..]);
      JoinWrites(e.update, s, buf, d);
    }
  }

  lemma JoinWrites(u: Update, s: State, buf: seq<byte>, d: seq<byte>)
    ensures Feed(u, Feed(u, s.cksum, buf), d) == Feed(u, s.cksum, buf + d)
    ensures s.counted + |buf| + |d| == s.counted + |buf + d|
    ensures s.log + buf + d == s.log + (buf + d)
    ensures buf + [] + d == buf + d
  {
    FeedConcat(u, s.cksum, buf, d);
  }

  /** Completed reads of all that follows the start of the log. */
  lemma ReadBack(e: Env, t: State, gets: seq<Get>, start: seq<byte>, d: seq<byte>)
    requires t.log == start + d && t.pos == |start|
    requires AllLen(gets) == |d| && TakeRun(e, t, gets).ok
    ensures var r := TakeRun(e, t, gets);
            r.data == d && r.state.cksum == Feed(e.update, t.cksum, d) && r.state.counted == t.counted + |d|
  {
    CompletedReads(e, t, gets);
    SliceOfJoin(start, d);
    ReadsKeepChecksum(e, t, gets);
  }

  lemma SliceOfJoin(a: seq<byte>, d: seq<byte>)
    ensures (a + d)[|a|..|a| + |d|] == d
  {
  }

  /**
    Round trip. Whatever was written by completed writes is read back by completed
    reads that ask for as many bytes in any other partition, through a backend that
    chunks and answers differently; from equal checksums both ends finish with equal
    checksums, and both counts grow by the same amount.
   */
  lemma WriteReadRoundTrip(we: Env, s: State, puts: seq<Put>, re: Env, t: State, gets: seq<Get>)
    requires we.update == re.update && t.cksum == s.cksum
    requires SendRun(we, s, puts).ok
    requires t.log == SendRun(we, s, puts).state.log && t.pos == |s.log| && Readable(t)
    requires AllLen(gets) == |AllData(puts)| && TakeRun(re, t, gets).ok
    ensures var w, r := SendRun(we, s, puts).state, TakeRun(re, t, gets);
            && r.data == AllData(puts)
            && r.state.cksum == w.cksum
            && r.state.counted - t.counted == w.counted - s.counted
  {
    CompletedWrites(we, s, puts);
    ReadBack(re, t, gets, s.log, AllData(puts));
  }

  /** The chunk size is invisible to callers: two runs over the same bytes end alike when both complete. */
  lemma ChunkSizeInvisible(e: Env, s: State, puts: seq<Put>, e': Env, s': State, puts': seq<Put>)
    requires e.update == e'.update && s.cksum == s'.cksum && s.log == s'.log
    requires AllData(puts) == AllData(puts')
    requires SendRun(e, s, puts).ok && SendRun(e', s', puts').ok
    ensures var r, r' := SendRun(e, s, puts).state, SendRun(e', s', puts').state;
            r.cksum == r'.cksum && r.counted - s.counted == r'.counted - s'.counted && r.log == r'.log
  {
    CompletedWrites(e, s, puts);
    CompletedWrites(e', s', puts');
  }

  /** One write that failed: it stopped at a chunk, which the checksum has and the counter has not. */
  lemma FailedWrite(e: Env, s: State, max: nat, buf: seq<byte>)
    requires !WriteOf(e, s, max, buf).ok
    ensures var w, k := WriteOf(e, s, max, buf), WriteProgress(e, s, max, |buf|).landed;
            && w.refused != [] && w.accepted + w.refused <= buf
            && |w.refused| == Chunk(max, |buf| - |w.accepted|)
            && k <= |w.refused|
            && w.state.counted == s.counted + |w.accepted|
            && w.state.cksum == Feed(e.update, s.cksum, w.accepted + w.refused)
            && w.state.log == s.log + w.accepted + w.refused[..k]
  {
    RefusedChunk(e.replies, |buf|, s.calls, max, |buf|);
    var w := WriteOf(e, s, max, buf);
    FeedConcat(e.update, s.cksum, w.accepted, w.refused);
    SliceJoin(buf, 0, |w.accepted|, |w.accepted| + |w.refused|);
  }

  /**
    The state after completed writes followed by one that failed. The checksum is
    ahead of the counter by exactly one chunk: the one the backend refused. The
    backend's log agrees with the counter, except for what the refusal let through.
   */
  lemma FailedWriteState(e: Env, s: State, puts: seq<Put>, max: nat, buf: seq<byte>)
    requires SendRun(e, s, puts).ok
    requires !WriteOf(e, SendRun(e, s, puts).state, max, buf).ok
    ensures var w := WriteOf(e, SendRun(e, s, puts).state, max, buf);
            var k := WriteProgress(e, SendRun(e, s, puts).state, max, |buf|).landed;
            var counted := AllData(puts) + w.accepted;
            && w.refused != [] && |w.refused| == Chunk(max, |buf| - |w.accepted|)
            && w.state.counted == s.counted + |counted|
            && w.state.cksum == Feed(e.update, s.cksum, counted + w.refused)
            && k <= |w.refused|
            && w.state.log == s.log + counted + w.refused[..k]
  {
    var m, d := SendRun(e, s, puts).state, AllData(puts);
    CompletedWrites(e, s, puts);
    FailedWrite(e, m, max, buf);
    AfterData(e.update, s, d, WriteOf(e, m, max, buf), WriteProgress(e, m, max, |buf|).landed);
  }

  lemma AfterData(u: Update, s: State, d: seq<byte>, w: WriteResult, k: nat)
    requires k <= |w.refused|
    requires w.state.counted == s.counted + |d| + |w.accepted|
    requires w.state.cksum == Feed(u, Feed(u, s.cksum, d), w.accepted + w.refused)
    requires w.state.log == s.log + d + w.accepted + w.refused[..k]
    ensures var counted := d + w.accepted;
            && w.state.counted == s.counted + |counted|
            && w.state.cksum == Feed(u, s.cksum, counted + w.refused)
            && w.state.log == s.log + counted + w.refused[..k]
  {
    FeedConcat(u, s.cksum, d, w.accepted + w.refused);
    assert d + (w.accepted + w.refused) == d + w.accepted + w.refused;
    assert s.log + d + w.accepted == s.log + (d + w.accepted);
  }

  /** A backend that moves nothing of what it refuses. */
  ghost predicate AllOrNothing(e: Env)
  {
    forall n :: e.replies(n).Refused? ==> e.replies(n).landed == 0
  }

  lemma NothingLands(e: Env, room: nat, calls: nat, max: nat, len: nat)
    requires AllOrNothing(e)
    ensures Advance(e.replies, room, calls, max, len).landed == 0
  {
    RefusedChunk(e.replies, room, calls, max, len);
  }

  /** Over such a backend any mix of writes leaves in the log exactly the bytes the counter counted. */
  lemma {:induction false} LogIsWhatWasCounted(e: Env, s: State, puts: seq<Put>)
    requires AllOrNothing(e)
    ensures var r := SendRun(e, s, puts);
            r.state.log == s.log + r.accepted && r.state.counted == s.counted + |r.accepted|
    decreases puts
  {
    if puts == [] {
      assert s.log + [] == s.log;
    } else {
      var w := WriteOf(e, s, puts[0].max, puts[0].data);
      NothingLands(e, |puts[0].data|, s.calls, puts[0].max, |puts[0].data|);
      assert w.state.log == s.log + w.accepted;
      LogIsWhatWasCounted(e, w.state, puts[1..]);
      JoinThree(s.log, w.accepted, SendRun(e, w.state, puts[1..]).accepted);
    }
  }

  lemma DeliversStretch(e: Env, s: State, max: nat, len: nat)
    requires AllOrNothing(e) && Readable(s)
    ensures var r := ReadOf(e, s, max, len);
            s.pos <= r.state.pos && r.data == s.log[s.pos..r.state.pos]
  {
    NothingLands(e, |s.log| - s.pos, s.calls, max, len);
  }

  /** And any mix of reads delivers one contiguous stretch of the source. */
  lemma {:induction false} DeliveryIsContiguous(e: Env, s: State, gets: seq<Get>)
    requires AllOrNothing(e) && Readable(s)
    ensures var r := TakeRun(e, s, gets);
            s.pos <= r.state.pos && r.data == s.log[s.pos..r.state.pos]
    decreases gets
  {
    if gets == [] {
    } else {
      var t := ReadOf(e, s, gets[0].max, gets[0].len);
      DeliversStretch(e, s, gets[0].max, gets[0].len);
      DeliveryIsContiguous(e, t.state, gets[1..]);
      var rest := TakeRun(e, t.state, gets[1..]);
      StretchesJoin(s.log, s.pos, t.state.pos, rest.state.pos, t.data, rest.data);
    }
  }

  // ---- when the checksum covers what was written ----

  /** A checksum that counts bytes. */
  const COUNTING: Update := Update((c, b) => (c + 1) % B8)

  lemma {:induction false} CountingFirst(c: u64, s: seq<byte>, n: nat)
    requires n <= |s|
    ensures FeedFirst(COUNTING, c, s, n) == (c + n) % B8
  {
    if n > 0 {
      CountingFirst(c, s, n - 1);
      CountStep(c + (n - 1));
    }
  }

  lemma CountStep(x: nat)
    ensures (x % B8 + 1) % B8 == (x + 1) % B8
  {
  }

  lemma CountingFeed(c: u64, s: seq<byte>)
    ensures Feed(COUNTING, c, s) == (c + |s|) % B8
  {
    CountingFirst(c, s, |s|);
  }

  /** Which bytes are accepted, refused and offered does not depend on the checksum in use. */
  lemma {:induction false} UpdateIrrelevant(e: Env, e': Env, s: State, s': State, puts: seq<Put>)
    requires e.replies == e'.replies && s.calls == s'.calls
    ensures var r, r' := SendRun(e, s, puts), SendRun(e', s', puts);
            r.ok == r'.ok && r.accepted == r'.accepted && r.fed == r'.fed
    decreases puts
  {
    if puts != [] {
      var w, w' := WriteOf(e, s, puts[0].max, puts[0].data), WriteOf(e', s', puts[0].max, puts[0].data);
      UpdateIrrelevant(e, e', w.state, w'.state, puts[1..]);
    }
  }

  /** The checksum of a run of writes is that of the accepted bytes. */
  predicate Covers(u: Update, replies: nat -> Answer, s: State, puts: seq<Put>)
  {
    var r := SendRun(Env(u, replies), s, puts);
    r.state.cksum == Feed(u, s.cksum, r.accepted)
  }

  /**
    The checksum covers exactly what was written, whatever the checksum, if and only if
    no write failed. The bound says that the refused chunks together are no more than
    a size_t can count.
   */
  lemma ChecksumCoversIff(replies: nat -> Answer, s: State, puts: seq<Put>)
    requires var r := SendRun(Env(NoUpdate, replies), s, puts); |r.fed| - |r.accepted| < B8
    ensures (forall u :: Covers(u, replies, s, puts)) <==> SendRun(Env(NoUpdate, replies), s, puts).ok
  {
    if SendRun(Env(NoUpdate, replies), s, puts).ok {
      forall u: Update
        ensures Covers(u, replies, s, puts)
      {
        UpdateIrrelevant(Env(NoUpdate, replies), Env(u, replies), s, s, puts);
        CompletedWrites(Env(u, replies), s, puts);
      }
    } else {
      FailureMiscounts(replies, s, puts);
    }
  }

  lemma FailureMiscounts(replies: nat -> Answer, s: State, puts: seq<Put>)
    requires var r := SendRun(Env(NoUpdate, replies), s, puts); !r.ok && |r.fed| - |r.accepted| < B8
    ensures !Covers(COUNTING, replies, s, puts)
  {
    var e := Env(COUNTING, replies);
    UpdateIrrelevant(Env(NoUpdate, replies), e, s, s, puts);
    WritesFeedWhatTheyOffer(e, s, puts);
    var r := SendRun(e, s, puts);
    CountingTells(s.cksum, r.accepted, r.fed);
  }

  /** The counting checksum tells strings apart whose lengths differ by less than 2^64. */
  lemma CountingTells(c: u64, s: seq<byte>, t: seq<byte>)
    requires |s| < |t| < |s| + B8
    ensures Feed(COUNTING, c, s) != Feed(COUNTING, c, t)
  {
    CountingFeed(c, s);
    CountingFeed(c, t);
    CountsApart(c, |s|, |t|);
  }

  lemma CountsApart(c: nat, m: nat, n: nat)
    requires m < n < m + B8
    ensures (c + m) % B8 != (c + n) % B8
  {
  }

  lemma SendOne(e: Env, s: State, max: nat, buf: seq<byte>)
    ensures var w := WriteOf(e, s, max, buf);
            SendRun(e, s, [Put(max, buf)]) == Sent(w.state, w.ok, w.accepted + [], w.accepted + w.refused + [])
  {
    var one := [Put(max, buf)];
    assert one[1..] == [];
    assert SendRun(e, WriteOf(e, s, max, buf).state, one[1..]) == Sent(WriteOf(e, s, max, buf).state, true, [], []);
  }

  /** For one write: if and only if the backend accepts each of its chunks. */
  lemma ChecksumCoversWriteIff(replies: nat -> Answer, s: State, max: nat, buf: seq<byte>)
    requires |buf| < B8
    ensures (forall u :: Covers(u, replies, s, [Put(max, buf)]))
            <==> forall i: nat :: i < Chunks(max, |buf|) ==> ChunkAccepted(replies, |buf|, s.calls, max, |buf|, i)
  {
    var one := [Put(max, buf)];
    var e := Env(NoUpdate, replies);
    var w, r := WriteOf(e, s, max, buf), SendRun(e, s, one);
    SendOne(e, s, max, buf);
    ChecksumCoversIff(replies, s, one);
    CompletedIff(replies, |buf|, s.calls, max, |buf|);
  }

  /** A write and, if it failed, a second call with the bytes not yet accepted. */
  function Persist(e: Env, s: State, max: nat, buf: seq<byte>, max': nat): WriteResult
  {
    var w := WriteOf(e, s, max, buf);
    if w.ok then w else WriteOf(e, w.state, max', buf[|w.accepted|..])
  }

  /**
    Resuming a failed write with the bytes not yet accepted. The count ends right; the
    log does if and only if nothing of the refused chunk got through; and the checksum
    has the refused chunk twice.
   */
  lemma ResumedWrite(e: Env, s: State, max: nat, buf: seq<byte>, max': nat)
    requires !WriteOf(e, s, max, buf).ok && Persist(e, s, max, buf, max').ok
    ensures var w, r := WriteOf(e, s, max, buf), Persist(e, s, max, buf, max').state;
            && r.counted == s.counted + |buf|
            && r.cksum == Feed(e.update, s.cksum, w.accepted + w.refused + buf[|w.accepted|..])
            && (r.log == s.log + buf <==> WriteProgress(e, s, max, |buf|).landed == 0)
  {
    var w, k := WriteOf(e, s, max, buf), WriteProgress(e, s, max, |buf|).landed;
    var rest := buf[|w.accepted|..];
    FailedWrite(e, s, max, buf);
    CompletedWrite(e, w.state, max', rest);
    assert w.accepted + rest == buf;
    FeedConcat(e.update, s.cksum, w.accepted + w.refused, rest);
    ResumedLog(s.log, w.accepted, w.refused[..k], rest);
  }

  lemma ResumedLog(log: seq<byte>, a: seq<byte>, landed: seq<byte>, rest: seq<byte>)
    ensures log + a + landed + rest == log + (a + rest) <==> landed == []
  {
    assert |log + a + landed + rest| == |log + (a + rest)| + |landed|;
    if landed == [] {
      assert log + a + landed + rest == log + (a + rest);
    }
  }

  /** So the checksum after resuming is that of the data, whatever the checksum, if and only if nothing had failed. */
  lemma ResumedChecksumIff(replies: nat -> Answer, s: State, max: nat, buf: seq<byte>, max': nat)
    requires |buf| < B8
    requires Persist(Env(NoUpdate, replies), s, max, buf, max').ok
    ensures (forall u :: Persist(Env(u, replies), s, max, buf, max').state.cksum == Feed(u, s.cksum, buf))
            <==> WriteOf(Env(NoUpdate, replies), s, max, buf).ok
  {
    var w := WriteOf(Env(NoUpdate, replies), s, max, buf);
    if w.ok {
      forall u: Update
        ensures Persist(Env(u, replies), s, max, buf, max').state.cksum == Feed(u, s.cksum, buf)
      {
        CompletedWrite(Env(u, replies), s, max, buf);
      }
    } else {
      ResumingMiscounts(replies, s, max, buf, max');
    }
  }

  lemma ResumingMiscounts(replies: nat -> Answer, s: State, max: nat, buf: seq<byte>, max': nat)
    requires |buf| < B8
    requires var e := Env(COUNTING, replies); !WriteOf(e, s, max, buf).ok && Persist(e, s, max, buf, max').ok
    ensures Persist(Env(COUNTING, replies), s, max, buf, max').state.cksum != Feed(COUNTING, s.cksum, buf)
  {
    var e := Env(COUNTING, replies);
    var w := WriteOf(e, s, max, buf);
    var fed := w.accepted + w.refused + buf[|w.accepted|..];
    ResumedWrite(e, s, max, buf, max');
    FailedWrite(e, s, max, buf);
    CountingTells(s.cksum, buf, fed);
  }

  /** Resuming a failed read that lost nothing is as good as never having failed. */
  lemma ResumedRead(e: Env, s: State, max: nat, len: nat, max': nat)
    requires Readable(s) && !ReadOf(e, s, max, len).ok
    requires ReadProgress(e, s, max, len).landed == 0
    requires var r := ReadOf(e, s, max, len);
             ReadOf(e, r.state, max', len - |r.data|).ok
    ensures var r := ReadOf(e, s, max, len);
            var q := ReadOf(e, r.state, max', len - |r.data|);
            && r.data + q.data == s.log[s.pos..s.pos + len]
            && q.state.pos == s.pos + len
            && q.state.counted == s.counted + len
            && q.state.cksum == Feed(e.update, s.cksum, s.log[s.pos..s.pos + len])
  {
    var r := ReadOf(e, s, max, len);
    var q := ReadOf(e, r.state, max', len - |r.data|);
    CompletedRead(e, r.state, max', len - |r.data|);
    ReadSoFar(e, s, max, len);
    ReadSoFar(e, r.state, max', len - |r.data|);
    StretchesJoin(s.log, s.pos, s.pos + |r.data|, s.pos + len, r.data, q.data);
    FeedConcat(e.update, s.cksum, r.data, q.data);
  }

  lemma ReadSoFar(e: Env, s: State, max: nat, len: nat)
    requires Readable(s)
    ensures var r := ReadOf(e, s, max, len);
            && |r.data| <= len && s.pos + |r.data| <= |s.log| && r.data == s.log[s.pos..s.pos + |r.data|]
            && r.state.counted == s.counted + |r.data| && r.state.cksum == Feed(e.update, s.cksum, r.data)
            && r.state.pos == s.pos + |r.data| + ReadProgress(e, s, max, len).landed
  {
  }

  /** A backend that refuses only its first call. */
  const FLAKY: Env := Env(COUNTING, n => if n == 0 then Refused(0) else Complete)

  /** So a write that is refused and then resumed ends with a checksum its own log does not have. */
  lemma ResumedWriteMisleads(b: byte)
    ensures var s := State(0, 0, [], 0, 0);
            var w := WriteOf(FLAKY, s, 0, [b]);
            var r := WriteOf(FLAKY, w.state, 0, [b]);
            && !w.ok && r.ok && r.state.log == [b] && r.state.counted == 1
            && r.state.cksum == 2 && Feed(FLAKY.update, 0, r.state.log) == 1
  {
    var s := State(0, 0, [], 0, 0);
    var w := WriteOf(FLAKY, s, 0, [b]);
    assert WriteProgress(FLAKY, s, 0, 1) == Progress(0, 1, 0, 1);
    FailedWrite(FLAKY, s, 0, [b]);
    assert w.refused == [b] && w.accepted == [];
    CountingFeed(0, [b]);
    CountingFeed(1, [b]);
    assert [] + [b] == [b];
    assert w.state == State(1, 0, [], 0, 1);
    assert WriteProgress(FLAKY, w.state, 0, 1) == Progress(1, 0, 0, 2);
    CompletedWrite(FLAKY, w.state, 0, [b]);
  }

  /** A willing backend refuses a read only for want of bytes, and then whatever the chunk size. */
  lemma ReadCompletesIff(e: Env, s: State, max: nat, len: nat)
    requires Readable(s)
    requires forall n :: e.replies(n).Complete?
    ensures ReadOf(e, s, max, len).ok <==> s.pos + len <= |s.log|
  {
    WillingAdvance(e.replies, |s.log| - s.pos, s.calls, max, len);
  }

  lemma {:induction false} WillingAdvance(replies: nat -> Answer, room: nat, calls: nat, max: nat, len: nat)
    requires forall n :: replies(n).Complete?
    ensures Advance(replies, room, calls, max, len).done == len <==> len <= room
    decreases len
  {
    if len == 0 {
    } else {
      var n := Chunk(max, len);
      if n <= room {
        WillingAdvance(replies, room - n, calls + 1, max, len - n);
      }
    }
  }
}
