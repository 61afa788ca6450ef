/**
  The buffered cache: my_b_read, my_b_get and my_b_write move a cursor through a window
  of the buffer. When the window does not hold the request, the macro calls a function
  whose body is not part of this model. The methods below answer false at that point;
  runs take what the function does as an external step bound by a stated contract.
 */
module IoCache {
  import opened LittleEndian
  import opened ByteOrder

  /**
    The window in use: the cursor pos runs towards end inside the buffer mem;
    start is request_pos, which lies at file offset filePos.
   */
  datatype Window = Window(mem: seq<byte>, start: nat, pos: nat, end: nat, filePos: nat)

  predicate Valid(w: Window) { w.start <= w.pos <= w.end <= |w.mem| }

  /** The file position of the cursor. */
  function Tell(w: Window): int { w.filePos + (w.pos - w.start) }

  /** What is left of the window. */
  function BytesInCache(w: Window): int { w.end - w.pos }

  predicate Holds(w: Window, count: nat) { w.pos + count <= w.end }

  /** The window holds a request if and only if that asks for no more bytes than are in cache. */
  lemma HoldsIff(w: Window, n: nat)
    requires Valid(w)
    ensures Holds(w, n) <==> n <= BytesInCache(w)
    ensures BytesInCache(w) >= 0
  {
  }

  function Move(w: Window, count: nat): Window { w.(pos := w.pos + count) }

  /** A cache of type READ_CACHE or WRITE_CACHE. Positions are offsets from the start of its buffer. */
  class Cache {
    const buffer: array<byte>
    const writing: bool                          // current_pos and current_end point to the fields for writing
    var requestPos: nat
    var posInFile: nat
    var readPos: nat
    var readEnd: nat
    var writePos: nat
    var writeEnd: nat

    constructor (buffer: array<byte>, writing: bool, end: nat, posInFile: nat)
      requires end <= buffer.Length
      ensures this.buffer == buffer && this.writing == writing
      ensures Valid(ReadWindow()) && Valid(WriteWindow())
      ensures Current() == Window(buffer[..], 0, 0, end, posInFile)
    {
      this.buffer, this.writing, this.posInFile := buffer, writing, posInFile;
      requestPos, readPos, writePos := 0, 0, 0;
      readEnd := if writing then 0 else end;
      writeEnd := if writing then end else 0;
    }

    ghost function ReadWindow(): Window
      reads this, buffer
    {
      Window(buffer[..], requestPos, readPos, readEnd, posInFile)
    }

    ghost function WriteWindow(): Window
      reads this, buffer
    {
      Window(buffer[..], requestPos, writePos, writeEnd, posInFile)
    }

    /** The window that my_b_tell and my_b_bytes_in_cache look at. */
    ghost function Current(): Window
      reads this, buffer
    {
      if writing then WriteWindow() else ReadWindow()
    }

    method Read(dest: array<byte>, off: nat, count: nat) returns (fast: bool)
      requires Valid(ReadWindow())
      requires off + count <= dest.Length && dest != buffer
      modifies this`readPos, dest
      ensures fast == Holds(old(ReadWindow()), count)
      ensures ReadWindow() == if fast then Move(old(ReadWindow()), count) else old(ReadWindow())
      ensures dest[..] ==
              if fast then Put(old(dest[..]), off, buffer[old(readPos)..old(readPos) + count]) else old(dest[..])
    {
      fast := readPos + count <= readEnd;
      if fast {
        forall i | 0 <= i < count {
          dest[off + i] := buffer[readPos + i];
        }
        readPos := readPos + count;
      }
    }

    method Get() returns (fast: bool, c: int)
      requires Valid(ReadWindow())
      modifies this`readPos
      ensures fast == Holds(old(ReadWindow()), 1)
      ensures ReadWindow() == if fast then Move(old(ReadWindow()), 1) else old(ReadWindow())
      ensures fast ==> c == buffer[old(readPos)] as int
    {
      fast, c := readPos != readEnd, 0;
      if fast {
        readPos := readPos + 1;
        c := buffer[readPos - 1];
      }
    }

    method Write(src: seq<byte>) returns (fast: bool)
      requires Valid(WriteWindow())
      modifies this`writePos, buffer
      ensures fast == Holds(old(WriteWindow()), |src|)
      ensures WriteWindow() == if fast then Written(old(WriteWindow()), src) else old(WriteWindow())
    {
      fast := writePos + |src| <= writeEnd;
      if fast {
        forall i | 0 <= i < |src| {
          buffer[writePos + i] := src[i];
        }
        writePos := writePos + |src|;
      }
    }

    /** my_b_tell, through the indirection of current_pos. */
    function MyBTell(): (t: int)
      requires Valid(Current())
      reads this, buffer
      ensures t == Tell(Current()) && t >= posInFile
    {
      posInFile + ((if writing then writePos else readPos) - requestPos)
    }

    /** my_b_bytes_in_cache */
    function MyBBytesInCache(): (n: int)
      requires Valid(Current())
      reads this, buffer
      ensures n == BytesInCache(Current()) && n >= 0
    {
      (if writing then writeEnd else readEnd) - (if writing then writePos else readPos)
    }
  }

  // ---- runs of reading ----

  datatype Fetch = Read(count: nat) | Get

  function Want(f: Fetch): nat { if f.Read? then f.count else 1 }

  function Wanted(fs: seq<Fetch>): nat
  {
    if fs == [] then 0 else Want(fs[0]) + Wanted(fs[1..])
  }

  /** The buffer between start and end is a copy of the file from filePos on. */
  predicate Shows(w: Window, file: seq<byte>)
  {
    && Valid(w) && w.filePos + (w.end - w.start) <= |file|
    && w.mem[w.start..w.end] == file[w.filePos..w.filePos + (w.end - w.start)]
  }

  /** A call of my_b_read or my_b_get, and what its slow path hands out and leaves behind if it is taken. */
  datatype Call = Call(fetch: Fetch, got: nat, left: Window)

  /**
    The contract of read_function and _my_b_get: they hand out the next bytes of the
    file, no more than asked for, and leave a window on the file, at the position reached.
   */
  predicate SlowRead(w: Window, file: seq<byte>, c: Call)
  {
    && c.got <= Want(c.fetch) && Tell(w) + c.got <= |file|
    && Shows(c.left, file) && Tell(c.left) == Tell(w) + c.got
  }

  /** One call: from the window if that holds the request, by the slow path otherwise. */
  function Step(w: Window, file: seq<byte>, c: Call): (r: (Window, seq<byte>))
    requires Shows(w, file) && (!Holds(w, Want(c.fetch)) ==> SlowRead(w, file, c))
  {
    var n := Want(c.fetch);
    if Holds(w, n) then (Move(w, n), w.mem[w.pos..w.pos + n])
    else (c.left, file[Tell(w)..Tell(w) + c.got])
  }

  /** The fast path of each call is that of its macro. */
  lemma FastStep(w: Window, file: seq<byte>, c: Call)
    requires Shows(w, file) && (!Holds(w, Want(c.fetch)) ==> SlowRead(w, file, c))
    ensures c.fetch.Read? && Holds(w, c.fetch.count) ==>
              Step(w, file, c) == (Move(w, c.fetch.count), w.mem[w.pos..w.pos + c.fetch.count])
    ensures c.fetch.Get? && Holds(w, 1) ==> Step(w, file, c) == (Move(w, 1), [w.mem[w.pos]])
  {
    if Holds(w, 1) {
      assert w.mem[w.pos..w.pos + 1] == [w.mem[w.pos]];
    }
  }

  /** Fast or slow, a call hands out the bytes of the file at the position told. */
  lemma StepReadsFile(w: Window, file: seq<byte>, c: Call)
    requires Shows(w, file) && (!Holds(w, Want(c.fetch)) ==> SlowRead(w, file, c))
    ensures var (t, d) := Step(w, file, c);
            && Shows(t, file) && Tell(t) == Tell(w) + |d| <= |file|
            && d == file[Tell(w)..Tell(t)]
            && |d| <= Want(c.fetch) && (Holds(w, Want(c.fetch)) ==> |d| == Want(c.fetch))
  {
    var n := Want(c.fetch);
    if Holds(w, n) {
      WindowIsFile(w, file, n);
    }
  }

  /** The bytes in the window are those of the file at the position told. */
  lemma WindowIsFile(w: Window, file: seq<byte>, n: nat)
    requires Shows(w, file) && Holds(w, n)
    ensures Tell(w) + n <= |file|
    ensures w.mem[w.pos..w.pos + n] == file[Tell(w)..Tell(w) + n]
  {
    var i := w.pos - w.start;
    SliceOfSlice(w.mem, w.start, w.end, i, i + n);
    SliceOfSlice(file, w.filePos, w.filePos + (w.end - w.start), i, i + n);
    assert w.start + i == w.pos && w.start + (i + n) == w.pos + n;
    assert w.filePos + i == Tell(w) && w.filePos + (i + n) == Tell(w) + n;
  }

  /** Every slow call of the run keeps the contract. */
  predicate Faithful(w: Window, file: seq<byte>, calls: seq<Call>)
    requires Shows(w, file)
    decreases calls
  {
    calls == [] ||
    ((!Holds(w, Want(calls[0].fetch)) ==> SlowRead(w, file, calls[0])) &&
     (StepReadsFile(w, file, calls[0]); Faithful(Step(w, file, calls[0]).0, file, calls[1..])))
  }

  /** A run of calls: the window at the end, the bytes handed out, and whether every call got all it wanted. */
  datatype Fetched = Fetched(window: Window, data: seq<byte>, complete: bool)

  function FetchAll(w: Window, file: seq<byte>, calls: seq<Call>): (r: Fetched)
    requires Shows(w, file) && Faithful(w, file, calls)
    decreases calls
  {
    if calls == [] then Fetched(w, [], true)
    else
      StepReadsFile(w, file, calls[0]);
      var (t, d) := Step(w, file, calls[0]);
      var r := FetchAll(t, file, calls[1..]);
      Fetched(r.window, d + r.data, |d| == Want(calls[0].fetch) && r.complete)
  }

  function Fetches(calls: seq<Call>): (fs: seq<Fetch>)
    ensures |fs| == |calls|
    ensures calls != [] ==> fs[0] == calls[0].fetch && fs[1..] == Fetches(calls[1..])
  {
    if calls == [] then [] else [calls[0].fetch] + Fetches(calls[1..])
  }

  /**
    Over any run of reads and gets, fast and slow calls mixed: the bytes handed out are
    one contiguous stretch of the file, and the position told advances by as many.
   */
  lemma {:induction false} FetchesAreFile(w: Window, file: seq<byte>, calls: seq<Call>)
    requires Shows(w, file) && Faithful(w, file, calls)
    ensures var r := FetchAll(w, file, calls);
            && Shows(r.window, file)
            && Tell(r.window) == Tell(w) + |r.data| <= |file|
            && r.data == file[Tell(w)..Tell(r.window)]
            && (r.complete ==> |r.data| == Wanted(Fetches(calls)))
    decreases calls
  {
    if calls == [] {
    } else {
      StepReadsFile(w, file, calls[0]);
      var (t, d) := Step(w, file, calls[0]);
      FetchesAreFile(t, file, calls[1..]);
      SliceJoin(file, Tell(w), Tell(t), Tell(FetchAll(t, file, calls[1..]).window));
    }
  }

  /**
    So two complete runs from one position that want equally many bytes agree, however
    they are cut into reads and gets and wherever the windows of either run lie.
   */
  lemma PartitionsAgree(w: Window, w': Window, file: seq<byte>, calls: seq<Call>, calls': seq<Call>)
    requires Shows(w, file) && Faithful(w, file, calls)
    requires Shows(w', file) && Faithful(w', file, calls')
    requires Tell(w) == Tell(w') && Wanted(Fetches(calls)) == Wanted(Fetches(calls'))
    requires FetchAll(w, file, calls).complete && FetchAll(w', file, calls').complete
    ensures var r, r' := FetchAll(w, file, calls), FetchAll(w', file, calls');
            r.data == r'.data && Tell(r.window) == Tell(r'.window)
  {
    FetchesAreFile(w, file, calls);
    FetchesAreFile(w', file, calls');
  }

  // ---- runs that stay within the window ----

  /** Every call of the run finds what it wants in the window. */
  predicate AllFast(w: Window, fs: seq<Fetch>)
    decreases fs
  {
    fs == [] || (Holds(w, Want(fs[0])) && AllFast(Move(w, Want(fs[0])), fs[1..]))
  }

  /** All calls of a run are fast exactly when one call for all their bytes would be. */
  lemma {:induction false} AllFastIff(w: Window, fs: seq<Fetch>)
    requires Valid(w)
    ensures AllFast(w, fs) <==> Holds(w, Wanted(fs))
    decreases fs
  {
    if fs != [] && Holds(w, Want(fs[0])) {
      AllFastIff(Move(w, Want(fs[0])), fs[1..]);
    }
  }

  /**
    A run that the window holds leaves buffer and window end alone, hands out one copy of
    the buffer, and keeps position plus bytes in cache constant. Slow paths play no part.
   */
  lemma FastRun(w: Window, file: seq<byte>, calls: seq<Call>)
    requires Shows(w, file) && Faithful(w, file, calls)
    requires Holds(w, Wanted(Fetches(calls)))
    ensures var r, n := FetchAll(w, file, calls), Wanted(Fetches(calls));
            && r.window == Move(w, n) && r.complete
            && r.data == w.mem[w.pos..w.pos + n]
            && Tell(r.window) + BytesInCache(r.window) == Tell(w) + BytesInCache(w)
  {
    FastRunMoves(w, file, calls);
    FetchesAreFile(w, file, calls);
    StretchOfWindow(w, file, FetchAll(w, file, calls), Wanted(Fetches(calls)));
  }

  lemma StretchOfWindow(w: Window, file: seq<byte>, r: Fetched, n: nat)
    requires Shows(w, file) && Holds(w, n) && r.window == Move(w, n)
    requires Tell(r.window) <= |file| && r.data == file[Tell(w)..Tell(r.window)]
    ensures r.data == w.mem[w.pos..w.pos + n]
    ensures Tell(r.window) + BytesInCache(r.window) == Tell(w) + BytesInCache(w)
  {
    WindowIsFile(w, file, n);
  }

  lemma {:induction false} FastRunMoves(w: Window, file: seq<byte>, calls: seq<Call>)
    requires Shows(w, file) && Faithful(w, file, calls)
    requires Holds(w, Wanted(Fetches(calls)))
    ensures var r := FetchAll(w, file, calls);
            r.window == Move(w, Wanted(Fetches(calls))) && r.complete
    decreases calls
  {
    if calls == [] {
    } else {
      StepReadsFile(w, file, calls[0]);
      FastRunMoves(Move(w, Want(calls[0].fetch)), file, calls[1..]);
    }
  }

  // ---- runs of writing ----

  /** The window after src was copied to the cursor. */
  function Written(w: Window, src: seq<byte>): Window
    requires Valid(w) && Holds(w, |src|)
  {
    w.(mem := Put(w.mem, w.pos, src), pos := w.pos + |src|)
  }

  /** A write cache in use: what precedes filePos is in the file. */
  predicate Backed(w: Window, file: seq<byte>)
  {
    Valid(w) && w.filePos <= |file|
  }

  /** What the file holds, or will hold once the buffer is flushed, up to the position told. */
  function UpTo(w: Window, file: seq<byte>): (s: seq<byte>)
    requires Backed(w, file)
    ensures |s| == Tell(w)
  {
    file[..w.filePos] + w.mem[w.start..w.pos]
  }

  /** A call of my_b_write, and the window and file its slow path leaves behind if it is taken. */
  datatype Store = Store(src: seq<byte>, left: Window, file: seq<byte>)

  /** The contract of a write_function that succeeds: the bytes follow those written before. */
  predicate SlowWrite(w: Window, file: seq<byte>, s: Store)
    requires Backed(w, file)
  {
    Backed(s.left, s.file) && UpTo(s.left, s.file) == UpTo(w, file) + s.src
  }

  function StoreStep(w: Window, file: seq<byte>, s: Store): (r: (Window, seq<byte>))
    requires Backed(w, file) && (!Holds(w, |s.src|) ==> SlowWrite(w, file, s))
    ensures Backed(r.0, r.1)
  {
    if Holds(w, |s.src|) then (Written(w, s.src), file) else (s.left, s.file)
  }

  /** The fast path meets the contract of the slow one. */
  lemma StepAppends(w: Window, file: seq<byte>, s: Store)
    requires Backed(w, file) && (!Holds(w, |s.src|) ==> SlowWrite(w, file, s))
    ensures var (t, f) := StoreStep(w, file, s);
            UpTo(t, f) == UpTo(w, file) + s.src
  {
    if Holds(w, |s.src|) {
      var m := Put(w.mem, w.pos, s.src);
      assert m[w.start..w.pos + |s.src|] == w.mem[w.start..w.pos] + s.src;
    }
  }

  predicate FaithfulStores(w: Window, file: seq<byte>, stores: seq<Store>)
    requires Backed(w, file)
    decreases stores
  {
    stores == [] ||
    ((!Holds(w, |stores[0].src|) ==> SlowWrite(w, file, stores[0])) &&
     (var (t, f) := StoreStep(w, file, stores[0]); FaithfulStores(t, f, stores[1..])))
  }

  function StoreAllBlocks(w: Window, file: seq<byte>, stores: seq<Store>): (r: (Window, seq<byte>))
    requires Backed(w, file) && FaithfulStores(w, file, stores)
    ensures Backed(r.0, r.1)
    decreases stores
  {
    if stores == [] then (w, file)
    else
      var (t, f) := StoreStep(w, file, stores[0]);
      StoreAllBlocks(t, f, stores[1..])
  }

  function Blocks(stores: seq<Store>): seq<byte>
  {
    if stores == [] then [] else stores[0].src + Blocks(stores[1..])
  }

  /**
    Over any run of writes, fast and slow mixed, file and buffer together grow by exactly
    the data in order, and the position told advances by its length.
   */
  lemma {:induction false} WritesAppend(w: Window, file: seq<byte>, stores: seq<Store>)
    requires Backed(w, file) && FaithfulStores(w, file, stores)
    ensures var (t, f) := StoreAllBlocks(w, file, stores);
            && UpTo(t, f) == UpTo(w, file) + Blocks(stores)
            && Tell(t) == Tell(w) + |Blocks(stores)|
    decreases stores
  {
    if stores == [] {
      assert UpTo(w, file) + [] == UpTo(w, file);
    } else {
      StepAppends(w, file, stores[0]);
      var (t, f) := StoreStep(w, file, stores[0]);
      WritesAppend(t, f, stores[1..]);
      assert UpTo(w, file) + stores[0].src + Blocks(stores[1..])
          == UpTo(w, file) + (stores[0].src + Blocks(stores[1..]));
    }
  }

  predicate AllFit(w: Window, stores: seq<Store>)
    requires Valid(w)
    decreases stores
  {
    stores == [] || (Holds(w, |stores[0].src|) && AllFit(Written(w, stores[0].src), stores[1..]))
  }

  /** A run of writes is all fast exactly when its blocks fit together, and then it is one write of them joined. */
  lemma {:induction false} WritesFitIff(w: Window, file: seq<byte>, stores: seq<Store>)
    requires Backed(w, file) && FaithfulStores(w, file, stores)
    ensures AllFit(w, stores) <==> Holds(w, |Blocks(stores)|)
    ensures AllFit(w, stores) ==> StoreAllBlocks(w, file, stores) == (Written(w, Blocks(stores)), file)
    decreases stores
  {
    if stores == [] {
      assert Put(w.mem, w.pos, []) == w.mem;
    } else if Holds(w, |stores[0].src|) {
      var t := Written(w, stores[0].src);
      WritesFitIff(t, file, stores[1..]);
      if Holds(w, |Blocks(stores)|) {
        PutJoin(w.mem, w.pos, stores[0].src, Blocks(stores[1..]));
      }
    }
  }

  /**
    What any run of writes wrote, any complete run of reads of that length gets back from
    a read cache that stands where the writing began, on a file that holds what was written.
   */
  lemma WrittenThenFetched(w: Window, file: seq<byte>, stores: seq<Store>,
                           v: Window, after: seq<byte>, calls: seq<Call>)
    requires Backed(w, file) && FaithfulStores(w, file, stores)
    requires var (t, f) := StoreAllBlocks(w, file, stores); UpTo(t, f) <= after
    requires Shows(v, after) && Faithful(v, after, calls) && Tell(v) == Tell(w)
    requires Wanted(Fetches(calls)) == |Blocks(stores)| && FetchAll(v, after, calls).complete
    ensures FetchAll(v, after, calls).data == Blocks(stores)
  {
    WritesAppend(w, file, stores);
    FetchesAreFile(v, after, calls);
    SliceOfPrefix(after, UpTo(w, file), Blocks(stores));
  }

  lemma SliceOfPrefix(s: seq<byte>, a: seq<byte>, d: seq<byte>)
    requires a + d <= s
    ensures s[|a|..|a| + |d|] == d
  {
    assert s[..|a + d|] == a + d;
    assert s[|a|..|a| + |d|] == (a + d)[|a|..|a| + |d|];
  }
}
