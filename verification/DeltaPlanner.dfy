/**
 The two planners. Both keep a rolling checksum and look candidates up in the bucket index; one reads
 the old file from memory, the other through a forward-only sliding window over a byte source.
 Both are proved to compute the plan of the naive scan.
 */
module DeltaPlanner {
  import opened Ints
  import opened DeltaArith
  import opened Checksum
  import opened Signatures
  import opened DeltaPlan
  import opened BlockIndex
  import opened SlidingWindow

  // ----- Emission -----

  method EmitPlan(sig: SignatureSet, st: Scan) returns (plan: DeltaPlan)
    requires |st.matched| == |st.matchedSrc| == sig.blockCount
    ensures plan == PlanFrom(sig, st)
  {
    if st.stopped {
      return DeltaPlan([], [], sig.fileSize, sig.fileSize, StatsOf(st));
    }
    var e := NOTHING;
    for i: nat := 0 to sig.blockCount
      invariant e == Emitted(sig, st.matched, st.matchedSrc, i)
    {
      e := WithBlock(sig, e, i, st.matched[i], st.matchedSrc[i]);
    }
    e := Flushed(e);
    plan := DeltaPlan(e.copies, e.misses, e.downloadBytes, sig.fileSize, StatsOf(st));
  }

  // ----- One turn of the scan -----

  /** The cursor state is where the naive scan would be, with the rolling checksum of its window. */
  ghost predicate OnTrack(sig: SignatureSet, strong: HashFn, oldData: Bytes, opt: BuildOptions, st: Scan,
                          w: RollingWeak, goal: Scan)
  {
    && ScanOk(sig, |oldData|, st) && st.p + sig.blockSize <= |oldData|
    && w == WeakOf(WindowAt(sig, oldData, st.p))
    && goal == ScanFrom(sig, strong, oldData, opt, st)
  }

  /** The state after one turn, with h the outcome of the probe. */
  function Turned(sig: SignatureSet, oldLen: nat, opt: BuildOptions, st: Scan, h: Hit): Scan
    requires |st.matched| == |st.matchedSrc| == sig.blockCount && -1 <= h.found < sig.blockCount
    requires st.matchedBytes <= st.p && st.p + sig.blockSize <= oldLen < MAX_FILE
  {
    if AtEnd(sig, oldLen, st.p, h) then (if h.found >= 0 then Moved(sig, Counted(st, h), h) else Counted(st, h))
    else Evaluated(sig, oldLen, opt, Moved(sig, Counted(st, h), h))
  }

  ghost predicate Probed(sig: SignatureSet, strong: HashFn, oldData: Bytes, st: Scan, w: RollingWeak, h: Hit)
    requires ScanOk(sig, |oldData|, st) && st.p + sig.blockSize <= |oldData|
  {
    h == Search(sig, st.matched, w.Value(), strong(WindowAt(sig, oldData, st.p)), sig.blockCount)
  }

  /** A turn that ends the scan reaches the goal. */
  lemma LastTurn(sig: SignatureSet, strong: HashFn, oldData: Bytes, opt: BuildOptions, st: Scan, w: RollingWeak,
                 goal: Scan, h: Hit)
    requires OnTrack(sig, strong, oldData, opt, st, w, goal) && Probed(sig, strong, oldData, st, w, h)
    requires AtEnd(sig, |oldData|, st.p, h) || Turned(sig, |oldData|, opt, st, h).stopped
    ensures goal == Turned(sig, |oldData|, opt, st, h)
  {
  }

  /** Any other turn stays on track, once the checksum is that of the next window. */
  lemma MiddleTurn(sig: SignatureSet, strong: HashFn, oldData: Bytes, opt: BuildOptions, st: Scan, w: RollingWeak,
                   goal: Scan, h: Hit, next: RollingWeak)
    requires OnTrack(sig, strong, oldData, opt, st, w, goal) && Probed(sig, strong, oldData, st, w, h)
    requires !AtEnd(sig, |oldData|, st.p, h) && !Turned(sig, |oldData|, opt, st, h).stopped
    requires next == WeakOf(WindowAt(sig, oldData, st.p + if h.found >= 0 then sig.blockSize else 1))
    ensures OnTrack(sig, strong, oldData, opt, Turned(sig, |oldData|, opt, st, h), next, goal)
    ensures Turned(sig, |oldData|, opt, st, h).p == st.p + if h.found >= 0 then sig.blockSize else 1
  {
  }

  lemma RolledWindow(sig: SignatureSet, oldData: Bytes, p: nat)
    requires 0 < sig.blockSize && p + sig.blockSize < |oldData|
    ensures WeakRoll(WeakOf(WindowAt(sig, oldData, p)), oldData[p], oldData[p + sig.blockSize], sig.blockSize)
         == WeakOf(WindowAt(sig, oldData, p + 1))
  {
    var d := WindowAt(sig, oldData, p);
    RollIsShift(d, oldData[p + sig.blockSize]);
    assert d[1..] + [oldData[p + sig.blockSize]] == WindowAt(sig, oldData, p + 1);
  }

  // ----- From memory -----

  method ScanMemory(sig: SignatureSet, csr: Csr, strong: HashFn, oldData: Bytes, opt: BuildOptions) returns (st: Scan)
    requires ValidSet(sig) && sig.blockSize > 0 && ValidCsr(sig, csr)
    requires sig.blockSize <= |oldData| < MAX_FILE
    ensures st == ScanFrom(sig, strong, oldData, opt, Start(sig, |oldData|, opt))
  {
    hide Search, ScanFrom, Start, WeakOf, WeakRoll, ValidCsr, Turned;
    var L := sig.blockSize;
    st := Start(sig, |oldData|, opt);
    ghost var goal := ScanFrom(sig, strong, oldData, opt, st);
    var w := WeakInit(oldData[0..L]);
    while true
      invariant OnTrack(sig, strong, oldData, opt, st, w, goal)
      decreases |oldData| - st.p
    {
      var h := ProbeBucket(sig, csr, strong, st.matched, w.Value(), oldData[st.p..st.p + L]);
      var was := st;
      ghost var w0 := w;
      st := Turned(sig, |oldData|, opt, st, h);
      if AtEnd(sig, |oldData|, was.p, h) {
        LastTurn(sig, strong, oldData, opt, was, w0, goal, h);
        break;
      }
      if h.found >= 0 {
        w := WeakInit(oldData[was.p + L..was.p + L + L]);
      } else {
        RolledWindow(sig, oldData, was.p);
        w := WeakRoll(w, oldData[was.p], oldData[was.p + L], L);
      }
      if st.stopped {
        LastTurn(sig, strong, oldData, opt, was, w0, goal, h);
        break;
      }
      MiddleTurn(sig, strong, oldData, opt, was, w0, goal, h, w);
    }
  }

  method BuildPlan(sig: SignatureSet, strong: HashFn, oldData: Bytes, opt: BuildOptions) returns (plan: DeltaPlan)
    requires ValidSet(sig) && |oldData| < MAX_FILE
    ensures plan == PlanOf(sig, strong, oldData, opt)
  {
    if sig.blockCount == 0 || sig.blockSize == 0 {
      return DeltaPlan([], [], 0, sig.fileSize, NO_STATS);
    }
    var csr := BuildIndex(sig);
    var st := Start(sig, |oldData|, opt);
    if |oldData| >= sig.blockSize {
      st := ScanMemory(sig, csr, strong, oldData, opt);
    }
    plan := EmitPlan(sig, st);
  }

  // ----- From a byte source -----

  /** One call of the capture callback. */
  datatype Captured = Captured(srcOffsetOld: nat, destOffsetNew: nat, len: u32, bytes: Bytes)

  ghost function CapturedAt(sig: SignatureSet, oldData: Bytes, c: Capture): Captured
    requires c.src + sig.blockSize <= |oldData|
  {
    Captured(c.src, c.node * sig.blockSize, sig.blockSize, WindowAt(sig, oldData, c.src))
  }

  /** The log has one call per match, in scan order, with the matched bytes of the old file. */
  ghost predicate Logged(sig: SignatureSet, oldData: Bytes, captures: seq<Capture>, log: seq<Captured>) {
    && |log| == |captures|
    && forall k :: 0 <= k < |log| ==>
         captures[k].src + sig.blockSize <= |oldData| && log[k] == CapturedAt(sig, oldData, captures[k])
  }

  // ----- The room the scan takes -----

  ghost function Viewed(feed: Feed, sig: SignatureSet, p: nat, r: Room): Room {
    LoadedRoom(feed, AdvancedRoom(feed, r, p), p + sig.blockSize)
  }

  ghost function NextRoom(feed: Feed, sig: SignatureSet, p: nat, h: Hit, r: Room): Room {
    if h.found >= 0 then Viewed(feed, sig, p + sig.blockSize, r)
    else LoadedRoom(feed, LoadedRoom(feed, r, p + 1), p + sig.blockSize + 1)
  }

  /** The room from a given state of the scan to its end. */
  ghost function RoomFrom(feed: Feed, sig: SignatureSet, strong: HashFn, oldData: Bytes, opt: BuildOptions,
                          st: Scan, r: Room): Room
    requires ScanOk(sig, |oldData|, st) && st.p + sig.blockSize <= |oldData|
    decreases |oldData| - st.p
  {
    var h := Probe(sig, strong, st.matched, WindowAt(sig, oldData, st.p));
    var v := Viewed(feed, sig, st.p, r);
    if AtEnd(sig, |oldData|, st.p, h) then v
    else
      var m := Turned(sig, |oldData|, opt, st, h);
      var n := NextRoom(feed, sig, st.p, h, v);
      if m.stopped then n else RoomFrom(feed, sig, strong, oldData, opt, m, n)
  }

  /** The room of the whole scan, when the source has been read `calls` times before. */
  ghost function RoomOf(feed: Feed, sig: SignatureSet, strong: HashFn, oldData: Bytes, opt: BuildOptions,
                        calls: nat): Room
    requires ValidSet(sig) && sig.blockSize > 0 && |oldData| < MAX_FILE
  {
    var r := Room(0, 0, 0, calls);
    if |oldData| < sig.blockSize then r
    else RoomFrom(feed, sig, strong, oldData, opt, Start(sig, |oldData|, opt), Viewed(feed, sig, 0, r))
  }

  ghost predicate RoomOnTrack(feed: Feed, sig: SignatureSet, strong: HashFn, oldData: Bytes, opt: BuildOptions,
                              st: Scan, r: Room, end: Room)
  {
    && ScanOk(sig, |oldData|, st) && st.p + sig.blockSize <= |oldData|
    && end == RoomFrom(feed, sig, strong, oldData, opt, st, r)
  }

  lemma LastRoom(feed: Feed, sig: SignatureSet, strong: HashFn, oldData: Bytes, opt: BuildOptions,
                 st: Scan, w: RollingWeak, h: Hit, r: Room, end: Room)
    requires RoomOnTrack(feed, sig, strong, oldData, opt, st, r, end)
    requires Probed(sig, strong, oldData, st, w, h) && w == WeakOf(WindowAt(sig, oldData, st.p))
    requires AtEnd(sig, |oldData|, st.p, h) || Turned(sig, |oldData|, opt, st, h).stopped
    ensures var v := Viewed(feed, sig, st.p, r);
            end == if AtEnd(sig, |oldData|, st.p, h) then v else NextRoom(feed, sig, st.p, h, v)
  {
  }

  lemma MiddleRoom(feed: Feed, sig: SignatureSet, strong: HashFn, oldData: Bytes, opt: BuildOptions,
                   st: Scan, w: RollingWeak, h: Hit, r: Room, end: Room)
    requires RoomOnTrack(feed, sig, strong, oldData, opt, st, r, end)
    requires Probed(sig, strong, oldData, st, w, h) && w == WeakOf(WindowAt(sig, oldData, st.p))
    requires !AtEnd(sig, |oldData|, st.p, h) && !Turned(sig, |oldData|, opt, st, h).stopped
    ensures RoomOnTrack(feed, sig, strong, oldData, opt, Turned(sig, |oldData|, opt, st, h),
                        NextRoom(feed, sig, st.p, h, Viewed(feed, sig, st.p, r)), end)
  {
    hide Viewed, NextRoom, LoadedRoom, WeakOf, Search;
  }

  /** The buffer has what the cursor needs, and has stayed within both bounds. */
  ghost predicate Roomy(feed: Feed, sig: SignatureSet, p: nat, r: Room) {
    && r.base <= p <= r.base + r.size <= feed.dataLen && 0 < feed.chunk && feed.total <= feed.dataLen
    && r.peak < 2 * feed.chunk + sig.blockSize && r.peak < feed.total + feed.chunk
  }

  lemma ViewedRoomy(feed: Feed, sig: SignatureSet, p: nat, r: Room)
    requires Roomy(feed, sig, p, r) && p + sig.blockSize <= feed.total
    ensures var v := Viewed(feed, sig, p, r);
            && Roomy(feed, sig, p, v) && p < v.base + feed.chunk
            && p + sig.blockSize <= v.base + v.size && v.peak >= r.peak
  {
    hide LoadedRoom;
    LoadBounds(feed, AdvancedRoom(feed, r, p), p + sig.blockSize);
  }

  lemma NothingToLoad(feed: Feed, r: Room, end: nat)
    requires end <= r.base + r.size
    ensures LoadedRoom(feed, r, end) == r
  {
  }

  lemma NextRoomy(feed: Feed, sig: SignatureSet, p: nat, h: Hit, r: Room)
    requires Roomy(feed, sig, p, r) && p < r.base + feed.chunk && p + sig.blockSize <= r.base + r.size
    requires 0 < sig.blockSize && p + sig.blockSize <= feed.total && !AtEnd(sig, feed.total, p, h)
    ensures var n := NextRoom(feed, sig, p, h, r);
            Roomy(feed, sig, p + if h.found >= 0 then sig.blockSize else 1, n) && n.peak >= r.peak
  {
    hide LoadedRoom, Viewed;
    if h.found >= 0 {
      ViewedRoomy(feed, sig, p + sig.blockSize, r);
    } else {
      NothingToLoad(feed, r, p + 1);
      LoadBounds(feed, r, p + sig.blockSize + 1);
    }
  }

  /** Two chunks and a block, exclusive, are room enough, and so is the file and a chunk; the peak only grows. */
  lemma {:induction false} RoomFromBounds(feed: Feed, sig: SignatureSet, strong: HashFn, oldData: Bytes,
                                          opt: BuildOptions, st: Scan, r: Room)
    requires ScanOk(sig, |oldData|, st) && st.p + sig.blockSize <= |oldData| == feed.total
    requires Roomy(feed, sig, st.p, r)
    ensures var e := RoomFrom(feed, sig, strong, oldData, opt, st, r);
            r.peak <= e.peak < 2 * feed.chunk + sig.blockSize && e.peak < feed.total + feed.chunk
    decreases |oldData| - st.p
  {
    hide Roomy, Viewed, NextRoom, LoadedRoom, Probe;
    var h := Probe(sig, strong, st.matched, WindowAt(sig, oldData, st.p));
    ViewedRoomy(feed, sig, st.p, r);
    var v := Viewed(feed, sig, st.p, r);
    RoomyPeak(feed, sig, st.p, v);
    if !AtEnd(sig, |oldData|, st.p, h) {
      NextRoomy(feed, sig, st.p, h, v);
      var n := NextRoom(feed, sig, st.p, h, v);
      var m := Turned(sig, |oldData|, opt, st, h);
      RoomyPeak(feed, sig, m.p, n);
      if !m.stopped {
        RoomFromBounds(feed, sig, strong, oldData, opt, m, n);
      }
    }
  }

  lemma RoomyPeak(feed: Feed, sig: SignatureSet, p: nat, r: Room)
    requires Roomy(feed, sig, p, r)
    ensures r.peak < 2 * feed.chunk + sig.blockSize && r.peak < feed.total + feed.chunk
  {
  }

  lemma RoomOfBounds(feed: Feed, sig: SignatureSet, strong: HashFn, oldData: Bytes, opt: BuildOptions, calls: nat)
    requires ValidSet(sig) && sig.blockSize > 0 && |oldData| < MAX_FILE
    requires feed.total == |oldData| <= feed.dataLen && feed.chunk > 0
    ensures var e := RoomOf(feed, sig, strong, oldData, opt, calls);
            e.peak < 2 * feed.chunk + sig.blockSize && e.peak < feed.total + feed.chunk
  {
    if |oldData| >= sig.blockSize {
      var r := Room(0, 0, 0, calls);
      assert Roomy(feed, sig, 0, r);
      ViewedRoomy(feed, sig, 0, r);
      RoomFromBounds(feed, sig, strong, oldData, opt, Start(sig, |oldData|, opt), Viewed(feed, sig, 0, r));
    }
  }

  /** The window serves the cursor: everything from p on is still there. */
  ghost predicate Serves(win: Window, sig: SignatureSet, oldData: Bytes, p: nat)
    reads win, win.src
  {
    && win.Valid() && win.physBase <= p && win.Loaded(p)
    && win.total == |oldData| && oldData == win.src.data[..win.total]
  }

  /** Compact, then view the window at the cursor. */
  method WindowBytes(win: Window, sig: SignatureSet, ghost oldData: Bytes, p: nat) returns (bytes: Bytes)
    requires Serves(win, sig, oldData, p) && p + sig.blockSize <= |oldData|
    modifies win`buf, win`physBase, win`peak, win.src
    ensures Serves(win, sig, oldData, p) && win.Loaded(p + sig.blockSize)
    ensures win.Taken() == Viewed(win.FedBy(), sig, p, old(win.Taken()))
    ensures bytes == WindowAt(sig, oldData, p)
  {
    hide LoadedRoom, AdvancedRoom;
    win.Advance(p);
    bytes := win.View(p, sig.blockSize);
    SliceOfSlice(win.src.data, 0, win.total, p, p + sig.blockSize);
  }

  /** The next checksum, read through the window: a fresh one after a match, else one roll. */
  method NextWeak(win: Window, sig: SignatureSet, ghost oldData: Bytes, p: nat, w: RollingWeak, h: Hit)
    returns (next: RollingWeak)
    requires Serves(win, sig, oldData, p) && win.Loaded(p + sig.blockSize)
    requires sig.blockSize > 0 && p + sig.blockSize <= |oldData| && !AtEnd(sig, |oldData|, p, h)
    requires w == WeakOf(WindowAt(sig, oldData, p))
    modifies win`buf, win`physBase, win`peak, win.src
    ensures Serves(win, sig, oldData, p + if h.found >= 0 then sig.blockSize else 1)
    ensures win.Taken() == NextRoom(win.FedBy(), sig, p, h, old(win.Taken()))
    ensures next == WeakOf(WindowAt(sig, oldData, p + if h.found >= 0 then sig.blockSize else 1))
  {
    hide LoadedRoom, AdvancedRoom, Viewed, WeakOf, WeakRoll;
    if h.found >= 0 {
      var bytes := WindowBytes(win, sig, oldData, p + sig.blockSize);
      next := WeakInit(bytes);
    } else {
      var outByte := win.ByteAt(p);
      var inByte := win.ByteAt(p + sig.blockSize);
      RolledWindow(sig, oldData, p);
      next := WeakRoll(w, outByte, inByte, sig.blockSize);
    }
  }

  method ScanStream(sig: SignatureSet, csr: Csr, strong: HashFn, win: Window, ghost oldData: Bytes, opt: BuildOptions)
    returns (st: Scan, log: seq<Captured>)
    requires ValidSet(sig) && sig.blockSize > 0 && ValidCsr(sig, csr)
    requires sig.blockSize <= |oldData| < MAX_FILE && Serves(win, sig, oldData, 0)
    modifies win`buf, win`physBase, win`peak, win.src
    ensures st == ScanFrom(sig, strong, oldData, opt, Start(sig, |oldData|, opt))
    ensures Logged(sig, oldData, st.captures, log)
    ensures win.Valid()
    ensures win.Taken() == RoomFrom(win.FedBy(), sig, strong, oldData, opt, Start(sig, |oldData|, opt),
                                    Viewed(win.FedBy(), sig, 0, old(win.Taken())))
  {
    hide Search, ScanFrom, Start, WeakOf, WeakRoll, ValidCsr, Turned, RoomFrom, Viewed, NextRoom;
    st := Start(sig, win.total, opt);
    log := [];
    ghost var goal := ScanFrom(sig, strong, oldData, opt, st);
    var bytes := WindowBytes(win, sig, oldData, 0);
    ghost var feed := win.FedBy();
    ghost var end := RoomFrom(feed, sig, strong, oldData, opt, st, win.Taken());
    var w := WeakInit(bytes);
    while true
      invariant OnTrack(sig, strong, oldData, opt, st, w, goal)
      invariant Serves(win, sig, oldData, st.p) && RoomOnTrack(feed, sig, strong, oldData, opt, st, win.Taken(), end)
      invariant Logged(sig, oldData, st.captures, log)
      decreases |oldData| - st.p
    {
      ghost var r := win.Taken();
      bytes := WindowBytes(win, sig, oldData, st.p);
      var h := ProbeBucket(sig, csr, strong, st.matched, w.Value(), bytes);
      if h.found >= 0 {
        log := log + [Captured(st.p, h.found * sig.blockSize, sig.blockSize, bytes)];
      }
      var was := st;
      ghost var w0 := w;
      st := Turned(sig, win.total, opt, st, h);
      TurnCaptures(sig, |oldData|, opt, was, h);
      if AtEnd(sig, win.total, was.p, h) {
        LastTurn(sig, strong, oldData, opt, was, w0, goal, h);
        LastRoom(feed, sig, strong, oldData, opt, was, w0, h, r, end);
        break;
      }
      w := NextWeak(win, sig, oldData, was.p, w, h);
      if st.stopped {
        LastTurn(sig, strong, oldData, opt, was, w0, goal, h);
        LastRoom(feed, sig, strong, oldData, opt, was, w0, h, r, end);
        break;
      }
      MiddleTurn(sig, strong, oldData, opt, was, w0, goal, h, w);
      MiddleRoom(feed, sig, strong, oldData, opt, was, w0, h, r, end);
    }
  }

  lemma TurnCaptures(sig: SignatureSet, oldLen: nat, opt: BuildOptions, st: Scan, h: Hit)
    requires |st.matched| == |st.matchedSrc| == sig.blockCount && -1 <= h.found < sig.blockCount
    requires st.matchedBytes <= st.p && st.p + sig.blockSize <= oldLen < MAX_FILE
    ensures Turned(sig, oldLen, opt, st, h).captures
            == st.captures + if h.found >= 0 then [Capture(st.p, h.found)] else []
  {
  }

  function EffectiveChunk(readAheadChunkBytes: u32): u32 {
    if readAheadChunkBytes == 0 then 1 else readAheadChunkBytes
  }

  /** The streamed plan is the plan of the same bytes in memory; the callback log lists its matches; the
      largest size the buffer ever has stays below two refills and a block. */
  method BuildPlanStreaming(sig: SignatureSet, strong: HashFn, oldLen: u64, source: ByteSource, opt: BuildOptions,
                            readAheadChunkBytes: u32)
    returns (plan: DeltaPlan, log: seq<Captured>, ghost peak: nat)
    requires ValidSet(sig) && source.Valid() && source.pos == 0 && oldLen <= |source.data| && oldLen < MAX_FILE
    modifies source
    ensures source.Valid() && plan == PlanOf(sig, strong, source.data[..oldLen], opt)
    ensures sig.blockCount > 0 && sig.blockSize > 0 ==>
              Logged(sig, source.data[..oldLen], ScanOf(sig, strong, source.data[..oldLen], opt).captures, log)
    ensures sig.blockCount > 0 && sig.blockSize > 0 ==>
              var feed := Feed(source.pace, |source.data|, oldLen, EffectiveChunk(readAheadChunkBytes));
              peak == RoomOf(feed, sig, strong, source.data[..oldLen], opt, old(source.calls)).peak
    ensures peak < 2 * EffectiveChunk(readAheadChunkBytes) + sig.blockSize
  {
    hide ScanFrom, RoomFrom, Viewed;
    log, peak := [], 0;
    if sig.blockCount == 0 || sig.blockSize == 0 {
      plan := DeltaPlan([], [], 0, sig.fileSize, NO_STATS);
      return;
    }
    ghost var oldData := source.data[..oldLen];
    ghost var feed := Feed(source.pace, |source.data|, oldLen, EffectiveChunk(readAheadChunkBytes));
    RoomOfBounds(feed, sig, strong, oldData, opt, source.calls);
    var csr := BuildIndex(sig);
    var st := Start(sig, oldLen, opt);
    if oldLen >= sig.blockSize {
      var win := new Window(oldLen, source, readAheadChunkBytes);
      st, log := ScanStream(sig, csr, strong, win, oldData, opt);
      peak := win.peak;
    }
    plan := EmitPlan(sig, st);
  }

  // ----- A chunk and a block are not enough room -----

  /** The first two windows match no block, and the check between them, if there is one, does not stop the scan. */
  ghost predicate FirstTwoMiss(sig: SignatureSet, strong: HashFn, oldData: Bytes, opt: BuildOptions)
    requires ValidSet(sig) && sig.blockSize > 0 && sig.blockSize + 2 <= |oldData| < MAX_FILE
  {
    var s0 := Start(sig, |oldData|, opt);
    var h0 := Probe(sig, strong, s0.matched, WindowAt(sig, oldData, 0));
    && h0.found < 0 && !Turned(sig, |oldData|, opt, s0, h0).stopped
    && Probe(sig, strong, s0.matched, WindowAt(sig, oldData, 1)).found < 0
  }

  const MISS: Hit := Hit(-1, 0, false)

  /** A miss before the end rolls on, or stops the scan after the roll. */
  lemma RollsOn(feed: Feed, sig: SignatureSet, strong: HashFn, oldData: Bytes, opt: BuildOptions, st: Scan, r: Room)
    requires ScanOk(sig, |oldData|, st) && st.p + sig.blockSize < |oldData|
    requires Probe(sig, strong, st.matched, WindowAt(sig, oldData, st.p)).found < 0
    ensures var h := Probe(sig, strong, st.matched, WindowAt(sig, oldData, st.p));
            var m, n := Turned(sig, |oldData|, opt, st, h), NextRoom(feed, sig, st.p, MISS, Viewed(feed, sig, st.p, r));
            && ScanOk(sig, |oldData|, m) && m.p == st.p + 1 && m.matched == st.matched
            && RoomFrom(feed, sig, strong, oldData, opt, st, r)
               == if m.stopped then n else RoomFrom(feed, sig, strong, oldData, opt, m, n)
  {
    hide Probe, Viewed, LoadedRoom;
  }

  /** First a whole block, then byte by byte. */
  function Trickle(blockSize: nat): nat -> nat {
    i => if i == 0 then blockSize else 1
  }

  lemma TrickleRoom(sig: SignatureSet, dataLen: nat, total: nat, chunk: nat)
    requires sig.blockSize > 0 && chunk >= 2 && sig.blockSize + 2 <= total <= dataLen
    ensures var feed := Feed(Trickle(sig.blockSize), dataLen, total, chunk);
            var r0 := Viewed(feed, sig, 0, Room(0, 0, 0, 0));
            var r1 := NextRoom(feed, sig, 0, MISS, Viewed(feed, sig, 0, r0));
            var v1 := Viewed(feed, sig, 1, r1);
            NextRoom(feed, sig, 1, MISS, v1).peak > chunk + sig.blockSize
            && Roomy(feed, sig, 0, Room(0, 0, 0, 0))
  {
    hide LoadedRoom;
    var L: nat := sig.blockSize;
    var feed := Feed(Trickle(L), dataLen, total, chunk);
    OneRefill(feed, Room(0, 0, 0, 0), L);
    var r0 := LoadedRoom(feed, Room(0, 0, 0, 0), L);
    NothingToLoad(feed, r0, L);
    NothingToLoad(feed, r0, 1);
    OneRefill(feed, r0, L + 1);
    var r1 := LoadedRoom(feed, r0, L + 1);
    NothingToLoad(feed, r1, L + 1);
    NothingToLoad(feed, r1, 2);
    OneRefill(feed, r1, L + 2);
  }

  /** A refill that delivers just what was missing ends the loading. */
  lemma OneRefill(feed: Feed, r: Room, end: nat)
    requires r.base + r.size < end <= feed.total <= feed.dataLen && feed.chunk >= 1
    requires feed.pace(r.calls) == end - (r.base + r.size)
    ensures var deficit := end - (r.base + r.size);
            var want := if feed.chunk > deficit then feed.chunk else deficit;
            LoadedRoom(feed, r, end)
            == Room(r.base, end - r.base, if r.size + want > r.peak then r.size + want else r.peak, r.calls + 1)
  {
    var t := Refilled(feed, r, end - (r.base + r.size));
    assert LoadedRoom(feed, t, end) == t;
  }

  /** The room the header gives the window is kept by every source, over an old file whose first two windows
      match nothing, if and only if the chunk is a single byte or the file is at most a byte longer than a block. */
  lemma ChunkPlusBlockIsKeptIff(sig: SignatureSet, strong: HashFn, oldData: Bytes, opt: BuildOptions,
                                dataLen: nat, chunk: nat)
    requires ValidSet(sig) && 0 < sig.blockSize && |oldData| <= dataLen && |oldData| < MAX_FILE && chunk > 0
    requires sig.blockSize + 2 <= |oldData| ==> FirstTwoMiss(sig, strong, oldData, opt)
    ensures (forall pace :: RoomOf(Feed(pace, dataLen, |oldData|, chunk), sig, strong, oldData, opt, 0).peak
                            <= chunk + sig.blockSize)
            <==> chunk == 1 || |oldData| <= sig.blockSize + 1
  {
    hide RoomOf, FirstTwoMiss;
    if chunk == 1 || |oldData| <= sig.blockSize + 1 {
      forall pace ensures RoomOf(Feed(pace, dataLen, |oldData|, chunk), sig, strong, oldData, opt, 0).peak
                          <= chunk + sig.blockSize
      {
        RoomOfBounds(Feed(pace, dataLen, |oldData|, chunk), sig, strong, oldData, opt, 0);
      }
    } else {
      TrickleExceeds(sig, strong, oldData, opt, dataLen, chunk);
    }
  }

  lemma TrickleExceeds(sig: SignatureSet, strong: HashFn, oldData: Bytes, opt: BuildOptions, dataLen: nat, chunk: nat)
    requires ValidSet(sig) && 0 < sig.blockSize && sig.blockSize + 2 <= |oldData| <= dataLen && |oldData| < MAX_FILE
    requires chunk >= 2 && FirstTwoMiss(sig, strong, oldData, opt)
    ensures RoomOf(Feed(Trickle(sig.blockSize), dataLen, |oldData|, chunk), sig, strong, oldData, opt, 0).peak
            > chunk + sig.blockSize
  {
    hide Viewed, NextRoom, RoomFrom, Roomy, Probe;
    var feed := Feed(Trickle(sig.blockSize), dataLen, |oldData|, chunk);
    var s0 := Start(sig, |oldData|, opt);
    TrickleRoom(sig, dataLen, |oldData|, chunk);
    var z := Room(0, 0, 0, 0);
    var r0 := Viewed(feed, sig, 0, z);
    var v0 := Viewed(feed, sig, 0, r0);
    var r1 := NextRoom(feed, sig, 0, MISS, v0);
    var v1 := Viewed(feed, sig, 1, r1);
    ViewedRoomy(feed, sig, 0, z);
    ViewedRoomy(feed, sig, 0, r0);
    NextRoomy(feed, sig, 0, MISS, v0);
    ViewedRoomy(feed, sig, 1, r1);
    NextRoomy(feed, sig, 1, MISS, v1);
    RollsOn(feed, sig, strong, oldData, opt, s0, r0);
    var s1 := Turned(sig, |oldData|, opt, s0, Probe(sig, strong, s0.matched, WindowAt(sig, oldData, 0)));
    RollsOn(feed, sig, strong, oldData, opt, s1, r1);
    var s2 := Turned(sig, |oldData|, opt, s1, Probe(sig, strong, s1.matched, WindowAt(sig, oldData, 1)));
    if !s2.stopped {
      RoomFromBounds(feed, sig, strong, oldData, opt, s2, NextRoom(feed, sig, 1, MISS, v1));
    }
  }

  /** A run in which the buffer grows beyond a chunk and a block: every such file, fed at a trickle. */
  method RunsOutOfRoom(sig: SignatureSet, strong: HashFn, oldData: Bytes, opt: BuildOptions, readAheadChunkBytes: u32)
    returns (plan: DeltaPlan, ghost peak: nat)
    requires ValidSet(sig) && sig.blockCount > 0 && 0 < sig.blockSize && sig.blockSize + 2 <= |oldData| < MAX_FILE
    requires readAheadChunkBytes >= 2 && FirstTwoMiss(sig, strong, oldData, opt)
    ensures plan == PlanOf(sig, strong, oldData, opt) && peak > readAheadChunkBytes + sig.blockSize
  {
    hide ScanOf, RoomOf, PlanOf, FirstTwoMiss;
    var source := new ByteSource(oldData, Trickle(sig.blockSize));
    var log;
    assert source.data[..|oldData|] == oldData;
    plan, log, peak := BuildPlanStreaming(sig, strong, |oldData|, source, opt, readAheadChunkBytes);
    TrickleExceeds(sig, strong, oldData, opt, |oldData|, readAheadChunkBytes);
  }

  // ----- For given sizes -----

  /** A run of the planner for these sizes keeps to a chunk and a block. */
  ghost predicate KeepsRoom(sig: SignatureSet, strong: HashFn, oldData: Bytes, opt: BuildOptions, pace: nat -> nat,
                            dataLen: nat, chunk: nat)
    requires ValidSet(sig) && sig.blockSize > 0 && |oldData| < MAX_FILE
  {
    RoomOf(Feed(pace, dataLen, |oldData|, chunk), sig, strong, oldData, opt, 0).peak <= chunk + sig.blockSize
  }

  ghost predicate SizesKeepRoom(blockSize: u32, oldLen: nat, dataLen: nat, chunk: nat)
    requires oldLen < MAX_FILE && blockSize > 0
  {
    forall sig: SignatureSet, strong: HashFn, oldData: Bytes, opt: BuildOptions, pace: nat -> nat |
      ValidSet(sig) && sig.blockCount > 0 && sig.blockSize == blockSize && |oldData| == oldLen ::
      KeepsRoom(sig, strong, oldData, opt, pace, dataLen, chunk)
  }

  /** One block, whose weak checksum is not that of the given window. */
  ghost function Foreign(blockSize: u32, window: Bytes): SignatureSet {
    var weak := WeakOf(window).Value();
    SignatureSet(blockSize, blockSize, 1, 16, [BlockSig(if weak == 0 then 1 else 0, seq(16, _ => 0))])
  }

  lemma ForeignMisses(blockSize: u32, window: Bytes, strong: HashFn)
    requires blockSize > 0
    ensures var sig := Foreign(blockSize, window);
            && ValidSet(sig)
            && forall matched: seq<bool> :: |matched| == 1 ==> Probe(sig, strong, matched, window).found < 0
  {
    hide WeakOf;
  }

  /** Every signature set, old file and source of these sizes keeps the window to a chunk and a block if and
      only if the chunk is a single byte or the file at most a byte longer than a block. */
  lemma SizesKeepRoomIff(blockSize: u32, oldLen: nat, dataLen: nat, chunk: nat)
    requires blockSize > 0 && oldLen <= dataLen && oldLen < MAX_FILE && chunk > 0
    ensures SizesKeepRoom(blockSize, oldLen, dataLen, chunk) <==> chunk == 1 || oldLen <= blockSize + 1
  {
    hide RoomOf;
    if chunk == 1 || oldLen <= blockSize + 1 {
      forall sig: SignatureSet, strong: HashFn, oldData: Bytes, opt: BuildOptions, pace: nat -> nat |
        ValidSet(sig) && sig.blockCount > 0 && sig.blockSize == blockSize && |oldData| == oldLen
        ensures KeepsRoom(sig, strong, oldData, opt, pace, dataLen, chunk)
      {
        RoomOfBounds(Feed(pace, dataLen, oldLen, chunk), sig, strong, oldData, opt, 0);
      }
    } else {
      ZerosExceed(blockSize, oldLen, dataLen, chunk);
    }
  }

  lemma ZerosExceed(blockSize: u32, oldLen: nat, dataLen: nat, chunk: nat)
    requires blockSize > 0 && blockSize + 2 <= oldLen <= dataLen && oldLen < MAX_FILE && chunk >= 2
    ensures !SizesKeepRoom(blockSize, oldLen, dataLen, chunk)
  {
    hide RoomOf, Foreign, Probe;
    var oldData: Bytes, window: Bytes := seq(oldLen, _ => 0), seq(blockSize, _ => 0);
    var sig, opt := Foreign(blockSize, window), BuildOptions(false, 0);
    var strong: HashFn := _ => seq(16, _ => 0);
    ForeignMisses(blockSize, window, strong);
    ForeignSizes(blockSize, window);
    assert WindowAt(sig, oldData, 0) == window && WindowAt(sig, oldData, 1) == window;
    TrickleExceeds(sig, strong, oldData, opt, dataLen, chunk);
    assert !KeepsRoom(sig, strong, oldData, opt, Trickle(blockSize), dataLen, chunk);
  }

  lemma ForeignSizes(blockSize: u32, window: Bytes)
    ensures Foreign(blockSize, window).blockSize == blockSize && Foreign(blockSize, window).blockCount == 1
  {
  }
}
