/**
 The meaning of the delta planner: a naive scan that recomputes the checksum of every window from
 scratch and searches all blocks from the highest index down, the early stop, and the emission of
 copy and miss operations.
 */
module DeltaPlan {
  import opened Ints
  import opened DeltaArith
  import opened Checksum
  import opened Signatures

  /** Below this no sum of a cursor with blocks or a stride wraps in the program's 64 bits. */
  const MAX_FILE: int := TWO_64 - 2 * TWO_32

  datatype CopyOp = CopyOp(srcOffsetOld: nat, destOffsetNew: nat, len: u32)
  datatype MissOp = MissOp(destOffsetNew: nat, len: u32)
  datatype DeltaStats = DeltaStats(scannedBytes: nat, matchedBytes: nat, strongComputations: nat,
                                   weakCandidateHits: nat, earlyStopped: bool)
  datatype DeltaPlan = DeltaPlan(copies: seq<CopyOp>, misses: seq<MissOp>, downloadBytes: nat, newFileBytes: nat,
                                 stats: DeltaStats)
  datatype BuildOptions = BuildOptions(enableEarlyStop: bool, prefixBytesOverride: u64)

  const NO_STATS: DeltaStats := DeltaStats(0, 0, 0, 0, false)

  /** What every signature set satisfies, whether generated or decoded. */
  ghost predicate ValidSet(sig: SignatureSet) {
    |sig.blocks| == sig.blockCount && sig.strongLen <= 16
  }

  /** The length of block i; a size that does not cover i blocks wraps in 64 bits. */
  function BlockLen(sig: SignatureSet, i: nat): u32 {
    Min(sig.blockSize, Wrap64(sig.fileSize - i * sig.blockSize))
  }

  /** Only full blocks can be found; the short tail is always a miss. */
  predicate IsFull(sig: SignatureSet, i: nat) {
    BlockLen(sig, i) == sig.blockSize
  }

  // ----- The search for a block -----

  /** found is a block index or -1; hits counts the weak candidates looked at; hashed tells whether
      the strong hash of the window was needed. */
  datatype Hit = Hit(found: int, hits: nat, hashed: bool)

  predicate SameStrong(sig: SignatureSet, i: nat, strong: Digest)
    requires i < |sig.blocks| && sig.strongLen <= 16
  {
    strong[..sig.strongLen] == sig.blocks[i].strong[..sig.strongLen]
  }

  /** Blocks k-1, k-2, ..., 0 are tried in that order. */
  ghost function Search(sig: SignatureSet, matched: seq<bool>, weak: u32, strong: Digest, k: nat): (h: Hit)
    requires ValidSet(sig) && |matched| == sig.blockCount && k <= sig.blockCount
    ensures -1 <= h.found < k
  {
    if k == 0 then Hit(-1, 0, false)
    else
      var i := k - 1;
      if !IsFull(sig, i) || sig.blocks[i].weak != weak then Search(sig, matched, weak, strong, i)
      else if !matched[i] && SameStrong(sig, i, strong) then Hit(i, 1, true)
      else
        var rest := Search(sig, matched, weak, strong, i);
        Hit(rest.found, rest.hits + 1, rest.hashed || !matched[i])
  }

  /** Block i could be matched by a window with these checksums. */
  ghost predicate Eligible(sig: SignatureSet, matched: seq<bool>, weak: u32, strong: Digest, i: nat)
    requires ValidSet(sig) && |matched| == sig.blockCount
  {
    i < sig.blockCount && IsFull(sig, i) && sig.blocks[i].weak == weak && !matched[i] && SameStrong(sig, i, strong)
  }

  /** The search finds the eligible block of highest index, and none only if there is none. */
  lemma {:induction false} SearchFindsHighest(sig: SignatureSet, matched: seq<bool>, weak: u32, strong: Digest, k: nat)
    requires ValidSet(sig) && |matched| == sig.blockCount && k <= sig.blockCount
    ensures var f := Search(sig, matched, weak, strong, k).found;
            && (f >= 0 ==> Eligible(sig, matched, weak, strong, f))
            && (forall i :: f < i < k ==> !Eligible(sig, matched, weak, strong, i))
  {
    if k > 0 {
      SearchFindsHighest(sig, matched, weak, strong, k - 1);
    }
  }

  // ----- The scan -----

  datatype Capture = Capture(src: nat, node: nat)

  /** The variables of the scan; captures is the sequence of matches made so far. */
  datatype Scan = Scan(p: nat, matched: seq<bool>, matchedSrc: seq<nat>, matchedBytes: nat,
                       strongComputations: nat, weakCandidateHits: nat, nextEval: nat, stopped: bool,
                       captures: seq<Capture>)

  ghost predicate ScanOk(sig: SignatureSet, oldLen: nat, st: Scan) {
    && ValidSet(sig) && sig.blockSize > 0 && oldLen < MAX_FILE
    && st.matchedBytes <= st.p <= oldLen
    && |st.matched| == |st.matchedSrc| == sig.blockCount
  }

  ghost function WindowAt(sig: SignatureSet, oldData: Bytes, p: nat): Bytes
    requires p + sig.blockSize <= |oldData|
  {
    oldData[p..p + sig.blockSize]
  }

  ghost function Probe(sig: SignatureSet, strong: HashFn, matched: seq<bool>, window: Bytes): (h: Hit)
    requires ValidSet(sig) && |matched| == sig.blockCount
    ensures -1 <= h.found < sig.blockCount
  {
    Search(sig, matched, WeakOf(window).Value(), strong(window), sig.blockCount)
  }

  /** The state after a probe, before the cursor moves. */
  function Counted(st: Scan, h: Hit): Scan {
    st.(weakCandidateHits := st.weakCandidateHits + h.hits,
        strongComputations := st.strongComputations + if h.hashed then 1 else 0)
  }

  /** A match takes the block and jumps past the window; otherwise the cursor moves one byte. */
  function Moved(sig: SignatureSet, st: Scan, h: Hit): Scan
    requires |st.matched| == |st.matchedSrc| == sig.blockCount && -1 <= h.found < sig.blockCount
  {
    if h.found >= 0 then
      st.(matched := st.matched[h.found := true], matchedSrc := st.matchedSrc[h.found := st.p],
          matchedBytes := st.matchedBytes + sig.blockSize, p := st.p + sig.blockSize,
          captures := st.captures + [Capture(st.p, h.found)])
    else st.(p := st.p + 1)
  }

  /** No further window: after a match the next one does not fit, after a miss there is no byte to roll in. */
  predicate AtEnd(sig: SignatureSet, oldLen: nat, p: nat, h: Hit) {
    if h.found >= 0 then p + sig.blockSize + sig.blockSize > oldLen else p + sig.blockSize >= oldLen
  }

  /** The early-stop check, made when the cursor has reached nextEval. */
  function Evaluated(sig: SignatureSet, oldLen: nat, opt: BuildOptions, st: Scan): Scan
    requires st.matchedBytes <= st.p <= oldLen < MAX_FILE
  {
    if opt.enableEarlyStop && st.p >= st.nextEval then
      if ProjectedRejected(st.matchedBytes, st.p, oldLen, sig.fileSize) then st.(stopped := true)
      else st.(nextEval := st.p + EVAL_STRIDE)
    else st
  }

  /** The scan from a given state to its end. */
  ghost function ScanFrom(sig: SignatureSet, strong: HashFn, oldData: Bytes, opt: BuildOptions, st: Scan): (r: Scan)
    requires ScanOk(sig, |oldData|, st) && st.p + sig.blockSize <= |oldData|
    ensures ScanOk(sig, |oldData|, r)
    decreases |oldData| - st.p
  {
    var h := Probe(sig, strong, st.matched, WindowAt(sig, oldData, st.p));
    var c := Counted(st, h);
    if AtEnd(sig, |oldData|, st.p, h) then (if h.found >= 0 then Moved(sig, c, h) else c)
    else
      var m := Evaluated(sig, |oldData|, opt, Moved(sig, c, h));
      if m.stopped then m else ScanFrom(sig, strong, oldData, opt, m)
  }

  function Start(sig: SignatureSet, oldLen: nat, opt: BuildOptions): (st: Scan)
    requires oldLen < MAX_FILE
    ensures st.p == 0 && st.matchedBytes == 0 && st.captures == [] && |st.matched| == |st.matchedSrc| == sig.blockCount
  {
    Scan(0, seq(sig.blockCount, _ => false), seq(sig.blockCount, _ => 0), 0, 0, 0,
         if opt.prefixBytesOverride > 0 then opt.prefixBytesOverride else EarlyStopPrefixBytes(oldLen, sig.blockSize),
         false, [])
  }

  ghost function ScanOf(sig: SignatureSet, strong: HashFn, oldData: Bytes, opt: BuildOptions): (r: Scan)
    requires ValidSet(sig) && sig.blockSize > 0 && |oldData| < MAX_FILE
    ensures ScanOk(sig, |oldData|, r)
  {
    if |oldData| >= sig.blockSize then ScanFrom(sig, strong, oldData, opt, Start(sig, |oldData|, opt))
    else Start(sig, |oldData|, opt)
  }

  // ----- Emission -----

  /** The output so far and the open run of missing blocks (runBytes 0: none is open). */
  datatype Emission = Emission(copies: seq<CopyOp>, misses: seq<MissOp>, downloadBytes: nat, inRun: bool, runStart: nat,
                               runBytes: nat)

  const NOTHING: Emission := Emission([], [], 0, false, 0, 0)

  /** Closing the open run; its length is narrowed to 32 bits, the download total is not. */
  function Flushed(e: Emission): Emission {
    if e.inRun then
      e.(misses := e.misses + [MissOp(e.runStart, Wrap32(e.runBytes))], downloadBytes := e.downloadBytes + e.runBytes,
         inRun := false, runBytes := 0)
    else e
  }

  function WithBlock(sig: SignatureSet, e: Emission, i: nat, isMatched: bool, src: nat): Emission {
    var destOff := i * sig.blockSize;
    if isMatched then
      var f := Flushed(e);
      f.(copies := f.copies + [CopyOp(src, destOff, BlockLen(sig, i))])
    else if e.inRun then e.(runBytes := e.runBytes + BlockLen(sig, i))
    else e.(inRun := true, runStart := destOff, runBytes := BlockLen(sig, i))
  }

  ghost function Emitted(sig: SignatureSet, matched: seq<bool>, src: seq<nat>, k: nat): Emission
    requires k <= |matched| == |src|
  {
    if k == 0 then NOTHING else WithBlock(sig, Emitted(sig, matched, src, k - 1), k - 1, matched[k - 1], src[k - 1])
  }

  function StatsOf(st: Scan): DeltaStats {
    DeltaStats(st.p, st.matchedBytes, st.strongComputations, st.weakCandidateHits, st.stopped)
  }

  /** The plan a scan leads to: nothing at all when it stopped early, else the emitted operations. */
  ghost function PlanFrom(sig: SignatureSet, st: Scan): DeltaPlan
    requires |st.matched| == |st.matchedSrc| == sig.blockCount
  {
    if st.stopped then DeltaPlan([], [], sig.fileSize, sig.fileSize, StatsOf(st))
    else
      var e := Flushed(Emitted(sig, st.matched, st.matchedSrc, sig.blockCount));
      DeltaPlan(e.copies, e.misses, e.downloadBytes, sig.fileSize, StatsOf(st))
  }

  /** The plan for turning an old file into the signed new one. */
  ghost function PlanOf(sig: SignatureSet, strong: HashFn, oldData: Bytes, opt: BuildOptions): DeltaPlan
    requires ValidSet(sig) && |oldData| < MAX_FILE
  {
    if sig.blockCount == 0 || sig.blockSize == 0 then DeltaPlan([], [], 0, sig.fileSize, NO_STATS)
    else PlanFrom(sig, ScanOf(sig, strong, oldData, opt))
  }
}
