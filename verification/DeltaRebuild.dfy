/**
 What a plan is worth: its operations tile the new file, its copy sources are disjoint, and carrying
 it out rebuilds the new file, as long as no missing run outgrows the 32-bit length field.
 */
module DeltaRebuild {
  import opened Ints
  import opened DeltaArith
  import opened Checksum
  import opened Signatures
  import opened DeltaPlan

  // ----- What the scan guarantees about the matches -----

  /** Number of matched blocks below k. */
  ghost function Matches(matched: seq<bool>, k: nat): nat
    requires k <= |matched|
  {
    if k == 0 then 0 else Matches(matched, k - 1) + if matched[k - 1] then 1 else 0
  }

  lemma {:induction false} OneMoreMatch(matched: seq<bool>, i: nat, k: nat)
    requires i < |matched| && !matched[i] && k <= |matched|
    ensures Matches(matched[i := true], k) == Matches(matched, k) + if i < k then 1 else 0
  {
    if k > 0 {
      OneMoreMatch(matched, i, k - 1);
    }
  }

  lemma {:induction false} NoMatches(matched: seq<bool>, k: nat)
    requires k <= |matched| && forall i :: 0 <= i < |matched| ==> !matched[i]
    ensures Matches(matched, k) == 0
  {
    if k > 0 {
      NoMatches(matched, k - 1);
    }
  }

  lemma OneMore(n: nat, b: nat)
    ensures (n + 1) * b == n * b + b
  {
  }

  /** Block i was matched at src by equal checksums. */
  ghost predicate GoodMatch(sig: SignatureSet, strong: HashFn, oldData: Bytes, i: nat, src: nat)
    requires ValidSet(sig) && i < sig.blockCount
  {
    && IsFull(sig, i) && src + sig.blockSize <= |oldData|
    && WeakOf(WindowAt(sig, oldData, src)).Value() == sig.blocks[i].weak
    && strong(WindowAt(sig, oldData, src))[..sig.strongLen] == sig.blocks[i].strong[..sig.strongLen]
  }

  ghost predicate ScanInv(sig: SignatureSet, strong: HashFn, oldData: Bytes, st: Scan) {
    && ScanOk(sig, |oldData|, st)
    && st.matchedBytes == Matches(st.matched, sig.blockCount) * sig.blockSize
    && MatchesGood(sig, strong, oldData, st) && SourcesApart(sig, st) && CapturesMatch(st)
  }

  ghost predicate MatchesGood(sig: SignatureSet, strong: HashFn, oldData: Bytes, st: Scan)
    requires ScanOk(sig, |oldData|, st)
  {
    forall i :: 0 <= i < sig.blockCount && st.matched[i] ==>
      GoodMatch(sig, strong, oldData, i, st.matchedSrc[i]) && st.matchedSrc[i] + sig.blockSize <= st.p
  }

  /** No two copies read a common byte of the old file. */
  ghost predicate SourcesApart(sig: SignatureSet, st: Scan)
    requires |st.matched| == |st.matchedSrc| == sig.blockCount
  {
    forall i, j :: 0 <= i < sig.blockCount && 0 <= j < sig.blockCount && i != j && st.matched[i] && st.matched[j] ==>
      st.matchedSrc[i] + sig.blockSize <= st.matchedSrc[j] || st.matchedSrc[j] + sig.blockSize <= st.matchedSrc[i]
  }

  /** The captures are the matched blocks, each once, with its source. */
  ghost predicate CapturesMatch(st: Scan)
    requires |st.matched| == |st.matchedSrc|
  {
    && (forall k :: 0 <= k < |st.captures| ==>
          var c := st.captures[k]; c.node < |st.matched| && st.matched[c.node] && st.matchedSrc[c.node] == c.src)
    && (forall k, l :: 0 <= k < l < |st.captures| ==> st.captures[k].node != st.captures[l].node)
    && (forall i :: 0 <= i < |st.matched| && st.matched[i] ==> Capture(st.matchedSrc[i], i) in st.captures)
  }

  lemma TurnKeepsInv(sig: SignatureSet, strong: HashFn, oldData: Bytes, st: Scan, h: Hit)
    requires ScanInv(sig, strong, oldData, st) && st.p + sig.blockSize <= |oldData|
    requires h == Probe(sig, strong, st.matched, WindowAt(sig, oldData, st.p))
    ensures ScanInv(sig, strong, oldData, Counted(st, h))
    ensures h.found >= 0 ==> ScanInv(sig, strong, oldData, Moved(sig, Counted(st, h), h))
    ensures h.found < 0 && st.p + 1 <= |oldData| ==> ScanInv(sig, strong, oldData, Moved(sig, Counted(st, h), h))
  {
    if h.found >= 0 {
      var window := WindowAt(sig, oldData, st.p);
      SearchFindsHighest(sig, st.matched, WeakOf(window).Value(), strong(window), sig.blockCount);
      OneMoreMatch(st.matched, h.found, sig.blockCount);
      MatchAdded(sig, strong, oldData, st, h);
    }
  }

  lemma SourcesStayApart(sig: SignatureSet, strong: HashFn, oldData: Bytes, st: Scan, h: Hit)
    requires ScanOk(sig, |oldData|, st) && 0 <= h.found < sig.blockCount
    requires MatchesGood(sig, strong, oldData, st) && SourcesApart(sig, st)
    ensures SourcesApart(sig, Moved(sig, Counted(st, h), h))
  {
    hide GoodMatch;
    var m := Moved(sig, Counted(st, h), h);
    forall i | 0 <= i < sig.blockCount && m.matched[i] && i != h.found
      ensures st.matchedSrc[i] + sig.blockSize <= st.p
    {
      assert st.matched[i];
    }
  }

  lemma CapturesStayMatched(sig: SignatureSet, st: Scan, h: Hit)
    requires |st.matched| == |st.matchedSrc| == sig.blockCount && 0 <= h.found < sig.blockCount && !st.matched[h.found]
    requires CapturesMatch(st)
    ensures CapturesMatch(Moved(sig, Counted(st, h), h))
  {
    var m := Moved(sig, Counted(st, h), h);
    assert m.captures[|st.captures|] == Capture(st.p, h.found);
    forall i | 0 <= i < |m.matched| && m.matched[i] ensures Capture(m.matchedSrc[i], i) in m.captures {
      if i != h.found {
        assert Capture(st.matchedSrc[i], i) in st.captures;
      }
    }
  }

  lemma MatchesStayGood(sig: SignatureSet, strong: HashFn, oldData: Bytes, st: Scan, h: Hit)
    requires ScanOk(sig, |oldData|, st) && st.p + sig.blockSize <= |oldData|
    requires 0 <= h.found < sig.blockCount && GoodMatch(sig, strong, oldData, h.found, st.p)
    requires MatchesGood(sig, strong, oldData, st)
    ensures ScanOk(sig, |oldData|, Moved(sig, Counted(st, h), h))
            && MatchesGood(sig, strong, oldData, Moved(sig, Counted(st, h), h))
  {
    hide GoodMatch;
    var m := Moved(sig, Counted(st, h), h);
    forall i | 0 <= i < sig.blockCount && m.matched[i]
      ensures GoodMatch(sig, strong, oldData, i, m.matchedSrc[i]) && m.matchedSrc[i] + sig.blockSize <= m.p
    {
      if i != h.found {
        assert st.matched[i];
      }
    }
  }

  lemma MatchAdded(sig: SignatureSet, strong: HashFn, oldData: Bytes, st: Scan, h: Hit)
    requires ScanInv(sig, strong, oldData, st) && st.p + sig.blockSize <= |oldData|
    requires 0 <= h.found < sig.blockCount && !st.matched[h.found] && GoodMatch(sig, strong, oldData, h.found, st.p)
    requires Matches(st.matched[h.found := true], sig.blockCount) == Matches(st.matched, sig.blockCount) + 1
    ensures ScanInv(sig, strong, oldData, Moved(sig, Counted(st, h), h))
  {
    OneMore(Matches(st.matched, sig.blockCount), sig.blockSize);
    SourcesStayApart(sig, strong, oldData, st, h);
    CapturesStayMatched(sig, st, h);
    MatchesStayGood(sig, strong, oldData, st, h);
    hide MatchesGood, SourcesApart, CapturesMatch, Matches;
  }

  lemma SameMatches(sig: SignatureSet, strong: HashFn, oldData: Bytes, st: Scan, t: Scan)
    requires ScanInv(sig, strong, oldData, st) && t == st.(stopped := t.stopped, nextEval := t.nextEval)
    ensures ScanInv(sig, strong, oldData, t)
  {
    hide GoodMatch, Matches;
  }

  /** The whole scan keeps the match invariant. */
  lemma {:induction false} ScanKeepsInv(sig: SignatureSet, strong: HashFn, oldData: Bytes, opt: BuildOptions, st: Scan)
    requires ScanInv(sig, strong, oldData, st) && st.p + sig.blockSize <= |oldData|
    ensures ScanInv(sig, strong, oldData, ScanFrom(sig, strong, oldData, opt, st))
    decreases |oldData| - st.p
  {
    hide MatchesGood, SourcesApart, CapturesMatch, Matches, Probe, WindowAt, ProjectedRejected;
    var h := Probe(sig, strong, st.matched, WindowAt(sig, oldData, st.p));
    TurnKeepsInv(sig, strong, oldData, st, h);
    if !AtEnd(sig, |oldData|, st.p, h) {
      var moved := Moved(sig, Counted(st, h), h);
      var m := Evaluated(sig, |oldData|, opt, moved);
      SameMatches(sig, strong, oldData, moved, m);
      if !m.stopped {
        ScanKeepsInv(sig, strong, oldData, opt, m);
      }
    }
  }

  /** Every scan ends with good matches from disjoint, in-range sources, captured once each. */
  lemma ScanResult(sig: SignatureSet, strong: HashFn, oldData: Bytes, opt: BuildOptions)
    requires ValidSet(sig) && sig.blockSize > 0 && |oldData| < MAX_FILE
    ensures ScanInv(sig, strong, oldData, ScanOf(sig, strong, oldData, opt))
  {
    var st := Start(sig, |oldData|, opt);
    NoMatches(st.matched, sig.blockCount);
    assert ScanInv(sig, strong, oldData, st);
    if |oldData| >= sig.blockSize {
      ScanKeepsInv(sig, strong, oldData, opt, st);
    }
  }

  // ----- Tiling -----

  /** A stretch of the new file, copied or missing. */
  datatype Span = Span(isCopy: bool, start: nat, len: nat)

  /** Consecutive non-empty stretches from 0 to end: nothing is left out and nothing overlaps. */
  ghost predicate Partition(s: seq<Span>, end: nat) {
    if s == [] then end == 0
    else var last := s[|s|-1]; last.len > 0 && last.start + last.len == end && Partition(s[..|s|-1], last.start)
  }

  type Part = (nat, nat)

  /** Start and length of the stretches of one kind, in order. */
  ghost function Parts(s: seq<Span>, isCopy: bool): seq<Part> {
    if s == [] then []
    else
      var last := s[|s|-1];
      Parts(s[..|s|-1], isCopy) + if last.isCopy == isCopy then [(last.start, last.len)] else []
  }

  ghost function Total(p: seq<Part>): nat {
    if p == [] then 0 else Total(p[..|p|-1]) + p[|p|-1].1
  }

  ghost function CopyParts(c: seq<CopyOp>): (p: seq<Part>)
    ensures |p| == |c|
  {
    if c == [] then [] else CopyParts(c[..|c|-1]) + [(c[|c|-1].destOffsetNew, c[|c|-1].len)]
  }

  ghost function MissParts(m: seq<MissOp>): (p: seq<Part>)
    ensures |p| == |m|
  {
    if m == [] then [] else MissParts(m[..|m|-1]) + [(m[|m|-1].destOffsetNew, m[|m|-1].len)]
  }

  /** The operations of the plan are the two kinds of stretches of a partition of [0, total). */
  ghost predicate Tiles(plan: DeltaPlan, total: nat) {
    exists s :: Partition(s, total) && Parts(s, true) == CopyParts(plan.copies)
                && Parts(s, false) == MissParts(plan.misses)
  }

  /** Every counted block starts inside the file: what generated sets satisfy. */
  ghost predicate WellSized(sig: SignatureSet) {
    sig.blockSize > 0 && forall i :: 0 <= i < sig.blockCount ==> i * sig.blockSize < sig.fileSize
  }

  /** Where block k starts, or the end of the file. */
  ghost function Offset(sig: SignatureSet, k: nat): nat {
    Min(k * sig.blockSize, sig.fileSize)
  }

  lemma BlockOffsets(sig: SignatureSet, k: nat)
    requires WellSized(sig) && k < sig.blockCount
    ensures Offset(sig, k) == k * sig.blockSize < sig.fileSize
    ensures Offset(sig, k + 1) == Offset(sig, k) + BlockLen(sig, k) && BlockLen(sig, k) > 0
  {
    OneMore(k, sig.blockSize);
  }

  /** One more block: a copy stands alone, a missing block joins the run before it. */
  ghost function Extend(s: seq<Span>, start: nat, len: nat, isCopy: bool): seq<Span> {
    if isCopy then s + [Span(true, start, len)]
    else if s != [] && !s[|s|-1].isCopy then s[..|s|-1] + [s[|s|-1].(len := s[|s|-1].len + len)]
    else s + [Span(false, start, len)]
  }

  /** The stretches below block k, adjacent missing blocks merged into one run. */
  ghost function SpansOf(sig: SignatureSet, matched: seq<bool>, k: nat): seq<Span>
    requires k <= |matched|
  {
    hide Extend, BlockLen;
    if k == 0 then []
    else Extend(SpansOf(sig, matched, k - 1), (k - 1) * sig.blockSize, BlockLen(sig, k - 1), matched[k - 1])
  }

  lemma {:induction false} SpansPartition(sig: SignatureSet, matched: seq<bool>, k: nat)
    requires WellSized(sig) && k <= |matched| == sig.blockCount
    ensures Partition(SpansOf(sig, matched, k), Offset(sig, k))
  {
    hide BlockLen, Extend, Partition;
    if k == 0 {
      NoSpans();
    } else {
      SpansPartition(sig, matched, k - 1);
      BlockOffsets(sig, k - 1);
      ExtendPartition(SpansOf(sig, matched, k - 1), Offset(sig, k - 1), BlockLen(sig, k - 1), matched[k - 1]);
    }
  }

  lemma NoSpans()
    ensures Partition([], 0)
  {
  }

  lemma {:induction false} ExtendPartition(s: seq<Span>, end: nat, len: nat, isCopy: bool)
    requires Partition(s, end) && len > 0
    ensures Partition(Extend(s, end, len, isCopy), end + len)
  {
    var t := Extend(s, end, len, isCopy);
    if |t| == |s| + 1 {
      assert t[..|t|-1] == s;
    } else {
      assert t[..|t|-1] == s[..|s|-1];
    }
  }

  ghost function Narrowed(p: seq<Part>): (m: seq<MissOp>)
    ensures |m| == |p|
  {
    if p == [] then [] else Narrowed(p[..|p|-1]) + [MissOp(p[|p|-1].0, Wrap32(p[|p|-1].1))]
  }

  /** The copy operations below block k. */
  ghost function CopyOps(sig: SignatureSet, matched: seq<bool>, src: seq<nat>, k: nat): seq<CopyOp>
    requires k <= |matched| == |src|
  {
    if k == 0 then []
    else CopyOps(sig, matched, src, k - 1)
         + if matched[k - 1] then [CopyOp(src[k - 1], (k - 1) * sig.blockSize, BlockLen(sig, k - 1))] else []
  }

  /** The open run is the last stretch; everything before it has been emitted. */
  ghost predicate EmittedAs(e: Emission, s: seq<Span>) {
    && (e.inRun <==> s != [] && !s[|s|-1].isCopy)
    && (e.inRun ==> s[|s|-1] == Span(false, e.runStart, e.runBytes))
    && var closed := if e.inRun then s[..|s|-1] else s;
       && CopyParts(e.copies) == Parts(closed, true)
       && e.misses == Narrowed(Parts(closed, false)) && e.downloadBytes == Total(Parts(closed, false))
  }

  lemma FlushedAs(e: Emission, s: seq<Span>)
    requires EmittedAs(e, s)
    ensures CopyParts(Flushed(e).copies) == Parts(s, true)
    ensures Flushed(e).misses == Narrowed(Parts(s, false)) && Flushed(e).downloadBytes == Total(Parts(s, false))
  {
    if e.inRun {
      var p := Parts(s, false);
      assert p[..|p|-1] == Parts(s[..|s|-1], false);
    }
  }

  lemma PartsOfLast(s: seq<Span>, last: Span, isCopy: bool)
    ensures Parts(s + [last], isCopy)
            == if last.isCopy == isCopy then Parts(s, isCopy) + [(last.start, last.len)] else Parts(s, isCopy)
  {
    assert (s + [last])[..|s|] == s;
  }

  lemma CopyPartsOfLast(c: seq<CopyOp>, last: CopyOp)
    ensures CopyParts(c + [last]) == CopyParts(c) + [(last.destOffsetNew, last.len)]
  {
    assert (c + [last])[..|c|] == c;
  }

  lemma CopyEmitted(sig: SignatureSet, e: Emission, s: seq<Span>, i: nat, src: nat)
    requires EmittedAs(e, s)
    ensures EmittedAs(WithBlock(sig, e, i, true, src), Extend(s, i * sig.blockSize, BlockLen(sig, i), true))
  {
    var len, start := BlockLen(sig, i), i * sig.blockSize;
    hide BlockLen;
    FlushedAs(e, s);
    PartsOfLast(s, Span(true, start, len), true);
    PartsOfLast(s, Span(true, start, len), false);
    CopyPartsOfLast(Flushed(e).copies, CopyOp(src, start, len));
    hide Parts, CopyParts, Narrowed, Total;
  }

  lemma MissEmitted(sig: SignatureSet, e: Emission, s: seq<Span>, i: nat, src: nat)
    requires EmittedAs(e, s)
    ensures EmittedAs(WithBlock(sig, e, i, false, src), Extend(s, i * sig.blockSize, BlockLen(sig, i), false))
  {
    var t := Extend(s, i * sig.blockSize, BlockLen(sig, i), false);
    hide BlockLen, Parts, CopyParts, Narrowed, Total;
    var closed := if e.inRun then s[..|s|-1] else s;
    assert t[..|t|-1] == closed;
  }

  lemma BlockEmitted(sig: SignatureSet, e: Emission, s: seq<Span>, i: nat, isMatched: bool, src: nat)
    requires EmittedAs(e, s)
    ensures EmittedAs(WithBlock(sig, e, i, isMatched, src), Extend(s, i * sig.blockSize, BlockLen(sig, i), isMatched))
  {
    hide EmittedAs, WithBlock, Extend, BlockLen;
    if isMatched {
      CopyEmitted(sig, e, s, i, src);
    } else {
      MissEmitted(sig, e, s, i, src);
    }
  }

  lemma NothingEmitted()
    ensures EmittedAs(NOTHING, [])
  {
  }

  lemma {:induction false} EmissionSpans(sig: SignatureSet, matched: seq<bool>, src: seq<nat>, k: nat)
    requires k <= |matched| == |src|
    ensures EmittedAs(Emitted(sig, matched, src, k), SpansOf(sig, matched, k))
  {
    hide EmittedAs, WithBlock, Extend, BlockLen;
    NothingEmitted();
    if k > 0 {
      EmissionSpans(sig, matched, src, k - 1);
      BlockEmitted(sig, Emitted(sig, matched, src, k - 1), SpansOf(sig, matched, k - 1), k - 1, matched[k - 1],
                   src[k - 1]);
    }
  }

  lemma {:induction false} EmissionCopies(sig: SignatureSet, matched: seq<bool>, src: seq<nat>, k: nat)
    requires k <= |matched| == |src|
    ensures Emitted(sig, matched, src, k).copies == CopyOps(sig, matched, src, k)
  {
    if k > 0 {
      EmissionCopies(sig, matched, src, k - 1);
    }
  }

  /** The stretches of a partition add up to the whole. */
  lemma {:induction false} PartitionTotal(s: seq<Span>, end: nat)
    requires Partition(s, end)
    ensures Total(Parts(s, true)) + Total(Parts(s, false)) == end
  {
    if s != [] {
      var n := |s| - 1;
      PartitionTotal(s[..n], s[n].start);
      assert s == s[..n] + [s[n]];
      PartsOfLast(s[..n], s[n], true);
      PartsOfLast(s[..n], s[n], false);
      hide Parts;
      LastTotal(Parts(s[..n], s[n].isCopy), (s[n].start, s[n].len));
      hide Total;
    }
  }

  lemma LastTotal(p: seq<Part>, last: Part)
    ensures Total(p + [last]) == Total(p) + last.1
  {
    assert (p + [last])[..|p|] == p;
  }

  ghost predicate Fit(p: seq<Part>) {
    forall j :: 0 <= j < |p| ==> p[j].1 < TWO_32
  }

  /** Narrowing the lengths to 32 bits loses bytes exactly when some length does not fit. */
  lemma {:induction false} NarrowingLoses(p: seq<Part>)
    ensures Total(MissParts(Narrowed(p))) <= Total(p)
    ensures Total(MissParts(Narrowed(p))) == Total(p) <==> Fit(p)
    ensures Fit(p) ==> MissParts(Narrowed(p)) == p
  {
    if p != [] {
      var n := |p| - 1;
      NarrowingLoses(p[..n]);
      var m := Narrowed(p);
      assert m[..n] == Narrowed(p[..n]);
      assert p == p[..n] + [p[n]];
      LastTotal(MissParts(m[..n]), (p[n].0, Wrap32(p[n].1)));
      NarrowingOne(p[n].1);
      assert Fit(p) <==> Fit(p[..n]) && p[n].1 < TWO_32;
    }
  }

  lemma NarrowingOne(x: nat)
    ensures Wrap32(x) <= x && (Wrap32(x) == x <==> x < TWO_32)
  {
  }

  /** The blocks reach the end of the file: the count was not truncated to 32 bits. */
  ghost predicate Covered(sig: SignatureSet) {
    sig.blockCount * sig.blockSize >= sig.fileSize
  }

  /** Every run of missing blocks is below 2^32 bytes. */
  ghost predicate RunsFit(sig: SignatureSet, matched: seq<bool>)
    requires |matched| == sig.blockCount
  {
    Fit(Parts(SpansOf(sig, matched, sig.blockCount), false))
  }

  lemma EmittedParts(sig: SignatureSet, st: Scan)
    requires |st.matched| == |st.matchedSrc| == sig.blockCount && !st.stopped
    ensures var plan := PlanFrom(sig, st);
            var s := SpansOf(sig, st.matched, sig.blockCount);
            && CopyParts(plan.copies) == Parts(s, true) && plan.misses == Narrowed(Parts(s, false))
            && plan.downloadBytes == Total(Parts(s, false))
            && plan.copies == CopyOps(sig, st.matched, st.matchedSrc, sig.blockCount)
  {
    var e := Emitted(sig, st.matched, st.matchedSrc, sig.blockCount);
    EmissionSpans(sig, st.matched, st.matchedSrc, sig.blockCount);
    EmissionCopies(sig, st.matched, st.matchedSrc, sig.blockCount);
    FlushedAs(e, SpansOf(sig, st.matched, sig.blockCount));
  }

  /** The operations tile the new file if and only if every run of missing blocks fits the length
      field and the block count was not truncated. */
  lemma TilesIff(sig: SignatureSet, st: Scan)
    requires WellSized(sig) && |st.matched| == |st.matchedSrc| == sig.blockCount && !st.stopped
    ensures Tiles(PlanFrom(sig, st), sig.fileSize) <==> Covered(sig) && RunsFit(sig, st.matched)
  {
    var plan := PlanFrom(sig, st);
    var s := SpansOf(sig, st.matched, sig.blockCount);
    EmittedParts(sig, st);
    SpansPartition(sig, st.matched, sig.blockCount);
    PartitionTotal(s, Offset(sig, sig.blockCount));
    NarrowingLoses(Parts(s, false));
    if Tiles(plan, sig.fileSize) {
      var t :| Partition(t, sig.fileSize) && Parts(t, true) == CopyParts(plan.copies)
          && Parts(t, false) == MissParts(plan.misses);
      PartitionTotal(t, sig.fileSize);
    }
  }

  lemma FullLen(sig: SignatureSet, i: nat)
    requires IsFull(sig, i)
    ensures BlockLen(sig, i) == sig.blockSize
  {
  }

  lemma CopiedOne(sig: SignatureSet, c: seq<CopyOp>, op: CopyOp, m: nat)
    requires Total(CopyParts(c)) == m * sig.blockSize && op.len == sig.blockSize
    ensures Total(CopyParts(c + [op])) == (m + 1) * sig.blockSize
  {
    CopyPartsOfLast(c, op);
    LastTotal(CopyParts(c), (op.destOffsetNew, op.len));
    hide Total, CopyParts;
    OneMore(m, sig.blockSize);
  }

  lemma CopyOpsStep(sig: SignatureSet, matched: seq<bool>, src: seq<nat>, k: nat)
    requires k < |matched| == |src|
    ensures CopyOps(sig, matched, src, k + 1)
            == CopyOps(sig, matched, src, k)
               + if matched[k] then [CopyOp(src[k], k * sig.blockSize, BlockLen(sig, k))] else []
    ensures Matches(matched, k + 1) == Matches(matched, k) + if matched[k] then 1 else 0
  {
    hide BlockLen;
  }

  lemma CopiedNone(sig: SignatureSet, matched: seq<bool>, src: seq<nat>)
    requires |matched| == |src|
    ensures Total(CopyParts(CopyOps(sig, matched, src, 0))) == 0 == Matches(matched, 0)
  {
  }

  lemma {:induction false} CopiedTotal(sig: SignatureSet, matched: seq<bool>, src: seq<nat>, k: nat)
    requires k <= |matched| == |src| && forall i :: 0 <= i < |matched| && matched[i] ==> IsFull(sig, i)
    ensures Total(CopyParts(CopyOps(sig, matched, src, k))) == Matches(matched, k) * sig.blockSize
  {
    hide IsFull, BlockLen, CopyParts, Total, CopyOps, Matches;
    if k == 0 {
      CopiedNone(sig, matched, src);
    } else {
      var i := k - 1;
      CopiedTotal(sig, matched, src, i);
      CopyOpsStep(sig, matched, src, i);
      if matched[i] {
        FullLen(sig, i);
        var op := CopyOp(src[i], i * sig.blockSize, BlockLen(sig, i));
        CopiedOne(sig, CopyOps(sig, matched, src, i), op, Matches(matched, i));
      } else {
        assert CopyOps(sig, matched, src, i) + [] == CopyOps(sig, matched, src, i);
      }
    }
  }

  /** What must be downloaded and what was matched add up to the new file; the total is the sum of the
      miss lengths when they fit. */
  lemma DownloadBalance(sig: SignatureSet, strong: HashFn, oldData: Bytes, opt: BuildOptions)
    requires ValidSet(sig) && WellSized(sig) && Covered(sig) && sig.blockCount > 0 && |oldData| < MAX_FILE
    requires !PlanOf(sig, strong, oldData, opt).stats.earlyStopped
    ensures var plan := PlanOf(sig, strong, oldData, opt);
            && plan.downloadBytes + plan.stats.matchedBytes == sig.fileSize
            && (RunsFit(sig, ScanOf(sig, strong, oldData, opt).matched) ==>
                  plan.downloadBytes == Total(MissParts(plan.misses)))
  {
    var st := ScanOf(sig, strong, oldData, opt);
    ScanResult(sig, strong, oldData, opt);
    EmittedParts(sig, st);
    var s := SpansOf(sig, st.matched, sig.blockCount);
    SpansPartition(sig, st.matched, sig.blockCount);
    PartitionTotal(s, Offset(sig, sig.blockCount));
    CopiedTotal(sig, st.matched, st.matchedSrc, sig.blockCount);
    NarrowingLoses(Parts(s, false));
  }

  lemma RejectedMeans(download: u64, newBytes: u64, matched: nat)
    requires download + matched == newBytes && 100 * newBytes < TWO_64
    ensures BenefitRejected(download, newBytes) <==> matched * 100 <= newBytes * 35
  {
  }

  lemma PlanTotals(sig: SignatureSet, strong: HashFn, oldData: Bytes, opt: BuildOptions)
    requires ValidSet(sig) && sig.blockSize > 0 && sig.blockCount > 0 && |oldData| < MAX_FILE
    ensures var plan := PlanOf(sig, strong, oldData, opt);
            plan.newFileBytes == sig.fileSize && (plan.stats.earlyStopped ==> plan.downloadBytes == sig.fileSize)
  {
    hide ScanOf, Emitted, Flushed;
  }

  /** Below 2^64 / 100 bytes the benefit test refuses a plan that was stopped early, and any other
      exactly when at most 35 hundredths of the new file were matched: the ratio the early stop projects. */
  lemma BenefitMeaning(sig: SignatureSet, strong: HashFn, oldData: Bytes, opt: BuildOptions)
    requires ValidSet(sig) && WellSized(sig) && Covered(sig) && sig.blockCount > 0 && |oldData| < MAX_FILE
    requires 100 * sig.fileSize < TWO_64
    ensures var plan := PlanOf(sig, strong, oldData, opt);
            && plan.downloadBytes <= plan.newFileBytes == sig.fileSize
            && (BenefitRejected(plan.downloadBytes, plan.newFileBytes)
                <==> plan.stats.earlyStopped || plan.stats.matchedBytes * 100 <= plan.newFileBytes * 35)
  {
    hide PlanOf, ScanOf, RunsFit, Parts, Covered, BenefitRejected;
    var plan := PlanOf(sig, strong, oldData, opt);
    PlanTotals(sig, strong, oldData, opt);
    if plan.stats.earlyStopped {
      RejectedMeans(plan.downloadBytes, plan.newFileBytes, 0);
    } else {
      DownloadBalance(sig, strong, oldData, opt);
      RejectedMeans(plan.downloadBytes, plan.newFileBytes, plan.stats.matchedBytes);
    }
  }

  // ----- Rebuilding the new file -----

  /** Overwrite out from `at` on; a write that does not fit changes nothing. */
  ghost function Patch(out: Bytes, at: nat, bytes: Bytes): (r: Bytes)
    ensures |r| == |out|
  {
    if at + |bytes| <= |out| then out[..at] + bytes + out[at + |bytes|..] else out
  }

  ghost function Slice(d: Bytes, at: nat, len: nat): Bytes {
    if at + len <= |d| then d[at..at + len] else []
  }

  /** Carry out the copies from the old file. */
  ghost function DoCopies(c: seq<CopyOp>, oldData: Bytes, out: Bytes): (r: Bytes)
    ensures |r| == |out|
  {
    if c == [] then out
    else
      var op := c[|c|-1];
      Patch(DoCopies(c[..|c|-1], oldData, out), op.destOffsetNew, Slice(oldData, op.srcOffsetOld, op.len))
  }

  /** Fill the misses from the new file. */
  ghost function DoMisses(m: seq<MissOp>, newData: Bytes, out: Bytes): (r: Bytes)
    ensures |r| == |out|
  {
    if m == [] then out
    else
      var op := m[|m|-1];
      Patch(DoMisses(m[..|m|-1], newData, out), op.destOffsetNew, Slice(newData, op.destOffsetNew, op.len))
  }

  ghost predicate Inside(p: Part, x: nat) {
    p.0 <= x < p.0 + p.1
  }

  ghost predicate InSome(ps: seq<Part>, x: nat) {
    exists j :: 0 <= j < |ps| && Inside(ps[j], x)
  }

  lemma PatchRight(newData: Bytes, out: Bytes, at: nat, len: nat, x: nat)
    requires |out| == |newData| && at + len <= |newData| && x < |newData|
    requires out[x] == newData[x] || Inside((at, len), x)
    ensures Patch(out, at, newData[at..at + len])[x] == newData[x]
  {
  }

  /** The copy brings the bytes the new file has there. */
  ghost predicate RightCopy(op: CopyOp, oldData: Bytes, newData: Bytes) {
    && op.srcOffsetOld + op.len <= |oldData| && op.destOffsetNew + op.len <= |newData|
    && Slice(oldData, op.srcOffsetOld, op.len) == Slice(newData, op.destOffsetNew, op.len)
  }

  lemma InSomeLast(ps: seq<Part>, last: Part, x: nat)
    ensures InSome(ps + [last], x) <==> InSome(ps, x) || Inside(last, x)
  {
    var q := ps + [last];
    if InSome(ps, x) {
      var j :| 0 <= j < |ps| && Inside(ps[j], x);
      assert Inside(q[j], x);
    }
    if Inside(last, x) {
      assert Inside(q[|ps|], x);
    }
  }

  lemma RightBytes(op: CopyOp, oldData: Bytes, newData: Bytes)
    requires RightCopy(op, oldData, newData)
    ensures op.destOffsetNew + op.len <= |newData|
    ensures Slice(oldData, op.srcOffsetOld, op.len) == newData[op.destOffsetNew..op.destOffsetNew + op.len]
  {
  }

  lemma LastCopy(c: seq<CopyOp>, oldData: Bytes, out: Bytes, x: nat)
    requires InSome(CopyParts(c), x)
    ensures c != []
    ensures var n, op := |c| - 1, c[|c|-1];
            && CopyParts(c) == CopyParts(c[..n]) + [(op.destOffsetNew, op.len)]
            && DoCopies(c, oldData, out)
               == Patch(DoCopies(c[..n], oldData, out), op.destOffsetNew, Slice(oldData, op.srcOffsetOld, op.len))
  {
    hide Inside, Patch, Slice;
  }

  lemma {:induction false} CopiesRight(c: seq<CopyOp>, oldData: Bytes, newData: Bytes, out: Bytes, x: nat)
    requires |out| == |newData| && x < |newData|
    requires forall j :: 0 <= j < |c| ==> RightCopy(c[j], oldData, newData)
    requires InSome(CopyParts(c), x)
    ensures DoCopies(c, oldData, out)[x] == newData[x]
  {
    hide CopyParts, DoCopies, RightCopy, Slice, Inside, InSome, Patch;
    LastCopy(c, oldData, out, x);
    var n := |c| - 1;
    var op := c[n];
    RightBytes(op, oldData, newData);
    InSomeLast(CopyParts(c[..n]), (op.destOffsetNew, op.len), x);
    if InSome(CopyParts(c[..n]), x) {
      CopiesRight(c[..n], oldData, newData, out, x);
    }
    PatchRight(newData, DoCopies(c[..n], oldData, out), op.destOffsetNew, op.len, x);
  }

  lemma NoParts(x: nat)
    ensures !InSome([], x)
  {
  }

  lemma SliceInside(data: Bytes, at: nat, len: nat)
    requires at + len <= |data|
    ensures Slice(data, at, len) == data[at..at + len]
  {
  }

  lemma {:induction false} MissesRight(m: seq<MissOp>, newData: Bytes, out: Bytes, x: nat)
    requires |out| == |newData| && x < |newData|
    requires forall j :: 0 <= j < |m| ==> m[j].destOffsetNew + m[j].len <= |newData|
    requires out[x] == newData[x] || InSome(MissParts(m), x)
    ensures DoMisses(m, newData, out)[x] == newData[x]
  {
    hide Inside, Patch, Slice, InSome;
    if m == [] {
      NoParts(x);
    } else {
      var n := |m| - 1;
      var op := m[n];
      InSomeLast(MissParts(m[..n]), (op.destOffsetNew, op.len), x);
      if out[x] == newData[x] || InSome(MissParts(m[..n]), x) {
        MissesRight(m[..n], newData, out, x);
      }
      SliceInside(newData, op.destOffsetNew, op.len);
      PatchRight(newData, DoMisses(m[..n], newData, out), op.destOffsetNew, op.len, x);
    }
  }

  /** Every byte of the whole lies in a stretch of one kind or the other, and every stretch in the whole. */
  lemma {:induction false} PartitionCovers(s: seq<Span>, end: nat, x: nat)
    requires Partition(s, end) && x < end
    ensures InSome(Parts(s, true), x) || InSome(Parts(s, false), x)
  {
    var n := |s| - 1;
    var last := s[n];
    var p := Parts(s, last.isCopy);
    if last.start <= x {
      assert Inside(p[|p|-1], x);
    } else {
      PartitionCovers(s[..n], last.start, x);
      var kind := InSome(Parts(s[..n], true), x);
      var j :| 0 <= j < |Parts(s[..n], kind)| && Inside(Parts(s[..n], kind)[j], x);
      assert Inside(Parts(s, kind)[j], x);
    }
  }

  lemma {:induction false} PartitionInside(s: seq<Span>, end: nat, kind: bool, j: nat)
    requires Partition(s, end) && j < |Parts(s, kind)|
    ensures Parts(s, kind)[j].0 + Parts(s, kind)[j].1 <= end
  {
    var n := |s| - 1;
    if j < |Parts(s[..n], kind)| {
      PartitionInside(s[..n], s[n].start, kind, j);
    }
  }

  /** No weak and truncated-strong collision: equal checksums mean equal bytes. */
  ghost predicate NoCollision(sig: SignatureSet, strong: HashFn, oldData: Bytes, newData: Bytes)
    requires ValidSet(sig)
  {
    forall i, src :: 0 <= i < sig.blockCount && GoodMatch(sig, strong, oldData, i, src) ==>
      WindowAt(sig, oldData, src) == BlockBytes(newData, sig.blockSize, i)
  }

  lemma {:induction false} CopyOpsRight(sig: SignatureSet, strong: HashFn, oldData: Bytes, newData: Bytes, st: Scan,
                                        k: nat)
    requires ScanInv(sig, strong, oldData, st) && NoCollision(sig, strong, oldData, newData)
    requires WellSized(sig) && sig.fileSize == |newData| && k <= sig.blockCount
    ensures forall j :: 0 <= j < |CopyOps(sig, st.matched, st.matchedSrc, k)| ==>
              RightCopy(CopyOps(sig, st.matched, st.matchedSrc, k)[j], oldData, newData)
  {
    hide CopyOps, RightCopy, BlockLen, SourcesApart, CapturesMatch, Matches, NoCollision;
    if k == 0 {
      NoCopies(sig, st.matched, st.matchedSrc);
    } else {
      CopyOpsRight(sig, strong, oldData, newData, st, k - 1);
      CopyOpsStep(sig, st.matched, st.matchedSrc, k - 1);
      if st.matched[k - 1] {
        assert GoodMatch(sig, strong, oldData, k - 1, st.matchedSrc[k - 1]);
        OneCopyRight(sig, strong, oldData, newData, k - 1, st.matchedSrc[k - 1], (k - 1) * sig.blockSize);
      }
    }
  }

  lemma NoCopies(sig: SignatureSet, matched: seq<bool>, src: seq<nat>)
    requires |matched| == |src|
    ensures CopyOps(sig, matched, src, 0) == []
  {
  }

  lemma {:induction false} OneCopyRight(sig: SignatureSet, strong: HashFn, oldData: Bytes, newData: Bytes, i: nat,
                                        src: nat, at: nat)
    requires at == i * sig.blockSize && ValidSet(sig) && WellSized(sig)
    requires sig.fileSize == |newData| && i < sig.blockCount
    requires GoodMatch(sig, strong, oldData, i, src) && NoCollision(sig, strong, oldData, newData)
    ensures RightCopy(CopyOp(src, at, BlockLen(sig, i)), oldData, newData)
  {
    BlockOffsets(sig, i);
    assert WindowAt(sig, oldData, src) == BlockBytes(newData, sig.blockSize, i);
  }

  /** Right copies and exact misses that tile the file rebuild it. */
  lemma TilingRebuilds(s: seq<Span>, c: seq<CopyOp>, m: seq<MissOp>, oldData: Bytes, newData: Bytes, out: Bytes)
    requires Partition(s, |newData|) && |out| == |newData|
    requires CopyParts(c) == Parts(s, true) && MissParts(m) == Parts(s, false)
    requires forall j :: 0 <= j < |c| ==> RightCopy(c[j], oldData, newData)
    ensures DoMisses(m, newData, DoCopies(c, oldData, out)) == newData
  {
    hide Partition, Parts, RightCopy, DoCopies, DoMisses, CopyParts, MissParts;
    var copied := DoCopies(c, oldData, out);
    forall j | 0 <= j < |m| ensures m[j].destOffsetNew + m[j].len <= |newData| {
      PartitionInside(s, |newData|, false, j);
      MissPartAt(m, j);
    }
    forall x | 0 <= x < |newData| ensures DoMisses(m, newData, copied)[x] == newData[x] {
      PartitionCovers(s, |newData|, x);
      if InSome(Parts(s, true), x) {
        CopiesRight(c, oldData, newData, out, x);
      }
      MissesRight(m, newData, copied, x);
    }
  }

  /** Carrying out the plan, over any initial content, gives the new file. */
  lemma PlanRebuilds(sig: SignatureSet, strong: HashFn, oldData: Bytes, newData: Bytes, opt: BuildOptions, out: Bytes)
    requires ValidSet(sig) && WellSized(sig) && Covered(sig) && sig.blockCount > 0 && sig.fileSize == |newData| == |out|
    requires |oldData| < MAX_FILE && NoCollision(sig, strong, oldData, newData)
    requires !PlanOf(sig, strong, oldData, opt).stats.earlyStopped
    requires RunsFit(sig, ScanOf(sig, strong, oldData, opt).matched)
    ensures var plan := PlanOf(sig, strong, oldData, opt);
            DoMisses(plan.misses, newData, DoCopies(plan.copies, oldData, out)) == newData
  {
    var st := ScanOf(sig, strong, oldData, opt);
    var plan := PlanOf(sig, strong, oldData, opt);
    assert plan == PlanFrom(sig, st) && !st.stopped && Offset(sig, sig.blockCount) == |newData|;
    hide ScanOf, PlanOf, PlanFrom, NoCollision, SpansOf, CopyOps, RightCopy, DoCopies, DoMisses, Partition, Parts;
    ScanResult(sig, strong, oldData, opt);
    EmittedParts(sig, st);
    CopyOpsRight(sig, strong, oldData, newData, st, sig.blockCount);
    var s := SpansOf(sig, st.matched, sig.blockCount);
    SpansPartition(sig, st.matched, sig.blockCount);
    NarrowingLoses(Parts(s, false));
    TilingRebuilds(s, plan.copies, plan.misses, oldData, newData, out);
  }

  lemma {:induction false} MissPartAt(m: seq<MissOp>, j: nat)
    requires j < |m|
    ensures MissParts(m)[j] == (m[j].destOffsetNew, m[j].len)
  {
    if j < |m| - 1 {
      MissPartAt(m[..|m|-1], j);
    }
  }

  // ----- Signatures generated from the new file -----

  /** What a generated signature set satisfies. */
  lemma GeneratedSet(strong: HashFn, newData: Bytes)
    requires 0 < |newData| < TWO_64
    ensures ValidSet(SigOf(strong, newData)) && WellSized(SigOf(strong, newData))
  {
    var sig := SigOf(strong, newData);
    forall i | 0 <= i < sig.blockCount ensures i * sig.blockSize < sig.fileSize {
      BlocksStartInside(sig.fileSize, sig.blockSize, i);
    }
  }

  /** The end-to-end promise: sign the new file, plan against the old one, carry the plan out. */
  lemma DeltaRoundTrip(strong: HashFn, oldData: Bytes, newData: Bytes, opt: BuildOptions, out: Bytes)
    requires 0 < |newData| < TWO_64 && |oldData| < MAX_FILE && |out| == |newData|
    requires Covered(SigOf(strong, newData))
    requires ValidSet(SigOf(strong, newData)) && NoCollision(SigOf(strong, newData), strong, oldData, newData)
    requires !PlanOf(SigOf(strong, newData), strong, oldData, opt).stats.earlyStopped
    requires RunsFit(SigOf(strong, newData), ScanOf(SigOf(strong, newData), strong, oldData, opt).matched)
    ensures var plan := PlanOf(SigOf(strong, newData), strong, oldData, opt);
            && DoMisses(plan.misses, newData, DoCopies(plan.copies, oldData, out)) == newData
            && Tiles(plan, |newData|)
            && plan.downloadBytes == Total(MissParts(plan.misses)) == |newData| - plan.stats.matchedBytes
  {
    var sig := SigOf(strong, newData);
    GeneratedSet(strong, newData);
    CoveredCount(sig);
    var st := ScanOf(sig, strong, oldData, opt);
    assert PlanOf(sig, strong, oldData, opt) == PlanFrom(sig, st) && !st.stopped;
    hide *;
    PlanRebuilds(sig, strong, oldData, newData, opt, out);
    TilesIff(sig, st);
    DownloadBalance(sig, strong, oldData, opt);
  }

  lemma CoveredCount(sig: SignatureSet)
    requires Covered(sig) && sig.fileSize > 0
    ensures sig.blockCount > 0
  {
  }

  // ----- Where the promise ends -----

  lemma {:induction false} OneRun(sig: SignatureSet, matched: seq<bool>, k: nat)
    requires WellSized(sig) && 0 < k <= |matched| == sig.blockCount && forall i :: 0 <= i < k ==> !matched[i]
    ensures SpansOf(sig, matched, k) == [Span(false, 0, Offset(sig, k))]
  {
    BlockOffsets(sig, k - 1);
    if k > 1 {
      OneRun(sig, matched, k - 1);
    }
  }

  lemma AllMissing(sig: SignatureSet, st: Scan)
    requires WellSized(sig) && Covered(sig) && |st.matched| == |st.matchedSrc| == sig.blockCount > 0
    requires !st.stopped && forall i :: 0 <= i < sig.blockCount ==> !st.matched[i]
    ensures var plan := PlanFrom(sig, st);
            && plan.copies == [] && plan.misses == [MissOp(0, Wrap32(sig.fileSize))]
            && plan.downloadBytes == sig.fileSize
            && (Tiles(plan, sig.fileSize) <==> sig.fileSize < TWO_32)
  {
    OneRun(sig, st.matched, sig.blockCount);
    assert SpansOf(sig, st.matched, sig.blockCount) == [Span(false, 0, sig.fileSize)];
    EmittedParts(sig, st);
    TilesIff(sig, st);
    SingleRun(sig.fileSize);
    assert Total([(0, sig.fileSize)]) == sig.fileSize by {
      LastTotal([], (0, sig.fileSize));
    }
    hide PlanFrom, SpansOf, Tiles, WellSized, Parts, Narrowed, Total, Fit, CopyOps;
  }

  /** With an old file shorter than a block everything is one miss, of narrowed length. */
  lemma NothingMatched(strong: HashFn, oldData: Bytes, newData: Bytes, opt: BuildOptions)
    requires 0 < |newData| < TWO_64 && Covered(SigOf(strong, newData))
    requires ValidSet(SigOf(strong, newData)) && |oldData| < SigOf(strong, newData).blockSize
    ensures var plan := PlanOf(SigOf(strong, newData), strong, oldData, opt);
            && plan.copies == [] && plan.misses == [MissOp(0, Wrap32(|newData|))] && plan.downloadBytes == |newData|
            && (Tiles(plan, |newData|) <==> |newData| < TWO_32)
  {
    var sig := SigOf(strong, newData);
    GeneratedSet(strong, newData);
    CoveredCount(sig);
    var st := Start(sig, |oldData|, opt);
    assert PlanOf(sig, strong, oldData, opt) == PlanFrom(sig, st) && !st.stopped;
    assert forall i :: 0 <= i < sig.blockCount ==> !st.matched[i];
    assert sig.fileSize == |newData|;
    hide *;
    AllMissing(sig, st);
  }

  lemma SingleRun(len: nat)
    ensures Parts([Span(false, 0, len)], true) == [] && Parts([Span(false, 0, len)], false) == [(0, len)]
    ensures Narrowed([(0, len)]) == [MissOp(0, Wrap32(len))] && Fit([(0, len)]) == (len < TWO_32)
  {
    var s: seq<Span>, p: seq<Part> := [Span(false, 0, len)], [(0, len)];
    assert s[..0] == [] && p[..0] == [];
    assert p[0].1 == len;
  }

  lemma FourGiBBlockSize(n: u64)
    requires n == TWO_32
    ensures BlockSizeFor(n) == 0x1_0000
  {
    RootIsUnique(n, 0x1_0000);
    hide Root;
  }

  lemma FourGiBBlockCount(n: u64)
    requires n == TWO_32
    ensures BlockCountFor(n, 0x1_0000) == 0x1_0000
  {
  }

  /** A new file of exactly 4 GiB against an empty old one: the single miss has length 0. */
  lemma FourGiBRunIsLost(strong: HashFn, newData: Bytes, opt: BuildOptions)
    requires |newData| == TWO_32
    ensures ValidSet(SigOf(strong, newData))
    ensures var plan := PlanOf(SigOf(strong, newData), strong, [], opt);
            plan.misses == [MissOp(0, 0)] && plan.downloadBytes == TWO_32 && !Tiles(plan, TWO_32)
  {
    var sig := SigOf(strong, newData);
    GeneratedSet(strong, newData);
    FourGiBBlockSize(|newData|);
    FourGiBBlockCount(|newData|);
    assert sig.blockSize == 0x1_0000 && sig.blockCount == 0x1_0000;
    hide PlanOf, SigOf, Tiles;
    NothingMatched(strong, [], newData, opt);
  }

  // ----- For all old files at once -----

  /** Every plan for this new file that was not stopped early tiles it. */
  ghost predicate AlwaysTiles(strong: HashFn, newData: Bytes)
    requires |newData| < TWO_64 && ValidSet(SigOf(strong, newData))
  {
    forall oldData: Bytes, opt: BuildOptions | |oldData| < MAX_FILE ::
      var plan := PlanOf(SigOf(strong, newData), strong, oldData, opt);
      !plan.stats.earlyStopped ==> Tiles(plan, |newData|)
  }

  lemma CountCovers(n: nat, b: nat, q: nat, r: nat)
    requires 0 < n && 0 < b && r < b && n + b - 1 == q * b + r
    ensures n <= q * b && q <= n
  {
    assert q * b == (q - 1) * b + b;
    MoreBlocks(1, b, if q > 0 then q - 1 else 0);
  }

  lemma MoreBlocks(x: nat, y: nat, b: nat)
    requires x <= y
    ensures x * b <= y * b
  {
  }

  /** Below 2^32 bytes nothing is truncated: neither the block count nor, whatever matches, a run. */
  lemma SmallIsCovered(strong: HashFn, newData: Bytes)
    requires 0 < |newData| < TWO_32
    ensures Covered(SigOf(strong, newData))
  {
    var sig := SigOf(strong, newData);
    var n, b := |newData|, sig.blockSize;
    GeneratedSet(strong, newData);
    assert sig.fileSize == n && sig.blockCount == BlockCountFor(n, b);
    hide SigOf, BlockSizeFor, BlockSigs, ChooseStrongLen;
    SmallCount(n, b);
  }

  lemma SmallCount(n: u64, b: u32)
    requires 0 < n < TWO_32 && 0 < b
    ensures BlockCountFor(n, b) * b >= n
  {
    var x := n + b - 1;
    CountCovers(n, b, x / b, x % b);
    assert Wrap64(x) == x && Wrap32(x / b) == x / b;
  }

  lemma SmallRunsFit(sig: SignatureSet, matched: seq<bool>)
    requires WellSized(sig) && |matched| == sig.blockCount && sig.fileSize < TWO_32
    ensures RunsFit(sig, matched)
  {
    var s := SpansOf(sig, matched, sig.blockCount);
    SpansPartition(sig, matched, sig.blockCount);
    forall j | 0 <= j < |Parts(s, false)| ensures Parts(s, false)[j].1 < TWO_32 {
      PartitionInside(s, Offset(sig, sig.blockCount), false, j);
    }
  }

  lemma SmallTiles(strong: HashFn, newData: Bytes, oldData: Bytes, opt: BuildOptions)
    requires 0 < |newData| < TWO_32 && |oldData| < MAX_FILE && ValidSet(SigOf(strong, newData))
    requires !PlanOf(SigOf(strong, newData), strong, oldData, opt).stats.earlyStopped
    ensures Tiles(PlanOf(SigOf(strong, newData), strong, oldData, opt), |newData|)
  {
    var sig := SigOf(strong, newData);
    GeneratedSet(strong, newData);
    SmallIsCovered(strong, newData);
    CoveredCount(sig);
    var st := ScanOf(sig, strong, oldData, opt);
    assert PlanOf(sig, strong, oldData, opt) == PlanFrom(sig, st) && !st.stopped;
    assert sig.fileSize == |newData|;
    hide *;
    SmallRunsFit(sig, st.matched);
    TilesIff(sig, st);
  }

  lemma NothingTilesNothing(plan: DeltaPlan, total: nat)
    requires plan.copies == [] && plan.misses == []
    ensures Tiles(plan, total) <==> total == 0
  {
    assert Partition([], 0) && Parts([], true) == [] && Parts([], false) == [];
    if Tiles(plan, total) {
      var t :| Partition(t, total) && Parts(t, true) == [] && Parts(t, false) == [];
      PartitionTotal(t, total);
    }
  }

  /** Against the empty old file nothing matches, and a large new file is not tiled. */
  lemma LargeIsLost(strong: HashFn, newData: Bytes, opt: BuildOptions)
    requires TWO_32 <= |newData| < TWO_64 && ValidSet(SigOf(strong, newData))
    ensures var plan := PlanOf(SigOf(strong, newData), strong, [], opt);
            !plan.stats.earlyStopped && !Tiles(plan, |newData|)
  {
    var sig := SigOf(strong, newData);
    GeneratedSet(strong, newData);
    var plan := PlanOf(sig, strong, [], opt);
    assert sig.fileSize == |newData|;
    if sig.blockCount == 0 {
      NothingTilesNothing(plan, |newData|);
    } else {
      var st := Start(sig, 0, opt);
      assert plan == PlanFrom(sig, st) && !st.stopped;
      hide PlanOf, SigOf, PlanFrom, Tiles, RunsFit, SpansOf, Covered, WellSized;
      TilesIff(sig, st);
      if Covered(sig) {
        NothingMatched(strong, [], newData, opt);
      }
    }
  }

  /** Whatever the old file and the options, every plan that is not stopped early tiles the new file, if and
      only if the new file is below 2^32 bytes. */
  lemma AlwaysTilesIff(strong: HashFn, newData: Bytes)
    requires |newData| < TWO_64 && ValidSet(SigOf(strong, newData))
    ensures AlwaysTiles(strong, newData) <==> |newData| < TWO_32
  {
    hide Tiles, ScanOf, PlanFrom;
    if newData == [] {
      forall oldData: Bytes, opt: BuildOptions | |oldData| < MAX_FILE
        ensures Tiles(PlanOf(SigOf(strong, newData), strong, oldData, opt), |newData|)
      {
        NothingTilesNothing(PlanOf(SigOf(strong, newData), strong, oldData, opt), 0);
      }
    } else if |newData| < TWO_32 {
      forall oldData: Bytes, opt: BuildOptions |
        |oldData| < MAX_FILE && !PlanOf(SigOf(strong, newData), strong, oldData, opt).stats.earlyStopped
        ensures Tiles(PlanOf(SigOf(strong, newData), strong, oldData, opt), |newData|)
      {
        SmallTiles(strong, newData, oldData, opt);
      }
    } else {
      LargeIsLost(strong, newData, BuildOptions(true, 0));
    }
  }

  /** The end-to-end promise for a new file below 2^32 bytes, whatever matches. */
  lemma SmallRoundTrip(strong: HashFn, oldData: Bytes, newData: Bytes, opt: BuildOptions, out: Bytes)
    requires 0 < |newData| < TWO_32 && |oldData| < MAX_FILE && |out| == |newData|
    requires ValidSet(SigOf(strong, newData)) && NoCollision(SigOf(strong, newData), strong, oldData, newData)
    requires !PlanOf(SigOf(strong, newData), strong, oldData, opt).stats.earlyStopped
    ensures var plan := PlanOf(SigOf(strong, newData), strong, oldData, opt);
            && DoMisses(plan.misses, newData, DoCopies(plan.copies, oldData, out)) == newData
            && Tiles(plan, |newData|)
            && plan.downloadBytes == Total(MissParts(plan.misses)) == |newData| - plan.stats.matchedBytes
  {
    var sig := SigOf(strong, newData);
    GeneratedSet(strong, newData);
    assert sig.fileSize == |newData| < TWO_32;
    hide *;
    SmallIsCovered(strong, newData);
    SmallRunsFit(sig, ScanOf(sig, strong, oldData, opt).matched);
    DeltaRoundTrip(strong, oldData, newData, opt, out);
  }
}
