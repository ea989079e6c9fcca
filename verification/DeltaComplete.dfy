/**
 What a plan finds: no window of the old file that a missing block could have been copied from is passed over,
 so a file planned against itself downloads its short last block only.
 */
module DeltaComplete {
  import opened Ints
  import opened DeltaArith
  import opened Checksum
  import opened Signatures
  import opened DeltaPlan
  import opened DeltaRebuild
  import Matching

  // ----- Every window is looked at -----

  /** The window at p starts inside one that was matched. */
  ghost predicate Taken(sig: SignatureSet, st: Scan, p: nat)
    requires |st.matched| == |st.matchedSrc| == sig.blockCount
  {
    exists i :: 0 <= i < sig.blockCount && st.matched[i] && st.matchedSrc[i] <= p < st.matchedSrc[i] + sig.blockSize
  }

  /** No block that is still missing has the checksums of the window at p. */
  ghost predicate Useless(sig: SignatureSet, strong: HashFn, oldData: Bytes, matched: seq<bool>, p: nat)
    requires ValidSet(sig) && |matched| == sig.blockCount && p + sig.blockSize <= |oldData|
  {
    var w := WindowAt(sig, oldData, p);
    forall i: nat :: !Eligible(sig, matched, WeakOf(w).Value(), strong(w), i)
  }

  ghost predicate SeenBelow(sig: SignatureSet, strong: HashFn, oldData: Bytes, st: Scan, n: nat)
    requires ScanOk(sig, |oldData|, st)
  {
    forall p: nat :: p < n && p + sig.blockSize <= |oldData| ==>
      Taken(sig, st, p) || Useless(sig, strong, oldData, st.matched, p)
  }

  /** A further match takes its own window and leaves what was seen as it was. */
  lemma MatchSeen(sig: SignatureSet, strong: HashFn, oldData: Bytes, st: Scan, f: nat, m: Scan)
    requires ScanOk(sig, |oldData|, st) && ScanOk(sig, |oldData|, m) && f < sig.blockCount && !st.matched[f]
    requires m.matched == st.matched[f := true] && m.matchedSrc == st.matchedSrc[f := st.p]
    requires SeenBelow(sig, strong, oldData, st, st.p)
    ensures SeenBelow(sig, strong, oldData, m, st.p + sig.blockSize)
  {
    hide WindowAt, IsFull, SameStrong;
    forall p: nat | p < st.p + sig.blockSize && p + sig.blockSize <= |oldData|
      ensures Taken(sig, m, p) || Useless(sig, strong, oldData, m.matched, p)
    {
      if p >= st.p {
        assert m.matched[f] && m.matchedSrc[f] == st.p;
      } else if Taken(sig, st, p) {
        var i :| 0 <= i < sig.blockCount && st.matched[i] && st.matchedSrc[i] <= p < st.matchedSrc[i] + sig.blockSize;
        assert m.matched[i] && m.matchedSrc[i] == st.matchedSrc[i];
      } else {
        var w := WindowAt(sig, oldData, p);
        forall i: nat ensures !Eligible(sig, m.matched, WeakOf(w).Value(), strong(w), i) {
          assert !Eligible(sig, st.matched, WeakOf(w).Value(), strong(w), i);
        }
      }
    }
  }

  /** One turn: the window at the cursor is taken or useless afterwards. */
  lemma TurnSees(sig: SignatureSet, strong: HashFn, oldData: Bytes, st: Scan, h: Hit)
    requires ScanOk(sig, |oldData|, st) && st.p + sig.blockSize <= |oldData|
    requires h == Probe(sig, strong, st.matched, WindowAt(sig, oldData, st.p))
    requires SeenBelow(sig, strong, oldData, st, st.p)
    ensures h.found >= 0 ==> var m := Moved(sig, Counted(st, h), h);
                             ScanOk(sig, |oldData|, m) && SeenBelow(sig, strong, oldData, m, m.p)
    ensures h.found < 0 ==> SeenBelow(sig, strong, oldData, Counted(st, h), st.p + 1)
  {
    hide Search, IsFull, SameStrong, WindowAt, Taken;
    var w := WindowAt(sig, oldData, st.p);
    SearchFindsHighest(sig, st.matched, WeakOf(w).Value(), strong(w), sig.blockCount);
    if h.found >= 0 {
      hide Useless;
      MatchSeen(sig, strong, oldData, st, h.found, Moved(sig, Counted(st, h), h));
    } else {
      SameSeen(sig, strong, oldData, st, Counted(st, h), st.p);
      assert Useless(sig, strong, oldData, st.matched, st.p);
    }
  }

  /** What was seen depends on the matches alone. */
  lemma SameSeen(sig: SignatureSet, strong: HashFn, oldData: Bytes, st: Scan, t: Scan, n: nat)
    requires ScanOk(sig, |oldData|, st) && ScanOk(sig, |oldData|, t) && SeenBelow(sig, strong, oldData, st, n)
    requires t.matched == st.matched && t.matchedSrc == st.matchedSrc
    ensures SeenBelow(sig, strong, oldData, t, n)
  {
    hide Useless;
    forall p: nat | p < n && p + sig.blockSize <= |oldData|
      ensures Taken(sig, t, p) || Useless(sig, strong, oldData, t.matched, p)
    {
      assert Taken(sig, st, p) ==> Taken(sig, t, p);
    }
  }

  /** A scan that is not stopped has seen every window of the old file. */
  lemma {:induction false} ScanSeesAll(sig: SignatureSet, strong: HashFn, oldData: Bytes, opt: BuildOptions, st: Scan)
    requires ScanOk(sig, |oldData|, st) && st.p + sig.blockSize <= |oldData|
    requires SeenBelow(sig, strong, oldData, st, st.p)
    ensures var r := ScanFrom(sig, strong, oldData, opt, st);
            !r.stopped ==> SeenBelow(sig, strong, oldData, r, |oldData|)
    decreases |oldData| - st.p
  {
    hide SeenBelow, Probe, ProjectedRejected, WindowAt;
    var h := Probe(sig, strong, st.matched, WindowAt(sig, oldData, st.p));
    TurnSees(sig, strong, oldData, st, h);
    var c := Counted(st, h);
    if AtEnd(sig, |oldData|, st.p, h) {
      if h.found >= 0 {
        NoFurtherWindow(sig, strong, oldData, Moved(sig, c, h), st.p + sig.blockSize);
      } else {
        NoFurtherWindow(sig, strong, oldData, c, st.p + 1);
      }
    } else {
      var moved := Moved(sig, c, h);
      var m := Evaluated(sig, |oldData|, opt, moved);
      if !m.stopped {
        SameSeen(sig, strong, oldData, if h.found >= 0 then moved else c, m, m.p);
        ScanSeesAll(sig, strong, oldData, opt, m);
      }
    }
  }

  lemma NoFurtherWindow(sig: SignatureSet, strong: HashFn, oldData: Bytes, st: Scan, n: nat)
    requires ScanOk(sig, |oldData|, st) && SeenBelow(sig, strong, oldData, st, n) && n + sig.blockSize > |oldData|
    ensures SeenBelow(sig, strong, oldData, st, |oldData|)
  {
    hide Taken, Useless;
  }

  // ----- What that says of the plan -----

  /** Block i is full and not copied, the window at p overlaps no earlier copied one, and its checksums are those
      of block i: the block could have been copied from there. */
  ghost predicate Overlooked(sig: SignatureSet, strong: HashFn, oldData: Bytes, plan: DeltaPlan, p: nat, i: nat)
    requires ValidSet(sig)
  {
    && p + sig.blockSize <= |oldData| && i < sig.blockCount && i * sig.blockSize + sig.blockSize <= sig.fileSize
    && (forall c :: c in plan.copies ==> c.destOffsetNew != i * sig.blockSize)
    && (forall c :: c in plan.copies ==> !(c.srcOffsetOld <= p < c.srcOffsetOld + c.len))
    && var w := oldData[p..p + sig.blockSize];
       && WeakOf(w).Value() == sig.blocks[i].weak
       && strong(w)[..sig.strongLen] == sig.blocks[i].strong[..sig.strongLen]
  }

  lemma {:induction false} CopiesAreMatches(sig: SignatureSet, matched: seq<bool>, src: seq<nat>, k: nat, i: nat)
    requires i < k <= |matched| == |src| && matched[i]
    ensures CopyOp(src[i], i * sig.blockSize, BlockLen(sig, i)) in CopyOps(sig, matched, src, k)
  {
    hide BlockLen, CopyOps;
    CopyOpsStep(sig, matched, src, k - 1);
    var op := CopyOp(src[i], i * sig.blockSize, BlockLen(sig, i));
    if i == k - 1 {
      assert op in [op];
    } else {
      CopiesAreMatches(sig, matched, src, k - 1, i);
    }
  }

  lemma FullInside(sig: SignatureSet, i: nat)
    requires i * sig.blockSize + sig.blockSize <= sig.fileSize
    ensures IsFull(sig, i)
  {
    var rest := sig.fileSize - i * sig.blockSize;
    assert sig.blockSize <= rest < TWO_64 && Wrap64(rest) == rest;
  }

  /** A plan that is not stopped early overlooks nothing. */
  lemma NothingOverlooked(sig: SignatureSet, strong: HashFn, oldData: Bytes, opt: BuildOptions, p: nat, i: nat)
    requires ValidSet(sig) && sig.blockSize > 0 && |oldData| < MAX_FILE
    requires !PlanOf(sig, strong, oldData, opt).stats.earlyStopped
    ensures !Overlooked(sig, strong, oldData, PlanOf(sig, strong, oldData, opt), p, i)
  {
    var plan := PlanOf(sig, strong, oldData, opt);
    if Overlooked(sig, strong, oldData, plan, p, i) {
      var st := ScanOf(sig, strong, oldData, opt);
      assert plan == PlanFrom(sig, st) && !st.stopped;
      ScanResult(sig, strong, oldData, opt);
      AllSeen(sig, strong, oldData, opt);
      FullInside(sig, i);
      EmittedParts(sig, st);
      SeenContradicts(sig, strong, oldData, st, plan, p, i);
    }
  }

  lemma AllSeen(sig: SignatureSet, strong: HashFn, oldData: Bytes, opt: BuildOptions)
    requires ValidSet(sig) && sig.blockSize > 0 && |oldData| < MAX_FILE
    ensures var st := ScanOf(sig, strong, oldData, opt); !st.stopped ==> SeenBelow(sig, strong, oldData, st, |oldData|)
  {
    hide ScanFrom;
    if |oldData| >= sig.blockSize {
      ScanSeesAll(sig, strong, oldData, opt, Start(sig, |oldData|, opt));
    }
  }

  lemma SeenContradicts(sig: SignatureSet, strong: HashFn, oldData: Bytes, st: Scan, plan: DeltaPlan, p: nat, i: nat)
    requires ScanInv(sig, strong, oldData, st) && SeenBelow(sig, strong, oldData, st, |oldData|) && IsFull(sig, i)
    requires plan.copies == CopyOps(sig, st.matched, st.matchedSrc, sig.blockCount)
    ensures !Overlooked(sig, strong, oldData, plan, p, i)
  {
    hide CopyOps, SourcesApart, CapturesMatch, Matches, BlockLen;
    if Overlooked(sig, strong, oldData, plan, p, i) {
      if st.matched[i] {
        CopiesAreMatches(sig, st.matched, st.matchedSrc, sig.blockCount, i);
      }
      var w := WindowAt(sig, oldData, p);
      assert Eligible(sig, st.matched, WeakOf(w).Value(), strong(w), i);
      assert !Useless(sig, strong, oldData, st.matched, p);
      var j :| 0 <= j < sig.blockCount && st.matched[j] && st.matchedSrc[j] <= p < st.matchedSrc[j] + sig.blockSize;
      CopiesAreMatches(sig, st.matched, st.matchedSrc, sig.blockCount, j);
      assert GoodMatch(sig, strong, oldData, j, st.matchedSrc[j]);
      FullLen(sig, j);
    }
  }

  // ----- Runs of missing blocks -----

  lemma {:induction false} SpansApart(sig: SignatureSet, matched: seq<bool>, k: nat, i: nat)
    requires k <= |matched| && i + 1 < |SpansOf(sig, matched, k)|
    ensures SpansOf(sig, matched, k)[i].isCopy || SpansOf(sig, matched, k)[i + 1].isCopy
  {
    hide BlockLen;
    if k > 0 {
      var s, t := SpansOf(sig, matched, k - 1), SpansOf(sig, matched, k);
      if i + 1 < |s| {
        SpansApart(sig, matched, k - 1, i);
      }
    }
  }

  /** Neighbouring missing blocks are fetched in one: of two stretches of a plan next to each other one is a copy,
      and the misses of the plan are the other ones. */
  lemma {:induction false} MissesApart(sig: SignatureSet, strong: HashFn, oldData: Bytes, opt: BuildOptions)
    requires ValidSet(sig) && WellSized(sig) && sig.blockCount > 0 && |oldData| < MAX_FILE
    requires !PlanOf(sig, strong, oldData, opt).stats.earlyStopped
    ensures exists s :: Alternates(s) && Partition(s, Offset(sig, sig.blockCount))
                        && Narrowed(Parts(s, false)) == PlanOf(sig, strong, oldData, opt).misses
                        && Parts(s, true) == CopyParts(PlanOf(sig, strong, oldData, opt).copies)
  {
    var st := ScanOf(sig, strong, oldData, opt);
    assert PlanOf(sig, strong, oldData, opt) == PlanFrom(sig, st) && !st.stopped;
    var s := SpansOf(sig, st.matched, sig.blockCount);
    EmittedParts(sig, st);
    SpansPartition(sig, st.matched, sig.blockCount);
    forall i: nat | i + 1 < |s| ensures Apart(s, i) {
      SpansApart(sig, st.matched, sig.blockCount, i);
    }
    hide PlanOf, ScanOf, PlanFrom, Parts, Partition, Narrowed, CopyParts, SpansOf;
    assert Alternates(s);
  }

  ghost predicate Alternates(s: seq<Span>) {
    forall i: nat :: i + 1 < |s| ==> Apart(s, i)
  }

  ghost predicate Apart(s: seq<Span>, i: nat)
    requires i + 1 < |s|
  {
    s[i].isCopy || s[i + 1].isCopy
  }

  // ----- A file against itself -----

  /** The window at block k is that block, and its checksums are the block's signature. */
  lemma {:induction false} OwnWindow(strong: HashFn, data: Bytes, sig: SignatureSet, k: nat, at: nat)
    requires 0 < |data| < TWO_64 && sig == SigOf(strong, data) && ValidSet(sig) && k < sig.blockCount
    requires at == k * sig.blockSize && at + sig.blockSize <= |data|
    ensures IsFull(sig, k)
    ensures var w := WindowAt(sig, data, at);
            sig.blocks[k].weak == WeakOf(w).Value() && sig.blocks[k].strong == strong(w)
  {
    FullInside(sig, k);
    assert BlockBytes(data, sig.blockSize, k) == data[at..at + sig.blockSize];
  }

  lemma CountInside(n: u64, b: u32)
    requires 0 < n < 0x400_0000_0000 && b >= 2048
    ensures BlockCountFor(n, b) * b >= n && (BlockCountFor(n, b) - 1) * b < n
  {
    hide BlockCountFor;
    var x := n + b - 1;
    var q, r := x / b, x % b;
    FewBlocks(x, b, q, r);
    CountCovers(n, b, q, r);
    CountIs(n, b, q);
    OneMore(q - 1, b);
  }

  lemma CountIs(n: u64, b: u32, q: nat)
    requires 0 < n < 0x400_0000_0000 && b >= 2048 && q == (n + b - 1) / b && q < TWO_32
    ensures BlockCountFor(n, b) == q
  {
    assert Wrap64(n + b - 1) == n + b - 1 && Wrap32(q) == q;
  }

  lemma FewBlocks(x: nat, b: nat, q: nat, r: nat)
    requires b >= 2048 && x == q * b + r && x < 0x800_0000_0000
    ensures q < TWO_32
  {
    if q >= TWO_32 {
      MulGrows(TWO_32, 2048, q, b);
    }
  }

  /** What a generated signature set says of a file below 2^42 bytes: its size, a balanced block size, as many blocks
      as it takes, the length of strong checksum for that many, and the two checksums of every full block. */
  lemma {:induction false} SignatureMeaning(strong: HashFn, data: Bytes, k: nat, at: nat)
    requires 0 < |data| < 0x400_0000_0000
    ensures var sig := SigOf(strong, data);
            && sig.fileSize == |data| && BalancedSize(|data|, sig.blockSize) && |sig.blocks| == sig.blockCount
            && (sig.blockCount - 1) * sig.blockSize < |data| <= sig.blockCount * sig.blockSize
            && sig.strongLen == (if sig.blockCount <= 65536 then 8 else if sig.blockCount <= 4194304 then 12 else 16)
            && (k < sig.blockCount && at == k * sig.blockSize && at + sig.blockSize <= |data| ==>
                  var w := data[at..at + sig.blockSize];
                  sig.blocks[k].weak == WeakOf(w).Value() && sig.blocks[k].strong == strong(w))
  {
    var sig := SigOf(strong, data);
    GeneratedSet(strong, data);
    BlockSizeBalances(|data|);
    StrongLenMeaning(sig.blockCount);
    CountInside(|data|, sig.blockSize);
    if k < sig.blockCount && at == k * sig.blockSize && at + sig.blockSize <= |data| {
      OwnWindow(strong, data, sig, k, at);
    }
    hide BlockSizeFor, BlockSigs, ChooseStrongLen, WeakOf, IsFull, BlockLen;
  }

  /** The scan has matched the first k windows, one after the other. */
  ghost predicate InStep(strong: HashFn, data: Bytes, sig: SignatureSet, st: Scan, k: nat) {
    && ScanInv(sig, strong, data, st) && st.p == st.matchedBytes == k * sig.blockSize
    && forall i :: 0 <= i < sig.blockCount && st.matched[i] ==> StartsOne(sig.blockSize, k, st.matchedSrc[i])
  }

  ghost predicate OwnSet(strong: HashFn, data: Bytes, sig: SignatureSet) {
    && 0 < |data| < MAX_FILE && sig == SigOf(strong, data)
    && ValidSet(sig) && WellSized(sig) && Covered(sig)
  }

  /** Full block i looks like block k. */
  ghost predicate Alike(sig: SignatureSet, i: nat, k: nat)
    requires ValidSet(sig) && i < sig.blockCount && k < sig.blockCount
  {
    IsFull(sig, i) && sig.blocks[i].weak == sig.blocks[k].weak && SameStrong(sig, i, sig.blocks[k].strong)
  }

  ghost predicate StartsOne(blockSize: nat, k: nat, src: nat) {
    exists m: nat :: m < k && src == m * blockSize
  }

  /** The block whose window starts at src. */
  ghost function AtBlock(blockSize: nat, k: nat, src: nat): nat
    requires StartsOne(blockSize, k, src)
  {
    var m: nat :| m < k && src == m * blockSize;
    m
  }

  lemma AtBlockDiffers(blockSize: nat, k: nat, x: nat, y: nat)
    requires StartsOne(blockSize, k, x) && StartsOne(blockSize, k, y) && x != y
    ensures AtBlock(blockSize, k, x) != AtBlock(blockSize, k, y)
  {
  }

  /** A block that looks like the next one and is already matched was matched in an earlier window alike. */
  lemma {:induction false} OriginAlike(strong: HashFn, data: Bytes, sig: SignatureSet, st: Scan, k: nat, i: nat,
                                       others: set<nat>)
    requires OwnSet(strong, data, sig) && InStep(strong, data, sig, st, k) && k < sig.blockCount
    requires i < sig.blockCount && st.matched[i] && Alike(sig, i, k)
    requires forall m: nat :: m < sig.blockCount && Alike(sig, m, k) && m != k ==> m in others
    ensures OriginIn(others, sig.blockSize, k, st.matchedSrc, i)
  {
    hide SigOf, SourcesApart, CapturesMatch, Matches, Covered, WellSized;
    assert GoodMatch(sig, strong, data, i, st.matchedSrc[i]);
    var m := AtBlock(sig.blockSize, k, st.matchedSrc[i]);
    OwnWindow(strong, data, sig, m, st.matchedSrc[i]);
    hide BlockLen;
    assert Alike(sig, m, k);
  }

  lemma {:induction false} SourcesDiffer(strong: HashFn, data: Bytes, sig: SignatureSet, st: Scan, k: nat, i: nat,
                                         j: nat)
    requires InStep(strong, data, sig, st, k) && i < sig.blockCount && j < sig.blockCount && i != j
    requires st.matched[i] && st.matched[j]
    ensures st.matchedSrc[i] != st.matchedSrc[j]
  {
    hide MatchesGood, CapturesMatch, Matches;
  }

  lemma AlikeItself(sig: SignatureSet, k: nat)
    requires ValidSet(sig) && k < sig.blockCount && IsFull(sig, k)
    ensures Alike(sig, k, k)
  {
  }

  lemma {:induction false} InStepSizes(strong: HashFn, data: Bytes, sig: SignatureSet, st: Scan, k: nat)
    requires OwnSet(strong, data, sig) && InStep(strong, data, sig, st, k)
    ensures ValidSet(sig) && |st.matched| == |st.matchedSrc| == sig.blockCount && 0 < |data| < TWO_64
    ensures sig == SigOf(strong, data) && st.p == k * sig.blockSize && sig.blockSize > 0
  {
    hide SigOf, MatchesGood, SourcesApart, CapturesMatch, Matches, Covered, WellSized;
  }

  ghost predicate OriginIn(target: set<nat>, blockSize: nat, k: nat, src: seq<nat>, i: nat) {
    i < |src| && StartsOne(blockSize, k, src[i]) && AtBlock(blockSize, k, src[i]) in target
  }

  /** Blocks with different sources have different origins: there are no more of them than origins. */
  lemma {:induction false} OriginsBound(blocks: set<nat>, target: set<nat>, k: nat, src: seq<nat>, blockSize: nat)
    requires forall i :: i in blocks ==> OriginIn(target, blockSize, k, src, i)
    requires forall i :: i in blocks ==> i < |src|
    requires forall i, j :: i in blocks && j in blocks && i != j ==> src[i] != src[j]
    ensures |blocks| <= |target|
  {
    hide AtBlock, StartsOne;
    var origin := map i | i in blocks :: AtBlock(blockSize, k, src[i]);
    forall i, j | i in blocks && j in blocks && origin[i] == origin[j] ensures i == j {
      if i != j {
        AtBlockDiffers(blockSize, k, src[i], src[j]);
      }
    }
    Matching.InjectionBound(origin, target);
    assert origin.Keys == blocks;
  }

  /** Among the blocks that look like the next one some are not matched yet: each match of one of them has used
      up another window of that look. */
  lemma {:induction false} SomeLeft(strong: HashFn, data: Bytes, sig: SignatureSet, st: Scan, k: nat)
    requires OwnSet(strong, data, sig) && InStep(strong, data, sig, st, k) && k < sig.blockCount && IsFull(sig, k)
    ensures |st.matched| == sig.blockCount
    ensures exists i :: 0 <= i < sig.blockCount && Alike(sig, i, k) && !st.matched[i]
  {
    hide OwnSet, InStep, Alike, IsFull, OriginIn;
    InStepSizes(strong, data, sig, st, k);
    if forall i :: 0 <= i < sig.blockCount && Alike(sig, i, k) ==> st.matched[i] {
      var alike := set i: nat | i < sig.blockCount && Alike(sig, i, k);
      forall i | i in alike ensures OriginIn(alike - {k}, sig.blockSize, k, st.matchedSrc, i) {
        OriginAlike(strong, data, sig, st, k, i, alike - {k});
      }
      AlikeItself(sig, k);
      forall i, j | i in alike && j in alike && i != j ensures st.matchedSrc[i] != st.matchedSrc[j] {
        SourcesDiffer(strong, data, sig, st, k, i, j);
      }
      OriginsBound(alike, alike - {k}, k, st.matchedSrc, sig.blockSize);
    }
  }

  lemma AlikeEligible(sig: SignatureSet, matched: seq<bool>, i: nat, k: nat)
    requires ValidSet(sig) && |matched| == sig.blockCount && i < sig.blockCount && k < sig.blockCount
    requires Alike(sig, i, k) && !matched[i]
    ensures Eligible(sig, matched, sig.blocks[k].weak, sig.blocks[k].strong, i)
  {
    hide IsFull, SameStrong;
  }

  /** In step, the next window is matched. */
  lemma {:induction false} NextMatches(strong: HashFn, data: Bytes, sig: SignatureSet, st: Scan, k: nat)
    requires OwnSet(strong, data, sig) && InStep(strong, data, sig, st, k) && k < sig.blockCount
    requires st.p + sig.blockSize <= |data|
    ensures ValidSet(sig) && |st.matched| == sig.blockCount
    ensures Probe(sig, strong, st.matched, WindowAt(sig, data, st.p)).found >= 0
  {
    hide Search, OwnSet, InStep, WindowAt, IsFull, SameStrong, Alike, SigOf;
    InStepSizes(strong, data, sig, st, k);
    var w := WindowAt(sig, data, st.p);
    SearchFindsHighest(sig, st.matched, WeakOf(w).Value(), strong(w), sig.blockCount);
    OwnWindow(strong, data, sig, k, st.p);
    SomeLeft(strong, data, sig, st, k);
    var i :| 0 <= i < sig.blockCount && Alike(sig, i, k) && !st.matched[i];
    AlikeEligible(sig, st.matched, i, k);
  }

  lemma {:induction false} StepOn(strong: HashFn, data: Bytes, sig: SignatureSet, st: Scan, k: nat, h: Hit)
    requires OwnSet(strong, data, sig) && InStep(strong, data, sig, st, k) && st.p + sig.blockSize <= |data|
    requires h == Probe(sig, strong, st.matched, WindowAt(sig, data, st.p)) && h.found >= 0
    ensures InStep(strong, data, sig, Moved(sig, Counted(st, h), h), k + 1)
  {
    hide SigOf, Covered, WellSized, ScanInv, Probe, WindowAt, Matches;
    InStepSizes(strong, data, sig, st, k);
    TurnKeepsInv(sig, strong, data, st, h);
    var m := Moved(sig, Counted(st, h), h);
    OneMore(k, sig.blockSize);
    forall i | 0 <= i < sig.blockCount && m.matched[i] ensures StartsOne(sig.blockSize, k + 1, m.matchedSrc[i]) {
      if i != h.found {
        assert StartsOne(sig.blockSize, k, st.matchedSrc[i]);
      }
    }
  }

  /** In step the projection finds that everything so far was matched, and does not refuse. */
  lemma {:induction false} NotRefused(strong: HashFn, data: Bytes, sig: SignatureSet, opt: BuildOptions, st: Scan,
                                      k: nat)
    requires OwnSet(strong, data, sig) && InStep(strong, data, sig, st, k) && st.p > 0 && st.p <= |data|
    requires |data| * 100 < TWO_64 && !st.stopped
    ensures !Evaluated(sig, |data|, opt, st).stopped
  {
    hide ProjectedRejected, ScanInv, WellSized, Covered, SigOf;
    OwnSize(strong, data, sig);
    var n := |data|;
    ProjectionIsExact(st.matchedBytes, st.p, n, n);
    MoreIsMore(st.p, n);
  }

  lemma OwnSize(strong: HashFn, data: Bytes, sig: SignatureSet)
    requires OwnSet(strong, data, sig)
    ensures sig.fileSize == |data| && sig.blockSize > 0
  {
  }

  lemma MoreIsMore(p: nat, n: nat)
    requires 0 < p && 0 < n
    ensures p * n * 100 > n * 35 * p
  {
    assert p * n > 0 && n * 35 * p == 35 * (p * n);
  }

  /** In step, with no window left. */
  ghost predicate Through(strong: HashFn, data: Bytes, sig: SignatureSet, st: Scan) {
    st.p + sig.blockSize > |data| && exists n :: InStep(strong, data, sig, st, n)
  }

  lemma EndThrough(strong: HashFn, data: Bytes, sig: SignatureSet, st: Scan, n: nat)
    requires InStep(strong, data, sig, st, n) && st.p + sig.blockSize > |data|
    ensures Through(strong, data, sig, st)
  {
    hide InStep;
  }

  lemma {:induction false} StepSizes(strong: HashFn, data: Bytes, sig: SignatureSet, st: Scan, k: nat)
    requires OwnSet(strong, data, sig) && InStep(strong, data, sig, st, k)
    ensures ValidSet(sig) && |st.matched| == |st.matchedSrc| == sig.blockCount && 0 < |data| < TWO_64
    ensures sig.blockSize > 0
  {
    hide InStep, OwnSet;
    InStepSizes(strong, data, sig, st, k);
  }

  /** The scan of a file against its own signatures stays in step to the end, and is not stopped below 2^64 / 100
      bytes. */
  lemma {:induction false} OwnScan(strong: HashFn, data: Bytes, sig: SignatureSet, opt: BuildOptions, st: Scan, k: nat)
    requires OwnSet(strong, data, sig) && InStep(strong, data, sig, st, k) && !st.stopped
    requires ScanOk(sig, |data|, st) && k < sig.blockCount && st.p + sig.blockSize <= |data|
    ensures var r := ScanFrom(sig, strong, data, opt, st);
            && (|data| * 100 < TWO_64 ==> !r.stopped)
            && (!r.stopped ==> Through(strong, data, sig, r))
    decreases |data| - st.p
  {
    hide OwnSet, InStep, Probe, WindowAt, Evaluated, Moved, AtEnd, Through, ScanInv;
    StepSizes(strong, data, sig, st, k);
    NextMatches(strong, data, sig, st, k);
    var h := Probe(sig, strong, st.matched, WindowAt(sig, data, st.p));
    StepOn(strong, data, sig, st, k, h);
    var moved := Moved(sig, Counted(st, h), h);
    EndAfterMatch(sig, |data|, st, h);
    if AtEnd(sig, |data|, st.p, h) {
      EndThrough(strong, data, sig, moved, k + 1);
    } else {
      var m := Evaluated(sig, |data|, opt, moved);
      EvaluatedFrame(sig, |data|, opt, moved);
      if |data| * 100 < TWO_64 {
        NotRefused(strong, data, sig, opt, moved, k + 1);
      }
      if !m.stopped {
        SameStep(strong, data, sig, moved, m, k + 1);
        MoreBlocksInside(strong, data, sig, m, k + 1);
        OwnScan(strong, data, sig, opt, m, k + 1);
      }
    }
  }

  lemma EndAfterMatch(sig: SignatureSet, oldLen: nat, st: Scan, h: Hit)
    requires ScanOk(sig, oldLen, st) && 0 <= h.found < sig.blockCount && st.p + sig.blockSize <= oldLen
    ensures var m := Moved(sig, Counted(st, h), h);
            && ScanOk(sig, oldLen, m) && m.p == st.p + sig.blockSize && m.stopped == st.stopped
            && (AtEnd(sig, oldLen, st.p, h) <==> m.p + sig.blockSize > oldLen)
  {
  }

  lemma EvaluatedFrame(sig: SignatureSet, oldLen: nat, opt: BuildOptions, st: Scan)
    requires ScanOk(sig, oldLen, st)
    ensures var t := Evaluated(sig, oldLen, opt, st);
            ScanOk(sig, oldLen, t) && t == st.(stopped := t.stopped, nextEval := t.nextEval)
  {
    hide ProjectedRejected;
  }

  lemma {:induction false} SameStep(strong: HashFn, data: Bytes, sig: SignatureSet, st: Scan, t: Scan, k: nat)
    requires InStep(strong, data, sig, st, k) && t == st.(stopped := t.stopped, nextEval := t.nextEval)
    ensures InStep(strong, data, sig, t, k)
  {
    hide GoodMatch, Matches, StartsOne;
  }

  lemma {:induction false} MoreBlocksInside(strong: HashFn, data: Bytes, sig: SignatureSet, st: Scan, k: nat)
    requires OwnSet(strong, data, sig) && InStep(strong, data, sig, st, k) && st.p + sig.blockSize <= |data|
    ensures k < sig.blockCount
  {
    hide ScanInv, SigOf, WellSized;
    OwnSize(strong, data, sig);
    if k >= sig.blockCount {
      MoreBlocks(sig.blockCount, k, sig.blockSize);
    }
  }

  lemma FewerBlocks(x: nat, y: nat, b: nat)
    ensures x < y ==> x * b + b <= y * b
  {
    if x < y {
      MoreBlocks(x + 1, y, b);
      OneMore(x, b);
    }
  }

  lemma Remainder(n: nat, k: nat, b: nat, p: nat)
    requires p == k * b && p <= n < p + b
    ensures n - p == n % b
  {
    FewerBlocks(n / b, k, b);
    FewerBlocks(k, n / b, b);
  }

  /** An unchanged file downloads its short last block and nothing else, however its blocks repeat or collide. */
  lemma OwnPlan(strong: HashFn, data: Bytes, opt: BuildOptions)
    requires 0 < |data| < MAX_FILE && Covered(SigOf(strong, data)) && ValidSet(SigOf(strong, data))
    ensures var sig := SigOf(strong, data);
            var plan := PlanOf(sig, strong, data, opt);
            && (|data| * 100 < TWO_64 ==> !plan.stats.earlyStopped)
            && (!plan.stats.earlyStopped ==> plan.downloadBytes == |data| % sig.blockSize)
  {
    var sig := SigOf(strong, data);
    GeneratedSet(strong, data);
    CoveredCount(sig);
    OwnSize(strong, data, sig);
    var plan, st := PlanOf(sig, strong, data, opt), ScanOf(sig, strong, data, opt);
    assert plan == PlanFrom(sig, st) && plan.stats.earlyStopped == st.stopped;
    OwnResult(strong, data, sig, opt);
    if !st.stopped {
      DownloadBalance(sig, strong, data, opt);
      var n :| InStep(strong, data, sig, st, n);
      Remainder(|data|, n, sig.blockSize, st.p);
    }
  }

  lemma {:induction false} OwnResult(strong: HashFn, data: Bytes, sig: SignatureSet, opt: BuildOptions)
    requires OwnSet(strong, data, sig) && sig.blockSize > 0 && sig.blockCount > 0
    ensures var st := ScanOf(sig, strong, data, opt);
            && (|data| * 100 < TWO_64 ==> !st.stopped)
            && (!st.stopped ==> Through(strong, data, sig, st))
  {
    var s0 := Start(sig, |data|, opt);
    NoMatches(s0.matched, sig.blockCount);
    assert InStep(strong, data, sig, s0, 0);
    hide InStep, ScanFrom, OwnSet;
    if |data| < sig.blockSize {
      EndThrough(strong, data, sig, s0, 0);
    }
    hide Through;
    if |data| >= sig.blockSize {
      OwnScan(strong, data, sig, opt, s0, 0);
    }
  }
}
