/**
 The bucket index over block signatures: a counting sort into bucket-contiguous entries, blocks in
 descending order within a bucket, and the proof that scanning one bucket is the full search.
 */
module BlockIndex {
  import opened Ints
  import opened Checksum
  import opened Signatures
  import opened DeltaPlan

  const BUCKETS: nat := 65536

  datatype Entry = Entry(weak: u32, blockIndex: nat)

  predicate InBucket(sig: SignatureSet, b: nat, i: nat)
    requires i < |sig.blocks|
  {
    IsFull(sig, i) && BucketOf(sig.blocks[i].weak) == b
  }

  /** The full blocks below k that fall into bucket b, highest index first. */
  ghost function Bucket(sig: SignatureSet, b: nat, k: nat): (l: seq<nat>)
    requires k <= |sig.blocks|
    ensures forall j :: 0 <= j < |l| ==> l[j] < k && InBucket(sig, b, l[j])
  {
    if k == 0 then []
    else (if InBucket(sig, b, k - 1) then [k - 1] else []) + Bucket(sig, b, k - 1)
  }

  ghost function Count(sig: SignatureSet, b: nat, k: nat): nat
    requires k <= |sig.blocks|
  {
    |Bucket(sig, b, k)|
  }

  /** The number of full blocks below k in buckets below b. */
  ghost function Below(sig: SignatureSet, b: nat, k: nat): nat
    requires k <= |sig.blocks|
  {
    if b == 0 then 0 else Below(sig, b - 1, k) + Count(sig, b - 1, k)
  }

  /** The place of block k in its bucket, counted from the top. */
  lemma {:induction false} PlaceInBucket(sig: SignatureSet, b: nat, k: nat, n: nat)
    requires k < n <= |sig.blocks| && InBucket(sig, b, k)
    ensures Count(sig, b, k + 1) == Count(sig, b, k) + 1 <= Count(sig, b, n)
    ensures Bucket(sig, b, n)[Count(sig, b, n) - Count(sig, b, k + 1)] == k
  {
    hide InBucket;
    if k + 1 < n {
      PlaceInBucket(sig, b, k, n - 1);
    }
  }

  lemma {:induction false} CountGrows(sig: SignatureSet, b: nat, k: nat, n: nat)
    requires k <= n <= |sig.blocks|
    ensures Count(sig, b, k) <= Count(sig, b, n)
  {
    if k < n {
      CountGrows(sig, b, k, n - 1);
    }
  }

  lemma CountStep(sig: SignatureSet, b: nat, k: nat)
    requires k < |sig.blocks|
    ensures Count(sig, b, k + 1)
            == Count(sig, b, k) + if IsFull(sig, k) && BucketOf(sig.blocks[k].weak) == b then 1 else 0
  {
  }

  /** Adding block k: its bucket grows by one, and so do the totals of all higher ones. */
  lemma {:induction false} BelowStep(sig: SignatureSet, b: nat, k: nat)
    requires k < |sig.blocks|
    ensures Below(sig, b, k + 1)
            == Below(sig, b, k) + if IsFull(sig, k) && BucketOf(sig.blocks[k].weak) < b then 1 else 0
  {
    if b > 0 {
      BelowStep(sig, b - 1, k);
    }
  }

  lemma {:induction false} BelowZero(sig: SignatureSet, b: nat)
    ensures Below(sig, b, 0) == 0
  {
    if b > 0 {
      BelowZero(sig, b - 1);
    }
  }

  /** Bucket regions are disjoint and in order. */
  lemma {:induction false} BelowGrows(sig: SignatureSet, a: nat, b: nat, n: nat)
    requires a < b && n <= |sig.blocks|
    ensures Below(sig, a, n) + Count(sig, a, n) <= Below(sig, b, n)
    decreases b
  {
    if a + 1 < b {
      BelowGrows(sig, a, b - 1, n);
    }
  }

  /** A bucket's region ends where the next one begins. */
  lemma BelowNext(sig: SignatureSet, b: nat, n: nat)
    requires n <= |sig.blocks|
    ensures Below(sig, b + 1, n) == Below(sig, b, n) + Count(sig, b, n)
  {
  }

  lemma CountAt(sig: SignatureSet, counts: seq<nat>, k: nat, b: nat)
    requires k <= |sig.blocks| && Counts(sig, counts, k) && b < BUCKETS
    ensures |counts| == BUCKETS + 1 && counts[b + 1] == Count(sig, b, k)
  {
  }

  // ----- The counting sort -----

  /** counts[b + 1] is the number of full blocks below k in bucket b. */
  ghost predicate Counts(sig: SignatureSet, counts: seq<nat>, k: nat)
    requires k <= |sig.blocks|
  {
    && |counts| == BUCKETS + 1 && counts[0] == 0
    && forall b :: 0 <= b < BUCKETS ==> counts[b + 1] == Count(sig, b, k)
  }

  lemma CountBlock(sig: SignatureSet, counts: seq<nat>, k: nat, b: nat)
    requires k < |sig.blocks| && Counts(sig, counts, k) && IsFull(sig, k) && b == BucketOf(sig.blocks[k].weak) < BUCKETS
    ensures Counts(sig, counts[b + 1 := counts[b + 1] + 1], k + 1)
  {
    hide IsFull, BucketOf, Bucket;
    var next, n := counts[b + 1 := counts[b + 1] + 1], k + 1;
    forall a | 0 <= a < BUCKETS ensures next[a + 1] == Count(sig, a, n) {
      CountStep(sig, a, k);
    }
  }

  lemma CountNothing(sig: SignatureSet, counts: seq<nat>, k: nat)
    requires k < |sig.blocks| && Counts(sig, counts, k) && !IsFull(sig, k)
    ensures Counts(sig, counts, k + 1)
  {
    hide IsFull, BucketOf, Bucket;
    var n := k + 1;
    forall a | 0 <= a < BUCKETS ensures counts[a + 1] == Count(sig, a, n) {
      CountStep(sig, a, k);
    }
  }

  method CountBuckets(sig: SignatureSet) returns (counts: seq<nat>, full: nat)
    requires ValidSet(sig)
    ensures Counts(sig, counts, sig.blockCount)
    ensures full == Below(sig, BUCKETS, sig.blockCount)
  {
    counts := seq(BUCKETS + 1, _ => 0);
    full := 0;
    BelowZero(sig, BUCKETS);
    assert Counts(sig, counts, 0);
    hide IsFull, BucketOf, Below, Count;
    for i: nat := 0 to sig.blockCount
      invariant |counts| == BUCKETS + 1 && Counts(sig, counts, i)
      invariant full == Below(sig, BUCKETS, i)
    {
      BelowStep(sig, BUCKETS, i);
      if IsFull(sig, i) {
        var b: u16 := BucketOf(sig.blocks[i].weak);
        CountBlock(sig, counts, i, b);
        counts := counts[b + 1 := counts[b + 1] + 1];
        full := full + 1;
      } else {
        CountNothing(sig, counts, i);
      }
    }
  }

  /** Up to bucket b the counts have been summed up. */
  ghost predicate SummedTo(sig: SignatureSet, counts: seq<nat>, starts: seq<nat>, b: nat)
    requires ValidSet(sig)
  {
    && |counts| == |starts| == BUCKETS + 1 && b <= BUCKETS
    && (forall a :: 0 <= a <= b ==> starts[a] == Below(sig, a, sig.blockCount))
    && (forall a :: b < a <= BUCKETS ==> starts[a] == counts[a])
  }

  lemma NothingSummed(sig: SignatureSet, counts: seq<nat>)
    requires ValidSet(sig) && Counts(sig, counts, sig.blockCount)
    ensures SummedTo(sig, counts, counts, 0)
  {
    hide Count;
  }

  lemma OneSummed(sig: SignatureSet, counts: seq<nat>, starts: seq<nat>, b: nat)
    requires ValidSet(sig) && Counts(sig, counts, sig.blockCount) && SummedTo(sig, counts, starts, b) && b < BUCKETS
    ensures |starts| == BUCKETS + 1 && SummedTo(sig, counts, starts[b + 1 := starts[b + 1] + starts[b]], b + 1)
  {
    hide Counts, Below, Count;
    CountAt(sig, counts, sig.blockCount, b);
    BelowNext(sig, b, sig.blockCount);
  }

  method PrefixSums(sig: SignatureSet, counts: seq<nat>) returns (starts: seq<nat>)
    requires ValidSet(sig) && Counts(sig, counts, sig.blockCount)
    ensures |starts| == BUCKETS + 1
    ensures forall b :: 0 <= b <= BUCKETS ==> starts[b] == Below(sig, b, sig.blockCount)
  {
    starts := counts;
    NothingSummed(sig, counts);
    hide Counts, Below, Count;
    for b: nat := 0 to BUCKETS
      invariant SummedTo(sig, counts, starts, b)
    {
      OneSummed(sig, counts, starts, b);
      starts := starts[b + 1 := starts[b + 1] + starts[b]];
    }
  }

  function EntryOf(sig: SignatureSet, i: nat): Entry
    requires i < |sig.blocks|
  {
    Entry(sig.blocks[i].weak, i)
  }

  /** The first m places of bucket b's region hold its blocks from the top. */
  ghost predicate Filled(sig: SignatureSet, entries: seq<Entry>, b: nat, m: int)
    requires ValidSet(sig)
  {
    && 0 <= m <= Count(sig, b, sig.blockCount)
    && Below(sig, b, sig.blockCount) + m <= |entries|
    && var lo := Below(sig, b, sig.blockCount);
       forall x :: lo <= x < lo + m ==> entries[x] == EntryOf(sig, Bucket(sig, b, sig.blockCount)[x - lo])
  }

  datatype Csr = Csr(starts: seq<nat>, entries: seq<Entry>)

  ghost predicate ValidCsr(sig: SignatureSet, csr: Csr)
    requires ValidSet(sig)
  {
    && |csr.starts| == BUCKETS + 1
    && (forall b :: 0 <= b <= BUCKETS ==> csr.starts[b] == Below(sig, b, sig.blockCount))
    && |csr.entries| == Below(sig, BUCKETS, sig.blockCount)
    && (forall b :: 0 <= b < BUCKETS ==> Filled(sig, csr.entries, b, Count(sig, b, sig.blockCount)))
  }

  /** A write outside a bucket's region leaves it as it is. */
  lemma PlaceOther(sig: SignatureSet, entries: seq<Entry>, a: nat, m: int, pos: nat, e: Entry)
    requires ValidSet(sig) && pos < |entries| && Filled(sig, entries, a, m)
    requires pos < Below(sig, a, sig.blockCount) || Below(sig, a, sig.blockCount) + m <= pos
    ensures Filled(sig, entries[pos := e], a, m)
  {
    hide Below, Bucket, IsFull, BucketOf;
  }

  lemma PlaceOwn(sig: SignatureSet, entries: seq<Entry>, b: nat, m: nat, pos: nat)
    requires ValidSet(sig) && pos < |entries| && Filled(sig, entries, b, m) && m < Count(sig, b, sig.blockCount)
    requires pos == Below(sig, b, sig.blockCount) + m
    ensures Filled(sig, entries[pos := EntryOf(sig, Bucket(sig, b, sig.blockCount)[m])], b, m + 1)
  {
    hide Below, IsFull, BucketOf;
  }

  lemma CountIsSize(sig: SignatureSet, b: nat, k: nat)
    requires k <= |sig.blocks|
    ensures Count(sig, b, k) == |Bucket(sig, b, k)|
  {
  }

  /** A block counts in no other bucket than its own. */
  lemma OneBucket(sig: SignatureSet, a: nat, b: nat, k: nat)
    requires k < |sig.blocks| && InBucket(sig, b, k)
    ensures a != b ==> Count(sig, a, k + 1) == Count(sig, a, k)
  {
    hide IsFull, BucketOf;
    CountStep(sig, a, k);
  }

  /** The next free place of block k's bucket, inside the table and in order with the other regions. */
  lemma NextPlace(sig: SignatureSet, b: nat, k: nat, a: nat)
    requires ValidSet(sig) && k < sig.blockCount && InBucket(sig, b, k) && a < BUCKETS && b < BUCKETS
    ensures var n := sig.blockCount;
            var m := Count(sig, b, n) - Count(sig, b, k + 1);
            var pos := Below(sig, b, n) + m;
            && 0 <= m < Count(sig, b, n) && Bucket(sig, b, n)[m] == k
            && Count(sig, b, k + 1) == Count(sig, b, k) + 1
            && pos < Below(sig, BUCKETS, n)
            && (a < b ==> Below(sig, a, n) + Count(sig, a, n) <= pos)
            && (b < a ==> pos < Below(sig, a, n))
            && (a != b ==> Count(sig, a, k + 1) == Count(sig, a, k))
            && Count(sig, a, k) <= Count(sig, a, n)
  {
    var n := sig.blockCount;
    hide IsFull, BucketOf, Bucket, Below, InBucket, Count;
    CountIsSize(sig, b, n);
    PlaceInBucket(sig, b, k, n);
    BelowGrows(sig, b, BUCKETS, n);
    OneBucket(sig, a, b, k);
    CountGrows(sig, a, k, n);
    if a < b {
      BelowGrows(sig, a, b, n);
    } else if b < a {
      BelowGrows(sig, b, a, n);
    }
  }

  /** Placing block k keeps every bucket's region and extends its own. */
  lemma PlaceBlock(sig: SignatureSet, entries: seq<Entry>, b: nat, k: nat, a: nat, pos: nat)
    requires ValidSet(sig) && k < sig.blockCount && InBucket(sig, b, k) && a < BUCKETS && b < BUCKETS
    requires |entries| == Below(sig, BUCKETS, sig.blockCount)
    requires Filled(sig, entries, a, Count(sig, a, sig.blockCount) - Count(sig, a, k + 1))
    requires pos == Below(sig, b, sig.blockCount) + Count(sig, b, sig.blockCount) - Count(sig, b, k + 1)
    ensures pos < |entries|
    ensures Filled(sig, entries[pos := EntryOf(sig, k)], a, Count(sig, a, sig.blockCount) - Count(sig, a, k))
  {
    hide IsFull, BucketOf, Bucket, Below, InBucket, Filled;
    NextPlace(sig, b, k, a);
    var m := Count(sig, a, sig.blockCount) - Count(sig, a, k + 1);
    if a == b {
      PlaceOwn(sig, entries, b, m, pos);
    } else {
      PlaceOther(sig, entries, a, m, pos, EntryOf(sig, k));
    }
  }

  /** The fill state: the regions hold every block from ii up, and fillPos points behind them. */
  ghost predicate Filling(sig: SignatureSet, entries: seq<Entry>, fillPos: seq<int>, ii: nat)
    requires ValidSet(sig) && ii <= sig.blockCount
  {
    && |entries| == Below(sig, BUCKETS, sig.blockCount) && |fillPos| == BUCKETS
    && (forall b :: 0 <= b < BUCKETS ==>
          fillPos[b] == Below(sig, b, sig.blockCount) + Count(sig, b, sig.blockCount) - Count(sig, b, ii))
    && (forall b :: 0 <= b < BUCKETS ==> Filled(sig, entries, b, Count(sig, b, sig.blockCount) - Count(sig, b, ii)))
  }

  lemma FillStart(sig: SignatureSet, entries: seq<Entry>, fillPos: seq<int>)
    requires ValidSet(sig) && |entries| == Below(sig, BUCKETS, sig.blockCount) && |fillPos| == BUCKETS
    requires forall b :: 0 <= b < BUCKETS ==> fillPos[b] == Below(sig, b, sig.blockCount)
    ensures Filling(sig, entries, fillPos, sig.blockCount)
  {
    forall b | 0 <= b < BUCKETS ensures Filled(sig, entries, b, 0) {
      BelowGrows(sig, b, BUCKETS, sig.blockCount);
    }
  }

  lemma FillBlock(sig: SignatureSet, entries: seq<Entry>, fillPos: seq<int>, k: nat, b: nat)
    requires ValidSet(sig) && k < sig.blockCount && Filling(sig, entries, fillPos, k + 1)
    requires b < BUCKETS && InBucket(sig, b, k)
    ensures 0 <= fillPos[b] < |entries|
    ensures Filling(sig, entries[fillPos[b] := EntryOf(sig, k)], fillPos[b := fillPos[b] + 1], k)
  {
    hide IsFull, BucketOf, Bucket, Below, Filled;
    assert Filled(sig, entries, b, Count(sig, b, sig.blockCount) - Count(sig, b, k + 1));
    PlaceInBucket(sig, b, k, sig.blockCount);
    forall a | 0 <= a < BUCKETS
      ensures fillPos[b] < |entries|
      ensures Filled(sig, entries[fillPos[b] := EntryOf(sig, k)], a, Count(sig, a, sig.blockCount) - Count(sig, a, k))
    {
      PlaceBlock(sig, entries, b, k, a, fillPos[b]);
    }
    forall a | 0 <= a < BUCKETS ensures a != b ==> Count(sig, a, k + 1) == Count(sig, a, k) {
      CountStep(sig, a, k);
    }
  }

  lemma FillNothing(sig: SignatureSet, entries: seq<Entry>, fillPos: seq<int>, k: nat)
    requires ValidSet(sig) && k < sig.blockCount && Filling(sig, entries, fillPos, k + 1) && !IsFull(sig, k)
    ensures Filling(sig, entries, fillPos, k)
  {
    hide IsFull, BucketOf, Bucket, Below, Filled;
    forall a | 0 <= a < BUCKETS ensures Count(sig, a, k + 1) == Count(sig, a, k) {
      CountStep(sig, a, k);
    }
  }

  method FillEntries(sig: SignatureSet, starts: seq<nat>, full: nat) returns (entries: seq<Entry>)
    requires ValidSet(sig) && |starts| == BUCKETS + 1
    requires forall b :: 0 <= b <= BUCKETS ==> starts[b] == Below(sig, b, sig.blockCount)
    requires full == Below(sig, BUCKETS, sig.blockCount)
    ensures ValidCsr(sig, Csr(starts, entries))
  {
    entries := seq(full, _ => Entry(0, 0));
    var fillPos: seq<int> := starts[..BUCKETS];
    FillStart(sig, entries, fillPos);
    hide IsFull, BucketOf, Filling;
    var ii: nat := sig.blockCount;
    while ii > 0
      invariant ii <= sig.blockCount && |fillPos| == BUCKETS && Filling(sig, entries, fillPos, ii)
    {
      ii := ii - 1;
      if IsFull(sig, ii) {
        var b: u16 := BucketOf(sig.blocks[ii].weak);
        FillBlock(sig, entries, fillPos, ii, b);
        entries := entries[fillPos[b] := EntryOf(sig, ii)];
        fillPos := fillPos[b := fillPos[b] + 1];
      } else {
        FillNothing(sig, entries, fillPos, ii);
      }
    }
    FillEnd(sig, starts, entries, fillPos);
  }

  lemma FillEnd(sig: SignatureSet, starts: seq<nat>, entries: seq<Entry>, fillPos: seq<int>)
    requires ValidSet(sig) && |starts| == BUCKETS + 1 && Filling(sig, entries, fillPos, 0)
    requires forall b :: 0 <= b <= BUCKETS ==> starts[b] == Below(sig, b, sig.blockCount)
    ensures ValidCsr(sig, Csr(starts, entries))
  {
    hide IsFull, BucketOf, Below, Filled;
    forall b | 0 <= b < BUCKETS ensures Filled(sig, entries, b, Count(sig, b, sig.blockCount)) {
      assert Count(sig, b, 0) == 0;
    }
  }

  method BuildIndex(sig: SignatureSet) returns (csr: Csr)
    requires ValidSet(sig)
    ensures ValidCsr(sig, csr)
  {
    var counts, full := CountBuckets(sig);
    var starts := PrefixSums(sig, counts);
    var entries := FillEntries(sig, starts, full);
    csr := Csr(starts, entries);
  }

  // ----- Scanning one bucket -----

  lemma SearchPasses(sig: SignatureSet, matched: seq<bool>, weak: u32, strong: Digest, rem: nat)
    requires ValidSet(sig) && |matched| == sig.blockCount && 0 < rem <= sig.blockCount
    requires !InBucket(sig, BucketOf(weak), rem - 1)
    ensures Search(sig, matched, weak, strong, rem) == Search(sig, matched, weak, strong, rem - 1)
  {
    hide SameStrong, IsFull;
  }

  /** Below rem, the search only meets the blocks of the window's own bucket: the first of them, or none. */
  lemma {:induction false} NextCandidate(sig: SignatureSet, matched: seq<bool>, weak: u32, strong: Digest, rem: nat)
    requires ValidSet(sig) && |matched| == sig.blockCount && rem <= sig.blockCount
    ensures var l := Bucket(sig, BucketOf(weak), rem);
            if l == [] then Search(sig, matched, weak, strong, rem) == Hit(-1, 0, false)
            else l[0] < rem && Bucket(sig, BucketOf(weak), l[0]) == l[1..]
                 && Search(sig, matched, weak, strong, rem) == Search(sig, matched, weak, strong, l[0] + 1)
  {
    hide Search, InBucket, BucketOf, Bucket;
    if rem == 0 {
      SearchNone(sig, matched, weak, strong, BucketOf(weak));
    } else if InBucket(sig, BucketOf(weak), rem - 1) {
      TopIn(sig, BucketOf(weak), rem);
    } else {
      NextCandidate(sig, matched, weak, strong, rem - 1);
      TopOut(sig, BucketOf(weak), rem);
      SearchPasses(sig, matched, weak, strong, rem);
    }
  }

  lemma SearchNone(sig: SignatureSet, matched: seq<bool>, weak: u32, strong: Digest, b: nat)
    requires ValidSet(sig) && |matched| == sig.blockCount
    ensures Bucket(sig, b, 0) == [] && Search(sig, matched, weak, strong, 0) == Hit(-1, 0, false)
  {
  }

  lemma TopIn(sig: SignatureSet, b: nat, k: nat)
    requires 0 < k <= |sig.blocks| && InBucket(sig, b, k - 1)
    ensures Bucket(sig, b, k) != [] && Bucket(sig, b, k)[0] == k - 1
    ensures Bucket(sig, b, k - 1) == Bucket(sig, b, k)[1..]
  {
    hide InBucket;
  }

  lemma TopOut(sig: SignatureSet, b: nat, k: nat)
    requires 0 < k <= |sig.blocks| && !InBucket(sig, b, k - 1)
    ensures Bucket(sig, b, k) == Bucket(sig, b, k - 1)
  {
    hide InBucket;
  }

  ghost function Entries(sig: SignatureSet, l: seq<nat>): seq<Entry>
    requires forall j :: 0 <= j < |l| ==> l[j] < |sig.blocks|
  {
    if l == [] then [] else [EntryOf(sig, l[0])] + Entries(sig, l[1..])
  }

  lemma {:induction false} EntriesAt(sig: SignatureSet, l: seq<nat>, e: seq<Entry>)
    requires forall j :: 0 <= j < |l| ==> l[j] < |sig.blocks|
    requires |e| == |l| && forall j :: 0 <= j < |l| ==> e[j] == EntryOf(sig, l[j])
    ensures e == Entries(sig, l)
  {
    if l != [] {
      EntriesAt(sig, l[1..], e[1..]);
      assert e == [e[0]] + e[1..];
    }
  }

  /** `left` are the entries of the blocks below rem in bucket b, in scanning order. */
  ghost predicate Candidates(sig: SignatureSet, left: seq<Entry>, b: nat, rem: nat)
    requires ValidSet(sig)
  {
    rem <= sig.blockCount && left == Entries(sig, Bucket(sig, b, rem))
  }

  /** What a valid index says of one bucket. */
  lemma RegionOf(sig: SignatureSet, csr: Csr, b: nat)
    requires ValidSet(sig) && ValidCsr(sig, csr) && b < BUCKETS
    ensures |csr.starts| == BUCKETS + 1 && csr.starts[b] == Below(sig, b, sig.blockCount)
    ensures csr.starts[b + 1] == Below(sig, b + 1, sig.blockCount)
    ensures Filled(sig, csr.entries, b, Count(sig, b, sig.blockCount))
  {
    hide Below, Count, Filled;
  }

  lemma FilledAt(sig: SignatureSet, entries: seq<Entry>, b: nat, m: int, j: nat)
    requires ValidSet(sig) && Filled(sig, entries, b, m) && j < m
    ensures var x := Below(sig, b, sig.blockCount) + j;
            && Below(sig, b, sig.blockCount) + m <= |entries| && j < Count(sig, b, sig.blockCount)
            && entries[x] == EntryOf(sig, Bucket(sig, b, sig.blockCount)[j])
  {
    hide Below;
  }

  lemma FilledSize(sig: SignatureSet, entries: seq<Entry>, b: nat, m: int)
    requires ValidSet(sig) && Filled(sig, entries, b, m)
    ensures Below(sig, b, sig.blockCount) + m <= |entries|
  {
    hide Below, Bucket;
  }

  /** A filled region lists the entries of the bucket's blocks. */
  lemma FilledEntries(sig: SignatureSet, entries: seq<Entry>, b: nat, lo: nat, hi: nat)
    requires ValidSet(sig) && lo == Below(sig, b, sig.blockCount) && hi == lo + Count(sig, b, sig.blockCount)
    requires Filled(sig, entries, b, Count(sig, b, sig.blockCount))
    ensures hi <= |entries| && entries[lo..hi] == Entries(sig, Bucket(sig, b, sig.blockCount))
  {
    hide Below, Bucket, Entries, Filled, EntryOf;
    FilledSize(sig, entries, b, Count(sig, b, sig.blockCount));
    var l, e := Bucket(sig, b, sig.blockCount), entries[lo..hi];
    forall j | 0 <= j < |l| ensures e[j] == EntryOf(sig, l[j]) {
      FilledAt(sig, entries, b, |l|, j);
    }
    EntriesAt(sig, l, e);
  }

  lemma AllCandidates(sig: SignatureSet, csr: Csr, b: nat)
    requires ValidSet(sig) && ValidCsr(sig, csr) && b < BUCKETS
    ensures |csr.starts| == BUCKETS + 1 && csr.starts[b] <= csr.starts[b + 1] <= |csr.entries|
    ensures Candidates(sig, csr.entries[csr.starts[b]..csr.starts[b + 1]], b, sig.blockCount)
  {
    hide ValidCsr, Below, Count, Bucket, Entries, Filled;
    RegionOf(sig, csr, b);
    BelowNext(sig, b, sig.blockCount);
    FilledEntries(sig, csr.entries, b, csr.starts[b], csr.starts[b + 1]);
  }

  /** The search, with `hits` candidates counted and perhaps the hash taken, goes on below rem. */
  ghost predicate Probing(sig: SignatureSet, matched: seq<bool>, weak: u32, strong: Digest, left: seq<Entry>, rem: nat,
                          hits: nat, hashed: bool, full: Hit)
    requires ValidSet(sig) && |matched| == sig.blockCount
  {
    && Candidates(sig, left, BucketOf(weak), rem)
    && var r := Search(sig, matched, weak, strong, rem); full == Hit(r.found, hits + r.hits, hashed || r.hashed)
  }

  /** The next entry is the next block the search would look at, and it is treated the same. */
  lemma NextEntry(sig: SignatureSet, matched: seq<bool>, weak: u32, strong: Digest, left: seq<Entry>, rem: nat,
                  hits: nat, hashed: bool, full: Hit)
    requires ValidSet(sig) && |matched| == sig.blockCount && left != []
    requires Probing(sig, matched, weak, strong, left, rem, hits, hashed, full)
    ensures left[0].blockIndex < sig.blockCount
    ensures var e := left[0]; var i := e.blockIndex;
            if e.weak != weak then Probing(sig, matched, weak, strong, left[1..], i, hits, hashed, full)
            else if matched[i] then Probing(sig, matched, weak, strong, left[1..], i, hits + 1, hashed, full)
            else if SameStrong(sig, i, strong) then full == Hit(i, hits + 1, true)
            else Probing(sig, matched, weak, strong, left[1..], i, hits + 1, true, full)
  {
    var b: u16 := BucketOf(weak);
    NextCandidate(sig, matched, weak, strong, rem);
    var l := Bucket(sig, b, rem);
    assert InBucket(sig, b, l[0]) && left[0] == EntryOf(sig, l[0]) && left[1..] == Entries(sig, l[1..]);
  }

  lemma NoEntries(sig: SignatureSet, matched: seq<bool>, weak: u32, strong: Digest, left: seq<Entry>, rem: nat,
                  hits: nat, hashed: bool, full: Hit)
    requires ValidSet(sig) && |matched| == sig.blockCount && left == []
    requires Probing(sig, matched, weak, strong, left, rem, hits, hashed, full)
    ensures full == Hit(-1, hits, hashed)
  {
    NextCandidate(sig, matched, weak, strong, rem);
  }

  lemma ProbingStarts(sig: SignatureSet, matched: seq<bool>, weak: u32, strong: Digest, left: seq<Entry>)
    requires ValidSet(sig) && |matched| == sig.blockCount && Candidates(sig, left, BucketOf(weak), sig.blockCount)
    ensures Probing(sig, matched, weak, strong, left, sig.blockCount, 0, false,
                    Search(sig, matched, weak, strong, sig.blockCount))
  {
    hide Candidates, Search, BucketOf;
  }

  /** The three-stage funnel over one bucket: weak filter, matched filter, lazily hashed strong
      comparison. It is the full search. */
  method ProbeBucket(sig: SignatureSet, csr: Csr, strong: HashFn, matched: seq<bool>, weak: u32, window: Bytes)
    returns (h: Hit)
    requires ValidSet(sig) && ValidCsr(sig, csr) && |matched| == sig.blockCount
    ensures h == Search(sig, matched, weak, strong(window), sig.blockCount)
  {
    hide ValidCsr, BucketOf, Search, Probing, SameStrong, Candidates;
    var b: u16 := BucketOf(weak);
    AllCandidates(sig, csr, b);
    var digest: Digest := seq(16, _ => 0);
    var hits, hashed := 0, false;
    var k, kEnd := csr.starts[b], csr.starts[b + 1];
    ghost var rem: nat := sig.blockCount;
    ghost var full := Search(sig, matched, weak, strong(window), sig.blockCount);
    ProbingStarts(sig, matched, weak, strong(window), csr.entries[k..kEnd]);
    while k < kEnd
      invariant k <= kEnd
      invariant Probing(sig, matched, weak, strong(window), csr.entries[k..kEnd], rem, hits, hashed, full)
      invariant hashed ==> digest == strong(window)
      decreases kEnd - k
    {
      NextEntry(sig, matched, weak, strong(window), csr.entries[k..kEnd], rem, hits, hashed, full);
      var e := csr.entries[k];
      assert csr.entries[k..kEnd][1..] == csr.entries[k + 1..kEnd];
      rem := e.blockIndex;
      k := k + 1;
      if e.weak == weak {
        hits := hits + 1;
        if !matched[e.blockIndex] {
          if !hashed {
            digest := strong(window);
            hashed := true;
          }
          if SameStrong(sig, e.blockIndex, digest) {
            return Hit(e.blockIndex, hits, true);
          }
        }
      }
    }
    NoEntries(sig, matched, weak, strong(window), csr.entries[k..kEnd], rem, hits, hashed, full);
    h := Hit(-1, hits, hashed);
  }
}
