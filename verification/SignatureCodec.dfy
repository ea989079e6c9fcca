/**
 The block-signature response: a path, the file's hash and its signature set, with strong checksums cut
 to their significant length; and what a client that plans from the decoded set can rely on.
 */
module SignatureCodec {
  import opened Ints
  import opened Codec
  import opened DeltaPlan
  import opened Signatures

  const HASH_SIZE: nat := 16

  datatype Response = Response(path: Bytes, fileHash: Digest, sig: SignatureSet)

  // ----- The format -----

  function Entry(b: BlockSig, n: nat): (e: Bytes)
    requires n <= HASH_SIZE
    ensures |e| == 4 + n
  {
    Little(4, b.weak) + b.strong[..n]
  }

  function Entries(bs: seq<BlockSig>, n: nat): Bytes
    requires n <= HASH_SIZE
  {
    if bs == [] then [] else Entry(bs[0], n) + Entries(bs[1..], n)
  }

  function Numbers(sig: SignatureSet): (b: Bytes)
    ensures |b| == 17
  {
    Little(8, sig.fileSize) + Little(4, sig.blockSize) + Little(4, sig.blockCount) + [sig.strongLen]
  }

  function Payload(r: Response): Bytes
    requires r.sig.strongLen <= HASH_SIZE
  {
    StringOf(r.path) + r.fileHash + Numbers(r.sig) + Entries(r.sig.blocks, r.sig.strongLen)
  }

  // ----- Encoding -----

  lemma {:induction false} EntriesPush(bs: seq<BlockSig>, b: BlockSig, n: nat)
    requires n <= HASH_SIZE
    ensures Entries(bs + [b], n) == Entries(bs, n) + Entry(b, n)
  {
    if bs == [] {
      var one := [b];
      assert bs + one == one && one[1..] == [];
    } else {
      EntriesPush(bs[1..], b, n);
      assert (bs + [b])[1..] == bs[1..] + [b];
    }
  }

  method EncodeNumbers(sig: SignatureSet) returns (b: Bytes)
    ensures b == Numbers(sig)
  {
    b := AppendU64([], sig.fileSize);
    b := AppendU32(b, sig.blockSize);
    b := AppendU32(b, sig.blockCount);
    b := b + [sig.strongLen];
    assert [] + Little(8, sig.fileSize) == Little(8, sig.fileSize);
  }

  method EncodeBlockSigResponse(r: Response) returns (out: Result<Bytes>)
    ensures out == if r.sig.strongLen > HASH_SIZE then Err("strongLen out of range")
                   else if |r.sig.blocks| != r.sig.blockCount then Err("block count mismatch")
                   else if |r.path| > MAX_STRING then Err("String too long")
                   else Ok(Payload(r))
  {
    hide StringOf, Numbers, Entries;
    var sig := r.sig;
    if sig.strongLen > HASH_SIZE {
      return Err("strongLen out of range");
    }
    if |sig.blocks| != sig.blockCount {
      return Err("block count mismatch");
    }
    var s := AppendString([], r.path);
    if s.Err? {
      return Err(s.error);
    }
    assert [] + StringOf(r.path) == StringOf(r.path);
    var numbers := EncodeNumbers(sig);
    var entries := EncodeEntries(sig.blocks, sig.strongLen);
    return Ok(s.value + r.fileHash + numbers + entries);
  }

  method EncodeEntries(bs: seq<BlockSig>, n: nat) returns (out: Bytes)
    requires n <= HASH_SIZE
    ensures out == Entries(bs, n)
  {
    out := [];
    var i := 0;
    while i < |bs|
      invariant 0 <= i <= |bs| && out == Entries(bs[..i], n)
    {
      assert bs[..i + 1] == bs[..i] + [bs[i]];
      EntriesPush(bs[..i], bs[i], n);
      var e := AppendU32([], bs[i].weak);
      assert e + bs[i].strong[..n] == Entry(bs[i], n);
      out := out + (e + bs[i].strong[..n]);
      i := i + 1;
    }
    assert bs[..i] == bs;
  }

  // ----- Decoding -----

  /** A strong checksum from its significant bytes: the rest is zero. */
  function Padded(b: Bytes): Digest
    requires |b| <= HASH_SIZE
  {
    b + seq(HASH_SIZE - |b|, _ => 0)
  }

  function EntryAt(p: Bytes, cursor: nat, n: nat): Result<BlockSig>
    requires n <= HASH_SIZE
  {
    match NumberAt(p, cursor, 4)
    case Err(e) => Err(e)
    case Ok(_) =>
      match BytesAt(p, cursor + 4, n)
      case Err(e) => Err("strong checksum truncated")
      case Ok(strong) => Ok(BlockSig(U32Of(p[cursor..cursor + 4]), Padded(strong)))
  }

  function EntriesAt(p: Bytes, cursor: nat, n: nat, count: nat): Result<seq<BlockSig>>
    requires n <= HASH_SIZE
    decreases count
  {
    if count == 0 then Ok([])
    else
      match EntryAt(p, cursor, n)
      case Err(e) => Err(e)
      case Ok(b) => After([b], EntriesAt(p, cursor + 4 + n, n, count - 1))
  }

  function After(bs: seq<BlockSig>, r: Result<seq<BlockSig>>): Result<seq<BlockSig>> {
    match r
    case Err(e) => Err(e)
    case Ok(more) => Ok(bs + more)
  }

  /** The fixed part after path and hash. */
  function NumbersAt(p: Bytes, c: nat): Result<SignatureSet> {
    match NumberAt(p, c, 8)
    case Err(e) => Err(e)
    case Ok(_) =>
      match NumberAt(p, c + 8, 4)
      case Err(e) => Err(e)
      case Ok(_) =>
        match NumberAt(p, c + 12, 4)
        case Err(e) => Err(e)
        case Ok(_) =>
          if c + 16 >= |p| then Err("payload truncated")
          else if p[c + 16] > 16 then Err("strongLen out of range")
          else Ok(SignatureSet(U64Of(p[c..c + 8]), U32Of(p[c + 8..c + 12]), U32Of(p[c + 12..c + 16]), p[c + 16], []))
  }

  function Decoded(p: Bytes): Result<Response> {
    match StringAt(p, 0)
    case Err(e) => Err(e)
    case Ok(path) =>
      var c := 2 + |path|;
      match BytesAt(p, c, HASH_SIZE)
      case Err(e) => Err("file hash truncated")
      case Ok(hash) =>
        match NumbersAt(p, c + HASH_SIZE)
        case Err(e) => Err(e)
        case Ok(sig) =>
          match EntriesAt(p, c + HASH_SIZE + 17, sig.strongLen, sig.blockCount)
          case Err(e) => Err(e)
          case Ok(bs) => Ok(Response(path, hash, sig.(blocks := bs)))
  }

  lemma AfterTwice(a: seq<BlockSig>, b: seq<BlockSig>, r: Result<seq<BlockSig>>)
    ensures After(a, After(b, r)) == After(a + b, r)
  {
    if r.Ok? {
      assert a + (b + r.value) == a + b + r.value;
    }
  }

  lemma AfterNone(r: Result<seq<BlockSig>>)
    ensures After([], r) == r
  {
    if r.Ok? {
      assert [] + r.value == r.value;
    }
  }

  method DecodeEntries(p: Bytes, from: nat, n: nat, count: nat) returns (r: Result<seq<BlockSig>>)
    requires n <= HASH_SIZE
    ensures r == EntriesAt(p, from, n, count)
  {
    var bs, i := [], 0;
    var cursor: nat := from;
    AfterNone(EntriesAt(p, from, n, count));
    while i < count
      invariant 0 <= i <= count && EntriesAt(p, from, n, count) == After(bs, EntriesAt(p, cursor, n, count - i))
    {
      var weak, next := ReadU32(p, cursor);
      if weak.Err? {
        return Err(weak.error);
      }
      if next + n > |p| {
        return Err("strong checksum truncated");
      }
      var b := BlockSig(weak.value, Padded(p[next..next + n]));
      AfterTwice(bs, [b], EntriesAt(p, next + n, n, count - i - 1));
      bs, cursor, i := bs + [b], next + n, i + 1;
    }
    assert bs + [] == bs;
    return Ok(bs);
  }

  method DecodeNumbers(p: Bytes, c: nat) returns (r: Result<SignatureSet>)
    ensures r == NumbersAt(p, c)
  {
    var fileSize, c1 := ReadU64(p, c);
    if fileSize.Err? {
      return Err(fileSize.error);
    }
    var blockSize, c2 := ReadU32(p, c1);
    if blockSize.Err? {
      return Err(blockSize.error);
    }
    var blockCount, c3 := ReadU32(p, c2);
    if blockCount.Err? {
      return Err(blockCount.error);
    }
    if c3 >= |p| {
      return Err("payload truncated");
    }
    var strongLen := p[c3];
    if strongLen > 16 {
      return Err("strongLen out of range");
    }
    return Ok(SignatureSet(fileSize.value, blockSize.value, blockCount.value, strongLen, []));
  }

  method DecodeBlockSigResponse(p: Bytes) returns (r: Result<Response>)
    ensures r == Decoded(p)
  {
    var path, c := ReadString(p, 0);
    if path.Err? {
      return Err(path.error);
    }
    if c + HASH_SIZE > |p| {
      return Err("file hash truncated");
    }
    var hash := p[c..c + HASH_SIZE];
    var sig := DecodeNumbers(p, c + HASH_SIZE);
    if sig.Err? {
      return Err(sig.error);
    }
    var bs := DecodeEntries(p, c + HASH_SIZE + 17, sig.value.strongLen, sig.value.blockCount);
    if bs.Err? {
      return Err(bs.error);
    }
    return Ok(Response(path.value, hash, sig.value.(blocks := bs.value)));
  }

  // ----- Round trip -----

  function CutEntry(b: BlockSig, n: nat): BlockSig
    requires n <= HASH_SIZE
  {
    BlockSig(b.weak, Padded(b.strong[..n]))
  }

  function CutEntries(bs: seq<BlockSig>, n: nat): (r: seq<BlockSig>)
    requires n <= HASH_SIZE
    ensures |r| == |bs| && forall i :: 0 <= i < |bs| ==> r[i] == CutEntry(bs[i], n)
  {
    if bs == [] then [] else [CutEntry(bs[0], n)] + CutEntries(bs[1..], n)
  }

  /** The set with the strong bytes past the significant length zeroed. */
  function Cut(sig: SignatureSet): SignatureSet
    requires sig.strongLen <= HASH_SIZE
  {
    sig.(blocks := CutEntries(sig.blocks, sig.strongLen))
  }

  lemma ReadsEntry(before: Bytes, b: BlockSig, n: nat, after: Bytes)
    requires n <= HASH_SIZE
    ensures EntryAt(before + Entry(b, n) + after, |before|, n) == Ok(CutEntry(b, n))
  {
    var p := before + Entry(b, n) + after;
    Bounds();
    NumberRoundTrip(4, b.weak);
    assert p[|before|..|before| + 4] == Little(4, b.weak);
    assert p[|before| + 4..|before| + 4 + n] == b.strong[..n];
  }

  lemma {:induction false} ReadsEntries(before: Bytes, bs: seq<BlockSig>, n: nat, after: Bytes)
    requires n <= HASH_SIZE
    ensures EntriesAt(before + Entries(bs, n) + after, |before|, n, |bs|) == Ok(CutEntries(bs, n))
    decreases |bs|
  {
    hide EntryAt, Entry;
    if bs != [] {
      var e, rest := Entry(bs[0], n), Entries(bs[1..], n);
      var p := before + Entries(bs, n) + after;
      assert p == before + e + (rest + after);
      ReadsEntry(before, bs[0], n, rest + after);
      assert p == (before + e) + rest + after;
      ReadsEntries(before + e, bs[1..], n, after);
    }
  }

  lemma ReadsNumbers(before: Bytes, sig: SignatureSet, after: Bytes)
    requires sig.strongLen <= HASH_SIZE
    ensures NumbersAt(before + Numbers(sig) + after, |before|) == Ok(sig.(blocks := []))
  {
    var p := before + Numbers(sig) + after;
    var c := |before|;
    Bounds();
    NumberRoundTrip(8, sig.fileSize);
    NumberRoundTrip(4, sig.blockSize);
    NumberRoundTrip(4, sig.blockCount);
    assert p[c..c + 8] == Little(8, sig.fileSize);
    assert p[c + 8..c + 12] == Little(4, sig.blockSize);
    assert p[c + 12..c + 16] == Little(4, sig.blockCount);
    assert p[c + 16] == sig.strongLen;
  }

  /** A response comes back with its strong checksums cut to their significant bytes; anything after it
      is ignored. */
  lemma ResponseRoundTrip(r: Response, after: Bytes)
    requires r.sig.strongLen <= HASH_SIZE && |r.sig.blocks| == r.sig.blockCount && |r.path| <= MAX_STRING
    ensures Decoded(Payload(r) + after) == Ok(r.(sig := Cut(r.sig)))
  {
    hide Numbers, Entries, StringOf, NumbersAt, EntriesAt, StringAt;
    var h, s, nums, ents := r.fileHash, StringOf(r.path), Numbers(r.sig), Entries(r.sig.blocks, r.sig.strongLen);
    StringLength(r.path);
    Regroup(s, h, nums, ents, after);
    ReadsString([], r.path, h + nums + ents + after);
    ReadsNumbers(s + h, r.sig, ents + after);
    ReadsEntries(s + h + nums, r.sig.blocks, r.sig.strongLen, after);
  }

  lemma Regroup(s: Bytes, h: Bytes, n: Bytes, e: Bytes, a: Bytes)
    ensures s + h + n + e + a == [] + s + (h + n + e + a)
    ensures s + h + n + e + a == (s + h) + n + (e + a)
    ensures (s + h + n + e + a)[|s|..|s| + |h|] == h
  {
  }

  lemma StringLength(path: Bytes)
    ensures |StringOf(path)| == 2 + |path|
  {
  }

  lemma {:induction false} EntriesLayout(bs: seq<BlockSig>, n: nat, i: nat)
    requires n <= HASH_SIZE && i < |bs|
    ensures |Entries(bs, n)| == |bs| * (4 + n) && i * (4 + n) + 4 + n <= |Entries(bs, n)|
    ensures Entries(bs, n)[i * (4 + n)..i * (4 + n) + 4 + n] == Entry(bs[i], n)
  {
    hide Entry;
    EntriesSize(bs, n);
    EntriesSize(bs[..i], n);
    EntriesSplit(bs, n, i);
  }

  lemma {:induction false} EntriesSize(bs: seq<BlockSig>, n: nat)
    requires n <= HASH_SIZE
    ensures |Entries(bs, n)| == |bs| * (4 + n)
  {
    if bs != [] {
      EntriesSize(bs[1..], n);
    }
  }

  lemma {:induction false} EntriesSplit(bs: seq<BlockSig>, n: nat, i: nat)
    requires n <= HASH_SIZE && i < |bs|
    ensures Entries(bs, n) == Entries(bs[..i], n) + Entry(bs[i], n) + Entries(bs[i+1..], n)
  {
    hide Entry;
    if i > 0 {
      EntriesSplit(bs[1..], n, i - 1);
      assert bs[1..][..i - 1] == bs[..i][1..] && bs[1..][i..] == bs[i+1..] && bs[..i][0] == bs[0];
    }
  }

  /** Where the fixed parts of a payload lie: the path behind its 16-bit length, 16 bytes of file hash, the file
      size in 8 bytes, block size and block count in 4 each, and the strong length. */
  lemma PayloadLayout(r: Response)
    requires r.sig.strongLen <= HASH_SIZE && |r.path| <= MAX_STRING
    ensures var p, c := Payload(r), 2 + |r.path|;
            && c + 33 <= |p| && p[c + 33..] == Entries(r.sig.blocks, r.sig.strongLen)
            && p[..2] == Little(2, |r.path|) && p[2..c] == r.path && p[c..c + 16] == r.fileHash
            && p[c + 16..c + 24] == Little(8, r.sig.fileSize) && p[c + 24..c + 28] == Little(4, r.sig.blockSize)
            && p[c + 28..c + 32] == Little(4, r.sig.blockCount) && p[c + 32] == r.sig.strongLen
  {
    var c := 2 + |r.path|;
    var s, nums, ents := StringOf(r.path), Numbers(r.sig), Entries(r.sig.blocks, r.sig.strongLen);
    NumbersLayout(r.sig);
    StringLayout(r.path);
    hide Entries, Numbers, StringOf, Little;
    var p := s + r.fileHash + nums + ents;
    assert p[..2] == s[..2] && p[2..c] == s[2..c] && p[c..c + 16] == r.fileHash;
    assert p[c + 16..c + 33] == nums && p[c + 33..] == ents && p[c + 32] == nums[16];
    PartOf(p, c + 16, nums, 0, 8);
    PartOf(p, c + 16, nums, 8, 12);
    PartOf(p, c + 16, nums, 12, 16);
  }

  /** And where block i does, behind them: the weak checksum in 4 bytes and the significant bytes of the strong
      one, as long as every other. */
  lemma {:induction false} EntryLayout(r: Response, i: nat, at: nat)
    requires r.sig.strongLen <= HASH_SIZE && i < |r.sig.blocks| && at == i * (4 + r.sig.strongLen)
    ensures var ents, n := Entries(r.sig.blocks, r.sig.strongLen), r.sig.strongLen as nat;
            && |ents| == |r.sig.blocks| * (4 + n) && at + 4 + n <= |ents|
            && ents[at..at + 4] == Little(4, r.sig.blocks[i].weak)
            && ents[at + 4..at + 4 + n] == r.sig.blocks[i].strong[..n]
  {
    var n, b := r.sig.strongLen, r.sig.blocks[i];
    EntriesLayout(r.sig.blocks, n, i);
    var ents := Entries(r.sig.blocks, n);
    EntryParts(b, n);
    hide Entries, Entry, Little;
    PartOf(ents, at, Entry(b, n), 0, 4);
    PartOf(ents, at, Entry(b, n), 4, 4 + n);
  }

  lemma PartOf(p: Bytes, at: nat, q: Bytes, a: nat, b: nat)
    requires at + |q| <= |p| && p[at..at + |q|] == q && a <= b <= |q|
    ensures p[at + a..at + b] == q[a..b]
  {
    forall k | 0 <= k < b - a ensures p[at + a..at + b][k] == q[a..b][k] {
      assert p[at + a + k] == p[at..at + |q|][a + k];
    }
  }

  lemma EntryParts(b: BlockSig, n: nat)
    requires n <= HASH_SIZE
    ensures Entry(b, n)[..4] == Little(4, b.weak) && Entry(b, n)[4..4 + n] == b.strong[..n]
    ensures Entry(b, n)[0..4] == Entry(b, n)[..4]
  {
    hide Little;
  }

  lemma NumbersLayout(sig: SignatureSet)
    ensures var q := Numbers(sig);
            && q[0..8] == Little(8, sig.fileSize) && q[8..12] == Little(4, sig.blockSize)
            && q[12..16] == Little(4, sig.blockCount) && q[16] == sig.strongLen
  {
    hide Little;
  }

  lemma StringLayout(path: Bytes)
    ensures var s := StringOf(path); |s| == 2 + |path| && s[..2] == Little(2, |path|) && s[2..2 + |path|] == path
  {
    hide Little;
  }

  // ----- Planning from the decoded set -----

  lemma SameBlock(sig: SignatureSet, i: nat, strong: Digest)
    requires ValidSet(sig) && i < |sig.blocks|
    ensures SameStrong(Cut(sig), i, strong) == SameStrong(sig, i, strong)
    ensures IsFull(Cut(sig), i) == IsFull(sig, i) && BlockLen(Cut(sig), i) == BlockLen(sig, i)
  {
    var n := sig.strongLen;
    assert Cut(sig).blocks[i] == CutEntry(sig.blocks[i], n);
    assert Padded(sig.blocks[i].strong[..n])[..n] == sig.blocks[i].strong[..n];
  }

  lemma SameWeak(sig: SignatureSet, i: nat)
    requires ValidSet(sig) && i < |sig.blocks|
    ensures |Cut(sig).blocks| == |sig.blocks| && Cut(sig).blocks[i].weak == sig.blocks[i].weak
  {
  }

  lemma {:induction false} SameSearch(sig: SignatureSet, matched: seq<bool>, weak: u32, strong: Digest, k: nat)
    requires ValidSet(sig) && |matched| == sig.blockCount && k <= sig.blockCount
    ensures Search(Cut(sig), matched, weak, strong, k) == Search(sig, matched, weak, strong, k)
  {
    hide SameStrong, IsFull;
    if k > 0 {
      SameSearch(sig, matched, weak, strong, k - 1);
      SameBlock(sig, k - 1, strong);
      SameWeak(sig, k - 1);
    }
  }

  lemma SameProbe(sig: SignatureSet, strong: HashFn, matched: seq<bool>, w: Bytes)
    requires ValidSet(sig) && |matched| == sig.blockCount
    ensures Probe(Cut(sig), strong, matched, w) == Probe(sig, strong, matched, w)
  {
    SameSearch(sig, matched, Checksum.WeakOf(w).Value(), strong(w), sig.blockCount);
    hide Search, Checksum.WeakOf;
  }

  /** One step of the scan does not look at the strong checksums. */
  lemma SameStep(sig: SignatureSet, oldLen: nat, opt: BuildOptions, st: Scan, h: Hit)
    requires ScanOk(sig, oldLen, st) && st.p + sig.blockSize <= oldLen && -1 <= h.found < sig.blockCount
    ensures var t, c := Cut(sig), Counted(st, h);
            && AtEnd(t, oldLen, st.p, h) == AtEnd(sig, oldLen, st.p, h) && Moved(t, c, h) == Moved(sig, c, h)
    ensures !AtEnd(sig, oldLen, st.p, h) ==>
              var v := Moved(sig, Counted(st, h), h);
              && v.matchedBytes <= v.p <= oldLen
              && Evaluated(Cut(sig), oldLen, opt, v) == Evaluated(sig, oldLen, opt, v)
              && var m := Evaluated(sig, oldLen, opt, v);
              && ScanOk(sig, oldLen, m) && m.p + sig.blockSize <= oldLen && m.p > st.p
  {
  }

  lemma {:induction false} SameScan(sig: SignatureSet, strong: HashFn, oldData: Bytes, opt: BuildOptions, st: Scan)
    requires ScanOk(sig, |oldData|, st) && st.p + sig.blockSize <= |oldData|
    ensures ScanFrom(Cut(sig), strong, oldData, opt, st) == ScanFrom(sig, strong, oldData, opt, st)
    decreases |oldData| - st.p
  {
    hide Cut, Probe, Moved, Evaluated, AtEnd;
    SameFields(sig);
    var h := Probe(sig, strong, st.matched, WindowAt(sig, oldData, st.p));
    SameProbe(sig, strong, st.matched, WindowAt(sig, oldData, st.p));
    SameStep(sig, |oldData|, opt, st, h);
    if !AtEnd(sig, |oldData|, st.p, h) {
      var m := Evaluated(sig, |oldData|, opt, Moved(sig, Counted(st, h), h));
      if !m.stopped {
        SameScan(sig, strong, oldData, opt, m);
      }
    }
  }

  lemma SameFields(sig: SignatureSet)
    requires ValidSet(sig)
    ensures var t := Cut(sig);
            && t.fileSize == sig.fileSize && t.blockSize == sig.blockSize && t.blockCount == sig.blockCount
            && t.strongLen == sig.strongLen && |t.blocks| == |sig.blocks|
  {
  }

  lemma {:induction false} SameEmission(sig: SignatureSet, matched: seq<bool>, src: seq<nat>, k: nat)
    requires ValidSet(sig) && k <= |matched| == |src|
    ensures Emitted(Cut(sig), matched, src, k) == Emitted(sig, matched, src, k)
  {
    if k > 0 {
      SameEmission(sig, matched, src, k - 1);
      hide Cut;
      SameFields(sig);
    }
  }

  /** For every old file, planning from the decoded set gives the plan of the original set. */
  lemma SamePlan(sig: SignatureSet, strong: HashFn, oldData: Bytes, opt: BuildOptions)
    requires ValidSet(sig) && |oldData| < MAX_FILE
    ensures PlanOf(Cut(sig), strong, oldData, opt) == PlanOf(sig, strong, oldData, opt)
  {
    SameFields(sig);
    if sig.blockCount > 0 && sig.blockSize > 0 {
      if |oldData| >= sig.blockSize {
        SameScan(sig, strong, oldData, opt, Start(sig, |oldData|, opt));
      }
      var st := ScanOf(sig, strong, oldData, opt);
      SameEmission(sig, st.matched, st.matchedSrc, sig.blockCount);
      hide Cut, ScanFrom, Emitted;
    }
  }
}
