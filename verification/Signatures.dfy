/**
 Block signatures of a file: the one-shot generator and the streaming signer that must agree with it
 for every way of cutting the file. The strong hash (XXH3-128) is a parameter; a streaming hash
 state is the byte sequence fed to it so far.
 */
module Signatures {
  import opened Ints
  import opened DeltaArith
  import opened Checksum

  type Digest = d: Bytes | |d| == 16 witness seq(16, _ => 0)

  type HashFn = Bytes -> Digest

  datatype BlockSig = BlockSig(weak: u32, strong: Digest)

  datatype SignatureSet = SignatureSet(fileSize: u64, blockSize: u32, blockCount: u32, strongLen: u8,
                                       blocks: seq<BlockSig>)

  const NO_SIGNATURES: SignatureSet := SignatureSet(0, 0, 0, 0, [])

  /** The number of blocks, in the program's 64-bit arithmetic and 32-bit result. */
  function BlockCountFor(fileSize: u64, blockSize: u32): u32
    requires blockSize > 0
  {
    Wrap32(Wrap64(fileSize + blockSize - 1) / blockSize)
  }

  ghost function BlockSigOf(strong: HashFn, block: Bytes): BlockSig {
    BlockSig(WeakOf(block).Value(), strong(block))
  }

  /** The bytes of block i, clipped to what is there. */
  ghost function BlockBytes(data: Bytes, blockSize: nat, i: nat): Bytes {
    var lo := Min(i * blockSize, |data|);
    data[lo..Min(lo + blockSize, |data|)]
  }

  ghost function BlockSigs(strong: HashFn, data: Bytes, blockSize: nat, n: nat): (s: seq<BlockSig>)
    ensures |s| == n
    ensures forall i :: 0 <= i < n ==> s[i] == BlockSigOf(strong, BlockBytes(data, blockSize, i))
  {
    if n == 0 then []
    else BlockSigs(strong, data, blockSize, n - 1) + [BlockSigOf(strong, BlockBytes(data, blockSize, n - 1))]
  }

  /** The signature set of a file, as a function of its bytes. */
  ghost function SigOf(strong: HashFn, data: Bytes): SignatureSet
    requires |data| < TWO_64
  {
    if data == [] then NO_SIGNATURES
    else
      var size := BlockSizeFor(|data|);
      var count := BlockCountFor(|data|, size);
      SignatureSet(|data|, size, count, ChooseStrongLen(count), BlockSigs(strong, data, size, count))
  }

  /** Every counted block starts inside the file. */
  lemma BlocksStartInside(fileSize: u64, blockSize: u32, i: nat)
    requires blockSize > 0 && i < BlockCountFor(fileSize, blockSize)
    ensures i * blockSize < fileSize && (i + 1) * blockSize < TWO_64 + blockSize
  {
    var ceiled := Wrap64(fileSize + blockSize - 1);
    var q := ceiled / blockSize;
    assert BlockCountFor(fileSize, blockSize) <= q;
    assert (i + 1) * blockSize <= q * blockSize <= ceiled;
    assert ceiled <= fileSize + blockSize - 1;
  }

  lemma NoSigs(strong: HashFn, data: Bytes, size: nat)
    ensures BlockSigs(strong, data, size, 0) == []
  {
  }

  /** Block i lies in the file, and its signature is the next. */
  lemma {:induction false} NextBlock(strong: HashFn, data: Bytes, size: u32, i: nat)
    requires |data| < TWO_64 && size > 0 && i < BlockCountFor(|data|, size)
    ensures var off := i * size;
            && 0 <= off < |data|
            && BlockSigs(strong, data, size, i + 1)
               == BlockSigs(strong, data, size, i) + [BlockSigOf(strong, data[off..off + Min(size, |data| - off)])]
  {
    BlocksStartInside(|data|, size, i);
    var off := i * size;
    assert BlockBytes(data, size, i) == data[off..off + Min(size, |data| - off)];
    hide BlockBytes, WeakOf;
  }

  method GenerateSignatures(strong: HashFn, data: Bytes) returns (sig: SignatureSet)
    requires |data| < TWO_64
    ensures sig == SigOf(strong, data) && (data != [] ==> BalancedSize(|data|, sig.blockSize))
  {
    hide BalancedSize, BlockSizeFor, ChooseStrongLen, WeakOf, BlockBytes, BlockSigs, BlockCountFor;
    if data == [] {
      return NO_SIGNATURES;
    }
    var size := ChooseBlockSize(|data|);
    var count := BlockCountFor(|data|, size);
    var blocks: seq<BlockSig> := [];
    NoSigs(strong, data, size);
    for i := 0 to count
      invariant blocks == BlockSigs(strong, data, size, i)
    {
      NextBlock(strong, data, size, i);
      var off := i * size;
      var blen := Min(size, |data| - off);
      var block := data[off..off + blen];
      var w := WeakInit(block);
      blocks := blocks + [BlockSig(w.Value(), strong(block))];
    }
    sig := SignatureSet(|data|, size, count, ChooseStrongLen(count), blocks);
  }

  // ----- The streaming signer -----

  ghost function Clip(seen: Bytes, fileSize: nat): Bytes {
    seen[..Min(|seen|, fileSize)]
  }

  /** The first n blocks have arrived completely. */
  ghost predicate Complete(seen: Bytes, fileSize: nat, blockSize: nat, n: nat) {
    n * blockSize <= |seen| || fileSize <= |seen|
  }

  lemma BlockWhole(data: Bytes, blockSize: nat, i: nat, start: nat)
    requires start == i * blockSize && start + blockSize <= |data|
    ensures BlockBytes(data, blockSize, i) == data[start..start + blockSize]
  {
  }

  lemma ClipKeeps(seen: Bytes, more: Bytes, fileSize: nat)
    requires |seen| <= fileSize
    ensures Clip(seen, fileSize) == seen
    ensures var longer := Clip(seen + more, fileSize); |seen| <= |longer| && longer[..|seen|] == seen
  {
    var m := Min(|seen + more|, fileSize);
    assert (seen + more)[..m][..|seen|] == (seen + more)[..|seen|] == seen;
  }

  lemma SliceOfPrefix(d: Bytes, n: nat, a: nat, b: nat)
    requires a <= b <= n <= |d|
    ensures d[..n][a..b] == d[a..b]
  {
    var x, y := d[..n][a..b], d[a..b];
    assert |x| == |y| && forall k :: 0 <= k < |x| ==> x[k] == y[k];
  }

  lemma BlockStable(seen: Bytes, more: Bytes, fileSize: nat, blockSize: nat, i: nat, start: nat)
    requires start == i * blockSize && start + blockSize <= |seen| < fileSize
    ensures BlockBytes(Clip(seen, fileSize), blockSize, i) == BlockBytes(Clip(seen + more, fileSize), blockSize, i)
  {
    hide Clip, BlockBytes;
    var longer := Clip(seen + more, fileSize);
    ClipKeeps(seen, more, fileSize);
    BlockWhole(seen, blockSize, i, start);
    BlockWhole(longer, blockSize, i, start);
    SliceOfPrefix(longer, |seen|, start, start + blockSize);
  }

  /** Signatures of complete blocks do not change when more bytes arrive. */
  lemma {:induction false} SigsStable(strong: HashFn, seen: Bytes, more: Bytes, fileSize: nat, blockSize: nat, n: nat)
    requires Complete(seen, fileSize, blockSize, n)
    ensures BlockSigs(strong, Clip(seen, fileSize), blockSize, n)
            == BlockSigs(strong, Clip(seen + more, fileSize), blockSize, n)
  {
    if fileSize <= |seen| {
      assert Clip(seen, fileSize) == Clip(seen + more, fileSize);
    } else if n > 0 {
      hide Clip, BlockBytes;
      var start := (n - 1) * blockSize;
      assert n * blockSize == start + blockSize;
      SigsStable(strong, seen, more, fileSize, blockSize, n - 1);
      BlockStable(seen, more, fileSize, blockSize, n - 1, start);
    }
  }

  /** What the signer holds while block `index` is arriving, in the order of its fields. */
  datatype Current = Current(filled: u32, len: u32, s1: u32, s2: u32, j: u32, state: Bytes)

  ghost predicate Arriving(cur: Current, seen: Bytes, fileSize: nat, blockSize: nat, index: nat) {
    var start := index * blockSize;
    && start <= |seen| && start < fileSize
    && cur.len == Min(blockSize, fileSize - start)
    && cur.filled == |seen| - start < cur.len
    && cur.state == seen[start..]
    && cur.j == cur.filled && Accumulates(cur.state, cur.s1, cur.s2)
  }

  /** The finished block is the next one of the file's signature. */
  lemma BlockFinished(strong: HashFn, cur: Current, seen: Bytes, chunk: Bytes, fileSize: nat, blockSize: nat,
                      index: nat)
    requires Arriving(cur, seen, fileSize, blockSize, index)
    requires |chunk| == cur.len - cur.filled
    ensures cur.state + chunk == BlockBytes(Clip(seen + chunk, fileSize), blockSize, index)
    ensures Complete(seen + chunk, fileSize, blockSize, index + 1)
    ensures BlockSigs(strong, Clip(seen + chunk, fileSize), blockSize, index + 1)
         == BlockSigs(strong, Clip(seen, fileSize), blockSize, index) + [BlockSigOf(strong, cur.state + chunk)]
  {
    hide Accumulates, BlockSigOf;
    BlockBytesAre(cur, seen, chunk, fileSize, blockSize, index);
    SigsStable(strong, seen, chunk, fileSize, blockSize, index);
    hide Clip, BlockBytes, Arriving;
  }

  lemma {:induction false} BlockBytesAre(cur: Current, seen: Bytes, chunk: Bytes, fileSize: nat, blockSize: nat,
                                         index: nat)
    requires Arriving(cur, seen, fileSize, blockSize, index) && |chunk| == cur.len - cur.filled
    ensures cur.state + chunk == BlockBytes(Clip(seen + chunk, fileSize), blockSize, index)
    ensures Complete(seen, fileSize, blockSize, index) && |seen| <= fileSize
    ensures Complete(seen + chunk, fileSize, blockSize, index + 1)
  {
    hide Accumulates;
    var start := index * blockSize;
    assert (index + 1) * blockSize == start + blockSize;
    assert |seen| + |chunk| == start + cur.len <= fileSize;
    assert Clip(seen + chunk, fileSize) == seen + chunk;
    assert (seen + chunk)[start..] == seen[start..] + chunk;
  }

  method FeedWeak(cur: Current, chunk: Bytes) returns (s1: u32, s2: u32, j: u32)
    requires Accumulates(cur.state, cur.s1, cur.s2) && cur.j == |cur.state|
    requires |cur.state| + |chunk| < TWO_32
    ensures Accumulates(cur.state + chunk, s1, s2) && j == |cur.state| + |chunk|
  {
    s1, s2, j := cur.s1, cur.s2, cur.j;
    assert cur.state + chunk[..0] == cur.state;
    for k := 0 to |chunk|
      invariant j == |cur.state| + k && Accumulates(cur.state + chunk[..k], s1, s2)
    {
      AccumulateByte(cur.state + chunk[..k], s1, s2, chunk[k]);
      assert cur.state + chunk[..k+1] == (cur.state + chunk[..k]) + [chunk[k]];
      var (t1, t2) := Accumulate(s1, s2, j, chunk[k]);
      s1, s2, j := t1, t2, j + 1;
    }
    assert chunk[..|chunk|] == chunk;
  }

  lemma FinalWeak(d: Bytes, s1: u32, s2: u32)
    requires Accumulates(d, s1, s2)
    ensures (s2 % TWO_16) * TWO_16 + s1 % TWO_16 == WeakOf(d).Value()
  {
    Mask(Sum(d));
    Mask(WeightedSum(d));
  }

  /** The blocks signed so far, and the state of the one that is arriving, match the bytes seen. */
  ghost predicate Signed(strong: HashFn, fileSize: nat, blockSize: nat, blockCount: nat, index: nat, cur: Current,
                         blocks: seq<BlockSig>, seen: Bytes)
  {
    && index <= blockCount
    && Complete(seen, fileSize, blockSize, index)
    && blocks == BlockSigs(strong, Clip(seen, fileSize), blockSize, index)
    && (index < blockCount ==> Arriving(cur, seen, fileSize, blockSize, index))
  }

  lemma PartArrived(strong: HashFn, fileSize: nat, blockSize: nat, blockCount: nat, index: nat, cur: Current,
                    blocks: seq<BlockSig>, seen: Bytes, chunk: Bytes, next: Current)
    requires Signed(strong, fileSize, blockSize, blockCount, index, cur, blocks, seen)
    requires index < blockCount && next.filled == cur.filled + |chunk| < cur.len == next.len
    requires next.state == cur.state + chunk && next.j == next.filled && Accumulates(next.state, next.s1, next.s2)
    ensures Signed(strong, fileSize, blockSize, blockCount, index, next, blocks, seen + chunk)
  {
    var start := index * blockSize;
    assert seen[start..] + chunk == (seen + chunk)[start..];
    SigsStable(strong, seen, chunk, fileSize, blockSize, index);
    hide BlockSigs, Accumulates, Clip;
  }

  lemma NothingYet(cur: Current, seen: Bytes, fileSize: nat, blockSize: nat, index: nat)
    requires |seen| == index * blockSize < fileSize && blockSize > 0
    requires cur == Current(0, cur.len, 0, 0, 0, []) && cur.len == Min(blockSize, fileSize - index * blockSize)
    ensures Arriving(cur, seen, fileSize, blockSize, index)
  {
  }

  lemma BlockArrived(strong: HashFn, fileSize: u64, blockSize: u32, blockCount: u32, index: nat, cur: Current,
                     blocks: seq<BlockSig>, seen: Bytes, chunk: Bytes, next: Current, s1: u32, s2: u32)
    requires Signed(strong, fileSize, blockSize, blockCount, index, cur, blocks, seen)
    requires index < blockCount && |chunk| == cur.len - cur.filled && Accumulates(cur.state + chunk, s1, s2)
    requires index + 1 < blockCount ==>
               (index + 1) * blockSize < fileSize
               && next == Current(0, Min(blockSize, fileSize - (index + 1) * blockSize), 0, 0, 0, [])
    requires blockSize > 0
    ensures Signed(strong, fileSize, blockSize, blockCount, index + 1, next,
                   blocks + [BlockSig((s2 % TWO_16) * TWO_16 + s1 % TWO_16, strong(cur.state + chunk))], seen + chunk)
  {
    BlockFinished(strong, cur, seen, chunk, fileSize, blockSize, index);
    FinalWeak(cur.state + chunk, s1, s2);
    hide BlockSigs, BlockBytes, Clip, WeakOf, BlockSigOf;
    var start := index * blockSize;
    assert (index + 1) * blockSize == start + blockSize;
    if index + 1 < blockCount {
      NothingYet(next, seen + chunk, fileSize, blockSize, index + 1);
    }
  }

  lemma BytesPastTheEnd(strong: HashFn, fileSize: nat, blockSize: nat, blockCount: nat, index: nat, cur: Current,
                        blocks: seq<BlockSig>, seen: Bytes, more: Bytes)
    requires Signed(strong, fileSize, blockSize, blockCount, index, cur, blocks, seen) && index >= blockCount
    ensures Signed(strong, fileSize, blockSize, blockCount, index, cur, blocks, seen + more)
  {
    SigsStable(strong, seen, more, fileSize, blockSize, index);
  }

  lemma WholeFileSigned(strong: HashFn, fileSize: nat, blockSize: nat, blockCount: nat, index: nat, cur: Current,
                        blocks: seq<BlockSig>, seen: Bytes)
    requires Signed(strong, fileSize, blockSize, blockCount, index, cur, blocks, seen) && |seen| == fileSize
    ensures index == blockCount && blocks == BlockSigs(strong, seen, blockSize, blockCount)
  {
    assert Clip(seen, fileSize) == seen;
  }

  lemma RoomInBlock(strong: HashFn, fileSize: nat, blockSize: nat, blockCount: nat, index: nat, cur: Current,
                    blocks: seq<BlockSig>, seen: Bytes)
    requires Signed(strong, fileSize, blockSize, blockCount, index, cur, blocks, seen) && index < blockCount
    ensures cur.filled < cur.len
  {
  }

  lemma ArrivingFacts(strong: HashFn, fileSize: nat, blockSize: nat, blockCount: nat, index: nat, cur: Current,
                      blocks: seq<BlockSig>, seen: Bytes)
    requires Signed(strong, fileSize, blockSize, blockCount, index, cur, blocks, seen) && index < blockCount
    ensures Accumulates(cur.state, cur.s1, cur.s2) && cur.j == |cur.state| == cur.filled
    ensures 0 < cur.len <= blockSize
  {
  }

  lemma WrapCount(a: nat, b: nat)
    ensures Wrap64(a % TWO_64 + b) == (a + b) % TWO_64
  {
  }

  datatype StreamingResult = StreamingResult(sig: SignatureSet, fileHash: Digest) | SizeMismatch

  class StreamingSigner {
    const strong: HashFn
    const fileHash: HashFn
    const fileSize: u64
    const blockSize: u32
    const blockCount: u32
    var consumed: u64
    var curBlockIndex: u32
    var cur: Current
    var fileState: Bytes
    var blocks: seq<BlockSig>
    ghost var fed: Bytes

    ghost predicate Sized() {
      if fileSize == 0 then blockSize == 0 && blockCount == 0
      else blockSize == BlockSizeFor(fileSize) && blockCount == BlockCountFor(fileSize, blockSize)
    }

    ghost predicate SignedSoFar(seen: Bytes)
      reads this
    {
      Sized() && Signed(strong, fileSize, blockSize, blockCount, curBlockIndex, cur, blocks, seen)
    }

    ghost predicate Valid()
      reads this
    {
      consumed == |fed| % TWO_64 && fileState == fed && SignedSoFar(fed)
    }

    constructor (strong: HashFn, fileHash: HashFn, fileSize: u64)
      ensures Valid() && fed == []
      ensures this.strong == strong && this.fileHash == fileHash && this.fileSize == fileSize
    {
      hide BalancedSize, BlockSizeFor;
      this.strong, this.fileHash, this.fileSize := strong, fileHash, fileSize;
      var size: u32, count: u32 := 0, 0;
      if fileSize != 0 {
        size := ChooseBlockSize(fileSize);
        count := BlockCountFor(fileSize, size);
      }
      blockSize, blockCount := size, count;
      consumed, curBlockIndex, fileState, blocks, fed := 0, 0, [], [], [];
      cur := Current(0, Min(size, fileSize), 0, 0, 0, []);
    }

    /** Consume the part of a segment that belongs to the current block. */
    method Absorb(chunk: Bytes, ghost seen: Bytes)
      requires SignedSoFar(seen) && curBlockIndex < blockCount
      requires 0 < |chunk| <= cur.len - cur.filled
      modifies `curBlockIndex, `cur, `blocks
      ensures SignedSoFar(seen + chunk)
    {
      hide Signed, Accumulates;
      ArrivingFacts(strong, fileSize, blockSize, blockCount, curBlockIndex, cur, blocks, seen);
      var s1, s2, j := FeedWeak(cur, chunk);
      var filled, state := cur.filled + |chunk|, cur.state + chunk;
      if filled == cur.len {
        var next := Current(0, 0, 0, 0, 0, []);
        if curBlockIndex + 1 < blockCount {
          BlocksStartInside(fileSize, blockSize, curBlockIndex + 1);
          var off := (curBlockIndex + 1) * blockSize;
          next := Current(0, Min(blockSize, fileSize - off), 0, 0, 0, []);
        }
        BlockArrived(strong, fileSize, blockSize, blockCount, curBlockIndex, cur, blocks, seen, chunk, next, s1, s2);
        blocks := blocks + [BlockSig((s2 % TWO_16) * TWO_16 + s1 % TWO_16, strong(state))];
        curBlockIndex, cur := curBlockIndex + 1, next;
      } else {
        var next := Current(filled, cur.len, s1, s2, j, state);
        PartArrived(strong, fileSize, blockSize, blockCount, curBlockIndex, cur, blocks, seen, chunk, next);
        cur := next;
      }
    }

    /** Cut a segment at block boundaries and feed the pieces; bytes past the last block are skipped. */
    method Consume(data: Bytes, ghost before: Bytes)
      requires SignedSoFar(before)
      modifies `curBlockIndex, `cur, `blocks
      ensures SignedSoFar(before + data)
    {
      hide Signed, Sized;
      var pos := 0;
      assert before + data[..0] == before;
      while pos < |data| && curBlockIndex < blockCount
        invariant 0 <= pos <= |data| && SignedSoFar(before + data[..pos])
      {
        ghost var seen := before + data[..pos];
        RoomInBlock(strong, fileSize, blockSize, blockCount, curBlockIndex, cur, blocks, seen);
        var span := Min(cur.len - cur.filled, |data| - pos);
        Absorb(data[pos..pos + span], seen);
        assert seen + data[pos..pos + span] == before + data[..pos + span];
        pos := pos + span;
      }
      assert (before + data[..pos]) + data[pos..] == before + data;
      if pos < |data| {
        BytesPastTheEnd(strong, fileSize, blockSize, blockCount, curBlockIndex, cur, blocks,
                         before + data[..pos], data[pos..]);
      } else {
        assert data[..pos] == data;
      }
    }

    method Update(data: Bytes)
      requires Valid()
      modifies this
      ensures Valid() && fed == old(fed) + data
    {
      WrapCount(|fed|, |data|);
      hide Signed, Sized, Wrap64;
      Consume(data, fed);
      fileState := fileState + data;
      consumed := Wrap64(consumed + |data|);
      fed := fed + data;
    }

    /** Succeeds when the byte counter equals the announced size, and then yields the signature set
        and the hash of the whole file. */
    method Finish() returns (r: StreamingResult)
      requires Valid()
      ensures r.StreamingResult? <==> |fed| % TWO_64 == fileSize
      ensures |fed| == fileSize ==> r == StreamingResult(SigOf(strong, fed), fileHash(fed))
    {
      hide Signed, BlockSigs, BlockSizeFor, BlockCountFor, ChooseStrongLen;
      if consumed != fileSize {
        return SizeMismatch;
      }
      if |fed| == fileSize {
        WholeFileSigned(strong, fileSize, blockSize, blockCount, curBlockIndex, cur, blocks, fed);
      }
      var strongLen := if fileSize == 0 then 0 else ChooseStrongLen(blockCount);
      r := StreamingResult(SignatureSet(fileSize, blockSize, blockCount, strongLen, blocks), fileHash(fileState));
    }
  }

  ghost function Concat(pieces: seq<Bytes>): Bytes {
    if pieces == [] then [] else Concat(pieces[..|pieces|-1]) + pieces[|pieces|-1]
  }

  /** However the file is cut, the streamed result is the one-shot signature set and the whole-file hash. */
  method SignPieces(strong: HashFn, fileHash: HashFn, fileSize: u64, pieces: seq<Bytes>) returns (r: StreamingResult)
    ensures r.StreamingResult? <==> |Concat(pieces)| % TWO_64 == fileSize
    ensures |Concat(pieces)| == fileSize ==>
              r == StreamingResult(SigOf(strong, Concat(pieces)), fileHash(Concat(pieces)))
  {
    var signer := new StreamingSigner(strong, fileHash, fileSize);
    for i := 0 to |pieces|
      invariant signer.Valid() && signer.fed == Concat(pieces[..i])
    {
      assert pieces[..i+1][..i] == pieces[..i];
      signer.Update(pieces[i]);
    }
    assert pieces[..|pieces|] == pieces;
    r := signer.Finish();
  }
}
