/**
 The sequential reader as the byte source of the streaming planner: whatever the planner asks for, it gets
 from the reader what it gets from a plain source over the same bytes; and after a failed read the reader is a
 plain source over what was read before.
 */
module PulledReads {
  import opened Ints
  import opened Signatures
  import opened DeltaPlan
  import opened DeltaPlanner
  import opened SequentialReader
  import opened SlidingWindow

  /** What the reader can deliver of its file. */
  function Readable(reader: SequentialReader): Bytes {
    reader.src.file[..Min(reader.fileSize, |reader.src.file|)]
  }

  lemma PulledInside(reader: SequentialReader)
    requires reader.Valid() && reader.Carrying()
    ensures reader.Pulled() <= |reader.yielded| <= |Readable(reader)|
    ensures reader.Intact() && reader.nextYield >= reader.fileSize ==> |reader.yielded| == |Readable(reader)|
  {
  }

  /** One pull is one portion, of what there is or of what was read before the failure. */
  method PullOne(reader: SequentialReader, maxLen: nat, ghost data: Bytes) returns (part: Bytes, spins: bool)
    requires reader.Valid() && reader.Carrying() && data == Readable(reader)
    modifies reader, reader.src
    ensures reader.Valid() && reader.Carrying() && (reader.Intact() ==> old(reader.Intact()))
    ensures 0 <= old(reader.Pulled()) <= reader.Pulled() <= |reader.yielded| <= |data|
    ensures reader.Pulled() == old(reader.Pulled()) + |part|
    ensures var limit := if reader.Intact() && !spins then |data| else |reader.yielded|;
            var from := old(reader.Pulled());
            old(reader.Intact()) ==> from <= limit && part == data[from..Min(from + maxLen, limit)]
    ensures old(reader.Intact()) && !(reader.Intact() && !spins) ==> reader.Pulled() == |reader.yielded|
    ensures !old(reader.Intact()) && old(reader.Pulled() == |reader.yielded|) ==>
              part == [] && reader.yielded == old(reader.yielded)
  {
    hide Tracked, Chain, IsUpTo, FileReads.Valid;
    PulledInside(reader);
    ghost var from := reader.Pulled();
    part, spins := reader.Pull(maxLen);
    PulledInside(reader);
    SliceOfSlice(reader.src.file, 0, |data|, from, reader.Pulled());
    assert reader.src.file[0..|data|] == data;
  }

  lemma {:induction false} NoPortions(data: Bytes)
    ensures Portions(data, []) == [] && Reached(data, []) == 0
  {
  }

  /** Portions that end before the data is cut short are the same. */
  lemma {:induction false} CutShort(data: Bytes, limit: nat, sizes: seq<nat>)
    requires limit <= |data| && Reached(data, sizes) <= limit
    ensures Portions(data[..limit], sizes) == Portions(data, sizes)
    ensures Reached(data[..limit], sizes) == Reached(data, sizes)
  {
    if sizes != [] {
      var before := sizes[..|sizes|-1];
      CutShort(data, limit, before);
      var i, j := Reached(data, before), Reached(data, sizes);
      assert data[..limit][i..j] == data[i..j];
    }
  }

  /** What the pulls so far have brought. */
  ghost predicate Brought(reader: SequentialReader, data: Bytes, sizes: seq<nat>, parts: seq<Bytes>, spins: bool)
    reads reader
  {
    var limit := if reader.Intact() && !spins then |data| else |reader.yielded|;
    && limit <= |data| && parts == Portions(data[..limit], sizes) && reader.Pulled() == Reached(data[..limit], sizes)
    && (!(reader.Intact() && !spins) ==> reader.Pulled() == |reader.yielded|)
  }

  lemma {:induction false} PartAdds(data: Bytes, limit: nat, sizes: seq<nat>, k: nat, part: Bytes)
    requires k < |sizes| && limit <= |data| && Reached(data, sizes[..k]) <= limit
    requires var from := Reached(data, sizes[..k]); part == data[from..Min(from + sizes[k], limit)]
    ensures Portions(data[..limit], sizes[..k + 1]) == Portions(data, sizes[..k]) + [part]
    ensures Reached(data[..limit], sizes[..k + 1]) == Reached(data, sizes[..k]) + |part|
  {
    hide Portions, Reached;
    CutShort(data, limit, sizes[..k]);
    var from := Reached(data, sizes[..k]);
    SliceOfSlice(data, 0, limit, from, Min(from + sizes[k], limit));
    assert data[0..limit] == data[..limit];
    NextPortion(data[..limit], sizes, k, part);
  }

  lemma {:induction false} NothingAdds(data: Bytes, sizes: seq<nat>, k: nat)
    requires k < |sizes| && Reached(data, sizes[..k]) == |data|
    ensures Portions(data, sizes[..k + 1]) == Portions(data, sizes[..k]) + [[]]
    ensures Reached(data, sizes[..k + 1]) == |data|
  {
    hide Portions, Reached;
    NextPortion(data, sizes, k, []);
  }

  method PullNext(reader: SequentialReader, sizes: seq<nat>, k: nat, ghost data: Bytes, ghost parts: seq<Bytes>)
    returns (part: Bytes, spins: bool)
    requires reader.Valid() && reader.Carrying() && data == Readable(reader) && k < |sizes|
    requires Brought(reader, data, sizes[..k], parts, false)
    modifies reader, reader.src
    ensures reader.Valid() && reader.Carrying() && Brought(reader, data, sizes[..k + 1], parts + [part], spins)
  {
    hide Portions, Reached, SequentialReader.Valid, SequentialReader.Carrying;
    ghost var intact, was := reader.Intact(), |reader.yielded|;
    assert data[..|data|] == data;
    part, spins := PullOne(reader, sizes[k], data);
    if intact {
      PartAdds(data, if reader.Intact() && !spins then |data| else |reader.yielded|, sizes, k, part);
    } else {
      NothingAdds(data[..was], sizes, k);
    }
  }

  /** Pulling pieces of any sizes, one after the other, gives the file cut into those pieces; after a failed or
      cancelled read, or in a call that does not return, what was read before it, cut into those pieces. */
  method PullAll(reader: SequentialReader, sizes: seq<nat>) returns (parts: seq<Bytes>, spins: bool)
    requires reader.Valid() && reader.Carrying() && reader.Pulled() == 0 && reader.Intact()
    modifies reader, reader.src
    ensures reader.Valid() && |parts| <= |sizes| && (!spins ==> |parts| == |sizes|)
    ensures Brought(reader, Readable(reader), sizes[..|parts|], parts, spins)
  {
    hide Portions, Reached, SequentialReader.Valid, SequentialReader.Carrying;
    parts, spins := [], false;
    ghost var data := Readable(reader);
    NoPortions(data);
    assert sizes[..0] == [] && data[..|data|] == data;
    var k := 0;
    while k < |sizes| && !spins
      invariant 0 <= k == |parts| <= |sizes| && reader.Valid() && reader.Carrying()
      invariant Brought(reader, data, sizes[..k], parts, spins)
    {
      var part;
      part, spins := PullNext(reader, sizes, k, data, parts);
      parts := parts + [part];
      k := k + 1;
    }
  }

  /** A source that always delivers what is asked for, as far as there is any. */
  method ReadAll(source: ByteSource, sizes: seq<nat>) returns (parts: seq<Bytes>)
    requires source.Valid() && source.pos == 0 && source.asked == [] && source.given == [] && source.Generous()
    modifies source
    ensures parts == Portions(source.data, sizes)
  {
    parts := [];
    var k := 0;
    assert sizes[..0] == [];
    while k < |sizes|
      invariant 0 <= k <= |sizes| && source.Valid() && source.asked == sizes[..k] && source.given == parts
    {
      var part := source.Read(sizes[k]);
      assert sizes[..k + 1] == sizes[..k] + [sizes[k]];
      parts := parts + [part];
      k := k + 1;
    }
    assert sizes[..k] == sizes;
  }

  /** Asked for the same sizes, the reader delivers what the plain source delivers, as long as no read failed,
      no chunk was cancelled, and no call was left without an operation in flight. */
  method SameReads(reader: SequentialReader, sizes: seq<nat>, data: Bytes)
    returns (pulled: seq<Bytes>, read: seq<Bytes>, spins: bool)
    requires reader.Valid() && reader.Carrying() && reader.Pulled() == 0 && reader.Intact() && data == Readable(reader)
    modifies reader, reader.src
    ensures reader.Intact() && !spins ==> pulled == read == Portions(data, sizes)
  {
    hide Portions, Reached, SequentialReader.Valid, SequentialReader.Carrying;
    pulled, spins := PullAll(reader, sizes);
    var source := new ByteSource(data, _ => |data|);
    assert source.Generous() && data[..|data|] == data && (|pulled| == |sizes| ==> sizes[..|pulled|] == sizes);
    read := ReadAll(source, sizes);
  }

  lemma {:induction false} PortionsLength(data: Bytes, sizes: seq<nat>)
    ensures |Portions(data, sizes)| == |sizes|
  {
    if sizes != [] {
      PortionsLength(data, sizes[..|sizes|-1]);
    }
  }

  lemma {:induction false} PortionsPrefix(data: Bytes, sizes: seq<nat>, k: nat)
    requires k <= |sizes|
    ensures Portions(data, sizes[..k]) <= Portions(data, sizes)
  {
    if k < |sizes| {
      var before := sizes[..|sizes|-1];
      PortionsPrefix(data, before, k);
      assert sizes[..k] == before[..k];
    } else {
      assert sizes[..k] == sizes;
    }
  }

  /** The streaming planner over the reader. Its requests, answered by a plain source over the file, and put to
      the reader one after the other, get the same answers there, for every order and grouping of completions,
      every cut of the submissions and every timed-out wait: up to the place where a read fails, a chunk is
      cancelled or a call does not return. If none does, the reader has served the whole scan, and the plan
      is that of the file. */
  method PlanOverReader(sig: SignatureSet, strong: HashFn, reader: SequentialReader, opt: BuildOptions,
                        readAheadChunkBytes: u32)
    returns (plan: DeltaPlan, log: seq<Captured>, requests: seq<nat>, ghost answers: seq<Bytes>,
             pulled: seq<Bytes>, spins: bool)
    requires ValidSet(sig) && |Readable(reader)| < MAX_FILE
    requires reader.Valid() && reader.Carrying() && reader.Pulled() == 0 && reader.Intact()
    modifies reader, reader.src
    ensures plan == PlanOf(sig, strong, Readable(reader), opt)
    ensures answers == Portions(Readable(reader), requests) && |answers| == |requests| >= |pulled|
    ensures reader.Intact() && !spins ==> pulled == answers
    ensures var limit := if reader.Intact() && !spins then |Readable(reader)| else |reader.yielded|;
            && limit <= |Readable(reader)| && pulled == Portions(Readable(reader)[..limit], requests[..|pulled|])
            && (forall k :: 0 <= k < |pulled| && Reached(Readable(reader), requests[..k + 1]) <= limit ==>
                  pulled[k] == answers[k])
  {
    hide Portions, Reached, PlanOf, ScanOf, RoomOf, SequentialReader.Valid, SequentialReader.Carrying;
    var data := Readable(reader);
    var source := new ByteSource(data, _ => |data|);
    assert data[..|data|] == data;
    ghost var peak;
    plan, log, peak := BuildPlanStreaming(sig, strong, |data|, source, opt, readAheadChunkBytes);
    requests, answers := source.asked, source.given;
    assert source.Generous();
    PortionsLength(data, requests);
    pulled, spins := PullAll(reader, requests);
    ghost var limit := if reader.Intact() && !spins then |data| else |reader.yielded|;
    PortionsLength(data[..limit], requests[..|pulled|]);
    if reader.Intact() && !spins {
      assert requests[..|pulled|] == requests;
    }
    forall k | 0 <= k < |pulled| && Reached(data, requests[..k + 1]) <= limit ensures pulled[k] == answers[k] {
      SameAnswer(data, limit, requests, |pulled|, k);
    }
  }

  lemma {:induction false} SameAnswer(data: Bytes, limit: nat, requests: seq<nat>, n: nat, k: nat)
    requires k < n <= |requests| && limit <= |data| && Reached(data, requests[..k + 1]) <= limit
    ensures |Portions(data[..limit], requests[..n])| == n && |Portions(data, requests)| == |requests|
    ensures Portions(data[..limit], requests[..n])[k] == Portions(data, requests)[k]
  {
    hide Portions, Reached;
    CutShort(data, limit, requests[..k + 1]);
    PortionsLength(data[..limit], requests[..n]);
    PortionsLength(data, requests);
    PortionsLength(data, requests[..k + 1]);
    PortionsPrefix(data, requests, k + 1);
    PortionsPrefix(data[..limit], requests[..n], k + 1);
    assert requests[..n][..k + 1] == requests[..k + 1];
  }
}
