/**
 The sequential reader: a window of read-ahead operations over one file, whose completions come back
 in any order and are handed on in file order.
 */
module SequentialReader {
  import opened Ints
  import opened IoState
  import IoProtocol

  // ----- The driver, as one reader sees it -----

  /** What a completion of a read of this file says of it is true: a full read has the bytes, a read cut short
      by the end of the file says so, and a cancelled one has none. Nothing is said of other files and of writes. */
  ghost predicate Truthful(file: Bytes, fileId: nat, c: IoCompletion) {
    c.kind.Read? && c.fileId == fileId ==>
    && (c.status.Okay? ==> c.offset + c.requested <= |file| && c.data == file[c.offset..c.offset + c.requested])
    && (c.status.Eof? ==> c.offset + c.requested > |file|)
    && (c.status.Cancelled? ==> c.data == [])
  }

  ghost predicate DistinctTags(batch: seq<IoRequest>) {
    forall i, j :: 0 <= i < j < |batch| ==> batch[i].userTag != batch[j].userTag
  }

  /** Every request reads this file. */
  ghost predicate ReadsOf(fileId: nat, batch: seq<IoRequest>) {
    forall i :: 0 <= i < |batch| ==> batch[i].kind.Read? && batch[i].fileId == fileId
  }

  function Tagged(batch: seq<IoRequest>): map<nat, IoRequest> {
    if batch == [] then map[] else Tagged(batch[..|batch|-1])[batch[|batch|-1].userTag := batch[|batch|-1]]
  }

  function Tags(comps: seq<IoCompletion>): set<nat> {
    if comps == [] then {} else Tags(comps[..|comps|-1]) + {comps[|comps|-1].userTag}
  }

  /** The operations of one file with the driver, by user tag. Any prefix of a batch is accepted, and
      completions come back in any order and in any groups, after any number of timed-out waits. */
  class FileReads {
    const fileId: nat
    const file: Bytes
    const answer: IoRequest -> IoCompletion
    /** How many operations the driver has room for, submission by submission. */
    const room: nat -> nat
    var pending: map<nat, IoRequest>
    var submits: nat
    /** How many more waits time out. */
    var patience: nat

    ghost predicate Valid()
      reads this
    {
      && (forall r :: IoProtocol.CompletionFor(r, answer(r)) && Truthful(file, fileId, answer(r)))
      && forall t: nat :: t in pending ==> pending[t].userTag == t
    }

    /** Nothing is accepted any more, as by a driver that was cancelled or stopped. */
    ghost predicate Refuses()
      reads this`submits
    {
      forall i :: submits <= i ==> room(i) == 0
    }

    /** One operation is accepted, and then nothing any more. */
    ghost predicate TakesOne()
      reads this`submits
    {
      room(submits) == 1 && forall i :: submits < i ==> room(i) == 0
    }

    constructor (fileId: nat, file: Bytes, answer: IoRequest -> IoCompletion, room: nat -> nat, patience: nat)
      requires forall r :: IoProtocol.CompletionFor(r, answer(r)) && Truthful(file, fileId, answer(r))
      ensures Valid() && this.fileId == fileId && this.file == file && this.answer == answer && this.room == room
      ensures pending == map[] && submits == 0
    {
      this.fileId, this.file, this.answer, this.room, this.patience := fileId, file, answer, room, patience;
      pending, submits := map[], 0;
    }

    /** Accepts a prefix: none at all when the queue is full of other files' operations, or the driver
        cancelled or stopped. */
    method Submit(batch: seq<IoRequest>) returns (took: nat)
      requires Valid() && DistinctTags(batch) && forall i :: 0 <= i < |batch| ==> batch[i].userTag !in pending
      requires ReadsOf(fileId, batch)
      modifies this`pending, this`submits
      ensures Valid() && took == Min(|batch|, room(old(submits))) && submits == old(submits) + 1
      ensures pending == old(pending) + Tagged(batch[..took])
    {
      took := Min(|batch|, room(submits));
      TaggedByTag(batch[..took]);
      pending, submits := pending + Tagged(batch[..took]), submits + 1;
    }

    /** Any pending operation may finish next. */
    method FinishOne(ghost was: map<nat, IoRequest>, comps: seq<IoCompletion>) returns (more: seq<IoCompletion>)
      requires Valid() && pending != map[] && Finished(was, comps) && pending == was - Tags(comps)
      modifies this`pending
      ensures Valid() && more != [] && Finished(was, more) && pending == was - Tags(more)
      ensures |pending| < |old(pending)|
    {
      var tag :| tag in pending;
      var c := answer(pending[tag]);
      FinishedPush(was, comps, c);
      OneLess(pending, tag);
      MinusOne(was, Tags(comps), tag);
      hide Finished, Tags, Truthful;
      pending := pending - {tag};
      more := comps + [c];
    }

    /** Takes some completions, in any order; a wait with operations in flight brings one, or times out. */
    method Drain(waited: bool) returns (comps: seq<IoCompletion>)
      requires Valid()
      modifies this`pending, this`patience
      ensures Valid() && patience <= old(patience)
      ensures waited && comps == [] && old(pending) != map[] ==> patience < old(patience)
      ensures Finished(old(pending), comps) && pending == old(pending) - Tags(comps)
    {
      comps := [];
      var more: bool :| true;
      if pending != map[] && !more && waited {
        if patience == 0 {
          more := true;
        } else {
          patience := patience - 1;
        }
      }
      NothingFinished(pending);
      hide Finished, Tags, Truthful;
      while more && pending != map[]
        invariant Valid() && Finished(old(pending), comps) && pending == old(pending) - Tags(comps)
        invariant patience <= old(patience)
        invariant waited && comps == [] && !more && old(pending) != map[] ==> patience < old(patience)
        decreases |pending|
      {
        comps := FinishOne(old(pending), comps);
        var on: bool :| true;
        more := on;
      }
    }

    /** Completions of distinct operations that were pending, each the answer to its operation. */
    ghost predicate Finished(was: map<nat, IoRequest>, comps: seq<IoCompletion>)
      reads {}
    {
      && (forall i :: 0 <= i < |comps| ==> comps[i].userTag in was && comps[i] == answer(was[comps[i].userTag]))
      && (forall i, j :: 0 <= i < j < |comps| ==> comps[i].userTag != comps[j].userTag)
    }

    lemma NothingFinished(was: map<nat, IoRequest>)
      ensures Finished(was, []) && was - Tags([]) == was
    {
    }

    lemma FinishedPush(was: map<nat, IoRequest>, comps: seq<IoCompletion>, c: IoCompletion)
      requires Finished(was, comps) && c.userTag in was && c == answer(was[c.userTag]) && c.userTag !in Tags(comps)
      ensures Finished(was, comps + [c]) && Tags(comps + [c]) == Tags(comps) + {c.userTag}
    {
      TagsHave(comps);
      assert (comps + [c])[..|comps|] == comps;
    }
  }

  lemma OneLess<K, V>(m: map<K, V>, k: K)
    requires k in m
    ensures |m - {k}| == |m| - 1
  {
    assert (m - {k}).Keys == m.Keys - {k};
    assert |m.Keys| == |m|;
  }

  lemma MinusOne<K, V>(m: map<K, V>, s: set<K>, k: K)
    ensures m - s - {k} == m - (s + {k})
  {
  }

  lemma {:induction false} TaggedByTag(batch: seq<IoRequest>)
    ensures forall t: nat :: t in Tagged(batch) ==> Tagged(batch)[t].userTag == t
  {
    if batch != [] {
      TaggedByTag(batch[..|batch|-1]);
    }
  }

  lemma {:induction false} TagsHave(comps: seq<IoCompletion>)
    ensures forall t: nat :: t in Tags(comps) <==> exists i :: 0 <= i < |comps| && comps[i].userTag == t
  {
    if comps != [] {
      TagsHave(comps[..|comps|-1]);
    }
  }

  // ----- Chunks -----

  datatype Grid = Grid(fileId: nat, size: nat, chunk: nat)

  function Step(g: Grid, off: nat): nat
    requires off < g.size
  {
    Min(g.chunk, g.size - off)
  }

  function ReadOp(g: Grid, off: nat): IoRequest
    requires off < g.size
  {
    IoRequest(Read, g.fileId, off, Step(g, off), Large, off, [])
  }

  /** Consecutive chunks from one offset to another. */
  ghost predicate Chain(g: Grid, offs: seq<nat>, from: nat, to: nat) {
    if offs == [] then from == to
    else offs[0] == from && from < g.size && Chain(g, offs[1..], from + Step(g, from), to)
  }

  lemma {:induction false} ChainCat(g: Grid, a: seq<nat>, b: seq<nat>, from: nat, mid: nat, to: nat)
    requires Chain(g, a, from, mid) && Chain(g, b, mid, to)
    ensures Chain(g, a + b, from, to)
  {
    if a == [] {
      assert a + b == b;
    } else {
      ChainCat(g, a[1..], b, from + Step(g, from), mid, to);
      assert (a + b)[1..] == a[1..] + b;
    }
  }

  /** The first chunk begins where the chain does, and the second within a chunk of it. */
  lemma FirstChunks(g: Grid, offs: seq<nat>, from: nat, to: nat)
    requires Chain(g, offs, from, to) && g.chunk > 0
    ensures if offs == [] then to == from else offs[0] == from
    ensures offs != [] ==> from < (if |offs| > 1 then offs[1] else to) <= from + g.chunk
  {
  }

  lemma ChainPush(g: Grid, a: seq<nat>, from: nat, to: nat)
    requires Chain(g, a, from, to) && to < g.size
    ensures Chain(g, a + [to], from, to + Step(g, to))
  {
    assert [to][1..] == [];
    ChainCat(g, a, [to], from, to, to + Step(g, to));
  }

  lemma {:induction false} ChainTake(g: Grid, a: seq<nat>, k: nat, from: nat, to: nat)
    requires Chain(g, a, from, to) && k < |a|
    ensures Chain(g, a[..k], from, a[k])
  {
    if k > 0 {
      ChainTake(g, a[1..], k - 1, from + Step(g, from), to);
      assert a[..k][1..] == a[1..][..k - 1];
    }
  }

  /** Chunk offsets rise strictly and stay within the chain and the file. */
  lemma {:induction false} ChainBounds(g: Grid, a: seq<nat>, from: nat, to: nat)
    requires Chain(g, a, from, to) && g.chunk > 0
    ensures from <= to && (a != [] ==> from < to) && (from <= g.size ==> to <= g.size)
    ensures forall i :: 0 <= i < |a| ==> from <= a[i] < to && a[i] < g.size
    ensures forall i, j :: 0 <= i < j < |a| ==> a[i] < a[j]
  {
    if a != [] {
      ChainBounds(g, a[1..], from + Step(g, from), to);
      assert forall i :: 1 <= i < |a| ==> a[i] == a[1..][i - 1];
    }
  }

  // ----- The reader -----

  ghost predicate OpsFor(g: Grid, batch: seq<IoRequest>, offs: seq<nat>) {
    |batch| == |offs| && forall i :: 0 <= i < |offs| ==> offs[i] < g.size && batch[i] == ReadOp(g, offs[i])
  }

  lemma OpsRead(g: Grid, batch: seq<IoRequest>, offs: seq<nat>)
    requires OpsFor(g, batch, offs)
    ensures ReadsOf(g.fileId, batch)
  {
    hide Step;
  }

  ghost predicate IsOp(g: Grid, m: map<nat, IoRequest>, t: nat) {
    t in m && t < g.size && m[t] == ReadOp(g, t)
  }

  lemma {:induction false} TaggedOps(g: Grid, batch: seq<IoRequest>, offs: seq<nat>)
    requires OpsFor(g, batch, offs) && forall i, j :: 0 <= i < j < |offs| ==> offs[i] < offs[j]
    ensures var m := Tagged(batch);
            |m| == |batch| && (forall t: nat :: t in m <==> t in offs) && forall t: nat :: t in m ==> IsOp(g, m, t)
  {
    if batch != [] {
      var n := |batch| - 1;
      TaggedOps(g, batch[..n], offs[..n]);
      TaggedStep(g, Tagged(batch[..n]), offs, n);
    }
  }

  lemma TaggedStep(g: Grid, m: map<nat, IoRequest>, offs: seq<nat>, n: nat)
    requires |offs| == n + 1 && offs[n] < g.size && (forall i :: 0 <= i < n ==> offs[i] < offs[n])
    requires (forall t: nat :: t in m <==> t in offs[..n]) && forall t: nat :: t in m ==> IsOp(g, m, t)
    ensures var k := m[offs[n] := ReadOp(g, offs[n])];
            |k| == |m| + 1 && (forall t: nat :: t in k <==> t in offs) && forall t: nat :: t in k ==> IsOp(g, k, t)
  {
    hide Step;
    assert offs == offs[..n] + [offs[n]];
    AddOne(m, offs[n], ReadOp(g, offs[n]));
    var k := m[offs[n] := ReadOp(g, offs[n])];
    forall t: nat | t in k ensures IsOp(g, k, t) {
      assert t != offs[n] ==> IsOp(g, m, t);
    }
  }

  lemma AddOne<K, V>(m: map<K, V>, k: K, v: V)
    requires k !in m
    ensures |m[k := v]| == |m| + 1
  {
    assert m[k := v].Keys == m.Keys + {k};
    assert |m.Keys| == |m| && |m[k := v].Keys| == |m[k := v]|;
  }

  lemma AddMap<K, V>(a: map<K, V>, b: map<K, V>)
    requires a.Keys !! b.Keys
    ensures |a + b| == |a| + |b|
  {
    assert (a + b).Keys == a.Keys + b.Keys;
    assert |a.Keys| == |a| && |b.Keys| == |b| && |(a + b).Keys| == |a + b|;
  }

  /** Every chunk of the plan is in flight or waits for its turn, never both. */
  ghost predicate Tracked(g: Grid, answer: IoRequest -> IoCompletion, pending: map<nat, IoRequest>,
                          reordered: map<nat, IoCompletion>, plan: seq<nat>) {
    && (forall t: nat :: t in pending ==> IsOp(g, pending, t) && t in plan && t !in reordered)
    && (forall t: nat :: t in reordered ==> t < g.size && reordered[t] == answer(ReadOp(g, t)) && t in plan)
    && (forall t: nat :: t in plan ==> t in pending || t in reordered)
  }

  lemma OpsDistinct(g: Grid, batch: seq<IoRequest>, offs: seq<nat>, from: nat, to: nat)
    requires g.chunk > 0 && OpsFor(g, batch, offs) && Chain(g, offs, from, to)
    ensures DistinctTags(batch)
  {
    ChainBounds(g, offs, from, to);
    hide Chain;
  }

  lemma PlannedIsNew(g: Grid, answer: IoRequest -> IoCompletion, pending: map<nat, IoRequest>,
                     reordered: map<nat, IoCompletion>, plan: seq<nat>, offs: seq<nat>, from: nat, mid: nat, to: nat)
    requires g.chunk > 0 && Tracked(g, answer, pending, reordered, plan)
    requires Chain(g, plan, from, mid) && Chain(g, offs, mid, to)
    ensures forall i :: 0 <= i < |offs| ==> offs[i] !in pending && offs[i] !in plan && offs[i] !in reordered
  {
    ChainBounds(g, plan, from, mid);
    ChainBounds(g, offs, mid, to);
    hide Chain;
  }

  lemma PlanStarts(g: Grid, plan: seq<nat>, from: nat, to: nat)
    requires g.chunk > 0 && Chain(g, plan, from, to)
    ensures plan == [] <==> from == to
    ensures plan != [] ==> plan[0] == from < to
  {
    ChainBounds(g, plan, from, to);
  }

  lemma ReadyToSubmit(g: Grid, answer: IoRequest -> IoCompletion, pending: map<nat, IoRequest>,
                      reordered: map<nat, IoCompletion>, plan: seq<nat>, batch: seq<IoRequest>, offs: seq<nat>,
                      from: nat, mid: nat, to: nat)
    requires g.chunk > 0 && Tracked(g, answer, pending, reordered, plan) && OpsFor(g, batch, offs)
    requires Chain(g, plan, from, mid) && Chain(g, offs, mid, to)
    ensures |batch| == |offs| && DistinctTags(batch)
    ensures forall i :: 0 <= i < |batch| ==> batch[i].userTag !in pending
  {
    OpsDistinct(g, batch, offs, mid, to);
    PlannedIsNew(g, answer, pending, reordered, plan, offs, from, mid, to);
    hide Chain, Tracked;
  }

  lemma GrowTracked(g: Grid, answer: IoRequest -> IoCompletion, pending: map<nat, IoRequest>,
                    reordered: map<nat, IoCompletion>, plan: seq<nat>, batch: seq<IoRequest>, offs: seq<nat>, took: nat,
                    from: nat, mid: nat, end: nat, now: map<nat, IoRequest>, to: nat)
    requires took <= |batch| && now == pending + Tagged(batch[..took])
    requires g.chunk > 0 && Tracked(g, answer, pending, reordered, plan) && OpsFor(g, batch, offs) && took <= |batch|
    requires Chain(g, plan, from, mid) && Chain(g, offs, mid, end) && to == if took < |offs| then offs[took] else end
    ensures Tracked(g, answer, now, reordered, plan + offs[..took]) && |now| == |pending| + took
    ensures Chain(g, plan + offs[..took], from, to) && mid <= to && (end <= g.size ==> to <= g.size)
  {
    hide Tracked, Tagged, Step, Chain;
    var b, o := batch[..took], offs[..took];
    GrowChain(g, plan, offs, took, from, mid, end, to);
    PlannedIsNew(g, answer, pending, reordered, plan, o, from, mid, to);
    TaggedOps(g, b, o);
    AddMap(pending, Tagged(b));
    AddTracked(g, answer, pending, reordered, plan, Tagged(b), o);
  }

  /** The accepted part of the planned chunks continues the chain. */
  lemma GrowChain(g: Grid, plan: seq<nat>, offs: seq<nat>, took: nat, from: nat, mid: nat, end: nat, to: nat)
    requires g.chunk > 0 && took <= |offs| && Chain(g, plan, from, mid) && Chain(g, offs, mid, end)
    requires to == if took < |offs| then offs[took] else end
    ensures Chain(g, offs[..took], mid, to) && Chain(g, plan + offs[..took], from, to)
    ensures mid <= to && (end <= g.size ==> to <= g.size)
    ensures forall i, j :: 0 <= i < j < took ==> offs[i] < offs[j]
  {
    hide Step, Chain;
    var o := offs[..took];
    if took < |offs| {
      ChainTake(g, offs, took, mid, end);
    } else {
      assert o == offs;
    }
    ChainBounds(g, offs, mid, end);
    ChainCat(g, plan, o, from, mid, to);
    ChainBounds(g, o, mid, to);
  }

  lemma AddTracked(g: Grid, answer: IoRequest -> IoCompletion, pending: map<nat, IoRequest>,
                   reordered: map<nat, IoCompletion>, plan: seq<nat>, more: map<nat, IoRequest>, o: seq<nat>)
    requires Tracked(g, answer, pending, reordered, plan)
    requires forall t: nat :: t in more <==> t in o
    requires forall t: nat :: t in more ==> IsOp(g, more, t) && t !in reordered && t !in pending
    ensures Tracked(g, answer, pending + more, reordered, plan + o)
  {
    var p := pending + more;
    forall t: nat | t in p ensures IsOp(g, p, t) && t in plan + o && t !in reordered {
      assert if t in more then IsOp(g, more, t) else IsOp(g, pending, t);
    }
  }

  /** Error and an early end of file fail the reader. */
  predicate Fails(c: IoCompletion) {
    c.status.Error? || c.status.Eof?
  }

  ghost predicate Outcome(c: IoCompletion, out: Bytes, ok: bool) {
    match c.status
    case Okay => ok && out == c.data
    case Cancelled => ok && out == c.data
    case Eof => !ok && out == []
    case Error => !ok && out == []
  }

  ghost predicate IsUpTo(part: Bytes, file: Bytes, n: nat) {
    n <= |file| && part == file[..n]
  }

  class SequentialReader {
    const src: FileReads
    const fileId: nat
    const fileSize: u64
    const chunk: u32
    const readAhead: u32
    var nextSubmit: nat
    var nextYield: nat
    var inFlight: nat
    var error: bool
    var reordered: map<nat, IoCompletion>
    var carry: Bytes
    var carryPos: nat
    /** The chunks submitted and not looked at, in file order; what was handed on; whether the chunk at
        nextYield was cancelled. The plan starts at the next chunk to hand on, or after it if that failed. */
    ghost var plan: seq<nat>
    ghost var planStart: nat
    ghost var yielded: Bytes
    ghost var lost: bool

    ghost function Chunks(): Grid {
      Grid(fileId, fileSize, chunk)
    }

    /** What the file's operation at an offset comes back with. */
    ghost function AnswerAt(off: nat): IoCompletion
      requires off < fileSize
    {
      src.answer(ReadOp(Chunks(), off))
    }

    /** No read has failed and no chunk was cancelled. */
    ghost predicate Intact()
      reads this
    {
      !error && !lost
    }

    /** The invariant, with these operations in flight. */
    ghost predicate ValidWith(pending: map<nat, IoRequest>)
      reads this
    {
      && fileId == src.fileId && chunk > 0 && readAhead > 0 && (error || lost ==> nextYield < fileSize)
      && planStart == (if error || lost then nextYield + Step(Chunks(), nextYield) else nextYield)
      && planStart <= nextSubmit <= fileSize && Chain(Chunks(), plan, planStart, nextSubmit)
      && inFlight == |pending| <= readAhead
      && Tracked(Chunks(), src.answer, pending, reordered, plan)
      && IsUpTo(yielded, src.file, nextYield)
    }

    ghost predicate Valid()
      reads this, src
    {
      src.Valid() && ValidWith(src.pending)
    }

    constructor (src: FileReads, fileId: nat, fileSize: u64, chunkBytes: u32, readAhead: u32)
      requires src.Valid() && src.pending == map[] && src.fileId == fileId
      ensures Valid() && this.src == src && this.fileSize == fileSize && yielded == [] && !error && !lost
      ensures chunk == (if chunkBytes == 0 then 0x10_0000 else chunkBytes)
      ensures this.readAhead == if readAhead == 0 then 1 else readAhead
      ensures nextYield == 0 && nextSubmit == 0 && inFlight == 0
      ensures carry == [] && carryPos == 0
    {
      this.src, this.fileId, this.fileSize := src, fileId, fileSize;
      chunk := if chunkBytes == 0 then 0x10_0000 else chunkBytes;
      this.readAhead := if readAhead == 0 then 1 else readAhead;
      nextSubmit, nextYield, inFlight, error := 0, 0, 0, false;
      reordered, carry, carryPos := map[], [], 0;
      plan, planStart, yielded, lost := [], 0, [], false;
    }

    lemma NoChain()
      ensures Chain(Chunks(), [], nextSubmit, nextSubmit)
    {
    }

    /** Low-priority operations of a chunk, or of what is left of the file. */
    ghost predicate LargeChunks(batch: seq<IoRequest>)
      reads this
    {
      forall r :: r in batch ==> r.prio.Large? && r.offset < fileSize && r.length == Min(chunk, fileSize - r.offset)
    }

    /** The read-ahead operations to submit now: consecutive chunks while the window has room. */
    method PlanBatch() returns (batch: seq<IoRequest>, offs: seq<nat>, end: nat)
      requires Valid()
      ensures OpsFor(Chunks(), batch, offs) && Chain(Chunks(), offs, nextSubmit, end)
      ensures inFlight + |batch| <= readAhead && end <= fileSize
      ensures inFlight + |batch| == readAhead || end == fileSize
      ensures batch == [] ==> end == nextSubmit
      ensures LargeChunks(batch)
    {
      hide Chain, Tracked, IsUpTo, FileReads.Valid;
      NoChain();
      batch, offs, end := [], [], nextSubmit;
      var planned := inFlight;
      while planned < readAhead && end < fileSize
        invariant OpsFor(Chunks(), batch, offs) && Chain(Chunks(), offs, nextSubmit, end)
        invariant planned == inFlight + |batch| <= readAhead && end <= fileSize
        invariant batch == [] ==> end == nextSubmit
        invariant LargeChunks(batch)
        decreases fileSize - end
      {
        var len := Min(chunk, fileSize - end);
        ChainPush(Chunks(), offs, nextSubmit, end);
        batch := batch + [IoRequest(Read, fileId, end, len, Large, end, [])];
        offs := offs + [end];
        end := end + len;
        planned := planned + 1;
      }
    }

    method SubmitPlanned(batch: seq<IoRequest>, offs: seq<nat>, end: nat)
      requires Valid() && OpsFor(Chunks(), batch, offs) && Chain(Chunks(), offs, nextSubmit, end)
      requires inFlight + |batch| <= readAhead && end <= fileSize
      modifies this`nextSubmit, this`inFlight, this`plan, src`pending, src`submits
      ensures Valid() && nextSubmit >= old(nextSubmit) && src.submits == old(src.submits) + 1
      ensures var took := Min(|batch|, src.room(old(src.submits)));
              && inFlight == old(inFlight) + took && (took == |batch| ==> nextSubmit == end)
              && (took == 0 ==> nextSubmit == old(nextSubmit))
              && (took == 1 ==> old(nextSubmit) < nextSubmit <= old(nextSubmit) + chunk)
    {
      hide Tracked, Truthful, Chain, OpsFor, FileReads.Valid, DistinctTags, Tagged, IsUpTo, Step;
      ghost var g, was := Chunks(), src.pending;
      ReadyToSubmit(g, src.answer, was, reordered, plan, batch, offs, planStart, nextSubmit, end);
      OpsRead(g, batch, offs);
      var took := src.Submit(batch);
      NoteAccepted(batch, offs, end, took, was);
    }

    /** Records how much of a batch was accepted. */
    method NoteAccepted(batch: seq<IoRequest>, offs: seq<nat>, end: nat, took: nat, ghost was: map<nat, IoRequest>)
      requires ValidWith(was) && OpsFor(Chunks(), batch, offs) && Chain(Chunks(), offs, nextSubmit, end)
      requires inFlight + |batch| <= readAhead && end <= fileSize
      requires took <= |batch| == |offs| && src.pending == was + Tagged(batch[..took])
      modifies this`nextSubmit, this`inFlight, this`plan
      ensures ValidWith(src.pending) && nextSubmit >= old(nextSubmit)
      ensures inFlight == old(inFlight) + took && (took == |batch| ==> nextSubmit == end)
      ensures took == 0 ==> nextSubmit == old(nextSubmit)
      ensures took == 1 ==> old(nextSubmit) < nextSubmit <= old(nextSubmit) + chunk
    {
      hide Tracked, Chain, OpsFor, Tagged, IsUpTo, Step, Min;
      var next := if took < |offs| then offs[took] else end;
      FirstChunks(Chunks(), offs, nextSubmit, end);
      GrowTracked(Chunks(), src.answer, was, reordered, plan, batch, offs, took, planStart, nextSubmit, end,
                  src.pending, next);
      inFlight := inFlight + took;
      nextSubmit := next;
      plan := plan + offs[..took];
    }

    lemma InWindow()
      requires Valid()
      ensures 0 < readAhead && inFlight <= readAhead && nextSubmit <= fileSize
    {
      hide Tracked, Chain, IsUpTo, FileReads.Valid;
    }

    /** Tops up the window with whatever prefix is accepted; where there is room, up to the read-ahead or the end
        of the file. */
    method Refill()
      requires Valid()
      modifies this`nextSubmit, this`inFlight, this`plan, src`pending, src`submits
      ensures Valid() && nextSubmit >= old(nextSubmit) && old(inFlight) <= inFlight <= readAhead
      ensures src.room(old(src.submits)) >= readAhead ==> inFlight == readAhead || nextSubmit == fileSize
      ensures old(src.Refuses()) ==> src.Refuses() && nextSubmit == old(nextSubmit)
      ensures old(src.TakesOne()) && old(inFlight) == 0 && old(nextSubmit) < fileSize ==>
                src.Refuses() && old(nextSubmit) < nextSubmit <= old(nextSubmit) + chunk
    {
      hide ValidWith, FileReads.Valid, OpsFor, Chain;
      InWindow();
      var batch, offs, end := PlanBatch();
      if batch == [] {
        return;
      }
      SubmitPlanned(batch, offs, end);
    }

    method AbsorbOne(comps: seq<IoCompletion>, i: nat, ghost was: map<nat, IoRequest>)
      requires i < |comps| && src.Valid() && src.Finished(was, comps) && ValidWith(was - Tags(comps[..i]))
      modifies this`inFlight, this`reordered
      ensures ValidWith(was - Tags(comps[..i + 1]))
    {
      hide Tracked, Truthful, Chain, FileReads.Valid, Tags, IsUpTo, FileReads.Finished, Step;
      var c := comps[i];
      AbsorbStep(Chunks(), src, was, comps, i, reordered, plan);
      if inFlight > 0 {
        inFlight := inFlight - 1;
      }
      reordered := if c.offset in reordered then reordered else reordered[c.offset := c];
    }

    /** Files drained completions by offset. */
    method Absorb(comps: seq<IoCompletion>, ghost was: map<nat, IoRequest>)
      requires src.Valid() && ValidWith(was) && src.Finished(was, comps) && src.pending == was - Tags(comps)
      modifies this`inFlight, this`reordered
      ensures Valid()
    {
      hide FileReads.Valid, Tags, FileReads.Finished, ValidWith;
      var i := 0;
      NoTags(was, comps);
      while i < |comps|
        invariant 0 <= i <= |comps| && ValidWith(was - Tags(comps[..i]))
      {
        AbsorbOne(comps, i, was);
        i := i + 1;
      }
      assert comps[..i] == comps;
    }

    /** The next chunk is in flight or has arrived; not so when it was cancelled, or never accepted. */
    ghost predicate Expected()
      reads this
    {
      !lost && nextYield < nextSubmit
    }

    /** Takes in what has come back, blocking if nothing has: some completion, or a wait that timed out. */
    method Reap() returns (some: bool)
      requires Valid()
      modifies this`inFlight, this`reordered, src`pending, src`patience
      ensures Valid() && src.patience <= old(src.patience)
      ensures if some then |src.pending| < |old(src.pending)|
              else src.pending == old(src.pending) && reordered == old(reordered)
                   && (src.pending != map[] ==> src.patience < old(src.patience))
    {
      hide Tracked, Truthful, Chain, FileReads.Valid, Tags, IsUpTo, FileReads.Finished, Step, ValidWith;
      ghost var was := src.pending;
      var comps := src.Drain(false);
      NoTags(was, []);
      NoTags(was, comps);
      if comps == [] {
        comps := src.Drain(true);
      }
      FewerPending(src, was, comps);
      some := comps != [];
      if some {
        Absorb(comps, was);
      }
    }

    /** Waits until the next chunk is there: reaps the file's completions, blocking if there are none. When
        nothing is in flight any more the original returns if everything was submitted; if not, it spins:
        it submits nothing in this loop, so no further turn of it changes anything. */
    method AwaitNext() returns (spins: bool)
      requires Valid() && !error && nextYield < fileSize
      modifies this`inFlight, this`reordered, src`pending, src`patience
      ensures Valid() && (nextYield in reordered <==> Expected()) && (Expected() ==> plan != [])
      ensures !Expected() ==> src.pending == map[]
      ensures spins <==> !Expected() && nextSubmit < fileSize
    {
      hide Tracked, Truthful, Chain, FileReads.Valid, Tags, IsUpTo, FileReads.Finished, Step;
      NextArrivesIff(Chunks(), src.answer, src.pending, reordered, plan, planStart, nextSubmit, nextYield, lost);
      while nextYield !in reordered
        invariant Valid() && (!Expected() ==> nextYield !in reordered)
        decreases |src.pending|, src.patience
      {
        var some := Reap();
        NextArrivesIff(Chunks(), src.answer, src.pending, reordered, plan, planStart, nextSubmit, nextYield, lost);
        if !some && inFlight == 0 {
          return nextSubmit < fileSize;
        }
      }
      return false;
    }

    /** Takes the chunk that has arrived: its bytes, or the failure of its read. */
    method TakeNext() returns (out: Bytes, ok: bool)
      requires Valid() && !error && !lost && nextYield < fileSize && plan != [] && nextYield in reordered
      modifies this`reordered, this`plan, this`planStart, this`error, this`lost, this`yielded, this`nextYield
      ensures Valid() && nextYield == old(nextYield) + |out| && yielded == old(yielded) + out
      ensures var c := AnswerAt(old(nextYield));
              Outcome(c, out, ok) && error == !ok && lost == c.status.Cancelled?
      ensures out == [] <==> error || lost
    {
      hide Tracked, Chain, IsUpTo, FileReads.Valid, Truthful, Step;
      var c := reordered[nextYield];
      TakeTracked(Chunks(), src.answer, src.pending, reordered, plan, nextYield, nextSubmit);
      WhatItBrings(Chunks(), src, yielded, nextYield);
      assert yielded + [] == yielded;
      reordered := reordered - {nextYield};
      plan, planStart := plan[1..], nextYield + Step(Chunks(), nextYield);
      if Fails(c) {
        error, out, ok := true, [], false;
      } else {
        out, ok := c.data, true;
        lost := c.status.Cancelled?;
        yielded := yielded + out;
        nextYield := nextYield + |out|;
      }
    }

    /** Takes the chunk and tops up the window. */
    method HandOn() returns (out: Bytes, ok: bool)
      requires Valid() && !error && !lost && nextYield < fileSize && plan != [] && nextYield in reordered
      modifies this, src
      ensures Valid() && nextYield == old(nextYield) + |out| && yielded == old(yielded) + out
      ensures carry == old(carry) && carryPos == old(carryPos) && nextSubmit >= old(nextSubmit)
      ensures old(src.Refuses()) ==> src.Refuses() && nextSubmit == old(nextSubmit)
      ensures var c := AnswerAt(old(nextYield));
              Outcome(c, out, ok) && error == !ok && lost == c.status.Cancelled?
      ensures out == [] <==> error || lost
    {
      hide Tracked, Chain, IsUpTo, FileReads.Valid, Step, Truthful;
      out, ok := TakeNext();
      if ok {
        Refill();
      }
    }

    /** What refused submissions leave unsubmitted. */
    twostate predicate Unsubmitted()
      reads this, src
    {
      && (old(src.Refuses()) ==> src.Refuses() && nextSubmit == old(nextSubmit))
      && (old(src.TakesOne()) && old(inFlight) == 0 && old(nextSubmit) < fileSize ==>
            src.Refuses() && old(nextSubmit) < nextSubmit <= old(nextSubmit) + chunk)
    }

    /** The next chunk in file order. Its outcome is that of the file's operation at that offset, whatever
        order completions came in and however submissions were cut short. After a cancelled chunk no bytes
        come any more. The call spins if and only if the chunk was cancelled before, or its operation is
        refused now, and the file is not submitted to its end. */
    method Next() returns (out: Bytes, ok: bool, spins: bool)
      requires Valid()
      modifies this, src
      ensures Valid() && carry == old(carry) && carryPos == old(carryPos)
      ensures nextYield == old(nextYield) + |out| && yielded == old(yielded) + out
      ensures old(error) ==> !ok && out == [] && error && !spins
      ensures !old(error) && old(nextYield) >= fileSize ==> ok && out == [] && !error && !spins
      ensures !old(error) && old(nextYield) < fileSize ==>
                if old(lost) then ok && out == [] && !error && lost && (spins <==> nextSubmit < fileSize)
                else if nextSubmit == old(nextYield) then ok && out == [] && !error && !lost && spins
                else
                  var c := AnswerAt(old(nextYield));
                  Outcome(c, out, ok) && error == !ok && lost == c.status.Cancelled? && !spins
      ensures if out == [] then error || lost || nextYield >= fileSize || spins else !error && !lost && !spins
      ensures Intact() ==> old(Intact())
      ensures !old(error) && old(nextYield) < fileSize ==> Unsubmitted()
    {
      hide Tracked, Chain, IsUpTo, FileReads.Valid, Step, Truthful;
      if error {
        return [], false, false;
      }
      if nextYield >= fileSize {
        return [], true, false;
      }
      Refill();
      spins := AwaitNext();
      if nextYield !in reordered {
        return [], true, spins;
      }
      out, ok := HandOn();
    }

    // ----- As a byte source -----

    /** The bytes pulled so far: what was handed on, less what is carried over. */
    ghost predicate Carrying()
      reads this
    {
      && carryPos <= |carry| && |carry| - carryPos <= |yielded|
      && carry[carryPos..] == yielded[|yielded| - (|carry| - carryPos)..]
    }

    ghost function Pulled(): int
      reads this
    {
      |yielded| - (|carry| - carryPos)
    }

    /** Copies from the chunk carried over. */
    method TakeCarried(room: nat) returns (part: Bytes)
      requires Carrying() && carryPos < |carry| && room > 0
      modifies this`carryPos
      ensures Carrying() && 0 < |part| <= room && Pulled() == old(Pulled()) + |part|
      ensures part == yielded[old(Pulled())..Pulled()]
    {
      var take := Min(|carry| - carryPos, room);
      part := carry[carryPos..carryPos + take];
      assert carry[carryPos..][..take] == part && carry[carryPos..][take..] == carry[carryPos + take..];
      carryPos := carryPos + take;
    }

    /** Fills the carry with the next chunk; false at the end, on a failed read, or on a cancelled or
        refused one. */
    method FillCarry() returns (more: bool, spins: bool)
      requires Valid() && Carrying() && carryPos == |carry|
      modifies this, src
      ensures Valid() && Carrying() && Pulled() == old(Pulled()) && old(yielded) <= yielded
      ensures if more then carryPos < |carry| && !spins
              else carry == [] && (error || lost || nextYield >= fileSize || spins)
      ensures Intact() ==> old(Intact())
      ensures (more ==> Intact()) && (!old(Intact()) ==> yielded == old(yielded))
    {
      hide FileReads.Valid, Tracked, Chain, IsUpTo, Step;
      var out, ok;
      out, ok, spins := Next();
      assert yielded[|yielded| - |out|..] == out && out[0..] == out;
      carry, carryPos := out, 0;
      more := ok && |carry| > 0;
    }

    /** Up to maxLen bytes, the next of the file; fewer only when everything handed on was pulled and
        the file is at its end, a read failed or one was cancelled or refused. */
    method Pull(maxLen: nat) returns (dst: Bytes, spins: bool)
      requires Valid() && Carrying()
      modifies this, src
      ensures Valid() && Carrying() && |dst| <= maxLen
      ensures 0 <= old(Pulled()) <= Pulled() <= |src.file| && dst == src.file[old(Pulled())..Pulled()]
      ensures |dst| < maxLen ==> Pulled() == |yielded| && (error || lost || nextYield >= fileSize || spins)
      ensures (spins ==> |dst| < maxLen) && (Intact() ==> old(Intact()))
      ensures old(Intact()) && !Intact() ==> |dst| < maxLen
      ensures !old(Intact()) && old(carryPos == |carry|) ==> dst == [] && yielded == old(yielded)
    {
      hide FileReads.Valid, Tracked, Chain, IsUpTo;
      dst, spins := [], false;
      var more := true;
      while |dst| < maxLen && more
        invariant Valid() && Carrying() && |dst| <= maxLen && old(yielded) <= yielded
        invariant Pulled() == old(Pulled()) + |dst| && dst == yielded[old(Pulled())..Pulled()]
        invariant !more ==> carry == [] && (error || lost || nextYield >= fileSize || spins)
        invariant (spins ==> |dst| < maxLen && !more) && (Intact() ==> old(Intact()))
        invariant old(Intact()) && !Intact() ==> |dst| < maxLen && !more
        invariant !old(Intact()) && old(carryPos == |carry|) ==>
                    dst == [] && yielded == old(yielded) && carryPos == |carry|
        decreases more, maxLen - |dst|, carryPos == |carry|
      {
        if carryPos < |carry| {
          var part := TakeCarried(maxLen - |dst|);
          dst := dst + part;
        } else {
          more, spins := FillCarry();
        }
      }
      HandedOn(old(Pulled()), Pulled());
    }

    /** What was handed on is the file up to there. */
    lemma HandedOn(from: int, to: int)
      requires Valid() && 0 <= from <= to <= |yielded|
      ensures to <= |src.file| && yielded[from..to] == src.file[from..to]
    {
      hide FileReads.Valid, Tracked, Chain;
    }
  }

  /** The chunk at the front is on its way or there exactly if it was submitted and not cancelled; without
      anything in flight, exactly if it is there. */
  lemma NextArrivesIff(g: Grid, answer: IoRequest -> IoCompletion, pending: map<nat, IoRequest>,
                       reordered: map<nat, IoCompletion>, plan: seq<nat>, from: nat, to: nat, next: nat, lost: bool)
    requires g.chunk > 0 && Tracked(g, answer, pending, reordered, plan) && Chain(g, plan, from, to) && next < g.size
    requires from == if lost then next + Step(g, next) else next
    ensures next in pending || next in reordered <==> !lost && next < to
    ensures !lost && next < to ==> plan != []
    ensures !lost && next == to ==> pending == map[]
  {
    ChainBounds(g, plan, from, to);
    if !lost && next < to {
      assert plan[0] == from;
    }
    if plan == [] {
      assert pending.Keys == {};
    }
  }

  lemma FewerPending(src: FileReads, was: map<nat, IoRequest>, comps: seq<IoCompletion>)
    requires src.Finished(was, comps)
    ensures comps != [] ==> |was - Tags(comps)| < |was|
  {
    if comps != [] {
      var t := comps[0].userTag;
      TagsHave(comps);
      assert t in was && t !in was - Tags(comps);
      assert (was - Tags(comps)).Keys < was.Keys;
    }
  }

  /** A chunk read in full extends what was handed on; a cancelled one leaves it as it is. */
  lemma WhatItBrings(g: Grid, src: FileReads, yielded: Bytes, off: nat)
    requires src.Valid() && IsUpTo(yielded, src.file, off) && off < g.size && g.chunk > 0
    requires g.fileId == src.fileId
    ensures var c := src.answer(ReadOp(g, off));
            !Fails(c) ==> IsUpTo(yielded + c.data, src.file, off + |c.data|) && (c.data == [] <==> c.status.Cancelled?)
                          && |c.data| == if c.status.Cancelled? then 0 else Step(g, off)
  {
    var r := ReadOp(g, off);
    assert IoProtocol.CompletionFor(r, src.answer(r)) && Truthful(src.file, src.fileId, src.answer(r));
  }

  lemma TakeTracked(g: Grid, answer: IoRequest -> IoCompletion, pending: map<nat, IoRequest>,
                    reordered: map<nat, IoCompletion>, plan: seq<nat>, from: nat, to: nat)
    requires g.chunk > 0 && Tracked(g, answer, pending, reordered, plan) && Chain(g, plan, from, to)
             && from in reordered
    requires from < g.size && plan != []
    ensures reordered[from] == answer(ReadOp(g, from)) && from + Step(g, from) <= to
    ensures Tracked(g, answer, pending, reordered - {from}, plan[1..]) && Chain(g, plan[1..], from + Step(g, from), to)
  {
    FrontOnce(g, plan, from, to);
    assert plan == [from] + plan[1..];
    hide Chain;
  }

  /** The first chunk of a plan is not among the others. */
  lemma FrontOnce(g: Grid, plan: seq<nat>, from: nat, to: nat)
    requires g.chunk > 0 && Chain(g, plan, from, to) && plan != []
    ensures plan[0] == from && from !in plan[1..] && from + Step(g, from) <= to
    ensures Chain(g, plan[1..], from + Step(g, from), to)
  {
    ChainBounds(g, plan, from, to);
    ChainBounds(g, plan[1..], from + Step(g, from), to);
  }

  lemma NoTags(was: map<nat, IoRequest>, comps: seq<IoCompletion>)
    ensures was - Tags(comps[..0]) == was
  {
  }

  /** The i-th completion's operation is still in flight when it is filed. */
  lemma StillPending(src: FileReads, was: map<nat, IoRequest>, comps: seq<IoCompletion>, i: nat)
    requires i < |comps| && src.Finished(was, comps)
    ensures var t, left := comps[i].userTag, was - Tags(comps[..i]);
            && t in left && comps[i] == src.answer(left[t])
            && was - Tags(comps[..i+1]) == left - {t} && |left - {t}| == |left| - 1
  {
    var t, left := comps[i].userTag, was - Tags(comps[..i]);
    assert t in left by {
      TagsHave(comps[..i]);
    }
    assert comps[..i+1][..i] == comps[..i];
    MinusOne(was, Tags(comps[..i]), t);
    OneLess(left, t);
  }

  lemma MoveTracked(g: Grid, answer: IoRequest -> IoCompletion, pending: map<nat, IoRequest>,
                    reordered: map<nat, IoCompletion>, plan: seq<nat>, t: nat)
    requires Tracked(g, answer, pending, reordered, plan) && t in pending
    ensures t !in reordered && Tracked(g, answer, pending - {t}, reordered[t := answer(pending[t])], plan)
  {
    assert IsOp(g, pending, t);
    var p := pending - {t};
    forall x: nat | x in p ensures IsOp(g, p, x) {
      assert IsOp(g, pending, x);
    }
  }

  lemma AbsorbStep(g: Grid, src: FileReads, was: map<nat, IoRequest>, comps: seq<IoCompletion>, i: nat,
                   reordered: map<nat, IoCompletion>, plan: seq<nat>)
    requires i < |comps| && src.Valid() && src.Finished(was, comps)
    requires Tracked(g, src.answer, was - Tags(comps[..i]), reordered, plan)
    ensures var c, left := comps[i], was - Tags(comps[..i]); var after := was - Tags(comps[..i+1]);
            && c.offset !in reordered && |after| == |left| - 1
            && Tracked(g, src.answer, after, reordered[c.offset := c], plan)
  {
    var c, left := comps[i], was - Tags(comps[..i]);
    StillPending(src, was, comps, i);
    MoveTracked(g, src.answer, left, reordered, plan, c.userTag);
    PendingAt(g, src, left, reordered, plan, c.userTag);
    hide Tracked, Tags, FileReads.Finished, FileReads.Valid;
  }

  lemma PendingAt(g: Grid, src: FileReads, pending: map<nat, IoRequest>, reordered: map<nat, IoCompletion>,
                  plan: seq<nat>, t: nat)
    requires src.Valid() && Tracked(g, src.answer, pending, reordered, plan) && t in pending
    ensures src.answer(pending[t]).offset == t
  {
    assert IsOp(g, pending, t);
  }
  // ----- Two readers that do not come back -----

  /** Every read of the file comes back cancelled. */
  function CancelledAnswer(r: IoRequest): IoCompletion {
    IoProtocol.Synthesized(r, Cancelled)
  }

  /** The driver refuses the first submission: for every file that is not empty, the first call spins. */
  method RefusedSpins(file: Bytes, fileSize: u64, chunkBytes: u32, readAhead: u32, patience: nat)
    returns (out: Bytes, ok: bool, spins: bool)
    requires 0 < fileSize
    ensures spins && ok && out == []
  {
    hide SequentialReader.Valid, SequentialReader.ValidWith, FileReads.Valid;
    CancelledIsTrue(0, file);
    var src := new FileReads(0, file, CancelledAnswer, _ => 0, patience);
    var reader := new SequentialReader(src, 0, fileSize, chunkBytes, readAhead);
    assert src.Refuses();
    out, ok, spins := reader.Next();
  }

  lemma CancelledIsTrue(fileId: nat, file: Bytes)
    ensures forall r :: IoProtocol.CompletionFor(r, CancelledAnswer(r)) && Truthful(file, fileId, CancelledAnswer(r))
  {
  }

  /** The driver is cancelled with one read under way: for every file longer than a chunk, the first call brings
      no bytes and no failure before the end of the file, and the second spins. */
  method CancelledSpins(file: Bytes, fileSize: u64, chunkBytes: u32, readAhead: u32, patience: nat)
    returns (out: Bytes, ok: bool, spins: bool, out2: Bytes, ok2: bool, spins2: bool)
    requires (if chunkBytes == 0 then 0x10_0000 else chunkBytes) < fileSize
    ensures out == [] && ok && !spins
    ensures spins2
  {
    hide SequentialReader.Valid, SequentialReader.ValidWith, FileReads.Valid;
    CancelledIsTrue(0, file);
    var src := new FileReads(0, file, CancelledAnswer, i => if i == 0 then 1 else 0, patience);
    var reader := new SequentialReader(src, 0, fileSize, chunkBytes, readAhead);
    assert src.TakesOne();
    out, ok, spins := reader.Next();
    out2, ok2, spins2 := reader.Next();
  }
}
