/**
 The driver among its threads: submitters, the scheduler, the backend, cancellation and the two-step
 release, interleaved in any order. Every action is one critical section or one hand-over.
 */
module IoProtocol {
  import opened Ints
  import opened IoState
  import opened Multiplicity

  /** An operation with the completion the backend made for it. */
  datatype Reaped = Reaped(op: IoRequest, completion: IoCompletion)

  /** d is the driver; handed, reaped and flushing are operations held by a thread between two
      critical sections; releasing counts threads between the two steps of releaseFile; closed holds
      the files releaseFile was called for. accepted, finished, taken and dropped are history. */
  datatype World = World(d: Driver, handed: seq<IoRequest>, atBackend: seq<IoRequest>, reaped: seq<Reaped>,
                         settling: nat,
                         flushing: seq<IoRequest>, releasing: multiset<nat>, closed: set<nat>,
                         accepted: multiset<IoRequest>, finished: seq<Reaped>, taken: multiset<IoCompletion>,
                         dropped: multiset<IoCompletion>)

  function Begin(cfg: Config): World {
    World(Initial(cfg), [], [], [], 0, [], multiset{}, {}, multiset{}, [], multiset{}, multiset{})
  }

  ghost predicate CompletionFor(r: IoRequest, c: IoCompletion) {
    c.kind == r.kind && c.fileId == r.fileId && c.offset == r.offset && c.requested == r.length
    && c.userTag == r.userTag
  }

  function Synthesized(r: IoRequest, status: IoStatus): IoCompletion {
    IoCompletion(r.kind, r.fileId, r.offset, r.length, 0, status, r.userTag, [])
  }

  datatype Action =
    | Submit(batch: seq<IoRequest>)
    | Pick
    | BackendAccepts
    | BackendRefuses
    | Reap(k: nat, completion: IoCompletion)
    | Deliver
    | Settle(n: nat)
    | Cancel
    | FlushOne
    | Stop
    | DecideRelease(file: nat)
    | ActRelease(file: nat)
    | DrainAll
    | DrainFile(file: nat)

  /** When an action can happen. Submit carries the contract of releaseFile: no further operations. */
  ghost predicate Enabled(cfg: Config, w: World, a: Action) {
    match a
    case Submit(batch) => forall r :: r in batch ==> r.fileId !in w.closed
    case Pick => CanPick(cfg, w.d) && w.handed == []
    case BackendAccepts => w.handed != []
    case BackendRefuses => w.handed != []
    case Reap(k, c) => k < |w.atBackend| && CompletionFor(w.atBackend[k], c)
    case Deliver => w.reaped != []
    case Settle(n) => n <= w.settling
    case Cancel => !w.d.cancelled
    case FlushOne => w.flushing != []
    case Stop => true
    case DecideRelease(f) => true
    case ActRelease(f) => f in w.releasing
    case DrainAll => true
    case DrainFile(f) => true
  }

  /** EnqueueCompletion, with what its settlement dropped. */
  function Complete(w: World, r: Reaped): World {
    var f := r.completion.fileId;
    var all := w.d.completions + [r.completion];
    var e := Enqueued(w.d, r.completion);
    w.(d := e, finished := w.finished + [r],
       dropped := w.dropped + (multiset(all) - multiset(e.completions)))
  }

  function Apply(cfg: Config, w: World, a: Action): World
    requires Enabled(cfg, w, a)
  {
    match a
    case Submit(batch) =>
      var n := if w.d.cancelled || w.d.stop then 0 else AcceptedCount(cfg, w.d, batch);
      w.(d := Submitted(cfg, w.d, batch), accepted := w.accepted + multiset(batch[..n]))
    case Pick => w.(d := AfterPick(cfg, w.d), handed := [Picked(cfg, w.d)])
    case BackendAccepts => w.(handed := w.handed[1..], atBackend := w.atBackend + [w.handed[0]])
    case BackendRefuses =>
      Complete(w.(handed := w.handed[1..], settling := w.settling + 1),
               Reaped(w.handed[0], Synthesized(w.handed[0], Error)))
    case Reap(k, c) => w.(atBackend := Without(w.atBackend, k), reaped := w.reaped + [Reaped(w.atBackend[k], c)])
    case Deliver => Complete(w.(reaped := w.reaped[1..], settling := w.settling + 1), w.reaped[0])
    case Settle(n) =>
      w.(d := w.d.(inFlight := if n <= w.d.inFlight then w.d.inFlight - n else 0), settling := w.settling - n)
    case Cancel => w.(d := CancelRequested(w.d), flushing := w.flushing + w.d.readQ + w.d.writeQ)
    case FlushOne =>
      Complete(w.(flushing := w.flushing[1..]), Reaped(w.flushing[0], Synthesized(w.flushing[0], Cancelled)))
    case Stop => w.(d := w.d.(stop := true))
    case DecideRelease(f) =>
      w.(d := ReleaseDecided(w.d, f), closed := w.closed + {f},
         releasing := if ReleasesNow(w.d, f) then w.releasing + multiset{f} else w.releasing)
    case ActRelease(f) =>
      w.(d := Released(w.d, f), releasing := w.releasing - multiset{f},
         dropped := w.dropped + multiset(OfFile(w.d.completions, f)))
    case DrainAll => w.(d := DrainedAll(w.d), taken := w.taken + multiset(w.d.completions))
    case DrainFile(f) => w.(d := DrainedFile(w.d, f), taken := w.taken + multiset(OfFile(w.d.completions, f)))
  }

  // ----- The invariant -----

  function Ops(rs: seq<Reaped>): (q: seq<IoRequest>)
    ensures |q| == |rs|
  {
    if rs == [] then [] else Ops(rs[..|rs|-1]) + [rs[|rs|-1].op]
  }

  function Completions(rs: seq<Reaped>): (q: seq<IoCompletion>)
    ensures |q| == |rs|
  {
    if rs == [] then [] else Completions(rs[..|rs|-1]) + [rs[|rs|-1].completion]
  }

  function CountOf(q: seq<IoRequest>, f: nat): nat {
    if q == [] then 0 else CountOf(q[..|q|-1], f) + if q[|q|-1].fileId == f then 1 else 0
  }

  /** The accepted operations whose completion has not been enqueued, place by place: queued, being
      cancelled, at the hand-over to the backend, at the backend, and reaped. */
  function Places(w: World): seq<IoRequest> {
    w.d.readQ + w.d.writeQ + w.flushing + w.handed + w.atBackend + Ops(w.reaped)
  }

  function Unfinished(w: World, f: nat): nat {
    CountOf(Places(w), f)
  }

  /** How often an operation is in one of the places. */
  function Tally(w: World, r: IoRequest): nat {
    Occ(w.d.readQ, r) + Occ(w.d.writeQ, r) + Occ(w.flushing, r) + Occ(w.handed, r) + Occ(w.atBackend, r)
    + Occ(Ops(w.reaped), r)
  }

  /** Each accepted operation is in exactly one place, or finished; nothing else is. */
  ghost predicate Conserved(w: World) {
    forall r: IoRequest :: w.accepted[r] == Tally(w, r) + Occ(Ops(w.finished), r)
  }

  /** The outstanding counters count the unfinished operations, with no zero entries. */
  ghost predicate Accounted(w: World) {
    && (forall f: nat :: OutstandingOf(w.d.outstanding, f) == Unfinished(w, f))
    && (forall f: nat :: f in w.d.outstanding ==> w.d.outstanding[f] > 0)
  }

  /** Every completion made is for its operation, and is pending, taken or dropped. */
  ghost predicate Logged(w: World) {
    && (forall k :: 0 <= k < |w.reaped| ==> CompletionFor(w.reaped[k].op, w.reaped[k].completion))
    && (forall k :: 0 <= k < |w.finished| ==> CompletionFor(w.finished[k].op, w.finished[k].completion))
    && multiset(Completions(w.finished)) == multiset(w.d.completions) + w.taken + w.dropped
  }

  /** A released file with operations out is registered; without, the second step is still to come or
      nothing of it is left. */
  ghost predicate ReleaseAt(w: World, f: nat) {
    && (f in w.d.pendingRelease ==> f in w.closed && f in w.d.outstanding)
    && (f in w.releasing ==> f in w.closed && f !in w.d.outstanding)
    && (f in w.closed && f in w.d.outstanding ==> f in w.d.pendingRelease)
    && (f in w.closed && f !in w.d.outstanding ==> f in w.releasing || OfFile(w.d.completions, f) == [])
  }

  /** Only completions of released files without operations out were dropped. */
  ghost predicate DropsLate(w: World) {
    forall c :: c in w.dropped ==> c.fileId in w.closed && c.fileId !in w.d.outstanding
  }

  ghost predicate ReleaseInv(w: World) {
    (forall f: nat :: ReleaseAt(w, f)) && DropsLate(w)
  }

  ghost predicate FlightBounded(cfg: Config, w: World) {
    w.d.inFlight == |w.handed| + |w.atBackend| + |w.reaped| + w.settling <= cfg.maxInFlight
  }

  /** The invariant of the driver and its threads, for every interleaving. */
  ghost predicate Inv(cfg: Config, w: World) {
    Conserved(w) && Accounted(w) && Logged(w) && ReleaseInv(w) && FlightBounded(cfg, w) && CreditsBounded(cfg, w.d)
  }

  // ----- Counting lemmas -----

  function One(r: IoRequest, f: nat): nat {
    if r.fileId == f then 1 else 0
  }

  lemma {:induction false} CountSplit(a: seq<IoRequest>, b: seq<IoRequest>, f: nat)
    ensures CountOf(a + b, f) == CountOf(a, f) + CountOf(b, f)
  {
    if b == [] {
      assert a + b == a;
    } else {
      CountSplit(a, b[..|b|-1], f);
      assert (a + b)[..|a + b|-1] == a + b[..|b|-1];
    }
  }

  lemma CountOne(r: IoRequest, f: nat)
    ensures CountOf([r], f) == One(r, f)
  {
    assert [r][..0] == [];
  }

  lemma CountWithout(q: seq<IoRequest>, k: nat, f: nat)
    requires k < |q|
    ensures CountOf(q, f) == CountOf(Without(q, k), f) + One(q[k], f)
  {
    assert q == q[..k] + [q[k]] + q[k+1..];
    CountSplit(q[..k], [q[k]], f);
    CountSplit(q[..k] + [q[k]], q[k+1..], f);
    CountSplit(q[..k], q[k+1..], f);
    CountOne(q[k], f);
  }

  ghost predicate SameOcc(a: seq<IoRequest>, b: seq<IoRequest>) {
    forall r: IoRequest :: Occ(a, r) == Occ(b, r)
  }

  /** Only what is in a place counts, not in which place or in which order. */
  lemma {:induction false} CountPermutes(a: seq<IoRequest>, b: seq<IoRequest>, f: nat)
    requires SameOcc(a, b)
    ensures CountOf(a, f) == CountOf(b, f)
  {
    if a != [] {
      var k := FindIn(a, b);
      CountWithout(a, 0, f);
      CountWithout(b, k, f);
      assert SameOcc(Without(a, 0), Without(b, k)) by {
        forall r ensures Occ(Without(a, 0), r) == Occ(Without(b, k), r) {
          OccWithout(a, 0, r);
          OccWithout(b, k, r);
          hide Occ;
        }
        hide Occ;
      }
      hide SameOcc;
      CountPermutes(Without(a, 0), Without(b, k), f);
    } else if b != [] {
      var k := FindIn(b, a);
    }
  }

  lemma FindIn(a: seq<IoRequest>, b: seq<IoRequest>) returns (k: nat)
    requires SameOcc(a, b) && a != []
    ensures k < |b| && b[k] == a[0]
  {
    assert Occ(b, a[0]) == Occ(a, a[0]) > 0;
    k :| k < |b| && b[k] == a[0];
  }

  lemma PlacesTally(w: World, r: IoRequest)
    ensures Occ(Places(w), r) == Tally(w, r)
  {
    OccCat(w.d.readQ + w.d.writeQ + w.flushing + w.handed + w.atBackend, Ops(w.reaped), r);
    OccCat(w.d.readQ + w.d.writeQ + w.flushing + w.handed, w.atBackend, r);
    OccCat(w.d.readQ + w.d.writeQ + w.flushing, w.handed, r);
    OccCat(w.d.readQ + w.d.writeQ, w.flushing, r);
    OccCat(w.d.readQ, w.d.writeQ, r);
    hide Occ, Ops;
  }

  /** v holds more operations than w: exactly those. */
  ghost predicate Added(w: World, v: World, more: seq<IoRequest>) {
    forall r: IoRequest :: Tally(v, r) == Tally(w, r) + Occ(more, r)
  }

  lemma CountAdded(w: World, v: World, more: seq<IoRequest>, f: nat)
    requires Added(w, v, more)
    ensures Unfinished(v, f) == Unfinished(w, f) + CountOf(more, f)
  {
    assert SameOcc(Places(v), Places(w) + more) by {
      forall r ensures Occ(Places(v), r) == Occ(Places(w) + more, r) {
        PlacesTally(w, r);
        PlacesTally(v, r);
        OccCat(Places(w), more, r);
        hide Places, Occ, Tally;
      }
      hide Places, Occ, Tally;
    }
    CountPermutes(Places(v), Places(w) + more, f);
    CountSplit(Places(w), more, f);
  }

  lemma {:induction false} NoneOf(q: seq<IoRequest>, f: nat)
    requires forall r :: r in q ==> r.fileId != f
    ensures CountOf(q, f) == 0
  {
    if q != [] {
      NoneOf(q[..|q|-1], f);
    }
  }

  lemma {:induction false} OpsPop(rs: seq<Reaped>)
    requires rs != []
    ensures Ops(rs) == [rs[0].op] + Ops(rs[1..])
  {
    if |rs| > 1 {
      OpsPop(rs[..|rs|-1]);
      assert rs[1..][..|rs|-2] == rs[..|rs|-1][1..];
    }
  }

  lemma OpsPush(rs: seq<Reaped>, r: Reaped)
    ensures Ops(rs + [r]) == Ops(rs) + [r.op]
    ensures Completions(rs + [r]) == Completions(rs) + [r.completion]
  {
    assert (rs + [r])[..|rs|] == rs;
  }

  // ----- Submission -----

  lemma {:induction false} CountedBy(o: map<nat, nat>, reqs: seq<IoRequest>, f: nat)
    ensures OutstandingOf(Counted(o, reqs), f) == OutstandingOf(o, f) + CountOf(reqs, f)
    ensures (forall g: nat :: g in o ==> o[g] > 0) ==>
              (forall g: nat :: g in Counted(o, reqs) ==> Counted(o, reqs)[g] > 0)
    ensures f in Counted(o, reqs) <==> f in o || CountOf(reqs, f) > 0
  {
    if reqs != [] {
      CountedBy(o, reqs[..|reqs|-1], f);
    }
  }

  lemma {:induction false} KindSplit(reqs: seq<IoRequest>, r: IoRequest)
    ensures Occ(OfKind(reqs, Read), r) + Occ(OfKind(reqs, Write), r) == Occ(reqs, r)
  {
    if reqs != [] {
      var q, y := reqs[..|reqs|-1], reqs[|reqs|-1];
      KindSplit(q, r);
      OccLast(reqs, r);
      OccPush(OfKind(q, y.kind), y, r);
      hide Occ;
    }
  }

  lemma SubmitPlaces(cfg: Config, w: World, taken: seq<IoRequest>, v: World)
    requires v.d.readQ == w.d.readQ + OfKind(taken, Read) && v.d.writeQ == w.d.writeQ + OfKind(taken, Write)
    requires v.flushing == w.flushing && v.handed == w.handed && v.atBackend == w.atBackend && v.reaped == w.reaped
    ensures Added(w, v, taken)
  {
    forall r ensures Tally(v, r) == Tally(w, r) + Occ(taken, r) {
      KindSplit(taken, r);
      OccCat(w.d.readQ, OfKind(taken, Read), r);
      OccCat(w.d.writeQ, OfKind(taken, Write), r);
      hide OfKind, Ops, Occ;
    }
    hide Tally;
  }

  lemma SubmitAccounts(cfg: Config, w: World, taken: seq<IoRequest>, v: World)
    requires Accounted(w) && Added(w, v, taken)
    requires v.d.outstanding == Counted(w.d.outstanding, taken)
    ensures Accounted(v)
  {
    hide CountOf, Unfinished, OutstandingOf, Counted;
    forall f: nat
      ensures OutstandingOf(v.d.outstanding, f) == Unfinished(v, f)
      ensures f in v.d.outstanding ==> v.d.outstanding[f] > 0
    {
      CountedBy(w.d.outstanding, taken, f);
      CountAdded(w, v, taken, f);
    }
  }

  /** The contract of releaseFile keeps closed files closed. */
  lemma SubmitReleases(cfg: Config, w: World, taken: seq<IoRequest>, v: World)
    requires ReleaseInv(w) && forall r :: r in taken ==> r.fileId !in w.closed
    requires v.d.outstanding == Counted(w.d.outstanding, taken)
    requires v.d.pendingRelease == w.d.pendingRelease && v.d.completions == w.d.completions
    requires v.releasing == w.releasing && v.closed == w.closed && v.dropped == w.dropped
    ensures ReleaseInv(v)
  {
    forall f: nat ensures f in v.d.outstanding <==> f in w.d.outstanding || (f !in w.closed && CountOf(taken, f) > 0) {
      CountedBy(w.d.outstanding, taken, f);
      if f in w.closed {
        NoneOf(taken, f);
      }
    }
    hide CountOf, Counted, OfFile;
    forall f: nat ensures ReleaseAt(v, f) {
      assert ReleaseAt(w, f);
    }
  }

  lemma SubmitConserves(cfg: Config, w: World, taken: seq<IoRequest>, v: World)
    requires Conserved(w) && Added(w, v, taken)
    requires v.accepted == w.accepted + multiset(taken) && v.finished == w.finished
    ensures Conserved(v)
  {
    forall r: IoRequest ensures v.accepted[r] == Tally(v, r) + Occ(Ops(v.finished), r) {
      assert v.accepted[r] == w.accepted[r] + Occ(taken, r);
      hide Occ, Tally, Ops;
    }
  }

  lemma NothingTaken(cfg: Config, w: World, batch: seq<IoRequest>)
    requires Enabled(cfg, w, Submit(batch)) && (w.d.cancelled || w.d.stop)
    ensures Apply(cfg, w, Submit(batch)) == w
  {
    assert batch[..0] == [] && w.(accepted := w.accepted + multiset{}) == w;
  }

  /** What a submission to a running driver does to each part of the world. */
  lemma Takes(cfg: Config, w: World, batch: seq<IoRequest>, taken: seq<IoRequest>, v: World)
    requires Enabled(cfg, w, Submit(batch)) && v == Apply(cfg, w, Submit(batch)) && !w.d.cancelled && !w.d.stop
    requires taken == batch[..AcceptedCount(cfg, w.d, batch)]
    ensures v == w.(d := QueuedAll(w.d, taken).(outstanding := Counted(w.d.outstanding, taken)),
                    accepted := w.accepted + multiset(taken))
    ensures v.d.readQ == w.d.readQ + OfKind(taken, Read) && v.d.writeQ == w.d.writeQ + OfKind(taken, Write)
    ensures v.d.outstanding == Counted(w.d.outstanding, taken)
    ensures v.d == w.d.(readQ := v.d.readQ, writeQ := v.d.writeQ, outstanding := v.d.outstanding)
    ensures forall r :: r in taken ==> r.fileId !in w.closed
  {
    hide OfKind, AcceptedCount, Counted;
  }

  lemma SubmitFrame(cfg: Config, w: World, taken: seq<IoRequest>, v: World)
    requires Logged(w) && FlightBounded(cfg, w) && CreditsBounded(cfg, w.d)
    requires v == w.(d := v.d, accepted := v.accepted)
    requires v.d == w.d.(readQ := v.d.readQ, writeQ := v.d.writeQ, outstanding := v.d.outstanding)
    ensures Logged(v) && FlightBounded(cfg, v) && CreditsBounded(cfg, v.d)
  {
  }

  lemma SubmitKeeps(cfg: Config, w: World, batch: seq<IoRequest>)
    requires Inv(cfg, w) && Enabled(cfg, w, Submit(batch))
    ensures Inv(cfg, Apply(cfg, w, Submit(batch)))
  {
    hide Conserved, Logged, ReleaseInv, Accounted, FlightBounded, CreditsBounded, Apply;
    hide AcceptedCount, QueuedAll, Counted;
    var v := Apply(cfg, w, Submit(batch));
    if w.d.cancelled || w.d.stop {
      NothingTaken(cfg, w, batch);
    } else {
      var taken := batch[..AcceptedCount(cfg, w.d, batch)];
      Takes(cfg, w, batch, taken, v);
      SubmitPlaces(cfg, w, taken, v);
      SubmitAccounts(cfg, w, taken, v);
      SubmitReleases(cfg, w, taken, v);
      SubmitConserves(cfg, w, taken, v);
      SubmitFrame(cfg, w, taken, v);
    }
  }

  // ----- Hand-overs -----

  /** v differs from w only in where the unfinished operations are. */
  ghost predicate OnlyMoved(w: World, v: World) {
    && Added(w, v, [])
    && v.d.completions == w.d.completions && v.d.outstanding == w.d.outstanding
    && v.d.pendingRelease == w.d.pendingRelease
    && v.releasing == w.releasing && v.closed == w.closed && v.accepted == w.accepted
    && v.finished == w.finished && v.taken == w.taken && v.dropped == w.dropped
    && (forall k :: 0 <= k < |v.reaped| ==>
          v.reaped[k] in w.reaped || CompletionFor(v.reaped[k].op, v.reaped[k].completion))
  }

  ghost predicate Bounded(cfg: Config, w: World) {
    FlightBounded(cfg, w) && CreditsBounded(cfg, w.d)
  }

  lemma MoveAccounts(w: World, v: World)
    requires Accounted(w) && OnlyMoved(w, v)
    ensures Accounted(v)
  {
    forall f: nat ensures OutstandingOf(v.d.outstanding, f) == Unfinished(v, f) {
      CountAdded(w, v, [], f);
      CountNone(f);
      hide Unfinished, Added, CountOf, OutstandingOf;
    }
  }

  lemma CountNone(f: nat)
    ensures CountOf([], f) == 0
  {
  }

  lemma MoveConserves(w: World, v: World)
    requires Conserved(w) && OnlyMoved(w, v)
    ensures Conserved(v)
  {
    forall r: IoRequest ensures v.accepted[r] == Tally(v, r) + Occ(Ops(v.finished), r) {
      OccNone(r);
      hide Occ, Tally, Ops;
    }
  }

  lemma MoveReleases(w: World, v: World)
    requires ReleaseInv(w) && OnlyMoved(w, v)
    ensures ReleaseInv(v)
  {
    hide Added, CompletionFor, OfFile;
    forall f: nat ensures ReleaseAt(v, f) {
      assert ReleaseAt(w, f);
    }
  }

  lemma MoveLogs(w: World, v: World)
    requires Logged(w) && OnlyMoved(w, v)
    ensures Logged(v)
  {
    hide Added, CompletionFor, Completions;
  }

  lemma MoveKeeps(cfg: Config, w: World, v: World)
    requires Inv(cfg, w) && OnlyMoved(w, v) && Bounded(cfg, v)
    ensures Inv(cfg, v)
  {
    MoveAccounts(w, v);
    MoveConserves(w, v);
    MoveReleases(w, v);
    MoveLogs(w, v);
    hide Accounted, Conserved, OnlyMoved, ReleaseInv, Logged;
  }

  lemma PickMoves(cfg: Config, w: World)
    requires Enabled(cfg, w, Pick)
    ensures OnlyMoved(w, Apply(cfg, w, Pick))
  {
    var v := Apply(cfg, w, Pick);
    var q := if PicksRead(cfg, w.d) then w.d.readQ else w.d.writeQ;
    var k := FirstSmall(q);
    assert v.handed == [q[k]] && w.handed == [];
    assert if PicksRead(cfg, w.d) then v.d.readQ == Without(q, k) && v.d.writeQ == w.d.writeQ
           else v.d.writeQ == Without(q, k) && v.d.readQ == w.d.readQ;
    assert v.flushing == w.flushing && v.atBackend == w.atBackend && v.reaped == w.reaped;
    assert Added(w, v, []) by {
      hide FirstSmall, Ops, Without, Credits, AfterPick, Picked, PicksRead, CanPick, Apply;
      forall r ensures Tally(v, r) == Tally(w, r) + Occ([], r) {
        OccWithout(q, k, r);
        OccOne(q[k], r);
        OccNone(r);
        hide Occ;
      }
      hide Tally;
    }
    hide Added, CompletionFor, FirstSmall;
  }

  lemma ReapTally(w: World, k: nat, c: IoCompletion, r: IoRequest)
    requires k < |w.atBackend|
    ensures Tally(w.(atBackend := Without(w.atBackend, k), reaped := w.reaped + [Reaped(w.atBackend[k], c)]), r)
            == Tally(w, r)
  {
    hide Occ, Ops, Without;
    OpsPush(w.reaped, Reaped(w.atBackend[k], c));
    OccWithout(w.atBackend, k, r);
    OccPush(Ops(w.reaped), w.atBackend[k], r);
  }

  lemma ReapMoves(cfg: Config, w: World, k: nat, c: IoCompletion)
    requires Enabled(cfg, w, Reap(k, c))
    ensures OnlyMoved(w, Apply(cfg, w, Reap(k, c)))
  {
    hide Tally, Occ, Without, CompletionFor;
    var v := Apply(cfg, w, Reap(k, c));
    forall r ensures Tally(v, r) == Tally(w, r) + Occ([], r) {
      ReapTally(w, k, c, r);
      OccNone(r);
    }
  }

  lemma AcceptMoves(cfg: Config, w: World)
    requires Enabled(cfg, w, BackendAccepts)
    ensures OnlyMoved(w, Apply(cfg, w, BackendAccepts))
  {
    var v := Apply(cfg, w, BackendAccepts);
    assert Added(w, v, []) by {
      forall r ensures Tally(v, r) == Tally(w, r) + Occ([], r) {
        OccPop(w.handed, r);
        OccPush(w.atBackend, w.handed[0], r);
        OccNone(r);
        hide Occ, Ops;
      }
      hide Tally;
    }
    hide Added;
  }

  lemma CancelMoves(cfg: Config, w: World)
    requires Enabled(cfg, w, Cancel)
    ensures OnlyMoved(w, Apply(cfg, w, Cancel))
  {
    var v := Apply(cfg, w, Cancel);
    assert Added(w, v, []) by {
      forall r ensures Tally(v, r) == Tally(w, r) + Occ([], r) {
        OccCat(w.flushing, w.d.readQ, r);
        OccCat(w.flushing + w.d.readQ, w.d.writeQ, r);
        OccNone(r);
        hide Occ, Ops;
      }
      hide Tally;
    }
    hide Added;
  }

  lemma SettleMoves(cfg: Config, w: World, n: nat)
    requires Enabled(cfg, w, Settle(n))
    ensures OnlyMoved(w, Apply(cfg, w, Settle(n)))
  {
    var v := Apply(cfg, w, Settle(n));
    assert Added(w, v, []) by {
      forall r ensures Tally(v, r) == Tally(w, r) + Occ([], r) {
        OccNone(r);
        hide Occ, Ops;
      }
      hide Tally;
    }
    hide Added;
  }

  lemma StopMoves(cfg: Config, w: World)
    requires Enabled(cfg, w, Stop)
    ensures OnlyMoved(w, Apply(cfg, w, Stop))
  {
    var v := Apply(cfg, w, Stop);
    assert Added(w, v, []) by {
      forall r ensures Tally(v, r) == Tally(w, r) + Occ([], r) {
        OccNone(r);
        hide Occ, Ops;
      }
      hide Tally;
    }
    hide Added;
  }

  /** The hand-overs: picking, the backend taking an operation, finishing one, and settling up. */
  predicate HandOver(a: Action) {
    a.Pick? || a.BackendAccepts? || a.Reap? || a.Settle? || a.Cancel? || a.Stop?
  }

  lemma HandOverMoves(cfg: Config, w: World, a: Action)
    requires Enabled(cfg, w, a) && HandOver(a)
    ensures OnlyMoved(w, Apply(cfg, w, a))
  {
    hide Enabled, Apply, OnlyMoved;
    match a
    case Pick => PickMoves(cfg, w);
    case Reap(k, c) => ReapMoves(cfg, w, k, c);
    case BackendAccepts => AcceptMoves(cfg, w);
    case Settle(n) => SettleMoves(cfg, w, n);
    case Cancel => CancelMoves(cfg, w);
    case Stop => StopMoves(cfg, w);
  }

  lemma HandOverBounded(cfg: Config, w: World, a: Action)
    requires Enabled(cfg, w, a) && HandOver(a) && Bounded(cfg, w)
    ensures Bounded(cfg, Apply(cfg, w, a))
  {
    hide Ops, Places, FirstSmall, SmallFrom;
  }

  // ----- Completion -----

  ghost predicate HeldOut(w: World, r: IoRequest) {
    forall x: IoRequest :: w.accepted[x] == Tally(w, x) + (if x == r then 1 else 0) + Occ(Ops(w.finished), x)
  }

  ghost predicate OwedBy(w: World, r: IoRequest) {
    && (forall f: nat :: OutstandingOf(w.d.outstanding, f) == Unfinished(w, f) + One(r, f))
    && (forall f: nat :: f in w.d.outstanding ==> w.d.outstanding[f] > 0)
  }

  /** The invariant while one operation has been taken from its place but not yet completed. */
  ghost predicate InvWith(cfg: Config, w: World, r: IoRequest) {
    HeldOut(w, r) && OwedBy(w, r) && Logged(w) && ReleaseInv(w) && Bounded(cfg, w)
  }

  lemma DecrementedBy(o: map<nat, nat>, f: nat, g: nat)
    requires f in o && forall h: nat :: h in o ==> o[h] > 0
    ensures OutstandingOf(Decremented(o, f), g) == OutstandingOf(o, g) - if f == g then 1 else 0
    ensures forall h: nat :: h in Decremented(o, f) ==> Decremented(o, f)[h] > 0
    ensures g in Decremented(o, f) <==> g in o && (g != f || o[f] > 1)
  {
  }

  lemma CompleteTally(w: World, r: Reaped, x: IoRequest)
    ensures Tally(Complete(w, r), x) == Tally(w, x)
    ensures Occ(Ops(Complete(w, r).finished), x) == Occ(Ops(w.finished), x) + if x == r.op then 1 else 0
  {
    OpsPush(w.finished, r);
    OccPush(Ops(w.finished), r.op, x);
    hide Occ, Ops, OfFile, NotOfFile;
  }

  lemma CompleteConserves(cfg: Config, w: World, r: Reaped)
    requires HeldOut(w, r.op)
    ensures Conserved(Complete(w, r))
  {
    var v := Complete(w, r);
    assert v.accepted == w.accepted;
    hide Complete, Tally, Occ, Ops;
    forall x: IoRequest ensures v.accepted[x] == Tally(v, x) + Occ(Ops(v.finished), x) {
      CompleteTally(w, r, x);
    }
  }

  lemma CompleteAccounts(cfg: Config, w: World, r: Reaped)
    requires OwedBy(w, r.op) && r.op.fileId == r.completion.fileId
    ensures Accounted(Complete(w, r))
  {
    var v := Complete(w, r);
    var file := r.op.fileId;
    assert One(r.op, file) == 1 && OutstandingOf(w.d.outstanding, file) >= 1;
    assert v.d.outstanding == Decremented(w.d.outstanding, file);
    assert Places(v) == Places(w);
    hide Complete, Places, CountOf;
    forall f: nat
      ensures OutstandingOf(v.d.outstanding, f) == Unfinished(v, f)
      ensures f in v.d.outstanding ==> v.d.outstanding[f] > 0
    {
      DecrementedBy(w.d.outstanding, file, f);
      hide Decremented;
    }
  }

  lemma LogGrows(log: multiset<IoCompletion>, pending: multiset<IoCompletion>, c: IoCompletion,
                 kept: multiset<IoCompletion>,
                 taken: multiset<IoCompletion>, dropped: multiset<IoCompletion>)
    requires log == pending + taken + dropped && kept <= pending + multiset{c}
    ensures log + multiset{c} == kept + taken + (dropped + (pending + multiset{c} - kept))
  {
  }

  lemma KeptAreSome(d: Driver, c: IoCompletion)
    ensures multiset(Enqueued(d, c).completions) <= multiset(d.completions + [c])
    ensures multiset(d.completions + [c]) == multiset(d.completions) + multiset{c}
  {
    FileSplit(d.completions + [c], c.fileId);
    hide OfFile, NotOfFile;
  }

  lemma CompleteLogs(cfg: Config, w: World, r: Reaped)
    requires Logged(w) && CompletionFor(r.op, r.completion)
    ensures Logged(Complete(w, r))
  {
    OpsPush(w.finished, r);
    KeptAreSome(w.d, r.completion);
    hide Completions, Ops, Enqueued, CompletionFor;
    LogGrows(multiset(Completions(w.finished)), multiset(w.d.completions), r.completion,
             multiset(Enqueued(w.d, r.completion).completions), w.taken, w.dropped);
    assert multiset(Completions(w.finished) + [r.completion])
           == multiset(Completions(w.finished)) + multiset{r.completion};
  }

  /** What one enqueued completion does to every other file: nothing. */
  lemma EnqueuedElsewhere(d: Driver, c: IoCompletion, f: nat)
    requires f != c.fileId
    ensures var e := Enqueued(d, c);
            && OfFile(e.completions, f) == OfFile(d.completions, f)
            && (f in e.outstanding <==> f in d.outstanding) && (f in e.pendingRelease <==> f in d.pendingRelease)
  {
    var all := d.completions + [c];
    FilesApart(all, c.fileId, f);
    OfFilePush(d.completions, c, f);
    hide OfFile, NotOfFile;
  }

  /** And to its own: the last outstanding completion of a registered file removes all of them. */
  lemma EnqueuedHere(d: Driver, c: IoCompletion)
    ensures var e := Enqueued(d, c); var f := c.fileId; var all := d.completions + [c];
            if f !in Decremented(d.outstanding, f) && f in d.pendingRelease then
              OfFile(e.completions, f) == [] && f !in e.pendingRelease && f !in e.outstanding
              && multiset(all) == multiset(OfFile(all, f)) + multiset(e.completions)
            else e.completions == all && e.pendingRelease == d.pendingRelease
  {
    var all := d.completions + [c];
    FilesApart(all, c.fileId, c.fileId);
    FileSplit(all, c.fileId);
    hide OfFile, NotOfFile;
  }

  lemma EnqueueDrops(d: Driver, done: IoCompletion, c: IoCompletion)
    requires c in multiset(d.completions + [done]) - multiset(Enqueued(d, done).completions)
    ensures c.fileId == done.fileId && c.fileId in d.pendingRelease && c.fileId !in Enqueued(d, done).outstanding
  {
    var all := d.completions + [done];
    EnqueuedHere(d, done);
    OnlyThatFile(all, done.fileId);
    hide OfFile, NotOfFile;
    assert c in OfFile(all, done.fileId);
  }

  lemma CompleteDrops(cfg: Config, w: World, r: Reaped, c: IoCompletion)
    requires ReleaseInv(w) && c in Complete(w, r).dropped
    ensures c.fileId in Complete(w, r).closed && c.fileId !in Complete(w, r).d.outstanding
  {
    hide OfFile;
    if c in w.dropped {
      assert c.fileId !in Decremented(w.d.outstanding, r.completion.fileId);
      hide Decremented;
    } else {
      EnqueueDrops(w.d, r.completion, c);
      hide Enqueued;
      assert ReleaseAt(w, c.fileId);
    }
  }

  lemma CompleteReleaseAt(cfg: Config, w: World, r: Reaped, f: nat)
    requires ReleaseAt(w, f) && r.completion.fileId in w.d.outstanding
    ensures ReleaseAt(Complete(w, r), f)
  {
    if f == r.completion.fileId {
      EnqueuedHere(w.d, r.completion);
    } else {
      EnqueuedElsewhere(w.d, r.completion, f);
    }
    hide OfFile, NotOfFile;
  }

  lemma CompleteReleases(cfg: Config, w: World, r: Reaped)
    requires ReleaseInv(w) && r.completion.fileId in w.d.outstanding
    ensures ReleaseInv(Complete(w, r))
  {
    var v := Complete(w, r);
    hide Complete, ReleaseAt;
    forall f: nat ensures ReleaseAt(v, f) {
      CompleteReleaseAt(cfg, w, r, f);
    }
    forall c | c in v.dropped ensures c.fileId in v.closed && c.fileId !in v.d.outstanding {
      CompleteDrops(cfg, w, r, c);
    }
  }

  lemma CompleteBounded(cfg: Config, w: World, r: Reaped)
    requires Bounded(cfg, w)
    ensures Bounded(cfg, Complete(w, r))
  {
    hide NotOfFile, Decremented;
  }

  lemma CompleteKeeps(cfg: Config, w: World, r: Reaped)
    requires InvWith(cfg, w, r.op) && CompletionFor(r.op, r.completion)
    ensures Inv(cfg, Complete(w, r))
  {
    assert One(r.op, r.op.fileId) == 1 && OutstandingOf(w.d.outstanding, r.op.fileId) >= 1;
    hide Tally, Unfinished, ReleaseAt, Logged, HeldOut;
    CompleteAccounts(cfg, w, r);
    CompleteConserves(cfg, w, r);
    CompleteLogs(cfg, w, r);
    CompleteReleases(cfg, w, r);
    CompleteBounded(cfg, w, r);
    hide Conserved, Accounted, Logged, ReleaseInv, Complete, Bounded;
  }

  /** What a delivering thread holds right before EnqueueCompletion. */
  ghost predicate HoldsOp(w: World, a: Action) {
    (a.BackendRefuses? && w.handed != []) || (a.Deliver? && w.reaped != []) || (a.FlushOne? && w.flushing != [])
  }

  function TakenOut(w: World, a: Action): World
    requires HoldsOp(w, a)
  {
    if a.BackendRefuses? then w.(handed := w.handed[1..], settling := w.settling + 1)
    else if a.Deliver? then w.(reaped := w.reaped[1..], settling := w.settling + 1)
    else w.(flushing := w.flushing[1..])
  }

  function Held(w: World, a: Action): Reaped
    requires HoldsOp(w, a)
  {
    if a.BackendRefuses? then Reaped(w.handed[0], Synthesized(w.handed[0], Error))
    else if a.Deliver? then w.reaped[0]
    else Reaped(w.flushing[0], Synthesized(w.flushing[0], Cancelled))
  }

  lemma TakeOutTally(w: World, a: Action, x: IoRequest)
    requires HoldsOp(w, a)
    ensures Tally(w, x) == Tally(TakenOut(w, a), x) + if x == Held(w, a).op then 1 else 0
  {
    if a.BackendRefuses? {
      OccPop(w.handed, x);
    } else if a.Deliver? {
      OpsPop(w.reaped);
      OccCat([w.reaped[0].op], Ops(w.reaped[1..]), x);
      OccOne(w.reaped[0].op, x);
    } else {
      OccPop(w.flushing, x);
    }
    hide Occ, Ops;
  }

  lemma TakeOutCounts(w: World, a: Action, f: nat)
    requires HoldsOp(w, a)
    ensures Unfinished(w, f) == Unfinished(TakenOut(w, a), f) + One(Held(w, a).op, f)
  {
    var v, op := TakenOut(w, a), Held(w, a).op;
    forall x ensures Tally(w, x) == Tally(v, x) + Occ([op], x) {
      TakeOutTally(w, a, x);
      OccOne(op, x);
      hide Tally, Occ, TakenOut, Held;
    }
    hide Tally, Occ, TakenOut, Held, CountOf, Unfinished;
    CountAdded(v, w, [op], f);
    CountOne(op, f);
  }

  lemma TakeOutHolds(w: World, a: Action)
    requires Conserved(w) && HoldsOp(w, a)
    ensures HeldOut(TakenOut(w, a), Held(w, a).op)
  {
    var v, op := TakenOut(w, a), Held(w, a).op;
    assert v.accepted == w.accepted && v.finished == w.finished;
    hide HoldsOp, Tally, Occ, TakenOut, Held, Ops;
    forall x: IoRequest ensures v.accepted[x] == Tally(v, x) + (if x == op then 1 else 0) + Occ(Ops(v.finished), x) {
      TakeOutTally(w, a, x);
    }
  }

  lemma TakeOutOwes(w: World, a: Action)
    requires Accounted(w) && HoldsOp(w, a)
    ensures OwedBy(TakenOut(w, a), Held(w, a).op)
  {
    var v, op := TakenOut(w, a), Held(w, a).op;
    assert v.d == w.d;
    hide HoldsOp, Unfinished, TakenOut, Held, OutstandingOf;
    forall f: nat ensures OutstandingOf(v.d.outstanding, f) == Unfinished(v, f) + One(op, f) {
      TakeOutCounts(w, a, f);
    }
  }

  lemma TakeOutFrame(cfg: Config, w: World, a: Action)
    requires Logged(w) && ReleaseInv(w) && Bounded(cfg, w) && HoldsOp(w, a)
    ensures Logged(TakenOut(w, a)) && ReleaseInv(TakenOut(w, a)) && Bounded(cfg, TakenOut(w, a))
    ensures CompletionFor(Held(w, a).op, Held(w, a).completion)
  {
    var v := TakenOut(w, a);
    hide Completions, OfFile;
    assert ReleaseInv(v) by {
      forall f: nat ensures ReleaseAt(v, f) {
        assert ReleaseAt(w, f);
      }
    }
  }

  lemma DeliveryCompletes(cfg: Config, w: World, a: Action)
    requires Enabled(cfg, w, a) && HoldsOp(w, a)
    ensures Apply(cfg, w, a) == Complete(TakenOut(w, a), Held(w, a))
  {
    hide Complete, Submitted, AfterPick, Picked, CompletionFor, Without;
  }

  lemma DeliveryKeeps(cfg: Config, w: World, a: Action)
    requires Inv(cfg, w) && Enabled(cfg, w, a) && HoldsOp(w, a)
    ensures Inv(cfg, Apply(cfg, w, a))
  {
    hide Apply, Complete, Enabled, TakenOut, Held, HoldsOp, HeldOut, OwedBy, CompletionFor;
    hide Conserved, Accounted, Logged, ReleaseInv;
    DeliveryCompletes(cfg, w, a);
    TakeOutHolds(w, a);
    TakeOutOwes(w, a);
    TakeOutFrame(cfg, w, a);
    CompleteKeeps(cfg, TakenOut(w, a), Held(w, a));
  }

  // ----- Release and drain -----

  predicate Cleanup(a: Action) {
    a.DecideRelease? || a.ActRelease? || a.DrainAll? || a.DrainFile?
  }

  lemma Shifted(all: multiset<IoCompletion>, a: multiset<IoCompletion>, b: multiset<IoCompletion>,
                taken: multiset<IoCompletion>, dropped: multiset<IoCompletion>)
    requires all == a + b
    ensures b + (taken + a) + dropped == all + taken + dropped
    ensures b + taken + (dropped + a) == all + taken + dropped
  {
  }

  lemma MovedLogs(w: World, v: World)
    requires Logged(w) && v.reaped == w.reaped && v.finished == w.finished
    requires multiset(v.d.completions) + v.taken + v.dropped == multiset(w.d.completions) + w.taken + w.dropped
    ensures Logged(v)
  {
    hide Completions, CompletionFor;
  }

  /** What leaves the completion list is taken or dropped. */
  lemma CleanupBalance(cfg: Config, w: World, a: Action)
    requires Enabled(cfg, w, a) && Cleanup(a)
    ensures var v := Apply(cfg, w, a);
            && v.reaped == w.reaped && v.finished == w.finished
            && multiset(v.d.completions) + v.taken + v.dropped == multiset(w.d.completions) + w.taken + w.dropped
  {
    hide OfFile, NotOfFile, Complete, Submitted, AfterPick, Picked, CompletionFor;
    var q := w.d.completions;
    match a
    case ActRelease(f) =>
      FileSplit(q, f);
      Shifted(multiset(q), multiset(OfFile(q, f)), multiset(NotOfFile(q, f)), w.taken, w.dropped);
    case DrainFile(f) =>
      FileSplit(q, f);
      Shifted(multiset(q), multiset(OfFile(q, f)), multiset(NotOfFile(q, f)), w.taken, w.dropped);
    case DrainAll =>
      Shifted(multiset(q), multiset(q), multiset{}, w.taken, w.dropped);
    case DecideRelease(f) =>
  }

  lemma CleanupLogs(cfg: Config, w: World, a: Action)
    requires Logged(w) && Enabled(cfg, w, a) && Cleanup(a)
    ensures Logged(Apply(cfg, w, a))
  {
    hide Logged, Apply, Enabled;
    CleanupBalance(cfg, w, a);
    MovedLogs(w, Apply(cfg, w, a));
  }

  /** What a step of release or drain does to one file's bookkeeping. */
  lemma NothingOfFile(f: nat)
    ensures OfFile([], f) == []
  {
  }

  lemma {:induction false} CleanupFrame(cfg: Config, w: World, a: Action, f: nat)
    requires Enabled(cfg, w, a) && Cleanup(a)
    ensures var v := Apply(cfg, w, a);
            && v.d.outstanding == w.d.outstanding
            && (!a.DecideRelease? ==> v.closed == w.closed && v.d.pendingRelease == w.d.pendingRelease)
            && (a.ActRelease? ==> v.releasing == w.releasing - multiset{a.file})
            && (a.DrainAll? || a.DrainFile? ==> v.releasing == w.releasing)
            && (OfFile(w.d.completions, f) == [] ==> OfFile(v.d.completions, f) == [])
            && (a.ActRelease? && a.file == f ==> OfFile(v.d.completions, f) == [])
  {
    hide Complete, Submitted, AfterPick, Picked, CompletionFor, OfFile, NotOfFile;
    NothingOfFile(f);
    if a.ActRelease? || a.DrainFile? {
      FilesApart(w.d.completions, a.file, f);
    }
  }

  lemma DecideFrame(cfg: Config, w: World, f: nat, g: nat)
    requires ReleaseAt(w, g)
    ensures ReleaseAt(Apply(cfg, w, DecideRelease(f)), g)
  {
    hide OfFile, Complete, Submitted, AfterPick, Picked;
  }

  lemma CleanupAt(cfg: Config, w: World, a: Action, f: nat)
    requires ReleaseAt(w, f) && Enabled(cfg, w, a) && Cleanup(a)
    ensures ReleaseAt(Apply(cfg, w, a), f)
  {
    if a.DecideRelease? {
      DecideFrame(cfg, w, a.file, f);
      hide *;
    } else {
      CleanupFrame(cfg, w, a, f);
      hide OfFile, Apply, Enabled;
    }
  }

  lemma CleanupDrops(cfg: Config, w: World, a: Action)
    requires ReleaseInv(w) && Enabled(cfg, w, a) && Cleanup(a)
    ensures DropsLate(Apply(cfg, w, a))
  {
    if a.ActRelease? {
      assert ReleaseAt(w, a.file);
      OnlyThatFile(w.d.completions, a.file);
    }
    hide OfFile, NotOfFile;
  }

  /** No operation moves and no counter changes. */
  ghost predicate PlacesKept(w: World, v: World) {
    && v.accepted == w.accepted && v.finished == w.finished && v.d.outstanding == w.d.outstanding
    && v.d.readQ == w.d.readQ && v.d.writeQ == w.d.writeQ && v.flushing == w.flushing && v.handed == w.handed
    && v.atBackend == w.atBackend && v.reaped == w.reaped
  }

  lemma KeptPlaces(w: World, v: World)
    requires PlacesKept(w, v)
    ensures Places(v) == Places(w) && forall r :: Tally(v, r) == Tally(w, r)
  {
    hide Occ, Ops;
  }

  lemma KeptConserves(w: World, v: World)
    requires Conserved(w) && PlacesKept(w, v)
    ensures Conserved(v)
  {
    hide Tally, Ops, Occ;
    KeptPlaces(w, v);
  }

  lemma KeptAccounts(w: World, v: World)
    requires Accounted(w) && PlacesKept(w, v)
    ensures Accounted(v)
  {
    hide Places, CountOf;
    KeptPlaces(w, v);
  }

  lemma CleanupPlaces(cfg: Config, w: World, a: Action)
    requires Bounded(cfg, w) && Enabled(cfg, w, a) && Cleanup(a)
    ensures PlacesKept(w, Apply(cfg, w, a)) && Bounded(cfg, Apply(cfg, w, a))
  {
    hide OfFile, NotOfFile, Complete, Submitted, AfterPick, Picked, Without, CompletionFor;
  }

  lemma CleanupReleases(cfg: Config, w: World, a: Action)
    requires ReleaseInv(w) && Enabled(cfg, w, a) && Cleanup(a)
    ensures ReleaseInv(Apply(cfg, w, a))
  {
    CleanupDrops(cfg, w, a);
    hide DropsLate, Apply, ReleaseAt, Enabled;
    forall f: nat ensures ReleaseAt(Apply(cfg, w, a), f) {
      CleanupAt(cfg, w, a, f);
    }
  }

  lemma CleanupKeeps(cfg: Config, w: World, a: Action)
    requires Inv(cfg, w) && Enabled(cfg, w, a) && Cleanup(a)
    ensures Inv(cfg, Apply(cfg, w, a))
  {
    hide Conserved, Accounted, Logged, ReleaseInv, PlacesKept, Apply, Enabled;
    CleanupPlaces(cfg, w, a);
    KeptConserves(w, Apply(cfg, w, a));
    KeptAccounts(w, Apply(cfg, w, a));
    CleanupLogs(cfg, w, a);
    CleanupReleases(cfg, w, a);
  }

  // ----- Every run -----

  lemma StepKeeps(cfg: Config, w: World, a: Action)
    requires Inv(cfg, w) && Enabled(cfg, w, a)
    ensures Inv(cfg, Apply(cfg, w, a))
  {
    assert HandOver(a) || Cleanup(a) || HoldsOp(w, a) || a.Submit?;
    hide Inv, Apply, Enabled, HoldsOp;
    if a.Submit? {
      SubmitKeeps(cfg, w, a.batch);
    } else if HandOver(a) {
      HandOverKeeps(cfg, w, a);
    } else if Cleanup(a) {
      CleanupKeeps(cfg, w, a);
    } else {
      DeliveryKeeps(cfg, w, a);
    }
  }

  lemma HandOverKeeps(cfg: Config, w: World, a: Action)
    requires Inv(cfg, w) && Enabled(cfg, w, a) && HandOver(a)
    ensures Inv(cfg, Apply(cfg, w, a))
  {
    HandOverMoves(cfg, w, a);
    HandOverBounded(cfg, w, a);
    hide OnlyMoved, Conserved, Accounted, Logged, ReleaseInv, Apply;
    MoveKeeps(cfg, w, Apply(cfg, w, a));
  }

  /** A run from the start: each world follows from the one before by an enabled action. */
  ghost predicate IsRun(cfg: Config, ws: seq<World>, acts: seq<Action>) {
    && |ws| == |acts| + 1 && ws[0] == Begin(cfg)
    && forall i :: 0 <= i < |acts| ==> Enabled(cfg, ws[i], acts[i]) && Apply(cfg, ws[i], acts[i]) == ws[i + 1]
  }

  lemma BeginInv(cfg: Config)
    ensures Inv(cfg, Begin(cfg))
  {
    var w := Begin(cfg);
    assert Places(w) == [];
    forall f: nat ensures Unfinished(w, f) == 0 {
      CountNone(f);
    }
  }

  lemma {:induction false} RunKeeps(cfg: Config, ws: seq<World>, acts: seq<Action>, i: nat)
    requires IsRun(cfg, ws, acts) && i < |ws|
    ensures Inv(cfg, ws[i])
  {
    if i == 0 {
      BeginInv(cfg);
    } else {
      RunKeeps(cfg, ws, acts, i - 1);
      hide Inv, Apply, Enabled;
      var k := i - 1;
      assert Apply(cfg, ws[k], acts[k]) == ws[k + 1];
      StepKeeps(cfg, ws[k], acts[k]);
    }
  }

  /** In every state of every run an operation accepted once is in exactly one place or finished once,
      and the outstanding counter of its file counts the ones not finished. */
  lemma EachOpInOnePlace(cfg: Config, ws: seq<World>, acts: seq<Action>, i: nat, r: IoRequest)
    requires IsRun(cfg, ws, acts) && i < |ws|
    ensures ws[i].accepted[r] == Tally(ws[i], r) + Occ(Ops(ws[i].finished), r)
    ensures OutstandingOf(ws[i].d.outstanding, r.fileId) == CountOf(Places(ws[i]), r.fileId)
  {
    RunKeeps(cfg, ws, acts, i);
  }

  /** Every finished operation has one completion of its own, and each of those is pending, or was
      drained, or was dropped by a release. */
  lemma EachCompletionOnce(cfg: Config, ws: seq<World>, acts: seq<Action>, i: nat)
    requires IsRun(cfg, ws, acts) && i < |ws|
    ensures var w := ws[i];
            && multiset(Completions(w.finished)) == multiset(w.d.completions) + w.taken + w.dropped
            && forall k :: 0 <= k < |w.finished| ==> CompletionFor(w.finished[k].op, w.finished[k].completion)
  {
    RunKeeps(cfg, ws, acts, i);
    hide Completions, CompletionFor;
  }

  /** No completion is dropped while an operation of its file is out, and none of a file that was not
      released: a release in two steps loses nothing, whatever runs between the steps. */
  lemma NoEarlyDrop(cfg: Config, ws: seq<World>, acts: seq<Action>, i: nat, c: IoCompletion)
    requires IsRun(cfg, ws, acts) && i < |ws| && c in ws[i].dropped
    ensures Unfinished(ws[i], c.fileId) == 0 && c.fileId in ws[i].closed
  {
    RunKeeps(cfg, ws, acts, i);
    hide Unfinished, Logged, Conserved;
  }

  /** Once a released file has no operation out and no thread is between the two steps, nothing of it
      is kept: no completion, no counter, no deferred release. */
  lemma ReleaseCompletes(cfg: Config, ws: seq<World>, acts: seq<Action>, i: nat, f: nat)
    requires IsRun(cfg, ws, acts) && i < |ws| && f in ws[i].closed
    requires Unfinished(ws[i], f) == 0 && f !in ws[i].releasing
    ensures var d := ws[i].d; OfFile(d.completions, f) == [] && f !in d.outstanding && f !in d.pendingRelease
  {
    RunKeeps(cfg, ws, acts, i);
    hide Unfinished, Logged, Conserved, OfFile;
    assert ReleaseAt(ws[i], f) && OutstandingOf(ws[i].d.outstanding, f) == Unfinished(ws[i], f);
  }

  /** At most maxInFlight operations are past the queues, and credits stay within the weights. */
  lemma FlightStaysBounded(cfg: Config, ws: seq<World>, acts: seq<Action>, i: nat)
    requires IsRun(cfg, ws, acts) && i < |ws|
    ensures |ws[i].handed| + |ws[i].atBackend| + |ws[i].reaped| <= ws[i].d.inFlight <= cfg.maxInFlight
    ensures CreditsBounded(cfg, ws[i].d)
  {
    RunKeeps(cfg, ws, acts, i);
    hide Unfinished, Logged, Conserved, ReleaseInv;
  }

  predicate SameCredits(d: Driver, e: Driver) {
    e.readCredit == d.readCredit && e.writeCredit == d.writeCredit
  }

  lemma CompleteSpendsNothing(w: World, r: Reaped)
    ensures SameCredits(w.d, Complete(w, r).d)
  {
    hide NotOfFile, Decremented;
  }

  lemma SubmitSpendsNothing(cfg: Config, d: Driver, batch: seq<IoRequest>)
    ensures SameCredits(d, Submitted(cfg, d, batch))
  {
    hide OfKind, Counted, AcceptedCount;
  }

  lemma OnlyPicksSpend(cfg: Config, w: World, a: Action)
    requires Enabled(cfg, w, a) && !a.Pick?
    ensures SameCredits(w.d, Apply(cfg, w, a).d)
  {
    hide Complete, Submitted, CompletionFor, CanPick, NotOfFile, OfFile;
    if HoldsOp(w, a) {
      CompleteSpendsNothing(TakenOut(w, a), Held(w, a));
    } else if a.Submit? {
      SubmitSpendsNothing(cfg, w.d, a.batch);
    }
  }

  /** Between two picks of a run the credits stay, whatever else happens: the picks of a run form the
      stretches that fairness is about. */
  lemma {:induction false} PicksFollow(cfg: Config, ws: seq<World>, acts: seq<Action>, i: nat, j: nat)
    requires IsRun(cfg, ws, acts) && i < j < |ws| && acts[i].Pick? && forall k :: i < k < j ==> !acts[k].Pick?
    ensures KeepsCredits(cfg, ws[i].d, ws[j].d)
  {
    if j == i + 1 {
      assert Enabled(cfg, ws[i], acts[i]) && Apply(cfg, ws[i], acts[i]) == ws[i + 1];
    } else {
      PicksFollow(cfg, ws, acts, i, j - 1);
      var k := j - 1;
      assert Enabled(cfg, ws[k], acts[k]) && Apply(cfg, ws[k], acts[k]) == ws[k + 1];
      hide Apply, Enabled, AfterPick, CanPick;
      OnlyPicksSpend(cfg, ws[k], acts[k]);
    }
  }
}
