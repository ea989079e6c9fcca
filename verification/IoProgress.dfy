/**
 The driver does its work: when no thread has anything left to do every accepted operation is finished, and there
 is no more to do than a few steps for each.
 */
module IoProgress {
  import opened Ints
  import opened IoState
  import opened IoProtocol
  import opened Multiplicity

  /** The steps of the scheduler, the backend and cancellation that carry operations on. */
  predicate Working(a: Action) {
    a.Pick? || a.BackendAccepts? || a.BackendRefuses? || a.Reap? || a.Deliver? || a.FlushOne? || (a.Settle? && a.n > 0)
  }

  ghost predicate AtRest(cfg: Config, w: World) {
    forall a: Action :: Working(a) ==> !Enabled(cfg, w, a)
  }

  // ----- What is left when nothing can be done -----

  ghost predicate EmptyIfCancelled(w: World) {
    w.d.cancelled ==> w.d.readQ == [] && w.d.writeQ == []
  }

  lemma CompleteQueues(w: World, r: Reaped)
    ensures var v := Complete(w, r);
            v.d.cancelled == w.d.cancelled && v.d.readQ == w.d.readQ && v.d.writeQ == w.d.writeQ
  {
    hide OfFile, NotOfFile, Decremented;
  }

  lemma StepEmpties(cfg: Config, w: World, a: Action)
    requires EmptyIfCancelled(w) && Enabled(cfg, w, a)
    ensures EmptyIfCancelled(Apply(cfg, w, a))
  {
    hide Complete, OfFile, NotOfFile, CompletionFor, Picked, Credits, FirstSmall, AcceptedCount, Counted, OfKind;
    hide Without;
    match a
    case BackendRefuses => CompleteQueues(w.(handed := w.handed[1..], settling := w.settling + 1),
                                          Reaped(w.handed[0], Synthesized(w.handed[0], Error)));
    case Deliver => CompleteQueues(w.(reaped := w.reaped[1..], settling := w.settling + 1), w.reaped[0]);
    case FlushOne =>
      CompleteQueues(w.(flushing := w.flushing[1..]), Reaped(w.flushing[0], Synthesized(w.flushing[0], Cancelled)));
    case _ =>
  }

  lemma {:induction false} CancelledIsEmpty(cfg: Config, ws: seq<World>, acts: seq<Action>, i: nat)
    requires IsRun(cfg, ws, acts) && i < |ws|
    ensures EmptyIfCancelled(ws[i])
  {
    hide Apply, Enabled, EmptyIfCancelled;
    if i == 0 {
      NotCancelled(cfg);
    } else {
      var k := i - 1;
      CancelledIsEmpty(cfg, ws, acts, k);
      assert Enabled(cfg, ws[k], acts[k]) && Apply(cfg, ws[k], acts[k]) == ws[k + 1];
      StepEmpties(cfg, ws[k], acts[k]);
    }
  }

  lemma NotCancelled(cfg: Config)
    ensures EmptyIfCancelled(Begin(cfg))
  {
  }

  /** Whatever holds an operation can hand it on. */
  lemma RestIsEmpty(cfg: Config, w: World)
    requires AtRest(cfg, w) && EmptyIfCancelled(w) && FlightBounded(cfg, w) && cfg.maxInFlight > 0
    ensures w.handed == [] && w.atBackend == [] && w.reaped == [] && w.flushing == [] && w.settling == 0
    ensures w.d.readQ == [] && w.d.writeQ == [] && w.d.inFlight == 0
  {
    assert !Enabled(cfg, w, Pick) && !Enabled(cfg, w, BackendAccepts) && !Enabled(cfg, w, Deliver);
    assert !Enabled(cfg, w, FlushOne) && (w.settling > 0 ==> !Enabled(cfg, w, Settle(w.settling)));
    assert w.atBackend != [] ==> !Enabled(cfg, w, Reap(0, Synthesized(w.atBackend[0], Okay)));
  }

  lemma NoneCounted(f: nat)
    ensures CountOf([], f) == 0
  {
  }

  /** In every state of every run in which no operation can be carried on, none is unfinished and no counter is
      left. */
  lemma {:induction false} RestMeansDone(cfg: Config, ws: seq<World>, acts: seq<Action>, i: nat)
    requires IsRun(cfg, ws, acts) && i < |ws| && cfg.maxInFlight > 0 && AtRest(cfg, ws[i])
    ensures Places(ws[i]) == [] && ws[i].d.outstanding == map[] && ws[i].d.inFlight == 0
    ensures forall r: IoRequest :: ws[i].accepted[r] == Occ(Ops(ws[i].finished), r)
  {
    hide IsRun, AtRest, Logged, ReleaseInv;
    var w := ws[i];
    RunKeeps(cfg, ws, acts, i);
    CancelledIsEmpty(cfg, ws, acts, i);
    RestIsEmpty(cfg, w);
    assert Places(w) == [];
    forall f: nat ensures f !in w.d.outstanding {
      NoneCounted(f);
      assert OutstandingOf(w.d.outstanding, f) == Unfinished(w, f);
    }
  }

  // ----- How much there is to do -----

  /** The steps that are left at most: five for an operation in the queues, one less at each further place. */
  function Work(w: World): nat {
    5 * (|w.d.readQ| + |w.d.writeQ|) + 4 * |w.handed| + 3 * |w.atBackend| + 2 * |w.reaped| + w.settling + |w.flushing|
  }

  /** How many operations a submission is accepted with. */
  function Taken(cfg: Config, w: World, a: Action): nat {
    if a.Submit? && !w.d.cancelled && !w.d.stop then AcceptedCount(cfg, w.d, a.batch) else 0
  }

  lemma {:induction false} KindSizes(q: seq<IoRequest>)
    ensures |OfKind(q, Read)| + |OfKind(q, Write)| == |q|
  {
    if q != [] {
      KindSizes(q[..|q|-1]);
    }
  }

  lemma SubmitWork(cfg: Config, w: World, batch: seq<IoRequest>)
    requires Enabled(cfg, w, Submit(batch))
    ensures var v := Apply(cfg, w, Submit(batch));
            && Work(v) == Work(w) + 5 * Taken(cfg, w, Submit(batch))
            && |v.accepted| == |w.accepted| + Taken(cfg, w, Submit(batch))
  {
    hide OfKind, AcceptedCount, Counted;
    if !w.d.cancelled && !w.d.stop {
      KindSizes(batch[..AcceptedCount(cfg, w.d, batch)]);
    }
  }

  lemma CompleteFrame(w: World, r: Reaped)
    ensures Work(Complete(w, r)) == Work(w) && Complete(w, r).accepted == w.accepted
  {
    hide OfFile, NotOfFile, Decremented;
  }

  lemma PickLowers(cfg: Config, w: World)
    requires Enabled(cfg, w, Pick)
    ensures var v := Apply(cfg, w, Pick); Work(v) == Work(w) - 1 && v.accepted == w.accepted
  {
    hide Credits, PicksRead, FirstSmall;
  }

  lemma CleanupWork(cfg: Config, w: World, a: Action)
    requires Enabled(cfg, w, a) && (Cleanup(a) || a.Stop?)
    ensures Work(Apply(cfg, w, a)) == Work(w) && Apply(cfg, w, a).accepted == w.accepted
  {
    hide OfFile, NotOfFile, Complete, Submitted, AfterPick, Picked, CompletionFor, CanPick;
  }

  lemma DeliveryWork(cfg: Config, w: World, a: Action)
    requires Enabled(cfg, w, a) && (a.BackendRefuses? || a.Deliver? || a.FlushOne?)
    ensures Work(Apply(cfg, w, a)) < Work(w) && Apply(cfg, w, a).accepted == w.accepted
  {
    hide AfterPick, Complete, CompletionFor, CanPick, Submitted;
    match a
    case BackendRefuses => CompleteFrame(w.(handed := w.handed[1..], settling := w.settling + 1),
                                         Reaped(w.handed[0], Synthesized(w.handed[0], Error)));
    case Deliver => CompleteFrame(w.(reaped := w.reaped[1..], settling := w.settling + 1), w.reaped[0]);
    case FlushOne =>
      CompleteFrame(w.(flushing := w.flushing[1..]), Reaped(w.flushing[0], Synthesized(w.flushing[0], Cancelled)));
  }

  lemma MoveWork(cfg: Config, w: World, a: Action)
    requires Enabled(cfg, w, a) && (a.BackendAccepts? || a.Reap? || a.Settle? || a.Cancel?)
    ensures var v := Apply(cfg, w, a);
            Work(v) <= Work(w) && (!a.Cancel? && !(a.Settle? && a.n == 0) ==> Work(v) < Work(w))
            && v.accepted == w.accepted
  {
    hide AfterPick, Complete, CompletionFor, CanPick, Submitted, OfFile, NotOfFile;
  }

  /** A working step lowers what is left, and no other step but a submission raises it. */
  lemma StepLowers(cfg: Config, w: World, a: Action)
    requires Enabled(cfg, w, a) && !a.Submit?
    ensures var v := Apply(cfg, w, a);
            && Work(v) <= Work(w) && (Working(a) ==> Work(v) < Work(w)) && v.accepted == w.accepted
  {
    hide Apply, Enabled, Work;
    if a.Pick? {
      PickLowers(cfg, w);
    } else if Cleanup(a) || a.Stop? {
      CleanupWork(cfg, w, a);
    } else if a.BackendRefuses? || a.Deliver? || a.FlushOne? {
      DeliveryWork(cfg, w, a);
    } else {
      MoveWork(cfg, w, a);
    }
  }

  function Steps(acts: seq<Action>): nat {
    if acts == [] then 0 else Steps(acts[..|acts|-1]) + if Working(acts[|acts|-1]) then 1 else 0
  }

  /** In every run the operations accepted so far have been carried on by at most five steps each. */
  lemma {:induction false} WorkIsBounded(cfg: Config, ws: seq<World>, acts: seq<Action>, i: nat)
    requires IsRun(cfg, ws, acts) && i < |ws|
    ensures Steps(acts[..i]) + Work(ws[i]) <= 5 * |ws[i].accepted|
  {
    hide Apply, Enabled, Work, Working;
    if i == 0 {
      assert acts[..0] == [];
      NoWork(cfg);
    } else {
      var k := i - 1;
      WorkIsBounded(cfg, ws, acts, k);
      assert Enabled(cfg, ws[k], acts[k]) && Apply(cfg, ws[k], acts[k]) == ws[k + 1];
      assert acts[..i][..k] == acts[..k] && acts[..i][k] == acts[k];
      if acts[k].Submit? {
        SubmitWork(cfg, ws[k], acts[k].batch);
        SubmitIsNoWork(acts[k]);
      } else {
        StepLowers(cfg, ws[k], acts[k]);
      }
    }
  }

  lemma NoWork(cfg: Config)
    ensures Work(Begin(cfg)) == 0
  {
  }

  lemma SubmitIsNoWork(a: Action)
    requires a.Submit?
    ensures !Working(a)
  {
  }

  // ----- What is accepted, and how it ends -----

  lemma {:induction false} KindFront(r: IoRequest, q: seq<IoRequest>, kind: OpKind)
    ensures |OfKind([r] + q, kind)| == |OfKind(q, kind)| + if r.kind == kind then 1 else 0
  {
    if q != [] {
      assert ([r] + q)[..|q|] == [r] + q[..|q|-1];
      KindFront(r, q[..|q|-1], kind);
    }
  }

  /** What the queues hold with the first n requests of the batch. */
  function WithFirst(d: Driver, batch: seq<IoRequest>, n: nat, kind: OpKind): nat
    requires n <= |batch|
  {
    |if kind.Read? then d.readQ else d.writeQ| + |OfKind(batch[..n], kind)|
  }

  function Limit(cfg: Config, kind: OpKind): nat {
    if kind.Read? then cfg.maxReadQueue else cfg.maxWriteQueue
  }

  lemma {:induction false} FirstAndRest(d: Driver, batch: seq<IoRequest>, n: nat, kind: OpKind)
    requires 0 < n <= |batch|
    ensures WithFirst(d, batch, n, kind) == WithFirst(Queued(d, batch[0]), batch[1..], n - 1, kind)
  {
    assert batch[..n] == [batch[0]] + batch[1..][..n - 1];
    KindFront(batch[0], batch[1..][..n - 1], kind);
    hide OfKind;
  }

  /** A batch is accepted up to the first request whose queue is full: no queue grows beyond its limit, and the
      queue of the first request that is refused has reached it. */
  lemma {:induction false} AcceptedMeaning(cfg: Config, d: Driver, batch: seq<IoRequest>)
    requires |d.readQ| <= cfg.maxReadQueue && |d.writeQ| <= cfg.maxWriteQueue
    ensures var n := AcceptedCount(cfg, d, batch);
            && WithFirst(d, batch, n, Read) <= cfg.maxReadQueue && WithFirst(d, batch, n, Write) <= cfg.maxWriteQueue
            && (n < |batch| ==> WithFirst(d, batch, n, batch[n].kind) == Limit(cfg, batch[n].kind))
    decreases |batch|
  {
    hide WithFirst;
    var n := AcceptedCount(cfg, d, batch);
    if n > 0 {
      AcceptedMeaning(cfg, Queued(d, batch[0]), batch[1..]);
      FirstAndRest(d, batch, n, Read);
      FirstAndRest(d, batch, n, Write);
    } else {
      NoneTaken(d, batch);
    }
  }

  lemma NoneTaken(d: Driver, batch: seq<IoRequest>)
    ensures WithFirst(d, batch, 0, Read) == |d.readQ| && WithFirst(d, batch, 0, Write) == |d.writeQ|
  {
  }

  ghost predicate QueuesBounded(cfg: Config, d: Driver) {
    |d.readQ| <= cfg.maxReadQueue && |d.writeQ| <= cfg.maxWriteQueue
  }

  lemma StepBounds(cfg: Config, w: World, a: Action)
    requires QueuesBounded(cfg, w.d) && Enabled(cfg, w, a)
    ensures QueuesBounded(cfg, Apply(cfg, w, a).d)
  {
    hide Complete, OfFile, NotOfFile, CompletionFor, Picked, Credits, FirstSmall, AcceptedCount, Counted, OfKind;
    match a
    case Submit(batch) =>
      AcceptedMeaning(cfg, w.d, batch);
    case BackendRefuses => CompleteQueues(w.(handed := w.handed[1..], settling := w.settling + 1),
                                          Reaped(w.handed[0], Synthesized(w.handed[0], Error)));
    case Deliver => CompleteQueues(w.(reaped := w.reaped[1..], settling := w.settling + 1), w.reaped[0]);
    case FlushOne =>
      CompleteQueues(w.(flushing := w.flushing[1..]), Reaped(w.flushing[0], Synthesized(w.flushing[0], Cancelled)));
    case _ =>
  }

  /** The queues never hold more than they are configured for. */
  lemma {:induction false} QueuesStayBounded(cfg: Config, ws: seq<World>, acts: seq<Action>, i: nat)
    requires IsRun(cfg, ws, acts) && i < |ws|
    ensures QueuesBounded(cfg, ws[i].d)
  {
    if i > 0 {
      hide Apply, Enabled, QueuesBounded;
      var k := i - 1;
      QueuesStayBounded(cfg, ws, acts, k);
      assert Enabled(cfg, ws[k], acts[k]) && Apply(cfg, ws[k], acts[k]) == ws[k + 1];
      StepBounds(cfg, ws[k], acts[k]);
    }
  }

  /** An operation the backend refuses ends with an error, and one that is flushed as cancelled, both with nothing
      transferred. */
  lemma HowTheyEnd(cfg: Config, w: World, a: Action)
    requires Enabled(cfg, w, a) && (a.BackendRefuses? || a.FlushOne?)
    ensures var v := Apply(cfg, w, a);
            var r := if a.FlushOne? then w.flushing[0] else w.handed[0];
            && |v.finished| == |w.finished| + 1 && v.finished[..|w.finished|] == w.finished
            && var f := v.finished[|w.finished|];
               && f.op == r && CompletionFor(r, f.completion)
               && f.completion.transferred == 0 && f.completion.data == []
               && (a.FlushOne? ==> f.completion.status.Cancelled?)
               && (a.BackendRefuses? ==> f.completion.status.Error?)
  {
    hide Enqueued;
  }
}
