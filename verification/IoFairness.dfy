/**
 What the scheduler promises over whole runs of the driver: no direction waits for more than a few picks
 of the other, and operations of one kind and priority are picked in the order they were accepted.
 */
module IoFairness {
  import opened IoState
  import opened IoProtocol
  import opened Multiplicity

  // ----- Between the directions -----

  /** The positions of the picks among acts[i..j], in order. */
  function PicksIn(acts: seq<Action>, i: nat, j: nat): seq<nat>
    requires i <= j <= |acts|
  {
    if i == j then [] else PicksIn(acts, i, j - 1) + if acts[j - 1].Pick? then [j - 1] else []
  }

  ghost predicate InRow(acts: seq<Action>, at: seq<nat>, i: nat, j: nat) {
    && (forall k :: 0 <= k < |at| ==> i <= at[k] < j <= |acts| && acts[at[k]].Pick?)
    && (forall k :: 0 <= k < |at| - 1 ==> Neighbours(acts, at[k], at[k + 1]))
  }

  ghost predicate Neighbours(acts: seq<Action>, a: nat, b: nat) {
    a < b <= |acts| && forall m :: a < m < b ==> !acts[m].Pick?
  }

  ghost predicate NoneAfter(acts: seq<Action>, at: seq<nat>, j: nat) {
    at != [] ==> Neighbours(acts, at[|at|-1], j)
  }

  lemma StillNone(acts: seq<Action>, a: nat, j: nat)
    requires Neighbours(acts, a, j) && j < |acts| && !acts[j].Pick?
    ensures Neighbours(acts, a, j + 1)
  {
  }

  lemma RowStarts(acts: seq<Action>, i: nat)
    requires i <= |acts|
    ensures InRow(acts, [], i, i) && NoneAfter(acts, [], i)
  {
  }

  lemma {:induction false} PicksInRow(acts: seq<Action>, i: nat, j: nat)
    requires i <= j <= |acts|
    ensures InRow(acts, PicksIn(acts, i, j), i, j) && NoneAfter(acts, PicksIn(acts, i, j), j)
  {
    hide InRow, NoneAfter;
    if i == j {
      RowStarts(acts, i);
    } else {
      var k := j - 1;
      PicksInRow(acts, i, k);
      var before := PicksIn(acts, i, k);
      if acts[k].Pick? {
        RowGrows(acts, before, i, k);
      } else {
        assert before + [] == before;
        RowStays(acts, before, i, k);
      }
    }
  }

  lemma RowStays(acts: seq<Action>, at: seq<nat>, i: nat, k: nat)
    requires InRow(acts, at, i, k) && NoneAfter(acts, at, k) && i <= k < |acts| && !acts[k].Pick?
    ensures InRow(acts, at, i, k + 1) && NoneAfter(acts, at, k + 1)
  {
    hide Neighbours;
    if at != [] {
      StillNone(acts, at[|at|-1], k);
    }
  }

  lemma RowGrows(acts: seq<Action>, at: seq<nat>, i: nat, k: nat)
    requires InRow(acts, at, i, k) && NoneAfter(acts, at, k) && i <= k < |acts| && acts[k].Pick?
    ensures InRow(acts, at + [k], i, k + 1) && NoneAfter(acts, at + [k], k + 1)
  {
    assert Neighbours(acts, k, k + 1);
    hide Neighbours;
    var now := at + [k];
    forall m | 0 <= m < |now| - 1 ensures Neighbours(acts, now[m], now[m + 1]) {
      if m < |at| - 1 {
        assert Neighbours(acts, at[m], at[m + 1]);
      }
    }
  }

  /** Both queues are nonempty at every one of these picks, and all take from the same one. */
  ghost predicate OneSided(cfg: Config, ws: seq<World>, at: seq<nat>, isRead: bool) {
    forall k :: 0 <= k < |at| ==> at[k] < |ws| && Contended(ws[at[k]].d) && PicksRead(cfg, ws[at[k]].d) == isRead
  }

  /** In every stretch of every run: as long as both queues are nonempty whenever a pick is made, at most
      2*readWeight picks take a read, and at most writeWeight a write, before the other direction is served. */
  lemma RunIsFair(cfg: Config, ws: seq<World>, acts: seq<Action>, i: nat, j: nat, isRead: bool)
    requires IsRun(cfg, ws, acts) && i <= j <= |acts| && OneSided(cfg, ws, PicksIn(acts, i, j), isRead)
    ensures |PicksIn(acts, i, j)| <= if isRead then 2 * Weight(cfg.readWeight) else Weight(cfg.writeWeight)
  {
    hide Inv, Apply, AfterPick, KeepsCredits, Credits, PicksRead, PicksIn;
    var at := PicksIn(acts, i, j);
    PicksInRow(acts, i, j);
    if at != [] {
      var ds := seq(|at|, k requires 0 <= k < |at| => ws[at[k]].d);
      forall k | 0 <= k < |ds| - 1 ensures KeepsCredits(cfg, ds[k], ds[k + 1]) {
        assert Neighbours(acts, at[k], at[k + 1]);
        PicksFollow(cfg, ws, acts, at[k], at[k + 1]);
      }
      forall k | 0 <= k < |ds| ensures CanPick(cfg, ds[k]) && Contended(ds[k]) {
        assert Enabled(cfg, ws[at[k]], acts[at[k]]);
      }
      FlightStaysBounded(cfg, ws, acts, at[0]);
      FairRuns(cfg, ds, isRead);
    }
  }

  // ----- Within a kind and priority -----

  function QueueOf(d: Driver, kind: OpKind): seq<IoRequest> {
    if kind.Read? then d.readQ else d.writeQ
  }

  /** What an action makes the driver accept. */
  function AcceptedBy(cfg: Config, w: World, a: Action): seq<IoRequest> {
    if a.Submit? && !w.d.cancelled && !w.d.stop then a.batch[..AcceptedCount(cfg, w.d, a.batch)] else []
  }

  /** The operation an action hands to the backend, if it is of this kind and priority. */
  function PickedBy(cfg: Config, w: World, a: Action, kind: OpKind, p: Prio): seq<IoRequest>
    requires a.Pick? ==> CanPick(cfg, w.d)
  {
    if a.Pick? && Picked(cfg, w.d).kind == kind && Picked(cfg, w.d).prio == p then [Picked(cfg, w.d)] else []
  }

  /** The operations of a kind and priority accepted in the first i steps of a run, in order. */
  ghost function AllAccepted(cfg: Config, ws: seq<World>, acts: seq<Action>, i: nat, kind: OpKind,
                             p: Prio): seq<IoRequest>
    requires IsRun(cfg, ws, acts) && i < |ws|
  {
    if i == 0 then []
    else AllAccepted(cfg, ws, acts, i - 1, kind, p) + OfPrio(OfKind(AcceptedBy(cfg, ws[i - 1], acts[i - 1]), kind), p)
  }

  /** The operations of a kind and priority picked in the first i steps of a run, in order. */
  ghost function AllPicked(cfg: Config, ws: seq<World>, acts: seq<Action>, i: nat, kind: OpKind,
                           p: Prio): seq<IoRequest>
    requires IsRun(cfg, ws, acts) && i < |ws|
  {
    if i == 0 then []
    else
      assert Enabled(cfg, ws[i - 1], acts[i - 1]);
      AllPicked(cfg, ws, acts, i - 1, kind, p) + PickedBy(cfg, ws[i - 1], acts[i - 1], kind, p)
  }

  ghost predicate KindsApart(d: Driver) {
    && (forall k :: 0 <= k < |d.readQ| ==> d.readQ[k].kind.Read?)
    && (forall k :: 0 <= k < |d.writeQ| ==> d.writeQ[k].kind.Write?)
  }

  lemma {:induction false} OfKindIsOfKind(reqs: seq<IoRequest>, kind: OpKind)
    ensures forall k :: 0 <= k < |OfKind(reqs, kind)| ==> OfKind(reqs, kind)[k].kind == kind
  {
    if reqs != [] {
      OfKindIsOfKind(reqs[..|reqs|-1], kind);
    }
  }

  predicate LeavesQueues(a: Action) {
    !a.Submit? && !a.Pick? && !a.Cancel?
  }

  lemma CompleteLeavesQueues(w: World, r: Reaped)
    ensures var d := Complete(w, r).d;
            d.readQ == w.d.readQ && d.writeQ == w.d.writeQ && d.cancelled == w.d.cancelled
  {
    hide NotOfFile, Decremented;
  }

  lemma QueuesStay(cfg: Config, w: World, a: Action)
    requires Enabled(cfg, w, a) && LeavesQueues(a)
    ensures var d := Apply(cfg, w, a).d;
            d.readQ == w.d.readQ && d.writeQ == w.d.writeQ && d.cancelled == w.d.cancelled
  {
    hide Complete, CompletionFor, CanPick, NotOfFile, OfFile;
    if HoldsOp(w, a) {
      CompleteLeavesQueues(TakenOut(w, a), Held(w, a));
    }
  }

  lemma SubmitQueues(cfg: Config, w: World, a: Action, kind: OpKind)
    requires Enabled(cfg, w, a) && a.Submit?
    ensures var d := Apply(cfg, w, a).d;
            QueueOf(d, kind) == QueueOf(w.d, kind) + OfKind(AcceptedBy(cfg, w, a), kind) && d.cancelled == w.d.cancelled
  {
    hide AcceptedCount, Counted;
  }

  lemma PickedFrom(cfg: Config, w: World)
    requires Enabled(cfg, w, Pick) && KindsApart(w.d)
    ensures var d := Apply(cfg, w, Pick).d;
            && (Picked(cfg, w.d).kind.Read? <==> PicksRead(cfg, w.d)) && d.cancelled == w.d.cancelled
            && (if PicksRead(cfg, w.d) then w.d.readQ != [] else w.d.writeQ != [])
            && Picked(cfg, w.d) == (if PicksRead(cfg, w.d) then w.d.readQ[FirstSmall(w.d.readQ)]
                                    else w.d.writeQ[FirstSmall(w.d.writeQ)])
            && d.readQ == (if PicksRead(cfg, w.d) then Without(w.d.readQ, FirstSmall(w.d.readQ)) else w.d.readQ)
            && d.writeQ == (if PicksRead(cfg, w.d) then w.d.writeQ else Without(w.d.writeQ, FirstSmall(w.d.writeQ)))
  {
    hide FirstSmall, Without;
  }

  /** A pick takes the operation it hands over off the front of its kind and priority. */
  lemma PickQueues(cfg: Config, w: World, kind: OpKind, p: Prio)
    requires Enabled(cfg, w, Pick) && KindsApart(w.d)
    ensures var d := Apply(cfg, w, Pick).d;
            && OfPrio(QueueOf(w.d, kind), p) == PickedBy(cfg, w, Pick, kind, p) + OfPrio(QueueOf(d, kind), p)
            && KindsApart(d) && d.cancelled == w.d.cancelled
  {
    hide FirstSmall, OfPrio, PicksRead, Picked, Apply;
    PickedFrom(cfg, w);
    if PicksRead(cfg, w.d) {
      PopIsFifo(w.d.readQ, p);
    } else {
      PopIsFifo(w.d.writeQ, p);
    }
  }

  /** The queues hold what was accepted and not picked, in order, until cancellation empties them. */
  ghost predicate InOrder(d: Driver, accepted: seq<IoRequest>, picked: seq<IoRequest>, kind: OpKind, p: Prio) {
    && KindsApart(d)
    && (if d.cancelled then d.readQ == [] && d.writeQ == [] && picked <= accepted
        else accepted == picked + OfPrio(QueueOf(d, kind), p))
  }

  lemma KindsStayApart(d: Driver, e: Driver, taken: seq<IoRequest>)
    requires KindsApart(d)
    requires e.readQ == d.readQ + OfKind(taken, Read) && e.writeQ == d.writeQ + OfKind(taken, Write)
    ensures KindsApart(e)
  {
    OfKindIsOfKind(taken, Read);
    OfKindIsOfKind(taken, Write);
    hide OfKind;
  }

  lemma SubmitInOrder(cfg: Config, w: World, a: Action, accepted: seq<IoRequest>, picked: seq<IoRequest>,
                      kind: OpKind, p: Prio)
    requires Enabled(cfg, w, a) && a.Submit? && InOrder(w.d, accepted, picked, kind, p)
    ensures InOrder(Apply(cfg, w, a).d, accepted + OfPrio(OfKind(AcceptedBy(cfg, w, a), kind), p), picked, kind, p)
  {
    hide Apply, Enabled, OfPrio, OfKind, KindsApart, AcceptedBy;
    var taken, v := AcceptedBy(cfg, w, a), Apply(cfg, w, a);
    SubmitQueues(cfg, w, a, Read);
    SubmitQueues(cfg, w, a, Write);
    KindsStayApart(w.d, v.d, taken);
    if w.d.cancelled {
      NothingAccepted(cfg, w, a);
    } else {
      var q, t := QueueOf(w.d, kind), OfKind(taken, kind);
      OfPrioSplit(q, t, p);
      assert picked + OfPrio(q, p) + OfPrio(t, p) == picked + (OfPrio(q, p) + OfPrio(t, p));
    }
  }

  lemma NothingAccepted(cfg: Config, w: World, a: Action)
    requires w.d.cancelled
    ensures AcceptedBy(cfg, w, a) == [] && OfKind([], Read) == [] && OfKind([], Write) == []
  {
  }

  lemma PickInOrder(cfg: Config, w: World, accepted: seq<IoRequest>, picked: seq<IoRequest>, kind: OpKind, p: Prio)
    requires Enabled(cfg, w, Pick) && InOrder(w.d, accepted, picked, kind, p)
    ensures InOrder(Apply(cfg, w, Pick).d, accepted, picked + PickedBy(cfg, w, Pick, kind, p), kind, p)
  {
    hide Apply, OfPrio, PickedBy, QueueOf, KindsApart;
    PickQueues(cfg, w, kind, p);
  }

  lemma CancelInOrder(d: Driver, accepted: seq<IoRequest>, picked: seq<IoRequest>, kind: OpKind, p: Prio)
    requires InOrder(d, accepted, picked, kind, p)
    ensures InOrder(CancelRequested(d), accepted, picked, kind, p)
  {
  }

  lemma OtherInOrder(d: Driver, e: Driver, accepted: seq<IoRequest>, picked: seq<IoRequest>, kind: OpKind, p: Prio)
    requires InOrder(d, accepted, picked, kind, p)
    requires e.readQ == d.readQ && e.writeQ == d.writeQ && e.cancelled == d.cancelled
    ensures InOrder(e, accepted, picked, kind, p)
  {
  }

  lemma StepInOrder(cfg: Config, w: World, a: Action, accepted: seq<IoRequest>, picked: seq<IoRequest>,
                    kind: OpKind, p: Prio)
    requires Enabled(cfg, w, a) && InOrder(w.d, accepted, picked, kind, p)
    ensures InOrder(Apply(cfg, w, a).d, accepted + OfPrio(OfKind(AcceptedBy(cfg, w, a), kind), p),
                    picked + PickedBy(cfg, w, a, kind, p), kind, p)
  {
    hide OfPrio, OfKind, InOrder, QueueOf, AcceptedCount, Picked, Submitted, AfterPick, Complete;
    if a.Submit? {
      assert picked + [] == picked;
      SubmitInOrder(cfg, w, a, accepted, picked, kind, p);
    } else {
      NothingOf(kind, p);
      assert accepted + [] == accepted && picked + [] == picked;
      if a.Pick? {
        PickInOrder(cfg, w, accepted, picked, kind, p);
      } else if a.Cancel? {
        CancelInOrder(w.d, accepted, picked, kind, p);
      } else {
        QueuesStay(cfg, w, a);
        OtherInOrder(w.d, Apply(cfg, w, a).d, accepted, picked, kind, p);
      }
    }
  }

  lemma NothingOf(kind: OpKind, p: Prio)
    ensures OfPrio(OfKind([], kind), p) == []
  {
  }

  lemma {:induction false} RunInOrder(cfg: Config, ws: seq<World>, acts: seq<Action>, i: nat, kind: OpKind, p: Prio)
    requires IsRun(cfg, ws, acts) && i < |ws|
    ensures InOrder(ws[i].d, AllAccepted(cfg, ws, acts, i, kind, p), AllPicked(cfg, ws, acts, i, kind, p), kind, p)
  {
    if i > 0 {
      var k := i - 1;
      RunInOrder(cfg, ws, acts, k, kind, p);
      assert Enabled(cfg, ws[k], acts[k]) && Apply(cfg, ws[k], acts[k]) == ws[k + 1];
      hide Apply, Enabled, OfPrio, OfKind, AcceptedBy, PickedBy, InOrder;
      StepInOrder(cfg, ws[k], acts[k], AllAccepted(cfg, ws, acts, k, kind, p), AllPicked(cfg, ws, acts, k, kind, p),
                  kind, p);
    }
  }

  /** First in, first out over whole runs: the operations of a kind and priority picked so far are the first
      of those accepted, and, unless the driver was cancelled, the others are in its queue, in order. */
  lemma RunIsFifo(cfg: Config, ws: seq<World>, acts: seq<Action>, i: nat, kind: OpKind, p: Prio)
    requires IsRun(cfg, ws, acts) && i < |ws|
    ensures AllPicked(cfg, ws, acts, i, kind, p) <= AllAccepted(cfg, ws, acts, i, kind, p)
    ensures !ws[i].d.cancelled ==>
              AllAccepted(cfg, ws, acts, i, kind, p)
              == AllPicked(cfg, ws, acts, i, kind, p) + OfPrio(QueueOf(ws[i].d, kind), p)
  {
    RunInOrder(cfg, ws, acts, i, kind, p);
    hide AllPicked, AllAccepted, OfPrio, IsRun;
  }
}
