/**
 The disk IO driver as an object: each method is one critical section of the original and does to the
 driver's state what the action of the same name does in IoProtocol.
 */
module DiskIoDriver {
  import opened Ints
  import opened IoState
  import opened Multiplicity
  import opened CompletionList
  import IoProtocol

  // ----- The outstanding counters -----

  /** Counting a batch on its own and merging the counts is counting it in place. */
  lemma MergedCounts(o: map<nat, nat>, reqs: seq<IoRequest>, f: nat)
    ensures OutstandingOf(Counted(o, reqs), f) == OutstandingOf(o, f) + OutstandingOf(Counted(map[], reqs), f)
    ensures f in Counted(o, reqs) <==> f in o || f in Counted(map[], reqs)
  {
    IoProtocol.CountedBy(o, reqs, f);
    IoProtocol.CountedBy(map[], reqs, f);
  }

  lemma CountedPush(o: map<nat, nat>, batch: seq<IoRequest>, i: nat)
    requires i < |batch|
    ensures var p := Counted(o, batch[..i]);
            Counted(o, batch[..i+1]) == p[batch[i].fileId := OutstandingOf(p, batch[i].fileId) + 1]
  {
    assert batch[..i+1][..i] == batch[..i];
  }

  // ----- Acceptance -----

  lemma OfKindPushed(batch: seq<IoRequest>, i: nat, d: Driver)
    requires i < |batch|
    ensures QueuedAll(d, batch[..i+1]) == Queued(QueuedAll(d, batch[..i]), batch[i])
  {
    assert batch[..i+1][..i] == batch[..i];
    assert forall q: seq<IoRequest> :: q + [] == q;
  }

  /** The first n requests of the batch found room, each after the ones before it. */
  ghost predicate RoomFor(cfg: Config, d: Driver, batch: seq<IoRequest>, n: nat) {
    n <= |batch| && forall i :: 0 <= i < n ==> HasRoom(cfg, QueuedAll(d, batch[..i]), batch[i])
  }

  /** After its first request a batch goes on as the rest of it. */
  lemma RestOfBatch(d: Driver, batch: seq<IoRequest>, i: nat)
    requires 0 < i <= |batch|
    ensures QueuedAll(d, batch[..i]) == QueuedAll(Queued(d, batch[0]), batch[1..][..i - 1])
  {
    hide QueuedAll, Queued;
    QueuedRest(d, batch[..i]);
    assert batch[..i][1..] == batch[1..][..i - 1] && batch[..i][0] == batch[0];
  }

  lemma RoomForRest(cfg: Config, d: Driver, batch: seq<IoRequest>, n: nat)
    requires RoomFor(cfg, d, batch, n) && n > 0
    ensures HasRoom(cfg, QueuedAll(d, []), batch[0]) && RoomFor(cfg, Queued(d, batch[0]), batch[1..], n - 1)
  {
    hide QueuedAll, HasRoom, Queued;
    assert batch[..0] == [];
    assert HasRoom(cfg, QueuedAll(d, batch[..0]), batch[0]);
    var rest, e := batch[1..], Queued(d, batch[0]);
    forall i | 0 <= i < n - 1 ensures HasRoom(cfg, QueuedAll(e, rest[..i]), rest[i]) {
      RestOfBatch(d, batch, i + 1);
      assert HasRoom(cfg, QueuedAll(d, batch[..i + 1]), batch[i + 1]);
    }
  }

  lemma QueuedNone(d: Driver)
    ensures QueuedAll(d, []) == d
  {
  }

  /** Stopping at the first request without room accepts AcceptedCount requests. */
  lemma {:induction false} AcceptedUpTo(cfg: Config, d: Driver, batch: seq<IoRequest>, n: nat)
    requires RoomFor(cfg, d, batch, n)
    requires n < |batch| ==> !HasRoom(cfg, QueuedAll(d, batch[..n]), batch[n])
    ensures AcceptedCount(cfg, d, batch) == n
    decreases |batch|
  {
    hide QueuedAll, HasRoom, Queued, RoomFor;
    QueuedNone(d);
    if n > 0 {
      RoomForRest(cfg, d, batch, n);
      RoomForSize(cfg, d, batch, n);
      if n < |batch| {
        RestOfBatch(d, batch, n);
      }
      AcceptedUpTo(cfg, Queued(d, batch[0]), batch[1..], n - 1);
    } else {
      assert batch[..0] == [];
    }
  }

  lemma RoomForSize(cfg: Config, d: Driver, batch: seq<IoRequest>, n: nat)
    requires RoomFor(cfg, d, batch, n)
    ensures n <= |batch|
  {
  }

  lemma NoneAccepted(cfg: Config, d: Driver, batch: seq<IoRequest>)
    ensures RoomFor(cfg, d, batch, 0) && QueuedAll(d, batch[..0]) == d && Counted(map[], batch[..0]) == map[]
  {
  }

  lemma AcceptStep(cfg: Config, d: Driver, batch: seq<IoRequest>, n: nat)
    requires n < |batch| && RoomFor(cfg, d, batch, n) && HasRoom(cfg, QueuedAll(d, batch[..n]), batch[n])
    ensures RoomFor(cfg, d, batch, n + 1)
    ensures QueuedAll(d, batch[..n+1]) == Queued(QueuedAll(d, batch[..n]), batch[n])
    ensures var p := Counted(map[], batch[..n]);
            Counted(map[], batch[..n+1]) == p[batch[n].fileId := OutstandingOf(p, batch[n].fileId) + 1]
  {
    OfKindPushed(batch, n, d);
    CountedPush(map[], batch, n);
    hide HasRoom, QueuedAll, Queued, Counted;
  }

  lemma QueuedAllRest(d: Driver, reqs: seq<IoRequest>)
    ensures var e := QueuedAll(d, reqs); e == d.(readQ := e.readQ, writeQ := e.writeQ)
  {
  }

  lemma {:induction false} QueuedRest(d: Driver, reqs: seq<IoRequest>)
    requires reqs != []
    ensures QueuedAll(d, reqs) == QueuedAll(Queued(d, reqs[0]), reqs[1..])
  {
    var n := |reqs| - 1;
    if n == 0 {
      assert reqs[..0] == [] && reqs[1..] == [];
    } else {
      QueuedRest(d, reqs[..n]);
      assert reqs[..n][1..] == reqs[1..][..n-1];
      OfKindPushed(reqs, n, d);
      assert reqs[..n+1] == reqs;
      OfKindPushed(reqs[1..], n - 1, Queued(d, reqs[0]));
      assert reqs[1..][..n] == reqs[1..];
      hide QueuedAll, Queued;
    }
  }

  // ----- The driver -----

  class DiskIoDriver {
    const cfg: Config
    var readQ: seq<IoRequest>
    var writeQ: seq<IoRequest>
    var readCredit: nat
    var writeCredit: nat
    var cancelled: bool
    var stop: bool
    var inFlight: nat
    const undelivered: CompletionQueue
    var fileOutstanding: map<nat, nat>
    var pendingRelease: set<nat>

    ghost predicate Valid()
      reads undelivered, undelivered.order
    {
      undelivered.Valid()
    }

    /** The driver's state as a value. */
    ghost function State(): Driver
      reads this, undelivered
    {
      Driver(readQ, writeQ, readCredit, writeCredit, cancelled, stop, inFlight,
             undelivered.Pending(), fileOutstanding, pendingRelease)
    }

    constructor (config: Config)
      ensures Valid() && fresh(undelivered) && cfg == config && State() == Initial(config)
      ensures readCredit == if config.readWeight == 0 then 1 else config.readWeight
      ensures writeCredit == if config.writeWeight == 0 then 1 else config.writeWeight
    {
      cfg := config;
      readQ, writeQ := [], [];
      readCredit, writeCredit := Weight(config.readWeight), Weight(config.writeWeight);
      cancelled, stop := false, false;
      inFlight := 0;
      undelivered := new CompletionQueue();
      fileOutstanding := map[];
      pendingRelease := {};
    }

    method MergeOutstanding(delta: map<nat, nat>, ghost reqs: seq<IoRequest>)
      requires delta == Counted(map[], reqs)
      modifies this`fileOutstanding
      ensures fileOutstanding == Counted(old(fileOutstanding), reqs)
    {
      var left := delta.Keys;
      ghost var was := fileOutstanding;
      while left != {}
        invariant left <= delta.Keys
        invariant forall f: nat :: f in fileOutstanding <==> f in was || (f in delta && f !in left)
        invariant forall f: nat :: OutstandingOf(fileOutstanding, f)
                               == OutstandingOf(was, f) + if f in delta && f !in left then delta[f] else 0
        decreases |left|
      {
        var f :| f in left;
        fileOutstanding := fileOutstanding[f := (if f in fileOutstanding then fileOutstanding[f] else 0) + delta[f]];
        left := left - {f};
      }
      ghost var all := Counted(was, reqs);
      forall f: nat ensures (f in fileOutstanding <==> f in all) && (f in all ==> fileOutstanding[f] == all[f]) {
        MergedCounts(was, reqs, f);
        hide Counted;
      }
      hide Counted;
      assert fileOutstanding == all;
    }

    /** Queues one request if its queue has room. */
    method QueueOne(req: IoRequest) returns (ok: bool)
      modifies this`readQ, this`writeQ
      ensures ok == HasRoom(cfg, old(State()), req)
      ensures State() == if ok then Queued(old(State()), req) else old(State())
    {
      if req.kind.Read? {
        if |readQ| >= cfg.maxReadQueue {
          return false;
        }
        readQ := readQ + [req];
      } else {
        if |writeQ| >= cfg.maxWriteQueue {
          return false;
        }
        writeQ := writeQ + [req];
      }
      return true;
    }

    /** Accepts requests up to the first whose queue is full and counts them per file; the others are
        handed back. */
    method Submit(batch: seq<IoRequest>) returns (accepted: nat, left: seq<IoRequest>)
      modifies this
      ensures State() == Submitted(cfg, old(State()), batch)
      ensures accepted == if old(cancelled || stop) then 0 else AcceptedCount(cfg, old(State()), batch)
      ensures left == batch[accepted..]
    {
      hide RoomFor, AcceptedCount;
      accepted, left := 0, batch;
      if cancelled || stop {
        return;
      }
      NoneAccepted(cfg, State(), batch);
      var delta: map<nat, nat> := map[];
      ghost var d := State();
      hide QueuedAll, HasRoom, Queued, Counted;
      while accepted < |batch|
        invariant accepted <= |batch| && RoomFor(cfg, d, batch, accepted)
        invariant State() == QueuedAll(d, batch[..accepted])
        invariant delta == Counted(map[], batch[..accepted])
        decreases |batch| - accepted
      {
        var req := batch[accepted];
        var ok := QueueOne(req);
        if !ok {
          break;
        }
        AcceptStep(cfg, d, batch, accepted);
        delta := delta[req.fileId := (if req.fileId in delta then delta[req.fileId] else 0) + 1];
        accepted := accepted + 1;
      }
      AcceptedUpTo(cfg, d, batch, accepted);
      QueuedAllRest(d, batch[..accepted]);
      MergeOutstanding(delta, batch[..accepted]);
      left := batch[accepted..];
    }

    method PopPreferSmall(q: seq<IoRequest>) returns (r: IoRequest, rest: seq<IoRequest>)
      requires q != []
      ensures r == q[FirstSmall(q)] && rest == Without(q, FirstSmall(q))
    {
      var k := 0;
      while k < |q|
        invariant k <= |q| && forall j :: 0 <= j < k ==> !q[j].prio.Small?
      {
        if q[k].prio.Small? {
          return q[k], q[..k] + q[k+1..];
        }
        k := k + 1;
      }
      assert FirstSmall(q) == 0;
      return q[0], q[1..];
    }

    /** Credits decide only under contention, and are refilled when both have run out. */
    method ChooseDirection() returns (isRead: bool)
      requires readQ != [] || writeQ != []
      modifies this`readCredit, this`writeCredit
      ensures isRead == PicksRead(cfg, old(State())) && (readCredit, writeCredit) == Credits(cfg, old(State()))
    {
      var haveR, haveW := readQ != [], writeQ != [];
      if haveR && haveW {
        if readCredit == 0 && writeCredit == 0 {
          readCredit := if cfg.readWeight == 0 then 1 else cfg.readWeight;
          writeCredit := if cfg.writeWeight == 0 then 1 else cfg.writeWeight;
        }
        isRead := readCredit > 0;
      } else {
        isRead := haveR;
      }
    }

    /** The first half of PickAndSubmit: which operation goes to the backend next, if any. */
    method Pick() returns (picked: bool, op: seq<IoRequest>)
      modifies this
      ensures picked == CanPick(cfg, old(State()))
      ensures picked ==> State() == AfterPick(cfg, old(State())) && op == [Picked(cfg, old(State()))]
      ensures !picked ==> State() == old(State()) && op == []
    {
      picked, op := false, [];
      if cancelled || inFlight >= cfg.maxInFlight || (readQ == [] && writeQ == []) {
        return;
      }
      var isRead := ChooseDirection();
      var r, rest := PopPreferSmall(if isRead then readQ else writeQ);
      hide PicksRead, Credits, FirstSmall;
      if isRead {
        readQ := rest;
        if readCredit > 0 {
          readCredit := readCredit - 1;
        }
      } else {
        writeQ := rest;
        if writeCredit > 0 {
          writeCredit := writeCredit - 1;
        }
      }
      inFlight := inFlight + 1;
      picked, op := true, [r];
    }

    /** Gives back the slots of n delivered operations. */
    method Settle(n: nat)
      requires n <= inFlight
      modifies this`inFlight
      ensures State() == old(State()).(inFlight := old(inFlight) - n)
    {
      inFlight := inFlight - n;
    }

    /** One operation of the file less is outstanding; says whether a deferred release is due. */
    method SettleFile(fileId: nat) returns (doRelease: bool)
      modifies this`fileOutstanding, this`pendingRelease
      ensures fileOutstanding == Decremented(old(fileOutstanding), fileId)
      ensures doRelease == (fileId !in fileOutstanding && fileId in old(pendingRelease))
      ensures pendingRelease == if doRelease then old(pendingRelease) - {fileId} else old(pendingRelease)
    {
      if fileId in fileOutstanding {
        var n := fileOutstanding[fileId];
        fileOutstanding := if n <= 1 then fileOutstanding - {fileId} else fileOutstanding[fileId := n - 1];
      }
      doRelease := false;
      if fileId !in fileOutstanding {
        doRelease := fileId in pendingRelease;
        pendingRelease := pendingRelease - {fileId};
      }
    }

    /** Pushes a completion, then settles its file's account; the last one of a released file also
        releases it. */
    method EnqueueCompletion(c: IoCompletion)
      requires Valid()
      modifies this, undelivered, undelivered.order
      ensures Valid() && forall i :: 0 <= i < |undelivered.order| ==>
                           undelivered.order[i] in old(undelivered.order) || fresh(undelivered.order[i])
      ensures State() == Enqueued(old(State()), c)
    {
      hide Decremented, NotOfFile, Contents, CompletionQueue.Valid;
      undelivered.Push(c);
      var doRelease := SettleFile(c.fileId);
      if doRelease {
        undelivered.ReleaseFileLocked(c.fileId);
      }
    }

    method DrainCompletions() returns (out: seq<IoCompletion>)
      requires Valid()
      modifies undelivered, undelivered.order
      ensures Valid() && State() == DrainedAll(old(State())) && out == old(State()).completions
    {
      out := undelivered.DrainAll();
      NoContents();
    }

    method DrainCompletionsForFile(f: nat) returns (out: seq<IoCompletion>)
      requires Valid()
      modifies undelivered, undelivered.order
      ensures Valid() && State() == DrainedFile(old(State()), f) && out == OfFile(old(State()).completions, f)
    {
      out := undelivered.DrainFile(f);
    }

    /** The first critical section of requestCancel: the queues are taken over by the canceller. */
    method BeginCancel() returns (taken: seq<IoRequest>)
      modifies this
      ensures State() == if old(cancelled) then old(State()) else CancelRequested(old(State()))
      ensures taken == if old(cancelled) then [] else old(readQ) + old(writeQ)
    {
      if cancelled {
        return [];
      }
      cancelled := true;
      taken := readQ + writeQ;
      readQ, writeQ := [], [];
    }

    /** The rest of requestCancel: one Cancelled completion per operation taken, in queue order. */
    method Flush(taken: seq<IoRequest>)
      requires Valid()
      modifies this, undelivered, undelivered.order
      ensures Valid() && State() == Flushed(old(State()), taken)
    {
      var i := 0;
      ghost var d := State();
      assert taken[..0] == [];
      while i < |taken|
        invariant 0 <= i <= |taken| && Valid() && State() == Flushed(d, taken[..i])
        invariant forall i :: 0 <= i < |undelivered.order| ==>
                    undelivered.order[i] in old(undelivered.order) || fresh(undelivered.order[i])
      {
        EnqueueCompletion(IoProtocol.Synthesized(taken[i], Cancelled));
        assert taken[..i+1][..i] == taken[..i];
        i := i + 1;
      }
      assert taken[..i] == taken;
    }

    /** releaseFile, first step. */
    method DecideRelease(f: nat) returns (immediate: bool)
      modifies this`pendingRelease
      ensures immediate == ReleasesNow(old(State()), f) && State() == ReleaseDecided(old(State()), f)
    {
      if f !in fileOutstanding {
        return true;
      }
      pendingRelease := pendingRelease + {f};
      return false;
    }

    /** releaseFile, second step, taken only after an immediate decision. */
    method ActRelease(f: nat)
      requires Valid()
      modifies undelivered, undelivered.order
      ensures Valid() && State() == Released(old(State()), f)
    {
      undelivered.ReleaseFileLocked(f);
    }
  }

  function Flushed(d: Driver, taken: seq<IoRequest>): Driver {
    if taken == [] then d
    else Enqueued(Flushed(d, taken[..|taken|-1]), IoProtocol.Synthesized(taken[|taken|-1], Cancelled))
  }
}
