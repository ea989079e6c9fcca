/**
 The disk IO driver on values: its queues, credits, completion list and release bookkeeping, and
 one function per critical section.
 */
module IoState {
  import opened Ints
  import opened Multiplicity

  datatype OpKind = Read | Write
  datatype Prio = Small | Large
  datatype IoStatus = Okay | Eof | Cancelled | Error

  datatype IoRequest = IoRequest(kind: OpKind, fileId: nat, offset: nat, length: nat, prio: Prio, userTag: nat,
                                 data: Bytes)
  datatype IoCompletion = IoCompletion(kind: OpKind, fileId: nat, offset: nat, requested: nat, transferred: nat,
                                       status: IoStatus, userTag: nat, data: Bytes)

  datatype Config = Config(maxReadQueue: nat, maxWriteQueue: nat, readWeight: nat, writeWeight: nat, maxInFlight: nat)

  datatype Driver = Driver(readQ: seq<IoRequest>, writeQ: seq<IoRequest>, readCredit: nat, writeCredit: nat,
                           cancelled: bool, stop: bool, inFlight: nat,
                           completions: seq<IoCompletion>, outstanding: map<nat, nat>, pendingRelease: set<nat>)

  /** A zero weight counts as one. */
  function Weight(w: nat): nat {
    if w == 0 then 1 else w
  }

  function Initial(cfg: Config): Driver {
    Driver([], [], Weight(cfg.readWeight), Weight(cfg.writeWeight), false, false, 0, [], map[], {})
  }

  // ----- Submission -----

  predicate HasRoom(cfg: Config, d: Driver, r: IoRequest) {
    if r.kind.Read? then |d.readQ| < cfg.maxReadQueue else |d.writeQ| < cfg.maxWriteQueue
  }

  function Queued(d: Driver, r: IoRequest): Driver {
    if r.kind.Read? then d.(readQ := d.readQ + [r]) else d.(writeQ := d.writeQ + [r])
  }

  /** The number of requests accepted: up to the first whose queue is full. */
  function AcceptedCount(cfg: Config, d: Driver, batch: seq<IoRequest>): (n: nat)
    ensures n <= |batch|
    decreases batch
  {
    if batch == [] || !HasRoom(cfg, d, batch[0]) then 0
    else 1 + AcceptedCount(cfg, Queued(d, batch[0]), batch[1..])
  }

  function OfKind(reqs: seq<IoRequest>, kind: OpKind): seq<IoRequest> {
    if reqs == [] then []
    else OfKind(reqs[..|reqs|-1], kind) + if reqs[|reqs|-1].kind == kind then [reqs[|reqs|-1]] else []
  }

  function QueuedAll(d: Driver, reqs: seq<IoRequest>): Driver {
    d.(readQ := d.readQ + OfKind(reqs, Read), writeQ := d.writeQ + OfKind(reqs, Write))
  }

  function OutstandingOf(o: map<nat, nat>, f: nat): nat {
    if f in o then o[f] else 0
  }

  function Counted(o: map<nat, nat>, reqs: seq<IoRequest>): map<nat, nat> {
    if reqs == [] then o
    else
      var p := Counted(o, reqs[..|reqs|-1]);
      var f := reqs[|reqs|-1].fileId;
      p[f := OutstandingOf(p, f) + 1]
  }

  function Submitted(cfg: Config, d: Driver, batch: seq<IoRequest>): Driver {
    if d.cancelled || d.stop then d
    else
      var taken := batch[..AcceptedCount(cfg, d, batch)];
      QueuedAll(d, taken).(outstanding := Counted(d.outstanding, taken))
  }

  // ----- Picking -----

  /** The index of the first small operation, or 0 if there is none. */
  function FirstSmall(q: seq<IoRequest>): (k: nat)
    requires q != []
    ensures k < |q|
  {
    if exists k :: 0 <= k < |q| && q[k].prio.Small? then SmallFrom(q, 0) else 0
  }

  function SmallFrom(q: seq<IoRequest>, from: nat): (k: nat)
    requires from <= |q| && exists k :: from <= k < |q| && q[k].prio.Small?
    ensures from <= k < |q| && q[k].prio.Small? && forall j :: from <= j < k ==> !q[j].prio.Small?
    decreases |q| - from
  {
    if q[from].prio.Small? then from else SmallFrom(q, from + 1)
  }

  predicate CanPick(cfg: Config, d: Driver) {
    !d.cancelled && d.inFlight < cfg.maxInFlight && (d.readQ != [] || d.writeQ != [])
  }

  predicate Contended(d: Driver) {
    d.readQ != [] && d.writeQ != []
  }

  /** Credits as they are at the decision: both exhausted means both refilled, but only under contention. */
  function Credits(cfg: Config, d: Driver): (nat, nat) {
    if Contended(d) && d.readCredit == 0 && d.writeCredit == 0 then (Weight(cfg.readWeight), Weight(cfg.writeWeight))
    else (d.readCredit, d.writeCredit)
  }

  predicate PicksRead(cfg: Config, d: Driver) {
    if Contended(d) then Credits(cfg, d).0 > 0 else d.readQ != []
  }

  function Picked(cfg: Config, d: Driver): IoRequest
    requires CanPick(cfg, d)
  {
    if PicksRead(cfg, d) then d.readQ[FirstSmall(d.readQ)] else d.writeQ[FirstSmall(d.writeQ)]
  }

  function Less(c: nat): nat {
    if c > 0 then c - 1 else 0
  }

  function AfterPick(cfg: Config, d: Driver): Driver
    requires CanPick(cfg, d)
  {
    var (rc, wc) := Credits(cfg, d);
    if PicksRead(cfg, d) then
      d.(readQ := Without(d.readQ, FirstSmall(d.readQ)), readCredit := Less(rc), writeCredit := wc,
         inFlight := d.inFlight + 1)
    else
      d.(writeQ := Without(d.writeQ, FirstSmall(d.writeQ)), readCredit := rc, writeCredit := Less(wc),
         inFlight := d.inFlight + 1)
  }

  // ----- Completions and release -----

  function OfFile(q: seq<IoCompletion>, f: nat): seq<IoCompletion> {
    if q == [] then []
    else OfFile(q[..|q|-1], f) + if q[|q|-1].fileId == f then [q[|q|-1]] else []
  }

  function NotOfFile(q: seq<IoCompletion>, f: nat): seq<IoCompletion> {
    if q == [] then []
    else NotOfFile(q[..|q|-1], f) + if q[|q|-1].fileId == f then [] else [q[|q|-1]]
  }

  lemma OfFilePush(q: seq<IoCompletion>, c: IoCompletion, f: nat)
    ensures OfFile(q + [c], f) == if c.fileId == f then OfFile(q, f) + [c] else OfFile(q, f)
    ensures NotOfFile(q + [c], f) == if c.fileId == f then NotOfFile(q, f) else NotOfFile(q, f) + [c]
  {
    assert (q + [c])[..|q|] == q;
  }

  /** A completion list splits into one file's completions and the rest. */
  lemma {:induction false} FileSplit(q: seq<IoCompletion>, f: nat)
    ensures multiset(q) == multiset(OfFile(q, f)) + multiset(NotOfFile(q, f))
  {
    if q != [] {
      var n := |q| - 1;
      FileSplit(q[..n], f);
      assert q == q[..n] + [q[n]];
      OfFilePush(q[..n], q[n], f);
      hide OfFile, NotOfFile;
    }
  }

  lemma {:induction false} OnlyThatFile(q: seq<IoCompletion>, f: nat)
    ensures forall c :: c in OfFile(q, f) ==> c.fileId == f
  {
    if q != [] {
      OnlyThatFile(q[..|q|-1], f);
    }
  }

  /** Removing one file's completions removes all of them and leaves every other file's as they are. */
  lemma {:induction false} FilesApart(q: seq<IoCompletion>, f: nat, g: nat)
    ensures OfFile(NotOfFile(q, f), g) == if f == g then [] else OfFile(q, g)
  {
    if q != [] {
      var n := |q| - 1;
      FilesApart(q[..n], f, g);
      assert q == q[..n] + [q[n]];
      OfFilePush(q[..n], q[n], f);
      OfFilePush(q[..n], q[n], g);
      OfFilePush(NotOfFile(q[..n], f), q[n], g);
      hide OfFile, NotOfFile;
    }
  }

  function Decremented(o: map<nat, nat>, f: nat): map<nat, nat> {
    if f !in o then o else if o[f] <= 1 then o - {f} else o[f := o[f] - 1]
  }

  function Released(d: Driver, f: nat): Driver {
    d.(completions := NotOfFile(d.completions, f))
  }

  /** Push first, then settle: the last outstanding completion of a file runs its deferred release. */
  function Enqueued(d: Driver, c: IoCompletion): Driver {
    var f := c.fileId;
    var e := d.(completions := d.completions + [c], outstanding := Decremented(d.outstanding, f));
    if f !in e.outstanding && f in e.pendingRelease then Released(e.(pendingRelease := e.pendingRelease - {f}), f)
    else e
  }

  /** The first step of releaseFile: release at once, or register for the last delivery. */
  predicate ReleasesNow(d: Driver, f: nat) {
    f !in d.outstanding
  }

  function ReleaseDecided(d: Driver, f: nat): Driver {
    if ReleasesNow(d, f) then d else d.(pendingRelease := d.pendingRelease + {f})
  }

  function DrainedAll(d: Driver): Driver {
    d.(completions := [])
  }

  function DrainedFile(d: Driver, f: nat): Driver {
    d.(completions := NotOfFile(d.completions, f))
  }

  function CancelRequested(d: Driver): Driver {
    d.(cancelled := true, readQ := [], writeQ := [])
  }

  // ----- Fairness -----

  /** Credits never exceed the weights. */
  ghost predicate CreditsBounded(cfg: Config, d: Driver) {
    d.readCredit <= Weight(cfg.readWeight) && d.writeCredit <= Weight(cfg.writeWeight)
  }

  /** A stretch of picks, both queues nonempty at each; between two picks the queues may change in any
      way, the credits do not. */
  ghost predicate ContendedStretch(cfg: Config, ds: seq<Driver>) {
    && (forall i :: 0 <= i < |ds| ==> CanPick(cfg, ds[i]) && Contended(ds[i]))
    && (forall i :: 0 <= i < |ds| - 1 ==> KeepsCredits(cfg, ds[i], ds[i + 1]))
  }

  ghost predicate KeepsCredits(cfg: Config, d: Driver, next: Driver) {
    && CanPick(cfg, d)
    && next.readCredit == AfterPick(cfg, d).readCredit && next.writeCredit == AfterPick(cfg, d).writeCredit
  }

  lemma RestOfStretch(cfg: Config, ds: seq<Driver>)
    requires ContendedStretch(cfg, ds) && |ds| > 1
    ensures KeepsCredits(cfg, ds[0], ds[1]) && ContendedStretch(cfg, ds[1..])
  {
    var r := ds[1..];
    assert KeepsCredits(cfg, ds[0], ds[0 + 1]);
    forall i | 0 <= i < |r| - 1 ensures KeepsCredits(cfg, r[i], r[i + 1]) {
      assert KeepsCredits(cfg, ds[i + 1], ds[i + 1 + 1]);
    }
  }

  /** How many more reads can follow in a row. */
  ghost function ReadsLeft(cfg: Config, d: Driver): nat {
    if d.readCredit == 0 && d.writeCredit == 0 then Weight(cfg.readWeight)
    else if d.writeCredit == 0 then d.readCredit + Weight(cfg.readWeight)
    else d.readCredit
  }

  ghost function WritesLeft(cfg: Config, d: Driver): nat {
    if d.readCredit > 0 then 0 else d.writeCredit
  }

  lemma {:induction false} ReadRun(cfg: Config, ds: seq<Driver>)
    requires ContendedStretch(cfg, ds) && ds != [] && CreditsBounded(cfg, ds[0])
    requires forall i :: 0 <= i < |ds| ==> PicksRead(cfg, ds[i])
    ensures |ds| <= ReadsLeft(cfg, ds[0])
  {
    if |ds| > 1 {
      RestOfStretch(cfg, ds);
      ReadRun(cfg, ds[1..]);
    }
  }

  lemma {:induction false} WriteRun(cfg: Config, ds: seq<Driver>)
    requires ContendedStretch(cfg, ds) && ds != [] && CreditsBounded(cfg, ds[0])
    requires forall i :: 0 <= i < |ds| ==> !PicksRead(cfg, ds[i])
    ensures |ds| <= WritesLeft(cfg, ds[0])
  {
    if |ds| > 1 {
      RestOfStretch(cfg, ds);
      WriteRun(cfg, ds[1..]);
    }
  }

  /** Under contention at most 2*readWeight reads or writeWeight writes run in a row. */
  lemma FairRuns(cfg: Config, ds: seq<Driver>, isRead: bool)
    requires ContendedStretch(cfg, ds) && ds != [] && CreditsBounded(cfg, ds[0])
    requires forall i :: 0 <= i < |ds| ==> PicksRead(cfg, ds[i]) == isRead
    ensures |ds| <= if isRead then 2 * Weight(cfg.readWeight) else Weight(cfg.writeWeight)
  {
    if isRead {
      ReadRun(cfg, ds);
    } else {
      WriteRun(cfg, ds);
    }
  }

  /** With credits left, they are used up: first those for reads, then those for writes. */
  lemma {:induction false} CreditsUsed(cfg: Config, ds: seq<Driver>, i: nat)
    requires ContendedStretch(cfg, ds) && ds != [] && ds[0].readCredit + ds[0].writeCredit > 0
    requires i <= ds[0].readCredit + ds[0].writeCredit && i < |ds|
    ensures i < ds[0].readCredit + ds[0].writeCredit ==> (PicksRead(cfg, ds[i]) <==> i < ds[0].readCredit)
    ensures i == ds[0].readCredit + ds[0].writeCredit ==> ds[i].readCredit == 0 == ds[i].writeCredit
    decreases i
  {
    if i > 0 {
      RestOfStretch(cfg, ds);
      if ds[1].readCredit + ds[1].writeCredit > 0 {
        CreditsUsed(cfg, ds[1..], i - 1);
      }
    }
  }

  /** While both queues have operations, the picks come in rounds of as many reads as the read weight says and then
      as many writes as the write weight says, a weight of zero counting as one. */
  lemma {:induction false} RoundIsWeighted(cfg: Config, ds: seq<Driver>, i: nat)
    requires ContendedStretch(cfg, ds) && ds != [] && ds[0].readCredit == 0 == ds[0].writeCredit && i < |ds|
    ensures var r := if cfg.readWeight == 0 then 1 else cfg.readWeight;
            var w := if cfg.writeWeight == 0 then 1 else cfg.writeWeight;
            && (i < r + w ==> (PicksRead(cfg, ds[i]) <==> i < r))
            && (i == r + w ==> ds[i].readCredit == 0 == ds[i].writeCredit)
  {
    var r := if cfg.readWeight == 0 then 1 else cfg.readWeight;
    var w := if cfg.writeWeight == 0 then 1 else cfg.writeWeight;
    if 0 < i <= r + w {
      RestOfStretch(cfg, ds);
      CreditsUsed(cfg, ds[1..], i - 1);
    }
  }

  // ----- First in, first out, per priority -----

  function OfPrio(q: seq<IoRequest>, p: Prio): seq<IoRequest> {
    if q == [] then [] else OfPrio(q[..|q|-1], p) + if q[|q|-1].prio == p then [q[|q|-1]] else []
  }

  lemma {:induction false} OfPrioSplit(a: seq<IoRequest>, b: seq<IoRequest>, p: Prio)
    ensures OfPrio(a + b, p) == OfPrio(a, p) + OfPrio(b, p)
  {
    if b == [] {
      assert a + b == a;
    } else {
      OfPrioSplit(a, b[..|b|-1], p);
      assert (a + b)[..|a + b|-1] == a + b[..|b|-1];
    }
  }

  lemma {:induction false} NoneOfPrio(q: seq<IoRequest>, p: Prio)
    requires forall k :: 0 <= k < |q| ==> q[k].prio != p
    ensures OfPrio(q, p) == []
  {
    if q != [] {
      NoneOfPrio(q[..|q|-1], p);
    }
  }

  lemma OfPrioWithout(q: seq<IoRequest>, k: nat, p: Prio)
    requires k < |q|
    ensures OfPrio(q, p) == OfPrio(q[..k], p) + (if q[k].prio == p then [q[k]] else []) + OfPrio(q[k+1..], p)
    ensures OfPrio(Without(q, k), p) == OfPrio(q[..k], p) + OfPrio(q[k+1..], p)
  {
    assert q == q[..k] + [q[k]] + q[k+1..];
    PushIsFifo(q[..k], q[k], p);
    OfPrioSplit(q[..k] + [q[k]], q[k+1..], p);
    OfPrioSplit(q[..k], q[k+1..], p);
  }

  /** Popping takes the oldest operation of its priority, and leaves the other priority as it is;
      a large one is taken only when there is no small one. */
  lemma PopIsFifo(q: seq<IoRequest>, p: Prio)
    requires q != []
    ensures var k := FirstSmall(q);
            && (q[k].prio == p ==> OfPrio(q, p) == [q[k]] + OfPrio(Without(q, k), p))
            && (q[k].prio != p ==> OfPrio(q, p) == OfPrio(Without(q, k), p))
            && (q[k].prio.Large? ==> OfPrio(q, Small) == [])
  {
    var k := FirstSmall(q);
    OfPrioWithout(q, k, p);
    if q[k].prio == p {
      NoneOfPrio(q[..k], p);
    }
    if q[k].prio.Large? {
      NoneOfPrio(q, Small);
    }
  }

  /** Accepted requests go to the back of their priority. */
  lemma PushIsFifo(q: seq<IoRequest>, r: IoRequest, p: Prio)
    ensures OfPrio(q + [r], p) == OfPrio(q, p) + if r.prio == p then [r] else []
  {
    assert (q + [r])[..|q|] == q;
  }
}
