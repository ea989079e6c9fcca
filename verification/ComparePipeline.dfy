/**
 The compare pipeline: entries go through a dispatch buffer, a task queue, the workers' batches and a
 result queue. The shared state with one function per critical section, then the workers among
 themselves in any order.
 */
module ComparePipeline {
  import opened ComparePhase
  import opened Multiplicity

  datatype Item = Item(remote: FileEntry, local: Option<FileEntry>, outcome: Outcome)

  /** pending is a wrapping counter in the original: here an integer, below zero where that wraps. */
  datatype Shared = Shared(buffer: seq<FileEntry>, tasks: seq<FileEntry>, results: seq<Item>,
                           issued: nat, drained: nat, pending: int, stop: bool, cap: nat, active: nat)

  function Initial(): Shared {
    Shared([], [], [], 0, 0, 0, false, 0, 0)
  }

  // ----- The critical sections -----

  function Enqueued(s: Shared, e: FileEntry): Shared {
    s.(buffer := s.buffer + [e], issued := s.issued + 1)
  }

  function Flushed(s: Shared): Shared {
    s.(buffer := [], tasks := s.tasks + s.buffer)
  }

  function Drained(s: Shared): Shared {
    s.(results := [], pending := s.pending - |s.results|, drained := s.drained + |s.results|)
  }

  function InFlight(s: Shared): nat {
    if s.issued >= s.drained then s.issued - s.drained else 0
  }

  /** A worker may take tasks: there are some, and stop or a free slot under the cap. */
  predicate MayClaim(s: Shared) {
    s.tasks != [] && (s.stop || s.cap == 0 || s.active < s.cap)
  }

  function Claimed(batchPop: nat, s: Shared): (r: (Shared, seq<FileEntry>)) {
    var take := if batchPop <= |s.tasks| then batchPop else |s.tasks|;
    (s.(tasks := s.tasks[take..], active := s.active + 1), s.tasks[..take])
  }

  function Published(s: Shared, items: seq<Item>): Shared {
    s.(results := s.results + items)
  }

  function CountedIn(s: Shared, n: nat): Shared {
    s.(pending := s.pending + n)
  }

  function SlotFreed(s: Shared): Shared {
    s.(active := if s.active > 0 then s.active - 1 else 0)
  }

  // ----- The workers -----

  /** Probing holds its batch and the items made so far; Publishing has handed over n items and not
      counted them; Releasing still holds its slot. */
  datatype Worker = Waiting | Probing(batch: seq<FileEntry>, items: seq<Item>) | Publishing(n: nat) | Releasing | Exited

  /** enqueued, out and late are history: every entry given, every item drained, and whether entries
      were flushed after the last worker had left. */
  datatype State = State(sh: Shared, workers: seq<Worker>, enqueued: seq<FileEntry>, out: seq<Item>, late: bool)

  datatype Config = Config(mode: Mode, batchPop: nat, workerCount: nat)

  datatype Action =
    | Enqueue(e: FileEntry) | Flush | Drain | SetActiveCap(cap: nat) | Stop
    | Claim(w: nat) | Probe(w: nat, local: Option<FileEntry>) | Publish(w: nat) | Count(w: nat) | Release(w: nat)
    | Leave(w: nat)

  function Begin(cfg: Config): State {
    State(Initial(), seq(if cfg.workerCount == 0 then 1 else cfg.workerCount, i => Waiting), [], [], false)
  }

  predicate AllLeft(s: State) {
    forall i :: 0 <= i < |s.workers| ==> s.workers[i].Exited?
  }

  predicate Caller(a: Action) {
    a.Enqueue? || a.Flush? || a.Drain? || a.SetActiveCap? || a.Stop?
  }

  predicate Enabled(s: State, a: Action) {
    Caller(a) || (a.w < |s.workers| && Ready(s.sh, s.workers[a.w], a))
  }

  predicate Ready(sh: Shared, w: Worker, a: Action)
    requires !Caller(a)
  {
    match a
    case Claim(_) => w.Waiting? && MayClaim(sh)
    case Probe(_, _) => w.Probing? && |w.items| < |w.batch|
    case Publish(_) => w.Probing? && |w.items| >= |w.batch|
    case Count(_) => w.Publishing?
    case Release(_) => w.Releasing?
    case Leave(_) => w.Waiting? && sh.stop && sh.tasks == []
  }

  /** What a worker's step does to the shared state and to the worker. */
  function Work(cfg: Config, sh: Shared, w: Worker, a: Action): (Shared, Worker)
    requires !Caller(a) && Ready(sh, w, a)
  {
    match a
    case Claim(_) => var (s, batch) := Claimed(cfg.batchPop, sh); (s, Probing(batch, []))
    case Probe(_, local) =>
      var e := w.batch[|w.items|];
      (sh, w.(items := w.items + [Item(e, local, DecideCompare(cfg.mode, local, e))]))
    case Publish(_) => (Published(sh, w.items), Publishing(|w.items|))
    case Count(_) => (CountedIn(sh, w.n), Releasing)
    case Release(_) => (SlotFreed(sh), Waiting)
    case Leave(_) => (sh, Exited)
  }

  function Step(cfg: Config, s: State, a: Action): State
    requires Enabled(s, a)
  {
    match a
    case Enqueue(e) => s.(sh := Enqueued(s.sh, e), enqueued := s.enqueued + [e])
    case Flush => s.(sh := Flushed(s.sh), late := s.late || (AllLeft(s) && s.sh.buffer != []))
    case Drain => s.(sh := Drained(s.sh), out := s.out + s.sh.results)
    case SetActiveCap(c) => s.(sh := s.sh.(cap := c))
    case Stop => s.(sh := s.sh.(stop := true))
    case _ =>
      var (sh, y) := Work(cfg, s.sh, s.workers[a.w], a);
      s.(sh := sh, workers := s.workers[a.w := y])
  }

  // ----- The invariant -----

  function Remotes(items: seq<Item>): (r: seq<FileEntry>)
    ensures |r| == |items|
  {
    if items == [] then [] else Remotes(items[..|items|-1]) + [items[|items|-1].remote]
  }

  /** Entries a worker has claimed and not yet handed over. */
  function Holds(w: Worker): seq<FileEntry> {
    if w.Probing? then w.batch else []
  }

  function HeldOf(e: FileEntry): Worker -> nat {
    (w: Worker) => Occ(Holds(w), e)
  }

  function HeldCount(w: Worker): nat {
    |Holds(w)|
  }

  function Uncounted(w: Worker): nat {
    if w.Publishing? then w.n else 0
  }

  function Slot(w: Worker): nat {
    if w.Probing? || w.Publishing? || w.Releasing? then 1 else 0
  }

  /** Occurrences of an entry, wherever it is: buffer, tasks, batches, results, drained. */
  function Everywhere(s: State, e: FileEntry): nat {
    Occ(s.sh.buffer, e) + Occ(s.sh.tasks, e) + SumOver(HeldOf(e), s.workers) + Occ(Remotes(s.sh.results), e)
    + Occ(Remotes(s.out), e)
  }

  ghost predicate Conserved(s: State) {
    forall e: FileEntry :: Everywhere(s, e) == Occ(s.enqueued, e)
  }

  /** The counters: everything issued is somewhere; results not yet counted are with their worker; a
      slot is held by each worker at work. */
  ghost predicate Counts(s: State) {
    && s.sh.issued == |s.sh.buffer| + |s.sh.tasks| + SumOver(HeldCount, s.workers) + |s.sh.results| + s.sh.drained
    && s.sh.drained == |s.out|
    && s.sh.pending + SumOver(Uncounted, s.workers) == |s.sh.results|
    && s.sh.active == SumOver(Slot, s.workers)
  }

  predicate Judged(cfg: Config, i: Item) {
    i.outcome == DecideCompare(cfg.mode, i.local, i.remote)
  }

  ghost predicate AllJudged(cfg: Config, items: seq<Item>) {
    forall i :: 0 <= i < |items| ==> Judged(cfg, items[i])
  }

  ghost predicate WellFormed(cfg: Config, w: Worker) {
    w.Probing? ==>
      |w.items| <= |w.batch| && AllJudged(cfg, w.items) && Remotes(w.items) == w.batch[..|w.items|] && w.batch != []
  }

  ghost predicate SomeoneLeft(s: State) {
    exists i :: 0 <= i < |s.workers| && s.workers[i].Exited?
  }

  /** Workers leave only after the stop. Until the last has left nothing is late; from then on tasks are
      queued exactly if something was. */
  ghost predicate Ending(s: State) {
    && |s.workers| > 0 && (SomeoneLeft(s) ==> s.sh.stop)
    && (if AllLeft(s) then s.late <==> s.sh.tasks != [] else !s.late)
  }

  ghost predicate Inv(cfg: Config, s: State) {
    && Conserved(s) && Counts(s) && AllJudged(cfg, s.sh.results) && AllJudged(cfg, s.out)
    && (forall i :: 0 <= i < |s.workers| ==> WellFormed(cfg, s.workers[i]))
    && Ending(s)
  }

  // ----- Remotes -----

  lemma RemotesPush(items: seq<Item>, i: Item)
    ensures Remotes(items + [i]) == Remotes(items) + [i.remote]
  {
    assert (items + [i])[..|items|] == items;
  }

  lemma {:induction false} RemotesCat(a: seq<Item>, b: seq<Item>)
    ensures Remotes(a + b) == Remotes(a) + Remotes(b)
  {
    if b == [] {
      assert a + b == a;
    } else {
      RemotesCat(a, b[..|b|-1]);
      assert (a + b)[..|a + b|-1] == a + b[..|b|-1];
    }
  }

  lemma OccRemotes(a: seq<Item>, b: seq<Item>, e: FileEntry)
    ensures Occ(Remotes(a + b), e) == Occ(Remotes(a), e) + Occ(Remotes(b), e)
  {
    RemotesCat(a, b);
    OccCat(Remotes(a), Remotes(b), e);
  }

  lemma NoRemotes(e: FileEntry)
    ensures Occ(Remotes([]), e) == 0 && Occ<FileEntry>([], e) == 0
  {
  }

  // ----- The caller's steps -----

  lemma CallerKeepsPlaces(cfg: Config, s: State, a: Action, e: FileEntry)
    requires Caller(a)
    ensures var v := Step(cfg, s, a);
            Everywhere(v, e) + Occ(s.enqueued, e) == Everywhere(s, e) + Occ(v.enqueued, e)
  {
    hide Occ, Remotes, SumOver;
    NoRemotes(e);
    match a
    case Enqueue(x) =>
      OccPush(s.sh.buffer, x, e);
      OccPush(s.enqueued, x, e);
    case Flush => OccCat(s.sh.tasks, s.sh.buffer, e);
    case Drain => OccRemotes(s.out, s.sh.results, e);
    case _ =>
  }

  lemma CallerKeeps(cfg: Config, s: State, a: Action)
    requires Inv(cfg, s) && Caller(a)
    ensures Inv(cfg, Step(cfg, s, a))
  {
    hide Everywhere, SumOver, Remotes, Occ, WellFormed, Judged;
    var v := Step(cfg, s, a);
    forall e: FileEntry ensures Everywhere(v, e) == Occ(v.enqueued, e) {
      CallerKeepsPlaces(cfg, s, a, e);
    }
    assert v.workers == s.workers;
  }

  // ----- The workers' steps -----

  /** One worker's step, as far as its own entry in each sum is concerned. */
  lemma WorkPlaces(cfg: Config, sh: Shared, w: Worker, a: Action, e: FileEntry)
    requires !Caller(a) && Ready(sh, w, a) && WellFormed(cfg, w)
    ensures var (t, y) := Work(cfg, sh, w, a);
            && Occ(t.tasks, e) + Occ(Holds(y), e) + Occ(Remotes(t.results), e)
               == Occ(sh.tasks, e) + Occ(Holds(w), e) + Occ(Remotes(sh.results), e)
            && t.buffer == sh.buffer
  {
    hide Occ, Remotes, Judged;
    NoRemotes(e);
    if a.Claim? {
      var take := if cfg.batchPop <= |sh.tasks| then cfg.batchPop else |sh.tasks|;
      assert sh.tasks == sh.tasks[..take] + sh.tasks[take..];
      OccCat(sh.tasks[..take], sh.tasks[take..], e);
    } else if a.Publish? {
      OccRemotes(sh.results, w.items, e);
      assert w.batch[..|w.items|] == w.batch;
    }
  }

  lemma WorkCounts(cfg: Config, sh: Shared, w: Worker, a: Action)
    requires !Caller(a) && Ready(sh, w, a) && WellFormed(cfg, w) && (Slot(w) == 1 ==> sh.active > 0)
    ensures var (t, y) := Work(cfg, sh, w, a);
            && |t.tasks| + HeldCount(y) + |t.results| == |sh.tasks| + HeldCount(w) + |sh.results|
            && t.pending + Uncounted(y) - |t.results| == sh.pending + Uncounted(w) - |sh.results|
            && t.active - Slot(y) == sh.active - Slot(w)
            && t.issued == sh.issued && t.drained == sh.drained && t.buffer == sh.buffer
            && t.stop == sh.stop && t.cap == sh.cap && (sh.tasks == [] ==> t.tasks == [])
  {
    hide Remotes, AllJudged;
  }

  lemma WorkJudges(cfg: Config, sh: Shared, w: Worker, a: Action)
    requires !Caller(a) && Ready(sh, w, a) && WellFormed(cfg, w) && AllJudged(cfg, sh.results) && cfg.batchPop > 0
    ensures var (t, y) := Work(cfg, sh, w, a); WellFormed(cfg, y) && AllJudged(cfg, t.results)
  {
    if a.Probe? {
      var e := w.batch[|w.items|];
      RemotesPush(w.items, Item(e, a.local, DecideCompare(cfg.mode, a.local, e)));
      assert w.batch[..|w.items| + 1] == w.batch[..|w.items|] + [e];
    }
    hide DecideCompare, Remotes;
  }

  lemma WorkerKeepsPlaces(cfg: Config, s: State, a: Action, e: FileEntry)
    requires Enabled(s, a) && !Caller(a) && WellFormed(cfg, s.workers[a.w])
    ensures Everywhere(Step(cfg, s, a), e) == Everywhere(s, e) && Step(cfg, s, a).enqueued == s.enqueued
  {
    hide Occ, Remotes, SumOver, Work, Ready, WellFormed, Holds;
    var v := Step(cfg, s, a);
    WorkPlaces(cfg, s.sh, s.workers[a.w], a, e);
    SumUpdate(HeldOf(e), s.workers, a.w, v.workers[a.w]);
  }

  lemma WorkerConserves(cfg: Config, s: State, a: Action)
    requires Conserved(s) && Enabled(s, a) && !Caller(a) && WellFormed(cfg, s.workers[a.w])
    ensures Conserved(Step(cfg, s, a))
  {
    hide Everywhere, Step, WellFormed, Occ;
    forall e: FileEntry ensures Everywhere(Step(cfg, s, a), e) == Occ(Step(cfg, s, a).enqueued, e) {
      WorkerKeepsPlaces(cfg, s, a, e);
    }
  }

  lemma WorkerKeepsCounts(cfg: Config, s: State, a: Action)
    requires Inv(cfg, s) && Enabled(s, a) && !Caller(a)
    ensures Counts(Step(cfg, s, a))
  {
    var v := Step(cfg, s, a);
    hide SumOver, Work, Ready, WellFormed, Conserved, AllJudged, HeldCount, Uncounted, Slot;
    SumAtLeast(Slot, s.workers, a.w);
    WorkCounts(cfg, s.sh, s.workers[a.w], a);
    SumUpdate(HeldCount, s.workers, a.w, v.workers[a.w]);
    SumUpdate(Uncounted, s.workers, a.w, v.workers[a.w]);
    SumUpdate(Slot, s.workers, a.w, v.workers[a.w]);
  }

  lemma WorkerKeeps(cfg: Config, s: State, a: Action)
    requires Inv(cfg, s) && Enabled(s, a) && !Caller(a) && cfg.batchPop > 0
    ensures Inv(cfg, Step(cfg, s, a))
  {
    hide Conserved, Counts, AllJudged, WellFormed;
    WorkerConserves(cfg, s, a);
    WorkerKeepsCounts(cfg, s, a);
    WorkJudges(cfg, s.sh, s.workers[a.w], a);
    WorkerEnds(cfg, s, a);
  }

  lemma WorkerEnds(cfg: Config, s: State, a: Action)
    requires Ending(s) && Enabled(s, a) && !Caller(a)
    ensures Ending(Step(cfg, s, a))
  {
    var v := Step(cfg, s, a);
    assert !s.workers[a.w].Exited?;
    if SomeoneLeft(v) && !a.Leave? {
      var i :| 0 <= i < |v.workers| && v.workers[i].Exited?;
      assert s.workers[i].Exited? && SomeoneLeft(s);
    }
    if !a.Leave? {
      assert !v.workers[a.w].Exited?;
    }
  }

  lemma StepKeeps(cfg: Config, s: State, a: Action)
    requires Inv(cfg, s) && Enabled(s, a) && cfg.batchPop > 0
    ensures Inv(cfg, Step(cfg, s, a))
  {
    hide Inv, Step;
    if Caller(a) {
      CallerKeeps(cfg, s, a);
    } else {
      WorkerKeeps(cfg, s, a);
    }
  }

  // ----- Progress -----

  function Potential(w: Worker): nat {
    match w
    case Waiting => 1
    case Probing(batch, items) => 5 * |batch| + 3 - (if |items| <= |batch| then |items| else |batch|)
    case Publishing(_) => 3
    case Releasing => 2
    case Exited => 0
  }

  /** The work the workers have left: each of their steps lowers it, and only Flush adds to it. */
  function WorkLeft(s: State): nat {
    8 * |s.sh.tasks| + SumOver(Potential, s.workers)
  }

  lemma StepWorks(cfg: Config, s: State, a: Action)
    requires Inv(cfg, s) && Enabled(s, a) && cfg.batchPop > 0
    ensures !Caller(a) ==> WorkLeft(Step(cfg, s, a)) < WorkLeft(s)
    ensures Caller(a) ==> WorkLeft(Step(cfg, s, a)) == WorkLeft(s) + if a.Flush? then 8 * |s.sh.buffer| else 0
  {
    hide Conserved, Counts, Judged, Remotes, Occ;
    if !Caller(a) {
      SumUpdate(Potential, s.workers, a.w, Step(cfg, s, a).workers[a.w]);
    }
  }

  /** With a task queued, or after the stop, some worker can step until all have left. */
  lemma SomeoneCanStep(cfg: Config, s: State)
    requires Inv(cfg, s) && (s.sh.tasks != [] || s.sh.stop) && exists i :: 0 <= i < |s.workers| && !s.workers[i].Exited?
    ensures exists a: Action :: !Caller(a) && Enabled(s, a)
  {
    hide Conserved, AllJudged;
    if j :| 0 <= j < |s.workers| && (s.workers[j].Probing? || s.workers[j].Publishing? || s.workers[j].Releasing?) {
      var w := s.workers[j];
      var a := if w.Publishing? then Count(j) else if w.Releasing? then Release(j)
               else if |w.items| < |w.batch| then Probe(j, None) else Publish(j);
      assert Enabled(s, a);
    } else {
      SumZero(Slot, s.workers);
      var i :| 0 <= i < |s.workers| && !s.workers[i].Exited?;
      assert Enabled(s, if s.sh.tasks != [] then Claim(i) else Leave(i));
    }
  }

  // ----- Every run -----

  ghost predicate IsRun(cfg: Config, ss: seq<State>, acts: seq<Action>) {
    && |ss| == |acts| + 1 && ss[0] == Begin(cfg)
    && forall i :: 0 <= i < |acts| ==> Enabled(ss[i], acts[i]) && Step(cfg, ss[i], acts[i]) == ss[i + 1]
  }

  lemma BeginInv(cfg: Config)
    ensures Inv(cfg, Begin(cfg))
  {
    var s := Begin(cfg);
    SumZero(HeldCount, s.workers);
    SumZero(Uncounted, s.workers);
    SumZero(Slot, s.workers);
    forall e: FileEntry ensures Everywhere(s, e) == Occ(s.enqueued, e) {
      NoRemotes(e);
      SumZero(HeldOf(e), s.workers);
    }
  }

  lemma {:induction false} RunKeeps(cfg: Config, ss: seq<State>, acts: seq<Action>, i: nat)
    requires IsRun(cfg, ss, acts) && cfg.batchPop > 0 && i < |ss|
    ensures Inv(cfg, ss[i])
  {
    if i == 0 {
      BeginInv(cfg);
    } else {
      RunKeeps(cfg, ss, acts, i - 1);
      hide Inv, Step, Enabled;
      var k := i - 1;
      assert Step(cfg, ss[k], acts[k]) == ss[k + 1];
      StepKeeps(cfg, ss[k], acts[k]);
    }
  }

  /** Each entry given is in exactly one place, and InFlight counts those not yet drained. */
  lemma EachEntryInOnePlace(cfg: Config, ss: seq<State>, acts: seq<Action>, i: nat, e: FileEntry)
    requires IsRun(cfg, ss, acts) && cfg.batchPop > 0 && i < |ss|
    ensures Everywhere(ss[i], e) == Occ(ss[i].enqueued, e)
    ensures var sh := ss[i].sh;
            InFlight(sh) == |sh.buffer| + |sh.tasks| + SumOver(HeldCount, ss[i].workers) + |sh.results|
  {
    RunKeeps(cfg, ss, acts, i);
  }

  /** Each item drained carries the decision on its own probe; the verdict is the sequential one. */
  lemma DrainedAreJudged(cfg: Config, ss: seq<State>, acts: seq<Action>, i: nat, k: nat)
    requires IsRun(cfg, ss, acts) && cfg.batchPop > 0 && i < |ss| && k < |ss[i].out|
    ensures ss[i].out[k].outcome == DecideCompare(cfg.mode, ss[i].out[k].local, ss[i].out[k].remote)
  {
    RunKeeps(cfg, ss, acts, i);
    assert Judged(cfg, ss[i].out[k]);
  }

  /** The lock-free result count is exact whenever no worker is between handing over and counting. */
  lemma PendingIsExact(cfg: Config, ss: seq<State>, acts: seq<Action>, i: nat)
    requires IsRun(cfg, ss, acts) && cfg.batchPop > 0 && i < |ss|
    requires forall k :: 0 <= k < |ss[i].workers| ==> !ss[i].workers[k].Publishing?
    ensures ss[i].sh.pending == |ss[i].sh.results|
  {
    RunKeeps(cfg, ss, acts, i);
    SumZero(Uncounted, ss[i].workers);
  }

  /** A claim before the stop leaves no more workers at work than the cap. */
  lemma CapIsKept(cfg: Config, ss: seq<State>, acts: seq<Action>, i: nat)
    requires IsRun(cfg, ss, acts) && cfg.batchPop > 0 && i < |acts|
    requires acts[i].Claim? && !ss[i].sh.stop && ss[i].sh.cap > 0
    ensures SumOver(Slot, ss[i + 1].workers) <= ss[i + 1].sh.cap
  {
    RunKeeps(cfg, ss, acts, i);
    RunKeeps(cfg, ss, acts, i + 1);
    var k := i;
    assert Step(cfg, ss[k], acts[k]) == ss[k + 1] && Enabled(ss[k], acts[k]);
    hide Conserved, AllJudged, WellFormed;
  }

  /** Once every worker has left, the entries that were flushed are all in the results or drained if and
      only if nothing was flushed after the last of them left. */
  lemma StopDrainsIff(cfg: Config, ss: seq<State>, acts: seq<Action>, i: nat)
    requires IsRun(cfg, ss, acts) && cfg.batchPop > 0 && i < |ss| && AllLeft(ss[i])
    ensures AllHandedOver(ss[i]) <==> !ss[i].late
  {
    hide Everywhere, Occ, Remotes, SumOver, IsRun;
    RunKeeps(cfg, ss, acts, i);
    var s := ss[i];
    forall e: FileEntry ensures HandedOver(s, e) <==> Occ(s.sh.tasks, e) == 0 {
      assert Everywhere(s, e) == Occ(s.enqueued, e);
      LeftPlaces(s, e);
    }
    if s.sh.tasks == [] {
      NoTasks(s);
    } else {
      FirstTask(s);
      assert !HandedOver(s, s.sh.tasks[0]);
    }
  }

  /** Every occurrence of an entry is still in the dispatch buffer, or in the results, or drained. */
  ghost predicate HandedOver(s: State, e: FileEntry) {
    Occ(s.enqueued, e) == Occ(s.sh.buffer, e) + Occ(Remotes(s.sh.results), e) + Occ(Remotes(s.out), e)
  }

  ghost predicate AllHandedOver(s: State) {
    forall e: FileEntry :: HandedOver(s, e)
  }

  lemma LeftPlaces(s: State, e: FileEntry)
    requires AllLeft(s)
    ensures Everywhere(s, e)
            == Occ(s.sh.buffer, e) + Occ(s.sh.tasks, e) + Occ(Remotes(s.sh.results), e) + Occ(Remotes(s.out), e)
  {
    NoRemotes(e);
    SumZero(HeldOf(e), s.workers);
  }

  lemma NoTasks(s: State)
    requires s.sh.tasks == []
    ensures forall e: FileEntry :: Occ(s.sh.tasks, e) == 0
  {
  }

  lemma FirstTask(s: State)
    requires s.sh.tasks != []
    ensures Occ(s.sh.tasks, s.sh.tasks[0]) > 0
  {
  }

  /** What is flushed after the last worker left is queued in every later state. */
  lemma {:induction false} LateStaysQueued(cfg: Config, ss: seq<State>, acts: seq<Action>, i: nat, j: nat)
    requires IsRun(cfg, ss, acts) && i < j < |ss| && AllLeft(ss[i])
    ensures AllLeft(ss[j]) && ss[i].sh.tasks <= ss[j].sh.tasks
    ensures acts[i].Flush? ==> ss[i].sh.tasks + ss[i].sh.buffer <= ss[j].sh.tasks
  {
    var k := j - 1;
    assert Enabled(ss[k], acts[k]) && Step(cfg, ss[k], acts[k]) == ss[k + 1];
    if i < k {
      LateStaysQueued(cfg, ss, acts, i, k);
    }
    NobodyTakes(cfg, ss[k], acts[k]);
  }

  lemma NobodyTakes(cfg: Config, s: State, a: Action)
    requires AllLeft(s) && Enabled(s, a)
    ensures Caller(a) && Step(cfg, s, a).workers == s.workers
    ensures Step(cfg, s, a).sh.tasks == if a.Flush? then s.sh.tasks + s.sh.buffer else s.sh.tasks
  {
  }

  /** Such a run, with one worker. */
  lemma LateFlushIsStuck(e: FileEntry)
    ensures exists ss: seq<State>, acts: seq<Action> :: IsRun(Config(Fast, 32, 1), ss, acts) && Stuck(ss[|ss| - 1], e)
  {
    var cfg := Config(Fast, 32, 1);
    var acts := [Stop, Leave(0), Enqueue(e), Flush];
    var s0 := Begin(cfg);
    assert s0.workers == [Waiting];
    var s1 := Step(cfg, s0, Stop);
    var s2 := Step(cfg, s1, Leave(0));
    assert s2.workers == [Exited];
    var s3 := Step(cfg, s2, Enqueue(e));
    var s4 := Step(cfg, s3, Flush);
    var ss := [s0, s1, s2, s3, s4];
    assert IsRun(cfg, ss, acts) && Stuck(ss[|ss| - 1], e);
  }

  ghost predicate Stuck(s: State, e: FileEntry) {
    s.late && s.sh.tasks == [e] && forall a: Action :: Enabled(s, a) ==> Caller(a)
  }

  // ----- The program -----

  /** The pipeline's fields; each method is one critical section and does what its function says. */
  class Pipeline {
    var buffer: seq<FileEntry>
    var tasks: seq<FileEntry>
    var results: seq<Item>
    var issued: nat
    var drained: nat
    var pending: int
    var stop: bool
    var cap: nat
    var active: nat

    ghost function State(): Shared
      reads this
    {
      Shared(buffer, tasks, results, issued, drained, pending, stop, cap, active)
    }

    constructor ()
      ensures State() == Initial()
    {
      buffer, tasks, results := [], [], [];
      issued, drained, pending, stop, cap, active := 0, 0, 0, false, 0, 0;
    }

    method Enqueue(e: FileEntry)
      modifies this`buffer, this`issued
      ensures State() == Enqueued(old(State()), e)
    {
      buffer := buffer + [e];
      issued := issued + 1;
    }

    method Flush()
      modifies this`buffer, this`tasks
      ensures State() == Flushed(old(State()))
    {
      if buffer == [] {
        return;
      }
      var i := 0;
      while i < |buffer|
        invariant 0 <= i <= |buffer| && buffer == old(buffer) && tasks == old(tasks) + buffer[..i]
      {
        tasks := tasks + [buffer[i]];
        i := i + 1;
      }
      buffer := [];
    }

    /** Moves the ready results to the end of out. */
    method Drain(out: seq<Item>) returns (all: seq<Item>, n: nat)
      modifies this`results, this`pending, this`drained
      ensures State() == Drained(old(State())) && all == out + old(results) && n == |old(results)|
    {
      var ready := results;
      results := [];
      n := |ready|;
      all := out;
      if n == 0 {
        return;
      }
      pending := pending - n;
      drained := drained + n;
      var i := 0;
      while i < n
        invariant 0 <= i <= n && all == out + ready[..i]
      {
        all := all + [ready[i]];
        i := i + 1;
      }
    }

    /** The worker's claim, taken when the wait is over and there is something to take. */
    method Claim(batchPop: nat) returns (batch: seq<FileEntry>)
      requires MayClaim(State())
      modifies this`tasks, this`active
      ensures (State(), batch) == Claimed(batchPop, old(State()))
      ensures |batch| == (if batchPop <= |old(tasks)| then batchPop else |old(tasks)|)
      ensures batch + tasks == old(tasks) && active == old(active) + 1
    {
      active := active + 1;
      var take := if batchPop <= |tasks| then batchPop else |tasks|;
      batch := [];
      var i := 0;
      while i < take
        invariant 0 <= i <= take && tasks == old(tasks)[i..] && batch == old(tasks)[..i] && active == old(active) + 1
      {
        batch := batch + [tasks[0]];
        tasks := tasks[1..];
        i := i + 1;
      }
    }

    /** Outside any lock: every entry of the batch is probed and judged. A probe that throws counts as
        nothing found, so the probe is any function to an optional entry. */
    method ProbeBatch(mode: Mode, batch: seq<FileEntry>, probe: FileEntry -> Option<FileEntry>)
      returns (items: seq<Item>)
      ensures Remotes(items) == batch && AllJudged(Config(mode, 0, 0), items)
      ensures forall i :: 0 <= i < |items| ==> items[i].local == probe(items[i].remote)
    {
      items := [];
      var i := 0;
      while i < |batch|
        invariant 0 <= i <= |batch| && Remotes(items) == batch[..i] && AllJudged(Config(mode, 0, 0), items)
        invariant forall k :: 0 <= k < |items| ==> items[k].local == probe(items[k].remote)
      {
        var local := probe(batch[i]);
        var item := Item(batch[i], local, DecideCompare(mode, local, batch[i]));
        RemotesPush(items, item);
        items := items + [item];
        i := i + 1;
      }
    }

    method Publish(items: seq<Item>)
      modifies this`results
      ensures State() == Published(old(State()), items)
    {
      var i := 0;
      while i < |items|
        invariant 0 <= i <= |items| && results == old(results) + items[..i]
      {
        results := results + [items[i]];
        i := i + 1;
      }
    }

    method CountIn(n: nat)
      modifies this`pending
      ensures State() == CountedIn(old(State()), n)
    {
      pending := pending + n;
    }

    method FreeSlot()
      requires active > 0
      modifies this`active
      ensures State() == SlotFreed(old(State()))
    {
      active := active - 1;
    }

    /** One turn of a worker with no other thread in between: a batch of tasks becomes as many judged
        results, in order, and the slot is free again. */
    method WorkerTurn(mode: Mode, batchPop: nat, probe: FileEntry -> Option<FileEntry>) returns (items: seq<Item>)
      requires MayClaim(State())
      modifies this
      ensures AllJudged(Config(mode, 0, 0), items)
      ensures Remotes(items) == Claimed(batchPop, old(State())).1
      ensures State() == CountedIn(Published(Claimed(batchPop, old(State())).0, items), |items|).(active := old(active))
    {
      var batch := Claim(batchPop);
      items := ProbeBatch(mode, batch, probe);
      Publish(items);
      CountIn(|items|);
      FreeSlot();
    }
  }
}
