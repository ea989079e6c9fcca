/**
 The parallel directory walk: workers share a queue of directories and a count of the directories in
 hand, and leave when both are empty.
 */
module DirWalk {
  import opened Multiplicity

  datatype Dir = Dir(name: nat, subdirs: seq<Dir>)

  // ----- Trees -----

  /** The sequential walk: a directory, then its subtrees. */
  function Walk(d: Dir): seq<Dir>
    decreases d
  {
    [d] + WalkAll(d.subdirs)
  }

  function WalkAll(ds: seq<Dir>): seq<Dir>
    decreases ds
  {
    if ds == [] then [] else WalkAll(ds[..|ds|-1]) + Walk(ds[|ds|-1])
  }

  lemma {:induction false} WalkSplit(a: seq<Dir>, b: seq<Dir>)
    ensures WalkAll(a + b) == WalkAll(a) + WalkAll(b)
  {
    hide Walk;
    if b == [] {
      assert a + b == a;
    } else {
      WalkSplit(a, b[..|b|-1]);
      assert (a + b)[..|a + b|-1] == a + b[..|b|-1];
    }
  }

  lemma WalkOne(d: Dir)
    ensures WalkAll([d]) == Walk(d)
  {
    assert [d][..0] == [];
  }

  /** Directories as a worker takes them, from the back of the queue. */
  function Backwards(ds: seq<Dir>): (r: seq<Dir>)
    ensures |r| == |ds|
  {
    if ds == [] then [] else [ds[|ds|-1]] + Backwards(ds[..|ds|-1])
  }

  lemma {:induction false} BackwardsAt(ds: seq<Dir>, k: nat)
    requires k < |ds|
    ensures Backwards(ds)[k] == ds[|ds| - 1 - k]
  {
    if k > 0 {
      BackwardsAt(ds[..|ds|-1], k - 1);
    }
  }

  /** How often directory x is in the subtrees of ds. */
  function InTrees(ds: seq<Dir>, x: Dir): nat {
    Occ(WalkAll(ds), x)
  }

  lemma InTreesSplit(a: seq<Dir>, b: seq<Dir>, x: Dir)
    ensures InTrees(a + b, x) == InTrees(a, x) + InTrees(b, x)
    ensures |WalkAll(a + b)| == |WalkAll(a)| + |WalkAll(b)|
  {
    WalkSplit(a, b);
    OccCat(WalkAll(a), WalkAll(b), x);
  }

  lemma InTreesOne(d: Dir, x: Dir)
    ensures InTrees([d], x) == InTrees(d.subdirs, x) + if x == d then 1 else 0
    ensures |WalkAll([d])| == |WalkAll(d.subdirs)| + 1
  {
    WalkOne(d);
    OccCat([d], WalkAll(d.subdirs), x);
    OccOne(d, x);
  }

  lemma BackwardsStep(ds: seq<Dir>, y: Dir, x: Dir)
    requires InTrees(Backwards(ds), x) == InTrees(ds, x) && |WalkAll(Backwards(ds))| == |WalkAll(ds)|
    ensures InTrees([y] + Backwards(ds), x) == InTrees(ds + [y], x)
            && |WalkAll([y] + Backwards(ds))| == |WalkAll(ds + [y])|
  {
    hide InTrees, WalkAll, Backwards;
    InTreesSplit([y], Backwards(ds), x);
    InTreesSplit(ds, [y], x);
  }

  lemma {:induction false} InTreesBackwards(ds: seq<Dir>, x: Dir)
    ensures InTrees(Backwards(ds), x) == InTrees(ds, x) && |WalkAll(Backwards(ds))| == |WalkAll(ds)|
  {
    hide InTrees, WalkAll;
    if ds == [] {
      assert Backwards(ds) == ds;
    } else {
      var n := |ds| - 1;
      InTreesBackwards(ds[..n], x);
      BackwardsStep(ds[..n], ds[n], x);
      assert ds == ds[..n] + [ds[n]];
    }
  }

  // ----- The walk -----

  datatype Worker = Idle | Busy(batch: seq<Dir>, at: nat, subdirs: seq<Dir>, threw: bool) | Exited

  /** queue, activeDirs, done and workers are the program's; processed and abandoned are history:
      the directories processed, and the roots of the subtrees given up when a callback threw. */
  datatype State = State(queue: seq<Dir>, activeDirs: nat, done: bool, workers: seq<Worker>, firstError: bool,
                         processed: seq<Dir>, abandoned: seq<Dir>)

  datatype Action = Claim(w: nat) | ProcessNext(w: nat) | Throw(w: nat) | GiveBack(w: nat) | Leave(w: nat) | SetDone

  function Begin(root: Dir, numWorkers: nat): State {
    State([root], 0, false, seq(numWorkers, i => Idle), false, [], [])
  }

  ghost predicate Enabled(s: State, a: Action) {
    match a
    case SetDone => !s.done
    case Claim(w) => w < |s.workers| && s.workers[w].Idle? && !s.done && s.queue != []
    case Leave(w) => w < |s.workers| && s.workers[w].Idle? && (s.done || (s.queue == [] && s.activeDirs == 0))
    case GiveBack(w) => w < |s.workers| && s.workers[w].Busy?
      && (s.workers[w].threw || s.workers[w].at >= |s.workers[w].batch|)
    case ProcessNext(w) => InBatch(s, w)
    case Throw(w) => InBatch(s, w)
  }

  predicate InBatch(s: State, w: nat) {
    w < |s.workers| && s.workers[w].Busy? && !s.workers[w].threw && s.workers[w].at < |s.workers[w].batch|
  }

  function Take(popBatch: nat, queue: seq<Dir>): nat {
    if popBatch <= |queue| then popBatch else |queue|
  }

  function Step(popBatch: nat, s: State, a: Action): State
    requires Enabled(s, a)
  {
    match a
    case SetDone => s.(done := true)
    case Claim(w) =>
      var k := |s.queue| - Take(popBatch, s.queue);
      s.(queue := s.queue[..k], activeDirs := s.activeDirs + |s.queue| - k,
         workers := s.workers[w := Busy(Backwards(s.queue[k..]), 0, [], false)])
    case ProcessNext(w) =>
      var b := s.workers[w];
      s.(workers := s.workers[w := Advanced(b)], processed := s.processed + [b.batch[b.at]])
    case Throw(w) =>
      var b := s.workers[w];
      s.(workers := s.workers[w := b.(threw := true)], firstError := true,
         abandoned := s.abandoned + b.subdirs + b.batch[b.at..])
    case GiveBack(w) =>
      var b := s.workers[w];
      s.(queue := if b.threw then s.queue else s.queue + b.subdirs,
         activeDirs := if |b.batch| <= s.activeDirs then s.activeDirs - |b.batch| else 0,
         workers := s.workers[w := Idle])
    case Leave(w) => s.(workers := s.workers[w := Exited])
  }

  // ----- The invariant -----

  function Load(w: Worker): nat {
    if w.Busy? then |w.batch| else 0
  }

  /** The subtrees a worker still answers for. */
  function Rest(w: Worker): seq<Dir> {
    if w.Busy? && !w.threw && w.at <= |w.batch| then w.subdirs + w.batch[w.at..] else []
  }

  ghost predicate WellFormed(w: Worker) {
    w.Busy? ==> w.batch != [] && w.at <= |w.batch|
  }

  function RestOf(x: Dir): Worker -> nat {
    (w: Worker) => InTrees(Rest(w), x)
  }

  /** Occurrences of x, wherever they are. */
  function Everywhere(s: State, x: Dir): nat {
    Occ(s.processed, x) + InTrees(s.queue, x) + SumOver(RestOf(x), s.workers) + InTrees(s.abandoned, x)
  }

  /** Every directory of the tree is processed, or in a subtree that is queued, in hand or given up. */
  ghost predicate Conserved(root: Dir, s: State) {
    forall x: Dir :: Everywhere(s, x) == Occ(Walk(root), x)
  }

  ghost predicate Over(s: State) {
    s.queue == [] && s.activeDirs == 0
  }

  ghost predicate Inv(root: Dir, s: State) {
    && (forall i :: 0 <= i < |s.workers| ==> WellFormed(s.workers[i]))
    && s.activeDirs == SumOver(Load, s.workers)
    && Conserved(root, s)
    && (SomeoneLeft(s) ==> s.done || Over(s))
    && (s.firstError || s.abandoned == [])
  }

  // ----- Every step keeps the invariant -----

  lemma SwapRest(s: State, v: State, w: nat, y: Worker, x: Dir)
    requires w < |s.workers| && v.workers == s.workers[w := y]
    ensures SumOver(RestOf(x), v.workers) + InTrees(Rest(s.workers[w]), x)
            == SumOver(RestOf(x), s.workers) + InTrees(Rest(y), x)
  {
    SumUpdate(RestOf(x), s.workers, w, y);
  }

  lemma NoTrees(x: Dir)
    ensures InTrees([], x) == 0 && WalkAll([]) == []
  {
  }

  lemma FreshBatch(batch: seq<Dir>)
    ensures Rest(Busy(batch, 0, [], false)) == batch
  {
  }

  lemma ClaimKeepsTrees(popBatch: nat, s: State, w: nat, x: Dir)
    requires Enabled(s, Claim(w))
    ensures Everywhere(Step(popBatch, s, Claim(w)), x) == Everywhere(s, x)
  {
    hide WalkAll, InTrees, Occ, Backwards;
    var v := Step(popBatch, s, Claim(w));
    var k := |s.queue| - Take(popBatch, s.queue);
    var back := Backwards(s.queue[k..]);
    assert s.queue == s.queue[..k] + s.queue[k..];
    SwapRest(s, v, w, v.workers[w], x);
    InTreesSplit(s.queue[..k], s.queue[k..], x);
    InTreesBackwards(s.queue[k..], x);
    FreshBatch(back);
    NoTrees(x);
  }

  function Advanced(b: Worker): Worker
    requires b.Busy? && b.at < |b.batch|
  {
    b.(at := b.at + 1, subdirs := b.subdirs + b.batch[b.at].subdirs)
  }

  lemma RestParts(b: Worker)
    requires b.Busy? && !b.threw && b.at < |b.batch|
    ensures var d, after := b.batch[b.at], b.batch[b.at + 1..];
            Rest(b) == b.subdirs + ([d] + after) && Rest(Advanced(b)) == b.subdirs + d.subdirs + after
  {
  }

  /** Processing a directory takes exactly it out of what the worker answers for. */
  lemma AdvancedRest(b: Worker, x: Dir)
    requires b.Busy? && !b.threw && b.at < |b.batch|
    ensures InTrees(Rest(b), x) == InTrees(Rest(Advanced(b)), x) + if x == b.batch[b.at] then 1 else 0
    ensures |WalkAll(Rest(b))| == |WalkAll(Rest(Advanced(b)))| + 1
  {
    hide WalkAll, InTrees, Rest, Advanced;
    var d, after := b.batch[b.at], b.batch[b.at + 1..];
    RestParts(b);
    InTreesSplit(b.subdirs, [d] + after, x);
    InTreesSplit([d], after, x);
    InTreesOne(d, x);
    InTreesSplit(b.subdirs + d.subdirs, after, x);
    InTreesSplit(b.subdirs, d.subdirs, x);
  }

  lemma ProcessKeepsTrees(popBatch: nat, s: State, w: nat, x: Dir)
    requires Enabled(s, ProcessNext(w))
    ensures Everywhere(Step(popBatch, s, ProcessNext(w)), x) == Everywhere(s, x)
  {
    hide WalkAll, InTrees, Occ, Rest;
    var v := Step(popBatch, s, ProcessNext(w));
    var b := s.workers[w];
    SwapRest(s, v, w, Advanced(b), x);
    AdvancedRest(b, x);
    OccPush(s.processed, b.batch[b.at], x);
  }

  lemma GivenUp(abandoned: seq<Dir>, subdirs: seq<Dir>, batch: seq<Dir>, x: Dir)
    ensures InTrees(abandoned + subdirs + batch, x) == InTrees(abandoned, x) + InTrees(subdirs + batch, x)
  {
    InTreesSplit(abandoned + subdirs, batch, x);
    InTreesSplit(abandoned, subdirs, x);
    InTreesSplit(subdirs, batch, x);
    hide InTrees, WalkAll;
  }

  lemma ThrowKeepsTrees(popBatch: nat, s: State, w: nat, x: Dir)
    requires Enabled(s, Throw(w))
    ensures Everywhere(Step(popBatch, s, Throw(w)), x) == Everywhere(s, x)
  {
    hide WalkAll, InTrees, Occ;
    var v := Step(popBatch, s, Throw(w));
    var b := s.workers[w];
    SwapRest(s, v, w, v.workers[w], x);
    GivenUp(s.abandoned, b.subdirs, b.batch[b.at..], x);
    NoTrees(x);
  }

  lemma GiveBackKeepsTrees(popBatch: nat, s: State, w: nat, x: Dir)
    requires Enabled(s, GiveBack(w)) && WellFormed(s.workers[w])
    ensures Everywhere(Step(popBatch, s, GiveBack(w)), x) == Everywhere(s, x)
  {
    hide WalkAll, InTrees, Occ;
    var v := Step(popBatch, s, GiveBack(w));
    var b := s.workers[w];
    SwapRest(s, v, w, Idle, x);
    NoTrees(x);
    if !b.threw {
      assert Rest(b) == b.subdirs;
      InTreesSplit(s.queue, b.subdirs, x);
    }
  }

  lemma StepKeepsTrees(popBatch: nat, s: State, a: Action, x: Dir)
    requires Enabled(s, a) && forall i :: 0 <= i < |s.workers| ==> WellFormed(s.workers[i])
    ensures Everywhere(Step(popBatch, s, a), x) == Everywhere(s, x)
  {
    hide Everywhere, InTrees, Occ, Step;
    match a
    case Claim(w) => ClaimKeepsTrees(popBatch, s, w, x);
    case ProcessNext(w) => ProcessKeepsTrees(popBatch, s, w, x);
    case Throw(w) => ThrowKeepsTrees(popBatch, s, w, x);
    case GiveBack(w) => GiveBackKeepsTrees(popBatch, s, w, x);
    case Leave(w) => LeaveKeepsTrees(popBatch, s, a, x);
    case SetDone => LeaveKeepsTrees(popBatch, s, a, x);
  }

  lemma LeaveKeepsTrees(popBatch: nat, s: State, a: Action, x: Dir)
    requires Enabled(s, a) && (a.Leave? || a.SetDone?)
    ensures Everywhere(Step(popBatch, s, a), x) == Everywhere(s, x)
  {
    hide InTrees, Occ;
    if a.Leave? {
      SwapRest(s, Step(popBatch, s, a), a.w, Exited, x);
    }
  }

  lemma StepCounts(popBatch: nat, s: State, a: Action)
    requires popBatch > 0 && Enabled(s, a) && s.activeDirs == SumOver(Load, s.workers)
    requires forall i :: 0 <= i < |s.workers| ==> WellFormed(s.workers[i])
    ensures var v := Step(popBatch, s, a);
            v.activeDirs == SumOver(Load, v.workers) && forall i :: 0 <= i < |v.workers| ==> WellFormed(v.workers[i])
  {
    var v := Step(popBatch, s, a);
    if !a.SetDone? {
      SumUpdate(Load, s.workers, a.w, v.workers[a.w]);
      SumAtLeast(Load, s.workers, a.w);
    }
  }

  ghost predicate SomeoneLeft(s: State) {
    exists i :: 0 <= i < |s.workers| && s.workers[i].Exited?
  }

  /** Once a worker has left with done unset, the walk is over, and stays over. */
  lemma StepKeepsOver(popBatch: nat, s: State, a: Action)
    requires Enabled(s, a) && s.activeDirs == SumOver(Load, s.workers) && (SomeoneLeft(s) ==> s.done || Over(s))
    requires forall i :: 0 <= i < |s.workers| ==> WellFormed(s.workers[i])
    ensures var v := Step(popBatch, s, a); SomeoneLeft(v) ==> v.done || Over(v)
  {
    var v := Step(popBatch, s, a);
    if SomeoneLeft(v) && !v.done && !a.Leave? && !a.SetDone? {
      var i :| 0 <= i < |v.workers| && v.workers[i].Exited?;
      assert s.workers[i].Exited? && SomeoneLeft(s);
      SumAtLeast(Load, s.workers, a.w);
      hide WalkAll;
    }
  }

  lemma StepKeeps(root: Dir, popBatch: nat, s: State, a: Action)
    requires popBatch > 0 && Inv(root, s) && Enabled(s, a)
    ensures Inv(root, Step(popBatch, s, a))
  {
    var v := Step(popBatch, s, a);
    hide Everywhere, Load;
    StepCounts(popBatch, s, a);
    StepKeepsOver(popBatch, s, a);
    forall x: Dir ensures Everywhere(v, x) == Occ(Walk(root), x) {
      StepKeepsTrees(popBatch, s, a, x);
    }
  }

  // ----- Termination -----

  function Potential(w: Worker): nat {
    match w
    case Idle => 1
    case Exited => 0
    case Busy(_, at, _, threw) => if threw then 2 else 4 * |WalkAll(Rest(w))| + 2 * at
  }

  /** The work left: every step of every worker lowers it. */
  function Measure(s: State): nat {
    4 * |WalkAll(s.queue)| + SumOver(Potential, s.workers) + if s.done then 0 else 1
  }

  lemma TreesNotEmpty(ds: seq<Dir>)
    requires ds != []
    ensures |WalkAll(ds)| > 0
  {
  }

  lemma ClaimDecreases(popBatch: nat, s: State, w: nat)
    requires popBatch > 0 && Enabled(s, Claim(w))
    ensures Measure(Step(popBatch, s, Claim(w))) < Measure(s)
  {
    hide WalkAll, InTrees, Backwards;
    var v := Step(popBatch, s, Claim(w));
    var k := |s.queue| - Take(popBatch, s.queue);
    var batch := Backwards(s.queue[k..]);
    assert v.workers == s.workers[w := v.workers[w]] && v.workers[w] == Busy(batch, 0, [], false);
    SumUpdate(Potential, s.workers, w, v.workers[w]);
    assert s.queue == s.queue[..k] + s.queue[k..];
    InTreesSplit(s.queue[..k], s.queue[k..], s.queue[0]);
    InTreesBackwards(s.queue[k..], s.queue[0]);
    FreshBatch(batch);
  }

  lemma GiveBackDecreases(popBatch: nat, s: State, w: nat)
    requires Enabled(s, GiveBack(w)) && WellFormed(s.workers[w])
    ensures Measure(Step(popBatch, s, GiveBack(w))) < Measure(s)
  {
    hide WalkAll, InTrees;
    var v, b := Step(popBatch, s, GiveBack(w)), s.workers[w];
    SumUpdate(Potential, s.workers, w, Idle);
    if !b.threw {
      assert Rest(b) == b.subdirs;
      InTreesSplit(s.queue, b.subdirs, Dir(0, []));
    }
  }

  lemma WorkDecreases(popBatch: nat, s: State, a: Action)
    requires Enabled(s, a) && (a.ProcessNext? || a.Throw? || a.Leave?)
    ensures Measure(Step(popBatch, s, a)) < Measure(s)
  {
    hide WalkAll, InTrees;
    var v, w := Step(popBatch, s, a), s.workers[a.w];
    SumUpdate(Potential, s.workers, a.w, v.workers[a.w]);
    if a.ProcessNext? {
      AdvancedRest(w, w.batch[w.at]);
    } else if a.Throw? {
      TreesNotEmpty(Rest(w));
    }
  }

  lemma StepDecreases(popBatch: nat, s: State, a: Action)
    requires popBatch > 0 && Enabled(s, a) && forall i :: 0 <= i < |s.workers| ==> WellFormed(s.workers[i])
    ensures Measure(Step(popBatch, s, a)) < Measure(s)
  {
    if a.Claim? {
      ClaimDecreases(popBatch, s, a.w);
    } else if a.GiveBack? {
      GiveBackDecreases(popBatch, s, a.w);
    } else if !a.SetDone? {
      WorkDecreases(popBatch, s, a);
    }
  }

  /** Until every worker has left some worker can step: none waits forever. */
  lemma SomeoneCanStep(s: State)
    requires s.activeDirs == SumOver(Load, s.workers)
    requires exists i :: 0 <= i < |s.workers| && !s.workers[i].Exited?
    ensures exists a: Action :: Enabled(s, a) && !a.SetDone? && !a.Throw?
  {
    var i :| 0 <= i < |s.workers| && !s.workers[i].Exited?;
    if j :| 0 <= j < |s.workers| && s.workers[j].Busy? {
      assert Enabled(s, if InBatch(s, j) then ProcessNext(j) else GiveBack(j));
    } else {
      SumZero(Load, s.workers);
      assert Enabled(s, if !s.done && s.queue != [] then Claim(i) else Leave(i));
    }
  }

  // ----- Every run -----

  ghost predicate IsRun(root: Dir, numWorkers: nat, popBatch: nat, ss: seq<State>, acts: seq<Action>) {
    && |ss| == |acts| + 1 && ss[0] == Begin(root, numWorkers)
    && forall i :: 0 <= i < |acts| ==> Enabled(ss[i], acts[i]) && Step(popBatch, ss[i], acts[i]) == ss[i + 1]
  }

  lemma BeginInv(root: Dir, numWorkers: nat)
    ensures Inv(root, Begin(root, numWorkers)) && Measure(Begin(root, numWorkers)) == 4 * |Walk(root)| + numWorkers + 1
  {
    var s := Begin(root, numWorkers);
    SumZero(Load, s.workers);
    WalkOne(root);
    forall x: Dir ensures Everywhere(s, x) == Occ(Walk(root), x) {
      SumZero(RestOf(x), s.workers);
    }
    IdlePotential(numWorkers);
  }

  lemma {:induction false} IdlePotential(n: nat)
    ensures SumOver(Potential, seq(n, i => Idle)) == n
  {
    if n > 0 {
      IdlePotential(n - 1);
      assert seq(n, i => Idle)[..n-1] == seq(n - 1, i => Idle);
    }
  }

  lemma {:induction false} RunKeeps(root: Dir, numWorkers: nat, popBatch: nat, ss: seq<State>, acts: seq<Action>,
                                    i: nat)
    requires IsRun(root, numWorkers, popBatch, ss, acts) && popBatch > 0 && i < |ss|
    ensures Inv(root, ss[i]) && Measure(ss[i]) + i <= 4 * |Walk(root)| + numWorkers + 1
  {
    if i == 0 {
      BeginInv(root, numWorkers);
    } else {
      RunKeeps(root, numWorkers, popBatch, ss, acts, i - 1);
      var k := i - 1;
      assert Step(popBatch, ss[k], acts[k]) == ss[k + 1];
      StepKeeps(root, popBatch, ss[k], acts[k]);
      StepDecreases(popBatch, ss[k], acts[k]);
    }
  }

  /** Every run ends, whatever the interleaving. */
  lemma RunsAreShort(root: Dir, numWorkers: nat, popBatch: nat, ss: seq<State>, acts: seq<Action>)
    requires IsRun(root, numWorkers, popBatch, ss, acts) && popBatch > 0
    ensures |acts| <= 4 * |Walk(root)| + numWorkers + 1
  {
    RunKeeps(root, numWorkers, popBatch, ss, acts, |acts|);
  }

  /** When any worker has left, no callback having thrown and done being unset, the directories of the
      tree have been processed once each: the parallel walk is the sequential one, reordered. */
  lemma LeavingMeansComplete(root: Dir, numWorkers: nat, popBatch: nat, ss: seq<State>, acts: seq<Action>, i: nat)
    requires IsRun(root, numWorkers, popBatch, ss, acts) && popBatch > 0 && i < |ss|
    requires SomeoneLeft(ss[i]) && !ss[i].done && !ss[i].firstError
    ensures multiset(ss[i].processed) == multiset(Walk(root))
  {
    RunKeeps(root, numWorkers, popBatch, ss, acts, i);
    var s := ss[i];
    forall x: Dir ensures multiset(s.processed)[x] == multiset(Walk(root))[x] {
      assert Everywhere(s, x) == Occ(Walk(root), x);
      NothingHeld(s, x);
      NoTrees(x);
    }
  }

  /** With no directory in hand no worker answers for anything. */
  lemma NothingHeld(s: State, x: Dir)
    requires s.activeDirs == SumOver(Load, s.workers) == 0
    requires forall i :: 0 <= i < |s.workers| ==> WellFormed(s.workers[i])
    ensures SumOver(RestOf(x), s.workers) == 0
  {
    forall i | 0 <= i < |s.workers| ensures RestOf(x)(s.workers[i]) == 0 {
      SumAtLeast(Load, s.workers, i);
      NoTrees(x);
    }
    SumZero(RestOf(x), s.workers);
  }

  /** Even when callbacks throw or done is set, no directory is processed twice, and the count of
      directories in hand is exact, so it is zero again whenever no worker is busy. */
  lemma CountIsExact(root: Dir, numWorkers: nat, popBatch: nat, ss: seq<State>, acts: seq<Action>, i: nat)
    requires IsRun(root, numWorkers, popBatch, ss, acts) && popBatch > 0 && i < |ss|
    ensures ss[i].activeDirs == SumOver(Load, ss[i].workers)
    ensures multiset(ss[i].processed) <= multiset(Walk(root))
    ensures (forall k :: 0 <= k < |ss[i].workers| ==> !ss[i].workers[k].Busy?) ==> ss[i].activeDirs == 0
  {
    RunKeeps(root, numWorkers, popBatch, ss, acts, i);
    var s := ss[i];
    forall x: Dir ensures multiset(s.processed)[x] <= multiset(Walk(root))[x] {
      assert Everywhere(s, x) == Occ(Walk(root), x);
    }
    if forall k :: 0 <= k < |s.workers| ==> !s.workers[k].Busy? {
      SumZero(Load, s.workers);
    }
  }

  // ----- The critical sections -----

  lemma NothingBackwards()
    ensures Backwards([]) == []
  {
  }

  lemma {:induction false} BackwardsCut(ds: seq<Dir>, i: nat)
    requires i < |ds|
    ensures Backwards(ds[|ds| - 1 - i..]) == Backwards(ds[|ds| - i..]) + [ds[|ds| - 1 - i]]
    decreases i
  {
    var t := ds[|ds| - 1 - i..];
    if i == 0 {
      assert ds[|ds|..] == [] && t[..0] == [];
    } else {
      var n := |ds| - 1;
      BackwardsCut(ds[..n], i - 1);
      assert t[..|t|-1] == ds[..n][n - 1 - (i - 1)..];
      assert ds[|ds| - i..][..i - 1] == ds[..n][n - (i - 1)..];
    }
  }

  /** The state the workers share under the queue lock. */
  class WorkQueue {
    var queue: seq<Dir>
    var activeDirs: nat

    constructor (root: Dir)
      ensures queue == [root] && activeDirs == 0
    {
      queue, activeDirs := [root], 0;
    }

    /** Pops up to popBatch directories from the back. */
    method Claim(popBatch: nat) returns (batch: seq<Dir>)
      modifies this
      ensures var k := |old(queue)| - Take(popBatch, old(queue));
              queue == old(queue)[..k] && batch == Backwards(old(queue)[k..]) && activeDirs == old(activeDirs) + |batch|
      ensures |batch| == if popBatch <= |old(queue)| then popBatch else |old(queue)|
    {
      hide Backwards;
      var take := Take(popBatch, queue);
      batch := [];
      var i := 0;
      ghost var q := queue;
      NothingBackwards();
      assert q[|q|..] == [];
      while i < take
        invariant 0 <= i <= take <= |q| && queue == q[..|q| - i] && batch == Backwards(q[|q| - i..])
        invariant activeDirs == old(activeDirs)
      {
        BackwardsCut(q, i);
        batch := batch + [queue[|queue| - 1]];
        queue := queue[..|queue| - 1];
        i := i + 1;
      }
      activeDirs := activeDirs + take;
    }

    /** Hands back the sub-directories found, unless the batch failed, and the directories in hand. */
    method GiveBack(batchSize: nat, subdirs: seq<Dir>, threw: bool)
      requires batchSize <= activeDirs
      modifies this
      ensures queue == (if threw then old(queue) else old(queue) + subdirs) && activeDirs == old(activeDirs) - batchSize
    {
      if !threw {
        var i := 0;
        while i < |subdirs|
          invariant 0 <= i <= |subdirs| && queue == old(queue) + subdirs[..i] && activeDirs == old(activeDirs)
        {
          queue := queue + [subdirs[i]];
          i := i + 1;
        }
      }
      activeDirs := activeDirs - batchSize;
    }
  }
}
