/** The two gates of pump, over whole sessions: the network window and the backlog of the hash workers. */
module HashGates {
  import opened ComparePhase
  import opened HashPairing
  import opened Ints
  import opened Multiplicity

  /** What is none of the gates' business, and a read failure that was noted. */
  ghost predicate Passes(s: State, t: State) {
    && t.inFlight <= s.inFlight && t.tasks == s.tasks && t.popped == s.popped && t.localInFlight == s.localInFlight
    && (s.localReadFailed ==> t.localReadFailed)
  }

  lemma FinalPasses(s: State, p: Path, local: LocalResult, server: Hash)
    requires p in s.awaiting
    ensures Passes(s, Finalized(s, p, local, server))
  {
    hide ClassifyByHash;
  }

  lemma ComparePasses(env: Env, s: State, k: nat)
    requires k < |s.comparing|
    ensures Passes(s, Compared(env, s, k))
  {
    hide DecideCompare, Without;
  }

  lemma ResponsePasses(env: Env, s: State, k: nat)
    requires k < |s.responses|
    ensures Passes(s, Responded(env, s, k))
  {
    hide Finalized, Without;
    var p := s.responses[k];
    if p in s.awaiting && p in s.localResults {
      FinalPasses(s.(responses := Without(s.responses, k), inFlight := s.inFlight - 1), p, s.localResults[p],
                  env.theirs(p));
    }
  }

  lemma ReadyPasses(s: State)
    requires s.done != []
    ensures Passes(s, ReadyDrained(s))
  {
    hide Finalized;
    var t := s.(done := s.done[1..]);
    if Pairs(t, s.done[0]) {
      FinalPasses(t, s.done[0], t.localResults[s.done[0]], t.serverHashReady[s.done[0]]);
    }
  }

  lemma StepPasses(env: Env, s: State, a: Action)
    requires Possible(s, a) && !a.Send? && !a.PopTask? && !a.BeginHash? && !a.EndHash?
    ensures Passes(s, Step(env, s, a))
  {
    hide Compared, Responded, ReadyDrained, Without, LocalOf;
    match a
    case DrainCompare(k) => ComparePasses(env, s, k);
    case RecvResponse(k) => ResponsePasses(env, s, k);
    case DrainReady => ReadyPasses(s);
    case _ =>
  }

  lemma ReadFailureStays(env: Env, s: State, a: Action)
    requires Possible(s, a) && s.localReadFailed
    ensures Step(env, s, a).localReadFailed
  {
    if !a.Send? && !a.PopTask? && !a.BeginHash? && !a.EndHash? {
      StepPasses(env, s, a);
      hide *;
    }
  }

  /** Only a request sent raises the number in flight, and it is sent below the window. */
  lemma StepInWindow(env: Env, s: State, a: Action, w: nat)
    requires Enabled(s, a) && 0 <= s.inFlight < TWO_64 && s.inFlight <= w && s.window <= w
    ensures Step(env, s, a).inFlight <= w
  {
    if !a.Send? && !a.PopTask? && !a.BeginHash? && !a.EndHash? {
      StepPasses(env, s, a);
      hide Step, Enabled;
    } else {
      hide Compared, Responded, ReadyDrained, Without;
    }
  }

  /** As long as no local read has failed there are never more requests without their response than the widest
      window so far. */
  lemma {:induction false} WindowIsKept(env: Env, ss: seq<State>, acts: seq<Action>, i: nat, w: nat)
    requires IsRun(env, ss, acts) && DistinctPaths(env) && i < |ss| && !ss[i].localReadFailed
    requires forall j :: 0 <= j <= i ==> ss[j].window <= w
    ensures |ss[i].requested| + |ss[i].responses| == ss[i].inFlight <= w
  {
    hide Step, Possible, DistinctPaths, GatesOpen, Receives;
    RunKeeps(env, ss, acts, i);
    InFlightIsOut(env, ss[i]);
    if i > 0 {
      var k := i - 1;
      assert Enabled(ss[k], acts[k]) && Step(env, ss[k], acts[k]) == ss[k + 1];
      if ss[k].localReadFailed {
        ReadFailureStays(env, ss[k], acts[k]);
      }
      WindowIsKept(env, ss, acts, k, w);
      RunKeeps(env, ss, acts, k);
      InFlightIsOut(env, ss[k]);
      StepInWindow(env, ss[k], acts[k], w);
    }
  }

  lemma InFlightIsOut(env: Env, s: State)
    requires Inv(env, s) && InRange(s) && !s.localReadFailed
    ensures |s.requested| + |s.responses| == s.inFlight < TWO_64
  {
    hide PathInv, Listed, Spoiled, Open;
  }

  /** What the workers have before them or in hand; a task between the queue and the counter counts too. */
  function Backlog(s: State): int {
    |s.tasks| + |s.popped| + s.localInFlight
  }

  lemma StepBacklog(env: Env, s: State, a: Action, workers: nat, cap: nat)
    requires Enabled(s, a) && |s.popped| <= workers && s.workerCap <= cap && s.localInFlight >= 0
    requires Backlog(s) <= 4 * cap + workers < TWO_64
    ensures Backlog(Step(env, s, a)) <= 4 * cap + workers
  {
    if !a.Send? && !a.PopTask? && !a.BeginHash? && !a.EndHash? {
      StepPasses(env, s, a);
      hide Step, Enabled;
    } else {
      hide Compared, Responded, ReadyDrained;
    }
  }

  /** The gate looks at the queue and the counter, so it misses what workers have taken off the one and not yet
      added to the other: the backlog stays within four times the cap, and one for each worker. */
  lemma {:induction false} BacklogIsKept(env: Env, ss: seq<State>, acts: seq<Action>, i: nat, workers: nat, cap: nat)
    requires IsRun(env, ss, acts) && DistinctPaths(env) && i < |ss| && 4 * cap + workers < TWO_64
    requires forall j :: 0 <= j <= i ==> |ss[j].popped| <= workers && ss[j].workerCap <= cap
    ensures Backlog(ss[i]) <= 4 * cap + workers
  {
    if i > 0 {
      hide Step, Possible, DistinctPaths, GatesOpen, Receives, Backlog;
      var k := i - 1;
      assert Enabled(ss[k], acts[k]) && Step(env, ss[k], acts[k]) == ss[k + 1];
      BacklogIsKept(env, ss, acts, k, workers, cap);
      RunKeeps(env, ss, acts, k);
      LocalCount(env, ss[k]);
      StepBacklog(env, ss[k], acts[k], workers, cap);
    }
  }

  lemma LocalCount(env: Env, s: State)
    requires Inv(env, s)
    ensures s.localInFlight == |s.hashing| + |s.stored|
  {
    hide PathInv, Listed, Spoiled, Open;
  }
}
