/**
 Two sessions that one response too many brings to a halt: in one the counter goes below zero, in the other
 the last answer is never received.
 */
module HashWedges {
  import opened ComparePhase
  import opened HashPairing
  import opened HashDuplicates
  import opened Ints
  import opened Multiplicity

  /** A file that is compared by its hash. */
  ghost predicate Hashable(env: Env, e: FileEntry) {
    OutcomeOf(env, e).needHash && env.readable(e.path)
  }

  function NeedOf(env: Env, e: FileEntry): Need {
    Need(e, env.probe(e.path))
  }

  /** Runs one after the other. */
  lemma Joined(env: Env, ss: seq<State>, acts: seq<Action>, ss': seq<State>, acts': seq<Action>)
    requires Follows(env, ss, acts) && Follows(env, ss', acts') && ss[|ss|-1] == ss'[0]
    ensures var all := ss + ss'[1..];
            Follows(env, all, acts + acts') && all[0] == ss[0] && all[|all|-1] == ss'[|ss'|-1]
  {
    hide Step, Possible;
    var all, a := ss + ss'[1..], acts + acts';
    forall i | 0 <= i < |a| ensures Enabled(all[i], a[i]) && Step(env, all[i], a[i]) == all[i + 1] {
      if i < |acts| {
        assert Enabled(ss[i], acts[i]) && Step(env, ss[i], acts[i]) == ss[i + 1];
      } else {
        var k := i - |acts|;
        assert Enabled(ss'[k], acts'[k]) && Step(env, ss'[k], acts'[k]) == ss'[k + 1];
      }
    }
  }

  /** A worker takes the next task, with no other task in hand, and announces its hash. */
  const TAKE: seq<Action> := [PopTask, BeginHash(0), StoreHash(0)]
  const TELL: seq<Action> := [EndHash(0), Announce(0)]

  predicate WorkersIdle(s: State) {
    s.popped == [] && s.hashing == [] && s.stored == [] && s.ending == []
  }

  lemma Alone<T>(x: T)
    ensures Without([x], 0) == [] && [] + [x] == [x]
  {
  }

  lemma TaskHashed(env: Env, s: State) returns (ss: seq<State>)
    requires s.tasks != [] && WorkersIdle(s)
    ensures var p := s.tasks[0];
            && Follows(env, ss, TAKE) && ss[0] == s
            && ss[3] == s.(tasks := s.tasks[1..], stored := [p], localResults := s.localResults[p := LocalOf(env, p)],
                           localInFlight := s.localInFlight + 1)
  {
    hide Without, LocalOf;
    var p := s.tasks[0];
    Alone(p);
    var s1 := s.(tasks := s.tasks[1..], popped := [p]);
    var s2 := s1.(popped := [], hashing := [p], localInFlight := s.localInFlight + 1);
    var s3 := s2.(hashing := [], stored := [p], localResults := s.localResults[p := LocalOf(env, p)]);
    ss := [s, s1, s2, s3];
    assert Step(env, s, PopTask) == s1;
    assert Step(env, s1, BeginHash(0)) == s2;
    assert Step(env, s2, StoreHash(0)) == s3;
  }

  lemma TaskTold(env: Env, s: State, p: Path) returns (ss: seq<State>)
    requires s.stored == [p] && s.popped == [] && s.hashing == [] && s.ending == []
    ensures Follows(env, ss, TELL) && ss[0] == s
    ensures ss[2] == s.(stored := [], localInFlight := s.localInFlight - 1, ready := s.ready + [p])
  {
    hide Without;
    Alone(p);
    var s1 := s.(stored := [], ending := [p], localInFlight := s.localInFlight - 1);
    var s2 := s1.(ending := [], ready := s.ready + [p]);
    ss := [s, s1, s2];
  }

  lemma OneTask(env: Env, s: State) returns (ss: seq<State>)
    requires s.tasks != [] && WorkersIdle(s)
    ensures Follows(env, ss, TAKE + TELL) && ss[0] == s
    ensures var p := s.tasks[0];
            ss[5] == s.(tasks := s.tasks[1..], localResults := s.localResults[p := LocalOf(env, p)],
                        ready := s.ready + [p])
  {
    hide Step, Possible;
    var tt := TaskHashed(env, s);
    var uu := TaskTold(env, tt[3], s.tasks[0]);
    Joined(env, tt, TAKE, uu, TELL);
    ss := tt + uu[1..];
  }

  // ----- One file: the counter goes below zero -----

  /** The only file is requested and answered while the manifest is still open. */
  function OneAnswered(env: Env, e: FileEntry, window: u64, workerCap: nat): State {
    Begin(env, window, workerCap).(toCome := [], awaiting := map[e.path := NeedOf(env, e)], tasks := [e.path],
                                   serverHashReady := map[e.path := env.theirs(e.path)])
  }

  lemma OneListed(env: Env, e: FileEntry, window: u64, workerCap: nat) returns (ss: seq<State>)
    requires env.manifest == [e] && OutcomeOf(env, e).needHash
    ensures Follows(env, ss, [RecvEntry, DrainCompare(0)]) && ss[0] == Begin(env, window, workerCap)
    ensures ss[2] == ss[0].(toCome := [], hashQueue := [NeedOf(env, e)])
  {
    hide DecideCompare, Without;
    var s0 := Begin(env, window, workerCap);
    var s1 := s0.(toCome := [], comparing := [e]);
    var s2 := s1.(comparing := [], hashQueue := [NeedOf(env, e)]);
    Alone(e);
    assert [e][1..] == [] && [] + [NeedOf(env, e)] == [NeedOf(env, e)];
    ss := [s0, s1, s2];
  }

  lemma OneSent(env: Env, e: FileEntry, window: u64, workerCap: nat) returns (ss: seq<State>)
    requires window >= 1 && workerCap >= 1
    ensures Follows(env, ss, [Send, Respond(0), RecvResponse(0)])
    ensures ss[0] == Begin(env, window, workerCap).(toCome := [], hashQueue := [NeedOf(env, e)])
    ensures ss[3] == OneAnswered(env, e, window, workerCap)
  {
    hide Without;
    var p := e.path;
    var s2 := Begin(env, window, workerCap).(toCome := [], hashQueue := [NeedOf(env, e)]);
    var s3 := s2.(hashQueue := [], awaiting := map[p := NeedOf(env, e)], requested := [p], tasks := [p], inFlight := 1);
    var s4 := s3.(requested := [], responses := [p]);
    var s5 := s4.(responses := [], inFlight := 0, serverHashReady := map[p := env.theirs(p)]);
    Alone(p);
    assert [NeedOf(env, e)][1..] == [];
    assert map[][p := NeedOf(env, e)] == map[p := NeedOf(env, e)];
    assert map[][p := env.theirs(p)] == map[p := env.theirs(p)];
    ss := [s2, s3, s4, s5];
  }

  lemma OneFileRun(env: Env, e: FileEntry, window: u64, workerCap: nat) returns (ss: seq<State>, acts: seq<Action>)
    requires env.manifest == [e] && OutcomeOf(env, e).needHash && window >= 1 && workerCap >= 1
    ensures IsRun(env, ss, acts) && ss[|ss|-1] == OneAnswered(env, e, window, workerCap)
  {
    hide Step, Possible, OutcomeOf;
    ss := OneListed(env, e, window, workerCap);
    var tt := OneSent(env, e, window, workerCap);
    Joined(env, ss, [RecvEntry, DrainCompare(0)], tt, [Send, Respond(0), RecvResponse(0)]);
    ss, acts := ss + tt[1..], [RecvEntry, DrainCompare(0)] + [Send, Respond(0), RecvResponse(0)];
  }

  /** Its answer comes once more before the end of the manifest. The file is compared and recorded, nothing is
      left to do, and the loop does not end: it waits for 2^64 - 1 answers. */
  lemma OneFileWedge(env: Env, e: FileEntry, window: u64, workerCap: nat) returns (ss: seq<State>, acts: seq<Action>)
    requires env.manifest == [e] && Hashable(env, e) && window >= 1 && workerCap >= 1
    ensures Follows(env, ss, acts) && acts != [] && acts[0] == RecvResponse(0)
    ensures ss[0] == OneMore(OneAnswered(env, e, window, workerCap), e.path)
    ensures var w := ss[|ss|-1];
            && w.recorded == [RecordOf(env, e)] && w.awaiting == map[] && Wrap64(w.inFlight) == TWO_64 - 1
            && Receives(w) && Quiet(w) && !Finished(w)
  {
    hide Step, Possible, RecordOf, OutcomeOf, Quiet, Finished, Hashable, NothingElse, Receives;
    ss := OneFileReceipt(env, e, window, workerCap);
    acts := [RecvResponse(0), RecvEnd];
    var tt := OneTask(env, ss[2]);
    Joined(env, ss, acts, tt, TAKE + TELL);
    ss, acts := ss + tt[1..], acts + (TAKE + TELL);
    var pp := LastPair(env, tt[5], e);
    Joined(env, ss, acts, pp, [SwapReady, DrainReady]);
    ss, acts := ss + pp[1..], acts + [SwapReady, DrainReady];
    OneFileEnd(ss[|ss|-1]);
  }

  lemma OneFileEnd(w: State)
    requires w.toCome == [] && w.manifestDone && w.comparing == [] && w.hashQueue == [] && w.requested == []
    requires w.tasks == [] && WorkersIdle(w) && w.ready == [] && w.done == [] && w.responses == [] && w.inFlight == -1
    ensures Wrap64(w.inFlight) == TWO_64 - 1 && Receives(w) && Quiet(w) && !Finished(w)
  {
    OnlyTuning(w);
  }

  lemma OneFileReceipt(env: Env, e: FileEntry, window: u64, workerCap: nat) returns (ss: seq<State>)
    ensures var b := OneAnswered(env, e, window, workerCap);
            && Follows(env, ss, [RecvResponse(0), RecvEnd]) && ss[0] == OneMore(b, e.path)
            && ss[2] == b.(inFlight := -1, manifestDone := true)
  {
    hide Without;
    var p, h := e.path, map[e.path := env.theirs(e.path)];
    var b := OneAnswered(env, e, window, workerCap);
    Alone(p);
    assert h[p := env.theirs(p)] == h;
    ss := [OneMore(b, p), b.(inFlight := -1), b.(inFlight := -1, manifestDone := true)];
  }

  /** The only announced file is paired. */
  lemma LastPair(env: Env, s: State, e: FileEntry) returns (ss: seq<State>)
    requires s.ready == [e.path] && s.done == [] && Hashable(env, e)
    requires Pairs(s, e.path) && s.awaiting[e.path] == NeedOf(env, e) && s.localResults[e.path] == LocalOf(env, e.path)
    requires s.serverHashReady[e.path] == env.theirs(e.path)
    ensures Follows(env, ss, [SwapReady, DrainReady]) && ss[0] == s
    ensures ss[2] == s.(ready := [], recorded := s.recorded + [RecordOf(env, e)], awaiting := s.awaiting - {e.path},
                        serverHashReady := s.serverHashReady - {e.path})
  {
    var s1 := s.(ready := [], done := s.ready);
    var s2 := ReadyDrained(s1);
    ss := [s, s1, s2];
  }

  predicate NothingElse(s: State) {
    && s.toCome == [] && s.manifestDone && s.comparing == [] && s.hashQueue == [] && s.requested == []
    && s.tasks == [] && WorkersIdle(s) && s.ready == [] && s.done == []
  }

  lemma OnlyTuning(s: State)
    requires NothingElse(s) && (s.responses == [] || !Receives(s))
    ensures Quiet(s)
  {
  }

  // ----- Two files: the last answer is never received -----

  /** Both files are requested, the first is answered, and the manifest is done. */
  function FirstAnswered(env: Env, a: FileEntry, b: FileEntry, window: u64, workerCap: nat): State {
    Begin(env, window, workerCap).(
      toCome := [], manifestDone := true, awaiting := map[a.path := NeedOf(env, a), b.path := NeedOf(env, b)],
      requested := [b.path], tasks := [a.path, b.path], serverHashReady := map[a.path := env.theirs(a.path)],
      inFlight := 1)
  }

  /** Both are in the manifest and wait for their hashes. */
  function BothListed(env: Env, a: FileEntry, b: FileEntry, window: u64, workerCap: nat): State {
    Begin(env, window, workerCap).(toCome := [], manifestDone := true, hashQueue := [NeedOf(env, a), NeedOf(env, b)])
  }

  lemma TwoWithout<T>(x: T, y: T)
    ensures Without([x, y], 0) == [y] && Without([y], 0) == [] && Without([x], 0) == []
    ensures [x, y][1..] == [y] && [y][1..] == [] && [x] + [y] == [x, y] && [] + [x] == [x]
  {
  }

  lemma TwoListed(env: Env, a: FileEntry, b: FileEntry, window: u64, workerCap: nat)
    returns (ss: seq<State>, acts: seq<Action>)
    requires env.manifest == [a, b] && OutcomeOf(env, a).needHash && OutcomeOf(env, b).needHash
    requires window >= 1 && workerCap >= 1
    ensures IsRun(env, ss, acts) && ss[|ss|-1] == BothListed(env, a, b, window, workerCap)
  {
    hide DecideCompare, Without;
    var s0 := Begin(env, window, workerCap);
    var s1 := s0.(toCome := [b], comparing := [a]);
    var s2 := s1.(toCome := [], comparing := [a, b]);
    var s3 := s2.(manifestDone := true);
    var s4 := s3.(comparing := [b], hashQueue := [NeedOf(env, a)]);
    var s5 := s4.(comparing := [], hashQueue := [NeedOf(env, a), NeedOf(env, b)]);
    TwoWithout(a, b);
    assert [NeedOf(env, a)] + [NeedOf(env, b)] == [NeedOf(env, a), NeedOf(env, b)];
    ss, acts := [s0, s1, s2, s3, s4, s5], [RecvEntry, RecvEntry, RecvEnd, DrainCompare(0), DrainCompare(0)];
  }

  /** Both are requested. */
  function BothSent(env: Env, a: FileEntry, b: FileEntry, window: u64, workerCap: nat): State {
    BothListed(env, a, b, window, workerCap).(
      hashQueue := [], awaiting := map[a.path := NeedOf(env, a), b.path := NeedOf(env, b)],
      requested := [a.path, b.path], tasks := [a.path, b.path], inFlight := 2)
  }

  lemma TwoSent(env: Env, a: FileEntry, b: FileEntry, window: u64, workerCap: nat) returns (ss: seq<State>)
    requires a.path != b.path && window >= 2 && workerCap >= 1
    ensures Follows(env, ss, [Send, Send])
    ensures ss[0] == BothListed(env, a, b, window, workerCap) && ss[2] == BothSent(env, a, b, window, workerCap)
  {
    hide Without;
    var p, q, na, nb := a.path, b.path, NeedOf(env, a), NeedOf(env, b);
    var s0 := BothListed(env, a, b, window, workerCap);
    var s1 := s0.(hashQueue := [nb], awaiting := map[p := na], requested := [p], tasks := [p], inFlight := 1);
    TwoWithout(na, nb);
    TwoWithout(p, q);
    assert map[p := na][q := nb] == map[p := na, q := nb];
    ss := [s0, s1, BothSent(env, a, b, window, workerCap)];
  }

  lemma FirstAnswer(env: Env, a: FileEntry, b: FileEntry, window: u64, workerCap: nat) returns (ss: seq<State>)
    ensures Follows(env, ss, [Respond(0), RecvResponse(0)])
    ensures ss[0] == BothSent(env, a, b, window, workerCap) && ss[2] == FirstAnswered(env, a, b, window, workerCap)
  {
    hide Without;
    var p, q := a.path, b.path;
    var s0 := BothSent(env, a, b, window, workerCap);
    TwoWithout(p, q);
    assert map[][p := env.theirs(p)] == map[p := env.theirs(p)];
    ss := [s0, s0.(requested := [q], responses := [p]), FirstAnswered(env, a, b, window, workerCap)];
  }

  lemma TwoFileRun(env: Env, a: FileEntry, b: FileEntry, window: u64, workerCap: nat)
    returns (ss: seq<State>, acts: seq<Action>)
    requires env.manifest == [a, b] && OutcomeOf(env, a).needHash && OutcomeOf(env, b).needHash && a.path != b.path
    requires window >= 2 && workerCap >= 1
    ensures IsRun(env, ss, acts) && ss[|ss|-1] == FirstAnswered(env, a, b, window, workerCap)
  {
    hide Step, Possible, OutcomeOf;
    ss, acts := TwoListed(env, a, b, window, workerCap);
    var tt := TwoSent(env, a, b, window, workerCap);
    Joined(env, ss, acts, tt, [Send, Send]);
    ss, acts := ss + tt[1..], acts + [Send, Send];
    var uu := FirstAnswer(env, a, b, window, workerCap);
    Joined(env, ss, acts, uu, [Respond(0), RecvResponse(0)]);
    ss, acts := ss + uu[1..], acts + [Respond(0), RecvResponse(0)];
  }

  lemma TwoFileReceipt(env: Env, a: FileEntry, b: FileEntry, window: u64, workerCap: nat) returns (ss: seq<State>)
    requires a.path != b.path
    ensures var s := FirstAnswered(env, a, b, window, workerCap);
            && Follows(env, ss, [RecvResponse(0), Respond(0)]) && ss[0] == OneMore(s, a.path)
            && ss[2] == s.(inFlight := 0, requested := [], responses := [b.path])
  {
    hide Without;
    var p, h := a.path, map[a.path := env.theirs(a.path)];
    var s := FirstAnswered(env, a, b, window, workerCap);
    TwoWithout(p, b.path);
    TwoWithout(b.path, p);
    assert h[p := env.theirs(p)] == h;
    ss := [OneMore(s, p), s.(inFlight := 0), s.(inFlight := 0, requested := [], responses := [b.path])];
  }

  /** The first announced file is paired, the second is left to its answer. */
  lemma FirstPair(env: Env, s: State, a: FileEntry, q: Path) returns (ss: seq<State>)
    requires s.ready == [a.path, q] && s.done == [] && Hashable(env, a) && a.path != q && q !in s.serverHashReady
    requires Pairs(s, a.path) && s.awaiting[a.path] == NeedOf(env, a) && s.localResults[a.path] == LocalOf(env, a.path)
    requires s.serverHashReady[a.path] == env.theirs(a.path)
    ensures Follows(env, ss, [SwapReady, DrainReady, DrainReady]) && ss[0] == s
    ensures ss[3] == s.(ready := [], recorded := s.recorded + [RecordOf(env, a)], awaiting := s.awaiting - {a.path},
                        serverHashReady := s.serverHashReady - {a.path})
  {
    var s1 := s.(ready := [], done := s.ready);
    var s2 := ReadyDrained(s1);
    var s3 := s2.(done := []);
    ss := [s, s1, s2, s3];
  }

  /** The first file's answer comes once more while the second's is still to come. The counter is zero then, and
      the loop never receives the second answer: the file stays awaited, with its answer on the wire. */
  lemma TwoFileWedge(env: Env, a: FileEntry, b: FileEntry, window: u64, workerCap: nat)
    returns (ss: seq<State>, acts: seq<Action>)
    requires env.manifest == [a, b] && Hashable(env, a) && Hashable(env, b) && a.path != b.path
    requires window >= 2 && workerCap >= 1
    ensures Follows(env, ss, acts) && acts != [] && acts[0] == RecvResponse(0)
    ensures ss[0] == OneMore(FirstAnswered(env, a, b, window, workerCap), a.path)
    ensures var w := ss[|ss|-1];
            && w.recorded == [RecordOf(env, a)] && w.awaiting.Keys == {b.path} && w.responses == [b.path]
            && w.inFlight == 0 && !Receives(w) && Quiet(w) && !Finished(w)
  {
    hide Step, Possible, RecordOf, OutcomeOf;
    ss := TwoFileReceipt(env, a, b, window, workerCap);
    acts := [RecvResponse(0), Respond(0)];
    var tt := OneTask(env, ss[2]);
    Joined(env, ss, acts, tt, TAKE + TELL);
    ss, acts := ss + tt[1..], acts + (TAKE + TELL);
    var uu := OneTask(env, tt[5]);
    Joined(env, ss, acts, uu, TAKE + TELL);
    ss, acts := ss + uu[1..], acts + (TAKE + TELL);
    var pp := FirstPair(env, uu[5], a, b.path);
    Joined(env, ss, acts, pp, [SwapReady, DrainReady, DrainReady]);
    ss, acts := ss + pp[1..], acts + [SwapReady, DrainReady, DrainReady];
    OnlyTuning(ss[|ss|-1]);
  }
}
