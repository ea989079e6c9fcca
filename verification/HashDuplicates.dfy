/**
 A response too many. The check engine means to ignore the second answer to a request; this says what it
 does with it, and which sessions it spoils.
 */
module HashDuplicates {
  import opened ComparePhase
  import opened HashPairing
  import opened Ints
  import opened Multiplicity

  // ----- The response when it is received -----

  /** A second response for a path: its server hash is known, or the path is not awaited any more. */
  predicate IsDuplicate(s: State, k: nat) {
    k < |s.responses| && (s.responses[k] in s.awaiting ==> s.responses[k] in s.serverHashReady)
  }

  lemma SameOpen<V>(a: map<Path, V>, r: map<Path, Hash>, t: map<Path, Hash>)
    requires r.Keys == t.Keys
    ensures Open(a, r) == Open(a, t)
  {
  }

  /** A duplicate leaves inFlight equal to the count of awaited files without a server hash if and only if
      the path is not awaited any more. */
  lemma DuplicateIsIgnoredIff(env: Env, s: State, k: nat)
    requires IsDuplicate(s, k) && Enabled(s, RecvResponse(k)) && s.inFlight == Open(s.awaiting, s.serverHashReady)
    ensures var t := Step(env, s, RecvResponse(k));
            t.inFlight == Open(t.awaiting, t.serverHashReady) <==> s.responses[k] !in s.awaiting
  {
    hide Open;
    var p := s.responses[k];
    if p in s.awaiting {
      if p in s.localResults {
        OpenCloses(s.awaiting, s.serverHashReady, p);
      } else {
        assert s.serverHashReady[p := env.theirs(p)].Keys == s.serverHashReady.Keys;
        SameOpen(s.awaiting, s.serverHashReady, s.serverHashReady[p := env.theirs(p)]);
      }
    }
  }

  /** A duplicate for an awaited path while nothing is in flight, which the loop receives only before the end
      of the manifest, takes the counter below zero: what the program reads is 2^64 - 1, on which the loop
      does not end and pump does not send. */
  lemma DuplicateUnderflows(env: Env, s: State, k: nat)
    requires IsDuplicate(s, k) && Enabled(s, RecvResponse(k)) && s.responses[k] in s.awaiting && s.inFlight == 0
    ensures var t := Step(env, s, RecvResponse(k));
            !s.manifestDone && Wrap64(t.inFlight) == TWO_64 - 1 && !Finished(t) && !Enabled(t, Send)
  {
  }

  // ----- A session with one response too many on the wire -----

  /** The session without the response at place j. */
  function Base(s: State, j: nat): State
    requires j < |s.responses|
  {
    s.(responses := Without(s.responses, j))
  }

  /** How often a path has been requested or recorded. */
  function Behind(s: State, p: Path): nat {
    (if p in s.awaiting then 1 else 0) + Occ(RecordPaths(s.recorded), p)
  }

  /** The path is not to be requested any more, and if it is awaited its answer is here: another answer is
      one too many. */
  ghost predicate Answered(env: Env, s: State, p: Path) {
    Behind(s, p) == Occ(Paths(env.manifest), p) && (p in s.awaiting ==> p in s.serverHashReady)
  }

  /** The response at place j is one too many; without it the session is as it should be. */
  ghost predicate Pending(env: Env, s: State, j: nat, p: Path) {
    && j < |s.responses| && s.responses[j] == p && Answered(env, s, p)
    && Inv(env, Base(s, j)) && InRange(s) && !s.localReadFailed
  }

  lemma {:induction false} FinalBehind(s: State, q: Path, local: LocalResult, server: Hash, p: Path)
    requires q in s.awaiting && s.awaiting[q].remote.path == q
    ensures Behind(Finalized(s, q, local, server), p) == Behind(s, p)
  {
    hide Occ, RecordPaths;
    if local.Hashed? {
      var need := s.awaiting[q];
      RecordPush(s.recorded, Record(need.remote, need.local, ClassifyByHash(true, local.hash, server), true), p);
    }
  }

  lemma KeyOfAwaited(env: Env, s: State, q: Path)
    requires Inv(env, s) && q in s.awaiting
    ensures s.awaiting[q].remote.path == q
  {
    hide Counted, Listed, Spoiled;
    assert PathInv(env, s, q);
    ValuesOf(env, s, q);
  }

  /** What has been requested or recorded stays so. */
  lemma BehindGrows(env: Env, s: State, a: Action, p: Path)
    requires Inv(env, s) && Possible(s, a)
    ensures Behind(Step(env, s, a), p) >= Behind(s, p)
  {
    hide Inv, Finalized, Occ, RecordPaths, DecideCompare, Compared, Responded, ReadyDrained, Without;
    match a
    case DrainCompare(k) => CompareBehind(env, s, k, p);
    case RecvResponse(k) => ResponseBehind(env, s, k, p);
    case DrainReady => ReadyBehind(env, s, p);
    case _ =>
  }

  lemma CompareBehind(env: Env, s: State, k: nat, p: Path)
    requires k < |s.comparing|
    ensures Behind(Compared(env, s, k), p) >= Behind(s, p)
  {
    hide Occ, RecordPaths, DecideCompare, Without;
    var e := s.comparing[k];
    RecordPush(s.recorded, Record(e, env.probe(e.path), OutcomeOf(env, e).category, false), p);
  }

  lemma ResponseBehind(env: Env, s: State, k: nat, p: Path)
    requires Inv(env, s) && k < |s.responses|
    ensures Behind(Responded(env, s, k), p) == Behind(s, p)
  {
    hide Inv, Finalized, Occ, RecordPaths, Without;
    var q := s.responses[k];
    if q in s.awaiting {
      KeyOfAwaited(env, s, q);
      if q in s.localResults {
        var u := s.(responses := Without(s.responses, k), inFlight := s.inFlight - 1);
        FinalBehind(u, q, s.localResults[q], env.theirs(q), p);
      }
    }
  }

  lemma ReadyBehind(env: Env, s: State, p: Path)
    requires Inv(env, s) && s.done != []
    ensures Behind(ReadyDrained(s), p) == Behind(s, p)
  {
    hide Inv, Finalized, Occ, RecordPaths;
    var q := s.done[0];
    if Pairs(s, q) {
      KeyOfAwaited(env, s, q);
      FinalBehind(s.(done := s.done[1..]), q, s.localResults[q], s.serverHashReady[q], p);
    }
  }

  lemma StagesOf(env: Env, s: State, p: Path)
    requires Inv(env, s)
    ensures Stages(s, p) == Occ(Paths(env.manifest), p)
  {
    hide Counted, Listed, Spoiled, Stages, Values, Waiting, Hashing;
    assert PathInv(env, s, p);
  }

  /** A path that was answered is not the next one to be requested. */
  lemma NextIsUnanswered(env: Env, s: State, p: Path)
    requires Inv(env, s) && Answered(env, s, p) && s.hashQueue != []
    ensures s.hashQueue[0].remote.path != p
  {
    hide Inv, Occ, Paths, RecordPaths, NeedPaths;
    StagesOf(env, s, p);
    NeedPopped(s.hashQueue, p);
  }

  lemma FinalAnswer(s: State, q: Path, local: LocalResult, server: Hash, p: Path)
    requires q in s.awaiting && (p in s.awaiting ==> p in s.serverHashReady)
    ensures var t := Finalized(s, q, local, server); p in t.awaiting ==> p in s.awaiting && p in t.serverHashReady
  {
    hide ClassifyByHash;
  }

  lemma AnswerStays(env: Env, s: State, a: Action, p: Path)
    requires Possible(s, a) && (p in s.awaiting ==> p in s.serverHashReady)
    requires a.Send? ==> s.hashQueue[0].remote.path != p
    ensures var t := Step(env, s, a); p in t.awaiting ==> p in s.awaiting && p in t.serverHashReady
  {
    hide DecideCompare, Without, Finalized, Compared;
    if a.DrainCompare? {
      CompareLengths(env, s, a.k);
    } else if a.RecvResponse? {
      var q := s.responses[a.k];
      if q in s.awaiting && q in s.localResults {
        var u := s.(responses := Without(s.responses, a.k), inFlight := s.inFlight - 1);
        FinalAnswer(u, q, s.localResults[q], env.theirs(q), p);
      }
    } else if a.DrainReady? && Pairs(s, s.done[0]) {
      var q := s.done[0];
      FinalAnswer(s.(done := s.done[1..]), q, s.localResults[q], s.serverHashReady[q], p);
    }
  }

  lemma AnsweredStays(env: Env, s: State, a: Action, p: Path)
    requires Inv(env, s) && DistinctPaths(env) && Possible(s, a) && Answered(env, s, p)
    ensures Answered(env, Step(env, s, a), p)
    ensures p in Step(env, s, a).awaiting ==> p in s.awaiting
  {
    var t := Step(env, s, a);
    hide Inv, Step, Possible, DistinctPaths, Occ, Paths, RecordPaths, NeedPaths;
    BehindGrows(env, s, a, p);
    StepKeeps(env, s, a);
    StagesOf(env, t, p);
    if a.Send? {
      assert s.hashQueue != [] by {
        IsSend(s, a);
      }
      NextIsUnanswered(env, s, p);
    }
    AnswerStays(env, s, a, p);
  }

  lemma IsSend(s: State, a: Action)
    requires Possible(s, a) && a.Send?
    ensures s.hashQueue != []
  {
  }

  // ----- Steps beside it -----

  /** The action as the session without the response sees it, and the place of the response after it. */
  function Beside(a: Action, j: nat): Action {
    if a.RecvResponse? && a.k > j then RecvResponse(a.k - 1) else a
  }

  function PlaceAfter(a: Action, j: nat): nat {
    if a.RecvResponse? && a.k < j then j - 1 else j
  }

  lemma WithoutAt<T>(q: seq<T>, k: nat)
    requires k < |q|
    ensures |Without(q, k)| == |q| - 1
    ensures forall i :: 0 <= i < |q| - 1 ==> Without(q, k)[i] == q[if i < k then i else i + 1]
  {
  }

  lemma WithoutTwo<T>(q: seq<T>, j: nat, k: nat)
    requires j < |q| && k < |q| && j != k
    ensures var j', k' := if k < j then j - 1 else j, if j < k then k - 1 else k;
            && j' < |Without(q, k)| && k' < |Without(q, j)|
            && Without(q, k)[j'] == q[j] && Without(q, j)[k'] == q[k]
            && Without(Without(q, k), j') == Without(Without(q, j), k')
  {
    hide Without;
    var j', k' := if k < j then j - 1 else j, if j < k then k - 1 else k;
    WithoutAt(q, j);
    WithoutAt(q, k);
    WithoutAt(Without(q, k), j');
    WithoutAt(Without(q, j), k');
  }

  lemma WithoutPushed<T>(q: seq<T>, j: nat, x: T)
    requires j < |q|
    ensures Without(q + [x], j) == Without(q, j) + [x]
  {
    hide Without;
    WithoutAt(q, j);
    WithoutAt(q + [x], j);
  }

  lemma FinalBeside(s: State, q: seq<Path>, p: Path, local: LocalResult, server: Hash)
    requires p in s.awaiting
    ensures Finalized(s.(responses := q), p, local, server) == Finalized(s, p, local, server).(responses := q)
    ensures Finalized(s, p, local, server).responses == s.responses
  {
    hide ClassifyByHash;
  }

  lemma ReceiveBeside(env: Env, s: State, j: nat, k: nat)
    requires j < |s.responses| && k < |s.responses| && j != k
    ensures var t, j', k' := Responded(env, s, k), PlaceAfter(RecvResponse(k), j), Beside(RecvResponse(k), j).k;
            && j' < |t.responses| && t.responses[j'] == s.responses[j]
            && Base(t, j') == Responded(env, Base(s, j), k')
  {
    hide Finalized, Without;
    WithoutTwo(s.responses, j, k);
    BaseLength(s, j);
    BaseLength(s, k);
    var p, j' := s.responses[k], PlaceAfter(RecvResponse(k), j);
    var r := Without(s.responses, k);
    if p !in s.awaiting {
    } else if p in s.localResults {
      var u := s.(responses := r, inFlight := s.inFlight - 1);
      FinalBeside(u, r, p, s.localResults[p], env.theirs(p));
      FinalBeside(u, Without(r, j'), p, s.localResults[p], env.theirs(p));
    }
  }

  lemma ReadyBeside(s: State, j: nat)
    requires j < |s.responses| && s.done != []
    ensures ReadyDrained(s).responses == s.responses && Base(ReadyDrained(s), j) == ReadyDrained(Base(s, j))
  {
    hide Finalized, Without;
    var p, t := s.done[0], s.(done := s.done[1..]);
    if Pairs(t, p) {
      FinalBeside(t, Without(s.responses, j), p, t.localResults[p], t.serverHashReady[p]);
    }
  }

  /** What a compare result adds to the hash queue, and to the report. */
  function ToHash(env: Env, e: FileEntry): seq<Need> {
    if OutcomeOf(env, e).needHash then [Need(e, env.probe(e.path))] else []
  }

  function ToRecord(env: Env, e: FileEntry): seq<Record> {
    if OutcomeOf(env, e).needHash then [] else [Record(e, env.probe(e.path), OutcomeOf(env, e).category, false)]
  }

  lemma ComparedIs(env: Env, s: State, k: nat)
    requires k < |s.comparing|
    ensures var e := s.comparing[k];
            Compared(env, s, k) == s.(comparing := Without(s.comparing, k), hashQueue := s.hashQueue + ToHash(env, e),
                                      recorded := s.recorded + ToRecord(env, e))
  {
    hide DecideCompare, Without;
    assert s.hashQueue + [] == s.hashQueue && s.recorded + [] == s.recorded;
  }

  lemma CompareBeside(env: Env, s: State, k: nat, j: nat)
    requires k < |s.comparing| && j < |s.responses|
    ensures Compared(env, s, k).responses == s.responses && Base(Compared(env, s, k), j) == Compared(env, Base(s, j), k)
  {
    ComparedIs(env, s, k);
    ComparedIs(env, Base(s, j), k);
    hide Compared, Without;
  }

  predicate OfWorker(a: Action) {
    a.PopTask? || a.BeginHash? || a.StoreHash? || a.EndHash? || a.Announce?
  }

  lemma WorkBeside(env: Env, s: State, j: nat, a: Action)
    requires j < |s.responses| && Possible(s, a) && OfWorker(a)
    ensures Possible(Base(s, j), a)
    ensures var t := Step(env, s, a); t.responses == s.responses && Base(t, j) == Step(env, Base(s, j), a)
  {
    hide Without;
  }

  lemma StepBeside(env: Env, s: State, j: nat, a: Action)
    requires j < |s.responses| && Possible(s, a) && a != RecvResponse(j)
    ensures Possible(Base(s, j), Beside(a, j))
    ensures var t, j' := Step(env, s, a), PlaceAfter(a, j);
            j' < |t.responses| && t.responses[j'] == s.responses[j]
            && Base(t, j') == Step(env, Base(s, j), Beside(a, j))
  {
    hide Compared, Responded, ReadyDrained, Sent, Without;
    BaseLength(s, j);
    if OfWorker(a) {
      WorkBeside(env, s, j, a);
    } else if a.RecvResponse? {
      ReceiveBeside(env, s, j, a.k);
    } else if a.Respond? {
      WithoutPushed(s.responses, j, s.requested[a.k]);
    } else if a.DrainCompare? {
      CompareBeside(env, s, a.k, j);
    } else if a.DrainReady? {
      ReadyBeside(s, j);
    } else if a.Send? {
      SendBeside(s, j);
    }
  }

  lemma SendBeside(s: State, j: nat)
    requires j < |s.responses| && s.hashQueue != []
    ensures Sent(s).responses == s.responses && Base(Sent(s), j) == Sent(Base(s, j))
  {
    hide Without;
  }

  lemma BaseLength(s: State, j: nat)
    requires j < |s.responses|
    ensures |Base(s, j).responses| == |s.responses| - 1
  {
  }

  lemma NeverFails(env: Env, s: State)
    requires Inv(env, s) && AllReadable(env)
    ensures !s.localReadFailed
  {
    hide PathInv, Listed, Counted, Lost, AllReadable;
    if s.localReadFailed {
      var p: Path :| Lost(s, p);
      assert PathInv(env, s, p);
      LostIsUnreadable(env, s, p);
    }
  }

  /** A step that does not receive it leaves the response one too many, and never awaits its path anew. */
  lemma PendingStep(env: Env, s: State, j: nat, p: Path, a: Action)
    requires DistinctPaths(env) && AllReadable(env) && Pending(env, s, j, p) && Enabled(s, a) && a != RecvResponse(j)
    ensures Pending(env, Step(env, s, a), PlaceAfter(a, j), p)
    ensures p in Step(env, s, a).awaiting ==> p in s.awaiting
  {
    hide Inv, Step, Possible, DistinctPaths, AllReadable, Behind, Occ, Paths, InRange, Without;
    var b, t := Base(s, j), Step(env, s, a);
    StepBeside(env, s, j, a);
    StepKeeps(env, b, Beside(a, j));
    NeverFails(env, Base(t, PlaceAfter(a, j)));
    AnsweredSame(env, s, j, p);
    AnsweredStays(env, b, Beside(a, j), p);
    AnsweredSame(env, t, PlaceAfter(a, j), p);
    FlightIsCount(env, b);
    StepInRange(env, s, a);
  }

  lemma AnsweredSame(env: Env, s: State, j: nat, p: Path)
    requires j < |s.responses|
    ensures Answered(env, s, p) <==> Answered(env, Base(s, j), p)
  {
  }

  // ----- What an awaited one does -----

  /** One request too many was counted as answered. */
  ghost predicate Short(env: Env, s: State) {
    Inv(env, Shifted(s, 1)) && InRange(s)
  }

  function Shifted(s: State, d: int): State {
    s.(inFlight := s.inFlight + d)
  }

  lemma FinalShifts(s: State, p: Path, local: LocalResult, server: Hash, d: int)
    requires p in s.awaiting
    ensures Finalized(Shifted(s, d), p, local, server) == Shifted(Finalized(s, p, local, server), d)
  {
    hide ClassifyByHash;
  }

  lemma ResponseShifts(env: Env, s: State, k: nat, d: int)
    requires k < |s.responses|
    ensures Responded(env, Shifted(s, d), k) == Shifted(Responded(env, s, k), d)
  {
    hide Finalized, Without;
    var p := s.responses[k];
    if p in s.awaiting && p in s.localResults {
      var u := s.(responses := Without(s.responses, k), inFlight := s.inFlight - 1);
      FinalShifts(u, p, s.localResults[p], env.theirs(p), d);
    }
  }

  lemma ReadyShifts(s: State, d: int)
    requires s.done != []
    ensures ReadyDrained(Shifted(s, d)) == Shifted(ReadyDrained(s), d)
  {
    hide Finalized;
    var p, t := s.done[0], s.(done := s.done[1..]);
    if Pairs(t, p) {
      FinalShifts(t, p, t.localResults[p], t.serverHashReady[p], d);
    }
  }

  lemma CompareShifts(env: Env, s: State, k: nat, d: int)
    requires k < |s.comparing|
    ensures Compared(env, Shifted(s, d), k) == Shifted(Compared(env, s, k), d)
  {
    ComparedIs(env, s, k);
    ComparedIs(env, Shifted(s, d), k);
    hide Compared, Without;
  }

  lemma WorkShifts(env: Env, s: State, a: Action, d: int)
    requires Possible(s, a) && OfWorker(a)
    ensures Possible(Shifted(s, d), a) && Step(env, Shifted(s, d), a) == Shifted(Step(env, s, a), d)
  {
    hide Without;
  }

  /** A step does the same whatever the count. */
  lemma StepShifts(env: Env, s: State, a: Action, d: int)
    requires Possible(s, a)
    ensures Possible(Shifted(s, d), a) && Step(env, Shifted(s, d), a) == Shifted(Step(env, s, a), d)
  {
    hide Compared, Responded, ReadyDrained, Without;
    if OfWorker(a) {
      WorkShifts(env, s, a, d);
    } else if a.DrainCompare? {
      CompareShifts(env, s, a.k, d);
    } else if a.RecvResponse? {
      ResponseShifts(env, s, a.k, d);
    } else if a.DrainReady? {
      ReadyShifts(s, d);
    }
  }

  lemma ShortStep(env: Env, s: State, a: Action)
    requires Short(env, s) && DistinctPaths(env) && AllReadable(env) && Enabled(s, a)
    ensures Short(env, Step(env, s, a))
  {
    hide Inv, Step, Possible, DistinctPaths, AllReadable;
    var v := Shifted(s, 1);
    StepShifts(env, s, a, 1);
    StepKeeps(env, v, a);
    NeverFails(env, v);
    ShortInRange(env, s, a);
  }

  lemma ShortInRange(env: Env, s: State, a: Action)
    requires InRange(s) && Enabled(s, a) && !s.localReadFailed
    ensures InRange(Step(env, s, a))
  {
    hide DecideCompare, Compared, Finalized, Without;
    if a.RecvResponse? {
      var q := s.responses[a.k];
      if q in s.awaiting && q in s.localResults {
        var u := s.(responses := Without(s.responses, a.k), inFlight := s.inFlight - 1);
        FinalFlight(u, q, s.localResults[q], env.theirs(q));
      }
    } else if a.DrainReady? && Pairs(s, s.done[0]) {
      FinalFlight(s.(done := s.done[1..]), s.done[0], s.localResults[s.done[0]], s.serverHashReady[s.done[0]]);
    } else if a.DrainCompare? {
      CompareLengths(env, s, a.k);
    }
  }

  lemma NothingOpen<V>(r: map<Path, Hash>)
    ensures Open<V>(map[], r) == 0
  {
    var none: map<Path, V> := map[];
    assert none.Keys - r.Keys == {};
  }

  /** The loop does not end by its own condition: with nothing awaited the counter reads 2^64 - 1. */
  lemma ShortGoesOn(env: Env, s: State)
    requires Short(env, s)
    ensures !Finished(s)
  {
    hide PathInv, Listed, Open;
    var v := Shifted(s, 1);
    if v.localReadFailed {
      var p: Path :| Lost(v, p);
    } else if s.awaiting == map[] {
      NothingOpen<Need>(s.serverHashReady);
    }
  }

  /** Receiving it while its path is awaited counts one request too many as answered. */
  lemma ReceiptCounts(env: Env, s: State, j: nat, p: Path)
    requires AllReadable(env) && Pending(env, s, j, p) && p in s.awaiting
    ensures Short(env, Responded(env, s, j))
  {
    hide Inv, Answered, AllReadable, Without, Responded;
    var v := Base(s, j);
    AwaitedIsAnswered(env, s, p);
    KnownHash(env, v, p);
    Received(env, s, j, p);
    if p in s.localResults {
      EarlyPair(env, v, p);
    }
  }

  lemma Received(env: Env, s: State, j: nat, p: Path)
    requires j < |s.responses| && s.responses[j] == p && p in s.awaiting
    requires p in s.serverHashReady && s.serverHashReady[p] == env.theirs(p)
    ensures var v, t := Base(s, j), Responded(env, s, j);
            && Shifted(t, 1) == (if p in s.localResults then Finalized(v, p, v.localResults[p], env.theirs(p)) else v)
            && t.inFlight < s.inFlight && (s.localReadFailed ==> t.localReadFailed)
  {
    hide Without, Finalized;
    var v := Base(s, j);
    if p in s.localResults {
      FinalShifts(Shifted(v, -1), p, v.localResults[p], env.theirs(p), 1);
      FinalFlight(Shifted(v, -1), p, v.localResults[p], env.theirs(p));
    } else {
      assert v.serverHashReady[p := env.theirs(p)] == v.serverHashReady;
    }
  }

  lemma AwaitedIsAnswered(env: Env, s: State, p: Path)
    requires Answered(env, s, p) && p in s.awaiting
    ensures p in s.serverHashReady
  {
  }

  lemma KnownHash(env: Env, s: State, p: Path)
    requires Inv(env, s) && p in s.serverHashReady
    ensures s.serverHashReady[p] == env.theirs(p)
  {
    hide Counted, Listed, Spoiled;
    assert PathInv(env, s, p);
    ValuesOf(env, s, p);
  }

  lemma PairableFacts(env: Env, v: State, p: Path)
    requires PathInv(env, v, p) && Pairs(v, p) && !v.localReadFailed
    ensures OnWire(v, p) == 0 && Unhashed(v, p) == 0 && v.awaiting[p].remote.path == p && NeedsHash(env, v.awaiting[p])
    ensures v.localResults[p] == LocalOf(env, p)
  {
    hide Stages, NeedsHash, OnWire, Unhashed;
  }

  /** Pairing a file before its announcement is looked at keeps the invariant too. */
  lemma EarlyPair(env: Env, v: State, p: Path)
    requires Inv(env, v) && Pairs(v, p) && !v.localReadFailed
    ensures Inv(env, Finalized(v, p, v.localResults[p], env.theirs(p)))
  {
    hide PathInv, Listed, Open, NeedsHash, OnWire, Unhashed, Lost, Finalized;
    var t := Finalized(v, p, v.localResults[p], env.theirs(p));
    assert PathInv(env, v, p);
    PairableFacts(env, v, p);
    forall q: Path ensures PathInv(env, t, q) {
      assert PathInv(env, v, q);
      PairKeepsPath(env, v, p, q);
    }
    FinalLists(env, v, p);
    FinalSpoils(v, p, env.theirs(p));
    PairCounts(v, p, v.localResults[p], env.theirs(p));
  }

  lemma PairKeepsPath(env: Env, v: State, p: Path, q: Path)
    requires PathInv(env, v, q) && Pairs(v, p) && !v.localReadFailed
    requires OnWire(v, p) == 0 && Unhashed(v, p) == 0 && v.awaiting[p].remote.path == p
    ensures PathInv(env, Finalized(v, p, v.localResults[p], env.theirs(p)), q)
  {
    hide Stages, Values, Waiting, Hashing, OnWire, Unhashed, Finalized;
    FinalKeeps(env, v, p, v.localResults[p], env.theirs(p), q);
  }

  lemma PairCounts(v: State, p: Path, local: LocalResult, server: Hash)
    requires Counted(v) && p in v.awaiting && p in v.serverHashReady
    ensures Counted(Finalized(v, p, local, server))
  {
    hide Open;
    OpenCloses(v.awaiting, v.serverHashReady, p);
  }

  // ----- The harm it does -----

  /** Nothing but tuning is left to do. */
  ghost predicate Quiet(s: State) {
    forall a: Action :: Enabled(s, a) ==> a.Tune?
  }

  ghost predicate WedgedRun(env: Env, s: State, ss: seq<State>, acts: seq<Action>) {
    Follows(env, ss, acts) && ss[0] == s && Quiet(ss[|ss|-1]) && !Finished(ss[|ss|-1])
  }

  /** The session can come to a halt without having ended. */
  ghost predicate CanWedge(env: Env, s: State) {
    exists ss: seq<State>, acts: seq<Action> :: WedgedRun(env, s, ss, acts)
  }

  lemma Prepend(env: Env, s: State, a: Action)
    requires Enabled(s, a) && CanWedge(env, Step(env, s, a))
    ensures CanWedge(env, s)
  {
    hide Possible, Step, Finished;
    var ss: seq<State>, acts: seq<Action> :| WedgedRun(env, Step(env, s, a), ss, acts);
    var ss', acts' := [s] + ss, [a] + acts;
    forall i | 0 <= i < |acts'| ensures Enabled(ss'[i], acts'[i]) && Step(env, ss'[i], acts'[i]) == ss'[i + 1] {
      if i > 0 {
        var k := i - 1;
        assert Enabled(ss[k], acts[k]) && Step(env, ss[k], acts[k]) == ss[k + 1];
      }
    }
    assert WedgedRun(env, s, ss', acts');
  }

  lemma HaltsHere(env: Env, s: State)
    requires Quiet(s) && !Finished(s)
    ensures CanWedge(env, s)
  {
    hide Quiet, Finished;
    assert WedgedRun(env, s, [s], []);
  }

  /** Whatever happens next, a session that counted it comes to a halt without having ended. */
  lemma {:induction false} ShortWedges(env: Env, s: State)
    requires Short(env, s) && DistinctPaths(env) && AllReadable(env)
    ensures CanWedge(env, s)
    decreases Measure(s)
  {
    hide Short, Step, Possible, Finished, Measure, CanWedge, DistinctPaths, AllReadable;
    ShortGoesOn(env, s);
    if Quiet(s) {
      HaltsHere(env, s);
    } else {
      var a: Action :| Enabled(s, a) && !a.Tune?;
      StepDecreases(env, s, a);
      ShortStep(env, s, a);
      ShortWedges(env, Step(env, s, a));
      Prepend(env, s, a);
    }
  }

  /** And no continuation of it ever meets the loop's own condition. */
  lemma {:induction false} NeverFinishes(env: Env, ss: seq<State>, acts: seq<Action>, i: nat)
    requires Follows(env, ss, acts) && i < |ss| && Short(env, ss[0]) && DistinctPaths(env) && AllReadable(env)
    ensures Short(env, ss[i]) && !Finished(ss[i])
  {
    hide Short, Step, Possible, Finished, DistinctPaths, AllReadable;
    if i > 0 {
      var k := i - 1;
      NeverFinishes(env, ss, acts, k);
      assert Enabled(ss[k], acts[k]) && Step(env, ss[k], acts[k]) == ss[k + 1];
      ShortStep(env, ss[k], acts[k]);
    }
    ShortGoesOn(env, ss[i]);
  }

  // ----- When it does none -----

  function Lift(a: Action, j: nat): Action {
    if a.RecvResponse? && a.k >= j then RecvResponse(a.k + 1) else a
  }

  lemma LiftEnabled(s: State, j: nat, a: Action)
    requires j < |s.responses| && Enabled(Base(s, j), a)
    ensures Enabled(s, Lift(a, j))
  {
    BaseLength(s, j);
    hide Without;
  }

  /** A session that comes to a halt with it unread has ended. */
  lemma PendingQuiet(env: Env, s: State, j: nat, p: Path)
    requires Pending(env, s, j, p) && Quiet(s)
    ensures Finished(s)
  {
    hide Inv, Enabled, Answered, Without;
    forall a: Action | Enabled(Base(s, j), a) ensures a.Tune? {
      LiftEnabled(s, j, a);
    }
    if !Finished(Base(s, j)) {
      SomethingCanHappen(env, Base(s, j));
    }
  }

  /** It was ignored, or will be: its path is not awaited. */
  ghost predicate Fine(env: Env, s: State, p: Path) {
    || (Inv(env, s) && InRange(s))
    || (p !in s.awaiting && exists j: nat :: Pending(env, s, j, p))
  }

  lemma SoundStep(env: Env, s: State, a: Action)
    requires Inv(env, s) && InRange(s) && DistinctPaths(env) && Enabled(s, a)
    ensures Inv(env, Step(env, s, a)) && InRange(Step(env, s, a))
  {
    hide Inv, Step, Possible, DistinctPaths, InRange;
    StepKeeps(env, s, a);
    FlightIsCount(env, s);
    StepInRange(env, s, a);
  }

  lemma IgnoredStep(env: Env, s: State, j: nat, p: Path)
    requires Pending(env, s, j, p) && p !in s.awaiting
    ensures Responded(env, s, j) == Base(s, j) && Inv(env, Base(s, j)) && InRange(Base(s, j))
  {
    hide Inv, Answered, Without;
  }

  lemma FineStep(env: Env, s: State, a: Action, p: Path)
    requires Fine(env, s, p) && DistinctPaths(env) && AllReadable(env) && Enabled(s, a)
    ensures Fine(env, Step(env, s, a), p)
  {
    hide Inv, Pending, Possible, Responded, DistinctPaths, AllReadable, InRange;
    if Inv(env, s) && InRange(s) {
      SoundStep(env, s, a);
    } else {
      var j: nat :| Pending(env, s, j, p);
      if a == RecvResponse(j) {
        IgnoredStep(env, s, j, p);
      } else {
        PendingStep(env, s, j, p, a);
      }
    }
  }

  lemma FineQuiet(env: Env, s: State, p: Path)
    requires Fine(env, s, p) && Quiet(s) && AllReadable(env)
    ensures Finished(s)
  {
    hide Inv, Pending, Enabled, AllReadable, InRange, Finished;
    if Inv(env, s) && InRange(s) {
      NeverFails(env, s);
      if !Finished(s) {
        SomethingCanHappen(env, s);
      }
    } else {
      var j: nat :| Pending(env, s, j, p);
      PendingQuiet(env, s, j, p);
    }
  }

  /** Nothing is left that a request would have to be sent for. */
  ghost predicate NothingToSend(env: Env, s: State) {
    s.hashQueue == [] && forall k :: 0 <= k < |s.comparing| ==> !OutcomeOf(env, s.comparing[k]).needHash
  }

  /** The loop has stopped receiving, for good. */
  ghost predicate ShutOut(env: Env, s: State, p: Path) {
    && s.manifestDone && s.inFlight == 0 && NothingToSend(env, s)
    && exists j: nat :: Pending(env, s, j, p)
  }

  lemma ShutFacts(env: Env, s: State, j: nat, p: Path)
    requires Pending(env, s, j, p) && s.manifestDone && s.inFlight == 0
    ensures s.toCome == [] && s.requested == []
  {
    hide PathInv, Listed, Spoiled, Open, Answered;
  }

  lemma ShutStep(env: Env, s: State, a: Action, p: Path)
    requires ShutOut(env, s, p) && DistinctPaths(env) && AllReadable(env) && Enabled(s, a)
    ensures ShutOut(env, Step(env, s, a), p)
  {
    hide Pending, DistinctPaths, AllReadable;
    var j: nat :| Pending(env, s, j, p);
    ShutFacts(env, s, j, p);
    PendingStep(env, s, j, p, a);
    StaysShut(env, s, a);
  }

  lemma FinalShut(s: State, q: Path, local: LocalResult, server: Hash)
    requires q in s.awaiting
    ensures var t := Finalized(s, q, local, server);
            t.manifestDone == s.manifestDone && t.inFlight == s.inFlight && t.hashQueue == s.hashQueue
            && t.comparing == s.comparing
  {
  }

  lemma StaysShut(env: Env, s: State, a: Action)
    requires s.manifestDone && s.inFlight == 0 && NothingToSend(env, s) && s.toCome == [] && Enabled(s, a)
    ensures var t := Step(env, s, a); t.manifestDone && t.inFlight == 0 && NothingToSend(env, t)
  {
    hide DecideCompare, Finalized;
    if a.DrainCompare? {
      ComparedIs(env, s, a.k);
      hide Compared;
    } else if a.DrainReady? && Pairs(s, s.done[0]) {
      var q := s.done[0];
      FinalShut(s.(done := s.done[1..]), q, s.localResults[q], s.serverHashReady[q]);
    }
  }

  lemma ShutQuiet(env: Env, s: State, p: Path)
    requires ShutOut(env, s, p) && Quiet(s)
    ensures Finished(s)
  {
    hide Pending, Enabled, Finished;
    var j: nat :| Pending(env, s, j, p);
    PendingQuiet(env, s, j, p);
  }

  lemma {:induction false} StaysHarmless(env: Env, ss: seq<State>, acts: seq<Action>, i: nat, p: Path)
    requires Follows(env, ss, acts) && i < |ss| && DistinctPaths(env) && AllReadable(env)
    requires Fine(env, ss[0], p) || ShutOut(env, ss[0], p)
    ensures Fine(env, ss[i], p) || ShutOut(env, ss[i], p)
  {
    hide Fine, ShutOut, Step, Possible, DistinctPaths, AllReadable;
    if i > 0 {
      var k := i - 1;
      StaysHarmless(env, ss, acts, k, p);
      assert Enabled(ss[k], acts[k]) && Step(env, ss[k], acts[k]) == ss[k + 1];
      if Fine(env, ss[k], p) {
        FineStep(env, ss[k], acts[k], p);
      } else {
        ShutStep(env, ss[k], acts[k], p);
      }
    }
  }

  lemma Harmless(env: Env, s: State, p: Path)
    requires DistinctPaths(env) && AllReadable(env) && (Fine(env, s, p) || ShutOut(env, s, p))
    ensures !CanWedge(env, s)
  {
    hide Fine, ShutOut, Step, Possible, Finished, Quiet, DistinctPaths, AllReadable;
    forall ss: seq<State>, acts: seq<Action> | Follows(env, ss, acts) && ss[0] == s && Quiet(ss[|ss|-1])
      ensures Finished(ss[|ss|-1])
    {
      var n := |ss| - 1;
      StaysHarmless(env, ss, acts, n, p);
      if Fine(env, ss[n], p) {
        FineQuiet(env, ss[n], p);
      } else {
        ShutQuiet(env, ss[n], p);
      }
    }
  }

  // ----- How an awaited one gets through -----

  lemma ReceiptWedges(env: Env, s: State, j: nat, p: Path)
    requires DistinctPaths(env) && AllReadable(env) && Pending(env, s, j, p) && p in s.awaiting && Receives(s)
    ensures CanWedge(env, s)
  {
    hide Inv, Answered, Without, CanWedge, Short, Responded, DistinctPaths, AllReadable;
    ReceiptCounts(env, s, j, p);
    assert Enabled(s, RecvResponse(j)) && Step(env, s, RecvResponse(j)) == Responded(env, s, j);
    ShortWedges(env, Responded(env, s, j));
    Prepend(env, s, RecvResponse(j));
  }

  lemma PendingCounts(env: Env, s: State, j: nat, p: Path)
    requires Pending(env, s, j, p)
    ensures s.localInFlight == |s.hashing| + |s.stored| && s.window >= 1 && s.workerCap >= 1
  {
    hide PathInv, Listed, Spoiled, Open, Answered;
  }

  /** What the workers do next, as long as they hold up the local gate. */
  function NextWork(s: State): Action
    requires s.tasks != [] || s.popped != [] || s.hashing != [] || s.stored != []
  {
    if s.tasks != [] then PopTask else if s.popped != [] then BeginHash(0)
    else if s.hashing != [] then StoreHash(0) else EndHash(0)
  }

  lemma WorkFrame(env: Env, s: State)
    requires s.tasks != [] || s.popped != [] || s.hashing != [] || s.stored != []
    ensures var a := NextWork(s);
            && Enabled(s, a) && !a.Tune? && !a.RecvResponse?
            && var t := Step(env, s, a);
            && t.awaiting == s.awaiting && t.hashQueue == s.hashQueue && t.inFlight == s.inFlight
  {
    hide Without;
  }

  /** The workers catch up, a request goes out, and the loop receives again. */
  lemma {:induction false} SendingWedges(env: Env, s: State, j: nat, p: Path)
    requires DistinctPaths(env) && AllReadable(env) && Pending(env, s, j, p) && p in s.awaiting
    requires s.hashQueue != [] && s.inFlight == 0
    ensures CanWedge(env, s)
    decreases Measure(s)
  {
    hide Pending, Step, Possible, CanWedge, Measure, DistinctPaths, AllReadable, GatesOpen, Receives;
    if s.tasks != [] || s.popped != [] || s.hashing != [] || s.stored != [] {
      var a := NextWork(s);
      WorkFrame(env, s);
      StepDecreases(env, s, a);
      PendingStep(env, s, j, p, a);
      SendingWedges(env, Step(env, s, a), j, p);
      Prepend(env, s, a);
    } else {
      PendingCounts(env, s, j, p);
      SendFrame(env, s, p);
      PendingStep(env, s, j, p, Send);
      ReceiptWedges(env, Step(env, s, Send), j, p);
      Prepend(env, s, Send);
    }
  }

  lemma SendFrame(env: Env, s: State, p: Path)
    requires s.hashQueue != [] && s.inFlight == 0 && s.tasks == [] && s.localInFlight == 0
    requires s.window >= 1 && s.workerCap >= 1 && p in s.awaiting
    ensures Enabled(s, Send) && Receives(Step(env, s, Send)) && p in Step(env, s, Send).awaiting
  {
  }

  lemma QueueingWedges(env: Env, s: State, j: nat, p: Path)
    requires DistinctPaths(env) && AllReadable(env) && Pending(env, s, j, p) && p in s.awaiting
    requires !NothingToSend(env, s) && s.inFlight == 0
    ensures CanWedge(env, s)
  {
    hide Pending, CanWedge, DistinctPaths, AllReadable, DecideCompare;
    if s.hashQueue != [] {
      SendingWedges(env, s, j, p);
    } else {
      var k :| 0 <= k < |s.comparing| && OutcomeOf(env, s.comparing[k]).needHash;
      var a := DrainCompare(k);
      ComparedIs(env, s, k);
      PendingStep(env, s, j, p, a);
      SendingWedges(env, Step(env, s, a), j, p);
      Prepend(env, s, a);
    }
  }

  // ----- The condition -----

  /** With one response too many on the wire, every continuation of the session that comes to a halt has
      ended by the loop's own condition, if and only if the path is not awaited any more, or the manifest is
      done, nothing is in flight and no request is left to be sent, so that the loop does not receive again. */
  lemma HarmlessIff(env: Env, s: State, j: nat, p: Path)
    requires DistinctPaths(env) && AllReadable(env) && Pending(env, s, j, p)
    ensures !CanWedge(env, s)
            <==> p !in s.awaiting || (s.manifestDone && s.inFlight == 0 && NothingToSend(env, s))
  {
    hide Pending, CanWedge, DistinctPaths, AllReadable, NothingToSend;
    if p !in s.awaiting || (s.manifestDone && s.inFlight == 0 && NothingToSend(env, s)) {
      Harmless(env, s, p);
    } else if Receives(s) {
      ReceiptWedges(env, s, j, p);
    } else {
      PendingFlight(env, s, j, p);
      QueueingWedges(env, s, j, p);
    }
  }

  lemma PendingFlight(env: Env, s: State, j: nat, p: Path)
    requires Pending(env, s, j, p)
    ensures 0 <= s.inFlight < TWO_64
  {
    hide Answered, Without;
    FlightIsCount(env, Base(s, j));
    hide Inv;
  }

  /** Putting one more answer for an answered path on the wire, in any state of any run. */
  function OneMore(s: State, p: Path): State {
    s.(responses := s.responses + [p])
  }

  lemma OneMoreIsPending(env: Env, ss: seq<State>, acts: seq<Action>, i: nat, p: Path)
    requires IsRun(env, ss, acts) && DistinctPaths(env) && AllReadable(env) && i < |ss| && Answered(env, ss[i], p)
    ensures Pending(env, OneMore(ss[i], p), |ss[i].responses|, p)
  {
    hide Inv, IsRun, DistinctPaths, AllReadable;
    RunKeeps(env, ss, acts, i);
    NeverFails(env, ss[i]);
    var s := OneMore(ss[i], p);
    assert Without(s.responses, |ss[i].responses|) == ss[i].responses;
    assert Base(s, |ss[i].responses|) == ss[i];
  }

  /** So for every session: one answer more for a path that was answered does harm or not by the state it
      finds. */
  lemma DuplicateInSession(env: Env, ss: seq<State>, acts: seq<Action>, i: nat, p: Path)
    requires IsRun(env, ss, acts) && DistinctPaths(env) && AllReadable(env) && i < |ss| && Answered(env, ss[i], p)
    ensures var s := ss[i];
            !CanWedge(env, OneMore(s, p))
            <==> p !in s.awaiting || (s.manifestDone && s.inFlight == 0 && NothingToSend(env, s))
  {
    hide IsRun, DistinctPaths, AllReadable, Answered, Pending, CanWedge;
    OneMoreIsPending(env, ss, acts, i, p);
    HarmlessIff(env, OneMore(ss[i], p), |ss[i].responses|, p);
  }

  // ----- What is left of a session that counted one -----

  lemma ShortCounts(env: Env, s: State)
    requires Short(env, s) && AllReadable(env)
    ensures s.inFlight + 1 == |s.requested| + |s.responses| == Open(s.awaiting, s.serverHashReady)
    ensures s.inFlight < TWO_64 && s.window >= 1 && s.workerCap >= 1 && s.localInFlight == |s.hashing| + |s.stored|
  {
    NeverFails(env, Shifted(s, 1));
    hide PathInv, Listed, Spoiled, Open, AllReadable;
  }

  lemma QuietLists(s: State)
    requires Quiet(s)
    ensures s.manifestDone && s.comparing == [] && s.requested == [] && s.tasks == [] && s.popped == []
    ensures s.hashing == [] && s.stored == [] && s.ending == [] && s.ready == [] && s.done == []
    ensures s.responses == [] || Wrap64(s.inFlight) == 0
    ensures s.hashQueue == [] || !GatesOpen(s)
  {
    hide GatesOpen;
    assert !Enabled(s, RecvEntry) && !Enabled(s, RecvEnd) && !Enabled(s, DrainCompare(0)) && !Enabled(s, Respond(0));
    assert !Enabled(s, PopTask) && !Enabled(s, BeginHash(0)) && !Enabled(s, StoreHash(0)) && !Enabled(s, EndHash(0));
    assert !Enabled(s, Announce(0)) && !Enabled(s, SwapReady) && !Enabled(s, DrainReady);
    assert !Enabled(s, RecvResponse(0)) && !Enabled(s, Send);
  }

  /** It halts in one of two ways: with the counter at 2^64 - 1 and nothing awaited, or with one answer on
      the wire that the loop never receives. */
  lemma HowItHalts(env: Env, s: State)
    requires Short(env, s) && AllReadable(env) && Quiet(s)
    ensures if s.responses == [] then Wrap64(s.inFlight) == TWO_64 - 1 && s.awaiting == map[]
            else s.inFlight == 0 && |s.responses| == 1 && s.hashQueue == [] && !Receives(s)
  {
    hide Inv, AllReadable, Open, Quiet;
    ShortCounts(env, s);
    QuietLists(s);
    if s.responses == [] {
      NeverFails(env, Shifted(s, 1));
      NothingAwaited(env, Shifted(s, 1));
    }
  }
}
