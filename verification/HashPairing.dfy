/**
 The check engine: manifest entries go through the compare pipeline; those the metadata does not decide
 have their local hash computed by workers and their remote hash asked of the server, and are recorded
 when both are there, whichever comes first.
 */
module HashPairing {
  import opened ComparePhase
  import opened Ints
  import opened Multiplicity

  type Path = string
  type Hash = nat

  /** What the session runs against: the manifest, the local tree, which local files can be read, and the
      hashes on both sides. */
  datatype Env = Env(mode: Mode, manifest: seq<FileEntry>, probe: Path -> Option<FileEntry>,
                     readable: Path -> bool, mine: Path -> Hash, theirs: Path -> Hash)

  /** What a hash worker concludes about a file. */
  datatype LocalResult = Hashed(hash: Hash) | Failed

  datatype Need = Need(remote: FileEntry, local: Option<FileEntry>)
  datatype Record = Record(remote: FileEntry, local: Option<FileEntry>, category: Category, hashCompared: bool)

  // ----- The sequential comparison -----

  function OutcomeOf(env: Env, e: FileEntry): Outcome {
    DecideCompare(env.mode, env.probe(e.path), e)
  }

  function RecordOf(env: Env, e: FileEntry): Record {
    Record(e, env.probe(e.path), Verdict(env.mode, env.probe(e.path), e, true, env.mine(e.path), env.theirs(e.path)),
           OutcomeOf(env, e).needHash)
  }

  function Sequential(env: Env, es: seq<FileEntry>): seq<Record> {
    if es == [] then [] else Sequential(env, es[..|es|-1]) + [RecordOf(env, es[|es|-1])]
  }

  function LocalOf(env: Env, p: Path): LocalResult {
    if env.readable(p) then Hashed(env.mine(p)) else Failed
  }

  /** Every file whose comparison needs its hash can be read. */
  ghost predicate AllReadable(env: Env) {
    forall e :: e in env.manifest && OutcomeOf(env, e).needHash ==> env.readable(e.path)
  }

  // ----- The engine -----

  /** toCome and requested, responses are the server's side; comparing holds the entries in the compare
      pipeline or its overflow; popped, hashing, stored and ending are the hash workers between their
      critical sections; done is the part of the ready queue the main loop has swapped out. The two counters
      of operations in flight are 64-bit words in the program: what it compares is their value modulo 2^64. */
  datatype State = State(toCome: seq<FileEntry>, manifestDone: bool, comparing: seq<FileEntry>,
                         hashQueue: seq<Need>, awaiting: map<Path, Need>, inFlight: int,
                         serverHashReady: map<Path, Hash>, requested: seq<Path>, responses: seq<Path>,
                         tasks: seq<Path>, popped: seq<Path>, hashing: seq<Path>, stored: seq<Path>,
                         ending: seq<Path>, localInFlight: int, localResults: map<Path, LocalResult>,
                         ready: seq<Path>, done: seq<Path>, recorded: seq<Record>,
                         localReadFailed: bool, window: u64, workerCap: nat)

  datatype Action =
    | RecvEntry | RecvEnd | DrainCompare(k: nat) | Send
    | Respond(k: nat) | RecvResponse(k: nat)
    | PopTask | BeginHash(k: nat) | StoreHash(k: nat) | EndHash(k: nat) | Announce(k: nat)
    | SwapReady | DrainReady | DropDone
    | Tune(window: u64, workerCap: nat)

  function Begin(env: Env, window: u64, workerCap: nat): State {
    State(env.manifest, false, [], [], map[], 0, map[], [], [], [], [], [], [], [], 0, map[], [], [], [],
          false, window, workerCap)
  }

  const BACKLOG_FACTOR: nat := 4

  /** The two gates of pump: the network window, and the local backlog. */
  predicate GatesOpen(s: State) {
    Wrap64(s.inFlight) < s.window && Wrap64(|s.tasks| + s.localInFlight) < BACKLOG_FACTOR * s.workerCap
  }

  /** The main loop calls recv only while manifest frames or responses are to come. */
  predicate Receives(s: State) {
    !s.manifestDone || Wrap64(s.inFlight) > 0
  }

  /** There is something the action works on. */
  predicate Possible(s: State, a: Action) {
    match a
    case RecvEntry => s.toCome != []
    case RecvEnd => s.toCome == [] && !s.manifestDone
    case DrainCompare(k) => k < |s.comparing|
    case Send => s.hashQueue != []
    case Respond(k) => k < |s.requested|
    case RecvResponse(k) => k < |s.responses|
    case PopTask => s.tasks != []
    case BeginHash(k) => k < |s.popped|
    case StoreHash(k) => k < |s.hashing|
    case EndHash(k) => k < |s.stored|
    case Announce(k) => k < |s.ending|
    case SwapReady => s.ready != [] && s.done == []
    case DrainReady => s.done != []
    case DropDone => s.localReadFailed && s.done != []
    case Tune(window, cap) => window >= 1 && cap >= 1
  }

  predicate Enabled(s: State, a: Action) {
    Possible(s, a) && (a.Send? ==> GatesOpen(s)) && (a.RecvResponse? ==> Receives(s))
  }

  // ----- What each step does -----

  function Compared(env: Env, s: State, k: nat): State
    requires k < |s.comparing|
  {
    var e := s.comparing[k];
    var local := env.probe(e.path);
    var o := DecideCompare(env.mode, local, e);
    var rest := Without(s.comparing, k);
    if o.needHash then s.(comparing := rest, hashQueue := s.hashQueue + [Need(e, local)])
    else s.(comparing := rest, recorded := s.recorded + [Record(e, local, o.category, false)])
  }

  /** Request and local task go out together. */
  function Sent(s: State): State
    requires s.hashQueue != []
  {
    var need := s.hashQueue[0];
    var p := need.remote.path;
    s.(hashQueue := s.hashQueue[1..], awaiting := if p in s.awaiting then s.awaiting else s.awaiting[p := need],
       requested := s.requested + [p], tasks := s.tasks + [p], inFlight := s.inFlight + 1)
  }

  /** A paired file is recorded and forgotten; one whose local hash failed is kept, and spoils the session. */
  function Finalized(s: State, p: Path, local: LocalResult, server: Hash): State
    requires p in s.awaiting
  {
    match local
    case Hashed(hash) =>
      var need := s.awaiting[p];
      s.(recorded := s.recorded + [Record(need.remote, need.local, ClassifyByHash(true, hash, server), true)],
         awaiting := s.awaiting - {p}, serverHashReady := s.serverHashReady - {p})
    case Failed => s.(localReadFailed := true)
  }

  function Responded(env: Env, s: State, k: nat): State
    requires k < |s.responses|
  {
    var p := s.responses[k];
    var rest := Without(s.responses, k);
    if p !in s.awaiting then s.(responses := rest)
    else
      var u := s.(responses := rest, inFlight := s.inFlight - 1);
      if p in u.localResults then Finalized(u, p, u.localResults[p], env.theirs(p))
      else u.(serverHashReady := u.serverHashReady[p := env.theirs(p)])
  }

  predicate Pairs(s: State, p: Path) {
    p in s.awaiting && p in s.serverHashReady && p in s.localResults
  }

  function ReadyDrained(s: State): State
    requires s.done != []
  {
    var p := s.done[0];
    var t := s.(done := s.done[1..]);
    if Pairs(t, p) then Finalized(t, p, t.localResults[p], t.serverHashReady[p]) else t
  }

  function Step(env: Env, s: State, a: Action): State
    requires Possible(s, a)
  {
    match a
    case RecvEntry => s.(toCome := s.toCome[1..], comparing := s.comparing + [s.toCome[0]])
    case RecvEnd => s.(manifestDone := true)
    case DrainCompare(k) => Compared(env, s, k)
    case Send => Sent(s)
    case Respond(k) => s.(requested := Without(s.requested, k), responses := s.responses + [s.requested[k]])
    case RecvResponse(k) => Responded(env, s, k)
    case PopTask => s.(tasks := s.tasks[1..], popped := s.popped + [s.tasks[0]])
    case BeginHash(k) =>
      s.(popped := Without(s.popped, k), hashing := s.hashing + [s.popped[k]], localInFlight := s.localInFlight + 1)
    case StoreHash(k) =>
      var p := s.hashing[k];
      s.(hashing := Without(s.hashing, k), stored := s.stored + [p],
         localResults := s.localResults[p := LocalOf(env, p)])
    case EndHash(k) =>
      s.(stored := Without(s.stored, k), ending := s.ending + [s.stored[k]], localInFlight := s.localInFlight - 1)
    case Announce(k) => s.(ending := Without(s.ending, k), ready := s.ready + [s.ending[k]])
    case SwapReady => s.(ready := [], done := s.ready)
    case DrainReady => ReadyDrained(s)
    case DropDone => s.(done := [])
    case Tune(window, cap) => s.(window := window, workerCap := cap)
  }

  /** The condition on which the main loop ends; it also breaks off once localReadFailed is set. */
  predicate Finished(s: State) {
    s.manifestDone && s.comparing == [] && s.hashQueue == [] && Wrap64(s.inFlight) == 0 && s.awaiting == map[]
  }

  // ----- The invariant, path by path -----

  function Paths(es: seq<FileEntry>): (r: seq<Path>)
    ensures |r| == |es|
  {
    if es == [] then [] else Paths(es[..|es|-1]) + [es[|es|-1].path]
  }

  function NeedPaths(ns: seq<Need>): (r: seq<Path>)
    ensures |r| == |ns|
  {
    if ns == [] then [] else NeedPaths(ns[..|ns|-1]) + [ns[|ns|-1].remote.path]
  }

  function RecordPaths(rs: seq<Record>): (r: seq<Path>)
    ensures |r| == |rs|
  {
    if rs == [] then [] else RecordPaths(rs[..|rs|-1]) + [rs[|rs|-1].remote.path]
  }

  /** How often a path is anywhere on its way from the manifest to the report. */
  function Stages(s: State, p: Path): nat {
    Occ(Paths(s.toCome), p) + Occ(Paths(s.comparing), p) + Occ(NeedPaths(s.hashQueue), p)
    + (if p in s.awaiting then 1 else 0) + Occ(RecordPaths(s.recorded), p)
  }

  function OnWire(s: State, p: Path): nat {
    Occ(s.requested, p) + Occ(s.responses, p)
  }

  /** Local hash queued or running. */
  function Unhashed(s: State, p: Path): nat {
    Occ(s.tasks, p) + Occ(s.popped, p) + Occ(s.hashing, p)
  }

  /** Local hash stored, its announcement on the way to the main loop. */
  function Unseen(s: State, p: Path): nat {
    Occ(s.stored, p) + Occ(s.ending, p) + Occ(s.ready, p) + Occ(s.done, p)
  }

  ghost predicate NeedsHash(env: Env, need: Need) {
    need.local == env.probe(need.remote.path) && OutcomeOf(env, need.remote).needHash && need.remote in env.manifest
  }

  /** What the maps hold is right. */
  ghost predicate Values(env: Env, s: State, p: Path) {
    && (p in s.awaiting ==> NeedsHash(env, s.awaiting[p]) && s.awaiting[p].remote.path == p)
    && (p in s.serverHashReady ==> s.serverHashReady[p] == env.theirs(p))
    && (p in s.localResults ==> s.localResults[p] == LocalOf(env, p))
  }

  ghost predicate Waiting(s: State, p: Path) {
    && OnWire(s, p) == (if p in s.awaiting && p !in s.serverHashReady then 1 else 0)
    && (p in s.serverHashReady ==> p in s.awaiting)
  }

  ghost predicate Hashing(s: State, p: Path) {
    && Unhashed(s, p) == (if p in s.awaiting && p !in s.localResults then 1 else 0)
    && (p in s.localResults ==> p in s.awaiting || Occ(RecordPaths(s.recorded), p) > 0)
    && (Unseen(s, p) > 0 ==> p in s.localResults)
    && (p in s.awaiting && p in s.localResults && p in s.serverHashReady ==> Unseen(s, p) > 0)
  }

  /** The pairing of a path is on its way until a local read fails; the rest holds in any case. */
  ghost predicate PathInv(env: Env, s: State, p: Path) {
    && Stages(s, p) == Occ(Paths(env.manifest), p) && Values(env, s, p)
    && (s.localReadFailed || (Waiting(s, p) && Hashing(s, p)))
  }

  ghost predicate RightRecord(env: Env, r: Record) {
    r.remote in env.manifest && r == RecordOf(env, r.remote) && (r.hashCompared ==> env.readable(r.remote.path))
  }

  ghost predicate Listed(env: Env, s: State) {
    && (forall i :: 0 <= i < |s.toCome| ==> s.toCome[i] in env.manifest)
    && (forall i :: 0 <= i < |s.comparing| ==> s.comparing[i] in env.manifest)
    && (forall i :: 0 <= i < |s.hashQueue| ==> NeedsHash(env, s.hashQueue[i]))
    && (forall i :: 0 <= i < |s.recorded| ==> RightRecord(env, s.recorded[i]))
  }

  /** The awaited paths without a server hash. */
  function Open<V>(awaiting: map<Path, V>, serverHashReady: map<Path, Hash>): nat {
    |awaiting.Keys - serverHashReady.Keys|
  }

  ghost predicate Counted(s: State) {
    && (s.localReadFailed || s.inFlight == |s.requested| + |s.responses| == Open(s.awaiting, s.serverHashReady))
    && s.localInFlight == |s.hashing| + |s.stored|
    && (s.manifestDone ==> s.toCome == []) && s.window >= 1 && s.workerCap >= 1
  }

  ghost predicate DistinctPaths(env: Env) {
    forall p: Path :: Occ(Paths(env.manifest), p) <= 1
  }

  predicate Lost(s: State, p: Path) {
    p in s.awaiting && p in s.localResults && s.localResults[p].Failed?
  }

  /** A failed read leaves its file awaited for good. */
  ghost predicate Spoiled(s: State) {
    s.localReadFailed ==> exists p: Path :: Lost(s, p)
  }

  ghost predicate Inv(env: Env, s: State) {
    (forall p: Path :: PathInv(env, s, p)) && Listed(env, s) && Counted(s) && Spoiled(s)
  }

  // ----- Counting paths -----

  lemma {:induction false} PathsCat(a: seq<FileEntry>, b: seq<FileEntry>)
    ensures Paths(a + b) == Paths(a) + Paths(b)
  {
    if b == [] {
      assert a + b == a;
    } else {
      PathsCat(a, b[..|b|-1]);
      assert (a + b)[..|a + b|-1] == a + b[..|b|-1];
    }
  }

  lemma PathsOne(e: FileEntry)
    ensures Paths([e]) == [e.path]
  {
    assert [e][..0] == [];
  }

  lemma PathsTail(es: seq<FileEntry>)
    requires es != []
    ensures Paths(es) == [es[0].path] + Paths(es[1..])
  {
    assert es == [es[0]] + es[1..];
    PathsCat([es[0]], es[1..]);
    PathsOne(es[0]);
  }

  lemma PathsAround(es: seq<FileEntry>, k: nat)
    requires k < |es|
    ensures Paths(es) == Paths(es[..k]) + ([es[k].path] + Paths(es[k+1..]))
    ensures Paths(Without(es, k)) == Paths(es[..k]) + Paths(es[k+1..])
  {
    hide Paths;
    var a, b := es[..k], es[k..];
    PathsCat(a, b);
    assert es == a + b;
    PathsTail(b);
    assert b[1..] == es[k+1..];
    PathsCat(a, es[k+1..]);
  }

  lemma PathsWithout(es: seq<FileEntry>, k: nat, p: Path)
    requires k < |es|
    ensures Occ(Paths(es), p) == Occ(Paths(Without(es, k)), p) + if p == es[k].path then 1 else 0
  {
    hide Paths, Occ, Without;
    PathsAround(es, k);
    var a, b := Paths(es[..k]), Paths(es[k+1..]);
    OccCat(a, [es[k].path] + b, p);
    OccCat([es[k].path], b, p);
    OccOne(es[k].path, p);
    OccCat(a, b, p);
  }

  lemma PathsPush(es: seq<FileEntry>, e: FileEntry, p: Path)
    ensures Occ(Paths(es + [e]), p) == Occ(Paths(es), p) + if p == e.path then 1 else 0
  {
    PathsCat(es, [e]);
    PathsOne(e);
    OccPush(Paths(es), e.path, p);
  }

  lemma PathsPop(es: seq<FileEntry>, p: Path)
    requires es != []
    ensures Occ(Paths(es), p) == Occ(Paths(es[1..]), p) + if p == es[0].path then 1 else 0
  {
    PathsWithout(es, 0, p);
    assert Without(es, 0) == es[1..];
  }

  lemma NeedPush(ns: seq<Need>, n: Need, p: Path)
    ensures Occ(NeedPaths(ns + [n]), p) == Occ(NeedPaths(ns), p) + if p == n.remote.path then 1 else 0
  {
    assert (ns + [n])[..|ns|] == ns;
    OccPush(NeedPaths(ns), n.remote.path, p);
  }

  lemma {:induction false} NeedPop(ns: seq<Need>)
    requires ns != []
    ensures NeedPaths(ns) == [ns[0].remote.path] + NeedPaths(ns[1..])
  {
    if |ns| > 1 {
      NeedPop(ns[..|ns|-1]);
      assert ns[1..][..|ns|-2] == ns[..|ns|-1][1..];
    }
  }

  lemma NeedPopped(ns: seq<Need>, p: Path)
    requires ns != []
    ensures Occ(NeedPaths(ns), p) == Occ(NeedPaths(ns[1..]), p) + if p == ns[0].remote.path then 1 else 0
  {
    NeedPop(ns);
    OccCat([ns[0].remote.path], NeedPaths(ns[1..]), p);
    OccOne(ns[0].remote.path, p);
  }

  lemma RecordPush(rs: seq<Record>, r: Record, p: Path)
    ensures Occ(RecordPaths(rs + [r]), p) == Occ(RecordPaths(rs), p) + if p == r.remote.path then 1 else 0
  {
    assert (rs + [r])[..|rs|] == rs;
    OccPush(RecordPaths(rs), r.remote.path, p);
  }

  // ----- Steps that only move a path -----

  /** For path p, v is like s. */
  ghost predicate SameFor(s: State, v: State, p: Path) {
    && Stages(v, p) == Stages(s, p) && OnWire(v, p) == OnWire(s, p)
    && Unhashed(v, p) == Unhashed(s, p) && (s.localReadFailed || Unseen(v, p) == Unseen(s, p))
    && v.localReadFailed == s.localReadFailed
    && Occ(RecordPaths(v.recorded), p) >= Occ(RecordPaths(s.recorded), p)
    && (p in v.awaiting <==> p in s.awaiting) && (p in s.awaiting ==> v.awaiting[p] == s.awaiting[p])
    && (p in v.serverHashReady <==> p in s.serverHashReady)
    && (p in s.serverHashReady ==> v.serverHashReady[p] == s.serverHashReady[p])
    && (p in v.localResults <==> p in s.localResults)
    && (p in s.localResults ==> v.localResults[p] == s.localResults[p])
  }

  lemma SameKeeps(env: Env, s: State, v: State, p: Path)
    requires PathInv(env, s, p) && SameFor(s, v, p)
    ensures PathInv(env, v, p)
  {
    hide Stages, OnWire, Unhashed, Unseen, NeedsHash, Occ, Paths, RecordPaths;
  }

  predicate Mover(a: Action) {
    !a.Send? && !a.RecvResponse? && !a.StoreHash? && !a.DrainReady?
  }

  lemma DrainCompareSame(env: Env, s: State, k: nat, p: Path)
    requires k < |s.comparing|
    ensures SameFor(s, Compared(env, s, k), p)
  {
    hide Occ, Paths, NeedPaths, RecordPaths, Without, DecideCompare;
    var e := s.comparing[k];
    var o := OutcomeOf(env, e);
    PathsWithout(s.comparing, k, p);
    if o.needHash {
      NeedPush(s.hashQueue, Need(e, env.probe(e.path)), p);
    } else {
      RecordPush(s.recorded, Record(e, env.probe(e.path), o.category, false), p);
    }
  }

  lemma MoverSame(env: Env, s: State, a: Action, p: Path)
    requires Possible(s, a) && Mover(a)
    ensures SameFor(s, Step(env, s, a), p)
  {
    hide Occ, Paths, NeedPaths, RecordPaths, Without, Compared;
    OccNone(p);
    match a
    case RecvEntry =>
      PathsPop(s.toCome, p);
      PathsPush(s.comparing, s.toCome[0], p);
    case DrainCompare(k) => DrainCompareSame(env, s, k, p);
    case Respond(k) =>
      OccWithout(s.requested, k, p);
      OccPush(s.responses, s.requested[k], p);
    case PopTask =>
      OccPop(s.tasks, p);
      OccPush(s.popped, s.tasks[0], p);
    case BeginHash(k) =>
      OccWithout(s.popped, k, p);
      OccPush(s.hashing, s.popped[k], p);
    case EndHash(k) =>
      OccWithout(s.stored, k, p);
      OccPush(s.ending, s.stored[k], p);
    case Announce(k) =>
      OccWithout(s.ending, k, p);
      OccPush(s.ready, s.ending[k], p);
    case _ =>
  }

  // ----- Steps that pair -----

  lemma SendKeeps(env: Env, s: State, p: Path)
    requires PathInv(env, s, p) && DistinctPaths(env) && s.hashQueue != []
    requires p == s.hashQueue[0].remote.path ==> NeedsHash(env, s.hashQueue[0])
    ensures PathInv(env, Sent(s), p)
    ensures p == s.hashQueue[0].remote.path ==> p !in s.awaiting
  {
    hide Occ, Paths, NeedPaths, RecordPaths, NeedsHash;
    var q := s.hashQueue[0].remote.path;
    NeedPopped(s.hashQueue, p);
    OccPush(s.requested, q, p);
    OccPush(s.tasks, q, p);
    assert Occ(Paths(env.manifest), p) <= 1;
  }

  lemma FinalKeeps(env: Env, s: State, q: Path, local: LocalResult, server: Hash, p: Path)
    requires q in s.awaiting && q in s.localResults && s.awaiting[q].remote.path == q
    requires Stages(s, p) == Occ(Paths(env.manifest), p)
    requires Values(env, s, p) && (s.localReadFailed || (p != q ==> Waiting(s, p) && Hashing(s, p)))
    requires s.localReadFailed || (OnWire(s, q) == 0 && Unhashed(s, q) == 0)
    ensures PathInv(env, Finalized(s, q, local, server), p)
  {
    hide Occ, Paths, NeedPaths, RecordPaths, NeedsHash;
    if local.Hashed? {
      var need := s.awaiting[q];
      RecordPush(s.recorded, Record(need.remote, need.local, ClassifyByHash(true, local.hash, server), true), p);
    }
  }

  /** A response takes its path off the wire; everything else is as before. */
  lemma TakenOffWire(s: State, k: nat, n: int, p: Path)
    requires k < |s.responses|
    ensures var t := s.(responses := Without(s.responses, k), inFlight := n);
            && OnWire(s, p) == OnWire(t, p) + (if p == s.responses[k] then 1 else 0)
            && Stages(t, p) == Stages(s, p) && Unhashed(t, p) == Unhashed(s, p) && Unseen(t, p) == Unseen(s, p)
  {
    hide Occ, Paths, NeedPaths, RecordPaths, Without;
    OccWithout(s.responses, k, p);
  }

  lemma ResponseKeeps(env: Env, s: State, k: nat, p: Path)
    requires k < |s.responses| && PathInv(env, s, p) && PathInv(env, s, s.responses[k])
    ensures PathInv(env, Responded(env, s, k), p)
  {
    hide Occ, Paths, NeedPaths, RecordPaths, NeedsHash, Without, Stages, OnWire, Unhashed, Unseen, Finalized;
    var q := s.responses[k];
    var n := if q in s.awaiting then s.inFlight - 1 else s.inFlight;
    var u := s.(responses := Without(s.responses, k), inFlight := n);
    TakenOffWire(s, k, n, p);
    TakenOffWire(s, k, n, q);
    if q !in s.awaiting {
      assert Responded(env, s, k) == u;
    } else if q in s.localResults {
      FinalKeeps(env, u, q, s.localResults[q], env.theirs(q), p);
    } else if p == q {
      StoredServerHash(env, u, q);
    } else {
      ElsewhereStored(u, q, env.theirs(q), p);
    }
  }

  lemma StoredServerHash(env: Env, u: State, q: Path)
    requires Stages(u, q) == Occ(Paths(env.manifest), q) && Values(env, u, q)
    requires u.localReadFailed || (OnWire(u, q) == 0 && Hashing(u, q))
    requires q in u.awaiting && q !in u.localResults
    ensures PathInv(env, u.(serverHashReady := u.serverHashReady[q := env.theirs(q)]), q)
  {
    hide Occ, Paths, NeedPaths, RecordPaths, NeedsHash;
  }

  lemma ElsewhereStored(u: State, q: Path, h: Hash, p: Path)
    requires p != q
    ensures var v := u.(serverHashReady := u.serverHashReady[q := h]);
            && Stages(v, p) == Stages(u, p) && OnWire(v, p) == OnWire(u, p)
            && Unhashed(v, p) == Unhashed(u, p) && Unseen(v, p) == Unseen(u, p)
  {
    hide Occ, Paths, NeedPaths, RecordPaths;
  }

  lemma StoreKeeps(env: Env, s: State, k: nat, p: Path)
    requires k < |s.hashing| && PathInv(env, s, p)
    ensures PathInv(env, Step(env, s, StoreHash(k)), p)
  {
    hide Occ, Paths, NeedPaths, RecordPaths, NeedsHash, Without;
    OccWithout(s.hashing, k, p);
    OccPush(s.stored, s.hashing[k], p);
  }

  lemma LookedAt(s: State, p: Path)
    requires s.done != []
    ensures var t := s.(done := s.done[1..]);
            && Unseen(s, p) == Unseen(t, p) + (if p == s.done[0] then 1 else 0)
            && Stages(t, p) == Stages(s, p) && Unhashed(t, p) == Unhashed(s, p) && OnWire(t, p) == OnWire(s, p)
  {
    hide Occ, Paths, NeedPaths, RecordPaths;
    OccPop(s.done, p);
  }

  lemma ReadyKeeps(env: Env, s: State, p: Path)
    requires s.done != [] && PathInv(env, s, p) && PathInv(env, s, s.done[0])
    ensures PathInv(env, ReadyDrained(s), p)
  {
    hide Occ, Paths, NeedPaths, RecordPaths, NeedsHash, Stages, OnWire, Unhashed, Unseen, Finalized;
    var q := s.done[0];
    var t := s.(done := s.done[1..]);
    LookedAt(s, p);
    LookedAt(s, q);
    if Pairs(t, q) {
      FinalKeeps(env, t, q, t.localResults[q], t.serverHashReady[q], p);
    }
  }

  lemma StepKeepsPath(env: Env, s: State, a: Action, p: Path)
    requires (forall q: Path :: PathInv(env, s, q)) && Listed(env, s) && DistinctPaths(env) && Possible(s, a)
    ensures PathInv(env, Step(env, s, a), p)
  {
    hide PathInv, DistinctPaths, NeedsHash, SameFor, Sent, Responded, ReadyDrained;
    if a.Send? {
      SendKeeps(env, s, p);
    } else if a.RecvResponse? {
      ResponseKeeps(env, s, a.k, p);
    } else if a.StoreHash? {
      StoreKeeps(env, s, a.k, p);
    } else if a.DrainReady? {
      ReadyKeeps(env, s, p);
    } else {
      MoverSame(env, s, a, p);
      SameKeeps(env, s, Step(env, s, a), p);
    }
  }

  // ----- What the lists hold -----

  lemma DecidedByMetadata(env: Env, e: FileEntry)
    requires !OutcomeOf(env, e).needHash && e in env.manifest
    ensures RightRecord(env, Record(e, env.probe(e.path), OutcomeOf(env, e).category, false))
  {
  }

  lemma DecidedByHash(env: Env, need: Need)
    requires NeedsHash(env, need) && env.readable(need.remote.path)
    ensures var p := need.remote.path;
            RightRecord(env, Record(need.remote, need.local, ClassifyByHash(true, env.mine(p), env.theirs(p)), true))
  {
  }

  lemma FinalLists(env: Env, s: State, p: Path)
    requires Listed(env, s) && p in s.awaiting && NeedsHash(env, s.awaiting[p]) && s.awaiting[p].remote.path == p
    ensures Listed(env, Finalized(s, p, LocalOf(env, p), env.theirs(p)))
  {
    hide RightRecord, NeedsHash;
    if env.readable(p) {
      DecidedByHash(env, s.awaiting[p]);
    }
  }

  lemma CompareLists(env: Env, s: State, k: nat)
    requires Listed(env, s) && k < |s.comparing|
    ensures Listed(env, Compared(env, s, k))
  {
    hide RightRecord, NeedsHash;
    var e := s.comparing[k];
    if OutcomeOf(env, e).needHash {
      IsNeed(env, e);
    } else {
      DecidedByMetadata(env, e);
    }
  }

  lemma ResponseLists(env: Env, s: State, k: nat)
    requires Listed(env, s) && k < |s.responses| && PathInv(env, s, s.responses[k])
    ensures Listed(env, Responded(env, s, k))
  {
    hide Stages, Waiting, Hashing, Occ, RightRecord, NeedsHash;
    var q := s.responses[k];
    if q in s.awaiting && q in s.localResults {
      FinalLists(env, s.(responses := Without(s.responses, k), inFlight := s.inFlight - 1), q);
    }
  }

  lemma ReadyLists(env: Env, s: State)
    requires Listed(env, s) && s.done != [] && PathInv(env, s, s.done[0])
    ensures Listed(env, ReadyDrained(s))
  {
    hide Stages, Waiting, Hashing, Occ, RightRecord, NeedsHash;
    var q := s.done[0];
    if Pairs(s, q) {
      FinalLists(env, s.(done := s.done[1..]), q);
    }
  }

  lemma StepLists(env: Env, s: State, a: Action)
    requires (forall q: Path :: PathInv(env, s, q)) && Listed(env, s) && Possible(s, a)
    ensures Listed(env, Step(env, s, a))
  {
    hide PathInv, RightRecord, NeedsHash, Compared, Responded, ReadyDrained;
    if a.DrainCompare? {
      CompareLists(env, s, a.k);
    } else if a.RecvResponse? {
      ResponseLists(env, s, a.k);
    } else if a.DrainReady? {
      ReadyLists(env, s);
    }
  }

  lemma IsNeed(env: Env, e: FileEntry)
    requires OutcomeOf(env, e).needHash && e in env.manifest
    ensures NeedsHash(env, Need(e, env.probe(e.path)))
  {
  }

  // ----- The counters -----

  lemma Awaited(env: Env, s: State, k: nat)
    requires k < |s.responses| && PathInv(env, s, s.responses[k]) && !s.localReadFailed
    ensures s.responses[k] in s.awaiting && s.responses[k] !in s.serverHashReady
  {
    hide Stages, Hashing, Values;
    OccWithout(s.responses, k, s.responses[k]);
  }

  lemma OpenAdds<V>(a: map<Path, V>, r: map<Path, Hash>, q: Path, v: V)
    requires q !in a && q !in r
    ensures Open(a[q := v], r) == Open(a, r) + 1
  {
    assert a[q := v].Keys - r.Keys == (a.Keys - r.Keys) + {q};
  }

  lemma OpenStores<V>(a: map<Path, V>, r: map<Path, Hash>, q: Path, h: Hash)
    requires q in a && q !in r
    ensures Open(a, r[q := h]) == Open(a, r) - 1
  {
    assert a.Keys - r[q := h].Keys == (a.Keys - r.Keys) - {q};
  }

  lemma LessOne(a: set<Path>, r: set<Path>, q: Path)
    requires q in a
    ensures |(a - {q}) - (r - {q})| == |a - r| - if q in r then 0 else 1
  {
    var d := a - r;
    assert (a - {q}) - (r - {q}) == d - {q};
    if q in r {
      assert d - {q} == d;
    }
  }

  lemma OpenCloses<V>(a: map<Path, V>, r: map<Path, Hash>, q: Path)
    requires q in a
    ensures Open(a - {q}, r - {q}) == Open(a, r) - if q in r then 0 else 1
  {
    assert (a - {q}).Keys == a.Keys - {q} && (r - {q}).Keys == r.Keys - {q};
    LessOne(a.Keys, r.Keys, q);
  }

  lemma StepCounts(env: Env, s: State, a: Action)
    requires Inv(env, s) && DistinctPaths(env) && Possible(s, a)
    ensures Counted(Step(env, s, a))
  {
    hide PathInv, Listed, DistinctPaths, Open, Sent, Responded, ReadyDrained, Compared;
    if a.Send? {
      SendCounts(env, s);
    } else if a.RecvResponse? {
      ResponseCounts(env, s, a.k);
    } else if a.DrainReady? {
      ReadyCounts(s);
    } else if a.DrainCompare? {
      CompareCounts(env, s, a.k);
    }
  }

  lemma CompareCounts(env: Env, s: State, k: nat)
    requires Counted(s) && k < |s.comparing|
    ensures Counted(Compared(env, s, k))
  {
    hide Open, DecideCompare;
  }

  lemma ReadyCounts(s: State)
    requires Counted(s) && s.done != []
    ensures Counted(ReadyDrained(s))
  {
    hide Open;
    if !s.localReadFailed && s.done[0] in s.awaiting {
      OpenCloses(s.awaiting, s.serverHashReady, s.done[0]);
    }
  }

  lemma SendCounts(env: Env, s: State)
    requires Inv(env, s) && DistinctPaths(env) && s.hashQueue != []
    ensures Counted(Sent(s))
  {
    hide PathInv, DistinctPaths, Open, NeedsHash;
    var q := s.hashQueue[0].remote.path;
    SendKeeps(env, s, q);
    if !s.localReadFailed {
      FreshPath(env, s, q);
      OpenAdds(s.awaiting, s.serverHashReady, q, s.hashQueue[0]);
    }
  }

  lemma FreshPath(env: Env, s: State, q: Path)
    requires PathInv(env, s, q) && q !in s.awaiting && !s.localReadFailed
    ensures q !in s.serverHashReady
  {
  }

  lemma ResponseCounts(env: Env, s: State, k: nat)
    requires Inv(env, s) && k < |s.responses|
    ensures Counted(Responded(env, s, k))
  {
    hide PathInv, Open, NeedsHash, Listed;
    var q := s.responses[k];
    if s.localReadFailed {
      return;
    }
    Awaited(env, s, k);
    if q in s.localResults {
      OpenCloses(s.awaiting, s.serverHashReady, q);
    } else {
      OpenStores(s.awaiting, s.serverHashReady, q, env.theirs(q));
    }
  }

  /** No step takes a file whose local read failed off the awaited files. */
  lemma LostStays(env: Env, s: State, a: Action, p: Path)
    requires Values(env, s, p) && Possible(s, a) && Lost(s, p)
    ensures Lost(Step(env, s, a), p)
  {
    hide NeedsHash, DecideCompare, Finalized, Compared, Sent, Without;
    if a.RecvResponse? {
      var q := s.responses[a.k];
      if q in s.awaiting && q in s.localResults {
        var u := s.(responses := Without(s.responses, a.k), inFlight := s.inFlight - 1);
        FinalLost(u, q, env.theirs(q), p);
      }
    } else if a.DrainReady? && Pairs(s, s.done[0]) {
      FinalLost(s.(done := s.done[1..]), s.done[0], s.serverHashReady[s.done[0]], p);
    } else if a.DrainCompare? {
      CompareLengths(env, s, a.k);
    } else if a.Send? {
      SendLost(s, p);
    }
  }

  lemma FinalLost(s: State, q: Path, server: Hash, p: Path)
    requires q in s.awaiting && q in s.localResults && Lost(s, p)
    ensures Lost(Finalized(s, q, s.localResults[q], server), p)
  {
    hide ClassifyByHash;
  }

  lemma SendLost(s: State, p: Path)
    requires s.hashQueue != [] && Lost(s, p)
    ensures Lost(Sent(s), p)
  {
  }

  lemma FinalSpoils(s: State, p: Path, server: Hash)
    requires p in s.awaiting && p in s.localResults && !s.localReadFailed
    ensures Spoiled(Finalized(s, p, s.localResults[p], server))
  {
    if s.localResults[p].Failed? {
      assert Lost(Finalized(s, p, s.localResults[p], server), p);
    }
  }

  lemma StepSpoils(env: Env, s: State, a: Action)
    requires Inv(env, s) && Possible(s, a)
    ensures Spoiled(Step(env, s, a))
  {
    hide PathInv, Listed, Counted, NeedsHash, DecideCompare, Lost, Finalized;
    if s.localReadFailed {
      var p: Path :| Lost(s, p);
      assert PathInv(env, s, p);
      ValuesOf(env, s, p);
      LostStays(env, s, a, p);
    } else if a.RecvResponse? && s.responses[a.k] in s.awaiting && s.responses[a.k] in s.localResults {
      FinalSpoils(s.(responses := Without(s.responses, a.k), inFlight := s.inFlight - 1), s.responses[a.k],
                  env.theirs(s.responses[a.k]));
    } else if a.DrainReady? && Pairs(s, s.done[0]) {
      FinalSpoils(s.(done := s.done[1..]), s.done[0], s.serverHashReady[s.done[0]]);
    }
  }

  lemma ValuesOf(env: Env, s: State, p: Path)
    requires PathInv(env, s, p)
    ensures Values(env, s, p)
  {
  }

  /** Every step keeps the invariant, also one that a gate would hold back. */
  lemma StepKeeps(env: Env, s: State, a: Action)
    requires Inv(env, s) && DistinctPaths(env) && Possible(s, a)
    ensures Inv(env, Step(env, s, a))
  {
    hide PathInv, Listed, Counted, Spoiled, Step;
    StepSpoils(env, s, a);
    StepCounts(env, s, a);
    StepLists(env, s, a);
    forall p: Path ensures PathInv(env, Step(env, s, a), p) {
      StepKeepsPath(env, s, a, p);
    }
  }

  /** inFlight fits the program's counter, as the window does. */
  ghost predicate InRange(s: State) {
    s.localReadFailed || s.inFlight < TWO_64
  }

  lemma StepInRange(env: Env, s: State, a: Action)
    requires InRange(s) && Enabled(s, a) && (s.localReadFailed || s.inFlight >= 0)
    ensures InRange(Step(env, s, a))
  {
    hide DecideCompare, Finalized, Compared, Without;
    if a.RecvResponse? {
      var q := s.responses[a.k];
      if q in s.awaiting && q in s.localResults {
        var u := s.(responses := Without(s.responses, a.k), inFlight := s.inFlight - 1);
        FinalFlight(u, q, s.localResults[q], env.theirs(q));
      }
    } else if a.DrainReady? && Pairs(s, s.done[0]) {
      FinalFlight(s.(done := s.done[1..]), s.done[0], s.localResults[s.done[0]], s.serverHashReady[s.done[0]]);
    } else if a.DrainCompare? {
      CompareLengths(env, s, a.k);
    }
  }

  /** Pairing leaves the count, and a failure noted. */
  lemma FinalFlight(s: State, p: Path, local: LocalResult, server: Hash)
    requires p in s.awaiting
    ensures var t := Finalized(s, p, local, server);
            t.inFlight == s.inFlight && (s.localReadFailed ==> t.localReadFailed)
  {
    hide ClassifyByHash;
  }

  // ----- Progress -----

  /** Work left: every step but tuning lowers it. */
  function Measure(s: State): nat {
    13 * |s.toCome| + (if s.manifestDone then 0 else 1) + 12 * |s.comparing| + 11 * |s.hashQueue|
    + 2 * |s.requested| + |s.responses|
    + 7 * |s.tasks| + 6 * |s.popped| + 5 * |s.hashing| + 4 * |s.stored| + 3 * |s.ending| + 2 * |s.ready| + |s.done|
  }

  /** What a compare result leaves of the two lists; nothing else that counts as work changes. */
  lemma CompareLengths(env: Env, s: State, k: nat)
    requires k < |s.comparing|
    ensures var t := Compared(env, s, k);
            && |t.comparing| == |s.comparing| - 1 && |t.hashQueue| <= |s.hashQueue| + 1
            && t == s.(comparing := t.comparing, hashQueue := t.hashQueue, recorded := t.recorded)
  {
    hide DecideCompare;
  }

  lemma CompareDecreases(env: Env, s: State, k: nat)
    requires k < |s.comparing|
    ensures Measure(Compared(env, s, k)) < Measure(s)
  {
    hide Compared;
    CompareLengths(env, s, k);
  }

  lemma ResponseDecreases(env: Env, s: State, k: nat)
    requires k < |s.responses|
    ensures Measure(Responded(env, s, k)) < Measure(s)
  {
  }

  lemma SendDecreases(s: State)
    requires s.hashQueue != []
    ensures Measure(Sent(s)) < Measure(s)
  {
  }

  lemma ReadyDecreases(s: State)
    requires s.done != []
    ensures Measure(ReadyDrained(s)) < Measure(s)
  {
  }

  predicate AtWorkers(a: Action) {
    a.PopTask? || a.BeginHash? || a.StoreHash? || a.EndHash? || a.Announce?
  }

  lemma WorkerDecreases(env: Env, s: State, a: Action)
    requires Possible(s, a) && AtWorkers(a)
    ensures Measure(Step(env, s, a)) < Measure(s)
  {
    hide Compared, Responded, Sent, ReadyDrained, LocalOf;
  }

  lemma MoveDecreases(env: Env, s: State, a: Action)
    requires Possible(s, a) && (a.RecvEntry? || a.RecvEnd? || a.Respond? || a.SwapReady? || a.DropDone?)
    ensures Measure(Step(env, s, a)) < Measure(s)
  {
    hide Compared, Responded, Sent, ReadyDrained, LocalOf;
  }

  lemma StepDecreases(env: Env, s: State, a: Action)
    requires Possible(s, a) && !a.Tune?
    ensures Measure(Step(env, s, a)) < Measure(s)
  {
    hide Compared, Responded, Sent, ReadyDrained, Measure, LocalOf;
    if AtWorkers(a) {
      WorkerDecreases(env, s, a);
    } else if a.RecvEntry? || a.RecvEnd? || a.Respond? || a.SwapReady? || a.DropDone? {
      MoveDecreases(env, s, a);
    } else if a.DrainCompare? {
      CompareDecreases(env, s, a.k);
    } else if a.RecvResponse? {
      ResponseDecreases(env, s, a.k);
    } else if a.Send? {
      SendDecreases(s);
    } else if a.DrainReady? {
      ReadyDecreases(s);
    }
  }

  /** Where a path's local hash is, as long as the main loop has not looked at it. */
  lemma LocalHashIsComing(env: Env, s: State, p: Path)
    requires PathInv(env, s, p) && p in s.awaiting && p in s.serverHashReady && !s.localReadFailed
    ensures p in s.tasks || p in s.popped || p in s.hashing || p in s.stored || p in s.ending || p in s.ready
            || p in s.done
  {
    hide Stages, OnWire, NeedsHash;
  }

  /** Until the main loop ends or a local read fails, some step can be taken, tuning apart: neither gate,
      nor waiting for the network, nor waiting for the workers, blocks forever. */
  lemma SomethingCanHappen(env: Env, s: State)
    requires Inv(env, s) && InRange(s) && !Finished(s) && !s.localReadFailed
    ensures exists a: Action :: Enabled(s, a) && !a.Tune?
  {
    hide PathInv, Listed, Open;
    if s.toCome != [] {
      assert Enabled(s, RecvEntry);
    } else if !s.manifestDone {
      assert Enabled(s, RecvEnd);
    } else if s.comparing != [] {
      assert Enabled(s, DrainCompare(0));
    } else if s.requested != [] {
      assert Enabled(s, Respond(0));
    } else if s.responses != [] {
      assert Enabled(s, RecvResponse(0));
    } else if s.tasks != [] {
      assert Enabled(s, PopTask);
    } else if s.popped != [] {
      assert Enabled(s, BeginHash(0));
    } else if s.hashing != [] {
      assert Enabled(s, StoreHash(0));
    } else if s.stored != [] {
      assert Enabled(s, EndHash(0));
    } else if s.ending != [] {
      assert Enabled(s, Announce(0));
    } else if s.done != [] {
      assert Enabled(s, DrainReady);
    } else if s.ready != [] {
      assert Enabled(s, SwapReady);
    } else if s.hashQueue != [] {
      assert Enabled(s, Send);
    } else {
      NothingAwaited(env, s);
    }
  }

  predicate NothingMoves(s: State) {
    && s.requested == [] && s.responses == [] && s.tasks == [] && s.popped == [] && s.hashing == []
    && s.stored == [] && s.ending == [] && s.ready == [] && s.done == []
  }

  lemma NotAwaited(env: Env, s: State, p: Path)
    requires PathInv(env, s, p) && NothingMoves(s) && !s.localReadFailed
    ensures p !in s.awaiting
  {
    hide Stages, NeedsHash, Occ;
    OccNone(p);
  }

  lemma NothingAwaited(env: Env, s: State)
    requires Inv(env, s) && NothingMoves(s) && !s.localReadFailed
    ensures s.awaiting == map[]
  {
    hide Listed, NothingMoves, PathInv;
    forall p: Path ensures p !in s.awaiting {
      NotAwaited(env, s, p);
    }
  }

  /** The main loop, which breaks off after a failed read, receives only when a frame is on its way. */
  lemma ReceiveHasFrame(env: Env, s: State)
    requires Inv(env, s) && Receives(s) && !s.localReadFailed
    ensures Enabled(s, RecvEntry) || Enabled(s, RecvEnd) || s.requested != [] || s.responses != []
  {
  }

  // ----- Every run -----

  /** Each state follows from the one before by an enabled action. */
  ghost predicate Follows(env: Env, ss: seq<State>, acts: seq<Action>) {
    && |ss| == |acts| + 1
    && forall i :: 0 <= i < |acts| ==> Enabled(ss[i], acts[i]) && Step(env, ss[i], acts[i]) == ss[i + 1]
  }

  ghost predicate IsRun(env: Env, ss: seq<State>, acts: seq<Action>) {
    && Follows(env, ss, acts) && ss[0].window >= 1 && ss[0].workerCap >= 1
    && ss[0] == Begin(env, ss[0].window, ss[0].workerCap)
  }

  lemma BeginInv(env: Env, window: u64, workerCap: nat)
    requires window >= 1 && workerCap >= 1
    ensures Inv(env, Begin(env, window, workerCap)) && InRange(Begin(env, window, workerCap))
  {
  }

  lemma FlightIsCount(env: Env, s: State)
    requires Inv(env, s)
    ensures s.localReadFailed || s.inFlight >= 0
  {
  }

  lemma {:induction false} RunKeeps(env: Env, ss: seq<State>, acts: seq<Action>, i: nat)
    requires IsRun(env, ss, acts) && DistinctPaths(env) && i < |ss|
    ensures Inv(env, ss[i]) && InRange(ss[i])
  {
    if i == 0 {
      BeginInv(env, ss[0].window, ss[0].workerCap);
    } else {
      RunKeeps(env, ss, acts, i - 1);
      hide Inv, Step, Possible, DistinctPaths, InRange;
      var k := i - 1;
      assert Step(env, ss[k], acts[k]) == ss[k + 1];
      StepKeeps(env, ss[k], acts[k]);
      FlightIsCount(env, ss[k]);
      StepInRange(env, ss[k], acts[k]);
    }
  }

  /** Until a local read fails, inFlight is the number of awaited files without a server hash, and an awaited
      file with one still has its local hash queued, running or about to be announced: no pairing is lost. */
  lemma NoPairingIsLost(env: Env, ss: seq<State>, acts: seq<Action>, i: nat, p: Path)
    requires IsRun(env, ss, acts) && DistinctPaths(env) && i < |ss| && !ss[i].localReadFailed
    ensures ss[i].inFlight == |ss[i].awaiting.Keys - ss[i].serverHashReady.Keys|
    ensures var s := ss[i]; p in s.awaiting && p in s.serverHashReady ==>
              p in s.tasks || p in s.popped || p in s.hashing || p in s.stored || p in s.ending || p in s.ready
              || p in s.done
  {
    RunKeeps(env, ss, acts, i);
    assert PathInv(env, ss[i], p);
    hide Inv, PathInv, Listed;
    if p in ss[i].awaiting && p in ss[i].serverHashReady {
      LocalHashIsComing(env, ss[i], p);
    }
  }

  /** Each manifest file is in one stage, and recorded at most once, with its sequential verdict. */
  lemma RecordedOnce(env: Env, ss: seq<State>, acts: seq<Action>, i: nat, p: Path)
    requires IsRun(env, ss, acts) && DistinctPaths(env) && i < |ss|
    ensures Stages(ss[i], p) == Occ(Paths(env.manifest), p) <= 1
    ensures forall k :: 0 <= k < |ss[i].recorded| ==> RightRecord(env, ss[i].recorded[k])
  {
    RunKeeps(env, ss, acts, i);
    hide RightRecord, Values, Waiting, Hashing;
    assert PathInv(env, ss[i], p);
  }

  lemma {:induction false} SequentialHas(env: Env, es: seq<FileEntry>)
    ensures RecordPaths(Sequential(env, es)) == Paths(es)
    ensures forall e :: e in es ==> RecordOf(env, e) in Sequential(env, es)
    ensures forall r :: r in Sequential(env, es) ==> r.remote in es && r == RecordOf(env, r.remote)
  {
    hide RecordOf;
    if es != [] {
      var n := |es| - 1;
      SequentialHas(env, es[..n]);
      assert es == es[..n] + [es[n]];
      assert (Sequential(env, es[..n]) + [RecordOf(env, es[n])])[..n] == Sequential(env, es[..n]);
      RecordRemote(env, es[n]);
    }
  }

  lemma RecordRemote(env: Env, e: FileEntry)
    ensures RecordOf(env, e).remote == e
  {
  }

  lemma {:induction false} PathOfMember(rs: seq<Record>, r: Record)
    ensures Occ(rs, r) <= Occ(RecordPaths(rs), r.remote.path)
  {
    if rs != [] {
      PathOfMember(rs[..|rs|-1], r);
      OccLast(rs, r);
      RecordPush(rs[..|rs|-1], rs[|rs|-1], r.remote.path);
      assert rs == rs[..|rs|-1] + [rs[|rs|-1]];
      hide Occ, RecordPaths;
    }
  }

  lemma {:induction false} MemberOfPath(rs: seq<Record>, p: Path) returns (k: nat)
    requires Occ(RecordPaths(rs), p) > 0
    ensures k < |rs| && rs[k].remote.path == p
  {
    var n := |rs| - 1;
    RecordPush(rs[..n], rs[n], p);
    assert rs == rs[..n] + [rs[n]];
    if rs[n].remote.path == p {
      k := n;
    } else {
      k := MemberOfPath(rs[..n], p);
    }
  }

  ghost predicate SameReport(a: seq<Record>, b: seq<Record>) {
    && (forall p: Path :: Occ(RecordPaths(a), p) == Occ(RecordPaths(b), p) <= 1)
    && (forall r :: r in a ==> r in b)
  }

  lemma SameOcc(a: seq<Record>, b: seq<Record>, r: Record)
    requires SameReport(a, b)
    ensures Occ(a, r) == Occ(b, r)
  {
    var p := r.remote.path;
    PathOfMember(a, r);
    PathOfMember(b, r);
    assert Occ(RecordPaths(a), p) == Occ(RecordPaths(b), p) <= 1;
    if r !in a && r in b {
      var k := MemberOfPath(a, p);
      OneRecordPerPath(b, a[k], r);
    }
  }

  /** Two records of one path in a list that has each path once are the same. */
  lemma {:induction false} OneRecordPerPath(rs: seq<Record>, x: Record, y: Record)
    requires x in rs && y in rs && x.remote.path == y.remote.path && Occ(RecordPaths(rs), x.remote.path) <= 1
    ensures x == y
  {
    hide Occ, RecordPaths;
    var n := |rs| - 1;
    var q := rs[..n];
    assert rs == q + [rs[n]];
    RecordPush(q, rs[n], x.remote.path);
    InPaths(q, x);
    InPaths(q, y);
    if x in q && y in q {
      OneRecordPerPath(q, x, y);
    }
  }

  lemma InPaths(rs: seq<Record>, r: Record)
    ensures r in rs ==> Occ(RecordPaths(rs), r.remote.path) > 0
  {
    PathOfMember(rs, r);
  }

  lemma FinishedReport(env: Env, s: State)
    requires Inv(env, s) && DistinctPaths(env) && Finished(s)
    ensures SameReport(s.recorded, Sequential(env, env.manifest))
  {
    hide RecordOf, Values, Waiting, Hashing, Spoiled, Occ, Paths, RecordPaths, NeedPaths;
    SequentialHas(env, env.manifest);
    forall p: Path ensures Occ(RecordPaths(s.recorded), p) == Occ(Paths(env.manifest), p) <= 1 {
      assert PathInv(env, s, p);
      NoneLeft(s, p);
    }
  }

  lemma NoneLeft(s: State, p: Path)
    requires s.toCome == [] && s.comparing == [] && s.hashQueue == [] && s.awaiting == map[]
    ensures Stages(s, p) == Occ(RecordPaths(s.recorded), p)
  {
  }

  /** When the main loop ends, the report is that of the sequential comparison, in some order: each
      manifest file once, with its verdict, for every interleaving. */
  lemma ReportIsSequential(env: Env, ss: seq<State>, acts: seq<Action>, i: nat)
    requires IsRun(env, ss, acts) && DistinctPaths(env) && i < |ss| && Finished(ss[i])
    ensures multiset(ss[i].recorded) == multiset(Sequential(env, env.manifest))
  {
    hide Inv, DistinctPaths, Finished, SameReport, IsRun, Sequential;
    RunKeeps(env, ss, acts, i);
    FinishedReport(env, ss[i]);
    var a, b := ss[i].recorded, Sequential(env, env.manifest);
    forall r: Record ensures multiset(a)[r] == multiset(b)[r] {
      SameOcc(a, b, r);
    }
  }

  /** A file that is lost needs its hash and cannot be read. */
  lemma LostIsUnreadable(env: Env, s: State, p: Path)
    requires PathInv(env, s, p) && Lost(s, p)
    ensures !AllReadable(env)
  {
    hide Stages, OutcomeOf;
    var e := s.awaiting[p].remote;
    assert e in env.manifest && OutcomeOf(env, e).needHash && !env.readable(e.path);
  }

  lemma FinishedAllReadable(env: Env, s: State)
    requires Inv(env, s) && DistinctPaths(env) && Finished(s)
    ensures AllReadable(env) && !s.localReadFailed
  {
    hide PathInv, DistinctPaths, RecordOf, OutcomeOf, RecordPaths, Paths, Sequential;
    FinishedReport(env, s);
    var a, b := s.recorded, Sequential(env, env.manifest);
    SequentialHas(env, env.manifest);
    forall e | e in env.manifest && OutcomeOf(env, e).needHash ensures env.readable(e.path) {
      var r := RecordOf(env, e);
      SameOcc(a, b, r);
      assert r in a;
      HashOfRecord(env, e);
    }
  }

  lemma HashOfRecord(env: Env, e: FileEntry)
    ensures RecordOf(env, e).remote == e && RecordOf(env, e).hashCompared == OutcomeOf(env, e).needHash
  {
  }

  /** A session that can do no more, tuning apart, has ended by the loop's own condition, and so with the whole
      report, if and only if every file whose hash is needed can be read; otherwise a failed read is noted. */
  lemma CompleteIff(env: Env, ss: seq<State>, acts: seq<Action>, i: nat)
    requires IsRun(env, ss, acts) && DistinctPaths(env) && i < |ss|
    requires forall a: Action :: Enabled(ss[i], a) ==> a.Tune?
    ensures Finished(ss[i]) <==> AllReadable(env)
    ensures ss[i].localReadFailed <==> !AllReadable(env)
  {
    hide Finished, AllReadable, Enabled, Listed, Counted, Lost, PathInv, DistinctPaths, IsRun;
    RunKeeps(env, ss, acts, i);
    if Finished(ss[i]) {
      FinishedAllReadable(env, ss[i]);
    } else {
      if !ss[i].localReadFailed {
        SomethingCanHappen(env, ss[i]);
      }
      var p: Path :| Lost(ss[i], p);
      LostIsUnreadable(env, ss[i], p);
    }
  }

  /** How many steps of a run do something else than tuning. */
  function Moves(acts: seq<Action>): nat {
    if acts == [] then 0 else Moves(acts[..|acts|-1]) + if acts[|acts|-1].Tune? then 0 else 1
  }

  lemma TuneLeavesWork(env: Env, s: State, a: Action)
    requires Possible(s, a) && a.Tune?
    ensures Measure(Step(env, s, a)) == Measure(s)
  {
  }

  /** Every run takes at most 13 steps a manifest file, and one more, however often it tunes in between. */
  lemma {:induction false} RunsAreShort(env: Env, ss: seq<State>, acts: seq<Action>, i: nat)
    requires IsRun(env, ss, acts) && i < |ss|
    ensures Measure(ss[i]) + Moves(acts[..i]) <= 13 * |env.manifest| + 1
  {
    if i > 0 {
      RunsAreShort(env, ss, acts, i - 1);
      hide Measure, Step, Enabled;
      var k := i - 1;
      assert acts[..i][..k] == acts[..k];
      assert Step(env, ss[k], acts[k]) == ss[k + 1];
      if acts[k].Tune? {
        TuneLeavesWork(env, ss[k], acts[k]);
      } else {
        StepDecreases(env, ss[k], acts[k]);
      }
    }
  }

  // ----- The main loop's operations -----

  /** pump: sends while there is something to send and both gates are open. */
  function Pumped(s: State): State
    decreases |s.hashQueue|
  {
    if s.hashQueue != [] && GatesOpen(s) then Pumped(Sent(s)) else s
  }

  /** drainReady: the whole ready queue, swapped out and looked at in order, until a pairing leaves
      localReadFailed set. */
  function AllDrained(s: State): State
    decreases |s.done|
  {
    if s.done == [] then s
    else
      var t := ReadyDrained(s);
      if Pairs(s, s.done[0]) && t.localReadFailed then t.(done := []) else AllDrained(t)
  }

  /** A hash response with its hash: what Responded does, the retuned window, and pump; a failed local
      read ends the handler before pump. */
  function Handled(s: State, p: Path, hash: Hash, tuned: u64): State {
    if p !in s.awaiting then s
    else
      var u := s.(inFlight := s.inFlight - 1, window := tuned);
      if p !in u.localResults then Pumped(u.(serverHashReady := u.serverHashReady[p := hash]))
      else
        var t := Finalized(u, p, u.localResults[p], hash);
        if t.localReadFailed then t else Pumped(t)
  }

  /** Without the retuning and pump, whose steps are Tune and Send, the handler does what the step does. */
  lemma HandledIsResponded(env: Env, s: State, k: nat)
    requires k < |s.responses| && !s.localReadFailed
    ensures var p := s.responses[k];
            var s0 := s.(responses := Without(s.responses, k));
            var t := Responded(env, s, k).(window := s.window);
            Handled(s0, p, env.theirs(p), s.window) == if p !in s.awaiting || t.localReadFailed then t else Pumped(t)
  {
    hide Pumped;
  }

  /** The main thread's variables; outside is everything the other threads and the server hold. */
  class Engine {
    var hashQueue: seq<Need>
    var awaiting: map<Path, Need>
    var inFlight: int
    var serverHashReady: map<Path, Hash>
    var tasks: seq<Path>
    var localInFlight: int
    var localResults: map<Path, LocalResult>
    var ready: seq<Path>
    var recorded: seq<Record>
    var localReadFailed: bool
    var window: u64
    var workerCap: nat
    /** Requests on their way to the server. */
    var requested: seq<Path>
    /** The rest of drainReady's batch while it runs. */
    ghost var done: seq<Path>
    ghost const outside: State

    ghost function View(): State
      reads this
    {
      outside.(hashQueue := hashQueue, awaiting := awaiting, inFlight := inFlight, serverHashReady := serverHashReady,
               tasks := tasks, localInFlight := localInFlight, localResults := localResults, ready := ready,
               done := done, recorded := recorded, localReadFailed := localReadFailed, window := window,
               workerCap := workerCap, requested := requested)
    }

    method SendHashRequest()
      requires hashQueue != []
      modifies this
      ensures View() == Sent(old(View()))
    {
      var need := hashQueue[0];
      var rel := need.remote.path;
      hashQueue, requested := hashQueue[1..], requested + [rel];
      if rel !in awaiting {
        awaiting := awaiting[rel := need];
      }
      tasks, inFlight := tasks + [rel], inFlight + 1;
    }

    method Pump()
      modifies this
      ensures View() == Pumped(old(View()))
    {
      while hashQueue != [] && Wrap64(inFlight) < window
        invariant Pumped(View()) == Pumped(old(View()))
        decreases |hashQueue|
      {
        if Wrap64(|tasks| + localInFlight) >= BACKLOG_FACTOR * workerCap {
          break;
        }
        SendHashRequest();
      }
    }

    /** Records a paired file and forgets it; a failed local read is noted and the file kept. */
    method FinalizePaired(rel: Path, local: LocalResult, server: Hash)
      requires rel in awaiting
      modifies this`recorded, this`awaiting, this`serverHashReady, this`localReadFailed
      ensures View() == Finalized(old(View()), rel, local, server)
    {
      match local {
        case Hashed(hash) =>
          var need := awaiting[rel];
          recorded := recorded + [Record(need.remote, need.local, ClassifyByHash(true, hash, server), true)];
        case Failed =>
          localReadFailed := true;
          return;
      }
      awaiting := awaiting - {rel};
      serverHashReady := serverHashReady - {rel};
    }

    /** A response: paired if the local hash is there, put aside if not; unknown paths are ignored. The
        window may be retuned on the way. */
    method HandleHashResponse(rel: Path, hash: Hash, tuned: u64)
      modifies this
      ensures View() == Handled(old(View()), rel, hash, tuned)
    {
      hide Pumped, Finalized;
      if rel !in awaiting {
        return;
      }
      inFlight := inFlight - 1;
      window := tuned;
      if rel in localResults {
        FinalizePaired(rel, localResults[rel], hash);
        if localReadFailed {
          return;
        }
      } else {
        serverHashReady := serverHashReady[rel := hash];
      }
      Pump();
    }

    /** Pairs every announced local hash whose server hash is there, until a local read has failed. */
    method DrainReady()
      requires View().done == []
      modifies this
      ensures View() == AllDrained(old(View()).(ready := [], done := old(ready)))
    {
      hide Finalized;
      var batch := ready;
      ready := [];
      done := batch;
      var i := 0;
      while i < |batch|
        invariant 0 <= i <= |batch| && done == batch[i..]
        invariant AllDrained(View()) == AllDrained(old(View()).(ready := [], done := old(ready)))
      {
        var rel := batch[i];
        ghost var s := View();
        done := done[1..];
        if rel in awaiting && rel in serverHashReady && rel in localResults {
          FinalizePaired(rel, localResults[rel], serverHashReady[rel]);
          if localReadFailed {
            done := [];
            return;
          }
        }
        assert View() == ReadyDrained(s);
        i := i + 1;
      }
    }
  }
}
