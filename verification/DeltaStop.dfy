/**
 The early stop: where the scan looks at its progress, when it gives up there, and that it changes nothing else.
 And what the statistics of a scan count.
 */
module DeltaStop {
  import opened Ints
  import opened DeltaArith
  import opened Signatures
  import opened DeltaPlan

  const NEVER: BuildOptions := BuildOptions(false, 0)

  /** The state without the place of the next check. */
  function Plain(st: Scan): Scan {
    st.(nextEval := 0)
  }

  /** The states after each turn but the last of a scan that is never stopped. */
  ghost function Turns(sig: SignatureSet, strong: HashFn, oldData: Bytes, st: Scan): (ts: seq<Scan>)
    requires ScanOk(sig, |oldData|, st) && st.p + sig.blockSize <= |oldData|
    ensures forall k :: 0 <= k < |ts| ==> ts[k].matchedBytes <= ts[k].p <= |oldData| && ts[k].p > 0
    decreases |oldData| - st.p
  {
    var h := Probe(sig, strong, st.matched, WindowAt(sig, oldData, st.p));
    if AtEnd(sig, |oldData|, st.p, h) then []
    else
      var m := Moved(sig, Counted(st, h), h);
      [m] + Turns(sig, strong, oldData, m)
  }

  /** Of those, the ones looked at: the first that has come as far as `due`, and then every one that has come 4 MiB
      further than the last one looked at. */
  function LookedAt(ts: seq<Scan>, due: nat): (cs: seq<Scan>)
    ensures forall c :: c in cs ==> c in ts
  {
    if ts == [] then []
    else if ts[0].p >= due then [ts[0]] + LookedAt(ts[1..], ts[0].p + 4194304)
    else LookedAt(ts[1..], due)
  }

  /** Too little was matched of what was scanned: at this rate at most 35 hundredths of the new file. */
  predicate Hopeless(sig: SignatureSet, oldLen: nat, c: Scan) {
    c.matchedBytes * oldLen * 100 <= sig.fileSize * 35 * c.p
  }

  /** The first hopeless one, if there is one. */
  function FirstHopeless(sig: SignatureSet, oldLen: nat, cs: seq<Scan>): (k: nat)
    ensures k <= |cs| && (k < |cs| ==> Hopeless(sig, oldLen, cs[k]))
    ensures forall j :: 0 <= j < k ==> !Hopeless(sig, oldLen, cs[j])
  {
    if cs == [] || Hopeless(sig, oldLen, cs[0]) then 0 else 1 + FirstHopeless(sig, oldLen, cs[1..])
  }

  /** What a scan comes to that looks at these states and would otherwise end in `free`. */
  function StoppedAt(sig: SignatureSet, oldLen: nat, cs: seq<Scan>, free: Scan): Scan {
    var k := FirstHopeless(sig, oldLen, cs);
    if k < |cs| then cs[k].(stopped := true) else free
  }

  lemma {:induction false} TurnOk(sig: SignatureSet, oldData: Bytes, st: Scan, h: Hit)
    requires ScanOk(sig, |oldData|, st) && st.p + sig.blockSize <= |oldData| && -1 <= h.found < sig.blockCount
    requires !AtEnd(sig, |oldData|, st.p, h)
    ensures var m := Moved(sig, Counted(st, h), h);
            && ScanOk(sig, |oldData|, m) && m.p + sig.blockSize <= |oldData| && m.p > st.p && m.stopped == st.stopped
            && m.nextEval == st.nextEval && Moved(sig, Counted(Plain(st), h), h) == Plain(m)
  {
  }

  /** Where the next check would be does not matter to a scan that is never stopped. */
  lemma {:induction false} NeverPlain(sig: SignatureSet, strong: HashFn, oldData: Bytes, st: Scan, t: Scan)
    requires ScanOk(sig, |oldData|, st) && st.p + sig.blockSize <= |oldData| && Plain(st) == Plain(t)
    requires ScanOk(sig, |oldData|, t)
    ensures Plain(ScanFrom(sig, strong, oldData, NEVER, st)) == Plain(ScanFrom(sig, strong, oldData, NEVER, t))
    decreases |oldData| - st.p
  {
    hide Probe, WindowAt, Moved, AtEnd;
    var h := Probe(sig, strong, st.matched, WindowAt(sig, oldData, st.p));
    if AtEnd(sig, |oldData|, st.p, h) {
      LastPlain(sig, st, h);
      LastPlain(sig, t, h);
    } else {
      TurnOk(sig, oldData, st, h);
      TurnOk(sig, oldData, t, h);
      var m, n := Moved(sig, Counted(st, h), h), Moved(sig, Counted(t, h), h);
      if !m.stopped {
        NeverPlain(sig, strong, oldData, m, n);
      }
    }
  }

  lemma LastPlain(sig: SignatureSet, st: Scan, h: Hit)
    requires |st.matched| == |st.matchedSrc| == sig.blockCount && -1 <= h.found < sig.blockCount
    ensures Plain(Moved(sig, Counted(st, h), h)) == Moved(sig, Counted(Plain(st), h), h)
    ensures Plain(Counted(st, h)) == Counted(Plain(st), h)
  {
  }

  lemma LookedStep(x: Scan, rest: seq<Scan>, due: nat)
    ensures LookedAt([x] + rest, due)
            == if x.p >= due then [x] + LookedAt(rest, x.p + 4194304) else LookedAt(rest, due)
  {
    assert ([x] + rest)[1..] == rest;
  }

  lemma StoppedStep(sig: SignatureSet, oldLen: nat, x: Scan, cs: seq<Scan>, free: Scan)
    ensures StoppedAt(sig, oldLen, [x] + cs, free)
            == if Hopeless(sig, oldLen, x) then x.(stopped := true) else StoppedAt(sig, oldLen, cs, free)
  {
    assert ([x] + cs)[1..] == cs;
    hide Hopeless;
  }

  lemma ChecksExactly(sig: SignatureSet, oldLen: nat, st: Scan)
    requires st.matchedBytes <= st.p <= oldLen && 0 < st.p && oldLen * 100 < TWO_64
    ensures ProjectedRejected(st.matchedBytes, st.p, oldLen, sig.fileSize) <==> Hopeless(sig, oldLen, st)
  {
    ProjectionIsExact(st.matchedBytes, st.p, oldLen, sig.fileSize);
  }

  /** A scan stops at the first hopeless state it looks at, and is otherwise the scan that never stops. */
  lemma {:induction false} ScanStops(sig: SignatureSet, strong: HashFn, oldData: Bytes, opt: BuildOptions, st: Scan)
    requires ScanOk(sig, |oldData|, st) && st.p + sig.blockSize <= |oldData| && !st.stopped
    requires |oldData| * 100 < TWO_64
    ensures var free := Plain(ScanFrom(sig, strong, oldData, NEVER, st));
            var cs := if opt.enableEarlyStop then LookedAt(Turns(sig, strong, oldData, Plain(st)), st.nextEval) else [];
            Plain(ScanFrom(sig, strong, oldData, opt, st)) == StoppedAt(sig, |oldData|, cs, free)
    decreases |oldData| - st.p
  {
    hide Probe, WindowAt, ProjectedRejected, Hopeless, Moved, AtEnd;
    var h := Probe(sig, strong, st.matched, WindowAt(sig, oldData, st.p));
    if AtEnd(sig, |oldData|, st.p, h) {
      LastPlain(sig, st, h);
    } else {
      TurnOk(sig, oldData, st, h);
      var m := Moved(sig, Counted(st, h), h);
      ChecksExactly(sig, |oldData|, m);
      ChecksExactly(sig, |oldData|, Plain(m));
      var e := Evaluated(sig, |oldData|, opt, m);
      if !e.stopped {
        ScanStops(sig, strong, oldData, opt, e);
        NeverPlain(sig, strong, oldData, m, e);
      }
      var rest := Turns(sig, strong, oldData, Plain(m));
      LookedStep(Plain(m), rest, st.nextEval);
      StoppedStep(sig, |oldData|, Plain(m), LookedAt(rest, m.p + 4194304),
                  Plain(ScanFrom(sig, strong, oldData, NEVER, m)));
    }
  }

  /** The states of a plan's scan that are looked at. */
  ghost function Looks(sig: SignatureSet, strong: HashFn, oldData: Bytes, opt: BuildOptions): seq<Scan>
    requires ValidSet(sig) && sig.blockSize > 0 && |oldData| < MAX_FILE
  {
    if !opt.enableEarlyStop || |oldData| < sig.blockSize then []
    else
      var ts := Turns(sig, strong, oldData, Plain(Start(sig, |oldData|, NEVER)));
      LookedAt(ts, if opt.prefixBytesOverride > 0 then opt.prefixBytesOverride
                   else EarlyStopPrefixBytes(|oldData|, sig.blockSize))
  }

  lemma {:induction false} ScanOfStops(sig: SignatureSet, strong: HashFn, oldData: Bytes, opt: BuildOptions)
    requires ValidSet(sig) && sig.blockSize > 0 && |oldData| * 100 < TWO_64
    ensures Plain(ScanOf(sig, strong, oldData, opt))
            == StoppedAt(sig, |oldData|, Looks(sig, strong, oldData, opt), Plain(ScanOf(sig, strong, oldData, NEVER)))
  {
    hide ScanFrom, Hopeless, Turns, LookedAt, EarlyStopPrefixBytes;
    if |oldData| >= sig.blockSize {
      var s, t := Start(sig, |oldData|, opt), Start(sig, |oldData|, NEVER);
      assert Plain(s) == Plain(t);
      ScanStops(sig, strong, oldData, opt, s);
      NeverPlain(sig, strong, oldData, s, t);
    }
  }

  lemma {:induction false} NeverStops(sig: SignatureSet, strong: HashFn, oldData: Bytes, st: Scan)
    requires ScanOk(sig, |oldData|, st) && st.p + sig.blockSize <= |oldData| && !st.stopped
    ensures !ScanFrom(sig, strong, oldData, NEVER, st).stopped
    decreases |oldData| - st.p
  {
    hide Probe, WindowAt, Moved, AtEnd;
    var h := Probe(sig, strong, st.matched, WindowAt(sig, oldData, st.p));
    if AtEnd(sig, |oldData|, st.p, h) {
      LastRuns(sig, st, h);
    } else {
      TurnOk(sig, oldData, st, h);
      NeverStops(sig, strong, oldData, Moved(sig, Counted(st, h), h));
    }
  }

  lemma LastRuns(sig: SignatureSet, st: Scan, h: Hit)
    requires |st.matched| == |st.matchedSrc| == sig.blockCount && -1 <= h.found < sig.blockCount
    ensures Moved(sig, Counted(st, h), h).stopped == Counted(st, h).stopped == st.stopped
  {
  }

  lemma PlainPlan(sig: SignatureSet, st: Scan)
    requires |st.matched| == |st.matchedSrc| == sig.blockCount
    ensures PlanFrom(sig, Plain(st)) == PlanFrom(sig, st)
  {
    hide Emitted, Flushed;
  }

  /** A plan is stopped early if and only if its scan looks at a hopeless state; it downloads the whole file then,
      and its statistics are those of the first such state. Otherwise it is the plan made without early stop. */
  lemma StopMeaning(sig: SignatureSet, strong: HashFn, oldData: Bytes, opt: BuildOptions)
    requires ValidSet(sig) && sig.blockSize > 0 && sig.blockCount > 0 && |oldData| * 100 < TWO_64
    ensures var plan := PlanOf(sig, strong, oldData, opt);
            var cs := Looks(sig, strong, oldData, opt);
            var k := FirstHopeless(sig, |oldData|, cs);
            && (plan.stats.earlyStopped <==> k < |cs|)
            && (k < |cs| ==> plan == DeltaPlan([], [], sig.fileSize, sig.fileSize, StatsOf(cs[k].(stopped := true))))
            && (k == |cs| ==> plan == PlanOf(sig, strong, oldData, NEVER))
  {
    hide ScanFrom, Hopeless, Looks, Emitted, Flushed, FirstHopeless;
    ScanOfStops(sig, strong, oldData, opt);
    FreeRuns(sig, strong, oldData);
    PlainPlan(sig, ScanOf(sig, strong, oldData, opt));
    PlainPlan(sig, ScanOf(sig, strong, oldData, NEVER));
  }

  lemma FreeRuns(sig: SignatureSet, strong: HashFn, oldData: Bytes)
    requires ValidSet(sig) && sig.blockSize > 0 && |oldData| < MAX_FILE
    ensures !ScanOf(sig, strong, oldData, NEVER).stopped
  {
    if |oldData| >= sig.blockSize {
      NeverStops(sig, strong, oldData, Start(sig, |oldData|, NEVER));
    }
  }

  // ----- The statistics -----

  /** What the probes of a scan that is never stopped find, window by window. */
  ghost function Probes(sig: SignatureSet, strong: HashFn, oldData: Bytes, st: Scan): seq<Hit>
    requires ScanOk(sig, |oldData|, st) && st.p + sig.blockSize <= |oldData|
    decreases |oldData| - st.p
  {
    var h := Probe(sig, strong, st.matched, WindowAt(sig, oldData, st.p));
    [h] + if AtEnd(sig, |oldData|, st.p, h) then [] else Probes(sig, strong, oldData, Moved(sig, Counted(st, h), h))
  }

  function Hits(hs: seq<Hit>): nat {
    if hs == [] then 0 else hs[0].hits + Hits(hs[1..])
  }

  function Hashed(hs: seq<Hit>): nat {
    if hs == [] then 0 else Hashed(hs[1..]) + if hs[0].hashed then 1 else 0
  }

  function Found(hs: seq<Hit>): nat {
    if hs == [] then 0 else Found(hs[1..]) + if hs[0].found >= 0 then 1 else 0
  }

  /** Each window that was looked at counts its candidates, and one strong checksum if there was a missing one
      among them; each match counts a block. */
  lemma {:induction false} StatsAddUp(sig: SignatureSet, strong: HashFn, oldData: Bytes, st: Scan)
    requires ScanOk(sig, |oldData|, st) && st.p + sig.blockSize <= |oldData| && !st.stopped
    ensures var r, hs := ScanFrom(sig, strong, oldData, NEVER, st), Probes(sig, strong, oldData, st);
            && r.weakCandidateHits == st.weakCandidateHits + Hits(hs)
            && r.strongComputations == st.strongComputations + Hashed(hs)
            && r.matchedBytes == st.matchedBytes + Found(hs) * sig.blockSize
    decreases |oldData| - st.p
  {
    hide Probe, WindowAt, AtEnd, Moved, Counted, Hits, Hashed, Found;
    var h := Probe(sig, strong, st.matched, WindowAt(sig, oldData, st.p));
    TurnTotals(sig, st, h);
    if AtEnd(sig, |oldData|, st.p, h) {
      TotalsStep(h, [], sig.blockSize);
      assert [h] + [] == [h];
    } else {
      TurnOk(sig, oldData, st, h);
      var m := Moved(sig, Counted(st, h), h);
      StatsAddUp(sig, strong, oldData, m);
      TotalsStep(h, Probes(sig, strong, oldData, m), sig.blockSize);
    }
  }

  lemma TurnTotals(sig: SignatureSet, st: Scan, h: Hit)
    requires |st.matched| == |st.matchedSrc| == sig.blockCount && -1 <= h.found < sig.blockCount
    ensures |Counted(st, h).matched| == |Counted(st, h).matchedSrc| == sig.blockCount
    ensures forall t :: t == Counted(st, h) || t == Moved(sig, Counted(st, h), h) ==>
              && t.weakCandidateHits == st.weakCandidateHits + h.hits
              && t.strongComputations == st.strongComputations + if h.hashed then 1 else 0
    ensures Counted(st, h).matchedBytes == st.matchedBytes
    ensures Moved(sig, Counted(st, h), h).matchedBytes
            == st.matchedBytes + if h.found >= 0 then sig.blockSize else 0
  {
  }

  lemma TotalsStep(h: Hit, rest: seq<Hit>, b: nat)
    ensures var hs := [h] + rest;
            && Hits(hs) == h.hits + Hits(rest) && Hashed(hs) == Hashed(rest) + (if h.hashed then 1 else 0)
            && Found(hs) * b == Found(rest) * b + if h.found >= 0 then b else 0
    ensures Hits([]) == Hashed([]) == 0 && Found([]) * b == 0
  {
    assert ([h] + rest)[1..] == rest;
    OneMore(Found(rest), b);
  }

  lemma OneMore(n: nat, b: nat)
    ensures (n + 1) * b == n * b + b
  {
  }

  /** The statistics of a plan that is not stopped, for an old file of at least a block. */
  lemma PlanStats(sig: SignatureSet, strong: HashFn, oldData: Bytes)
    requires ValidSet(sig) && 0 < sig.blockSize <= |oldData| < MAX_FILE && sig.blockCount > 0
    ensures var hs := Probes(sig, strong, oldData, Start(sig, |oldData|, NEVER));
            PlanOf(sig, strong, oldData, NEVER).stats
            == DeltaStats(ScanOf(sig, strong, oldData, NEVER).p, Found(hs) * sig.blockSize, Hashed(hs), Hits(hs), false)
  {
    hide ScanFrom, Probes, Emitted, Flushed, EarlyStopPrefixBytes;
    StatsAddUp(sig, strong, oldData, Start(sig, |oldData|, NEVER));
    FreeRuns(sig, strong, oldData);
  }

  /** The blocks from `from` below k that are full and have the weak checksum. */
  ghost function Candidates(sig: SignatureSet, weak: u32, from: nat, k: nat): set<nat> {
    set i: nat | from <= i < k && i < |sig.blocks| && IsFull(sig, i) && sig.blocks[i].weak == weak
  }

  /** A probe counts the candidates it looks at, from the top down to the one it finds, and needs the strong
      checksum if one of them is missing. */
  lemma {:induction false} ProbeCounts(sig: SignatureSet, matched: seq<bool>, weak: u32, strong: Digest, k: nat)
    requires ValidSet(sig) && |matched| == sig.blockCount && k <= sig.blockCount
    ensures var h := Search(sig, matched, weak, strong, k);
            var looked := Candidates(sig, weak, if h.found >= 0 then h.found else 0, k);
            h.hits == |looked| && (h.hashed <==> exists i :: i in looked && !matched[i])
  {
    hide IsFull, SameStrong;
    var h := Search(sig, matched, weak, strong, k);
    if k == 0 {
      assert Candidates(sig, weak, 0, 0) == {};
    } else {
      var i := k - 1;
      var from := if h.found >= 0 then h.found else 0;
      TopCandidate(sig, weak, from, k);
      if !(IsFull(sig, i) && sig.blocks[i].weak == weak && !matched[i] && SameStrong(sig, i, strong)) {
        ProbeCounts(sig, matched, weak, strong, i);
      } else {
        assert Candidates(sig, weak, i, i) == {};
      }
    }
  }

  lemma TopCandidate(sig: SignatureSet, weak: u32, from: nat, k: nat)
    requires 0 < k <= |sig.blocks| && from < k
    ensures var i, less := k - 1, Candidates(sig, weak, from, k - 1);
            && i !in less
            && Candidates(sig, weak, from, k)
               == if IsFull(sig, i) && sig.blocks[i].weak == weak then less + {i} else less
  {
    hide IsFull;
  }
}
