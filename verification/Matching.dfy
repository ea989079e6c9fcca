/**
 Maximum bipartite matching by augmenting paths: the cardinality oracle of link selection.

 A graph is an adjacency table: adj[c] lists the servers that client c reaches. Some clients and
 some servers may be blocked; only edges between unblocked ends count. The optimality certificate is
 a "dead" set: servers visited by failed searches, all matched, whose partners reach nothing new.
 */
module Matching {

  type Edge = (nat, nat)

  ghost predicate ValidGraph(adj: seq<seq<nat>>, servers: nat) {
    forall c, k :: 0 <= c < |adj| && 0 <= k < |adj[c]| ==> adj[c][k] < servers
  }

  /** An edge of the graph with both ends unblocked. */
  ghost predicate Open(adj: seq<seq<nat>>, bc: seq<bool>, bs: seq<bool>, e: Edge) {
    e.0 < |adj| && e.0 < |bc| && e.1 < |bs| && e.1 in adj[e.0] && !bc[e.0] && !bs[e.1]
  }

  ghost predicate IsMatching(m: set<Edge>) {
    forall e, f :: e in m && f in m && (e.0 == f.0 || e.1 == f.1) ==> e == f
  }

  ghost predicate OpenMatching(adj: seq<seq<nat>>, bc: seq<bool>, bs: seq<bool>, m: set<Edge>) {
    IsMatching(m) && forall e :: e in m ==> Open(adj, bc, bs, e)
  }

  /** k is the size of a largest matching of the unblocked graph. */
  ghost predicate MaxCardinality(adj: seq<seq<nat>>, bc: seq<bool>, bs: seq<bool>, k: nat) {
    && (exists m :: OpenMatching(adj, bc, bs, m) && |m| == k)
    && (forall m :: OpenMatching(adj, bc, bs, m) ==> |m| <= k)
  }

  // ----- The state of the search -----

  /** m maps servers to clients (-1 is free), along unblocked edges, using no client twice. */
  ghost predicate Partial(adj: seq<seq<nat>>, bs: seq<bool>, m: seq<int>) {
    && |m| == |bs|
    && (forall s :: 0 <= s < |m| && m[s] != -1 ==> 0 <= m[s] < |adj| && s in adj[m[s]] && !bs[s])
    && (forall s, t :: 0 <= s < t < |m| && m[s] != -1 ==> m[s] != m[t])
  }

  /** Every server that c reaches is blocked or in x. */
  ghost predicate ReachesOnly(adj: seq<seq<nat>>, bs: seq<bool>, c: int, x: set<nat>) {
    0 <= c < |adj| && forall s :: s in adj[c] && s < |bs| && !bs[s] ==> s in x
  }

  /** Every server of x is matched, to a client that reaches only y. */
  ghost predicate Dead(adj: seq<seq<nat>>, bs: seq<bool>, m: seq<int>, x: set<nat>, y: set<nat>) {
    forall s :: s in x ==> s < |m| && m[s] != -1 && ReachesOnly(adj, bs, m[s], y)
  }

  ghost function Marked(v: seq<bool>): set<nat> {
    set s: nat | s < |v| && v[s]
  }

  ghost function Unmarked(v: seq<bool>): set<nat> {
    set s: nat | s < |v| && !v[s]
  }

  /** The matching with client c removed from server `from` (-1: c is nowhere). */
  ghost function Detached(m: seq<int>, from: int): seq<int>
    requires from == -1 || 0 <= from < |m|
  {
    if from == -1 then m else m[from := -1]
  }

  ghost predicate SameButAdded(before: seq<int>, after: seq<int>, c: int) {
    forall d :: d != -1 ==> (d in after <==> d in before || d == c)
  }

  /** A free server s goes to client c, who leaves server `from`. */
  lemma GiveServer(adj: seq<seq<nat>>, bs: seq<bool>, m: seq<int>, s: nat, from: int, c: nat)
    requires Partial(adj, bs, m) && s < |bs| && m[s] == -1
    requires c < |adj| && s in adj[c] && !bs[s]
    requires if from == -1 then c !in m else 0 <= from < |bs| && m[from] == c
    ensures Partial(adj, bs, Detached(m[s := c], from))
    ensures SameButAdded(m, Detached(m[s := c], from), c)
  {
    var r := Detached(m[s := c], from);
    assert r[s] == c;
    assert forall t :: 0 <= t < |m| && t != s && t != from ==> r[t] == m[t];
    forall d | d != -1 && d != c ensures d in r <==> d in m {
      if d in m {
        var t :| 0 <= t < |m| && m[t] == d;
        assert r[t] == d;
      }
    }
  }

  ghost predicate Grows(v: seq<bool>, w: seq<bool>) {
    |v| == |w| && forall s :: 0 <= s < |v| && v[s] ==> w[s]
  }

  /** What one failed search from the partner of s adds to the visited set is dead too. */
  lemma SearchFailed(adj: seq<seq<nat>>, bs: seq<bool>, m: seq<int>, v0: seq<bool>, v1: seq<bool>, s: nat,
                     v2: seq<bool>)
    requires |m| == |v0| == |bs| && s < |v1| && Grows(v0, v1) && Grows(v1[s := true], v2) && m[s] != -1
    requires Dead(adj, bs, m, Marked(v1) - Marked(v0), Marked(v1))
    requires ReachesOnly(adj, bs, m[s], Marked(v2))
    requires Dead(adj, bs, m, Marked(v2) - Marked(v1[s := true]), Marked(v2))
    ensures Dead(adj, bs, m, Marked(v2) - Marked(v0), Marked(v2))
  {
    assert forall t :: 0 <= t < |v1| && v1[t] ==> v1[s := true][t];
    assert Marked(v1) <= Marked(v2);
    forall t | t in Marked(v2) - Marked(v0)
      ensures t < |m| && m[t] != -1 && ReachesOnly(adj, bs, m[t], Marked(v2))
    {
      if t in Marked(v1) {
        assert t in Marked(v1) - Marked(v0);
      } else if t != s {
        assert t in Marked(v2) - Marked(v1[s := true]);
      }
    }
  }

  /** What one search may assume: client c sits at the visited server `from` or nowhere (-1), and
      `dead` is any closed set of matched servers. */
  ghost predicate Searchable(adj: seq<seq<nat>>, bs: seq<bool>, m: seq<int>, v: seq<bool>, c: nat, from: int,
                             dead: set<nat>)
  {
    && ValidGraph(adj, |bs|) && Partial(adj, bs, m) && |v| == |bs| && c < |adj|
    && (if from == -1 then c !in m else 0 <= from < |bs| && m[from] == c && v[from])
    && Dead(adj, bs, m, dead, dead)
  }

  lemma NoneDead(adj: seq<seq<nat>>, bs: seq<bool>, m: seq<int>, v: set<nat>)
    ensures Dead(adj, bs, m, v - v, v)
  {
  }

  /** A failed search changes no partner, and what it visited is closed. */
  ghost predicate Exhausted(adj: seq<seq<nat>>, bs: seq<bool>, m: seq<int>, v: seq<bool>, c: nat, w: seq<bool>) {
    ReachesOnly(adj, bs, c, Marked(w)) && Dead(adj, bs, m, Marked(w) - Marked(v), Marked(w))
  }

  /** A successful search matches c as well, touching neither visited servers nor dead ones. */
  ghost predicate Augmented(adj: seq<seq<nat>>, bs: seq<bool>, m: seq<int>, v: seq<bool>, c: nat, from: int,
                            dead: set<nat>, n: seq<int>)
  {
    && |n| == |m| == |v| == |bs| && -1 <= from < |bs|
    && (forall s :: 0 <= s < |bs| && (v[s] || s in dead) ==> n[s] == m[s])
    && Partial(adj, bs, Detached(n, from))
    && SameButAdded(m, Detached(n, from), c)
  }

  lemma FreeServerFound(adj: seq<seq<nat>>, bs: seq<bool>, m: seq<int>, v: seq<bool>, c: nat, from: int, dead: set<nat>,
                        s: nat)
    requires Searchable(adj, bs, m, v, c, from, dead)
    requires s < |bs| && s in adj[c] && !bs[s] && !v[s] && m[s] == -1
    ensures Augmented(adj, bs, m, v, c, from, dead, m[s := c])
    ensures !ReachesOnly(adj, bs, c, dead)
  {
    GiveServer(adj, bs, m, s, from, c);
  }

  lemma PartnerMoved(adj: seq<seq<nat>>, bs: seq<bool>, m: seq<int>, v: seq<bool>, v1: seq<bool>, c: nat, from: int,
                     dead: set<nat>, s: nat, n: seq<int>)
    requires Searchable(adj, bs, m, v, c, from, dead) && Grows(v, v1)
    requires s < |bs| && s in adj[c] && !bs[s] && !v[s] && m[s] != -1
    requires Augmented(adj, bs, m, v1[s := true], m[s], s, dead, n) && !ReachesOnly(adj, bs, m[s], dead)
    ensures Augmented(adj, bs, m, v, c, from, dead, n[s := c])
    ensures !ReachesOnly(adj, bs, c, dead)
  {
    assert s !in dead by {
      assert Dead(adj, bs, m, dead, dead);
    }
    var k := n[s := -1];
    MovedRoom(adj, bs, m, v, v1, c, from, dead, s, n);
    GiveServer(adj, bs, k, s, from, c);
    assert k[s := c] == n[s := c];
  }

  /** With its partner moved on, server s is free for c and nothing else has changed for c. */
  lemma MovedRoom(adj: seq<seq<nat>>, bs: seq<bool>, m: seq<int>, v: seq<bool>, v1: seq<bool>, c: nat, from: int,
                  dead: set<nat>, s: nat, n: seq<int>)
    requires Searchable(adj, bs, m, v, c, from, dead) && Grows(v, v1)
    requires s < |bs| && !v[s] && m[s] != -1
    requires Augmented(adj, bs, m, v1[s := true], m[s], s, dead, n)
    ensures var k := n[s := -1];
            && Partial(adj, bs, k) && SameButAdded(m, k, m[s])
            && (if from == -1 then c !in k else k[from] == c)
            && forall t :: 0 <= t < |bs| && (v[t] || t in dead) && t != s ==> n[t] == m[t]
  {
    assert forall t :: 0 <= t < |v1| && v1[t] ==> v1[s := true][t];
    assert m[s] in m;
  }

  class Kuhn {
    const adj: seq<seq<nat>>
    const bs: seq<bool>
    const matchS: array<int>
    const visited: array<bool>

    ghost predicate Valid()
      reads this, matchS, visited
    {
      && matchS.Length == visited.Length == |bs|
      && ValidGraph(adj, |bs|)
      && Partial(adj, bs, matchS[..])
    }

    constructor (adj: seq<seq<nat>>, bs: seq<bool>)
      requires ValidGraph(adj, |bs|)
      ensures this.adj == adj && this.bs == bs && Valid() && fresh(matchS) && fresh(visited)
      ensures forall d :: d in matchS[..] ==> d == -1
    {
      this.adj := adj;
      this.bs := bs;
      matchS := new int[|bs|](_ => -1);
      visited := new bool[|bs|](_ => false);
    }

    method ClearVisited()
      requires Valid()
      modifies visited
      ensures Valid() && Marked(visited[..]) == {}
    {
      for i := 0 to visited.Length
        invariant forall s :: 0 <= s < i ==> !visited[s]
      {
        visited[i] := false;
      }
    }

    /** Try to match client c, moving partners of servers along an augmenting path. */
    method Augment(c: nat, ghost from: int, ghost dead: set<nat>) returns (ok: bool)
      requires Valid() && Searchable(adj, bs, matchS[..], visited[..], c, from, dead)
      modifies matchS, visited
      ensures Grows(old(visited[..]), visited[..])
      ensures if ok then Augmented(adj, bs, old(matchS[..]), old(visited[..]), c, from, dead, matchS[..])
              else matchS[..] == old(matchS[..])
                   && Exhausted(adj, bs, old(matchS[..]), old(visited[..]), c, visited[..])
      ensures ReachesOnly(adj, bs, c, dead) ==> !ok
      decreases Unmarked(visited[..])
    {
      hide Dead, Augmented;
      ghost var m0, v0 := matchS[..], visited[..];
      NoneDead(adj, bs, m0, Marked(v0));
      for k := 0 to |adj[c]|
        invariant matchS[..] == m0
        invariant Grows(v0, visited[..])
        invariant forall j :: 0 <= j < k ==> bs[adj[c][j]] || visited[adj[c][j]]
        invariant Dead(adj, bs, m0, Marked(visited[..]) - Marked(v0), Marked(visited[..]))
      {
        var s := adj[c][k];
        if bs[s] || visited[s] {
          continue;
        }
        ghost var v1 := visited[..];
        visited[s] := true;
        assert visited[..] == v1[s := true];
        if matchS[s] == -1 {
          matchS[s] := c;
          FreeServerFound(adj, bs, m0, v0, c, from, dead, s);
          assert matchS[..] == m0[s := c];
          return true;
        }
        assert s in Unmarked(v0) && s !in Unmarked(visited[..]);
        var found := Augment(matchS[s], s, dead);
        if found {
          PartnerMoved(adj, bs, m0, v0, v1, c, from, dead, s, matchS[..]);
          matchS[s] := c;
          return true;
        }
        SearchFailed(adj, bs, m0, v0, v1, s, visited[..]);
      }
      return false;
    }
  }

  // ----- The counting argument -----

  /** An injective finite map has no more keys than its target has elements. */
  lemma {:induction false} InjectionBound<T, U>(f: map<T, U>, target: set<U>)
    requires forall x :: x in f ==> f[x] in target
    requires forall x, y :: x in f && y in f && f[x] == f[y] ==> x == y
    ensures |f| <= |target|
    decreases |f|
  {
    if f != map[] {
      var x :| x in f;
      InjectionBound(f - {x}, target - {f[x]});
    }
  }

  /** The state of the outer loop: `won` clients are matched, `lost` ones reach only dead servers. */
  ghost predicate Progress(adj: seq<seq<nat>>, bs: seq<bool>, m: seq<int>, won: set<nat>, lost: set<nat>,
                           dead: set<nat>)
  {
    && ValidGraph(adj, |bs|) && Partial(adj, bs, m)
    && (forall d: nat :: d in m <==> d in won)
    && (forall c :: c in lost ==> ReachesOnly(adj, bs, c, dead))
    && Dead(adj, bs, m, dead, dead)
  }

  ghost predicate Processed(bc: seq<bool>, n: nat, won: set<nat>, lost: set<nat>) {
    && n <= |bc|
    && (forall c :: c in won + lost ==> c < n && !bc[c])
    && (forall c :: 0 <= c < n && !bc[c] ==> c in won + lost)
  }

  /** Each edge of any matching is charged to a client that was won: no matching is larger. */
  lemma NoLargerMatching(adj: seq<seq<nat>>, bc: seq<bool>, bs: seq<bool>, m: seq<int>, won: set<nat>, lost: set<nat>,
                         dead: set<nat>, f: set<Edge>)
    requires |adj| == |bc| && Progress(adj, bs, m, won, lost, dead)
    requires Processed(bc, |bc|, won, lost)
    requires OpenMatching(adj, bc, bs, f)
    ensures |f| <= |won|
  {
    var charge := map e | e in f :: if e.1 in dead then m[e.1] as nat else e.0;
    forall e | e in f ensures charge[e] in won {
      assert Open(adj, bc, bs, e);
      if e.1 in dead {
        assert m[e.1] in m;
      }
    }
    forall e, g | e in f && g in f && charge[e] == charge[g] ensures e == g {
      assert Open(adj, bc, bs, e) && Open(adj, bc, bs, g);
    }
    InjectionBound(charge, won);
    assert charge.Keys == f;
  }

  ghost function Pairs(m: seq<int>): (f: set<Edge>)
    requires forall s :: 0 <= s < |m| ==> m[s] >= -1
    ensures forall e :: e in f <==> e.1 < |m| && m[e.1] == e.0
  {
    set s: nat | s < |m| && m[s] != -1 :: (m[s] as nat, s)
  }

  ghost function PartnersOf(f: set<Edge>): set<nat> {
    set e | e in f :: e.0
  }

  lemma {:induction false} PartnersAtMost(f: set<Edge>)
    ensures |PartnersOf(f)| <= |f|
    decreases |f|
  {
    if f != {} {
      var e :| e in f;
      PartnersAtMost(f - {e});
      assert PartnersOf(f) == PartnersOf(f - {e}) + {e.0};
    }
  }

  lemma PairsMatch(adj: seq<seq<nat>>, bc: seq<bool>, bs: seq<bool>, m: seq<int>, won: set<nat>)
    requires |adj| == |bc| && Partial(adj, bs, m)
    requires forall d: nat :: d in m <==> d in won
    requires forall c :: c in won ==> c < |bc| && !bc[c]
    ensures OpenMatching(adj, bc, bs, Pairs(m)) && PartnersOf(Pairs(m)) == won
  {
    var f := Pairs(m);
    forall e | e in f ensures Open(adj, bc, bs, e) {
      assert m[e.1] in m;
    }
    forall c | c in won ensures c in PartnersOf(f) {
      var s: nat :| s < |m| && m[s] == c;
      assert (c, s) in f;
    }
  }

  lemma MatchingFound(adj: seq<seq<nat>>, bc: seq<bool>, bs: seq<bool>, m: seq<int>, won: set<nat>, lost: set<nat>,
                      dead: set<nat>)
    requires |adj| == |bc| && Progress(adj, bs, m, won, lost, dead)
    requires Processed(bc, |bc|, won, lost)
    ensures exists f :: OpenMatching(adj, bc, bs, f) && |f| == |won|
  {
    PairsMatch(adj, bc, bs, m, won);
    PartnersAtMost(Pairs(m));
    NoLargerMatching(adj, bc, bs, m, won, lost, dead, Pairs(m));
  }

  lemma ClientWon(adj: seq<seq<nat>>, bc: seq<bool>, bs: seq<bool>, m: seq<int>, v: seq<bool>, won: set<nat>,
                  lost: set<nat>, dead: set<nat>, c: nat, n: seq<int>)
    requires Progress(adj, bs, m, won, lost, dead)
    requires Augmented(adj, bs, m, v, c, -1, dead, n)
    requires |adj| == |bc| && Processed(bc, c, won, lost) && c < |bc| && !bc[c] && c !in m
    ensures Progress(adj, bs, n, won + {c}, lost, dead) && Processed(bc, c + 1, won + {c}, lost)
    ensures |won + {c}| == |won| + 1 && Partial(adj, bs, n)
  {
    assert Detached(n, -1) == n;
  }

  lemma ClientLost(adj: seq<seq<nat>>, bc: seq<bool>, bs: seq<bool>, m: seq<int>, v: seq<bool>, won: set<nat>,
                   lost: set<nat>, dead: set<nat>, c: nat, w: seq<bool>)
    requires Progress(adj, bs, m, won, lost, dead)
    requires Marked(v) == {} && Exhausted(adj, bs, m, v, c, w)
    requires |adj| == |bc| && Processed(bc, c, won, lost) && c < |bc| && !bc[c]
    ensures Progress(adj, bs, m, won, lost + {c}, dead + Marked(w)) && Processed(bc, c + 1, won, lost + {c})
  {
    var all := dead + Marked(w);
    forall s | s in all ensures s < |m| && m[s] != -1 && ReachesOnly(adj, bs, m[s], all) {
      if s in Marked(w) {
        assert s in Marked(w) - Marked(v);
      }
    }
  }

  lemma NoneProcessed(adj: seq<seq<nat>>, bc: seq<bool>, bs: seq<bool>, m: seq<int>)
    requires |adj| == |bc| && ValidGraph(adj, |bs|) && Partial(adj, bs, m) && forall d :: d in m ==> d == -1
    ensures Progress(adj, bs, m, {}, {}, {}) && Processed(bc, 0, {}, {})
  {
  }

  lemma BlockedSkipped(bc: seq<bool>, c: nat, won: set<nat>, lost: set<nat>)
    requires Processed(bc, c, won, lost) && c < |bc| && bc[c]
    ensures Processed(bc, c + 1, won, lost)
  {
  }

  /** The next open client has no partner, and can be searched from. */
  lemma SearchStarts(adj: seq<seq<nat>>, bc: seq<bool>, bs: seq<bool>, m: seq<int>, v: seq<bool>, won: set<nat>,
                     lost: set<nat>, dead: set<nat>, c: nat)
    requires Progress(adj, bs, m, won, lost, dead) && |adj| == |bc| && Processed(bc, c, won, lost)
    requires c < |bc| && |v| == |bs|
    ensures c !in m && Searchable(adj, bs, m, v, c, -1, dead)
  {
    assert c in won ==> c in won + lost;
  }

  lemma LargestFound(adj: seq<seq<nat>>, bc: seq<bool>, bs: seq<bool>, m: seq<int>, won: set<nat>, lost: set<nat>,
                     dead: set<nat>)
    requires |adj| == |bc| && Progress(adj, bs, m, won, lost, dead) && Processed(bc, |bc|, won, lost)
    ensures MaxCardinality(adj, bc, bs, |won|)
  {
    hide Progress, Processed, OpenMatching;
    MatchingFound(adj, bc, bs, m, won, lost, dead);
    forall g | OpenMatching(adj, bc, bs, g) ensures |g| <= |won| {
      NoLargerMatching(adj, bc, bs, m, won, lost, dead, g);
    }
  }

  /** The largest number of edges a matching of the unblocked graph can have. */
  method MaxMatching(adj: seq<seq<nat>>, bc: seq<bool>, bs: seq<bool>) returns (matched: nat)
    requires |adj| == |bc| && ValidGraph(adj, |bs|)
    ensures MaxCardinality(adj, bc, bs, matched)
  {
    hide Progress, Processed, Searchable, Augmented, Exhausted, MaxCardinality, Partial, ReachesOnly, Marked, Grows;
    var kuhn := new Kuhn(adj, bs);
    matched := 0;
    ghost var m := kuhn.matchS[..];
    ghost var won: set<nat>, lost: set<nat>, dead: set<nat> := {}, {}, {};
    NoneProcessed(adj, bc, bs, m);
    for c: nat := 0 to |adj|
      invariant kuhn.Valid() && m == kuhn.matchS[..]
      invariant Progress(adj, bs, m, won, lost, dead)
      invariant Processed(bc, c, won, lost)
      invariant matched == |won|
    {
      if bc[c] {
        BlockedSkipped(bc, c, won, lost);
        continue;
      }
      kuhn.ClearVisited();
      ghost var v := kuhn.visited[..];
      SearchStarts(adj, bc, bs, m, v, won, lost, dead, c);
      var ok := kuhn.Augment(c, -1, dead);
      if ok {
        ClientWon(adj, bc, bs, m, v, won, lost, dead, c, kuhn.matchS[..]);
        m, won := kuhn.matchS[..], won + {c};
        matched := matched + 1;
      } else {
        ClientLost(adj, bc, bs, m, v, won, lost, dead, c, kuhn.visited[..]);
        lost, dead := lost + {c}, dead + Marked(kuhn.visited[..]);
      }
    }
    LargestFound(adj, bc, bs, m, won, lost, dead);
  }
}
