/**
 The selection phase: a best-first greedy over the ranked edges, each commitment guarded by a
 maximum-matching computation on what is left. The exchange argument is stated on sets of edges.
 */
module LinkGreedy {
  import opened LinkOrder
  import Matching

  /** No NIC is used twice, on either side. */
  ghost predicate LinkMatching(m: set<Edge>) {
    forall e, f :: e in m && f in m && (e.clientNic == f.clientNic || e.serverNic == f.serverNic) ==> e == f
  }

  /** k is the size of a largest set of links over `cands` that uses no NIC twice. */
  ghost predicate MaxLinks(cands: set<Edge>, k: nat) {
    && (exists m :: m <= cands && LinkMatching(m) && |m| == k)
    && (forall m :: m <= cands && LinkMatching(m) ==> |m| <= k)
  }

  ghost function ClientNics(m: set<Edge>): set<string> {
    set e | e in m :: e.clientNic
  }

  ghost function ServerNics(m: set<Edge>): set<string> {
    set e | e in m :: e.serverNic
  }

  ghost predicate Clashes(e: Edge, picked: set<Edge>) {
    e.clientNic in ClientNics(picked) || e.serverNic in ServerNics(picked)
  }

  /** What is left once the NICs of `picked` are taken. */
  ghost function Residual(cands: set<Edge>, picked: set<Edge>): set<Edge> {
    set e | e in cands && !Clashes(e, picked)
  }

  // ----- The exchange argument -----

  /** Up to position i of the ranking, b makes the same choices as `picked` or falls behind. */
  ghost predicate Agree(es: seq<Edge>, picked: set<Edge>, b: set<Edge>, i: nat) {
    forall j :: 0 <= j < i && j < |es| ==> (es[j] in picked <==> es[j] in b)
  }

  ghost predicate FallsBehind(es: seq<Edge>, picked: set<Edge>, b: set<Edge>, i: nat) {
    exists j :: 0 <= j < i && j < |es| && es[j] in picked && es[j] !in b && Agree(es, picked, b, j)
  }

  ghost predicate FullMatching(es: seq<Edge>, kMax: nat, b: set<Edge>) {
    b <= Elements(es) && LinkMatching(b) && |b| == kMax
  }

  /** The greedy invariant: the picks extend to a full matching, and every full matching makes the
      same choices so far or falls behind. */
  ghost predicate GreedyInv(es: seq<Edge>, kMax: nat, picked: set<Edge>, i: nat) {
    && Sorted(Better, es) && i <= |es|
    && picked <= Elements(es[..i]) && LinkMatching(picked)
    && Extendable(es, kMax, picked) && Leading(es, kMax, picked, i)
  }

  ghost predicate Extendable(es: seq<Edge>, kMax: nat, picked: set<Edge>) {
    exists f :: FullMatching(es, kMax, f) && picked <= f
  }

  ghost predicate Leading(es: seq<Edge>, kMax: nat, picked: set<Edge>, i: nat) {
    forall b :: FullMatching(es, kMax, b) ==> Agree(es, picked, b, i) || FallsBehind(es, picked, b, i)
  }

  lemma RankedOnce(es: seq<Edge>, i: nat, picked: set<Edge>)
    requires Sorted(Better, es) && i < |es| && picked <= Elements(es[..i])
    ensures es[i] !in picked && picked <= Elements(es[..i+1]) && Elements(es[..i+1]) == Elements(es[..i]) + {es[i]}
  {
    BetterIsOrder();
    assert es[..i+1] == es[..i] + [es[i]];
    forall e | e in es[..i] ensures e != es[i] {
      var j :| 0 <= j < i && es[..i][j] == e;
    }
  }

  lemma Skip(es: seq<Edge>, kMax: nat, picked: set<Edge>, i: nat)
    requires GreedyInv(es, kMax, picked, i) && i < |es|
    requires forall b :: FullMatching(es, kMax, b) && picked <= b ==> es[i] !in b
    ensures GreedyInv(es, kMax, picked, i + 1) && !Extendable(es, kMax, picked + {es[i]})
  {
    RankedOnce(es, i, picked);
    assert es[i] in picked + {es[i]};
    forall b | FullMatching(es, kMax, b) ensures !(picked + {es[i]} <= b) {
      assert picked + {es[i]} <= b ==> picked <= b;
    }
    forall b | FullMatching(es, kMax, b)
      ensures Agree(es, picked, b, i + 1) || FallsBehind(es, picked, b, i + 1)
    {
      if Agree(es, picked, b, i) {
        PickedAmongAgreeing(es, picked, b, i);
        assert Agree(es, picked, b, i + 1);
      } else {
        var j :| 0 <= j < i && j < |es| && es[j] in picked && es[j] !in b && Agree(es, picked, b, j);
      }
    }
  }

  lemma PickedAmongAgreeing(es: seq<Edge>, picked: set<Edge>, b: set<Edge>, i: nat)
    requires i <= |es| && picked <= Elements(es[..i]) && Agree(es, picked, b, i)
    ensures picked <= b
  {
    forall e | e in picked ensures e in b {
      var j :| 0 <= j < i && es[..i][j] == e;
      assert es[j] in picked;
    }
  }

  /** An edge that clashes with a pick is in no full matching that extends the picks. */
  lemma SkipClash(es: seq<Edge>, kMax: nat, picked: set<Edge>, i: nat)
    requires GreedyInv(es, kMax, picked, i) && i < |es| && Clashes(es[i], picked)
    ensures GreedyInv(es, kMax, picked, i + 1) && !Extendable(es, kMax, picked + {es[i]})
  {
    RankedOnce(es, i, picked);
    var f :| f in picked && (f.clientNic == es[i].clientNic || f.serverNic == es[i].serverNic);
    Skip(es, kMax, picked, i);
  }

  lemma UnionOfResidual(cands: set<Edge>, picked: set<Edge>, m: set<Edge>)
    requires LinkMatching(picked) && m <= Residual(cands, picked) && LinkMatching(m)
    ensures LinkMatching(picked + m) && |picked + m| == |picked| + |m|
  {
    forall e | e in m ensures e !in picked {
      assert e in Residual(cands, picked);
    }
    forall e, f | e in m && f in picked ensures e.clientNic != f.clientNic && e.serverNic != f.serverNic {
      assert e in Residual(cands, picked);
    }
    assert picked !! m;
  }

  /** A matching over the picks p leaves the rest of its edges in the residual graph. */
  lemma RestIsResidual(cands: set<Edge>, p: set<Edge>, b: set<Edge>)
    requires p <= b <= cands && LinkMatching(b)
    ensures b - p <= Residual(cands, p) && LinkMatching(b - p) && |b| == |p| + |b - p|
  {
    forall e | e in b - p ensures e in Residual(cands, p) {
      forall f | f in p ensures f.clientNic != e.clientNic && f.serverNic != e.serverNic {
        assert f in b;
      }
    }
    assert b == p + (b - p);
  }

  /** The guard refuses: what is left cannot fill up to kMax, so no full matching takes the edge. */
  lemma SkipRefused(es: seq<Edge>, kMax: nat, picked: set<Edge>, i: nat, left: nat)
    requires GreedyInv(es, kMax, picked, i) && i < |es|
    requires MaxLinks(Residual(Elements(es), picked + {es[i]}), left)
    requires |picked| + 1 + left < kMax
    ensures GreedyInv(es, kMax, picked, i + 1) && !Extendable(es, kMax, picked + {es[i]})
  {
    var p := picked + {es[i]};
    assert |p| <= |picked| + 1;
    forall b | FullMatching(es, kMax, b) && picked <= b ensures es[i] !in b {
      if p <= b {
        RestIsResidual(Elements(es), p, b);
        assert false;
      }
    }
    Skip(es, kMax, picked, i);
  }

  lemma {:induction false} SubsetOfSize<T>(s: set<T>, k: nat) returns (t: set<T>)
    requires k <= |s|
    ensures t <= s && |t| == k
    decreases |s|
  {
    if k == |s| {
      t := s;
    } else {
      var x :| x in s;
      t := SubsetOfSize(s - {x}, k);
    }
  }

  lemma ExtendedPicks(es: seq<Edge>, kMax: nat, p: set<Edge>, left: nat)
    requires p <= Elements(es) && LinkMatching(p) && |p| <= kMax
    requires MaxLinks(Residual(Elements(es), p), left) && |p| + left >= kMax
    ensures Extendable(es, kMax, p)
  {
    var r := Residual(Elements(es), p);
    var m :| m <= r && LinkMatching(m) && |m| == left;
    var n := SubsetOfSize(m, kMax - |p|);
    UnionOfResidual(Elements(es), p, n);
    assert FullMatching(es, kMax, p + n) && p <= p + n;
  }

  lemma PickKeepsLead(es: seq<Edge>, picked: set<Edge>, b: set<Edge>, i: nat)
    requires Sorted(Better, es) && i < |es| && picked <= Elements(es[..i])
    requires Agree(es, picked, b, i) || FallsBehind(es, picked, b, i)
    ensures Agree(es, picked + {es[i]}, b, i + 1) || FallsBehind(es, picked + {es[i]}, b, i + 1)
  {
    var p := picked + {es[i]};
    forall j | 0 <= j < i ensures es[j] in p <==> es[j] in picked {
      BetterIsOrder();
    }
    if Agree(es, picked, b, i) {
      assert Agree(es, p, b, i);
    } else {
      var j :| 0 <= j < i && j < |es| && es[j] in picked && es[j] !in b && Agree(es, picked, b, j);
      assert es[j] in p && Agree(es, p, b, j);
    }
  }

  lemma AddPick(cands: set<Edge>, picked: set<Edge>, e: Edge)
    requires picked <= cands && e in cands && LinkMatching(picked) && !Clashes(e, picked)
    ensures e !in picked && LinkMatching(picked + {e}) && |picked + {e}| == |picked| + 1 && picked + {e} <= cands
  {
  }

  lemma PickLeads(es: seq<Edge>, kMax: nat, picked: set<Edge>, i: nat)
    requires Sorted(Better, es) && i < |es| && picked <= Elements(es[..i])
    requires Leading(es, kMax, picked, i)
    ensures Leading(es, kMax, picked + {es[i]}, i + 1)
  {
    forall b | FullMatching(es, kMax, b)
      ensures Agree(es, picked + {es[i]}, b, i + 1) || FallsBehind(es, picked + {es[i]}, b, i + 1)
    {
      PickKeepsLead(es, picked, b, i);
    }
  }

  /** The guard accepts: the extended picks still extend to a full matching. */
  lemma Commit(es: seq<Edge>, kMax: nat, picked: set<Edge>, i: nat, left: nat)
    requires GreedyInv(es, kMax, picked, i) && i < |es| && !Clashes(es[i], picked) && |picked| < kMax
    requires MaxLinks(Residual(Elements(es), picked + {es[i]}), left)
    requires |picked| + 1 + left >= kMax
    ensures GreedyInv(es, kMax, picked + {es[i]}, i + 1)
    ensures es[i] !in picked
  {
    var p := picked + {es[i]};
    RankedOnce(es, i, picked);
    assert picked <= Elements(es) by {
      assert forall e :: e in es[..i] ==> e in es;
    }
    AddPick(Elements(es), picked, es[i]);
    ExtendedPicks(es, kMax, p, left);
    PickLeads(es, kMax, picked, i);
  }

  /** Nothing to pick yet. */
  lemma Begin(es: seq<Edge>, kMax: nat, max: nat)
    requires Sorted(Better, es) && MaxLinks(Elements(es), max) && kMax <= max
    ensures GreedyInv(es, kMax, {}, 0)
  {
    var m :| m <= Elements(es) && LinkMatching(m) && |m| == max;
    var f := SubsetOfSize(m, kMax);
    assert FullMatching(es, kMax, f) && {} <= f;
  }

  lemma SameSize<T>(a: set<T>, b: set<T>)
    requires a <= b && |a| >= |b|
    ensures a == b
  {
    assert b == a + (b - a);
  }

  lemma PicksAreFull(es: seq<Edge>, kMax: nat, picked: set<Edge>, i: nat)
    requires GreedyInv(es, kMax, picked, i) && (|picked| >= kMax || i == |es|)
    ensures FullMatching(es, kMax, picked)
  {
    var f :| FullMatching(es, kMax, f) && picked <= f;
    if |picked| < kMax {
      assert forall j :: FallsBehind(es, picked, f, j) ==> false;
      assert Agree(es, picked, f, i);
      forall e | e in f ensures e in picked {
        var j :| 0 <= j < |es| && es[j] == e;
      }
      assert picked == f;
    } else {
      SameSize(picked, f);
    }
  }

  lemma BehindIsPreceded(es: seq<Edge>, picked: set<Edge>, b: set<Edge>, i: nat)
    requires Sorted(Better, es) && picked <= Elements(es) && b <= Elements(es)
    requires FallsBehind(es, picked, b, i)
    ensures Precedes(picked, b)
  {
    BetterIsOrder();
    var j :| 0 <= j < i && j < |es| && es[j] in picked && es[j] !in b && Agree(es, picked, b, j);
    forall y | Better(y, es[j]) ensures y in picked <==> y in b {
      if y in es {
        var k :| 0 <= k < |es| && es[k] == y;
      }
    }
    assert AgreeAbove(picked, b, es[j]);
  }

  /** When the picks are full or the ranking is exhausted, the picks are a full matching and come
      before every other one. */
  lemma Finish(es: seq<Edge>, kMax: nat, picked: set<Edge>, i: nat)
    requires GreedyInv(es, kMax, picked, i) && (|picked| >= kMax || i == |es|)
    ensures FullMatching(es, kMax, picked)
    ensures forall b :: FullMatching(es, kMax, b) && b != picked ==> Precedes(picked, b)
  {
    PicksAreFull(es, kMax, picked, i);
    forall b | FullMatching(es, kMax, b) && b != picked ensures Precedes(picked, b) {
      if FallsBehind(es, picked, b, i) {
        BehindIsPreceded(es, picked, b, i);
      } else {
        PickedAmongAgreeing(es, picked, b, i);
        SameSize(picked, b);
        assert false;
      }
    }
  }
}
