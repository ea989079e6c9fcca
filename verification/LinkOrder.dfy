/**
 Candidate links of the automatic selection and their strict total order: family, subnet, RTT, then
 a tie-break on the NIC names and the matrix position.
 */
module LinkOrder {

  datatype Edge = Edge(family: int, subnet: int, rtt: int, row: nat, col: nat, clientNic: string, serverNic: string)

  /** Character-wise lexicographic order, a proper prefix being smaller. */
  predicate StrLess(a: string, b: string) {
    if b == "" then false
    else if a == "" then true
    else if a[0] != b[0] then a[0] < b[0]
    else StrLess(a[1..], b[1..])
  }

  predicate Better(a: Edge, b: Edge) {
    if a.family != b.family then a.family < b.family
    else if a.subnet != b.subnet then a.subnet < b.subnet
    else if a.rtt != b.rtt then a.rtt < b.rtt
    else if a.clientNic != b.clientNic then StrLess(a.clientNic, b.clientNic)
    else if a.serverNic != b.serverNic then StrLess(a.serverNic, b.serverNic)
    else if a.row != b.row then a.row < b.row
    else a.col < b.col
  }

  ghost predicate StrictTotalOrder<T(!new)>(less: (T, T) -> bool) {
    && (forall a, b :: less(a, b) ==> !less(b, a))
    && (forall a, b :: a != b ==> less(a, b) || less(b, a))
    && (forall a, b, c :: less(a, b) && less(b, c) ==> less(a, c))
  }

  lemma {:induction false} StrLessTotal(a: string, b: string)
    ensures !(StrLess(a, b) && StrLess(b, a))
    ensures a != b ==> StrLess(a, b) || StrLess(b, a)
  {
    if a != "" && b != "" && a[0] == b[0] {
      StrLessTotal(a[1..], b[1..]);
      assert a != b ==> a[1..] != b[1..] by {
        assert a == [a[0]] + a[1..] && b == [b[0]] + b[1..];
      }
    }
  }

  lemma {:induction false} StrLessTransitive(a: string, b: string, c: string)
    requires StrLess(a, b) && StrLess(b, c)
    ensures StrLess(a, c)
  {
    if a != "" && a[0] == b[0] == c[0] {
      StrLessTransitive(a[1..], b[1..], c[1..]);
    }
  }

  /** The first character in which they differ decides, and a proper prefix is smaller. */
  lemma {:induction false} StrLessMeaning(a: string, b: string)
    ensures StrLess(a, b) <==> exists k :: 0 <= k <= |a| && DiffersAt(a, b, k)
  {
    if a != "" && b != "" && a[0] == b[0] {
      StrLessMeaning(a[1..], b[1..]);
      forall k: nat | k < |a| ensures DiffersAt(a[1..], b[1..], k) <==> DiffersAt(a, b, k + 1) {
        DiffersBehind(a, b, k);
      }
      if k: nat :| k <= |a| - 1 && DiffersAt(a[1..], b[1..], k) {
        assert DiffersAt(a, b, k + 1);
      }
      if k: nat :| 0 < k <= |a| && DiffersAt(a, b, k) {
        assert DiffersAt(a[1..], b[1..], k - 1) <==> DiffersAt(a, b, k - 1 + 1);
      }
    } else {
      assert DiffersAt(a, b, 0) <==> StrLess(a, b);
    }
  }

  ghost predicate DiffersAt(a: string, b: string, k: nat) {
    k <= |a| && k < |b| && a[..k] == b[..k] && (k < |a| ==> a[k] < b[k])
  }

  lemma DiffersBehind(a: string, b: string, k: nat)
    requires a != "" && b != "" && a[0] == b[0] && k < |a|
    ensures DiffersAt(a[1..], b[1..], k) <==> DiffersAt(a, b, k + 1)
  {
    if k + 1 <= |b| {
      assert a[..k + 1] == [a[0]] + a[1..][..k] && b[..k + 1] == [b[0]] + b[1..][..k];
    }
  }

  lemma StrLessIsOrder()
    ensures StrictTotalOrder(StrLess)
  {
    forall a, b ensures StrLess(a, b) ==> !StrLess(b, a) {
      StrLessTotal(a, b);
    }
    forall a, b | a != b ensures StrLess(a, b) || StrLess(b, a) {
      StrLessTotal(a, b);
    }
    forall a, b, c | StrLess(a, b) && StrLess(b, c) ensures StrLess(a, c) {
      StrLessTransitive(a, b, c);
    }
  }

  /** The ranking of candidate links is a strict total order, whatever the enumeration order. */
  lemma BetterIsOrder()
    ensures StrictTotalOrder(Better)
  {
    StrLessIsOrder();
  }

  ghost predicate Sorted<T>(less: (T, T) -> bool, q: seq<T>) {
    forall i, j :: 0 <= i < j < |q| ==> less(q[i], q[j])
  }

  /** The place of x in a sorted sequence that does not hold it. */
  method InsertionPoint<T(!new)>(less: (T, T) -> bool, q: seq<T>, x: T) returns (k: nat)
    requires StrictTotalOrder(less) && Sorted(less, q) && x !in q
    ensures k <= |q| && Sorted(less, q[..k] + [x] + q[k..])
  {
    k := 0;
    while k < |q| && less(q[k], x)
      invariant k <= |q| && forall i :: 0 <= i < k ==> less(q[i], x)
    {
      k := k + 1;
    }
    if k < |q| {
      assert q[k] in q && less(x, q[k]);
    }
  }

  /** The elements of a finite set in ascending order. */
  method Sort<T(!new, ==)>(less: (T, T) -> bool, items: set<T>) returns (q: seq<T>)
    requires StrictTotalOrder(less)
    ensures Sorted(less, q) && |q| == |items|
    ensures forall x :: x in q <==> x in items
  {
    q := [];
    var rest := items;
    while rest != {}
      invariant rest <= items && Sorted(less, q) && |q| + |rest| == |items|
      invariant forall x :: x in q <==> x in items - rest
      decreases rest
    {
      var x :| x in rest;
      var k := InsertionPoint(less, q, x);
      assert q == q[..k] + q[k..];
      assert forall y :: y in q <==> y in q[..k] || y in q[k..];
      q := q[..k] + [x] + q[k..];
      rest := rest - {x};
    }
  }

  // ----- Comparing selections -----

  /** a comes before b: at the best-ranked edge where they differ, a has it. */
  ghost predicate Precedes(a: set<Edge>, b: set<Edge>) {
    exists z :: z in a && z !in b && AgreeAbove(a, b, z)
  }

  ghost predicate AgreeAbove(a: set<Edge>, b: set<Edge>, z: Edge) {
    forall y :: Better(y, z) ==> (y in a <==> y in b)
  }

  lemma PrecedesTransitive(a: set<Edge>, b: set<Edge>, c: set<Edge>)
    requires Precedes(a, b) && Precedes(b, c)
    ensures Precedes(a, c)
  {
    BetterIsOrder();
    var x :| x in a && x !in b && AgreeAbove(a, b, x);
    var y :| y in b && y !in c && AgreeAbove(b, c, y);
    if Better(x, y) {
      assert AgreeAbove(a, c, x);
    } else {
      assert AgreeAbove(a, c, y);
    }
  }

  lemma {:induction false} BestExists(s: set<Edge>) returns (z: Edge)
    requires s != {}
    ensures z in s && forall y :: y in s && y != z ==> Better(z, y)
    decreases |s|
  {
    BetterIsOrder();
    var x :| x in s;
    if s == {x} {
      z := x;
    } else {
      var t := s - {x};
      assert s == t + {x};
      var y := BestExists(t);
      z := if Better(x, y) then x else y;
    }
  }

  /** Lexicographic order of the ascending rank vectors of two selections of one size. */
  ghost predicate LexLess(a: seq<Edge>, b: seq<Edge>) {
    exists i :: 0 <= i < |a| && i < |b| && a[..i] == b[..i] && Better(a[i], b[i])
  }

  ghost function Elements<T>(q: seq<T>): set<T> {
    set x | x in q
  }

  lemma {:induction false} FirstDifference(a: seq<Edge>, b: seq<Edge>) returns (i: nat)
    requires |a| == |b| && a != b
    ensures i < |a| && a[..i] == b[..i] && a[i] != b[i]
  {
    if a[0] != b[0] {
      i := 0;
    } else {
      assert a == [a[0]] + a[1..] && b == [b[0]] + b[1..];
      var j := FirstDifference(a[1..], b[1..]);
      i := j + 1;
      assert a[..i] == [a[0]] + a[1..][..j] && b[..i] == [b[0]] + b[1..][..j];
    }
  }

  lemma BetterElementIsMissing(a: seq<Edge>, b: seq<Edge>, i: nat)
    requires Sorted(Better, a) && Sorted(Better, b) && i < |a| && i < |b| && a[..i] == b[..i]
    requires Better(b[i], a[i])
    ensures b[i] !in a
  {
    BetterIsOrder();
    forall j | 0 <= j < |a| ensures a[j] != b[i] {
      if j < i {
        assert a[j] == a[..i][j] == b[..i][j] == b[j];
      }
    }
  }

  lemma PrecedingIsLess(a: seq<Edge>, b: seq<Edge>)
    requires Sorted(Better, a) && Sorted(Better, b) && |a| == |b|
    requires Precedes(Elements(a), Elements(b))
    ensures LexLess(a, b)
  {
    BetterIsOrder();
    var z :| z in Elements(a) && z !in Elements(b) && AgreeAbove(Elements(a), Elements(b), z);
    var i := FirstDifference(a, b);
    var k :| 0 <= k < |a| && a[k] == z;
    forall t | 0 <= t < i ensures a[t] in b {
      assert a[t] == a[..i][t] == b[..i][t];
    }
    assert k >= i && b[i] in Elements(b);
    if Better(b[i], a[i]) {
      BetterElementIsMissing(a, b, i);
      assert false;
    }
  }

  /** What is better than a[i] is in both or in neither, when the vectors agree before i. */
  lemma PrefixDecides(a: seq<Edge>, b: seq<Edge>, i: nat, y: Edge)
    requires Sorted(Better, a) && i < |a| && i < |b| && a[..i] == b[..i] && Better(y, a[i]) && y in a
    ensures y in b
  {
    BetterIsOrder();
    var t :| 0 <= t < |a| && a[t] == y;
    assert t < i && b[..i][t] == a[..i][t];
  }

  lemma LessPrecedes(a: seq<Edge>, b: seq<Edge>)
    requires Sorted(Better, a) && Sorted(Better, b) && LexLess(a, b)
    ensures Precedes(Elements(a), Elements(b))
  {
    BetterIsOrder();
    var i :| 0 <= i < |a| && i < |b| && a[..i] == b[..i] && Better(a[i], b[i]);
    BetterElementIsMissing(b, a, i);
    forall y | Better(y, a[i]) ensures y in Elements(a) <==> y in Elements(b) {
      assert Better(y, b[i]);
      if y in a {
        PrefixDecides(a, b, i, y);
      } else if y in b {
        PrefixDecides(b, a, i, y);
      }
    }
    assert AgreeAbove(Elements(a), Elements(b), a[i]);
  }

  /** For sorted vectors of one length the set order is the lexicographic order. */
  lemma PrecedesIsLexicographic(a: seq<Edge>, b: seq<Edge>)
    requires Sorted(Better, a) && Sorted(Better, b) && |a| == |b|
    ensures Precedes(Elements(a), Elements(b)) <==> LexLess(a, b)
  {
    hide Precedes, LexLess;
    if Precedes(Elements(a), Elements(b)) {
      PrecedingIsLess(a, b);
    } else if LexLess(a, b) {
      LessPrecedes(a, b);
    }
  }
}
