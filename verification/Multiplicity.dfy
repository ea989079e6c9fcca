/** How often a value occurs in a sequence, and sums over a sequence. */
module Multiplicity {
  function Occ<T(==)>(q: seq<T>, x: T): nat {
    multiset(q)[x]
  }

  function Without<T>(q: seq<T>, k: nat): seq<T>
    requires k < |q|
  {
    q[..k] + q[k+1..]
  }

  lemma OccCat<T>(a: seq<T>, b: seq<T>, x: T)
    ensures Occ(a + b, x) == Occ(a, x) + Occ(b, x)
  {
  }

  lemma OccOne<T>(y: T, x: T)
    ensures Occ([y], x) == if x == y then 1 else 0
  {
  }

  lemma OccNone<T>(x: T)
    ensures Occ([], x) == 0
  {
  }

  lemma OccPush<T>(a: seq<T>, y: T, x: T)
    ensures Occ(a + [y], x) == Occ(a, x) + if x == y then 1 else 0
  {
    OccCat(a, [y], x);
    OccOne(y, x);
  }

  lemma OccWithout<T>(q: seq<T>, k: nat, x: T)
    requires k < |q|
    ensures Occ(q, x) == Occ(Without(q, k), x) + if x == q[k] then 1 else 0
  {
    assert q == q[..k] + [q[k]] + q[k+1..];
    OccCat(q[..k] + [q[k]], q[k+1..], x);
    OccCat(q[..k], [q[k]], x);
    OccCat(q[..k], q[k+1..], x);
    OccOne(q[k], x);
    hide Occ;
  }

  lemma OccPop<T>(q: seq<T>, x: T)
    requires q != []
    ensures Occ(q, x) == Occ(q[1..], x) + if x == q[0] then 1 else 0
  {
    OccWithout(q, 0, x);
    assert Without(q, 0) == q[1..];
  }

  lemma OccLast<T>(q: seq<T>, x: T)
    requires q != []
    ensures Occ(q, x) == Occ(q[..|q|-1], x) + if x == q[|q|-1] then 1 else 0
  {
    assert q == q[..|q|-1] + [q[|q|-1]];
    OccPush(q[..|q|-1], q[|q|-1], x);
    hide Occ;
  }

  function SumOver<T>(f: T -> nat, s: seq<T>): nat {
    if s == [] then 0 else SumOver(f, s[..|s|-1]) + f(s[|s|-1])
  }

  lemma {:induction false} SumUpdate<T>(f: T -> nat, s: seq<T>, k: nat, y: T)
    requires k < |s|
    ensures SumOver(f, s[k := y]) + f(s[k]) == SumOver(f, s) + f(y)
  {
    var n := |s| - 1;
    var t := s[k := y];
    if k == n {
      assert t[..n] == s[..n];
    } else {
      assert t[..n] == s[..n][k := y];
      SumUpdate(f, s[..n], k, y);
    }
  }

  lemma {:induction false} SumZero<T>(f: T -> nat, s: seq<T>)
    requires forall i :: 0 <= i < |s| ==> f(s[i]) == 0
    ensures SumOver(f, s) == 0
  {
    if s != [] {
      SumZero(f, s[..|s|-1]);
    }
  }

  lemma {:induction false} SumAtLeast<T>(f: T -> nat, s: seq<T>, k: nat)
    requires k < |s|
    ensures SumOver(f, s) >= f(s[k])
  {
    if k < |s| - 1 {
      SumAtLeast(f, s[..|s|-1], k);
    }
  }
}
