/**
 Ties between links. The source promises that the costs of the links, best first, are the lexicographically least
 of all selections of that size. With the tie-break of the ranking counted in they are; of the three numbers
 alone they are if no two links between different NICs cost the same, and need not be otherwise.
 */
module LinkTies {
  import opened LinkOrder
  import opened LinkGreedy
  import opened LinkSelection
  import opened LinkCosts

  /** The costs of q, in any order, are lexicographically smaller than those of the links. */
  ghost predicate CostsLess(mx: Matrix, subnet: SubnetTest, q: seq<Spot>, links: seq<Spot>)
    requires |q| == |links| && forall k :: 0 <= k < |q| ==> Inside(mx, q[k]) && Inside(mx, links[k])
  {
    exists k :: 0 <= k < |q| && LessAt(mx, subnet, q, links, k)
  }

  ghost predicate LessAt(mx: Matrix, subnet: SubnetTest, q: seq<Spot>, links: seq<Spot>, k: nat)
    requires k < |q| == |links| && forall k :: 0 <= k < |q| ==> Inside(mx, q[k]) && Inside(mx, links[k])
  {
    && (forall j :: 0 <= j < k ==> CostOf(mx, subnet, q[j]) == CostOf(mx, subnet, links[j]))
    && Cheaper(CostOf(mx, subnet, q[k]), CostOf(mx, subnet, links[k]))
  }

  /** No selection of that size costs less. */
  ghost predicate LeastCosts(mx: Matrix, subnet: SubnetTest, primary: Primary, links: seq<Spot>) {
    Selectable(mx, primary, links)
    && forall q: seq<Spot> :: Selectable(mx, primary, q) && |q| == |links| ==> NotUndercut(mx, subnet, q, links)
  }

  ghost predicate NotUndercut(mx: Matrix, subnet: SubnetTest, q: seq<Spot>, links: seq<Spot>) {
    |q| == |links| && (forall k :: 0 <= k < |q| ==> Inside(mx, q[k]) && Inside(mx, links[k]))
    && !CostsLess(mx, subnet, q, links)
  }

  /** Links between different NICs cost differently. */
  ghost predicate NoTies(mx: Matrix, subnet: SubnetTest, primary: Primary) {
    forall x, y ::
      Available(mx, primary, x) && Available(mx, primary, y) && CostOf(mx, subnet, x) == CostOf(mx, subnet, y) ==>
      SameNics(mx, x, y)
  }

  /** Links of the same costs are between the same NICs, so a selection may take over the first k. */
  lemma {:induction false} TakenOver(mx: Matrix, subnet: SubnetTest, primary: Primary, links: seq<Spot>, q: seq<Spot>,
                                     k: nat)
    requires NoTies(mx, subnet, primary) && Selectable(mx, primary, links) && Selectable(mx, primary, q)
    requires k <= |q| == |links|
    requires forall j :: 0 <= j < k ==> CostOf(mx, subnet, q[j]) == CostOf(mx, subnet, links[j])
    ensures Selectable(mx, primary, links[..k] + q[k..])
  {
    hide IfaceKeyOf, GroupOf, CostOf, PrimaryGroup, Inside;
    AllInside(mx, primary, q);
    AllInside(mx, primary, links);
    var t := links[..k] + q[k..];
    forall j | 0 <= j < k ensures SameNics(mx, q[j], links[j]) {
    }
    forall j | 0 <= j < |t|
      ensures Available(mx, primary, t[j])
      ensures Inside(mx, t[j]) && Inside(mx, q[j]) && SameNics(mx, t[j], q[j])
    {
    }
  }

  /** Without ties the links cost least. */
  lemma {:induction false} NoTiesLeast(mx: Matrix, subnet: SubnetTest, primary: Primary, maxConnections: nat,
                                       links: seq<Spot>)
    requires CheapestLinks(mx, subnet, primary, maxConnections, links) && NoTies(mx, subnet, primary)
    ensures LeastCosts(mx, subnet, primary, links)
  {
    hide CostOf, Cheaper, Selectable, NoTies, Inside, FillsLanes, Ascending, BestOfPair;
    AllInside(mx, primary, links);
    forall q: seq<Spot> | Selectable(mx, primary, q) && |q| == |links| ensures NotUndercut(mx, subnet, q, links) {
      AllInside(mx, primary, q);
      forall k | 0 <= k < |q| ensures !LessAt(mx, subnet, q, links, k) {
        if forall j :: 0 <= j < k ==> CostOf(mx, subnet, q[j]) == CostOf(mx, subnet, links[j]) {
          TakenOver(mx, subnet, primary, links, q, k);
          var t := links[..k] + q[k..];
          assert t[..k] == links[..k] && t[k] == q[k];
          assert BestAfter(mx, subnet, primary, links, k);
        }
      }
    }
  }

  /** A single link costs least, ties or not. */
  lemma {:induction false} OneLinkLeast(mx: Matrix, subnet: SubnetTest, primary: Primary, maxConnections: nat,
                                        links: seq<Spot>)
    requires CheapestLinks(mx, subnet, primary, maxConnections, links) && |links| <= 1
    ensures LeastCosts(mx, subnet, primary, links)
  {
    hide CostOf, Cheaper, Selectable, Inside, FillsLanes, Ascending, BestOfPair;
    AllInside(mx, primary, links);
    forall q: seq<Spot> | Selectable(mx, primary, q) && |q| == |links| ensures NotUndercut(mx, subnet, q, links) {
      AllInside(mx, primary, q);
      if |links| == 1 {
        assert q[..0] == links[..0] && BestAfter(mx, subnet, primary, links, 0);
      }
    }
  }

  // ----- Two NICs on each side -----

  /** Two local NICs and two server NICs, all four links reachable, with these round-trip times. */
  function Square(a: int, b: int, c: int, d: int): Matrix {
    Matrix(["1", "2"], ["x", "y"], [], [ServerEndpoint("p", 1, "s"), ServerEndpoint("q", 1, "t")],
           [[Cell(true, a), Cell(true, b)], [Cell(true, c), Cell(true, d)]])
  }

  const NO_PRIMARY: Primary := Primary("", "")

  function Elsewhere(x: string, n: int, y: string): bool {
    false
  }

  function TimeAt(a: int, b: int, c: int, d: int, x: Spot): int {
    if x == (0, 0) then a else if x == (0, 1) then b else if x == (1, 0) then c else d
  }

  /** The link between the other two NICs. */
  function Opposite(x: Spot): Spot
    requires x.0 < 2 && x.1 < 2
  {
    (1 - x.0, 1 - x.1)
  }

  lemma SquareSpot(a: int, b: int, c: int, d: int, x: Spot)
    ensures var mx := Square(a, b, c, d);
            && (Available(mx, NO_PRIMARY, x) <==> x.0 < 2 && x.1 < 2)
            && (x.0 < 2 && x.1 < 2 ==> Inside(mx, x) && CostOf(mx, Elsewhere, x) == (0, 1, TimeAt(a, b, c, d, x)))
  {
  }

  lemma SquareNics(a: int, b: int, c: int, d: int, x: Spot)
    requires x.0 < 2 && x.1 < 2
    ensures var mx := Square(a, b, c, d);
            && Inside(mx, x) && IfaceKeyOf(mx, x.0) == (if x.0 == 0 then "x" else "y")
            && GroupOf(mx, x.1) == (if x.1 == 0 then "s" else "t")
            && EdgeOf(mx, Elsewhere, x) == Edge(0, 1, TimeAt(a, b, c, d, x), x.0, x.1,
                                                if x.0 == 0 then "x" else "y", if x.1 == 0 then "s" else "t")
  {
    SquareSpot(a, b, c, d, x);
  }

  /** In rank order: the shortest time, and of several the first place, row by row. */
  predicate RanksBefore(a: int, b: int, c: int, d: int, x: Spot, y: Spot) {
    var s, t := TimeAt(a, b, c, d, x), TimeAt(a, b, c, d, y);
    s < t || (s == t && (x.0 < y.0 || (x.0 == y.0 && x.1 < y.1)))
  }

  lemma SquareRank(a: int, b: int, c: int, d: int, x: Spot, y: Spot)
    requires x.0 < 2 && x.1 < 2 && y.0 < 2 && y.1 < 2
    ensures var mx := Square(a, b, c, d);
            && Inside(mx, x) && Inside(mx, y)
            && (Better(EdgeOf(mx, Elsewhere, x), EdgeOf(mx, Elsewhere, y)) <==> RanksBefore(a, b, c, d, x, y))
  {
    SquareNics(a, b, c, d, x);
    SquareNics(a, b, c, d, y);
    assert StrLess("x", "y") && !StrLess("y", "x") && StrLess("s", "t") && !StrLess("t", "s");
  }

  /** Two links, one across from the other. */
  lemma SquarePair(a: int, b: int, c: int, d: int, q: seq<Spot>)
    ensures Selectable(Square(a, b, c, d), NO_PRIMARY, q) && |q| == 2
            <==> |q| == 2 && q[0].0 < 2 && q[0].1 < 2 && q[1] == Opposite(q[0])
  {
    hide Inside, IfaceKeyOf, GroupOf;
    if |q| == 2 {
      SquareSpot(a, b, c, d, q[0]);
      SquareSpot(a, b, c, d, q[1]);
      if q[0].0 < 2 && q[0].1 < 2 && q[1].0 < 2 && q[1].1 < 2 {
        SquareNics(a, b, c, d, q[0]);
        SquareNics(a, b, c, d, q[1]);
      }
    }
  }

  /** The first place in rank order. */
  function First(a: int, b: int, c: int, d: int): (x: Spot)
    ensures x.0 < 2 && x.1 < 2
    ensures forall y: Spot :: y.0 < 2 && y.1 < 2 && y != x ==> RanksBefore(a, b, c, d, x, y)
  {
    if a <= b && a <= c && a <= d then (0, 0)
    else if b <= c && b <= d then (0, 1)
    else if c <= d then (1, 0)
    else (1, 1)
  }

  /** A link as short as the first is left out, whose opposite is shorter than the one that is made. */
  predicate TieHurts(a: int, b: int, c: int, d: int) {
    var x := First(a, b, c, d);
    LeftOut(a, b, c, d, x, (x.0, 1 - x.1)) || LeftOut(a, b, c, d, x, (1 - x.0, x.1))
  }

  predicate LeftOut(a: int, b: int, c: int, d: int, x: Spot, y: Spot)
    requires x.0 < 2 && x.1 < 2 && y.0 < 2 && y.1 < 2
  {
    && TimeAt(a, b, c, d, y) == TimeAt(a, b, c, d, x)
    && TimeAt(a, b, c, d, Opposite(y)) < TimeAt(a, b, c, d, Opposite(x))
  }

  /** Two links are made: the first in rank order and the one opposite. */
  lemma {:induction false} SquareLinks(a: int, b: int, c: int, d: int, picks: seq<Edge>)
    requires Chosen(Square(a, b, c, d), Elsewhere, NO_PRIMARY, 2, picks)
    ensures Places(picks) == [First(a, b, c, d), Opposite(First(a, b, c, d))]
  {
    var mx, links, x := Square(a, b, c, d), Places(picks), First(a, b, c, d);
    hide Square, Chosen, Inside, First, RanksBefore, BestOfPair, BestAfter, EdgeOf, Available, IfaceKeyOf, GroupOf;
    ChosenIsCheapest(mx, Elsewhere, NO_PRIMARY, 2, picks);
    var pair := [x, Opposite(x)];
    SquarePair(a, b, c, d, pair);
    assert Selectable(mx, NO_PRIMARY, pair);
    assert |links| == 2;
    SquarePair(a, b, c, d, links);
    if links[0] != x {
      PickFacts(mx, Elsewhere, NO_PRIMARY, 2, picks, 0);
      FirstOfPair(mx, picks, pair);
      SquareRank(a, b, c, d, x, links[0]);
    }
  }

  /** The first pick ranks before the first link of any other pair. */
  lemma {:induction false} FirstOfPair(mx: Matrix, picks: seq<Edge>, q: seq<Spot>)
    requires Chosen(mx, Elsewhere, NO_PRIMARY, 2, picks) && |picks| == |q| == 2 && Selectable(mx, NO_PRIMARY, q)
    ensures Inside(mx, q[0]) && !Better(EdgeOf(mx, Elsewhere, q[0]), picks[0])
  {
    hide Better, EdgeOf, Offers, BestSelection;
    SelectionIsMatching(mx, Elsewhere, NO_PRIMARY, q);
    var es := LinkEdges(mx, Elsewhere, q);
    assert es[0] in Elements(es);
    NothingBefore(Offers(mx, Elsewhere, NO_PRIMARY), 2, picks, Elements(es), 0, es[0]);
  }

  lemma SquareLess(a: int, b: int, c: int, d: int, x: Spot, y: Spot)
    requires x.0 < 2 && x.1 < 2 && y.0 < 2 && y.1 < 2
    ensures var mx := Square(a, b, c, d);
            && Inside(mx, x) && Inside(mx, y) && Inside(mx, Opposite(x)) && Inside(mx, Opposite(y))
            && (CostsLess(mx, Elsewhere, [y, Opposite(y)], [x, Opposite(x)])
                <==> TimeAt(a, b, c, d, y) < TimeAt(a, b, c, d, x) || LeftOut(a, b, c, d, x, y))
  {
    var mx := Square(a, b, c, d);
    SquareSpot(a, b, c, d, x);
    SquareSpot(a, b, c, d, y);
    SquareSpot(a, b, c, d, Opposite(x));
    SquareSpot(a, b, c, d, Opposite(y));
    hide Square, Inside, CostOf;
    var q, links := [y, Opposite(y)], [x, Opposite(x)];
    assert LessAt(mx, Elsewhere, q, links, 0) <==> TimeAt(a, b, c, d, y) < TimeAt(a, b, c, d, x);
    assert LessAt(mx, Elsewhere, q, links, 1) <==> LeftOut(a, b, c, d, x, y);
  }

  lemma FirstIsShortest(a: int, b: int, c: int, d: int)
    ensures forall y: Spot :: TimeAt(a, b, c, d, First(a, b, c, d)) <= TimeAt(a, b, c, d, y)
  {
  }

  lemma {:induction false} SquareOther(a: int, b: int, c: int, d: int, q: seq<Spot>)
    requires Selectable(Square(a, b, c, d), NO_PRIMARY, q) && |q| == 2
    ensures q[0].0 < 2 && q[0].1 < 2
    ensures var x := First(a, b, c, d);
            NotUndercut(Square(a, b, c, d), Elsewhere, q, [x, Opposite(x)]) <==> !LeftOut(a, b, c, d, x, q[0])
  {
    hide Square, First, Selectable, Inside, CostsLess;
    FirstIsShortest(a, b, c, d);
    var x := First(a, b, c, d);
    SquarePair(a, b, c, d, q);
    assert q == [q[0], Opposite(q[0])];
    SquareLess(a, b, c, d, x, q[0]);
    hide TimeAt;
  }

  lemma NotItself(a: int, b: int, c: int, d: int, x: Spot, y: Spot)
    requires x.0 < 2 && x.1 < 2 && y.0 < 2 && y.1 < 2 && LeftOut(a, b, c, d, x, y)
    ensures y == (x.0, 1 - x.1) || y == (1 - x.0, x.1)
  {
    hide TimeAt;
  }

  /** With two NICs on each side the two links cost least if and only if no tie hurts. */
  lemma {:induction false} SquareLeastIff(a: int, b: int, c: int, d: int, picks: seq<Edge>)
    requires Chosen(Square(a, b, c, d), Elsewhere, NO_PRIMARY, 2, picks)
    ensures LeastCosts(Square(a, b, c, d), Elsewhere, NO_PRIMARY, Places(picks)) <==> !TieHurts(a, b, c, d)
  {
    var mx, x, links := Square(a, b, c, d), First(a, b, c, d), Places(picks);
    SquareLinks(a, b, c, d, picks);
    hide Square, First, Selectable, NotUndercut, Chosen, LeftOut;
    var y, z := (x.0, 1 - x.1), (1 - x.0, x.1);
    SquarePair(a, b, c, d, links);
    SquarePair(a, b, c, d, [y, Opposite(y)]);
    SquarePair(a, b, c, d, [z, Opposite(z)]);
    SquareOther(a, b, c, d, [y, Opposite(y)]);
    SquareOther(a, b, c, d, [z, Opposite(z)]);
    if !TieHurts(a, b, c, d) {
      forall q: seq<Spot> | Selectable(mx, NO_PRIMARY, q) && |q| == |links|
        ensures NotUndercut(mx, Elsewhere, q, links)
      {
        SquareOther(a, b, c, d, q);
        if LeftOut(a, b, c, d, x, q[0]) {
          NotItself(a, b, c, d, x, q[0]);
        }
      }
    }
  }

  /** Whenever the first NIC reaches both servers in the same time, and the second the first server faster than the
      second, but not faster than the first NIC, the tie hurts. */
  lemma TiesThatHurt(t: int, c: int, d: int)
    requires t <= c < d
    ensures First(t, t, c, d) == (0, 0) && TieHurts(t, t, c, d)
  {
    assert First(t, t, c, d) == (0, 0);
  }

  /** A round trip of 1 from the first NIC to either server, 3 and 5 from the second: the two links take 1 and 5,
      and the two others would take 1 and 3. */
  lemma {:induction false} TieWitness(picks: seq<Edge>)
    requires Chosen(Square(1, 1, 3, 5), Elsewhere, NO_PRIMARY, 2, picks)
    ensures Places(picks) == [(0, 0), (1, 1)]
    ensures Selectable(Square(1, 1, 3, 5), NO_PRIMARY, [(0, 1), (1, 0)])
    ensures !LeastCosts(Square(1, 1, 3, 5), Elsewhere, NO_PRIMARY, Places(picks))
  {
    hide Square, Chosen, LeastCosts, Selectable, Places, First, TieHurts;
    TiesThatHurt(1, 3, 5);
    SquareLinks(1, 1, 3, 5, picks);
    SquarePair(1, 1, 3, 5, [(0, 1), (1, 0)]);
    SquareLeastIff(1, 1, 3, 5, picks);
  }
}
