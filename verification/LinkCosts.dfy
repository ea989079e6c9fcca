/**
 What the selected links cost, told in the three numbers a link is judged by and without the ranking of the
 edges: the address family, the subnet and the round-trip time.
 */
module LinkCosts {
  import opened LinkOrder
  import opened LinkGreedy
  import opened LinkSelection

  type Cost = (int, int, int)

  /** A place in the matrix. */
  type Spot = (nat, nat)

  predicate Inside(mx: Matrix, x: Spot) {
    x.0 < |mx.localAddrs| && x.1 < |mx.serverEndpoints| && x.0 < |mx.cells| && x.1 < |mx.cells[x.0]|
  }

  /** IPv4 before IPv6, the same subnet before others, a short round trip before a long one. */
  function CostOf(mx: Matrix, subnet: SubnetTest, x: Spot): Cost
    requires Inside(mx, x)
  {
    var prefixLen := if x.0 < |mx.localPrefixLens| then mx.localPrefixLens[x.0] else 0;
    (if ':' in mx.localAddrs[x.0] then 1 else 0,
     if subnet(mx.localAddrs[x.0], prefixLen, mx.serverEndpoints[x.1].host) then 0 else 1,
     mx.cells[x.0][x.1].rttMs)
  }

  predicate Cheaper(a: Cost, b: Cost) {
    a.0 < b.0 || (a.0 == b.0 && (a.1 < b.1 || (a.1 == b.1 && a.2 < b.2)))
  }

  /** The primary lane: the NIC and the server it uses, where they are known. */
  datatype Primary = Primary(iface: string, serverKey: string)

  function Lanes(primary: Primary): nat {
    if primary.iface == "" && primary.serverKey == "" then 0 else 1
  }

  /** A link could be made here: the probe got through, and both NICs are free of the primary lane. */
  predicate Available(mx: Matrix, primary: Primary, x: Spot) {
    && Inside(mx, x) && mx.cells[x.0][x.1].reachable
    && (primary.iface != "" ==> IfaceKeyOf(mx, x.0) != primary.iface)
    && (primary.serverKey != "" ==> GroupOf(mx, x.1) != PrimaryGroup(mx, primary.serverKey, 0))
  }

  predicate SameNics(mx: Matrix, x: Spot, y: Spot)
    requires Inside(mx, x) && Inside(mx, y)
  {
    IfaceKeyOf(mx, x.0) == IfaceKeyOf(mx, y.0) && GroupOf(mx, x.1) == GroupOf(mx, y.1)
  }

  /** Links that could be made together: no NIC is used twice, on either side. */
  ghost predicate Selectable(mx: Matrix, primary: Primary, q: seq<Spot>) {
    && (forall k :: 0 <= k < |q| ==> Available(mx, primary, q[k]))
    && forall k, l :: 0 <= k < l < |q| ==>
         IfaceKeyOf(mx, q[k].0) != IfaceKeyOf(mx, q[l].0) && GroupOf(mx, q[k].1) != GroupOf(mx, q[l].1)
  }

  // ----- What is promised -----

  /** As many links as there are lanes left, or as could be made together at all. */
  ghost predicate FillsLanes(mx: Matrix, primary: Primary, maxConnections: nat, links: seq<Spot>) {
    && (links != [] ==> |links| + Lanes(primary) <= maxConnections)
    && (|links| + Lanes(primary) < maxConnections ==>
          forall q: seq<Spot> :: Selectable(mx, primary, q) ==> |q| <= |links|)
  }

  ghost predicate Ascending(mx: Matrix, subnet: SubnetTest, links: seq<Spot>)
    requires forall k :: 0 <= k < |links| ==> Inside(mx, links[k])
  {
    forall k, l :: 0 <= k < l < |links| ==> !Cheaper(CostOf(mx, subnet, links[l]), CostOf(mx, subnet, links[k]))
  }

  /** Between the same two NICs there is nothing cheaper than link k. */
  ghost predicate BestOfPair(mx: Matrix, subnet: SubnetTest, primary: Primary, links: seq<Spot>, k: nat)
    requires k < |links| && Inside(mx, links[k])
  {
    forall x :: Available(mx, primary, x) && SameNics(mx, x, links[k]) ==>
      !Cheaper(CostOf(mx, subnet, x), CostOf(mx, subnet, links[k]))
  }

  /** Whoever makes as many links, and the same ones before link k, has none cheaper than link k after them. */
  ghost predicate BestAfter(mx: Matrix, subnet: SubnetTest, primary: Primary, links: seq<Spot>, k: nat)
    requires k < |links| && Inside(mx, links[k])
  {
    forall q: seq<Spot>, l: nat ::
      Selectable(mx, primary, q) && |q| == |links| && k <= l < |q| && q[..k] == links[..k] ==>
      !Cheaper(CostOf(mx, subnet, q[l]), CostOf(mx, subnet, links[k]))
  }

  ghost predicate CheapestLinks(mx: Matrix, subnet: SubnetTest, primary: Primary, maxConnections: nat,
                                links: seq<Spot>)
  {
    && Selectable(mx, primary, links) && FillsLanes(mx, primary, maxConnections, links)
    && Ascending(mx, subnet, links)
    && forall k :: 0 <= k < |links| ==>
         BestOfPair(mx, subnet, primary, links, k) && BestAfter(mx, subnet, primary, links, k)
  }

  // ----- From edges to places -----

  function EdgeCost(e: Edge): Cost {
    (e.family, e.subnet, e.rtt)
  }

  lemma CheaperIsBetter(a: Edge, b: Edge)
    ensures Cheaper(EdgeCost(a), EdgeCost(b)) ==> Better(a, b)
  {
  }

  /** The offered cells, as the selection takes them. */
  ghost function Offers(mx: Matrix, subnet: SubnetTest, primary: Primary): set<Edge> {
    Candidates(mx, subnet, PrimaryClientNics(primary.iface), PrimaryServerNics(mx, primary.serverKey))
  }

  lemma OffersAre(mx: Matrix, subnet: SubnetTest, primary: Primary, e: Edge)
    ensures e in Offers(mx, subnet, primary)
            <==> Available(mx, primary, (e.row, e.col)) && e == EdgeAt(mx, subnet, e.row, e.col)
  {
    hide EdgeAt, IfaceKeyOf, GroupOf, PrimaryGroup;
    EdgePlace(mx, subnet, e);
  }

  lemma EdgePlace(mx: Matrix, subnet: SubnetTest, e: Edge)
    ensures forall i: nat, j: nat :: Inside(mx, (i, j)) ==>
              EdgeAt(mx, subnet, i, j).row == i && EdgeAt(mx, subnet, i, j).col == j
  {
  }

  lemma EdgeFacts(mx: Matrix, subnet: SubnetTest, x: Spot)
    requires Inside(mx, x)
    ensures var e := EdgeOf(mx, subnet, x);
            && EdgeCost(e) == CostOf(mx, subnet, x) && (e.row, e.col) == x
            && e.clientNic == IfaceKeyOf(mx, x.0) && e.serverNic == GroupOf(mx, x.1)
  {
    hide IfaceKeyOf, GroupOf;
  }

  ghost function Places(picks: seq<Edge>): (q: seq<Spot>)
    ensures |q| == |picks| && forall k :: 0 <= k < |q| ==> q[k] == (picks[k].row, picks[k].col)
  {
    seq(|picks|, k requires 0 <= k < |picks| => (picks[k].row, picks[k].col))
  }

  function EdgeOf(mx: Matrix, subnet: SubnetTest, x: Spot): Edge
    requires Inside(mx, x)
  {
    EdgeAt(mx, subnet, x.0, x.1)
  }

  ghost function LinkEdges(mx: Matrix, subnet: SubnetTest, q: seq<Spot>): (m: seq<Edge>)
    requires forall k :: 0 <= k < |q| ==> Inside(mx, q[k])
    ensures |m| == |q| && forall k :: 0 <= k < |q| ==> m[k] == EdgeOf(mx, subnet, q[k])
  {
    seq(|q|, k requires 0 <= k < |q| => EdgeOf(mx, subnet, q[k]))
  }

  lemma {:induction false} DistinctSize<T>(q: seq<T>)
    requires forall k, l :: 0 <= k < l < |q| ==> q[k] != q[l]
    ensures |Elements(q)| == |q|
  {
    if q == [] {
      assert Elements(q) == {};
    } else {
      var n := |q| - 1;
      DistinctSize(q[..n]);
      assert q == q[..n] + [q[n]];
      assert Elements(q) == Elements(q[..n]) + {q[n]};
    }
  }

  /** Links that could be made together are a matching of the offered edges. */
  lemma SelectionIsMatching(mx: Matrix, subnet: SubnetTest, primary: Primary, q: seq<Spot>)
    requires Selectable(mx, primary, q)
    ensures var m := Elements(LinkEdges(mx, subnet, q));
            m <= Offers(mx, subnet, primary) && LinkMatching(m) && |m| == |q|
  {
    hide IfaceKeyOf, GroupOf, EdgeAt, CostOf, Offers;
    var es := LinkEdges(mx, subnet, q);
    forall k | 0 <= k < |q| ensures es[k] in Offers(mx, subnet, primary) {
      EdgeFacts(mx, subnet, q[k]);
      OffersAre(mx, subnet, primary, es[k]);
    }
    forall k, l | 0 <= k < l < |q| ensures es[k].clientNic != es[l].clientNic && es[k].serverNic != es[l].serverNic {
      EdgeFacts(mx, subnet, q[k]);
      EdgeFacts(mx, subnet, q[l]);
    }
    DistinctSize(es);
  }

  // ----- What a best selection costs -----

  ghost predicate Chosen(mx: Matrix, subnet: SubnetTest, primary: Primary, budget: nat, picks: seq<Edge>) {
    BestSelection(Offers(mx, subnet, primary), budget, picks)
  }

  lemma {:induction false} PickFacts(mx: Matrix, subnet: SubnetTest, primary: Primary, budget: nat, picks: seq<Edge>,
                                     k: nat)
    requires Chosen(mx, subnet, primary, budget, picks) && k < |picks|
    ensures var x := Places(picks)[k];
            && Available(mx, primary, x) && picks[k] == EdgeOf(mx, subnet, x)
            && EdgeCost(picks[k]) == CostOf(mx, subnet, x)
            && picks[k].clientNic == IfaceKeyOf(mx, x.0) && picks[k].serverNic == GroupOf(mx, x.1)
  {
    hide EdgeAt, IfaceKeyOf, GroupOf, CostOf, Offers, Better;
    var e := picks[k];
    assert e in Elements(picks);
    OffersAre(mx, subnet, primary, e);
    EdgeFacts(mx, subnet, (e.row, e.col));
  }

  lemma {:induction false} PicksApart(mx: Matrix, subnet: SubnetTest, primary: Primary, budget: nat, picks: seq<Edge>,
                                      k: nat, l: nat)
    requires Chosen(mx, subnet, primary, budget, picks) && k < l < |picks|
    ensures picks[k].clientNic != picks[l].clientNic && picks[k].serverNic != picks[l].serverNic
    ensures !Cheaper(EdgeCost(picks[l]), EdgeCost(picks[k]))
  {
    BetterIsOrder();
    CheaperIsBetter(picks[l], picks[k]);
    assert picks[k] in Elements(picks) && picks[l] in Elements(picks);
    hide Offers, StrLess, Cheaper;
  }

  lemma {:induction false} PicksSelectable(mx: Matrix, subnet: SubnetTest, primary: Primary, budget: nat,
                                           picks: seq<Edge>)
    requires Chosen(mx, subnet, primary, budget, picks)
    ensures Selectable(mx, primary, Places(picks)) && Ascending(mx, subnet, Places(picks))
  {
    hide Chosen, Available, IfaceKeyOf, GroupOf, CostOf, Cheaper, EdgeOf;
    var q := Places(picks);
    forall k | 0 <= k < |q| ensures Available(mx, primary, q[k]) && Inside(mx, q[k]) {
      PickFacts(mx, subnet, primary, budget, picks, k);
      SpotInside(mx, primary, q[k]);
    }
    forall k, l | 0 <= k < l < |q|
      ensures IfaceKeyOf(mx, q[k].0) != IfaceKeyOf(mx, q[l].0) && GroupOf(mx, q[k].1) != GroupOf(mx, q[l].1)
      ensures !Cheaper(CostOf(mx, subnet, q[l]), CostOf(mx, subnet, q[k]))
    {
      PickFacts(mx, subnet, primary, budget, picks, k);
      PickFacts(mx, subnet, primary, budget, picks, l);
      PicksApart(mx, subnet, primary, budget, picks, k, l);
    }
  }

  lemma SpotInside(mx: Matrix, primary: Primary, x: Spot)
    requires Available(mx, primary, x)
    ensures Inside(mx, x)
  {
  }

  /** The exchange: a selection with the same first k links has nothing that ranks before the next pick. */
  lemma {:induction false} NothingBefore(cands: set<Edge>, budget: nat, picks: seq<Edge>, b: set<Edge>, k: nat, y: Edge)
    requires BestSelection(cands, budget, picks) && k < |picks|
    requires b <= cands && LinkMatching(b) && |b| == |picks| && y in b
    requires forall j :: 0 <= j < k ==> picks[j] in b && picks[j] != y
    ensures !Better(y, picks[k])
  {
    BetterIsOrder();
    hide Better;
    var p := Elements(picks);
    forall e | e in p && Better(e, picks[k]) ensures e in b && e != y {
      var t :| 0 <= t < |picks| && picks[t] == e;
      assert t < k;
    }
    assert b != p ==> Precedes(p, b);
  }

  lemma {:induction false} ChosenBefore(mx: Matrix, subnet: SubnetTest, primary: Primary, budget: nat, picks: seq<Edge>,
                                        q: seq<Spot>, k: nat, l: nat)
    requires Chosen(mx, subnet, primary, budget, picks) && Selectable(mx, primary, q) && |q| == |picks|
    requires k <= l < |q| && q[..k] == Places(picks)[..k]
    ensures !Cheaper(CostOf(mx, subnet, q[l]), EdgeCost(picks[k]))
  {
    hide IfaceKeyOf, GroupOf, CostOf, Cheaper, EdgeOf, BestSelection, Better, Offers;
    SelectionIsMatching(mx, subnet, primary, q);
    var es := LinkEdges(mx, subnet, q);
    var b := Elements(es);
    assert es[l] in b;
    forall j | 0 <= j < k ensures picks[j] in b && picks[j] != es[l] {
      PickFacts(mx, subnet, primary, budget, picks, j);
      assert q[j] == q[..k][j] == Places(picks)[..k][j] == Places(picks)[j];
      assert es[j] in b;
      EdgeFacts(mx, subnet, q[j]);
      EdgeFacts(mx, subnet, q[l]);
    }
    NothingBefore(Offers(mx, subnet, primary), budget, picks, b, k, es[l]);
    CheaperIsBetter(es[l], picks[k]);
    EdgeFacts(mx, subnet, q[l]);
  }

  lemma {:induction false} ChosenAfter(mx: Matrix, subnet: SubnetTest, primary: Primary, budget: nat, picks: seq<Edge>,
                                       k: nat)
    requires Chosen(mx, subnet, primary, budget, picks) && k < |picks|
    ensures Inside(mx, Places(picks)[k]) && BestAfter(mx, subnet, primary, Places(picks), k)
  {
    hide CostOf, Cheaper, Chosen, Selectable, EdgeOf, IfaceKeyOf, GroupOf;
    PickFacts(mx, subnet, primary, budget, picks, k);
    var links := Places(picks);
    SpotInside(mx, primary, links[k]);
    forall q: seq<Spot>, l: nat |
      Selectable(mx, primary, q) && |q| == |links| && q[..k] == links[..k] && k <= l < |q|
      ensures Inside(mx, q[l]) && !Cheaper(CostOf(mx, subnet, q[l]), CostOf(mx, subnet, links[k]))
    {
      AllInside(mx, primary, q);
      ChosenBefore(mx, subnet, primary, budget, picks, q, k, l);
    }
  }

  lemma AllInside(mx: Matrix, primary: Primary, q: seq<Spot>)
    requires Selectable(mx, primary, q)
    ensures forall k :: 0 <= k < |q| ==> Inside(mx, q[k])
  {
  }

  /** Another link between the same NICs can take the place of one. */
  lemma {:induction false} Replaced(mx: Matrix, primary: Primary, links: seq<Spot>, k: nat, x: Spot)
    requires Selectable(mx, primary, links) && k < |links| && Inside(mx, links[k])
    requires Available(mx, primary, x) && SameNics(mx, x, links[k])
    ensures Selectable(mx, primary, links[k := x])
  {
    hide IfaceKeyOf, GroupOf, PrimaryGroup;
  }

  lemma {:induction false} BestForPair(mx: Matrix, subnet: SubnetTest, primary: Primary, links: seq<Spot>, k: nat)
    requires Selectable(mx, primary, links) && k < |links| && Inside(mx, links[k])
    requires BestAfter(mx, subnet, primary, links, k)
    ensures BestOfPair(mx, subnet, primary, links, k)
  {
    hide CostOf, Cheaper, Selectable, SameNics, IfaceKeyOf, GroupOf, PrimaryGroup;
    forall x | Available(mx, primary, x) && SameNics(mx, x, links[k])
      ensures Inside(mx, x) && !Cheaper(CostOf(mx, subnet, x), CostOf(mx, subnet, links[k]))
    {
      SpotInside(mx, primary, x);
      Replaced(mx, primary, links, k, x);
      var q := links[k := x];
      assert q[..k] == links[..k] && q[k] == x;
    }
  }

  lemma {:induction false} LanesFilled(mx: Matrix, subnet: SubnetTest, primary: Primary, maxConnections: nat,
                                       picks: seq<Edge>)
    requires Chosen(mx, subnet, primary, AuxBudget(maxConnections, primary.iface, primary.serverKey), picks)
    ensures FillsLanes(mx, primary, maxConnections, Places(picks))
  {
    hide Offers, Selectable;
    var links := Places(picks);
    var budget := AuxBudget(maxConnections, primary.iface, primary.serverKey);
    var max :| MaxLinks(Offers(mx, subnet, primary), max) && |picks| == if budget < max then budget else max;
    forall q: seq<Spot> | Selectable(mx, primary, q) ensures |q| <= max {
      SelectionIsMatching(mx, subnet, primary, q);
    }
  }

  /** What the ranked greedy chooses, in the three numbers. */
  lemma {:induction false} ChosenIsCheapest(mx: Matrix, subnet: SubnetTest, primary: Primary, maxConnections: nat,
                                            picks: seq<Edge>)
    requires Chosen(mx, subnet, primary, AuxBudget(maxConnections, primary.iface, primary.serverKey), picks)
    ensures CheapestLinks(mx, subnet, primary, maxConnections, Places(picks))
  {
    hide Chosen, Selectable, Ascending, FillsLanes, BestOfPair, BestAfter, Inside;
    var budget := AuxBudget(maxConnections, primary.iface, primary.serverKey);
    PicksSelectable(mx, subnet, primary, budget, picks);
    LanesFilled(mx, subnet, primary, maxConnections, picks);
    AllInside(mx, primary, Places(picks));
    forall k | 0 <= k < |picks|
      ensures BestOfPair(mx, subnet, primary, Places(picks), k) && BestAfter(mx, subnet, primary, Places(picks), k)
    {
      ChosenAfter(mx, subnet, primary, budget, picks, k);
      BestForPair(mx, subnet, primary, Places(picks), k);
    }
  }

  // ----- Which NIC is which -----

  lemma {:induction false} DecimalDigits(n: nat)
    ensures Decimal(n) != "" && ':' !in Decimal(n)
  {
    if n >= 10 {
      DecimalDigits(n / 10);
    }
  }

  lemma {:induction false} DecimalTells(m: nat, n: nat)
    requires Decimal(m) == Decimal(n)
    ensures m == n
  {
    var s, t := Decimal(m), Decimal(n);
    assert s[|s|-1] == t[|t|-1] && s[..|s|-1] == t[..|t|-1];
    DigitTells(m % 10, n % 10);
    if m >= 10 {
      DecimalDigits(m / 10);
    }
    if n >= 10 {
      DecimalDigits(n / 10);
    }
    if m >= 10 && n >= 10 {
      DecimalTells(m / 10, n / 10);
    }
  }

  lemma DigitTells(m: nat, n: nat)
    requires m < 10 && n < 10 && "0123456789"[m] == "0123456789"[n]
    ensures m == n
  {
  }

  lemma LastColon(h: string, x: string)
    requires ':' !in x
    ensures var s := h + ":" + x; s[|h|] == ':' && forall k :: |h| < k < |s| ==> s[k] != ':'
  {
    var s := h + ":" + x;
    forall k | |h| < k < |s| ensures s[k] != ':' {
      assert s[k] == x[k - |h| - 1];
    }
  }

  /** What comes behind the last colon. */
  lemma TailTells(h: string, x: string, g: string, y: string)
    requires h + ":" + x == g + ":" + y && ':' !in x && ':' !in y
    ensures h == g && x == y
  {
    var s := h + ":" + x;
    LastColon(h, x);
    LastColon(g, y);
    assert |h| == |g|;
    assert s[..|h|] == h && s[|h|+1..] == x && s[..|g|] == g && s[|g|+1..] == y;
  }

  /** Addresses with a port are told apart by their key. */
  lemma ServerKeyTells(a: ServerEndpoint, b: ServerEndpoint)
    ensures ServerKey(a) == ServerKey(b) <==> a.host == b.host && a.port == b.port
  {
    if ServerKey(a) == ServerKey(b) {
      DecimalDigits(a.port);
      DecimalDigits(b.port);
      TailTells(a.host, Decimal(a.port), b.host, Decimal(b.port));
      DecimalTells(a.port, b.port);
    }
  }

  /** Local addresses with known interfaces are on one NIC if these are the same, others if they are the same
      address; server addresses of known groups if these are the same, others if host and port are. */
  lemma NicMeaning(mx: Matrix, i: nat, k: nat, j: nat, l: nat)
    requires i < |mx.localAddrs| && k < |mx.localAddrs| && j < |mx.serverEndpoints| && l < |mx.serverEndpoints|
    ensures i < |mx.localIfaces| && k < |mx.localIfaces| && mx.localIfaces[i] != "" && mx.localIfaces[k] != "" ==>
              (IfaceKeyOf(mx, i) == IfaceKeyOf(mx, k) <==> mx.localIfaces[i] == mx.localIfaces[k])
    ensures (i >= |mx.localIfaces| || mx.localIfaces[i] == "") && (k >= |mx.localIfaces| || mx.localIfaces[k] == "") ==>
              (IfaceKeyOf(mx, i) == IfaceKeyOf(mx, k) <==> mx.localAddrs[i] == mx.localAddrs[k])
    ensures var a, b := mx.serverEndpoints[j], mx.serverEndpoints[l];
            && (a.nicGroup != "" && b.nicGroup != "" ==>
                  (GroupOf(mx, j) == GroupOf(mx, l) <==> a.nicGroup == b.nicGroup))
            && (a.nicGroup == "" && b.nicGroup == "" ==>
                  (GroupOf(mx, j) == GroupOf(mx, l) <==> a.host == b.host && a.port == b.port))
  {
    ServerKeyTells(mx.serverEndpoints[j], mx.serverEndpoints[l]);
  }
}
