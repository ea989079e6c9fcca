/** The links of the automatic selection as plans: which local address connects to which server address. */
module LinkPlans {
  import opened LinkOrder
  import opened LinkGreedy
  import opened LinkSelection
  import opened LinkCosts

  /** The group of the first endpoint with the key; the key itself if no endpoint has it. */
  ghost predicate GroupOfFirst(mx: Matrix, key: string, group: string) {
    || (group == key && forall j :: 0 <= j < |mx.serverEndpoints| ==> ServerKey(mx.serverEndpoints[j]) != key)
    || exists j :: 0 <= j < |mx.serverEndpoints| && ServerKey(mx.serverEndpoints[j]) == key && group == GroupOf(mx, j)
                   && forall i :: 0 <= i < j ==> ServerKey(mx.serverEndpoints[i]) != key
  }

  method FindPrimaryGroup(mx: Matrix, key: string) returns (group: string)
    ensures group == PrimaryGroup(mx, key, 0) && GroupOfFirst(mx, key, group)
  {
    group := key;
    for j: nat := 0 to |mx.serverEndpoints|
      invariant group == key && PrimaryGroup(mx, key, 0) == PrimaryGroup(mx, key, j)
      invariant forall i :: 0 <= i < j ==> ServerKey(mx.serverEndpoints[i]) != key
    {
      if ServerKey(mx.serverEndpoints[j]) == key {
        return GroupOf(mx, j);
      }
    }
  }

  function PlanOf(mx: Matrix, e: Edge): LinkPlan
    requires e.row < |mx.localAddrs| && e.col < |mx.serverEndpoints|
  {
    LinkPlan(mx.localAddrs[e.row], mx.serverEndpoints[e.col].host, mx.serverEndpoints[e.col].port)
  }

  lemma PicksInRange(mx: Matrix, subnet: SubnetTest, usedClient: set<string>, usedServer: set<string>, picks: seq<Edge>)
    requires Elements(picks) <= Candidates(mx, subnet, usedClient, usedServer)
    ensures forall k :: 0 <= k < |picks| ==> picks[k].row < |mx.localAddrs| && picks[k].col < |mx.serverEndpoints|
  {
    forall k | 0 <= k < |picks| ensures picks[k].row < |mx.localAddrs| && picks[k].col < |mx.serverEndpoints| {
      assert picks[k] in Elements(picks);
    }
  }

  method RankCandidates(mx: Matrix, subnet: SubnetTest, usedClient: set<string>, usedServer: set<string>)
    returns (edges: seq<Edge>, ghost best: map<NicPair, Edge>)
    requires ValidMatrix(mx)
    ensures BestOf(Candidates(mx, subnet, usedClient, usedServer), best)
    ensures Sorted(Better, edges) && Elements(edges) == best.Values && OnePerPair(Elements(edges))
  {
    var bestEdge := CollectBest(mx, subnet, usedClient, usedServer);
    BetterIsOrder();
    edges := Sort(Better, bestEdge.Values);
    best := bestEdge;
    assert Elements(edges) == best.Values;
  }

  method MakePlans(mx: Matrix, picks: seq<Edge>) returns (plans: seq<LinkPlan>)
    requires forall k :: 0 <= k < |picks| ==> picks[k].row < |mx.localAddrs| && picks[k].col < |mx.serverEndpoints|
    ensures |plans| == |picks| && forall k :: 0 <= k < |plans| ==> plans[k] == PlanOf(mx, picks[k])
  {
    plans := [];
    for k := 0 to |picks|
      invariant |plans| == k && forall l :: 0 <= l < k ==> plans[l] == PlanOf(mx, picks[l])
    {
      plans := plans + [PlanOf(mx, picks[k])];
    }
  }

  /** The plans are those of a best selection, in rank order. */
  ghost predicate BestPlans(mx: Matrix, cands: set<Edge>, budget: nat, plans: seq<LinkPlan>) {
    exists picks: seq<Edge> :: BestSelection(cands, budget, picks) && PlansOf(mx, picks, plans)
  }

  ghost predicate PlansOf(mx: Matrix, picks: seq<Edge>, plans: seq<LinkPlan>) {
    |plans| == |picks| && forall k :: 0 <= k < |plans| ==>
      picks[k].row < |mx.localAddrs| && picks[k].col < |mx.serverEndpoints| && plans[k] == PlanOf(mx, picks[k])
  }

  /** The plans are those of cheapest links. */
  ghost predicate CheapestPlans(mx: Matrix, subnet: SubnetTest, primary: Primary, maxConnections: nat,
                                plans: seq<LinkPlan>)
  {
    exists links: seq<Spot> :: CheapestLinks(mx, subnet, primary, maxConnections, links) && PlansAt(mx, links, plans)
  }

  ghost predicate PlansAt(mx: Matrix, links: seq<Spot>, plans: seq<LinkPlan>) {
    |plans| == |links| && forall k :: 0 <= k < |plans| ==> PlanAt(mx, links[k], plans[k])
  }

  ghost predicate PlanAt(mx: Matrix, x: Spot, plan: LinkPlan) {
    && Inside(mx, x) && plan.localAddr == mx.localAddrs[x.0]
    && plan.serverHost == mx.serverEndpoints[x.1].host && plan.serverPort == mx.serverEndpoints[x.1].port
  }

  lemma {:induction false} PlansCheapest(mx: Matrix, subnet: SubnetTest, primary: Primary, maxConnections: nat,
                                         picks: seq<Edge>, plans: seq<LinkPlan>)
    requires Chosen(mx, subnet, primary, AuxBudget(maxConnections, primary.iface, primary.serverKey), picks)
    requires PlansOf(mx, picks, plans)
    ensures CheapestPlans(mx, subnet, primary, maxConnections, plans)
  {
    var budget := AuxBudget(maxConnections, primary.iface, primary.serverKey);
    hide Chosen, CheapestLinks, AuxBudget, EdgeOf, IfaceKeyOf, GroupOf, CostOf;
    ChosenIsCheapest(mx, subnet, primary, maxConnections, picks);
    forall k | 0 <= k < |picks| ensures PlanAt(mx, Places(picks)[k], plans[k]) {
      PickFacts(mx, subnet, primary, budget, picks, k);
    }
    assert PlansAt(mx, Places(picks), plans);
  }

  /** The links realise the best selection over all offered cells that avoid the primary's NICs. */
  method SelectAutoLinks(mx: Matrix, subnet: SubnetTest, maxConnections: nat, primaryInterface: string,
                         primaryServerKey: string)
    returns (plans: seq<LinkPlan>)
    requires ValidMatrix(mx)
    ensures var usedClient, usedServer := PrimaryClientNics(primaryInterface), PrimaryServerNics(mx, primaryServerKey);
            BestPlans(mx, Candidates(mx, subnet, usedClient, usedServer),
                      AuxBudget(maxConnections, primaryInterface, primaryServerKey), plans)
    ensures CheapestPlans(mx, subnet, Primary(primaryInterface, primaryServerKey), maxConnections, plans)
  {
    var usedClient := PrimaryClientNics(primaryInterface);
    var usedServer: set<string> := {};
    if primaryServerKey != "" {
      var group := FindPrimaryGroup(mx, primaryServerKey);
      usedServer := {group};
    }
    var auxBudget := AuxBudget(maxConnections, primaryInterface, primaryServerKey);
    ghost var best;
    var edges: seq<Edge>;
    edges, best := RankCandidates(mx, subnet, usedClient, usedServer);
    var picks := SelectEdges(edges, auxBudget);
    SelectionAmongAll(Candidates(mx, subnet, usedClient, usedServer), best, auxBudget, picks);
    PicksInRange(mx, subnet, usedClient, usedServer, picks);
    plans := MakePlans(mx, picks);
    assert PlansOf(mx, picks, plans);
    PlansCheapest(mx, subnet, Primary(primaryInterface, primaryServerKey), maxConnections, picks, plans);
  }
}
