/**
 Automatic link selection: collect the best edge of every NIC pair, rank the edges, and commit them
 best-first under the cardinality guard.
 */
module LinkSelection {
  import opened LinkOrder
  import opened LinkGreedy
  import Matching

  datatype ServerEndpoint = ServerEndpoint(host: string, port: nat, nicGroup: string)
  datatype Cell = Cell(reachable: bool, rttMs: int)

  /** cells[row][col]; a row may be shorter than the list of endpoints. */
  datatype Matrix = Matrix(localAddrs: seq<string>, localIfaces: seq<string>, localPrefixLens: seq<int>,
                           serverEndpoints: seq<ServerEndpoint>, cells: seq<seq<Cell>>)

  datatype LinkPlan = LinkPlan(localAddr: string, serverHost: string, serverPort: nat)

  /** sameSubnet(client address, prefix length, server host) is a parameter. */
  type SubnetTest = (string, int, string) -> bool

  function Decimal(n: nat): string {
    (if n < 10 then "" else Decimal(n / 10)) + ["0123456789"[n % 10]]
  }

  function ServerKey(ep: ServerEndpoint): string {
    ep.host + ":" + Decimal(ep.port)
  }

  function FamilyRank(ip: string): int {
    if ':' in ip then 1 else 0
  }

  ghost predicate ValidMatrix(mx: Matrix) {
    |mx.cells| >= |mx.localAddrs|
  }

  function GroupOf(mx: Matrix, j: nat): string
    requires j < |mx.serverEndpoints|
  {
    var ep := mx.serverEndpoints[j];
    if ep.nicGroup != "" then ep.nicGroup else ServerKey(ep)
  }

  function IfaceKeyOf(mx: Matrix, i: nat): string
    requires i < |mx.localAddrs|
  {
    if i < |mx.localIfaces| && mx.localIfaces[i] != "" then mx.localIfaces[i] else mx.localAddrs[i]
  }

  function PrefixLenOf(mx: Matrix, i: nat): int {
    if i < |mx.localPrefixLens| then mx.localPrefixLens[i] else 0
  }

  /** The server NIC of the primary lane: the group of the first endpoint with its key, else the key. */
  function PrimaryGroup(mx: Matrix, key: string, from: nat): string
    decreases |mx.serverEndpoints| - from
  {
    if from >= |mx.serverEndpoints| then key
    else if ServerKey(mx.serverEndpoints[from]) == key then GroupOf(mx, from)
    else PrimaryGroup(mx, key, from + 1)
  }

  function PrimaryClientNics(primaryInterface: string): set<string> {
    if primaryInterface == "" then {} else {primaryInterface}
  }

  function PrimaryServerNics(mx: Matrix, primaryServerKey: string): set<string> {
    if primaryServerKey == "" then {} else {PrimaryGroup(mx, primaryServerKey, 0)}
  }

  /** Lanes left for auxiliary links once the primary, if there is one, has taken its slot. */
  function AuxBudget(maxConnections: nat, primaryInterface: string, primaryServerKey: string): nat {
    var reserved := if primaryInterface != "" || primaryServerKey != "" then 1 else 0;
    if maxConnections <= reserved then 0 else maxConnections - reserved
  }

  function EdgeAt(mx: Matrix, subnet: SubnetTest, i: nat, j: nat): Edge
    requires i < |mx.localAddrs| && j < |mx.serverEndpoints| && i < |mx.cells| && j < |mx.cells[i]|
  {
    Edge(FamilyRank(mx.localAddrs[i]),
         if subnet(mx.localAddrs[i], PrefixLenOf(mx, i), mx.serverEndpoints[j].host) then 0 else 1,
         mx.cells[i][j].rttMs, i, j, IfaceKeyOf(mx, i), GroupOf(mx, j))
  }

  /** Cell (i, j) offers a link: reachable, and neither NIC is taken by the primary lane. */
  predicate Offered(mx: Matrix, usedClient: set<string>, usedServer: set<string>, i: nat, j: nat) {
    && i < |mx.localAddrs| && j < |mx.serverEndpoints| && i < |mx.cells| && j < |mx.cells[i]|
    && mx.cells[i][j].reachable
    && IfaceKeyOf(mx, i) !in usedClient && GroupOf(mx, j) !in usedServer
  }

  ghost function Candidates(mx: Matrix, subnet: SubnetTest, usedClient: set<string>, usedServer: set<string>): set<Edge>
  {
    set i: nat, j: nat | i < |mx.localAddrs| && j < |mx.serverEndpoints| && Offered(mx, usedClient, usedServer, i, j)
      :: EdgeAt(mx, subnet, i, j)
  }

  // ----- One best edge per NIC pair -----

  type NicPair = (string, string)

  function KeyOf(e: Edge): NicPair {
    (e.clientNic, e.serverNic)
  }

  /** best holds, for every NIC pair that occurs in `seen`, its best-ranked edge. */
  ghost predicate BestOf(seen: set<Edge>, best: map<NicPair, Edge>) {
    && (forall e :: e in seen ==> KeyOf(e) in best && (best[KeyOf(e)] == e || Better(best[KeyOf(e)], e)))
    && (forall k :: k in best ==> best[k] in seen && KeyOf(best[k]) == k)
  }

  function Keep(best: map<NicPair, Edge>, e: Edge): map<NicPair, Edge> {
    if KeyOf(e) !in best || Better(e, best[KeyOf(e)]) then best[KeyOf(e) := e] else best
  }

  lemma KeepsBest(seen: set<Edge>, best: map<NicPair, Edge>, e: Edge)
    requires BestOf(seen, best)
    ensures BestOf(seen + {e}, Keep(best, e))
  {
    BetterIsOrder();
  }

  /** The offered edges of the rows above i and of the first j columns of row i. */
  ghost predicate SeenUpTo(mx: Matrix, subnet: SubnetTest, usedClient: set<string>, usedServer: set<string>, i: nat,
                           j: nat, seen: set<Edge>)
  {
    forall e :: e in seen <==>
      && (e.row < i || (e.row == i && e.col < j))
      && Offered(mx, usedClient, usedServer, e.row, e.col) && e == EdgeAt(mx, subnet, e.row, e.col)
  }

  lemma NothingSeen(mx: Matrix, subnet: SubnetTest, usedClient: set<string>, usedServer: set<string>)
    ensures SeenUpTo(mx, subnet, usedClient, usedServer, 0, 0, {}) && BestOf({}, map[])
  {
  }

  /** The row of a used client NIC offers nothing. */
  lemma RowSkipped(mx: Matrix, subnet: SubnetTest, usedClient: set<string>, usedServer: set<string>, i: nat,
                   seen: set<Edge>)
    requires i < |mx.localAddrs| && IfaceKeyOf(mx, i) in usedClient
    requires SeenUpTo(mx, subnet, usedClient, usedServer, i, 0, seen)
    ensures SeenUpTo(mx, subnet, usedClient, usedServer, i + 1, 0, seen)
  {
    hide IfaceKeyOf, GroupOf, EdgeAt;
  }

  lemma RowSeen(mx: Matrix, subnet: SubnetTest, usedClient: set<string>, usedServer: set<string>, i: nat, j: nat,
                seen: set<Edge>)
    requires SeenUpTo(mx, subnet, usedClient, usedServer, i, j, seen)
    requires i < |mx.cells| && (j >= |mx.serverEndpoints| || j >= |mx.cells[i]|)
    ensures SeenUpTo(mx, subnet, usedClient, usedServer, i + 1, 0, seen)
  {
    hide IfaceKeyOf, GroupOf, EdgeAt;
  }

  lemma CellSeen(mx: Matrix, subnet: SubnetTest, usedClient: set<string>, usedServer: set<string>, i: nat, j: nat,
                 seen: set<Edge>)
    requires i < |mx.localAddrs| && j < |mx.serverEndpoints| && i < |mx.cells| && j < |mx.cells[i]|
    requires IfaceKeyOf(mx, i) !in usedClient && SeenUpTo(mx, subnet, usedClient, usedServer, i, j, seen)
    ensures SeenUpTo(mx, subnet, usedClient, usedServer, i, j + 1,
                     if mx.cells[i][j].reachable && GroupOf(mx, j) !in usedServer
                     then seen + {EdgeAt(mx, subnet, i, j)} else seen)
  {
    hide IfaceKeyOf, GroupOf;
  }

  lemma AllSeen(mx: Matrix, subnet: SubnetTest, usedClient: set<string>, usedServer: set<string>, seen: set<Edge>)
    requires SeenUpTo(mx, subnet, usedClient, usedServer, |mx.localAddrs|, 0, seen)
    ensures seen == Candidates(mx, subnet, usedClient, usedServer)
  {
    hide IfaceKeyOf, GroupOf;
  }

  method CollectBest(mx: Matrix, subnet: SubnetTest, usedClient: set<string>, usedServer: set<string>)
    returns (best: map<NicPair, Edge>)
    requires ValidMatrix(mx)
    ensures BestOf(Candidates(mx, subnet, usedClient, usedServer), best)
  {
    hide SeenUpTo, BestOf, Keep, GroupOf, IfaceKeyOf, EdgeAt, Candidates;
    NothingSeen(mx, subnet, usedClient, usedServer);
    best := map[];
    ghost var seen: set<Edge> := {};
    for i: nat := 0 to |mx.localAddrs|
      invariant BestOf(seen, best)
      invariant SeenUpTo(mx, subnet, usedClient, usedServer, i, 0, seen)
    {
      var cN := IfaceKeyOf(mx, i);
      if cN in usedClient {
        RowSkipped(mx, subnet, usedClient, usedServer, i, seen);
        continue;
      }
      var j: nat := 0;
      while j < |mx.serverEndpoints| && j < |mx.cells[i]|
        invariant j <= |mx.serverEndpoints|
        invariant BestOf(seen, best)
        invariant SeenUpTo(mx, subnet, usedClient, usedServer, i, j, seen)
      {
        CellSeen(mx, subnet, usedClient, usedServer, i, j, seen);
        if mx.cells[i][j].reachable && GroupOf(mx, j) !in usedServer {
          var e := EdgeAt(mx, subnet, i, j);
          KeepsBest(seen, best, e);
          best := Keep(best, e);
          seen := seen + {e};
        }
        j := j + 1;
      }
      RowSeen(mx, subnet, usedClient, usedServer, i, j, seen);
    }
    AllSeen(mx, subnet, usedClient, usedServer, seen);
  }

  /** Replacing each edge of b by the best edge of its NIC pair. */
  ghost function Improved(best: map<NicPair, Edge>, b: set<Edge>): set<Edge>
    requires forall e :: e in b ==> KeyOf(e) in best
  {
    set e | e in b :: best[KeyOf(e)]
  }

  lemma ImprovedMatching(seen: set<Edge>, best: map<NicPair, Edge>, b: set<Edge>)
    requires BestOf(seen, best) && b <= seen && LinkMatching(b)
    ensures LinkMatching(Improved(best, b)) && |Improved(best, b)| == |b|
  {
    var there := map e | e in b :: best[KeyOf(e)];
    assert forall e :: e in there ==> KeyOf(there[e]) == KeyOf(e);
    assert there.Keys == b && there.Values == Improved(best, b);
    ValuesOfInjection(there);
  }

  lemma ValuesOfInjection<T, U>(f: map<T, U>)
    requires forall x, y :: x in f && y in f && f[x] == f[y] ==> x == y
    ensures |f.Values| == |f.Keys|
  {
    Matching.InjectionBound(f, f.Values);
    var back := map u | u in f.Values :: var x :| x in f && f[x] == u; x;
    Matching.InjectionBound(back, f.Keys);
    assert back.Keys == f.Values;
  }

  lemma DroppedEdgeIsBeaten(seen: set<Edge>, best: map<NicPair, Edge>, b: set<Edge>, z: Edge)
    requires BestOf(seen, best) && b <= seen && LinkMatching(b)
    requires z in b && z !in Improved(best, b)
    ensures best[KeyOf(z)] in Improved(best, b) - b && Better(best[KeyOf(z)], z)
  {
    assert KeyOf(best[KeyOf(z)]) == KeyOf(z);
  }

  /** Restricting the choice to best edges never loses: the improved selection is the same or comes first. */
  lemma ImprovedPrecedes(seen: set<Edge>, best: map<NicPair, Edge>, b: set<Edge>)
    requires BestOf(seen, best) && b <= seen && LinkMatching(b)
    ensures Improved(best, b) == b || Precedes(Improved(best, b), b)
  {
    var c := Improved(best, b);
    if c != b {
      var z := BestExists((c - b) + (b - c));
      if z in b {
        DroppedEdgeIsBeaten(seen, best, b, z);
        BetterIsOrder();
        assert false;
      }
      BetterIsOrder();
      assert AgreeAbove(c, b, z);
    }
  }

  // ----- NIC numbering and the graph handed to the matching oracle -----

  ghost predicate Numbering(names: set<string>, id: map<string, nat>, n: nat) {
    && id.Keys == names
    && (forall x :: x in id ==> id[x] < n)
    && (forall x, y :: x in id && y in id && id[x] == id[y] ==> x == y)
  }

  /** Numbers follow the order of the names. */
  ghost predicate InNameOrder(id: map<string, nat>) {
    forall x, y :: x in id && y in id ==> (StrLess(x, y) <==> id[x] < id[y])
  }

  method AssignIds(names: set<string>) returns (id: map<string, nat>, n: nat)
    ensures Numbering(names, id, n) && InNameOrder(id)
  {
    StrLessIsOrder();
    var q := Sort(StrLess, names);
    n := |q|;
    id := map[];
    hide StrLess;
    for i: nat := 0 to n
      invariant forall x :: x in id <==> x in q[..i]
      invariant forall k :: 0 <= k < i ==> q[k] in id && id[q[k]] == k
    {
      id := id[q[i] := i];
      assert q[..i+1] == q[..i] + [q[i]];
    }
    assert q[..n] == q;
  }

  /** The servers a client's row lists: those of its edges, in the order of the edges. */
  ghost function RowOf(g: Graph, edges: seq<Edge>, c: nat): seq<nat> {
    if edges == [] then []
    else
      var e := edges[|edges|-1];
      RowOf(g, edges[..|edges|-1], c) + if PairOf(g, e).0 == c then [PairOf(g, e).1] else []
  }

  ghost predicate Rows(g: Graph, edges: seq<Edge>) {
    forall c: nat :: c < |g.adj| ==> g.adj[c] == RowOf(g, edges, c)
  }

  lemma {:induction false} SameRow(g: Graph, h: Graph, edges: seq<Edge>, c: nat)
    requires g.clientId == h.clientId && g.serverId == h.serverId
    ensures RowOf(g, edges, c) == RowOf(h, edges, c)
  {
    if edges != [] {
      SameRow(g, h, edges[..|edges|-1], c);
    }
  }

  lemma RowsOneMore(g: Graph, edges: seq<Edge>, k: nat)
    requires k < |edges| && Rows(g, edges[..k]) && PairOf(g, edges[k]).0 < |g.adj|
    ensures Rows(WithEdge(g, PairOf(g, edges[k]).0, PairOf(g, edges[k]).1), edges[..k+1])
  {
    var h := WithEdge(g, PairOf(g, edges[k]).0, PairOf(g, edges[k]).1);
    assert edges[..k+1][..k] == edges[..k];
    forall c: nat | c < |h.adj| ensures h.adj[c] == RowOf(h, edges[..k+1], c) {
      SameRow(g, h, edges[..k], c);
    }
  }

  /** The NIC names of the edges, numbered, and the adjacency table over those numbers. */
  datatype Graph = Graph(clientId: map<string, nat>, serverId: map<string, nat>, nS: nat, adj: seq<seq<nat>>)

  ghost predicate Numbered(g: Graph, es: set<Edge>) {
    && Numbering(ClientNics(es), g.clientId, |g.adj|)
    && Numbering(ServerNics(es), g.serverId, g.nS)
  }

  ghost predicate OnePerPair(es: set<Edge>) {
    forall e, f :: e in es && f in es && KeyOf(e) == KeyOf(f) ==> e == f
  }

  function PairOf(g: Graph, e: Edge): Matching.Edge {
    (if e.clientNic in g.clientId then g.clientId[e.clientNic] else 0,
     if e.serverNic in g.serverId then g.serverId[e.serverNic] else 0)
  }

  /** The table lists exactly the pairs of the listed edges. */
  ghost predicate Lists(g: Graph, listed: set<Edge>) {
    && Matching.ValidGraph(g.adj, g.nS)
    && (forall e :: e in listed ==> PairOf(g, e).0 < |g.adj| && PairOf(g, e).1 in g.adj[PairOf(g, e).0])
    && (forall c: nat, s :: c < |g.adj| && s in g.adj[c] ==> exists e :: e in listed && PairOf(g, e) == (c, s))
  }

  /** The committed flags mark exactly the NICs of the picks. */
  ghost predicate Flags(g: Graph, es: set<Edge>, picked: set<Edge>, bc: seq<bool>, bs: seq<bool>) {
    && |bc| == |g.adj| && |bs| == g.nS
    && (forall e :: e in es ==> PairOf(g, e).0 < |bc| && PairOf(g, e).1 < |bs|)
    && (forall e :: e in es ==> (bc[PairOf(g, e).0] <==> e.clientNic in ClientNics(picked)))
    && (forall e :: e in es ==> (bs[PairOf(g, e).1] <==> e.serverNic in ServerNics(picked)))
  }

  /** Numbers are equal exactly when the names are. */
  ghost predicate Faithful(g: Graph, es: set<Edge>) {
    forall e, f :: e in es && f in es ==>
      && (PairOf(g, e).0 == PairOf(g, f).0 <==> e.clientNic == f.clientNic)
      && (PairOf(g, e).1 == PairOf(g, f).1 <==> e.serverNic == f.serverNic)
  }

  ghost predicate InRange(g: Graph, es: set<Edge>) {
    forall e :: e in es ==>
      e.clientNic in g.clientId && e.serverNic in g.serverId && PairOf(g, e).0 < |g.adj| && PairOf(g, e).1 < g.nS
  }

  lemma NumbersAreFaithful(g: Graph, es: set<Edge>)
    requires Numbered(g, es)
    ensures Faithful(g, es) && InRange(g, es)
  {
    hide Numbered;
    forall e | e in es
      ensures e.clientNic in g.clientId && e.serverNic in g.serverId && PairOf(g, e).0 < |g.adj|
              && PairOf(g, e).1 < g.nS
    {
      NumbersInRange(g, es, e);
    }
    forall e, f | e in es && f in es
      ensures PairOf(g, e).0 == PairOf(g, f).0 <==> e.clientNic == f.clientNic
      ensures PairOf(g, e).1 == PairOf(g, f).1 <==> e.serverNic == f.serverNic
    {
      SameNumbers(g, es, e, f);
    }
  }

  lemma SameNumbers(g: Graph, es: set<Edge>, e: Edge, f: Edge)
    requires Numbered(g, es) && e in es && f in es
    ensures PairOf(g, e).0 == PairOf(g, f).0 <==> e.clientNic == f.clientNic
    ensures PairOf(g, e).1 == PairOf(g, f).1 <==> e.serverNic == f.serverNic
  {
    assert e.clientNic in ClientNics(es) && f.clientNic in ClientNics(es);
    assert e.serverNic in ServerNics(es) && f.serverNic in ServerNics(es);
  }

  /** The open edges of the flagged graph are the pairs of the edges that clash with no pick. */
  ghost predicate OpenIsFree(g: Graph, es: set<Edge>, picked: set<Edge>, bc: seq<bool>, bs: seq<bool>) {
    && (forall e :: e in es ==> (Matching.Open(g.adj, bc, bs, PairOf(g, e)) <==> !Clashes(e, picked)))
    && (forall x :: Matching.Open(g.adj, bc, bs, x) ==> exists e :: e in es && PairOf(g, e) == x)
  }

  lemma FlaggedGraph(g: Graph, es: set<Edge>, picked: set<Edge>, bc: seq<bool>, bs: seq<bool>)
    requires Lists(g, es) && Flags(g, es, picked, bc, bs)
    ensures OpenIsFree(g, es, picked, bc, bs)
  {
    forall x | Matching.Open(g.adj, bc, bs, x) ensures exists e :: e in es && PairOf(g, e) == x {
      var e :| e in es && PairOf(g, e) == (x.0, x.1);
    }
  }

  ghost function PairsOf(g: Graph, m: set<Edge>): set<Matching.Edge> {
    set e | e in m :: PairOf(g, e)
  }

  lemma PairsOfSize(g: Graph, es: set<Edge>, m: set<Edge>)
    requires Faithful(g, es) && OnePerPair(es) && m <= es
    ensures |PairsOf(g, m)| == |m|
  {
    var image := map e | e in m :: PairOf(g, e);
    forall e, f | e in m && f in m && PairOf(g, e) == PairOf(g, f) ensures e == f {
      assert KeyOf(e) == KeyOf(f);
    }
    assert image.Keys == m && image.Values == PairsOf(g, m);
    ValuesOfInjection(image);
  }

  lemma LinksAreOpenMatching(g: Graph, es: set<Edge>, picked: set<Edge>, bc: seq<bool>, bs: seq<bool>, m: set<Edge>)
    requires Faithful(g, es) && OpenIsFree(g, es, picked, bc, bs)
    requires m <= Residual(es, picked) && LinkMatching(m)
    ensures Matching.OpenMatching(g.adj, bc, bs, PairsOf(g, m))
  {
    forall x, y | x in PairsOf(g, m) && y in PairsOf(g, m) && (x.0 == y.0 || x.1 == y.1) ensures x == y {
      var e :| e in m && PairOf(g, e) == x;
      var f :| f in m && PairOf(g, f) == y;
      assert e in es && f in es;
    }
  }

  ghost function EdgesOf(g: Graph, es: set<Edge>, p: set<Matching.Edge>): set<Edge> {
    set e | e in es && PairOf(g, e) in p
  }

  lemma OpenMatchingIsLinks(g: Graph, es: set<Edge>, picked: set<Edge>, bc: seq<bool>, bs: seq<bool>,
                            p: set<Matching.Edge>)
    requires Faithful(g, es) && OpenIsFree(g, es, picked, bc, bs) && OnePerPair(es)
    requires Matching.OpenMatching(g.adj, bc, bs, p)
    ensures EdgesOf(g, es, p) <= Residual(es, picked) && LinkMatching(EdgesOf(g, es, p))
    ensures PairsOf(g, EdgesOf(g, es, p)) == p
  {
    var m := EdgesOf(g, es, p);
    forall e, f | e in m && f in m && (e.clientNic == f.clientNic || e.serverNic == f.serverNic) ensures e == f {
      assert PairOf(g, e) == PairOf(g, f);
      assert KeyOf(e) == KeyOf(f);
    }
    forall x | x in p ensures x in PairsOf(g, m) {
      assert Matching.Open(g.adj, bc, bs, x);
    }
  }

  /** The oracle answers for links: its cardinality is the size of a largest residual selection. */
  lemma OracleMeaning(g: Graph, es: set<Edge>, picked: set<Edge>, bc: seq<bool>, bs: seq<bool>, k: nat)
    requires Faithful(g, es) && Lists(g, es) && Flags(g, es, picked, bc, bs) && OnePerPair(es)
    requires Matching.MaxCardinality(g.adj, bc, bs, k)
    ensures MaxLinks(Residual(es, picked), k)
  {
    FlaggedGraph(g, es, picked, bc, bs);
    var p :| Matching.OpenMatching(g.adj, bc, bs, p) && |p| == k;
    OpenMatchingIsLinks(g, es, picked, bc, bs, p);
    PairsOfSize(g, es, EdgesOf(g, es, p));
    forall m | m <= Residual(es, picked) && LinkMatching(m) ensures |m| <= k {
      LinksAreOpenMatching(g, es, picked, bc, bs, m);
      PairsOfSize(g, es, m);
    }
  }

  function WithEdge(g: Graph, c: nat, s: nat): Graph
    requires c < |g.adj|
  {
    g.(adj := g.adj[c := g.adj[c] + [s]])
  }

  lemma ListedOneMore(g: Graph, listed: set<Edge>, e: Edge, c: nat, s: nat)
    requires Lists(g, listed) && PairOf(g, e) == (c, s) && c < |g.adj| && s < g.nS
    ensures Lists(WithEdge(g, c, s), listed + {e})
  {
    var h := WithEdge(g, c, s);
    assert forall x :: PairOf(h, x) == PairOf(g, x);
    forall d: nat, t | d < |h.adj| && t in h.adj[d] ensures exists x :: x in listed + {e} && PairOf(h, x) == (d, t) {
      if t in g.adj[d] {
        var x :| x in listed && PairOf(g, x) == (d, t);
      } else {
        assert PairOf(h, e) == (d, t);
      }
    }
  }

  lemma SameNumbering(g: Graph, es: set<Edge>, c: nat, s: nat)
    requires Faithful(g, es) && InRange(g, es) && c < |g.adj|
    ensures Faithful(WithEdge(g, c, s), es) && InRange(WithEdge(g, c, s), es)
  {
    assert forall x :: PairOf(WithEdge(g, c, s), x) == PairOf(g, x);
  }

  lemma NoRows(g: Graph)
    requires forall c :: 0 <= c < |g.adj| ==> g.adj[c] == []
    ensures Rows(g, [])
  {
  }

  lemma ListsNothing(g: Graph)
    requires forall c :: 0 <= c < |g.adj| ==> g.adj[c] == []
    ensures Lists(g, Elements<Edge>([]))
  {
  }

  method NumberNics(edges: seq<Edge>) returns (g: Graph)
    ensures Faithful(g, Elements(edges)) && InRange(g, Elements(edges))
    ensures InNameOrder(g.clientId) && InNameOrder(g.serverId)
    ensures forall c :: 0 <= c < |g.adj| ==> g.adj[c] == []
  {
    var clientId, nC := AssignIds(set e | e in edges :: e.clientNic);
    var serverId, nS := AssignIds(set e | e in edges :: e.serverNic);
    g := Graph(clientId, serverId, nS, seq(nC, _ => []));
    NumberEdges(edges, g);
    NumbersAreFaithful(g, Elements(edges));
  }

  method BuildGraph(edges: seq<Edge>) returns (g: Graph)
    ensures Faithful(g, Elements(edges)) && InRange(g, Elements(edges)) && Lists(g, Elements(edges))
    ensures Rows(g, edges) && InNameOrder(g.clientId) && InNameOrder(g.serverId)
    ensures Matching.ValidGraph(g.adj, g.nS)
  {
    hide Faithful, Lists, Rows, InNameOrder;
    ghost var es := Elements(edges);
    g := NumberNics(edges);
    ListsNothing(g);
    NoRows(g);
    assert edges[..0] == [];
    for k: nat := 0 to |edges|
      invariant Faithful(g, es) && InRange(g, es) && InNameOrder(g.clientId) && InNameOrder(g.serverId)
      invariant Lists(g, Elements(edges[..k])) && Rows(g, edges[..k])
    {
      assert edges[k] in es;
      var c, s := g.clientId[edges[k].clientNic], g.serverId[edges[k].serverNic];
      ListedOneMore(g, Elements(edges[..k]), edges[k], c, s);
      SameNumbering(g, es, c, s);
      ElementsOfPrefix(edges, k);
      RowsOneMore(g, edges, k);
      g := WithEdge(g, c, s);
    }
    assert edges[..|edges|] == edges;
    ListsValidGraph(g, es);
  }

  lemma ListsValidGraph(g: Graph, es: set<Edge>)
    requires Lists(g, es)
    ensures Matching.ValidGraph(g.adj, g.nS)
  {
  }

  lemma ElementsOfPrefix(edges: seq<Edge>, k: nat)
    requires k < |edges|
    ensures Elements(edges[..k+1]) == Elements(edges[..k]) + {edges[k]}
  {
    assert edges[..k+1] == edges[..k] + [edges[k]];
  }

  lemma NumberEdges(edges: seq<Edge>, g: Graph)
    requires Numbering(set e | e in edges :: e.clientNic, g.clientId, |g.adj|)
    requires Numbering(set e | e in edges :: e.serverNic, g.serverId, g.nS)
    ensures Numbered(g, Elements(edges))
  {
    var es := Elements(edges);
    assert (set e | e in edges :: e.clientNic) == ClientNics(es);
    assert (set e | e in edges :: e.serverNic) == ServerNics(es);
  }

  lemma NumbersInRange(g: Graph, es: set<Edge>, e: Edge)
    requires Numbered(g, es) && e in es
    ensures e.clientNic in g.clientId && e.serverNic in g.serverId
    ensures PairOf(g, e).0 < |g.adj| && PairOf(g, e).1 < g.nS
  {
    assert e.clientNic in ClientNics(es) && e.serverNic in ServerNics(es);
  }

  // ----- The guarded greedy -----

  /** The promised selection: ranked, of size min(budget, maximum), and before every other one of its size. */
  ghost predicate BestSelection(cands: set<Edge>, budget: nat, picks: seq<Edge>) {
    && Sorted(Better, picks)
    && Elements(picks) <= cands && LinkMatching(Elements(picks))
    && (exists k :: MaxLinks(cands, k) && |picks| == if budget < k then budget else k)
    && (forall b :: b <= cands && LinkMatching(b) && |b| == |picks| ==>
          b == Elements(picks) || Precedes(Elements(picks), b))
  }

  lemma FlagsOfPick(g: Graph, es: set<Edge>, picked: set<Edge>, bc: seq<bool>, bs: seq<bool>, e: Edge)
    requires Faithful(g, es) && Flags(g, es, picked, bc, bs) && e in es
    ensures Flags(g, es, picked + {e}, bc[PairOf(g, e).0 := true], bs[PairOf(g, e).1 := true])
  {
    var bc', bs' := bc[PairOf(g, e).0 := true], bs[PairOf(g, e).1 := true];
    forall x | x in es
      ensures bc'[PairOf(g, x).0] <==> x.clientNic in ClientNics(picked + {e})
      ensures bs'[PairOf(g, x).1] <==> x.serverNic in ServerNics(picked + {e})
    {
      assert ClientNics(picked + {e}) == ClientNics(picked) + {e.clientNic};
      assert ServerNics(picked + {e}) == ServerNics(picked) + {e.serverNic};
    }
  }

  lemma RankPick(edges: seq<Edge>, picks: seq<Edge>, i: nat)
    requires Sorted(Better, edges) && Sorted(Better, picks) && i < |edges| && Elements(picks) <= Elements(edges[..i])
    ensures Sorted(Better, picks + [edges[i]])
    ensures Elements(picks + [edges[i]]) == Elements(picks) + {edges[i]}
  {
    forall k | 0 <= k < |picks| ensures Better(picks[k], edges[i]) {
      assert picks[k] in Elements(picks);
      var j :| 0 <= j < i && edges[..i][j] == picks[k];
    }
  }

  /** What the greedy loop keeps. */
  ghost predicate Selecting(edges: seq<Edge>, kMax: nat, g: Graph, i: nat, picks: seq<Edge>, bc: seq<bool>,
                            bs: seq<bool>)
  {
    && GreedyInv(edges, kMax, Elements(picks), i)
    && |Elements(picks)| == |picks| && Sorted(Better, picks)
    && Flags(g, Elements(edges), Elements(picks), bc, bs)
  }

  ghost predicate GraphFor(g: Graph, edges: seq<Edge>) {
    && Faithful(g, Elements(edges)) && InRange(g, Elements(edges)) && Lists(g, Elements(edges))
    && OnePerPair(Elements(edges))
  }

  lemma StepClash(edges: seq<Edge>, kMax: nat, g: Graph, i: nat, picks: seq<Edge>, bc: seq<bool>, bs: seq<bool>)
    requires GraphFor(g, edges) && Selecting(edges, kMax, g, i, picks, bc, bs) && i < |edges|
    requires bc[PairOf(g, edges[i]).0] || bs[PairOf(g, edges[i]).1]
    ensures Selecting(edges, kMax, g, i + 1, picks, bc, bs)
    ensures !Extendable(edges, kMax, Elements(picks) + {edges[i]})
  {
    assert edges[i] in Elements(edges);
    assert Clashes(edges[i], Elements(picks));
    SkipClash(edges, kMax, Elements(picks), i);
  }

  lemma StepCommit(edges: seq<Edge>, kMax: nat, g: Graph, i: nat, picks: seq<Edge>, bc: seq<bool>, bs: seq<bool>,
                   c: nat, s: nat, residual: nat)
    requires GraphFor(g, edges) && Selecting(edges, kMax, g, i, picks, bc, bs) && i < |edges|
    requires |picks| < kMax && c < |bc| && s < |bs| && PairOf(g, edges[i]) == (c, s) && !bc[c] && !bs[s]
    requires Matching.MaxCardinality(g.adj, bc[c := true], bs[s := true], residual)
    requires |picks| + 1 + residual >= kMax
    ensures Selecting(edges, kMax, g, i + 1, picks + [edges[i]], bc[c := true], bs[s := true])
    ensures Extendable(edges, kMax, Elements(picks) + {edges[i]})
  {
    var es, picked := Elements(edges), Elements(picks);
    assert edges[i] in es;
    assert !Clashes(edges[i], picked);
    RankPick(edges, picks, i);
    FlagsOfPick(g, es, picked, bc, bs, edges[i]);
    OracleMeaning(g, es, picked + {edges[i]}, bc[c := true], bs[s := true], residual);
    Commit(edges, kMax, picked, i, residual);
  }

  lemma StepRefuse(edges: seq<Edge>, kMax: nat, g: Graph, i: nat, picks: seq<Edge>, bc: seq<bool>, bs: seq<bool>,
                   c: nat, s: nat, residual: nat)
    requires GraphFor(g, edges) && Selecting(edges, kMax, g, i, picks, bc, bs) && i < |edges|
    requires c < |bc| && s < |bs| && PairOf(g, edges[i]) == (c, s)
    requires Matching.MaxCardinality(g.adj, bc[c := true], bs[s := true], residual)
    requires |picks| + 1 + residual < kMax
    ensures Selecting(edges, kMax, g, i + 1, picks, bc, bs)
    ensures !Extendable(edges, kMax, Elements(picks) + {edges[i]})
  {
    var es, picked := Elements(edges), Elements(picks);
    assert edges[i] in es;
    FlagsOfPick(g, es, picked, bc, bs, edges[i]);
    OracleMeaning(g, es, picked + {edges[i]}, bc[c := true], bs[s := true], residual);
    SkipRefused(edges, kMax, picked, i, residual);
  }

  lemma StepBegin(edges: seq<Edge>, auxBudget: nat, g: Graph, bc: seq<bool>, bs: seq<bool>, max: nat)
    requires Sorted(Better, edges) && GraphFor(g, edges)
    requires bc == seq(|g.adj|, _ => false) && bs == seq(g.nS, _ => false)
    requires Matching.MaxCardinality(g.adj, bc, bs, max)
    ensures MaxLinks(Elements(edges), max)
    ensures Selecting(edges, if auxBudget < max then auxBudget else max, g, 0, [], bc, bs)
  {
    OracleAtStart(edges, g, bc, bs, max);
    assert Elements<Edge>([]) == {};
    Begin(edges, if auxBudget < max then auxBudget else max, max);
  }

  lemma StepFinish(edges: seq<Edge>, auxBudget: nat, g: Graph, i: nat, picks: seq<Edge>, bc: seq<bool>, bs: seq<bool>,
                   max: nat)
    requires MaxLinks(Elements(edges), max)
    requires Selecting(edges, if auxBudget < max then auxBudget else max, g, i, picks, bc, bs)
    requires i == |edges| || |picks| >= if auxBudget < max then auxBudget else max
    ensures BestSelection(Elements(edges), auxBudget, picks)
  {
    Finish(edges, if auxBudget < max then auxBudget else max, Elements(picks), i);
  }

  lemma OracleAtStart(edges: seq<Edge>, g: Graph, bc: seq<bool>, bs: seq<bool>, max: nat)
    requires GraphFor(g, edges)
    requires bc == seq(|g.adj|, _ => false) && bs == seq(g.nS, _ => false)
    requires Matching.MaxCardinality(g.adj, bc, bs, max)
    ensures MaxLinks(Elements(edges), max) && Flags(g, Elements(edges), {}, bc, bs)
  {
    NoFlags(g, Elements(edges));
    OracleMeaning(g, Elements(edges), {}, bc, bs, max);
    assert Residual(Elements(edges), {}) == Elements(edges);
  }

  /** One turn of the greedy loop: commit the edge, unless it clashes or the guard refuses it; that is, if
      and only if some full matching contains the picks and the edge. */
  method TryEdge(edges: seq<Edge>, kMax: nat, g: Graph, i: nat, picks: seq<Edge>, bc: seq<bool>, bs: seq<bool>)
    returns (picks': seq<Edge>, bc': seq<bool>, bs': seq<bool>)
    requires GraphFor(g, edges) && Matching.ValidGraph(g.adj, g.nS) && |bc| == |g.adj| && |bs| == g.nS
    requires Selecting(edges, kMax, g, i, picks, bc, bs) && i < |edges| && |picks| < kMax
    ensures |bc'| == |g.adj| && |bs'| == g.nS
    ensures Selecting(edges, kMax, g, i + 1, picks', bc', bs')
    ensures picks' == if Extendable(edges, kMax, Elements(picks) + {edges[i]}) then picks + [edges[i]] else picks
  {
    assert edges[i] in Elements(edges);
    var c, s := g.clientId[edges[i].clientNic], g.serverId[edges[i].serverNic];
    hide Selecting, GraphFor, Matching.MaxCardinality, Extendable;
    if bc[c] || bs[s] {
      StepClash(edges, kMax, g, i, picks, bc, bs);
      return picks, bc, bs;
    }
    var residual := Matching.MaxMatching(g.adj, bc[c := true], bs[s := true]);
    if |picks| + 1 + residual >= kMax {
      StepCommit(edges, kMax, g, i, picks, bc, bs, c, s, residual);
      return picks + [edges[i]], bc[c := true], bs[s := true];
    }
    StepRefuse(edges, kMax, g, i, picks, bc, bs, c, s, residual);
    return picks, bc, bs;
  }

  method GraphOf(edges: seq<Edge>) returns (g: Graph)
    requires OnePerPair(Elements(edges))
    ensures GraphFor(g, edges) && Matching.ValidGraph(g.adj, g.nS)
  {
    hide InRange, Lists, Faithful, OnePerPair;
    g := BuildGraph(edges);
  }

  method SelectEdges(edges: seq<Edge>, auxBudget: nat) returns (picks: seq<Edge>)
    requires Sorted(Better, edges) && OnePerPair(Elements(edges))
    ensures BestSelection(Elements(edges), auxBudget, picks)
  {
    hide Matching.MaxCardinality, Selecting, GraphFor, OnePerPair, MaxLinks, BestSelection, Sorted, Matching.ValidGraph;
    var g := GraphOf(edges);
    var bc, bs := seq(|g.adj|, _ => false), seq(g.nS, _ => false);
    var matchMax := Matching.MaxMatching(g.adj, bc, bs);
    StepBegin(edges, auxBudget, g, bc, bs, matchMax);
    var kMax := if auxBudget < matchMax then auxBudget else matchMax;
    picks := [];
    var i: nat := 0;
    while i < |edges| && |picks| < kMax
      invariant i <= |edges| && |bc| == |g.adj| && |bs| == g.nS
      invariant Selecting(edges, kMax, g, i, picks, bc, bs)
    {
      picks, bc, bs := TryEdge(edges, kMax, g, i, picks, bc, bs);
      i := i + 1;
    }
    StepFinish(edges, auxBudget, g, i, picks, bc, bs, matchMax);
  }

  lemma NoFlags(g: Graph, es: set<Edge>)
    requires InRange(g, es)
    ensures Flags(g, es, {}, seq(|g.adj|, _ => false), seq(g.nS, _ => false))
  {
  }

  /** The promise carries over from the best edges of the NIC pairs to all offered edges. */
  lemma SelectionAmongAll(cands: set<Edge>, best: map<NicPair, Edge>, budget: nat, picks: seq<Edge>)
    requires BestOf(cands, best) && BestSelection(best.Values, budget, picks)
    ensures BestSelection(cands, budget, picks)
  {
    var k :| MaxLinks(best.Values, k) && |picks| == if budget < k then budget else k;
    assert best.Values <= cands;
    forall m | m <= cands && LinkMatching(m) ensures |m| <= k {
      ImprovedMatching(cands, best, m);
      assert Improved(best, m) <= best.Values;
    }
    assert MaxLinks(cands, k);
    var p := Elements(picks);
    forall b | b <= cands && LinkMatching(b) && |b| == |picks| ensures b == p || Precedes(p, b) {
      ImprovedMatching(cands, best, b);
      ImprovedPrecedes(cands, best, b);
      var c := Improved(best, b);
      assert c <= best.Values;
      if c != p && c != b {
        PrecedesTransitive(p, c, b);
      }
    }
  }

  /** No ranked selection of the same size has a smaller rank vector. */
  lemma SelectionIsLexLeast(cands: set<Edge>, budget: nat, picks: seq<Edge>, other: seq<Edge>)
    requires BestSelection(cands, budget, picks)
    requires Sorted(Better, other) && |other| == |picks| && Elements(other) <= cands && LinkMatching(Elements(other))
    ensures other == picks || LexLess(picks, other)
  {
    SortedSize(other);
    if Elements(other) == Elements(picks) {
      SortedUnique(picks, other);
    } else {
      PrecedesIsLexicographic(picks, other);
    }
  }

  lemma SortedUnique(a: seq<Edge>, b: seq<Edge>)
    requires Sorted(Better, a) && Sorted(Better, b) && |a| == |b| && Elements(a) == Elements(b)
    ensures a == b
  {
    if a != b {
      var i := FirstDifference(a, b);
      BetterIsOrder();
      assert a[i] in Elements(a) && b[i] in Elements(b);
      if Better(b[i], a[i]) {
        BetterElementIsMissing(a, b, i);
      } else {
        BetterElementIsMissing(b, a, i);
      }
      assert false;
    }
  }

  lemma {:induction false} SortedSize(q: seq<Edge>)
    requires Sorted(Better, q)
    ensures |Elements(q)| == |q|
  {
    if q != [] {
      var n := |q| - 1;
      SortedSize(q[..n]);
      BetterIsOrder();
      assert q[..n+1] == q;
      ElementsOfPrefix(q, n);
      forall x | x in q[..n] ensures x != q[n] {
        var j :| 0 <= j < n && q[..n][j] == x;
      }
    }
  }
}
