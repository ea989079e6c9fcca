/**
 The driver's undelivered completions: one intrusive doubly linked list in enqueue order, threaded
 through per-file lists of the same nodes.
 */
module CompletionList {
  import opened Ints
  import opened IoState
  import opened Multiplicity

  class PendingCompletion {
    const completion: IoCompletion
    var orderPrev: PendingCompletion?
    var orderNext: PendingCompletion?

    constructor (c: IoCompletion)
      ensures completion == c && orderPrev == null && orderNext == null
    {
      completion := c;
      orderPrev := null;
      orderNext := null;
    }
  }

  // ----- Node sequences -----

  ghost function Contents(nodes: seq<PendingCompletion>): (q: seq<IoCompletion>)
    ensures |q| == |nodes|
  {
    if nodes == [] then [] else Contents(nodes[..|nodes|-1]) + [nodes[|nodes|-1].completion]
  }

  ghost function NodesOf(nodes: seq<PendingCompletion>, f: nat): seq<PendingCompletion> {
    if nodes == [] then []
    else NodesOf(nodes[..|nodes|-1], f)
         + if nodes[|nodes|-1].completion.fileId == f then [nodes[|nodes|-1]] else []
  }

  ghost predicate Distinct(nodes: seq<PendingCompletion>) {
    forall i, j :: 0 <= i < j < |nodes| ==> nodes[i] != nodes[j]
  }

  lemma ContentsPush(nodes: seq<PendingCompletion>, n: PendingCompletion)
    ensures Contents(nodes + [n]) == Contents(nodes) + [n.completion]
  {
    assert (nodes + [n])[..|nodes|] == nodes;
  }

  lemma {:induction false} ContentsSplit(a: seq<PendingCompletion>, b: seq<PendingCompletion>)
    ensures Contents(a + b) == Contents(a) + Contents(b)
  {
    if b == [] {
      assert a + b == a;
    } else {
      ContentsSplit(a, b[..|b|-1]);
      assert (a + b)[..|a + b|-1] == a + b[..|b|-1];
    }
  }

  lemma {:induction false} NodesSplit(a: seq<PendingCompletion>, b: seq<PendingCompletion>, f: nat)
    ensures NodesOf(a + b, f) == NodesOf(a, f) + NodesOf(b, f)
  {
    if b == [] {
      assert a + b == a;
    } else {
      NodesSplit(a, b[..|b|-1], f);
      assert (a + b)[..|a + b|-1] == a + b[..|b|-1];
    }
  }

  lemma NodesPush(nodes: seq<PendingCompletion>, n: PendingCompletion, f: nat)
    ensures NodesOf(nodes + [n], f) == if n.completion.fileId == f then NodesOf(nodes, f) + [n] else NodesOf(nodes, f)
  {
    assert (nodes + [n])[..|nodes|] == nodes;
  }

  lemma NodesOne(n: PendingCompletion, f: nat)
    ensures NodesOf([n], f) == if n.completion.fileId == f then [n] else []
    ensures Contents([n]) == [n.completion]
  {
    assert [n][..0] == [];
  }

  lemma {:induction false} NodesAreThere(nodes: seq<PendingCompletion>, f: nat)
    ensures forall n :: n in NodesOf(nodes, f) <==> n in nodes && n.completion.fileId == f
  {
    if nodes != [] {
      NodesAreThere(nodes[..|nodes|-1], f);
      assert nodes == nodes[..|nodes|-1] + [nodes[|nodes|-1]];
    }
  }

  /** The completions of one file's nodes are the file's completions. */
  lemma {:induction false} ContentsOfFile(nodes: seq<PendingCompletion>, f: nat)
    ensures Contents(NodesOf(nodes, f)) == OfFile(Contents(nodes), f)
  {
    if nodes != [] {
      var n := |nodes| - 1;
      ContentsOfFile(nodes[..n], f);
      ContentsPush(NodesOf(nodes[..n], f), nodes[n]);
      assert NodesOf(nodes, f)
             == if nodes[n].completion.fileId == f then NodesOf(nodes[..n], f) + [nodes[n]] else NodesOf(nodes[..n], f);
      OfFilePush(Contents(nodes[..n]), nodes[n].completion, f);
      hide OfFile;
    }
  }

  lemma {:induction false} NoneOfFile(nodes: seq<PendingCompletion>, f: nat)
    requires NodesOf(nodes, f) == []
    ensures NotOfFile(Contents(nodes), f) == Contents(nodes)
  {
    if nodes != [] {
      var n := |nodes| - 1;
      NoneOfFile(nodes[..n], f);
      OfFilePush(Contents(nodes[..n]), nodes[n].completion, f);
      hide NotOfFile;
    }
  }

  lemma {:induction false} NotOfFileSplit(a: seq<IoCompletion>, b: seq<IoCompletion>, f: nat)
    ensures NotOfFile(a + b, f) == NotOfFile(a, f) + NotOfFile(b, f)
  {
    if b == [] {
      assert a + b == a;
    } else {
      NotOfFileSplit(a, b[..|b|-1], f);
      assert (a + b)[..|a + b|-1] == a + b[..|b|-1];
    }
  }

  /** The place in the order of the first node of a file's list. */
  lemma {:induction false} FirstOfFile(nodes: seq<PendingCompletion>, f: nat) returns (k: nat)
    requires NodesOf(nodes, f) != []
    ensures k < |nodes| && nodes[k] == NodesOf(nodes, f)[0] && NodesOf(nodes[..k], f) == []
  {
    var n := |nodes| - 1;
    if NodesOf(nodes[..n], f) == [] {
      k := n;
    } else {
      k := FirstOfFile(nodes[..n], f);
      assert nodes[..n][..k] == nodes[..k];
    }
  }

  lemma CutAt(nodes: seq<PendingCompletion>, k: nat)
    requires k < |nodes|
    ensures nodes == nodes[..k] + [nodes[k]] + nodes[k+1..]
  {
  }

  /** Taking out the first node of a file: that file's list loses its head, the others nothing. */
  lemma WithoutFirst(nodes: seq<PendingCompletion>, k: nat, f: nat, g: nat)
    requires k < |nodes| && nodes[k].completion.fileId == f && NodesOf(nodes[..k], f) == []
    ensures NodesOf(nodes, f) != [] && NodesOf(nodes, f)[0] == nodes[k]
    ensures NodesOf(Without(nodes, k), g) == if g == f then NodesOf(nodes, f)[1..] else NodesOf(nodes, g)
  {
    var a, n, b := nodes[..k], nodes[k], nodes[k+1..];
    CutAt(nodes, k);
    NodesSplit(a + [n], b, g);
    NodesSplit(a, [n], g);
    NodesSplit(a, b, g);
    NodesOne(n, g);
    NodesSplit(a + [n], b, f);
    NodesSplit(a, [n], f);
    NodesOne(n, f);
    hide NodesOf;
  }

  lemma WithoutKeepsRest(nodes: seq<PendingCompletion>, k: nat, f: nat)
    requires k < |nodes| && nodes[k].completion.fileId == f
    ensures NotOfFile(Contents(Without(nodes, k)), f) == NotOfFile(Contents(nodes), f)
  {
    var a, n, b := nodes[..k], nodes[k], nodes[k+1..];
    CutAt(nodes, k);
    ContentsSplit(a + [n], b);
    ContentsPush(a, n);
    ContentsSplit(a, b);
    NotOfFileSplit(Contents(a) + [n.completion], Contents(b), f);
    OfFilePush(Contents(a), n.completion, f);
    NotOfFileSplit(Contents(a), Contents(b), f);
    hide NotOfFile, Contents, OfFile;
  }

  lemma ContentsPop(nodes: seq<PendingCompletion>)
    requires nodes != []
    ensures Contents(nodes) == [nodes[0].completion] + Contents(nodes[1..])
  {
    assert nodes == [nodes[0]] + nodes[1..];
    ContentsSplit([nodes[0]], nodes[1..]);
    NodesOne(nodes[0], 0);
    hide Contents;
  }

  lemma WithoutPlaces(nodes: seq<PendingCompletion>, k: nat)
    requires k < |nodes| && Distinct(nodes)
    ensures var w := Without(nodes, k);
            && Distinct(w) && |w| == |nodes| - 1
            && (forall i :: 0 <= i < k ==> w[i] == nodes[i])
            && (forall i :: k <= i < |w| ==> w[i] == nodes[i + 1])
            && nodes[k] !in w
  {
  }

  // ----- The list -----

  class CompletionQueue {
    var completionsByFile: map<nat, seq<PendingCompletion>>
    var orderHead: PendingCompletion?
    var orderTail: PendingCompletion?
    var orderCount: nat
    /** The nodes in enqueue order. */
    ghost var order: seq<PendingCompletion>

    ghost predicate LinkAt(i: nat)
      requires i < |order|
      reads this`order, order
    {
      && order[i].orderPrev == (if i == 0 then null else order[i - 1])
      && order[i].orderNext == (if i == |order| - 1 then null else order[i + 1])
    }

    /** The links spell out the order, forwards and backwards. */
    ghost predicate Linked()
      reads this`order, this`orderHead, this`orderTail, this`orderCount, order
    {
      && Distinct(order) && orderCount == |order|
      && orderHead == (if order == [] then null else order[0])
      && orderTail == (if order == [] then null else order[|order| - 1])
      && forall i :: 0 <= i < |order| ==> LinkAt(i)
    }

    /** Each file's list is the order filtered by that file, and no list is empty. */
    ghost predicate FileMatches(f: nat)
      reads this`order, this`completionsByFile
    {
      if f in completionsByFile then completionsByFile[f] != [] && completionsByFile[f] == NodesOf(order, f)
      else NodesOf(order, f) == []
    }

    ghost predicate Valid()
      reads this, order
    {
      Linked() && AllMatch()
    }

    ghost predicate AllMatch()
      reads this`order, this`completionsByFile
    {
      forall f: nat :: FileMatches(f)
    }

    ghost function Pending(): seq<IoCompletion>
      reads this`order
    {
      Contents(order)
    }

    /** What the invariant says of the completions: the count is the backlog, and a file has a list
        exactly when it has completions, holding them in enqueue order. */
    lemma PerFileView(f: nat)
      requires Valid()
      ensures orderCount == |Pending()|
      ensures f in completionsByFile <==> OfFile(Pending(), f) != []
      ensures f in completionsByFile ==> Contents(completionsByFile[f]) == OfFile(Pending(), f)
    {
      ContentsOfFile(order, f);
      assert FileMatches(f);
      NoContents();
    }

    /** No node but those. */
    ghost predicate Within(nodes: seq<PendingCompletion>)
      reads this`order
    {
      forall i :: 0 <= i < |order| ==> order[i] in nodes
    }

    constructor ()
      ensures Valid() && order == [] && Pending() == []
    {
      completionsByFile := map[];
      orderHead, orderTail, orderCount := null, null, 0;
      order := [];
    }

    method OrderLink(pc: PendingCompletion)
      requires Linked() && pc !in order
      modifies this`orderHead, this`orderTail, this`orderCount, this`order, order, pc
      ensures Linked() && order == old(order) + [pc]
    {
      pc.orderPrev := orderTail;
      pc.orderNext := null;
      if orderTail != null {
        orderTail.orderNext := pc;
      } else {
        orderHead := pc;
      }
      orderTail := pc;
      orderCount := orderCount + 1;
      order := order + [pc];
      forall i | 0 <= i < |order| ensures LinkAt(i) {
        if i < |order| - 1 {
          assert old(LinkAt(i));
        }
      }
    }

    /** Takes a node out, wherever it is; a node that is not linked stays so. */
    method OrderUnlink(pc: PendingCompletion, ghost k: nat)
      requires Linked()
      requires if pc in order then k < |order| && order[k] == pc else pc.orderPrev == null && pc.orderNext == null
      modifies this`orderHead, this`orderTail, this`orderCount, this`order, order
      ensures Linked() && order == if pc in old(order) then Without(old(order), k) else old(order)
    {
      if pc in order {
        assert LinkAt(k);
      }
      if pc.orderPrev == null && pc.orderNext == null && orderHead != pc {
        return;
      }
      if pc.orderPrev != null {
        assert LinkAt(k - 1);
        pc.orderPrev.orderNext := pc.orderNext;
      } else if orderHead == pc {
        orderHead := pc.orderNext;
      }
      if pc.orderNext != null {
        pc.orderNext.orderPrev := pc.orderPrev;
      } else if orderTail == pc {
        orderTail := pc.orderPrev;
      }
      pc.orderPrev := null;
      pc.orderNext := null;
      orderCount := orderCount - 1;
      order := Without(order, k);
      WithoutPlaces(old(order), k);
      hide Without, Distinct;
      forall i | 0 <= i < |order| ensures LinkAt(i) {
        if i < k {
          assert old(LinkAt(i));
        } else {
          assert old(LinkAt(i + 1));
        }
      }
    }

    // ----- The four ways a node comes and goes -----

    /** A completion goes to the end of its file's list and to the end of the order. */
    method Push(c: IoCompletion)
      requires Valid()
      modifies this, order
      ensures Valid() && Pending() == old(Pending()) + [c]
      ensures |order| == |old(order)| + 1 && order[..|order| - 1] == old(order) && fresh(order[|order| - 1])
    {
      var f := c.fileId;
      var pc := new PendingCompletion(c);
      var q := if f in completionsByFile then completionsByFile[f] else [];
      assert FileMatches(f);
      completionsByFile := completionsByFile[f := q + [pc]];
      OrderLink(pc);
      ContentsPush(old(order), pc);
      hide Linked, NodesOf, Contents;
      forall g: nat ensures FileMatches(g) {
        assert old(FileMatches(g));
        NodesPush(old(order), pc, g);
      }
    }

    ghost predicate OthersMatch(f: nat)
      reads this`order, this`completionsByFile
    {
      forall g: nat :: g != f ==> FileMatches(g)
    }

    /** Takes the first node of a file out of the order; the file's list is the caller's business. */
    method UnlinkFirst(pc: PendingCompletion, ghost k: nat)
      requires Linked() && OthersMatch(pc.completion.fileId)
      requires k < |order| && order[k] == pc && NodesOf(order[..k], pc.completion.fileId) == []
      modifies this`orderHead, this`orderTail, this`orderCount, this`order, order
      ensures Linked() && order == Without(old(order), k) && OthersMatch(pc.completion.fileId) && Within(old(order))
      ensures NodesOf(old(order), pc.completion.fileId) != []
      ensures NodesOf(order, pc.completion.fileId) == NodesOf(old(order), pc.completion.fileId)[1..]
      ensures NotOfFile(Pending(), pc.completion.fileId) == NotOfFile(old(Pending()), pc.completion.fileId)
    {
      ghost var f, o := pc.completion.fileId, order;
      OrderUnlink(pc, k);
      WithoutFirst(o, k, f, f);
      WithoutKeepsRest(o, k, f);
      forall g: nat | g != f ensures FileMatches(g) {
        assert old(FileMatches(g));
        WithoutFirst(o, k, f, g);
      }
    }

    /** A file's list loses its head, and its entry with its last node. */
    method PopFront(fid: nat) returns (c: IoCompletion)
      requires Linked() && OthersMatch(fid) && fid in completionsByFile && completionsByFile[fid] != []
      requires NodesOf(order, fid) == completionsByFile[fid][1..]
      modifies this`completionsByFile
      ensures c == old(completionsByFile[fid])[0].completion && Valid()
    {
      var q := completionsByFile[fid];
      c := q[0].completion;
      completionsByFile := if q[1..] == [] then completionsByFile - {fid} else completionsByFile[fid := q[1..]];
      hide NodesOf;
      forall g: nat | g != fid ensures FileMatches(g) {
        assert old(FileMatches(g));
      }
    }

    /** The head of the order is the head of its file's list. */
    lemma HeadOfFile()
      requires Valid() && orderHead != null
      ensures var fid := orderHead.completion.fileId;
              && order != [] && order[0] == orderHead && NodesOf(order[..0], fid) == []
              && Without(order, 0) == order[1..] && Linked() && OthersMatch(fid)
              && fid in completionsByFile && completionsByFile[fid] != []
              && completionsByFile[fid] == NodesOf(order, fid) && completionsByFile[fid][0] == orderHead
    {
      var fid := orderHead.completion.fileId;
      HeadFirst(order, fid);
      assert FileMatches(fid);
    }

    /** One round of the global drain. */
    method PopHead() returns (c: IoCompletion)
      requires Valid() && orderHead != null
      modifies this, order
      ensures Valid() && order == old(order)[1..] && c == old(order)[0].completion
    {
      HeadOfFile();
      hide NodesOf, Linked, FileMatches, OthersMatch, AllMatch, Contents, Within, NotOfFile, Without, Pending;
      var pc := orderHead;
      var fid := pc.completion.fileId;
      UnlinkFirst(pc, 0);
      c := PopFront(fid);
    }

    /** Every completion, oldest first. */
    method DrainAll() returns (out: seq<IoCompletion>)
      requires Valid()
      modifies this, order
      ensures Valid() && order == [] && out == old(Pending())
    {
      out := [];
      while orderHead != null
        invariant Valid()
        invariant Within(old(order))
        invariant out + Pending() == old(Pending())
        decreases |order|
      {
        ContentsPop(order);
        var c := PopHead();
        out := out + [c];
      }
    }

    /** While one file's list is being emptied. */
    ghost predicate Emptying(f: nat, left: seq<PendingCompletion>)
      reads this, order
    {
      Linked() && OthersMatch(f) && f in completionsByFile && NodesOf(order, f) == left
    }

    /** One round of the per-file drain. */
    method PopOfFile(f: nat) returns (c: IoCompletion)
      requires f in completionsByFile && completionsByFile[f] != [] && Emptying(f, completionsByFile[f])
      modifies this, order
      ensures f in completionsByFile && completionsByFile[f] == old(completionsByFile[f])[1..]
      ensures Emptying(f, completionsByFile[f]) && Within(old(order))
      ensures c == old(completionsByFile[f])[0].completion
      ensures NotOfFile(Pending(), f) == NotOfFile(old(Pending()), f)
    {
      var q := completionsByFile[f];
      NodesAreThere(order, f);
      assert q[0] in NodesOf(order, f);
      ghost var k := FirstOfFile(order, f);
      UnlinkFirst(q[0], k);
      label Unlinked:
      c := q[0].completion;
      completionsByFile := completionsByFile[f := q[1..]];
      hide NodesOf, Linked, NotOfFile, Contents;
      forall g: nat | g != f ensures FileMatches(g) {
        assert old@Unlinked(FileMatches(g));
      }
    }

    /** An emptied list is erased. */
    method EraseEmptied(f: nat)
      requires f in completionsByFile && Emptying(f, [])
      modifies this`completionsByFile
      ensures Valid() && Pending() == NotOfFile(Pending(), f)
    {
      completionsByFile := completionsByFile - {f};
      NoneOfFile(order, f);
      forall g: nat ensures FileMatches(g) {
        assert g != f ==> old(FileMatches(g));
      }
    }

    method EmptyList(f: nat) returns (out: seq<IoCompletion>)
      requires f in completionsByFile && Emptying(f, completionsByFile[f])
      modifies this, order
      ensures Valid() && Within(old(order))
      ensures out == Contents(old(completionsByFile[f])) && Pending() == NotOfFile(old(Pending()), f)
    {
      hide NodesOf, NotOfFile, Contents, Linked, FileMatches, OthersMatch;
      out := [];
      while completionsByFile[f] != []
        invariant f in completionsByFile && Emptying(f, completionsByFile[f])
        invariant Within(old(order))
        invariant out + Contents(completionsByFile[f]) == Contents(old(completionsByFile[f]))
        invariant NotOfFile(Pending(), f) == NotOfFile(old(Pending()), f)
        decreases |completionsByFile[f]|
      {
        ContentsPop(completionsByFile[f]);
        var c := PopOfFile(f);
        out := out + [c];
      }
      NoContents();
      EraseEmptied(f);
    }

    /** One file's completions, oldest first; every other file's stay as they are and where they are. */
    method DrainFile(f: nat) returns (out: seq<IoCompletion>)
      requires Valid()
      modifies this, order
      ensures Valid() && Within(old(order))
      ensures out == OfFile(old(Pending()), f) && Pending() == NotOfFile(old(Pending()), f)
    {
      ContentsOfFile(order, f);
      assert FileMatches(f);
      if f !in completionsByFile {
        NoneOfFile(order, f);
        NoContents();
        out := [];
      } else {
        out := EmptyList(f);
      }
    }

    method UnlinkListed(f: nat, pc: PendingCompletion, ghost left: seq<PendingCompletion>)
      requires left != [] && left[0] == pc && Emptying(f, left)
      modifies this`orderHead, this`orderTail, this`orderCount, this`order, order
      ensures Emptying(f, left[1..]) && Within(old(order))
      ensures NotOfFile(Pending(), f) == NotOfFile(old(Pending()), f)
    {
      NodesAreThere(order, f);
      assert pc in NodesOf(order, f);
      ghost var k := FirstOfFile(order, f);
      UnlinkFirst(pc, k);
    }

    /** Drops one file's completions: the release. */
    method ReleaseFileLocked(f: nat)
      requires Valid()
      modifies this, order
      ensures Valid() && Within(old(order))
      ensures Pending() == NotOfFile(old(Pending()), f)
    {
      assert FileMatches(f);
      if f in completionsByFile {
        var q := completionsByFile[f];
        var i := 0;
        hide NodesOf, OfFile, NotOfFile, Contents, Linked, FileMatches;
        while i < |q|
          invariant 0 <= i <= |q| && Emptying(f, q[i..])
          invariant Within(old(order))
          invariant NotOfFile(Pending(), f) == NotOfFile(old(Pending()), f)
        {
          UnlinkListed(f, q[i], q[i..]);
          i := i + 1;
        }
        EraseEmptied(f);
      } else {
        NoneOfFile(order, f);
      }
    }
  }

  lemma NoContents()
    ensures Contents([]) == []
  {
  }

  lemma HeadFirst(nodes: seq<PendingCompletion>, f: nat)
    requires nodes != [] && nodes[0].completion.fileId == f
    ensures NodesOf(nodes[..0], f) == [] && NodesOf(nodes, f) != [] && NodesOf(nodes, f)[0] == nodes[0]
  {
    assert nodes[..0] == [];
    WithoutFirst(nodes, 0, f, f);
  }
}
