/** Properties of `EntityGraph` stated over the functions of `GraphSpec`: what `add_proxy`
    does to a seen and to an unseen record, the links `connect_edges` wires and what
    `add_stub` does to an id already present. */
module GraphProps {
  import opened Common
  import opened NodeModel
  import opened Backend
  import opened GraphSpec

  /** Re-adding a registered record with no `node_id`, or with the id of its current node,
      returns that node, reports nothing new and changes nothing. */
  lemma AddProxySeen(g: GraphState, p: Proxy, nodeId: Option<Id>)
    requires Inv(g) && p.id in g.reg
    requires nodeId.None? || nodeId.value == g.reg[p.id]
    ensures var r := AddProxyS(g, p, nodeId);
      r.state == g && r.node == g.nodes[g.reg[p.id]] && !r.isNew
  {
  }

  /** Adding an unseen record registers it (`proxy.id in G`) to the returned node, whose
      id is `node_id` when given and the record's own id otherwise, reports it new, and
      `len(G)` grows. */
  lemma AddProxyUnseen(g: GraphState, p: Proxy, nodeId: Option<Id>, r: Added)
    requires Inv(g) && p.id !in g.reg && r == AddProxyS(g, p, nodeId)
    ensures p.id in r.state.reg && r.state.reg[p.id] == r.node.id
    ensures r.node.id == (if nodeId.Some? then nodeId.value else p.id)
    ensures r.node.id in r.state.nodes && r.isNew
    ensures |r.state.reg| > |g.reg|
  {
    assert r == AddNewS(g, p, nodeId);
    var a, b := g.reg.Keys, r.state.reg.Keys;
    assert a + {p.id} <= b;
    CardMonotone(a + {p.id}, b);
  }

  /** A link present after one step of a loop is still present after the rest. */
  lemma LinkKept(g1: GraphState, h: GraphState, id: Id, end: Id, incoming: bool)
    requires Grows(g1, h) && end in g1.reg && Link(id, g1.reg[end], incoming) in g1.edges
    ensures end in h.reg && Link(id, h.reg[end], incoming) in h.edges
  {
  }

  /** One loop of `connect_edges` links the edge node to the node now holding every end,
      keyed by the edge node's id. */
  lemma {:induction false} EndsLinks(g: GraphState, id: Id, ends: seq<Id>, incoming: bool, h: GraphState)
    requires Inv(g) && id in g.nodes && h == EndsS(g, id, ends, incoming)
    ensures forall j | 0 <= j < |ends| :: ends[j] in h.reg && Link(id, h.reg[ends[j]], incoming) in h.edges
    decreases |ends|
  {
    if ends != [] {
      var g1 := LinkS(g, id, ends[0], incoming);
      var rest := ends[1..];
      assert h == EndsS(g1, id, rest, incoming);
      EndsLinks(g1, id, rest, incoming, h);
      LinkKept(g1, h, id, ends[0], incoming);
      forall j | 0 < j < |ends|
        ensures ends[j] in h.reg && Link(id, h.reg[ends[j]], incoming) in h.edges
      {
        TailIndex(ends, j);
      }
    }
  }

  /** `connect_edges` on an edge node adds a `source -> node` edge for every source and a
      `node -> target` edge for every target, keyed by the node's id; the endpoints are
      registered (as stubs if they were unseen) so no edge dangles. */
  lemma ConnectLinks(g: GraphState, n: NodeState, h: GraphState)
    requires Inv(g) && n.id in g.nodes && n.IsEdge() && h == ConnectS(g, n)
    ensures forall s | s in n.Sources() :: s in h.reg && Edge(h.reg[s], n.id, n.id) in h.edges
    ensures forall t | t in n.Targets() :: t in h.reg && Edge(n.id, h.reg[t], n.id) in h.edges
  {
    var g1 := EndsS(g, n.id, n.Sources(), true);
    assert h == EndsS(g1, n.id, n.Targets(), false);
    EndsLinks(g, n.id, n.Sources(), true, g1);
    EndsLinks(g1, n.id, n.Targets(), false, h);
    forall s | s in n.Sources()
      ensures s in h.reg && Edge(h.reg[s], n.id, n.id) in h.edges
    {
      MemberLinked(g1, n.id, n.Sources(), true, s);
      LinkKept(g1, h, n.id, s, true);
    }
    forall t | t in n.Targets()
      ensures t in h.reg && Edge(n.id, h.reg[t], n.id) in h.edges
    {
      MemberLinked(h, n.id, n.Targets(), false, t);
    }
  }

  /** The link to an end, found by value rather than by position. */
  lemma MemberLinked(h: GraphState, id: Id, ends: seq<Id>, incoming: bool, x: Id)
    requires forall j | 0 <= j < |ends| :: ends[j] in h.reg && Link(id, h.reg[ends[j]], incoming) in h.edges
    requires x in ends
    ensures x in h.reg && Link(id, h.reg[x], incoming) in h.edges
  {
    var j :| 0 <= j < |ends| && ends[j] == x;
  }

  /** `add_stub` on an id already present returns the node holding it and changes nothing,
      the pending stubs included. */
  lemma StubSeen(g: GraphState, s: Id)
    requires Inv(g) && s in g.reg
    ensures StubS(g, s) == Stubbed(g, g.reg[s])
  {
  }

  /** `merge_nodes` never changes `len(G)`, and every registered id still maps to a live
      node holding it. */
  lemma MergeKeepsLen(g: GraphState, left: Id, rights: seq<Id>)
    requires MergeReady(g, left, rights)
    ensures var h := MergeFold(g, left, rights);
      |h.reg| == |g.reg| && (forall p | p in h.reg :: h.reg[p] in h.nodes && p in h.nodes[h.reg[p]].Parts())
  {
    MergeFoldOk(g, left, rights);
    var h := MergeFold(g, left, rights);
    assert |h.reg| == |h.reg.Keys| && |g.reg| == |g.reg.Keys|;
  }

  /** `merge_nodes(left, left, ...)`: a right node equal to the left one is skipped, so a
      merge of a node with itself changes nothing. */
  lemma {:induction false} MergeSelfNoop(g: GraphState, left: Id, rights: seq<Id>)
    requires forall i | 0 <= i < |rights| :: rights[i] == left
    ensures MergeFold(g, left, rights) == g
    decreases |rights|
  {
    if rights != [] {
      assert MergeStep(g, left, rights[0]) == g;
      MergeSelfNoop(g, left, rights[1..]);
    }
  }
}
