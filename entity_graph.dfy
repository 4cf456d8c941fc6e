/** `EntityGraph` over the networkx backend: the lookup table from record ids to the ids of
    their canonical nodes, the ids of stub records awaiting their data, and the keyed
    multigraph holding the nodes. Every operation is proved to leave the graph in the state
    the functions of `GraphSpec` compute. */
module Graph {
  import opened Common
  import opened NodeModel
  import opened Backend
  import opened MergeSpec
  import opened GraphSpec
  import opened IntersectSpec

  class EntityGraph {
    /** The backend multigraph (the networkx half of `NetworkxEntityGraph`). */
    const network: Network
    /** `_id_to_canonical`. */
    var idToCanonical: map<Id, Id>
    /** `_info_pending`: the ids of the stub records added by `add_stub`. */
    var infoPending: set<Id>

    function State(): GraphState
      reads this, network
    {
      GraphState(network.nodes, network.edges, idToCanonical, infoPending)
    }

    ghost predicate Valid()
      reads this, network
    {
      Inv(State())
    }

    /** `NetworkxEntityGraph()`: an empty table, no pending stubs, an empty multigraph. */
    constructor ()
      ensures Valid() && fresh(network)
      ensures State() == GraphState(map[], {}, map[], {})
    {
      network := new Network();
      idToCanonical := map[];
      infoPending := {};
    }

    /** `proxy_id in G`. */
    predicate Contains(pid: Id)
      reads this
    {
      pid in idToCanonical
    }

    /** `len(G)`: the number of registered record ids. */
    function Len(): nat
      reads this
    {
      |idToCanonical|
    }

    /** `get_node(node_id)`; an absent id raises `KeyError`. */
    function GetNode(id: Id): (n: NodeState)
      requires Valid() && id in network.nodes
      reads this, network
      ensures n.id == id && n == State().nodes[id]
    {
      network.GetNode(id)
    }

    /** `get_node_by_proxy_id(pid)`: the node the table names for `pid`, which holds `pid`
        among its parts; an unregistered id raises `KeyError`. */
    function GetNodeByProxyId(pid: Id): (n: NodeState)
      requires Valid() && pid in idToCanonical
      reads this, network
      ensures n.id == idToCanonical[pid] && n == State().nodes[n.id]
      ensures pid in n.Parts()
    {
      network.GetNode(idToCanonical[pid])
    }

    /** `get_node_in_edges(node)`: in a valid graph the source of every in-edge is a
        stored node, so `get_node` finds it, and a node that is not stored has none. */
    function NodeInEdges(id: Id): (r: set<Edge>)
      reads this, network
      ensures forall e :: e in r <==> e in network.edges && e.tgt == id
      ensures Valid() ==> forall e | e in r :: e.src in State().nodes
      ensures Valid() && id !in network.nodes ==> r == {}
    {
      network.InEdges(id)
    }

    /** `get_node_out_edges(node)`: in a valid graph the target of every out-edge is a
        stored node, and a node that is not stored has none. */
    function NodeOutEdges(id: Id): (r: set<Edge>)
      reads this, network
      ensures forall e :: e in r <==> e in network.edges && e.src == id
      ensures Valid() ==> forall e | e in r :: e.tgt in State().nodes
      ensures Valid() && id !in network.nodes ==> r == {}
    {
      network.OutEdges(id)
    }

    /** `add_proxy(proxy, node_id)`; returns the node now holding the record and whether
        anything was added or merged. */
    method AddProxy(p: Proxy, nodeId: Option<Id>) returns (n: NodeState, isNew: bool)
      requires Valid()
      modifies this, network
      decreases |Unregistered(State())| + Bump(p, nodeId), 4 * Bump(p, nodeId), 2
      ensures Valid()
      ensures var r := AddProxyS(old(State()), p, nodeId);
        State() == r.state && n == r.node && isNew == r.isNew
    {
      if p.id in idToCanonical {
        var cur := GetNodeByProxyId(p.id);
        if nodeId.Some? && cur.id != nodeId.value {
          n := Reassign(p, nodeId.value);
          isNew := true;
        } else {
          n, isNew := cur, false;
        }
      } else {
        n := AddNew(p, nodeId);
        isNew := true;
      }
    }

    /** Lines 28-34 of `add_proxy`: the node named `x` (created holding the record if it is
        not stored) absorbs the record's current node. */
    method Reassign(p: Proxy, x: Id) returns (n: NodeState)
      requires Valid() && p.id in idToCanonical && idToCanonical[p.id] != x
      modifies this, network
      ensures Valid()
      ensures var r := ReassignS(old(State()), p, x); State() == r.state && n == r.node
    {
      ghost var g := State();
      var cur := GetNodeByProxyId(p.id);
      if !network.HasNode(x) {
        AddNodeOk(g.nodes, g.reg, SingleNode(x, p));
        network.AddNode(SingleNode(x, p));
      }
      assert MergeReady(State(), x, [cur.id]);
      n := MergeNodes(x, [cur.id]);
    }

    /** Lines 36-44 of `add_proxy` for a record whose id is not registered. */
    method AddNew(p: Proxy, nodeId: Option<Id>) returns (n: NodeState)
      requires Valid() && p.id !in idToCanonical
      modifies this, network
      decreases |Unregistered(State())| + Bump(p, nodeId), 4 * Bump(p, nodeId), 1
      ensures Valid()
      ensures var r := AddNewS(old(State()), p, nodeId); State() == r.state && n == r.node
    {
      ghost var g := State();
      var newId := if nodeId.Some? then nodeId.value else p.id;
      // a stored node under `newId` absorbs the new one in place
      var node := NewNode(State(), p, newId);
      network.AddNode(node);
      idToCanonical := idToCanonical[p.id := newId];
      AddNewSteps(g, p, nodeId, newId, State());
      ConnectEdges(node);
      n := GetNode(newId);
    }

    /** `add_stub(proxy_id)`: the node of a registered id, or the node of a new `Thing`
        stub record whose id is then marked pending. */
    method AddStub(pid: Id) returns (n: NodeState)
      requires Valid()
      modifies this, network
      decreases |Unregistered(State())|, 1, 0
      ensures Valid()
      ensures var r := StubS(old(State()), pid); State() == r.state && n == r.state.nodes[r.node]
    {
      if pid in idToCanonical {
        n := GetNodeByProxyId(pid);
      } else {
        ghost var g := State();
        var isNew;
        n, isNew := AddProxy(StubProxy(pid), None);
        ghost var a := Added(State(), n, isNew);
        infoPending := infoPending + {pid};
        StubNewStep(g, pid, a, State());
      }
    }

    /** One pass of a `connect_edges` loop: the node of `end` (a stub if `end` is not
        registered) linked to the edge node `id`, keyed by `id`. */
    method LinkEnd(id: Id, end: Id, incoming: bool)
      requires Valid() && id in network.nodes
      modifies this, network
      decreases |Unregistered(State())|, 2, 0
      ensures Valid() && State() == LinkS(old(State()), id, end, incoming)
    {
      var other;
      if end !in idToCanonical {
        other := AddStub(end);
      } else {
        other := GetNodeByProxyId(end);
      }
      if incoming {
        network.AddEdge(other.id, id, id);
      } else {
        network.AddEdge(id, other.id, id);
      }
    }

    /** `connect_edges(node)`: for an edge node, a link from every source, then a link to
        every target. */
    method ConnectEdges(n: NodeState)
      requires Valid() && n.id in network.nodes
      modifies this, network
      decreases |Unregistered(State())|, if n.IsEdge() then 3 else 0, 0
      ensures Valid() && State() == ConnectS(old(State()), n)
    {
      if n.IsEdge() {
        ghost var g0 := State();
        ConnectEnds(n.id, n.Sources(), true);
        ConnectEnds(n.id, n.Targets(), false);
      }
    }

    /** One loop of `connect_edges`: the link to each end in turn. */
    method ConnectEnds(id: Id, ends: seq<Id>, incoming: bool)
      requires Valid() && id in network.nodes
      modifies this, network
      decreases |Unregistered(State())|, 2, 1
      ensures Valid() && State() == EndsS(old(State()), id, ends, incoming)
    {
      ghost var g0 := State();
      var i := 0;
      EndsStart(g0, id, ends, incoming);
      while i < |ends|
        invariant 0 <= i <= |ends|
        invariant Valid() && id in network.nodes
        invariant EndsLoop(g0, State(), id, ends, i, incoming)
      {
        ghost var gi := State();
        LinkEnd(id, ends[i], incoming);
        EndsAdvance(g0, gi, State(), id, ends, i, incoming);
        i := i + 1;
      }
      EndsDone(g0, State(), id, ends, incoming);
    }

    /** One pass of `merge_nodes`: `right` folded into `left` (nothing when they are the
        same node). */
    method MergeOne(left: Id, right: Id)
      requires Valid() && left in network.nodes && right in network.nodes
      modifies this, network
      ensures State() == MergeStep(old(State()), left, right)
    {
      if left == right {
        return;
      }
      ghost var g := State();
      var r := network.GetNode(right);
      var merged := MergeNode(network.GetNode(left), r);
      // `left_node.merge(right_node)` changes the stored left node in place
      network.AddNode(merged);
      RepointParts(r.Parts(), left);
      ReattachIn(left, right);
      ReattachOut(left, right);
      network.RemoveNode(right);
      assert network.nodes == (g.nodes - {right})[left := merged];
    }

    /** `for pid in right_node.parts: self._id_to_canonical[pid] = left_node.id`. */
    method RepointParts(parts: seq<Id>, left: Id)
      modifies this
      ensures idToCanonical == Remap(old(idToCanonical), parts, left)
      ensures infoPending == old(infoPending)
    {
      ghost var reg := idToCanonical;
      var j := 0;
      while j < |parts|
        invariant 0 <= j <= |parts|
        invariant infoPending == old(infoPending)
        invariant idToCanonical == Remap(reg, parts[..j], left)
      {
        RemapStep(reg, parts[..j], parts[j], left);
        assert parts[..j + 1] == parts[..j] + [parts[j]];
        idToCanonical := idToCanonical[parts[j] := left];
        j := j + 1;
      }
      assert parts[..j] == parts;
    }

    /** The in-edge loop of `merge_nodes`: every `(s, right, k)` is added again as
        `(s, left, k)`. */
    method ReattachIn(left: Id, right: Id)
      requires network.Valid() && left in network.nodes && right in network.nodes
      modifies network
      ensures network.Valid() && network.nodes == old(network.nodes)
      ensures network.edges == old(network.edges) + Retarget(InOf(old(network.edges), right), left)
    {
      ghost var edges0 := network.edges;
      var ins := network.InEdges(right);
      var todo := ins;
      while todo != {}
        invariant todo <= ins
        invariant network.Valid() && network.nodes == old(network.nodes)
        invariant network.edges == edges0 + Retarget(ins - todo, left)
        decreases todo
      {
        var e :| e in todo;
        network.AddEdge(e.src, left, e.key);
        RetargetStep(ins - todo, e, left);
        assert ins - (todo - {e}) == (ins - todo) + {e};
        todo := todo - {e};
      }
      assert ins - todo == InOf(edges0, right);
    }

    /** The out-edge loop of `merge_nodes`: every `(right, t, k)`, read after the in-edge
        loop, is added again as `(left, t, k)`. */
    method ReattachOut(left: Id, right: Id)
      requires network.Valid() && left in network.nodes && right in network.nodes
      modifies network
      ensures network.Valid() && network.nodes == old(network.nodes)
      ensures network.edges == old(network.edges) + Resource(OutOf(old(network.edges), right), left)
    {
      ghost var edges0 := network.edges;
      var outs := network.OutEdges(right);
      var todo := outs;
      while todo != {}
        invariant todo <= outs
        invariant network.Valid() && network.nodes == old(network.nodes)
        invariant network.edges == edges0 + Resource(outs - todo, left)
        decreases todo
      {
        var e :| e in todo;
        network.AddEdge(left, e.tgt, e.key);
        ResourceStep(outs - todo, e, left);
        assert outs - (todo - {e}) == (outs - todo) + {e};
        todo := todo - {e};
      }
      assert outs - todo == OutOf(edges0, right);
    }

    /** `merge_nodes(left, *rights)`: each right node in turn folded into `left`; returns
        the left node. */
    method MergeNodes(left: Id, rights: seq<Id>) returns (n: NodeState)
      requires MergeReady(State(), left, rights)
      modifies this, network
      ensures Valid() && State() == MergeFold(old(State()), left, rights)
      ensures left in State().nodes
      ensures n.id == left && n == State().nodes[left]
    {
      ghost var g0 := State();
      MergeFoldOk(g0, left, rights);
      var i := 0;
      while i < |rights|
        invariant 0 <= i <= |rights|
        invariant MergeReady(State(), left, rights[i..])
        invariant MergeFold(State(), left, rights[i..]) == MergeFold(g0, left, rights)
      {
        MergeRestReady(State(), left, rights[i..]);
        assert rights[i..][1..] == rights[i + 1..];
        MergeOne(left, rights[i]);
        i := i + 1;
      }
      assert rights[i..] == [];
      n := GetNode(left);
    }

    /** `merge_proxies(*pids)`: the node of every record, looked up first, then
        `merge_nodes` into the first record's node. A call with no records fails in Python
        (`merge_nodes` needs a left node), and so does one whose records other than those
        of the first node share a node: that node would be removed twice. */
    method MergeProxies(pids: seq<Id>) returns (n: NodeState)
      requires Valid() && |pids| > 0 && forall i | 0 <= i < |pids| :: pids[i] in idToCanonical
      requires var ids := NodeIdsOf(State(), pids); MergeReady(State(), ids[0], ids[1..])
      modifies this, network
      ensures Valid() && State() == MergeProxiesS(old(State()), pids)
      ensures var ids := NodeIdsOf(old(State()), pids); n.id == ids[0] && n.id in State().nodes && n == State().nodes[n.id]
    {
      ghost var g := State();
      var ids := [];
      var i := 0;
      while i < |pids|
        invariant 0 <= i <= |pids|
        invariant ids == NodeIdsOf(g, pids[..i])
      {
        var node := GetNodeByProxyId(pids[i]);
        ids := ids + [node.id];
        i := i + 1;
      }
      assert pids[..i] == pids;
      n := MergeNodes(ids[0], ids[1..]);
    }

    /** `ensure_flag(**fv)`: `ensure_flag` on every stored node, in place. */
    method EnsureFlag(fv: Flags)
      requires Valid()
      modifies network
      ensures Valid() && State() == EnsureFlagS(old(State()), fv)
    {
      ghost var g := State();
      var todo := network.nodes.Keys;
      while todo != {}
        invariant todo <= g.nodes.Keys
        invariant network.Valid() && network.edges == g.edges && network.nodes.Keys == g.nodes.Keys
        invariant forall k | k in network.nodes ::
          network.nodes[k] == if k in todo then g.nodes[k] else g.nodes[k].(flags := FlagsEnsured(g.nodes[k].flags, fv))
        decreases todo
      {
        var k :| k in todo;
        var node := network.GetNode(k);
        network.AddNode(node.(flags := FlagsEnsured(node.flags, fv)));
        todo := todo - {k};
      }
      assert network.nodes == EnsureFlagS(g, fv).nodes;
    }

    /** `add_proxies(proxies)`: `add_proxy` on each record in turn; the `(node, is_new)`
        pairs in order. */
    method AddProxies(ps: seq<Proxy>) returns (rs: seq<(NodeState, bool)>)
      requires Valid()
      modifies this, network
      ensures Valid()
      ensures var r := AddProxiesS(old(State()), ps); State() == r.state && rs == r.results
    {
      ghost var g := State();
      rs := [];
      var i := 0;
      AddProxiesStart(g, ps);
      while i < |ps|
        invariant 0 <= i <= |ps|
        invariant Valid()
        invariant AddProxiesLoop(g, State(), ps, i, rs)
      {
        ghost var gi := State();
        var n, isNew := AddProxy(ps[i], None);
        AddProxiesAdvance(g, gi, ps, i, rs, AddProxyS(gi, ps[i], None));
        rs := rs + [(n, isNew)];
        i := i + 1;
      }
      AddProxiesDone(g, State(), ps, rs);
    }

    /** `intersect(*graphs)`: a new graph holding, for every record id that some node of
        every input graph holds, a node merged from the nodes holding it in all of them,
        registered under the first graph's node id and wired to its endpoints. The input
        graphs are read only, so they are passed as their states. */
    static method Intersect(gs: seq<GraphState>) returns (G: EntityGraph)
      requires |gs| > 0 && forall i | 0 <= i < |gs| :: Inv(gs[i])
      requires IdsAreParts(gs[0])
      ensures fresh(G) && fresh(G.network) && G.Valid()
      ensures KeepIds(gs) <= G.idToCanonical.Keys <= KeptParts(gs) + G.infoPending
    {
      var keep := KeepOf(gs);
      G := new EntityGraph();
      var seen: set<Id> := {};
      ghost var done: set<Id> := {};
      var todo := keep;
      IntersectStart(gs);
      while todo != {}
        invariant fresh(G) && fresh(G.network) && G.Valid()
        invariant IntersectLoop(gs, todo, seen, done, G.State())
        decreases todo
      {
        var k :| k in todo;
        if k in seen {
          IntersectSkip(gs, todo, seen, done, G.State(), k);
          todo := todo - {k};
        } else {
          ghost var st := G.State();
          IntersectStore(gs, todo, seen, done, st, k);
          var node, parts := IntersectGroup(gs, k);
          G.PlaceGroup(node);
          IntersectAdvance(gs, todo, seen, done, st, k, G.State());
          seen := seen + parts;
          done := done + {node.id};
          todo := todo - {k};
        }
      }
      IntersectDone(gs, seen, done, G.State());
    }

    /** Lines 112-114 of `intersect`: the merged node stored, every one of its record ids
        registered to it, and its edges connected. */
    method PlaceGroup(node: NodeState)
      requires Valid() && Inv(StoreGroup(State(), node))
      modifies this, network
      ensures Valid() && State() == ConnectS(StoreGroup(old(State()), node), node)
    {
      network.AddNode(node);
      idToCanonical := idToCanonical + map p | p in node.Parts() :: node.id;
      assert State() == StoreGroup(old(State()), node);
      ConnectEdges(node);
    }

    /** The inner loop of `intersect` for the kept id `k`: the node holding `k` in each
        graph in turn, its parts added to the seen ids and the node merged into the new
        one. */
    static method IntersectGroup(gs: seq<GraphState>, k: Id) returns (node: NodeState, parts: set<Id>)
      requires |gs| > 0 && AllRegister(gs, k)
      ensures node == GroupNode(gs, k) && parts == GroupParts(gs, k)
    {
      var cur := NodeOf(gs[0], k);
      node := Adopt(cur);
      parts := PartSet(cur);
      GroupStart(gs, k);
      var i := 1;
      while i < |gs|
        invariant 1 <= i <= |gs|
        invariant GroupLoop(gs, k, i, node, parts)
      {
        cur := NodeOf(gs[i], k);
        GroupAdvance(gs, k, i, node, parts);
        parts := parts + PartSet(cur);
        node := MergeNode(node, cur);
        i := i + 1;
      }
      GroupDone(gs, k, node, parts);
    }

    /** Lines 96-100 of `intersect`: the record ids of the first graph, intersected with
        those of each later graph. */
    static method KeepOf(gs: seq<GraphState>) returns (keep: set<Id>)
      requires |gs| > 0
      ensures keep == KeepIds(gs)
    {
      keep := PartsOf(gs[0]);
      var i := 1;
      while i < |gs|
        invariant 1 <= i <= |gs|
        invariant keep == KeepIds(gs[..i])
      {
        assert gs[..i + 1][..i] == gs[..i];
        keep := keep * PartsOf(gs[i]);
        i := i + 1;
      }
      assert gs[..i] == gs;
    }

    /** `nodes(**flags)`: the stored nodes whose flags match. In a valid graph each is
        keyed by its own id and every record it holds is in the graph. */
    function Nodes(query: Flags): (r: map<Id, NodeState>)
      reads this, network
      ensures forall k :: k in r <==> k in network.nodes && FlagsMatch(network.nodes[k].flags, query)
      ensures forall k | k in r :: r[k] == network.nodes[k]
      ensures Valid() ==> forall k | k in r :: r[k].id == k && forall p | p in r[k].Parts() :: Contains(p)
    {
      network.IterNodes(query)
    }

    /** `edges()`: every stored edge; in a valid graph each joins two stored nodes. */
    function Edges(): (r: set<Edge>)
      reads this, network
      ensures r == network.edges
      ensures Valid() ==> forall e | e in r :: e.src in State().nodes && e.tgt in State().nodes
    {
      network.IterEdges(map[])
    }
  }
}
