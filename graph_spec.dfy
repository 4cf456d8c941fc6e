/** The operations of the entity graph on values: what `add_proxy`, `add_stub`,
    `connect_edges` and `merge_nodes` do to the stored nodes, the keyed edges, the lookup
    table and the pending stubs, and what that amounts to. The methods of
    `Graph.EntityGraph` are proved to compute exactly these functions. */
module GraphSpec {
  import opened Common
  import opened NodeModel
  import opened Backend
  import opened MergeSpec

  /** The whole state of a graph: the stored nodes, the keyed edges, the lookup table
      `_id_to_canonical` and the set `_info_pending` of stub ids. */
  datatype GraphState = GraphState(nodes: map<Id, NodeState>, edges: set<Edge>, reg: map<Id, Id>, pending: set<Id>)

  /** The lookup table is sound (every registered id maps to a live node that contains it)
      and complete (every part of every node is registered). */
  ghost predicate RegOk(nodes: map<Id, NodeState>, reg: map<Id, Id>)
  {
    && (forall p | p in reg :: reg[p] in nodes && p in nodes[reg[p]].Parts())
    && (forall k, p | k in nodes && p in nodes[k].Parts() :: p in reg)
  }

  /** The invariant of every graph: no dangling edge, nodes stored under their own ids,
      and a sound and complete lookup table. */
  ghost predicate Inv(g: GraphState)
  {
    NetOk(g.nodes, g.edges) && RegOk(g.nodes, g.reg)
  }

  /** The node ids that are not registered proxy ids. Registration never enlarges this set
      unless an explicit `node_id` names a new node, which bounds the recursion of
      `add_proxy` through `connect_edges` and `add_stub`. */
  function Unregistered(g: GraphState): set<Id>
  {
    g.nodes.Keys - g.reg.Keys
  }

  /** `b` keeps every entry of `a` unchanged (and may add more). */
  ghost predicate Extends(a: map<Id, Id>, b: map<Id, Id>)
  {
    forall k | k in a :: k in b && b[k] == a[k]
  }

  /** `h` only adds to `g`: no registration changes and no node, edge or pending stub
      goes. */
  ghost predicate Grows(g: GraphState, h: GraphState)
  {
    && Extends(g.reg, h.reg)
    && g.nodes.Keys <= h.nodes.Keys
    && g.edges <= h.edges
    && g.pending <= h.pending
  }

  /** Every id registered in `h` but not in `g` is a stub id: registered to the node of
      its own id and pending. */
  ghost predicate NewStubs(g: GraphState, h: GraphState)
  {
    forall q | q in h.reg && q !in g.reg :: h.reg[q] == q && q in h.pending
  }

  /** `NewStubs` composes along growth. */
  lemma NewStubsTrans(a: GraphState, b: GraphState, c: GraphState)
    requires Grows(a, b) && Grows(b, c) && NewStubs(a, b) && NewStubs(b, c)
    ensures NewStubs(a, c)
  {
  }

  /** Storing node `n` under `id`, where `n` has the parts of the node stored there before
      (if any) plus `pid`, and registering `pid` to `id`, keeps the table sound and complete. */
  lemma AddPartOk(nodes: map<Id, NodeState>, reg: map<Id, Id>, id: Id, n: NodeState, pid: Id)
    requires RegOk(nodes, reg)
    requires n.Parts() == (if id in nodes then nodes[id].Parts() else []) + [pid]
    ensures RegOk(nodes[id := n], reg[pid := id])
  {
    var nodes', reg' := nodes[id := n], reg[pid := id];
    forall p | p in reg'
      ensures reg'[p] in nodes' && p in nodes'[reg'[p]].Parts()
    {
      if p != pid && reg[p] == id {
        assert p in nodes[id].Parts();
      }
    }
  }

  /** Storing a new node all of whose parts are already registered keeps the table sound
      and complete. */
  lemma AddNodeOk(nodes: map<Id, NodeState>, reg: map<Id, Id>, n: NodeState)
    requires RegOk(nodes, reg) && n.id !in nodes
    requires forall p | p in n.Parts() :: p in reg
    ensures RegOk(nodes[n.id := n], reg)
  {
  }

  /** `Grows` is transitive. */
  lemma GrowsTrans(a: GraphState, b: GraphState, c: GraphState)
    ensures Grows(a, b) && Grows(b, c) ==> Grows(a, c)
  {
  }

  /** The node `add_proxy` stores for a record `p` whose id is not registered: the node
      already stored under `newId` with `p` appended, or a new node holding only `p`. */
  function NewNode(g: GraphState, p: Proxy, newId: Id): (n: NodeState)
    requires Inv(g)
    ensures n.id == newId
    ensures n.Parts() == (if newId in g.nodes then g.nodes[newId].Parts() else []) + [p.id]
  {
    var single := SingleNode(newId, p);
    IdsAppend(if newId in g.nodes then g.nodes[newId].proxies else [], [p]);
    assert [] + [p] == [p];
    if newId in g.nodes then MergeNode(g.nodes[newId], single) else single
  }

  /** A record `p` whose id is not registered, stored under `newId` (merged into the node
      already stored there, if any) and registered: lines 36-42 of `add_proxy`. */
  function Register(g: GraphState, p: Proxy, newId: Id): (h: GraphState)
    requires Inv(g) && p.id !in g.reg
    ensures Inv(h) && newId in h.nodes
    ensures h.reg == g.reg[p.id := newId] && h.edges == g.edges && h.pending == g.pending
    ensures h.nodes == g.nodes[newId := NewNode(g, p, newId)]
    ensures Unregistered(h) == (g.nodes.Keys + {newId}) - (g.reg.Keys + {p.id})
  {
    var n := NewNode(g, p, newId);
    AddPartOk(g.nodes, g.reg, newId, n, p.id);
    g.(nodes := g.nodes[newId := n], reg := g.reg[p.id := newId])
  }

  /** Storing a node under `newId` and registering `pid` (not registered before) adds at
      most `newId` to the unregistered node ids and removes `pid` from them. */
  lemma UnregisteredBound(nodes: set<Id>, reg: set<Id>, newId: Id, pid: Id)
    requires pid !in reg
    ensures |(nodes + {newId}) - (reg + {pid})| <= |nodes - reg| + 1
    ensures newId == pid ==> (nodes + {newId}) - (reg + {pid}) <= nodes - reg
    ensures newId == pid && pid in nodes ==> |(nodes + {newId}) - (reg + {pid})| < |nodes - reg|
  {
    var u0, u1 := nodes - reg, (nodes + {newId}) - (reg + {pid});
    assert u1 <= u0 + {newId};
    CardMonotone(u1, u0 + {newId});
    if newId == pid {
      assert u1 <= u0 - {pid};
      CardMonotone(u1, u0 - {pid});
    }
  }

  /** Registering `p` adds at most `newId` to the unregistered node ids and removes `p`'s
      id from them; with no explicit node id nothing is added, and a stored node under the
      record's own id was unregistered before. */
  lemma RegisterMeasure(g: GraphState, p: Proxy, nodeId: Option<Id>)
    requires Inv(g) && p.id !in g.reg
    ensures var newId := if nodeId.Some? then nodeId.value else p.id;
      var h := Register(g, p, newId);
      && |Unregistered(h)| <= |Unregistered(g)| + 1
      && (nodeId.None? ==> Unregistered(h) <= Unregistered(g) && |Unregistered(h)| <= |Unregistered(g)|)
      && (nodeId.None? && p.id in g.nodes ==> |Unregistered(h)| < |Unregistered(g)|)
      && (Bump(p, nodeId) == 0 && h.nodes[newId].IsEdge() ==> |Unregistered(h)| < |Unregistered(g)|)
  {
    var newId := if nodeId.Some? then nodeId.value else p.id;
    UnregisteredBound(g.nodes.Keys, g.reg.Keys, newId, p.id);
    if nodeId.None? {
      CardMonotone(Unregistered(Register(g, p, newId)), Unregistered(g));
    }
  }

  /** `add_proxy` for an unregistered record, step by step: the node stored under the
      new id, the registration, and `connect_edges` on the stored node (which does nothing
      for a node that is not an edge); the unregistered node ids grow by at most the
      `Bump`, and strictly shrink when an edge node arises without one. */
  lemma AddNewSteps(g: GraphState, p: Proxy, nodeId: Option<Id>, newId: Id, g1: GraphState)
    requires Inv(g) && p.id !in g.reg
    requires newId == if nodeId.Some? then nodeId.value else p.id
    requires g1 == g.(nodes := g.nodes[newId := NewNode(g, p, newId)], reg := g.reg[p.id := newId])
    ensures Inv(g1) && newId in g1.nodes && g1.nodes[newId].id == newId
    ensures |Unregistered(g1)| <= |Unregistered(g)| + Bump(p, nodeId)
    ensures g1.nodes[newId].IsEdge() && Bump(p, nodeId) == 0 ==> |Unregistered(g1)| < |Unregistered(g)|
    ensures var g2 := ConnectS(g1, g1.nodes[newId]);
      AddNewS(g, p, nodeId) == Added(g2, g2.nodes[newId], true)
  {
    RegisterMeasure(g, p, nodeId);
    assert Register(g, p, newId) == g1;
  }

  /** The invariant of a `connect_edges` loop after `i` passes from `g0`: the graph is
      well formed, no unregistered node id was added, and the passes left take the graph
      where all of them take `g0`. */
  ghost predicate EndsLoop(g0: GraphState, g: GraphState, id: Id, ends: seq<Id>, i: nat, incoming: bool)
    requires Inv(g0) && id in g0.nodes && i <= |ends|
  {
    Inv(g) && id in g.nodes && |Unregistered(g)| <= |Unregistered(g0)|
    && EndsS(g, id, ends[i..], incoming) == EndsS(g0, id, ends, incoming)
  }

  /** Before the first pass the loop invariant holds. */
  lemma EndsStart(g0: GraphState, id: Id, ends: seq<Id>, incoming: bool)
    requires Inv(g0) && id in g0.nodes
    ensures EndsLoop(g0, g0, id, ends, 0, incoming)
  {
    assert ends[0..] == ends;
  }

  /** After the last pass the graph is the one the whole loop computes. */
  lemma EndsDone(g0: GraphState, g: GraphState, id: Id, ends: seq<Id>, incoming: bool)
    requires Inv(g0) && id in g0.nodes
    requires EndsLoop(g0, g, id, ends, |ends|, incoming)
    ensures g == EndsS(g0, id, ends, incoming)
  {
    assert ends[|ends|..] == [];
  }

  /** One more pass keeps the loop invariant. */
  lemma EndsAdvance(g0: GraphState, g: GraphState, h: GraphState, id: Id, ends: seq<Id>, i: nat, incoming: bool)
    requires Inv(g0) && id in g0.nodes && i < |ends|
    requires EndsLoop(g0, g, id, ends, i, incoming)
    requires h == LinkS(g, id, ends[i], incoming)
    ensures EndsLoop(g0, h, id, ends, i + 1, incoming)
  {
    assert ends[i..][1..] == ends[i + 1..];
  }

  /** One step of `merge_nodes` on the state: `right` folded into `left`. A step with
      `left == right` (or a node that is not stored) changes nothing. */
  function MergeStep(g: GraphState, left: Id, right: Id): GraphState
  {
    if left == right || left !in g.nodes || right !in g.nodes then g
    else g.(nodes := (g.nodes - {right})[left := MergeNode(g.nodes[left], g.nodes[right])],
            edges := MergeEdges(g.edges, left, right),
            reg := Remap(g.reg, g.nodes[right].Parts(), left))
  }

  /** `merge_nodes(left, *rights)` on the state: the steps in order. */
  function MergeFold(g: GraphState, left: Id, rights: seq<Id>): GraphState
    decreases |rights|
  {
    if rights == [] then g else MergeFold(MergeStep(g, left, rights[0]), left, rights[1..])
  }

  /** A merge of two distinct stored nodes keeps the lookup table sound and complete and
      registers no new id. */
  lemma MergeRegOk(g: GraphState, left: Id, right: Id)
    requires Inv(g) && left in g.nodes && right in g.nodes && left != right
    ensures RegOk(MergeStep(g, left, right).nodes, MergeStep(g, left, right).reg)
    ensures MergeStep(g, left, right).reg.Keys == g.reg.Keys
  {
    var h := MergeStep(g, left, right);
    var rparts := g.nodes[right].Parts();
    IdsAppend(g.nodes[left].proxies, g.nodes[right].proxies);
    assert h.nodes[left].Parts() == g.nodes[left].Parts() + rparts;
    forall p | p in h.reg
      ensures h.reg[p] in h.nodes && p in h.nodes[h.reg[p]].Parts()
    {
      if p !in rparts {
        assert g.reg[p] != right;
        if g.reg[p] == left {
          assert p in g.nodes[left].Parts();
        }
      }
    }
  }

  /** A merge of two distinct stored nodes leaves no edge dangling. */
  lemma MergeNetOk(g: GraphState, left: Id, right: Id)
    requires Inv(g) && left in g.nodes && right in g.nodes && left != right
    ensures NetOk(MergeStep(g, left, right).nodes, MergeStep(g, left, right).edges)
  {
    var h := MergeStep(g, left, right);
    MergeEdgesIsRedirect(g.edges, left, right);
    forall e | e in h.edges
      ensures e.src in h.nodes && e.tgt in h.nodes
    {
      var f :| f in g.edges && e == Redirect(f, left, right);
    }
  }

  /** After a merge, every id that pointed at `left` or `right` points at `left` and
      every other entry is unchanged. */
  lemma MergeRegMoves(g: GraphState, left: Id, right: Id)
    requires Inv(g) && left in g.nodes && right in g.nodes && left != right
    ensures forall p | p in g.reg && (g.reg[p] == left || g.reg[p] == right) :: MergeStep(g, left, right).reg[p] == left
    ensures forall p | p in g.reg && p !in g.nodes[right].Parts() :: MergeStep(g, left, right).reg[p] == g.reg[p]
    ensures forall p | p in g.reg :: MergeStep(g, left, right).reg[p] == left || MergeStep(g, left, right).reg[p] == g.reg[p]
  {
    var rparts := g.nodes[right].Parts();
    forall p | p in g.reg && g.reg[p] == right
      ensures p in rparts
    {
    }
  }

  /** A merge step keeps the invariant and the set of registered ids, keeps the left node
      and removes the right one, sends every id that pointed at `left` or `right` to
      `left`, and leaves every other entry and the pending stubs alone. */
  lemma MergeStepOk(g: GraphState, left: Id, right: Id)
    requires Inv(g) && left in g.nodes
    ensures var h := MergeStep(g, left, right);
      && Inv(h)
      && h.reg.Keys == g.reg.Keys
      && h.pending == g.pending
      && (forall k :: k in h.nodes <==> k in g.nodes && (k == left || k != right))
      && (forall k | k in h.nodes && k != left :: h.nodes[k] == g.nodes[k])
      && (forall p | p in g.reg && (g.reg[p] == left || g.reg[p] == right) :: h.reg[p] == left)
      && (forall p | p in g.reg :: h.reg[p] == left || h.reg[p] == g.reg[p])
      && (right in g.nodes ==> forall p | p in g.reg && p !in g.nodes[right].Parts() :: h.reg[p] == g.reg[p])
  {
    if left != right && right in g.nodes {
      MergeRegOk(g, left, right);
      MergeNetOk(g, left, right);
      MergeRegMoves(g, left, right);
    }
  }

  /** `p` is a part of one of the right nodes (other than `left`) of `merge_nodes`. */
  ghost predicate MovedBy(g: GraphState, left: Id, rights: seq<Id>, p: Id)
  {
    exists j | 0 <= j < |rights| :: rights[j] != left && rights[j] in g.nodes && p in g.nodes[rights[j]].Parts()
  }

  /** What `merge_nodes(left, *rights)` needs: `left` and every right stored, and the
      rights other than `left` pairwise distinct. */
  ghost predicate MergeReady(g: GraphState, left: Id, rights: seq<Id>)
  {
    && Inv(g) && left in g.nodes
    && (forall j | 0 <= j < |rights| :: rights[j] in g.nodes)
    && (forall i, j | 0 <= i < j < |rights| && rights[i] != left :: rights[i] != rights[j])
  }

  /** After the first step of a merge the remaining rights are ready to be merged. */
  lemma MergeRestReady(g: GraphState, left: Id, rights: seq<Id>)
    requires MergeReady(g, left, rights) && rights != []
    ensures MergeReady(MergeStep(g, left, rights[0]), left, rights[1..])
  {
    var g1 := MergeStep(g, left, rights[0]);
    MergeStepOk(g, left, rights[0]);
    var rest := rights[1..];
    forall j | 0 <= j < |rest|
      ensures rest[j] in g1.nodes
    {
      assert rest[j] == rights[j + 1];
      assert rest[j] != rights[0] || rest[j] == left;
    }
    forall i, j | 0 <= i < j < |rest| && rest[i] != left
      ensures rest[i] != rest[j]
    {
      assert rest[i] == rights[i + 1] && rest[j] == rights[j + 1];
    }
  }

  /** `merge_nodes(left, *rights)` keeps the invariant, registers no id and loses none
      (`len(G)` is unchanged), removes exactly the rights other than `left` and leaves the
      pending stubs untouched. */
  lemma {:induction false} MergeFoldOk(g: GraphState, left: Id, rights: seq<Id>)
    requires MergeReady(g, left, rights)
    ensures var h := MergeFold(g, left, rights);
      && Inv(h) && left in h.nodes
      && h.reg.Keys == g.reg.Keys
      && h.pending == g.pending
      && (forall k :: k in h.nodes <==> k in g.nodes && (k == left || k !in rights))
    decreases |rights|
  {
    if rights != [] {
      MergeStepOk(g, left, rights[0]);
      MergeRestReady(g, left, rights);
      MergeFoldOk(MergeStep(g, left, rights[0]), left, rights[1..]);
      assert forall x :: x in rights <==> x == rights[0] || x in rights[1..];
    }
  }

  /** After `merge_nodes(left, *rights)` every id that pointed at `left` or at a right node
      points at `left`. */
  lemma {:induction false} MergeFoldRedirects(g: GraphState, left: Id, rights: seq<Id>)
    requires MergeReady(g, left, rights)
    ensures var h := MergeFold(g, left, rights);
      forall p | p in g.reg && (g.reg[p] == left || g.reg[p] in rights) :: p in h.reg && h.reg[p] == left
    decreases |rights|
  {
    if rights != [] {
      var g1 := MergeStep(g, left, rights[0]);
      MergeStepOk(g, left, rights[0]);
      MergeRestReady(g, left, rights);
      MergeFoldRedirects(g1, left, rights[1..]);
      MergeFoldOk(g1, left, rights[1..]);
      forall p | p in g.reg && (g.reg[p] == left || g.reg[p] in rights)
        ensures p in g1.reg && (g1.reg[p] == left || g1.reg[p] in rights[1..])
      {
        assert g.reg[p] == left || g.reg[p] == rights[0] || g.reg[p] in rights[1..];
      }
    }
  }

  /** After `merge_nodes(left, *rights)` an id that is not a part of any right node other
      than `left` keeps its entry. */
  lemma {:induction false} MergeFoldKeeps(g: GraphState, left: Id, rights: seq<Id>)
    requires MergeReady(g, left, rights)
    ensures var h := MergeFold(g, left, rights);
      forall p | p in g.reg && !MovedBy(g, left, rights, p) :: p in h.reg && h.reg[p] == g.reg[p]
    decreases |rights|
  {
    if rights != [] {
      var g1 := MergeStep(g, left, rights[0]);
      var rest := rights[1..];
      MergeStepOk(g, left, rights[0]);
      MergeRestReady(g, left, rights);
      MergeFoldKeeps(g1, left, rest);
      MergeFoldOk(g1, left, rest);
      forall p | p in g.reg && !MovedBy(g, left, rights, p)
        ensures p in g1.reg && !MovedBy(g1, left, rest, p) && g1.reg[p] == g.reg[p]
      {
        forall j | 0 <= j < |rest| && rest[j] != left && rest[j] in g1.nodes
          ensures p !in g1.nodes[rest[j]].Parts()
        {
          assert rest[j] == rights[j + 1];
        }
        assert rights[0] != left && rights[0] in g.nodes ==> p !in g.nodes[rights[0]].Parts();
      }
    }
  }

  /** The end of an edge-node link: `other -> id` for a source, `id -> other` for a target,
      keyed by the edge node's id. */
  function Link(id: Id, other: Id, incoming: bool): Edge
  {
    if incoming then Edge(other, id, id) else Edge(id, other, id)
  }

  /** The result of `add_proxy`: the new state, the node now holding the record, and
      whether anything was added or merged. */
  datatype Added = Added(state: GraphState, node: NodeState, isNew: bool)

  /** The result of `add_stub`: the new state and the id of the node holding the stub id. */
  datatype Stubbed = Stubbed(state: GraphState, node: Id)

  /** 1 when `add_proxy` may grow the unregistered node ids or wire edges, else 0. */
  function Bump(p: Proxy, nodeId: Option<Id>): nat
  {
    if nodeId.Some? || p.isEdge then 1 else 0
  }

  /** `add_proxy(proxy, node_id)`. A registered record with no `node_id`, or with the id
      of its current node, changes nothing. A registered record with another `node_id`
      moves its whole node into the node of that id (created from the record if absent).
      An unregistered record is stored under `node_id` or its own id and registered, and
      an edge node is then wired to its endpoints. */
  function AddProxyS(g: GraphState, p: Proxy, nodeId: Option<Id>): (r: Added)
    requires Inv(g)
    decreases |Unregistered(g)| + Bump(p, nodeId), 4 * Bump(p, nodeId), 2
    ensures Inv(r.state) && r.node.id in r.state.nodes && r.state.nodes[r.node.id] == r.node
    ensures p.id in r.state.reg && r.state.reg[p.id] == r.node.id
    ensures g.reg.Keys <= r.state.reg.Keys
    ensures nodeId.None? ==> Grows(g, r.state) && |Unregistered(r.state)| <= |Unregistered(g)|
    ensures nodeId.None? ==> forall q | q in r.state.reg && q !in g.reg :: r.state.reg[q] == q && (q == p.id || q in r.state.pending)
  {
    if p.id !in g.reg then AddNewS(g, p, nodeId)
    else if nodeId.Some? && g.reg[p.id] != nodeId.value then ReassignS(g, p, nodeId.value)
    else Added(g, g.nodes[g.reg[p.id]], false)
  }

  /** Lines 28-34 of `add_proxy`: the node named `x` (created holding the record if it is
      not stored) absorbs the record's current node. */
  function ReassignS(g: GraphState, p: Proxy, x: Id): (r: Added)
    requires Inv(g) && p.id in g.reg && g.reg[p.id] != x
    ensures Inv(r.state) && r.node.id == x && x in r.state.nodes && r.state.nodes[x] == r.node
    ensures r.state.reg.Keys == g.reg.Keys && r.state.reg[p.id] == x && r.isNew
    ensures r.state.pending == g.pending
    ensures forall q | q in g.reg && g.reg[q] == g.reg[p.id] :: r.state.reg[q] == x
  {
    var g1 := if x in g.nodes then g
              else (AddNodeOk(g.nodes, g.reg, SingleNode(x, p)); g.(nodes := g.nodes[x := SingleNode(x, p)]));
    MergeStepOk(g1, x, g.reg[p.id]);
    var g2 := MergeStep(g1, x, g.reg[p.id]);
    Added(g2, g2.nodes[x], true)
  }

  /** Lines 36-44 of `add_proxy` for an unregistered record. The node returned is the
      stored node after the wiring. */
  function AddNewS(g: GraphState, p: Proxy, nodeId: Option<Id>): (r: Added)
    requires Inv(g) && p.id !in g.reg
    decreases |Unregistered(g)| + Bump(p, nodeId), 4 * Bump(p, nodeId), 1
    ensures Inv(r.state) && r.node.id in r.state.nodes && r.state.nodes[r.node.id] == r.node
    ensures r.node.id == (if nodeId.Some? then nodeId.value else p.id) && r.isNew
    ensures p.id in r.state.reg && r.state.reg[p.id] == r.node.id
    ensures nodeId.None? ==> Grows(g, r.state) && |Unregistered(r.state)| <= |Unregistered(g)|
    ensures nodeId.None? ==> forall q | q in r.state.reg && q !in g.reg :: r.state.reg[q] == q && (q == p.id || q in r.state.pending)
  {
    var newId := if nodeId.Some? then nodeId.value else p.id;
    var g1 := Register(g, p, newId);
    RegisterMeasure(g, p, nodeId);
    var g2 := ConnectS(g1, g1.nodes[newId]);
    AddNewResult(g, p, nodeId, newId, g1, g2);
    Added(g2, g2.nodes[newId], true)
  }

  /** What registration followed by any growth of the graph leaves: the new node still
      stored under its id and the record still registered to it; with no explicit node
      id, the whole step only grows the graph. */
  lemma AddNewResult(g: GraphState, p: Proxy, nodeId: Option<Id>, newId: Id, g1: GraphState, g2: GraphState)
    requires Inv(g) && p.id !in g.reg
    requires newId == if nodeId.Some? then nodeId.value else p.id
    requires g1 == Register(g, p, newId)
    requires Inv(g2) && Grows(g1, g2) && |Unregistered(g2)| <= |Unregistered(g1)| && NewStubs(g1, g2)
    ensures newId in g2.nodes && g2.nodes[newId].id == newId
    ensures p.id in g2.reg && g2.reg[p.id] == newId
    ensures nodeId.None? ==> Grows(g, g2) && |Unregistered(g2)| <= |Unregistered(g)|
    ensures nodeId.None? ==> forall q | q in g2.reg && q !in g.reg :: g2.reg[q] == q && (q == p.id || q in g2.pending)
  {
    RegisterMeasure(g, p, nodeId);
    GrowsTrans(g, g1, g2);
  }

  /** `connect_edges(node)`: nothing for a node that is not an edge; otherwise the links
      to every source, then to every target. */
  function ConnectS(g: GraphState, n: NodeState): (h: GraphState)
    requires Inv(g) && n.id in g.nodes
    decreases |Unregistered(g)|, if n.IsEdge() then 3 else 0, 0
    ensures Inv(h) && Grows(g, h) && |Unregistered(h)| <= |Unregistered(g)| && NewStubs(g, h)
  {
    if !n.IsEdge() then g
    else
      var g1 := EndsS(g, n.id, n.Sources(), true);
      var g2 := EndsS(g1, n.id, n.Targets(), false);
      GrowsTrans(g, g1, g2);
      NewStubsTrans(g, g1, g2);
      g2
  }

  /** One loop of `connect_edges`: the link to each end in turn. */
  function EndsS(g: GraphState, id: Id, ends: seq<Id>, incoming: bool): (h: GraphState)
    requires Inv(g) && id in g.nodes
    decreases |Unregistered(g)|, 2, |ends|
    ensures Inv(h) && Grows(g, h) && |Unregistered(h)| <= |Unregistered(g)| && NewStubs(g, h)
  {
    if ends == [] then g
    else
      var g1 := LinkS(g, id, ends[0], incoming);
      var g2 := EndsS(g1, id, ends[1..], incoming);
      GrowsTrans(g, g1, g2);
      NewStubsTrans(g, g1, g2);
      g2
  }

  /** One pass of a `connect_edges` loop: the node of `end` (a new stub for an id the
      graph has not seen), then the edge between it and the edge node `id`. */
  function LinkS(g: GraphState, id: Id, end: Id, incoming: bool): (h: GraphState)
    requires Inv(g) && id in g.nodes
    decreases |Unregistered(g)|, 2, 0
    ensures Inv(h) && Grows(g, h) && |Unregistered(h)| <= |Unregistered(g)| && NewStubs(g, h)
    ensures end in h.reg && Link(id, h.reg[end], incoming) in h.edges
    ensures end !in g.reg ==> end in h.pending
  {
    var s := if end in g.reg then Stubbed(g, g.reg[end]) else StubS(g, end);
    var h := s.state.(edges := s.state.edges + {Link(id, s.node, incoming)});
    AddEdgeOk(s.state, Link(id, s.node, incoming));
    GrowsTrans(g, s.state, h);
    NewStubsTrans(g, s.state, h);
    h
  }

  /** Adding an edge between stored nodes keeps the invariant and only grows the graph. */
  lemma AddEdgeOk(g: GraphState, e: Edge)
    requires Inv(g) && e.src in g.nodes && e.tgt in g.nodes
    ensures Inv(g.(edges := g.edges + {e})) && Grows(g, g.(edges := g.edges + {e}))
    ensures Unregistered(g.(edges := g.edges + {e})) == Unregistered(g)
  {
  }

  /** Marking an id pending keeps the invariant and only grows the graph. */
  lemma AddPendingOk(g: GraphState, s: Id)
    requires Inv(g)
    ensures Inv(g.(pending := g.pending + {s})) && Grows(g, g.(pending := g.pending + {s}))
    ensures Unregistered(g.(pending := g.pending + {s})) == Unregistered(g)
  {
  }

  /** `add_stub(proxy_id)`: the node of a registered id; otherwise a `Thing` stub record is
      added and its id marked pending. */
  function StubS(g: GraphState, s: Id): (r: Stubbed)
    requires Inv(g)
    decreases |Unregistered(g)|, 1, 0
    ensures Inv(r.state) && Grows(g, r.state) && |Unregistered(r.state)| <= |Unregistered(g)| && NewStubs(g, r.state)
    ensures s in r.state.reg && r.state.reg[s] == r.node && r.node in r.state.nodes
    ensures s !in g.reg ==> r.node == s && s in r.state.pending
  {
    if s in g.reg then Stubbed(g, g.reg[s])
    else
      var a := AddNewS(g, StubProxy(s), None);
      var h := a.state.(pending := a.state.pending + {s});
      AddPendingOk(a.state, s);
      Stubbed(h, a.node.id)
  }

  /** `add_stub` for an id the graph has not seen, step by step: the stub record added as
      a proxy, then its id marked pending. */
  lemma StubNewStep(g: GraphState, pid: Id, a: Added, h: GraphState)
    requires Inv(g) && pid !in g.reg
    requires a == AddProxyS(g, StubProxy(pid), None)
    requires h == a.state.(pending := a.state.pending + {pid})
    ensures StubS(g, pid) == Stubbed(h, a.node.id)
    ensures a.node.id in h.nodes && h.nodes[a.node.id] == a.node
  {
    assert a == AddNewS(g, StubProxy(pid), None);
  }

  /** `ensure_flag(**fv)` on every stored node. */
  function EnsureFlagS(g: GraphState, fv: Flags): (h: GraphState)
    requires Inv(g)
    ensures Inv(h)
    ensures h.nodes.Keys == g.nodes.Keys && h.edges == g.edges && h.reg == g.reg && h.pending == g.pending
    ensures forall k | k in h.nodes ::
      h.nodes[k].proxies == g.nodes[k].proxies && FlagsMatch(h.nodes[k].flags, g.nodes[k].flags)
      && h.nodes[k].flags.Keys == g.nodes[k].flags.Keys + fv.Keys
      && (forall f | f in fv && f !in g.nodes[k].flags :: h.nodes[k].flags[f] == fv[f])
  {
    var h := g.(nodes := map k | k in g.nodes :: g.nodes[k].(flags := FlagsEnsured(g.nodes[k].flags, fv)));
    assert forall k | k in h.nodes :: h.nodes[k].Parts() == g.nodes[k].Parts();
    h
  }

  /** `[get_node_by_proxy_id(pid) for pid in pids]`, as node ids. */
  function NodeIdsOf(g: GraphState, pids: seq<Id>): (r: seq<Id>)
    requires forall i | 0 <= i < |pids| :: pids[i] in g.reg
    ensures |r| == |pids| && forall i | 0 <= i < |pids| :: r[i] == g.reg[pids[i]]
  {
    seq(|pids|, i requires 0 <= i < |pids| => g.reg[pids[i]])
  }

  /** `merge_proxies(*pids)`: the nodes of the records, looked up before any merge, merged
      into the node of the first one. */
  function MergeProxiesS(g: GraphState, pids: seq<Id>): GraphState
    requires |pids| > 0 && forall i | 0 <= i < |pids| :: pids[i] in g.reg
  {
    var ids := NodeIdsOf(g, pids);
    MergeFold(g, ids[0], ids[1..])
  }

  /** The result of `add_proxies`: the final state and the `(node, is_new)` pair of each
      record, in order. */
  datatype AddedAll = AddedAll(state: GraphState, results: seq<(NodeState, bool)>)

  /** Extending a lookup table is transitive. */
  lemma ExtendsTrans(a: map<Id, Id>, b: map<Id, Id>, c: map<Id, Id>)
    requires Extends(a, b) && Extends(b, c)
    ensures Extends(a, c)
  {
  }

  /** `add_proxies(proxies)`: `add_proxy` on each record in turn, with no `node_id`. */
  function AddProxiesS(g: GraphState, ps: seq<Proxy>): (r: AddedAll)
    requires Inv(g)
    decreases |ps|
    ensures Inv(r.state) && |r.results| == |ps|
    ensures Extends(g.reg, r.state.reg)
  {
    if ps == [] then AddedAll(g, [])
    else
      var a := AddProxyS(g, ps[0], None);
      var rest := AddProxiesS(a.state, ps[1..]);
      ExtendsTrans(g.reg, a.state.reg, rest.state.reg);
      var rs := [(a.node, a.isNew)] + rest.results;
      assert |rs| == |ps|;
      AddedAll(rest.state, rs)
  }

  /** The node `add_proxy` reports holds the record. */
  lemma AddProxyHolds(g: GraphState, p: Proxy, nodeId: Option<Id>)
    requires Inv(g)
    ensures p.id in AddProxyS(g, p, nodeId).node.Parts()
  {
    var r := AddProxyS(g, p, nodeId);
    assert r.state.reg[p.id] == r.node.id;
  }

  /** `add_proxies` on a non-empty list: the first record, then the rest. */
  lemma AddProxiesCons(g: GraphState, ps: seq<Proxy>, a: Added)
    requires Inv(g) && ps != [] && a == AddProxyS(g, ps[0], None)
    ensures Inv(a.state) && AddProxiesS(g, ps).state == AddProxiesS(a.state, ps[1..]).state
  {
  }

  /** The first record registered in `reg0`, the rest in `reg`, and `reg` extends `reg0`:
      all of them are registered in `reg`. */
  lemma RegisteredCons(ps: seq<Proxy>, reg0: map<Id, Id>, reg: map<Id, Id>)
    requires ps != [] && ps[0].id in reg0 && Extends(reg0, reg)
    requires forall i | 0 <= i < |ps[1..]| :: ps[1..][i].id in reg
    ensures forall i | 0 <= i < |ps| :: ps[i].id in reg
  {
    forall i | 1 <= i < |ps|
      ensures ps[i].id in reg
    {
      TailIndex(ps, i);
    }
  }

  /** After `add_proxies` every record is registered (`add_entities` relies on this). */
  lemma {:induction false} AddProxiesRegisters(g: GraphState, ps: seq<Proxy>)
    requires Inv(g)
    decreases |ps|
    ensures forall i | 0 <= i < |ps| :: ps[i].id in AddProxiesS(g, ps).state.reg
  {
    if ps != [] {
      var a := AddProxyS(g, ps[0], None);
      AddProxiesCons(g, ps, a);
      var h := AddProxiesS(a.state, ps[1..]).state;
      AddProxiesRegisters(a.state, ps[1..]);
      RegisteredCons(ps, a.state.reg, h.reg);
    }
  }

  /** The invariant of the `add_proxies` loop after `i` passes from `g0`: the graph is
      well formed, and the passes left take the graph, with their results appended to
      the `rs` collected so far, where the whole loop takes `g0`. */
  ghost predicate AddProxiesLoop(g0: GraphState, g: GraphState, ps: seq<Proxy>, i: nat, rs: seq<(NodeState, bool)>)
    requires Inv(g0) && i <= |ps|
  {
    Inv(g) &&
    var rest := AddProxiesS(g, ps[i..]);
    AddProxiesS(g0, ps) == AddedAll(rest.state, rs + rest.results)
  }

  /** Before the first pass the loop invariant holds. */
  lemma AddProxiesStart(g0: GraphState, ps: seq<Proxy>)
    requires Inv(g0)
    ensures AddProxiesLoop(g0, g0, ps, 0, [])
  {
    assert ps[0..] == ps;
    var rest := AddProxiesS(g0, ps);
    assert [] + rest.results == rest.results;
  }

  /** After the last pass the graph and the results are those of the whole loop. */
  lemma AddProxiesDone(g0: GraphState, g: GraphState, ps: seq<Proxy>, rs: seq<(NodeState, bool)>)
    requires Inv(g0)
    requires AddProxiesLoop(g0, g, ps, |ps|, rs)
    ensures AddProxiesS(g0, ps) == AddedAll(g, rs)
  {
    assert ps[|ps|..] == [];
  }

  /** One pass of the `add_proxies` loop, taken in `g` and leading to `a.state`, keeps the
      loop invariant with the pair it reports appended. */
  lemma AddProxiesAdvance(g0: GraphState, g: GraphState, ps: seq<Proxy>, i: nat, rs: seq<(NodeState, bool)>, a: Added)
    requires Inv(g0) && i < |ps|
    requires AddProxiesLoop(g0, g, ps, i, rs)
    requires a == AddProxyS(g, ps[i], None)
    ensures AddProxiesLoop(g0, a.state, ps, i + 1, rs + [(a.node, a.isNew)])
  {
    var s := ps[i..];
    assert s[0] == ps[i] && s[1..] == ps[i + 1..];
    var rest := AddProxiesS(a.state, ps[i + 1..]);
    assert AddProxiesS(g, s) == AddedAll(rest.state, [(a.node, a.isNew)] + rest.results);
    ConcatAssoc(rs, [(a.node, a.isNew)], rest.results);
  }
}
