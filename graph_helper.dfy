/** `track_node_tag(G, flag, force)`: every node gets `flag` (False where it was absent),
    the nodes to process are collected once, and each of them, after it has been handed
    to the consumer, is marked with `flag = True`. A pass that is not forced thus visits
    only nodes not yet processed. */
module GraphHelper {
  import opened Common
  import opened NodeModel
  import opened GraphSpec
  import opened Graph

  /** The query `track_node_tag` selects with: nothing when forced, else `flag=False`. */
  function Query(flag: string, force: bool): Flags
  {
    if force then map[] else map[flag := Some(false)]
  }

  /** The stored nodes the query selects. */
  function Selected(nodes: map<Id, NodeState>, flag: string, force: bool): set<Id>
  {
    set k | k in nodes && FlagsMatch(nodes[k].flags, Query(flag, force))
  }

  /** `set_flags(flag=True)` on one node. */
  function TagNode(n: NodeState, flag: string): NodeState
  {
    n.(flags := FlagsSet(n.flags, map[flag := Some(true)]))
  }

  /** `flag=True` on every node in `ids`. */
  function Tagged(nodes: map<Id, NodeState>, ids: set<Id>, flag: string): map<Id, NodeState>
  {
    map k | k in nodes :: if k in ids then TagNode(nodes[k], flag) else nodes[k]
  }

  /** The node map after `ensure_flag(flag=False)`. */
  function Ensured(g: GraphState, flag: string): map<Id, NodeState>
    requires Inv(g)
  {
    EnsureFlagS(g, map[flag := Some(false)]).nodes
  }

  /** The graph after a fully consumed `track_node_tag(G, flag, force)`: the flag
      ensured, then set to True on the selected nodes. */
  function TrackS(g: GraphState, flag: string, force: bool): GraphState
    requires Inv(g)
  {
    var e := Ensured(g, flag);
    g.(nodes := Tagged(e, Selected(e, flag, force), flag))
  }

  /** Node maps with the same ids and the same parts under every key. */
  ghost predicate SameShape(a: map<Id, NodeState>, b: map<Id, NodeState>)
  {
    a.Keys == b.Keys && forall k | k in a :: b[k].id == a[k].id && b[k].proxies == a[k].proxies
  }

  /** Replacing the nodes by ones of the same shape keeps the invariant. */
  lemma SameShapeOk(g: GraphState, nodes: map<Id, NodeState>)
    requires Inv(g) && SameShape(g.nodes, nodes)
    ensures Inv(g.(nodes := nodes))
  {
    assert forall k | k in nodes :: nodes[k].Parts() == g.nodes[k].Parts();
  }

  /** `ensure_flag` and tagging only change flags. */
  lemma TrackShape(g: GraphState, flag: string, ids: set<Id>)
    requires Inv(g)
    ensures SameShape(g.nodes, Ensured(g, flag))
    ensures SameShape(Ensured(g, flag), Tagged(Ensured(g, flag), ids, flag))
  {
    EnsuredShape(g, flag);
    TaggedShape(Ensured(g, flag), ids, flag);
  }

  lemma EnsuredShape(g: GraphState, flag: string)
    requires Inv(g)
    ensures SameShape(g.nodes, Ensured(g, flag))
  {
    var e := Ensured(g, flag);
    assert forall k | k in e :: e[k].id == k && g.nodes[k].id == k;
  }

  lemma TaggedShape(nodes: map<Id, NodeState>, ids: set<Id>, flag: string)
    ensures SameShape(nodes, Tagged(nodes, ids, flag))
  {
  }

  /** Tagging a node twice is tagging it once. */
  lemma TagNodeTwice(n: NodeState, flag: string)
    ensures TagNode(TagNode(n, flag), flag) == TagNode(n, flag)
  {
    assert FlagsSet(FlagsSet(n.flags, map[flag := Some(true)]), map[flag := Some(true)]) == FlagsSet(n.flags, map[flag := Some(true)]);
  }

  /** Tagging one more node extends the tagged set. */
  lemma TagStep(nodes: map<Id, NodeState>, done: set<Id>, k: Id, flag: string)
    requires k in nodes
    ensures var t := Tagged(nodes, done, flag);
      t[k := TagNode(t[k], flag)] == Tagged(nodes, done + {k}, flag)
  {
    TagNodeTwice(nodes[k], flag);
  }

  /** The invariant of the loop of `track_node_tag` over the snapshot `sel`: the nodes
      handed out so far are `visited`, once each, and exactly they are tagged. */
  ghost predicate TagLoop(e: map<Id, NodeState>, sel: set<Id>, todo: set<Id>, visited: seq<Id>, cur: map<Id, NodeState>, flag: string)
  {
    && todo <= sel && sel <= e.Keys
    && (forall j | 0 <= j < |visited| :: visited[j] in sel - todo)
    && (forall k | k in sel - todo :: k in visited)
    && (forall i, j | 0 <= i < j < |visited| :: visited[i] != visited[j])
    && cur == Tagged(e, sel - todo, flag)
  }

  /** Before the first node is handed out nothing is tagged. */
  lemma TagStart(e: map<Id, NodeState>, sel: set<Id>, flag: string)
    requires sel <= e.Keys
    ensures TagLoop(e, sel, sel, [], e, flag)
  {
    assert sel - sel == {};
    assert Tagged(e, {}, flag) == e;
  }

  /** Handing out one more node of the snapshot and tagging it keeps the loop invariant. */
  lemma TagAdvance(e: map<Id, NodeState>, sel: set<Id>, todo: set<Id>, visited: seq<Id>, cur: map<Id, NodeState>, flag: string, k: Id)
    requires TagLoop(e, sel, todo, visited, cur, flag) && k in todo
    ensures k in cur
    ensures TagLoop(e, sel, todo - {k}, visited + [k], cur[k := TagNode(cur[k], flag)], flag)
  {
    assert sel - (todo - {k}) == (sel - todo) + {k};
    TagStep(e, sel - todo, k, flag);
    var v := visited + [k];
    forall i, j | 0 <= i < j < |v|
      ensures v[i] != v[j]
    {
      if j == |visited| {
        assert v[i] == visited[i] && visited[i] in sel - todo;
      }
    }
  }

  /** `track_node_tag(G, flag, force)`, run to the end by a consumer that does not touch
      the graph: the nodes handed out, once each, are those the query selects after
      `ensure_flag(flag=False)`, and the graph is left as `TrackS` says. */
  method TrackNodeTag(G: EntityGraph, flag: string, force: bool) returns (visited: seq<Id>)
    requires G.Valid()
    modifies G.network
    ensures G.Valid()
    ensures G.State() == TrackS(old(G.State()), flag, force)
    ensures forall k :: k in visited <==> k in Selected(Ensured(old(G.State()), flag), flag, force)
    ensures forall i, j | 0 <= i < j < |visited| :: visited[i] != visited[j]
  {
    ghost var g := G.State();
    G.EnsureFlag(map[flag := Some(false)]);
    ghost var e := G.State();
    var sel := G.Nodes(Query(flag, force)).Keys;
    assert sel == Selected(e.nodes, flag, force);
    TrackShape(g, flag, sel);
    TagStart(e.nodes, sel, flag);
    visited := TagAll(G, flag, e, sel);
    SameShapeOk(e, G.network.nodes);
  }

  /** The loop of `track_node_tag`: every node of the snapshot `sel` is handed out once
      and tagged. */
  method TagAll(G: EntityGraph, flag: string, ghost e: GraphState, sel: set<Id>) returns (visited: seq<Id>)
    requires G.network.Valid() && G.State() == e && TagLoop(e.nodes, sel, sel, [], e.nodes, flag)
    modifies G.network
    ensures G.network.Valid() && G.State() == e.(nodes := Tagged(e.nodes, sel, flag))
    ensures forall k :: k in visited <==> k in sel
    ensures forall i, j | 0 <= i < j < |visited| :: visited[i] != visited[j]
  {
    var todo := sel;
    visited := [];
    while todo != {}
      invariant G.State() == e.(nodes := G.network.nodes)
      invariant TagLoop(e.nodes, sel, todo, visited, G.network.nodes, flag)
      invariant G.network.Valid()
      decreases todo
    {
      var k :| k in todo;
      TagAdvance(e.nodes, sel, todo, visited, G.network.nodes, flag, k);
      var node := G.network.GetNode(k);
      G.network.AddNode(TagNode(node, flag));
      visited := visited + [k];
      todo := todo - {k};
    }
    assert sel - todo == sel;
  }

  /** Which nodes a pass visits, in terms of the graph before it: without `force`, the
      nodes whose flag is False or absent (a flag stored as None is never visited);
      with `force`, every node. */
  lemma SelectedBefore(g: GraphState, flag: string, force: bool, k: Id)
    requires Inv(g)
    ensures k in Selected(Ensured(g, flag), flag, force) <==>
      k in g.nodes && (force || flag !in g.nodes[k].flags || g.nodes[k].flags[flag] == Some(false))
  {
    var e := Ensured(g, flag);
    if k in g.nodes && !force {
      assert Get(e[k].flags, flag) == if flag in g.nodes[k].flags then g.nodes[k].flags[flag] else Some(false);
    }
  }

  /** A pass changes nothing but flags. */
  lemma TrackKeeps(g: GraphState, flag: string, force: bool)
    requires Inv(g)
    ensures var h := TrackS(g, flag, force);
      Inv(h) && SameShape(g.nodes, h.nodes) && h.reg == g.reg && h.edges == g.edges && h.pending == g.pending
  {
    var e := Ensured(g, flag);
    TrackShape(g, flag, Selected(e, flag, force));
    SameShapeOk(g, TrackS(g, flag, force).nodes);
  }

  /** After a pass every node it visited has `flag = True`, and every other node only
      gained the flag where it was absent. */
  lemma TrackTags(g: GraphState, flag: string, force: bool)
    requires Inv(g)
    ensures var e := Ensured(g, flag);
      var h := TrackS(g, flag, force);
      && (forall k | k in Selected(e, flag, force) :: k in h.nodes && Get(h.nodes[k].flags, flag) == Some(true))
      && (forall k | k in h.nodes && k !in Selected(e, flag, force) :: h.nodes[k] == e[k])
  {
    var e := Ensured(g, flag);
    TaggedFlags(e, Selected(e, flag, force), flag);
  }

  /** Tagging sets the flag to True on the tagged nodes and leaves the others alone. */
  lemma TaggedFlags(e: map<Id, NodeState>, sel: set<Id>, flag: string)
    requires sel <= e.Keys
    ensures var t := Tagged(e, sel, flag);
      && (forall k | k in sel :: k in t && Get(t[k].flags, flag) == Some(true))
      && (forall k | k in t && k !in sel :: t[k] == e[k])
  {
  }

  /** A pass that is not forced, after a completed pass, visits none of the nodes the
      first pass processed. */
  lemma SecondPassSkips(g: GraphState, flag: string, force: bool)
    requires Inv(g)
    ensures Inv(TrackS(g, flag, force))
    ensures Selected(Ensured(TrackS(g, flag, force), flag), flag, false) * Selected(Ensured(g, flag), flag, force) == {}
  {
    var h := TrackS(g, flag, force);
    TrackKeeps(g, flag, force);
    TrackTags(g, flag, force);
    forall k | k in Selected(Ensured(g, flag), flag, force)
      ensures k !in Selected(Ensured(h, flag), flag, false)
    {
      SelectedBefore(h, flag, false, k);
    }
  }
}
