/** The storage backend: a networkx `MultiDiGraph` whose nodes carry a `Node` as data and
    whose edges are identified by (source, target, key). Re-adding an existing triple does
    not duplicate it, so the edges form a set. */
module Backend {
  import opened Common
  import opened NodeModel

  datatype Edge = Edge(src: Id, tgt: Id, key: Id)

  /** The edges of `edges` whose target is `id` (`in_edges(id, keys=True)`). */
  function InOf(edges: set<Edge>, id: Id): set<Edge>
  {
    set e | e in edges && e.tgt == id
  }

  /** The edges of `edges` whose source is `id` (`out_edges(id, keys=True)`). */
  function OutOf(edges: set<Edge>, id: Id): set<Edge>
  {
    set e | e in edges && e.src == id
  }

  /** The edges of `edges` that touch `id` at neither end. */
  function Detached(edges: set<Edge>, id: Id): set<Edge>
  {
    set e | e in edges && e.src != id && e.tgt != id
  }

  /** Every edge touching `id` is an in-edge or an out-edge of it, and removing the
      node's edges leaves exactly the others. */
  lemma InOutPartition(edges: set<Edge>, id: Id)
    ensures edges == InOf(edges, id) + OutOf(edges, id) + Detached(edges, id)
    ensures Detached(edges, id) !! InOf(edges, id) && Detached(edges, id) !! OutOf(edges, id)
  {
  }

  /** Each node is stored under its own id and no edge dangles. */
  ghost predicate NetOk(nodes: map<Id, NodeState>, edges: set<Edge>)
  {
    && (forall k | k in nodes :: nodes[k].id == k)
    && (forall e | e in edges :: e.src in nodes && e.tgt in nodes)
  }

  class Network {
    var nodes: map<Id, NodeState>
    var edges: set<Edge>

    ghost predicate Valid()
      reads this
    {
      NetOk(nodes, edges)
    }

    constructor ()
      ensures Valid() && nodes == map[] && edges == {}
    {
      nodes := map[];
      edges := {};
    }

    /** `_has_node`. */
    predicate HasNode(id: Id)
      reads this
    {
      id in nodes
    }

    /** `_get_node`; networkx raises KeyError for an absent id. */
    function GetNode(id: Id): (n: NodeState)
      requires Valid() && id in nodes
      reads this
      ensures n.id == id
    {
      nodes[id]
    }

    /** `_add_node`: stores the node under its id, replacing the data of an existing node
        with that id; the edges are not touched. */
    method AddNode(n: NodeState)
      requires Valid()
      modifies this
      ensures Valid()
      ensures nodes == old(nodes)[n.id := n] && edges == old(edges)
      ensures HasNode(n.id) && GetNode(n.id) == n
    {
      nodes := nodes[n.id := n];
    }

    /** `_add_edge`. networkx would create missing endpoints silently; every caller in the
        entity graph passes endpoints that exist, and the model requires it. */
    method AddEdge(src: Id, tgt: Id, key: Id)
      requires Valid() && src in nodes && tgt in nodes
      modifies this
      ensures Valid()
      ensures edges == old(edges) + {Edge(src, tgt, key)} && nodes == old(nodes)
    {
      edges := edges + {Edge(src, tgt, key)};
    }

    /** `_remove_node`: deletes the node and every edge incident to it. */
    method RemoveNode(id: Id)
      requires Valid() && id in nodes
      modifies this
      ensures Valid()
      ensures nodes == old(nodes) - {id}
      ensures edges == Detached(old(edges), id)
      ensures forall e | e in edges :: e.src != id && e.tgt != id
    {
      nodes := nodes - {id};
      edges := Detached(edges, id);
    }

    /** `_get_node_in_edges`: in a valid backend every in-edge comes from a stored node,
        and a node that is not stored has none. */
    function InEdges(id: Id): (r: set<Edge>)
      reads this
      ensures forall e :: e in r <==> e in edges && e.tgt == id
      ensures Valid() ==> forall e | e in r :: e.src in nodes
      ensures Valid() && id !in nodes ==> r == {}
    {
      InOf(edges, id)
    }

    /** `_get_node_out_edges`: in a valid backend every out-edge goes to a stored node,
        and a node that is not stored has none. */
    function OutEdges(id: Id): (r: set<Edge>)
      reads this
      ensures forall e :: e in r <==> e in edges && e.src == id
      ensures Valid() ==> forall e | e in r :: e.tgt in nodes
      ensures Valid() && id !in nodes ==> r == {}
    {
      OutOf(edges, id)
    }

    /** `_iter_nodes(**query)`: the stored nodes whose flags match the query. */
    function IterNodes(query: Flags): (r: map<Id, NodeState>)
      reads this
      ensures r.Keys <= nodes.Keys
      ensures forall k | k in r :: r[k] == nodes[k]
    {
      map k | k in nodes && FlagsMatch(nodes[k].flags, query) :: nodes[k]
    }

    /** `_iter_edges()`: the flag-filtered branch calls itself with the same arguments and
        never returns, so only the call without flags is modelled. */
    function IterEdges(query: Flags): set<Edge>
      requires query == map[]
      reads this
    {
      edges
    }

    /** `_get_n_nodes`. */
    function NumberOfNodes(): nat
      reads this
    {
      |nodes|
    }

    /** `_get_n_edges`. */
    function NumberOfEdges(): nat
      reads this
    {
      |edges|
    }
  }

  /** `_iter_nodes()` without flags yields every node; with flags, exactly the nodes whose
      flags match. */
  lemma IterNodesSelects(net: Network, query: Flags)
    ensures net.IterNodes(map[]) == net.nodes
    ensures forall k :: k in net.IterNodes(query) <==> k in net.nodes && FlagsMatch(net.nodes[k].flags, query)
  {
  }

  /** Adding an edge that is already stored changes neither the edges nor their count. */
  lemma ReAddEdgeNoDuplicate(edges: set<Edge>, e: Edge)
    requires e in edges
    ensures edges + {e} == edges && |edges + {e}| == |edges|
  {
  }
}
