/** `EntityGraphTracker`: bookkeeping around a wrapped graph. It records the canonical
    ids that merges produced (a chain of merges leaves only its final id), the records
    the wrapped graph reported as new nodes and those it reported as new edges. The
    wrapped graph is not part of this model: what its `merge_nodes_canonical`, `add_edge`,
    `add_node` and `get_node_proxies` return is passed in. */
module Tracker {
  import opened Common

  /** What `get_changes` returns: the records of every tracked canonical node, and the
      new node and edge records in the order they were reported. */
  datatype Changes = Changes(merge: map<Id, seq<Id>>, nodesNew: seq<Proxy>, edgesNew: seq<Proxy>)

  /** The merge set after tracking `left, right -> canon`. */
  function TrackMerge(merge: set<Id>, left: Id, right: Id, canon: Id): (r: set<Id>)
    ensures canon in r && left !in r - {canon} && right !in r - {canon}
    ensures r - {canon} <= merge
    ensures merge - {left, right} <= r
    ensures |r| <= |merge| + 1
  {
    var r := merge - {left, right} + {canon};
    assert r <= merge + {canon};
    CardMonotone(r, merge + {canon});
    r
  }

  /** One tracked merge: the two merged ids and the canonical id returned. */
  datatype MergeCall = MergeCall(left: Id, right: Id, canon: Id)

  /** The merge set after a sequence of tracked merges. */
  function TrackAll(merge: set<Id>, calls: seq<MergeCall>): set<Id>
    decreases |calls|
  {
    if calls == [] then merge
    else TrackAll(TrackMerge(merge, calls[0].left, calls[0].right, calls[0].canon), calls[1..])
  }

  /** Every merge after the first folds the canonical id the previous one returned. */
  predicate Chained(calls: seq<MergeCall>)
  {
    forall i | 0 < i < |calls| :: calls[i].left == calls[i - 1].canon
  }

  /** A chain of merges (A, B -> C, then C, D -> E, ...) tracked from a merge set holding
      at most the chain's first left id leaves only the final id. */
  lemma {:induction false} ChainLeavesLast(merge: set<Id>, calls: seq<MergeCall>)
    requires |calls| > 0 && Chained(calls) && merge <= {calls[0].left}
    ensures TrackAll(merge, calls) == {calls[|calls| - 1].canon}
    decreases |calls|
  {
    var c := calls[0];
    var m1 := TrackMerge(merge, c.left, c.right, c.canon);
    assert m1 == {c.canon};
    if |calls| > 1 {
      var rest := calls[1..];
      assert rest[0] == calls[1];
      assert Chained(rest) by {
        forall i | 0 < i < |rest|
          ensures rest[i].left == rest[i - 1].canon
        {
          assert rest[i] == calls[i + 1] && rest[i - 1] == calls[i];
        }
      }
      ChainLeavesLast(m1, rest);
      assert rest[|rest| - 1] == calls[|calls| - 1];
    }
  }

  /** The merge set grows by at most one id per tracked merge. */
  lemma {:induction false} TrackAllBound(merge: set<Id>, calls: seq<MergeCall>)
    ensures |TrackAll(merge, calls)| <= |merge| + |calls|
    decreases |calls|
  {
    if calls != [] {
      var m1 := TrackMerge(merge, calls[0].left, calls[0].right, calls[0].canon);
      TrackAllBound(m1, calls[1..]);
    }
  }

  class EntityGraphTracker {
    /** `changes["merge"]`. */
    var merge: set<Id>
    /** `changes["nodes_new"]`. */
    var nodesNew: seq<Proxy>
    /** `changes["edges_new"]`. */
    var edgesNew: seq<Proxy>

    /** `EntityGraphTracker(G)`: nothing tracked yet. */
    constructor ()
      ensures merge == {} && nodesNew == [] && edgesNew == []
    {
      merge := {};
      nodesNew := [];
      edgesNew := [];
    }

    /** `merge_nodes_canonical(left, right)`, where the wrapped graph returned `canon`:
        `left` and `right` leave the merge set, `canon` joins it, and `canon` is
        returned. */
    method MergeNodesCanonical(left: Id, right: Id, canon: Id) returns (r: Id)
      modifies this
      ensures r == canon
      ensures merge == TrackMerge(old(merge), left, right, canon)
      ensures nodesNew == old(nodesNew) && edgesNew == old(edgesNew)
    {
      merge := merge - {left};
      merge := merge - {right};
      merge := merge + {canon};
      r := canon;
    }

    /** `add_edge(proxy)`, where the wrapped graph reported `isNew`: the record is
        appended to the new edges exactly when it is new, and `isNew` is returned. */
    method AddEdge(p: Proxy, isNew: bool) returns (r: bool)
      modifies this
      ensures r == isNew
      ensures edgesNew == if isNew then old(edgesNew) + [p] else old(edgesNew)
      ensures merge == old(merge) && nodesNew == old(nodesNew)
    {
      if isNew {
        edgesNew := edgesNew + [p];
      }
      r := isNew;
    }

    /** `add_node(proxy)`, where the wrapped graph reported `isNew`: the record is
        appended to the new nodes exactly when it is new, and `isNew` is returned. */
    method AddNode(p: Proxy, isNew: bool) returns (r: bool)
      modifies this
      ensures r == isNew
      ensures nodesNew == if isNew then old(nodesNew) + [p] else old(nodesNew)
      ensures merge == old(merge) && edgesNew == old(edgesNew)
    {
      if isNew {
        nodesNew := nodesNew + [p];
      }
      r := isNew;
    }

    /** `get_changes()`, where `proxiesOf(id)` is what the wrapped graph's
        `get_node_proxies(id)` yields as record ids: one merge entry per tracked id, the
        new nodes and edges passed through, and the tracker left as it was (the method
        modifies nothing). */
    method GetChanges(proxiesOf: Id -> seq<Id>) returns (c: Changes)
      ensures c.merge.Keys == merge
      ensures forall id | id in c.merge :: c.merge[id] == proxiesOf(id)
      ensures c.nodesNew == nodesNew && c.edgesNew == edgesNew
    {
      c := Changes(map id | id in merge :: proxiesOf(id), nodesNew, edgesNew);
    }
  }
}
