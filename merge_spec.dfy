/** What `merge_nodes` does to the edge set and to the id lookup table, as functions of the
    state before the merge, and what that amounts to. */
module MergeSpec {
  import opened Common
  import opened Backend

  /** In-edges re-attached to `left`: `(s, right, k)` becomes `(s, left, k)`. */
  function Retarget(es: set<Edge>, left: Id): set<Edge>
  {
    set e | e in es :: Edge(e.src, left, e.key)
  }

  /** Out-edges re-attached to `left`: `(right, t, k)` becomes `(left, t, k)`. */
  function Resource(es: set<Edge>, left: Id): set<Edge>
  {
    set e | e in es :: Edge(left, e.tgt, e.key)
  }

  /** The edges after the in-edge pass, the out-edge pass (which reads the out-edges of
      `right` as they stand after the in-edge pass) and the removal of `right`. */
  function MergeEdges(edges: set<Edge>, left: Id, right: Id): set<Edge>
  {
    var afterIn := edges + Retarget(InOf(edges, right), left);
    var afterOut := afterIn + Resource(OutOf(afterIn, right), left);
    Detached(afterOut, right)
  }

  /** An edge with every endpoint `right` replaced by `left`, key kept. */
  function Redirect(e: Edge, left: Id, right: Id): Edge
  {
    Edge(if e.src == right then left else e.src, if e.tgt == right then left else e.tgt, e.key)
  }

  function RedirectAll(edges: set<Edge>, left: Id, right: Id): set<Edge>
  {
    set e | e in edges :: Redirect(e, left, right)
  }

  /** The merge loses no edge and invents none: the edges afterwards are exactly the old
      edges with `right` replaced by `left` at both ends, keys intact. In particular a
      self-loop `(right, right, k)` survives as `(left, left, k)`: the in-edge pass adds
      `(right, left, k)`, which the out-edge pass then re-adds as `(left, left, k)`. */
  lemma MergeEdgesIsRedirect(edges: set<Edge>, left: Id, right: Id)
    requires left != right
    ensures MergeEdges(edges, left, right) == RedirectAll(edges, left, right)
  {
    var afterIn := edges + Retarget(InOf(edges, right), left);
    var afterOut := afterIn + Resource(OutOf(afterIn, right), left);
    var result := MergeEdges(edges, left, right);
    assert result == Detached(afterOut, right);
    forall e | e in edges
      ensures Redirect(e, left, right) in result
    {
      if e.tgt == right {
        var f := Edge(e.src, left, e.key);
        assert f in afterIn;
        if e.src == right {
          assert Edge(left, left, e.key) in afterOut;
        }
      } else if e.src == right {
        assert e in OutOf(afterIn, right);
        assert Edge(left, e.tgt, e.key) in afterOut;
      }
    }
    forall x | x in result
      ensures x in RedirectAll(edges, left, right)
    {
      assert x in afterOut && x.src != right && x.tgt != right;
      if x in edges {
        assert Redirect(x, left, right) == x;
      } else if x in Retarget(InOf(edges, right), left) {
        var g :| g in InOf(edges, right) && x == Edge(g.src, left, g.key);
        assert Redirect(g, left, right) == x;
      } else {
        var f :| f in OutOf(afterIn, right) && x == Edge(left, f.tgt, f.key);
        if f in edges {
          assert Redirect(f, left, right) == x;
        } else {
          var g :| g in InOf(edges, right) && f == Edge(g.src, left, g.key);
          assert g.src == right;
          assert Redirect(g, left, right) == x;
        }
      }
    }
  }

  /** Consequences of the redirect theorem: nothing touches `right` any more, every
      in-edge `(s, right, k)` and out-edge `(right, t, k)` has its counterpart at `left`
      with the same key, a self-loop on `right` becomes one on `left`, the set of keys is
      unchanged and the edge count can only drop (when two edges collapse into one). */
  lemma MergeEdgesFacts(edges: set<Edge>, left: Id, right: Id)
    requires left != right
    ensures forall e | e in MergeEdges(edges, left, right) :: e.src != right && e.tgt != right
    ensures forall e | e in edges && e.tgt == right && e.src != right ::
      Edge(e.src, left, e.key) in MergeEdges(edges, left, right)
    ensures forall e | e in edges && e.src == right && e.tgt != right ::
      Edge(left, e.tgt, e.key) in MergeEdges(edges, left, right)
    ensures forall k :: Edge(right, right, k) in edges ==> Edge(left, left, k) in MergeEdges(edges, left, right)
    ensures KeysOf(MergeEdges(edges, left, right)) == KeysOf(edges)
    ensures |MergeEdges(edges, left, right)| <= |edges|
  {
    MergeEdgesIsRedirect(edges, left, right);
    var result := MergeEdges(edges, left, right);
    forall e | e in edges && e.tgt == right && e.src != right
      ensures Edge(e.src, left, e.key) in result
    {
      assert Redirect(e, left, right) == Edge(e.src, left, e.key);
    }
    forall e | e in edges && e.src == right && e.tgt != right
      ensures Edge(left, e.tgt, e.key) in result
    {
      assert Redirect(e, left, right) == Edge(left, e.tgt, e.key);
    }
    forall k | Edge(right, right, k) in edges
      ensures Edge(left, left, k) in result
    {
      assert Redirect(Edge(right, right, k), left, right) == Edge(left, left, k);
    }
    forall x | x in KeysOf(edges)
      ensures x in KeysOf(result)
    {
      var e :| e in edges && e.key == x;
      assert Redirect(e, left, right) in result;
    }
    ImageCardinality(edges, left, right);
  }

  /** The keys of a set of edges. */
  function KeysOf(edges: set<Edge>): set<Id>
  {
    set e | e in edges :: e.key
  }

  lemma ImageCardinality(edges: set<Edge>, left: Id, right: Id)
    ensures |RedirectAll(edges, left, right)| <= |edges|
    decreases |edges|
  {
    if edges != {} {
      var e :| e in edges;
      var rest := edges - {e};
      ImageCardinality(rest, left, right);
      assert RedirectAll(edges, left, right) == RedirectAll(rest, left, right) + {Redirect(e, left, right)};
    }
  }

  /** The lookup table after `for pid in parts: table[pid] = left`. */
  function Remap(table: map<Id, Id>, parts: seq<Id>, left: Id): (r: map<Id, Id>)
    ensures r.Keys == table.Keys + (set p | p in parts)
    ensures forall p | p in r :: r[p] == if p in parts then left else table[p]
  {
    map p | p in table.Keys + (set q | q in parts) :: if p in parts then left else table[p]
  }

  /** Repointing the parts one at a time: after `parts + [x]` the table is the table after
      `parts` with `x` repointed to `left`. */
  lemma RemapStep(table: map<Id, Id>, parts: seq<Id>, x: Id, left: Id)
    ensures Remap(table, parts + [x], left) == Remap(table, parts, left)[x := left]
  {
    var a, b := Remap(table, parts + [x], left), Remap(table, parts, left)[x := left];
    assert forall p :: p in parts + [x] <==> p in parts || p == x;
    assert a.Keys == b.Keys;
  }

  /** One more in-edge re-attached. */
  lemma RetargetStep(es: set<Edge>, e: Edge, left: Id)
    ensures Retarget(es + {e}, left) == Retarget(es, left) + {Edge(e.src, left, e.key)}
  {
  }

  /** One more out-edge re-attached. */
  lemma ResourceStep(es: set<Edge>, e: Edge, left: Id)
    ensures Resource(es + {e}, left) == Resource(es, left) + {Edge(left, e.tgt, e.key)}
  {
  }
}
