/** The degree filters of `operations/graph.py`. Each keeps the nodes of the graph's
    network chosen by their degree, with their data and the edges between them. The
    network is taken as a value and the result is given as its surviving nodes and edges;
    wrapping it into a new `EntityGraph` (`EntityGraph.from_networkx`) is not part of this
    model. */
module Filters {
  import opened Common
  import opened NodeModel
  import opened Backend

  /** A network as a value: the node data by id and the edge triples. */
  datatype Net = Net(nodes: map<Id, NodeState>, edges: set<Edge>)

  /** Every node stored under its own id and no dangling edge. */
  ghost predicate Ok(n: Net)
  {
    NetOk(n.nodes, n.edges)
  }

  /** `network.degree()` of `v` in a `MultiDiGraph`: its in-edges plus its out-edges, so a
      self-loop counts twice. */
  function Degree(edges: set<Edge>, v: Id): nat
  {
    |InOf(edges, v)| + |OutOf(edges, v)|
  }

  /** The edges with both ends in `keep`. */
  function Within(edges: set<Edge>, keep: set<Id>): set<Edge>
  {
    set e | e in edges && e.src in keep && e.tgt in keep
  }

  /** `network.subgraph(keep)`: the nodes of `keep`, their data, and the edges with both
      ends in `keep`. */
  function Subgraph(n: Net, keep: set<Id>): Net
  {
    Net(map v | v in n.nodes.Keys * keep :: n.nodes[v], Within(n.edges, keep))
  }

  /** `r` is the subgraph of `n` induced by its own nodes. */
  ghost predicate Induced(r: Net, n: Net)
  {
    && r.nodes.Keys <= n.nodes.Keys
    && (forall v | v in r.nodes :: r.nodes[v] == n.nodes[v])
    && r.edges == Within(n.edges, r.nodes.Keys)
  }

  /** The test of `filter_degree_range`: a None bound is not checked, the lower bound is
      inclusive and the upper bound exclusive. */
  predicate InRange(d: int, lo: Option<int>, hi: Option<int>)
  {
    (lo.None? || d >= lo.value) && (hi.None? || d < hi.value)
  }

  /** The nodes whose degree, taken once in the whole network, passes the test. */
  function RangeKeep(n: Net, lo: Option<int>, hi: Option<int>): set<Id>
  {
    set v | v in n.nodes && InRange(Degree(n.edges, v), lo, hi)
  }

  /** `filter_degree_range(G, (lo, hi))`: exactly the nodes whose degree in the network
      lies in the range survive, with their data, and an edge survives exactly when both
      of its ends do. */
  function FilterDegreeRange(n: Net, lo: Option<int>, hi: Option<int>): (r: Net)
    requires Ok(n)
    ensures Ok(r) && Induced(r, n)
    ensures forall v :: v in r.nodes <==> v in n.nodes && InRange(Degree(n.edges, v), lo, hi)
  {
    var keep := RangeKeep(n, lo, hi);
    var r := Subgraph(n, keep);
    assert r.nodes.Keys == keep;
    r
  }

  /** `filter_degree_min(G, m)`: the nodes of degree at least `m`. */
  function FilterDegreeMin(n: Net, m: int): (r: Net)
    requires Ok(n)
    ensures Ok(r) && Induced(r, n)
    ensures forall v :: v in r.nodes <==> v in n.nodes && Degree(n.edges, v) >= m
  {
    FilterDegreeRange(n, Some(m), None)
  }

  /** `filter_degree_max(G, m)`: the nodes of degree below `m`; a node of degree exactly
      `m` is dropped. */
  function FilterDegreeMax(n: Net, m: int): (r: Net)
    requires Ok(n)
    ensures Ok(r) && Induced(r, n)
    ensures forall v :: v in r.nodes <==> v in n.nodes && Degree(n.edges, v) < m
  {
    FilterDegreeRange(n, None, Some(m))
  }

  /** A two-sided range keeps exactly the nodes and edges both one-sided filters keep. */
  lemma RangeIsMinAndMax(n: Net, lo: int, hi: int)
    requires Ok(n)
    ensures var r := FilterDegreeRange(n, Some(lo), Some(hi));
      && r.nodes.Keys == FilterDegreeMin(n, lo).nodes.Keys * FilterDegreeMax(n, hi).nodes.Keys
      && r.edges == FilterDegreeMin(n, lo).edges * FilterDegreeMax(n, hi).edges
  {
    var r, a, b := FilterDegreeRange(n, Some(lo), Some(hi)), FilterDegreeMin(n, lo), FilterDegreeMax(n, hi);
    assert r.nodes.Keys == a.nodes.Keys * b.nodes.Keys;
  }

  /** With neither bound the filter returns the network unchanged. */
  lemma RangeUnbounded(n: Net)
    requires Ok(n)
    ensures FilterDegreeRange(n, None, None) == n
  {
    var r := FilterDegreeRange(n, None, None);
    assert r.nodes.Keys == n.nodes.Keys;
    assert r.nodes == n.nodes;
    assert r.edges == n.edges;
  }

  /** Widening the range never drops a node or an edge. */
  lemma RangeMonotone(n: Net, lo: Option<int>, hi: Option<int>, lo2: Option<int>, hi2: Option<int>)
    requires Ok(n)
    requires lo2.None? || (lo.Some? && lo2.value <= lo.value)
    requires hi2.None? || (hi.Some? && hi.value <= hi2.value)
    ensures FilterDegreeRange(n, lo, hi).nodes.Keys <= FilterDegreeRange(n, lo2, hi2).nodes.Keys
    ensures FilterDegreeRange(n, lo, hi).edges <= FilterDegreeRange(n, lo2, hi2).edges
  {
  }

  /** The network left by the first `i` rounds of `filter_kcore`: round `j` (counting
      from 1) keeps the nodes of degree at least `j` in the network the rounds before it
      left. */
  function Rounds(n: Net, i: nat): (r: Net)
    requires Ok(n)
    ensures Ok(r) && Induced(r, n)
    decreases i
  {
    if i == 0 then
      WithinAll(n);
      n
    else
      var prev := Rounds(n, i - 1);
      var r := FilterDegreeMin(prev, i);
      WithinTwice(n.edges, prev.nodes.Keys, r.nodes.Keys);
      r
  }

  /** `filter_kcore(G, k)`: `k` rounds (none when `k` is negative), round `i` taking the
      degrees of the current network and keeping the subgraph on the nodes of degree at
      least `i + 1`. */
  method FilterKCore(n: Net, k: int) returns (r: Net)
    requires Ok(n)
    ensures r == Rounds(n, if k < 0 then 0 else k)
    ensures k <= 0 ==> r == n
  {
    r := n;
    // `range(k)` is empty for a negative `k`
    var rounds := if k < 0 then 0 else k;
    for i := 0 to rounds
      invariant r == Rounds(n, i)
    {
      // the nodes whose degree `d` in the current network has `d >= i + 1`
      var keep := RangeKeep(r, Some(i + 1), None);
      RoundsStep(n, i);
      r := Subgraph(r, keep);
    }
  }

  /** Each round keeps a part of the network the round before it left. */
  lemma RoundsShrink(n: Net, i: nat)
    requires Ok(n)
    ensures Rounds(n, i + 1).nodes.Keys <= Rounds(n, i).nodes.Keys
    ensures Rounds(n, i + 1).edges <= Rounds(n, i).edges
  {
  }

  /** A node the first `k - 1` rounds left survives round `k` exactly when its degree
      there is at least `k`. */
  lemma LastRound(n: Net, k: nat, v: Id)
    requires Ok(n) && k > 0 && v in Rounds(n, k - 1).nodes
    ensures v in Rounds(n, k).nodes <==> Degree(Rounds(n, k - 1).edges, v) >= k
  {
  }

  /** Every node has degree at least `k`. */
  ghost predicate MinDegree(n: Net, k: int)
  {
    forall v | v in n.nodes :: Degree(n.edges, v) >= k
  }

  /** Every node of `s` has degree at least `k` among the edges with both ends in `s`. */
  ghost predicate MinDegreeOn(edges: set<Edge>, s: set<Id>, k: int)
  {
    forall v | v in s :: Degree(Within(edges, s), v) >= k
  }

  /** The k-core: peel away every node of degree below `k`, again and again, until no
      node is left to peel. */
  function Core(n: Net, k: int): (r: Net)
    requires Ok(n)
    ensures Ok(r) && Induced(r, n) && MinDegree(r, k)
    decreases |n.nodes.Keys|
  {
    var p := FilterDegreeMin(n, k);
    if p.nodes.Keys == n.nodes.Keys then
      WithinAll(n);
      n
    else
      CardLess(p.nodes.Keys, n.nodes.Keys);
      var r := Core(p, k);
      WithinTwice(n.edges, p.nodes.Keys, r.nodes.Keys);
      r
  }

  /** Any set of nodes whose induced subgraph has minimum degree `k` lies inside the
      k-core: the k-core is the largest such subgraph. */
  lemma {:induction false} CoreMaximal(n: Net, k: int, s: set<Id>)
    requires Ok(n) && s <= n.nodes.Keys && MinDegreeOn(n.edges, s, k)
    ensures s <= Core(n, k).nodes.Keys
    decreases |n.nodes.Keys|
  {
    var p := FilterDegreeMin(n, k);
    SurvivesPeel(n, s, k);
    if p.nodes.Keys != n.nodes.Keys {
      CardLess(p.nodes.Keys, n.nodes.Keys);
      WithinTwice(n.edges, p.nodes.Keys, s);
      CoreMaximal(p, k, s);
    }
  }

  /** The as-written filter keeps the whole k-core: every node of the k-core survives
      each of the `k` rounds. */
  lemma CoreWithinRounds(n: Net, k: nat, i: nat)
    requires Ok(n) && i <= k
    ensures Core(n, k).nodes.Keys <= Rounds(n, i).nodes.Keys
  {
    var c := Core(n, k);
    assert MinDegreeOn(n.edges, c.nodes.Keys, k);
    DenseWithinRounds(n, c.nodes.Keys, k, i);
  }

  /** A node set whose induced subgraph has minimum degree `k` survives each of the first
      `k` rounds. */
  lemma {:induction false} DenseWithinRounds(n: Net, s: set<Id>, k: nat, i: nat)
    requires Ok(n) && s <= n.nodes.Keys && MinDegreeOn(n.edges, s, k) && i <= k
    ensures s <= Rounds(n, i).nodes.Keys
    decreases i
  {
    if i > 0 {
      var j := i - 1;
      DenseWithinRounds(n, s, k, j);
      var prev := Rounds(n, j);
      assert s <= prev.nodes.Keys;
      RoundsStep(n, j);
      WithinTwice(n.edges, prev.nodes.Keys, s);
      SurvivesPeel(prev, s, i);
    }
  }

  /** Round `i + 1` peels the network the first `i` rounds left at degree `i + 1`. */
  lemma RoundsStep(n: Net, i: nat)
    requires Ok(n)
    ensures Rounds(n, i + 1) == FilterDegreeMin(Rounds(n, i), i + 1)
  {
  }

  /** The corrected filter: peel until every node left has degree at least `k`. */
  method FilterKCoreFixed(n: Net, k: int) returns (r: Net)
    requires Ok(n)
    ensures r == Core(n, k)
    ensures k <= 0 ==> r == n
  {
    if k <= 0 {
      CoreNonPositive(n, k);
    }
    r := n;
    var p := FilterDegreeMin(r, k);
    while p.nodes.Keys != r.nodes.Keys
      invariant Ok(r) && Core(r, k) == Core(n, k) && p == FilterDegreeMin(r, k)
      decreases |r.nodes.Keys|
    {
      CardLess(p.nodes.Keys, r.nodes.Keys);
      r := p;
      p := FilterDegreeMin(r, k);
    }
  }

  /** For `k <= 0` no node has degree below `k`, so the k-core is the whole network. */
  lemma CoreNonPositive(n: Net, k: int)
    requires Ok(n) && k <= 0
    ensures Core(n, k) == n
  {
    assert FilterDegreeMin(n, k).nodes.Keys == n.nodes.Keys;
  }

  /** A path a -> b -> c. */
  function PathNet(): Net
  {
    Net(map["a" := NodeState("a", [], map[]), "b" := NodeState("b", [], map[]), "c" := NodeState("c", [], map[])],
        {Edge("a", "b", "ab"), Edge("b", "c", "bc")})
  }

  /** As written, two rounds on the path a -> b -> c keep b alone, of degree 0, although
      the 2-core of the path is empty: the first round (degree at least 1) keeps the whole
      path and the second (degree at least 2) keeps only b, whose edges go with a and c. */
  lemma KCoreNotCore()
    ensures Ok(PathNet())
    ensures Rounds(PathNet(), 2).nodes.Keys == {"b"} && Degree(Rounds(PathNet(), 2).edges, "b") == 0
    ensures Core(PathNet(), 2).nodes == map[]
  {
    var n := PathNet();
    PathDegrees();
    var r1 := Rounds(n, 1);
    RoundsStep(n, 0);
    FirstPathRound(r1);
    var r2 := Rounds(n, 2);
    RoundsStep(n, 1);
    SecondPathRound(r1, r2);
    CoreOfPathEmpty();
  }

  /** Round 1 on the path keeps it whole: every node has degree at least 1. */
  lemma FirstPathRound(r1: Net)
    requires r1 == FilterDegreeMin(PathNet(), 1)
    ensures r1 == PathNet()
  {
    var n := PathNet();
    PathDegrees();
    assert r1.nodes.Keys == n.nodes.Keys;
    assert r1.nodes == n.nodes;
    WithinAll(n);
  }

  /** Round 2 on the whole path keeps b alone, without edges. */
  lemma SecondPathRound(r1: Net, r2: Net)
    requires r1 == PathNet() && r2 == FilterDegreeMin(r1, 2)
    ensures r2.nodes.Keys == {"b"} && Degree(r2.edges, "b") == 0
  {
    SecondPathRoundNodes(r1, r2);
    assert r2.edges == Within(r1.edges, {"b"});
    assert r2.edges == {};
    assert InOf(r2.edges, "b") == {} && OutOf(r2.edges, "b") == {};
  }

  /** Only b, of degree 2, passes round 2 on the whole path. */
  lemma SecondPathRoundNodes(r1: Net, r2: Net)
    requires r1 == PathNet() && r2 == FilterDegreeMin(r1, 2)
    ensures r2.nodes.Keys == {"b"}
  {
    PathDegrees();
    assert "a" !in r2.nodes && "b" in r2.nodes && "c" !in r2.nodes;
    assert r2.nodes.Keys <= r1.nodes.Keys;
  }

  /** The degrees on the path: 1, 2 and 1. */
  lemma PathDegrees()
    ensures Ok(PathNet())
    ensures Degree(PathNet().edges, "a") == 1 && Degree(PathNet().edges, "b") == 2 && Degree(PathNet().edges, "c") == 1
  {
    var n := PathNet();
    var ab, bc := Edge("a", "b", "ab"), Edge("b", "c", "bc");
    assert InOf(n.edges, "a") == {} && OutOf(n.edges, "a") == {ab};
    assert InOf(n.edges, "b") == {ab} && OutOf(n.edges, "b") == {bc};
    assert InOf(n.edges, "c") == {bc} && OutOf(n.edges, "c") == {};
  }

  /** The path has an empty 2-core. */
  lemma CoreOfPathEmpty()
    ensures Core(PathNet(), 2).nodes == map[]
  {
    PathDegrees();
    forall c: Net | Induced(c, PathNet()) && MinDegree(c, 2)
      ensures c.nodes == map[]
    {
      PathNoDense(c);
    }
    CoreEmpty(PathNet(), 2);
  }

  /** A network with no non-empty induced subgraph of minimum degree `k` has an empty
      k-core. */
  lemma CoreEmpty(n: Net, k: int)
    requires Ok(n)
    requires forall c: Net | Induced(c, n) && MinDegree(c, k) :: c.nodes == map[]
    ensures Core(n, k).nodes == map[]
  {
  }

  /** No non-empty subgraph of the path has minimum degree 2: a and c have degree 1, and
      b without them has none. */
  lemma PathNoDense(c: Net)
    requires Induced(c, PathNet()) && MinDegree(c, 2)
    ensures c.nodes == map[]
  {
    var n := PathNet();
    PathDegrees();
    assert c.edges <= n.edges;
    assert "a" !in c.nodes by {
      if "a" in c.nodes {
        DegreeMonotone(c.edges, n.edges, "a");
      }
    }
    assert "c" !in c.nodes by {
      if "c" in c.nodes {
        DegreeMonotone(c.edges, n.edges, "c");
      }
    }
    assert c.edges == {};
    assert InOf(c.edges, "b") == {} && OutOf(c.edges, "b") == {};
    assert c.nodes.Keys == {};
  }

  /** The edges within every node are all the edges. */
  lemma WithinAll(n: Net)
    requires Ok(n)
    ensures Within(n.edges, n.nodes.Keys) == n.edges
  {
  }

  /** The edges within `b` of the edges within `a` are the edges within `b`, for `b`
      inside `a`. */
  lemma WithinTwice(edges: set<Edge>, a: set<Id>, b: set<Id>)
    requires b <= a
    ensures Within(Within(edges, a), b) == Within(edges, b)
  {
  }

  /** A node set whose induced subgraph has minimum degree `t` survives a peel at `t`,
      because a node's degree only grows with the edges around it. */
  lemma SurvivesPeel(n: Net, s: set<Id>, t: int)
    requires Ok(n) && s <= n.nodes.Keys && MinDegreeOn(n.edges, s, t)
    ensures s <= FilterDegreeMin(n, t).nodes.Keys
  {
    forall v | v in s
      ensures Degree(n.edges, v) >= t
    {
      DegreeMonotone(Within(n.edges, s), n.edges, v);
    }
  }

  /** More edges, no smaller degree. */
  lemma DegreeMonotone(a: set<Edge>, b: set<Edge>, v: Id)
    requires a <= b
    ensures Degree(a, v) <= Degree(b, v)
  {
    CardMonotone(InOf(a, v), InOf(b, v));
    CardMonotone(OutOf(a, v), OutOf(b, v));
  }

  lemma CardLess<T>(a: set<T>, b: set<T>)
    requires a <= b && a != b
    ensures |a| < |b|
  {
    assert b == a + (b - a);
    assert b - a != {};
  }
}
