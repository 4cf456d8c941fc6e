/** The connected-component accumulator of `experiments/dataset_components.py`: a list of
    sets of entity ids, to which each link adds the ids it connects. The sets that share
    an id with a new link are combined, with the link's ids, into the first of them. */
module DatasetComponents {
  import opened Common

  /** `set(items)`. */
  function ItemSet(items: seq<string>): set<string>
  {
    set x | x in items
  }

  /** `any(i in d for i in items)`: the component shares an id with the items. */
  predicate Hit(d: set<string>, s: set<string>)
  {
    !(d !! s)
  }

  /** The union of the components that share an id with `s`. */
  function UnionHits(ds: seq<set<string>>, s: set<string>): set<string>
  {
    if ds == [] then {} else (if Hit(ds[0], s) then ds[0] else {}) + UnionHits(ds[1..], s)
  }

  /** The components that share no id with `s`, in order. */
  function NonHits(ds: seq<set<string>>, s: set<string>): seq<set<string>>
  {
    if ds == [] then [] else (if Hit(ds[0], s) then [] else [ds[0]]) + NonHits(ds[1..], s)
  }

  /** The index of the first component that shares an id with `s`. */
  function FirstHit(ds: seq<set<string>>, s: set<string>): (r: Option<nat>)
    ensures r.Some? ==> r.value < |ds| && Hit(ds[r.value], s) && forall j | 0 <= j < r.value :: !Hit(ds[j], s)
    ensures r.None? ==> forall j | 0 <= j < |ds| :: !Hit(ds[j], s)
  {
    if ds == [] then None
    else if Hit(ds[0], s) then Some(0)
    else
      match FirstHit(ds[1..], s)
      case None => None
      case Some(k) => Some(k + 1)
  }

  /** What `add` does to the list: with no component hit, the items become a new last
      component; otherwise the first component hit absorbs the items and every later
      component hit, and the components not hit keep their order. */
  function AddS(ds: seq<set<string>>, s: set<string>): seq<set<string>>
  {
    match FirstHit(ds, s)
    case None => ds + [s]
    case Some(m) => ds[..m] + [ds[m] + s + UnionHits(ds[m + 1..], s)] + NonHits(ds[m + 1..], s)
  }

  /** The indices below `n` of the components that share an id with `s`, in increasing
      order: the `merge` list of the scan. */
  function HitsBelow(ds: seq<set<string>>, s: set<string>, n: nat): seq<nat>
    requires n <= |ds|
  {
    if n == 0 then [] else HitsBelow(ds, s, n - 1) + (if Hit(ds[n - 1], s) then [n - 1] else [])
  }

  /** The scan's `merge` list: indices of components hit, below `n`, in increasing order
      (so `merge.sort()` leaves it as it is), with no component hit between two of them,
      before the first or after the last. */
  ghost predicate HitList(ds: seq<set<string>>, s: set<string>, n: nat, h: seq<nat>)
    requires n <= |ds|
  {
    && (forall k | 0 <= k < |h| :: h[0] <= h[k] < n && Hit(ds[h[k]], s))
    && (forall k | 0 < k < |h| :: h[k - 1] < h[k] && forall j | h[k - 1] < j < h[k] :: !Hit(ds[j], s))
    && (forall j | 0 <= j < n && (h == [] || j < h[0] || h[|h| - 1] < j) :: !Hit(ds[j], s))
  }

  lemma HitListSkip(ds: seq<set<string>>, s: set<string>, n: nat, h: seq<nat>)
    requires n < |ds| && HitList(ds, s, n, h) && !Hit(ds[n], s)
    ensures HitList(ds, s, n + 1, h)
  {
  }

  lemma HitListTake(ds: seq<set<string>>, s: set<string>, n: nat, h: seq<nat>)
    requires n < |ds| && HitList(ds, s, n, h) && Hit(ds[n], s)
    ensures HitList(ds, s, n + 1, h + [n])
  {
    var h2 := h + [n];
    assert forall k | 0 <= k < |h| :: h2[k] == h[k];
    assert h2[|h|] == n;
    forall k | 0 <= k < |h2|
      ensures h2[0] <= h2[k] < n + 1 && Hit(ds[h2[k]], s)
    {
    }
    forall k | 0 < k < |h2|
      ensures h2[k - 1] < h2[k] && forall j | h2[k - 1] < j < h2[k] :: !Hit(ds[j], s)
    {
      if k == |h| {
        assert h2[k - 1] == h[|h| - 1];
      }
    }
    forall j | 0 <= j < n + 1 && (j < h2[0] || h2[|h2| - 1] < j)
      ensures !Hit(ds[j], s)
    {
    }
  }

  lemma {:induction false} HitsBelowList(ds: seq<set<string>>, s: set<string>, n: nat)
    requires n <= |ds|
    ensures HitList(ds, s, n, HitsBelow(ds, s, n))
    decreases n
  {
    if n > 0 {
      var j := n - 1;
      var h := HitsBelow(ds, s, j);
      HitsBelowList(ds, s, j);
      if Hit(ds[j], s) {
        assert HitsBelow(ds, s, n) == h + [j];
        HitListTake(ds, s, j, h);
      } else {
        assert HitsBelow(ds, s, n) == h;
        HitListSkip(ds, s, j, h);
      }
    }
  }

  /** The first entry of the scan's list is the first component hit. */
  lemma FirstHitAt(ds: seq<set<string>>, s: set<string>, h: seq<nat>)
    requires HitList(ds, s, |ds|, h)
    ensures h == [] ==> FirstHit(ds, s) == None
    ensures h != [] ==> FirstHit(ds, s) == Some(h[0])
  {
    match FirstHit(ds, s)
    case None =>
    case Some(v) =>
      assert Hit(ds[v], s);
  }

  /** The list during the pops: everything up to the component `b` still in place, with
      the first component hit `m` holding the items and the hit components after `b`, and
      the components after `b` that were not hit. */
  function Frame(ds: seq<set<string>>, s: set<string>, m: nat, b: nat): seq<set<string>>
    requires m <= b < |ds|
  {
    ds[..b + 1][m := ds[m] + s + UnionHits(ds[b + 1..], s)] + NonHits(ds[b + 1..], s)
  }

  lemma {:induction false} UnionHitsAppend(a: seq<set<string>>, b: seq<set<string>>, s: set<string>)
    ensures UnionHits(a + b, s) == UnionHits(a, s) + UnionHits(b, s)
  {
    if a != [] {
      assert (a + b)[0] == a[0] && (a + b)[1..] == a[1..] + b;
      UnionHitsAppend(a[1..], b, s);
    } else {
      assert a + b == b;
    }
  }

  lemma {:induction false} NonHitsAppend(a: seq<set<string>>, b: seq<set<string>>, s: set<string>)
    ensures NonHits(a + b, s) == NonHits(a, s) + NonHits(b, s)
  {
    if a != [] {
      assert (a + b)[0] == a[0] && (a + b)[1..] == a[1..] + b;
      NonHitsAppend(a[1..], b, s);
    } else {
      assert a + b == b;
    }
  }

  /** A run of components none of which is hit adds nothing to the union and is kept
      whole. */
  lemma {:induction false} NoHits(a: seq<set<string>>, s: set<string>)
    requires forall j | 0 <= j < |a| :: !Hit(a[j], s)
    ensures UnionHits(a, s) == {} && NonHits(a, s) == a
  {
    if a != [] {
      NoHits(a[1..], s);
    }
  }

  /** One component, hit: it goes to the union and is not kept. */
  lemma HitOne(d: set<string>, s: set<string>)
    requires Hit(d, s)
    ensures UnionHits([d], s) == d && NonHits([d], s) == []
  {
    assert [d][1..] == [];
  }

  /** Before any pop: the components after the last one hit are not hit. */
  lemma FrameStart(ds: seq<set<string>>, s: set<string>, m: nat, b: nat)
    requires m <= b < |ds| && forall j | b < j < |ds| :: !Hit(ds[j], s)
    ensures Frame(ds, s, m, b) == ds[m := ds[m] + s]
  {
    var tail := ds[b + 1..];
    forall j | 0 <= j < |tail|
      ensures !Hit(tail[j], s)
    {
      assert tail[j] == ds[b + 1 + j];
    }
    NoHits(tail, s);
    assert ds[m] + s + UnionHits(tail, s) == ds[m] + s;
    UpdateConcat(ds[..b + 1], tail, m, ds[m] + s);
    assert ds[..b + 1] + tail == ds;
  }

  lemma UpdateConcat(a: seq<set<string>>, g: seq<set<string>>, m: nat, v: set<string>)
    requires m < |a|
    ensures a[m := v] + g == (a + g)[m := v]
  {
  }

  /** Taking out the last element `x[b]` of a list and updating its element `m`. */
  lemma PopAt(x: seq<set<string>>, t: seq<set<string>>, m: nat, c: set<string>, v: set<string>)
    requires m + 1 < |x|
    ensures var f := x[m := c] + t;
      var b := |x| - 1;
      (f[..b] + f[b + 1..])[m := v] == x[..b][m := v] + t
  {
    var f := x[m := c] + t;
    var b := |x| - 1;
    assert f[..b] == x[..b][m := c];
    assert f[b + 1..] == t;
  }

  /** The components after a hit `b2`, when the next hit is `b`: the gap between them is
      kept whole and `b` goes to the union. */
  lemma GapFacts(ds: seq<set<string>>, s: set<string>, b2: nat, b: nat)
    requires b2 < b < |ds| && Hit(ds[b], s)
    requires forall j | b2 < j < b :: !Hit(ds[j], s)
    ensures UnionHits(ds[b2 + 1..], s) == ds[b] + UnionHits(ds[b + 1..], s)
    ensures NonHits(ds[b2 + 1..], s) == ds[b2 + 1..b] + NonHits(ds[b + 1..], s)
  {
    var gap := ds[b2 + 1..b];
    var tail := ds[b + 1..];
    forall j | 0 <= j < |gap|
      ensures !Hit(gap[j], s)
    {
      assert gap[j] == ds[b2 + 1 + j];
    }
    NoHits(gap, s);
    HitOne(ds[b], s);
    assert ds[b2 + 1..] == gap + [ds[b]] + tail;
    UnionHitsAppend(gap + [ds[b]], tail, s);
    UnionHitsAppend(gap, [ds[b]], s);
    NonHitsAppend(gap + [ds[b]], tail, s);
    NonHitsAppend(gap, [ds[b]], s);
  }

  /** One pop: `d.update(self.data.pop(b))` takes the hit component `b` out of the list
      and into component `m`, and the list is then the frame at the previous hit `b2`. */
  lemma FrameStep(ds: seq<set<string>>, s: set<string>, m: nat, b2: nat, b: nat)
    requires m <= b2 < b < |ds| && Hit(ds[b], s)
    requires forall j | b2 < j < b :: !Hit(ds[j], s)
    ensures var f := Frame(ds, s, m, b);
      var popped := f[..b] + f[b + 1..];
      popped[m := popped[m] + f[b]] == Frame(ds, s, m, b2)
  {
    GapFacts(ds, s, b2, b);
    var u := UnionHits(ds[b + 1..], s);
    var nt := NonHits(ds[b + 1..], s);
    var x := ds[..b + 1];
    var c := ds[m] + s + u;
    var v := c + ds[b];
    var f := Frame(ds, s, m, b);
    assert f == x[m := c] + nt;
    assert f[b] == ds[b] && f[m] == c;
    PopAt(x, nt, m, c, v);
    assert x[..b] == ds[..b2 + 1] + ds[b2 + 1..b];
    UpdateConcat(ds[..b2 + 1], ds[b2 + 1..b], m, v);
    assert v == ds[m] + s + UnionHits(ds[b2 + 1..], s);
  }

  /** After the last pop the list is the one `AddS` describes. */
  lemma FrameEnd(ds: seq<set<string>>, s: set<string>, m: nat)
    requires FirstHit(ds, s) == Some(m)
    ensures Frame(ds, s, m, m) == AddS(ds, s)
  {
    assert ds[..m + 1][m := ds[m] + s + UnionHits(ds[m + 1..], s)] == ds[..m] + [ds[m] + s + UnionHits(ds[m + 1..], s)];
  }

  /** The union of all components. */
  function Union(ds: seq<set<string>>): set<string>
  {
    if ds == [] then {} else ds[0] + Union(ds[1..])
  }

  /** `sum(len(d) for d in self.data)`. */
  function SumSizes(ds: seq<set<string>>): nat
  {
    if ds == [] then 0 else |ds[0]| + SumSizes(ds[1..])
  }

  /** No id lies in two components. */
  ghost predicate Disjoint(ds: seq<set<string>>)
  {
    forall i, j | 0 <= i < j < |ds| :: ds[i] !! ds[j]
  }

  /** An id of the union lies in one of the components. */
  lemma {:induction false} UnionHas(ds: seq<set<string>>, x: string)
    ensures x in Union(ds) <==> exists j | 0 <= j < |ds| :: x in ds[j]
  {
    if ds != [] {
      UnionHas(ds[1..], x);
      if exists j | 0 <= j < |ds| :: x in ds[j] {
        var j :| 0 <= j < |ds| && x in ds[j];
        if j > 0 {
          assert ds[1..][j - 1] == ds[j];
        }
      }
    }
  }

  lemma {:induction false} UnionAppend(a: seq<set<string>>, b: seq<set<string>>)
    ensures Union(a + b) == Union(a) + Union(b)
  {
    if a != [] {
      assert (a + b)[0] == a[0] && (a + b)[1..] == a[1..] + b;
      UnionAppend(a[1..], b);
    } else {
      assert a + b == b;
    }
  }

  /** The components hit and the components not hit together hold every id. */
  lemma {:induction false} UnionSplit(ds: seq<set<string>>, s: set<string>)
    ensures Union(NonHits(ds, s)) + UnionHits(ds, s) == Union(ds)
  {
    if ds != [] {
      UnionSplit(ds[1..], s);
      var head := if Hit(ds[0], s) then [] else [ds[0]];
      UnionAppend(head, NonHits(ds[1..], s));
      assert Union([ds[0]]) == ds[0] by {
        assert [ds[0]][1..] == [];
      }
    }
  }


  /** With disjoint components the number of nodes is the size of the union. */
  lemma {:induction false} SumSizesUnion(ds: seq<set<string>>)
    requires Disjoint(ds)
    ensures SumSizes(ds) == |Union(ds)|
  {
    if ds != [] {
      var rest := ds[1..];
      DisjointSlice(ds, 1, |ds|);
      SumSizesUnion(rest);
      forall x | x in ds[0]
        ensures x !in Union(rest)
      {
        forall j | 0 <= j < |rest|
          ensures x !in rest[j]
        {
          assert rest[j] == ds[j + 1];
        }
        UnionHas(rest, x);
      }
      assert ds[0] !! Union(rest);
    }
  }

  /** A slice of disjoint components is disjoint. */
  lemma DisjointSlice(ds: seq<set<string>>, lo: nat, hi: nat)
    requires Disjoint(ds) && lo <= hi <= |ds|
    ensures Disjoint(ds[lo..hi])
  {
    var r := ds[lo..hi];
    forall i, j | 0 <= i < j < |r|
      ensures r[i] !! r[j]
    {
      assert r[i] == ds[lo + i] && r[j] == ds[lo + j];
    }
  }

  /** No component of `a` shares an id with a component of `b`. */
  ghost predicate Apart(a: seq<set<string>>, b: seq<set<string>>)
  {
    forall i, j | 0 <= i < |a| && 0 <= j < |b| :: a[i] !! b[j]
  }

  lemma DisjointConcat(a: seq<set<string>>, b: seq<set<string>>)
    requires Disjoint(a) && Disjoint(b) && Apart(a, b)
    ensures Disjoint(a + b)
  {
    var r := a + b;
    forall i, j | 0 <= i < j < |r|
      ensures r[i] !! r[j]
    {
      if j < |a| {
        assert r[i] == a[i] && r[j] == a[j];
      } else if i < |a| {
        assert r[i] == a[i] && r[j] == b[j - |a|];
      } else {
        assert r[i] == b[i - |a|] && r[j] == b[j - |a|];
      }
    }
  }

  /** The summed size counts the distinct ids whenever the components are disjoint. */
  lemma NodeCount(ds: seq<set<string>>)
    ensures Disjoint(ds) ==> SumSizes(ds) == |Union(ds)|
  {
    if Disjoint(ds) {
      SumSizesUnion(ds);
    }
  }

  /** Adding items grows the union by exactly the items. */
  lemma AddUnion(ds: seq<set<string>>, s: set<string>)
    ensures Union(AddS(ds, s)) == Union(ds) + s
  {
    match FirstHit(ds, s)
    case None =>
      UnionAppend(ds, [s]);
      assert Union([s]) == s by {
        assert [s][1..] == [];
      }
    case Some(m) =>
      var c := ds[m] + s + UnionHits(ds[m + 1..], s);
      var rest := ds[m + 1..];
      UnionAppend(ds[..m] + [c], NonHits(rest, s));
      UnionAppend(ds[..m], [c]);
      assert Union([c]) == c by {
        assert [c][1..] == [];
      }
      UnionSplit(rest, s);
      assert ds == ds[..m] + [ds[m]] + rest;
      UnionAppend(ds[..m] + [ds[m]], rest);
      UnionAppend(ds[..m], [ds[m]]);
      assert Union([ds[m]]) == ds[m] by {
        assert [ds[m]][1..] == [];
      }
  }

  /** The number of components hit. */
  function CountHits(ds: seq<set<string>>, s: set<string>): nat
  {
    if ds == [] then 0 else (if Hit(ds[0], s) then 1 else 0) + CountHits(ds[1..], s)
  }

  lemma {:induction false} NonHitsCount(ds: seq<set<string>>, s: set<string>)
    ensures |NonHits(ds, s)| + CountHits(ds, s) == |ds|
  {
    if ds != [] {
      NonHitsCount(ds[1..], s);
    }
  }

  /** The list grows by one component when none is hit, and shrinks by `k - 1` when `k`
      are hit. */
  lemma AddCount(ds: seq<set<string>>, s: set<string>)
    ensures CountHits(ds, s) == 0 ==> |AddS(ds, s)| == |ds| + 1
    ensures CountHits(ds, s) > 0 ==> |AddS(ds, s)| == |ds| - CountHits(ds, s) + 1
  {
    match FirstHit(ds, s)
    case None =>
      NoHitsCount(ds, s);
    case Some(m) =>
      NonHitsCount(ds[m + 1..], s);
      CountFromFirst(ds, s, m);
  }

  /** The hits are the first one and those after it. */
  lemma CountFromFirst(ds: seq<set<string>>, s: set<string>, m: nat)
    requires FirstHit(ds, s) == Some(m)
    ensures CountHits(ds, s) == 1 + CountHits(ds[m + 1..], s)
  {
    var pre := ds[..m];
    var rest := ds[m + 1..];
    forall j | 0 <= j < |pre|
      ensures !Hit(pre[j], s)
    {
      assert pre[j] == ds[j];
    }
    NoHitsCount(pre, s);
    assert CountHits([ds[m]], s) == 1 by {
      assert [ds[m]][1..] == [];
    }
    assert ds == pre + [ds[m]] + rest;
    CountAppend(pre + [ds[m]], rest, s);
    CountAppend(pre, [ds[m]], s);
  }

  lemma {:induction false} NoHitsCount(ds: seq<set<string>>, s: set<string>)
    requires forall j | 0 <= j < |ds| :: !Hit(ds[j], s)
    ensures CountHits(ds, s) == 0
  {
    if ds != [] {
      NoHitsCount(ds[1..], s);
    }
  }

  lemma {:induction false} CountAppend(a: seq<set<string>>, b: seq<set<string>>, s: set<string>)
    ensures CountHits(a + b, s) == CountHits(a, s) + CountHits(b, s)
  {
    if a != [] {
      assert (a + b)[0] == a[0] && (a + b)[1..] == a[1..] + b;
      CountAppend(a[1..], b, s);
    } else {
      assert a + b == b;
    }
  }


  /** Every component kept unhit is one of the original components, not hit. */
  lemma {:induction false} NonHitsFrom(ds: seq<set<string>>, s: set<string>, k: nat) returns (j: nat)
    requires k < |NonHits(ds, s)|
    ensures j < |ds| && NonHits(ds, s)[k] == ds[j] && !Hit(ds[j], s)
  {
    if Hit(ds[0], s) {
      var j1 := NonHitsFrom(ds[1..], s, k);
      j := j1 + 1;
    } else if k > 0 {
      var j1 := NonHitsFrom(ds[1..], s, k - 1);
      j := j1 + 1;
    } else {
      j := 0;
    }
  }

  /** An id that lies in no hit component is not in the union of the hit ones. */
  lemma {:induction false} NotInUnionHits(ds: seq<set<string>>, s: set<string>, x: string)
    requires forall j | 0 <= j < |ds| :: x in ds[j] ==> !Hit(ds[j], s)
    ensures x !in UnionHits(ds, s)
  {
    if ds != [] {
      var rest := ds[1..];
      forall j | 0 <= j < |rest|
        ensures x in rest[j] ==> !Hit(rest[j], s)
      {
        assert rest[j] == ds[j + 1];
      }
      NotInUnionHits(rest, s, x);
    }
  }

  /** Dropping the hit components keeps the others disjoint. */
  lemma {:induction false} NonHitsDisjoint(ds: seq<set<string>>, s: set<string>)
    requires Disjoint(ds)
    ensures Disjoint(NonHits(ds, s))
  {
    if ds != [] {
      var rest := ds[1..];
      DisjointSlice(ds, 1, |ds|);
      NonHitsDisjoint(rest, s);
      var nr := NonHits(rest, s);
      if !Hit(ds[0], s) {
        forall i, k | 0 <= i < 1 && 0 <= k < |nr|
          ensures [ds[0]][i] !! nr[k]
        {
          var j := NonHitsFrom(rest, s, k);
          assert rest[j] == ds[j + 1];
        }
        DisjointConcat([ds[0]], nr);
      }
    }
  }

  /** `add` keeps the components disjoint. */
  lemma AddDisjoint(ds: seq<set<string>>, s: set<string>)
    requires Disjoint(ds)
    ensures Disjoint(AddS(ds, s))
  {
    match FirstHit(ds, s)
    case None =>
      forall i, j | 0 <= i < |ds| && 0 <= j < 1
        ensures ds[i] !! [s][j]
      {
        assert !Hit(ds[i], s);
      }
      DisjointConcat(ds, [s]);
    case Some(m) =>
      var c := ds[m] + s + UnionHits(ds[m + 1..], s);
      DisjointSlice(ds, 0, m);
      PreApart(ds, s, m);
      DisjointConcat(ds[..m], [c]);
      DisjointSlice(ds, m + 1, |ds|);
      NonHitsDisjoint(ds[m + 1..], s);
      KeptApart(ds, s, m);
      DisjointConcat(ds[..m] + [c], NonHits(ds[m + 1..], s));
  }

  /** The components before the first hit share no id with the merged component. */
  lemma PreApart(ds: seq<set<string>>, s: set<string>, m: nat)
    requires Disjoint(ds) && FirstHit(ds, s) == Some(m)
    ensures Apart(ds[..m], [ds[m] + s + UnionHits(ds[m + 1..], s)])
  {
    var rest := ds[m + 1..];
    forall i | 0 <= i < m
      ensures ds[i] !! UnionHits(rest, s)
    {
      forall x | x in ds[i]
        ensures x !in UnionHits(rest, s)
      {
        forall j | 0 <= j < |rest|
          ensures x !in rest[j]
        {
          assert rest[j] == ds[m + 1 + j];
        }
        NotInUnionHits(rest, s, x);
      }
    }
    forall i, j | 0 <= i < m && 0 <= j < 1
      ensures ds[..m][i] !! [ds[m] + s + UnionHits(rest, s)][j]
    {
      assert ds[..m][i] == ds[i] && !Hit(ds[i], s);
    }
  }

  /** A component kept after the first hit shares no id with the merged component nor
      with a component before the first hit. */
  lemma KeptApart(ds: seq<set<string>>, s: set<string>, m: nat)
    requires Disjoint(ds) && FirstHit(ds, s) == Some(m)
    ensures Apart(ds[..m] + [ds[m] + s + UnionHits(ds[m + 1..], s)], NonHits(ds[m + 1..], s))
  {
    var rest := ds[m + 1..];
    var a := ds[..m] + [ds[m] + s + UnionHits(rest, s)];
    var nr := NonHits(rest, s);
    forall i, k | 0 <= i < |a| && 0 <= k < |nr|
      ensures a[i] !! nr[k]
    {
      var j := NonHitsFrom(rest, s, k);
      assert rest[j] == ds[m + 1 + j];
      if i < m {
        assert a[i] == ds[i];
      } else {
        forall x | x in rest[j]
          ensures x !in UnionHits(rest, s)
        {
          forall j2 | 0 <= j2 < |rest|
            ensures x in rest[j2] ==> !Hit(rest[j2], s)
          {
            if j2 != j {
              assert rest[j2] == ds[m + 1 + j2];
            }
          }
          NotInUnionHits(rest, s, x);
        }
      }
    }
  }

  /** `Components`: the list of components, `data`. */
  class Components {
    var data: seq<set<string>>

    /** `Components()`: no component yet. */
    constructor ()
      ensures data == []
    {
      data := [];
    }

    /** `add(*items)`: with no component sharing an id with the items they become a new
        component; otherwise the first component hit absorbs the items and then, when
        several were hit, the later ones. */
    method Add(items: seq<string>)
      modifies this
      ensures data == AddS(old(data), ItemSet(items))
      ensures Disjoint(old(data)) ==> Disjoint(data)
    {
      var s := ItemSet(items);
      ghost var d0 := data;
      var found, merge := Scan(s);
      HitsBelowList(d0, s, |d0|);
      FirstHitAt(d0, s, merge);
      if !found {
        data := data + [s];
      } else {
        FrameStart(d0, s, merge[0], merge[|merge| - 1]);
        if |merge| > 1 {
          // `merge.sort()` leaves the list as it is: the scan appended the indices in
          // increasing order
          PopLater(d0, s, merge);
        }
        FrameEnd(d0, s, merge[0]);
      }
      if Disjoint(d0) {
        AddDisjoint(d0, s);
      }
    }

    /** The scan of `add`: every component that shares an id with the items is marked
        in `merge`, and the first of them absorbs the items. */
    method Scan(s: set<string>) returns (found: bool, merge: seq<nat>)
      modifies this
      ensures merge == HitsBelow(old(data), s, |old(data)|)
      ensures found <==> merge != []
      ensures !found ==> data == old(data)
      ensures found ==> merge[0] < |old(data)| && data == old(data)[merge[0] := old(data)[merge[0]] + s]
    {
      ghost var d0 := data;
      found := false;
      merge := [];
      for i := 0 to |data|
        invariant |data| == |d0|
        invariant merge == HitsBelow(d0, s, i)
        invariant found <==> merge != []
        invariant !found ==> data == d0
        invariant found ==> merge[0] < i && data == d0[merge[0] := d0[merge[0]] + s]
      {
        if Hit(data[i], s) {
          if !found {
            data := data[i := data[i] + s];
            found := true;
          }
          merge := merge + [i];
        }
      }
    }

    /** The pops of `add`: the later components hit, last first, are taken out of the
        list and into the first one hit. */
    method PopLater(ghost d0: seq<set<string>>, s: set<string>, merge: seq<nat>)
      requires |merge| > 0 && HitList(d0, s, |d0|, merge)
      requires data == Frame(d0, s, merge[0], merge[|merge| - 1])
      modifies this
      ensures data == Frame(d0, s, merge[0], merge[0])
    {
      var m := merge[0];
      var t := |merge| - 1;
      while t > 0
        invariant 0 <= t < |merge|
        invariant data == Frame(d0, s, m, merge[t])
      {
        var i := merge[t];
        FrameStep(d0, s, m, merge[t - 1], i);
        var popped := data[i];
        data := data[..i] + data[i + 1..];
        data := data[m := data[m] + popped];
        t := t - 1;
      }
    }

    /** `components()`: the list itself. */
    function Parts(): (r: seq<set<string>>)
      reads this
      ensures r == data
    {
      data
    }

    /** `n_nodes()`: the summed size of the components, which is the number of distinct
        ids when the components are disjoint. */
    function NNodes(): (n: nat)
      reads this
      ensures Disjoint(data) ==> n == |Union(data)|
    {
      NodeCount(data);
      SumSizes(data)
    }
  }
}
