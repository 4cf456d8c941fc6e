/** Record-level operations: adding records to a graph one by one, and `merge_properties`,
    which groups nodes sharing a `prop:value` pair and asks the graph to merge each
    group. */
module ProxyOps {
  import opened Common
  import opened NodeModel
  import opened GraphSpec
  import opened Graph

  /** `add_entities(G, *entities)`, with the records already built from the entities:
      `add_proxy` on each in turn, collecting every record whose result is truthy. The
      result is a `(node, is_new)` pair, which is always truthy, so every record is
      collected, in input order. */
  method AddEntities(G: EntityGraph, ps: seq<Proxy>) returns (newProxies: seq<Proxy>)
    requires G.Valid()
    modifies G, G.network
    ensures G.Valid() && G.State() == AddProxiesS(old(G.State()), ps).state
    ensures newProxies == ps
  {
    ghost var g := G.State();
    ghost var rs: seq<(NodeState, bool)> := [];
    newProxies := [];
    var i := 0;
    AddProxiesStart(g, ps);
    while i < |ps|
      invariant 0 <= i <= |ps| && G.Valid()
      invariant AddProxiesLoop(g, G.State(), ps, i, rs)
      invariant newProxies == ps[..i]
    {
      rs := AddNext(G, ps[i], g, ps, i, rs);
      SnocPrefix(ps, i);
      // a two-element tuple is truthy
      newProxies := newProxies + [ps[i]];
      i := i + 1;
    }
    AddProxiesDone(g, G.State(), ps, rs);
    assert ps[..i] == ps;
  }

  /** One pass of the loop: `G.add_proxy` on the next record, which keeps the loop
      invariant of `add_proxies`. */
  method AddNext(G: EntityGraph, proxy: Proxy, ghost g0: GraphState, ghost ps: seq<Proxy>, ghost i: nat, ghost rs: seq<(NodeState, bool)>)
    returns (ghost rs2: seq<(NodeState, bool)>)
    requires G.Valid() && Inv(g0) && i < |ps| && proxy == ps[i] && AddProxiesLoop(g0, G.State(), ps, i, rs)
    modifies G, G.network
    ensures G.Valid() && AddProxiesLoop(g0, G.State(), ps, i + 1, rs2)
  {
    ghost var gi := G.State();
    var n, isNew := G.AddProxy(proxy, None);
    AddProxiesAdvance(g0, gi, ps, i, rs, AddProxyS(gi, ps[i], None));
    rs2 := rs + [(n, isNew)];
  }

  /** `add_entities_from_file(G, fd)`, where `records` are the records the lines of the
      file decode to (`json.loads` and `model.get_proxy` are not part of this model): the
      same loop as `add_entities`, so every record is added in file order and every one
      is collected. */
  method AddEntitiesFromFile(G: EntityGraph, records: seq<Proxy>) returns (newProxies: seq<Proxy>)
    requires G.Valid()
    modifies G, G.network
    ensures G.Valid() && G.State() == AddProxiesS(old(G.State()), records).state
    ensures newProxies == records
  {
    newProxies := AddEntities(G, records);
  }

  /** One record as `G.get_proxies()` yields it: the id of the node holding it and its
      `get_type_inverted()` pairs of property name and values, in dictionary order
      (`get_proxies` and `get_type_inverted` are not part of this model). */
  datatype Row = Row(canon: Id, inverted: seq<(string, seq<string>)>)

  /** The dedupe table: its keys in insertion order (the order `dict.items()` visits them)
      and the set of node ids recorded under each key. */
  datatype Table = Table(order: seq<string>, ids: map<string, set<Id>>)

  /** `f"{prop}:{value}"`. */
  function Key(prop: string, value: string): string
  {
    prop + ":" + value
  }

  /** `properties and prop not in properties` is false: no filter, or the property is
      in it. */
  predicate Wanted(props: set<string>, prop: string)
  {
    props == {} || prop in props
  }

  /** `dedupe_table[key].add(canon_id)` on a `defaultdict(set)`. */
  function Record(t: Table, key: string, id: Id): Table
  {
    if key in t.ids then Table(t.order, t.ids[key := t.ids[key] + {id}])
    else Table(t.order + [key], t.ids[key := {id}])
  }

  /** The table after recording every `(key, id)` pair of `es` in turn. */
  function RecordAll(t: Table, es: seq<(string, Id)>): Table
    decreases |es|
  {
    if es == [] then t else Record(RecordAll(t, es[..|es| - 1]), es[|es| - 1].0, es[|es| - 1].1)
  }

  /** The pairs the innermost loop records for one property's values. */
  function ValueEntries(canon: Id, prop: string, values: seq<string>): (es: seq<(string, Id)>)
    ensures |es| == |values| && forall i | 0 <= i < |values| :: es[i] == (Key(prop, values[i]), canon)
  {
    seq(|values|, i requires 0 <= i < |values| => (Key(prop, values[i]), canon))
  }

  /** The pairs the middle loop records for one record's properties. */
  function PropEntries(canon: Id, inv: seq<(string, seq<string>)>, props: set<string>): seq<(string, Id)>
    decreases |inv|
  {
    if inv == [] then []
    else
      var last := inv[|inv| - 1];
      PropEntries(canon, inv[..|inv| - 1], props)
        + (if Wanted(props, last.0) then ValueEntries(canon, last.0, last.1) else [])
  }

  /** The pairs the outer loop records for the records yielded so far. */
  function RowEntries(rows: seq<Row>, props: set<string>): seq<(string, Id)>
    decreases |rows|
  {
    if rows == [] then []
    else RowEntries(rows[..|rows| - 1], props) + PropEntries(rows[|rows| - 1].canon, rows[|rows| - 1].inverted, props)
  }

  /** Recording two runs of pairs is recording their concatenation. */
  lemma {:induction false} RecordAllAppend(t: Table, a: seq<(string, Id)>, b: seq<(string, Id)>)
    ensures RecordAll(RecordAll(t, a), b) == RecordAll(t, a + b)
    decreases |b|
  {
    if b == [] {
      assert a + b == a;
    } else {
      var n := |b| - 1;
      var b0 := b[..n];
      RecordAllAppend(t, a, b0);
      var ab := a + b;
      assert ab[..|ab| - 1] == a + b0;
      assert ab[|ab| - 1] == b[n];
      assert RecordAll(t, ab) == Record(RecordAll(t, a + b0), b[n].0, b[n].1);
    }
  }

  /** What the table means: a key is present exactly when some pair records it, the
      ids under it are exactly those recorded with it, and the order lists every key
      once. */
  ghost predicate TableOf(t: Table, es: seq<(string, Id)>)
  {
    && (forall key :: key in t.ids <==> exists i | 0 <= i < |es| :: es[i].0 == key)
    && (forall key, id | key in t.ids :: id in t.ids[key] <==> (key, id) in es)
    && (forall key :: key in t.order <==> key in t.ids)
    && (forall i, j | 0 <= i < j < |t.order| :: t.order[i] != t.order[j])
  }

  /** Recording one more pair keeps the key set right. */
  lemma RecordKeys(t0: Table, front: seq<(string, Id)>, e: (string, Id))
    requires forall key :: key in t0.ids <==> exists i | 0 <= i < |front| :: front[i].0 == key
    ensures var es := front + [e];
      forall key :: key in Record(t0, e.0, e.1).ids <==> exists i | 0 <= i < |es| :: es[i].0 == key
  {
    var es := front + [e];
    var t := Record(t0, e.0, e.1);
    forall key
      ensures key in t.ids <==> exists i | 0 <= i < |es| :: es[i].0 == key
    {
      if key in t0.ids {
        var i :| 0 <= i < |front| && front[i].0 == key;
        assert es[i] == front[i];
      }
      if key != e.0 && exists i | 0 <= i < |es| :: es[i].0 == key {
        var i :| 0 <= i < |es| && es[i].0 == key;
        assert i < |front| && front[i] == es[i];
      }
      assert es[|front|] == e;
    }
  }

  /** Recording one more pair keeps the ids under every key right. */
  lemma RecordIds(t0: Table, front: seq<(string, Id)>, e: (string, Id))
    requires forall key :: key in t0.ids ==> exists i | 0 <= i < |front| :: front[i].0 == key
    requires forall key, id | key in t0.ids :: id in t0.ids[key] <==> (key, id) in front
    requires forall i | 0 <= i < |front| :: front[i].0 in t0.ids
    ensures var es := front + [e];
      forall key, id | key in Record(t0, e.0, e.1).ids :: id in Record(t0, e.0, e.1).ids[key] <==> (key, id) in es
  {
    var es := front + [e];
    var t := Record(t0, e.0, e.1);
    forall key, id | key in t.ids
      ensures id in t.ids[key] <==> (key, id) in es
    {
      assert (key, id) in es <==> (key, id) in front || (key, id) == e;
      if (key, id) in front {
        var i :| 0 <= i < |front| && front[i] == (key, id);
        assert key in t0.ids;
      }
    }
  }

  /** Recording one more pair keeps the order listing every key once. */
  lemma RecordOrder(t0: Table, e: (string, Id))
    requires forall key :: key in t0.order <==> key in t0.ids
    requires forall i, j | 0 <= i < j < |t0.order| :: t0.order[i] != t0.order[j]
    ensures var t := Record(t0, e.0, e.1);
      && (forall key :: key in t.order <==> key in t.ids)
      && (forall i, j | 0 <= i < j < |t.order| :: t.order[i] != t.order[j])
  {
    var t := Record(t0, e.0, e.1);
    forall i, j | 0 <= i < j < |t.order|
      ensures t.order[i] != t.order[j]
    {
      if e.0 !in t0.ids && j == |t0.order| {
        assert t.order[i] == t0.order[i];
      }
    }
  }

  /** Recording pairs into the empty table builds the table they mean. */
  lemma {:induction false} RecordAllMeaning(es: seq<(string, Id)>)
    ensures TableOf(RecordAll(Table([], map[]), es), es)
    decreases |es|
  {
    if es != [] {
      var n := |es| - 1;
      var front := es[..n];
      RecordAllMeaning(front);
      var t0 := RecordAll(Table([], map[]), front);
      assert es == front + [es[n]];
      assert forall i | 0 <= i < |front| :: front[i].0 in t0.ids;
      RecordKeys(t0, front, es[n]);
      RecordIds(t0, front, es[n]);
      RecordOrder(t0, es[n]);
    }
  }

  /** The record `row` contributes the pair (`key`, `id`): `id` is its node id, and `key`
      is `prop:value` for a wanted property and one of its values. */
  ghost predicate Contributes(row: Row, props: set<string>, key: string, id: Id)
  {
    exists k, v | 0 <= k < |row.inverted| && v in row.inverted[k].1 ::
      Wanted(props, row.inverted[k].0) && key == Key(row.inverted[k].0, v) && id == row.canon
  }

  /** Some record contributes the pair (`key`, `id`). */
  ghost predicate SomeRow(rows: seq<Row>, props: set<string>, key: string, id: Id)
  {
    exists r | 0 <= r < |rows| :: Contributes(rows[r], props, key, id)
  }

  /** A record of the list contributes when one of the earlier ones or the last one
      does. */
  lemma SomeRowLast(rows: seq<Row>, props: set<string>, key: string, id: Id)
    requires rows != []
    ensures SomeRow(rows, props, key, id) <==>
      SomeRow(rows[..|rows| - 1], props, key, id) || Contributes(rows[|rows| - 1], props, key, id)
  {
    var n := |rows| - 1;
    if SomeRow(rows[..n], props, key, id) {
      var r :| 0 <= r < n && Contributes(rows[..n][r], props, key, id);
      assert rows[..n][r] == rows[r];
    }
    if SomeRow(rows, props, key, id) {
      var r :| 0 <= r < |rows| && Contributes(rows[r], props, key, id);
      if r < n {
        assert rows[..n][r] == rows[r];
      }
    }
  }

  /** The pairs recorded for the records: the key `prop:value` with the record's node id,
      for every wanted property of every record and each of its values. */
  lemma {:induction false} RowEntriesMeaning(rows: seq<Row>, props: set<string>, key: string, id: Id)
    ensures (key, id) in RowEntries(rows, props) <==> SomeRow(rows, props, key, id)
    decreases |rows|
  {
    if rows != [] {
      var n := |rows| - 1;
      RowEntriesMeaning(rows[..n], props, key, id);
      PropEntriesMeaning(rows[n].canon, rows[n].inverted, props, key, id);
      assert (key, id) in PropEntries(rows[n].canon, rows[n].inverted, props) <==> Contributes(rows[n], props, key, id);
      SomeRowLast(rows, props, key, id);
      assert RowEntries(rows, props) == RowEntries(rows[..n], props) + PropEntries(rows[n].canon, rows[n].inverted, props);
    }
  }

  /** The pairs recorded for one record's properties. */
  lemma {:induction false} PropEntriesMeaning(canon: Id, inv: seq<(string, seq<string>)>, props: set<string>, key: string, id: Id)
    ensures (key, id) in PropEntries(canon, inv, props) <==>
      exists k, v | 0 <= k < |inv| && v in inv[k].1 :: Wanted(props, inv[k].0) && key == Key(inv[k].0, v) && id == canon
    decreases |inv|
  {
    if inv != [] {
      var n := |inv| - 1;
      var last := inv[n];
      var front := inv[..n];
      PropEntriesMeaning(canon, front, props, key, id);
      var p0 := PropEntries(canon, front, props);
      var tail := if Wanted(props, last.0) then ValueEntries(canon, last.0, last.1) else [];
      assert PropEntries(canon, inv, props) == p0 + tail;
      forall k, v | 0 <= k < |inv| && v in inv[k].1 && Wanted(props, inv[k].0) && key == Key(inv[k].0, v) && id == canon
        ensures (key, id) in p0 + tail
      {
        if k == n {
          var i :| 0 <= i < |last.1| && last.1[i] == v;
          assert tail[i] == (key, id);
        } else {
          assert front[k] == inv[k];
        }
      }
      if (key, id) in tail {
        var i :| 0 <= i < |tail| && tail[i] == (key, id);
        assert last.1[i] in inv[n].1;
      }
      if (key, id) in p0 {
        var k, v :| 0 <= k < n && v in front[k].1 && Wanted(props, front[k].0) && key == Key(front[k].0, v) && id == canon;
        assert front[k] == inv[k];
      }
    }
  }

  /** `set(properties or [])`: None and the empty list both mean every property. */
  function PropSet(properties: Option<seq<string>>): set<string>
  {
    if properties.None? then {} else set p | p in properties.value
  }

  /** Recording one more pair after a run. */
  lemma RecordSnoc(t: Table, es: seq<(string, Id)>, e: (string, Id))
    ensures RecordAll(t, es + [e]) == Record(RecordAll(t, es), e.0, e.1)
  {
    assert (es + [e])[..|es|] == es;
  }

  /** The first `k + 1` properties of a record contribute those of the first `k` and then
      those of property `k`. */
  lemma PropEntriesSnoc(canon: Id, inv: seq<(string, seq<string>)>, props: set<string>, k: nat)
    requires k < |inv|
    ensures PropEntries(canon, inv[..k + 1], props) == PropEntries(canon, inv[..k], props)
      + (if Wanted(props, inv[k].0) then ValueEntries(canon, inv[k].0, inv[k].1) else [])
  {
    assert inv[..k + 1][..k] == inv[..k];
  }

  /** The first `r + 1` records contribute those of the first `r` and then those of
      record `r`. */
  lemma RowEntriesSnoc(rows: seq<Row>, props: set<string>, r: nat)
    requires r < |rows|
    ensures RowEntries(rows[..r + 1], props) == RowEntries(rows[..r], props) + PropEntries(rows[r].canon, rows[r].inverted, props)
  {
    assert rows[..r + 1][..r] == rows[..r];
  }

  /** The innermost loop's step: one more value recorded. */
  lemma ValueStep(t: Table, canon: Id, prop: string, values: seq<string>, v: nat)
    requires v < |values|
    ensures RecordAll(t, ValueEntries(canon, prop, values[..v + 1]))
      == Record(RecordAll(t, ValueEntries(canon, prop, values[..v])), Key(prop, values[v]), canon)
  {
    var a := ValueEntries(canon, prop, values[..v]);
    assert ValueEntries(canon, prop, values[..v + 1]) == a + [(Key(prop, values[v]), canon)];
    RecordSnoc(t, a, (Key(prop, values[v]), canon));
  }

  /** Lines 33-42 of `merge_properties`: the dedupe table, filled record by record,
      property by property and value by value. */
  method BuildTable(rows: seq<Row>, properties: Option<seq<string>>) returns (t: Table)
    ensures t == RecordAll(Table([], map[]), RowEntries(rows, PropSet(properties)))
  {
    var props := PropSet(properties);
    var empty := Table([], map[]);
    t := empty;
    var r := 0;
    while r < |rows|
      invariant 0 <= r <= |rows|
      invariant t == RecordAll(empty, RowEntries(rows[..r], props))
    {
      t := RecordRow(t, rows[r], props);
      RowEntriesSnoc(rows, props, r);
      RecordAllAppend(empty, RowEntries(rows[..r], props), PropEntries(rows[r].canon, rows[r].inverted, props));
      r := r + 1;
    }
    assert rows[..r] == rows;
  }

  /** The middle loop of lines 37-42: the wanted properties of one record. */
  method RecordRow(t0: Table, row: Row, props: set<string>) returns (t: Table)
    ensures t == RecordAll(t0, PropEntries(row.canon, row.inverted, props))
  {
    t := t0;
    var k := 0;
    while k < |row.inverted|
      invariant 0 <= k <= |row.inverted|
      invariant t == RecordAll(t0, PropEntries(row.canon, row.inverted[..k], props))
    {
      var (prop, values) := row.inverted[k];
      if Wanted(props, prop) {
        t := RecordValues(t, row.canon, prop, values);
      }
      PropEntriesSnoc(row.canon, row.inverted, props, k);
      RecordAllAppend(t0, PropEntries(row.canon, row.inverted[..k], props),
        if Wanted(props, prop) then ValueEntries(row.canon, prop, values) else []);
      k := k + 1;
    }
    assert row.inverted[..k] == row.inverted;
  }

  /** The innermost loop of lines 40-42: each value of one property. */
  method RecordValues(t0: Table, canon: Id, prop: string, values: seq<string>) returns (t: Table)
    ensures t == RecordAll(t0, ValueEntries(canon, prop, values))
  {
    t := t0;
    var v := 0;
    while v < |values|
      invariant 0 <= v <= |values|
      invariant t == RecordAll(t0, ValueEntries(canon, prop, values[..v]))
    {
      ValueStep(t0, canon, prop, values, v);
      t := Record(t, Key(prop, values[v]), canon);
      v := v + 1;
    }
    assert values[..v] == values;
  }

  /** What the dedupe table holds: under `prop:value` exactly the node ids of the records
      with that value for a wanted property (every property when none is named), each key
      listed once in the order. */
  lemma DedupeTable(rows: seq<Row>, properties: Option<seq<string>>, key: string, id: Id)
    ensures var t := RecordAll(Table([], map[]), RowEntries(rows, PropSet(properties)));
      && (key in t.ids && id in t.ids[key] <==>
          exists r | 0 <= r < |rows| :: Contributes(rows[r], PropSet(properties), key, id))
      && (forall i | 0 <= i < |t.order| :: t.order[i] in t.ids)
      && (forall i, j | 0 <= i < j < |t.order| :: t.order[i] != t.order[j])
  {
    var es := RowEntries(rows, PropSet(properties));
    RecordAllMeaning(es);
    RowEntriesMeaning(rows, PropSet(properties), key, id);
    var t := RecordAll(Table([], map[]), es);
    if (key, id) in es {
      var i :| 0 <= i < |es| && es[i] == (key, id);
      assert es[i].0 == key;
    }
  }

  /** The state of the merge loop: `id_change_lookup`, and the groups passed to
      `G.merge_nodes_canonicals` so far. */
  datatype Plan = Plan(lookup: map<Id, Id>, requests: seq<set<Id>>)

  /** `id_change_lookup.get(cid, cid)`. */
  function Resolve(lookup: map<Id, Id>, cid: Id): Id
  {
    if cid in lookup then lookup[cid] else cid
  }

  /** Line 45: the node ids under a key, each looked up once. */
  function Remapped(lookup: map<Id, Id>, ids: set<Id>): set<Id>
  {
    set cid | cid in ids :: Resolve(lookup, cid)
  }

  /** Lines 45-49 for one key, where `merged(group)` is the id
      `G.merge_nodes_canonicals(*group)` returns (that method is not part of this model):
      a group of two or more ids is merged, and each of its ids is then looked up as the
      returned id. */
  function PlanStep(p: Plan, ids: set<Id>, merged: set<Id> -> Id): Plan
  {
    var c := Remapped(p.lookup, ids);
    if |c| > 1 then Plan(p.lookup + map x | x in c :: merged(c), p.requests + [c]) else p
  }

  /** One key's step: a group of two or more is asked for and each of its ids is then
      looked up as the returned id; any other id keeps its lookup; a smaller group
      changes nothing. */
  lemma PlanStepMeaning(p: Plan, ids: set<Id>, merged: set<Id> -> Id)
    ensures var c := Remapped(p.lookup, ids);
      var q := PlanStep(p, ids, merged);
      && (|c| > 1 ==> q.requests == p.requests + [c] && (forall x | x in c :: x in q.lookup && q.lookup[x] == merged(c)))
      && (|c| <= 1 ==> q == p)
      && (forall x | x in p.lookup && x !in c :: x in q.lookup && q.lookup[x] == p.lookup[x])
      && (forall x | x !in p.lookup && x !in c :: x !in q.lookup)
  {
  }

  /** The merge loop over the first keys of the order. */
  function PlanAll(t: Table, keys: seq<string>, merged: set<Id> -> Id): Plan
    requires forall i | 0 <= i < |keys| :: keys[i] in t.ids
    decreases |keys|
  {
    if keys == [] then Plan(map[], [])
    else PlanStep(PlanAll(t, keys[..|keys| - 1], merged), t.ids[keys[|keys| - 1]], merged)
  }

  /** The merge loop over one more key. */
  lemma PlanAllSnoc(t: Table, keys: seq<string>, i: nat, merged: set<Id> -> Id)
    requires i < |keys| && forall j | 0 <= j < |keys| :: keys[j] in t.ids
    ensures PlanAll(t, keys[..i + 1], merged) == PlanStep(PlanAll(t, keys[..i], merged), t.ids[keys[i]], merged)
  {
    assert keys[..i + 1][..i] == keys[..i];
  }

  /** Lines 43-49 of `merge_properties`: every key of the table in insertion order, its
      ids looked up once, and a group of two or more merged, each of its ids then looked
      up as the returned id. */
  method RunPlan(t: Table, merged: set<Id> -> Id) returns (requests: seq<set<Id>>)
    requires forall i | 0 <= i < |t.order| :: t.order[i] in t.ids
    ensures requests == PlanAll(t, t.order, merged).requests
  {
    var lookup: map<Id, Id> := map[];
    requests := [];
    var i := 0;
    while i < |t.order|
      invariant 0 <= i <= |t.order|
      invariant Plan(lookup, requests) == PlanAll(t, t.order[..i], merged)
    {
      var key := t.order[i];
      PlanAllSnoc(t, t.order, i, merged);
      var canonIds := set cid | cid in t.ids[key] :: Resolve(lookup, cid);
      assert canonIds == Remapped(lookup, t.ids[key]);
      if |canonIds| > 1 {
        var canonIdNew := merged(canonIds);
        requests := requests + [canonIds];
        lookup := lookup + map cid | cid in canonIds :: canonIdNew;
      }
      i := i + 1;
    }
    assert t.order[..i] == t.order;
  }

  /** `merge_properties(G, properties)`, where `merged` stands for the ids that
      `G.merge_nodes_canonicals` returns: the dedupe table is built, every key's ids are
      looked up once and a group of two or more is merged, and the empty list is
      returned. The groups passed to the graph are returned as `requests`. */
  method MergeProperties(rows: seq<Row>, properties: Option<seq<string>>, merged: set<Id> -> Id)
    returns (result: seq<Proxy>, requests: seq<set<Id>>)
    ensures result == []
    ensures var t := RecordAll(Table([], map[]), RowEntries(rows, PropSet(properties)));
      (forall i | 0 <= i < |t.order| :: t.order[i] in t.ids)
      && requests == PlanAll(t, t.order, merged).requests
  {
    result := [];
    var t := BuildTable(rows, properties);
    RecordAllMeaning(RowEntries(rows, PropSet(properties)));
    requests := RunPlan(t, merged);
  }

  /** A well-behaved `merge_nodes_canonicals` result: the returned id is one of the
      group's. */
  ghost predicate MergesIntoMember(merged: set<Id> -> Id)
  {
    forall c: set<Id> | |c| > 1 :: merged(c) in c
  }

  /** No group asked for names an id that an earlier group merged into another id. */
  ghost predicate NeverStale(requests: seq<set<Id>>, merged: set<Id> -> Id)
  {
    forall i, j, x | 0 <= i < j < |requests| && x in requests[j] && x in requests[i] :: x == merged(requests[i])
  }

  /** The first merge of the chain: `a` and `b` merge into `b`. */
  lemma StaleFirst(a: Id, b: Id, m: set<Id> -> Id)
    requires a != b && m({a, b}) == b
    ensures PlanStep(Plan(map[], []), {a, b}, m) == Plan(map[a := b, b := b], [{a, b}])
  {
    RemappedPair(map[], a, b);
    var r := Remapped(map[], {a, b});
    assert |r| == 2;
    assert (map x | x in r :: m(r)) == map[a := b, b := b];
  }

  /** The second merge of the chain asks for {b, c}. */
  lemma StaleSecond(a: Id, b: Id, c: Id, m: set<Id> -> Id)
    requires a != b && a != c && b != c
    ensures PlanStep(Plan(map[a := b, b := b], [{a, b}]), {b, c}, m).requests == [{a, b}, {b, c}]
  {
    StaleSecondGroup(a, b, c);
    var r := Remapped(map[a := b, b := b], {b, c});
    assert [{a, b}] + [r] == [{a, b}, {b, c}];
  }

  /** After the second merge `a` is still looked up as `b`, and `c` as itself. */
  lemma StaleSecondKeeps(a: Id, b: Id, c: Id, m: set<Id> -> Id)
    requires a != b && a != c && b != c && m({b, c}) == c
    ensures var q := PlanStep(Plan(map[a := b, b := b], [{a, b}]), {b, c}, m);
      a in q.lookup && q.lookup[a] == b && c in q.lookup && q.lookup[c] == c
  {
    StaleSecondGroup(a, b, c);
  }

  /** The second key's group is {b, c}. */
  lemma StaleSecondGroup(a: Id, b: Id, c: Id)
    requires a != b && a != c && b != c
    ensures Remapped(map[a := b, b := b], {b, c}) == {b, c}
    ensures |Remapped(map[a := b, b := b], {b, c})| == 2
  {
    RemappedPair(map[a := b, b := b], b, c);
  }

  /** The third key, holding `a` and `c`: `a` is looked up as `b`, already merged into
      `c`, and the group {b, c} is asked for a second time. */
  lemma StaleThird(a: Id, b: Id, c: Id, m: set<Id> -> Id, p: Plan)
    requires a != b && a != c && b != c
    requires p.requests == [{a, b}, {b, c}] && a in p.lookup && p.lookup[a] == b && c in p.lookup && p.lookup[c] == c
    ensures PlanStep(p, {a, c}, m).requests == [{a, b}, {b, c}, {b, c}]
  {
    RemappedPair(p.lookup, a, c);
    var r := Remapped(p.lookup, {a, c});
    assert |r| == 2;
    assert p.requests + [r] == [{a, b}, {b, c}, {b, c}];
  }

  /** Looking up a group of two ids. */
  lemma RemappedPair(lookup: map<Id, Id>, x: Id, y: Id)
    ensures Remapped(lookup, {x, y}) == {Resolve(lookup, x), Resolve(lookup, y)}
  {
  }

  /** As written, the lookup is not followed transitively. With three keys holding
      {a, b}, {b, c} and {a, c}, and merges that return an id of their group (a and b
      merge into b, then b and c into c), the third key looks `a` up as `b`, which the
      second merge has already merged into `c`, and asks for `b` and `c` to be merged a
      second time. */
  lemma MergePlanStale(a: Id, b: Id, c: Id, m: set<Id> -> Id)
    requires a != b && a != c && b != c
    requires m({a, b}) == b && m({b, c}) == c
    ensures var t := Table(["k1", "k2", "k3"], map["k1" := {a, b}, "k2" := {b, c}, "k3" := {a, c}]);
      var p := PlanAll(t, t.order, m);
      p.requests == [{a, b}, {b, c}, {b, c}] && m(p.requests[1]) == c
      && !NeverStale(p.requests, m)
  {
    var t := Table(["k1", "k2", "k3"], map["k1" := {a, b}, "k2" := {b, c}, "k3" := {a, c}]);
    assert t.ids[t.order[0]] == {a, b} && t.ids[t.order[1]] == {b, c} && t.ids[t.order[2]] == {a, c};
    PlanAllThree(t, m);
    StaleFirst(a, b, m);
    var p1 := Plan(map[a := b, b := b], [{a, b}]);
    var p2 := PlanStep(p1, {b, c}, m);
    StaleSecond(a, b, c, m);
    StaleSecondKeeps(a, b, c, m);
    StaleThird(a, b, c, m, p2);
    var rs := PlanStep(p2, {a, c}, m).requests;
    assert rs == PlanAll(t, t.order, m).requests;
    assert b in rs[1] && b in rs[2] && m(rs[1]) != b;
  }

  /** The merge loop over a table of three keys is three steps from the empty plan. */
  lemma PlanAllThree(t: Table, m: set<Id> -> Id)
    requires |t.order| == 3 && forall i | 0 <= i < 3 :: t.order[i] in t.ids
    ensures PlanAll(t, t.order, m)
      == PlanStep(PlanStep(PlanStep(Plan(map[], []), t.ids[t.order[0]], m), t.ids[t.order[1]], m), t.ids[t.order[2]], m)
  {
    var ks := t.order;
    assert ks[..0] == [];
    PlanAllSnoc(t, ks, 0, m);
    PlanAllSnoc(t, ks, 1, m);
    PlanAllSnoc(t, ks, 2, m);
    assert ks[..3] == ks;
  }

  /** One choice of merge results that returns an id of the group: the group holding
      "C" merges into "C", otherwise a group holding "B" merges into "B". */
  function StaleMerger(c: set<Id>): Id
  {
    if "C" in c then "C" else if "B" in c then "B" else "A"
  }

  /** The chain above with the ids "A", "B", "C". */
  lemma MergePlanStaleExample()
    ensures var t := Table(["k1", "k2", "k3"], map["k1" := {"A", "B"}, "k2" := {"B", "C"}, "k3" := {"A", "C"}]);
      var p := PlanAll(t, t.order, StaleMerger);
      (forall i | 0 <= i < |p.requests| :: StaleMerger(p.requests[i]) in p.requests[i])
      && !NeverStale(p.requests, StaleMerger)
  {
    var a: Id, b: Id, c: Id := "A", "B", "C";
    assert a[0] != b[0] && a[0] != c[0] && b[0] != c[0];
    MergePlanStale(a, b, c, StaleMerger);
  }


  /** The evidently intended remap: after a merge, every id that pointed into the group
      points at the returned id too, so a lookup always lands on a node still present. */
  function PlanStepFixed(p: Plan, ids: set<Id>, merged: set<Id> -> Id): (q: Plan)
    ensures var c := Remapped(p.lookup, ids);
      && (|c| > 1 ==> q.requests == p.requests + [c] && (forall x | x in c :: x in q.lookup && q.lookup[x] == merged(c)))
      && (|c| <= 1 ==> q == p)
  {
    var c := Remapped(p.lookup, ids);
    if |c| > 1 then
      var n := merged(c);
      Plan(Repoint(p.lookup, c, n), p.requests + [c])
    else p
  }

  /** Every id of the group `c`, and every id looking up into it, now looks up as `n`. */
  function Repoint(L: map<Id, Id>, c: set<Id>, n: Id): map<Id, Id>
  {
    map x | x in L.Keys + c :: if x in c || L[x] in c then n else L[x]
  }

  /** The corrected merge loop over the first keys of the order. */
  function PlanAllFixed(t: Table, keys: seq<string>, merged: set<Id> -> Id): Plan
    requires forall i | 0 <= i < |keys| :: keys[i] in t.ids
    decreases |keys|
  {
    if keys == [] then Plan(map[], [])
    else PlanStepFixed(PlanAllFixed(t, keys[..|keys| - 1], merged), t.ids[keys[|keys| - 1]], merged)
  }

  /** The corrected merge loop over one more key. */
  lemma PlanAllFixedSnoc(t: Table, keys: seq<string>, i: nat, merged: set<Id> -> Id)
    requires i < |keys| && forall j | 0 <= j < |keys| :: keys[j] in t.ids
    ensures PlanAllFixed(t, keys[..i + 1], merged) == PlanStepFixed(PlanAllFixed(t, keys[..i], merged), t.ids[keys[i]], merged)
  {
    assert keys[..i + 1][..i] == keys[..i];
  }

  /** The corrected lines 43-49: as `RunPlan`, except that after a merge every id that
      looked up into the group looks up as the returned id too. */
  method RunPlanFixed(t: Table, merged: set<Id> -> Id) returns (requests: seq<set<Id>>)
    requires forall i | 0 <= i < |t.order| :: t.order[i] in t.ids
    ensures requests == PlanAllFixed(t, t.order, merged).requests
  {
    var lookup: map<Id, Id> := map[];
    requests := [];
    var i := 0;
    while i < |t.order|
      invariant 0 <= i <= |t.order|
      invariant Plan(lookup, requests) == PlanAllFixed(t, t.order[..i], merged)
    {
      var key := t.order[i];
      PlanAllFixedSnoc(t, t.order, i, merged);
      var canonIds := set cid | cid in t.ids[key] :: Resolve(lookup, cid);
      assert canonIds == Remapped(lookup, t.ids[key]);
      if |canonIds| > 1 {
        var canonIdNew := merged(canonIds);
        requests := requests + [canonIds];
        lookup := Repoint(lookup, canonIds, canonIdNew);
      }
      i := i + 1;
    }
    assert t.order[..i] == t.order;
  }

  /** `merge_properties` with the corrected remap: when the graph's merges return an id of
      the group, no group asked for names an id that an earlier merge took away. */
  method MergePropertiesFixed(rows: seq<Row>, properties: Option<seq<string>>, merged: set<Id> -> Id)
    returns (result: seq<Proxy>, requests: seq<set<Id>>)
    ensures result == []
    ensures var t := RecordAll(Table([], map[]), RowEntries(rows, PropSet(properties)));
      (forall i | 0 <= i < |t.order| :: t.order[i] in t.ids)
      && requests == PlanAllFixed(t, t.order, merged).requests
    ensures MergesIntoMember(merged) ==> NeverStale(requests, merged)
  {
    result := [];
    var t := BuildTable(rows, properties);
    RecordAllMeaning(RowEntries(rows, PropSet(properties)));
    requests := RunPlanFixed(t, merged);
    if MergesIntoMember(merged) {
      FixedPlanNeverStale(t, t.order, merged);
    }
  }

  /** Every lookup lands on an id that looks up to itself. */
  ghost predicate Settled(lookup: map<Id, Id>)
  {
    forall x | x in lookup :: lookup[x] in lookup && lookup[lookup[x]] == lookup[x]
  }

  /** What the corrected loop keeps: lookups are settled, every id a merge took away
      looks up elsewhere, and no group named an id merged away before it. */
  ghost predicate FixedInv(p: Plan, merged: set<Id> -> Id)
  {
    && Settled(p.lookup)
    && (forall i, x | 0 <= i < |p.requests| && x in p.requests[i] && x != merged(p.requests[i]) ::
          x in p.lookup && p.lookup[x] != x)
    && NeverStale(p.requests, merged)
  }

  /** A looked-up id never looks up elsewhere. */
  lemma RemappedLive(lookup: map<Id, Id>, ids: set<Id>, x: Id)
    requires Settled(lookup) && x in Remapped(lookup, ids)
    ensures x !in lookup || lookup[x] == x
  {
    var cid :| cid in ids && Resolve(lookup, cid) == x;
  }

  /** The corrected update keeps lookups settled. */
  lemma FixedSettled(L: map<Id, Id>, c: set<Id>, n: Id)
    requires Settled(L) && n in c
    ensures Settled(Repoint(L, c, n))
  {
    var L2 := Repoint(L, c, n);
    forall x | x in L2
      ensures L2[x] in L2 && L2[L2[x]] == L2[x]
    {
      if x !in c && L[x] !in c {
        assert L[x] in L && L[L[x]] == L[x];
      }
    }
  }

  /** The corrected update keeps every merged-away id looking up elsewhere, and marks the
      group's ids other than the returned one as merged away. */
  lemma FixedDead(L: map<Id, Id>, c: set<Id>, n: Id, x: Id)
    requires n in c && (forall y | y in c :: y !in L || L[y] == y)
    requires (x in c && x != n) || (x in L && L[x] != x)
    ensures x in Repoint(L, c, n) && Repoint(L, c, n)[x] != x
  {
  }

  /** A group of looked-up ids shares no id with an earlier group other than the id that
      group merged into. */
  lemma FixedFresh(p: Plan, c: set<Id>, merged: set<Id> -> Id)
    requires FixedInv(p, merged) && (forall y | y in c :: y !in p.lookup || p.lookup[y] == y)
    ensures NeverStale(p.requests + [c], merged)
  {
    var rs := p.requests + [c];
    forall i, j, x | 0 <= i < j < |rs| && x in rs[j] && x in rs[i]
      ensures x == merged(rs[i])
    {
      assert rs[i] == p.requests[i];
      if j < |p.requests| {
        assert rs[j] == p.requests[j];
      }
    }
  }

  /** One corrected step keeps the invariant. */
  lemma FixedStep(p: Plan, ids: set<Id>, merged: set<Id> -> Id, q: Plan)
    requires MergesIntoMember(merged) && FixedInv(p, merged) && q == PlanStepFixed(p, ids, merged)
    ensures FixedInv(q, merged)
  {
    var c := Remapped(p.lookup, ids);
    if |c| > 1 {
      var n := merged(c);
      var L := p.lookup;
      assert n in c;
      assert q == Plan(Repoint(L, c, n), p.requests + [c]);
      forall y | y in c
        ensures y !in L || L[y] == y
      {
        RemappedLive(L, ids, y);
      }
      FixedSettled(L, c, n);
      FixedFresh(p, c, merged);
      FixedMarks(p, c, merged, q);
    } else {
      assert q == p;
    }
  }

  /** After a corrected step every id merged away, before or now, looks up elsewhere,
      so the invariant holds once lookups are settled and no group is stale. */
  lemma FixedMarks(p: Plan, c: set<Id>, merged: set<Id> -> Id, q: Plan)
    requires FixedInv(p, merged) && merged(c) in c && (forall y | y in c :: y !in p.lookup || p.lookup[y] == y)
    requires q == Plan(Repoint(p.lookup, c, merged(c)), p.requests + [c])
    requires Settled(q.lookup) && NeverStale(q.requests, merged)
    ensures FixedInv(q, merged)
  {
    var rs := q.requests;
    forall i, x | 0 <= i < |rs| && x in rs[i] && x != merged(rs[i])
      ensures x in q.lookup && q.lookup[x] != x
    {
      if i < |p.requests| {
        assert rs[i] == p.requests[i];
      }
      FixedDead(p.lookup, c, merged(c), x);
    }
  }

  /** With the corrected remap, and a graph whose merges return an id of the group, no
      group asked for names an id an earlier merge took away. */
  lemma {:induction false} FixedPlanNeverStale(t: Table, keys: seq<string>, merged: set<Id> -> Id)
    requires forall i | 0 <= i < |keys| :: keys[i] in t.ids
    requires MergesIntoMember(merged)
    ensures FixedInv(PlanAllFixed(t, keys, merged), merged)
    ensures NeverStale(PlanAllFixed(t, keys, merged).requests, merged)
    decreases |keys|
  {
    if keys != [] {
      var front := keys[..|keys| - 1];
      FixedPlanNeverStale(t, front, merged);
      var p := PlanAllFixed(t, front, merged);
      FixedStep(p, t.ids[keys[|keys| - 1]], merged, PlanStepFixed(p, t.ids[keys[|keys| - 1]], merged));
    }
  }
}
