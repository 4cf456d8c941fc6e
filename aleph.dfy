/** The two pieces of the Aleph operations that work on data rather than on the remote
    API: `aleph_get_qparts`, which cuts a list of query parts into batches of at most 512
    characters and sends each batch as one `" OR "` query, and `parse_entity`, which
    replaces, in place, every dictionary among an entity's property values by its `"id"`
    entry. The requests themselves, the result sets they yield and the record built by
    `model.get_proxy` are not part of this model. */
module Aleph {

  /** The most characters of query parts one request may carry. */
  const MaxQuery: nat := 512

  /** The summed length of the parts; the separators are not counted. */
  function Size(parts: seq<string>): nat
  {
    if parts == [] then 0 else |parts[0]| + Size(parts[1..])
  }

  /** The number of leading parts whose summed length stays within `budget`. */
  function Fit(parts: seq<string>, budget: int): (i: nat)
    ensures i <= |parts|
  {
    if parts == [] || |parts[0]| > budget then 0
    else 1 + Fit(parts[1..], budget - |parts[0]|)
  }

  /** The summed length of a prefix grows by the next part. */
  lemma {:induction false} SizeSnoc(parts: seq<string>, i: nat)
    requires i < |parts|
    ensures Size(parts[..i + 1]) == Size(parts[..i]) + |parts[i]|
  {
    if i > 0 {
      assert parts[..i + 1][1..] == parts[1..][..i];
      assert parts[..i][1..] == parts[1..][..i - 1];
      SizeSnoc(parts[1..], i - 1);
    }
  }

  /** `Fit` is the greedy cut: the first `i` parts fit and, unless they are all the parts,
      the next one does not. */
  lemma {:induction false} FitMeaning(parts: seq<string>, budget: int)
    requires budget >= 0
    ensures var i := Fit(parts, budget);
      && i <= |parts| && Size(parts[..i]) <= budget
      && (i < |parts| ==> Size(parts[..i]) + |parts[i]| > budget)
  {
    var i := Fit(parts, budget);
    if parts != [] && |parts[0]| <= budget {
      var rest := parts[1..];
      FitMeaning(rest, budget - |parts[0]|);
      assert parts[..i][1..] == rest[..i - 1];
      if i < |parts| {
        assert parts[i] == rest[i - 1];
      }
    } else {
      assert parts[..i] == [];
    }
  }

  /** The greedy cut is the only index with its two properties: the prefix sums never
      shrink, so exactly one index has a fitting prefix whose next part does not fit. */
  lemma {:induction false} FitUnique(parts: seq<string>, budget: int, j: nat)
    requires j <= |parts| && Size(parts[..j]) <= budget
    requires j < |parts| ==> Size(parts[..j]) + |parts[j]| > budget
    ensures j == Fit(parts, budget)
  {
    if parts != [] {
      if j == 0 {
        assert |parts[0]| > budget;
      } else {
        var rest := parts[1..];
        assert parts[..j][1..] == rest[..j - 1];
        assert |parts[0]| <= budget by {
          assert Size(parts[..j]) == |parts[0]| + Size(rest[..j - 1]);
        }
        if j < |parts| {
          assert parts[j] == rest[j - 1];
        }
        FitUnique(rest, budget - |parts[0]|, j - 1);
      }
    }
  }

  /** The inner `for ... else` of `aleph_get_qparts`: the loop adds part lengths until the
      next part would take the sum over 512 and breaks there; when it runs to the end the
      `else` branch moves `i` past the last part. The caller's `while q_parts` guard makes
      the list non-empty. */
  method SplitIndex(parts: seq<string>) returns (i: nat)
    requires |parts| > 0
    ensures i == Fit(parts, MaxQuery)
    ensures i <= |parts| && Size(parts[..i]) <= MaxQuery
    ensures i < |parts| ==> Size(parts[..i]) + |parts[i]| > MaxQuery
  {
    var size := 0;
    i := 0;
    var broke := false;
    for j := 0 to |parts|
      invariant size == Size(parts[..j]) && size <= MaxQuery
      invariant j > 0 ==> i == j - 1
    {
      var s := |parts[j]|;
      if size + s > MaxQuery {
        i := j;
        broke := true;
        break;
      }
      SizeSnoc(parts, j);
      size := size + s;
      i := j;
    }
    if !broke {
      i := i + 1;
      assert parts[..i] == parts;
    }
    FitUnique(parts, MaxQuery, i);
  }

  /** What `aleph_get_qparts` sends: the batches in order and, when it gets stuck, the
      parts still waiting. It gets stuck when the first waiting part alone is longer than
      512: the cut is then empty, `q_parts[0:]` is `q_parts` again, and the source loops
      forever sending the empty query. */
  datatype Outcome = Outcome(batches: seq<seq<string>>, stuckAt: seq<string>)

  /** The batches the loop cuts from `parts`. */
  function Batches(parts: seq<string>): Outcome
    decreases |parts|
  {
    if parts == [] then Outcome([], [])
    else
      var i := Fit(parts, MaxQuery);
      if i == 0 then Outcome([], parts)
      else
        var r := Batches(parts[i..]);
        Outcome([parts[..i]] + r.batches, r.stuckAt)
  }

  /** The parts of the batches, in order. */
  function Flatten(batches: seq<seq<string>>): seq<string>
  {
    if batches == [] then [] else batches[0] + Flatten(batches[1..])
  }

  /** `" OR ".join(batch)`. */
  function JoinOr(batch: seq<string>): string
  {
    if batch == [] then ""
    else if |batch| == 1 then batch[0]
    else batch[0] + " OR " + JoinOr(batch[1..])
  }

  /** The query text is the parts plus four characters per separator: the 512 limit
      bounds the parts only, so a query may be longer than 512 characters. */
  lemma {:induction false} JoinOrLength(batch: seq<string>)
    requires batch != []
    ensures |JoinOr(batch)| == Size(batch) + 4 * (|batch| - 1)
  {
    if |batch| > 1 {
      JoinOrLength(batch[1..]);
    }
  }

  /** `aleph_get_qparts(url, q_parts)`: while parts are waiting, cut the longest prefix
      that fits in 512 characters, send it as one `" OR "` query and continue with the
      rest. Where the source would loop forever on a first part longer than 512, the
      model stops and reports the parts still waiting. */
  method GetQParts(parts: seq<string>) returns (queries: seq<string>, batches: seq<seq<string>>, stuckAt: seq<string>)
    ensures Outcome(batches, stuckAt) == Batches(parts)
    ensures |queries| == |batches| && forall k | 0 <= k < |batches| :: queries[k] == JoinOr(batches[k])
  {
    var rest := parts;
    queries, batches, stuckAt := [], [], [];
    while rest != []
      invariant Batches(parts) == Outcome(batches + Batches(rest).batches, Batches(rest).stuckAt)
      invariant stuckAt == []
      invariant |queries| == |batches| && forall k | 0 <= k < |batches| :: queries[k] == JoinOr(batches[k])
      decreases |rest|
    {
      var i := SplitIndex(rest);
      if i == 0 {
        stuckAt := rest;
        assert batches + [] == batches;
        return;
      }
      var q := JoinOr(rest[..i]);
      BatchesStep(batches, rest, i);
      queries := queries + [q];
      batches := batches + [rest[..i]];
      rest := rest[i..];
    }
    assert batches + [] == batches;
  }

  /** One pass of the loop moves one batch from the batches still to cut to the batches
      sent. */
  lemma BatchesStep(done: seq<seq<string>>, rest: seq<string>, i: nat)
    requires rest != [] && i == Fit(rest, MaxQuery) && i > 0
    ensures done + Batches(rest).batches == (done + [rest[..i]]) + Batches(rest[i..]).batches
    ensures Batches(rest).stuckAt == Batches(rest[i..]).stuckAt
  {
    assert Batches(rest).batches == [rest[..i]] + Batches(rest[i..]).batches;
  }

  /** Nothing is lost, duplicated or reordered: the batches, followed by the parts still
      waiting when the loop gets stuck, are the parts. */
  lemma {:induction false} BatchesCover(parts: seq<string>)
    ensures Flatten(Batches(parts).batches) + Batches(parts).stuckAt == parts
    decreases |parts|
  {
    if parts != [] {
      var i := Fit(parts, MaxQuery);
      if i > 0 {
        var r := Batches(parts[i..]);
        BatchesCover(parts[i..]);
        var bs := [parts[..i]] + r.batches;
        assert bs[1..] == r.batches;
        assert Flatten(bs) == parts[..i] + Flatten(r.batches);
        assert parts == parts[..i] + parts[i..];
      }
    }
  }

  /** Every batch is non-empty and its parts sum to at most 512 characters. */
  lemma {:induction false} BatchesBounded(parts: seq<string>)
    ensures forall k | 0 <= k < |Batches(parts).batches| ::
      Batches(parts).batches[k] != [] && Size(Batches(parts).batches[k]) <= MaxQuery
    decreases |parts|
  {
    if parts != [] {
      var i := Fit(parts, MaxQuery);
      if i > 0 {
        FitMeaning(parts, MaxQuery);
        BatchesBounded(parts[i..]);
      }
    }
  }

  /** The loop gets stuck exactly when it reaches a part longer than 512: the parts left
      waiting start with one, and a list whose parts all have at most 512 characters is
      sent whole. */
  lemma {:induction false} StuckMeaning(parts: seq<string>)
    ensures var st := Batches(parts).stuckAt; st != [] ==> |st[0]| > MaxQuery
    ensures Batches(parts).stuckAt == [] <==> forall j | 0 <= j < |parts| :: |parts[j]| <= MaxQuery
    decreases |parts|
  {
    if parts != [] {
      var i := Fit(parts, MaxQuery);
      FitMeaning(parts, MaxQuery);
      if i == 0 {
        assert |parts[0]| > MaxQuery;
      } else {
        var rest := parts[i..];
        StuckMeaning(rest);
        PrefixPartsFit(parts[..i]);
        forall j | 0 <= j < i
          ensures |parts[j]| <= MaxQuery
        {
          assert parts[..i][j] == parts[j];
        }
        forall j | i <= j < |parts|
          ensures parts[j] == rest[j - i]
        {
        }
        if forall j | 0 <= j < |rest| :: |rest[j]| <= MaxQuery {
          forall j | 0 <= j < |parts|
            ensures |parts[j]| <= MaxQuery
          {
            if j >= i {
              assert parts[j] == rest[j - i];
            }
          }
        }
      }
    }
  }

  /** Every part of a list of summed length at most 512 has at most 512 characters. */
  lemma {:induction false} PrefixPartsFit(parts: seq<string>)
    requires Size(parts) <= MaxQuery
    ensures forall j | 0 <= j < |parts| :: |parts[j]| <= MaxQuery
  {
    if parts != [] {
      PrefixPartsFit(parts[1..]);
      forall j | 0 < j < |parts|
        ensures |parts[j]| <= MaxQuery
      {
        assert parts[j] == parts[1..][j - 1];
      }
    }
  }

  /** With no parts the loop sends nothing. */
  lemma NoPartsNoQuery()
    ensures Batches([]) == Outcome([], [])
  {
  }

  /** The cuts are greedy: each batch ends at the end of the list or just before the part
      that would take its sum over 512, which is the first part of the next batch or the
      part the loop gets stuck on. */
  ghost predicate Greedy(batches: seq<seq<string>>, stuckAt: seq<string>)
    decreases |batches|
  {
    batches != [] ==>
      var next := Flatten(batches[1..]) + stuckAt;
      && batches[0] != [] && Size(batches[0]) <= MaxQuery
      && (next != [] ==> Size(batches[0]) + |next[0]| > MaxQuery)
      && Greedy(batches[1..], stuckAt)
  }

  lemma {:induction false} BatchesGreedy(parts: seq<string>)
    ensures Greedy(Batches(parts).batches, Batches(parts).stuckAt)
    decreases |parts|
  {
    if parts != [] {
      var i := Fit(parts, MaxQuery);
      if i > 0 {
        FitMeaning(parts, MaxQuery);
        var r := Batches(parts[i..]);
        BatchesGreedy(parts[i..]);
        BatchesCover(parts[i..]);
        var bs := [parts[..i]] + r.batches;
        assert bs[0] == parts[..i] && bs[1..] == r.batches;
        var next := Flatten(r.batches) + r.stuckAt;
        assert next == parts[i..];
        if next != [] {
          assert next[0] == parts[i];
        }
      }
    }
  }

  /** The batches are the only greedy cut: a list of non-empty batches of at most 512
      characters, each ending where the next part would not fit, and a stuck tail that
      is empty or starts with a part longer than 512, is what the loop produces. */
  lemma {:induction false} GreedyUnique(parts: seq<string>, bs: seq<seq<string>>, st: seq<string>)
    requires Flatten(bs) + st == parts && Greedy(bs, st)
    requires st != [] ==> |st[0]| > MaxQuery
    ensures Batches(parts) == Outcome(bs, st)
    decreases |bs|
  {
    if bs == [] {
      assert parts == st;
      if st != [] {
        FitUnique(parts, MaxQuery, 0);
      }
    } else {
      var b := bs[0];
      var next := Flatten(bs[1..]) + st;
      assert parts == b + next;
      assert parts[..|b|] == b && parts[|b|..] == next;
      if |b| < |parts| {
        assert parts[|b|] == next[0];
      }
      FitUnique(parts, MaxQuery, |b|);
      GreedyUnique(next, bs[1..], st);
      var r := Batches(next);
      assert Batches(parts) == Outcome([b] + r.batches, r.stuckAt);
      assert bs == [b] + bs[1..];
    }
  }

  /** A single part of 513 characters: the loop as written cuts nothing from it, so it
      is left waiting for ever and nothing is sent. */
  lemma StuckExample()
    ensures var p := seq(MaxQuery + 1, _ => 'x');
      Batches([p]) == Outcome([], [p])
  {
    var p := seq(MaxQuery + 1, _ => 'x');
    assert Fit([p], MaxQuery) == 0;
  }

  /** The corrected cut: a part longer than 512 characters, which the loop as written can
      never send, travels in a query of its own, so every pass sends at least one part. */
  function CutFixed(parts: seq<string>): (i: nat)
    requires parts != []
    ensures 0 < i <= |parts|
    ensures i == 1 || Size(parts[..i]) <= MaxQuery
  {
    FitMeaning(parts, MaxQuery);
    var i := Fit(parts, MaxQuery);
    if i == 0 then 1 else i
  }

  /** The batches the corrected loop sends. */
  function BatchesFixed(parts: seq<string>): seq<seq<string>>
    decreases |parts|
  {
    if parts == [] then []
    else
      var i := CutFixed(parts);
      [parts[..i]] + BatchesFixed(parts[i..])
  }

  /** The corrected loop sends every part once, in order, and stops: every batch is
      non-empty and either within 512 characters or a single oversized part. */
  lemma {:induction false} BatchesFixedCover(parts: seq<string>)
    ensures Flatten(BatchesFixed(parts)) == parts
    ensures forall k | 0 <= k < |BatchesFixed(parts)| ::
      BatchesFixed(parts)[k] != [] && (Size(BatchesFixed(parts)[k]) <= MaxQuery || |BatchesFixed(parts)[k]| == 1)
    decreases |parts|
  {
    if parts != [] {
      var i := CutFixed(parts);
      var rest := BatchesFixed(parts[i..]);
      BatchesFixedCover(parts[i..]);
      var bs := [parts[..i]] + rest;
      assert bs[1..] == rest;
      assert Flatten(bs) == parts[..i] + Flatten(rest);
      assert parts == parts[..i] + parts[i..];
      forall k | 0 < k < |bs|
        ensures bs[k] == rest[k - 1]
      {
      }
    }
  }

  /** Where no part is longer than 512 characters the corrected loop sends exactly what
      the loop as written sends. */
  lemma {:induction false} FixedAgrees(parts: seq<string>)
    requires forall j | 0 <= j < |parts| :: |parts[j]| <= MaxQuery
    ensures BatchesFixed(parts) == Batches(parts).batches
    decreases |parts|
  {
    if parts != [] {
      assert Fit(parts, MaxQuery) > 0;
      var i := Fit(parts, MaxQuery);
      forall j | 0 <= j < |parts[i..]|
        ensures |parts[i..][j]| <= MaxQuery
      {
        assert parts[i..][j] == parts[i + j];
      }
      FixedAgrees(parts[i..]);
    }
  }

  /** The corrected `aleph_get_qparts`: the same loop, except that a first part longer
      than 512 characters is cut alone instead of leaving an empty cut. */
  method GetQPartsFixed(parts: seq<string>) returns (queries: seq<string>, batches: seq<seq<string>>)
    ensures batches == BatchesFixed(parts)
    ensures |queries| == |batches| && forall k | 0 <= k < |batches| :: queries[k] == JoinOr(batches[k])
  {
    var rest := parts;
    queries, batches := [], [];
    while rest != []
      invariant BatchesFixed(parts) == batches + BatchesFixed(rest)
      invariant |queries| == |batches| && forall k | 0 <= k < |batches| :: queries[k] == JoinOr(batches[k])
      decreases |rest|
    {
      var i := SplitIndex(rest);
      if i == 0 {
        i := 1;
      }
      assert i == CutFixed(rest);
      assert BatchesFixed(rest) == [rest[..i]] + BatchesFixed(rest[i..]);
      queries := queries + [JoinOr(rest[..i])];
      batches := batches + [rest[..i]];
      rest := rest[i..];
    }
    assert batches + [] == batches;
  }

  /** A JSON value as it appears in a property list of an entity. */
  datatype JsonValue =
    | JNull
    | JBool(b: bool)
    | JNum(n: int)
    | JStr(s: string)
    | JList(items: seq<JsonValue>)
    | JDict(entries: map<string, JsonValue>)

  /** One property value after `parse_entity`: a dictionary becomes its `"id"` entry,
      `None` when it has none; any other value is kept. */
  function Flat(v: JsonValue): (r: JsonValue)
    ensures !v.JDict? ==> r == v
    ensures v.JDict? && "id" in v.entries ==> r == v.entries["id"]
    ensures v.JDict? && "id" !in v.entries ==> r == JNull
  {
    match v
    case JDict(e) => if "id" in e then e["id"] else JNull
    case _ => v
  }

  /** A second pass changes nothing when no dictionary's `"id"` is itself a dictionary. */
  lemma FlatTwice(v: JsonValue)
    requires v.JDict? && "id" in v.entries ==> !v.entries["id"].JDict?
    ensures Flat(Flat(v)) == Flat(v)
  {
  }

  /** The inner loop of `parse_entity` on one property list: every dictionary replaced by
      its `"id"` in place; the list keeps its length and its other values. */
  method FlattenValues(values: array<JsonValue>)
    modifies values
    ensures forall i | 0 <= i < values.Length :: values[i] == Flat(old(values[i]))
  {
    for i := 0 to values.Length
      invariant forall j | 0 <= j < i :: values[j] == Flat(old(values[j]))
      invariant forall j | i <= j < values.Length :: values[j] == old(values[j])
    {
      if values[i].JDict? {
        values[i] := Flat(values[i]);
      }
    }
  }

  /** `parse_entity(entity)` up to `model.get_proxy`: every property list of
      `entity["properties"]`, visited in the dictionary's order `keys`, flattened in place.
      Each property has its own list. */
  method ParseEntity(properties: map<string, array<JsonValue>>, keys: seq<string>)
    requires forall j | 0 <= j < |keys| :: keys[j] in properties
    requires forall k | k in properties :: k in keys
    requires forall j, l | 0 <= j < l < |keys| :: keys[j] != keys[l]
    requires forall a, b | a in properties && b in properties && a != b :: properties[a] != properties[b]
    modifies set k | k in properties :: properties[k]
    ensures forall k, i | k in properties && 0 <= i < properties[k].Length ::
      properties[k][i] == Flat(old(properties[k][i]))
  {
    for j := 0 to |keys|
      invariant forall l, i | 0 <= l < j && 0 <= i < properties[keys[l]].Length ::
        properties[keys[l]][i] == Flat(old(properties[keys[l]][i]))
      invariant forall l | j <= l < |keys| :: properties[keys[l]][..] == old(properties[keys[l]][..])
    {
      var values := properties[keys[j]];
      FlattenValues(values);
    }
  }
}
