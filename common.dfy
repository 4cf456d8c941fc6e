/** Types shared by every module of the model. */
module Common {

  /** Python's `None` or a value. */
  datatype Option<+T> = None | Some(value: T)

  /** Proxy ids and node ids. Python treats an empty id as falsy
      (`node_id or proxy.id`); the model takes ids to be never empty. */
  type Id = s: string | |s| > 0 witness "_"

  /** A record ("proxy") as the graph sees it: its id, whether its schema is an
      edge schema, and the values of the edge schema's source and target properties. */
  datatype Proxy = Proxy(id: Id, isEdge: bool, sources: seq<Id>, targets: seq<Id>)

  /** The placeholder record `add_stub` creates: schema `Thing`, no properties. */
  function StubProxy(id: Id): (p: Proxy)
    ensures p.id == id && !p.isEdge && p.sources == [] && p.targets == []
  {
    Proxy(id, false, [], [])
  }

  /** The ids of a sequence of proxies, in order. */
  function Ids(ps: seq<Proxy>): (r: seq<Id>)
    ensures |r| == |ps|
    ensures forall i :: 0 <= i < |ps| ==> r[i] == ps[i].id
  {
    seq(|ps|, i requires 0 <= i < |ps| => ps[i].id)
  }

  lemma IdsAppend(a: seq<Proxy>, b: seq<Proxy>)
    ensures Ids(a + b) == Ids(a) + Ids(b)
  {
    assert forall i :: 0 <= i < |a + b| ==> Ids(a + b)[i] == (Ids(a) + Ids(b))[i];
  }

  lemma ConcatAssoc<T>(a: seq<T>, b: seq<T>, c: seq<T>)
    ensures a + (b + c) == a + b + c
  {
  }

  lemma PrefixStep<T>(s: seq<T>, i: nat)
    requires i < |s|
    ensures s[..i + 1][..i] == s[..i] && s[..i + 1][i] == s[i] && |s[..i + 1]| == i + 1
  {
  }

  lemma SnocPrefix<T>(s: seq<T>, i: nat)
    requires i < |s|
    ensures s[..i] + [s[i]] == s[..i + 1]
  {
  }

  lemma TailIndex<T>(s: seq<T>, i: nat)
    requires 1 <= i < |s|
    ensures s[1..][i - 1] == s[i]
  {
  }

  /** A subset is no larger than its superset. */
  lemma CardMonotone<T>(a: set<T>, b: set<T>)
    requires a <= b
    ensures |a| <= |b|
  {
    assert b == a + (b - a);
  }
}
