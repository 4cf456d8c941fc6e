/** A canonical node: one or more proxies that currently share an identity, and a
    dictionary of per-node boolean flags whose values may be True, False or None. */
module NodeModel {
  import opened Common

  /** A stored flag value: `Some(true)`, `Some(false)` or Python's `None`. */
  type FlagValue = Option<bool>
  type Flags = map<string, FlagValue>

  /** `flags.get(f)`: a missing flag reads as None. */
  function Get(flags: Flags, f: string): FlagValue
  {
    if f in flags then flags[f] else None
  }

  /** Python truthiness of a flag value: only True is truthy. */
  predicate Truthy(v: FlagValue)
  {
    v == Some(true)
  }

  /** Python's `a and b`: `a` itself when it is falsy, otherwise `b`. */
  function PyAnd(a: FlagValue, b: FlagValue): FlagValue
  {
    if Truthy(a) then b else a
  }

  /** `has_flags(**query)`: every requested flag reads as the requested value. */
  predicate FlagsMatch(flags: Flags, query: Flags)
  {
    forall f | f in query :: Get(flags, f) == query[f]
  }

  /** `set_flags(**fv)`: `dict.update`. */
  function FlagsSet(flags: Flags, fv: Flags): Flags
  {
    flags + fv
  }

  /** `ensure_flag(**fv)`: `setdefault` for every requested flag. */
  function FlagsEnsured(flags: Flags, fv: Flags): Flags
  {
    fv + flags
  }

  /** The flag part of `merge(other)`: each flag of `theirs` becomes
      `mine.get(flag, False) and value`; flags only in `mine` are kept. */
  function FlagsMerged(mine: Flags, theirs: Flags): Flags
  {
    map f | f in mine.Keys + theirs.Keys ::
      if f in theirs then PyAnd(if f in mine then mine[f] else Some(false), theirs[f])
      else mine[f]
  }

  /** The value of a `Node`: its id, its parts (as proxies, in merge order) and its flags. */
  datatype NodeState = NodeState(id: Id, proxies: seq<Proxy>, flags: Flags)
  {
    /** The ids of the node's parts. */
    function Parts(): seq<Id>
    {
      Ids(proxies)
    }

    /** The node's schema is that of its first part. */
    predicate IsEdge()
    {
      |proxies| > 0 && proxies[0].isEdge
    }

    /** `node.get(source_prop)`: the sources of every part, in part order. */
    function Sources(): seq<Id>
    {
      AllSources(proxies)
    }

    /** `node.get(target_prop)`: the targets of every part, in part order. */
    function Targets(): seq<Id>
    {
      AllTargets(proxies)
    }
  }

  function AllSources(ps: seq<Proxy>): seq<Id>
  {
    if ps == [] then [] else ps[0].sources + AllSources(ps[1..])
  }

  function AllTargets(ps: seq<Proxy>): seq<Id>
  {
    if ps == [] then [] else ps[0].targets + AllTargets(ps[1..])
  }

  /** `Node(id=node_id, proxies=[proxy])`: one part and no flags. */
  function SingleNode(id: Id, p: Proxy): NodeState
  {
    NodeState(id, [p], map[])
  }

  /** `left.merge(right)`: left keeps its id, the parts are appended, the flags AND-merged. */
  function MergeNode(left: NodeState, right: NodeState): NodeState
  {
    NodeState(left.id, left.proxies + right.proxies, FlagsMerged(left.flags, right.flags))
  }

  /** `set_flags` overwrites exactly the named flags; the node then has them. */
  lemma SetFlagsExact(flags: Flags, fv: Flags)
    ensures forall f :: Get(FlagsSet(flags, fv), f) == if f in fv then fv[f] else Get(flags, f)
    ensures FlagsMatch(FlagsSet(flags, fv), fv)
  {
  }

  /** `ensure_flag` only fills absent flags, never overwrites, and is idempotent. */
  lemma EnsureFlagKeepsAndFills(flags: Flags, fv: Flags)
    ensures forall f | f in flags :: FlagsEnsured(flags, fv)[f] == flags[f]
    ensures forall f | f in fv && f !in flags :: FlagsEnsured(flags, fv)[f] == fv[f]
    ensures FlagsEnsured(flags, fv).Keys == flags.Keys + fv.Keys
    ensures FlagsEnsured(FlagsEnsured(flags, fv), fv) == FlagsEnsured(flags, fv)
  {
  }

  /** `has_flags()` with no arguments holds of every node. */
  lemma MatchNothingRequested(flags: Flags)
    ensures FlagsMatch(flags, map[])
  {
  }

  /** Merged flags: True exactly when both sides are True; a flag absent on the left side
      reads as False (falsy, not None); flags only on the left side are unchanged. */
  lemma MergedFlagTruth(mine: Flags, theirs: Flags)
    ensures FlagsMerged(mine, theirs).Keys == mine.Keys + theirs.Keys
    ensures forall f | f in theirs ::
      Truthy(FlagsMerged(mine, theirs)[f]) <==> Truthy(Get(mine, f)) && Truthy(theirs[f])
    ensures forall f | f in theirs && f !in mine :: FlagsMerged(mine, theirs)[f] == Some(false)
    ensures forall f | f in mine && f !in theirs :: FlagsMerged(mine, theirs)[f] == mine[f]
  {
  }

  /** Merging a sequence of nodes into `first`, left to right (`merge_nodes(first, *rest)`
      on values). */
  function MergeAll(first: NodeState, rest: seq<NodeState>): NodeState
    decreases |rest|
  {
    if rest == [] then first else MergeAll(MergeNode(first, rest[0]), rest[1..])
  }

  /** The records of the nodes, node after node. */
  function ProxiesOf(ns: seq<NodeState>): seq<Proxy>
    decreases |ns|
  {
    if ns == [] then [] else ns[0].proxies + ProxiesOf(ns[1..])
  }

  /** Nodes that all satisfy `flag=True` merge into a node that still does, and the merged
      node keeps the first node's id and holds every part, in order: the first node's
      records, then those of each later node. */
  lemma {:induction false} MergeAllKeepsTrue(first: NodeState, rest: seq<NodeState>, flag: string)
    requires Get(first.flags, flag) == Some(true)
    requires forall i :: 0 <= i < |rest| ==> Get(rest[i].flags, flag) == Some(true)
    ensures Get(MergeAll(first, rest).flags, flag) == Some(true)
    ensures MergeAll(first, rest).id == first.id
    ensures MergeAll(first, rest).proxies == first.proxies + ProxiesOf(rest)
    decreases |rest|
  {
    if rest != [] {
      var m := MergeNode(first, rest[0]);
      assert Get(m.flags, flag) == Some(true);
      MergeAllKeepsTrue(m, rest[1..], flag);
      assert ProxiesOf(rest) == rest[0].proxies + ProxiesOf(rest[1..]);
      assert m.proxies + ProxiesOf(rest[1..]) == first.proxies + ProxiesOf(rest);
    }
  }

  /** A node as a mutable object: `set_flags`, `ensure_flag` and `merge` change it in place. */
  class Node {
    var id: Id
    var proxies: seq<Proxy>
    var flags: Flags

    function State(): NodeState
      reads this
    {
      NodeState(id, proxies, flags)
    }

    /** `Node(id=..., proxies=..., flags=...)`; `flags=None` is passed as the empty map. */
    constructor (id: Id, proxies: seq<Proxy>, flags: Flags)
      ensures State() == NodeState(id, proxies, flags)
    {
      this.id := id;
      this.proxies := proxies;
      this.flags := flags;
    }

    method SetFlags(fv: Flags)
      modifies this
      ensures flags == FlagsSet(old(flags), fv)
      ensures id == old(id) && proxies == old(proxies)
    {
      flags := flags + fv;
    }

    method EnsureFlag(fv: Flags)
      modifies this
      ensures flags == FlagsEnsured(old(flags), fv)
      ensures id == old(id) && proxies == old(proxies)
    {
      var todo := fv.Keys;
      while todo != {}
        invariant todo <= fv.Keys
        invariant id == old(id) && proxies == old(proxies)
        invariant flags.Keys == old(flags).Keys + (fv.Keys - todo)
        invariant forall f | f in flags :: flags[f] == if f in old(flags) then old(flags)[f] else fv[f]
        decreases todo
      {
        var f :| f in todo;
        if f !in flags {
          flags := flags[f := fv[f]];
        }
        todo := todo - {f};
      }
      assert flags == FlagsEnsured(old(flags), fv);
    }

    predicate HasFlags(query: Flags)
      reads this
    {
      FlagsMatch(flags, query)
    }

    /** `self.merge(other)`: appends the other node's parts (the foreign `MultiPartProxy.merge`
        is modelled as appending), AND-merges the flags and returns `self`. */
    method Merge(other: Node) returns (r: Node)
      modifies this
      ensures r == this
      ensures State() == MergeNode(old(State()), old(other.State()))
    {
      var theirs := other.flags;
      ghost var mine := flags;
      proxies := proxies + other.proxies;
      var todo := theirs.Keys;
      while todo != {}
        invariant todo <= theirs.Keys
        invariant id == old(id) && proxies == old(proxies) + old(other.proxies)
        invariant flags.Keys == mine.Keys + (theirs.Keys - todo)
        invariant forall f | f in flags ::
          flags[f] == if f in theirs && f !in todo
                      then PyAnd(if f in mine then mine[f] else Some(false), theirs[f])
                      else mine[f]
        decreases todo
      {
        var f :| f in todo;
        flags := flags[f := PyAnd(if f in flags then flags[f] else Some(false), theirs[f])];
        todo := todo - {f};
      }
      assert flags == FlagsMerged(mine, theirs);
      r := this;
    }
  }
}
