# followthemoney-graph in Dafny

followthemoney-graph keeps records ("proxies") of the followthemoney data model in a
canonicalising entity graph. Every record id is registered in a lookup table
(`_id_to_canonical`) that names the canonical node holding it. Canonical nodes live in a
directed multigraph (networkx `MultiDiGraph`) whose edges are identified by
`(source, target, key)`.

The graph's main operations work as follows:
- `add_proxy` registers a record.
- `connect_edges` wires an edge-typed record as `source -> edge node -> target`. It first
  creates "stub" nodes for endpoint ids the graph has not seen; their ids are remembered
  as pending.
- `merge_nodes` folds right nodes into a left node. The lookup entries and the in- and
  out-edges of each right node move to the left node, and the right node is removed.
- `intersect` rebuilds a graph from the record ids that every input graph holds.

Nodes carry boolean flags (True, False or None). Several components sit around the graph:
- `track_node_tag` uses these flags to hand out every untouched node once.
- A change tracker records which canonical ids merges produced.
- `merge_properties` groups nodes that share a `prop:value` pair and asks for each group
  to be merged.
- Degree filters and a k-round peeling filter select nodes by degree.
- The Aleph query batcher cuts search terms into requests of at most 512 characters.
- An experiment keeps a list of disjoint sets as connected components.

The model is one Dafny module per source file (or per concern of a large one):

| module | file | what it holds |
|---|---|---|
| `Common` | common.dfy | ids, `Option`, the record type `Proxy` |
| `NodeModel` | node.dfy | flag dictionaries and their operations, the node value `NodeState`, the class `Node` |
| `Backend` | networkx_backend.dfy | the class `Network`: a node map plus a set of keyed edge triples |
| `MergeSpec` | merge_spec.dfy | what `merge_nodes` does to the edges and to the lookup table |
| `GraphSpec` | graph_spec.dfy | the graph state as a value, and every graph operation as a function over it |
| `GraphProps` | graph_props.dfy | the promised properties of `add_proxy`, `connect_edges`, `add_stub` and `merge_nodes` |
| `IntersectSpec` | intersect_spec.dfy | `intersect` on values, with its loop invariants |
| `Graph` | entity_graph.dfy | the class `EntityGraph`, whose methods are proved to compute the `GraphSpec` functions |
| `Tracker` | tracker.dfy | the class `EntityGraphTracker` |
| `GraphHelper` | graph_helper.dfy | `track_node_tag` |
| `ProxyOps` | proxy_ops.dfy | `add_entities`, `add_entities_from_file` and `merge_properties` |
| `Filters` | filters.dfy | the degree filters, `filter_kcore` and the true k-core |
| `Aleph` | aleph.dfy | `aleph_get_qparts` batching and `parse_entity` flattening |
| `DatasetComponents` | components.dfy | the class `Components` |

Where the code changes state in place, the model changes it in place too:
- `Node`, `Network`, `EntityGraph`, `EntityGraphTracker` and `Components` are classes.
- Their methods use `modifies` clauses, and their loops carry invariants.
- Each method is proved equal to a function of the old state; the properties are lemmas
  about those functions.
- `parse_entity` overwrites arrays in place.

A few read-only views and definitions state no more than their one-line bodies, so they
have no row below; the lemmas and methods that use them carry the properties:
- `EntityGraph.Contains` (`__contains__`), `EntityGraph.Len` (`__len__`),
  `Network.HasNode`, `Network.NumberOfNodes`, `Network.NumberOfEdges` and `Node.HasFlags`;
- `Common.StubProxy` (the stub record of `add_stub`, used by `GraphSpec.StubS`);
- `MergeSpec.Remap` (used by `MergeSpec.RemapStep` and `GraphSpec.MergeRegMoves`);
- `GraphSpec.NodeIdsOf` (used by `EntityGraph.MergeProxies`);
- `EntityGraphTracker.GetChanges` (it packages the tracked state; `Tracker.TrackMerge`
  and `Tracker.ChainLeavesLast` say what that state holds);
- `ProxyOps.ValueEntries` (used by `ProxyOps.PropEntriesMeaning`);
- `Aleph.Flat` (used by `Aleph.FlatTwice` and `Aleph.FlattenValues`);
- `Components.Parts` (the list itself; `DatasetComponents.NodeCount` and
  `Components.Add` say what it holds).

Some consequences of the code are worth stating plainly:
- `merge_nodes` keeps the left node's id and removes only each right node.
- Re-adding a record whose id is already registered changes nothing: a stub stays a stub,
  and its id stays pending.
- A flag present only on the right node becomes False on the merged node (Python `and`
  with a `False` default).
- A self-loop `(right, right, k)` survives a merge as `(left, left, k)`.
  `MergeSpec.MergeEdgesIsRedirect` proves that the edges after a merge are exactly the old
  edges with `right` renamed to `left`.

## Model

| member | source | states |
|---|---|---|
| NodeModel.SetFlagsExact | followthemoney_graph/node.py:9-10 | `set_flags` overwrites exactly the named flags, every other flag reads as before, and the node then has the named flags |
| NodeModel.EnsureFlagKeepsAndFills | followthemoney_graph/node.py:12-14 | `ensure_flag` keeps every existing value, gives each absent requested flag the requested value, adds exactly the requested keys, and a second call changes nothing |
| NodeModel.MatchNothingRequested | followthemoney_graph/node.py:16-17 | `has_flags()` with no arguments holds of every node |
| NodeModel.MergedFlagTruth | followthemoney_graph/node.py:21-22 | a merged flag is truthy exactly when both sides are truthy; a flag absent on self becomes False; flags only on self are unchanged; the keys are the union |
| NodeModel.MergeAllKeepsTrue | followthemoney_graph/node.py:19-23 | merging nodes that all have `flag=True` gives a node with `flag=True` that keeps the first node's id and holds the first node's records followed by those of each later node, in order |
| NodeModel.Node.constructor | followthemoney_graph/node.py:5-7 | a new node holds the given id, records and flags |
| NodeModel.Node.SetFlags | followthemoney_graph/node.py:9-10 | the flags become the `dict.update` of the old flags; id and records unchanged |
| NodeModel.Node.EnsureFlag | followthemoney_graph/node.py:12-14 | the flags become the `setdefault` of every requested flag; id and records unchanged |
| NodeModel.Node.Merge | followthemoney_graph/node.py:19-23 | returns `self`, whose new value has its own id, the records of both nodes in order and the AND-merged flags |
| Backend.InOutPartition | followthemoney_graph/backends/networkx.py:21-23 | the edges split into the in-edges, the out-edges and the edges not touching a node, the last disjoint from the others |
| Backend.Network.constructor | followthemoney_graph/backends/networkx.py:8-10 | a new backend has no nodes and no edges |
| Backend.Network.GetNode | followthemoney_graph/backends/networkx.py:44-45 | the node stored under an id carries that id |
| Backend.Network.AddNode | followthemoney_graph/backends/networkx.py:15-16 | the node is stored under its id (replacing an existing one), the edges are untouched, and `_has_node`/`_get_node` then find it |
| Backend.Network.AddEdge | followthemoney_graph/backends/networkx.py:18-19 | the edge set gains exactly the triple; the nodes are untouched |
| Backend.Network.RemoveNode | followthemoney_graph/backends/networkx.py:21-23 | the node is gone, and so is every edge touching it; every other edge stays |
| Backend.Network.InEdges | followthemoney_graph/backends/networkx.py:47-48 | exactly the stored edges into the node, with their keys; in a valid backend each comes from a stored node, and a node not stored has none |
| Backend.Network.OutEdges | followthemoney_graph/backends/networkx.py:50-51 | exactly the stored edges out of the node, with their keys; in a valid backend each goes to a stored node, and a node not stored has none |
| Backend.Network.IterNodes | followthemoney_graph/backends/networkx.py:32-36 | yields only stored nodes, unchanged |
| Backend.IterNodesSelects | followthemoney_graph/backends/networkx.py:32-36 | without flags every node is yielded; with flags exactly the nodes whose flags match |
| Backend.ReAddEdgeNoDuplicate | followthemoney_graph/backends/networkx.py:18-19 | re-adding a stored keyed edge changes neither the edges nor their count |
| MergeSpec.MergeEdgesIsRedirect | followthemoney_graph/entity_graph.py:83-91 | after the in-edge pass, the out-edge pass and the removal of `right`, the edges are exactly the old ones with `right` renamed to `left`, keys intact |
| MergeSpec.MergeEdgesFacts | followthemoney_graph/entity_graph.py:83-91 | no edge touches `right` afterwards; each in-edge `(s, right, k)` and out-edge `(right, t, k)` has its counterpart at `left`; a self-loop on `right` becomes one on `left`; the keys are unchanged; the edge count never grows |
| MergeSpec.RemapStep | followthemoney_graph/entity_graph.py:81-82 | repointing one more part is one more map update |
| MergeSpec.RetargetStep | followthemoney_graph/entity_graph.py:83-86 | one more in-edge re-added at `left` with its key |
| MergeSpec.ResourceStep | followthemoney_graph/entity_graph.py:87-90 | one more out-edge re-added at `left` with its key |
| GraphSpec.AddPartOk | followthemoney_graph/entity_graph.py:36-42 | storing a node that gains the record and registering the record keeps the lookup table sound and complete |
| GraphSpec.AddNodeOk | followthemoney_graph/entity_graph.py:112-113 | storing a new node all of whose parts are registered keeps the lookup table sound and complete |
| GraphSpec.NewNode | followthemoney_graph/entity_graph.py:37-41 | the node stored for a new record has the chosen id and the parts of the node already there plus the record |
| GraphSpec.Register | followthemoney_graph/entity_graph.py:36-42 | the record is registered to the chosen id, that node is stored with the record appended, edges and pending stubs untouched, the invariant kept |
| GraphSpec.AddProxyS | followthemoney_graph/entity_graph.py:24-44 | the record ends registered to the returned node, which is stored; no registration is lost; without `node_id` the graph only grows and every newly registered id is the record or a pending stub registered to itself |
| GraphSpec.ReassignS | followthemoney_graph/entity_graph.py:27-34 | the node named `node_id` absorbs the record's node: every id of that node now maps to `node_id`, nothing is registered or unregistered, the pending stubs are unchanged, and the result is new |
| GraphSpec.AddNewS | followthemoney_graph/entity_graph.py:36-44 | an unseen record is stored under `node_id` or its own id, registered to it, reported new, and the graph only grows when no `node_id` is given |
| GraphSpec.AddNewSteps | followthemoney_graph/entity_graph.py:36-44 | `add_proxy` on an unseen record is the store, the registration, then `connect_edges` on the stored node |
| GraphSpec.ConnectS | followthemoney_graph/entity_graph.py:55-70 | wiring keeps the invariant, only grows the graph, and registers new ids only as pending stubs registered to themselves |
| GraphSpec.EndsS | followthemoney_graph/entity_graph.py:58-70 | the same for one loop over the sources or the targets |
| GraphSpec.LinkS | followthemoney_graph/entity_graph.py:59-63 | after one pass the end is registered, the keyed edge between its node and the edge node is present, and an end unseen before is pending |
| GraphSpec.AddEdgeOk | followthemoney_graph/entity_graph.py:63 | adding an edge between stored nodes keeps the invariant |
| GraphSpec.StubS | followthemoney_graph/entity_graph.py:46-53 | the id ends registered to a stored node; an unseen id gets its own node and becomes pending; the graph only grows |
| GraphSpec.StubNewStep | followthemoney_graph/entity_graph.py:51-53 | for an unseen id, `add_stub` is `add_proxy` of the stub record followed by marking it pending |
| GraphSpec.MergeRegOk | followthemoney_graph/entity_graph.py:80-82 | a merge keeps the lookup table sound and complete and registers no new id |
| GraphSpec.MergeNetOk | followthemoney_graph/entity_graph.py:83-91 | a merge leaves no edge dangling |
| GraphSpec.MergeRegMoves | followthemoney_graph/entity_graph.py:81-82 | every id that pointed at `left` or `right` points at `left`, every other entry is unchanged |
| GraphSpec.MergeStepOk | followthemoney_graph/entity_graph.py:77-91 | one merge keeps the invariant, the registered ids and the pending stubs, removes exactly the right node, keeps every other node, and repoints exactly the right node's ids |
| GraphSpec.MergeRestReady | followthemoney_graph/entity_graph.py:77-79 | after one merge the remaining right nodes can still be merged |
| GraphSpec.MergeFoldOk | followthemoney_graph/entity_graph.py:76-92 | `merge_nodes(left, *rights)` keeps the invariant, the registered ids and the pending stubs, keeps `left` and removes exactly the rights other than `left` |
| GraphSpec.MergeFoldRedirects | followthemoney_graph/entity_graph.py:76-92 | every id that pointed at `left` or a right node points at `left` |
| GraphSpec.MergeFoldKeeps | followthemoney_graph/entity_graph.py:76-92 | every id not held by a merged right node keeps its entry |
| GraphSpec.EnsureFlagS | followthemoney_graph/entity_graph.py:137-139 | every node keeps its records, its flag values and gains each absent requested flag; edges, table and pending unchanged |
| GraphSpec.AddProxiesS | followthemoney_graph/entity_graph.py:21-22 | one `(node, is_new)` pair per record; the invariant is kept and no registration changes |
| GraphSpec.AddProxyHolds | followthemoney_graph/entity_graph.py:24-44 | the node `add_proxy` returns holds the record |
| GraphSpec.AddProxiesCons | followthemoney_graph/entity_graph.py:21-22 | `add_proxies` is `add_proxy` on the first record, then on the rest |
| GraphSpec.AddProxiesRegisters | followthemoney_graph/entity_graph.py:21-22 | after `add_proxies` every record id is in the graph |
| GraphSpec.AddProxiesAdvance | followthemoney_graph/entity_graph.py:22 | one more `add_proxy` keeps the loop invariant with its pair appended |
| GraphSpec.EndsAdvance | followthemoney_graph/entity_graph.py:58-63 | one more pass of a `connect_edges` loop keeps its invariant |
| GraphProps.AddProxySeen | followthemoney_graph/entity_graph.py:25-35 | re-adding a registered record with no `node_id` or its current node's id returns that node, reports not new and changes nothing |
| GraphProps.AddProxyUnseen | followthemoney_graph/entity_graph.py:36-44 | an unseen record becomes registered to the returned node, whose id is `node_id` or the record's id, reported new, and `len(G)` grows |
| GraphProps.EndsLinks | followthemoney_graph/entity_graph.py:58-63 | after a loop every end is registered and linked to the edge node, keyed by its id |
| GraphProps.ConnectLinks | followthemoney_graph/entity_graph.py:55-70 | an edge node gets a `source -> node` edge from each source's node and a `node -> target` edge to each target's node, keyed by its id, every endpoint registered |
| GraphProps.StubSeen | followthemoney_graph/entity_graph.py:49-50 | `add_stub` on a present id returns its node and changes nothing, pending included |
| GraphProps.MergeKeepsLen | followthemoney_graph/entity_graph.py:76-92 | `merge_nodes` never changes `len(G)`, and every registered id still maps to a live node holding it |
| GraphProps.MergeSelfNoop | followthemoney_graph/entity_graph.py:77-79 | merging a node with itself changes nothing |
| IntersectSpec.PartsOfRegistered | followthemoney_graph/entity_graph.py:96 | in a well-formed graph the parts of its nodes are exactly its registered ids |
| IntersectSpec.KeepIdsMeans | followthemoney_graph/entity_graph.py:96-100 | an id is kept exactly when some node of every input graph holds it |
| IntersectSpec.NodeOf | followthemoney_graph/entity_graph.py:109 | the node found for a registered id holds it |
| IntersectSpec.GroupNode | followthemoney_graph/entity_graph.py:107-111 | the rebuilt node takes the id of the node holding the kept id in the first graph |
| IntersectSpec.GroupNodeParts | followthemoney_graph/entity_graph.py:107-111 | the rebuilt node holds exactly the parts of the nodes holding the kept id in every graph, the kept id among them |
| IntersectSpec.GroupNodeStep | followthemoney_graph/entity_graph.py:111 | merging in one more graph's node appends its records |
| IntersectSpec.GroupNodeFlagsFalse | followthemoney_graph/entity_graph.py:107-111 | every flag of a rebuilt node is False |
| IntersectSpec.GroupPartsStep | followthemoney_graph/entity_graph.py:110 | `seen_ids` gains the parts of each graph's node in turn |
| IntersectSpec.GroupAdvance | followthemoney_graph/entity_graph.py:108-111 | one more pass of the inner loop keeps its invariant |
| IntersectSpec.StoreGroupSound | followthemoney_graph/entity_graph.py:112-113 | storing the rebuilt node keeps every registered id mapping to a live node holding it |
| IntersectSpec.StoreGroupComplete | followthemoney_graph/entity_graph.py:112-113 | storing the rebuilt node keeps every stored part registered |
| IntersectSpec.StoreGroupRepoints | followthemoney_graph/entity_graph.py:113 | every part of the rebuilt node maps to its id, other entries are unchanged |
| IntersectSpec.StoreGroupOk | followthemoney_graph/entity_graph.py:112-113 | storing the rebuilt node keeps the graph well formed |
| IntersectSpec.KeptPartsNoMerges | followthemoney_graph/entity_graph.py:95-115 | when no input graph merged records, the ids the result can hold besides stubs are exactly the kept ids |
| IntersectSpec.KeepRegistered | followthemoney_graph/entity_graph.py:104-109 | a kept id is registered in every input graph |
| IntersectSpec.IntersectStart | followthemoney_graph/entity_graph.py:102-103 | the main loop's invariant holds for the new empty graph |
| IntersectSpec.IntersectSkip | followthemoney_graph/entity_graph.py:105-106 | skipping a seen id keeps the invariant |
| IntersectSpec.IntersectStore | followthemoney_graph/entity_graph.py:107-113 | the rebuilt node for an unseen kept id can be stored without breaking the graph |
| IntersectSpec.IntersectAdvance | followthemoney_graph/entity_graph.py:104-114 | storing and wiring the rebuilt node keeps the invariant |
| IntersectSpec.IntersectDone | followthemoney_graph/entity_graph.py:104-115 | afterwards every kept id is registered and every registered id is a kept part or a pending stub |
| Graph.EntityGraph.constructor | followthemoney_graph/entity_graph.py:11-13 | an empty table, no pending stubs and an empty multigraph |
| Graph.EntityGraph.GetNode | followthemoney_graph/entity_graph.py:117-118 | the stored node under the id |
| Graph.EntityGraph.GetNodeByProxyId | followthemoney_graph/entity_graph.py:120-122 | the node the table names for the record, which holds the record |
| Graph.EntityGraph.NodeInEdges | followthemoney_graph/entity_graph.py:127-128 | in a valid graph the source of every in-edge is a stored node (so `get_node` finds it), and a node not stored has no in-edges |
| Graph.EntityGraph.NodeOutEdges | followthemoney_graph/entity_graph.py:130-131 | in a valid graph the target of every out-edge is a stored node, and a node not stored has no out-edges |
| Graph.EntityGraph.Nodes | followthemoney_graph/entity_graph.py:18-19 | exactly the stored nodes whose flags match; in a valid graph each is keyed by its own id and every record it holds is in the graph |
| Graph.EntityGraph.Edges | followthemoney_graph/entity_graph.py:15-16 | every stored edge; in a valid graph each joins two stored nodes |
| Graph.EntityGraph.AddProxy | followthemoney_graph/entity_graph.py:24-44 | the new state, node and flag are those of `GraphSpec.AddProxyS` |
| Graph.EntityGraph.Reassign | followthemoney_graph/entity_graph.py:28-34 | the new state and node are those of `GraphSpec.ReassignS` |
| Graph.EntityGraph.AddNew | followthemoney_graph/entity_graph.py:36-44 | the new state and node are those of `GraphSpec.AddNewS` |
| Graph.EntityGraph.AddStub | followthemoney_graph/entity_graph.py:46-53 | the new state and node are those of `GraphSpec.StubS` |
| Graph.EntityGraph.ConnectEdges | followthemoney_graph/entity_graph.py:55-70 | the new state is that of `GraphSpec.ConnectS` |
| Graph.EntityGraph.ConnectEnds | followthemoney_graph/entity_graph.py:58-63 | the new state is that of `GraphSpec.EndsS` |
| Graph.EntityGraph.LinkEnd | followthemoney_graph/entity_graph.py:59-63 | the new state is that of `GraphSpec.LinkS` |
| Graph.EntityGraph.MergeOne | followthemoney_graph/entity_graph.py:78-91 | the new state is that of `GraphSpec.MergeStep` |
| Graph.EntityGraph.RepointParts | followthemoney_graph/entity_graph.py:81-82 | the table becomes `MergeSpec.Remap` of the old one; pending unchanged |
| Graph.EntityGraph.ReattachIn | followthemoney_graph/entity_graph.py:83-86 | the edges gain each in-edge of `right` re-targeted at `left`; nodes unchanged |
| Graph.EntityGraph.ReattachOut | followthemoney_graph/entity_graph.py:87-90 | the edges gain each out-edge of `right` re-sourced at `left`; nodes unchanged |
| Graph.EntityGraph.MergeNodes | followthemoney_graph/entity_graph.py:76-92 | the new state is `GraphSpec.MergeFold` of the old one, and the returned node is the stored left node |
| Graph.EntityGraph.MergeProxies | followthemoney_graph/entity_graph.py:72-74 | the new state is `GraphSpec.MergeProxiesS`; the returned node is the first record's node, still stored |
| Graph.EntityGraph.EnsureFlag | followthemoney_graph/entity_graph.py:137-139 | the new state is `GraphSpec.EnsureFlagS` |
| Graph.EntityGraph.AddProxies | followthemoney_graph/entity_graph.py:21-22 | the new state and the pairs are those of `GraphSpec.AddProxiesS` |
| Graph.EntityGraph.Intersect | followthemoney_graph/entity_graph.py:94-115 | a fresh well-formed graph that registers every kept id, and otherwise only parts of the kept ids' nodes and pending stubs |
| Graph.EntityGraph.PlaceGroup | followthemoney_graph/entity_graph.py:112-114 | the rebuilt node stored, its parts registered to it and its edges wired |
| Graph.EntityGraph.IntersectGroup | followthemoney_graph/entity_graph.py:107-111 | the rebuilt node and the parts seen are `GroupNode` and `GroupParts` |
| Graph.EntityGraph.KeepOf | followthemoney_graph/entity_graph.py:96-100 | the kept ids are `IntersectSpec.KeepIds` |
| Tracker.TrackMerge | followthemoney_graph/lib/entity_graph_tracker.py:34-36 | the merge set holds the returned id, keeps every tracked id other than the two merged ones, has lost the two merged ids (unless returned), gains nothing else and grows by at most one |
| Tracker.ChainLeavesLast | followthemoney_graph/lib/entity_graph_tracker.py:31-37 | a chain of merges, each folding the previous result, leaves only the final id |
| Tracker.TrackAllBound | followthemoney_graph/lib/entity_graph_tracker.py:34-36 | the merge set grows by at most one id per tracked merge |
| Tracker.EntityGraphTracker.constructor | followthemoney_graph/lib/entity_graph_tracker.py:14-16 | nothing tracked: an empty merge set and no new nodes or edges |
| Tracker.EntityGraphTracker.MergeNodesCanonical | followthemoney_graph/lib/entity_graph_tracker.py:31-37 | returns the wrapped graph's id; the merge set becomes `TrackMerge` of the old one; the lists are unchanged |
| Tracker.EntityGraphTracker.AddEdge | followthemoney_graph/lib/entity_graph_tracker.py:39-44 | the record is appended to the new edges exactly when reported new; the result is passed through |
| Tracker.EntityGraphTracker.AddNode | followthemoney_graph/lib/entity_graph_tracker.py:46-51 | the record is appended to the new nodes exactly when reported new; the result is passed through |
| GraphHelper.TrackNodeTag | followthemoney_graph/lib/graph_helper.py:8-19 | the nodes handed out, once each, are exactly those the query selects after `ensure_flag(flag=False)`, and the graph ends as `TrackS` says |
| GraphHelper.TagAll | followthemoney_graph/lib/graph_helper.py:17-19 | every node of the snapshot is handed out once and tagged True |
| GraphHelper.TagAdvance | followthemoney_graph/lib/graph_helper.py:17-19 | handing out one more node and tagging it keeps the loop invariant |
| GraphHelper.SelectedBefore | followthemoney_graph/lib/graph_helper.py:9-15 | without `force` a pass visits the nodes whose flag is False or absent (never None); with `force`, every node |
| GraphHelper.TrackKeeps | followthemoney_graph/lib/graph_helper.py:8-19 | a pass changes only flags |
| GraphHelper.TrackTags | followthemoney_graph/lib/graph_helper.py:17-19 | every visited node ends with `flag=True`; every other node only gained the flag where absent |
| GraphHelper.TaggedFlags | followthemoney_graph/lib/graph_helper.py:19 | tagging sets the flag True on the tagged nodes and leaves the others alone |
| GraphHelper.TagNodeTwice | followthemoney_graph/lib/graph_helper.py:19 | tagging a node twice is tagging it once |
| GraphHelper.SecondPassSkips | followthemoney_graph/lib/graph_helper.py:8-19 | a non-forced pass after a completed pass visits none of the nodes the first one processed |
| ProxyOps.AddEntities | followthemoney_graph/operations/proxy.py:14-20 | the graph ends as `add_proxies` would leave it, and every record is collected in input order |
| ProxyOps.AddNext | followthemoney_graph/operations/proxy.py:17-19 | one more `add_proxy` keeps the loop invariant |
| ProxyOps.AddEntitiesFromFile | followthemoney_graph/operations/proxy.py:22-29 | the same for the records the file's lines decode to, in file order |
| ProxyOps.RecordAllAppend | followthemoney_graph/operations/proxy.py:36-42 | recording two runs of pairs is recording their concatenation |
| ProxyOps.RecordAllMeaning | followthemoney_graph/operations/proxy.py:33-42 | the table built from pairs holds each key exactly when a pair records it, under it exactly the ids recorded with it, and lists each key once |
| ProxyOps.RecordKeys | followthemoney_graph/operations/proxy.py:42 | recording one more pair keeps the table's keys exactly the keys recorded |
| ProxyOps.RecordIds | followthemoney_graph/operations/proxy.py:42 | recording one more pair keeps the ids under every key exactly the ids recorded with it |
| ProxyOps.RecordOrder | followthemoney_graph/operations/proxy.py:42 | recording one more pair keeps the key order listing every key once |
| ProxyOps.PropEntriesMeaning | followthemoney_graph/operations/proxy.py:37-42 | a record contributes `(prop:value, its node id)` exactly for wanted properties and their values |
| ProxyOps.RowEntriesMeaning | followthemoney_graph/operations/proxy.py:36-42 | a pair is recorded exactly when some record contributes it |
| ProxyOps.SomeRowLast | followthemoney_graph/operations/proxy.py:36 | a record of the list contributes exactly when an earlier one or the last one does |
| ProxyOps.BuildTable | followthemoney_graph/operations/proxy.py:33-42 | the table is the one the records' pairs build |
| ProxyOps.RecordRow | followthemoney_graph/operations/proxy.py:37-42 | one record's wanted properties recorded |
| ProxyOps.RecordValues | followthemoney_graph/operations/proxy.py:40-42 | one property's values recorded |
| ProxyOps.DedupeTable | followthemoney_graph/operations/proxy.py:33-42 | under `prop:value` exactly the node ids of the records with that value for a wanted property (all when none named), each key listed once |
| ProxyOps.PlanStepMeaning | followthemoney_graph/operations/proxy.py:45-49 | a group of two or more looked-up ids is asked for and each of its ids then looks up as the returned id; other lookups unchanged; a smaller group changes nothing |
| ProxyOps.PlanAllSnoc | followthemoney_graph/operations/proxy.py:44-49 | the merge loop over one more key is one more step |
| ProxyOps.RunPlan | followthemoney_graph/operations/proxy.py:43-49 | the groups asked for are those of `PlanAll` over the keys in insertion order |
| ProxyOps.MergeProperties | followthemoney_graph/operations/proxy.py:32-50 | returns the empty list; the groups asked for are those of the as-written merge loop over the dedupe table |
| ProxyOps.StaleFirst | followthemoney_graph/operations/proxy.py:45-49 | the first merge of the chain asks for {a, b} and looks both up as b |
| ProxyOps.StaleSecond | followthemoney_graph/operations/proxy.py:45-49 | the second merge asks for {b, c} |
| ProxyOps.StaleSecondKeeps | followthemoney_graph/operations/proxy.py:49 | after it `a` still looks up as `b`, and `c` as itself |
| ProxyOps.StaleThird | followthemoney_graph/operations/proxy.py:45-48 | the third key asks for {b, c} again |
| ProxyOps.MergePlanStale | followthemoney_graph/operations/proxy.py:43-49 | as written, keys {a,b}, {b,c}, {a,c} with merges into b then c ask to merge b, already merged away, a second time |
| ProxyOps.MergePlanStaleExample | followthemoney_graph/operations/proxy.py:43-49 | the same with the ids "A", "B", "C" and a merge result that is always a member of the group |
| ProxyOps.PlanStepFixed | followthemoney_graph/operations/proxy.py:45-49 | the corrected step asks for the same groups and looks the group's ids up as the returned id |
| ProxyOps.FixedSettled | followthemoney_graph/operations/proxy.py:49 | the corrected remap keeps every lookup landing on an id that looks up to itself |
| ProxyOps.FixedDead | followthemoney_graph/operations/proxy.py:49 | the corrected remap keeps every merged-away id looking up elsewhere |
| ProxyOps.FixedStep | followthemoney_graph/operations/proxy.py:45-49 | one corrected step keeps the invariant |
| ProxyOps.FixedPlanNeverStale | followthemoney_graph/operations/proxy.py:43-49 | with the corrected remap no group asked for names an id an earlier merge took away |
| ProxyOps.RunPlanFixed | followthemoney_graph/operations/proxy.py:43-49 | the corrected loop asks for the groups of `PlanAllFixed` |
| ProxyOps.MergePropertiesFixed | followthemoney_graph/operations/proxy.py:32-50 | the corrected `merge_properties` returns the empty list and, when merges return a member of the group, never asks to merge an id already merged away |
| Filters.FilterDegreeRange | followthemoney_graph/operations/graph.py:14-26 | exactly the nodes with `lo <= degree < hi` (a None bound unchecked) survive, with the edges between them |
| Filters.FilterDegreeMin | followthemoney_graph/operations/graph.py:29-30 | exactly the nodes of degree at least `m`, induced subgraph |
| Filters.FilterDegreeMax | followthemoney_graph/operations/graph.py:33-34 | exactly the nodes of degree below `m` (degree `m` excluded), induced subgraph |
| Filters.RangeIsMinAndMax | followthemoney_graph/operations/graph.py:14-34 | a two-sided range keeps exactly what both one-sided filters keep |
| Filters.RangeUnbounded | followthemoney_graph/operations/graph.py:14-26 | with no bounds the network is unchanged |
| Filters.RangeMonotone | followthemoney_graph/operations/graph.py:14-26 | widening the range never drops a node or an edge |
| Filters.Rounds | followthemoney_graph/operations/graph.py:6-8 | the rounds leave a well-formed induced subgraph |
| Filters.FilterKCore | followthemoney_graph/operations/graph.py:4-11 | the loop computes `k` rounds, and none for a negative `k` (`range(k)` is empty), returning the network unchanged |
| Filters.RoundsShrink | followthemoney_graph/operations/graph.py:6-8 | each round keeps a part of the previous round's network |
| Filters.RoundsStep | followthemoney_graph/operations/graph.py:6-8 | round `i + 1` is the minimum-degree filter at `i + 1` on the network left |
| Filters.LastRound | followthemoney_graph/operations/graph.py:6-8 | a node survives round `k` exactly when its current degree is at least `k` |
| Filters.CoreWithinRounds | followthemoney_graph/operations/graph.py:6-8 | the as-written filter keeps the whole k-core |
| Filters.DenseWithinRounds | followthemoney_graph/operations/graph.py:6-8 | any node set of minimum degree `k` survives every round |
| Filters.SurvivesPeel | followthemoney_graph/operations/graph.py:8 | a node set of minimum degree `t` survives a peel at `t` |
| Filters.KCoreNotCore | followthemoney_graph/operations/graph.py:4-11 | as written, two rounds on the path a -> b -> c keep b alone, of degree 0, while the 2-core is empty |
| Filters.PathNoDense | followthemoney_graph/operations/graph.py:4-11 | no non-empty induced subgraph of the path a -> b -> c has minimum degree 2 |
| Filters.CoreOfPathEmpty | followthemoney_graph/operations/graph.py:4-11 | the 2-core of the path a -> b -> c is empty |
| Filters.Core | followthemoney_graph/operations/graph.py:4-11 | the true k-core: an induced subgraph of minimum degree `k` |
| Filters.CoreMaximal | followthemoney_graph/operations/graph.py:4-11 | every node set of minimum degree `k` lies inside the k-core |
| Filters.FilterKCoreFixed | followthemoney_graph/operations/graph.py:4-11 | the corrected filter computes the k-core; for `k <= 0` that is the whole network |
| Filters.CoreNonPositive | followthemoney_graph/operations/graph.py:4-11 | for `k <= 0` the k-core is the whole network |
| Aleph.Fit | followthemoney_graph/operations/aleph.py:29-35 | the cut index lies within the list |
| Aleph.FitMeaning | followthemoney_graph/operations/aleph.py:29-35 | the first `i` parts fit in the budget and, unless they are all, the next one does not |
| Aleph.FitUnique | followthemoney_graph/operations/aleph.py:29-35 | the greedy cut is the only index with those two properties |
| Aleph.SplitIndex | followthemoney_graph/operations/aleph.py:29-35 | the `for ... else` loop computes the greedy cut at 512 |
| Aleph.JoinOrLength | followthemoney_graph/operations/aleph.py:36 | the query text is the parts plus four characters per separator |
| Aleph.GetQParts | followthemoney_graph/operations/aleph.py:26-38 | the batches sent are `Batches` of the parts, each sent as its `" OR "` join |
| Aleph.BatchesStep | followthemoney_graph/operations/aleph.py:36-37 | one pass moves one batch from the parts waiting to the batches sent |
| Aleph.BatchesCover | followthemoney_graph/operations/aleph.py:26-37 | the batches, followed by the parts still waiting, are the parts: nothing lost, duplicated or reordered |
| Aleph.BatchesBounded | followthemoney_graph/operations/aleph.py:29-33 | every batch is non-empty and sums to at most 512 characters |
| Aleph.StuckMeaning | followthemoney_graph/operations/aleph.py:27-37 | the loop gets stuck exactly when a part longer than 512 is reached, and otherwise sends everything |
| Aleph.NoPartsNoQuery | followthemoney_graph/operations/aleph.py:27 | no parts, no request |
| Aleph.BatchesGreedy | followthemoney_graph/operations/aleph.py:29-35 | each batch ends at the end or just before the part that would exceed 512 |
| Aleph.GreedyUnique | followthemoney_graph/operations/aleph.py:26-37 | any greedy cut of the parts is the one the loop produces |
| Aleph.StuckExample | followthemoney_graph/operations/aleph.py:27-37 | as written, a single part of 513 characters is never cut: nothing is sent and the part stays waiting, so the source resends an empty query for ever |
| Aleph.CutFixed | followthemoney_graph/operations/aleph.py:29-35 | the corrected cut takes at least one part, and more than one only when they fit in 512 characters |
| Aleph.BatchesFixedCover | followthemoney_graph/operations/aleph.py:26-37 | the corrected loop sends every part once, in order, and ends; each batch is non-empty and within 512 characters or a single oversized part |
| Aleph.FixedAgrees | followthemoney_graph/operations/aleph.py:26-37 | when no part is longer than 512 characters the corrected loop sends exactly the batches of the loop as written |
| Aleph.GetQPartsFixed | followthemoney_graph/operations/aleph.py:26-37 | the corrected loop sends the batches of `BatchesFixed`, each as its `" OR "` join |
| Aleph.FlatTwice | followthemoney_graph/operations/aleph.py:57-58 | a second pass changes nothing when no `"id"` is itself a dictionary |
| Aleph.FlattenValues | followthemoney_graph/operations/aleph.py:56-58 | every value of the list is replaced in place by its flattened form, the length unchanged |
| Aleph.ParseEntity | followthemoney_graph/operations/aleph.py:54-58 | every value of every property list is flattened in place |
| DatasetComponents.FirstHit | experiments/dataset_components.py:19-24 | the first component sharing an id with the items, or none when no component does |
| DatasetComponents.HitsBelowList | experiments/dataset_components.py:19-24 | the scan's `merge` list holds exactly the indices of the components hit, in increasing order |
| DatasetComponents.FirstHitAt | experiments/dataset_components.py:21-24 | the first entry of `merge` is the first component hit |
| DatasetComponents.FrameStart | experiments/dataset_components.py:22-29 | before any pop, the list is the old one with the items added to the first component hit |
| DatasetComponents.FrameStep | experiments/dataset_components.py:30-31 | one pop of a later hit moves it into the first one, and the indices still to pop stay valid |
| DatasetComponents.FrameEnd | experiments/dataset_components.py:27-31 | after the last pop the list is `AddS` of the old one |
| DatasetComponents.UnionSplit | experiments/dataset_components.py:19-31 | the components hit and those kept together hold every id |
| DatasetComponents.SumSizesUnion | experiments/dataset_components.py:36-37 | for disjoint components the summed size is the size of the union |
| DatasetComponents.NodeCount | experiments/dataset_components.py:36-37 | the summed size counts the distinct ids whenever the components are disjoint |
| DatasetComponents.AddUnion | experiments/dataset_components.py:16-31 | `add` grows the union of the components by exactly the items |
| DatasetComponents.AddCount | experiments/dataset_components.py:25-31 | the list grows by one when no component is hit and shrinks by `k - 1` when `k` are |
| DatasetComponents.NonHitsCount | experiments/dataset_components.py:19-24 | the components kept plus those hit are all the components |
| DatasetComponents.NonHitsDisjoint | experiments/dataset_components.py:30-31 | dropping the hit components keeps the others disjoint |
| DatasetComponents.AddDisjoint | experiments/dataset_components.py:16-31 | `add` keeps disjoint components disjoint |
| DatasetComponents.Components.constructor | experiments/dataset_components.py:13-14 | no component yet |
| DatasetComponents.Components.Add | experiments/dataset_components.py:16-31 | the list becomes `AddS` of the old one: a new last component, or the first hit absorbing the items and the later hits with the others kept in order; disjointness is preserved |
| DatasetComponents.Components.Scan | experiments/dataset_components.py:17-24 | `merge` lists the components hit; with a hit, the first one absorbed the items; without, nothing changed |
| DatasetComponents.Components.PopLater | experiments/dataset_components.py:27-31 | popping the later hits in reverse order leaves the list `AddS` describes |
| DatasetComponents.Components.NNodes | experiments/dataset_components.py:36-37 | the summed size, which is the number of distinct ids when the components are disjoint |

## Left out

- Common.Id: ids are non-empty strings, so `node_id or proxy.id` never meets Python's falsy empty id.
- Edge data (the `prop=` attribute on edges) is not modelled. An edge is its `(source, target, key)` triple, which is how networkx identifies it.
- NodeModel.Node.Merge: `MultiPartProxy.merge` belongs to the followthemoney library and is not part of this model. It is modelled as appending the other node's records. A node is an edge when its first record is. `node.get(prop)` is the concatenation of its records' values.
- Graph.EntityGraph: the stored nodes are values in the backend's node map. Python's aliasing between the node object a caller holds and the stored one (`left_node.merge` changing both) is not modelled. The methods return the stored node after the change.
- Graph.EntityGraph.MergeNodes: it requires the right nodes other than `left` to be stored and pairwise distinct. On a repeated right node Python first merges that node's records into `left` a second time and repoints its ids again. networkx then reports no in- or out-edges for the removed id (it reads the id string as a collection of node names), and the call fails only at `remove_node`, with networkx's `NetworkXError`, leaving those changes behind. That partial, failing run is not modelled.
- Graph.EntityGraph.MergeProxies: it requires every record to be registered, at least one record, and distinct nodes for the later records other than the first record's node. An unregistered record raises `KeyError`; no record at all raises `TypeError` (`merge_nodes` needs a left node); two later records sharing another node fail as in `MergeNodes` above.
- Backend.Network.AddEdge: it requires both endpoints to be stored. networkx would create them silently, but every caller in the entity graph passes stored endpoints.
- Backend.Network.IterEdges: only the call without flags is modelled. The flag branch calls itself with the same arguments and never returns.
- `get_node_by_proxy`, `proxies`, `n_nodes`, `n_edges` and `__repr__` of `EntityGraph` have no members of their own. They are `GetNodeByProxyId` of the record's id, the records of the nodes `Nodes` returns, and the backend counts.
- Graph.EntityGraph.Intersect: its contract is weaker than the exact result. It states that every kept id is registered and every other registered id is a kept part or a pending stub. It requires that every node id of the first graph be one of that node's record ids, which `add_proxy` without `node_id` guarantees. The input graphs are read only and are passed as their states.
- Graph.EntityGraph.Intersect: a flag of a rebuilt node is False, because `Node()` starts without flags. The foreign `Node()` is modelled as taking the id of the first node merged into it.
- Tracker: the wrapped graph is not part of this model. What its `merge_nodes_canonical`, `add_edge`, `add_node` and `get_node_proxies` return is passed in. The reflective `__getattr__` delegation (which uses an undefined name) and the context-manager methods are left out.
- GraphHelper.TrackNodeTag: the generator is modelled as a pass run to the end by a consumer that does not change the graph. The snapshot taken before the first yield is the set of selected ids. What a consumer does between items, and a pass abandoned half way, are not modelled. `get_node_proxies` and `set_proxy_flags` are foreign graph methods, modelled at node level: one item per selected node, and `flag=True` set on it.
- ProxyOps.AddEntities: `model.get_proxy` is foreign, so the entities are passed as the records it builds.
- ProxyOps.AddEntitiesFromFile: reading the file, `json.loads` and `model.get_proxy` are not modelled. It takes the decoded records, in file order.
- ProxyOps.MergeProperties: `G.get_proxies()` and `get_type_inverted()` are foreign. The records are passed as `Row`s of a node id and property/value lists. `G.merge_nodes_canonicals` is foreign, so its results are a function parameter `merged`. The method returns the groups it asks for, so that the contract can state them.
- ProxyOps.PlanStep: the group is a set, and the `*canon_ids` argument order that Python's set iteration gives is not modelled.
- Filters: the filters take the network as a value (`Net`) and return the surviving nodes and edges. `EntityGraph.from_networkx` is not defined in the repository and is not part of this model. The `copy` flag only copies the network and does not change what survives, so it is left out.
- Filters.FilterKCore: the degrees are those of the multigraph's edge set. A self-loop counts twice.
- Aleph.GetQParts: the source loops forever, sending empty queries, once the first waiting part is longer than 512 characters (see "Findings"). The model of the loop as written stops there and reports the parts still waiting. The HTTP requests and the results they yield are not modelled.
- Aleph.ParseEntity: it requires distinct arrays for distinct properties (each property has its own list in decoded JSON), and it stops before `model.get_proxy`, which is foreign.
- The remote-API functions of `aleph.py` (`aleph_get`, `_alephget`, `add_aleph_entities`, `add_aleph_collection`, the enrich and expand functions and `parse_edge`) are network I/O and are not modelled.
- DatasetComponents.Components.Parts: it returns the list as a value. In Python the caller receives the live list of live sets.
- DatasetComponents: `merge.sort()` is not modelled as a step. The scan appends indices in increasing order, so the sort changes nothing (`HitsBelowList`). The driver code (`calculate_components`, `process_collection`, the `__main__` block) uses the remote API, a process pool and files, and is not modelled.
- Export, visualisation, utility and packaging code, and logging and progress bars, are not modelled.

## Findings

| source | as written | input that shows it | evidently intended | confidence | as-written member | corrected member |
|---|---|---|---|---|---|---|
| followthemoney_graph/operations/proxy.py:45-49 | each node id is looked up once in `id_change_lookup`, and after a merge only the ids of the merged group are repointed, so an id that looked up into the group keeps pointing at a node merged away | three keys holding {a, b}, {b, c} and {a, c}, visited in that order, with merges returning b and then c: the third key looks `a` up as `b` and asks to merge b and c again, though b was merged into c | every lookup lands on a node still in the graph, so no merge request names a node an earlier merge removed | not executed | ProxyOps.MergePlanStale | ProxyOps.MergePropertiesFixed |
| followthemoney_graph/operations/graph.py:6-8 | `filter_kcore` runs exactly `k` rounds, round `i` keeping the nodes of degree at least `i + 1`, so nodes whose neighbours were peeled in the last round are kept | the path a -> b -> c with `k = 2`: round 1 keeps the whole path, round 2 keeps b alone, now of degree 0 | the k-core: peel until every remaining node has degree at least `k` (empty for the path) | not executed | Filters.KCoreNotCore | Filters.FilterKCoreFixed |
| followthemoney_graph/operations/aleph.py:27-37 | when the first waiting part is longer than 512 characters the inner loop breaks at `i = 0`, so the query is empty and `q_parts[0:]` leaves the list unchanged, and the `while` loop repeats for ever | a single part of 513 characters | every part is sent once and the loop ends; a part longer than 512 characters goes in a query of its own | not executed | Aleph.StuckExample | Aleph.GetQPartsFixed |
