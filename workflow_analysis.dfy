/** Graph analysis of an API-format workflow (`src/comfyui/workflow_analysis.py`): the node table,
    the edges between nodes and their counters, sources and sinks, the literal inputs, and the
    nodes the service binds as inputs and image outputs; then the listing of workflow files. */
module WorkflowAnalysis {
  import opened Wrappers
  import opened Strings
  import opened JsonValues

  /** `{"from": …, "to": …, "parameter": …}`: input `parameter` of node `to` reads an output of
      node `from`. */
  datatype Edge = Edge(from: string, to: string, parameter: string)

  /** `WorkflowInput`: an input node and the value it currently holds. */
  datatype WorkflowInput = WorkflowInput(nodeId: string, nodeType: string, value: Json,
                                         displayName: Option<string>, description: Option<string>)

  /** `WorkflowWebsocketImageOutput`: an image output node and where its images go. */
  datatype ImageOutput = ImageOutput(nodeId: string, nodeType: string, connectionId: string, outputId: string)

  /** `WorkflowDescriptor`.  Its `nodes` table is not a field: it is `Nodes(d)`, the view of the
      node entries of `workflowJson`, since `nodes` in `WorkflowDescriptor` holds the very same dicts. */
  datatype Descriptor = Descriptor(
    workflowId: string,
    workflowJson: Dict<Json>,
    edges: seq<Edge>,
    sourceIds: seq<string>,
    sinkIds: seq<string>,
    externalParameters: Dict<Dict<Json>>,
    inputs: seq<WorkflowInput>,
    outputs: seq<ImageOutput>)

  /** Why `analyze_workflow` raises: a UI-format workflow and a failed record validation are
      `ValueError`s; a missing key or a value of the wrong type is any other error. */
  datatype Failure = NotApiWorkflow | InvalidRecord | Malformed

  predicate IsValueError(f: Failure)
  {
    f.NotApiWorkflow? || f.InvalidRecord?
  }

  /** `json.load` of a file whose top level is an object gives a dict: its keys are unique. */
  predicate Parsed(wf: Json)
  {
    wf.Obj? ==> UniqueKeys(wf.fields)
  }

  // ---------------------------------------------------------------- the node table

  /** `'class_type' in n` holds. */
  predicate Selected(n: Json)
  {
    In("class_type", n) == Some(true)
  }

  /** `{n_id: n for n_id, n in workflow.items() if 'class_type' in n}`. */
  function NodesById(entries: Dict<Json>): (nodes: Dict<Json>)
    ensures forall e :: e in nodes <==> e in entries && Selected(e.1)
  {
    if entries == [] then []
    else (if Selected(entries[0].1) then [entries[0]] else []) + NodesById(entries[1..])
  }

  /** The node table of a descriptor: the node entries of its workflow. */
  function Nodes(d: Descriptor): Dict<Json>
  {
    NodesById(d.workflowJson)
  }

  /** Every key of the node table is a key of the workflow. */
  lemma NodesByIdKeys(entries: Dict<Json>)
    ensures forall k :: k in Keys(NodesById(entries)) ==> k in Keys(entries)
  {
    EntryKeys(entries);
    forall k | k in Keys(NodesById(entries)) ensures k in Keys(entries) {
      assert (k, Get(NodesById(entries), k).value) in entries;
    }
  }

  lemma {:induction false} NodesByIdUnique(entries: Dict<Json>)
    requires UniqueKeys(entries)
    ensures UniqueKeys(NodesById(entries))
  {
    if entries != [] {
      var e := entries[0];
      var rest := NodesById(entries[1..]);
      NodesByIdUnique(entries[1..]);
      if Selected(e.1) {
        NodesByIdKeys(entries[1..]);
        assert NodesById(entries)[1..] == rest;
      } else {
        assert NodesById(entries) == rest;
      }
    }
  }

  /** The `inputs` dict of a node, `{}` when it has none. */
  function InputsOf(n: Json): Dict<Json>
  {
    if n.Obj? && Get(n.fields, "inputs").Some? && Get(n.fields, "inputs").value.Obj? then
      Get(n.fields, "inputs").value.fields
    else []
  }

  /** Every node is a dict whose `inputs`, when present, is a dict; otherwise `node.get` or
      `inputs.items()` raises. */
  predicate WellShaped(nodes: Dict<Json>)
  {
    forall i :: 0 <= i < |nodes| ==>
      nodes[i].1.Obj? && (Get(nodes[i].1.fields, "inputs").None? || Get(nodes[i].1.fields, "inputs").value.Obj?)
  }

  // ---------------------------------------------------------------- edges and their counters

  /** An input value that reads another node's output: a non-empty list whose first element is a
      string (the source node's id). */
  predicate IsReference(v: Json)
  {
    v.Arr? && |v.items| >= 1 && v.items[0].Str?
  }

  /** The edges contributed by the inputs of node `id`, in their order. */
  function NodeEdges(id: string, inputs: Dict<Json>): seq<Edge>
  {
    if inputs == [] then []
    else
      var (param, value) := inputs[|inputs| - 1];
      NodeEdges(id, inputs[..|inputs| - 1]) +
      (if IsReference(value) then [Edge(value.items[0].s, id, param)] else [])
  }

  /** The edge list of the node table, node by node. */
  function EdgesOf(nodes: Dict<Json>): seq<Edge>
  {
    if nodes == [] then []
    else EdgesOf(nodes[..|nodes| - 1]) + NodeEdges(nodes[|nodes| - 1].0, InputsOf(nodes[|nodes| - 1].1))
  }

  /** Edges whose source is a known node: the ones the counters see. */
  predicate Counted(e: Edge, ids: seq<string>)
  {
    e.from in ids
  }

  /** `incoming[id]`: counted edges into `id`. */
  function InCount(edges: seq<Edge>, id: string, ids: seq<string>): nat
  {
    if edges == [] then 0
    else
      var e := edges[|edges| - 1];
      InCount(edges[..|edges| - 1], id, ids) + (if e.to == id && Counted(e, ids) then 1 else 0)
  }

  /** `outgoing[id]`: counted edges out of `id`. */
  function OutCount(edges: seq<Edge>, id: string, ids: seq<string>): nat
  {
    if edges == [] then 0
    else
      var e := edges[|edges| - 1];
      OutCount(edges[..|edges| - 1], id, ids) + (if e.from == id && Counted(e, ids) then 1 else 0)
  }

  /** The number of counted edges. */
  function CountedEdges(edges: seq<Edge>, ids: seq<string>): nat
  {
    if edges == [] then 0
    else CountedEdges(edges[..|edges| - 1], ids) + (if Counted(edges[|edges| - 1], ids) then 1 else 0)
  }

  /** The `incoming` dict: one counter per node, in node order. */
  function InTable(nodes: Dict<Json>, edges: seq<Edge>): Dict<int>
  {
    InCounters(nodes, edges, Keys(nodes))
  }

  function InCounters(nodes: Dict<Json>, edges: seq<Edge>, ids: seq<string>): Dict<int>
  {
    if nodes == [] then []
    else [(nodes[0].0, InCount(edges, nodes[0].0, ids) as int)] + InCounters(nodes[1..], edges, ids)
  }

  /** The `outgoing` dict. */
  function OutTable(nodes: Dict<Json>, edges: seq<Edge>): Dict<int>
  {
    OutCounters(nodes, edges, Keys(nodes))
  }

  function OutCounters(nodes: Dict<Json>, edges: seq<Edge>, ids: seq<string>): Dict<int>
  {
    if nodes == [] then []
    else [(nodes[0].0, OutCount(edges, nodes[0].0, ids) as int)] + OutCounters(nodes[1..], edges, ids)
  }

  /** Both dicts have the node ids as keys, in node order. */
  lemma {:induction false} CountersKeys(nodes: Dict<Json>, edges: seq<Edge>, ids: seq<string>)
    ensures Keys(InCounters(nodes, edges, ids)) == Keys(nodes)
    ensures Keys(OutCounters(nodes, edges, ids)) == Keys(nodes)
  {
    if nodes != [] {
      CountersKeys(nodes[1..], edges, ids);
      assert InCounters(nodes, edges, ids)[1..] == InCounters(nodes[1..], edges, ids);
      assert OutCounters(nodes, edges, ids)[1..] == OutCounters(nodes[1..], edges, ids);
    }
  }

  /** The entry of a node holds the number of counted edges into (out of) it. */
  lemma {:induction false} CountersHold(nodes: Dict<Json>, edges: seq<Edge>, ids: seq<string>)
    ensures forall id, c :: (id, c) in InCounters(nodes, edges, ids) <==> id in Keys(nodes) && c == InCount(edges, id, ids)
    ensures forall id, c :: (id, c) in OutCounters(nodes, edges, ids) <==> id in Keys(nodes) && c == OutCount(edges, id, ids)
  {
    if nodes != [] {
      CountersHold(nodes[1..], edges, ids);
      var i := InCounters(nodes, edges, ids);
      var o := OutCounters(nodes, edges, ids);
      assert i[1..] == InCounters(nodes[1..], edges, ids);
      assert o[1..] == OutCounters(nodes[1..], edges, ids);
      assert forall x :: x in i <==> x == i[0] || x in i[1..];
      assert forall x :: x in o <==> x == o[0] || x in o[1..];
    }
  }

  lemma InCountSnoc(edges: seq<Edge>, e: Edge, id: string, ids: seq<string>)
    ensures InCount(edges + [e], id, ids) == InCount(edges, id, ids) + (if e.to == id && Counted(e, ids) then 1 else 0)
  {
    assert (edges + [e])[..|edges|] == edges;
  }

  lemma OutCountSnoc(edges: seq<Edge>, e: Edge, id: string, ids: seq<string>)
    ensures OutCount(edges + [e], id, ids) == OutCount(edges, id, ids) + (if e.from == id && Counted(e, ids) then 1 else 0)
  {
    assert (edges + [e])[..|edges|] == edges;
  }

  /** An edge that no counter sees leaves the counters as they are. */
  lemma {:induction false} InCountersSame(nodes: Dict<Json>, edges: seq<Edge>, ids: seq<string>, e: Edge)
    requires e.to !in Keys(nodes) || !Counted(e, ids)
    ensures InCounters(nodes, edges + [e], ids) == InCounters(nodes, edges, ids)
  {
    if nodes != [] {
      InCountSnoc(edges, e, nodes[0].0, ids);
      InCountersSame(nodes[1..], edges, ids, e);
    }
  }

  lemma {:induction false} OutCountersSame(nodes: Dict<Json>, edges: seq<Edge>, ids: seq<string>, e: Edge)
    requires e.from !in Keys(nodes) || !Counted(e, ids)
    ensures OutCounters(nodes, edges + [e], ids) == OutCounters(nodes, edges, ids)
  {
    if nodes != [] {
      OutCountSnoc(edges, e, nodes[0].0, ids);
      OutCountersSame(nodes[1..], edges, ids, e);
    }
  }

  /** Looking a node up in either dict gives its count; other ids are absent. */
  lemma {:induction false} CountersGet(nodes: Dict<Json>, edges: seq<Edge>, ids: seq<string>, id: string)
    ensures Get(InCounters(nodes, edges, ids), id) == if id in Keys(nodes) then Some(InCount(edges, id, ids) as int) else None
    ensures Get(OutCounters(nodes, edges, ids), id) == if id in Keys(nodes) then Some(OutCount(edges, id, ids) as int) else None
  {
    if nodes != [] {
      CountersGet(nodes[1..], edges, ids, id);
    }
  }

  /** One id of the bumped incoming counters. */
  lemma InCountersAt(nodes: Dict<Json>, edges: seq<Edge>, ids: seq<string>, e: Edge, id: string)
    requires e.to in Keys(nodes) && Counted(e, ids)
    ensures id == e.to ==>
      Get(InCounters(nodes, edges, ids), id).Some?
      && Get(InCounters(nodes, edges + [e], ids), id) == Some(Get(InCounters(nodes, edges, ids), id).value + 1)
    ensures id != e.to ==> Get(InCounters(nodes, edges + [e], ids), id) == Get(InCounters(nodes, edges, ids), id)
  {
    InCountSnoc(edges, e, id, ids);
    var c, c' := InCount(edges, id, ids), InCount(edges + [e], id, ids);
    assert c' == if id == e.to then c + 1 else c;
    CountersGet(nodes, edges, ids, id);
    CountersGet(nodes, edges + [e], ids, id);
  }

  /** `incoming[e.to] += 1` for a counted edge `e` gives the counters of the longer edge list. */
  lemma InCountersBump(nodes: Dict<Json>, edges: seq<Edge>, ids: seq<string>, e: Edge)
    requires UniqueKeys(nodes) && e.to in Keys(nodes) && Counted(e, ids)
    ensures e.to in Keys(InCounters(nodes, edges, ids))
    ensures Put(InCounters(nodes, edges, ids), e.to, Get(InCounters(nodes, edges, ids), e.to).value + 1)
         == InCounters(nodes, edges + [e], ids)
  {
    var t, t' := InCounters(nodes, edges, ids), InCounters(nodes, edges + [e], ids);
    CountersKeys(nodes, edges, ids);
    CountersKeys(nodes, edges + [e], ids);
    SameKeysUnique(nodes, t);
    SameKeysUnique(nodes, t');
    InCountersAt(nodes, edges, ids, e, e.to);
    forall id | id != e.to ensures Get(t', id) == Get(t, id) {
      InCountersAt(nodes, edges, ids, e, id);
    }
    PutExt(t, t', e.to, Get(t, e.to).value + 1);
  }

  /** One id of the bumped outgoing counters. */
  lemma OutCountersAt(nodes: Dict<Json>, edges: seq<Edge>, ids: seq<string>, e: Edge, id: string)
    requires e.from in Keys(nodes) && Counted(e, ids)
    ensures id == e.from ==>
      Get(OutCounters(nodes, edges, ids), id).Some?
      && Get(OutCounters(nodes, edges + [e], ids), id) == Some(Get(OutCounters(nodes, edges, ids), id).value + 1)
    ensures id != e.from ==> Get(OutCounters(nodes, edges + [e], ids), id) == Get(OutCounters(nodes, edges, ids), id)
  {
    OutCountSnoc(edges, e, id, ids);
    var c, c' := OutCount(edges, id, ids), OutCount(edges + [e], id, ids);
    assert c' == if id == e.from then c + 1 else c;
    CountersGet(nodes, edges, ids, id);
    CountersGet(nodes, edges + [e], ids, id);
  }

  /** `outgoing[e.from] += 1` for a counted edge `e`. */
  lemma OutCountersBump(nodes: Dict<Json>, edges: seq<Edge>, ids: seq<string>, e: Edge)
    requires UniqueKeys(nodes) && e.from in Keys(nodes) && Counted(e, ids)
    ensures e.from in Keys(OutCounters(nodes, edges, ids))
    ensures Put(OutCounters(nodes, edges, ids), e.from, Get(OutCounters(nodes, edges, ids), e.from).value + 1)
         == OutCounters(nodes, edges + [e], ids)
  {
    var t, t' := OutCounters(nodes, edges, ids), OutCounters(nodes, edges + [e], ids);
    CountersKeys(nodes, edges, ids);
    CountersKeys(nodes, edges + [e], ids);
    SameKeysUnique(nodes, t);
    SameKeysUnique(nodes, t');
    OutCountersAt(nodes, edges, ids, e, e.from);
    forall id | id != e.from ensures Get(t', id) == Get(t, id) {
      OutCountersAt(nodes, edges, ids, e, id);
    }
    PutExt(t, t', e.from, Get(t, e.from).value + 1);
  }

  /** An edge whose source is not a node changes no counter. */
  lemma UncountedStep(nodes: Dict<Json>, edges: seq<Edge>, e: Edge)
    requires !Counted(e, Keys(nodes))
    ensures InTable(nodes, edges + [e]) == InTable(nodes, edges)
    ensures OutTable(nodes, edges + [e]) == OutTable(nodes, edges)
  {
    InCountersSame(nodes, edges, Keys(nodes), e);
    OutCountersSame(nodes, edges, Keys(nodes), e);
  }

  /** One reference input of node `e.to`: `if source_node in incoming`, both counters go up. */
  method CountEdge(nodes: Dict<Json>, edges: seq<Edge>, incoming: Dict<int>, outgoing: Dict<int>, e: Edge)
    returns (incoming': Dict<int>, outgoing': Dict<int>)
    requires UniqueKeys(nodes) && e.to in Keys(nodes)
    requires incoming == InTable(nodes, edges) && outgoing == OutTable(nodes, edges)
    ensures incoming' == InTable(nodes, edges + [e]) && outgoing' == OutTable(nodes, edges + [e])
  {
    CountersKeys(nodes, edges, Keys(nodes));
    if e.from in Keys(incoming) {
      InCountersBump(nodes, edges, Keys(nodes), e);
      OutCountersBump(nodes, edges, Keys(nodes), e);
      incoming' := Put(incoming, e.to, Get(incoming, e.to).value + 1);
      outgoing' := Put(outgoing, e.from, Get(outgoing, e.from).value + 1);
    } else {
      UncountedStep(nodes, edges, e);
      incoming', outgoing' := incoming, outgoing;
    }
  }

  /** The inner loop of the edge loop: the reference inputs of node `id`, one edge each. */
  method CountNodeEdges(nodes: Dict<Json>, edges: seq<Edge>, incoming: Dict<int>, outgoing: Dict<int>,
                        id: string, inputs: Dict<Json>)
    returns (edges': seq<Edge>, incoming': Dict<int>, outgoing': Dict<int>)
    requires UniqueKeys(nodes) && id in Keys(nodes)
    requires incoming == InTable(nodes, edges) && outgoing == OutTable(nodes, edges)
    ensures edges' == edges + NodeEdges(id, inputs)
    ensures incoming' == InTable(nodes, edges') && outgoing' == OutTable(nodes, edges')
  {
    edges', incoming', outgoing' := edges, incoming, outgoing;
    var j := 0;
    assert edges + NodeEdges(id, inputs[..0]) == edges;
    while j < |inputs|
      invariant 0 <= j <= |inputs|
      invariant edges' == edges + NodeEdges(id, inputs[..j])
      invariant incoming' == InTable(nodes, edges') && outgoing' == OutTable(nodes, edges')
    {
      var (param, value) := inputs[j];
      assert inputs[..j + 1][..j] == inputs[..j];
      if value.Arr? && |value.items| >= 1 && value.items[0].Str? {
        var e := Edge(value.items[0].s, id, param);
        incoming', outgoing' := CountEdge(nodes, edges', incoming', outgoing', e);
        edges' := edges' + [e];
      }
      j := j + 1;
    }
    assert inputs[..j] == inputs;
  }

  /** The edge loop of `analyze_workflow`: for every node, for every input that is a reference,
      record the edge, and count it on both ends when its source is a known node. */
  method CountEdges(nodes: Dict<Json>) returns (edges: seq<Edge>, incoming: Dict<int>, outgoing: Dict<int>)
    requires UniqueKeys(nodes)
    ensures edges == EdgesOf(nodes)
    ensures incoming == InTable(nodes, edges) && outgoing == OutTable(nodes, edges)
  {
    KeysLength(nodes);
    edges := [];
    incoming := InTable(nodes, []);
    outgoing := OutTable(nodes, []);
    var i := 0;
    while i < |nodes|
      invariant 0 <= i <= |nodes|
      invariant edges == EdgesOf(nodes[..i])
      invariant incoming == InTable(nodes, edges) && outgoing == OutTable(nodes, edges)
    {
      var (id, node) := nodes[i];
      assert id in Keys(nodes);
      assert nodes[..i + 1][..i] == nodes[..i];
      edges, incoming, outgoing := CountNodeEdges(nodes, edges, incoming, outgoing, id, InputsOf(node));
      i := i + 1;
    }
    assert nodes[..i] == nodes;
  }

  /** Every edge of the table points into one of its nodes. */
  lemma {:induction false} EdgesEndAtNodes(nodes: Dict<Json>)
    ensures forall e :: e in EdgesOf(nodes) ==> e.to in Keys(nodes)
  {
    if nodes != [] {
      var pre := nodes[..|nodes| - 1];
      EdgesEndAtNodes(pre);
      assert nodes == pre + [nodes[|nodes| - 1]];
      KeysAppend(pre, [nodes[|nodes| - 1]]);
      NodeEdgesEndAt(nodes[|nodes| - 1].0, InputsOf(nodes[|nodes| - 1].1));
    }
  }

  lemma {:induction false} NodeEdgesEndAt(id: string, inputs: Dict<Json>)
    ensures forall e :: e in NodeEdges(id, inputs) ==> e.to == id
  {
    if inputs != [] {
      NodeEdgesEndAt(id, inputs[..|inputs| - 1]);
    }
  }

  /** The sum of a dict's counters. */
  function Total(d: Dict<int>): int
  {
    if d == [] then 0 else d[0].1 + Total(d[1..])
  }

  /** `d[k] += 1` adds one to the sum. */
  lemma {:induction false} TotalPut(d: Dict<int>, k: string)
    requires k in Keys(d)
    ensures Total(Put(d, k, Get(d, k).value + 1)) == Total(d) + 1
  {
    var d' := Put(d, k, Get(d, k).value + 1);
    assert d'[1..] == if d[0].0 == k then d[1..] else Put(d[1..], k, Get(d, k).value + 1);
    if d[0].0 != k {
      TotalPut(d[1..], k);
    }
  }

  lemma {:induction false} CountersZero(nodes: Dict<Json>, ids: seq<string>)
    ensures Total(InCounters(nodes, [], ids)) == 0 && Total(OutCounters(nodes, [], ids)) == 0
  {
    if nodes != [] {
      CountersZero(nodes[1..], ids);
      assert InCounters(nodes, [], ids)[1..] == InCounters(nodes[1..], [], ids);
      assert OutCounters(nodes, [], ids)[1..] == OutCounters(nodes[1..], [], ids);
    }
  }

  lemma InTotalStep(nodes: Dict<Json>, edges: seq<Edge>, e: Edge)
    requires UniqueKeys(nodes) && e.to in Keys(nodes) && Counted(e, Keys(nodes))
    ensures Total(InTable(nodes, edges + [e])) == Total(InTable(nodes, edges)) + 1
  {
    InCountersBump(nodes, edges, Keys(nodes), e);
    TotalPut(InTable(nodes, edges), e.to);
  }

  lemma OutTotalStep(nodes: Dict<Json>, edges: seq<Edge>, e: Edge)
    requires UniqueKeys(nodes) && Counted(e, Keys(nodes))
    ensures Total(OutTable(nodes, edges + [e])) == Total(OutTable(nodes, edges)) + 1
  {
    OutCountersBump(nodes, edges, Keys(nodes), e);
    TotalPut(OutTable(nodes, edges), e.from);
  }

  /** Each counted edge adds one to `incoming` and one to `outgoing`, so both sums equal the
      number of edges whose source is a known node. */
  lemma {:induction false} CountersAddUp(nodes: Dict<Json>, edges: seq<Edge>)
    requires UniqueKeys(nodes)
    requires forall e :: e in edges ==> e.to in Keys(nodes)
    ensures Total(InTable(nodes, edges)) == CountedEdges(edges, Keys(nodes))
    ensures Total(OutTable(nodes, edges)) == CountedEdges(edges, Keys(nodes))
  {
    var ids := Keys(nodes);
    if edges == [] {
      CountersZero(nodes, ids);
    } else {
      var pre, e := edges[..|edges| - 1], edges[|edges| - 1];
      assert edges == pre + [e];
      CountersAddUp(nodes, pre);
      if Counted(e, ids) {
        InTotalStep(nodes, pre, e);
        OutTotalStep(nodes, pre, e);
      } else {
        UncountedStep(nodes, pre, e);
      }
    }
  }

  /** sum(incoming) = sum(outgoing) = the number of edges from a known node. */
  lemma EdgeCountersBalance(nodes: Dict<Json>)
    requires UniqueKeys(nodes)
    ensures Total(InTable(nodes, EdgesOf(nodes))) == CountedEdges(EdgesOf(nodes), Keys(nodes))
    ensures Total(OutTable(nodes, EdgesOf(nodes))) == CountedEdges(EdgesOf(nodes), Keys(nodes))
  {
    EdgesEndAtNodes(nodes);
    CountersAddUp(nodes, EdgesOf(nodes));
  }

  // ---------------------------------------------------------------- sources, sinks, literals

  /** The node has an `inputs` key (`nodes_by_id[node_id]['inputs']` does not raise). */
  predicate HasInputs(n: Option<Json>)
  {
    n.Some? && n.value.Obj? && "inputs" in Keys(n.value.fields)
  }

  /** The node's `inputs` value is truthy. */
  predicate LiveInputs(n: Option<Json>)
  {
    HasInputs(n) && Truthy(Get(n.value.fields, "inputs").value)
  }

  /** `sources`: nodes with no counted incoming edge and a non-empty `inputs`; a node with no
      counted incoming edge and no `inputs` key raises `KeyError`. */
  function SourceIds(counts: Dict<int>, nodes: Dict<Json>): (r: Result<seq<string>, Failure>)
    ensures r.Err? <==> exists i :: 0 <= i < |counts| && counts[i].1 == 0 && !HasInputs(Get(nodes, counts[i].0))
    ensures r.Err? ==> r.error == Malformed
    ensures r.Ok? ==> forall id :: id in r.value <==> (id, 0) in counts && LiveInputs(Get(nodes, id))
  {
    if counts == [] then Ok([])
    else
      var rest := SourceIds(counts[1..], nodes);
      var (id, c) := counts[0];
      assert forall x :: x in counts <==> x == counts[0] || x in counts[1..];
      if c != 0 then rest
      else if !HasInputs(Get(nodes, id)) then Err(Malformed)
      else if rest.Err? then rest
      else if LiveInputs(Get(nodes, id)) then Ok([id] + rest.value)
      else rest
  }

  /** `sinks`: nodes with no counted outgoing edge, in node order. */
  function SinkIds(counts: Dict<int>): (r: seq<string>)
    ensures forall id :: id in r <==> (id, 0) in counts
  {
    if counts == [] then []
    else
      assert forall x :: x in counts <==> x == counts[0] || x in counts[1..];
      (if counts[0].1 == 0 then [counts[0].0] else []) + SinkIds(counts[1..])
  }

  /** The inputs that are not references: `ext_params` of one node. */
  function LiteralInputs(inputs: Dict<Json>): (r: Dict<Json>)
    ensures forall x :: x in r <==> x in inputs && !IsReference(x.1)
  {
    if inputs == [] then []
    else (if IsReference(inputs[0].1) then [] else [inputs[0]]) + LiteralInputs(inputs[1..])
  }

  /** `external_parameters`: the literal inputs of each node that has at least one. */
  function ExternalParameters(nodes: Dict<Json>): (r: Dict<Dict<Json>>)
    ensures forall id, ext :: (id, ext) in r ==> ext != [] && exists n :: (id, n) in nodes && ext == LiteralInputs(InputsOf(n))
    ensures forall id, n :: (id, n) in nodes && LiteralInputs(InputsOf(n)) != [] ==> (id, LiteralInputs(InputsOf(n))) in r
  {
    if nodes == [] then []
    else
      var ext := LiteralInputs(InputsOf(nodes[0].1));
      assert forall x :: x in nodes <==> x == nodes[0] || x in nodes[1..];
      (if ext != [] then [(nodes[0].0, ext)] else []) + ExternalParameters(nodes[1..])
  }

  lemma {:induction false} NodeEdgesHasReference(id: string, inputs: Dict<Json>, j: int)
    requires 0 <= j < |inputs| && IsReference(inputs[j].1)
    ensures Edge(inputs[j].1.items[0].s, id, inputs[j].0) in NodeEdges(id, inputs)
  {
    if j < |inputs| - 1 {
      NodeEdgesHasReference(id, inputs[..|inputs| - 1], j);
    }
  }

  lemma {:induction false} EdgesOfHasNode(nodes: Dict<Json>, k: int)
    requires 0 <= k < |nodes|
    ensures forall e :: e in NodeEdges(nodes[k].0, InputsOf(nodes[k].1)) ==> e in EdgesOf(nodes)
  {
    if k < |nodes| - 1 {
      EdgesOfHasNode(nodes[..|nodes| - 1], k);
    }
  }

  /** Every input of every node is exactly one of: a reference, which yields an edge (whether or
      not its source is a known node), or a literal, which is an external parameter of the node. */
  lemma InputsPartition(nodes: Dict<Json>, k: int, j: int)
    requires 0 <= k < |nodes| && 0 <= j < |InputsOf(nodes[k].1)|
    ensures var (p, v) := InputsOf(nodes[k].1)[j];
      if IsReference(v) then
        Edge(v.items[0].s, nodes[k].0, p) in EdgesOf(nodes) && (p, v) !in LiteralInputs(InputsOf(nodes[k].1))
      else
        (nodes[k].0, LiteralInputs(InputsOf(nodes[k].1))) in ExternalParameters(nodes) && (p, v) in LiteralInputs(InputsOf(nodes[k].1))
  {
    var inputs := InputsOf(nodes[k].1);
    assert nodes[k] in nodes;
    if IsReference(inputs[j].1) {
      NodeEdgesHasReference(nodes[k].0, inputs, j);
      EdgesOfHasNode(nodes, k);
    } else {
      assert inputs[j] in inputs;
    }
  }

  // ---------------------------------------------------------------- input and output nodes

  /** `n["class_type"]` of a node, when it is a string. */
  function ClassType(n: Json): string
  {
    if n.Obj? && Get(n.fields, "class_type").Some? && Get(n.fields, "class_type").value.Str? then
      Get(n.fields, "class_type").value.s
    else ""
  }

  /** `.startswith` is called on every `class_type`; a non-string one raises. */
  predicate ClassTypesAreStrings(nodes: Dict<Json>)
  {
    forall i :: 0 <= i < |nodes| ==>
      nodes[i].1.Obj? && Get(nodes[i].1.fields, "class_type").Some? && Get(nodes[i].1.fields, "class_type").value.Str?
  }

  const InputPrefix := "ComfyUIDeployExternal"

  /** The four class-type prefixes of an image output node, misspellings included. */
  predicate IsOutputType(ct: string)
  {
    || StartsWith(ct, "ComfyDeployWebscoketImageOutput")
    || StartsWith(ct, "ComfyDeployWebsocketImageOutput")
    || StartsWith(ct, "ComfyUIDeployWebscoketImageOutput")
    || StartsWith(ct, "ComfyUIDeployWebsocketImageOutput")
  }

  /** `input_nodes`. */
  function InputNodes(nodes: Dict<Json>): (r: Dict<Json>)
    ensures forall x :: x in r <==> x in nodes && StartsWith(ClassType(x.1), InputPrefix)
  {
    if nodes == [] then []
    else (if StartsWith(ClassType(nodes[0].1), InputPrefix) then [nodes[0]] else []) + InputNodes(nodes[1..])
  }

  /** `output_nodes`. */
  function OutputNodes(nodes: Dict<Json>): (r: Dict<Json>)
    ensures forall x :: x in r <==> x in nodes && IsOutputType(ClassType(x.1))
  {
    if nodes == [] then []
    else (if IsOutputType(ClassType(nodes[0].1)) then [nodes[0]] else []) + OutputNodes(nodes[1..])
  }

  /** The output records: one per output node, with empty connection and output ids. */
  function Outputs(outNodes: Dict<Json>): (r: seq<ImageOutput>)
    ensures |r| == |outNodes|
    ensures forall i :: 0 <= i < |r| ==> r[i] == ImageOutput(outNodes[i].0, ClassType(outNodes[i].1), "", "")
  {
    if outNodes == [] then []
    else [ImageOutput(outNodes[0].0, ClassType(outNodes[0].1), "", "")] + Outputs(outNodes[1..])
  }

  /** A JSON value pydantic accepts for a `str | None` field. */
  predicate OptionalString(j: Json)
  {
    j.Null? || j.Str?
  }

  function AsOptionalString(j: Json): Option<string>
  {
    if j.Str? then Some(j.s) else None
  }

  /** The `inputs` dict of an input node with the three keys the record reads. */
  predicate HasInputFields(n: Json)
  {
    var inp := if n.Obj? then Get(n.fields, "inputs") else None;
    inp.Some? && inp.value.Obj? &&
    "input_id" in Keys(inp.value.fields) && "display_name" in Keys(inp.value.fields) &&
    "description" in Keys(inp.value.fields)
  }

  /** The record of one input node: `inputs['input_id']` is the value. */
  function InputRecord(id: string, n: Json): WorkflowInput
    requires HasInputFields(n)
  {
    var f := Get(n.fields, "inputs").value.fields;
    WorkflowInput(id, ClassType(n), Get(f, "input_id").value,
                  AsOptionalString(Get(f, "display_name").value), AsOptionalString(Get(f, "description").value))
  }

  /** The record is valid when display name and description are strings or null. */
  predicate ValidInputRecord(n: Json)
    requires HasInputFields(n)
  {
    var f := Get(n.fields, "inputs").value.fields;
    OptionalString(Get(f, "display_name").value) && OptionalString(Get(f, "description").value)
  }

  /** The node gives a record: the three keys are there and the record validates. */
  predicate InputOk(n: Json)
  {
    HasInputFields(n) && ValidInputRecord(n)
  }

  /** The `inputs` list, built node by node: a missing key raises `KeyError`, a display name or
      description that is neither a string nor null fails validation. */
  function BuildInputs(inNodes: Dict<Json>): (r: Result<seq<WorkflowInput>, Failure>)
    ensures r.Ok? <==> forall i :: 0 <= i < |inNodes| ==> InputOk(inNodes[i].1)
    ensures r.Ok? ==> |r.value| == |inNodes|
    ensures r.Ok? ==> forall i :: 0 <= i < |inNodes| ==> r.value[i] == InputRecord(inNodes[i].0, inNodes[i].1)
    ensures r.Err? ==> r.error != NotApiWorkflow
  {
    if inNodes == [] then Ok([])
    else
      var (id, n) := inNodes[0];
      if !HasInputFields(n) then Err(Malformed)
      else if !ValidInputRecord(n) then Err(InvalidRecord)
      else
        var rest := BuildInputs(inNodes[1..]);
        assert forall i :: 0 < i < |inNodes| ==> inNodes[i] == inNodes[1..][i - 1];
        if rest.Err? then rest
        else
          var records := [InputRecord(id, n)] + rest.value;
          assert forall i :: 0 < i < |inNodes| ==> records[i] == rest.value[i - 1];
          Ok(records)
  }

  // ---------------------------------------------------------------- analyze_workflow

  /** `'class_type' in n` raises `TypeError` for some top-level value. */
  predicate ClassTypeTestRaises(entries: Dict<Json>)
  {
    exists i :: 0 <= i < |entries| && In("class_type", entries[i].1).None?
  }

  /** `analyze_workflow(workflow_id, path)` on the parsed file `wf`. */
  function Analysis(workflowId: string, wf: Json): (r: Result<Descriptor, Failure>)
    ensures r == Err(NotApiWorkflow) <==> In("nodes", wf) == Some(true)
    ensures r.Ok? ==> wf.Obj? && r.value.workflowId == workflowId && r.value.workflowJson == wf.fields
  {
    match In("nodes", wf)
    case None => Err(Malformed)
    case Some(true) => Err(NotApiWorkflow)
    case Some(false) =>
      if !wf.Obj? || ClassTypeTestRaises(wf.fields) then Err(Malformed)
      else NodeAnalysis(workflowId, wf.fields)
  }

  /** The part of `analyze_workflow` after the `'nodes'` test, on the entries of the workflow. */
  function NodeAnalysis(workflowId: string, entries: Dict<Json>): (r: Result<Descriptor, Failure>)
    ensures r != Err(NotApiWorkflow)
    ensures r.Ok? ==> r.value.workflowId == workflowId && r.value.workflowJson == entries
  {
    var nodes := NodesById(entries);
    if !WellShaped(nodes) then Err(Malformed)
    else
      var edges := EdgesOf(nodes);
      var sources := SourceIds(InTable(nodes, edges), nodes);
      if sources.Err? || !ClassTypesAreStrings(nodes) then Err(Malformed)
      else
        var inputs := BuildInputs(InputNodes(nodes));
        if inputs.Err? then Err(inputs.error)
        else
          Ok(Descriptor(workflowId, entries, edges, sources.value, SinkIds(OutTable(nodes, edges)),
                        ExternalParameters(nodes), inputs.value, Outputs(OutputNodes(nodes))))
  }

  /** The descriptor of an analysed workflow: its nodes are the entries with a `class_type`, its
      edges one per reference, its sources the nodes with no counted incoming edge and non-empty
      `inputs`, its sinks those with no counted outgoing edge, one input record per input node in
      order, and output records with empty connection and output ids. */
  lemma AnalysisGraph(workflowId: string, wf: Json)
    requires Analysis(workflowId, wf).Ok?
    ensures var d := Analysis(workflowId, wf).value;
      && (forall e :: e in Nodes(d) <==> e in wf.fields && Selected(e.1))
      && d.edges == EdgesOf(Nodes(d))
      && (forall id :: id in d.sourceIds <==> (id, 0) in InTable(Nodes(d), d.edges) && LiveInputs(Get(Nodes(d), id)))
      && (forall id :: id in d.sinkIds <==> (id, 0) in OutTable(Nodes(d), d.edges))
      && |d.inputs| == |InputNodes(Nodes(d))|
      && (forall i :: 0 <= i < |d.inputs| ==> d.inputs[i].nodeId == InputNodes(Nodes(d))[i].0)
      && (forall o :: o in d.outputs ==> o.connectionId == "" && o.outputId == "")
  {
  }

  /** `analyze_workflow`, the edge loop run as a loop. */
  method AnalyzeWorkflow(workflowId: string, wf: Json) returns (r: Result<Descriptor, Failure>)
    requires Parsed(wf)
    ensures r == Analysis(workflowId, wf)
  {
    var hasNodes := In("nodes", wf);
    if hasNodes.None? || !wf.Obj? {
      return if hasNodes == Some(true) then Err(NotApiWorkflow) else Err(Malformed);
    }
    if hasNodes.value {
      return Err(NotApiWorkflow);
    }
    if exists i :: 0 <= i < |wf.fields| && In("class_type", wf.fields[i].1).None? {
      return Err(Malformed);
    }
    NodesByIdUnique(wf.fields);
    r := AnalyzeNodes(workflowId, wf.fields);
  }

  /** The node part of `analyze_workflow`, with the edge loop run as a loop. */
  method AnalyzeNodes(workflowId: string, entries: Dict<Json>) returns (r: Result<Descriptor, Failure>)
    requires UniqueKeys(NodesById(entries))
    ensures r == NodeAnalysis(workflowId, entries)
  {
    var nodes := NodesById(entries);
    if !WellShaped(nodes) {
      return Err(Malformed);
    }
    var edges, incoming, outgoing := CountEdges(nodes);
    var sources := SourceIds(incoming, nodes);
    if sources.Err? || !ClassTypesAreStrings(nodes) {
      return Err(Malformed);
    }
    var inputs := BuildInputs(InputNodes(nodes));
    if inputs.Err? {
      return Err(inputs.error);
    }
    r := Ok(Descriptor(workflowId, entries, edges, sources.value, SinkIds(outgoing),
                       ExternalParameters(nodes), inputs.value, Outputs(OutputNodes(nodes))));
  }

  // ---------------------------------------------------------------- get_workflows

  /** A directory entry: its path, its final component, whether it is a regular file, and what
      `json.load` makes of it (`None` when the text is not JSON, a `ValueError`). */
  datatype FileEntry = FileEntry(path: string, name: string, isFile: bool, content: Option<Json>)

  /** `name.rfind('.')`. */
  function LastDot(name: string): (i: int)
    ensures -1 <= i < |name|
    ensures i >= 0 ==> name[i] == '.'
    ensures forall j :: i < j < |name| ==> name[j] != '.'
  {
    if name == [] then -1
    else if name[|name| - 1] == '.' then |name| - 1
    else LastDot(name[..|name| - 1])
  }

  /** `PurePath.suffix`: from the last dot, unless the dot leads or ends the name. */
  function Suffix(name: string): string
  {
    var i := LastDot(name);
    if 0 < i < |name| - 1 then name[i..] else ""
  }

  /** `PurePath.stem`: the name without its suffix. */
  function Stem(name: string): (r: string)
    ensures r + Suffix(name) == name
  {
    var i := LastDot(name);
    if 0 < i < |name| - 1 then name[..i] else name
  }

  /** The entries the comprehension keeps: regular files with suffix `.json`. */
  predicate IsWorkflowFile(f: FileEntry)
  {
    f.isFile && Suffix(f.name) == ".json"
  }

  function WorkflowFilesIn(listing: seq<FileEntry>): (r: seq<FileEntry>)
    ensures forall f :: f in r <==> f in listing && IsWorkflowFile(f)
  {
    if listing == [] then []
    else
      var last := listing[|listing| - 1];
      assert forall f :: f in listing <==> f in listing[..|listing| - 1] || f == last;
      WorkflowFilesIn(listing[..|listing| - 1]) + (if IsWorkflowFile(last) then [last] else [])
  }

  /** The workflow files of the directories, in order; a directory that cannot be listed
      (`None`: missing, no permission, other `OSError`) contributes nothing. */
  function WorkflowFiles(dirs: seq<Option<seq<FileEntry>>>): seq<FileEntry>
  {
    if dirs == [] then []
    else
      var last := dirs[|dirs| - 1];
      WorkflowFiles(dirs[..|dirs| - 1]) + (if last.Some? then WorkflowFilesIn(last.value) else [])
  }

  /** `workflow_files.update(...)` for every file in turn, keyed by stem. */
  function Register(files: seq<FileEntry>): (r: Dict<FileEntry>)
    ensures forall e :: e in r ==> e.1 in files && e.0 == Stem(e.1.name)
  {
    if files == [] then []
    else
      var f := files[|files| - 1];
      PutEntries(Register(files[..|files| - 1]), Stem(f.name), f);
      assert forall g :: g in files[..|files| - 1] ==> g in files;
      Put(Register(files[..|files| - 1]), Stem(f.name), f)
  }

  /** The last file with stem `id`: the one a later update leaves in place. */
  function LastWithStem(files: seq<FileEntry>, id: string): (r: Option<FileEntry>)
    ensures r.Some? ==> r.value in files && Stem(r.value.name) == id
    ensures r.None? ==> forall f :: f in files ==> Stem(f.name) != id
  {
    if files == [] then None
    else
      var f := files[|files| - 1];
      assert forall g :: g in files <==> g in files[..|files| - 1] || g == f;
      if Stem(f.name) == id then Some(f) else LastWithStem(files[..|files| - 1], id)
  }

  /** For a duplicate stem, the later file wins. */
  lemma {:induction false} RegisterLaterWins(files: seq<FileEntry>, id: string)
    ensures Get(Register(files), id) == LastWithStem(files, id)
  {
    if files != [] {
      var f := files[|files| - 1];
      RegisterLaterWins(files[..|files| - 1], id);
      PutGet(Register(files[..|files| - 1]), Stem(f.name), f);
    }
  }

  lemma {:induction false} PutUnique<V>(d: Dict<V>, k: string, v: V)
    requires UniqueKeys(d)
    ensures UniqueKeys(Put(d, k, v))
  {
    if d != [] {
      var r := Put(d, k, v);
      if d[0].0 == k {
        assert r[1..] == d[1..];
      } else {
        PutUnique(d[1..], k, v);
        PutGet(d[1..], k, v);
        assert r[1..] == Put(d[1..], k, v);
      }
    }
  }

  lemma {:induction false} RegisterUnique(files: seq<FileEntry>)
    ensures UniqueKeys(Register(files))
  {
    if files != [] {
      var f := files[|files| - 1];
      RegisterUnique(files[..|files| - 1]);
      PutUnique(Register(files[..|files| - 1]), Stem(f.name), f);
    }
  }

  /** `wf_id` is listed: its file parses, analysis succeeds, and finds at least one input. */
  /** What the analysis loop makes of one file: `Err` when the analysis raises an error that is
      not a `ValueError`, `Ok(true)` when the workflow is kept, `Ok(false)` when it is skipped. */
  function Verdict(id: string, f: FileEntry): Result<bool, Failure>
  {
    if f.content.None? then Ok(false)
    else
      var a := Analysis(id, f.content.value);
      if a == Err(Malformed) then Err(Malformed) else Ok(a.Ok? && |a.value.inputs| > 0)
  }

  predicate Listed(id: string, f: FileEntry)
  {
    Verdict(id, f) == Ok(true)
  }

  /** The analysis of this file raises an error that is not a `ValueError`. */
  predicate Crashes(id: string, f: FileEntry)
  {
    Verdict(id, f).Err?
  }

  /** Some file's analysis raises an error that is not a `ValueError`. */
  predicate AnyCrash(files: Dict<FileEntry>)
  {
    exists i :: 0 <= i < |files| && Crashes(files[i].0, files[i].1)
  }

  /** The second loop of `get_workflows`: analyse each file in order, skip `ValueError`s, keep
      those with inputs; any other error escapes. */
  function ValidWorkflows(files: Dict<FileEntry>): Result<Dict<string>, Failure>
  {
    if files == [] then Ok([])
    else
      var prev := ValidWorkflows(files[..|files| - 1]);
      ValidStep(prev, files[|files| - 1])
  }

  /** One turn of that loop. */
  function ValidStep(prev: Result<Dict<string>, Failure>, entry: (string, FileEntry)): Result<Dict<string>, Failure>
  {
    var (id, f) := entry;
    if prev.Err? then prev
    else if Crashes(id, f) then Err(Malformed)
    else if Listed(id, f) then Ok(Put(prev.value, id, f.path))
    else prev
  }

  /** `get_workflows()` over the listings of its two directories. */
  function Workflows(dirs: seq<Option<seq<FileEntry>>>): Result<Dict<string>, Failure>
  {
    ValidWorkflows(Register(WorkflowFiles(dirs)))
  }

  lemma {:induction false} GetLast<V>(d: Dict<V>, id: string)
    requires UniqueKeys(d) && d != []
    ensures Get(d, id) == if id == d[|d| - 1].0 then Some(d[|d| - 1].1) else Get(d[..|d| - 1], id)
  {
    var pre := d[..|d| - 1];
    if id == d[|d| - 1].0 {
      GetUnique(d, |d| - 1);
    } else if |d| > 1 {
      UniqueTail(d);
      if d[0].0 != id {
        GetLast(d[1..], id);
        assert d[1..][..|d[1..]| - 1] == pre[1..];
      }
    }
  }

  /** What `get_workflows` lists for `id` out of the registered files: the path of the file
      registered under `id` when that file is listed. */
  function ListedIn(files: Dict<FileEntry>, id: string): Option<string>
  {
    var f := Get(files, id);
    if f.Some? && Listed(id, f.value) then Some(f.value.path) else None
  }

  /** One more file keeps the listing equal to `ListedIn`. */
  lemma ValidWorkflowsStep(files: Dict<FileEntry>, id: string)
    requires UniqueKeys(files) && files != []
    requires ValidWorkflows(files).Ok?
    requires ValidWorkflows(files[..|files| - 1]).Ok? ==>
      Get(ValidWorkflows(files[..|files| - 1]).value, id) == ListedIn(files[..|files| - 1], id)
    ensures Get(ValidWorkflows(files).value, id) == ListedIn(files, id)
  {
    var pre := files[..|files| - 1];
    var (k, f) := files[|files| - 1];
    var prev := ValidWorkflows(pre);
    assert ValidWorkflows(files) == ValidStep(prev, (k, f));
    assert prev.Ok? && !Crashes(k, f);
    GetLast(files, id);
    assert Get(prev.value, id) == ListedIn(pre, id);
    if id == k {
      LastNotInInit(files);
      if Listed(k, f) {
        PutGet(prev.value, k, f.path);
      }
    } else if Listed(k, f) {
      PutGet(prev.value, k, f.path);
    }
  }

  lemma {:induction false} ValidWorkflowsSpec(files: Dict<FileEntry>)
    requires UniqueKeys(files)
    ensures ValidWorkflows(files).Err? <==> AnyCrash(files)
    ensures ValidWorkflows(files).Ok? ==> forall id :: Get(ValidWorkflows(files).value, id) == ListedIn(files, id)
  {
    if files != [] {
      var pre := files[..|files| - 1];
      UniqueInit(files);
      ValidWorkflowsSpec(pre);
      assert forall i :: 0 <= i < |pre| ==> pre[i] == files[i];
      if ValidWorkflows(files).Ok? {
        forall id ensures Get(ValidWorkflows(files).value, id) == ListedIn(files, id) {
          ValidWorkflowsStep(files, id);
        }
      }
    }
  }

  /** The path listed for `id`: that of the last `.json` file with stem `id`, when it is listed. */
  function ListedPath(files: seq<FileEntry>, id: string): Option<string>
  {
    var f := LastWithStem(files, id);
    if f.Some? && Listed(id, f.value) then Some(f.value.path) else None
  }

  /** A workflow is listed, under the stem of the last `.json` file that has it, iff that file
      parses, its analysis raises no error and finds at least one input; any other error from an
      analysis escapes `get_workflows`. */
  lemma WorkflowsListing(dirs: seq<Option<seq<FileEntry>>>, id: string)
    ensures Workflows(dirs).Err? <==> AnyCrash(Register(WorkflowFiles(dirs)))
    ensures Workflows(dirs).Ok? ==> Get(Workflows(dirs).value, id) == ListedPath(WorkflowFiles(dirs), id)
  {
    var files := WorkflowFiles(dirs);
    var reg := Register(files);
    RegisterUnique(files);
    ValidWorkflowsSpec(reg);
    RegisterLaterWins(files, id);
    assert Get(reg, id) == LastWithStem(files, id);
  }

  /** Every listed file that parses holds what `json.load` gives. */
  predicate AllParsed(listing: seq<FileEntry>)
  {
    forall f :: f in listing && f.content.Some? ==> Parsed(f.content.value)
  }

  lemma {:induction false} PutEntries<V>(d: Dict<V>, k: string, v: V)
    ensures forall e :: e in Put(d, k, v) ==> e in d || e == (k, v)
  {
    if d != [] && d[0].0 != k {
      PutEntries(d[1..], k, v);
    }
  }

  lemma {:induction false} WorkflowFilesFrom(dirs: seq<Option<seq<FileEntry>>>)
    requires forall d :: d in dirs && d.Some? ==> AllParsed(d.value)
    ensures AllParsed(WorkflowFiles(dirs))
  {
    if dirs != [] {
      assert dirs[|dirs| - 1] in dirs;
      WorkflowFilesFrom(dirs[..|dirs| - 1]);
    }
  }

  lemma {:induction false} ValidWorkflowsErrSticks(files: Dict<FileEntry>, k: int)
    requires 0 <= k <= |files| && ValidWorkflows(files[..k]).Err?
    ensures ValidWorkflows(files) == ValidWorkflows(files[..k])
  {
    if k < |files| {
      var pre := files[..|files| - 1];
      assert pre[..k] == files[..k];
      ValidWorkflowsErrSticks(pre, k);
    } else {
      assert files[..k] == files;
    }
  }

  lemma RegisterSnoc(seen: seq<FileEntry>, f: FileEntry)
    ensures Register(seen + [f]) == Put(Register(seen), Stem(f.name), f)
  {
    assert (seen + [f])[..|seen|] == seen;
  }

  lemma WorkflowFilesInStep(seen: seq<FileEntry>, listing: seq<FileEntry>, j: int)
    requires 0 <= j < |listing|
    ensures seen + WorkflowFilesIn(listing[..j + 1])
         == seen + WorkflowFilesIn(listing[..j]) + (if IsWorkflowFile(listing[j]) then [listing[j]] else [])
  {
    assert listing[..j + 1][..j] == listing[..j];
  }

  /** The inner loop of `get_workflows()`: register each `.json` file of one listing by stem. */
  method RegisterListing(ghost seen: seq<FileEntry>, files: Dict<FileEntry>, listing: seq<FileEntry>)
    returns (files': Dict<FileEntry>)
    requires files == Register(seen)
    ensures files' == Register(seen + WorkflowFilesIn(listing))
  {
    files' := files;
    var j := 0;
    assert seen + WorkflowFilesIn(listing[..0]) == seen;
    while j < |listing|
      invariant 0 <= j <= |listing|
      invariant files' == Register(seen + WorkflowFilesIn(listing[..j]))
    {
      var f := listing[j];
      WorkflowFilesInStep(seen, listing, j);
      if f.isFile && Suffix(f.name) == ".json" {
        RegisterSnoc(seen + WorkflowFilesIn(listing[..j]), f);
        files' := Put(files', Stem(f.name), f);
      } else {
        assert seen + WorkflowFilesIn(listing[..j]) + [] == seen + WorkflowFilesIn(listing[..j]);
      }
      j := j + 1;
    }
    assert listing[..j] == listing;
  }

  lemma WorkflowFilesStep(dirs: seq<Option<seq<FileEntry>>>, i: int)
    requires 0 <= i < |dirs|
    ensures WorkflowFiles(dirs[..i + 1])
         == WorkflowFiles(dirs[..i]) + (if dirs[i].Some? then WorkflowFilesIn(dirs[i].value) else [])
  {
    assert dirs[..i + 1][..i] == dirs[..i];
  }

  /** The first half of `get_workflows()`: the `.json` files of every directory that exists,
      by stem. */
  method CollectWorkflowFiles(dirs: seq<Option<seq<FileEntry>>>) returns (files: Dict<FileEntry>)
    ensures files == Register(WorkflowFiles(dirs))
  {
    files := [];
    var i := 0;
    while i < |dirs|
      invariant 0 <= i <= |dirs|
      invariant files == Register(WorkflowFiles(dirs[..i]))
    {
      WorkflowFilesStep(dirs, i);
      if dirs[i].Some? {
        files := RegisterListing(WorkflowFiles(dirs[..i]), files, dirs[i].value);
      } else {
        assert WorkflowFiles(dirs[..i]) + [] == WorkflowFiles(dirs[..i]);
      }
      i := i + 1;
    }
    assert dirs[..i] == dirs;
  }

  /** The body of the analysis loop for one file: `analyze_workflow`, with `ValueError` caught. */
  method JudgeWorkflow(id: string, f: FileEntry) returns (v: Result<bool, Failure>)
    requires f.content.Some? ==> Parsed(f.content.value)
    ensures v == Verdict(id, f)
  {
    v := Ok(false);
    if f.content.Some? {
      var a := AnalyzeWorkflow(id, f.content.value);
      if a == Err(Malformed) {
        v := Err(Malformed);
      } else {
        v := Ok(a.Ok? && |a.value.inputs| > 0);
      }
    }
  }

  lemma ValidWorkflowsPrefix(files: Dict<FileEntry>, k: int)
    requires 0 <= k < |files|
    ensures ValidWorkflows(files[..k + 1]) == ValidStep(ValidWorkflows(files[..k]), files[k])
  {
    assert files[..k + 1][..k] == files[..k];
  }

  /** The second half of `get_workflows()`: analyse each registered file in order and keep the
      path of those with inputs; a malformed workflow ends the listing with its error. */
  method CheckWorkflows(files: Dict<FileEntry>) returns (r: Result<Dict<string>, Failure>)
    requires forall e :: e in files && e.1.content.Some? ==> Parsed(e.1.content.value)
    ensures r == ValidWorkflows(files)
  {
    var valid: Dict<string> := [];
    var k := 0;
    while k < |files|
      invariant 0 <= k <= |files|
      invariant ValidWorkflows(files[..k]) == Ok(valid)
    {
      var (id, f) := files[k];
      assert files[k] in files;
      var v := JudgeWorkflow(id, f);
      ValidWorkflowsPrefix(files, k);
      if v.Err? {
        ValidWorkflowsErrSticks(files, k + 1);
        return Err(Malformed);
      }
      if v.value {
        valid := Put(valid, id, f.path);
      }
      k := k + 1;
    }
    assert files[..k] == files;
    r := Ok(valid);
  }

  /** `get_workflows()`: collect the `.json` files of both directories by stem (a later
      directory overrides an earlier one), then keep those whose analysis finds inputs. */
  method GetWorkflows(dirs: seq<Option<seq<FileEntry>>>) returns (r: Result<Dict<string>, Failure>)
    requires forall d :: d in dirs && d.Some? ==> AllParsed(d.value)
    ensures r == Workflows(dirs)
  {
    var files := CollectWorkflowFiles(dirs);
    WorkflowFilesFrom(dirs);
    r := CheckWorkflows(files);
  }
}
