/** The engine-facing bookkeeping of `src/comfyui/comfyui_manager.py`: the address scraped from the
    engine's output, the binding of a request's inputs and outputs into the workflow graph, the
    registration of a submitted job, the job-status bridge fed by the engine's status messages,
    and the state reset of `stop`.  Processes, sockets and HTTP exchanges are parameters; the
    status callbacks are opaque ids whose calls are recorded in order. */
module ComfyManager {
  import opened Wrappers
  import opened Strings
  import opened JsonValues
  import opened WorkflowAnalysis
  import Collections
  import Connections

  // ---------------------------------------------------------------- the engine address

  /** `\d`: an ASCII decimal digit. */
  predicate IsDigit(c: char)
  {
    '0' <= c <= '9'
  }

  /** A non-empty run of digits. */
  predicate IsNumber(s: string)
  {
    s != [] && forall i :: 0 <= i < |s| ==> IsDigit(s[i])
  }

  /** The text before the captured group of `COMFYUI_ADDRESS_REGEX`. */
  const Marker: string := "go to: "

  /** The five numbers of an engine address. */
  datatype AddressParts = AddressParts(a: string, b: string, c: string, d: string, port: string)

  predicate ValidParts(p: AddressParts)
  {
    IsNumber(p.a) && IsNumber(p.b) && IsNumber(p.c) && IsNumber(p.d) && IsNumber(p.port)
  }

  /** The separators after the first four numbers of an address. */
  const Separators: string := "...:"

  /** The numbers of an address in order. */
  function Numbered(p: AddressParts): seq<string>
  {
    [p.a, p.b, p.c, p.d, p.port]
  }

  /** `ns[0] seps[0] ns[1] seps[1] ... ns[|seps|]`. */
  function Joined(ns: seq<string>, seps: string): string
    requires |ns| == |seps| + 1
    decreases |seps|
  {
    if seps == [] then ns[0] else ns[0] + [seps[0]] + Joined(ns[1..], seps[1..])
  }

  /** `http://a.b.c.d:port`, the text of the captured group. */
  function AddressText(p: AddressParts): string
  {
    "http://" + Joined(Numbered(p), Separators)
  }

  /** The length of the longest run of digits at the front of `t`: what a greedy `\d+` takes. */
  function Digits(t: string): (n: nat)
    ensures n <= |t|
    ensures forall k :: 0 <= k < n ==> IsDigit(t[k])
    ensures n == |t| || !IsDigit(t[n])
  {
    if t != [] && IsDigit(t[0]) then 1 + Digits(t[1..]) else 0
  }

  /** `\d+` followed by `sep` at the front of `t`: the number and what follows the separator.
      Backtracking cannot help, since a shorter run of digits is followed by a digit, never by
      `sep`. */
  function Field(t: string, sep: char): (r: Option<(string, string)>)
    ensures r.Some? ==> IsNumber(r.value.0) && t == r.value.0 + [sep] + r.value.1
  {
    var n := Digits(t);
    if 0 < n < |t| && t[n] == sep then
      SplitAround(t, n);
      Some((t[..n], t[n + 1..]))
    else None
  }

  lemma SplitAt(t: string, n: nat)
    requires n <= |t|
    ensures t == t[..n] + t[n..]
  {
  }

  lemma SplitAround(t: string, n: nat)
    requires n < |t|
    ensures t == t[..n] + [t[n]] + t[n + 1..]
  {
  }

  /** `\d+ seps[0] \d+ seps[1] ... \d+` at the front of `t`: the numbers and what follows the
      last one.  The last `\d+` is greedy, so what follows does not start with a digit. */
  function Numbers(t: string, seps: string): (r: Option<(seq<string>, string)>)
    ensures r.Some? ==> |r.value.0| == |seps| + 1
    ensures r.Some? ==> forall k :: 0 <= k < |r.value.0| ==> IsNumber(r.value.0[k])
    ensures r.Some? ==> r.value.1 == [] || !IsDigit(r.value.1[0])
    decreases |seps|
  {
    if seps == [] then
      var n := Digits(t);
      if n == 0 then None else Some(([t[..n]], t[n..]))
    else
      var f := Field(t, seps[0]);
      if f.None? then None
      else
        var r := Numbers(f.value.1, seps[1..]);
        if r.None? then None else Some(([f.value.0] + r.value.0, r.value.1))
  }

  /** `http://\d+\.\d+\.\d+\.\d+:\d+` at the front of `t`: the address and what follows it. */
  function ParseAddress(t: string): (r: Option<(AddressParts, string)>)
    ensures r.Some? ==> ValidParts(r.value.0)
    ensures r.Some? ==> r.value.1 == [] || !IsDigit(r.value.1[0])
  {
    ParseAddressWith(t, Separators)
  }

  /** The address reader with the four separators as a parameter. */
  function ParseAddressWith(t: string, seps: string): (r: Option<(AddressParts, string)>)
    requires |seps| == 4
    ensures r.Some? ==> ValidParts(r.value.0)
    ensures r.Some? ==> r.value.1 == [] || !IsDigit(r.value.1[0])
  {
    if |t| < 7 || t[..7] != "http://" then None
    else
      var r := Numbers(t[7..], seps);
      if r.None? then None
      else
        var ns := r.value.0;
        Some((AddressParts(ns[0], ns[1], ns[2], ns[3], ns[4]), r.value.1))
  }

  /** What the numbers reader consumes is the numbers joined by the separators. */
  lemma {:induction false} NumbersText(t: string, seps: string)
    requires Numbers(t, seps).Some?
    ensures t == Joined(Numbers(t, seps).value.0, seps) + Numbers(t, seps).value.1
    decreases |seps|
  {
    var r := Numbers(t, seps).value;
    if seps == [] {
      SplitAt(t, Digits(t));
    } else {
      var f := Field(t, seps[0]).value;
      NumbersText(f.1, seps[1..]);
      var r' := Numbers(f.1, seps[1..]).value;
      assert r.0 == [f.0] + r'.0 && r.1 == r'.1;
      assert r.0[1..] == r'.0;
    }
  }

  /** What the parser reads is the address followed by the rest. */
  lemma ParseAddressText(t: string)
    requires ParseAddress(t).Some?
    ensures t == AddressText(ParseAddress(t).value.0) + ParseAddress(t).value.1
  {
    ParsedText(t, Separators);
  }

  /** The same for any four separators: `http://`, the numbers joined by the separators, the rest. */
  lemma ParsedText(t: string, seps: string)
    requires |seps| == 4 && ParseAddressWith(t, seps).Some?
    ensures t == "http://" + Joined(Numbered(ParseAddressWith(t, seps).value.0), seps) + ParseAddressWith(t, seps).value.1
  {
    var r := Numbers(t[7..], seps).value;
    var j := Joined(r.0, seps);
    assert Numbered(ParseAddressWith(t, seps).value.0) == r.0;
    assert t[7..] == j + r.1 by {
      NumbersText(t[7..], seps);
    }
    assert t == "http://" + (j + r.1) by {
      SplitAt(t, 7);
    }
    assert "http://" + (j + r.1) == "http://" + j + r.1;
  }

  /** A match of `COMFYUI_ADDRESS_REGEX` that starts at `i`: the captured address and the rest of
      the line. */
  function MatchAt(s: string, i: nat): Option<(AddressParts, string)>
    requires i <= |s|
  {
    if i + |Marker| <= |s| && s[i..i + |Marker|] == Marker then ParseAddress(s[i + |Marker|..])
    else None
  }

  /** `COMFYUI_ADDRESS_REGEX.search(s)` from position `i`: where the leftmost match starts and the
      address it captures. */
  function Search(s: string, i: nat): (r: Option<(nat, AddressParts)>)
    requires i <= |s|
    ensures r.Some? ==> i <= r.value.0 <= |s| && MatchAt(s, r.value.0).Some?
    ensures r.Some? ==> r.value.1 == MatchAt(s, r.value.0).value.0
    decreases |s| - i
  {
    var m := MatchAt(s, i);
    if m.Some? then Some((i, m.value.0))
    else if i == |s| then None
    else Search(s, i + 1)
  }

  /** `match.group(1)` of `COMFYUI_ADDRESS_REGEX.search(line)`, if the line matches. */
  function Captured(line: string): (r: Option<string>)
    ensures r.Some? ==> exists p :: ValidParts(p) && r.value == AddressText(p)
  {
    var m := Search(line, 0);
    if m.None? then None
    else
      assert ValidParts(m.value.1);
      Some(AddressText(m.value.1))
  }

  /** A run of digits followed by a non-digit (or by nothing) is read whole. */
  lemma {:induction false} DigitsOf(n: string, rest: string)
    requires IsNumber(n) && (rest == [] || !IsDigit(rest[0]))
    ensures Digits(n + rest) == |n|
  {
    if |n| > 1 {
      DigitsOf(n[1..], rest);
      assert (n + rest)[1..] == n[1..] + rest;
    } else {
      assert (n + rest)[1..] == rest;
    }
  }

  /** A number followed by the separator is one field. */
  lemma FieldOf(n: string, sep: char, rest: string)
    requires IsNumber(n) && !IsDigit(sep)
    ensures Field(n + [sep] + rest, sep) == Some((n, rest))
  {
    DigitsOf(n, [sep] + rest);
    assert n + [sep] + rest == n + ([sep] + rest);
    assert (n + [sep] + rest)[..|n|] == n;
    assert (n + [sep] + rest)[|n| + 1..] == rest;
  }

  /** Numbers joined by non-digit separators are read back, and reading stops right after them. */
  lemma {:induction false} NumbersOf(ns: seq<string>, seps: string, post: string)
    requires |ns| == |seps| + 1 && forall k :: 0 <= k < |ns| ==> IsNumber(ns[k])
    requires forall k :: 0 <= k < |seps| ==> !IsDigit(seps[k])
    requires post == [] || !IsDigit(post[0])
    ensures Numbers(Joined(ns, seps) + post, seps) == Some((ns, post))
    decreases |seps|
  {
    if seps == [] {
      DigitsOf(ns[0], post);
      assert (ns[0] + post)[..|ns[0]|] == ns[0];
      assert (ns[0] + post)[|ns[0]|..] == post;
      assert ns == [ns[0]];
    } else {
      var rest := Joined(ns[1..], seps[1..]) + post;
      assert Joined(ns, seps) + post == ns[0] + [seps[0]] + rest;
      FieldOf(ns[0], seps[0], rest);
      NumbersOf(ns[1..], seps[1..], post);
      assert ns == [ns[0]] + ns[1..];
    }
  }

  /** An address is parsed back into its numbers, and parsing stops right after it. */
  lemma ParseAddressOf(p: AddressParts, post: string)
    requires ValidParts(p) && (post == [] || !IsDigit(post[0]))
    ensures ParseAddress(AddressText(p) + post) == Some((p, post))
  {
    var j := Joined(Numbered(p), Separators);
    var t := AddressText(p) + post;
    assert t == "http://" + (j + post);
    assert t[..7] == "http://" && t[7..] == j + post;
    NumbersOf(Numbered(p), Separators, post);
  }

  /** The search returns the first position where a match starts. */
  lemma {:induction false} SearchFirst(s: string, i: nat, first: nat)
    requires i <= first <= |s| && MatchAt(s, first).Some?
    requires forall k :: i <= k < first ==> MatchAt(s, k).None?
    ensures Search(s, i) == Some((first, MatchAt(s, first).value.0))
    decreases first - i
  {
    if i < first {
      var m := MatchAt(s, i);
      assert m.None?;
      assert Search(s, i) == Search(s, i + 1);
      SearchFirst(s, i + 1, first);
    } else {
      var m := MatchAt(s, first);
      assert Search(s, i) == Some((i, m.value.0));
    }
  }

  /** `_get_host_port` finds the address the engine prints: for a line whose text before
      `go to: ` has no `g` (so no earlier match can start) and whose address is not followed by
      a digit, the captured text is exactly the address. */
  lemma AddressCaptured(pre: string, p: AddressParts, post: string)
    requires ValidParts(p) && (post == [] || !IsDigit(post[0]))
    requires forall k :: 0 <= k < |pre| ==> pre[k] != 'g'
    ensures Captured(pre + Marker + AddressText(p) + post) == Some(AddressText(p))
  {
    var s := pre + Marker + AddressText(p) + post;
    var i := |pre|;
    forall k | 0 <= k < i
      ensures MatchAt(s, k).None?
    {
      assert s[k] == pre[k];
      if k + |Marker| <= |s| {
        assert s[k..k + |Marker|][0] == s[k];
      }
    }
    assert s == pre + (Marker + (AddressText(p) + post));
    assert s[i..i + |Marker|] == Marker;
    assert s[i + |Marker|..] == AddressText(p) + post;
    ParseAddressOf(p, post);
    SearchFirst(s, 0, i);
  }

  // ---------------------------------------------------------------- binding a request into the graph

  /** Why `run_workflow` raises. */
  datatype RunError =
    | IndexError       // `descriptor.outputs[0]` of a workflow without image outputs
    | KeyError         // a node id that is not a node, or a node without `inputs`
    | TypeError        // an item assignment into something that is not a dict
    | AttributeError   // `.get` on a response body that is not a dict
    | HttpStatus(status: int)
    | NoPromptId       // "Failed to start workflow"
    | InvalidPromptId  // a `prompt_id` that `WorkflowTask` refuses
    | RequestFailed    // the POST itself fails (no address yet, no connection)

  /** One assignment `nodes[node]["inputs"][key] = value`. */
  datatype Write = Write(node: string, key: string, value: Json)

  /** `nodes[id]`: the entry of `workflow_json` under `id` when it is a node.  The node table of a
      descriptor holds the very dicts of its workflow, so this is the table entry too
      (`NodeIsTableEntry`). */
  function Node(wf: Dict<Json>, id: string): (r: Option<Json>)
    ensures r.Some? ==> Get(wf, id) == r && Selected(r.value)
  {
    var n := Get(wf, id);
    if n.Some? && Selected(n.value) then n else None
  }

  /** `nodes[id]["inputs"][key]`, when all three lookups succeed. */
  function InputField(wf: Dict<Json>, id: string, key: string): Option<Json>
  {
    var n := Node(wf, id);
    if n.None? || !n.value.Obj? then None
    else
      var inputs := Get(n.value.fields, "inputs");
      if inputs.None? || !inputs.value.Obj? then None
      else Get(inputs.value.fields, key)
  }

  /** `nodes[id][key]`, when the node is a dict that has `key`. */
  function NodeField(wf: Dict<Json>, id: string, key: string): Option<Json>
  {
    var n := Node(wf, id);
    if n.None? || !n.value.Obj? then None else Get(n.value.fields, key)
  }

  /** The node table of a workflow holds its node entries themselves. */
  lemma {:induction false} NodeIsTableEntry(wf: Dict<Json>, id: string)
    requires UniqueKeys(wf)
    ensures Get(NodesById(wf), id) == Node(wf, id)
  {
    if wf != [] {
      NodeIsTableEntry(wf[1..], id);
      var rest := NodesById(wf[1..]);
      if Selected(wf[0].1) {
        assert NodesById(wf)[1..] == rest;
      } else {
        assert NodesById(wf) == rest;
      }
      NodesByIdKeys(wf[1..]);
    }
  }

  /** One assignment: a missing node or a node without `inputs` raises `KeyError`; indexing or
      assigning into something other than a dict raises `TypeError`.  The node keeps its place
      in the workflow and the `inputs` dict its place in the node. */
  function Assign(wf: Dict<Json>, w: Write): Result<Dict<Json>, RunError>
  {
    var n := Node(wf, w.node);
    if n.None? then Err(KeyError)
    else if !n.value.Obj? then Err(TypeError)
    else
      var inputs := Get(n.value.fields, "inputs");
      if inputs.None? then Err(KeyError)
      else if !inputs.value.Obj? then Err(TypeError)
      else
        var node := Obj(Put(n.value.fields, "inputs", Obj(Put(inputs.value.fields, w.key, w.value))));
        Ok(Put(wf, w.node, node))
  }

  /** After an assignment the workflow has the same keys, the same entries under every other
      key, the same fields in the assigned node except `inputs`, `value` under the assigned key
      and the same value under every other key of its `inputs`. */
  lemma AssignEffect(wf: Dict<Json>, w: Write)
    requires Assign(wf, w).Ok?
    ensures var wf' := Assign(wf, w).value;
      && Keys(wf') == Keys(wf)
      && (forall id :: id != w.node ==> Get(wf', id) == Get(wf, id))
      && Node(wf', w.node).Some?
      && (forall k :: k != "inputs" ==> NodeField(wf', w.node, k) == NodeField(wf, w.node, k))
      && InputField(wf', w.node, w.key) == Some(w.value)
      && (forall k :: k != w.key ==> InputField(wf', w.node, k) == InputField(wf, w.node, k))
  {
    var n := Node(wf, w.node).value;
    var inputs := Get(n.fields, "inputs").value;
    var fields' := Put(inputs.fields, w.key, w.value);
    var nodeFields := Put(n.fields, "inputs", Obj(fields'));
    PutGet(inputs.fields, w.key, w.value);
    PutGet(n.fields, "inputs", Obj(fields'));
    PutGet(wf, w.node, Obj(nodeFields));
    assert In("class_type", Obj(nodeFields)) == In("class_type", n);
  }

  /** The assignments in order; the first that fails raises and stops the rest. */
  function Assignments(wf: Dict<Json>, ws: seq<Write>): Result<Dict<Json>, RunError>
  {
    if ws == [] then Ok(wf)
    else
      var prev := Assignments(wf, ws[..|ws| - 1]);
      if prev.Err? then prev else Assign(prev.value, ws[|ws| - 1])
  }

  /** The nodes some assignment targets. */
  function Targets(ws: seq<Write>): (r: set<string>)
    ensures forall id :: id in r <==> exists i :: 0 <= i < |ws| && ws[i].node == id
  {
    set i | 0 <= i < |ws| :: ws[i].node
  }

  /** No later assignment writes the same key of the same node as assignment `j`. */
  predicate LastWrite(ws: seq<Write>, j: int)
    requires 0 <= j < |ws|
  {
    forall i :: j < i < |ws| ==> ws[i].node != ws[j].node || ws[i].key != ws[j].key
  }

  /** Assignments leave the keys of the workflow and every node nobody assigns into alone. */
  lemma {:induction false} AssignmentsUntouched(wf: Dict<Json>, ws: seq<Write>, id: string)
    requires Assignments(wf, ws).Ok?
    ensures Keys(Assignments(wf, ws).value) == Keys(wf)
    ensures id !in Targets(ws) ==> Get(Assignments(wf, ws).value, id) == Get(wf, id)
  {
    if ws != [] {
      var pre := ws[..|ws| - 1];
      AssignmentsUntouched(wf, pre, id);
      assert Targets(pre) <= Targets(ws) by {
        forall x | x in Targets(pre) ensures x in Targets(ws) {
          var i :| 0 <= i < |pre| && pre[i].node == x;
          assert ws[i] == pre[i];
        }
      }
      AssignEffect(Assignments(wf, pre).value, ws[|ws| - 1]);
    }
  }

  /** Assignments change no field of a node other than `inputs`. */
  lemma {:induction false} AssignmentsKeepFields(wf: Dict<Json>, ws: seq<Write>, id: string, k: string)
    requires Assignments(wf, ws).Ok? && k != "inputs"
    ensures NodeField(Assignments(wf, ws).value, id, k) == NodeField(wf, id, k)
  {
    if ws != [] {
      var pre := ws[..|ws| - 1];
      AssignmentsKeepFields(wf, pre, id, k);
      var prev := Assignments(wf, pre).value;
      AssignEffect(prev, ws[|ws| - 1]);
      if id != ws[|ws| - 1].node {
        assert Get(Assign(prev, ws[|ws| - 1]).value, id) == Get(prev, id);
      }
    }
  }

  /** The last assignment to a key of a node is the value that key holds at the end. */
  lemma {:induction false} AssignmentsLastWins(wf: Dict<Json>, ws: seq<Write>, j: int)
    requires Assignments(wf, ws).Ok? && 0 <= j < |ws| && LastWrite(ws, j)
    ensures InputField(Assignments(wf, ws).value, ws[j].node, ws[j].key) == Some(ws[j].value)
  {
    var pre := ws[..|ws| - 1];
    var last := ws[|ws| - 1];
    var prev := Assignments(wf, pre).value;
    AssignEffect(prev, last);
    if j < |ws| - 1 {
      assert pre[j] == ws[j];
      assert LastWrite(pre, j) by {
        forall i | j < i < |pre| ensures pre[i].node != pre[j].node || pre[i].key != pre[j].key {
          assert pre[i] == ws[i];
        }
      }
      AssignmentsLastWins(wf, pre, j);
      var wf' := Assign(prev, last).value;
      if last.node != ws[j].node {
        assert Get(wf', ws[j].node) == Get(prev, ws[j].node);
      }
    }
  }

  /** The assignments of the input loop: each input's value to its node's `input_id`. */
  function InputWrites(inputs: seq<WorkflowInput>): (r: seq<Write>)
    ensures |r| == |inputs|
    ensures forall i :: 0 <= i < |inputs| ==> r[i] == Write(inputs[i].nodeId, "input_id", inputs[i].value)
  {
    if inputs == [] then []
    else [Write(inputs[0].nodeId, "input_id", inputs[0].value)] + InputWrites(inputs[1..])
  }

  /** The assignment of an output's id (`first`) or of its connection id to its node. */
  function OutputWrite(o: ImageOutput, first: bool): Write
  {
    if first then Write(o.nodeId, "output_id", Str(o.outputId))
    else Write(o.nodeId, "client_id", Str(o.connectionId))
  }

  /** The assignments of the output loop: each output's id and connection id to its node. */
  function OutputWrites(outputs: seq<ImageOutput>): (r: seq<Write>)
    ensures |r| == 2 * |outputs|
  {
    if outputs == [] then []
    else [OutputWrite(outputs[0], true), OutputWrite(outputs[0], false)] + OutputWrites(outputs[1..])
  }

  /** Assignment `m` of the output loop is the first or second one of output `m / 2`. */
  lemma {:induction false} OutputWriteAt(outputs: seq<ImageOutput>, m: int)
    requires 0 <= m < 2 * |outputs|
    ensures OutputWrites(outputs)[m] == OutputWrite(outputs[m / 2], m % 2 == 0)
  {
    if m >= 2 {
      OutputWriteAt(outputs[1..], m - 2);
      assert OutputWrites(outputs)[m] == OutputWrites(outputs[1..])[m - 2];
    }
  }

  /** `outputs[0]` bound to the connection `sid` and the request id. */
  function BoundOutputs(outputs: seq<ImageOutput>, sid: string, requestId: string): (r: seq<ImageOutput>)
    requires outputs != []
    ensures |r| == |outputs| && r[0] == outputs[0].(connectionId := sid, outputId := requestId)
    ensures forall i :: 0 < i < |outputs| ==> r[i] == outputs[i]
  {
    outputs[0 := outputs[0].(connectionId := sid, outputId := requestId)]
  }

  /** The binding step of `run_workflow`: the first output is bound to the connection `sid` and the
      request id, then the inputs and the outputs are written into the graph. */
  function Binding(d: Descriptor, sid: string, requestId: string): (r: Result<Descriptor, RunError>)
    ensures d.outputs == [] ==> r == Err(IndexError)
    ensures r.Ok? ==> r.value == d.(workflowJson := r.value.workflowJson, outputs := r.value.outputs)
    ensures r.Ok? ==>
      && |r.value.outputs| == |d.outputs|
      && r.value.outputs[0].connectionId == sid && r.value.outputs[0].outputId == requestId
  {
    if d.outputs == [] then Err(IndexError)
    else
      var outs := BoundOutputs(d.outputs, sid, requestId);
      var wf := Assignments(d.workflowJson, InputWrites(d.inputs) + OutputWrites(outs));
      if wf.Err? then Err(wf.error) else Ok(d.(workflowJson := wf.value, outputs := outs))
  }

  /** The workflow as the assignments leave it in place: every assignment before the first that
      raises stays written, and that one and the rest write nothing. */
  function Applied(wf: Dict<Json>, ws: seq<Write>): (r: Dict<Json>)
    ensures Assignments(wf, ws).Ok? ==> r == Assignments(wf, ws).value
  {
    if ws == [] then wf
    else
      var prev := Assignments(wf, ws[..|ws| - 1]);
      if prev.Err? then Applied(wf, ws[..|ws| - 1])
      else
        var a := Assign(prev.value, ws[|ws| - 1]);
        if a.Err? then prev.value else a.value
  }

  /** The first `k` assignments succeed with `r` and, unless they are all of them, the next one
      raises. */
  predicate StopsAt(wf: Dict<Json>, ws: seq<Write>, k: int, r: Dict<Json>)
    requires 0 <= k <= |ws|
  {
    Assignments(wf, ws[..k]) == Ok(r) && (k < |ws| ==> Assignments(wf, ws[..k + 1]).Err?)
  }

  /** What the assignments leave in place is the result of a prefix of them that succeeds, and
      unless that prefix is all of them the next assignment is the one that raises. */
  lemma {:induction false} AppliedPrefix(wf: Dict<Json>, ws: seq<Write>)
    ensures exists k :: 0 <= k <= |ws| && StopsAt(wf, ws, k, Applied(wf, ws))
  {
    if ws == [] {
      assert ws[..0] == ws;
      assert StopsAt(wf, ws, 0, Applied(wf, ws));
    } else if Assignments(wf, ws[..|ws| - 1]).Err? {
      AppliedPrefix(wf, ws[..|ws| - 1]);
      var k :| 0 <= k <= |ws| - 1 && StopsAt(wf, ws[..|ws| - 1], k, Applied(wf, ws[..|ws| - 1]));
      StopsEarlier(wf, ws, k);
    } else {
      assert ws[..|ws|] == ws;
      if Assign(Assignments(wf, ws[..|ws| - 1]).value, ws[|ws| - 1]).Err? {
        assert StopsAt(wf, ws, |ws| - 1, Applied(wf, ws));
      } else {
        assert StopsAt(wf, ws, |ws|, Applied(wf, ws));
      }
    }
  }

  /** Where the assignments but the last stop short, all of them stop at the same place. */
  lemma StopsEarlier(wf: Dict<Json>, ws: seq<Write>, k: int)
    requires ws != [] && Assignments(wf, ws[..|ws| - 1]).Err?
    requires 0 <= k <= |ws| - 1 && StopsAt(wf, ws[..|ws| - 1], k, Applied(wf, ws[..|ws| - 1]))
    ensures StopsAt(wf, ws, k, Applied(wf, ws))
  {
    var init := ws[..|ws| - 1];
    assert init[..|init|] == init;
    assert init[..k] == ws[..k];
    assert init[..k + 1] == ws[..k + 1];
  }

  /** The caller's descriptor after `run_workflow` has written into it, which it does in place
      and before the request is sent, so these writes stay whether or not the run is admitted:
      without outputs nothing is written; otherwise the first output is bound and the graph holds
      the assignments made before the first that raises. */
  function InPlace(d: Descriptor, sid: string, requestId: string): (r: Descriptor)
    ensures Binding(d, sid, requestId).Ok? ==> r == Binding(d, sid, requestId).value
    ensures d.outputs == [] ==> r == d
    ensures d.outputs != [] ==> r.outputs == BoundOutputs(d.outputs, sid, requestId)
    ensures r == d.(workflowJson := r.workflowJson, outputs := r.outputs)
  {
    if d.outputs == [] then d
    else
      var outs := BoundOutputs(d.outputs, sid, requestId);
      d.(workflowJson := Applied(d.workflowJson, InputWrites(d.inputs) + OutputWrites(outs)), outputs := outs)
  }

  /** The caller's descriptor is cached and reused by the next request for the same workflow:
      a node the next request's inputs and the outputs do not name keeps the `input_id` the
      previous request wrote into it. */
  lemma BoundInputCarriesOver(d: Descriptor, sid: string, requestId: string, next: seq<WorkflowInput>,
                              sid': string, requestId': string, j: int)
    requires Binding(d, sid, requestId).Ok? && 0 <= j < |d.inputs|
    requires forall i :: j < i < |d.inputs| ==> d.inputs[i].nodeId != d.inputs[j].nodeId
    requires forall i :: 0 <= i < |next| ==> next[i].nodeId != d.inputs[j].nodeId
    requires forall i :: 0 <= i < |d.outputs| ==> d.outputs[i].nodeId != d.inputs[j].nodeId
    requires Binding(InPlace(d, sid, requestId).(inputs := next), sid', requestId').Ok?
    ensures InputField(InPlace(InPlace(d, sid, requestId).(inputs := next), sid', requestId').workflowJson,
                       d.inputs[j].nodeId, "input_id") == Some(d.inputs[j].value)
  {
    var b := InPlace(d, sid, requestId);
    var d2 := b.(inputs := next);
    var id := d.inputs[j].nodeId;
    BindingInput(d, sid, requestId, j);
    BindingShape(d2, sid', requestId', id);
  }

  /** The assignments after the inputs' never touch `input_id`. */
  lemma OutputWritesKeys(outputs: seq<ImageOutput>, m: int)
    requires 0 <= m < |OutputWrites(outputs)|
    ensures OutputWrites(outputs)[m].key != "input_id"
    ensures OutputWrites(outputs)[m].node == outputs[m / 2].nodeId
  {
    OutputWriteAt(outputs, m);
  }

  /** No assignment of the two loops targets a node that no input and no output names. */
  lemma WritesAvoid(inputs: seq<WorkflowInput>, outs: seq<ImageOutput>, id: string)
    requires forall i :: 0 <= i < |inputs| ==> inputs[i].nodeId != id
    requires forall i :: 0 <= i < |outs| ==> outs[i].nodeId != id
    ensures forall i :: 0 <= i < |InputWrites(inputs) + OutputWrites(outs)| ==>
      (InputWrites(inputs) + OutputWrites(outs))[i].node != id
  {
    var ins := InputWrites(inputs);
    var ws := ins + OutputWrites(outs);
    forall i | 0 <= i < |ws| ensures ws[i].node != id {
      if i >= |ins| {
        assert ws[i] == OutputWrites(outs)[i - |ins|];
        OutputWritesKeys(outs, i - |ins|);
      } else {
        assert ws[i] == ins[i];
      }
    }
  }

  /** An input whose node no later input names is the last assignment to its `input_id`. */
  lemma InputWriteLast(inputs: seq<WorkflowInput>, outs: seq<ImageOutput>, j: int)
    requires 0 <= j < |inputs|
    requires forall i :: j < i < |inputs| ==> inputs[i].nodeId != inputs[j].nodeId
    ensures (InputWrites(inputs) + OutputWrites(outs))[j] == Write(inputs[j].nodeId, "input_id", inputs[j].value)
    ensures LastWrite(InputWrites(inputs) + OutputWrites(outs), j)
  {
    var ins := InputWrites(inputs);
    var ws := ins + OutputWrites(outs);
    assert ws[j] == ins[j];
    forall i | j < i < |ws| ensures ws[i].node != ws[j].node || ws[i].key != ws[j].key {
      if i >= |ins| {
        assert ws[i] == OutputWrites(outs)[i - |ins|];
        OutputWritesKeys(outs, i - |ins|);
      } else {
        assert ws[i] == ins[i];
      }
    }
  }

  /** The binding touches only the workflow and the outputs: the first output now names the
      connection and the request, the other outputs are as they were, the workflow keeps its keys,
      and every node no input or output names is as it was. */
  lemma BindingShape(d: Descriptor, sid: string, requestId: string, id: string)
    requires Binding(d, sid, requestId).Ok?
    ensures var b := Binding(d, sid, requestId).value;
      && b == d.(workflowJson := b.workflowJson, outputs := b.outputs)
      && |b.outputs| == |d.outputs|
      && b.outputs[0] == d.outputs[0].(connectionId := sid, outputId := requestId)
      && (forall i :: 0 < i < |d.outputs| ==> b.outputs[i] == d.outputs[i])
      && Keys(b.workflowJson) == Keys(d.workflowJson)
      && ((forall i :: 0 <= i < |d.inputs| ==> d.inputs[i].nodeId != id) &&
          (forall i :: 0 <= i < |d.outputs| ==> d.outputs[i].nodeId != id) ==>
            Get(b.workflowJson, id) == Get(d.workflowJson, id))
  {
    var outs := BoundOutputs(d.outputs, sid, requestId);
    var ins := InputWrites(d.inputs);
    var ws := ins + OutputWrites(outs);
    AssignmentsUntouched(d.workflowJson, ws, id);
    if (forall i :: 0 <= i < |d.inputs| ==> d.inputs[i].nodeId != id) &&
       (forall i :: 0 <= i < |d.outputs| ==> d.outputs[i].nodeId != id) {
      assert forall i :: 0 <= i < |outs| ==> outs[i].nodeId == d.outputs[i].nodeId;
      WritesAvoid(d.inputs, outs, id);
    }
  }


  /** Each input whose node no later input names holds the input's value under `input_id`. */
  lemma BindingInput(d: Descriptor, sid: string, requestId: string, j: int)
    requires Binding(d, sid, requestId).Ok? && 0 <= j < |d.inputs|
    requires forall i :: j < i < |d.inputs| ==> d.inputs[i].nodeId != d.inputs[j].nodeId
    ensures InputField(Binding(d, sid, requestId).value.workflowJson, d.inputs[j].nodeId, "input_id") == Some(d.inputs[j].value)
  {
    var outs := BoundOutputs(d.outputs, sid, requestId);
    var ins := InputWrites(d.inputs);
    var ws := ins + OutputWrites(outs);
    InputWriteLast(d.inputs, outs, j);
    AssignmentsLastWins(d.workflowJson, ws, j);
  }

  /** For an output whose node no other output names, its two assignments are the last to their
      keys. */
  lemma OutputWritesLast(ins: seq<Write>, outs: seq<ImageOutput>, j: int)
    requires 0 <= j < |outs|
    requires forall i :: 0 <= i < |outs| && i != j ==> outs[i].nodeId != outs[j].nodeId
    ensures |ins| + 2 * j + 1 < |ins + OutputWrites(outs)|
    ensures (ins + OutputWrites(outs))[|ins| + 2 * j] == OutputWrite(outs[j], true)
    ensures (ins + OutputWrites(outs))[|ins| + 2 * j + 1] == OutputWrite(outs[j], false)
    ensures LastWrite(ins + OutputWrites(outs), |ins| + 2 * j)
    ensures LastWrite(ins + OutputWrites(outs), |ins| + 2 * j + 1)
  {
    var os := OutputWrites(outs);
    var ws := ins + os;
    OutputWriteAt(outs, 2 * j);
    OutputWriteAt(outs, 2 * j + 1);
    assert ws[|ins| + 2 * j] == os[2 * j];
    assert ws[|ins| + 2 * j + 1] == os[2 * j + 1];
    forall i | |ins| + 2 * j < i < |ws|
      ensures ws[i].node != outs[j].nodeId || ws[i].key != "output_id"
      ensures i > |ins| + 2 * j + 1 ==> ws[i].node != outs[j].nodeId || ws[i].key != "client_id"
    {
      assert ws[i] == os[i - |ins|];
      OutputWriteAt(outs, i - |ins|);
    }
  }

  /** After both loops, an output whose node no other output names holds its id and its
      connection id. */
  lemma OutputFields(wf: Dict<Json>, ins: seq<Write>, outs: seq<ImageOutput>, j: int)
    requires Assignments(wf, ins + OutputWrites(outs)).Ok? && 0 <= j < |outs|
    requires forall i :: 0 <= i < |outs| && i != j ==> outs[i].nodeId != outs[j].nodeId
    ensures InputField(Assignments(wf, ins + OutputWrites(outs)).value, outs[j].nodeId, "output_id") == Some(Str(outs[j].outputId))
    ensures InputField(Assignments(wf, ins + OutputWrites(outs)).value, outs[j].nodeId, "client_id") == Some(Str(outs[j].connectionId))
  {
    var ws := ins + OutputWrites(outs);
    var r := Assignments(wf, ws).value;
    OutputWritesLast(ins, outs, j);
    assert InputField(r, outs[j].nodeId, "output_id") == Some(Str(outs[j].outputId)) by {
      AssignmentsLastWins(wf, ws, |ins| + 2 * j);
    }
    assert InputField(r, outs[j].nodeId, "client_id") == Some(Str(outs[j].connectionId)) by {
      AssignmentsLastWins(wf, ws, |ins| + 2 * j + 1);
    }
  }

  /** Each output whose node no other output names holds the output's id under `output_id` and
      its connection under `client_id`; for the first output these are the request id and the
      connection `sid`. */
  lemma BindingOutput(d: Descriptor, sid: string, requestId: string, j: int)
    requires Binding(d, sid, requestId).Ok? && 0 <= j < |d.outputs|
    requires forall i :: 0 <= i < |d.outputs| && i != j ==> d.outputs[i].nodeId != d.outputs[j].nodeId
    ensures var b := Binding(d, sid, requestId).value;
      && InputField(b.workflowJson, d.outputs[j].nodeId, "output_id") == Some(Str(b.outputs[j].outputId))
      && InputField(b.workflowJson, d.outputs[j].nodeId, "client_id") == Some(Str(b.outputs[j].connectionId))
      && (j == 0 ==> b.outputs[j].outputId == requestId && b.outputs[j].connectionId == sid)
  {
    var outs := BoundOutputs(d.outputs, sid, requestId);
    var ins := InputWrites(d.inputs);
    var ws := ins + OutputWrites(outs);
    var p := |ins| + 2 * j;
    assert outs[j].nodeId == d.outputs[j].nodeId;
    assert forall i :: 0 <= i < |outs| && i != j ==> outs[i].nodeId != outs[j].nodeId;
    OutputFields(d.workflowJson, ins, outs, j);
  }

  /** The binding changes no field of any node other than its `inputs`. */
  lemma BindingKeepsFields(d: Descriptor, sid: string, requestId: string, id: string, k: string)
    requires Binding(d, sid, requestId).Ok? && k != "inputs"
    ensures NodeField(Binding(d, sid, requestId).value.workflowJson, id, k) == NodeField(d.workflowJson, id, k)
  {
    var outs := BoundOutputs(d.outputs, sid, requestId);
    AssignmentsKeepFields(d.workflowJson, InputWrites(d.inputs) + OutputWrites(outs), id, k);
  }

  // ---------------------------------------------------------------- jobs and the status bridge

  /** `ComfyUIStatus`. */
  datatype ComfyUIStatus = NotRunning | Starting | Running | Error

  /** The `status` literal of a `WorkflowTask`. */
  datatype TaskStatus = Queued | Running | Completed | Failed | Interrupted

  /** A finished job: completed, failed or interrupted, the states after which `_monitor_task_status` forgets the job. */
  predicate Terminal(s: TaskStatus)
  {
    s == Completed || s == Failed || s == Interrupted
  }

  /** The type dispatch of `_monitor_task_status`: the status a message type sets, or `None` for a type the loop skips.  A
      missing `type` is `Null`. */
  function StatusFor(msgType: Json): (r: Option<TaskStatus>)
    ensures r.Some? ==> msgType.Str? && msgType.s in KnownTypes
    ensures r != Some(Queued)
  {
    if msgType == Str("execution_start") || msgType == Str("executing") then Some(TaskStatus.Running)
    else if msgType == Str("execution_success") then Some(Completed)
    else if msgType == Str("execution_error") then Some(Failed)
    else if msgType == Str("execution_interrupted") then Some(Interrupted)
    else if msgType == Str("execution_cached") then Some(Completed)
    else None
  }

  /** The message types the loop acts on. */
  const KnownTypes: set<string> :=
    {"execution_start", "executing", "execution_success", "execution_error", "execution_interrupted",
     "execution_cached"}

  /** A message type sets a status iff it is one of the six known types; no type puts a job back
      into the queue, and the types that end a job are exactly success, error, interruption and
      a cached execution. */
  lemma StatusForTypes(msgType: Json)
    ensures StatusFor(msgType).Some? <==> msgType.Str? && msgType.s in KnownTypes
    ensures StatusFor(msgType) != Some(Queued)
    ensures StatusFor(msgType).Some? && Terminal(StatusFor(msgType).value) <==>
      msgType in {Str("execution_success"), Str("execution_error"), Str("execution_interrupted"),
                  Str("execution_cached")}
  {
  }

  /** `d.get(key)`, with `None` as `Null`. */
  function Lookup(fields: Dict<Json>, key: string): Json
  {
    if Get(fields, key).Some? then Get(fields, key).value else Null
  }

  /** How the status loop treats one decoded message, up to the `refresh` of its job. */
  datatype Route =
    | Raises     // the message or its `data` is not a dict, or the `prompt_id` is unhashable
    | Skipped    // no truthy `prompt_id`, or one no job can be keyed by
    | ForPrompt(promptId: string, msgType: Json, node: Json)

  /** The head of the `_monitor_task_status` loop: `message.get("type")`, `message.get("data", {})`, `data.get("prompt_id")`,
      the `continue` on a falsy id and the dict lookup of `refresh`, which raises for a list or a
      dict and finds nothing for a number or `True`. */
  function RouteOf(message: Json): (r: Route)
    ensures r.ForPrompt? ==> message.Obj? && r.promptId != [] && r.msgType == Lookup(message.fields, "type")
    ensures !message.Obj? ==> r == Raises
  {
    if !message.Obj? then Raises
    else
      var data := if Get(message.fields, "data").Some? then Get(message.fields, "data").value else Obj([]);
      if !data.Obj? then Raises
      else
        var pid := Lookup(data.fields, "prompt_id");
        if !Truthy(pid) then Skipped
        else if pid.Str? then ForPrompt(pid.s, Lookup(message.fields, "type"), Lookup(data.fields, "node"))
        else if pid.Arr? || pid.Obj? then Raises
        else Skipped
  }

  /** A message without a truthy `prompt_id` (and whose `data`, if any, is a dict) is skipped. */
  lemma RouteSkipsFalsy(fields: Dict<Json>, data: Dict<Json>)
    requires Get(fields, "data") == Some(Obj(data)) && !Truthy(Lookup(data, "prompt_id"))
    ensures RouteOf(Obj(fields)) == Skipped
  {
  }

  /** What one message does. */
  datatype Outcome =
    | Raised               // the inner `try` ends: the socket is closed and reconnected
    | Ignored              // `continue`
    | Notified(status: TaskStatus)

  /** The dispatch of `_monitor_task_status`: a message for a prompt reaches its callback only if the prompt has a job and
      a callback and the type is known. */
  function OutcomeOf(route: Route, jobIds: set<string>, callbackIds: set<string>): (r: Outcome)
    ensures r.Notified? <==>
      route.ForPrompt? && route.promptId in jobIds && route.promptId in callbackIds && StatusFor(route.msgType).Some?
    ensures r.Notified? ==> Some(r.status) == StatusFor(route.msgType)
    ensures r.Raised? <==> route.Raises?
  {
    match route
    case Raises => Raised
    case Skipped => Ignored
    case ForPrompt(p, t, _) =>
      if p !in jobIds || p !in callbackIds || StatusFor(t).None? then Ignored
      else Notified(StatusFor(t).value)
  }

  /** What a status callback is given: the job as it is at the call. */
  datatype TaskView = TaskView(promptId: string, requestId: string, imageWsSid: string, prompt: Descriptor,
                               executingNodeId: Json, status: TaskStatus)

  /** `WorkflowTask`: a submitted job.  `executingNodeId` is `Null` for `None`. */
  class WorkflowTask {
    const promptId: string
    const requestId: string
    const imageWsSid: string
    const prompt: Descriptor
    var executingNodeId: Json
    var status: TaskStatus

    constructor (promptId: string, requestId: string, imageWsSid: string, prompt: Descriptor)
      ensures this.promptId == promptId && this.requestId == requestId && this.imageWsSid == imageWsSid
      ensures this.prompt == prompt && executingNodeId == Null && status == Queued
    {
      this.promptId := promptId;
      this.requestId := requestId;
      this.imageWsSid := imageWsSid;
      this.prompt := prompt;
      executingNodeId := Null;
      status := Queued;
    }

    function View(): TaskView
      reads this
    {
      TaskView(promptId, requestId, imageWsSid, prompt, executingNodeId, status)
    }

    /** The update of `_monitor_task_status` for a known type: the status it maps to, and for `executing` the node. */
    method Update(s: TaskStatus, msgType: Json, node: Json)
      modifies this
      ensures status == s
      ensures executingNodeId == if msgType == Str("executing") then node else old(executingNodeId)
    {
      status := s;
      if msgType == Str("executing") {
        executingNodeId := node;
      }
    }
  }

  /** The `/prompt` request of `run_workflow`: the prompt id a submission gets, or why it raises.  `response` is the HTTP
      status and the decoded body, or `None` when the request itself fails. */
  function Submission(d: Descriptor, sid: string, requestId: string, response: Option<(int, Json)>)
    : (r: Result<(string, Descriptor), RunError>)
    ensures Binding(d, sid, requestId).Err? ==> r == Err(Binding(d, sid, requestId).error)
    ensures r.Ok? ==> r.value.0 != "" && Binding(d, sid, requestId) == Ok(r.value.1)
    ensures r.Ok? ==> response.Some? && response.value.0 == 200
  {
    var b := Binding(d, sid, requestId);
    if b.Err? then Err(b.error)
    else if response.None? then Err(RequestFailed)
    else if response.value.0 != 200 then Err(HttpStatus(response.value.0))
    else
      var body := response.value.1;
      if Truthy(body) && !body.Obj? then Err(AttributeError)
      else
        var pid := if Truthy(body) then Lookup(body.fields, "prompt_id") else Null;
        if !Truthy(pid) then Err(NoPromptId)
        else if !pid.Str? then Err(InvalidPromptId)
        else Ok((pid.s, b.value))
  }

  /** A job is registered only after the binding succeeds and a 200 response whose body carries a
      non-empty string `prompt_id`; it is registered under that id with the bound descriptor. */
  lemma SubmissionAccepted(d: Descriptor, sid: string, requestId: string, response: Option<(int, Json)>)
    ensures var r := Submission(d, sid, requestId, response);
      r.Ok? <==>
        && Binding(d, sid, requestId).Ok?
        && response.Some? && response.value.0 == 200 && response.value.1.Obj?
        && Lookup(response.value.1.fields, "prompt_id").Str?
        && Lookup(response.value.1.fields, "prompt_id").s != []
    ensures var r := Submission(d, sid, requestId, response);
      r.Ok? ==> r.value == (Lookup(response.value.1.fields, "prompt_id").s, Binding(d, sid, requestId).value)
  {
  }

  /** The idle timeout of the three job registries: a day. */
  const JobTimeout: int := 60 * 60 * 24

  /** The state of one registry: its values, key order, timestamps and heap. */
  datatype Registry<V> = Registry(data: map<string, V>, order: seq<string>, timestamps: map<string, int>,
                                  heap: seq<Collections.Entry>)

  function StateOf<V>(m: Collections.TimeoutMap<V>): Registry<V>
    reads m
  {
    Registry(m.data, m.order, m.timestamps, m.heap)
  }

  /** A job registry after `refresh(k)` at `now`. */
  function Refreshed<V>(r: Registry<V>, k: string, now: int): Registry<V>
  {
    if k in r.data then
      r.(timestamps := r.timestamps[k := now], heap := Collections.Insert(r.heap, Collections.Entry(now + JobTimeout, k)))
    else r
  }

  /** A job registry after `set(k, v)` at `now`. */
  function Stored<V>(r: Registry<V>, k: string, v: V, now: int): Registry<V>
  {
    Registry(r.data[k := v], if k in r.data then r.order else r.order + [k], r.timestamps[k := now],
             Collections.Insert(r.heap, Collections.Entry(now + JobTimeout, k)))
  }

  /** A registry after `pop(k)`: the heap keeps `k`'s stale entries. */
  function Popped<V>(r: Registry<V>, k: string): Registry<V>
  {
    r.(data := r.data - {k}, timestamps := r.timestamps - {k}, order := Collections.Filter(r.order, {k}))
  }

  function PoppedIf<V>(r: Registry<V>, k: string, pop: bool): Registry<V>
  {
    if pop then Popped(r, k) else r
  }

  predicate Apart(a: object, b: object, c: object)
  {
    a != b && a != c && b != c
  }

  /** `ComfyUIManager`: the three job registries, the scraped address and the process
      bookkeeping.  Processes and tasks are opaque handles; status callbacks are ids whose calls
      are recorded in `calls`, cancellations in `cancelled`. */
  class ComfyUIManager {
    /** `_prompt_to_job_map`. */
    const jobs: Collections.TimeoutMap<WorkflowTask>
    /** `_prompt_to_callback_map`. */
    const callbacks: Collections.TimeoutMap<Connections.CallbackId>
    /** `_request_id_to_prompt`. */
    const requests: Collections.TimeoutMap<string>
    /** `_status_socket_sid`. */
    const statusSocketSid: string

    /** `_comfyui_address`. */
    var address: Option<string>
    var process: Option<Connections.Handle>
    var monitorStatusTask: Option<Connections.Handle>
    var streamTasks: seq<Connections.Handle>
    var cancelled: seq<Connections.Handle>
    var calls: seq<(Connections.CallbackId, TaskView)>

    ghost predicate Valid()
      reads this, jobs, callbacks, requests
    {
      && Apart(jobs, callbacks, requests)
      && jobs.Valid() && callbacks.Valid() && requests.Valid()
      && jobs.idleTimeout == JobTimeout && callbacks.idleTimeout == JobTimeout && requests.idleTimeout == JobTimeout
      && !jobs.hasCallback && !callbacks.hasCallback && !requests.hasCallback
      && (forall p :: p in jobs.data ==> jobs.data[p].promptId == p)
    }

    /** `__init__`; the fresh status socket id is a parameter. */
    constructor (statusSocketSid: string)
      ensures Valid() && this.statusSocketSid == statusSocketSid
      ensures jobs.data == map[] && callbacks.data == map[] && requests.data == map[]
      ensures address.None? && process.None? && monitorStatusTask.None? && streamTasks == []
      ensures cancelled == [] && calls == []
    {
      jobs := new Collections.TimeoutMap(JobTimeout, false);
      callbacks := new Collections.TimeoutMap(JobTimeout, false);
      requests := new Collections.TimeoutMap(JobTimeout, false);
      this.statusSocketSid := statusSocketSid;
      address := None;
      process := None;
      monitorStatusTask := None;
      streamTasks := [];
      cancelled := [];
      calls := [];
    }

    /** The job a message can touch: the one registered under its prompt id. */
    function Touched(route: Route): set<WorkflowTask>
      reads this, jobs
    {
      if route.ForPrompt? && route.promptId in jobs.data then {jobs.data[route.promptId]} else {}
    }

    /** One pass of the `_monitor_task_status` loop: one status message at clock `now`, decoded as `route == RouteOf(message)`.
        The prompt's job is refreshed; a known type updates the job and calls its callback with
        it, and a terminal status removes the prompt from the job and callback registries and
        its request id from the request registry. */
    method HandleStatusMessage(route: Route, now: int) returns (outcome: Outcome)
      requires Valid()
      modifies this`calls, jobs, callbacks, requests, Touched(route)
      ensures Valid()
      ensures outcome == OutcomeOf(route, old(jobs.data).Keys, old(callbacks.data).Keys)
      ensures var done := outcome.Notified? && Terminal(outcome.status);
        && StateOf(jobs) == (if route.ForPrompt? then
                               PoppedIf(Refreshed(old(StateOf(jobs)), route.promptId, now), route.promptId, done)
                             else old(StateOf(jobs)))
        && StateOf(callbacks) == (if done then Popped(old(StateOf(callbacks)), route.promptId) else old(StateOf(callbacks)))
        && StateOf(requests) == (if done then Popped(old(StateOf(requests)), old(jobs.data)[route.promptId].requestId)
                                 else old(StateOf(requests)))
      ensures outcome.Notified? ==>
        var t := old(jobs.data)[route.promptId];
        && t.status == outcome.status
        && t.executingNodeId == (if route.msgType == Str("executing") then route.node else old(t.executingNodeId))
        && calls == old(calls) + [(old(callbacks.data)[route.promptId], t.View())]
      ensures !outcome.Notified? ==> calls == old(calls)
      ensures !outcome.Notified? && route.ForPrompt? && route.promptId in old(jobs.data) ==>
        var t := old(jobs.data)[route.promptId]; t.View() == old(t.View())
    {
      if !route.ForPrompt? {
        outcome := if route.Raises? then Raised else Ignored;
      } else {
        jobs.Refresh(route.promptId, now);
        outcome := Deliver(route.promptId, route.msgType, route.node);
      }
    }

    /** The rest of the `_monitor_task_status` loop after the refresh: the job and callback lookups, then the update. */
    method Deliver(p: string, msgType: Json, node: Json) returns (outcome: Outcome)
      requires Valid()
      modifies this`calls, jobs`data, jobs`timestamps, jobs`order, callbacks`data, callbacks`timestamps,
        callbacks`order, requests`data, requests`timestamps, requests`order, Touched(ForPrompt(p, msgType, node))
      ensures Valid()
      ensures outcome == OutcomeOf(ForPrompt(p, msgType, node), old(jobs.data).Keys, old(callbacks.data).Keys)
      ensures var done := outcome.Notified? && Terminal(outcome.status);
        && StateOf(jobs) == PoppedIf(old(StateOf(jobs)), p, done)
        && StateOf(callbacks) == PoppedIf(old(StateOf(callbacks)), p, done)
        && StateOf(requests) == (if done then Popped(old(StateOf(requests)), old(jobs.data)[p].requestId)
                                 else old(StateOf(requests)))
      ensures outcome.Notified? ==>
        var t := old(jobs.data)[p];
        && t.status == outcome.status
        && t.executingNodeId == (if msgType == Str("executing") then node else old(t.executingNodeId))
        && calls == old(calls) + [(old(callbacks.data)[p], t.View())]
      ensures !outcome.Notified? ==> calls == old(calls)
      ensures !outcome.Notified? && p in old(jobs.data) ==> var t := old(jobs.data)[p]; t.View() == old(t.View())
    {
      var task := jobs.Get(p);
      var callback := callbacks.Get(p);
      var s := StatusFor(msgType);
      if task.None? || callback.None? || s.None? {
        return Ignored;
      }
      Notify(task.value, callback.value, s.value, msgType, node);
      outcome := Notified(s.value);
    }

    /** The update and callback of `_monitor_task_status` for a registered job `t`, its callback and a known type's status `s`. */
    method Notify(t: WorkflowTask, callback: Connections.CallbackId, s: TaskStatus, msgType: Json, node: Json)
      requires Valid() && t.promptId in jobs.data && jobs.data[t.promptId] == t
      modifies this`calls, jobs`data, jobs`timestamps, jobs`order, callbacks`data, callbacks`timestamps,
        callbacks`order, requests`data, requests`timestamps, requests`order, t
      ensures Valid()
      ensures t.status == s
      ensures t.executingNodeId == if msgType == Str("executing") then node else old(t.executingNodeId)
      ensures calls == old(calls) + [(callback, t.View())]
      ensures StateOf(jobs) == PoppedIf(old(StateOf(jobs)), t.promptId, Terminal(s))
      ensures StateOf(callbacks) == PoppedIf(old(StateOf(callbacks)), t.promptId, Terminal(s))
      ensures StateOf(requests) == PoppedIf(old(StateOf(requests)), t.requestId, Terminal(s))
    {
      t.Update(s, msgType, node);
      calls := calls + [(callback, t.View())];
      if Terminal(s) {
        Finish(t.promptId, t.requestId);
      }
    }

    /** The three pops of a finished job in `_monitor_task_status`. */
    method Finish(p: string, requestId: string)
      requires Valid()
      modifies jobs`data, jobs`timestamps, jobs`order, callbacks`data, callbacks`timestamps,
        callbacks`order, requests`data, requests`timestamps, requests`order
      ensures Valid()
      ensures StateOf(jobs) == Popped(old(StateOf(jobs)), p)
      ensures StateOf(callbacks) == Popped(old(StateOf(callbacks)), p)
      ensures StateOf(requests) == Popped(old(StateOf(requests)), requestId)
    {
      var _, _ := jobs.Pop(p);
      var _, _ := callbacks.Pop(p);
      var _, _ := requests.Pop(requestId);
    }

    /** `run_workflow` at clock `now`: binds the request into the graph, submits
        it (`response` is the HTTP status and decoded body, or `None` when the request fails) and
        registers the job under the returned prompt id: the job starts queued, is entered in the
        three registries and its callback is called once with it.  Any failure registers
        nothing.  `bound` is the caller's descriptor as the run leaves it, admitted or not. */
    method RunWorkflow(sid: string, requestId: string, d: Descriptor, callback: Connections.CallbackId,
                       response: Option<(int, Json)>, now: int)
      returns (r: Result<WorkflowTask, RunError>, bound: Descriptor)
      requires Valid()
      modifies this`calls, jobs, callbacks, requests
      ensures Valid()
      ensures bound == InPlace(d, sid, requestId)
      ensures var sub := Submission(d, sid, requestId, response);
        sub.Err? ==> r == Err(sub.error) && calls == old(calls) && unchanged(jobs, callbacks, requests)
      ensures var sub := Submission(d, sid, requestId, response);
        sub.Ok? ==>
          var pid := sub.value.0;
          && r.Ok? && fresh(r.value)
          && r.value.View() == TaskView(pid, requestId, sid, sub.value.1, Null, Queued)
          && StateOf(jobs) == Stored(old(StateOf(jobs)), pid, r.value, now)
          && StateOf(callbacks) == Stored(old(StateOf(callbacks)), pid, callback, now)
          && StateOf(requests) == Stored(old(StateOf(requests)), requestId, pid, now)
          && calls == old(calls) + [(callback, r.value.View())]
    {
      bound := InPlace(d, sid, requestId);
      var sub := Submission(d, sid, requestId, response);
      if sub.Err? {
        return Err(sub.error), bound;
      }
      var task := Admit(sub.value.0, requestId, sid, sub.value.1, callback, now);
      r := Ok(task);
    }

    /** The tail of `run_workflow`: a new queued job, registered and reported to its callback. */
    method Admit(pid: string, requestId: string, sid: string, bound: Descriptor, callback: Connections.CallbackId,
                 now: int) returns (task: WorkflowTask)
      requires Valid()
      modifies this`calls, jobs, callbacks, requests
      ensures Valid()
      ensures fresh(task) && task.View() == TaskView(pid, requestId, sid, bound, Null, Queued)
      ensures StateOf(jobs) == Stored(old(StateOf(jobs)), pid, task, now)
      ensures StateOf(callbacks) == Stored(old(StateOf(callbacks)), pid, callback, now)
      ensures StateOf(requests) == Stored(old(StateOf(requests)), requestId, pid, now)
      ensures calls == old(calls) + [(callback, task.View())]
    {
      task := new WorkflowTask(pid, requestId, sid, bound);
      Register(task, callback, now);
      calls := calls + [(callback, task.View())];
    }

    /** The three `set`s of a new job in `run_workflow`. */
    method Register(task: WorkflowTask, callback: Connections.CallbackId, now: int)
      requires Valid()
      modifies jobs, callbacks, requests
      ensures Valid()
      ensures StateOf(jobs) == Stored(old(StateOf(jobs)), task.promptId, task, now)
      ensures StateOf(callbacks) == Stored(old(StateOf(callbacks)), task.promptId, callback, now)
      ensures StateOf(requests) == Stored(old(StateOf(requests)), task.requestId, task.promptId, now)
    {
      SetJob(task, now);
      SetCallback(task.promptId, callback, now);
      SetRequest(task.requestId, task.promptId, now);
    }

    method SetJob(task: WorkflowTask, now: int)
      requires Valid()
      modifies jobs
      ensures Valid()
      ensures StateOf(jobs) == Stored(old(StateOf(jobs)), task.promptId, task, now)
    {
      jobs.Set(task.promptId, task, now);
    }

    method SetCallback(p: string, callback: Connections.CallbackId, now: int)
      requires Valid()
      modifies callbacks
      ensures Valid()
      ensures StateOf(callbacks) == Stored(old(StateOf(callbacks)), p, callback, now)
    {
      callbacks.Set(p, callback, now);
    }

    method SetRequest(requestId: string, p: string, now: int)
      requires Valid()
      modifies requests
      ensures Valid()
      ensures StateOf(requests) == Stored(old(StateOf(requests)), requestId, p, now)
    {
      requests.Set(requestId, p, now);
    }

    /** `_get_host_port`: the captured address, if the line has one. */
    method GetHostPort(line: string)
      modifies this`address
      ensures address == if Captured(line).Some? then Captured(line) else old(address)
    {
      var m := Captured(line);
      if m.Some? {
        address := m;
      }
    }

    /** `stop`.  `exited` tells whether the process has already exited and
        `raised` whether signalling or waiting for it raises. */
    method Stop(exited: bool, raised: bool) returns (st: ComfyUIStatus)
      modifies this`process, this`monitorStatusTask, this`streamTasks, this`cancelled
      ensures old(process).None? || exited ==>
        st == NotRunning && process == old(process) && monitorStatusTask == old(monitorStatusTask)
        && streamTasks == old(streamTasks) && cancelled == old(cancelled)
      ensures old(process).Some? && !exited ==>
        && st == (if raised then Error else NotRunning)
        && process.None? && monitorStatusTask.None? && streamTasks == []
        && cancelled == old(cancelled) + Cancels(old(monitorStatusTask)) + old(streamTasks)
    {
      if process.None? || exited {
        return NotRunning;
      }
      process := None;
      if monitorStatusTask.Some? {
        cancelled := cancelled + [monitorStatusTask.value];
        monitorStatusTask := None;
      }
      CancelStreamTasks();
      streamTasks := [];
      st := if raised then Error else NotRunning;
    }

    /** The stream-task loop of `stop`: every stream task is cancelled, in order. */
    method CancelStreamTasks()
      modifies this`cancelled
      ensures cancelled == old(cancelled) + streamTasks
    {
      var i := 0;
      while i < |streamTasks|
        invariant 0 <= i <= |streamTasks|
        invariant cancelled == old(cancelled) + streamTasks[..i]
      {
        cancelled := cancelled + [streamTasks[i]];
        i := i + 1;
      }
      assert streamTasks[..i] == streamTasks;
    }
  }

  /** The cancellation of the status monitor, if there is one. */
  function Cancels(task: Option<Connections.Handle>): seq<Connections.Handle>
  {
    if task.Some? then [task.value] else []
  }
}
