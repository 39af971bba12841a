# ComfyAPI bookkeeping, modelled in Dafny

ComfyAPI is a FastAPI service that runs a ComfyUI engine. It proxies client websockets to the engine and runs API-format workflows on it. Finished images are streamed back over the engine's own websocket server. This project models the bookkeeping inside that orchestration code, with the sockets, processes and locks taken away. What remains is sequential operations over maps, lists, a heap and byte strings.

- **`Collections`** (`timeout_map.dfy`): the idle-expiry dictionary `TimeoutMap`. It is a class holding:
  - the value map;
  - the timestamps;
  - the insertion order that `keys()` returns;
  - the `heapq` list, kept as a sequence sorted by Python's tuple order.
  
  `cleanup` is proved against a reference function `Sweep`.
- **`Connections`** (`connection_manager.dfy`): `ConnectionManager`.
  - It holds three `TimeoutMap`s: clients, backend connections and forwarding tasks.
  - It holds two id dictionaries that must stay mutual inverses.
  - Websockets are opaque handles. Closing, cancelling, sending and the connection-close callbacks are recorded as sets and logs.
- **`ComfyManager`** (`comfyui_manager.dfy`):
  - the status-message handling of `_monitor_status_socket`;
  - the input and output binding and job registration of `run_workflow`;
  - `_get_host_port` with `COMFYUI_ADDRESS_REGEX`;
  - the state reset of `stop`.
  
  A descriptor's `nodes` is a view of its `workflow_json`, as in the source, where both share the same dicts.
- **`WorkflowAnalysis`** (`workflow_analysis.dfy`):
  - `analyze_workflow` over a parsed JSON value (`json.dfy`); the edge loop is a method;
  - the two loops of `get_workflows`.
- **`SocketIo`** and **`Output`** (`socket_io.dfy`, `output.dfy`): the binary preview framing, the `sockets` registry of the custom-node websocket server, and the `ComfyApiImageOutput` node.
- **`Workspace`** (`workspace.dfy`): the workspace logic over an abstract file tree and an abstract hash function. It covers:
  - the dependency-install gate over an upsert table;
  - the requirements fingerprint;
  - the workspace listing;
  - backup naming and restore selection;
  - initialisation.
- **`Files`**, **`Config`**, **`Auth`** (`files.dfy`, `config.dfy`, `auth.dfy`):
  - the tar member path check and `extract_tar_gz`;
  - the settings paths and the API-key rewrite of the `.env` file;
  - the API-key check and the client-address rule.

`wrappers.dfy` (Option/Result) and `strings.dfy` are shared helpers. `strings.dfy` holds Python's string order, prefix tests and the hex form of a uuid.

Clocks, uuids, hash functions, HTTP responses, installer outcomes and directory listings are parameters. They stand in for the injected time function, `uuid4`, md5, aiohttp, `ensure_node_reqs` and the filesystem.

## Model

| member | source | states |
|---|---|---|
| Collections.InsertMultiset | src/utils/collections.py:43 | a heap push adds exactly the one new `(expiry, key)` entry and loses none |
| Collections.InsertSorted | src/utils/collections.py:43 | a push keeps the heap ordered; the least entry afterwards is the new entry or the old least one |
| Collections.SweepSound | src/utils/collections.py:84-86 | `cleanup` is sound: every key it collects is still stored and has been idle for at least the timeout at `now` |
| Collections.Sweep | src/utils/collections.py:75-91 | a sweep collects at most one key per heap entry, and only keys that have an entry due at `now` |
| Collections.SweepAfterPops | src/utils/collections.py:79-91 | popping keys between sweeps loses none of the rest: a key a sweep would collect that is still stored is collected from the smaller registry too |
| Collections.SweepSorted | src/utils/collections.py:79-91 | the heap a sweep leaves is still a heap |
| Collections.SweepCovers | src/utils/collections.py:87-91 | a key that is not collected keeps its current-expiry entry on the heap, so a later sweep sees it |
| Collections.SweepStopsAtRefreshedKey | src/utils/collections.py:87-91 | `cleanup` is not complete. Keys `a` and `b` are set at 0 with timeout 10, and `a` is refreshed at 5. A sweep at 12 re-pushes `a` and stops, leaving the idle `b` in place. |
| Collections.EvictionsOncePerKey | src/utils/collections.py:93-94 | the pop loop hands each key to the eviction callback at most once, with the value stored under it, even when the heap held duplicate entries for the key |
| Collections.EvictionsCover | src/utils/collections.py:93-94 | every collected key that is still stored when its turn comes reaches the callback |
| Collections.Evictions | src/utils/collections.py:93-94 | at most one callback per collected key, and none without a callback |
| Collections.PushConsistent | src/utils/collections.py:41-43 | stamping a key and pushing its entry keeps the bookkeeping. The order lists each key once, the heap stays sorted, and every key has its current-expiry entry on the heap. |
| Collections.PopConsistent | src/utils/collections.py:93-94 | popping collected keys restores the bookkeeping, even for keys whose heap entries the sweep already took |
| Collections.SetKeeps | src/utils/collections.py:37-43 | `set` keeps the map invariant, so values and timestamps have the same keys |
| Collections.RefreshKeeps | src/utils/collections.py:49-55 | `refresh` of a stored key keeps the map invariant |
| Collections.RemoveKeeps | src/utils/collections.py:57-61 | removing keys from both dictionaries restores the invariant, even when their heap entries are already gone |
| Collections.SweepConsistent | src/utils/collections.py:75-91 | after the heap loop, every key except the collected ones still has its entry on the heap |
| Collections.SweepHeap | src/utils/collections.py:75-91 | the `while` loop computes exactly the heap and collected keys of the reference sweep: due entries are popped, entries of removed keys skipped, idle keys collected, and the first refreshed key is re-pushed and ends the loop |
| Collections.TimeoutMap.constructor | src/utils/collections.py:15-31 | a new map is empty and satisfies the invariant |
| Collections.TimeoutMap.GetKeys | src/utils/collections.py:33-35 | `keys()` lists every stored key exactly once, in insertion order |
| Collections.TimeoutMap.Set | src/utils/collections.py:37-43 | `set` stores the value, stamps the key with `now` and pushes its expiry `now + timeout`; the invariant is kept |
| Collections.TimeoutMap.Get | src/utils/collections.py:45-47 | `get` returns the stored value, or None exactly when the key is absent |
| Collections.TimeoutMap.Refresh | src/utils/collections.py:49-55 | for a stored key, `refresh` changes only its timestamp and pushes one entry. For an absent key, it changes nothing. |
| Collections.TimeoutMap.RestartIdle | src/utils/collections.py:53-55 | a stored key is restamped at `now` and its new expiry pushed, keeping the invariant |
| Collections.TimeoutMap.Pop | src/utils/collections.py:57-66 | `pop` removes the key from both dictionaries and returns its value or None. The callback fires exactly when one is installed and a value was removed. Popping an absent key changes nothing. |
| Collections.TimeoutMap.CollectExpired | src/utils/collections.py:75-91 | the locked part of `cleanup` is the reference sweep on the current heap and timestamps |
| Collections.TimeoutMap.Cleanup | src/utils/collections.py:68-94 | `cleanup` removes exactly the swept keys from values, timestamps and order, keeps the invariant, and runs the callbacks of `Evictions` in order |
| Collections.TimeoutMap.PopAll | src/utils/collections.py:93-94 | the pop loop over the collected keys removes them and fires one callback per key still stored |
| Collections.PopStep | src/utils/collections.py:93-94 | one turn of the pop loop fires the callback exactly for a key still stored, with its value |
| Connections.InverseRemove | src/comfyui/connection_manager.py:92-95 | popping a pair from both id dictionaries keeps them mutual inverses |
| Connections.InverseAdd | src/comfyui/connection_manager.py:325-326 | pairing an unpaired client id with an unpaired backend id keeps the dictionaries mutual inverses |
| Connections.NoticesCallEachOnce | src/comfyui/connection_manager.py:104-106 | every registered close callback is called once, in order, with the evicted id |
| Connections.Delivery | src/comfyui/connection_manager.py:202-207 | text goes out as a text frame and bytes as a binary frame; any other payload sends nothing |
| Connections.ForwardedBytes | src/comfyui/connection_manager.py:289 | `message[8:]` has length `len - 8`, or 0 for a short message, and is what follows the first 8 bytes |
| Connections.ForwardedBytesDropsHeader | src/comfyui/connection_manager.py:289 | forwarding removes exactly an 8-byte header and keeps the body |
| Connections.ConnectionManager.constructor | src/comfyui/connection_manager.py:36-64 | three empty registries, client and backend ones with the given timeout, no pairs |
| Connections.ConnectionManager.AddConnectionCloseCallback | src/comfyui/connection_manager.py:153-159 | the callback is appended to the list |
| Connections.ConnectionManager.Notify | src/comfyui/connection_manager.py:136-139 | the close-callback log grows by one call per callback, with the id |
| Connections.ConnectionManager.CancelTask | src/comfyui/connection_manager.py:66-76 | the evicted task is cancelled |
| Connections.ConnectionManager.ReleaseClient | src/comfyui/connection_manager.py:99-106 | the client websocket is closed and the callbacks run with the client id |
| Connections.ConnectionManager.ReleaseServer | src/comfyui/connection_manager.py:129-139 | the forwarding task is popped and cancelled, the backend websocket closed, and the callbacks run with the backend id |
| Connections.ConnectionManager.EvictClient | src/comfyui/connection_manager.py:78-106 | evicting a paired client removes the pair from both dictionaries, pops the backend connection (closing it, cancelling its task, calling back with its id), then closes the client and calls back with the client id. An unpaired client is only closed and reported. |
| Connections.ConnectionManager.DropServerOf | src/comfyui/connection_manager.py:92-97 | the pair goes first, so the backend callback finds no partner and the cross-eviction stops |
| Connections.ConnectionManager.EvictServer | src/comfyui/connection_manager.py:108-139 | evicting a backend connection cancels its task and removes a pair from both dictionaries. It pops the paired client, closing it and reporting both ids. |
| Connections.ConnectionManager.DropClientOf | src/comfyui/connection_manager.py:122-127 | the pair goes first, so the client callback finds no partner |
| Connections.ConnectionManager.Accept | src/comfyui/connection_manager.py:141-151 | the client is stored under the 32-hex-digit form of the fresh uuid, stamped at `now` |
| Strings.UuidStrWithoutDashes | src/comfyui/connection_manager.py:149 | the dash-free string form of a uuid is its 32-digit hex form, the same id `uuid4().hex` gives elsewhere |
| Connections.ConnectionManager.ConnectToBackend | src/comfyui/connection_manager.py:258-273 | the backend websocket and its forwarding task are registered under the backend id. The websocket is stamped at the injected clock `now`, the forwarding task at the forwarding-task registry's clock `wallNow` |
| Connections.ConnectionManager.RegisterServer | src/comfyui/connection_manager.py:266 | the backend websocket is stored and stamped |
| Connections.ConnectionManager.RegisterTask | src/comfyui/connection_manager.py:270-271 | the forwarding task is stored and stamped at `wallNow`, the forwarding-task registry's own clock |
| Connections.ConnectionManager.Pair | src/comfyui/connection_manager.py:325-326 | both directions of the pair are recorded together |
| Connections.ConnectionManager.AcceptClientConnection | src/comfyui/connection_manager.py:308-336 | after acceptance, client, backend connection, task and both directions of the pair are registered and the client is greeted with `{"uuid": cid}`. A client gone before the greeting is torn down completely, backend side included. |
| Connections.ConnectionManager.Greet | src/comfyui/connection_manager.py:328-334 | the greeting is sent once when the client is reachable; a disconnect during it disconnects the client |
| Connections.ConnectionManager.DisconnectPaired | src/comfyui/connection_manager.py:161-174 | disconnecting a paired client removes the client, the pair, the backend connection and its task, and closes or cancels all three |
| Connections.ConnectionManager.Admit | src/comfyui/connection_manager.py:319-326 | client, backend connection, forwarding task and both directions of the pair are registered together; the forwarding task is stamped at `wallNow` |
| Connections.ConnectionManager.Disconnect | src/comfyui/connection_manager.py:161-174 | the client registry is tried first and the backend registry only for a non-client id. Whatever is removed is closed along with its partner. A backend connection that goes loses its pairing and its forwarding task, and a task that goes is cancelled. An unknown id changes no state. |
| Connections.ConnectionManager.UpdateActivityAsWritten | src/comfyui/connection_manager.py:409-415 | only the client registry is refreshed |
| Connections.ConnectionManager.UpdateActivity | src/comfyui/connection_manager.py:409-415 | the corrected `_update_activity` (see Findings), as evidently intended: activity on a client also restarts the idle periods of its backend connection and of its forwarding task, the forwarding task at `wallNow`; unknown ids change nothing |
| Connections.ConnectionManager.RefreshServer | src/comfyui/connection_manager.py:409-415 | a backend connection is restamped at `now` |
| Connections.ConnectionManager.RefreshTask | src/comfyui/connection_manager.py:409-415 | a forwarding task is restamped at `wallNow` |
| Connections.ConnectionManager.SendClientMessage | src/comfyui/connection_manager.py:189-209 | a known client is refreshed by `_update_activity` as written, which stamps the client alone, and is then sent the text or bytes frame; other payloads are rejected after the refresh. The backend and task registries are untouched. An unknown id sends nothing and changes nothing. |
| Connections.ConnectionManager.Deliver | src/comfyui/connection_manager.py:202-207 | the frame of `Delivery`, or the rejection of a payload that is neither text nor bytes |
| Connections.ConnectionManager.ForwardBackendMessage | src/comfyui/connection_manager.py:286-292 | a binary backend frame reaches the client without its first 8 bytes; text frames are never forwarded |
| Connections.ConnectionManager.CloseAllConnections | src/comfyui/connection_manager.py:371-381 | both registries and both pair dictionaries end empty, every websocket registered at the start is closed, and the forwarding task of every backend connection registered at the start is cancelled and unregistered |
| Connections.ConnectionManager.DisconnectClients | src/comfyui/connection_manager.py:375-377 | every listed client is disconnected and closed, with its pair; no pairing is left |
| Connections.ConnectionManager.DisconnectServers | src/comfyui/connection_manager.py:379-381 | every backend connection still listed is disconnected and closed, and its forwarding task is cancelled and unregistered |
| Connections.ConnectionManager.DisconnectServer | src/comfyui/connection_manager.py:170-174 | with no clients left, `disconnect` removes and closes only the backend connection |
| Connections.ConnectionManager.CleanupClients | src/comfyui/connection_manager.py:390 | exactly the clients the sweep collects are removed and closed, and lose their pairing |
| Connections.ConnectionManager.EvictClients | src/comfyui/connection_manager.py:78-106 | the eviction callback runs for each popped client |
| Connections.ConnectionManager.EvictClientStep | src/comfyui/connection_manager.py:78-106 | one client's callback keeps the manager invariant |
| Connections.ConnectionManager.CleanupServers | src/comfyui/connection_manager.py:391 | exactly the backend connections the sweep collects are removed and closed, their tasks cancelled, and their paired clients removed |
| Connections.ConnectionManager.EvictServers | src/comfyui/connection_manager.py:108-139 | the eviction callback runs for each popped backend connection |
| Connections.ConnectionManager.EvictServerStep | src/comfyui/connection_manager.py:108-139 | one backend callback keeps the manager invariant |
| Connections.ConnectionManager.CleanupTasks | src/comfyui/connection_manager.py:392 | the forwarding-task registry is swept at its own clock `wallNow` (`time.time`, not the injected clock): exactly the forwarding tasks the sweep collects are removed and cancelled |
| Connections.ConnectionManager.CancelTasks | src/comfyui/connection_manager.py:66-76 | each popped task is cancelled |
| Connections.ConnectionManager.ConnectionCleanup | src/comfyui/connection_manager.py:383-394 | every client the client sweep collects is gone and closed, and every client removed was closed. Every backend connection the server sweep would collect from the registry as it was is gone, closed, unpaired and without its task. Every task the forwarding-task sweep (at `wallNow`) would collect from the registry as it was is gone and cancelled. When nothing is idle, clients and closed sockets are unchanged. |
| Connections.ConnectionManager.SweepConnections | src/comfyui/connection_manager.py:390-391 | the client sweep and then the backend sweep. Every backend connection the server sweep would collect from the registry as it was ends closed, unpaired and without its task, whether an idle client's callback took it down first or the sweep still finds it idle. |
| Connections.SweepIdleKey | src/utils/collections.py:84-86 | a key stamped at `t0` and never refreshed is collected by a sweep at or after `t0 + timeout` |
| Connections.SweepRefreshedKey | src/utils/collections.py:87-91 | a key refreshed at `t1` survives a sweep before `t1 + timeout` |
| Connections.AcceptedClient | src/comfyui/connection_manager.py:308-336 | a new manager with one accepted, paired and greeted client |
| Connections.IdleClientReaped | src/comfyui/connection_manager.py:383-394 | a client accepted at `t0` and idle since is gone and closed after a cleanup at or after `t0 + timeout` |
| Connections.ActiveAgainAsWritten | src/comfyui/connection_manager.py:409-415 | with the refresh as written, a sweep before `t1 + timeout` collects no client, but the backend connection is never restamped |
| Connections.ActiveAgain | src/comfyui/connection_manager.py:409-415 | with the corrected refresh, neither the client nor the backend connection is collected before `t1 + timeout` |
| Connections.ActiveClientReapedAsWritten | src/comfyui/connection_manager.py:409-415 | as written, a client active at `t1` is still closed by a cleanup before `t1 + timeout`: its stale backend connection is reaped and takes the client with it |
| Connections.ActiveClientKept | src/comfyui/connection_manager.py:409-415 | with the corrected refresh, the active client survives that cleanup and its websocket stays open |
| ComfyManager.Digits | src/comfyui/comfyui_manager.py:27 | a greedy `\d+` takes the longest run of ASCII digits (see Left out for other Unicode digits) |
| ComfyManager.Field | src/comfyui/comfyui_manager.py:27 | a number and its separator, which split the text exactly |
| ComfyManager.Numbers | src/comfyui/comfyui_manager.py:27 | one number per separator plus one, all numbers, and the rest does not start with a digit |
| ComfyManager.ParseAddress | src/comfyui/comfyui_manager.py:27 | a parsed address has five numeric parts and stops before any further digit |
| ComfyManager.ParseAddressWith | src/comfyui/comfyui_manager.py:27 | the same for any four separators |
| ComfyManager.NumbersText | src/comfyui/comfyui_manager.py:27 | the text read is the numbers joined by the separators, followed by the rest |
| ComfyManager.ParseAddressText | src/comfyui/comfyui_manager.py:27 | a parsed address is exactly the `http://a.b.c.d:port` text at the front of the input |
| ComfyManager.ParsedText | src/comfyui/comfyui_manager.py:27 | the same for any separators |
| ComfyManager.DigitsOf | src/comfyui/comfyui_manager.py:27 | a run of digits before a non-digit is read whole |
| ComfyManager.FieldOf | src/comfyui/comfyui_manager.py:27 | a number followed by its separator is read back as one field |
| ComfyManager.NumbersOf | src/comfyui/comfyui_manager.py:27 | joined numbers are read back exactly |
| ComfyManager.ParseAddressOf | src/comfyui/comfyui_manager.py:27 | round trip: an address followed by a non-digit parses back to the same five parts and the same rest |
| ComfyManager.Search | src/comfyui/comfyui_manager.py:281 | the search returns a position where a match starts, and the address captured there |
| ComfyManager.SearchFirst | src/comfyui/comfyui_manager.py:281 | the search finds the leftmost match |
| ComfyManager.Captured | src/comfyui/comfyui_manager.py:281-283 | a captured group is always the text of a valid address |
| ComfyManager.AddressCaptured | src/comfyui/comfyui_manager.py:279-284 | for the line the engine prints (`... go to: http://a.b.c.d:port` with no `g` before the marker and no digit after the address), the capture is exactly the address |
| ComfyManager.ComfyUIManager.GetHostPort | src/comfyui/comfyui_manager.py:279-284 | a matching line sets the address to the capture; any other line leaves it unchanged |
| ComfyManager.Node | src/comfyui/workflow_analysis.py:33 | `nodes[id]` is an entry of the workflow that has a `class_type` |
| ComfyManager.NodeIsTableEntry | src/comfyui/workflow_analysis.py:33 | the node table holds the workflow's own node entries, so writes to `nodes` reach `workflow_json` |
| ComfyManager.AssignEffect | src/comfyui/comfyui_manager.py:178 | one assignment `nodes[n]["inputs"][k] = v` changes only key `k` of node `n`'s inputs. The workflow keeps its keys, the other nodes and the other fields. |
| ComfyManager.Targets | src/comfyui/comfyui_manager.py:177-182 | exactly the nodes some assignment names |
| ComfyManager.AssignmentsUntouched | src/comfyui/comfyui_manager.py:177-182 | assignments keep the workflow's keys and every node nobody assigns into |
| ComfyManager.AssignmentsKeepFields | src/comfyui/comfyui_manager.py:177-182 | assignments change no node field other than `inputs` |
| ComfyManager.AssignmentsLastWins | src/comfyui/comfyui_manager.py:177-182 | the last assignment to a key of a node is what the key holds at the end |
| ComfyManager.InputWrites | src/comfyui/comfyui_manager.py:177-178 | one assignment per input, in order, of its value to `input_id` |
| ComfyManager.OutputWrites | src/comfyui/comfyui_manager.py:180-182 | two assignments per output, in order: `output_id`, then `client_id` |
| ComfyManager.OutputWriteAt | src/comfyui/comfyui_manager.py:180-182 | assignment `m` of the output loop belongs to output `m / 2` |
| ComfyManager.BoundOutputs | src/comfyui/comfyui_manager.py:173-174 | only `outputs[0]` changes, to the connection `sid` and the request id |
| ComfyManager.OutputWritesKeys | src/comfyui/comfyui_manager.py:180-182 | the output loop never writes `input_id` |
| ComfyManager.WritesAvoid | src/comfyui/comfyui_manager.py:177-182 | no assignment targets a node that no input and no output names |
| ComfyManager.InputWriteLast | src/comfyui/comfyui_manager.py:177-182 | an input whose node no later input names makes the last write to its `input_id` |
| ComfyManager.OutputWritesLast | src/comfyui/comfyui_manager.py:180-182 | an output whose node no other output names makes the last writes to its two keys |
| ComfyManager.OutputFields | src/comfyui/comfyui_manager.py:180-182 | after both loops, such an output's node holds its id and connection |
| ComfyManager.BindingShape | src/comfyui/comfyui_manager.py:173-182 | the binding changes only the workflow and `outputs[0]`. `outputs[0]` becomes `(sid, request_id)`. The workflow keeps its keys and every node no input or output names. |
| ComfyManager.BindingInput | src/comfyui/comfyui_manager.py:177-178 | each input whose node no later input names holds its value under `input_id` |
| ComfyManager.BindingOutput | src/comfyui/comfyui_manager.py:180-182 | each output whose node no other output names holds its id under `output_id` and its connection under `client_id`. For `outputs[0]`, these are the request id and `sid`. |
| ComfyManager.BindingKeepsFields | src/comfyui/comfyui_manager.py:177-182 | no node field other than `inputs` changes |
| ComfyManager.Binding | src/comfyui/comfyui_manager.py:173-182 | without outputs the binding raises `IndexError`; a successful binding changes only the graph and the outputs, keeps the output count, and binds the first output to the connection and the request id |
| ComfyManager.Applied | src/comfyui/comfyui_manager.py:177-182 | when every assignment succeeds, what is left in place is their result |
| ComfyManager.AppliedPrefix | src/comfyui/comfyui_manager.py:177-182 | what the assignments leave in place is the result of a prefix of them that succeeds; unless it is all of them, the next assignment is the one that raises |
| ComfyManager.InPlace | src/comfyui/comfyui_manager.py:173-182 | the caller's descriptor after the binding step, whether or not the run is admitted: unchanged without outputs; otherwise the first output is bound, only graph and outputs change, and it equals the binding when that succeeds |
| ComfyManager.BoundInputCarriesOver | src/comfyui/workflow_analysis.py:14 | the cached descriptor is reused: a node that a later request's inputs and the outputs do not name keeps the `input_id` written by the earlier request |
| ComfyManager.StatusForTypes | src/comfyui/comfyui_manager.py:335-347 | a status is set exactly for the six known types, never "queued". Success, error, interruption and a cached execution are exactly the types that end a job. |
| ComfyManager.StatusFor | src/comfyui/comfyui_manager.py:335-347 | only the six known message types set a status, and none sets "queued" |
| ComfyManager.RouteOf | src/comfyui/comfyui_manager.py:321-325 | a message routed to a prompt is a dict with a non-empty `prompt_id` and its own `type`; a non-dict message raises |
| ComfyManager.RouteSkipsFalsy | src/comfyui/comfyui_manager.py:323-325 | a message without a truthy `prompt_id` is skipped |
| ComfyManager.OutcomeOf | src/comfyui/comfyui_manager.py:329-347 | the callback is reached exactly when the prompt has a job and a callback and the type is known, with the mapped status |
| ComfyManager.WorkflowTask.constructor | src/comfyui/comfyui_manager.py:38-44 | a task holds the given fields |
| ComfyManager.WorkflowTask.Update | src/comfyui/comfyui_manager.py:335-351 | the status becomes the mapped one. The executing node changes only for `executing`, to `data.node`. |
| ComfyManager.SubmissionAccepted | src/comfyui/comfyui_manager.py:184-198 | a submission succeeds exactly when the binding succeeds and the reply is a 200 whose body has a non-empty string `prompt_id`. It yields that id with the bound descriptor. |
| ComfyManager.Submission | src/comfyui/comfyui_manager.py:184-199 | a binding failure is raised before any request; an accepted submission had a 200 reply and yields a non-empty prompt id with the bound descriptor |
| ComfyManager.ComfyUIManager.constructor | src/comfyui/comfyui_manager.py:47-62 | empty registries with the 24-hour timeout, no process and no tasks |
| ComfyManager.ComfyUIManager.HandleStatusMessage | src/comfyui/comfyui_manager.py:321-359 | the prompt's job is refreshed. A known type updates the job and calls its callback once with it. A terminal status pops the prompt from the job and callback registries and its request id from the request registry. Anything else changes no task and calls nothing. |
| ComfyManager.ComfyUIManager.Deliver | src/comfyui/comfyui_manager.py:329-359 | the lookups, the update and the pops, after the refresh |
| ComfyManager.ComfyUIManager.Notify | src/comfyui/comfyui_manager.py:335-359 | a registered job gets the status, its callback is called with it, and a finished job is popped |
| ComfyManager.ComfyUIManager.Finish | src/comfyui/comfyui_manager.py:356-359 | a finished job leaves all three registries |
| ComfyManager.ComfyUIManager.RunWorkflow | src/comfyui/comfyui_manager.py:162-204 | on success, a new queued task for the returned prompt id is entered in the three registries and its callback is called once with it. On any failure, no registry changes and nothing is called. Either way `bound` is the caller's descriptor with the in-place writes of the binding step. |
| ComfyManager.ComfyUIManager.Admit | src/comfyui/comfyui_manager.py:200-204 | the new task is registered and reported |
| ComfyManager.ComfyUIManager.Register | src/comfyui/comfyui_manager.py:201-203 | the three `set`s of a new job |
| ComfyManager.ComfyUIManager.SetJob | src/comfyui/comfyui_manager.py:201 | the job registry stores the new job |
| ComfyManager.ComfyUIManager.SetCallback | src/comfyui/comfyui_manager.py:202 | the callback registry stores the callback |
| ComfyManager.ComfyUIManager.SetRequest | src/comfyui/comfyui_manager.py:203 | the request registry maps the request id to the prompt |
| ComfyManager.ComfyUIManager.Stop | src/comfyui/comfyui_manager.py:118-151 | with no live process, `stop` reports not running and changes nothing. Otherwise, whatever happens, the process is gone, the monitor and every stream task are cancelled and the stream-task list is empty. The result is error exactly when stopping raised. |
| ComfyManager.ComfyUIManager.CancelStreamTasks | src/comfyui/comfyui_manager.py:144-145 | every stream task is cancelled, in order |
| WorkflowAnalysis.NodesById | src/comfyui/workflow_analysis.py:33 | the node table holds exactly the top-level entries that have a `class_type` |
| WorkflowAnalysis.NodesByIdKeys | src/comfyui/workflow_analysis.py:33 | every node id is a key of the workflow |
| WorkflowAnalysis.NodesByIdUnique | src/comfyui/workflow_analysis.py:33 | node ids are distinct |
| WorkflowAnalysis.CountersKeys | src/comfyui/workflow_analysis.py:36-37 | both counters have exactly the node ids as keys, in node order |
| WorkflowAnalysis.CountersHold | src/comfyui/workflow_analysis.py:36-49 | each node's counter holds the number of counted edges into it (`incoming`) or out of it (`outgoing`) |
| WorkflowAnalysis.CountersGet | src/comfyui/workflow_analysis.py:36-49 | looking a node up gives its count; other ids are absent |
| WorkflowAnalysis.InCountersBump | src/comfyui/workflow_analysis.py:48 | `incoming[to] += 1` for a counted edge gives the counters with that edge |
| WorkflowAnalysis.OutCountersBump | src/comfyui/workflow_analysis.py:49 | `outgoing[from] += 1` for a counted edge gives the counters with that edge |
| WorkflowAnalysis.UncountedStep | src/comfyui/workflow_analysis.py:47 | an edge from an unknown node changes no counter |
| WorkflowAnalysis.CountEdge | src/comfyui/workflow_analysis.py:43-49 | one reference input adds its edge; both counters go up exactly when the source is a known node |
| WorkflowAnalysis.CountNodeEdges | src/comfyui/workflow_analysis.py:41-49 | the inner loop adds the node's edges and keeps the counters exact |
| WorkflowAnalysis.CountEdges | src/comfyui/workflow_analysis.py:39-49 | the edge loop yields one edge per reference input, whether or not its source is known, and counters that count exactly the edges from known nodes |
| WorkflowAnalysis.EdgesEndAtNodes | src/comfyui/workflow_analysis.py:45 | every edge points into a node of the table |
| WorkflowAnalysis.CountersAddUp | src/comfyui/workflow_analysis.py:42-49 | both counter sums equal the number of edges from a known node |
| WorkflowAnalysis.EdgeCountersBalance | src/comfyui/workflow_analysis.py:42-49 | sum(incoming) = sum(outgoing) = the number of edges whose source is a known node |
| WorkflowAnalysis.SourceIds | src/comfyui/workflow_analysis.py:52-53 | sources are exactly the nodes with no counted incoming edge and non-empty `inputs`. Such a node with no `inputs` key raises. |
| WorkflowAnalysis.SinkIds | src/comfyui/workflow_analysis.py:54 | sinks are exactly the nodes with no counted outgoing edge |
| WorkflowAnalysis.LiteralInputs | src/comfyui/workflow_analysis.py:60-64 | a node's external parameters are exactly its inputs that are not references |
| WorkflowAnalysis.ExternalParameters | src/comfyui/workflow_analysis.py:57-66 | an entry exists exactly for the nodes with at least one non-reference input, holding those inputs |
| WorkflowAnalysis.InputsPartition | src/comfyui/workflow_analysis.py:43-64 | every input of every node is exactly one of: a reference, which yields an edge, or a literal, which is an external parameter |
| WorkflowAnalysis.InputNodes | src/comfyui/workflow_analysis.py:69 | input nodes are exactly the nodes whose `class_type` starts with `ComfyUIDeployExternal` |
| WorkflowAnalysis.OutputNodes | src/comfyui/workflow_analysis.py:70-75 | output nodes are exactly the nodes matching one of the four output prefixes |
| WorkflowAnalysis.Outputs | src/comfyui/workflow_analysis.py:85-87 | one output record per output node, with empty connection and output ids |
| WorkflowAnalysis.BuildInputs | src/comfyui/workflow_analysis.py:80-84 | one input record per input node, in order. A missing key or a non-string display name or description fails. |
| WorkflowAnalysis.Analysis | src/comfyui/workflow_analysis.py:26-88 | a workflow is rejected as not an API workflow exactly when it has a top-level `nodes` key; a descriptor keeps the id and the workflow |
| WorkflowAnalysis.NodeAnalysis | src/comfyui/workflow_analysis.py:33-88 | the rest of the analysis never reports the `nodes` rejection |
| WorkflowAnalysis.AnalysisGraph | src/comfyui/workflow_analysis.py:33-88 | the descriptor's nodes, edges, sources, sinks, inputs and outputs are exactly those characterised above |
| WorkflowAnalysis.AnalyzeWorkflow | src/comfyui/workflow_analysis.py:14-88 | the method with the edge loop computes the reference analysis |
| WorkflowAnalysis.AnalyzeNodes | src/comfyui/workflow_analysis.py:33-88 | the same for the part after the `nodes` test |
| WorkflowAnalysis.LastDot | src/comfyui/workflow_analysis.py:110 | the position of the last `.` of a file name, or -1 |
| WorkflowAnalysis.Stem | src/comfyui/workflow_analysis.py:110 | the stem followed by the suffix is the name |
| WorkflowAnalysis.WorkflowFilesIn | src/comfyui/workflow_analysis.py:110 | only the `.json` files of a listing are considered |
| WorkflowAnalysis.LastWithStem | src/comfyui/workflow_analysis.py:106-119 | the last file with a stem, or none |
| WorkflowAnalysis.RegisterLaterWins | src/comfyui/workflow_analysis.py:108-110 | for a duplicate stem, the later file wins |
| WorkflowAnalysis.RegisterUnique | src/comfyui/workflow_analysis.py:106-110 | one entry per stem |
| WorkflowAnalysis.Register | src/comfyui/workflow_analysis.py:106-110 | every registered entry is a listed file stored under its own stem |
| WorkflowAnalysis.ValidWorkflowsSpec | src/comfyui/workflow_analysis.py:121-132 | the analysis loop fails exactly when some analysis raises an error other than ValueError; otherwise it lists each stem whose analysis finds inputs |
| WorkflowAnalysis.WorkflowsListing | src/comfyui/workflow_analysis.py:90-135 | a workflow is listed, under the stem of the last `.json` file that has it, exactly when that file's analysis raises no error and finds at least one input |
| WorkflowAnalysis.RegisterListing | src/comfyui/workflow_analysis.py:110 | the inner update registers a listing's `.json` files by stem |
| WorkflowAnalysis.CollectWorkflowFiles | src/comfyui/workflow_analysis.py:106-119 | the directory loop registers the `.json` files of every existing directory by stem, later ones overriding |
| WorkflowAnalysis.JudgeWorkflow | src/comfyui/workflow_analysis.py:125-132 | one file's analysis, with ValueError caught |
| WorkflowAnalysis.CheckWorkflows | src/comfyui/workflow_analysis.py:121-132 | the analysis loop computes the reference listing |
| WorkflowAnalysis.GetWorkflows | src/comfyui/workflow_analysis.py:90-135 | `get_workflows` computes the reference listing of both directories |
| SocketIo.PackU32 | custom_nodes/comfyapi_nodes/socket_io.py:163 | `struct.pack(">I", n)` is four bytes |
| SocketIo.UnpackU32 | custom_nodes/comfyapi_nodes/socket_io.py:163 | reading four bytes big-endian gives a 32-bit number |
| SocketIo.UnpackPack | custom_nodes/comfyapi_nodes/socket_io.py:163 | unpacking inverts packing |
| SocketIo.PackUnpack | custom_nodes/comfyapi_nodes/socket_io.py:163 | packing inverts unpacking |
| SocketIo.EncodeBytes | custom_nodes/comfyapi_nodes/socket_io.py:146-166 | the message is the 4-byte big-endian event followed by the data, of length `len(data) + 4`. A non-integer event, or one `struct` cannot pack, is rejected. |
| SocketIo.EncodeAsciiReplace | custom_nodes/comfyapi_nodes/socket_io.py:93 | one byte per character |
| SocketIo.StripTrailingNul | custom_nodes/comfyapi_nodes/socket_io.py:93 | a prefix of the input with no trailing NUL |
| SocketIo.RequestIdField | custom_nodes/comfyapi_nodes/socket_io.py:89-93 | the request-id field is always exactly 32 bytes |
| SocketIo.DecodeEncode | custom_nodes/comfyapi_nodes/socket_io.py:93 | ASCII text survives the replace-encoding |
| SocketIo.StripPadding | custom_nodes/comfyapi_nodes/socket_io.py:92 | stripping NULs removes exactly the padding after bytes that do not end in NUL |
| SocketIo.FieldOfShortAscii | custom_nodes/comfyapi_nodes/socket_io.py:89-93 | an ASCII id of at most 32 characters becomes its bytes followed by NUL padding |
| SocketIo.FieldOfLong | custom_nodes/comfyapi_nodes/socket_io.py:90 | a longer id is cut to its first 32 characters |
| SocketIo.RequestIdRoundTrip | custom_nodes/comfyapi_nodes/socket_io.py:89-93 | for an ASCII id of at most 32 characters not ending in NUL, stripping the padding and decoding gives the id back |
| SocketIo.TypeCode | custom_nodes/comfyapi_nodes/socket_io.py:103-109 | JPEG 1, PNG 2, WEBP 3, anything else 1 |
| SocketIo.ImageFrameEncodes | custom_nodes/comfyapi_nodes/socket_io.py:121 | the preview event always packs, so framing an image never fails |
| SocketIo.ImageFrameLayout | custom_nodes/comfyapi_nodes/socket_io.py:113-121 | an image frame is: event 1 in 4 bytes, the type code in 4 bytes, the 32-byte request-id field, then the image |
| SocketIo.ImageFrameForwarded | src/comfyui/connection_manager.py:289 | after the proxy drops 8 bytes, the client holds the request-id field and the image; the event tag and the type code are gone |
| SocketIo.ClientReadsPreview | custom_nodes/comfyapi_nodes/socket_io.py:89-121 | a client reading a forwarded preview gets back the request id it submitted, then the image |
| SocketIo.JsonDelivery | custom_nodes/comfyapi_nodes/socket_io.py:64-72 | one message exactly when the sid is non-empty, registered and open, to that sid's socket |
| SocketIo.BytesDelivery | custom_nodes/comfyapi_nodes/socket_io.py:138-143 | one message exactly when the sid is registered, open or not, to that sid's socket |
| SocketIo.Replaced | custom_nodes/comfyapi_nodes/socket_io.py:187-193 | a socket is replaced and closed exactly when the client id is non-empty, registered and its socket open |
| SocketIo.ComfyApiServer.constructor | custom_nodes/comfyapi_nodes/socket_io.py:50-53 | no sockets |
| SocketIo.ComfyApiServer.SendJson | custom_nodes/comfyapi_nodes/socket_io.py:55-74 | `send_json` delivers what `JsonDelivery` says |
| SocketIo.ComfyApiServer.SendBytes | custom_nodes/comfyapi_nodes/socket_io.py:128-143 | `send_bytes` fails exactly when encoding fails, sending nothing; otherwise it delivers what `BytesDelivery` says |
| SocketIo.ComfyApiServer.SendImage | custom_nodes/comfyapi_nodes/socket_io.py:76-126 | the image frame is delivered to a registered sid |
| SocketIo.ComfyApiServer.Connect | custom_nodes/comfyapi_nodes/socket_io.py:181-203 | an empty client id gets the fresh uuid's hex. The socket is stored under the sid, replacing (and closing, if open) any previous one, and greeted with its sid. |
| SocketIo.ComfyApiServer.Exit | custom_nodes/comfyapi_nodes/socket_io.py:221-224 | the sid entry is removed unconditionally |
| SocketIo.ReconnectReplaces | custom_nodes/comfyapi_nodes/socket_io.py:186-199 | a reconnect with the same client id closes the old socket, greets the new one, and later messages go to the new one |
| SocketIo.StaleExitUnregisters | custom_nodes/comfyapi_nodes/socket_io.py:221-224 | the exit of an older handler removes the id a newer connection holds, so that client is no longer reachable |
| Output.ValidateInputs | custom_nodes/comfyapi_nodes/output.py:32-40 | an id is accepted exactly when it is ASCII and at most 32 characters; non-ASCII ids are "could not be encoded", longer ASCII ids "too long" |
| Output.AcceptedIdUnchanged | custom_nodes/comfyapi_nodes/output.py:32-40 | an accepted id passes `send_image`'s truncation and ascii-replace unchanged |
| Output.UsualIdsAccepted | custom_nodes/comfyapi_nodes/output.py:15 | the default `output_id` and the 24-hex-digit ids the queue endpoint makes are accepted |
| Output.RunEffectsFrames | custom_nodes/comfyapi_nodes/output.py:50-55 | one frame per image, in batch order, all to the same client with the same request id |
| Output.RunPreviewsCarryId | custom_nodes/comfyapi_nodes/output.py:50-55 | for an accepted id not ending in NUL, each forwarded frame gives the client the request id and then that image |
| Output.Run | custom_nodes/comfyapi_nodes/output.py:42-57 | `run` issues `send_image` once per image, to the client id, with the request id |
| Workspace.SetUp | src/comfyui/comfyui_workspace.py:47-65 | creating the table changes no recorded status |
| Workspace.Upsert | src/comfyui/comfyui_workspace.py:93-111 | the last write for a fingerprint wins and no other row changes |
| Workspace.Gate | src/comfyui/comfyui_workspace.py:139-164 | the installer runs exactly when the fingerprint is non-empty and not recorded as installed. Its outcome is recorded for the fingerprint, and nothing else changes. |
| Workspace.RunsSkipInstalled | src/comfyui/comfyui_workspace.py:147-149 | once the fingerprint is recorded as installed, no later run attempts an install |
| Workspace.AtMostOneSuccessfulInstall | src/comfyui/comfyui_workspace.py:139-164 | with an unchanged fingerprint, the installer succeeds at most once over any number of runs |
| Workspace.DependencyDb.constructor | src/comfyui/comfyui_workspace.py:47-65 | the given table, no installs |
| Workspace.DependencyDb.IsDependenciesInstalled | src/comfyui/comfyui_workspace.py:68-90 | installed exactly when the database exists and holds a true row for the fingerprint |
| Workspace.DependencyDb.UpdateDependencyStatus | src/comfyui/comfyui_workspace.py:93-111 | the table becomes the upsert |
| Workspace.DependencyDb.InstallWorkspaceDependencies | src/comfyui/comfyui_workspace.py:114-164 | the table and install log follow `Gate` |
| Workspace.InsertPath | src/comfyui/comfyui_workspace.py:36 | insertion adds exactly the path |
| Workspace.SortPaths | src/comfyui/comfyui_workspace.py:36 | `sorted` keeps exactly the paths |
| Workspace.SortPathsSorted | src/comfyui/comfyui_workspace.py:36 | `sorted` sorts |
| Workspace.SortedUnique | src/comfyui/comfyui_workspace.py:36 | two sorted arrangements of the same paths are equal |
| Workspace.FingerprintSortedOrder | src/comfyui/comfyui_workspace.py:29-44 | the fingerprint hashes the contents in sorted path order, whatever order the search found them in |
| Workspace.FingerprintOrderFree | src/comfyui/comfyui_workspace.py:21-44 | two searches that find the same files give the same fingerprint |
| Workspace.CalculateCustomNodesHash | src/comfyui/comfyui_workspace.py:21-44 | the loop computes the fingerprint: the hash of the empty string without a directory or files, else of the sorted contents |
| Workspace.ListedInMembers | src/comfyui/comfyui_workspace.py:175-196 | an entry is listed exactly when it is one of the listed existing directories, or lies below one with no hidden component |
| Workspace.ListedMembers | src/comfyui/comfyui_workspace.py:18 | the listing covers only the five workspace directories and has no hidden entry |
| Workspace.GetWorkspacePaths | src/comfyui/comfyui_workspace.py:167-198 | the loop computes that listing |
| Workspace.Cleared | src/comfyui/comfyui_workspace.py:206-218 | after `delete_workspace` nothing is listed |
| Workspace.SnapshotListing | src/comfyui/comfyui_workspace.py:238-262 | the copied tree lists exactly what it holds |
| Workspace.Snapshot | src/comfyui/comfyui_workspace.py:238-262 | the backup copy holds only entries of the workspace |
| Workspace.LastDot | src/comfyui/comfyui_workspace.py:304 | the position of the last `.`, or -1 |
| Workspace.BeforeDot | src/comfyui/comfyui_workspace.py:304 | `split(".")[0]` is the dot-free prefix before the first dot |
| Workspace.BeforeDotAfter | src/comfyui/comfyui_workspace.py:304 | a dot-free prefix is recovered by that split |
| Workspace.ChecksumRoundTrip | src/comfyui/comfyui_workspace.py:267-304 | `<checksum>.tar.gz` gives back the checksum for any checksum without a dot |
| Workspace.Backup | src/comfyui/comfyui_workspace.py:221-280 | the snapshot is archived under its checksum's name, replacing an archive of that name, and the workspace is cleared |
| Workspace.Latest | src/comfyui/comfyui_workspace.py:300-301 | the chosen archive is one of the candidates, with the latest modification time |
| Workspace.LatestFirst | src/comfyui/comfyui_workspace.py:300-301 | ties go to the earlier-listed archive, as with a stable sort |
| Workspace.Filter | src/comfyui/comfyui_workspace.py:292-293 | the candidates are exactly the listed archives other than the backup just made |
| Workspace.RestoreBacksUpFirst | src/comfyui/comfyui_workspace.py:283-331 | every restore first archives the workspace. When it gives up, the workspace is left cleared, with nothing listed. |
| Workspace.RestoreChoosesLatest | src/comfyui/comfyui_workspace.py:288-331 | there is no previous backup exactly when the backup just made is the only archive. Otherwise the latest other archive is chosen, and a restore happens only when its content hashes to the checksum in its name. |
| Workspace.RestoreBringsBack | src/comfyui/comfyui_workspace.py:335-347 | a successful restore makes the workspace list exactly what the archive holds |
| Workspace.Restore | src/comfyui/comfyui_workspace.py:283-331 | a restored archive was listed, and it is deleted afterwards |
| Workspace.MovedInListing | src/comfyui/comfyui_workspace.py:339-347 | moving an extracted tree into a cleared workspace makes the listing that tree |
| Workspace.MkdirsSpec | src/comfyui/comfyui_workspace.py:415-418 | the `mkdir` loop creates every directory when no name is taken by a file; otherwise it raises for the first taken name and leaves the directories created before it |
| Workspace.Mkdirs | src/comfyui/comfyui_workspace.py:417-418 | creating directories never touches files |
| Workspace.EnsureWorkspaceInitialized | src/comfyui/comfyui_workspace.py:409-418 | all five workspace directories exist and are listed afterwards, keeping everything else, unless a name is taken by a file. Then `mkdir` raises for the first such name, and the directories before it have already been created. |
| Files.SplitSegments | src/utils/files.py:41 | path splitting yields segments without `/` |
| Files.SplitAppend | src/utils/files.py:41 | splitting `a/b` gives the segments of `a` followed by those of `b` |
| Files.SplitJoin | src/utils/files.py:41 | joining segments with `/` and splitting gives them back |
| Files.RenderSplit | src/utils/files.py:41 | a normalised path renders back to itself |
| Files.PathJoin | src/utils/files.py:41 | `os.path.join`: an absolute name replaces the base, a relative one is appended below it |
| Files.ResolveAppend | src/utils/files.py:41 | normalising a longer path continues from the shorter one's result |
| Files.ResolvePlain | src/utils/files.py:41 | normalising plain segments keeps them |
| Files.ResolveNoUp | src/utils/files.py:41 | without `..` normalisation only drops `.` and empty segments |
| Files.ResolveKeepsPlain | src/utils/files.py:41 | a normalised path has only plain segments |
| Files.AbsSegments | src/utils/files.py:41 | `abspath` yields plain segments |
| Files.AbsPath | src/utils/files.py:41 | `abspath` is absolute |
| Files.RelativeNameSafe | src/utils/files.py:40-41 | for a normalised absolute base, a relative name without `..` is accepted and lands inside the base |
| Files.AbsoluteNameIgnoresBase | src/utils/files.py:41 | an absolute name discards the base in the join, so it is accepted exactly when its own normal form starts with the base |
| Files.RelativeBaseRejects | src/utils/files.py:41 | with a relative base, every name is rejected |
| Files.SiblingAcceptedAsWritten | src/utils/files.py:41 | as written, base `/tmp/x` accepts `../xy/f`, which resolves to `/tmp/xy/f`, outside the base |
| Files.FixedMeansInside | src/utils/files.py:40-41 | for a normalised absolute base, the corrected check accepts a name exactly when it resolves inside the base |
| Files.SiblingRejectedFixed | src/utils/files.py:41 | the corrected check rejects `../xy/f` for base `/tmp/x` |
| Files.ExtractTarGz | src/utils/files.py:43-47 | every member is checked before extraction. Extraction happens exactly when all pass. Otherwise the first unsafe member is reported and nothing is extracted. |
| Files.FirstRejected | src/utils/files.py:44-46 | the index of the first member the safety test rejects, every earlier member accepted; the member count when all pass |
| Config.SettingsPathsBelowBase | src/config.py:22-35 | the interpreter, main and workflows paths lie strictly below the base, end in `user/default/workflows` for the last, and are pairwise different |
| Config.Rewritten | src/config.py:62-66 | a line starting `APP_API_KEY=` is rewritten to set the new key; any other line is kept verbatim |
| Config.EnsureValidApiKey | src/config.py:43-69 | a key other than `GENERATE_API_KEY` is returned and the file left alone. The placeholder gets the fresh uuid's hex. The file is rewritten line for line: every key line sets exactly the returned key and every other line is kept. |
| Auth.ValidateApiKey | src/api/auth.py:15-29 | the key is returned exactly when it equals the configured one; otherwise 401 |
| Auth.ClientIp | src/api/auth.py:32-56 | the address is found exactly when the forwarded header or the host is non-empty; the header wins; an empty result never escapes; otherwise 400 |
| Auth.ClientIpFound | src/api/auth.py:58-67 | `get_client_ip` consults the request if there is one, else the websocket, else gives 400. A request's own failure stands even when a websocket is given. |
| Auth.GetClientIp | src/api/auth.py:58-67 | without a request or a websocket the answer is 400; a found address is never empty, and every failure is a 400 |

## Left out

- Process supervision and network I/O: starting and watching the engine process, reading its output, the start timeout, the system-stats monitor, the HTTP probe, and every aiohttp and websockets call. Engine messages, HTTP replies and websocket outcomes are inputs.
- Concurrency: `asyncio.Lock`, task creation, `asyncio.gather` and the endless `run_cleanup` and `run_connection_cleanup` loops. Every operation is sequential and atomic, and `connection_cleanup` runs its three sweeps in gather order.
- Floating-point clocks: times are integers. The client and backend registries read the manager's `time_function`, given as `now`. The forwarding-task registry always reads `time.time` (src/comfyui/connection_manager.py:59), given as `wallNow`. Without a `time_function` both are the same reading.
- Collections.TimeoutMap.Pop: "a value was removed" stands for Python's truthiness of the value. Websockets, tasks and callbacks are always truthy.
- Image encoding: PIL resizing, `quality`, and the tensor conversion in `run` are left out. An image is the bytes the encoder writes.
- Send failures: exceptions swallowed by `send_socket_catch_exception` and the `try` of `send_json` are not modelled.
- Incoming messages: closes initiated by the peer and the message loop of `websocket_handler` are not modelled.
- md5, sqlite, tarfile, shutil and the filesystem:
  - the hash function is a parameter;
  - the dependency table is a map;
  - a file tree is sets of paths;
  - archives are a map from name to modification time and content;
  - the order of `glob` and `os.walk` results is a parameter, and the listing is a set;
  - sqlite errors are not modelled.
- `calculate_dir_hash` (src/utils/files.py:8-37): it hashes float modification times, so it is the abstract `dirHash`.
- `set_workspace`, `get_workspace`, `set_workspace_path`, and the copy of `comfyapi_nodes` in `_install_workspace_dependencies`: these are archive and copy plumbing around the modelled backup and gate.
- Workspace.RestoreBacksUpFirst: the final reinstall of dependencies after a restore is a separate `Gate` run that is not chained in.
- Workspace.EnsureWorkspaceInitialized: `mkdir(parents=True)` of missing parents is not modelled.
- Workspace.EnsureWorkspaceInitialized: the closing `_install_workspace_dependencies()` call is not chained in. The gate it runs is modelled separately as `Workspace.DependencyDb.InstallWorkspaceDependencies`.
- Settings: `comfyui_settings.workspace_path` and `comfyui_settings.instance_path` (src/comfyui/comfyui_workspace.py:17, 23, 126-127, 171) are not fields of `ComfyUISettings` (src/config.py:17-35), so as written the module fails at import. The model takes the workspace root and the instance root as given paths, which is what the code evidently intends.
- ComfyManager.Digits: `IsDigit` accepts ASCII `0`-`9` only, while Python's `\d` in `COMFYUI_ADDRESS_REGEX` also matches other Unicode decimal digits. An engine line with such digits in the address is not parsed as the source would parse it.
- ComfyManager.BoundInputCarriesOver: the `lru_cache` of `analyze_workflow` is not modelled as a cache. The descriptor `bound` returned by `RunWorkflow` is what the next request for the same workflow receives.
- `ensure_node_reqs` is not defined in the engine manager, so the installer is an abstract fallible action.
- Files.ExtractTarGz: it uses the corrected path check (see Findings).
- Archive reading and writing are not modelled. Extraction returns the member names.
- Symlink targets of members are not checked, in the model or in the source.
- The working directory that `abspath` uses is a parameter.
- Files.AbsPath: POSIX `normpath` keeps a leading `//`. The model treats it as `/`.
- Config.SettingsPathsBelowBase: the path literals are given as segment lists, so pathlib's parsing of `"venv/bin/python"` is not modelled.
- Config.EnsureValidApiKey: reading and writing the `.env` file is lines in and lines out.
  - A file with no `APP_API_KEY=` line is written back unchanged, so the new key is not persisted (as in the source).
- Auth: FastAPI's header extraction and `Security` dependency are not modelled. `validate_ws_api_key` passes its token to the same rule. `if request:` is modelled as the presence of a request.
- HTTP routers, the app, logging, introspection and the dynamic node loading are not modelled.

## Findings

| source | as written | input that shows it | evidently intended | confidence | as-written member | corrected member |
|---|---|---|---|---|---|---|
| src/comfyui/connection_manager.py:409-415 | `_update_activity` refreshes only the client registry. The paired backend connection and its forwarding task keep their accept-time stamps, so the backend side is reaped one timeout after accept, and its eviction callback closes the still-active client. | timeout 3600; accept at 1000, activity at 2800, cleanup at 4600: the backend entry expires at 4600 <= 4600 | activity on a client keeps its whole pair alive | not executed | Connections.ActiveClientReapedAsWritten | Connections.ActiveClientKept |
| src/utils/files.py:41 | the safety test is a string-prefix test of the normalised path against the base | base `/tmp/x`, member `../xy/f`: it resolves to `/tmp/xy/f`, which starts with `/tmp/x` | accept only paths equal to the base or below it at a `/` boundary | not executed | Files.SiblingAcceptedAsWritten | Files.SiblingRejectedFixed |
