/** The connection registry of `src/comfyui/connection_manager.py`.

    A client websocket is registered under a fresh connection id (`cid`); the backend websocket
    opened for it is registered under the id the backend announces (`sid`), together with a task
    that forwards backend frames to the client.  The three registries are idle-expiry maps whose
    eviction callbacks tear down the partner on the other side, and two dictionaries pair each
    `cid` with its `sid` in both directions.  Websockets and tasks are opaque handles; closing,
    cancelling, sending and the connection-close callbacks are recorded in fields that only grow.

    The clock is a parameter.  The two connection registries read the manager's `time_function`
    (`now`); the forwarding-task registry is built without it and so reads `time.time()` (`wallNow`).  With
    no `time_function` given both are `time.time()`, and callers pass the same reading twice. */
module Connections {
  import opened Wrappers
  import opened Strings
  import opened Collections

  /** The identity of a websocket or of an asyncio task. */
  type Handle = nat

  /** The identity of a registered connection-close callback. */
  type CallbackId = nat

  /** What `send_client_message` is asked to send: `str`, `bytes`, or anything else. */
  datatype Payload = Text(text: string) | Binary(bytes: seq<byte>) | Unsupported

  /** A frame written to a client websocket. */
  datatype Frame = TextFrame(text: string) | BytesFrame(bytes: seq<byte>) | UuidFrame(uuid: string)

  /** How the `{"uuid": cid}` greeting of `accept_client_connection` went. */
  datatype GreetingOutcome = Delivered | ClientDisconnected | OtherError

  /** The `_sid_task_map` always expires after an hour, whatever the connection timeout. */
  const TaskTimeout: int := 60 * 60

  /** `_cid_sid_map` and `_sid_cid_map` are mutual inverses. */
  ghost predicate Inverse(cidSid: map<string, string>, sidCid: map<string, string>)
  {
    && (forall c :: c in cidSid ==> cidSid[c] in sidCid && sidCid[cidSid[c]] == c)
    && (forall s :: s in sidCid ==> sidCid[s] in cidSid && cidSid[sidCid[s]] == s)
  }

  /** Popping a pair from both dictionaries keeps them inverse. */
  lemma InverseRemove(cidSid: map<string, string>, sidCid: map<string, string>, cid: string)
    requires Inverse(cidSid, sidCid) && cid in cidSid
    ensures Inverse(cidSid - {cid}, sidCid - {cidSid[cid]})
  {
    var sid := cidSid[cid];
    var a, b := cidSid - {cid}, sidCid - {sid};
    forall c | c in a
      ensures a[c] in b && b[a[c]] == c
    {
      assert cidSid[c] != sid;
    }
    forall s | s in b
      ensures b[s] in a && a[b[s]] == s
    {
      assert sidCid[s] != cid;
    }
  }

  /** Pairing two unpaired ids keeps the dictionaries inverse. */
  lemma InverseAdd(cidSid: map<string, string>, sidCid: map<string, string>, cid: string, sid: string)
    requires Inverse(cidSid, sidCid) && cid !in cidSid && sid !in sidCid
    ensures Inverse(cidSid[cid := sid], sidCid[sid := cid])
  {
    var a, b := cidSid[cid := sid], sidCid[sid := cid];
    forall c | c in a
      ensures a[c] in b && b[a[c]] == c
    {
      if c != cid {
        assert cidSid[c] != sid;
      }
    }
    forall s | s in b
      ensures b[s] in a && a[b[s]] == s
    {
      if s != sid {
        assert sidCid[s] != cid;
      }
    }
  }

  /** The calls `callback(id)` for each registered callback, in registration order. */
  function Notices(callbacks: seq<CallbackId>, id: string): (r: seq<(CallbackId, string)>)
    ensures |r| == |callbacks|
  {
    if callbacks == [] then [] else [(callbacks[0], id)] + Notices(callbacks[1..], id)
  }

  /** Each callback is called once, with the closed connection's id. */
  lemma {:induction false} NoticesCallEachOnce(callbacks: seq<CallbackId>, id: string)
    ensures forall i :: 0 <= i < |callbacks| ==> Notices(callbacks, id)[i] == (callbacks[i], id)
  {
    if callbacks != [] {
      NoticesCallEachOnce(callbacks[1..], id);
    }
  }

  /** The frame `send_client_message` writes for a payload: none for a payload that is neither
      text nor bytes. */
  function Delivery(ws: Handle, payload: Payload): (r: seq<(Handle, Frame)>)
    ensures |r| <= 1
    ensures payload.Text? ==> r == [(ws, TextFrame(payload.text))]
    ensures payload.Binary? ==> r == [(ws, BytesFrame(payload.bytes))]
  {
    match payload
    case Text(t) => [(ws, TextFrame(t))]
    case Binary(b) => [(ws, BytesFrame(b))]
    case Unsupported => []
  }

  /** `message[8:]`: the bytes after the 8-byte header, and nothing for a shorter message. */
  function ForwardedBytes(message: seq<byte>): (r: seq<byte>)
    ensures |r| == if |message| <= 8 then 0 else |message| - 8
    ensures |message| >= 8 ==> message == message[..8] + r
  {
    if |message| <= 8 then [] else message[8..]
  }

  /** Forwarding removes exactly an 8-byte header. */
  lemma ForwardedBytesDropsHeader(header: seq<byte>, body: seq<byte>)
    requires |header| == 8
    ensures ForwardedBytes(header + body) == body
  {
    assert (header + body)[8..] == body;
  }

  /** Every entry of `a` is an entry of `b`: `a` is `b` with some keys removed. */
  ghost predicate SubMap<V>(a: map<string, V>, b: map<string, V>)
  {
    forall k :: k in a ==> k in b && a[k] == b[k]
  }

  lemma SubMapTrans<V>(a: map<string, V>, b: map<string, V>, c: map<string, V>)
    requires SubMap(a, b) && SubMap(b, c)
    ensures SubMap(a, c)
  {
  }

  /** A registry as a value: its entries, their timestamps and its heap. */
  datatype RegistryState = RegistryState(data: map<string, Handle>, timestamps: map<string, int>, heap: seq<Entry>)

  ghost function StateOf(m: TimeoutMap<Handle>): RegistryState
    reads m
  {
    RegistryState(m.data, m.timestamps, m.heap)
  }

  /** `b` is `a` after some `pop`s: some keys are gone with their timestamps, the rest are as
      they were, the heap is untouched (`pop` leaves it alone) and every value popped is in
      `done`. */
  ghost predicate PoppedFrom(a: RegistryState, b: RegistryState, done: set<Handle>)
  {
    && b.heap == a.heap && SubMap(b.data, a.data) && SubMap(b.timestamps, a.timestamps)
    && (forall k :: k in a.data && k !in b.data ==> a.data[k] in done)
  }

  lemma PoppedFromTrans(a: RegistryState, b: RegistryState, c: RegistryState, done: set<Handle>, done': set<Handle>)
    requires PoppedFrom(a, b, done) && PoppedFrom(b, c, done') && done <= done'
    ensures PoppedFrom(a, c, done')
  {
  }

  /** The client side after backend evictions, from clients `c0`, pairs `sc0` (by `sid`) and
      paired client ids `cs0` to `c`, `sc` and `cs`: clients and pairs only go, every client that
      goes is closed and unpaired, and the client of every pair that goes is gone and unpaired. */
  ghost predicate ClientSideAfter(c0: map<string, Handle>, sc0: map<string, string>, cs0: set<string>,
                                  c: map<string, Handle>, sc: map<string, string>, cs: set<string>,
                                  closed: set<Handle>)
  {
    && SubMap(c, c0) && SubMap(sc, sc0) && cs <= cs0
    && (forall k :: k in c0 && k !in c ==> c0[k] in closed && k !in cs)
    && (forall s :: s in sc0 && s !in sc ==> sc0[s] !in c && sc0[s] !in cs)
  }

  lemma ClientSideAfterTrans(c0: map<string, Handle>, sc0: map<string, string>, cs0: set<string>,
                             c1: map<string, Handle>, sc1: map<string, string>, cs1: set<string>,
                             c2: map<string, Handle>, sc2: map<string, string>, cs2: set<string>,
                             closed1: set<Handle>, closed2: set<Handle>)
    requires ClientSideAfter(c0, sc0, cs0, c1, sc1, cs1, closed1)
    requires ClientSideAfter(c1, sc1, cs1, c2, sc2, cs2, closed2) && closed1 <= closed2
    ensures ClientSideAfter(c0, sc0, cs0, c2, sc2, cs2, closed2)
  {
  }

  /** Backend connections `s0` with tasks `t0` have become `s` and `t` by disconnections: both
      only shrink, every backend connection that goes is closed and without its task, and every
      task that goes is cancelled. */
  ghost predicate Retired(s0: map<string, Handle>, t0: map<string, Handle>, s: map<string, Handle>,
                          t: map<string, Handle>, closed: set<Handle>, cancelled: set<Handle>)
  {
    && SubMap(s, s0) && SubMap(t, t0)
    && (forall k :: k in s0 && k !in s ==> s0[k] in closed && k !in t)
    && (forall k :: k in t0 && k !in t ==> t0[k] in cancelled)
  }

  lemma RetiredTrans(s0: map<string, Handle>, t0: map<string, Handle>, s1: map<string, Handle>,
                     t1: map<string, Handle>, s2: map<string, Handle>, t2: map<string, Handle>,
                     closed1: set<Handle>, cancelled1: set<Handle>, closed2: set<Handle>, cancelled2: set<Handle>)
    requires Retired(s0, t0, s1, t1, closed1, cancelled1) && Retired(s1, t1, s2, t2, closed2, cancelled2)
    requires closed1 <= closed2 && cancelled1 <= cancelled2
    ensures Retired(s0, t0, s2, t2, closed2, cancelled2)
  {
  }

  class ConnectionManager {
    /** `idle_timeout` of the client and server registries. */
    const idleTimeout: int
    /** `_client_connections`: client websockets by `cid`. */
    const clients: TimeoutMap<Handle>
    /** `_server_connections`: backend websockets by `sid`. */
    const servers: TimeoutMap<Handle>
    /** `_sid_task_map`: the backend-to-client forwarding task by `sid`. */
    const tasks: TimeoutMap<Handle>

    var cidSid: map<string, string>
    var sidCid: map<string, string>
    /** `_connection_close_callbacks`. */
    var closeCallbacks: seq<CallbackId>

    /** Websockets closed so far. */
    var closed: set<Handle>
    /** Tasks cancelled so far. */
    var cancelled: set<Handle>
    /** Connection-close callback calls, in order. */
    var notices: seq<(CallbackId, string)>
    /** Frames written to client websockets, in order. */
    var sent: seq<(Handle, Frame)>

    ghost predicate Valid()
      reads this, clients, servers, tasks
    {
      && clients != servers && clients != tasks && servers != tasks
      && clients.Valid() && servers.Valid() && tasks.Valid()
      && clients.hasCallback && servers.hasCallback && tasks.hasCallback
      && clients.idleTimeout == idleTimeout && servers.idleTimeout == idleTimeout
      && tasks.idleTimeout == TaskTimeout
      && Inverse(cidSid, sidCid)
    }

    /** Every paired client id is registered.  A client leaves its registry only through its
        eviction callback, which unpairs it, so this holds between operations; it does not hold
        inside a sweep, whose callbacks run after all the idle clients have been popped. */
    ghost predicate PairsRegistered()
      reads this, clients
    {
      forall c :: c in cidSid ==> c in clients.data
    }

    constructor (idleTimeout: int, closeCallback: Option<CallbackId>)
      ensures Valid() && PairsRegistered()
      ensures this.idleTimeout == idleTimeout
      ensures fresh(clients) && fresh(servers) && fresh(tasks)
      ensures clients.data == map[] && servers.data == map[] && tasks.data == map[]
      ensures clients.heap == [] && servers.heap == [] && tasks.heap == []
      ensures cidSid == map[] && sidCid == map[]
      ensures closeCallbacks == if closeCallback.Some? then [closeCallback.value] else []
      ensures closed == {} && cancelled == {} && notices == [] && sent == []
    {
      this.idleTimeout := idleTimeout;
      clients := new TimeoutMap(idleTimeout, true);
      servers := new TimeoutMap(idleTimeout, true);
      tasks := new TimeoutMap(TaskTimeout, true);
      cidSid := map[];
      sidCid := map[];
      closeCallbacks := if closeCallback.Some? then [closeCallback.value] else [];
      closed := {};
      cancelled := {};
      notices := [];
      sent := [];
    }

    /** `add_connection_close_callback`. */
    method AddConnectionCloseCallback(callback: CallbackId)
      modifies this`closeCallbacks
      ensures closeCallbacks == old(closeCallbacks) + [callback]
    {
      closeCallbacks := closeCallbacks + [callback];
    }

    /** Calls every registered connection-close callback with `id`, in order. */
    method Notify(id: string)
      modifies this`notices
      ensures notices == old(notices) + Notices(closeCallbacks, id)
    {
      var i := 0;
      while i < |closeCallbacks|
        invariant 0 <= i <= |closeCallbacks|
        invariant notices + Notices(closeCallbacks[i..], id) == old(notices) + Notices(closeCallbacks, id)
      {
        assert closeCallbacks[i..][1..] == closeCallbacks[i + 1..];
        notices := notices + [(closeCallbacks[i], id)];
        i := i + 1;
      }
    }

    /** `_task_evict_callback`: cancels the forwarding task. */
    method CancelTask(task: Handle)
      modifies this`cancelled
      ensures cancelled == old(cancelled) + {task}
    {
      cancelled := cancelled + {task};
    }

    /** The end of `_evict_client_callback`: closes the websocket (closing a closed one changes
        nothing) and calls the connection-close callbacks with `cid`. */
    method ReleaseClient(cid: string, ws: Handle)
      modifies this`closed, this`notices
      ensures closed == old(closed) + {ws}
      ensures notices == old(notices) + Notices(closeCallbacks, cid)
    {
      closed := closed + {ws};
      Notify(cid);
    }

    /** The end of `_evict_server_callback`: pops (and so cancels) the forwarding task, closes the
        backend websocket and calls the connection-close callbacks with `sid`. */
    method ReleaseServer(sid: string, ws: Handle)
      requires tasks.hasCallback
      modifies this`closed, this`cancelled, this`notices, tasks
      ensures tasks.data == old(tasks.data) - {sid}
      ensures tasks.timestamps == old(tasks.timestamps) - {sid} && tasks.heap == old(tasks.heap)
      ensures old(tasks.Valid()) ==> tasks.Valid()
      ensures cancelled == old(cancelled) + (if sid in old(tasks.data) then {old(tasks.data)[sid]} else {})
      ensures closed == old(closed) + {ws}
      ensures notices == old(notices) + Notices(closeCallbacks, sid)
    {
      var task, cancel := tasks.Pop(sid);
      if cancel {
        CancelTask(task.value);
      }
      closed := closed + {ws};
      Notify(sid);
    }

    /** `_evict_client_callback`, run after `cid` has been popped from the client registry with
        websocket `ws`. */
    method EvictClient(cid: string, ws: Handle)
      requires Valid()
      modifies this`cidSid, this`sidCid, this`closed, this`cancelled, this`notices, clients, servers, tasks
      ensures Valid()
      ensures unchanged(clients)
      ensures cid !in old(cidSid) ==>
        && unchanged(this`cidSid, this`sidCid, this`cancelled) && unchanged(servers, tasks)
        && closed == old(closed) + {ws}
        && notices == old(notices) + Notices(closeCallbacks, cid)
      ensures cid in old(cidSid) ==>
        var sid := old(cidSid)[cid];
        && cidSid == old(cidSid) - {cid} && sidCid == old(sidCid) - {sid}
        && servers.data == old(servers.data) - {sid}
        && servers.timestamps == old(servers.timestamps) - {sid} && servers.heap == old(servers.heap)
        && (sid in old(servers.data) ==> tasks.data == old(tasks.data) - {sid})
        && (sid in old(servers.data) ==> tasks.timestamps == old(tasks.timestamps) - {sid} && tasks.heap == old(tasks.heap))
        && (sid !in old(servers.data) ==> unchanged(tasks))
        && closed == old(closed) + (if sid in old(servers.data) then {old(servers.data)[sid]} else {}) + {ws}
        && cancelled == old(cancelled) + (if sid in old(servers.data) && sid in old(tasks.data) then {old(tasks.data)[sid]} else {})
        && notices == old(notices) + (if sid in old(servers.data) then Notices(closeCallbacks, sid) else []) + Notices(closeCallbacks, cid)
      decreases cidSid.Keys, 2
    {
      if cid in cidSid {
        DropServerOf(cid);
      }
      ReleaseClient(cid, ws);
    }

    /** The paired branch of `_evict_client_callback`: pops the pair from both dictionaries, then
        pops the backend connection, whose callback finds the pair gone. */
    method DropServerOf(cid: string)
      requires Valid() && cid in cidSid
      modifies this`cidSid, this`sidCid, this`closed, this`cancelled, this`notices, clients, servers, tasks
      ensures Valid()
      ensures unchanged(clients)
      ensures var sid := old(cidSid)[cid];
        && cidSid == old(cidSid) - {cid} && sidCid == old(sidCid) - {sid}
        && servers.data == old(servers.data) - {sid}
        && servers.timestamps == old(servers.timestamps) - {sid} && servers.heap == old(servers.heap)
        && (sid in old(servers.data) ==> tasks.data == old(tasks.data) - {sid})
        && (sid in old(servers.data) ==> tasks.timestamps == old(tasks.timestamps) - {sid} && tasks.heap == old(tasks.heap))
        && (sid !in old(servers.data) ==> unchanged(tasks))
        && closed == old(closed) + (if sid in old(servers.data) then {old(servers.data)[sid]} else {})
        && cancelled == old(cancelled) + (if sid in old(servers.data) && sid in old(tasks.data) then {old(tasks.data)[sid]} else {})
        && notices == old(notices) + (if sid in old(servers.data) then Notices(closeCallbacks, sid) else [])
      decreases cidSid.Keys, 1
    {
      var sid := cidSid[cid];
      InverseRemove(cidSid, sidCid, cid);
      cidSid, sidCid := cidSid - {cid}, sidCid - {sid};
      var item, fired := servers.Pop(sid);
      if fired {
        EvictServer(sid, item.value);
      }
    }

    /** `_evict_server_callback`, run after `sid` has been popped from the server registry with
        websocket `ws`. */
    method EvictServer(sid: string, ws: Handle)
      requires Valid()
      modifies this`cidSid, this`sidCid, this`closed, this`cancelled, this`notices, clients, servers, tasks
      ensures Valid()
      ensures unchanged(servers)
      ensures tasks.data == old(tasks.data) - {sid}
      ensures tasks.timestamps == old(tasks.timestamps) - {sid} && tasks.heap == old(tasks.heap)
      ensures cancelled == old(cancelled) + (if sid in old(tasks.data) then {old(tasks.data)[sid]} else {})
      ensures sid !in old(sidCid) ==>
        && unchanged(this`cidSid, this`sidCid) && unchanged(clients)
        && closed == old(closed) + {ws}
        && notices == old(notices) + Notices(closeCallbacks, sid)
      ensures sid in old(sidCid) ==>
        var cid := old(sidCid)[sid];
        && sidCid == old(sidCid) - {sid} && cidSid == old(cidSid) - {cid}
        && clients.data == old(clients.data) - {cid}
        && closed == old(closed) + (if cid in old(clients.data) then {old(clients.data)[cid]} else {}) + {ws}
        && notices == old(notices) + (if cid in old(clients.data) then Notices(closeCallbacks, cid) else []) + Notices(closeCallbacks, sid)
      decreases cidSid.Keys, 2
    {
      if sid in sidCid {
        DropClientOf(sid);
      }
      ReleaseServer(sid, ws);
    }

    /** The paired branch of `_evict_server_callback`: pops the pair from both dictionaries, then
        pops the client connection, whose callback finds the pair gone. */
    method DropClientOf(sid: string)
      requires Valid() && sid in sidCid
      modifies this`cidSid, this`sidCid, this`closed, this`cancelled, this`notices, clients, servers, tasks
      ensures Valid()
      ensures unchanged(servers, tasks) && unchanged(this`cancelled)
      ensures var cid := old(sidCid)[sid];
        && sidCid == old(sidCid) - {sid} && cidSid == old(cidSid) - {cid}
        && clients.data == old(clients.data) - {cid}
        && closed == old(closed) + (if cid in old(clients.data) then {old(clients.data)[cid]} else {})
        && notices == old(notices) + (if cid in old(clients.data) then Notices(closeCallbacks, cid) else [])
      decreases cidSid.Keys, 1
    {
      var cid := sidCid[sid];
      InverseRemove(cidSid, sidCid, cid);
      sidCid, cidSid := sidCid - {sid}, cidSid - {cid};
      var item, fired := clients.Pop(cid);
      if fired {
        EvictClient(cid, item.value);
      }
    }

    /** `_accept`: registers the accepted client websocket under `str(uuid4())` with the dashes
        removed, which is the 32-digit hexadecimal form of the uuid. */
    method Accept(ws: Handle, u: seq<byte>, now: int) returns (cid: string)
      requires Valid() && PairsRegistered() && IsUuid(u)
      modifies clients
      ensures Valid() && PairsRegistered()
      ensures cid == UuidHex(u) && |cid| == 32
      ensures clients.data == old(clients.data)[cid := ws] && clients.timestamps == old(clients.timestamps)[cid := now]
      ensures clients.heap == Insert(old(clients.heap), Entry(now + idleTimeout, cid))
    {
      cid := RemoveChar(UuidStr(u), '-');
      UuidStrWithoutDashes(u);
      clients.Set(cid, ws, now);
    }

    /** The registration part of `connect_to_backend`: the backend websocket `ws` that announced
        `sid` starts its idle period at `now`, and the forwarding task of its frames at `wallNow`. */
    method ConnectToBackend(sid: string, ws: Handle, task: Handle, now: int, wallNow: int)
      requires Valid()
      modifies servers, tasks
      ensures Valid()
      ensures servers.data == old(servers.data)[sid := ws] && servers.timestamps == old(servers.timestamps)[sid := now]
      ensures servers.heap == Insert(old(servers.heap), Entry(now + idleTimeout, sid))
      ensures tasks.data == old(tasks.data)[sid := task] && tasks.timestamps == old(tasks.timestamps)[sid := wallNow]
      ensures tasks.heap == Insert(old(tasks.heap), Entry(wallNow + TaskTimeout, sid))
    {
      RegisterServer(sid, ws, now);
      RegisterTask(sid, task, wallNow);
    }

    /** The `_server_connections.set` of `connect_to_backend`: registers the backend websocket. */
    method RegisterServer(sid: string, ws: Handle, now: int)
      requires Valid()
      modifies servers
      ensures Valid()
      ensures servers.data == old(servers.data)[sid := ws] && servers.timestamps == old(servers.timestamps)[sid := now]
      ensures servers.heap == Insert(old(servers.heap), Entry(now + idleTimeout, sid))
    {
      servers.Set(sid, ws, now);
    }

    /** The `_sid_task_map.set` of `connect_to_backend`: registers the forwarding task at the
        task registry's clock `wallNow`. */
    method RegisterTask(sid: string, task: Handle, wallNow: int)
      requires Valid()
      modifies tasks
      ensures Valid()
      ensures tasks.data == old(tasks.data)[sid := task] && tasks.timestamps == old(tasks.timestamps)[sid := wallNow]
      ensures tasks.heap == Insert(old(tasks.heap), Entry(wallNow + TaskTimeout, sid))
    {
      tasks.Set(sid, task, wallNow);
    }

    /** The two dictionary writes of `accept_client_connection`: pairs a fresh `cid` with a
        fresh `sid`. */
    method Pair(cid: string, sid: string)
      requires Valid() && PairsRegistered() && cid !in cidSid && sid !in sidCid && cid in clients.data
      modifies this`cidSid, this`sidCid
      ensures Valid() && PairsRegistered()
      ensures cidSid == old(cidSid)[cid := sid] && sidCid == old(sidCid)[sid := cid]
    {
      InverseAdd(cidSid, sidCid, cid, sid);
      cidSid, sidCid := cidSid[cid := sid], sidCid[sid := cid];
    }

    /** `accept_client_connection`: accepts the client, connects it to a backend connection, pairs
        the two and greets the client with its id.  The backend's `sid`, websocket and forwarding
        task, the uuid and how the greeting went are parameters.  A client that disconnected during
        the greeting is disconnected; any other failure only stops the greeting. */
    method AcceptClientConnection(ws: Handle, u: seq<byte>, sid: string, bws: Handle, task: Handle,
                                  now: int, wallNow: int, greeting: GreetingOutcome) returns (cid: string)
      requires Valid() && PairsRegistered() && IsUuid(u) && UuidHex(u) !in cidSid && sid !in sidCid
      modifies this`cidSid, this`sidCid, this`closed, this`cancelled, this`notices, this`sent, clients, servers, tasks
      ensures Valid() && PairsRegistered()
      ensures cid == UuidHex(u)
      ensures greeting != ClientDisconnected ==>
        && clients.data == old(clients.data)[cid := ws] && clients.timestamps == old(clients.timestamps)[cid := now]
        && clients.heap == Insert(old(clients.heap), Entry(now + idleTimeout, cid))
        && servers.data == old(servers.data)[sid := bws] && servers.timestamps == old(servers.timestamps)[sid := now]
        && servers.heap == Insert(old(servers.heap), Entry(now + idleTimeout, sid))
        && tasks.data == old(tasks.data)[sid := task]
        && cidSid == old(cidSid)[cid := sid] && sidCid == old(sidCid)[sid := cid]
        && unchanged(this`closed, this`cancelled, this`notices)
      ensures greeting == Delivered ==> sent == old(sent) + [(ws, UuidFrame(cid))]
      ensures greeting != Delivered ==> sent == old(sent)
      ensures greeting == ClientDisconnected ==>
        && cid !in clients.data && cid !in cidSid && sid !in sidCid && sid !in servers.data && sid !in tasks.data
        && ws in closed && bws in closed && task in cancelled
    {
      cid := Admit(ws, u, sid, bws, task, now, wallNow);
      Greet(cid, greeting);
    }

    /** The greeting of `accept_client_connection`: sends `{"uuid": cid}` to the new client. */
    method Greet(cid: string, greeting: GreetingOutcome)
      requires Valid() && PairsRegistered() && cid in clients.data && cid in cidSid
      requires cidSid[cid] in servers.data && cidSid[cid] in tasks.data
      modifies this`cidSid, this`sidCid, this`closed, this`cancelled, this`notices, this`sent, clients, servers, tasks
      ensures Valid() && PairsRegistered()
      ensures greeting == Delivered ==> sent == old(sent) + [(old(clients.data)[cid], UuidFrame(cid))]
      ensures greeting != Delivered ==> sent == old(sent)
      ensures greeting != ClientDisconnected ==>
        unchanged(this`cidSid, this`sidCid, this`closed, this`cancelled, this`notices) && unchanged(clients, servers, tasks)
      ensures greeting == ClientDisconnected ==>
        var sid := old(cidSid)[cid];
        && cid !in clients.data && cid !in cidSid && sid !in sidCid && sid !in servers.data && sid !in tasks.data
        && old(clients.data)[cid] in closed && old(servers.data)[sid] in closed && old(tasks.data)[sid] in cancelled
    {
      if greeting == Delivered {
        sent := sent + [(clients.data[cid], UuidFrame(cid))];
      } else if greeting == ClientDisconnected {
        DisconnectPaired(cid);
      }
    }

    /** `disconnect(cid)` for a client paired with a registered backend connection: the whole
        pair is torn down. */
    method DisconnectPaired(cid: string)
      requires Valid() && PairsRegistered() && cid in clients.data && cid in cidSid
      requires cidSid[cid] in servers.data && cidSid[cid] in tasks.data
      modifies this`cidSid, this`sidCid, this`closed, this`cancelled, this`notices, clients, servers, tasks
      ensures Valid() && PairsRegistered()
      ensures var sid := old(cidSid)[cid];
        && cid !in clients.data && cid !in cidSid && sid !in sidCid && sid !in servers.data && sid !in tasks.data
        && old(clients.data)[cid] in closed && old(servers.data)[sid] in closed && old(tasks.data)[sid] in cancelled
    {
      Disconnect(cid);
    }

    /** The registrations of `accept_client_connection`: the client, the backend connection and
        the pair. */
    method Admit(ws: Handle, u: seq<byte>, sid: string, bws: Handle, task: Handle, now: int, wallNow: int)
      returns (cid: string)
      requires Valid() && PairsRegistered() && IsUuid(u) && UuidHex(u) !in cidSid && sid !in sidCid
      modifies this`cidSid, this`sidCid, clients, servers, tasks
      ensures Valid() && PairsRegistered()
      ensures cid == UuidHex(u)
      ensures clients.data == old(clients.data)[cid := ws] && clients.timestamps == old(clients.timestamps)[cid := now]
      ensures clients.heap == Insert(old(clients.heap), Entry(now + idleTimeout, cid))
      ensures servers.data == old(servers.data)[sid := bws] && servers.timestamps == old(servers.timestamps)[sid := now]
      ensures servers.heap == Insert(old(servers.heap), Entry(now + idleTimeout, sid))
      ensures tasks.data == old(tasks.data)[sid := task] && tasks.timestamps == old(tasks.timestamps)[sid := wallNow]
      ensures cidSid == old(cidSid)[cid := sid] && sidCid == old(sidCid)[sid := cid]
    {
      cid := Accept(ws, u, now);
      ConnectToBackend(sid, bws, task, now, wallNow);
      Pair(cid, sid);
    }

    /** `disconnect(id)`: pops `id` from the client registry, whose callback tears down the pair;
        only an id that is not a client is looked up among the backend connections.  An unknown id
        changes nothing. */
    method Disconnect(id: string)
      requires Valid() && PairsRegistered()
      modifies this`cidSid, this`sidCid, this`closed, this`cancelled, this`notices, clients, servers, tasks
      ensures Valid() && PairsRegistered()
      ensures id !in clients.data
      ensures forall k :: k in clients.data ==> k in old(clients.data) && clients.data[k] == old(clients.data)[k]
      ensures forall k :: k in servers.data ==> k in old(servers.data) && servers.data[k] == old(servers.data)[k]
      ensures old(closed) <= closed && old(cancelled) <= cancelled
      ensures cidSid.Keys <= old(cidSid).Keys && sidCid.Keys <= old(sidCid).Keys && SubMap(tasks.data, old(tasks.data))
      ensures forall k :: k in old(servers.data) && k !in servers.data ==> old(servers.data)[k] in closed
      ensures forall k :: k in old(servers.data) && k !in servers.data ==> k !in sidCid && k !in tasks.data
      ensures forall k :: k in old(tasks.data) && k !in tasks.data ==> old(tasks.data)[k] in cancelled
      ensures id in old(clients.data) ==>
        && clients.data == old(clients.data) - {id} && id !in cidSid && old(clients.data)[id] in closed
        && (id in old(cidSid) ==>
              var sid := old(cidSid)[id];
              && sid !in sidCid && sid !in servers.data
              && (sid in old(servers.data) ==> old(servers.data)[sid] in closed && sid !in tasks.data)
              && (sid in old(servers.data) && sid in old(tasks.data) ==> old(tasks.data)[sid] in cancelled))
      ensures id !in old(clients.data) && id in old(servers.data) ==>
        && servers.data == old(servers.data) - {id} && id !in sidCid && id !in tasks.data
        && old(servers.data)[id] in closed
        && (id in old(sidCid) ==> var cid := old(sidCid)[id]; cid !in cidSid && cid !in clients.data)
      ensures id !in old(clients.data) && id !in old(servers.data) ==>
        && unchanged(this`cidSid, this`sidCid, this`closed, this`cancelled, this`notices)
        && unchanged(clients, servers, tasks)
    {
      var item, fired := clients.Pop(id);
      if fired {
        EvictClient(id, item.value);
      }
      if item.None? {
        var item', fired' := servers.Pop(id);
        if fired' {
          EvictServer(id, item'.value);
        }
      }
    }

    /** `_update_activity(cid)` as written: only the client registry is refreshed. */
    method UpdateActivityAsWritten(cid: string, now: int)
      requires Valid()
      modifies clients`timestamps, clients`heap
      ensures Valid()
      ensures cid in old(clients.data) ==>
        && clients.timestamps == old(clients.timestamps)[cid := now]
        && clients.heap == Insert(old(clients.heap), Entry(now + idleTimeout, cid))
      ensures cid !in old(clients.data) ==> unchanged(clients)
    {
      if cid in clients.data {
        clients.RestartIdle(cid, now);
      }
    }

    /** `_update_activity(cid)` as intended: activity on a client connection also restarts the
        idle periods of its backend connection and of the forwarding task of that connection,
        so that neither is reaped while the client is in use.  The forwarding task is stamped
        with the forwarding-task registry's clock `wallNow`. */
    method UpdateActivity(cid: string, now: int, wallNow: int)
      requires Valid()
      modifies clients`timestamps, clients`heap, servers`timestamps, servers`heap, tasks`timestamps, tasks`heap
      ensures Valid()
      ensures cid in old(clients.data) ==>
        && clients.timestamps == old(clients.timestamps)[cid := now]
        && clients.heap == Insert(old(clients.heap), Entry(now + idleTimeout, cid))
      ensures cid !in old(clients.data) ==> unchanged(clients)
      ensures cid in old(cidSid) ==>
        var sid := old(cidSid)[cid];
        && (sid in old(servers.data) ==>
              && servers.timestamps == old(servers.timestamps)[sid := now]
              && servers.heap == Insert(old(servers.heap), Entry(now + idleTimeout, sid)))
        && (sid !in old(servers.data) ==> unchanged(servers))
        && (sid in old(tasks.data) ==>
              && tasks.timestamps == old(tasks.timestamps)[sid := wallNow]
              && tasks.heap == Insert(old(tasks.heap), Entry(wallNow + TaskTimeout, sid)))
        && (sid !in old(tasks.data) ==> unchanged(tasks))
      ensures cid !in old(cidSid) ==> unchanged(servers, tasks)
    {
      UpdateActivityAsWritten(cid, now);
      if cid in cidSid {
        RefreshServer(cidSid[cid], now);
        RefreshTask(cidSid[cid], wallNow);
      }
    }

    /** Restarts the idle period of a backend connection. */
    method RefreshServer(sid: string, now: int)
      requires Valid()
      modifies servers`timestamps, servers`heap
      ensures Valid()
      ensures sid in old(servers.data) ==>
        && servers.timestamps == old(servers.timestamps)[sid := now]
        && servers.heap == Insert(old(servers.heap), Entry(now + idleTimeout, sid))
      ensures sid !in old(servers.data) ==> unchanged(servers)
    {
      if sid in servers.data {
        ghost var h := servers.heap;
        servers.RestartIdle(sid, now);
        assert servers.heap == Insert(h, Entry(now + idleTimeout, sid));
      }
    }

    /** Restarts the idle period of a forwarding task at the forwarding-task registry's clock `wallNow`. */
    method RefreshTask(sid: string, wallNow: int)
      requires Valid()
      modifies tasks`timestamps, tasks`heap
      ensures Valid()
      ensures sid in old(tasks.data) ==>
        && tasks.timestamps == old(tasks.timestamps)[sid := wallNow]
        && tasks.heap == Insert(old(tasks.heap), Entry(wallNow + TaskTimeout, sid))
      ensures sid !in old(tasks.data) ==> unchanged(tasks)
    {
      if sid in tasks.data {
        ghost var h := tasks.heap;
        tasks.RestartIdle(sid, wallNow);
        assert tasks.heap == Insert(h, Entry(wallNow + TaskTimeout, sid));
      }
    }

    /** `send_client_message(id, message)`: a known client has its activity updated by
        `_update_activity` as written, which stamps the client alone, and then gets the message
        as a text or a binary frame; any other payload is rejected after the update (the
        `ValueError`).  An unknown id sends nothing and changes nothing. */
    method SendClientMessage(id: string, payload: Payload, now: int) returns (r: Result<bool, string>)
      requires Valid()
      modifies this`sent, clients`timestamps, clients`heap
      ensures Valid()
      ensures r.Err? <==> id in old(clients.data) && payload.Unsupported?
      ensures r == Ok(true) <==> id in old(clients.data) && !payload.Unsupported?
      ensures sent == old(sent) + (if id in old(clients.data) then Delivery(old(clients.data)[id], payload) else [])
      ensures id in old(clients.data) ==>
        && clients.timestamps == old(clients.timestamps)[id := now]
        && clients.heap == Insert(old(clients.heap), Entry(now + idleTimeout, id))
      ensures id !in old(clients.data) ==> unchanged(clients)
      ensures unchanged(servers, tasks)
    {
      var ws := clients.Get(id);
      if ws.Some? {
        UpdateActivityAsWritten(id, now);
        r := Deliver(ws.value, payload);
      } else {
        r := Ok(false);
      }
    }

    /** The `isinstance` dispatch of `send_client_message`: writes a text or a binary frame, or
        rejects the payload. */
    method Deliver(ws: Handle, payload: Payload) returns (r: Result<bool, string>)
      modifies this`sent
      ensures r == if payload.Unsupported? then Err("Message must be a string or bytes") else Ok(true)
      ensures sent == old(sent) + Delivery(ws, payload)
    {
      match payload
      case Text(t) =>
        sent := sent + [(ws, TextFrame(t))];
        r := Ok(true);
      case Binary(b) =>
        sent := sent + [(ws, BytesFrame(b))];
        r := Ok(true);
      case Unsupported =>
        r := Err("Message must be a string or bytes");
    }

    /** One turn of `backend_to_client`: a binary backend frame is forwarded to the client
        websocket without its 8-byte header; text frames are dropped. */
    method ForwardBackendMessage(clientWs: Handle, message: Payload)
      modifies this`sent
      ensures message.Binary? ==> sent == old(sent) + [(clientWs, BytesFrame(ForwardedBytes(message.bytes)))]
      ensures !message.Binary? ==> sent == old(sent)
    {
      if message.Binary? {
        sent := sent + [(clientWs, BytesFrame(ForwardedBytes(message.bytes)))];
      }
    }

    /** `close_all_connections`: disconnects every client, then every backend connection left;
        every websocket registered at the start ends up closed, both registries and both pair
        dictionaries end empty, and the forwarding task of every backend
        connection registered at the start is cancelled and unregistered. */
    method CloseAllConnections()
      requires Valid() && PairsRegistered()
      modifies this`cidSid, this`sidCid, this`closed, this`cancelled, this`notices, clients, servers, tasks
      ensures Valid() && PairsRegistered()
      ensures cidSid == map[] && sidCid == map[]
      ensures forall k :: k !in clients.data
      ensures forall k :: k !in servers.data
      ensures forall k :: k in old(clients.data) ==> old(clients.data)[k] in closed
      ensures forall k :: k in old(servers.data) ==> old(servers.data)[k] in closed && k !in tasks.data
      ensures forall k :: k in old(servers.data) && k in old(tasks.data) ==> old(tasks.data)[k] in cancelled
    {
      DisconnectClients();
      DisconnectServers();
    }

    /** The first loop of `close_all_connections`: every listed client id is disconnected, which
        also tears down the backend connection paired with it. */
    method DisconnectClients()
      requires Valid() && PairsRegistered()
      modifies this`cidSid, this`sidCid, this`closed, this`cancelled, this`notices, clients, servers, tasks
      ensures Valid() && PairsRegistered() && cidSid == map[]
      ensures forall k :: k !in clients.data
      ensures forall k :: k in old(clients.data) ==> old(clients.data)[k] in closed && k !in cidSid
      ensures forall k :: k in servers.data ==> k in old(servers.data) && servers.data[k] == old(servers.data)[k]
      ensures forall k :: k in old(servers.data) && k !in servers.data ==> old(servers.data)[k] in closed
      ensures forall k :: k in old(servers.data) && k !in servers.data ==> k !in sidCid && k !in tasks.data
      ensures forall k :: k in old(tasks.data) && k !in tasks.data ==> old(tasks.data)[k] in cancelled
      ensures SubMap(tasks.data, old(tasks.data)) && old(cancelled) <= cancelled
    {
      ghost var c0, s0, t0 := clients.data, servers.data, tasks.data;
      var ids := clients.GetKeys();
      var i := 0;
      DistinctIndices(ids);
      while i < |ids|
        invariant 0 <= i <= |ids| && Valid() && PairsRegistered()
        invariant forall k :: k in clients.data ==> k in c0 && clients.data[k] == c0[k]
        invariant forall j :: i <= j < |ids| ==> ids[j] in clients.data
        invariant forall j :: 0 <= j < i ==> ids[j] !in clients.data && c0[ids[j]] in closed && ids[j] !in cidSid
        invariant forall k :: k in servers.data ==> k in s0 && servers.data[k] == s0[k]
        invariant forall k :: k in s0 && k !in servers.data ==> s0[k] in closed
        invariant forall k :: k in s0 && k !in servers.data ==> k !in sidCid && k !in tasks.data
        invariant forall k :: k in t0 && k !in tasks.data ==> t0[k] in cancelled
        invariant SubMap(tasks.data, t0) && old(cancelled) <= cancelled
      {
        ghost var tasksBefore := tasks.data;
        Disconnect(ids[i]);
        SubMapTrans(tasks.data, tasksBefore, t0);
        i := i + 1;
      }
    }

    /** The second loop of `close_all_connections`: every backend connection still listed is
        disconnected.  The first loop has left no client and so no pair. */
    method DisconnectServers()
      requires Valid() && cidSid == map[]
      requires forall k :: k !in clients.data
      modifies this`cidSid, this`sidCid, this`closed, this`cancelled, this`notices, clients, servers, tasks
      ensures Valid() && cidSid == map[] && sidCid == map[]
      ensures forall k :: k !in clients.data
      ensures forall k :: k !in servers.data
      ensures old(closed) <= closed && old(cancelled) <= cancelled
      ensures Retired(old(servers.data), old(tasks.data), servers.data, tasks.data, closed, cancelled)
    {
      ghost var s0, t0 := servers.data, tasks.data;
      var ids := servers.GetKeys();
      var i := 0;
      while i < |ids|
        invariant 0 <= i <= |ids| && Valid() && cidSid == map[]
        invariant forall k :: k !in clients.data
        invariant old(closed) <= closed && old(cancelled) <= cancelled
        invariant Retired(s0, t0, servers.data, tasks.data, closed, cancelled)
        invariant forall k :: k in servers.data ==> k in ids[i..]
      {
        ghost var s1, t1, closed1, cancelled1 := servers.data, tasks.data, closed, cancelled;
        assert ids[i..] == [ids[i]] + ids[i + 1..];
        DisconnectServer(ids[i]);
        RetiredTrans(s0, t0, s1, t1, servers.data, tasks.data, closed1, cancelled1, closed, cancelled);
        i := i + 1;
      }
    }

    /** `disconnect(id)` once no client and no pair is left: only backend connections are
        removed. */
    method DisconnectServer(id: string)
      requires Valid() && cidSid == map[]
      requires forall k :: k !in clients.data
      modifies this`cidSid, this`sidCid, this`closed, this`cancelled, this`notices, clients, servers, tasks
      ensures Valid() && cidSid == map[]
      ensures forall k :: k !in clients.data
      ensures id !in servers.data
      ensures old(closed) <= closed && old(cancelled) <= cancelled
      ensures Retired(old(servers.data), old(tasks.data), servers.data, tasks.data, closed, cancelled)
    {
      Disconnect(id);
    }

    /** `_client_connections.cleanup()` at clock `now`: the clients the sweep collects as idle are
        popped, and the callback of each closes it and tears down its pair. */
    method CleanupClients(now: int)
      requires Valid() && PairsRegistered()
      modifies this`cidSid, this`sidCid, this`closed, this`cancelled, this`notices, clients, servers, tasks
      ensures Valid() && PairsRegistered()
      ensures var idle := Sweep(old(clients.heap), old(clients.timestamps), idleTimeout, now).1;
        && clients.data == old(clients.data) - Keys(idle)
        && (forall c :: c in idle ==> c in old(clients.data) && old(clients.data)[c] in closed && c !in cidSid)
      ensures old(closed) <= closed && old(cancelled) <= cancelled
      ensures PoppedFrom(old(StateOf(servers)), StateOf(servers), closed)
      ensures PoppedFrom(old(StateOf(tasks)), StateOf(tasks), cancelled)
      ensures forall s :: s in old(servers.data) && s !in servers.data ==> s !in sidCid && s !in tasks.data
      ensures Sweep(old(clients.heap), old(clients.timestamps), idleTimeout, now).1 == [] ==>
        && unchanged(this`cidSid, this`sidCid, this`closed, this`cancelled, this`notices)
        && unchanged(servers, tasks)
    {
      ghost var d0, ts0 := clients.data, clients.timestamps;
      ghost var idle := Sweep(clients.heap, clients.timestamps, idleTimeout, now).1;
      var evicted := clients.Cleanup(now);
      EvictClients(evicted);
      SweepSound(old(clients.heap), ts0, idleTimeout, now);
      forall c | c in idle
        ensures c in d0 && d0[c] in closed && c !in cidSid
      {
        EvictionsCover(idle, d0, {}, c);
        var j :| 0 <= j < |evicted| && evicted[j] == (c, d0[c]);
      }
    }

    /** The loop of `cleanup` over the popped clients: the eviction callback runs for each. */
    method EvictClients(evicted: seq<(string, Handle)>)
      requires Valid()
      modifies this`cidSid, this`sidCid, this`closed, this`cancelled, this`notices, clients, servers, tasks
      ensures Valid()
      ensures unchanged(clients)
      ensures forall j :: 0 <= j < |evicted| ==> evicted[j].0 !in cidSid && evicted[j].1 in closed
      ensures old(closed) <= closed && old(cancelled) <= cancelled && cidSid.Keys <= old(cidSid).Keys
      ensures PoppedFrom(old(StateOf(servers)), StateOf(servers), closed)
      ensures PoppedFrom(old(StateOf(tasks)), StateOf(tasks), cancelled)
      ensures forall s :: s in old(servers.data) && s !in servers.data ==> s !in sidCid && s !in tasks.data
      ensures evicted == [] ==>
        && unchanged(this`cidSid, this`sidCid, this`closed, this`cancelled, this`notices)
        && unchanged(servers, tasks)
    {
      ghost var s0, t0 := StateOf(servers), StateOf(tasks);
      var i := 0;
      while i < |evicted|
        invariant 0 <= i <= |evicted| && Valid()
        invariant unchanged(clients)
        invariant forall j :: 0 <= j < i ==> evicted[j].0 !in cidSid && evicted[j].1 in closed
        invariant old(closed) <= closed && old(cancelled) <= cancelled && cidSid.Keys <= old(cidSid).Keys
        invariant PoppedFrom(s0, StateOf(servers), closed) && PoppedFrom(t0, StateOf(tasks), cancelled)
        invariant forall s :: s in s0.data && s !in servers.data ==> s !in sidCid && s !in tasks.data
        invariant i == 0 ==>
          && unchanged(this`cidSid, this`sidCid, this`closed, this`cancelled, this`notices)
          && unchanged(servers, tasks)
      {
        ghost var s1, t1, closed1, cancelled1 := StateOf(servers), StateOf(tasks), closed, cancelled;
        EvictClientStep(evicted[i].0, evicted[i].1);
        PoppedFromTrans(s0, s1, StateOf(servers), closed1, closed);
        PoppedFromTrans(t0, t1, StateOf(tasks), cancelled1, cancelled);
        i := i + 1;
      }
    }

    /** The callback for one popped client, as the loop above needs it. */
    method EvictClientStep(cid: string, ws: Handle)
      requires Valid()
      modifies this`cidSid, this`sidCid, this`closed, this`cancelled, this`notices, clients, servers, tasks
      ensures Valid()
      ensures unchanged(clients)
      ensures cid !in cidSid && ws in closed
      ensures old(closed) <= closed && cidSid.Keys <= old(cidSid).Keys && sidCid.Keys <= old(sidCid).Keys
      ensures old(cancelled) <= cancelled
      ensures PoppedFrom(old(StateOf(servers)), StateOf(servers), closed)
      ensures PoppedFrom(old(StateOf(tasks)), StateOf(tasks), cancelled)
      ensures forall s :: s in old(servers.data) && s !in servers.data ==> s !in sidCid && s !in tasks.data
    {
      EvictClient(cid, ws);
    }

    /** `_server_connections.cleanup()` at clock `now`: the backend connections the sweep collects
        as idle are popped, and the callback of each closes it, cancels its forwarding task and
        tears down its pair, client included. */
    method CleanupServers(now: int)
      requires Valid() && PairsRegistered()
      modifies this`cidSid, this`sidCid, this`closed, this`cancelled, this`notices, clients, servers, tasks
      ensures Valid() && PairsRegistered()
      ensures var idle := Sweep(old(servers.heap), old(servers.timestamps), idleTimeout, now).1;
        && servers.data == old(servers.data) - Keys(idle)
        && (forall s :: s in idle ==>
              && s in old(servers.data) && old(servers.data)[s] in closed && s !in sidCid && s !in tasks.data
              && (s in old(sidCid) ==> old(sidCid)[s] !in clients.data && old(sidCid)[s] !in cidSid))
      ensures old(closed) <= closed && cidSid.Keys <= old(cidSid).Keys && sidCid.Keys <= old(sidCid).Keys
      ensures SubMap(clients.data, old(clients.data))
      ensures forall c :: c in old(clients.data) && c !in clients.data ==> old(clients.data)[c] in closed
      ensures old(cancelled) <= cancelled && PoppedFrom(old(StateOf(tasks)), StateOf(tasks), cancelled)
      ensures Sweep(old(servers.heap), old(servers.timestamps), idleTimeout, now).1 == [] ==>
        && unchanged(this`cidSid, this`sidCid, this`closed, this`cancelled, this`notices)
        && unchanged(clients, tasks)
    {
      ghost var d0, ts0 := servers.data, servers.timestamps;
      ghost var idle := Sweep(servers.heap, servers.timestamps, idleTimeout, now).1;
      var evicted := servers.Cleanup(now);
      EvictServers(evicted);
      SweepSound(old(servers.heap), ts0, idleTimeout, now);
      forall s | s in idle
        ensures s in d0 && d0[s] in closed && s !in sidCid && s !in tasks.data
      {
        EvictionsCover(idle, d0, {}, s);
        var j :| 0 <= j < |evicted| && evicted[j] == (s, d0[s]);
      }
    }

    /** The loop of `cleanup` over the popped backend connections: the eviction callback runs
        for each. */
    method EvictServers(evicted: seq<(string, Handle)>)
      requires Valid()
      modifies this`cidSid, this`sidCid, this`closed, this`cancelled, this`notices, clients, servers, tasks
      ensures Valid()
      ensures unchanged(servers)
      ensures forall j :: 0 <= j < |evicted| ==>
        evicted[j].0 !in sidCid && evicted[j].0 !in tasks.data && evicted[j].1 in closed
      ensures old(closed) <= closed
      ensures ClientSideAfter(old(clients.data), old(sidCid), old(cidSid.Keys), clients.data, sidCid, cidSid.Keys, closed)
      ensures old(cancelled) <= cancelled && PoppedFrom(old(StateOf(tasks)), StateOf(tasks), cancelled)
      ensures evicted == [] ==>
        && unchanged(this`cidSid, this`sidCid, this`closed, this`cancelled, this`notices)
        && unchanged(clients, tasks)
    {
      ghost var t0 := StateOf(tasks);
      var i := 0;
      while i < |evicted|
        invariant 0 <= i <= |evicted| && Valid()
        invariant unchanged(servers)
        invariant old(cancelled) <= cancelled && PoppedFrom(t0, StateOf(tasks), cancelled)
        invariant forall j :: 0 <= j < i ==>
          evicted[j].0 !in sidCid && evicted[j].0 !in tasks.data && evicted[j].1 in closed
        invariant old(closed) <= closed
        invariant ClientSideAfter(old(clients.data), old(sidCid), old(cidSid.Keys), clients.data, sidCid, cidSid.Keys, closed)
        invariant i == 0 ==>
          && unchanged(this`cidSid, this`sidCid, this`closed, this`cancelled, this`notices)
          && unchanged(clients, tasks)
      {
        ghost var c1, sc1, cs1, closed1 := clients.data, sidCid, cidSid.Keys, closed;
        ghost var t1, cancelled1 := StateOf(tasks), cancelled;
        EvictServerStep(evicted[i].0, evicted[i].1);
        ClientSideAfterTrans(old(clients.data), old(sidCid), old(cidSid.Keys), c1, sc1, cs1,
                             clients.data, sidCid, cidSid.Keys, closed1, closed);
        PoppedFromTrans(t0, t1, StateOf(tasks), cancelled1, cancelled);
        i := i + 1;
      }
    }

    /** The callback for one popped backend connection, as the loop above needs it. */
    method EvictServerStep(sid: string, ws: Handle)
      requires Valid()
      modifies this`cidSid, this`sidCid, this`closed, this`cancelled, this`notices, clients, servers, tasks
      ensures Valid()
      ensures unchanged(servers)
      ensures sid !in sidCid && sid !in tasks.data && ws in closed
      ensures old(closed) <= closed
      ensures ClientSideAfter(old(clients.data), old(sidCid), old(cidSid.Keys), clients.data, sidCid, cidSid.Keys, closed)
      ensures old(cancelled) <= cancelled && PoppedFrom(old(StateOf(tasks)), StateOf(tasks), cancelled)
    {
      EvictServer(sid, ws);
    }

    /** `_sid_task_map.cleanup()` at the forwarding-task registry's clock `wallNow`: the forwarding tasks the
        sweep collects as idle are popped and cancelled. */
    method CleanupTasks(wallNow: int)
      requires Valid()
      modifies this`cancelled, tasks
      ensures Valid()
      ensures var idle := Sweep(old(tasks.heap), old(tasks.timestamps), TaskTimeout, wallNow).1;
        && tasks.data == old(tasks.data) - Keys(idle)
        && (forall s :: s in idle ==> s in old(tasks.data) && old(tasks.data)[s] in cancelled)
      ensures old(cancelled) <= cancelled
    {
      ghost var d0, ts0 := tasks.data, tasks.timestamps;
      ghost var idle := Sweep(tasks.heap, tasks.timestamps, TaskTimeout, wallNow).1;
      var evicted := tasks.Cleanup(wallNow);
      CancelTasks(evicted);
      SweepSound(old(tasks.heap), ts0, TaskTimeout, wallNow);
      forall s | s in idle
        ensures s in d0 && d0[s] in cancelled
      {
        EvictionsCover(idle, d0, {}, s);
        var j :| 0 <= j < |evicted| && evicted[j] == (s, d0[s]);
      }
    }

    /** The loop of `cleanup` over the popped tasks: each is cancelled. */
    method CancelTasks(evicted: seq<(string, Handle)>)
      modifies this`cancelled
      ensures cancelled == old(cancelled) + (set j | 0 <= j < |evicted| :: evicted[j].1)
    {
      var i := 0;
      while i < |evicted|
        invariant 0 <= i <= |evicted|
        invariant cancelled == old(cancelled) + (set j | 0 <= j < i :: evicted[j].1)
      {
        CancelTask(evicted[i].1);
        i := i + 1;
        assert (set j | 0 <= j < i :: evicted[j].1) == (set j | 0 <= j < i - 1 :: evicted[j].1) + {evicted[i - 1].1};
      }
    }

    /** `connection_cleanup` at clocks `now` and `wallNow`: the client, the server and the
        forwarding-task registries are swept in turn, in the order the calls are gathered.  A
        client idle at `now` is gone and closed afterwards; every backend connection the server
        sweep would collect from the registry as it was ends closed and unregistered with its
        task; every task the forwarding-task sweep would collect ends cancelled and unregistered.  When no
        client is idle, the server sweep sees the registry as it was. */
    method ConnectionCleanup(now: int, wallNow: int)
      requires Valid() && PairsRegistered()
      modifies this`cidSid, this`sidCid, this`closed, this`cancelled, this`notices, clients, servers, tasks
      ensures Valid() && PairsRegistered()
      ensures var idle := Sweep(old(servers.heap), old(servers.timestamps), idleTimeout, now).1;
        forall s :: s in idle ==>
          s in old(servers.data) && s !in servers.data && old(servers.data)[s] in closed && s !in sidCid && s !in tasks.data
      ensures var idle := Sweep(old(tasks.heap), old(tasks.timestamps), TaskTimeout, wallNow).1;
        forall t :: t in idle ==> t in old(tasks.data) && t !in tasks.data && old(tasks.data)[t] in cancelled
      ensures var idle := Sweep(old(clients.heap), old(clients.timestamps), idleTimeout, now).1;
        forall c :: c in idle ==> c in old(clients.data) && c !in clients.data && c !in cidSid
      ensures forall c :: c in old(clients.data) && c !in clients.data ==> old(clients.data)[c] in closed
      ensures Sweep(old(clients.heap), old(clients.timestamps), idleTimeout, now).1 == [] ==>
        var idle := Sweep(old(servers.heap), old(servers.timestamps), idleTimeout, now).1;
        forall s :: s in idle ==>
          && s in old(servers.data) && old(servers.data)[s] in closed && s !in servers.data && s !in sidCid
          && (s in old(sidCid) ==> old(sidCid)[s] !in clients.data)
      ensures Sweep(old(clients.heap), old(clients.timestamps), idleTimeout, now).1 == [] &&
              Sweep(old(servers.heap), old(servers.timestamps), idleTimeout, now).1 == [] ==>
        clients.data == old(clients.data) && closed == old(closed)
    {
      ghost var T0 := StateOf(tasks);
      ghost var idleT := Sweep(tasks.heap, tasks.timestamps, TaskTimeout, wallNow).1;
      SweepConnections(now);
      ghost var T1 := StateOf(tasks);
      SweepAfterPops(T0.heap, T0.timestamps, T1.timestamps, TaskTimeout, wallNow);
      SweepSound(T0.heap, T0.timestamps, TaskTimeout, wallNow);
      CleanupTasks(wallNow);
      forall t | t in idleT
        ensures t in T0.data && t !in tasks.data && T0.data[t] in cancelled
      {
        if t in T1.data {
          assert t in Sweep(T1.heap, T1.timestamps, TaskTimeout, wallNow).1;
        }
      }
    }

    /** The first two sweeps of `connection_cleanup`: clients, then backend connections.  Every
        backend connection the server sweep would collect from the registry as it was is gone
        afterwards, closed, unpaired and without its forwarding task: either an idle client's
        callback took it down first, or the sweep still finds it idle. */
    method SweepConnections(now: int)
      requires Valid() && PairsRegistered()
      modifies this`cidSid, this`sidCid, this`closed, this`cancelled, this`notices, clients, servers, tasks
      ensures Valid() && PairsRegistered()
      ensures var idle := Sweep(old(servers.heap), old(servers.timestamps), idleTimeout, now).1;
        forall s :: s in idle ==>
          s in old(servers.data) && s !in servers.data && old(servers.data)[s] in closed && s !in sidCid && s !in tasks.data
      ensures old(cancelled) <= cancelled && PoppedFrom(old(StateOf(tasks)), StateOf(tasks), cancelled)
      ensures var idle := Sweep(old(clients.heap), old(clients.timestamps), idleTimeout, now).1;
        forall c :: c in idle ==> c in old(clients.data) && c !in clients.data && c !in cidSid
      ensures forall c :: c in old(clients.data) && c !in clients.data ==> old(clients.data)[c] in closed
      ensures Sweep(old(clients.heap), old(clients.timestamps), idleTimeout, now).1 == [] ==>
        var idle := Sweep(old(servers.heap), old(servers.timestamps), idleTimeout, now).1;
        forall s :: s in idle ==>
          && s in old(servers.data) && old(servers.data)[s] in closed && s !in servers.data && s !in sidCid
          && (s in old(sidCid) ==> old(sidCid)[s] !in clients.data)
      ensures Sweep(old(clients.heap), old(clients.timestamps), idleTimeout, now).1 == [] &&
              Sweep(old(servers.heap), old(servers.timestamps), idleTimeout, now).1 == [] ==>
        clients.data == old(clients.data) && closed == old(closed)
    {
      ghost var idleC := Sweep(clients.heap, clients.timestamps, idleTimeout, now).1;
      ghost var idleS := Sweep(servers.heap, servers.timestamps, idleTimeout, now).1;
      ghost var c0, s0, sc0 := clients.data, servers.data, sidCid;
      ghost var S0, T0 := StateOf(servers), StateOf(tasks);
      CleanupClients(now);
      assert forall c :: c in idleC ==> c in c0 && c !in clients.data && c !in cidSid;
      assert forall c :: c in c0 && c !in clients.data ==> c0[c] in closed;
      if idleC == [] {
        assert clients.data == c0 && closed == old(closed);
      }
      ghost var S1, T1, cancelled1 := StateOf(servers), StateOf(tasks), cancelled;
      SweepAfterPops(S0.heap, S0.timestamps, S1.timestamps, idleTimeout, now);
      SweepSound(S0.heap, S0.timestamps, idleTimeout, now);
      CleanupServers(now);
      PoppedFromTrans(T0, T1, StateOf(tasks), cancelled1, cancelled);
      forall s | s in idleS
        ensures s in S0.data && s !in servers.data && S0.data[s] in closed && s !in sidCid && s !in tasks.data
      {
        if s in S1.data {
          assert s in Sweep(S1.heap, S1.timestamps, idleTimeout, now).1;
        }
      }
    }
  }

  /** A key stamped at `t0` and never refreshed is collected by a sweep at or after its expiry. */
  lemma SweepIdleKey(ts: map<string, int>, timeout: int, t0: int, now: int, k: string)
    requires k in ts && ts[k] == t0 && t0 + timeout <= now
    ensures Sweep(Insert([], Entry(t0 + timeout, k)), ts, timeout, now).1 == [k]
  {
    assert Insert([], Entry(t0 + timeout, k)) == [Entry(t0 + timeout, k)];
  }

  /** A key stamped at `t0` and refreshed at `t1` survives a sweep before `t1 + timeout`. */
  lemma SweepRefreshedKey(ts: map<string, int>, timeout: int, t0: int, t1: int, now: int, k: string)
    requires k in ts && ts[k] == t1 && t0 < t1 && now < t1 + timeout
    ensures Sweep(Insert(Insert([], Entry(t0 + timeout, k)), Entry(t1 + timeout, k)), ts, timeout, now).1 == []
  {
    var h := Insert(Insert([], Entry(t0 + timeout, k)), Entry(t1 + timeout, k));
    var e0, e1 := Entry(t0 + timeout, k), Entry(t1 + timeout, k);
    assert Insert([], e0) == [e0];
    assert !EntryLe(e1, e0) && [e0][1..] == [];
    assert h == [e0] + Insert([], e1);
  }

  /** A new manager with one client accepted at `t0` and greeted, paired with backend
      connection `sid`.  The scenarios below give no `time_function`, so both clocks read the
      same. */
  method AcceptedClient(timeout: int, t0: int, u: seq<byte>, sid: string, ws: Handle, bws: Handle, task: Handle)
    returns (m: ConnectionManager, cid: string)
    requires IsUuid(u)
    ensures fresh(m) && fresh(m.clients) && fresh(m.servers) && fresh(m.tasks)
    ensures m.Valid() && m.PairsRegistered() && m.idleTimeout == timeout && cid == UuidHex(u) && m.closed == {}
    ensures m.clients.data == map[cid := ws] && cid in m.clients.timestamps && m.clients.timestamps[cid] == t0
    ensures m.clients.heap == Insert([], Entry(t0 + timeout, cid))
    ensures sid in m.servers.data && sid in m.servers.timestamps && m.servers.timestamps[sid] == t0
    ensures m.servers.heap == Insert([], Entry(t0 + timeout, sid))
    ensures cid in m.cidSid && m.cidSid[cid] == sid && sid in m.sidCid && m.sidCid[sid] == cid
  {
    m := new ConnectionManager(timeout, None);
    cid := m.AcceptClientConnection(ws, u, sid, bws, task, t0, t0, Delivered);
  }

  /** The corrected activity update for the client of `AcceptedClient`: both sides of the pair
      are stamped with `t1`, so neither is collected by a sweep at `now` before `t1 + timeout`. */
  method ActiveAgain(m: ConnectionManager, cid: string, sid: string, t0: int, t1: int, now: int)
    requires m.Valid() && m.PairsRegistered() && m.closed == {} && t0 < t1 && now < t1 + m.idleTimeout
    requires cid in m.clients.data && cid in m.cidSid && m.cidSid[cid] == sid && sid in m.servers.data
    requires m.clients.heap == Insert([], Entry(t0 + m.idleTimeout, cid))
    requires m.servers.heap == Insert([], Entry(t0 + m.idleTimeout, sid))
    modifies m.clients`timestamps, m.clients`heap, m.servers`timestamps, m.servers`heap, m.tasks`timestamps, m.tasks`heap
    ensures m.Valid() && m.PairsRegistered() && m.closed == {}
    ensures Sweep(m.clients.heap, m.clients.timestamps, m.idleTimeout, now).1 == []
    ensures Sweep(m.servers.heap, m.servers.timestamps, m.idleTimeout, now).1 == []
  {
    m.UpdateActivity(cid, t1, t1);
    SweepRefreshedKey(m.clients.timestamps, m.idleTimeout, t0, t1, now, cid);
    SweepRefreshedKey(m.servers.timestamps, m.idleTimeout, t0, t1, now, sid);
  }

  /** `_update_activity` as written for the client of `AcceptedClient`: only the client side is
      stamped with `t1`, so a sweep at `now` before `t1 + timeout` keeps the client. */
  method ActiveAgainAsWritten(m: ConnectionManager, cid: string, t0: int, t1: int, now: int)
    requires m.Valid() && m.PairsRegistered() && t0 < t1 && now < t1 + m.idleTimeout
    requires cid in m.clients.data
    requires m.clients.heap == Insert([], Entry(t0 + m.idleTimeout, cid))
    modifies m.clients`timestamps, m.clients`heap
    ensures m.Valid() && m.PairsRegistered()
    ensures Sweep(m.clients.heap, m.clients.timestamps, m.idleTimeout, now).1 == []
  {
    m.UpdateActivityAsWritten(cid, t1);
    SweepRefreshedKey(m.clients.timestamps, m.idleTimeout, t0, t1, now, cid);
  }

  /** test_connection_cleanup: a client accepted at `t0` and never active again is gone and
      closed after a cleanup at or after `t0 + timeout`. */
  method IdleClientReaped(timeout: int, t0: int, now: int, u: seq<byte>, sid: string,
                          ws: Handle, bws: Handle, task: Handle) returns (m: ConnectionManager, cid: string)
    requires IsUuid(u) && t0 + timeout <= now
    ensures cid == UuidHex(u)
    ensures cid !in m.clients.data && ws in m.closed
  {
    m, cid := AcceptedClient(timeout, t0, u, sid, ws, bws, task);
    SweepIdleKey(m.clients.timestamps, timeout, t0, now, cid);
    m.ConnectionCleanup(now, now);
  }

  /** test_activity_updates_prevent_cleanup with `_update_activity` as written: the client is
      active at `t1`, inside its idle period, yet the cleanup at `now`, before `t1 + timeout`,
      reaps the backend connection, which was never refreshed, and its callback closes the
      active client. */
  method ActiveClientReapedAsWritten(timeout: int, t0: int, t1: int, now: int, u: seq<byte>, sid: string,
                                     ws: Handle, bws: Handle, task: Handle) returns (m: ConnectionManager, cid: string)
    requires IsUuid(u) && t0 < t1 && t0 + timeout <= now < t1 + timeout
    ensures cid == UuidHex(u)
    ensures cid !in m.clients.data && ws in m.closed
  {
    m, cid := AcceptedClient(timeout, t0, u, sid, ws, bws, task);
    SweepIdleKey(m.servers.timestamps, timeout, t0, now, sid);
    ActiveAgainAsWritten(m, cid, t0, t1, now);
    m.ConnectionCleanup(now, now);
  }

  /** The same scenario with the corrected `_update_activity`: the client survives the cleanup
      and its websocket stays open. */
  method ActiveClientKept(timeout: int, t0: int, t1: int, now: int, u: seq<byte>, sid: string,
                          ws: Handle, bws: Handle, task: Handle) returns (m: ConnectionManager, cid: string)
    requires IsUuid(u) && t0 < t1 && t0 + timeout <= now < t1 + timeout
    ensures cid == UuidHex(u)
    ensures cid in m.clients.data && m.clients.data[cid] == ws && ws !in m.closed
  {
    m, cid := AcceptedClient(timeout, t0, u, sid, ws, bws, task);
    ActiveAgain(m, cid, sid, t0, t1, now);
    m.ConnectionCleanup(now, now);
  }
}
