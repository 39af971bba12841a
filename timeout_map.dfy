/** The idle-expiry dictionary of `src/utils/collections.py`.

    Every key remembers the clock value of its last `set` or `refresh`; every such touch also
    pushes an `(expiry, key)` entry on a min-heap.  `cleanup` pops the entries that are due and
    evicts a key only when its *current* timestamp is idle for the whole timeout.  The heap is kept
    here as a sequence sorted by Python's tuple order, which is exactly the order `heapq` pops in. */
module Collections {
  import opened Wrappers
  import opened Strings

  /** A heap entry: `(expiration_time, key)`. */
  datatype Entry = Entry(expiry: int, key: string)

  /** Python's `<=` on `(float, str)` tuples: by expiry, ties broken by the key. */
  predicate EntryLe(x: Entry, y: Entry)
  {
    x.expiry < y.expiry || (x.expiry == y.expiry && StrLe(x.key, y.key))
  }

  lemma EntryLeTotal(x: Entry, y: Entry)
    ensures EntryLe(x, y) || EntryLe(y, x)
  {
    StrLeTotal(x.key, y.key);
  }

  lemma EntryLeTrans(x: Entry, y: Entry, z: Entry)
    requires EntryLe(x, y) && EntryLe(y, z)
    ensures EntryLe(x, z)
  {
    if x.expiry == y.expiry == z.expiry {
      StrLeTrans(x.key, y.key, z.key);
    }
  }

  /** Each entry is not greater than the next, so the first entry is the least: the one
      `heappop` returns. */
  ghost predicate Sorted(h: seq<Entry>)
  {
    |h| < 2 || (EntryLe(h[0], h[1]) && Sorted(h[1..]))
  }

  /** `heapq.heappush`: the new entry goes after every entry not greater than it. */
  function Insert(h: seq<Entry>, e: Entry): seq<Entry>
  {
    if h == [] || EntryLe(e, h[0]) then [e] + h else [h[0]] + Insert(h[1..], e)
  }

  /** A push adds exactly the new entry. */
  lemma {:induction false} InsertMultiset(h: seq<Entry>, e: Entry)
    ensures multiset(Insert(h, e)) == multiset(h) + multiset{e}
  {
    if h != [] && !EntryLe(e, h[0]) {
      InsertMultiset(h[1..], e);
      assert h == [h[0]] + h[1..];
    }
  }

  lemma InsertMembers(h: seq<Entry>, e: Entry)
    ensures forall x :: x in Insert(h, e) <==> x in h || x == e
  {
    InsertMultiset(h, e);
    var r := Insert(h, e);
    forall x
      ensures x in r <==> x in h || x == e
    {
      assert x in r <==> x in multiset(r);
      assert x in h <==> x in multiset(h);
    }
  }

  /** Pushing onto a heap keeps it a heap: `heappop` keeps returning the least entry. */
  lemma {:induction false} InsertSorted(h: seq<Entry>, e: Entry)
    requires Sorted(h)
    ensures Sorted(Insert(h, e))
    ensures h != [] ==> Insert(h, e)[0] == if EntryLe(e, h[0]) then e else h[0]
  {
    var r := Insert(h, e);
    if h == [] {
    } else if EntryLe(e, h[0]) {
      assert r[1..] == h;
    } else {
      var t := Insert(h[1..], e);
      InsertSorted(h[1..], e);
      EntryLeTotal(e, h[0]);
      assert r == [h[0]] + t && r[1..] == t;
      if h[1..] != [] {
        assert h[1..][0] == h[1];
      }
    }
  }

  /** The heap loop of `cleanup` at clock `now`, on a heap `h` and the key timestamps `ts`:
      returns the heap it leaves and the keys it collects.  Entries due at `now` are popped; an
      entry whose key is gone is skipped; a key idle for the whole timeout is collected; the first
      popped key that was touched since is pushed back at its real expiry and ends the sweep. */
  function Sweep(h: seq<Entry>, ts: map<string, int>, timeout: int, now: int): (r: (seq<Entry>, seq<string>))
    ensures |r.1| <= |h|
    ensures forall k :: k in r.1 ==> exists e :: e in h && e.key == k && e.expiry <= now
    decreases |h|
  {
    if h == [] || h[0].expiry > now then (h, [])
    else if h[0].key !in ts then Sweep(h[1..], ts, timeout, now)
    else if ts[h[0].key] + timeout <= now then
      var rest := Sweep(h[1..], ts, timeout, now);
      (rest.0, [h[0].key] + rest.1)
    else (Insert(h[1..], Entry(ts[h[0].key] + timeout, h[0].key)), [])
  }

  /** Soundness of `cleanup`: a collected key still exists and has been idle for at least the
      timeout at `now`; so a key touched within the last timeout is never evicted. */
  lemma {:induction false} SweepSound(h: seq<Entry>, ts: map<string, int>, timeout: int, now: int)
    ensures forall k :: k in Sweep(h, ts, timeout, now).1 ==> k in ts && ts[k] + timeout <= now
  {
    if h == [] || h[0].expiry > now {
    } else {
      SweepSound(h[1..], ts, timeout, now);
    }
  }

  /** Popping keys between two sweeps of the same heap loses none of the rest: a key the sweep
      would collect and that is still there is collected from the smaller timestamps too, since
      the popped keys' entries are skipped instead of collected or stopped at. */
  lemma {:induction false} SweepAfterPops(h: seq<Entry>, ts: map<string, int>, ts': map<string, int>,
                                          timeout: int, now: int)
    requires forall k :: k in ts' ==> k in ts && ts'[k] == ts[k]
    ensures forall k :: k in Sweep(h, ts, timeout, now).1 && k in ts' ==> k in Sweep(h, ts', timeout, now).1
  {
    if h == [] || h[0].expiry > now {
    } else if h[0].key !in ts {
      SweepAfterPops(h[1..], ts, ts', timeout, now);
    } else if ts[h[0].key] + timeout <= now {
      SweepAfterPops(h[1..], ts, ts', timeout, now);
    }
  }

  /** The sweep leaves a heap: the next sweep again sees the least entry first. */
  lemma {:induction false} SweepSorted(h: seq<Entry>, ts: map<string, int>, timeout: int, now: int)
    requires Sorted(h)
    ensures Sorted(Sweep(h, ts, timeout, now).0)
  {
    if h == [] || h[0].expiry > now {
    } else if h[0].key !in ts || ts[h[0].key] + timeout <= now {
      SweepSorted(h[1..], ts, timeout, now);
    } else {
      InsertSorted(h[1..], Entry(ts[h[0].key] + timeout, h[0].key));
    }
  }

  /** The bookkeeping `cleanup` relies on is kept: a key not collected still has the entry of its
      current expiry on the heap, so a later sweep will see it. */
  lemma {:induction false} SweepCovers(h: seq<Entry>, ts: map<string, int>, timeout: int, now: int, k: string)
    requires k in ts && Entry(ts[k] + timeout, k) in h
    requires k !in Sweep(h, ts, timeout, now).1
    ensures Entry(ts[k] + timeout, k) in Sweep(h, ts, timeout, now).0
  {
    var e := Entry(ts[k] + timeout, k);
    if h == [] || h[0].expiry > now {
    } else if h[0].key !in ts {
      assert h[0] != e && e in h[1..];
      SweepCovers(h[1..], ts, timeout, now, k);
    } else if ts[h[0].key] + timeout <= now {
      if h[0] == e {
        assert false;
      } else {
        assert e in h[1..];
        SweepCovers(h[1..], ts, timeout, now, k);
      }
    } else {
      InsertMembers(h[1..], Entry(ts[h[0].key] + timeout, h[0].key));
      if h[0] != e {
        assert e in h[1..];
      }
    }
  }

  /** `cleanup` is not complete: it stops at the first refreshed key, so an idle key whose entry
      sorts after it stays until a later sweep.  Keys a and b set at 0 with timeout 10, a refreshed
      at 5; the sweep at 12 pops a, pushes it back at 15 and stops, leaving the idle b. */
  lemma SweepStopsAtRefreshedKey()
    ensures var ts := map["a" := 5, "b" := 0];
            var h := [Entry(10, "a"), Entry(10, "b"), Entry(15, "a")];
            Sorted(h) && ts["b"] + 10 <= 12 && Sweep(h, ts, 10, 12).1 == []
  {
    var ts := map["a" := 5, "b" := 0];
    var h := [Entry(10, "a"), Entry(10, "b"), Entry(15, "a")];
    assert StrLe("a", "b");
    assert Sweep(h, ts, 10, 12) == (Insert(h[1..], Entry(15, "a")), []);
  }

  /** The eviction callbacks that popping `keys` in turn runs, on a store `d` from which the keys
      in `gone` were already popped: when a callback is installed, one per key still present, with
      its value. */
  function Evictions<V>(keys: seq<string>, d: map<string, V>, gone: set<string>, hasCallback: bool)
    : (r: seq<(string, V)>)
    ensures |r| <= |keys|
    ensures !hasCallback ==> r == []
    decreases |keys|
  {
    if keys == [] then []
    else if hasCallback && keys[0] in d && keys[0] !in gone then
      [(keys[0], d[keys[0]])] + Evictions(keys[1..], d, gone + {keys[0]}, hasCallback)
    else Evictions(keys[1..], d, gone + {keys[0]}, hasCallback)
  }

  /** Every callback names a key of `keys` not popped before, with the value `d` stores under it. */
  ghost predicate FromStore<V>(ev: seq<(string, V)>, d: map<string, V>, gone: set<string>, keys: seq<string>)
  {
    forall i :: 0 <= i < |ev| ==> ev[i].0 in keys && ev[i].0 in d && ev[i].0 !in gone && ev[i].1 == d[ev[i].0]
  }

  predicate DistinctKeys<V>(ev: seq<(string, V)>)
  {
    forall i, j :: 0 <= i < j < |ev| ==> ev[i].0 != ev[j].0
  }

  /** Duplicate heap entries cost nothing: each key is handed to the callback at most once, with
      the value stored under it. */
  lemma {:induction false} EvictionsOncePerKey<V>(keys: seq<string>, d: map<string, V>, gone: set<string>,
                                                  hasCallback: bool)
    ensures FromStore(Evictions(keys, d, gone, hasCallback), d, gone, keys)
    ensures DistinctKeys(Evictions(keys, d, gone, hasCallback))
  {
    var ev := Evictions(keys, d, gone, hasCallback);
    if keys == [] {
    } else {
      var k := keys[0];
      var rest := Evictions(keys[1..], d, gone + {k}, hasCallback);
      EvictionsOncePerKey(keys[1..], d, gone + {k}, hasCallback);
      if hasCallback && k in d && k !in gone {
        assert ev == [(k, d[k])] + rest;
        forall i | 0 < i < |ev|
          ensures ev[i].0 in keys && ev[i].0 in d && ev[i].0 !in gone && ev[i].1 == d[ev[i].0]
          ensures ev[i].0 != k
        {
          assert ev[i] == rest[i - 1];
          assert rest[i - 1].0 in keys[1..];
        }
        forall i, j | 0 <= i < j < |ev|
          ensures ev[i].0 != ev[j].0
        {
          if i > 0 {
            assert ev[i] == rest[i - 1] && ev[j] == rest[j - 1];
          }
        }
      } else {
        forall i | 0 <= i < |ev|
          ensures ev[i].0 in keys
        {
          assert ev[i].0 in keys[1..];
        }
      }
    }
  }

  /** Completeness of the callbacks: every collected key that is still stored when its turn comes
      is handed to the callback. */
  lemma {:induction false} EvictionsCover<V>(keys: seq<string>, d: map<string, V>, gone: set<string>, k: string)
    requires k in keys && k in d && k !in gone
    ensures (k, d[k]) in Evictions(keys, d, gone, true)
  {
    var ev := Evictions(keys, d, gone, true);
    if keys[0] == k {
      assert ev[0] == (k, d[k]);
    } else {
      assert k in keys[1..];
      EvictionsCover(keys[1..], d, gone + {keys[0]}, k);
      var rest := Evictions(keys[1..], d, gone + {keys[0]}, true);
      assert ev == rest || ev == [(keys[0], d[keys[0]])] + rest;
    }
  }

  /** The keys of `s` not in `drop`, in order. */
  function Filter(s: seq<string>, drop: set<string>): seq<string>
  {
    if s == [] then [] else (if s[0] in drop then [] else [s[0]]) + Filter(s[1..], drop)
  }

  /** Filtering keeps exactly the keys not dropped. */
  lemma {:induction false} FilterMembers(s: seq<string>, drop: set<string>)
    ensures forall x :: x in Filter(s, drop) <==> x in s && x !in drop
  {
    if s != [] {
      FilterMembers(s[1..], drop);
      assert s == [s[0]] + s[1..];
    }
  }

  lemma {:induction false} FilterTwice(s: seq<string>, a: set<string>, b: set<string>)
    ensures Filter(Filter(s, a), b) == Filter(s, a + b)
  {
    if s != [] {
      FilterTwice(s[1..], a, b);
      var t := Filter(s[1..], a);
      if s[0] in a {
        assert Filter(s, a) == t;
        assert Filter(s, a + b) == Filter(s[1..], a + b);
      } else {
        var fa := Filter(s, a);
        assert fa == [s[0]] + t;
        assert fa[0] == s[0] && fa[1..] == t;
        assert Filter(fa, b) == (if s[0] in b then [] else [s[0]]) + Filter(t, b);
        assert Filter(s, a + b) == (if s[0] in b then [] else [s[0]]) + Filter(s[1..], a + b);
      }
    }
  }

  lemma {:induction false} FilterNothing(s: seq<string>, drop: set<string>)
    requires forall x :: x in drop ==> x !in s
    ensures Filter(s, drop) == s
  {
    if s != [] {
      FilterNothing(s[1..], drop);
      assert s == [s[0]] + s[1..];
    }
  }

  lemma {:induction false} FilterDistinct(s: seq<string>, drop: set<string>)
    requires Distinct(s)
    ensures Distinct(Filter(s, drop))
  {
    if s != [] {
      FilterDistinct(s[1..], drop);
      FilterMembers(s[1..], drop);
      var r := Filter(s, drop);
      if s[0] !in drop {
        assert r == [s[0]] + Filter(s[1..], drop) && r[1..] == Filter(s[1..], drop);
      } else {
        assert r == Filter(s[1..], drop);
      }
    }
  }

  /** No key occurs twice. */
  predicate Distinct(s: seq<string>)
  {
    s == [] || (s[0] !in s[1..] && Distinct(s[1..]))
  }

  /** No element of a distinct sequence occurs before its own position. */
  lemma {:induction false} DistinctAt(s: seq<string>, i: int)
    requires Distinct(s) && 0 <= i < |s|
    ensures s[i] !in s[..i]
  {
    if i > 0 {
      DistinctAt(s[1..], i - 1);
      assert s[..i] == [s[0]] + s[1..][..i - 1];
      assert s[i] == s[1..][i - 1];
    }
  }

  /** In a distinct sequence, different positions hold different keys. */
  lemma DistinctIndices(s: seq<string>)
    requires Distinct(s)
    ensures forall i, j :: 0 <= i < j < |s| ==> s[i] != s[j]
  {
    forall i, j | 0 <= i < j < |s|
      ensures s[i] != s[j]
    {
      DistinctAt(s, j);
      assert s[i] in s[..j];
    }
  }

  lemma {:induction false} AppendDistinct(s: seq<string>, k: string)
    requires Distinct(s) && k !in s
    ensures Distinct(s + [k])
  {
    if s != [] {
      AppendDistinct(s[1..], k);
      assert (s + [k])[1..] == s[1..] + [k];
    }
  }

  function Keys(s: seq<string>): set<string>
  {
    set k | k in s
  }

  /** Every key not under eviction has the entry of its current expiry on the heap. */
  ghost predicate Covers(heap: seq<Entry>, ts: map<string, int>, pending: set<string>, timeout: int)
  {
    forall k :: k in ts && k !in pending ==> Entry(ts[k] + timeout, k) in heap
  }

  /** The bookkeeping of a map whose keys are those of `ts`: `order` lists them once each, the
      heap is sorted and covers every key not under eviction. */
  ghost predicate Consistent(order: seq<string>, ts: map<string, int>, heap: seq<Entry>,
                             pending: set<string>, timeout: int)
  {
    Distinct(order) && (forall k :: k in order <==> k in ts) && Sorted(heap) && Covers(heap, ts, pending, timeout)
  }

  lemma PushConsistent(order: seq<string>, ts: map<string, int>, heap: seq<Entry>, timeout: int, key: string, now: int)
    requires Consistent(order, ts, heap, {}, timeout)
    ensures Consistent(if key in ts then order else order + [key], ts[key := now],
                       Insert(heap, Entry(now + timeout, key)), {}, timeout)
  {
    var e := Entry(now + timeout, key);
    var order', ts', heap' := if key in ts then order else order + [key], ts[key := now], Insert(heap, e);
    InsertSorted(heap, e);
    InsertMembers(heap, e);
    if key !in ts {
      AppendDistinct(order, key);
    }
    assert forall k :: k in order' <==> k in ts';
    assert Covers(heap', ts', {}, timeout) by {
      forall k | k in ts'
        ensures Entry(ts'[k] + timeout, k) in heap'
      {
        if k != key {
          assert Entry(ts[k] + timeout, k) in heap;
        }
      }
    }
  }

  /** Popping keys whose entries may be missing from the heap restores the bookkeeping. */
  lemma PopConsistent(order: seq<string>, ts: map<string, int>, heap: seq<Entry>, pending: set<string>, timeout: int)
    requires Consistent(order, ts, heap, pending, timeout)
    ensures Consistent(Filter(order, pending), ts - pending, heap, {}, timeout)
  {
    var order', ts' := Filter(order, pending), ts - pending;
    FilterDistinct(order, pending);
    FilterMembers(order, pending);
    assert forall k :: k in order' <==> k in ts';
    assert Covers(heap, ts', {}, timeout) by {
      forall k | k in ts'
        ensures Entry(ts'[k] + timeout, k) in heap
      {
        assert k in ts && k !in pending;
      }
    }
  }

  /** The invariant of a `TimeoutMap`: the bookkeeping above, with a timestamp for exactly the
      stored keys. */
  ghost predicate MapInvariant<V>(data: map<string, V>, order: seq<string>, ts: map<string, int>,
                                  heap: seq<Entry>, timeout: int)
  {
    Consistent(order, ts, heap, {}, timeout) && (forall k :: k in data <==> k in ts)
  }

  /** `set` keeps the invariant. */
  lemma SetKeeps<V>(data: map<string, V>, order: seq<string>, ts: map<string, int>, heap: seq<Entry>,
                    timeout: int, key: string, value: V, now: int)
    requires MapInvariant(data, order, ts, heap, timeout)
    ensures MapInvariant(data[key := value], if key in data then order else order + [key], ts[key := now],
                         Insert(heap, Entry(now + timeout, key)), timeout)
  {
    PushConsistent(order, ts, heap, timeout, key, now);
  }

  /** `refresh` of a stored key keeps the invariant. */
  lemma RefreshKeeps<V>(data: map<string, V>, order: seq<string>, ts: map<string, int>, heap: seq<Entry>,
                        timeout: int, key: string, now: int)
    requires MapInvariant(data, order, ts, heap, timeout) && key in data
    ensures MapInvariant(data, order, ts[key := now], Insert(heap, Entry(now + timeout, key)), timeout)
  {
    PushConsistent(order, ts, heap, timeout, key, now);
  }

  /** Removing keys whose heap entries may be missing restores the invariant. */
  lemma RemoveKeeps<V>(data: map<string, V>, order: seq<string>, ts: map<string, int>, heap: seq<Entry>,
                       timeout: int, gone: set<string>)
    requires Consistent(order, ts, heap, gone, timeout) && (forall k :: k in data <==> k in ts)
    ensures MapInvariant(data - gone, Filter(order, gone), ts - gone, heap, timeout)
  {
    PopConsistent(order, ts, heap, gone, timeout);
  }

  /** A sweep keeps the bookkeeping; the keys it collects are the ones now under eviction. */
  lemma SweepConsistent(order: seq<string>, ts: map<string, int>, heap: seq<Entry>, timeout: int, now: int)
    requires Consistent(order, ts, heap, {}, timeout)
    ensures Consistent(order, ts, Sweep(heap, ts, timeout, now).0, Keys(Sweep(heap, ts, timeout, now).1), timeout)
  {
    SweepSorted(heap, ts, timeout, now);
    var sw := Sweep(heap, ts, timeout, now);
    forall k | k in ts && k !in Keys(sw.1)
      ensures Entry(ts[k] + timeout, k) in sw.0
    {
      SweepCovers(heap, ts, timeout, now, k);
    }
  }

  /** The `while` loop of `cleanup` on the heap list and the timestamps it reads: pops the due
      entries, collects the idle keys and re-pushes the first refreshed one. */
  method SweepHeap(heap: seq<Entry>, ts: map<string, int>, timeout: int, now: int)
      returns (h: seq<Entry>, expired: seq<string>)
    ensures (h, expired) == Sweep(heap, ts, timeout, now)
  {
    h := heap;
    expired := [];
    assert Sweep(heap, ts, timeout, now).1 == expired + Sweep(h, ts, timeout, now).1;
    while h != [] && h[0].expiry <= now
      invariant Sweep(heap, ts, timeout, now).0 == Sweep(h, ts, timeout, now).0
      invariant Sweep(heap, ts, timeout, now).1 == expired + Sweep(h, ts, timeout, now).1
      decreases |h|
    {
      var e := h[0];
      ghost var before := h;
      h := h[1..];
      if e.key !in ts {
        assert Sweep(before, ts, timeout, now) == Sweep(h, ts, timeout, now);
        continue;
      }
      var expected := ts[e.key] + timeout;
      if expected <= now {
        ghost var rest := Sweep(h, ts, timeout, now);
        assert Sweep(before, ts, timeout, now) == (rest.0, [e.key] + rest.1);
        assert expired + ([e.key] + rest.1) == (expired + [e.key]) + rest.1;
        expired := expired + [e.key];
      } else {
        h := Insert(h, Entry(expected, e.key));
        assert Sweep(before, ts, timeout, now) == (h, []);
        assert expired + [] == expired;
        break;
      }
    }
    if !(h != [] && h[0].expiry <= now) {
      assert Sweep(h, ts, timeout, now) == (h, []);
      assert expired + [] == expired;
    }
  }

  class TimeoutMap<V> {
    /** `idle_timeout`. */
    const idleTimeout: int
    /** Whether an `evict_callback` was given. */
    const hasCallback: bool

    var data: map<string, V>
    /** The keys of `data` in insertion order, as `dict.keys()` lists them. */
    var order: seq<string>
    var timestamps: map<string, int>
    var heap: seq<Entry>

    ghost predicate Valid()
      reads this
    {
      MapInvariant(data, order, timestamps, heap, idleTimeout)
    }

    constructor (idleTimeout: int, hasCallback: bool)
      ensures Valid()
      ensures this.idleTimeout == idleTimeout && this.hasCallback == hasCallback
      ensures data == map[] && order == [] && timestamps == map[] && heap == []
    {
      this.idleTimeout := idleTimeout;
      this.hasCallback := hasCallback;
      data := map[];
      order := [];
      timestamps := map[];
      heap := [];
    }

    /** `keys()`: every key once, in insertion order. */
    method GetKeys() returns (ks: seq<string>)
      requires Valid()
      ensures Distinct(ks) && (forall k :: k in ks <==> k in data)
      ensures ks == order
    {
      ks := order;
    }

    /** `set(key, value)` at clock `now`: stores the value and restarts the key's idle period. */
    method Set(key: string, value: V, now: int)
      requires Valid()
      modifies this
      ensures Valid()
      ensures data == old(data)[key := value] && timestamps == old(timestamps)[key := now]
      ensures order == if key in old(data) then old(order) else old(order) + [key]
      ensures heap == Insert(old(heap), Entry(now + idleTimeout, key))
    {
      SetKeeps(data, order, timestamps, heap, idleTimeout, key, value, now);
      if key !in data {
        order := order + [key];
      }
      data := data[key := value];
      timestamps := timestamps[key := now];
      heap := Insert(heap, Entry(now + idleTimeout, key));
    }

    /** `get(key)`: the stored value or `None`; the idle period is not restarted. */
    method Get(key: string) returns (item: Option<V>)
      ensures item.Some? <==> key in data
      ensures item.Some? ==> item.value == data[key]
    {
      if key in data {
        item := Some(data[key]);
      } else {
        item := None;
      }
    }

    /** `refresh(key)` at clock `now`: restarts the idle period of a present key; an absent key is
        ignored. */
    method Refresh(key: string, now: int)
      requires Valid()
      modifies this`timestamps, this`heap
      ensures Valid()
      ensures key in old(data) ==>
        timestamps == old(timestamps)[key := now] && heap == Insert(old(heap), Entry(now + idleTimeout, key))
      ensures key !in old(data) ==> unchanged(this`timestamps, this`heap)
    {
      if key in data {
        RestartIdle(key, now);
      }
    }

    /** The body of `refresh` for a stored key. */
    method RestartIdle(key: string, now: int)
      requires Valid() && key in data
      modifies this`timestamps, this`heap
      ensures Valid()
      ensures timestamps == old(timestamps)[key := now] && heap == Insert(old(heap), Entry(now + idleTimeout, key))
    {
      RefreshKeeps(data, order, timestamps, heap, idleTimeout, key, now);
      timestamps := timestamps[key := now];
      heap := Insert(heap, Entry(now + idleTimeout, key));
    }

    /** `pop(key)`: removes the key and returns its value; `fired` tells whether the eviction
        callback runs for it.  The heap keeps the key's stale entries, which `cleanup` skips. */
    method Pop(key: string) returns (item: Option<V>, fired: bool)
      modifies this`data, this`timestamps, this`order
      ensures item == if key in old(data) then Some(old(data)[key]) else None
      ensures fired <==> hasCallback && item.Some?
      ensures data == old(data) - {key} && timestamps == old(timestamps) - {key}
      ensures order == Filter(old(order), {key})
      ensures old(Valid()) ==> Valid()
      ensures old(Valid()) && key !in old(data) ==> unchanged(this)
    {
      if key in data {
        item := Some(data[key]);
      } else {
        item := None;
      }
      fired := hasCallback && item.Some?;
      if Valid() {
        RemoveKeeps(data, order, timestamps, heap, idleTimeout, {key});
        if key !in data {
          FilterNothing(order, {key});
          assert data - {key} == data && timestamps - {key} == timestamps;
        }
      }
      data := data - {key};
      timestamps := timestamps - {key};
      order := Filter(order, {key});
    }

    /** The locked part of `cleanup(now)`: the heap loop, which collects the idle keys.  Their
        heap entries are gone, so until they are popped the bookkeeping holds for the rest. */
    method CollectExpired(now: int) returns (expired: seq<string>)
      requires Valid()
      modifies this`heap
      ensures (heap, expired) == Sweep(old(heap), old(timestamps), idleTimeout, now)
      ensures Consistent(order, timestamps, heap, Keys(expired), idleTimeout)
    {
      SweepConsistent(order, timestamps, heap, idleTimeout, now);
      heap, expired := SweepHeap(heap, timestamps, idleTimeout, now);
    }

    /** `cleanup()` at clock `now`: evicts the keys the sweep collects and returns the callbacks
        that run, in order. */
    method Cleanup(now: int) returns (evicted: seq<(string, V)>)
      requires Valid()
      modifies this
      ensures Valid()
      ensures var sw := Sweep(old(heap), old(timestamps), idleTimeout, now);
              && heap == sw.0
              && data == old(data) - Keys(sw.1) && timestamps == old(timestamps) - Keys(sw.1)
              && order == Filter(old(order), Keys(sw.1))
              && evicted == Evictions(sw.1, old(data), {}, hasCallback)
    {
      var expired := CollectExpired(now);
      ghost var d0, ts0, o0 := data, timestamps, order;
      evicted := PopAll(expired);
      RemoveKeeps(d0, o0, ts0, heap, idleTimeout, Keys(expired));
    }

    /** The unlocked part of `cleanup`: pops every collected key in turn. */
    method PopAll(expired: seq<string>) returns (evicted: seq<(string, V)>)
      modifies this`data, this`timestamps, this`order
      ensures data == old(data) - Keys(expired) && timestamps == old(timestamps) - Keys(expired)
      ensures order == Filter(old(order), Keys(expired))
      ensures evicted == Evictions(expired, old(data), {}, hasCallback)
    {
      ghost var d0, ts0, o0 := data, timestamps, order;
      ghost var gone: set<string> := {};
      FilterNothing(o0, gone);
      evicted := [];
      var i := 0;
      while i < |expired|
        invariant 0 <= i <= |expired| && gone == Keys(expired[..i])
        invariant data == d0 - gone && timestamps == ts0 - gone && order == Filter(o0, gone)
        invariant evicted + Evictions(expired[i..], d0, gone, hasCallback) == Evictions(expired, d0, {}, hasCallback)
      {
        var k := expired[i];
        PopStep(expired, i, d0, gone, data, hasCallback);
        FilterTwice(o0, gone, {k});
        MinusTwice(ts0, gone, {k});
        MinusTwice(d0, gone, {k});
        ghost var ev0 := evicted;
        ghost var tail := Evictions(expired[i + 1..], d0, gone + {k}, hasCallback);
        var item, fired := Pop(k);
        var callback := if fired then [(k, item.value)] else [];
        evicted := evicted + callback;
        Associative(ev0, callback, tail);
        gone := gone + {k};
        i := i + 1;
      }
      assert expired[..i] == expired && expired[i..] == [];
    }
  }

  lemma Associative<T>(a: seq<T>, b: seq<T>, c: seq<T>)
    ensures a + (b + c) == a + b + c
  {
  }

  lemma MinusTwice<W>(m: map<string, W>, a: set<string>, b: set<string>)
    ensures m - a - b == m - (a + b)
  {
  }

  /** One turn of the pop loop of `cleanup`, on values. */
  lemma PopStep<V>(expired: seq<string>, i: int, d0: map<string, V>, gone: set<string>, d: map<string, V>, hasCallback: bool)
    requires 0 <= i < |expired| && gone == Keys(expired[..i]) && d == d0 - gone
    ensures Keys(expired[..i + 1]) == gone + {expired[i]}
    ensures var k := expired[i];
            Evictions(expired[i..], d0, gone, hasCallback)
            == (if hasCallback && k in d then [(k, d[k])] else [])
               + Evictions(expired[i + 1..], d0, gone + {k}, hasCallback)
  {
    assert expired[..i + 1] == expired[..i] + [expired[i]];
    assert expired[i..][0] == expired[i] && expired[i..][1..] == expired[i + 1..];
  }
}
