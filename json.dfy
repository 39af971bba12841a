/** Parsed JSON values and Python's insertion-ordered `dict`, as the workflow code sees them after
    `json.load`. */
module JsonValues {
  import opened Wrappers
  import opened Strings

  /** A parsed JSON value.  Numbers are integers; an object is its (key, value) pairs in the
      order a Python `dict` iterates them. */
  datatype Json =
    | Null
    | Bool(b: bool)
    | Num(n: int)
    | Str(s: string)
    | Arr(items: seq<Json>)
    | Obj(fields: seq<(string, Json)>)

  /** A Python `dict` keyed by `str`: its entries in insertion order. */
  type Dict<V> = seq<(string, V)>

  /** `list(d.keys())`. */
  function Keys<V>(d: Dict<V>): seq<string>
  {
    if d == [] then [] else [d[0].0] + Keys(d[1..])
  }

  /** A `dict` never holds a key twice. */
  predicate UniqueKeys<V>(d: Dict<V>)
  {
    d == [] || (d[0].0 !in Keys(d[1..]) && UniqueKeys(d[1..]))
  }

  /** `d.get(k)`. */
  function Get<V>(d: Dict<V>, k: string): (r: Option<V>)
    ensures r.Some? <==> k in Keys(d)
    ensures r.Some? ==> (k, r.value) in d
  {
    if d == [] then None else if d[0].0 == k then Some(d[0].1) else Get(d[1..], k)
  }

  /** `d[k] = v`: an existing key keeps its place, a new one goes last. */
  function Put<V>(d: Dict<V>, k: string, v: V): Dict<V>
  {
    if d == [] then [(k, v)]
    else if d[0].0 == k then [(k, v)] + d[1..]
    else [d[0]] + Put(d[1..], k, v)
  }

  /** After `d[k] = v`, `k` maps to `v`, every other key to what it did, and the key order is
      the old one with `k` appended when it is new. */
  lemma {:induction false} PutGet<V>(d: Dict<V>, k: string, v: V)
    ensures Keys(Put(d, k, v)) == if k in Keys(d) then Keys(d) else Keys(d) + [k]
    ensures Get(Put(d, k, v), k) == Some(v)
    ensures forall k' :: k' != k ==> Get(Put(d, k, v), k') == Get(d, k')
  {
    if d != [] && d[0].0 != k {
      PutGet(d[1..], k, v);
      var r := Put(d, k, v);
      assert r[1..] == Put(d[1..], k, v);
    } else if d != [] {
      assert ([(k, v)] + d[1..])[1..] == d[1..];
    }
  }

  lemma {:induction false} KeysLength<V>(d: Dict<V>)
    ensures |Keys(d)| == |d|
    ensures forall i :: 0 <= i < |d| ==> Keys(d)[i] == d[i].0
  {
    if d != [] {
      KeysLength(d[1..]);
    }
  }

  lemma {:induction false} KeysAppend<V>(d: Dict<V>, e: Dict<V>)
    ensures Keys(d + e) == Keys(d) + Keys(e)
  {
    if d == [] {
      assert d + e == e;
    } else {
      KeysAppend(d[1..], e);
      assert (d + e)[1..] == d[1..] + e;
    }
  }

  lemma UniqueTail<V>(d: Dict<V>)
    requires UniqueKeys(d) && d != []
    ensures UniqueKeys(d[1..])
  {
  }

  /** In a dict with unique keys, the first key does not come back later. */
  lemma HeadNotInTail<V>(d: Dict<V>)
    requires UniqueKeys(d) && d != []
    ensures d[0].0 !in Keys(d[1..])
  {
  }

  /** Unique keys, stated on positions: no two entries share a key. */
  lemma {:induction false} UniqueIndices<V>(d: Dict<V>)
    ensures UniqueKeys(d) <==> forall i, j :: 0 <= i < j < |d| ==> d[i].0 != d[j].0
  {
    if d != [] {
      UniqueIndices(d[1..]);
      KeysLength(d[1..]);
      if UniqueKeys(d) {
        forall i, j | 0 <= i < j < |d| ensures d[i].0 != d[j].0 {
          assert d[j].0 == d[1..][j - 1].0;
          if i > 0 {
            assert d[i].0 == d[1..][i - 1].0;
          }
        }
      } else if d[0].0 in Keys(d[1..]) {
        var j :| 0 <= j < |d[1..]| && Keys(d[1..])[j] == d[0].0;
        assert d[j + 1].0 == d[0].0;
      } else {
        var i, j :| 0 <= i < j < |d[1..]| && d[1..][i].0 == d[1..][j].0;
        assert d[i + 1].0 == d[j + 1].0;
      }
    }
  }

  /** Dropping the last entry keeps keys unique. */
  lemma UniqueInit<V>(d: Dict<V>)
    requires UniqueKeys(d) && d != []
    ensures UniqueKeys(d[..|d| - 1])
  {
    UniqueIndices(d);
    UniqueIndices(d[..|d| - 1]);
  }

  /** In a dict with unique keys, the last key is not among the earlier ones. */
  lemma LastNotInInit<V>(d: Dict<V>)
    requires UniqueKeys(d) && d != []
    ensures d[|d| - 1].0 !in Keys(d[..|d| - 1])
  {
    UniqueIndices(d);
    KeysLength(d[..|d| - 1]);
  }

  /** The key of every entry is among the keys. */
  lemma {:induction false} EntryKeys<V>(d: Dict<V>)
    ensures forall e :: e in d ==> e.0 in Keys(d)
  {
    if d != [] {
      EntryKeys(d[1..]);
      assert forall e :: e in d ==> e == d[0] || e in d[1..];
    }
  }

  /** In a dict with unique keys, `Get` finds the value stored with the key. */
  lemma {:induction false} GetUnique<V>(d: Dict<V>, i: int)
    requires UniqueKeys(d) && 0 <= i < |d|
    ensures Get(d, d[i].0) == Some(d[i].1)
  {
    if i > 0 {
      KeysLength(d[1..]);
      assert Keys(d[1..])[i - 1] == d[i].0;
      GetUnique(d[1..], i - 1);
    }
  }

  /** Dicts with the same keys in the same order that agree on every key are equal. */
  lemma {:induction false} DictExt<V>(a: Dict<V>, b: Dict<V>)
    requires UniqueKeys(a) && UniqueKeys(b) && Keys(a) == Keys(b)
    requires forall k :: Get(a, k) == Get(b, k)
    ensures a == b
  {
    if a != [] {
      assert b != [];
      var k := a[0].0;
      assert Keys(a)[0] == k == Keys(b)[0] == b[0].0;
      assert Get(a, k) == Some(a[0].1) && Get(b, k) == Some(b[0].1);
      assert Keys(a[1..]) == Keys(a)[1..] == Keys(b)[1..] == Keys(b[1..]);
      forall k' ensures Get(a[1..], k') == Get(b[1..], k') {
        if k' != k {
          assert Get(a, k') == Get(a[1..], k') && Get(b, k') == Get(b[1..], k');
        }
      }
      DictExt(a[1..], b[1..]);
      assert a == [a[0]] + a[1..] && b == [b[0]] + b[1..];
    }
  }

  /** `d[k] = v` on an existing key gives the dict `d'` that has the same keys, `v` at `k` and
      the same values elsewhere. */
  lemma PutExt<V>(d: Dict<V>, d': Dict<V>, k: string, v: V)
    requires UniqueKeys(d) && UniqueKeys(d') && Keys(d) == Keys(d') && k in Keys(d)
    requires Get(d', k) == Some(v)
    requires forall k' :: k' != k ==> Get(d', k') == Get(d, k')
    ensures Put(d, k, v) == d'
  {
    var r := Put(d, k, v);
    PutGet(d, k, v);
    SameKeysUnique(d, r);
    forall k' ensures Get(r, k') == Get(d', k') {
    }
    DictExt(r, d');
  }

  /** Uniqueness of keys depends on the key sequence only. */
  lemma {:induction false} SameKeysUnique<V, W>(a: Dict<V>, b: Dict<W>)
    requires UniqueKeys(a) && Keys(a) == Keys(b)
    ensures UniqueKeys(b)
  {
    if a != [] {
      assert b != [];
      assert Keys(a)[0] == a[0].0 && Keys(b)[0] == b[0].0;
      assert Keys(a[1..]) == Keys(a)[1..] == Keys(b)[1..] == Keys(b[1..]);
      SameKeysUnique(a[1..], b[1..]);
    }
  }

  /** Python's truth value of a JSON value: `None`, `False`, `0`, `""`, `[]` and `{}` are false. */
  predicate Truthy(j: Json)
  {
    match j
    case Null => false
    case Bool(b) => b
    case Num(n) => n != 0
    case Str(s) => s != []
    case Arr(items) => items != []
    case Obj(fields) => fields != []
  }

  /** Python's `t in s` on two strings: `t` occurs somewhere in `s`. */
  predicate Contains(s: string, t: string)
  {
    StartsWith(s, t) || (s != [] && Contains(s[1..], t))
  }

  /** Python's `key in j` for a string `key`: a key test on an object, an element test on a list,
      a substring test on a string, and a `TypeError` (`None`) on anything else. */
  function In(key: string, j: Json): (r: Option<bool>)
    ensures r.None? <==> j.Null? || j.Bool? || j.Num?
    ensures j.Obj? ==> r == Some(key in Keys(j.fields))
  {
    match j
    case Obj(fields) => Some(key in Keys(fields))
    case Arr(items) => Some(Str(key) in items)
    case Str(s) => Some(Contains(s, key))
    case _ => None
  }
}
