/** String and byte helpers shared by the modules: Python's ordering of `str`, prefix tests, and the
    hexadecimal text that `uuid.uuid4()` produces. */
module Strings {

  /** A byte, as Python's `bytes` holds them. */
  type byte = b: int | 0 <= b < 256

  /** Python's `a <= b` on `str`: lexicographic by code point, a prefix sorts first. */
  predicate StrLe(a: string, b: string)
  {
    if a == [] then true
    else if b == [] then false
    else if a[0] != b[0] then a[0] < b[0]
    else StrLe(a[1..], b[1..])
  }

  lemma {:induction false} StrLeTotal(a: string, b: string)
    ensures StrLe(a, b) || StrLe(b, a)
  {
    if a != [] && b != [] && a[0] == b[0] {
      StrLeTotal(a[1..], b[1..]);
    }
  }

  lemma {:induction false} StrLeTrans(a: string, b: string, c: string)
    requires StrLe(a, b) && StrLe(b, c)
    ensures StrLe(a, c)
  {
    if a != [] && b != [] && c != [] && a[0] == b[0] && b[0] == c[0] {
      StrLeTrans(a[1..], b[1..], c[1..]);
    }
  }

  lemma {:induction false} StrLeAntisym(a: string, b: string)
    requires StrLe(a, b) && StrLe(b, a)
    ensures a == b
  {
    if a != [] && b != [] {
      StrLeAntisym(a[1..], b[1..]);
      assert a == [a[0]] + a[1..];
      assert b == [b[0]] + b[1..];
    }
  }

  /** Python's `s.startswith(prefix)`. */
  predicate StartsWith(s: string, prefix: string)
  {
    |prefix| <= |s| && s[..|prefix|] == prefix
  }

  /** Python's `s.endswith(suffix)`. */
  predicate EndsWith(s: string, suffix: string)
  {
    |suffix| <= |s| && s[|s| - |suffix|..] == suffix
  }

  predicate IsHexChar(c: char)
  {
    '0' <= c <= '9' || 'a' <= c <= 'f'
  }

  function HexDigit(n: int): (c: char)
    requires 0 <= n < 16
    ensures IsHexChar(c)
  {
    if n < 10 then '0' + n as char else 'a' + (n - 10) as char
  }

  /** `bytes.hex()`: two lower-case hexadecimal digits per byte, high nibble first. */
  function Hex(bs: seq<byte>): (r: string)
    ensures |r| == 2 * |bs|
  {
    if bs == [] then [] else [HexDigit(bs[0] / 16), HexDigit(bs[0] % 16)] + Hex(bs[1..])
  }

  lemma {:induction false} HexDigits(bs: seq<byte>)
    ensures forall c :: c in Hex(bs) ==> IsHexChar(c)
  {
    if bs != [] {
      HexDigits(bs[1..]);
    }
  }

  lemma {:induction false} HexAppend(a: seq<byte>, b: seq<byte>)
    ensures Hex(a + b) == Hex(a) + Hex(b)
  {
    if a == [] {
      assert a + b == b;
    } else {
      assert (a + b)[0] == a[0];
      assert (a + b)[1..] == a[1..] + b;
      HexAppend(a[1..], b);
    }
  }

  /** A version-4 uuid is 16 bytes; its `str()` is the 8-4-4-4-12 dashed hex form. */
  predicate IsUuid(u: seq<byte>)
  {
    |u| == 16
  }

  /** The byte groups of the dashed form. */
  function UuidGroups(u: seq<byte>): seq<seq<byte>>
    requires IsUuid(u)
  {
    [u[..4], u[4..6], u[6..8], u[8..10], u[10..]]
  }

  function Concat(gs: seq<seq<byte>>): seq<byte>
  {
    if gs == [] then [] else gs[0] + Concat(gs[1..])
  }

  /** The groups in hex, joined by dashes. */
  function DashJoin(gs: seq<seq<byte>>): string
    requires gs != []
  {
    if |gs| == 1 then Hex(gs[0]) else Hex(gs[0]) + "-" + DashJoin(gs[1..])
  }

  function UuidStr(u: seq<byte>): string
    requires IsUuid(u)
  {
    DashJoin(UuidGroups(u))
  }

  /** Python's `s.replace(c, "")` for one character. */
  function RemoveChar(s: string, c: char): (r: string)
    ensures c !in r
  {
    if s == [] then [] else (if s[0] == c then [] else [s[0]]) + RemoveChar(s[1..], c)
  }

  lemma {:induction false} RemoveCharAppend(a: string, b: string, c: char)
    ensures RemoveChar(a + b, c) == RemoveChar(a, c) + RemoveChar(b, c)
  {
    if a == [] {
      assert a + b == b;
    } else {
      assert (a + b)[0] == a[0];
      assert (a + b)[1..] == a[1..] + b;
      RemoveCharAppend(a[1..], b, c);
    }
  }

  lemma {:induction false} RemoveCharAbsent(s: string, c: char)
    requires c !in s
    ensures RemoveChar(s, c) == s
  {
    if s != [] {
      RemoveCharAbsent(s[1..], c);
    }
  }

  lemma HexHasNoDash(bs: seq<byte>)
    ensures '-' !in Hex(bs)
  {
    HexDigits(bs);
  }

  /** `uuid.uuid4().hex`. */
  function UuidHex(u: seq<byte>): (r: string)
    requires IsUuid(u)
    ensures |r| == 32
  {
    Hex(u)
  }

  lemma HexThenDash(p: seq<byte>, rest: string)
    ensures RemoveChar(Hex(p) + "-" + rest, '-') == Hex(p) + RemoveChar(rest, '-')
  {
    var h, t := Hex(p), "-" + rest;
    HexHasNoDash(p);
    RemoveCharAbsent(h, '-');
    assert h + "-" + rest == h + t;
    RemoveCharAppend(h, t, '-');
    assert t[1..] == rest;
  }

  /** Dropping the dashes of the joined form leaves the hex of all the bytes. */
  lemma {:induction false} DashJoinWithoutDashes(gs: seq<seq<byte>>)
    requires gs != []
    ensures RemoveChar(DashJoin(gs), '-') == Hex(Concat(gs))
  {
    if |gs| == 1 {
      HexHasNoDash(gs[0]);
      RemoveCharAbsent(Hex(gs[0]), '-');
      assert Concat(gs) == gs[0] + Concat([]);
      assert gs[0] + [] == gs[0];
    } else {
      HexThenDash(gs[0], DashJoin(gs[1..]));
      DashJoinWithoutDashes(gs[1..]);
      HexAppend(gs[0], Concat(gs[1..]));
    }
  }

  /** `str(uuid.uuid4()).replace('-', '')`, the connection-id recipe, equals `uuid.uuid4().hex`. */
  lemma UuidStrWithoutDashes(u: seq<byte>)
    requires IsUuid(u)
    ensures RemoveChar(UuidStr(u), '-') == UuidHex(u)
  {
    var gs := UuidGroups(u);
    DashJoinWithoutDashes(gs);
    assert Concat(gs[4..]) == u[10..] by {
      assert Concat(gs[5..]) == [];
    }
    assert Concat(gs[3..]) == u[8..];
    assert Concat(gs[2..]) == u[6..];
    assert Concat(gs[1..]) == u[4..];
    assert Concat(gs) == u;
  }
}
