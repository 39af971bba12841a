/** The path-safety check of `extract_tar_gz`: a tar member is extracted only if the normalised
    absolute form of `join(base, member)` starts, as a string, with the extraction directory.
    POSIX paths are strings; `os.path.normpath` is modelled on their `/`-separated segments. */
module Files {
  import opened Wrappers
  import opened Strings

  // ---------------------------------------------------------------------------------------------
  // Segments

  /** A non-empty segment without separator. */
  predicate Segment(seg: string)
  {
    seg != "" && '/' !in seg
  }

  /** The segment being read, if any. */
  function Emit(cur: string): seq<string>
  {
    if cur == "" then [] else [cur]
  }

  /** The non-empty segments of `s`, the first of them continuing `cur`. */
  function SplitFrom(s: string, cur: string): seq<string>
    decreases |s|
  {
    if s == [] then Emit(cur)
    else if s[0] == '/' then Emit(cur) + SplitFrom(s[1..], "")
    else SplitFrom(s[1..], cur + [s[0]])
  }

  /** The non-empty `/`-separated segments of a path, in order. */
  function Split(s: string): seq<string>
  {
    SplitFrom(s, "")
  }

  /** The segments are non-empty and hold no separator. */
  lemma {:induction false} SplitSegments(s: string, cur: string)
    requires '/' !in cur
    ensures forall i :: 0 <= i < |SplitFrom(s, cur)| ==> Segment(SplitFrom(s, cur)[i])
    decreases |s|
  {
    if s != [] {
      if s[0] == '/' {
        SplitSegments(s[1..], "");
      } else {
        SplitSegments(s[1..], cur + [s[0]]);
      }
    }
  }

  /** Splitting at a separator splits both sides. */
  lemma {:induction false} SplitFromAppend(a: string, b: string, cur: string)
    ensures SplitFrom(a + "/" + b, cur) == SplitFrom(a, cur) + SplitFrom(b, "")
    decreases |a|
  {
    var s := a + "/" + b;
    if a == [] {
      assert s[0] == '/' && s[1..] == b;
    } else {
      assert s[0] == a[0] && s[1..] == a[1..] + "/" + b;
      if a[0] == '/' {
        SplitFromAppend(a[1..], b, "");
      } else {
        SplitFromAppend(a[1..], b, cur + [a[0]]);
      }
    }
  }

  lemma SplitAppend(a: string, b: string)
    ensures Split(a + "/" + b) == Split(a) + Split(b)
  {
    SplitFromAppend(a, b, "");
  }

  /** A separator-free text only extends the segment being read. */
  lemma {:induction false} SplitFromSegment(c: string, cur: string)
    requires '/' !in c
    ensures SplitFrom(c, cur) == Emit(cur + c)
    decreases |c|
  {
    if c != [] {
      SplitFromSegment(c[1..], cur + [c[0]]);
      assert cur + [c[0]] + c[1..] == cur + c;
    } else {
      assert cur + c == cur;
    }
  }

  /** A segment that `normpath` keeps: non-empty, no separator, and not `.` or `..`. */
  predicate Plain(seg: string)
  {
    seg != "" && '/' !in seg && seg != "." && seg != ".."
  }

  /** Segments joined with `/`. */
  function Join(segs: seq<string>): string
  {
    if segs == [] then ""
    else if |segs| == 1 then segs[0]
    else segs[0] + "/" + Join(segs[1..])
  }

  /** Joining a path from two non-empty parts puts one separator between them. */
  lemma {:induction false} JoinAppend(a: seq<string>, b: seq<string>)
    requires a != [] && b != []
    ensures Join(a + b) == Join(a) + "/" + Join(b)
  {
    if |a| > 1 {
      assert (a + b)[1..] == a[1..] + b;
      JoinAppend(a[1..], b);
    } else {
      assert (a + b)[1..] == b;
    }
  }

  /** Splitting a joined path gives the segments back. */
  lemma {:induction false} SplitJoin(segs: seq<string>)
    requires forall i :: 0 <= i < |segs| ==> Segment(segs[i])
    ensures Split(Join(segs)) == segs
  {
    if |segs| == 1 {
      SplitFromSegment(segs[0], "");
      assert "" + segs[0] == segs[0];
    } else if |segs| > 1 {
      SplitAppend(segs[0], Join(segs[1..]));
      SplitFromSegment(segs[0], "");
      assert "" + segs[0] == segs[0];
      SplitJoin(segs[1..]);
    }
  }

  /** The string of an absolute normalised path. */
  function Render(segs: seq<string>): string
  {
    "/" + Join(segs)
  }

  /** Rendering is one-to-one on plain segments. */
  lemma RenderSplit(segs: seq<string>)
    requires forall i :: 0 <= i < |segs| ==> Plain(segs[i])
    ensures Split(Render(segs)) == segs
  {
    RenderSplitSegments(segs);
  }

  /** Rendering is one-to-one on separator-free segments. */
  lemma RenderSplitSegments(segs: seq<string>)
    requires forall i :: 0 <= i < |segs| ==> Segment(segs[i])
    ensures Split(Render(segs)) == segs
  {
    SplitAppend("", Join(segs));
    assert "" + "/" + Join(segs) == Render(segs);
    SplitJoin(segs);
  }

  // ---------------------------------------------------------------------------------------------
  // normpath, abspath and join

  /** One segment of `normpath`: `.` is dropped, `..` removes the last segment (and is dropped at
      the root), anything else is appended. */
  function Step(stack: seq<string>, seg: string): seq<string>
  {
    if seg == "" || seg == "." then stack
    else if seg == ".." then (if stack == [] then [] else stack[..|stack| - 1])
    else stack + [seg]
  }

  /** The segments `normpath` leaves after processing `segs` onto `stack`. */
  function Resolve(stack: seq<string>, segs: seq<string>): (r: seq<string>)
    decreases |segs|
  {
    if segs == [] then stack else Resolve(Step(stack, segs[0]), segs[1..])
  }

  lemma {:induction false} ResolveAppend(stack: seq<string>, a: seq<string>, b: seq<string>)
    ensures Resolve(stack, a + b) == Resolve(Resolve(stack, a), b)
    decreases |a|
  {
    if a != [] {
      assert (a + b)[0] == a[0] && (a + b)[1..] == a[1..] + b;
      assert Resolve(stack, a) == Resolve(Step(stack, a[0]), a[1..]);
      assert Resolve(stack, a + b) == Resolve(Step(stack, a[0]), a[1..] + b);
      ResolveAppend(Step(stack, a[0]), a[1..], b);
    } else {
      assert a + b == b;
    }
  }

  /** Resolving plain segments appends them. */
  lemma {:induction false} ResolvePlain(stack: seq<string>, segs: seq<string>)
    requires forall i :: 0 <= i < |segs| ==> Plain(segs[i])
    ensures Resolve(stack, segs) == stack + segs
    decreases |segs|
  {
    if segs != [] {
      ResolvePlain(stack + [segs[0]], segs[1..]);
      assert stack + [segs[0]] + segs[1..] == stack + segs;
    }
  }

  /** Without `..` nothing is removed: the stack stays a prefix. */
  lemma {:induction false} ResolveNoUp(stack: seq<string>, segs: seq<string>)
    requires forall i :: 0 <= i < |segs| ==> segs[i] != ".."
    ensures |stack| <= |Resolve(stack, segs)| && Resolve(stack, segs)[..|stack|] == stack
    decreases |segs|
  {
    if segs != [] {
      ResolveNoUp(Step(stack, segs[0]), segs[1..]);
    }
  }

  /** Resolving separator-free segments onto plain ones leaves plain segments. */
  lemma {:induction false} ResolveKeepsPlain(stack: seq<string>, segs: seq<string>)
    requires forall i :: 0 <= i < |stack| ==> Plain(stack[i])
    requires forall i :: 0 <= i < |segs| ==> '/' !in segs[i]
    ensures forall i :: 0 <= i < |Resolve(stack, segs)| ==> Plain(Resolve(stack, segs)[i])
    decreases |segs|
  {
    if segs != [] {
      ResolveKeepsPlain(Step(stack, segs[0]), segs[1..]);
    }
  }

  /** `os.path.join(base, name)`: an absolute name replaces the base. */
  function PathJoin(base: string, name: string): (r: string)
    ensures StartsWith(name, "/") ==> r == name
    ensures !StartsWith(name, "/") ==> StartsWith(r, base)
  {
    if StartsWith(name, "/") then name
    else if base == "" || EndsWith(base, "/") then base + name
    else base + "/" + name
  }

  /** The segments of `os.path.abspath(p)` with the working directory `cwd`. */
  function AbsSegments(p: string, cwd: string): (r: seq<string>)
    ensures forall i :: 0 <= i < |r| ==> Plain(r[i])
  {
    var full := if StartsWith(p, "/") then p else cwd + "/" + p;
    SplitSegments(full, "");
    ResolveKeepsPlain([], Split(full));
    Resolve([], Split(full))
  }

  /** `os.path.abspath(p)`: always absolute. */
  function AbsPath(p: string, cwd: string): (r: string)
    ensures StartsWith(r, "/")
  {
    Render(AbsSegments(p, cwd))
  }

  // ---------------------------------------------------------------------------------------------
  // is_safe_path

  /** `is_safe_path(name, base)` as written: a string-prefix test. */
  predicate IsSafePath(name: string, base: string, cwd: string)
  {
    StartsWith(AbsPath(PathJoin(base, name), cwd), base)
  }

  /** `base` is an absolute normalised path: the rendering of plain segments. */
  predicate NormalBase(base: string, segs: seq<string>)
  {
    base == Render(segs) && forall i :: 0 <= i < |segs| ==> Plain(segs[i])
  }

  /** A relative member name without `..` segments is accepted for a normalised absolute base:
      it resolves to the base's segments followed by its own. */
  lemma RelativeNameSafe(name: string, base: string, baseSegs: seq<string>, cwd: string)
    requires NormalBase(base, baseSegs)
    requires !StartsWith(name, "/") && forall i :: 0 <= i < |Split(name)| ==> Split(name)[i] != ".."
    ensures IsSafePath(name, base, cwd)
    ensures InsideBase(AbsSegments(PathJoin(base, name), cwd), baseSegs)
  {
    var joined := PathJoin(base, name);
    var segs := AbsSegments(joined, cwd);
    assert StartsWith(joined, "/");
    if baseSegs == [] {
      assert base == "/";
      assert joined == "/" + name;
      SplitAppend("", name);
      assert "" + "/" + name == joined;
    } else {
      NoTrailingSlash(baseSegs);
      assert joined == base + "/" + name;
      SplitAppend(base, name);
      RenderSplit(baseSegs);
    }
    assert Split(joined) == baseSegs + Split(name);
    ResolveAppend([], baseSegs, Split(name));
    ResolvePlain([], baseSegs);
    assert [] + baseSegs == baseSegs;
    ResolveNoUp(baseSegs, Split(name));
    assert segs[..|baseSegs|] == baseSegs;
    RenderPrefix(baseSegs, segs);
  }

  /** A non-empty join ends with the last segment. */
  lemma {:induction false} JoinLast(segs: seq<string>)
    requires segs != []
    ensures |Join(segs)| >= |segs[|segs| - 1]|
    ensures Join(segs)[|Join(segs)| - |segs[|segs| - 1]|..] == segs[|segs| - 1]
  {
    if |segs| > 1 {
      JoinLast(segs[1..]);
      assert segs[1..][|segs| - 2] == segs[|segs| - 1];
    }
  }

  /** The path lies in the directory: the directory's segments begin its segments. */
  predicate InsideBase(segs: seq<string>, baseSegs: seq<string>)
  {
    |baseSegs| <= |segs| && segs[..|baseSegs|] == baseSegs
  }

  /** A path inside a directory renders as the directory, or the directory and a separator. */
  lemma RenderPrefix(baseSegs: seq<string>, segs: seq<string>)
    requires InsideBase(segs, baseSegs)
    ensures segs == baseSegs || baseSegs == [] || StartsWith(Render(segs), Render(baseSegs) + "/")
    ensures StartsWith(Render(segs), Render(baseSegs))
  {
    if |segs| > |baseSegs| && baseSegs != [] {
      var rest := segs[|baseSegs|..];
      assert segs == baseSegs + rest;
      JoinAppend(baseSegs, rest);
      assert Render(segs) == (Render(baseSegs) + "/") + Join(rest);
    } else if segs != baseSegs {
      assert baseSegs == [];
    }
  }

  /** An absolute member name discards the base: it is accepted iff its own normalised form
      starts with the base. */
  lemma AbsoluteNameIgnoresBase(name: string, base: string, cwd: string)
    requires StartsWith(name, "/")
    ensures IsSafePath(name, base, cwd) <==> StartsWith(AbsPath(name, cwd), base)
  {
    assert PathJoin(base, name) == name;
  }

  /** With a relative base every member is rejected, because the normalised path is absolute. */
  lemma RelativeBaseRejects(name: string, base: string, cwd: string)
    requires base != "" && base[0] != '/'
    ensures !IsSafePath(name, base, cwd)
  {
    var r := AbsPath(PathJoin(base, name), cwd);
    if |base| <= |r| {
      assert r[..|base|][0] == '/';
    }
  }

  /** The segments of the sibling example `/tmp/x/../xy/f`. */
  lemma SiblingSegments()
    ensures Split("/tmp/x/../xy/f") == ["tmp", "x", "..", "xy", "f"]
  {
    var segs := ["tmp", "x", "..", "xy", "f"];
    SiblingJoin();
    assert Render(segs) == "/tmp/x/../xy/f";
    RenderSplitSegments(segs);
  }

  lemma SiblingJoin()
    ensures Join(["tmp", "x", "..", "xy", "f"]) == "tmp/x/../xy/f"
  {
    var segs := ["tmp", "x", "..", "xy", "f"];
    assert segs[1..] == ["x", "..", "xy", "f"];
    assert segs[1..][1..] == ["..", "xy", "f"];
    assert segs[1..][1..][1..] == ["xy", "f"];
    assert segs[1..][1..][1..][1..] == ["f"];
    assert Join(["f"]) == "f";
    assert Join(["xy", "f"]) == "xy/f";
    assert Join(["..", "xy", "f"]) == "../xy/f";
    assert Join(["x", "..", "xy", "f"]) == "x/../xy/f";
  }

  /** The rendering of the sibling's segments. */
  lemma SiblingRender()
    ensures Render(["tmp", "xy", "f"]) == "/tmp/xy/f"
  {
    var segs := ["tmp", "xy", "f"];
    assert segs[1..] == ["xy", "f"];
    assert segs[1..][1..] == ["f"];
    assert Join(["f"]) == "f";
    assert Join(["xy", "f"]) == "xy/f";
    assert Join(segs) == "tmp/xy/f";
  }

  /** `normpath` of the sibling example: `..` removes `x`. */
  lemma SiblingResolves()
    ensures Resolve([], ["tmp", "x", "..", "xy", "f"]) == ["tmp", "xy", "f"]
  {
    var segs := ["tmp", "x", "..", "xy", "f"];
    assert segs[1..] == ["x", "..", "xy", "f"];
    assert segs[2..] == ["..", "xy", "f"];
    assert segs[3..] == ["xy", "f"];
    assert segs[4..] == ["f"];
    assert Resolve([], segs) == Resolve(["tmp"], segs[1..]);
    assert Resolve(["tmp"], segs[1..]) == Resolve(["tmp", "x"], segs[2..]);
    assert ["tmp", "x"][..1] == ["tmp"];
    assert Resolve(["tmp", "x"], segs[2..]) == Resolve(["tmp"], segs[3..]);
    assert Resolve(["tmp"], segs[3..]) == Resolve(["tmp", "xy"], segs[4..]);
    assert Resolve(["tmp", "xy"], segs[4..]) == Resolve(["tmp", "xy", "f"], []);
  }

  /** The sibling `/tmp/xy` of base `/tmp/x` passes the prefix test: `../xy/f` is accepted
      though it resolves outside the base. */
  lemma SiblingAcceptedAsWritten(cwd: string)
    ensures IsSafePath("../xy/f", "/tmp/x", cwd)
    ensures AbsSegments(PathJoin("/tmp/x", "../xy/f"), cwd) == ["tmp", "xy", "f"]
    ensures !InsideBase(["tmp", "xy", "f"], ["tmp", "x"])
  {
    assert "../xy/f"[0] == '.';
    assert "/tmp/x"[5] == 'x';
    assert PathJoin("/tmp/x", "../xy/f") == "/tmp/x/../xy/f";
    SiblingSegments();
    SiblingResolves();
    SiblingRender();
    assert "/tmp/xy/f"[..6] == "/tmp/x";
    assert ["tmp", "xy", "f"][..2][1] == "xy";
  }

  /** The test the prefix test evidently means: the normalised path is the base itself or lies
      below it, compared at a separator. */
  predicate IsSafePathFixed(name: string, base: string, cwd: string)
  {
    UnderAtSeparator(AbsPath(PathJoin(base, name), cwd), base)
  }

  /** For a normalised absolute base the fixed check accepts exactly the members that resolve
      inside the base. */
  lemma FixedMeansInside(name: string, base: string, baseSegs: seq<string>, cwd: string)
    requires NormalBase(base, baseSegs)
    ensures IsSafePathFixed(name, base, cwd)
        <==> InsideBase(AbsSegments(PathJoin(base, name), cwd), baseSegs)
  {
    var segs := AbsSegments(PathJoin(base, name), cwd);
    if InsideBase(segs, baseSegs) {
      InsideRendersUnder(segs, baseSegs);
    }
    if UnderAtSeparator(Render(segs), base) {
      UnderMeansInside(segs, baseSegs);
    }
  }

  /** `r` is `base` or lies below it at a separator. */
  predicate UnderAtSeparator(r: string, base: string)
  {
    r == base || StartsWith(r, if EndsWith(base, "/") then base else base + "/")
  }

  /** A non-empty normalised path has no trailing separator. */
  lemma NoTrailingSlash(segs: seq<string>)
    requires segs != [] && forall i :: 0 <= i < |segs| ==> Plain(segs[i])
    ensures !EndsWith(Render(segs), "/")
  {
    var last := segs[|segs| - 1];
    JoinLast(segs);
    assert Render(segs)[|Render(segs)| - 1] == last[|last| - 1];
  }

  lemma InsideRendersUnder(segs: seq<string>, baseSegs: seq<string>)
    requires InsideBase(segs, baseSegs)
    ensures UnderAtSeparator(Render(segs), Render(baseSegs))
  {
    RenderPrefix(baseSegs, segs);
    if baseSegs == [] {
      assert Render(baseSegs) == "/";
    }
  }

  lemma UnderMeansInside(segs: seq<string>, baseSegs: seq<string>)
    requires forall i :: 0 <= i < |segs| ==> Plain(segs[i])
    requires forall i :: 0 <= i < |baseSegs| ==> Plain(baseSegs[i])
    requires UnderAtSeparator(Render(segs), Render(baseSegs))
    ensures InsideBase(segs, baseSegs)
  {
    var r := Render(segs);
    var base := Render(baseSegs);
    RenderSplit(segs);
    RenderSplit(baseSegs);
    if r == base {
      assert segs == baseSegs;
    } else if baseSegs == [] {
      assert segs[..0] == [];
    } else {
      NoTrailingSlash(baseSegs);
      var tail := r[|base| + 1..];
      assert r == base + "/" + tail;
      SplitAppend(base, tail);
      assert segs == baseSegs + Split(tail);
      assert segs[..|baseSegs|] == baseSegs;
    }
  }

  /** The fixed check rejects the sibling that the prefix test lets through. */
  lemma SiblingRejectedFixed(cwd: string)
    ensures !IsSafePathFixed("../xy/f", "/tmp/x", cwd)
  {
    SiblingAcceptedAsWritten(cwd);
    JoinAppend(["tmp"], ["x"]);
    assert NormalBase("/tmp/x", ["tmp", "x"]);
    FixedMeansInside("../xy/f", "/tmp/x", ["tmp", "x"], cwd);
  }

  // ---------------------------------------------------------------------------------------------
  // extract_tar_gz

  /** The ValueError of an unsafe member. */
  datatype UnsafeMember = UnsafeMember(name: string)

  /** `members[k]` is the first member the safety test rejects. */
  predicate FirstUnsafe(members: seq<string>, base: string, cwd: string, k: int)
  {
    0 <= k < |members| && !IsSafePathFixed(members[k], base, cwd)
    && forall i :: 0 <= i < k ==> IsSafePathFixed(members[i], base, cwd)
  }

  /** `extract_tar_gz`: every member is checked first; the first unsafe one raises and nothing is
      extracted, otherwise all members are extracted.  Returns the extracted names. */
  method ExtractTarGz(members: seq<string>, base: string, cwd: string)
    returns (r: Result<seq<string>, UnsafeMember>)
    ensures r.Ok? <==> forall i :: 0 <= i < |members| ==> IsSafePathFixed(members[i], base, cwd)
    ensures r.Ok? ==> r.value == members
    ensures r.Err? ==> exists k :: FirstUnsafe(members, base, cwd, k) && r.error.name == members[k]
  {
    var i := FirstRejected(members, base, cwd);
    if i < |members| {
      return Err(UnsafeMember(members[i]));
    }
    r := Ok(members);
  }

  /** The checking loop of `extract_tar_gz`: the index of the first member the test rejects, or
      `|members|` when it accepts them all. */
  method FirstRejected(members: seq<string>, base: string, cwd: string) returns (i: int)
    ensures 0 <= i <= |members|
    ensures forall j :: 0 <= j < i ==> IsSafePathFixed(members[j], base, cwd)
    ensures i < |members| ==> FirstUnsafe(members, base, cwd, i)
  {
    i := 0;
    while i < |members| && IsSafePathFixed(members[i], base, cwd)
      invariant 0 <= i <= |members|
      invariant forall j :: 0 <= j < i ==> IsSafePathFixed(members[j], base, cwd)
    {
      i := i + 1;
    }
  }
}
