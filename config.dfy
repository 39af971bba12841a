/** The settings: the paths derived from the ComfyUI installation directory, and the first-start
    replacement of the placeholder API key in the `.env` file. */
module Config {
  import opened Wrappers
  import opened Strings

  // ---------------------------------------------------------------------------------------------
  // ComfyUISettings

  /** A `pathlib` path: whether it is rooted, and its segments. */
  datatype PurePath = PurePath(absolute: bool, parts: seq<string>)

  /** `path / rel` for a relative `rel` given by its segments. */
  function Div(p: PurePath, rel: seq<string>): PurePath
  {
    PurePath(p.absolute, p.parts + rel)
  }

  /** `ComfyUISettings.interpreter_path`: `venv/bin/python` below the base. */
  function InterpreterPath(base: PurePath): PurePath
  {
    Div(base, ["venv", "bin", "python"])
  }

  /** `ComfyUISettings.main_path`: `main.py` below the base. */
  function MainPath(base: PurePath): PurePath
  {
    Div(base, ["main.py"])
  }

  /** `ComfyUISettings.workflows_path`: `user/default/workflows` below the base. */
  function WorkflowsPath(base: PurePath): PurePath
  {
    Div(Div(Div(base, ["user"]), ["default"]), ["workflows"])
  }

  /** The three derived paths lie below the base and are pairwise different. */
  lemma SettingsPathsBelowBase(base: PurePath)
    ensures forall p | p in {InterpreterPath(base), MainPath(base), WorkflowsPath(base)} ::
      p.absolute == base.absolute && |p.parts| > |base.parts| && p.parts[..|base.parts|] == base.parts
    ensures WorkflowsPath(base).parts[|base.parts|..] == ["user", "default", "workflows"]
    ensures InterpreterPath(base) != MainPath(base)
    ensures InterpreterPath(base) != WorkflowsPath(base)
    ensures MainPath(base) != WorkflowsPath(base)
  {
    var n := |base.parts|;
    assert InterpreterPath(base).parts[..n] == base.parts;
    assert MainPath(base).parts[..n] == base.parts;
    assert WorkflowsPath(base).parts[..n] == base.parts;
    assert InterpreterPath(base).parts[n] == "venv";
    assert MainPath(base).parts[n] == "main.py";
    assert WorkflowsPath(base).parts[n] == "user";
    assert WorkflowsPath(base).parts == base.parts + ["user", "default", "workflows"];
  }

  // ---------------------------------------------------------------------------------------------
  // AppSettings.ensure_valid_api_key

  /** The placeholder that asks for a key to be generated. */
  const GenerateApiKey := "GENERATE_API_KEY"

  /** The `.env` line prefix of the key. */
  const KeyPrefix := "APP_API_KEY="

  /** A `.env` line after the rewrite with `key`. */
  function Rewritten(line: string, key: string): (r: string)
    ensures StartsWith(line, KeyPrefix) ==> StartsWith(r, KeyPrefix) && ReadKey(r) == key
    ensures !StartsWith(line, KeyPrefix) ==> r == line
  {
    if StartsWith(line, KeyPrefix) then
      var r := KeyPrefix + key + "\n";
      assert r[..|KeyPrefix|] == KeyPrefix;
      assert r[|KeyPrefix|..] == key + "\n";
      r
    else line
  }

  /** The key a `APP_API_KEY=` line sets: the rest of the line without its line break. */
  function ReadKey(line: string): string
    requires StartsWith(line, KeyPrefix)
  {
    var v := line[|KeyPrefix|..];
    if v != [] && v[|v| - 1] == '\n' then v[..|v| - 1] else v
  }

  /** `after` is `before` unless `before` sets the key, in which case `after` sets `key`. */
  predicate KeptOrRekeyed(before: string, after: string, key: string)
  {
    if StartsWith(before, KeyPrefix) then StartsWith(after, KeyPrefix) && ReadKey(after) == key
    else after == before
  }

  /** `AppSettings.ensure_valid_api_key(value)` with the `.env` file's `lines` and the uuid `u` it
      draws.  Returns the key and the new file content, or `None` when the file is left alone. */
  method EnsureValidApiKey(value: string, lines: seq<string>, u: seq<byte>)
    returns (key: string, written: Option<seq<string>>)
    requires IsUuid(u)
    ensures value != GenerateApiKey ==> key == value && written == None
    ensures value == GenerateApiKey ==> key == UuidHex(u) && key != GenerateApiKey
    ensures value == GenerateApiKey ==> written.Some? && |written.value| == |lines|
    ensures value == GenerateApiKey ==> forall i :: 0 <= i < |lines| ==> KeptOrRekeyed(lines[i], written.value[i], key)
  {
    if value != GenerateApiKey {
      return value, None;
    }
    key := UuidHex(u);
    var out: seq<string> := [];
    var i := 0;
    while i < |lines|
      invariant 0 <= i <= |lines| && |out| == i
      invariant forall j :: 0 <= j < i ==> out[j] == Rewritten(lines[j], key)
    {
      out := out + [Rewritten(lines[i], key)];
      i := i + 1;
    }
    written := Some(out);
  }
}
