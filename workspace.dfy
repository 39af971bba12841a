/** Workspace bookkeeping: the dependency-install gate keyed by a fingerprint of the custom nodes'
    `requirements.txt` files, the listing of the five workspace directories without hidden
    entries, and the backup archives named by a checksum that `restore_workspace` picks from.
    Files, archives and hashes are abstract: a directory tree is a set of paths, an archive is
    the tree it extracts to, and md5 and the directory checksum are function parameters. */
module Workspace {
  import opened Wrappers
  import opened Strings

  /** `workspace_dirs`: the directories a workspace consists of. */
  const WorkspaceDirs: seq<string> := ["input", "output", "custom_nodes", "models", "user"]

  /** The suffix of a backup archive's file name. */
  const ArchiveSuffix := ".tar.gz"

  // ---------------------------------------------------------------------------------------------
  // The dependency status table

  /** The sqlite file `.dependencies.db`: missing, or its rows `workspace_hash -> installed`. */
  datatype Table = Missing | Rows(installed: map<string, bool>)

  /** `is_dependencies_installed(db, hash)`: a missing file, a missing row and a False row all
      read as not installed. */
  predicate IsInstalled(table: Table, fingerprint: string)
  {
    table.Rows? && fingerprint in table.installed && table.installed[fingerprint]
  }

  /** `setup_dependency_database`: creates the file with an empty table if it is missing. */
  function SetUp(table: Table): (r: Table)
    ensures r.Rows?
    ensures forall k :: IsInstalled(r, k) == IsInstalled(table, k)
  {
    if table.Missing? then Rows(map[]) else table
  }

  /** `update_dependency_status(db, hash, installed)`: `INSERT OR REPLACE`, so the last write for
      a fingerprint wins and no other row changes. */
  function Upsert(table: Table, fingerprint: string, installed: bool): (r: Table)
    ensures r.Rows?
    ensures IsInstalled(r, fingerprint) == installed
    ensures forall k :: k != fingerprint ==> IsInstalled(r, k) == IsInstalled(table, k)
  {
    Rows(SetUp(table).installed[fingerprint := installed])
  }

  /** One run of `_install_workspace_dependencies` for the current fingerprint: the new table and,
      if the installer ran, whether it succeeded.  An empty fingerprint stops before the lookup. */
  function Gate(table: Table, fingerprint: string, installerOk: bool): (r: (Table, Option<bool>))
    ensures r.0.Rows?
    ensures r.1.Some? <==> fingerprint != "" && !IsInstalled(table, fingerprint)
    ensures r.1.Some? ==> r.1.value == installerOk && IsInstalled(r.0, fingerprint) == installerOk
    ensures forall k :: k != fingerprint ==> IsInstalled(r.0, k) == IsInstalled(table, k)
    ensures r.1.None? ==> IsInstalled(r.0, fingerprint) == IsInstalled(table, fingerprint)
  {
    var t := SetUp(table);
    if fingerprint == "" || IsInstalled(t, fingerprint) then (t, None)
    else (Upsert(t, fingerprint, installerOk), Some(installerOk))
  }

  /** Successive runs with one fingerprint, the installer succeeding or failing as `outcomes`
      says: the final table and the outcomes of the installs actually attempted. */
  function Runs(table: Table, fingerprint: string, outcomes: seq<bool>): (Table, seq<bool>)
    decreases |outcomes|
  {
    if outcomes == [] then (table, [])
    else
      var (t, attempt) := Gate(table, fingerprint, outcomes[0]);
      var (t', attempts) := Runs(t, fingerprint, outcomes[1..]);
      (t', (if attempt.Some? then [attempt.value] else []) + attempts)
  }

  /** How many of the attempts succeeded. */
  function Successes(attempts: seq<bool>): nat
  {
    if attempts == [] then 0 else (if attempts[0] then 1 else 0) + Successes(attempts[1..])
  }

  /** Once the fingerprint is recorded as installed, no run attempts an install again. */
  lemma {:induction false} RunsSkipInstalled(table: Table, fingerprint: string, outcomes: seq<bool>)
    requires IsInstalled(table, fingerprint)
    decreases |outcomes|
    ensures Runs(table, fingerprint, outcomes).1 == []
    ensures IsInstalled(Runs(table, fingerprint, outcomes).0, fingerprint)
  {
    if outcomes != [] {
      var (t, attempt) := Gate(table, fingerprint, outcomes[0]);
      RunsSkipInstalled(t, fingerprint, outcomes[1..]);
    }
  }

  /** With an unchanged fingerprint, the installer succeeds at most once over any number of runs,
      and after a failure it is tried again. */
  lemma {:induction false} AtMostOneSuccessfulInstall(table: Table, fingerprint: string,
                                                      outcomes: seq<bool>)
    decreases |outcomes|
    ensures Successes(Runs(table, fingerprint, outcomes).1) <= 1
  {
    if outcomes != [] {
      var (t, attempt) := Gate(table, fingerprint, outcomes[0]);
      var rest := Runs(t, fingerprint, outcomes[1..]).1;
      if attempt == Some(true) {
        RunsSkipInstalled(t, fingerprint, outcomes[1..]);
        assert Runs(table, fingerprint, outcomes).1 == [true] + rest;
      } else {
        AtMostOneSuccessfulInstall(t, fingerprint, outcomes[1..]);
        var all := (if attempt.Some? then [attempt.value] else []) + rest;
        assert Runs(table, fingerprint, outcomes).1 == all;
        if attempt.Some? {
          assert all[0] == false && all[1..] == rest;
        } else {
          assert all == rest;
        }
      }
    }
  }

  /** The dependency database and the installer runs it gated, in order. */
  class DependencyDb {
    var table: Table
    var installs: seq<(string, bool)>

    constructor(table: Table)
      ensures this.table == table && installs == []
    {
      this.table := table;
      installs := [];
    }

    /** `is_dependencies_installed(db_path, fingerprint)`. */
    method IsDependenciesInstalled(fingerprint: string) returns (installed: bool)
      ensures installed <==> table.Rows? && fingerprint in table.installed && table.installed[fingerprint]
    {
      match table
      case Missing => installed := false;
      case Rows(rows) => installed := fingerprint in rows && rows[fingerprint];
    }

    /** `update_dependency_status(db_path, fingerprint, installed)`. */
    method UpdateDependencyStatus(fingerprint: string, installed: bool)
      modifies this`table
      ensures table == Upsert(old(table), fingerprint, installed)
    {
      table := Upsert(table, fingerprint, installed);
    }

    /** `_install_workspace_dependencies`, with `fingerprint` the value of
        `calculate_custom_nodes_hash` and `installerOk` whether `ensure_node_reqs` returns. */
    method InstallWorkspaceDependencies(fingerprint: string, installerOk: bool)
      modifies this`table, this`installs
      ensures table == Gate(old(table), fingerprint, installerOk).0
      ensures var attempt := Gate(old(table), fingerprint, installerOk).1;
        installs == old(installs) + (if attempt.Some? then [(fingerprint, attempt.value)] else [])
    {
      if table.Missing? {
        table := Rows(map[]);
      }
      if fingerprint == "" {
        return;
      }
      var installed := IsDependenciesInstalled(fingerprint);
      if installed {
        return;
      }
      installs := installs + [(fingerprint, installerOk)];
      UpdateDependencyStatus(fingerprint, installerOk);
    }
  }

  // ---------------------------------------------------------------------------------------------
  // The custom-nodes fingerprint

  /** Every path sorts before the ones after it. */
  predicate PathsSorted(s: seq<string>)
  {
    forall i, j :: 0 <= i < j < |s| ==> StrLe(s[i], s[j])
  }

  /** Inserts a path before the first one it sorts before. */
  function InsertPath(p: string, s: seq<string>): (r: seq<string>)
    ensures multiset(r) == multiset(s) + multiset{p}
    ensures r[0] == p || (s != [] && r[0] == s[0])
  {
    if s == [] then [p]
    else if StrLe(p, s[0]) then [p] + s
    else
      assert s == [s[0]] + s[1..];
      [s[0]] + InsertPath(p, s[1..])
  }

  /** Python's `sorted(paths)`. */
  function SortPaths(s: seq<string>): (r: seq<string>)
    ensures multiset(r) == multiset(s)
  {
    if s == [] then []
    else
      assert s == [s[0]] + s[1..];
      InsertPath(s[0], SortPaths(s[1..]))
  }

  /** A path that sorts before the head of a sorted sequence can go in front of it. */
  lemma SortedCons(x: string, t: seq<string>)
    requires PathsSorted(t) && (t != [] ==> StrLe(x, t[0]))
    ensures PathsSorted([x] + t)
  {
    var r := [x] + t;
    forall i, j | 0 <= i < j < |r| ensures StrLe(r[i], r[j]) {
      if i == 0 && j > 1 {
        StrLeTrans(x, t[0], t[j - 1]);
      }
    }
  }

  lemma {:induction false} InsertPathSorted(p: string, s: seq<string>)
    requires PathsSorted(s)
    ensures PathsSorted(InsertPath(p, s))
  {
    if s == [] {
    } else if StrLe(p, s[0]) {
      SortedCons(p, s);
    } else {
      InsertPathSorted(p, s[1..]);
      var tail := InsertPath(p, s[1..]);
      StrLeTotal(p, s[0]);
      assert StrLe(s[0], tail[0]);
      SortedCons(s[0], tail);
    }
  }

  /** `sorted` sorts and keeps every path. */
  lemma {:induction false} SortPathsSorted(s: seq<string>)
    ensures PathsSorted(SortPaths(s))
  {
    if s != [] {
      SortPathsSorted(s[1..]);
      InsertPathSorted(s[0], SortPaths(s[1..]));
    }
  }

  /** Two sorted sequences holding the same paths start with the same path. */
  lemma SortedSameHead(a: seq<string>, b: seq<string>)
    requires PathsSorted(a) && PathsSorted(b) && multiset(a) == multiset(b) && a != []
    ensures b != [] && a[0] == b[0]
  {
    assert a[0] in multiset(b) && b != [] && b[0] in multiset(a);
    if a[0] != b[0] {
      var k :| 0 <= k < |b| && b[k] == a[0];
      var m :| 0 <= m < |a| && a[m] == b[0];
      assert StrLe(a[0], a[m]) && StrLe(b[0], b[k]);
      StrLeAntisym(a[0], b[0]);
    }
  }

  /** Removing the first element keeps the rest of the paths. */
  lemma TailMultiset(a: seq<string>)
    requires a != []
    ensures multiset(a[1..]) == multiset(a) - multiset{a[0]}
  {
    assert a == [a[0]] + a[1..];
  }

  /** Two sorted sequences holding the same paths are equal. */
  lemma {:induction false} SortedUnique(a: seq<string>, b: seq<string>)
    requires PathsSorted(a) && PathsSorted(b) && multiset(a) == multiset(b)
    ensures a == b
  {
    if a != [] {
      SortedSameHead(a, b);
      TailMultiset(a);
      TailMultiset(b);
      SortedUnique(a[1..], b[1..]);
      assert a == [a[0]] + a[1..] && b == [b[0]] + b[1..];
    } else {
      assert |b| == |multiset(b)| == 0;
    }
  }

  /** The contents read from `paths` in order, a file that cannot be read contributing nothing. */
  function Combined(paths: seq<string>, read: string -> Option<string>): string
  {
    if paths == [] then ""
    else
      var last := read(paths[|paths| - 1]);
      Combined(paths[..|paths| - 1], read) + (if last.Some? then last.value else "")
  }

  /** `calculate_custom_nodes_hash`: md5 of "" without a `custom_nodes` directory or without
      `requirements.txt` files, otherwise md5 of their contents in sorted path order. */
  function Fingerprint(md5: string -> string, customNodesIsDir: bool, found: seq<string>,
                       read: string -> Option<string>): string
  {
    if !customNodesIsDir || found == [] then md5("")
    else md5(Combined(SortPaths(found), read))
  }

  /** The fingerprint is the hash of the contents in sorted order, whatever order the search
      found the files in. */
  lemma FingerprintSortedOrder(md5: string -> string, found: seq<string>, sorted: seq<string>,
                               read: string -> Option<string>)
    requires found != [] && PathsSorted(sorted) && multiset(sorted) == multiset(found)
    ensures Fingerprint(md5, true, found, read) == md5(Combined(sorted, read))
  {
    SortPathsSorted(found);
    SortedUnique(SortPaths(found), sorted);
  }

  /** Two searches that find the same files give the same fingerprint. */
  lemma FingerprintOrderFree(md5: string -> string, isDir: bool, found1: seq<string>,
                             found2: seq<string>, read: string -> Option<string>)
    requires multiset(found1) == multiset(found2)
    ensures Fingerprint(md5, isDir, found1, read) == Fingerprint(md5, isDir, found2, read)
  {
    SortPathsSorted(found1);
    SortPathsSorted(found2);
    SortedUnique(SortPaths(found1), SortPaths(found2));
    assert |found1| == |multiset(found1)| == |multiset(found2)| == |found2|;
  }

  /** `calculate_custom_nodes_hash()`, given whether `custom_nodes` is a directory, what the
      recursive search for `requirements.txt` found, and what reading each file gives. */
  method CalculateCustomNodesHash(md5: string -> string, customNodesIsDir: bool, found: seq<string>,
                                  read: string -> Option<string>)
    returns (hash: string)
    ensures hash == Fingerprint(md5, customNodesIsDir, found, read)
  {
    if !customNodesIsDir || found == [] {
      return md5("");
    }
    var sorted := SortPaths(found);
    var combined := "";
    var i := 0;
    while i < |sorted|
      invariant 0 <= i <= |sorted|
      invariant combined == Combined(sorted[..i], read)
    {
      var content := read(sorted[i]);
      assert sorted[..i + 1][..i] == sorted[..i];
      assert Combined(sorted[..i + 1], read)
          == Combined(sorted[..i], read) + (if content.Some? then content.value else "");
      if content.Some? {
        combined := combined + content.value;
      }
      i := i + 1;
    }
    assert sorted[..i] == sorted;
    hash := md5(combined);
  }

  // ---------------------------------------------------------------------------------------------
  // Listing the workspace

  /** A path below the workspace root, one name per component. */
  type Path = seq<string>

  /** A directory tree: the paths that are directories and the paths that are files.  In a tree
      from a real file system every entry's parent is a directory. */
  datatype Tree = Tree(dirs: set<Path>, files: set<Path>)

  /** A name starting with a dot. */
  predicate Hidden(name: string)
  {
    |name| > 0 && name[0] == '.'
  }

  /** No component below the top directory is hidden: the walk neither prunes it nor skips it. */
  predicate VisibleBelow(p: Path)
  {
    forall i :: 1 <= i < |p| ==> !Hidden(p[i])
  }

  /** What `_get_workspace_paths` adds for one workspace directory `d`: nothing if it does not
      exist; otherwise `d` itself and, if it is a directory, every entry beneath it that has no
      hidden component. */
  function ListedUnder(t: Tree, d: string): set<Path>
  {
    (if [d] in t.dirs || [d] in t.files then {[d]} else {})
    + (if [d] in t.dirs
       then set p | p in t.dirs + t.files && |p| >= 2 && p[0] == d && VisibleBelow(p)
       else {})
  }

  /** The listing of the directories `names`, in turn. */
  function ListedIn(t: Tree, names: seq<string>): set<Path>
  {
    if names == [] then {}
    else ListedIn(t, names[..|names| - 1]) + ListedUnder(t, names[|names| - 1])
  }

  /** The listing of a whole workspace. */
  function Listed(t: Tree): set<Path>
  {
    ListedIn(t, WorkspaceDirs)
  }

  /** An entry is listed iff it lies in one of the listed directories, that directory exists
      (and is a directory when the entry is below it), and no component below it is hidden. */
  lemma {:induction false} ListedInMembers(t: Tree, names: seq<string>, p: Path)
    ensures p in ListedIn(t, names) <==>
      (p in t.dirs || p in t.files) && |p| >= 1 && p[0] in names && VisibleBelow(p)
      && (|p| == 1 || [p[0]] in t.dirs)
  {
    if names != [] {
      ListedInMembers(t, names[..|names| - 1], p);
      assert names == names[..|names| - 1] + [names[|names| - 1]];
      if |p| == 1 {
        assert p == [p[0]];
      }
    }
  }

  /** The workspace listing covers only the five workspace directories and has no hidden entry. */
  lemma ListedMembers(t: Tree, p: Path)
    ensures p in Listed(t) <==>
      (p in t.dirs || p in t.files) && |p| >= 1 && p[0] in WorkspaceDirs && VisibleBelow(p)
      && (|p| == 1 || [p[0]] in t.dirs)
  {
    ListedInMembers(t, WorkspaceDirs, p);
  }

  /** `_get_workspace_paths()`. */
  method GetWorkspacePaths(t: Tree) returns (paths: set<Path>)
    ensures paths == Listed(t)
  {
    paths := {};
    var i := 0;
    while i < |WorkspaceDirs|
      invariant 0 <= i <= |WorkspaceDirs|
      invariant paths == ListedIn(t, WorkspaceDirs[..i])
    {
      var d := WorkspaceDirs[i];
      if [d] in t.dirs || [d] in t.files {
        paths := paths + {[d]};
      }
      if [d] in t.dirs {
        paths := paths + set p | p in t.dirs + t.files && |p| >= 2 && p[0] == d && VisibleBelow(p);
      }
      assert WorkspaceDirs[..i + 1][..i] == WorkspaceDirs[..i];
      i := i + 1;
    }
    assert WorkspaceDirs[..i] == WorkspaceDirs;
  }

  // ---------------------------------------------------------------------------------------------
  // Clearing, backing up and restoring

  /** The entry is a workspace directory that exists, or lies beneath one. */
  predicate InWorkspaceDir(t: Tree, p: Path)
  {
    |p| >= 1 && p[0] in WorkspaceDirs && ([p[0]] in t.dirs || [p[0]] in t.files)
  }

  /** `delete_workspace()`: every listed entry is removed, a directory with everything beneath it;
      since each existing workspace directory is listed, all of them go, hidden content
      included, and everything outside them stays. */
  function Cleared(t: Tree): (r: Tree)
    ensures Listed(r) == {}
  {
    var r := Tree(set p | p in t.dirs && !InWorkspaceDir(t, p),
                  set p | p in t.files && !InWorkspaceDir(t, p));
    assert Listed(r) == {} by {
      forall p ensures p !in Listed(r) {
        ListedMembers(r, p);
        if |p| == 1 {
          assert p == [p[0]];
        }
      }
    }
    r
  }

  /** The copy `backup_workspace` makes in `tmp_backup`: the listed entries, same paths. */
  function Snapshot(t: Tree): (r: Tree)
    ensures r.dirs <= t.dirs && r.files <= t.files
  {
    Tree(set p | p in t.dirs && p in Listed(t), set p | p in t.files && p in Listed(t))
  }

  /** A tree holding only entries a workspace listing would show. */
  predicate ListingShaped(t: Tree)
  {
    forall p :: p in t.dirs + t.files ==>
      |p| >= 1 && p[0] in WorkspaceDirs && VisibleBelow(p) && (|p| == 1 || [p[0]] in t.dirs)
  }

  /** A snapshot lists exactly what it holds. */
  lemma SnapshotListing(t: Tree)
    ensures ListingShaped(Snapshot(t))
    ensures Listed(Snapshot(t)) == Snapshot(t).dirs + Snapshot(t).files
  {
    var s := Snapshot(t);
    forall p | p in s.dirs + s.files
      ensures |p| >= 1 && p[0] in WorkspaceDirs && VisibleBelow(p) && (|p| == 1 || [p[0]] in s.dirs)
    {
      ListedMembers(t, p);
      if |p| > 1 {
        assert [p[0]] in Listed(t) by { ListedMembers(t, [p[0]]); }
      }
    }
    forall p ensures p in Listed(s) <==> p in s.dirs + s.files {
      ListedMembers(s, p);
    }
  }

  /** A backup archive in `.workspace_meta`: its modification time and the tree it extracts to,
      or nothing for an archive that extracts to nothing. */
  datatype Archive = Archive(mtime: int, content: Option<Tree>)

  /** The workspace and the backup archives by file name. */
  datatype Store = Store(tree: Tree, archives: map<string, Archive>)

  /** `f"{checksum}.tar.gz"`. */
  function BackupName(checksum: string): string
  {
    checksum + ArchiveSuffix
  }

  /** The index of the last `.` in `s`, or -1. */
  function LastDot(s: string): (i: int)
    ensures -1 <= i < |s| && (i >= 0 ==> s[i] == '.')
    ensures forall j :: i < j < |s| ==> s[j] != '.'
  {
    if s == [] then -1 else if s[|s| - 1] == '.' then |s| - 1 else LastDot(s[..|s| - 1])
  }

  /** `Path(name).stem`: the name without its last suffix; a leading or trailing dot is not a
      suffix. */
  function Stem(name: string): string
  {
    var i := LastDot(name);
    if 0 < i < |name| - 1 then name[..i] else name
  }

  /** `s.split(".")[0]`: everything before the first dot. */
  function BeforeDot(s: string): (r: string)
    ensures |r| <= |s| && r == s[..|r|] && '.' !in r
    ensures |r| < |s| ==> s[|r|] == '.'
  {
    if s == [] || s[0] == '.' then "" else [s[0]] + BeforeDot(s[1..])
  }

  /** Splitting at the first dot recovers a dot-free prefix. */
  lemma {:induction false} BeforeDotAfter(prefix: string, rest: string)
    requires '.' !in prefix
    ensures BeforeDot(prefix + ("." + rest)) == prefix
  {
    if prefix != [] {
      assert (prefix + ("." + rest))[1..] == prefix[1..] + ("." + rest);
      BeforeDotAfter(prefix[1..], rest);
      assert prefix == [prefix[0]] + prefix[1..];
    }
  }

  /** The checksum `restore_workspace` reads from an archive name: `stem.split(".")[0]`. */
  function ChecksumOf(name: string): string
  {
    BeforeDot(Stem(name))
  }

  /** The backup name round-trips for a checksum without a dot. */
  lemma ChecksumRoundTrip(checksum: string)
    requires '.' !in checksum
    ensures ChecksumOf(BackupName(checksum)) == checksum
  {
    var name := BackupName(checksum);
    var n := |checksum|;
    assert name[n + 4] == '.' && name[n + 5..] == "gz";
    assert LastDot(name) == n + 4;
    assert Stem(name) == checksum + ".tar";
    assert Stem(name) == checksum + ("." + "tar");
    BeforeDotAfter(checksum, "tar");
  }

  /** `backup_workspace()`: archive the snapshot under its checksum (replacing an archive of that
      name), then clear the workspace.  Returns the new store and the archive's name. */
  function Backup(s: Store, dirHash: Tree -> string, now: int): (r: (Store, string))
    ensures r.1 == BackupName(dirHash(Snapshot(s.tree)))
    ensures r.0.tree == Cleared(s.tree)
    ensures r.0.archives == s.archives[r.1 := Archive(now, Some(Snapshot(s.tree)))]
  {
    var snapshot := Snapshot(s.tree);
    var name := BackupName(dirHash(snapshot));
    (Store(Cleared(s.tree), s.archives[name := Archive(now, Some(snapshot))]), name)
  }

  /** The first of `names` with the latest modification time: what a stable sort by time, latest
      first, puts at index 0. */
  function Latest(names: seq<string>, archives: map<string, Archive>): (r: string)
    requires names != [] && forall n :: n in names ==> n in archives
    ensures r in names
    ensures forall n :: n in names ==> archives[n].mtime <= archives[r].mtime
  {
    if |names| == 1 then names[0]
    else
      var rest := Latest(names[1..], archives);
      if archives[names[0]].mtime >= archives[rest].mtime then names[0] else rest
  }

  /** Before the chosen archive, every name is strictly older: ties go to the earlier name. */
  lemma {:induction false} LatestFirst(names: seq<string>, archives: map<string, Archive>, k: int)
    requires names != [] && forall n :: n in names ==> n in archives
    requires 0 <= k < |names| && names[k] == Latest(names, archives)
    requires forall i :: 0 <= i < k ==> names[i] != names[k]
    ensures forall i :: 0 <= i < k ==> archives[names[i]].mtime < archives[names[k]].mtime
  {
    if k > 0 {
      var rest := Latest(names[1..], archives);
      assert names[1..][k - 1] == names[k];
      LatestFirst(names[1..], archives, k - 1);
      forall i | 0 <= i < k ensures archives[names[i]].mtime < archives[names[k]].mtime {
        if i > 0 {
          assert names[1..][i - 1] == names[i];
        }
      }
    }
  }

  /** How `restore_workspace` ends. */
  datatype RestoreOutcome =
    | NoPrevious                 // no other archive to restore
    | EmptyArchive(name: string) // the chosen archive extracted to nothing
    | ChecksumMismatch(name: string)
    | Restored(name: string)

  /** `tree` with its top-level entries named in `items` replaced by those of `extracted`: the
      `shutil.move` of every item of the extracted directory into the workspace. */
  function MovedIn(tree: Tree, extracted: Tree): Tree
  {
    var tops := set p | p in extracted.dirs + extracted.files && |p| >= 1 :: p[0];
    Tree((set p | p in tree.dirs && !(|p| >= 1 && p[0] in tops)) + extracted.dirs,
         (set p | p in tree.files && !(|p| >= 1 && p[0] in tops)) + extracted.files)
  }

  /** `restore_workspace()`, with `listing` the archive names in the order the meta directory
      lists them: back up (which clears the workspace), choose the latest other archive, check
      its checksum, clear again and move its content in, then delete that archive. */
  function Restore(s: Store, dirHash: Tree -> string, now: int, listing: seq<string>)
    : (r: (Store, RestoreOutcome))
    ensures r.1.Restored? ==> r.1.name in listing && r.1.name !in r.0.archives
  {
    var (b, current) := Backup(s, dirHash, now);
    var others := Filter(listing, b.archives, current);
    if others == [] then (b, NoPrevious)
    else
      var chosen := Latest(others, b.archives);
      var content := b.archives[chosen].content;
      if content.None? then (b, EmptyArchive(chosen))
      else if dirHash(content.value) != ChecksumOf(chosen) then (b, ChecksumMismatch(chosen))
      else (Store(MovedIn(Cleared(b.tree), content.value), b.archives - {chosen}), Restored(chosen))
  }

  /** The listed names that are archives other than `current`. */
  function Filter(listing: seq<string>, archives: map<string, Archive>, current: string)
    : (r: seq<string>)
    ensures forall n :: n in r <==> n in listing && n in archives && n != current
  {
    if listing == [] then []
    else
      var rest := Filter(listing[1..], archives, current);
      if listing[0] in archives && listing[0] != current then [listing[0]] + rest else rest
  }

  /** Every restore first archives the current workspace; when it gives up, the workspace is left
      cleared, with nothing listed, and the archives are those after the backup. */
  lemma RestoreBacksUpFirst(s: Store, dirHash: Tree -> string, now: int, listing: seq<string>)
    ensures var (r, outcome) := Restore(s, dirHash, now, listing);
      var name := BackupName(dirHash(Snapshot(s.tree)));
      (outcome.Restored? ==> r.archives == Backup(s, dirHash, now).0.archives - {outcome.name}
                             && name in r.archives)
      && (!outcome.Restored? ==> r == Backup(s, dirHash, now).0 && Listed(r.tree) == {})
      && (name in r.archives ==> r.archives[name] == Archive(now, Some(Snapshot(s.tree))))
  {
  }

  /** The archive restored is the latest one other than the backup just made, and its name
      carries the checksum of its content. */
  lemma RestoreChoosesLatest(s: Store, dirHash: Tree -> string, now: int, listing: seq<string>)
    ensures var (r, outcome) := Restore(s, dirHash, now, listing);
      var b := Backup(s, dirHash, now);
      (outcome.NoPrevious? <==> forall n :: n in listing && n in b.0.archives ==> n == b.1)
      && (!outcome.NoPrevious? ==>
            outcome.name in listing && outcome.name != b.1 && outcome.name in b.0.archives
            && forall n :: n in listing && n in b.0.archives && n != b.1 ==>
                 b.0.archives[n].mtime <= b.0.archives[outcome.name].mtime)
      && (outcome.Restored? ==>
            b.0.archives[outcome.name].content.Some?
            && dirHash(b.0.archives[outcome.name].content.value) == ChecksumOf(outcome.name))
  {
    var b := Backup(s, dirHash, now);
    var others := Filter(listing, b.0.archives, b.1);
    if others == [] {
      forall n | n in listing && n in b.0.archives ensures n == b.1 {
        assert n !in others;
      }
    } else {
      assert others[0] in others;
    }
  }

  /** A successful restore of a snapshot archive makes the workspace list exactly what the
      archive holds. */
  lemma RestoreBringsBack(s: Store, dirHash: Tree -> string, now: int, listing: seq<string>)
    requires var b := Backup(s, dirHash, now).0;
      forall n :: n in b.archives && b.archives[n].content.Some? ==>
        ListingShaped(b.archives[n].content.value)
    ensures var (r, outcome) := Restore(s, dirHash, now, listing);
      outcome.Restored? ==>
        var archived := Backup(s, dirHash, now).0.archives[outcome.name].content.value;
        Listed(r.tree) == archived.dirs + archived.files
  {
    var (r, outcome) := Restore(s, dirHash, now, listing);
    if outcome.Restored? {
      var b := Backup(s, dirHash, now).0;
      var archived := b.archives[outcome.name].content.value;
      var cleared := Cleared(b.tree);
      assert r.tree == MovedIn(cleared, archived);
      MovedInListing(cleared, archived);
    }
  }

  /** Moving a listing-shaped tree into a cleared workspace makes the listing that tree. */
  lemma MovedInListing(cleared: Tree, extracted: Tree)
    requires Listed(cleared) == {} && ListingShaped(extracted)
    ensures Listed(MovedIn(cleared, extracted)) == extracted.dirs + extracted.files
  {
    var m := MovedIn(cleared, extracted);
    var tops := set p | p in extracted.dirs + extracted.files && |p| >= 1 :: p[0];
    forall p ensures p in Listed(m) <==> p in extracted.dirs + extracted.files {
      ListedMembers(m, p);
      if p in extracted.dirs + extracted.files {
        if |p| > 1 {
          assert [p[0]] in extracted.dirs;
        }
      } else if p in Listed(m) {
        assert p in cleared.dirs + cleared.files && p[0] !in tops;
        if |p| > 1 {
          assert [p[0]] in m.dirs;
          assert [p[0]] in cleared.dirs;
        }
        ListedMembers(cleared, p);
        assert false;
      }
    }
  }

  // ---------------------------------------------------------------------------------------------
  // Initialisation

  /** What `mkdir(parents=True, exist_ok=True)` raises on a workspace directory name held by a
      file. */
  datatype InitError = FileExists(name: string)

  /** `names[k]` is the first of `names` taken by a file. */
  predicate FirstClash(t: Tree, names: seq<string>, k: int)
  {
    0 <= k < |names| && [names[k]] in t.files && forall j :: 0 <= j < k ==> [names[j]] !in t.files
  }

  /** The top-level directories named by `names`. */
  function DirsOf(names: seq<string>): set<seq<string>>
  {
    if names == [] then {} else {[names[0]]} + DirsOf(names[1..])
  }

  lemma {:induction false} DirsOfMember(names: seq<string>, d: string)
    ensures [d] in DirsOf(names) <==> d in names
  {
    if names != [] {
      DirsOfMember(names[1..], d);
    }
  }

  /** The `mkdir` loop over `names`, in order: each directory is created unless it exists, and
      the first name taken by a file raises. */
  function Mkdirs(t: Tree, names: seq<string>): (r: (Tree, Option<InitError>))
    ensures r.0.files == t.files
    decreases |names|
  {
    if names == [] then (t, None)
    else if [names[0]] in t.files then (t, Some(FileExists(names[0])))
    else Mkdirs(Tree(t.dirs + {[names[0]]}, t.files), names[1..])
  }

  /** The loop creates every directory when no name is taken by a file; otherwise it raises for
      the first taken name and leaves the directories created before it. */
  lemma {:induction false} MkdirsSpec(t: Tree, names: seq<string>)
    ensures Mkdirs(t, names).1.None? <==> forall d :: d in names ==> [d] !in t.files
    ensures Mkdirs(t, names).1.None? ==> Mkdirs(t, names).0.dirs == t.dirs + DirsOf(names)
    ensures Mkdirs(t, names).1.Some? ==>
      exists k :: FirstClash(t, names, k) && Mkdirs(t, names).1.value == FileExists(names[k])
        && Mkdirs(t, names).0.dirs == t.dirs + DirsOf(names[..k])
    decreases |names|
  {
    if names == [] {
    } else if [names[0]] in t.files {
      assert FirstClash(t, names, 0) && names[..0] == [];
    } else {
      var t' := Tree(t.dirs + {[names[0]]}, t.files);
      MkdirsSpec(t', names[1..]);
      assert forall d :: d in names <==> d == names[0] || d in names[1..];
      var r := Mkdirs(t', names[1..]);
      if r.1.Some? {
        var k :| FirstClash(t', names[1..], k) && r.1.value == FileExists(names[1..][k])
                 && r.0.dirs == t'.dirs + DirsOf(names[1..][..k]);
        assert names[..k + 1][1..] == names[1..][..k];
        assert FirstClash(t, names, k + 1);
      }
    }
  }

  /** The directory creation of `ensure_workspace_initialized()`: every workspace directory
      exists afterwards and is listed, unless one of their names is taken by a file; then `mkdir`
      raises for the first such name and the directories before it in `workspace_dirs` have
      already been created. */
  function EnsureWorkspaceInitialized(t: Tree): (r: (Tree, Option<InitError>))
    ensures r.1.None? <==> forall d :: d in WorkspaceDirs ==> [d] !in t.files
    ensures r.0.files == t.files && t.dirs <= r.0.dirs
    ensures r.1.None? ==> forall d :: d in WorkspaceDirs ==> [d] in r.0.dirs && [d] in Listed(r.0)
    ensures r.1.Some? ==>
      exists k :: FirstClash(t, WorkspaceDirs, k) && r.1.value == FileExists(WorkspaceDirs[k])
        && (forall j :: 0 <= j < k ==> [WorkspaceDirs[j]] in r.0.dirs)
        && r.0.dirs == t.dirs + DirsOf(WorkspaceDirs[..k])
  {
    var r := Mkdirs(t, WorkspaceDirs);
    MkdirsSpec(t, WorkspaceDirs);
    if r.1.None? then
      assert forall d :: d in WorkspaceDirs ==> [d] in r.0.dirs && [d] in Listed(r.0) by {
        forall d | d in WorkspaceDirs ensures [d] in r.0.dirs && [d] in Listed(r.0) {
          DirsOfMember(WorkspaceDirs, d);
          ListedMembers(r.0, [d]);
        }
      }
      r
    else
      var k :| FirstClash(t, WorkspaceDirs, k) && r.1.value == FileExists(WorkspaceDirs[k])
               && r.0.dirs == t.dirs + DirsOf(WorkspaceDirs[..k]);
      assert forall j :: 0 <= j < k ==> [WorkspaceDirs[j]] in r.0.dirs by {
        forall j | 0 <= j < k ensures [WorkspaceDirs[j]] in r.0.dirs {
          assert WorkspaceDirs[..k][j] == WorkspaceDirs[j];
          DirsOfMember(WorkspaceDirs[..k], WorkspaceDirs[j]);
        }
      }
      r
  }
}
