/** The part of the operating system's file system the profile code touches,
    as a map from slash-separated path to node, and the `path/filepath`
    helpers it uses. Permissions, atomicity and partial writes are not
    modelled; the JSON, YAML and CSV codecs are opaque: a file holds the
    decoded value of the one format it was written in. */
module Fs {
  import opened Text
  import opened Models

  /** What a path holds: a JSON profile record, a YAML document, CSV
      records, some other file, or a directory. */
  datatype Node =
    | Record(cfg: Config)
    | Yaml(doc: Config)
    | Csv(rows: seq<seq<string>>)
    | Blob
    | Dir

  class FileSystem {
    var files: map<string, Node>

    constructor (initial: map<string, Node>)
      ensures files == initial
    {
      files := initial;
    }
  }

  // ---------------------------------------------------------------------------
  // path/filepath on clean paths
  // ---------------------------------------------------------------------------

  /** `filepath.Join(dir, name)` for a clean directory and a non-empty name. */
  function PathJoin(dir: string, name: string): string {
    dir + "/" + name
  }

  /** Index of the last '/' in `p`, or -1. */
  function LastSlash(p: string): (r: int)
    ensures -1 <= r < |p|
    ensures r >= 0 ==> p[r] == '/'
    ensures forall k | r < k < |p| :: p[k] != '/'
  {
    if p == [] then -1
    else if p[|p| - 1] == '/' then |p| - 1
    else LastSlash(p[..|p| - 1])
  }

  /** `filepath.Dir` on a clean path: everything before the last separator,
      "/" for a top-level path and "." when there is no separator. */
  function DirOf(p: string): string {
    var i := LastSlash(p);
    if i < 0 then "." else if i == 0 then "/" else p[..i]
  }

  function StripTrailingSlashes(p: string): (r: string)
    ensures |r| <= |p|
  {
    if p != [] && p[|p| - 1] == '/' then StripTrailingSlashes(p[..|p| - 1]) else p
  }

  /** `filepath.Base`: the last element, "." for the empty path and "/" for
      a path made only of separators. */
  function BaseOf(p: string): string {
    if p == "" then "."
    else
      var q := StripTrailingSlashes(p);
      if q == "" then "/" else q[LastSlash(q) + 1..]
  }

  /** Scans `p[..i]` backwards for the extension's dot, stopping at a separator. */
  function ExtFrom(p: string, i: nat): (r: string)
    requires i <= |p|
    ensures HasSuffix(p, r)
  {
    if i == 0 then ""
    else if p[i - 1] == '/' then ""
    else if p[i - 1] == '.' then p[i - 1..]
    else ExtFrom(p, i - 1)
  }

  /** `filepath.Ext`: the suffix from the last dot of the last element. */
  function Ext(p: string): string {
    ExtFrom(p, |p|)
  }

  lemma ExtOfJson(stem: string)
    ensures Ext(stem + ".json") == ".json"
  {
    var p := stem + ".json";
    var n := |p|;
    assert p[n - 5..] == ".json";
    assert p[n - 5] == '.' && p[n - 4] == 'j' && p[n - 3] == 's' && p[n - 2] == 'o' && p[n - 1] == 'n';
    assert ExtFrom(p, n - 4) == ".json";
    assert ExtFrom(p, n - 3) == ".json";
    assert ExtFrom(p, n - 2) == ".json";
    assert ExtFrom(p, n - 1) == ".json";
  }

  lemma DirOfChild(dir: string, name: string)
    requires dir != "" && '/' !in name
    ensures DirOf(PathJoin(dir, name)) == dir
  {
    var p := PathJoin(dir, name);
    assert p[|dir|] == '/';
    assert forall k | |dir| < k < |p| :: p[k] == name[k - |dir| - 1];
    var i := LastSlash(p);
    assert i == |dir|;
    assert p[..i] == dir;
  }

  // ---------------------------------------------------------------------------
  // Directory structure
  // ---------------------------------------------------------------------------

  /** `p` lies strictly below directory `dir`. */
  predicate IsUnder(dir: string, p: string) {
    HasPrefix(p, dir + "/")
  }

  /** `p` is an entry directly inside `dir`. */
  predicate IsChild(dir: string, p: string) {
    IsUnder(dir, p) && |p| > |dir| + 1 && '/' !in p[|dir| + 1..]
  }

  function ChildName(dir: string, p: string): string
    requires IsUnder(dir, p)
  {
    p[|dir| + 1..]
  }

  /** `p` is a directory: "." and "/" always exist. */
  predicate IsDirAt(files: map<string, Node>, p: string) {
    p == "." || p == "/" || (p in files && files[p] == Dir)
  }

  /** Some directory on the way to `p` is a file, so looking `p` up fails
      with ENOTDIR rather than "does not exist". */
  predicate BlockedByFile(files: map<string, Node>, p: string) {
    exists q | q in files && files[q] != Dir :: IsUnder(q, p)
  }

  /** `os.IsNotExist` holds of the error `os.Stat(p)` returns: `p` is absent
      and nothing on its way is a file. */
  predicate StatNotExist(files: map<string, Node>, p: string) {
    p !in files && !BlockedByFile(files, p)
  }

  /** `entries` is what reading directory `dir` returns: each child once,
      by name, in any order (`os.ReadDir` sorts them by name). */
  ghost predicate IsListing(files: map<string, Node>, dir: string, entries: seq<string>) {
    && (forall k | 0 <= k < |entries| :: entries[k] != "" && '/' !in entries[k] && PathJoin(dir, entries[k]) in files)
    && (forall i, j | 0 <= i < j < |entries| :: entries[i] != entries[j])
    && (forall p | p in files && IsChild(dir, p) :: ChildName(dir, p) in entries)
  }

  lemma ChildOfJoin(dir: string, name: string)
    requires name != "" && '/' !in name
    ensures IsChild(dir, PathJoin(dir, name)) && ChildName(dir, PathJoin(dir, name)) == name
  {
    var p := PathJoin(dir, name);
    assert p[..|dir| + 1] == dir + "/";
    assert p[|dir| + 1..] == name;
  }

  // ---------------------------------------------------------------------------
  // os.MkdirAll, os.WriteFile, os.RemoveAll, os.Remove
  // ---------------------------------------------------------------------------

  /** `os.MkdirAll` of a single level: succeeds when `dir` already is a
      directory or does not exist yet (and then creates it). */
  method MkdirAll(fs: FileSystem, dir: string) returns (ok: bool)
    modifies fs
    ensures ok <==> IsDirAt(old(fs.files), dir) || dir !in old(fs.files)
    ensures ok ==> IsDirAt(fs.files, dir)
    ensures fs.files == if ok && !IsDirAt(old(fs.files), dir) then old(fs.files)[dir := Dir] else old(fs.files)
  {
    if IsDirAt(fs.files, dir) {
      ok := true;
    } else if dir in fs.files {
      ok := false;
    } else {
      fs.files := fs.files[dir := Dir];
      ok := true;
    }
  }

  /** The target's parent is a directory and the target itself is not one. */
  predicate CanWrite(files: map<string, Node>, path: string) {
    IsDirAt(files, DirOf(path)) && !IsDirAt(files, path)
  }

  /** `os.WriteFile` / `os.Create`: replaces whatever file was at `path`. */
  method WriteFile(fs: FileSystem, path: string, node: Node) returns (ok: bool)
    modifies fs
    ensures ok == CanWrite(old(fs.files), path)
    ensures fs.files == if ok then old(fs.files)[path := node] else old(fs.files)
  {
    ok := CanWrite(fs.files, path);
    if ok {
      fs.files := fs.files[path := node];
    }
  }

  /** The file system without `dir` and everything below it. */
  function WithoutTree(files: map<string, Node>, dir: string): (r: map<string, Node>)
    ensures forall p | p in r :: p in files && r[p] == files[p] && p != dir && !IsUnder(dir, p)
    ensures forall p | p in files && p != dir && !IsUnder(dir, p) :: p in r
  {
    map p | p in files && p != dir && !IsUnder(dir, p) :: files[p]
  }

  /** `os.RemoveAll` (which cannot fail in this model). */
  method RemoveAll(fs: FileSystem, dir: string)
    modifies fs
    ensures fs.files == WithoutTree(old(fs.files), dir)
  {
    fs.files := WithoutTree(fs.files, dir);
  }

  /** `path` exists and is not a non-empty directory. */
  predicate Removable(files: map<string, Node>, path: string) {
    path in files && !(files[path] == Dir && exists p | p in files :: IsUnder(path, p))
  }

  /** `os.Remove`: fails for a missing path and for a non-empty directory. */
  method Remove(fs: FileSystem, path: string) returns (ok: bool)
    modifies fs
    ensures ok <==> Removable(old(fs.files), path)
    ensures fs.files == if ok then old(fs.files) - {path} else old(fs.files)
  {
    ok := Removable(fs.files, path);
    if ok {
      fs.files := fs.files - {path};
    }
  }
}
