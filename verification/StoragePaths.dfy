/** Separation of the storage paths: the check on the database host, its twin on
    the controller, and what removing a directory cannot touch. */
module StoragePaths {
  import opened Wrappers
  import opened Text
  import opened BackupFiles
  import opened BackupStore

  // ----- paths as text -----

  /** PurePosixPath(value).parts: the root, if any, and the components that are
      neither empty nor ".". */
  function Parts(value: string): Path {
    Root(value) + Components(Split(value, '/'))
  }

  function Root(value: string): Path {
    if value == "" || value[0] != '/' then []
    else if |value| >= 2 && value[1] == '/' && (|value| == 2 || value[2] != '/') then ["//"]
    else ["/"]
  }

  function Components(pieces: seq<string>): Path {
    if pieces == [] then []
    else (if pieces[0] == "" || pieces[0] == "." then [] else [pieces[0]]) + Components(pieces[1..])
  }

  /** path.is_relative_to(other) */
  predicate IsRelativeTo(path: Path, other: Path) {
    |other| <= |path| && path[..|other|] == other
  }

  predicate Related(p: Path, q: Path) {
    IsRelativeTo(p, q) || IsRelativeTo(q, p)
  }

  // ----- the two checks -----

  /** A configured path: its text, whether it is itself a symlink, and what it
      resolves to. */
  datatype Configured = Configured(value: string, symlink: bool, resolved: Path)

  predicate SafePath(c: Configured) {
    Root(c.value) != [] && !c.symlink && |c.resolved| >= 4
  }

  ghost predicate HostAccepts(cs: seq<Configured>) {
    && (forall i | 0 <= i < |cs| :: SafePath(cs[i]))
    && (forall i, j | 0 <= i < j < |cs| :: !Related(cs[i].resolved, cs[j].resolved))
  }

  /** validate_storage_paths: the nested loops over the configured paths. */
  method ValidateStoragePaths(cs: seq<Configured>) returns (r: Result<seq<Path>>)
    ensures r.Ok? <==> HostAccepts(cs)
    ensures r.Ok? ==> |r.value| == |cs| && forall i | 0 <= i < |cs| :: r.value[i] == cs[i].resolved
  {
    var paths: seq<Path> := [];
    for i := 0 to |cs|
      invariant |paths| == i && forall k | 0 <= k < i :: paths[k] == cs[k].resolved
      invariant HostAccepts(cs[..i])
    {
      var c := cs[i];
      assert cs[..i + 1] == cs[..i] + [c];
      if !SafePath(c) {
        assert !SafePath(cs[i]);
        return Err(UnsafePath);
      }
      for j := 0 to i
        invariant forall k | 0 <= k < j :: !Related(cs[k].resolved, c.resolved)
      {
        if Related(c.resolved, paths[j]) {
          return Err(PathsOverlap);
        }
      }
      paths := paths + [c.resolved];
    }
    assert cs[..|cs|] == cs;
    return Ok(paths);
  }

  ghost predicate ControllerAccepts(values: seq<string>) {
    && (forall i | 0 <= i < |values| ::
          Root(values[i]) != [] && ".." !in Parts(values[i]) && |Parts(values[i])| >= 4)
    && (forall i, j | 0 <= i < j < |values| :: !Related(Parts(values[i]), Parts(values[j])))
  }

  /** mysql_backup_paths_are_separate. */
  method PathsAreSeparate(values: seq<string>) returns (separate: bool)
    ensures separate <==> ControllerAccepts(values)
  {
    var paths: seq<Path> := [];
    for i := 0 to |values|
      invariant |paths| == i && forall k | 0 <= k < i :: paths[k] == Parts(values[k])
      invariant ControllerAccepts(values[..i])
    {
      assert values[..i + 1] == values[..i] + [values[i]];
      var path := Parts(values[i]);
      if Root(values[i]) == [] || ".." in path || |path| < 4 {
        return false;
      }
      for j := 0 to i
        invariant forall k | 0 <= k < j :: !Related(Parts(values[k]), path)
      {
        if Related(path, paths[j]) {
          return false;
        }
      }
      paths := paths + [path];
    }
    assert values[..|values|] == values;
    return true;
  }

  // ----- properties -----

  function ValuesOf(cs: seq<Configured>): (values: seq<string>)
    ensures |values| == |cs| && forall i | 0 <= i < |cs| :: values[i] == cs[i].value
  {
    seq(|cs|, i requires 0 <= i < |cs| => cs[i].value)
  }

  /** A path without symlinks and without "..": it resolves to itself. */
  ghost predicate Plain(c: Configured) {
    !c.symlink && ".." !in Parts(c.value) && c.resolved == Parts(c.value)
  }

  /** On plain paths the two programs accept the same lists. */
  lemma ChecksAgree(cs: seq<Configured>)
    requires forall i | 0 <= i < |cs| :: Plain(cs[i])
    ensures HostAccepts(cs) <==> ControllerAccepts(ValuesOf(cs))
  {
    hide Parts, Root, Related;
    var values := ValuesOf(cs);
    assert forall i | 0 <= i < |cs| :: values[i] == cs[i].value && cs[i].resolved == Parts(values[i]);
    if HostAccepts(cs) {
      forall i | 0 <= i < |values|
        ensures Root(values[i]) != [] && ".." !in Parts(values[i]) && |Parts(values[i])| >= 4
      {
        assert SafePath(cs[i]) && Plain(cs[i]);
      }
    }
  }

  /** shutil.rmtree(dir). */
  function RemoveTree(fs: Tree, dir: Path): Tree {
    map p | p in fs && !IsRelativeTo(p, dir) :: fs[p]
  }

  /** cleanup_local_path. */
  function CleanupLocalPath(fs: Tree, path: Path, root: Path): Result<Tree> {
    if path !in fs then Ok(fs)
    else if !IsRelativeTo(path, root) then Err(OutsideRoot)
    else Ok(RemoveTree(fs, path))
  }

  lemma PrefixesOfOnePath(p: Path, q: Path, whole: Path)
    requires IsRelativeTo(whole, p) && IsRelativeTo(whole, q)
    ensures Related(p, q)
  {
    if |p| <= |q| {
      assert q[..|p|] == whole[..|q|][..|p|] == whole[..|p|] == p;
    } else {
      assert p[..|q|] == whole[..|p|][..|q|] == whole[..|q|] == q;
    }
  }

  lemma RelativeIsTransitive(p: Path, q: Path, r: Path)
    requires IsRelativeTo(p, q) && IsRelativeTo(q, r)
    ensures IsRelativeTo(p, r)
  {
    assert p[..|r|] == p[..|q|][..|r|] == q[..|r|] == r;
  }

  ghost predicate SameUnder(fs: Tree, fs': Tree, root: Path) {
    forall p | IsRelativeTo(p, root) :: SameAt(fs, fs', p)
  }

  lemma RemovalSparesUnrelated(fs: Tree, dir: Path, root: Path)
    requires !Related(dir, root)
    ensures SameUnder(fs, RemoveTree(fs, dir), root)
  {
    forall p | IsRelativeTo(p, root)
      ensures SameAt(fs, RemoveTree(fs, dir), p)
    {
      if IsRelativeTo(p, dir) {
        PrefixesOfOnePath(dir, root, p);
      }
    }
  }

  /** Cleaning up anything inside one accepted storage path leaves every file
      under the other accepted paths as it was. */
  lemma CleanupSparesOtherPaths(cs: seq<Configured>, i: nat, j: nat, fs: Tree, path: Path)
    requires HostAccepts(cs) && i < |cs| && j < |cs| && i != j
    requires CleanupLocalPath(fs, path, cs[i].resolved).Ok?
    ensures SameUnder(fs, CleanupLocalPath(fs, path, cs[i].resolved).value, cs[j].resolved)
  {
    hide Related;
    if path in fs {
      if Related(path, cs[j].resolved) {
        DescendantIsRelated(path, cs[i].resolved, cs[j].resolved);
      }
      RemovalSparesUnrelated(fs, path, cs[j].resolved);
    }
  }

  lemma DescendantIsRelated(p: Path, root: Path, other: Path)
    requires IsRelativeTo(p, root) && Related(p, other)
    ensures Related(root, other) && Related(other, root)
  {
    if IsRelativeTo(p, other) {
      PrefixesOfOnePath(root, other, p);
    } else {
      RelativeIsTransitive(other, p, root);
    }
  }

  lemma AncestorsOfSiblings(p: Path, q: Path, root: Path)
    requires |p| == |q| > 0 && p[..|p| - 1] == q[..|p| - 1]
    ensures IsRelativeTo(p, root) && |root| < |p| ==> IsRelativeTo(q, root)
  {
    if IsRelativeTo(p, root) && |root| < |p| {
      assert q[..|root|] == q[..|p| - 1][..|root|] == p[..|p| - 1][..|root|] == root;
    }
  }

  /** The restore's private copy: a directory created next to the scratch
      directory under a name that was free.  Removing it spares every file of
      the other storage paths that exist. */
  lemma SiblingRemovalSparesPaths(cs: seq<Configured>, scratch: nat, j: nat, fs: Tree, sibling: Path)
    requires HostAccepts(cs) && scratch < |cs| && j < |cs| && scratch != j
    requires |sibling| == |cs[scratch].resolved| > 0
    requires sibling[..|sibling| - 1] == cs[scratch].resolved[..|sibling| - 1]
    requires forall p | IsRelativeTo(p, sibling) :: p !in fs
    requires cs[j].resolved in fs
    ensures !Related(sibling, cs[j].resolved)
    ensures forall fs': Tree :: SameUnder(fs', RemoveTree(fs', sibling), cs[j].resolved)
  {
    var root, home := cs[j].resolved, cs[scratch].resolved;
    assert !Related(root, home) && !Related(home, root) by {
      assert SafePath(cs[j]);
      if scratch < j { assert !Related(home, root); } else { assert !Related(root, home); }
    }
    AncestorsOfSiblings(sibling, home, root);
    forall fs': Tree
      ensures SameUnder(fs', RemoveTree(fs', sibling), root)
    {
      RemovalSparesUnrelated(fs', sibling, root);
    }
  }
}
