/** The repository of physical backups: copy, verify, mark, as store_backup does
    it, stopped at any step. */
module BackupStore {
  import opened Wrappers
  import opened BackupFiles

  // ----- the repository as one file system -----

  predicate Under(dir: Path, p: Path) {
    |dir| < |p| && p[..|dir|] == dir
  }

  function Below(fs: Tree, dir: Path): set<Path> {
    set p | p in fs && Under(dir, p) :: p[|dir|..]
  }

  lemma BelowIsRelative(fs: Tree, dir: Path, r: Path)
    ensures r in Below(fs, dir) <==> r != [] && dir + r in fs
  {
    assert (dir + r)[..|dir|] == dir && (dir + r)[|dir|..] == r;
    if r in Below(fs, dir) {
      var p :| p in fs && Under(dir, p) && p[|dir|..] == r;
      assert p == dir + r;
    }
  }

  /** The tree under a directory, by relative path. */
  function Sub(fs: Tree, dir: Path): Tree {
    map r | r in Below(fs, dir) && dir + r in fs :: fs[dir + r]
  }

  lemma SubAt(fs: Tree, dir: Path, r: Path)
    ensures r in Sub(fs, dir) <==> r != [] && dir + r in fs
    ensures r in Sub(fs, dir) ==> Sub(fs, dir)[r] == fs[dir + r]
  {
    BelowIsRelative(fs, dir, r);
  }

  ghost predicate SameAt(t: Tree, u: Tree, p: Path) {
    (p in t <==> p in u) && (p in t ==> t[p] == u[p])
  }

  lemma SameEverywhere(t: Tree, u: Tree)
    requires forall p :: SameAt(t, u, p)
    ensures t == u
  {
    forall p
      ensures p in t <==> p in u
      ensures p in t ==> t[p] == u[p]
    {
      assert SameAt(t, u, p);
    }
  }

  /** Two file systems that agree below a directory have the same tree there. */
  lemma SameSub(fs: Tree, fs': Tree, dir: Path)
    requires forall p | Under(dir, p) :: (p in fs <==> p in fs') && (p in fs ==> fs[p] == fs'[p])
    ensures Sub(fs, dir) == Sub(fs', dir)
  {
    forall r: Path
      ensures SameAt(Sub(fs, dir), Sub(fs', dir), r)
    {
      SubAt(fs, dir, r);
      SubAt(fs', dir, r);
      assert r != [] ==> Under(dir, dir + r) by {
        assert (dir + r)[..|dir|] == dir;
      }
    }
    SameEverywhere(Sub(fs, dir), Sub(fs', dir));
  }

  lemma SubWith(fs: Tree, dir: Path, r: Path, node: Node)
    requires r != []
    ensures Sub(fs[dir + r := node], dir) == Sub(fs, dir)[r := node]
  {
    var after, expected := Sub(fs[dir + r := node], dir), Sub(fs, dir)[r := node];
    forall q: Path
      ensures SameAt(after, expected, q)
    {
      SubAt(fs[dir + r := node], dir, q);
      SubAt(fs, dir, q);
      assert dir + q == dir + r <==> q == r by {
        assert (dir + q)[|dir|..] == q && (dir + r)[|dir|..] == r;
      }
    }
    SameEverywhere(after, expected);
  }

  /** repository / "physical" / node / uuid / run id. */
  function Place(repository: Path, id: Identity): Path {
    repository + ["physical", id.node, id.uuid, id.runId]
  }

  lemma PlacesAreApart(repository: Path, id: Identity, other: Identity, p: Path)
    requires id != other && (p == Place(repository, id) || Under(Place(repository, id), p))
    ensures !Under(Place(repository, other), p) && p != Place(repository, other)
  {
    var a, b, n := Place(repository, id), Place(repository, other), |repository|;
    assert a[n + 1] == id.node && a[n + 2] == id.uuid && a[n + 3] == id.runId;
    assert b[n + 1] == other.node && b[n + 2] == other.uuid && b[n + 3] == other.runId;
    assert p[..|a|] == a;
    assert a != b;
  }

  // ----- store_backup -----

  /** The order in which copytree meets the entries: each exactly once. */
  ghost predicate Lists(order: seq<Path>, t: Tree) {
    && (forall i | 0 <= i < |order| :: order[i] in t && order[i] != [])
    && (forall i, j | 0 <= i < j < |order| :: order[i] != order[j])
    && (forall p | p in t :: p in order)
  }

  /** Entries that copytree does not copy whole: left out, or, if they are files,
      holding any bytes.  It goes on after an error and fails at the end; a kill in
      the middle of a file leaves that file the last one. */
  type Damage = map<Path, Option<Blob>>

  /** What there is at the destination of one entry. */
  function CopyOf(t: Tree, p: Path, damage: Damage): Option<Node>
    requires p in t
  {
    if p !in damage then Some(t[p])
    else if damage[p].Some? && t[p].File? then Some(File(damage[p].value))
    else None
  }

  predicate Hurt(order: seq<Path>, damage: Damage) {
    exists p | p in order :: p in damage
  }

  lemma OrderInTree(t: Tree, order: seq<Path>)
    requires Lists(order, t)
    ensures forall i | 0 <= i < |order| :: order[i] in t
  {
  }

  lemma HurtMore(order: seq<Path>, p: Path, damage: Damage)
    ensures Hurt(order + [p], damage) <==> Hurt(order, damage) || p in damage
    ensures !Hurt([], damage)
  {
    assert forall q :: q in order + [p] <==> q in order || q == p;
  }

  function CopyAll(fs: Tree, dest: Path, t: Tree, order: seq<Path>, damage: Damage): Tree
    decreases |order|
  {
    if order == [] then fs
    else
      var prefix, last := order[..|order| - 1], order[|order| - 1];
      var before := CopyAll(fs, dest, t, prefix, damage);
      if last !in t then before
      else
        var copy := CopyOf(t, last, damage);
        if copy.Some? then before[dest + last := copy.value] else before
  }

  function MarkerFor(id: Identity, manifest: Blob, size: nat): Document {
    Document(Some(id.node), Some(id.uuid), Some(id.runId), None, Some(Sha256(manifest)), Some(size))
  }

  /** What the copied tree must pass before it is marked. */
  ghost predicate PassesCopyCheck(t: Tree, size: nat) {
    && ReadJson(t, MANIFEST).Ok? && MARKER !in t
    && VerifyFiles(t, ReadJson(t, MANIFEST).value) == Ok(size)
  }

  function WithMarker(t: Tree, id: Identity, size: nat, length: nat): Tree
    requires MANIFEST in t && t[MANIFEST].File?
  {
    t[MARKER := File(Json(MarkerFor(id, t[MANIFEST].blob, size), length))]
  }

  /** The repository after the first `steps` atomic steps of store_backup:
      create the directory, copy each entry as far as the damage lets it, write
      the marker, and remove it again if the final verification fails. */
  ghost function Stored(fs: Tree, repository: Path, t: Tree, order: seq<Path>, id: Identity, size: nat,
                        length: nat, steps: nat, damage: Damage): Tree
  {
    var dest := Place(repository, id);
    if !ValidIdentity(id) || dest in fs || steps == 0 then fs
    else
      var copied := if steps - 1 < |order| then steps - 1 else |order|;
      var fs1 := CopyAll(fs[dest := Directory], dest, t, order[..copied], damage);
      var tree := Sub(fs1, dest);
      if steps <= |order| + 1 || Hurt(order, damage) || !PassesCopyCheck(tree, size) then fs1
      else
        var fs2 := fs1[dest + MARKER := File(Json(MarkerFor(id, tree[MANIFEST].blob, size), length))];
        if steps == |order| + 2 || VerifyBackup(Sub(fs2, dest), id).Ok? then fs2
        else fs1
  }

  ghost predicate StoreSucceeds(fs: Tree, repository: Path, t: Tree, order: seq<Path>, id: Identity, size: nat,
                                length: nat, steps: nat, damage: Damage)
  {
    var dest := Place(repository, id);
    && ValidIdentity(id) && dest !in fs && steps > |order| + 2 && !Hurt(order, damage)
    && var fs' := Stored(fs, repository, t, order, id, size, length, steps, damage);
       dest + MARKER in fs' && VerifyBackup(Sub(fs', dest), id).Ok?
       && PassesCopyCheck(Sub(CopyAll(fs[dest := Directory], dest, t, order, damage), dest), size)
  }

  /** The repository with its files, changed in place. */
  class Repository {
    const path: Path
    var files: Tree

    constructor (path: Path)
      ensures this.path == path && files == map[]
    {
      this.path, files := path, map[];
    }

    /** shutil.copytree, up to its (steps - 1)-st entry: it is complete if it gets
        to the end without an error on the way. */
    method CopyTree(t: Tree, order: seq<Path>, dest: Path, steps: nat, damage: Damage) returns (complete: bool)
      requires Lists(order, t) && steps > 0
      modifies this`files
      ensures complete <==> steps > |order| && !Hurt(order, damage)
      ensures var copied := if steps - 1 < |order| then steps - 1 else |order|;
              files == CopyAll(old(files), dest, t, order[..copied], damage)
    {
      hide Hurt, Lists;
      var errors := false;
      assert order[..0] == [];
      HurtMore([], dest, damage);
      OrderInTree(t, order);
      for i := 0 to |order|
        invariant i < steps
        invariant files == CopyAll(old(files), dest, t, order[..i], damage)
        invariant errors <==> Hurt(order[..i], damage)
      {
        assert order[..i + 1][..i] == order[..i] && order[..i + 1] == order[..i] + [order[i]];
        if i + 1 == steps {
          return false;
        }
        var copy := CopyOf(t, order[i], damage);
        if copy.Some? {
          files := files[dest + order[i] := copy.value];
        }
        HurtMore(order[..i], order[i], damage);
        errors := errors || order[i] in damage;
      }
      assert order[..|order|] == order;
      return !errors;
    }

    /** store_backup, killed or failing in front of step steps + 1, with some
        entries damaged on the way. */
    method Store(t: Tree, order: seq<Path>, id: Identity, size: nat, length: nat, steps: nat, damage: Damage)
      returns (r: Result<Path>)
      requires Lists(order, t)
      modifies this`files
      ensures files == Stored(old(files), path, t, order, id, size, length, steps, damage)
      ensures r.Ok? <==> StoreSucceeds(old(files), path, t, order, id, size, length, steps, damage)
    {
      hide VerifyFiles, VerifyBackup, Sub, Place, ValidIdentity, ReadCompletion, CopyAll, Hurt;
      if !ValidIdentity(id) {
        return Err(InvalidIdentity);
      }
      var dest := Place(path, id);
      if dest in files {
        return Err(FileExists);
      }
      if steps == 0 {
        return Err(Interrupted);
      }
      files := files[dest := Directory];
      var complete := CopyTree(t, order, dest, steps, damage);
      if !complete {
        return Err(Interrupted);
      }
      assert order[..|order|] == order;
      var tree := Sub(files, dest);
      var manifest := ReadJson(tree, MANIFEST);
      if manifest.Err? {
        return Err(manifest.error);
      }
      var total := VerifyFilesLoop(tree, manifest.value);
      if MARKER in tree || total != Ok(size) {
        return Err(SizeMismatch);
      }
      if steps == |order| + 1 {
        return Err(Interrupted);
      }
      ghost var unmarked := files;
      files := files[dest + MARKER := File(Json(MarkerFor(id, tree[MANIFEST].blob, size), length))];
      if steps == |order| + 2 {
        return Err(Interrupted);
      }
      var verified := VerifyBackupNow(Sub(files, dest), id);
      if verified.Err? {
        SubAt(unmarked, dest, MARKER);
        files := files - {dest + MARKER};
        assert files == unmarked;
        return Err(verified.error);
      }
      return Ok(dest);
    }
  }
}
