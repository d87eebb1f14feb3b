/** Runs of interrupted stores: a completion marker always means a verified
    backup, and no store touches another backup. */
module BackupRuns {
  import opened Wrappers
  import opened BackupFiles
  import opened BackupStore

  // ----- what a copy leaves behind -----

  /** Some entries of a tree, as far as the damage lets them through. */
  function Partial(t: Tree, names: seq<Path>, damage: Damage): Tree {
    map p | p in t && p in names && CopyOf(t, p, damage).Some? :: CopyOf(t, p, damage).value
  }

  lemma {:induction false} CopiedTree(fs: Tree, dest: Path, t: Tree, order: seq<Path>, damage: Damage)
    requires Sub(fs, dest) == map[] && forall p | p in order :: p in t && p != []
    ensures Sub(CopyAll(fs, dest, t, order, damage), dest) == Partial(t, order, damage)
  {
    hide Sub;
    if order != [] {
      var prefix, last := order[..|order| - 1], order[|order| - 1];
      CopiedTree(fs, dest, t, prefix, damage);
      PartialWith(t, prefix, last, damage);
      assert order == prefix + [last];
      var copy := CopyOf(t, last, damage);
      if copy.Some? {
        SubWith(CopyAll(fs, dest, t, prefix, damage), dest, last, copy.value);
      }
    }
  }

  lemma PartialWith(t: Tree, names: seq<Path>, p: Path, damage: Damage)
    requires p in t
    ensures var copy, before := CopyOf(t, p, damage), Partial(t, names, damage);
            Partial(t, names + [p], damage) == if copy.Some? then before[p := copy.value] else before
  {
    assert p in names ==> CopyOf(t, p, damage).Some? ==> Partial(t, names, damage)[p] == CopyOf(t, p, damage).value;
  }

  lemma PartialWhole(t: Tree, order: seq<Path>, damage: Damage)
    requires Lists(order, t) && !Hurt(order, damage)
    ensures Partial(t, order, damage) == t
  {
  }

  ghost predicate SameOutside(fs: Tree, fs': Tree, dest: Path) {
    forall p | p != dest && !Under(dest, p) :: SameAt(fs, fs', p)
  }

  lemma OutsideSelf(fs: Tree, dest: Path)
    ensures SameOutside(fs, fs, dest)
  {
  }

  lemma OutsideThrough(fs: Tree, fs1: Tree, fs2: Tree, dest: Path)
    requires SameOutside(fs, fs1, dest) && SameOutside(fs1, fs2, dest)
    ensures SameOutside(fs, fs2, dest)
  {
    forall p | p != dest && !Under(dest, p)
      ensures SameAt(fs, fs2, p)
    {
      assert SameAt(fs, fs1, p) && SameAt(fs1, fs2, p);
    }
  }

  lemma OutsideWith(fs: Tree, fs1: Tree, dest: Path, p: Path, node: Node)
    requires SameOutside(fs, fs1, dest) && (p == dest || Under(dest, p))
    ensures SameOutside(fs, fs1[p := node], dest)
  {
    forall q | q != dest && !Under(dest, q)
      ensures SameAt(fs, fs1[p := node], q)
    {
      assert SameAt(fs, fs1, q);
    }
  }

  lemma {:induction false} CopyStaysInside(fs: Tree, dest: Path, t: Tree, order: seq<Path>, damage: Damage)
    requires forall p | p in order :: p in t && p != []
    ensures SameOutside(fs, CopyAll(fs, dest, t, order, damage), dest)
    ensures dest in fs ==> dest in CopyAll(fs, dest, t, order, damage)
  {
    if order != [] {
      var prefix, last := order[..|order| - 1], order[|order| - 1];
      CopyStaysInside(fs, dest, t, prefix, damage);
      InsideDest(dest, last);
      forall p | p != dest && !Under(dest, p)
        ensures SameAt(fs, CopyAll(fs, dest, t, order, damage), p)
      {
        assert SameAt(fs, CopyAll(fs, dest, t, prefix, damage), p);
      }
    }
  }

  lemma InsideDest(dest: Path, r: Path)
    requires r != []
    ensures Under(dest, dest + r)
  {
    assert (dest + r)[..|dest|] == dest;
  }

  lemma EmptyDirectory(fs: Tree, dest: Path)
    requires Below(fs, dest) == {}
    ensures Sub(fs[dest := Directory], dest) == map[]
  {
    SameSub(fs, fs[dest := Directory], dest);
    assert Sub(fs, dest) == map[];
  }

  // ----- one store -----

  /** The staged tree can be stored safely: it brings no marker of its own, and
      if its files are in order then its manifest names the backup. */
  ghost predicate Safe(t: Tree, id: Identity, size: nat) {
    && MARKER !in t && [] !in t
    && (PassesCopyCheck(t, size) ==> Names(ReadJson(t, MANIFEST).value, id))
  }

  /** How many entries are copied before the stop. */
  function Copied(order: seq<Path>, steps: nat): (n: nat)
    ensures n <= |order|
  {
    if steps == 0 then 0 else if steps - 1 < |order| then steps - 1 else |order|
  }

  /** All a store can leave in a directory it created: part of the staged tree,
      some of its files perhaps damaged, or all of it with a marker written after
      the check. */
  lemma StoreShape(fs: Tree, repository: Path, t: Tree, order: seq<Path>, id: Identity, size: nat,
                   length: nat, steps: nat, damage: Damage)
    requires Lists(order, t) && ValidIdentity(id)
    requires Place(repository, id) !in fs && Below(fs, Place(repository, id)) == {} && steps > 0
    ensures var dest := Place(repository, id);
            var fs' := Stored(fs, repository, t, order, id, size, length, steps, damage);
            && SameOutside(fs, fs', dest) && dest in fs'
            && (if steps >= |order| + 2 && !Hurt(order, damage) && PassesCopyCheck(t, size)
                  && (steps == |order| + 2 || VerifyBackup(WithMarker(t, id, size, length), id).Ok?)
                then Sub(fs', dest) == WithMarker(t, id, size, length)
                else Sub(fs', dest) == Partial(t, order[..Copied(order, steps)], damage))
  {
    hide VerifyBackup, PassesCopyCheck, Place, Below, SameOutside;
    var dest := Place(repository, id);
    var copied := Copied(order, steps);
    var start := fs[dest := Directory];
    EmptyDirectory(fs, dest);
    var fs1 := CopyAll(start, dest, t, order[..copied], damage);
    CopiedTree(start, dest, t, order[..copied], damage);
    CopyStaysInside(start, dest, t, order[..copied], damage);
    OutsideSelf(fs, dest);
    OutsideWith(fs, fs, dest, dest, Directory);
    OutsideThrough(fs, start, fs1, dest);
    if steps > |order| && !Hurt(order, damage) {
      assert order[..copied] == order;
      PartialWhole(t, order, damage);
      if PassesCopyCheck(t, size) {
        CheckedHasManifest(t, size);
        var node := File(Json(MarkerFor(id, t[MANIFEST].blob, size), length));
        SubWith(fs1, dest, MARKER, node);
        InsideDest(dest, MARKER);
        OutsideWith(fs, fs1, dest, dest + MARKER, node);
      }
    }
  }

  lemma CheckedHasManifest(t: Tree, size: nat)
    requires PassesCopyCheck(t, size)
    ensures MANIFEST in t && t[MANIFEST].File?
  {
  }

  /** Marking a tree that passed the check makes it a verified backup exactly
      when its manifest names the backup. */
  lemma MarkedVerifies(t: Tree, id: Identity, size: nat, length: nat)
    requires PassesCopyCheck(t, size) && ValidIdentity(id)
    ensures VerifyBackup(WithMarker(t, id, size, length), id).Ok? <==> Names(ReadJson(t, MANIFEST).value, id)
  {
    var m := WithMarker(t, id, size, length);
    var manifest := ReadJson(t, MANIFEST).value;
    assert FilesOf(m) - {MARKER} == FilesOf(t) - {MARKER} by {
      assert forall p :: p in m <==> p in t || p == MARKER;
    }
    assert !HasLink(m) by {
      assert forall p | p in m :: p == MARKER || (p in t && m[p] == t[p]);
    }
    assert forall p | p in FilesOf(t) - {MARKER} :: FileAt(m, p) == FileAt(t, p);
    assert VerifyFiles(m, manifest) == Ok(size);
    assert ReadJson(m, MANIFEST) == ReadJson(t, MANIFEST);
  }

  // ----- the invariant of the repository -----

  /** A directory's entries exist only if the directory does, and every
      completion marker stands in a verified backup. */
  ghost predicate Sound(fs: Tree, repository: Path) {
    && (forall id: Identity :: Place(repository, id) in fs || Below(fs, Place(repository, id)) == {})
    && (forall id: Identity | ValidIdentity(id) :: MarkedIsVerified(fs, repository, id))
  }

  ghost predicate MarkedIsVerified(fs: Tree, repository: Path, id: Identity) {
    Place(repository, id) + MARKER in fs ==> VerifyBackup(Sub(fs, Place(repository, id)), id).Ok?
  }

  /** Another backup's directory is as it was. */
  lemma OtherBackupUntouched(fs: Tree, fs': Tree, repository: Path, id: Identity, other: Identity)
    requires SameOutside(fs, fs', Place(repository, id)) && id != other
    ensures Sub(fs', Place(repository, other)) == Sub(fs, Place(repository, other))
    ensures Place(repository, other) in fs' <==> Place(repository, other) in fs
    ensures Below(fs', Place(repository, other)) == Below(fs, Place(repository, other))
    ensures Place(repository, other) + MARKER in fs' <==> Place(repository, other) + MARKER in fs
  {
    hide Place;
    var dest, there := Place(repository, id), Place(repository, other);
    forall p | p == there || Under(there, p)
      ensures SameAt(fs, fs', p)
    {
      PlacesAreApart(repository, other, id, p);
    }
    assert SameAt(fs, fs', there);
    InsideDest(there, MARKER);
    assert SameAt(fs, fs', there + MARKER);
    assert forall p | Under(there, p) :: SameAt(fs, fs', p);
    SameSub(fs, fs', there);
    assert forall p | Under(there, p) :: p in fs <==> p in fs';
  }

  /** A safe store keeps the repository sound wherever it is interrupted. */
  lemma StoreKeepsSound(fs: Tree, repository: Path, t: Tree, order: seq<Path>, id: Identity, size: nat,
                        length: nat, steps: nat, damage: Damage)
    requires Sound(fs, repository) && Lists(order, t) && Safe(t, id, size)
    ensures Sound(Stored(fs, repository, t, order, id, size, length, steps, damage), repository)
    ensures SameOutside(fs, Stored(fs, repository, t, order, id, size, length, steps, damage), Place(repository, id))
  {
    hide VerifyBackup, PassesCopyCheck, Place, Below, Names, ReadJson;
    var dest := Place(repository, id);
    var fs' := Stored(fs, repository, t, order, id, size, length, steps, damage);
    if ValidIdentity(id) && dest !in fs && steps > 0 {
      StoreShape(fs, repository, t, order, id, size, length, steps, damage);
      SubAt(fs', dest, MARKER);
      if PassesCopyCheck(t, size) {
        MarkedVerifies(t, id, size, length);
      }
      assert MarkedIsVerified(fs', repository, id);
      forall other: Identity | other != id
        ensures Place(repository, other) in fs' || Below(fs', Place(repository, other)) == {}
        ensures ValidIdentity(other) ==> MarkedIsVerified(fs', repository, other)
      {
        OtherBackupUntouched(fs, fs', repository, id, other);
        assert ValidIdentity(other) ==> MarkedIsVerified(fs, repository, other);
      }
    }
  }

  // ----- safety is exactly what is needed -----

  lemma {:induction false} ListingOf(names: set<Path>, first: Path) returns (order: seq<Path>)
    requires first in names
    ensures |order| > 0 && order[0] == first
    ensures forall p :: p in order <==> p in names
    ensures forall i, j | 0 <= i < j < |order| :: order[i] != order[j]
    decreases names
  {
    if names == {first} {
      order := [first];
    } else {
      assert names == {first} + (names - {first});
      var other :| other in names - {first};
      var rest := ListingOf(names - {other}, first);
      order := rest + [other];
      forall p
        ensures p in order <==> p in names
      {
        assert p in rest <==> p in names - {other};
      }
      assert other !in rest;
    }
  }

  /** A marker brought along by the staged tree can be exposed on its own. */
  lemma StrayMarkerIsExposed(fs: Tree, repository: Path, t: Tree, id: Identity, size: nat, length: nat)
    returns (order: seq<Path>, steps: nat)
    requires Sound(fs, repository) && ValidIdentity(id) && Place(repository, id) !in fs
    requires [] !in t && MARKER in t
    ensures Lists(order, t) && !Sound(Stored(fs, repository, t, order, id, size, length, steps, map[]), repository)
  {
    hide Place, Below;
    order := ListingOf(t.Keys, MARKER);
    steps := 2;
    assert forall i | 0 <= i < |order| :: order[i] in order;
    StoreShape(fs, repository, t, order, id, size, length, steps, map[]);
    var dest := Place(repository, id);
    var fs' := Stored(fs, repository, t, order, id, size, length, steps, map[]);
    SubAt(fs', dest, MARKER);
    assert order[..1] == [MARKER];
    assert !PassesCopyCheck(t, size);
    assert Sub(fs', dest) == Partial(t, [MARKER], map[]);
    assert !MarkedIsVerified(fs', repository, id);
  }

  /** A manifest that names another backup can be exposed between marking and
      the final verification. */
  lemma WrongNameIsExposed(fs: Tree, repository: Path, t: Tree, id: Identity, size: nat, length: nat)
    returns (order: seq<Path>, steps: nat)
    requires Sound(fs, repository) && ValidIdentity(id) && Place(repository, id) !in fs
    requires [] !in t && PassesCopyCheck(t, size) && !Names(ReadJson(t, MANIFEST).value, id)
    ensures Lists(order, t) && !Sound(Stored(fs, repository, t, order, id, size, length, steps, map[]), repository)
  {
    hide Place, Below, VerifyBackup;
    CheckedHasManifest(t, size);
    order := ListingOf(t.Keys, MANIFEST);
    steps := |order| + 2;
    assert forall i | 0 <= i < |order| :: order[i] in order;
    StoreShape(fs, repository, t, order, id, size, length, steps, map[]);
    var dest := Place(repository, id);
    var fs' := Stored(fs, repository, t, order, id, size, length, steps, map[]);
    SubAt(fs', dest, MARKER);
    MarkedVerifies(t, id, size, length);
    assert !MarkedIsVerified(fs', repository, id);
  }

  /** "A marker means a verified backup" survives every interruption of a store
      exactly when the staged tree is safe. */
  lemma SafetyIsExact(fs: Tree, repository: Path, t: Tree, id: Identity, size: nat, length: nat)
    requires Sound(fs, repository) && ValidIdentity(id) && Place(repository, id) !in fs && [] !in t
    ensures Safe(t, id, size) <==>
              forall order, steps: nat, damage: Damage | Lists(order, t) ::
                Sound(Stored(fs, repository, t, order, id, size, length, steps, damage), repository)
  {
    hide Sound, Stored, PassesCopyCheck, Lists, Place, Names, ReadJson;
    if Safe(t, id, size) {
      forall order, steps: nat, damage: Damage | Lists(order, t)
        ensures Sound(Stored(fs, repository, t, order, id, size, length, steps, damage), repository)
      {
        StoreKeepsSound(fs, repository, t, order, id, size, length, steps, damage);
      }
    } else if MARKER in t {
      var order, steps := StrayMarkerIsExposed(fs, repository, t, id, size, length);
    } else {
      var order, steps := WrongNameIsExposed(fs, repository, t, id, size, length);
    }
  }

  // ----- runs -----

  datatype Call = Call(t: Tree, order: seq<Path>, id: Identity, size: nat, length: nat, steps: nat,
                       damage: Damage)

  ghost predicate SafeCall(c: Call) {
    Lists(c.order, c.t) && Safe(c.t, c.id, c.size)
  }

  ghost function AfterCalls(fs: Tree, repository: Path, calls: seq<Call>): Tree
    decreases |calls|
  {
    if calls == [] then fs
    else
      var c := calls[0];
      AfterCalls(Stored(fs, repository, c.t, c.order, c.id, c.size, c.length, c.steps, c.damage), repository,
                 calls[1..])
  }

  /** Over any run of stores, each interrupted anywhere: every marker stands in
      a verified backup, and a backup that exists is never altered again. */
  lemma {:induction false} RunKeepsBackups(fs: Tree, repository: Path, calls: seq<Call>, kept: Identity)
    requires Sound(fs, repository) && forall c | c in calls :: SafeCall(c)
    requires Place(repository, kept) in fs
    ensures Sound(AfterCalls(fs, repository, calls), repository)
    ensures Place(repository, kept) in AfterCalls(fs, repository, calls)
    ensures Sub(AfterCalls(fs, repository, calls), Place(repository, kept)) == Sub(fs, Place(repository, kept))
    decreases |calls|
  {
    hide Sound, SameOutside, Place, Lists, Safe, Sub;
    if calls != [] {
      var c := calls[0];
      var fs' := Stored(fs, repository, c.t, c.order, c.id, c.size, c.length, c.steps, c.damage);
      assert SafeCall(c);
      StoreKeepsSound(fs, repository, c.t, c.order, c.id, c.size, c.length, c.steps, c.damage);
      if c.id != kept {
        OtherBackupUntouched(fs, fs', repository, c.id, kept);
      }
      RunKeepsBackups(fs', repository, calls[1..], kept);
    }
  }

  /** A backup offered for restore, which only has its metadata read when it is
      listed, is in fact verified in full. */
  lemma ListedIsVerified(fs: Tree, repository: Path, id: Identity)
    requires Sound(fs, repository) && ReadCompletion(Sub(fs, Place(repository, id)), id).Ok?
    ensures VerifyBackup(Sub(fs, Place(repository, id)), id).Ok?
  {
    hide VerifyBackup, Place, Below, Sub;
    SubAt(fs, Place(repository, id), MARKER);
    assert MarkedIsVerified(fs, repository, id);
  }

  // ----- the whole backup job -----

  /** The manifest document main writes into the staging directory. */
  function ManifestFor(id: Identity, files: map<Path, Entry>): Document {
    Document(Some(id.node), Some(id.uuid), Some(id.runId), Some(files), None, None)
  }

  /** What main stages is safe to store: it is described by its own manifest,
      names the backup, and holds no marker. */
  lemma FreshStagingIsSafe(t: Tree, id: Identity, manifestLength: nat)
    requires BackupFileManifest(t).Ok? && MANIFEST !in t && MARKER !in t && [] !in t
    ensures var staged := t[MANIFEST := File(Json(ManifestFor(id, Entries(t)), manifestLength))];
            forall size: nat :: Safe(staged, id, size)
  {
    hide VerifyFiles, Entries;
    assert MANIFEST != MARKER && MANIFEST != [];
  }

  /** A freshly described tree is always stored, under any order of copying,
      and what is stored is that tree with the marker. */
  lemma FreshBackupIsStored(fs: Tree, repository: Path, t: Tree, order: seq<Path>, id: Identity,
                            manifestLength: nat, length: nat, steps: nat, damage: Damage)
    requires Sound(fs, repository) && ValidIdentity(id) && Place(repository, id) !in fs
    requires BackupFileManifest(t).Ok? && MANIFEST !in t && MARKER !in t && [] !in t
    requires var staged := t[MANIFEST := File(Json(ManifestFor(id, Entries(t)), manifestLength))];
             Lists(order, staged)
    requires steps > |order| + 2 && !Hurt(order, damage)
    ensures var staged := t[MANIFEST := File(Json(ManifestFor(id, Entries(t)), manifestLength))];
            var size := TotalSize(Entries(staged));
            && StoreSucceeds(fs, repository, staged, order, id, size, length, steps, damage)
            && Sub(Stored(fs, repository, staged, order, id, size, length, steps, damage), Place(repository, id))
               == WithMarker(staged, id, size, length)
  {
    hide Place, Below, VerifyBackup, VerifyFiles, TotalSize, Entries;
    var manifest := ManifestFor(id, Entries(t));
    var staged := t[MANIFEST := File(Json(manifest, manifestLength))];
    var size := TotalSize(Entries(staged));
    FreshManifestVerifies(t, manifest, manifestLength);
    assert PassesCopyCheck(staged, size);
    MarkedVerifies(staged, id, size, length);
    StoreShape(fs, repository, staged, order, id, size, length, steps, damage);
    StoreShape(fs, repository, staged, order, id, size, length, |order| + 1, damage);
    var dest := Place(repository, id);
    SubAt(Stored(fs, repository, staged, order, id, size, length, steps, damage), dest, MARKER);
    assert order[..|order|] == order;
    PartialWhole(staged, order, damage);
  }

  /** A restore works on a copy.  If the copy carries the backup's marker and
      passes verification under the backup's identity, it is the stored tree,
      byte for byte, with nothing missing, added or linked. */
  lemma RestoreStartsFromTheBackup(fs: Tree, repository: Path, id: Identity, copy: Tree)
    requires Sound(fs, repository) && ValidIdentity(id) && Place(repository, id) + MARKER in fs
    requires MARKER in copy && copy[MARKER] == fs[Place(repository, id) + MARKER]
    requires VerifyBackup(copy, id).Ok?
    ensures Contents(copy) == Contents(Sub(fs, Place(repository, id))) && !HasLink(copy)
  {
    hide Place, Below;
    var stored := Sub(fs, Place(repository, id));
    assert MarkedIsVerified(fs, repository, id);
    SubAt(fs, Place(repository, id), MARKER);
    MarkerPinsTheTree(stored, copy, id);
  }
}
