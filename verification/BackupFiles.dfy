/** Files of a physical backup, their manifest, and what it takes to verify them
    (mysql_backup_storage.py). */
module BackupFiles {
  import opened Wrappers
  import opened Text

  /** A path as the list of its components. */
  type Path = seq<string>

  /** What a file holds: bytes, or a JSON document of some length. */
  datatype Blob = Raw(bytes: seq<bv8>) | Json(document: Document, length: nat)

  /** The fields of a JSON object that the programs look at; a field that is
      absent or of the wrong type is None. */
  datatype Document = Document(
    node: Option<string>, uuid: Option<string>, runId: Option<string>,
    files: Option<map<Path, Entry>>, manifestSha256: Option<Digest<Blob>>, backupSize: Option<nat>)

  datatype Entry = Entry(size: nat, sha256: Digest<Blob>)

  datatype Node = File(blob: Blob) | Link | Directory

  type Tree = map<Path, Node>

  const MARKER: Path := ["complete.json"]
  const MANIFEST: Path := ["provisioning-backup.json"]
  const METADATA: seq<Path> := [["xtrabackup_info"], ["xtrabackup_checkpoints"], ["xtrabackup_binlog_info"]]

  function Length(b: Blob): nat {
    match b
    case Raw(bytes) => |bytes|
    case Json(_, length) => length
  }

  function EntryOf(b: Blob): Entry {
    Entry(Length(b), Sha256(b))
  }

  function FilesOf(t: Tree): set<Path> {
    set p | p in t && t[p].File? :: p
  }

  /** The regular files of a tree, byte for byte. */
  function Contents(t: Tree): map<Path, Blob> {
    map p | p in t && t[p].File? :: t[p].blob
  }

  function Entries(t: Tree): map<Path, Entry> {
    map p | p in t && t[p].File? :: EntryOf(t[p].blob)
  }

  predicate HasLink(t: Tree) {
    exists p | p in t :: t[p].Link?
  }

  predicate HasMetadata(files: map<Path, Entry>) {
    forall p | p in METADATA :: p in files && files[p].size != 0
  }

  // ----- sums over files -----

  ghost function TotalSize(files: map<Path, Entry>): nat {
    if files == map[] then 0
    else
      var p :| p in files;
      files[p].size + TotalSize(files - {p})
  }

  /** The sum does not depend on the order in which the files are visited. */
  lemma {:induction false} TotalWithout(files: map<Path, Entry>, p: Path)
    requires p in files
    ensures TotalSize(files) == files[p].size + TotalSize(files - {p})
    decreases |files|
  {
    var q :| q in files && TotalSize(files) == files[q].size + TotalSize(files - {q});
    if p != q {
      TotalWithout(files - {q}, p);
      assert p in files - {q} && q in files - {p};
      TotalWithout(files - {p}, q);
      assert files - {q} - {p} == files - {p} - {q};
    }
  }

  lemma TotalWith(files: map<Path, Entry>, p: Path, e: Entry)
    requires p !in files
    ensures TotalSize(files[p := e]) == TotalSize(files) + e.size
  {
    TotalWithout(files[p := e], p);
    assert files[p := e] - {p} == files;
  }

  /** directory_size. */
  method DirectorySize(t: Tree) returns (total: nat)
    ensures total == TotalSize(Entries(t))
  {
    total := 0;
    var seen: map<Path, Entry> := map[];
    var pending := FilesOf(t);
    while pending != {}
      invariant pending <= FilesOf(t)
      invariant seen == map p | p in FilesOf(t) - pending :: Entries(t)[p]
      invariant total == TotalSize(seen)
      decreases pending
    {
      var p :| p in pending;
      TotalWith(seen, p, EntryOf(t[p].blob));
      seen := seen[p := EntryOf(t[p].blob)];
      total := total + Length(t[p].blob);
      pending := pending - {p};
    }
    assert seen == Entries(t);
  }

  // ----- backup_file_manifest -----

  function BackupFileManifest(t: Tree): Result<map<Path, Entry>> {
    if HasLink(t) then Err(SymlinkFound)
    else if !HasMetadata(Entries(t)) then Err(MetadataMissing)
    else Ok(Entries(t))
  }

  /** The loop over the tree and the loop over the required names. */
  method ComputeFileManifest(t: Tree) returns (r: Result<map<Path, Entry>>)
    ensures r == BackupFileManifest(t)
  {
    var files: map<Path, Entry> := map[];
    var pending := t.Keys;
    while pending != {}
      invariant pending <= t.Keys
      invariant forall p | p in t && p !in pending :: !t[p].Link?
      invariant files == map p | p in t && p !in pending && t[p].File? :: EntryOf(t[p].blob)
      decreases pending
    {
      var p :| p in pending;
      if t[p].Link? {
        return Err(SymlinkFound);
      }
      if t[p].File? {
        files := files[p := EntryOf(t[p].blob)];
      }
      pending := pending - {p};
    }
    assert files == Entries(t);
    for i := 0 to |METADATA|
      invariant forall j | 0 <= j < i :: METADATA[j] in files && files[METADATA[j]].size != 0
    {
      if METADATA[i] !in files || files[METADATA[i]].size == 0 {
        return Err(MetadataMissing);
      }
    }
    return Ok(files);
  }

  // ----- verify_files -----

  /** The regular files are the listed ones and the manifest, whether or not
      there is a completion marker as well. */
  predicate SameFileSet(t: Tree, files: map<Path, Entry>) {
    FilesOf(t) - {MARKER} == files.Keys + {MANIFEST}
  }

  predicate Matches(t: Tree, files: map<Path, Entry>)
    requires SameFileSet(t, files)
  {
    forall p | p in files :: EntryOf(FileAt(t, p)) == files[p]
  }

  function FileAt(t: Tree, p: Path): Blob
    requires p in FilesOf(t) - {MARKER}
  {
    t[p].blob
  }

  /** What verify_files demands, in no particular order, and what it returns. */
  ghost function VerifyFiles(t: Tree, manifest: Document): Result<nat> {
    if manifest.files.None? || manifest.files.value == map[] then Err(NoFileChecksums)
    else if HasLink(t) then Err(SymlinkFound)
    else if !SameFileSet(t, manifest.files.value) then Err(FileSetDiffers)
    else if !Matches(t, manifest.files.value) then Err(ChecksumMismatch)
    else if !HasMetadata(manifest.files.value) then Err(MetadataMissing)
    else Ok(TotalSize(manifest.files.value) + Length(FileAt(t, MANIFEST)))
  }

  /** verify_files. */
  method VerifyFilesLoop(t: Tree, manifest: Document) returns (r: Result<nat>)
    ensures r == VerifyFiles(t, manifest)
  {
    if manifest.files.None? || manifest.files.value == map[] {
      return Err(NoFileChecksums);
    }
    var files := manifest.files.value;
    var actual: set<Path> := {};
    var pending := t.Keys;
    while pending != {}
      invariant pending <= t.Keys
      invariant forall p | p in t && p !in pending :: !t[p].Link?
      invariant actual == set p | p in t && p !in pending && t[p].File? :: p
      decreases pending
    {
      var p :| p in pending;
      if t[p].Link? {
        return Err(SymlinkFound);
      }
      if t[p].File? {
        actual := actual + {p};
      }
      pending := pending - {p};
    }
    assert actual == FilesOf(t);
    if actual - {MARKER} != files.Keys + {MANIFEST} {
      return Err(FileSetDiffers);
    }
    var total := 0;
    ghost var seen: map<Path, Entry> := map[];
    var names := files.Keys;
    while names != {}
      invariant names <= files.Keys
      invariant seen == map p | p in files.Keys - names :: files[p]
      invariant forall p | p in files && p !in names :: EntryOf(FileAt(t, p)) == files[p]
      invariant total == TotalSize(seen)
      decreases names
    {
      var p :| p in names;
      if EntryOf(FileAt(t, p)) != files[p] {
        return Err(ChecksumMismatch);
      }
      TotalWith(seen, p, files[p]);
      seen := seen[p := files[p]];
      total := total + Length(FileAt(t, p));
      names := names - {p};
    }
    assert seen == files;
    if !HasMetadata(files) {
      return Err(MetadataMissing);
    }
    return Ok(total + Length(FileAt(t, MANIFEST)));
  }

  // ----- read_completion and verify_backup -----

  datatype Identity = Identity(node: string, uuid: string, runId: string)

  predicate IsIdentifierChar(c: char) {
    'A' <= c <= 'Z' || 'a' <= c <= 'z' || c in DIGITS || c == '.' || c == '_' || c == '-'
  }

  /** [A-Za-z0-9._-]+ */
  predicate IsIdentifier(s: string) {
    s != "" && forall i | 0 <= i < |s| :: IsIdentifierChar(s[i])
  }

  /** \d{8}T\d{6}Z */
  predicate IsRunId(s: string) {
    |s| == 16 && s[8] == 'T' && s[15] == 'Z' && forall i | 0 <= i < 15 && i != 8 :: s[i] in DIGITS
  }

  predicate ValidIdentity(id: Identity) {
    IsIdentifier(id.node) && IsIdentifier(id.uuid) && IsRunId(id.runId)
  }

  predicate Names(d: Document, id: Identity) {
    d.node == Some(id.node) && d.uuid == Some(id.uuid) && d.runId == Some(id.runId)
  }

  /** json.loads of a file's text. */
  function ReadJson(t: Tree, p: Path): Result<Document> {
    if p !in t || !t[p].File? then Err(FileMissing)
    else if !t[p].blob.Json? then Err(NotJson)
    else Ok(t[p].blob.document)
  }

  predicate IsLink(t: Tree, p: Path) {
    p in t && t[p].Link?
  }

  function ReadCompletion(t: Tree, id: Identity): Result<(Document, Document)> {
    if !ValidIdentity(id) then Err(InvalidIdentity)
    else if IsLink(t, MANIFEST) || IsLink(t, MARKER) then Err(SymlinkFound)
    else
      var manifest, completion := ReadJson(t, MANIFEST), ReadJson(t, MARKER);
      if manifest.Err? then Err(manifest.error)
      else if completion.Err? then Err(completion.error)
      else if !Names(manifest.value, id) || !Names(completion.value, id) then Err(IdentityMismatch)
      else if completion.value.manifestSha256 != Some(Sha256(t[MANIFEST].blob)) then Err(ChecksumMismatch)
      else Ok((manifest.value, completion.value))
  }

  ghost function VerifyBackup(t: Tree, id: Identity): Result<Document> {
    var read := ReadCompletion(t, id);
    if read.Err? then Err(read.error)
    else
      var total := VerifyFiles(t, read.value.0);
      if total.Err? then Err(total.error)
      else if read.value.1.backupSize != Some(total.value) then Err(SizeMismatch)
      else Ok(read.value.0)
  }

  method VerifyBackupNow(t: Tree, id: Identity) returns (r: Result<Document>)
    ensures r == VerifyBackup(t, id)
  {
    var read := ReadCompletion(t, id);
    if read.Err? {
      return Err(read.error);
    }
    var total := VerifyFilesLoop(t, read.value.0);
    if total.Err? {
      return Err(total.error);
    }
    if read.value.1.backupSize != Some(total.value) {
      return Err(SizeMismatch);
    }
    return Ok(read.value.0);
  }

  // ----- properties -----

  /** The hash chain: the marker fixes the manifest, and the manifest fixes
      every file.  A tree that carries the marker of a verified backup is
      itself verified under that identity exactly when it holds no symlink and
      its files are the backup's files, byte for byte. */
  lemma MarkerPinsTheTree(stored: Tree, t: Tree, id: Identity)
    requires VerifyBackup(stored, id).Ok?
    requires MARKER in t && t[MARKER] == stored[MARKER]
    ensures VerifyBackup(t, id).Ok? <==> Contents(t) == Contents(stored) && !HasLink(t)
  {
    if VerifyBackup(t, id).Ok? {
      ManifestPinsTheFiles(stored, t, stored[MANIFEST].blob.document);
    }
    if Contents(t) == Contents(stored) && !HasLink(t) {
      SameContentsSameVerdict(stored, t, id);
    }
  }

  lemma ManifestPinsTheFiles(stored: Tree, t: Tree, manifest: Document)
    requires VerifyFiles(stored, manifest).Ok? && VerifyFiles(t, manifest).Ok?
    requires MANIFEST in stored && MANIFEST in t && stored[MANIFEST] == t[MANIFEST] && t[MANIFEST].File?
    requires MARKER in stored && MARKER in t && stored[MARKER] == t[MARKER] && t[MARKER].File?
    ensures Contents(t) == Contents(stored)
  {
    assert FilesOf(t) == FilesOf(t) - {MARKER} + {MARKER} == FilesOf(stored);
    forall p | p in FilesOf(t)
      ensures t[p].blob == stored[p].blob
    {
      if p != MARKER && p != MANIFEST {
        assert p in manifest.files.value;
        assert EntryOf(FileAt(t, p)) == EntryOf(FileAt(stored, p));
      }
    }
    assert Contents(t).Keys == FilesOf(t) && Contents(stored).Keys == FilesOf(stored);
  }

  lemma SameContentsSameVerdict(stored: Tree, t: Tree, id: Identity)
    requires VerifyBackup(stored, id).Ok? && Contents(t) == Contents(stored) && !HasLink(t)
    ensures VerifyBackup(t, id).Ok?
  {
    assert Contents(t).Keys == FilesOf(t) && Contents(stored).Keys == FilesOf(stored);
    assert FilesOf(t) == FilesOf(stored);
    forall p | p in FilesOf(t)
      ensures t[p] == stored[p]
    {
      assert Contents(t)[p] == Contents(stored)[p];
    }
    assert MANIFEST in FilesOf(stored) && MARKER in FilesOf(stored);
    var files := ReadCompletion(stored, id).value.0.files.value;
    assert SameFileSet(stored, files) && SameFileSet(t, files);
    assert forall p | p in files :: FileAt(t, p) == FileAt(stored, p);
  }

  /** A tree just described by its own manifest passes verification, and the
      size to expect is the size of the directory. */
  lemma FreshManifestVerifies(t: Tree, manifest: Document, length: nat)
    requires BackupFileManifest(t).Ok? && manifest.files == Some(BackupFileManifest(t).value)
    requires MANIFEST !in t && MARKER !in t
    ensures var staged := t[MANIFEST := File(Json(manifest, length))];
            VerifyFiles(staged, manifest) == Ok(TotalSize(Entries(staged)))
  {
    var staged := t[MANIFEST := File(Json(manifest, length))];
    var files := Entries(t);
    assert METADATA[0] in files;
    assert FilesOf(staged) == FilesOf(t) + {MANIFEST} by {
      assert forall p :: p in staged <==> p in t || p == MANIFEST;
      assert forall p | p in t :: staged[p] == t[p];
    }
    assert files.Keys == FilesOf(t);
    assert SameFileSet(staged, files);
    assert forall p | p in files :: FileAt(staged, p) == t[p].blob;
    assert Entries(staged) == files[MANIFEST := EntryOf(Json(manifest, length))];
    TotalWith(files, MANIFEST, EntryOf(Json(manifest, length)));
  }
}
