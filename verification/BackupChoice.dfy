/** Which backup a restore takes: list_backups and resolve_backup. */
module BackupChoice {
  import opened Wrappers
  import opened BackupFiles
  import opened BackupStore
  import opened BackupRuns

  datatype Candidate = Candidate(id: Identity, runAt: int)

  /** A directory of the repository is offered if its metadata can be read and
      its run id is a time; time gives the moment a run id stands for. */
  predicate Offered(fs: Tree, repository: Path, time: string -> Option<int>, id: Identity) {
    var dir := Place(repository, id);
    && dir in fs && fs[dir] == Directory
    && ReadCompletion(Sub(fs, dir), id).Ok? && time(id.runId).Some?
  }

  /** list_backups, over the directories that glob finds. */
  method ListBackups(fs: Tree, repository: Path, found: seq<Identity>, time: string -> Option<int>)
    returns (candidates: seq<Candidate>)
    ensures forall c | c in candidates ::
              c.id in found && Offered(fs, repository, time, c.id) && time(c.id.runId) == Some(c.runAt)
    ensures forall id | id in found && Offered(fs, repository, time, id) ::
              exists c :: c in candidates && c.id == id
    ensures EachOnce(found) ==> forall i, j | 0 <= i < j < |candidates| :: candidates[i].id != candidates[j].id
  {
    hide Offered, EachOnce;
    candidates := [];
    for k := 0 to |found|
      invariant forall c | c in candidates ::
                  c.id in found[..k] && Offered(fs, repository, time, c.id) && time(c.id.runId) == Some(c.runAt)
      invariant forall id | id in found[..k] && Offered(fs, repository, time, id) ::
                  exists c :: c in candidates && c.id == id
      invariant EachOnce(found) ==> forall i, j | 0 <= i < j < |candidates| :: candidates[i].id != candidates[j].id
    {
      var id := found[k];
      ghost var before := candidates;
      if Offered(fs, repository, time, id) {
        OfferedHasTime(fs, repository, time, id);
        NotFoundBefore(found, k);
        candidates := candidates + [Candidate(id, time(id.runId).value)];
        assert candidates[|before|].id == id;
        assert forall i | 0 <= i < |before| :: before[i] in before;
      }
    }
  }

  ghost predicate EachOnce(found: seq<Identity>) {
    forall i, j | 0 <= i < j < |found| :: found[i] != found[j]
  }

  lemma NotFoundBefore(found: seq<Identity>, k: nat)
    requires k < |found|
    ensures EachOnce(found) ==> found[k] !in found[..k]
  {
  }

  lemma OfferedHasTime(fs: Tree, repository: Path, time: string -> Option<int>, id: Identity)
    requires Offered(fs, repository, time, id)
    ensures time(id.runId).Some?
  {
  }

  /** The candidates a request leaves: those of that run id, or all. */
  predicate Wanted(backupId: string, c: Candidate) {
    backupId == "" || c.id.runId == backupId
  }

  /** What a restore may take: the only backup of the id asked for, or one that
      no other backup is newer than. */
  ghost predicate RightChoice(candidates: seq<Candidate>, backupId: string, c: Candidate) {
    && c in candidates && Wanted(backupId, c)
    && if backupId == "" then forall d | d in candidates :: d.runAt <= c.runAt
       else forall i, j | 0 <= i < |candidates| && 0 <= j < |candidates| &&
                          Wanted(backupId, candidates[i]) && Wanted(backupId, candidates[j]) :: i == j
  }

  /** resolve_backup on the listed candidates. */
  method ResolveBackup(candidates: seq<Candidate>, backupId: string) returns (r: Result<Candidate>)
    ensures r.Ok? <==> exists c :: RightChoice(candidates, backupId, c)
    ensures r.Ok? ==> RightChoice(candidates, backupId, r.value)
  {
    var chosen, count: nat := None, 0;
    ghost var at: nat := 0;
    for k := 0 to |candidates|
      invariant count == 0 <==> chosen.None?
      invariant count == 0 ==> forall i | 0 <= i < k :: !Wanted(backupId, candidates[i])
      invariant count > 0 ==> at < k && candidates[at] == chosen.value && Wanted(backupId, chosen.value)
      invariant count == 1 ==> forall i | 0 <= i < k && Wanted(backupId, candidates[i]) :: i == at
      invariant count > 1 ==> exists i, j :: 0 <= i < j < k && Wanted(backupId, candidates[i])
                                             && Wanted(backupId, candidates[j])
      invariant backupId == "" && count > 0 ==> forall i | 0 <= i < k :: candidates[i].runAt <= chosen.value.runAt
    {
      var c := candidates[k];
      if Wanted(backupId, c) {
        assert count > 0 ==> Wanted(backupId, candidates[at]) && Wanted(backupId, candidates[k]);
        if chosen.None? || c.runAt > chosen.value.runAt {
          chosen := Some(c);
          at := k;
        }
        count := count + 1;
      }
    }
    if backupId != "" && count != 1 {
      return Err(FileMissing);
    }
    if count == 0 {
      return Err(FileMissing);
    }
    assert RightChoice(candidates, backupId, chosen.value);
    return Ok(chosen.value);
  }

  /** Whatever runs of interrupted stores came before: the backup a restore is
      given exists, is verified in full, and is the one asked for or, if none
      was, as new as any backup on offer. */
  lemma ChosenBackupIsVerified(fs: Tree, repository: Path, calls: seq<BackupRuns.Call>, found: seq<Identity>,
                               time: string -> Option<int>, candidates: seq<Candidate>, backupId: string,
                               c: Candidate)
    requires Sound(fs, repository) && forall call | call in calls :: SafeCall(call)
    requires var now := AfterCalls(fs, repository, calls);
             && (forall d | d in candidates ::
                   Offered(now, repository, time, d.id) && time(d.id.runId) == Some(d.runAt))
             && (forall id | id in found && Offered(now, repository, time, id) ::
                   exists d :: d in candidates && d.id == id)
    requires RightChoice(candidates, backupId, c)
    ensures var now := AfterCalls(fs, repository, calls);
            && VerifyBackup(Sub(now, Place(repository, c.id)), c.id).Ok?
            && (backupId != "" ==> c.id.runId == backupId)
            && (backupId == "" ==>
                  forall id | id in found && Offered(now, repository, time, id) ::
                    time(id.runId).Some? && time(id.runId).value <= c.runAt)
  {
    hide VerifyBackup, Sound, AfterCalls, SafeCall, Sub, Place, ReadCompletion;
    var now := AfterCalls(fs, repository, calls);
    RunStaysSound(fs, repository, calls);
    assert Offered(now, repository, time, c.id);
    ListedIsVerified(now, repository, c.id);
    forall id | backupId == "" && id in found && Offered(now, repository, time, id)
      ensures time(id.runId).Some? && time(id.runId).value <= c.runAt
    {
      var d :| d in candidates && d.id == id;
    }
  }

  lemma {:induction false} RunStaysSound(fs: Tree, repository: Path, calls: seq<BackupRuns.Call>)
    requires Sound(fs, repository) && forall c | c in calls :: SafeCall(c)
    ensures Sound(AfterCalls(fs, repository, calls), repository)
    decreases |calls|
  {
    hide Sound, Stored, Lists, Safe;
    if calls != [] {
      var c := calls[0];
      assert SafeCall(c);
      StoreKeepsSound(fs, repository, c.t, c.order, c.id, c.size, c.length, c.steps, c.damage);
      var fs' := Stored(fs, repository, c.t, c.order, c.id, c.size, c.length, c.steps, c.damage);
      RunStaysSound(fs', repository, calls[1..]);
    }
  }
}
