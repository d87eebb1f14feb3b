/** The archive of closed binary logs and the selection of logs for
    point-in-time recovery. */
module Binlogs {
  import opened Wrappers
  import opened Text
  import opened BackupFiles

  datatype LogEntry = LogEntry(name: string, size: nat, sha256: Digest<Blob>)

  datatype RunManifest = RunManifest(node: string, uuid: string, runId: string, closed: seq<LogEntry>,
                                     active: Option<string>)

  // ----- archive_closed_binlogs -----

  /** Path(name).name == name. */
  predicate PlainName(name: string) {
    name != "" && name != "." && '/' !in name
  }

  function LogEntryOf(name: string, b: Blob): LogEntry {
    LogEntry(name, Length(b), Sha256(b))
  }

  /** One closed log: kept if it is archived already with the same bytes,
      linked into the archive if it is not there. */
  function ArchiveOne(logs: map<string, Node>, source: map<string, Node>, name: string): Result<map<string, Node>> {
    if !PlainName(name) then Err(InvalidLogName)
    else if name !in source || !source[name].File? then Err(LogMissing)
    else if name in logs && logs[name].Link? then Err(SymlinkFound)
    else if name in logs && (!logs[name].File? || Sha256(logs[name].blob) != Sha256(source[name].blob))
    then Err(ChecksumMismatch)
    else if name in logs then Ok(logs)
    else Ok(logs[name := source[name]])
  }

  /** The loop over the closed logs: what the archive holds afterwards, and the
      entries for the manifest unless a log was refused. */
  function ArchiveLogs(logs: map<string, Node>, source: map<string, Node>, names: seq<string>)
    : (map<string, Node>, Result<seq<LogEntry>>)
    decreases |names|
  {
    if names == [] then (logs, Ok([]))
    else
      var earlier := ArchiveLogs(logs, source, names[..|names| - 1]);
      if earlier.1.Err? then earlier else
      var name := names[|names| - 1];
      var one := ArchiveOne(earlier.0, source, name);
      if one.Err? then (earlier.0, Err(one.error))
      else if name in one.value && one.value[name].File?
      then (one.value, Ok(earlier.1.value + [LogEntryOf(name, one.value[name].blob)]))
      else (one.value, Err(LogMissing))
  }

  /** binlogs[:-1] */
  function Closed(names: seq<string>): seq<string> {
    if names == [] then [] else names[..|names| - 1]
  }

  datatype ArchiveState = ArchiveState(logs: map<string, Node>, manifests: map<string, RunManifest>)

  /** One run over SHOW BINARY LOGS, stopped in front of its (steps + 1)-st
      file: each closed log, then the run's manifest. */
  datatype ArchiveRun = ArchiveRun(node: string, uuid: string, runId: string, names: seq<string>,
                                   source: map<string, Node>, steps: nat)

  function Reached(closed: seq<string>, steps: nat): seq<string> {
    if steps < |closed| then closed[..steps] else closed
  }

  function LoopOutcome(logs: map<string, Node>, source: map<string, Node>, closed: seq<string>, steps: nat)
    : (map<string, Node>, Result<seq<LogEntry>>)
  {
    var loop := ArchiveLogs(logs, source, Reached(closed, steps));
    if loop.1.Ok? && steps < |closed| then (loop.0, Err(Interrupted)) else loop
  }

  function AfterRun(a: ArchiveState, run: ArchiveRun): (ArchiveState, Result<RunManifest>) {
    var closed := Closed(run.names);
    var loop := LoopOutcome(a.logs, run.source, closed, run.steps);
    var a' := a.(logs := loop.0);
    if loop.1.Err? then (a', Err(loop.1.error))
    else if run.runId in a.manifests then (a', Err(ManifestExists))
    else if run.steps == |closed| then (a', Err(Interrupted))
    else
      var m := RunManifest(run.node, run.uuid, run.runId, loop.1.value,
                           if run.names == [] then None else Some(run.names[|run.names| - 1]));
      (a'.(manifests := a.manifests[run.runId := m]), Ok(m))
  }

  class BinlogArchive {
    var logs: map<string, Node>
    var manifests: map<string, RunManifest>

    function View(): ArchiveState
      reads this
    {
      ArchiveState(logs, manifests)
    }

    constructor ()
      ensures View() == ArchiveState(map[], map[])
    {
      logs, manifests := map[], map[];
    }

    method ArchiveLoop(closed: seq<string>, source: map<string, Node>, steps: nat)
      returns (r: Result<seq<LogEntry>>)
      modifies this`logs
      ensures (logs, r) == LoopOutcome(old(logs), source, closed, steps)
    {
      hide ArchiveOne;
      var archived: seq<LogEntry> := [];
      ghost var reached := Reached(closed, steps);
      assert closed[..|closed|] == closed;
      for i := 0 to |closed|
        invariant i <= steps
        invariant ArchiveLogs(old(logs), source, closed[..i]) == (logs, Ok(archived))
      {
        if i == steps {
          return Err(Interrupted);
        }
        ghost var before := logs;
        assert closed[..i + 1][..i] == closed[..i] && reached[..i + 1] == closed[..i + 1];
        var name := closed[i];
        var one := ArchiveOne(logs, source, name);
        if one.Err? {
          assert ArchiveLogs(old(logs), source, closed[..i + 1]) == (before, Err(one.error));
          FailureStops(old(logs), source, reached, i + 1);
          return Err(one.error);
        }
        ArchivedIsFile(logs, source, name);
        logs := one.value;
        archived := archived + [LogEntryOf(name, logs[name].blob)];
      }
      return Ok(archived);
    }

    /** archive_closed_binlogs. */
    method ArchiveClosed(run: ArchiveRun) returns (r: Result<RunManifest>)
      modifies this
      ensures (View(), r) == AfterRun(old(View()), run)
    {
      hide LoopOutcome;
      var closed := Closed(run.names);
      var archived := ArchiveLoop(closed, run.source, run.steps);
      if archived.Err? {
        return Err(archived.error);
      }
      if run.runId in manifests {
        return Err(ManifestExists);
      }
      if run.steps == |closed| {
        return Err(Interrupted);
      }
      var m := RunManifest(run.node, run.uuid, run.runId, archived.value,
                           if run.names == [] then None else Some(run.names[|run.names| - 1]));
      manifests := manifests[run.runId := m];
      return Ok(m);
    }
  }

  lemma ArchivedIsFile(logs: map<string, Node>, source: map<string, Node>, name: string)
    requires ArchiveOne(logs, source, name).Ok?
    ensures var after := ArchiveOne(logs, source, name).value;
            && name in after && after[name] == source[name] && after[name].File?
            && forall n | n in logs :: n in after && after[n] == logs[n]
  {
  }

  /** A refused log ends the loop: the later ones change nothing. */
  lemma {:induction false} FailureStops(logs: map<string, Node>, source: map<string, Node>, names: seq<string>, k: nat)
    requires k <= |names| && ArchiveLogs(logs, source, names[..k]).1.Err?
    ensures ArchiveLogs(logs, source, names) == ArchiveLogs(logs, source, names[..k])
    decreases |names|
  {
    if k < |names| {
      var prefix := names[..|names| - 1];
      assert prefix[..k] == names[..k];
      FailureStops(logs, source, prefix, k);
    } else {
      assert names[..k] == names;
    }
  }

  // ----- pitr_binlogs -----

  function LastDot(s: string): Option<nat>
    ensures LastDot(s).Some? ==> LastDot(s).value < |s| && s[LastDot(s).value] == '.'
  {
    if s == "" then None
    else if s[|s| - 1] == '.' then Some(|s| - 1)
    else LastDot(s[..|s| - 1])
  }

  /** (.+\.)(\d+) against the whole name. */
  function SplitSequence(name: string): Option<(string, string)> {
    var k := LastDot(name);
    if k.Some? && k.value > 0 && IsNumeral(name[k.value + 1..])
    then Some((name[..k.value + 1], name[k.value + 1..]))
    else None
  }

  /** The backup's own account of where its binary log stood. */
  datatype Baseline = Baseline(node: string, uuid: string, runId: string, info: seq<string>)

  function ExpectedName(prefix: string, digits: string, index: nat): string
    requires IsNumeral(digits)
  {
    prefix + Zfill(Decimal(Number(digits) + index), |digits|)
  }

  /** The entry has the next name, and the archive still holds what it lists. */
  predicate EntryOk(logs: map<string, Node>, e: LogEntry, expected: string) {
    && e.name == expected
    && expected in logs && logs[expected].File?
    && Length(logs[expected].blob) == e.size && Sha256(logs[expected].blob) == e.sha256
  }

  predicate Consecutive(logs: map<string, Node>, entries: seq<LogEntry>, prefix: string, digits: string)
    requires IsNumeral(digits)
  {
    forall i | 0 <= i < |entries| :: EntryOk(logs, entries[i], ExpectedName(prefix, digits, i))
  }

  function Starts(entries: seq<LogEntry>, first: string): seq<nat> {
    if entries == [] then []
    else
      var n := |entries| - 1;
      Starts(entries[..n], first) + if entries[n].name == first then [n] else []
  }

  lemma {:induction false} StartsAreIndices(entries: seq<LogEntry>, first: string)
    ensures forall k | k in Starts(entries, first) :: k < |entries| && entries[k].name == first
  {
    if entries != [] {
      StartsAreIndices(entries[..|entries| - 1], first);
    }
  }

  function NamesOf(entries: seq<LogEntry>): (names: seq<string>)
    ensures |names| == |entries| && forall i | 0 <= i < |entries| :: names[i] == entries[i].name
  {
    seq(|entries|, i requires 0 <= i < |entries| => entries[i].name)
  }

  function PitrBinlogs(a: ArchiveState, b: Baseline): Result<(int, seq<string>)> {
    if b.runId !in a.manifests then Err(ManifestMissing) else
    var m := a.manifests[b.runId];
    if m.node != b.node || m.uuid != b.uuid || m.runId != b.runId then Err(IdentityMismatch)
    else if |b.info| < 2 then Err(BaselineUnavailable) else
    var first, position := b.info[0], b.info[1];
    var starts := Starts(m.closed, first);
    if |starts| != 1 || !PlainName(first) || !IsNumeral(position) || Number(position) < 4
    then Err(BaselineUnavailable)
    else if SplitSequence(first).None? then Err(LogSequenceInvalid) else
    var (prefix, digits) := SplitSequence(first).value;
    var entries := if starts[0] <= |m.closed| then m.closed[starts[0]..] else [];
    if Consecutive(a.logs, entries, prefix, digits)
    then Ok((Number(position), NamesOf(entries)))
    else Err(LogGap)
  }

  /** pitr_binlogs, with its loop over the entries. */
  method SelectBinlogs(a: ArchiveState, b: Baseline) returns (r: Result<(int, seq<string>)>)
    ensures r == PitrBinlogs(a, b)
  {
    hide Starts, SplitSequence, PlainName, EntryOk, ExpectedName, Number;
    if b.runId !in a.manifests {
      return Err(ManifestMissing);
    }
    var m := a.manifests[b.runId];
    if m.node != b.node || m.uuid != b.uuid || m.runId != b.runId {
      return Err(IdentityMismatch);
    }
    if |b.info| < 2 {
      return Err(BaselineUnavailable);
    }
    var first, position := b.info[0], b.info[1];
    var starts := Starts(m.closed, first);
    if |starts| != 1 || !PlainName(first) || !IsNumeral(position) || Number(position) < 4 {
      return Err(BaselineUnavailable);
    }
    if SplitSequence(first).None? {
      return Err(LogSequenceInvalid);
    }
    SplitDigits(first);
    StartsAreIndices(m.closed, first);
    assert starts[0] in starts;
    var paths := SelectFrom(a.logs, m.closed[starts[0]..], SplitSequence(first).value.0, SplitSequence(first).value.1);
    if paths.Err? {
      return Err(paths.error);
    }
    return Ok((Number(position), paths.value));
  }

  method SelectFrom(logs: map<string, Node>, entries: seq<LogEntry>, prefix: string, digits: string)
    returns (r: Result<seq<string>>)
    requires IsNumeral(digits)
    ensures r == if Consecutive(logs, entries, prefix, digits) then Ok(NamesOf(entries)) else Err(LogGap)
  {
    hide ExpectedName;
    var paths: seq<string> := [];
    for i := 0 to |entries|
      invariant |paths| == i && forall j | 0 <= j < i :: paths[j] == entries[j].name
      invariant forall j | 0 <= j < i :: EntryOk(logs, entries[j], ExpectedName(prefix, digits, j))
    {
      var expected := ExpectedName(prefix, digits, i);
      if !EntryOk(logs, entries[i], expected) {
        return Err(LogGap);
      }
      paths := paths + [expected];
    }
    assert paths == NamesOf(entries);
    return Ok(paths);
  }

  lemma SplitDigits(name: string)
    ensures SplitSequence(name).Some? ==> IsNumeral(SplitSequence(name).value.1)
  {
  }
}
