/** The archive over any number of runs, and recovery without gap or duplicate. */
module BinlogRuns {
  import opened Wrappers
  import opened Text
  import opened BackupFiles
  import opened Binlogs

  // ----- write once -----

  ghost predicate Keeps(logs: map<string, Node>, logs': map<string, Node>) {
    forall n | n in logs :: n in logs' && logs'[n] == logs[n]
  }

  ghost predicate Grows(a: ArchiveState, a': ArchiveState) {
    Keeps(a.logs, a'.logs) && forall r | r in a.manifests :: r in a'.manifests && a'.manifests[r] == a.manifests[r]
  }

  ghost predicate Held(logs: map<string, Node>, e: LogEntry) {
    e.name in logs && logs[e.name].File? && LogEntryOf(e.name, logs[e.name].blob) == e
  }

  /** The archive still holds, byte for byte, everything any manifest lists. */
  ghost predicate ManifestsHold(a: ArchiveState) {
    forall r, e | r in a.manifests && e in a.manifests[r].closed :: Held(a.logs, e)
  }

  /** What a loop over closed logs leaves: nothing it found is changed, and on
      success every named log is archived with the bytes of the source. */
  lemma {:induction false} LoopArchives(logs: map<string, Node>, source: map<string, Node>, names: seq<string>)
    ensures var (logs', r) := ArchiveLogs(logs, source, names);
            && Keeps(logs, logs')
            && (r.Ok? ==>
                  && |r.value| == |names|
                  && forall i | 0 <= i < |names| ::
                       && r.value[i].name == names[i] && Held(logs', r.value[i])
                       && names[i] in source && logs'[names[i]] == source[names[i]])
    decreases |names|
  {
    hide ArchiveOne;
    if names != [] {
      var prefix, name := names[..|names| - 1], names[|names| - 1];
      LoopArchives(logs, source, prefix);
      var (mid, r) := ArchiveLogs(logs, source, prefix);
      if r.Ok? && ArchiveOne(mid, source, name).Ok? {
        ArchivedIsFile(mid, source, name);
        InSource(mid, source, name);
        assert forall i | 0 <= i < |prefix| :: names[i] == prefix[i];
      }
    }
  }

  lemma InSource(logs: map<string, Node>, source: map<string, Node>, name: string)
    requires ArchiveOne(logs, source, name).Ok?
    ensures name in source
  {
  }

  lemma RunOutcome(a: ArchiveState, run: ArchiveRun)
    ensures var (a', r) := AfterRun(a, run);
            && Grows(a, a')
            && (r.Ok? ==>
                  && a'.manifests == a.manifests[run.runId := r.value] && run.runId !in a.manifests
                  && r.value.node == run.node && r.value.uuid == run.uuid && r.value.runId == run.runId
                  && |r.value.closed| == |Closed(run.names)|
                  && forall i | 0 <= i < |r.value.closed| ::
                       && r.value.closed[i].name == Closed(run.names)[i] && Held(a'.logs, r.value.closed[i])
                       && Closed(run.names)[i] in run.source
                       && a'.logs[Closed(run.names)[i]] == run.source[Closed(run.names)[i]])
            && (r.Err? ==> a'.manifests == a.manifests)
  {
    hide ArchiveLogs;
    LoopArchives(a.logs, run.source, Reached(Closed(run.names), run.steps));
  }

  function AfterRuns(a: ArchiveState, runs: seq<ArchiveRun>): ArchiveState
    decreases |runs|
  {
    if runs == [] then a else AfterRuns(AfterRun(a, runs[0]).0, runs[1..])
  }

  /** Over any sequence of runs, with any sources, refused, interrupted or
      complete: the archive only grows, and every manifest ever written still
      matches the archive. */
  lemma {:induction false} ArchiveIsWriteOnce(a: ArchiveState, runs: seq<ArchiveRun>)
    ensures Grows(a, AfterRuns(a, runs))
    ensures ManifestsHold(a) ==> ManifestsHold(AfterRuns(a, runs))
    decreases |runs|
  {
    hide AfterRun;
    if runs != [] {
      RunOutcome(a, runs[0]);
      var (a1, r) := AfterRun(a, runs[0]);
      ArchiveIsWriteOnce(a1, runs[1..]);
      if ManifestsHold(a) {
        RunKeepsManifests(a, runs[0]);
      }
    }
  }

  lemma RunKeepsManifests(a: ArchiveState, run: ArchiveRun)
    requires ManifestsHold(a)
    ensures ManifestsHold(AfterRun(a, run).0)
  {
    hide AfterRun;
    RunOutcome(a, run);
    var (a', r) := AfterRun(a, run);
    forall k, e | k in a'.manifests && e in a'.manifests[k].closed
      ensures Held(a'.logs, e)
    {
      if k in a.manifests {
        assert Held(a.logs, e);
      } else {
        assert a'.manifests[k] == r.value;
      }
    }
  }

  /** A log the archive can take: a plain name, a regular file, and no other
      bytes under that name. */
  predicate Acceptable(logs: map<string, Node>, source: map<string, Node>, name: string) {
    PlainName(name) && name in source && source[name].File? && (name in logs ==> logs[name] == source[name])
  }

  lemma AcceptsOne(logs: map<string, Node>, source: map<string, Node>, name: string)
    ensures ArchiveOne(logs, source, name).Ok? <==> Acceptable(logs, source, name)
    ensures ArchiveOne(logs, source, name).Ok? ==> ArchiveOne(logs, source, name).value == logs[name := source[name]]
  {
  }

  lemma {:induction false} AcceptsAll(logs: map<string, Node>, source: map<string, Node>, names: seq<string>)
    ensures ArchiveLogs(logs, source, names).1.Ok? <==> forall n | n in names :: Acceptable(logs, source, n)
    ensures ArchiveLogs(logs, source, names).1.Ok? ==>
              forall n | n in ArchiveLogs(logs, source, names).0 ::
                (n in logs && ArchiveLogs(logs, source, names).0[n] == logs[n])
                || (n in source && ArchiveLogs(logs, source, names).0[n] == source[n])
    decreases |names|
  {
    hide ArchiveOne, PlainName;
    if names != [] {
      var prefix, name := names[..|names| - 1], names[|names| - 1];
      assert name in names;
      AcceptsAll(logs, source, prefix);
      LoopArchives(logs, source, prefix);
      var (mid, r) := ArchiveLogs(logs, source, prefix);
      assert names == prefix + [name];
      assert forall n | n in names :: n in prefix || n == name;
      if r.Ok? {
        AcceptsOne(mid, source, name);
        assert name in logs ==> mid[name] == logs[name];
        assert name !in logs && name in mid ==> mid[name] == source[name];
        assert Acceptable(mid, source, name) <==> Acceptable(logs, source, name);
      }
    }
  }

  /** When a run succeeds: exactly when every closed log is acceptable, the run
      id is new and nothing interrupts it. */
  lemma RunSucceedsExactly(a: ArchiveState, run: ArchiveRun)
    ensures AfterRun(a, run).1.Ok? <==>
              && (forall n | n in Closed(run.names) :: Acceptable(a.logs, run.source, n))
              && run.runId !in a.manifests && run.steps > |Closed(run.names)|
  {
    hide ArchiveLogs, Acceptable;
    AcceptsAll(a.logs, run.source, Reached(Closed(run.names), run.steps));
  }

  // ----- numbered logs -----

  /** The source's name for its n-th log: six digits, more when they run out. */
  function LogName(base: string, n: nat): string {
    (base + ".") + Zfill(Decimal(n), 6)
  }

  lemma {:induction false} LastDotBefore(prefix: string, digits: string)
    requires prefix != "" && prefix[|prefix| - 1] == '.' && '.' !in digits
    ensures LastDot(prefix + digits) == Some(|prefix| - 1)
  {
    var s := prefix + digits;
    if digits == "" {
      assert s == prefix;
    } else {
      assert s[..|s| - 1] == prefix + digits[..|digits| - 1];
      assert s[|s| - 1] == digits[|digits| - 1];
      LastDotBefore(prefix, digits[..|digits| - 1]);
    }
  }

  /** A way to cut a name up as the pattern says: at least one character and a
      dot, and then digits. */
  ghost predicate MatchesSequence(name: string, prefix: string, digits: string) {
    name == prefix + digits && |prefix| >= 2 && prefix[|prefix| - 1] == '.' && IsNumeral(digits)
  }

  /** The split is the match of the pattern: it exists exactly when there is one,
      and there is at most one. */
  lemma SplitIsThePattern(name: string, prefix: string, digits: string)
    ensures SplitSequence(name) == Some((prefix, digits)) <==> MatchesSequence(name, prefix, digits)
    ensures SplitSequence(name).Some? <==> exists p, d :: MatchesSequence(name, p, d)
  {
    SplitMatches(name);
    if MatchesSequence(name, prefix, digits) {
      MatchIsSplit(prefix, digits);
    }
    if exists p, d :: MatchesSequence(name, p, d) {
      var p, d :| MatchesSequence(name, p, d);
      MatchIsSplit(p, d);
    }
  }

  lemma SplitMatches(name: string)
    ensures SplitSequence(name).Some? ==>
              MatchesSequence(name, SplitSequence(name).value.0, SplitSequence(name).value.1)
  {
    var k := LastDot(name);
    if SplitSequence(name).Some? {
      assert name == name[..k.value + 1] + name[k.value + 1..];
    }
  }

  lemma MatchIsSplit(prefix: string, digits: string)
    requires |prefix| >= 2 && prefix[|prefix| - 1] == '.' && IsNumeral(digits)
    ensures SplitSequence(prefix + digits) == Some((prefix, digits))
  {
    var s := prefix + digits;
    assert '.' !in DIGITS;
    LastDotBefore(prefix, digits);
    assert s[..|prefix|] == prefix && s[|prefix|..] == digits;
  }

  lemma NumberOfLog(n: nat)
    ensures IsNumeral(Zfill(Decimal(n), 6)) && Number(Zfill(Decimal(n), 6)) == n
  {
    NumberOfDecimal(n);
    NumberOfZfill(Decimal(n), 6);
  }

  lemma LogNamesDiffer(base: string, m: nat, n: nat)
    requires LogName(base, m) == LogName(base, n)
    ensures m == n
  {
    NumberOfLog(m);
    NumberOfLog(n);
    assert Zfill(Decimal(m), 6) == LogName(base, m)[|base| + 1..] == LogName(base, n)[|base| + 1..];
  }

  /** Padding to the width of the baseline's own digits gives the source's next
      names, also when the numbers outgrow six digits on the way. */
  lemma NextNamesAgree(base: string, first: nat, index: nat)
    requires base != ""
    ensures SplitSequence(LogName(base, first)) == Some((base + ".", Zfill(Decimal(first), 6)))
    ensures ExpectedName(base + ".", Zfill(Decimal(first), 6), index) == LogName(base, first + index)
  {
    MatchIsSplit(base + ".", Zfill(Decimal(first), 6));
    NumberOfLog(first);
    DecimalWidthIsMonotone(first, first + index);
  }

  // ----- recovery -----

  /** A source whose log number n holds content(n), listed from lo to the
      active log hi. */
  ghost predicate ListsSource(run: ArchiveRun, base: string, lo: nat, hi: nat, content: nat -> Blob) {
    && lo <= hi && |run.names| == hi + 1 - lo
    && (forall i | 0 <= i < |run.names| :: run.names[i] == LogName(base, lo + i))
    && (forall n: nat | lo <= n < hi ::
          LogName(base, n) in run.source && run.source[LogName(base, n)] == File(content(n)))
  }

  lemma {:induction false} StartsOnce(entries: seq<LogEntry>, first: string, k: nat)
    requires k < |entries| && entries[k].name == first
    requires forall i | 0 <= i < |entries| && i != k :: entries[i].name != first
    ensures Starts(entries, first) == [k]
  {
    var n := |entries| - 1;
    if k == n {
      NoStart(entries[..n], first);
    } else {
      StartsOnce(entries[..n], first, k);
    }
  }

  lemma {:induction false} NoStart(entries: seq<LogEntry>, first: string)
    requires forall i | 0 <= i < |entries| :: entries[i].name != first
    ensures Starts(entries, first) == []
  {
    if entries != [] {
      NoStart(entries[..|entries| - 1], first);
    }
  }

  /** What recovery is handed: the source's logs from the baseline to the last
      closed one, in order, each once, with the source's bytes. */
  ghost predicate IsHistory(a: ArchiveState, names: seq<string>, base: string, from: nat, to: nat,
                            content: nat -> Blob)
  {
    && from <= to && |names| == to - from
    && forall i | 0 <= i < |names| ::
         && names[i] == LogName(base, from + i)
         && names[i] in a.logs && a.logs[names[i]] == File(content(from + i))
  }

  /** The manifest of a successful run over a numbered source. */
  ghost predicate Recorded(a: ArchiveState, b: Baseline, base: string, lo: nat, hi: nat, content: nat -> Blob) {
    && b.runId in a.manifests && lo <= hi
    && var m := a.manifests[b.runId];
    && m.node == b.node && m.uuid == b.uuid && m.runId == b.runId
    && |m.closed| == hi - lo
    && forall i | 0 <= i < |m.closed| :: RecordedAt(a.logs, m.closed[i], LogName(base, lo + i), content(lo + i))
  }

  ghost predicate RecordedAt(logs: map<string, Node>, e: LogEntry, name: string, b: Blob) {
    e == LogEntryOf(name, b) && name in logs && logs[name] == File(b)
  }

  lemma RunRecords(a: ArchiveState, run: ArchiveRun, b: Baseline, base: string, lo: nat, hi: nat,
                   content: nat -> Blob)
    requires ListsSource(run, base, lo, hi, content) && AfterRun(a, run).1.Ok?
    requires b.node == run.node && b.uuid == run.uuid && b.runId == run.runId
    ensures Recorded(AfterRun(a, run).0, b, base, lo, hi, content)
  {
    hide AfterRun, LogName;
    RunOutcome(a, run);
    var (a', r) := AfterRun(a, run);
    var m := r.value;
    assert a'.manifests[b.runId] == m;
    forall i | 0 <= i < |m.closed|
      ensures RecordedAt(a'.logs, m.closed[i], LogName(base, lo + i), content(lo + i))
    {
      assert Closed(run.names)[i] == LogName(base, lo + i);
      assert Held(a'.logs, m.closed[i]);
    }
  }

  lemma RecordSurvives(a: ArchiveState, a': ArchiveState, b: Baseline, base: string, lo: nat, hi: nat,
                       content: nat -> Blob)
    requires Grows(a, a') && Recorded(a, b, base, lo, hi, content)
    ensures Recorded(a', b, base, lo, hi, content)
  {
    hide LogName;
    var m := a.manifests[b.runId];
    forall i | 0 <= i < |m.closed|
      ensures RecordedAt(a'.logs, m.closed[i], LogName(base, lo + i), content(lo + i))
    {
      assert RecordedAt(a.logs, m.closed[i], LogName(base, lo + i), content(lo + i));
    }
  }

  lemma RecordIsSelected(a: ArchiveState, b: Baseline, base: string, lo: nat, from: nat, hi: nat,
                         content: nat -> Blob)
    requires Recorded(a, b, base, lo, hi, content) && lo <= from < hi
    requires base != "" && '/' !in base
    requires |b.info| >= 2 && b.info[0] == LogName(base, from) && IsNumeral(b.info[1]) && Number(b.info[1]) >= 4
    ensures PitrBinlogs(a, b).Ok? && PitrBinlogs(a, b).value.0 == Number(b.info[1])
    ensures IsHistory(a, PitrBinlogs(a, b).value.1, base, from, hi, content)
  {
    hide LogName, SplitSequence, ExpectedName, Zfill, Number, Starts, PlainName, Consecutive, EntryOk;
    var m, first := a.manifests[b.runId], b.info[0];
    var k := from - lo;
    BaselineIsUnique(a, b, base, lo, from, hi, content);
    PlainLogName(base, from);
    NextNamesAgree(base, from, 0);
    RestIsConsecutive(a, b, base, lo, from, hi, content);
    var entries := m.closed[k..];
    forall i | 0 <= i < |entries|
      ensures NamesOf(entries)[i] == LogName(base, from + i)
      ensures LogName(base, from + i) in a.logs && a.logs[LogName(base, from + i)] == File(content(from + i))
    {
      assert lo + (k + i) == from + i;
      assert RecordedAt(a.logs, m.closed[k + i], LogName(base, from + i), content(from + i));
    }
  }

  lemma BaselineIsUnique(a: ArchiveState, b: Baseline, base: string, lo: nat, from: nat, hi: nat,
                         content: nat -> Blob)
    requires Recorded(a, b, base, lo, hi, content) && lo <= from < hi
    ensures Starts(a.manifests[b.runId].closed, LogName(base, from)) == [from - lo]
  {
    hide LogName, Starts;
    var m, first, k := a.manifests[b.runId], LogName(base, from), from - lo;
    forall i | 0 <= i < |m.closed|
      ensures i != k ==> m.closed[i].name != first
      ensures i == k ==> m.closed[i].name == first
    {
      assert RecordedAt(a.logs, m.closed[i], LogName(base, lo + i), content(lo + i));
      if LogName(base, lo + i) == first {
        LogNamesDiffer(base, lo + i, from);
      }
    }
    StartsOnce(m.closed, first, k);
  }

  lemma RestIsConsecutive(a: ArchiveState, b: Baseline, base: string, lo: nat, from: nat, hi: nat,
                          content: nat -> Blob)
    requires Recorded(a, b, base, lo, hi, content) && lo <= from < hi && base != ""
    requires IsNumeral(Zfill(Decimal(from), 6))
    ensures Consecutive(a.logs, a.manifests[b.runId].closed[from - lo..], base + ".", Zfill(Decimal(from), 6))
  {
    hide LogName, ExpectedName, Zfill;
    var m, k := a.manifests[b.runId], from - lo;
    var entries := m.closed[k..];
    forall i | 0 <= i < |entries|
      ensures EntryOk(a.logs, entries[i], ExpectedName(base + ".", Zfill(Decimal(from), 6), i))
    {
      NextNamesAgree(base, from, i);
      assert lo + (k + i) == from + i;
      assert RecordedAt(a.logs, m.closed[k + i], LogName(base, from + i), content(from + i));
    }
  }

  lemma PlainLogName(base: string, n: nat)
    requires base != "" && '/' !in base
    ensures PlainName(LogName(base, n))
  {
    var digits := Zfill(Decimal(n), 6);
    assert IsNumeral(digits) && '/' !in DIGITS;
    assert |LogName(base, n)| >= 2;
  }

  /** Point-in-time recovery.  A run over a consecutively numbered source that
      includes the baseline log, followed by any number of later runs of any
      kind, leaves an archive from which the selection succeeds and returns
      exactly the history from the baseline through the run's last closed log. */
  lemma RecoveryHasNoGap(a: ArchiveState, run: ArchiveRun, later: seq<ArchiveRun>, b: Baseline,
                         base: string, lo: nat, from: nat, hi: nat, content: nat -> Blob)
    requires ListsSource(run, base, lo, hi, content) && AfterRun(a, run).1.Ok?
    requires b.node == run.node && b.uuid == run.uuid && b.runId == run.runId
    requires lo <= from < hi && base != "" && '/' !in base
    requires |b.info| >= 2 && b.info[0] == LogName(base, from) && IsNumeral(b.info[1]) && Number(b.info[1]) >= 4
    ensures var final := AfterRuns(AfterRun(a, run).0, later);
            && PitrBinlogs(final, b).Ok? && PitrBinlogs(final, b).value.0 == Number(b.info[1])
            && IsHistory(final, PitrBinlogs(final, b).value.1, base, from, hi, content)
  {
    hide AfterRun, LogName, PitrBinlogs;
    RunRecords(a, run, b, base, lo, hi, content);
    var a1 := AfterRun(a, run).0;
    ArchiveIsWriteOnce(a1, later);
    RecordSurvives(a1, AfterRuns(a1, later), b, base, lo, hi, content);
    RecordIsSelected(AfterRuns(a1, later), b, base, lo, from, hi, content);
  }

  /** Whatever the manifest says, a selection that succeeds is free of gaps:
      the returned names carry consecutive numbers from the baseline on. */
  lemma SelectionIsConsecutive(a: ArchiveState, b: Baseline)
    requires PitrBinlogs(a, b).Ok?
    ensures SplitSequence(b.info[0]).Some?
    ensures var (prefix, digits) := SplitSequence(b.info[0]).value;
            var names := PitrBinlogs(a, b).value.1;
            && IsNumeral(digits)
            && forall i | 0 <= i < |names| ::
                 && names[i] == ExpectedName(prefix, digits, i) && names[i] in a.logs && a.logs[names[i]].File?
  {
    hide SplitSequence, ExpectedName;
    SplitDigits(b.info[0]);
    var m := a.manifests[b.runId];
    var starts := Starts(m.closed, b.info[0]);
    var (prefix, digits) := SplitSequence(b.info[0]).value;
    var entries := if starts[0] <= |m.closed| then m.closed[starts[0]..] else [];
    var names := PitrBinlogs(a, b).value.1;
    assert names == NamesOf(entries);
    assert Consecutive(a.logs, entries, prefix, digits);
  }
}
