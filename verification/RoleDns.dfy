/** Publication of the MySQL roles on the two authoritative name servers: the
    updater program of one server, and the playbook round that drives both. */
module RoleDns {
  import opened Wrappers
  import opened Text
  import opened Ring
  import opened ZoneText

  // ----- the record file -----

  const COMMENT: string := "; Managed from MySQL InnoDB ReplicaSet runtime status."

  const PRIMARY_ALIAS: string := "mysql-shared-primary"
  const REPLICA_ALIAS: string := "mysql-shared-replica"

  function AliasLine(alias: string, ttl: nat, target: string): string {
    alias + " " + Decimal(ttl) + " IN CNAME " + RstripDots(target) + ".\n"
  }

  function RoleRecords(primary: string, secondary: string, ttl: nat): (records: string)
    ensures records != ""
  {
    COMMENT + "\n" + AliasLine(PRIMARY_ALIAS, ttl, primary)
    + if secondary != "" then AliasLine(REPLICA_ALIAS, ttl, secondary) else ""
  }

  // ----- one name server, as a value -----

  /** What NSD answers from: the zone serial and the included records it last read. */
  datatype Loaded = Loaded(serial: int, records: string)

  /** The document in the applied-state file. */
  datatype Marker = Marker(recordsSha256: Digest<string>, serial: int)

  datatype Server = Server(zone: string, records: Option<string>, loaded: Option<Loaded>, applied: Option<Marker>)

  datatype Inspection = Inspection(serial: int, recordsMatch: bool, reloadRequired: bool)

  /** The files an update replaces, the zone first, and what it then reports. */
  datatype UpdatePlan = UpdatePlan(zone: Option<string>, records: Option<string>, serial: int, reloadRequired: bool) {
    function Writes(): nat {
      (if zone.Some? then 1 else 0) + (if records.Some? then 1 else 0)
    }

    /** The server after the first `steps` writes. */
    function After(s: Server, steps: nat): Server {
      var s1 := if zone.Some? && steps > 0 then s.(zone := zone.value) else s;
      if records.Some? && steps > (if zone.Some? then 1 else 0) then s1.(records := records) else s1
    }
  }

  datatype Report = Report(changed: bool, reloadRequired: bool, serial: int, recordsSha256: Digest<string>)

  predicate ReloadWasApplied(applied: Option<Marker>, state: Marker) {
    applied == Some(state)
  }

  function Inspect(s: Server, desired: string): Result<Inspection> {
    var serial := SerialOf(s.zone);
    if serial.Err? then Err(serial.error)
    else Ok(Inspection(serial.value, s.records == Some(desired),
                       !ReloadWasApplied(s.applied, Marker(Sha256(desired), serial.value))))
  }

  /** Every check update makes before it writes, and the writes it then makes. */
  function PlanUpdate(s: Server, desired: string, directive: string, target: Option<int>): Result<UpdatePlan> {
    var current := SerialOf(s.zone);
    if current.Err? then Err(current.error) else
    var recordsChanged := s.records.GetOr("") != desired;
    var serial := if target.Some? then target.value
                  else if recordsChanged then (current.value + 1) % MODULUS
                  else current.value;
    var zoneChanged := serial != current.value;
    if !(0 <= serial < MODULUS) then Err(SerialOutOfRange)
    else if recordsChanged && !zoneChanged then Err(SerialRequired)
    else if zoneChanged && !SerialIsNewer(current.value, serial) then
      Err(SerialNotAdvanced)
    else if !recordsChanged && !zoneChanged then
      Ok(UpdatePlan(None, None, serial, !ReloadWasApplied(s.applied, Marker(Sha256(desired), serial))))
    else
      var edited := ReplaceSerial(s.zone, serial);
      if edited.Err? then Err(edited.error)
      else if !Contains(edited.value, directive) then Err(RecordFileNotIncluded)
      else
        Ok(UpdatePlan(if zoneChanged then Some(edited.value) else None,
                      if recordsChanged then Some(desired) else None, serial, true))
  }

  /** update, stopped in front of its (steps + 1)-st atomic step by a crash, an
      unreachable host or a failed zone check.  The check after the writes is
      the last step. */
  function UpdateOutcome(s: Server, desired: string, directive: string, target: Option<int>, steps: nat)
    : (Server, Result<Report>)
  {
    var plan := PlanUpdate(s, desired, directive, target);
    if plan.Err? then (s, Err(plan.error))
    else if steps <= plan.value.Writes() then (plan.value.After(s, steps), Err(Interrupted))
    else (plan.value.After(s, steps),
          Ok(Report(plan.value.Writes() > 0, plan.value.reloadRequired, plan.value.serial, Sha256(desired))))
  }

  /** NSD reads the files again; it keeps serving the old data when it cannot. */
  function Reload(s: Server): Server {
    if SerialOf(s.zone).Ok?
    then s.(loaded := Some(Loaded(SerialOf(s.zone).value, s.records.GetOr(""))))
    else s
  }

  // ----- one round over both servers -----

  /** Where a round stops on one server: the number of update steps that
      succeed, whether its reload succeeds and whether its marker is written.
      A task loops over both servers even when one of them fails; a later task
      starts only when the earlier one succeeded on both. */
  datatype Cut = Cut(steps: nat, reload: bool, mark: bool) {
    predicate Uninterrupted() {
      steps >= 3 && reload && mark
    }
  }

  datatype Round = Round(first: Server, second: Server, reloadedFirst: bool, reloadedSecond: bool,
                         markedFirst: bool, markedSecond: bool)
  {
    predicate Complete() {
      markedFirst && markedSecond
    }
  }

  function ChooseTarget(first: Server, second: Server, desired: string): Result<int> {
    var a, b := Inspect(first, desired), Inspect(second, desired);
    if a.Err? then Err(a.error)
    else if b.Err? then Err(b.error)
    else ConvergedSerial(a.value.serial, b.value.serial, !a.value.recordsMatch || !b.value.recordsMatch)
  }

  function RunRound(first: Server, second: Server, desired: string, directive: string, c1: Cut, c2: Cut): Round {
    var target := ChooseTarget(first, second, desired);
    if target.Err? then Round(first, second, false, false, false, false) else
    var u1 := UpdateOutcome(first, desired, directive, Some(target.value), c1.steps);
    var u2 := UpdateOutcome(second, desired, directive, Some(target.value), c2.steps);
    if u1.1.Err? || u2.1.Err?
       || u1.1.value.recordsSha256 != u2.1.value.recordsSha256 || u1.1.value.serial != u2.1.value.serial
    then Round(u1.0, u2.0, false, false, false, false)
    else ReloadAndMark(u1.0, u2.0, u1.1.value, u2.1.value, c1, c2)
  }

  predicate NeedsReload(r: Report) {
    r.changed || r.reloadRequired
  }

  function ReloadAndMark(s1: Server, s2: Server, r1: Report, r2: Report, c1: Cut, c2: Cut): Round {
    var done1, done2 := NeedsReload(r1) && c1.reload, NeedsReload(r2) && c2.reload;
    var l1, l2 := if done1 then Reload(s1) else s1, if done2 then Reload(s2) else s2;
    if (NeedsReload(r1) && !c1.reload) || (NeedsReload(r2) && !c2.reload)
    then Round(l1, l2, done1, done2, false, false)
    else Round(if c1.mark then Marked(l1, r1) else l1, if c2.mark then Marked(l2, r2) else l2,
               done1, done2, c1.mark, c2.mark)
  }

  function Marked(s: Server, r: Report): Server {
    s.(applied := Some(Marker(r.recordsSha256, r.serial)))
  }

  // ----- the same, step by step -----

  /** A name server: the two files, NSD's loaded data and the applied-state file. */
  class NameServer {
    var zone: string
    var records: Option<string>
    var loaded: Option<Loaded>
    var applied: Option<Marker>

    function View(): Server
      reads this
    {
      Server(zone, records, loaded, applied)
    }

    constructor (zone: string, records: Option<string>)
      ensures View() == Server(zone, records, None, None)
    {
      this.zone, this.records, this.loaded, this.applied := zone, records, None, None;
    }

    /** update: the zone is written before the records. */
    method Update(desired: string, directive: string, target: Option<int>, steps: nat)
      returns (report: Result<Report>)
      requires desired != ""
      modifies this`zone, this`records
      ensures (View(), report) == UpdateOutcome(old(View()), desired, directive, target, steps)
    {
      hide SerialOf, ReplaceSerial, Contains, SerialIsNewer;
      var currentRecords := records.GetOr("");
      var current := SerialOf(zone);
      if current.Err? {
        return Err(current.error);
      }
      var recordsChanged := currentRecords != desired;
      var serial := current.value;
      if target.Some? {
        serial := target.value;
      } else if recordsChanged {
        serial := (current.value + 1) % MODULUS;
      }
      if !(0 <= serial < MODULUS) {
        return Err(SerialOutOfRange);
      }
      if recordsChanged && serial == current.value {
        return Err(SerialRequired);
      }
      var zoneChanged := serial != current.value;
      if zoneChanged && !SerialIsNewer(current.value, serial) {
        return Err(SerialNotAdvanced);
      }
      if !recordsChanged && !zoneChanged {
        if steps == 0 {
          return Err(Interrupted);
        }
        return Ok(Report(false, !ReloadWasApplied(applied, Marker(Sha256(desired), serial)), serial, Sha256(desired)));
      }
      var edited := ReplaceSerial(zone, serial);
      if edited.Err? {
        return Err(edited.error);
      }
      if !Contains(edited.value, directive) {
        return Err(RecordFileNotIncluded);
      }
      var left := steps;
      if zoneChanged {
        if left == 0 {
          return Err(Interrupted);
        }
        zone := edited.value;
        left := left - 1;
      }
      if recordsChanged {
        if left == 0 {
          return Err(Interrupted);
        }
        records := Some(desired);
        left := left - 1;
      }
      if left == 0 {
        return Err(Interrupted);
      }
      return Ok(Report(true, true, serial, Sha256(desired)));
    }

    method ReloadService()
      modifies this`loaded
      ensures View() == Reload(old(View()))
      ensures zone == old(zone) && records == old(records) && applied == old(applied)
      ensures if SerialOf(zone).Ok? then loaded.Some? && loaded.value.serial == SerialOf(zone).value
                                         && (records.Some? ==> loaded.value.records == records.value)
              else loaded == old(loaded)
    {
      if SerialOf(zone).Ok? {
        loaded := Some(Loaded(SerialOf(zone).value, records.GetOr("")));
      }
    }

    method RecordApplied(report: Report)
      modifies this`applied
      ensures View() == Marked(old(View()), report)
      ensures zone == old(zone) && records == old(records) && loaded == old(loaded)
      ensures forall desired: string | Inspect(View(), desired).Ok? ::
                Inspect(View(), desired).value.reloadRequired <==>
                  Sha256(desired) != report.recordsSha256 || SerialOf(zone) != Ok(report.serial)
    {
      applied := Some(Marker(report.recordsSha256, report.serial));
    }
  }

  /** The tasks of one round, in order. */
  method PublishRoles(first: NameServer, second: NameServer, desired: string, directive: string, c1: Cut, c2: Cut)
    returns (complete: bool)
    requires first != second && desired != ""
    modifies first, second
    ensures var round := RunRound(old(first.View()), old(second.View()), desired, directive, c1, c2);
            && first.View() == round.first && second.View() == round.second && complete == round.Complete()
  {
    hide ChooseTarget, UpdateOutcome, SerialOf;
    var target := ChooseTarget(first.View(), second.View(), desired);
    if target.Err? {
      return false;
    }
    var r1 := first.Update(desired, directive, Some(target.value), c1.steps);
    var r2 := second.Update(desired, directive, Some(target.value), c2.steps);
    if r1.Err? || r2.Err? || r1.value.recordsSha256 != r2.value.recordsSha256 || r1.value.serial != r2.value.serial {
      return false;
    }
    var failed := false;
    if NeedsReload(r1.value) {
      if c1.reload {
        first.ReloadService();
      } else {
        failed := true;
      }
    }
    if NeedsReload(r2.value) {
      if c2.reload {
        second.ReloadService();
      } else {
        failed := true;
      }
    }
    if failed {
      return false;
    }
    if c1.mark {
      first.RecordApplied(r1.value);
    }
    if c2.mark {
      second.RecordApplied(r2.value);
    }
    return c1.mark && c2.mark;
  }
}
