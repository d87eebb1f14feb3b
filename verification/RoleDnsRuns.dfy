/** Runs of interrupted rounds: what every history keeps, and when one
    uninterrupted round repairs both servers. */
module RoleDnsRuns {
  import opened Wrappers
  import opened Text
  import opened Ring
  import opened ZoneText
  import opened RoleDns

  // ----- one update -----

  /** What a successful update has done and reports. */
  ghost predicate Updated(s: Server, s': Server, desired: string, target: int, r: Report) {
    && SerialOf(s'.zone) == Ok(target) && s'.records == Some(desired)
    && r.serial == target && r.recordsSha256 == Sha256(desired)
    && (!NeedsReload(r) ==> SerialOf(s.zone) == Ok(target) && s.records == Some(desired)
                            && s.applied == Some(Marker(Sha256(desired), target)))
  }

  /** How far an update of one server can have come: nothing, the zone alone,
      or the zone and then the records. */
  lemma UpdateShape(s: Server, desired: string, directive: string, target: int, steps: nat)
    requires WellFormed(s.zone) && desired != ""
    requires IsDirective(directive) && Contains(s.zone, directive)
    ensures var (s', report) := UpdateOutcome(s, desired, directive, Some(target), steps);
            && WellFormed(s'.zone) && Contains(s'.zone, directive) && Content(s'.zone) == Content(s.zone)
            && s'.loaded == s.loaded && s'.applied == s.applied
            && (SerialOf(s'.zone) == SerialOf(s.zone) ||
                (SerialOf(s'.zone) == Ok(target) && SerialIsNewer(SerialOf(s.zone).value, target)))
            && (s'.records == s.records ||
                (s'.records == Some(desired) && SerialOf(s'.zone) == Ok(target) && target != SerialOf(s.zone).value))
            && (report.Ok? ==> Updated(s, s', desired, target, report.value))
  {
    hide Locate, Contains, ReplaceSerial;
    if 0 <= target < MODULUS {
      ReplaceSerialRoundTrip(s.zone, target);
      EditKeepsIncludes(s.zone, target, directive);
    }
  }

  /** With enough steps an update succeeds exactly when the target is acceptable. */
  lemma UpdateAccepts(s: Server, desired: string, directive: string, target: int, steps: nat)
    requires WellFormed(s.zone) && desired != "" && 0 <= target < MODULUS && steps >= 3
    requires IsDirective(directive) && Contains(s.zone, directive)
    ensures UpdateOutcome(s, desired, directive, Some(target), steps).1.Ok? <==>
              && Accepts(SerialOf(s.zone).value, target)
              && (s.records != Some(desired) ==> target != SerialOf(s.zone).value)
    ensures !Accepts(SerialOf(s.zone).value, target) ==>
              UpdateOutcome(s, desired, directive, Some(target), steps).0 == s
  {
    hide Locate, Contains, ReplaceSerial;
    ReplaceSerialRoundTrip(s.zone, target);
    EditKeepsIncludes(s.zone, target, directive);
  }

  // ----- histories -----

  /** A reload seen from outside the ring: the serial counted without wrapping. */
  datatype Load = Load(at: nat, records: string)

  /** A server with what happened to it: its serial counted without wrapping,
      every protocol reload, and the serial of the reload that its marker
      attests. */
  datatype History = History(server: Server, unwrapped: nat, loads: seq<Load>, attested: nat)

  function ZoneSerial(zone: string): int {
    if SerialOf(zone).Ok? then SerialOf(zone).value else 0
  }

  function Observe(h: History, s: Server, reloaded: bool, marked: bool): History {
    var at := h.unwrapped + Distance(ZoneSerial(h.server.zone), ZoneSerial(s.zone));
    History(s, at,
            if reloaded then h.loads + [Load(at, s.records.GetOr(""))] else h.loads,
            if reloaded && marked then at else h.attested)
  }

  /** One round: the records it publishes and where it stops on each server. */
  datatype Attempt = Attempt(desired: string, first: Cut, second: Cut)

  function Outcome(a: History, b: History, directive: string, t: Attempt): Round {
    RunRound(a.server, b.server, t.desired, directive, t.first, t.second)
  }

  function Next(a: History, b: History, directive: string, t: Attempt): (History, History) {
    var r := Outcome(a, b, directive, t);
    (Observe(a, r.first, r.reloadedFirst, r.markedFirst), Observe(b, r.second, r.reloadedSecond, r.markedSecond))
  }

  function Run(a: History, b: History, directive: string, attempts: seq<Attempt>): (History, History)
    decreases |attempts|
  {
    if attempts == [] then (a, b)
    else
      var n := Next(a, b, directive, attempts[0]);
      Run(n.0, n.1, directive, attempts[1..])
  }

  // ----- the invariant -----

  predicate IsDirective(directive: string) {
    |directive| > 0 && directive[0] == '$' && '\n' !in directive
  }

  ghost predicate Ordered(loads: seq<Load>) {
    forall i, j | 0 <= i < j < |loads| :: loads[i].at <= loads[j].at
  }

  /** The marker names a reload of this server, by serial and content. */
  ghost predicate Attests(h: History, i: nat) {
    i < |h.loads| && h.loads[i].at == h.attested
    && h.server.applied == Some(Marker(Sha256(h.loads[i].records), h.attested % MODULUS))
  }

  ghost predicate HistoryOk(h: History, directive: string) {
    && WellFormed(h.server.zone) && Contains(h.server.zone, directive)
    && SerialOf(h.server.zone) == Ok(h.unwrapped % MODULUS)
    && Ordered(h.loads)
    && (h.loads != [] ==>
          var last := h.loads[|h.loads| - 1];
          h.server.loaded == Some(Loaded(last.at % MODULUS, last.records)))
    && (h.server.applied.Some? ==> exists i: nat :: Attests(h, i))
  }

  /** What was loaded under this server's serial is still on its disk. */
  ghost predicate Fits(h: History, loads: seq<Load>) {
    forall l | l in loads && l.at == h.unwrapped :: h.server.records == Some(l.records)
  }

  /** Every reload of this server is of a serial it has reached. */
  ghost predicate Reached(h: History) {
    forall l | l in h.loads :: l.at <= h.unwrapped
  }

  /** All reloads there ever were, against the two disks. */
  ghost predicate Covered(a: History, b: History) {
    && Reached(a) && Reached(b) && OneContentPerSerial(a.loads + b.loads)
    && Fits(a, a.loads + b.loads) && Fits(b, a.loads + b.loads)
  }

  /** No serial ever stood for two contents. */
  ghost predicate OneContentPerSerial(loads: seq<Load>) {
    forall l, m | l in loads && m in loads && l.at == m.at :: l.records == m.records
  }

  function Apart(a: History, b: History): nat {
    if a.unwrapped <= b.unwrapped then b.unwrapped - a.unwrapped else a.unwrapped - b.unwrapped
  }

  ghost predicate Inv(a: History, b: History, directive: string) {
    && IsDirective(directive)
    && HistoryOk(a, directive) && HistoryOk(b, directive) && Apart(a, b) <= HALF_RANGE && Covered(a, b)
  }

  // ----- the ring against the unwrapped count -----

  lemma DistanceUnwrapped(from: nat, to: nat)
    requires from <= to < from + MODULUS
    ensures Distance(from % MODULUS, to % MODULUS) == to - from
    ensures from % MODULUS == to % MODULUS <==> from == to
  {
  }

  lemma DistanceReversed(x: int, y: int)
    requires 0 <= x < MODULUS && 0 <= y < MODULUS
    ensures Distance(y, x) == if x == y then 0 else MODULUS - Distance(x, y)
  {
    DistanceBetween(x, y);
    DistanceBetween(y, x);
  }

  /** The serial a round aims at, counted without wrapping. */
  function Aim(a: History, b: History, desired: string): nat {
    var newest := if a.unwrapped <= b.unwrapped then b.unwrapped else a.unwrapped;
    if a.unwrapped == b.unwrapped && a.server.records == Some(desired) && b.server.records == Some(desired)
    then newest else newest + 1
  }

  /** Up to half range the ring order is the true order, so the target is one
      beyond every serial on either disk, unless nothing needs to be written. */
  lemma AimIsTheTarget(a: History, b: History, directive: string, desired: string)
    requires HistoryOk(a, directive) && HistoryOk(b, directive) && Apart(a, b) <= HALF_RANGE
    ensures var target := ChooseTarget(a.server, b.server, desired);
            && (target.Ok? <==> Apart(a, b) < HALF_RANGE)
            && (target.Ok? ==> target.value == Aim(a, b, desired) % MODULUS)
    ensures Gap(a.unwrapped % MODULUS, b.unwrapped % MODULUS) == Apart(a, b)
  {
    hide SerialOf, Content, Contains, ConvergedSerial, Gap;
    ConvergedUnwrapped(a.unwrapped, b.unwrapped,
                       a.server.records != Some(desired) || b.server.records != Some(desired));
  }

  lemma NextUnwrapped(x: nat)
    ensures (x % MODULUS + 1) % MODULUS == (x + 1) % MODULUS
  {
  }

  lemma ConvergedUnwrapped(x: nat, y: nat, needed: bool)
    requires x <= y + HALF_RANGE && y <= x + HALF_RANGE
    ensures Gap(x % MODULUS, y % MODULUS) == if x <= y then y - x else x - y
    ensures var target := ConvergedSerial(x % MODULUS, y % MODULUS, needed);
            && (target.Ok? <==> x < y + HALF_RANGE && y < x + HALF_RANGE)
            && (target.Ok? ==>
                  target.value == (if x == y && !needed then x else if x <= y then y + 1 else x + 1) % MODULUS)
  {
    hide Distance;
    if x <= y {
      DistanceUnwrapped(x, y);
    } else {
      DistanceUnwrapped(y, x);
    }
    DistanceReversed(x % MODULUS, y % MODULUS);
    DistanceReversed(y % MODULUS, x % MODULUS);
    NextUnwrapped(x);
    NextUnwrapped(y);
  }

  // ----- one server during one round -----

  /** The server after the update task, with its count and its earlier past. */
  ghost predicate Moved(h: History, s: Server, aim: nat, desired: string, directive: string) {
    && WellFormed(s.zone) && Contains(s.zone, directive) && Content(s.zone) == Content(h.server.zone)
    && s.loaded == h.server.loaded && s.applied == h.server.applied
    && var at := h.unwrapped + Distance(ZoneSerial(h.server.zone), ZoneSerial(s.zone));
    && SerialOf(s.zone) == Ok(at % MODULUS)
    && (at == h.unwrapped || at == aim)
    && (s.records == h.server.records || (s.records == Some(desired) && at == aim > h.unwrapped))
  }

  lemma UpdateMoves(h: History, desired: string, directive: string, aim: nat, steps: nat)
    requires HistoryOk(h, directive) && IsDirective(directive) && desired != ""
    requires h.unwrapped <= aim <= h.unwrapped + HALF_RANGE
    ensures var (s, report) := UpdateOutcome(h.server, desired, directive, Some(aim % MODULUS), steps);
            && Moved(h, s, aim, desired, directive)
            && (report.Ok? ==>
                  && SerialOf(s.zone) == Ok(aim % MODULUS) && s.records == Some(desired)
                  && h.unwrapped + Distance(ZoneSerial(h.server.zone), ZoneSerial(s.zone)) == aim
                  && Updated(h.server, s, desired, aim % MODULUS, report.value))
  {
    hide Contains, UpdateOutcome, Distance, SerialIsNewer, SerialOf, Content;
    UpdateShape(h.server, desired, directive, aim % MODULUS, steps);
    DistanceUnwrapped(h.unwrapped, h.unwrapped);
    DistanceUnwrapped(h.unwrapped, aim);
    var (s, report) := UpdateOutcome(h.server, desired, directive, Some(aim % MODULUS), steps);
    var moved := Distance(ZoneSerial(h.server.zone), ZoneSerial(s.zone));
    if SerialOf(s.zone) == SerialOf(h.server.zone) {
      assert moved == 0;
    } else {
      assert moved == aim - h.unwrapped;
    }
  }

  // ----- one round -----

  /** All that a round can do to one server. */
  ghost predicate Stepped(h: History, h': History, aim: nat, desired: string, directive: string) {
    && WellFormed(h'.server.zone) && Contains(h'.server.zone, directive)
    && Content(h'.server.zone) == Content(h.server.zone)
    && SerialOf(h'.server.zone) == Ok(h'.unwrapped % MODULUS)
    && (h'.unwrapped == h.unwrapped || h'.unwrapped == aim)
    && (h'.server.records == h.server.records ||
        (h'.server.records == Some(desired) && h'.unwrapped == aim > h.unwrapped))
    && ((h'.loads == h.loads && h'.server.loaded == h.server.loaded) || Reloaded(h, h', aim, desired))
    && ((h'.server.applied == h.server.applied && h'.attested == h.attested) ||
        (h'.server.applied == Some(Marker(Sha256(desired), aim % MODULUS)) && h'.attested == aim
         && Reloaded(h, h', aim, desired)))
  }

  ghost predicate Reloaded(h: History, h': History, aim: nat, desired: string) {
    && h'.loads == h.loads + [Load(aim, desired)] && h'.unwrapped == aim
    && h'.server.records == Some(desired) && h'.server.loaded == Some(Loaded(aim % MODULUS, desired))
  }

  /** A server reloads only when both servers hold the new serial and records. */
  ghost predicate BothStepped(a: History, b: History, a': History, b': History,
                              aim: nat, desired: string, directive: string)
  {
    && Stepped(a, a', aim, desired, directive) && Stepped(b, b', aim, desired, directive)
    && (a'.loads != a.loads || b'.loads != b.loads ==>
          && a'.unwrapped == b'.unwrapped == aim
          && a'.server.records == b'.server.records == Some(desired))
  }

  lemma ReloadStep(h: History, s: Server, r: Report, reload: bool, mark: bool,
                   aim: nat, desired: string, directive: string)
    requires Moved(h, s, aim, desired, directive) && Updated(h.server, s, desired, aim % MODULUS, r)
    requires h.unwrapped + Distance(ZoneSerial(h.server.zone), ZoneSerial(s.zone)) == aim
    ensures var done := NeedsReload(r) && reload;
            var loaded := if done then Reload(s) else s;
            var marked := if mark then Marked(loaded, r) else loaded;
            && Stepped(h, Observe(h, loaded, done, false), aim, desired, directive)
            && ((NeedsReload(r) ==> reload) ==> Stepped(h, Observe(h, marked, done, mark), aim, desired, directive))
  {
    hide SerialOf, Content, Contains, Distance;
  }

  lemma MoveStep(h: History, s: Server, aim: nat, desired: string, directive: string)
    requires Moved(h, s, aim, desired, directive)
    ensures Stepped(h, Observe(h, s, false, false), aim, desired, directive)
  {
    hide SerialOf, Content, Contains, Distance;
  }

  lemma RoundSteps(a: History, b: History, directive: string, t: Attempt)
    requires IsDirective(directive) && t.desired != ""
    requires HistoryOk(a, directive) && HistoryOk(b, directive) && Apart(a, b) < HALF_RANGE
    ensures var (a', b') := Next(a, b, directive, t);
            BothStepped(a, b, a', b', Aim(a, b, t.desired), t.desired, directive)
  {
    hide SerialOf, Content, Contains, Distance, UpdateOutcome, ChooseTarget, Reload;
    var aim := Aim(a, b, t.desired);
    AimIsTheTarget(a, b, directive, t.desired);
    UpdateMoves(a, t.desired, directive, aim, t.first.steps);
    UpdateMoves(b, t.desired, directive, aim, t.second.steps);
    var u1 := UpdateOutcome(a.server, t.desired, directive, Some(aim % MODULUS), t.first.steps);
    var u2 := UpdateOutcome(b.server, t.desired, directive, Some(aim % MODULUS), t.second.steps);
    MoveStep(a, u1.0, aim, t.desired, directive);
    MoveStep(b, u2.0, aim, t.desired, directive);
    if u1.1.Ok? && u2.1.Ok? {
      ReloadStep(a, u1.0, u1.1.value, t.first.reload, t.first.mark, aim, t.desired, directive);
      ReloadStep(b, u2.0, u2.1.value, t.second.reload, t.second.mark, aim, t.desired, directive);
    }
  }

  lemma StepKeepsHistory(h: History, h': History, aim: nat, desired: string, directive: string)
    requires HistoryOk(h, directive) && Stepped(h, h', aim, desired, directive)
    requires Reached(h) && h.unwrapped <= aim
    ensures HistoryOk(h', directive)
  {
    hide SerialOf, Content, Contains;
    if h.server.applied.Some? {
      var i: nat :| Attests(h, i);
      if h'.server.applied == h.server.applied && h'.attested == h.attested {
        assert Attests(h', i);
      }
    }
    if h'.loads != h.loads {
      assert h'.loads[|h.loads|] == Load(aim, desired);
      if h'.attested == aim && h'.server.applied == Some(Marker(Sha256(desired), aim % MODULUS)) {
        assert Attests(h', |h.loads|);
      }
    }
  }

  lemma StepsKeepContents(a: History, b: History, a': History, b': History,
                          aim: nat, desired: string, directive: string)
    requires BothStepped(a, b, a', b', aim, desired, directive)
    requires Covered(a, b)
    requires (a.unwrapped < aim && b.unwrapped < aim) || a.unwrapped == b.unwrapped == aim
    ensures Covered(a', b')
  {
    hide SerialOf, Content, Contains;
    var before, after := a.loads + b.loads, a'.loads + b'.loads;
    forall l | l in after
      ensures l in before || l == Load(aim, desired)
    {
    }
    if Load(aim, desired) in after && Load(aim, desired) !in before {
      assert a'.loads != a.loads || b'.loads != b.loads;
    }
  }

  lemma OwnFits(h: History, first: seq<Load>, second: seq<Load>)
    requires Fits(h, first + second)
    ensures Fits(h, first) && Fits(h, second)
  {
    assert forall l | l in first || l in second :: l in first + second;
  }

  /** Every interrupted or completed round keeps the invariant; the distance
      between the servers grows by at most one, and a completed round removes it. */
  lemma RoundKeepsInvariant(a: History, b: History, directive: string, t: Attempt)
    requires Inv(a, b, directive) && t.desired != ""
    ensures var (a', b') := Next(a, b, directive, t);
            && Inv(a', b', directive)
            && Apart(a', b') <= Apart(a, b) + 1
            && (Outcome(a, b, directive, t).Complete() ==> Apart(a', b') == 0)
            && a.unwrapped <= a'.unwrapped && b.unwrapped <= b'.unwrapped
            && a.loads <= a'.loads && b.loads <= b'.loads
            && Content(a'.server.zone) == Content(a.server.zone)
            && Content(b'.server.zone) == Content(b.server.zone)
  {
    hide SerialOf, Content, Contains, Next, Outcome, Stepped, HistoryOk, OneContentPerSerial, Fits, Reached;
    var (a', b') := Next(a, b, directive, t);
    if Apart(a, b) == HALF_RANGE {
      BlockedRound(a, b, directive, t);
    } else {
      var aim := Aim(a, b, t.desired);
      RoundSteps(a, b, directive, t);
      StepKeepsHistory(a, a', aim, t.desired, directive);
      StepKeepsHistory(b, b', aim, t.desired, directive);
      StepsKeepContents(a, b, a', b', aim, t.desired, directive);
      StepsAdvance(a, b, a', b', aim, t.desired, directive);
      if Outcome(a, b, directive, t).Complete() {
        CompleteRoundMeets(a, b, directive, t);
      }
    }
  }

  lemma StepsAdvance(a: History, b: History, a': History, b': History,
                     aim: nat, desired: string, directive: string)
    requires BothStepped(a, b, a', b', aim, desired, directive) && aim == Aim(a, b, desired)
    ensures Apart(a', b') <= Apart(a, b) + 1
    ensures a.unwrapped <= a'.unwrapped && b.unwrapped <= b'.unwrapped
    ensures a.loads <= a'.loads && b.loads <= b'.loads
    ensures Content(a'.server.zone) == Content(a.server.zone) && Content(b'.server.zone) == Content(b.server.zone)
  {
    hide SerialOf, Content, Contains;
  }

  /** At half range there is no target: nothing changes, ever again. */
  lemma BlockedRound(a: History, b: History, directive: string, t: Attempt)
    requires HistoryOk(a, directive) && HistoryOk(b, directive) && Apart(a, b) == HALF_RANGE
    ensures Next(a, b, directive, t) == (a, b) && !Outcome(a, b, directive, t).Complete()
  {
    hide SerialOf, Content, Contains, UpdateOutcome, ChooseTarget;
    AimIsTheTarget(a, b, directive, t.desired);
  }

  lemma CompleteRoundMeets(a: History, b: History, directive: string, t: Attempt)
    requires IsDirective(directive) && t.desired != ""
    requires HistoryOk(a, directive) && HistoryOk(b, directive) && Apart(a, b) < HALF_RANGE
    requires Outcome(a, b, directive, t).Complete()
    ensures var (a', b') := Next(a, b, directive, t);
            a'.unwrapped == b'.unwrapped == Aim(a, b, t.desired)
  {
    hide SerialOf, Content, Contains, Distance, UpdateOutcome, ChooseTarget;
    var aim := Aim(a, b, t.desired);
    AimIsTheTarget(a, b, directive, t.desired);
    UpdateMoves(a, t.desired, directive, aim, t.first.steps);
    UpdateMoves(b, t.desired, directive, aim, t.second.steps);
  }

  lemma InvHolds(a: History, b: History, directive: string)
    requires Inv(a, b, directive)
    ensures Apart(a, b) <= HALF_RANGE && OneContentPerSerial(a.loads + b.loads)
  {
  }

  /** Over every run of interrupted rounds: no two reloads of one serial, on
      either server, ever had different records. */
  lemma {:induction false} RunKeepsInvariant(a: History, b: History, directive: string, attempts: seq<Attempt>)
    requires Inv(a, b, directive) && forall t | t in attempts :: t.desired != ""
    ensures var (a', b') := Run(a, b, directive, attempts);
            && Inv(a', b', directive) && OneContentPerSerial(a'.loads + b'.loads)
            && Apart(a', b') <= Apart(a, b) + |attempts|
            && a.unwrapped <= a'.unwrapped && b.unwrapped <= b'.unwrapped
            && a.loads <= a'.loads && b.loads <= b'.loads
            && Content(a'.server.zone) == Content(a.server.zone)
            && Content(b'.server.zone) == Content(b.server.zone)
    decreases |attempts|
  {
    hide Inv, Next, Content, OneContentPerSerial;
    if attempts != [] {
      var (a1, b1) := Next(a, b, directive, attempts[0]);
      RoundKeepsInvariant(a, b, directive, attempts[0]);
      RunKeepsInvariant(a1, b1, directive, attempts[1..]);
    }
    InvHolds(a, b, directive);
  }

  /** Whatever a round writes, it writes under a serial beyond every serial on
      either disk, and the records of a zone change only after its serial. */
  lemma WritesAreFresh(a: History, b: History, directive: string, t: Attempt)
    requires Inv(a, b, directive) && t.desired != ""
    ensures var (a', b') := Next(a, b, directive, t);
            var newest := if a.unwrapped <= b.unwrapped then b.unwrapped else a.unwrapped;
            && (a'.unwrapped != a.unwrapped || a'.server.records != a.server.records ==> a'.unwrapped == newest + 1)
            && (b'.unwrapped != b.unwrapped || b'.server.records != b.server.records ==> b'.unwrapped == newest + 1)
  {
    hide SerialOf, Content, Contains, Next;
    if Apart(a, b) == HALF_RANGE {
      BlockedRound(a, b, directive, t);
    } else {
      RoundSteps(a, b, directive, t);
    }
  }

  /** Runtime updates are invisible to the rendering filter: after any run it
      keeps the serial the run has reached. */
  lemma RunNeverLooksLikeAChange(a: History, b: History, directive: string, attempts: seq<Attempt>, initial: int)
    requires Inv(a, b, directive) && 0 <= initial < MODULUS
    requires forall t | t in attempts :: t.desired != ""
    ensures var (a', b') := Run(a, b, directive, attempts);
            && SoaSerial(Some(a'.server.zone), a.server.zone, initial) == Ok(a'.unwrapped % MODULUS)
            && SoaSerial(Some(b'.server.zone), b.server.zone, initial) == Ok(b'.unwrapped % MODULUS)
  {
    hide SerialOf, Content, Contains, Run, SoaSerial;
    RunKeepsInvariant(a, b, directive, attempts);
    var (a', b') := Run(a, b, directive, attempts);
    SameContentIsKept(a'.server.zone, a.server.zone, initial);
    SameContentIsKept(b'.server.zone, b.server.zone, initial);
  }

  // ----- convergence -----

  /** The marker does not come from a full turn of the ring ago. */
  ghost predicate Recent(h: History) {
    h.server.applied.Some? ==> h.unwrapped - h.attested < MODULUS
  }

  /** What one round is for. */
  ghost predicate Published(s: Server, desired: string, serial: int) {
    && SerialOf(s.zone) == Ok(serial) && s.records == Some(desired)
    && s.loaded == Some(Loaded(serial, desired))
    && s.applied == Some(Marker(Sha256(desired), serial))
  }

  /** If the update reports that no reload is needed, NSD already serves the
      files: the marker is the marker of the last reload. */
  lemma MarkerIsTrusted(h: History, desired: string, directive: string)
    requires HistoryOk(h, directive) && Recent(h) && Reached(h) && Fits(h, h.loads)
    requires h.server.records == Some(desired)
    requires h.server.applied == Some(Marker(Sha256(desired), h.unwrapped % MODULUS))
    ensures h.server.loaded == Some(Loaded(h.unwrapped % MODULUS, desired))
  {
    hide SerialOf, Contains;
    var i: nat :| Attests(h, i);
    assert h.loads[i] in h.loads;
    DistanceUnwrapped(h.attested, h.unwrapped);
    var last := h.loads[|h.loads| - 1];
    assert last in h.loads;
  }

  lemma AcceptsAim(u: nat, aim: nat)
    requires u <= aim <= u + HALF_RANGE
    ensures Accepts(u % MODULUS, aim % MODULUS) <==> aim < u + HALF_RANGE
    ensures aim % MODULUS == u % MODULUS <==> aim == u
  {
    DistanceUnwrapped(u, aim);
  }

  /** The update task of an uninterrupted round on one server. */
  lemma UpdateReaches(h: History, desired: string, directive: string, aim: nat, steps: nat)
    requires HistoryOk(h, directive) && IsDirective(directive) && desired != "" && steps >= 3
    requires h.unwrapped <= aim <= h.unwrapped + HALF_RANGE
    requires h.server.records != Some(desired) ==> aim > h.unwrapped
    ensures var (s, report) := UpdateOutcome(h.server, desired, directive, Some(aim % MODULUS), steps);
            && (report.Ok? <==> aim < h.unwrapped + HALF_RANGE)
            && (report.Err? ==> s == h.server)
  {
    hide SerialOf, Content, Contains, UpdateOutcome, Accepts;
    UpdateAccepts(h.server, desired, directive, aim % MODULUS, steps);
    AcceptsAim(h.unwrapped, aim);
  }

  /** After a successful update, the reload and the marker publish the records. */
  lemma ReloadPublishes(h: History, s: Server, r: Report, aim: nat, desired: string, directive: string)
    requires HistoryOk(h, directive) && Recent(h) && Reached(h) && Fits(h, h.loads)
    requires Moved(h, s, aim, desired, directive) && Updated(h.server, s, desired, aim % MODULUS, r)
    requires h.unwrapped + Distance(ZoneSerial(h.server.zone), ZoneSerial(s.zone)) == aim
    ensures Published(Marked(if NeedsReload(r) then Reload(s) else s, r), desired, aim % MODULUS)
  {
    hide Content, Contains, Distance;
    if !NeedsReload(r) {
      assert aim == h.unwrapped by {
        DistanceUnwrapped(h.unwrapped, h.unwrapped);
      }
      MarkerIsTrusted(h, desired, directive);
    }
  }

  /** One uninterrupted round publishes the records on both servers exactly
      when the servers are at most 2^31 - 2 apart.  At 2^31 - 1 it moves only
      the newer server, and from 2^31 on there is no way back. */
  lemma UninterruptedRound(a: History, b: History, directive: string, t: Attempt)
    requires Inv(a, b, directive) && t.desired != "" && Recent(a) && Recent(b)
    requires t.first.Uninterrupted() && t.second.Uninterrupted()
    ensures var r := Outcome(a, b, directive, t);
            && (r.Complete() <==> Apart(a, b) < HALF_RANGE - 1)
            && (r.Complete() ==>
                  var serial := Aim(a, b, t.desired) % MODULUS;
                  Published(r.first, t.desired, serial) && Published(r.second, t.desired, serial))
    ensures Apart(a, b) == HALF_RANGE - 1 ==>
              var (a', b') := Next(a, b, directive, t);
              Apart(a', b') == HALF_RANGE
  {
    hide SerialOf, Content, Contains, UpdateOutcome, ChooseTarget, Reload, Distance, NeedsReload;
    if Apart(a, b) == HALF_RANGE {
      BlockedRound(a, b, directive, t);
    } else {
      var aim := Aim(a, b, t.desired);
      AimIsTheTarget(a, b, directive, t.desired);
      UpdateReaches(a, t.desired, directive, aim, t.first.steps);
      UpdateReaches(b, t.desired, directive, aim, t.second.steps);
      UpdateMoves(a, t.desired, directive, aim, t.first.steps);
      UpdateMoves(b, t.desired, directive, aim, t.second.steps);
      OwnFits(a, a.loads, b.loads);
      OwnFits(b, a.loads, b.loads);
      var u1 := UpdateOutcome(a.server, t.desired, directive, Some(aim % MODULUS), t.first.steps);
      var u2 := UpdateOutcome(b.server, t.desired, directive, Some(aim % MODULUS), t.second.steps);
      if u1.1.Ok? && u2.1.Ok? {
        ReloadPublishes(a, u1.0, u1.1.value, aim, t.desired, directive);
        ReloadPublishes(b, u2.0, u2.1.value, aim, t.desired, directive);
      }
      DistanceUnwrapped(a.unwrapped, a.unwrapped);
      DistanceUnwrapped(b.unwrapped, b.unwrapped);
    }
  }

  /** A further round over published records writes nothing and reloads nothing. */
  lemma PublishedRoundIsSilent(first: Server, second: Server, desired: string, directive: string,
                               serial: int, c1: Cut, c2: Cut)
    requires Published(first, desired, serial) && Published(second, desired, serial)
    requires 0 <= serial < MODULUS && desired != ""
    ensures var r := RunRound(first, second, desired, directive, c1, c2);
            && r.first == first && r.second == second && !r.reloadedFirst && !r.reloadedSecond
            && (c1.Uninterrupted() && c2.Uninterrupted() ==> r.Complete())
  {
    hide SerialOf, Contains, ReplaceSerial;
  }

  // ----- from any start -----

  /** A server as the DNS role leaves it: the zone rendered with the include
      line, and no marker yet. */
  ghost predicate Deployed(s: Server, directive: string) {
    WellFormed(s.zone) && Contains(s.zone, directive) && s.applied == None
  }

  /** Two ring serials counted without wrapping, the newer one ahead by the gap. */
  function Unwrap(x: nat, y: nat): (nat, nat) {
    if Distance(x, y) <= HALF_RANGE then (x, x + Distance(x, y)) else (y + Distance(y, x), y)
  }

  lemma UnwrapKeepsSerials(x: nat, y: nat)
    requires x < MODULUS && y < MODULUS
    ensures Unwrap(x, y).0 % MODULUS == x && Unwrap(x, y).1 % MODULUS == y
    ensures Gap(x, y) <= HALF_RANGE
    ensures var (u, v) := Unwrap(x, y); (if u <= v then v - u else u - v) == Gap(x, y)
  {
    hide Distance;
    DistanceReversed(x, y);
    DistanceBetween(x, y);
    DistanceBetween(y, x);
  }

  /** The two servers at the start. */
  function Start(first: Server, second: Server): (History, History) {
    var x, y := ZoneSerial(first.zone), ZoneSerial(second.zone);
    var (u, v) := if x < 0 || y < 0 then (0, 0) else Unwrap(x, y);
    (History(first, u, [], 0), History(second, v, [], 0))
  }

  lemma FreshHistory(s: Server, u: nat, directive: string)
    requires Deployed(s, directive) && u % MODULUS == ZoneSerial(s.zone)
    ensures HistoryOk(History(s, u, [], 0), directive)
  {
    hide Contains, SerialOf;
  }

  lemma StartHolds(first: Server, second: Server, directive: string)
    requires Deployed(first, directive) && Deployed(second, directive) && IsDirective(directive)
    ensures var (a, b) := Start(first, second);
            && Inv(a, b, directive) && Apart(a, b) == Gap(ZoneSerial(first.zone), ZoneSerial(second.zone))
            && a.server == first && b.server == second && a.loads == b.loads == []
  {
    hide Contains, SerialOf, Distance, Gap, Unwrap, HistoryOk;
    var x, y := ZoneSerial(first.zone), ZoneSerial(second.zone);
    SerialIsNatural(first.zone);
    SerialIsNatural(second.zone);
    UnwrapKeepsSerials(x, y);
    FreshHistory(first, Unwrap(x, y).0, directive);
    FreshHistory(second, Unwrap(x, y).1, directive);
  }

  lemma SerialIsNatural(zone: string)
    ensures SerialOf(zone).Ok? ==> SerialOf(zone).value >= 0
  {
    hide Locate;
  }

  // ----- consecutive incomplete rounds -----

  function Newest(a: History, b: History): nat {
    if a.unwrapped <= b.unwrapped then b.unwrapped else a.unwrapped
  }

  /** How many rounds in a row have not completed, at the end of a run that
      starts after `before` of them. */
  function Failures(a: History, b: History, directive: string, attempts: seq<Attempt>, before: nat): nat
    decreases |attempts|
  {
    if attempts == [] then before
    else
      var n := Next(a, b, directive, attempts[0]);
      Failures(n.0, n.1, directive, attempts[1..], FailuresAfter(a, b, directive, attempts[0], before))
  }

  function FailuresAfter(a: History, b: History, directive: string, t: Attempt, before: nat): nat {
    if Outcome(a, b, directive, t).Complete() then 0 else before + 1
  }

  /** The servers are never further apart than rounds in a row have failed. */
  lemma {:induction false} GapIsConsecutiveFailures(a: History, b: History, directive: string,
                                                    attempts: seq<Attempt>, before: nat)
    requires Inv(a, b, directive) && Apart(a, b) <= before && forall t | t in attempts :: t.desired != ""
    ensures var (a', b') := Run(a, b, directive, attempts);
            Apart(a', b') <= Failures(a, b, directive, attempts, before)
    decreases |attempts|
  {
    hide Inv, Next, Outcome, Content;
    if attempts != [] {
      var (a1, b1) := Next(a, b, directive, attempts[0]);
      RoundKeepsInvariant(a, b, directive, attempts[0]);
      GapIsConsecutiveFailures(a1, b1, directive, attempts[1..],
                               FailuresAfter(a, b, directive, attempts[0], before));
    }
  }

  /** At no point of a run have 2^32 rounds in a row failed. */
  ghost predicate Patient(a: History, b: History, directive: string, attempts: seq<Attempt>, before: nat)
    decreases |attempts|
  {
    before < MODULUS
    && (attempts == [] ||
        var n := Next(a, b, directive, attempts[0]);
        Patient(n.0, n.1, directive, attempts[1..], FailuresAfter(a, b, directive, attempts[0], before)))
  }

  /** Neither the other server nor the last marker is further back than that. */
  ghost predicate Within(a: History, b: History, k: nat) {
    Apart(a, b) <= k && MarkedWithin(a, Newest(a, b), k) && MarkedWithin(b, Newest(a, b), k)
  }

  ghost predicate MarkedWithin(h: History, newest: nat, k: nat) {
    h.server.applied.Some? ==> newest <= h.attested + k
  }

  /** In a completed round each marker attests the serial on disk. */
  lemma MarkAttests(h: History, s: Server, r: Report, aim: nat, desired: string, directive: string)
    requires HistoryOk(h, directive) && Recent(h) && Reached(h) && Fits(h, h.loads)
    requires Moved(h, s, aim, desired, directive) && Updated(h.server, s, desired, aim % MODULUS, r)
    requires h.unwrapped + Distance(ZoneSerial(h.server.zone), ZoneSerial(s.zone)) == aim
    ensures var done := Marked(if NeedsReload(r) then Reload(s) else s, r);
            var h' := Observe(h, done, NeedsReload(r), true);
            h'.unwrapped == aim && h'.attested == aim
  {
    hide Content, Contains, Distance, SerialOf;
    if !NeedsReload(r) {
      DistanceUnwrapped(h.unwrapped, h.unwrapped);
      assert aim == h.unwrapped;
      var i: nat :| Attests(h, i);
      assert h.loads[i] in h.loads;
      DistanceUnwrapped(h.attested, h.unwrapped);
    }
  }

  lemma CompleteRoundAttests(a: History, b: History, directive: string, t: Attempt)
    requires Inv(a, b, directive) && t.desired != "" && Recent(a) && Recent(b)
    requires Apart(a, b) < HALF_RANGE && Outcome(a, b, directive, t).Complete()
    ensures var (a', b') := Next(a, b, directive, t);
            a'.attested == b'.attested == a'.unwrapped == b'.unwrapped
  {
    hide SerialOf, Content, Contains, Distance, UpdateOutcome, ChooseTarget, Reload, NeedsReload, Observe;
    var aim := Aim(a, b, t.desired);
    AimIsTheTarget(a, b, directive, t.desired);
    UpdateMoves(a, t.desired, directive, aim, t.first.steps);
    UpdateMoves(b, t.desired, directive, aim, t.second.steps);
    OwnFits(a, a.loads, b.loads);
    OwnFits(b, a.loads, b.loads);
    var u1 := UpdateOutcome(a.server, t.desired, directive, Some(aim % MODULUS), t.first.steps);
    var u2 := UpdateOutcome(b.server, t.desired, directive, Some(aim % MODULUS), t.second.steps);
    MarkAttests(a, u1.0, u1.1.value, aim, t.desired, directive);
    MarkAttests(b, u2.0, u2.1.value, aim, t.desired, directive);
  }

  lemma RoundKeepsWithin(a: History, b: History, directive: string, t: Attempt, k: nat)
    requires Inv(a, b, directive) && t.desired != "" && Within(a, b, k) && k < MODULUS
    ensures var (a', b') := Next(a, b, directive, t);
            Within(a', b', FailuresAfter(a, b, directive, t, k))
  {
    hide SerialOf, Content, Contains, Next, Outcome, Fits, Reached, OneContentPerSerial;
    if Apart(a, b) == HALF_RANGE {
      BlockedRound(a, b, directive, t);
    } else {
      RoundSteps(a, b, directive, t);
      if Outcome(a, b, directive, t).Complete() {
        CompleteRoundAttests(a, b, directive, t);
      }
    }
  }

  lemma WithinIsRecent(a: History, b: History, k: nat)
    requires Within(a, b, k) && k < MODULUS
    ensures Recent(a) && Recent(b)
  {
  }

  lemma {:induction false} RunStaysWithin(a: History, b: History, directive: string, attempts: seq<Attempt>, k: nat)
    requires Inv(a, b, directive) && Within(a, b, k) && forall t | t in attempts :: t.desired != ""
    requires Patient(a, b, directive, attempts, k)
    ensures var (a', b') := Run(a, b, directive, attempts);
            var failures := Failures(a, b, directive, attempts, k);
            Inv(a', b', directive) && Within(a', b', failures) && failures < MODULUS
    decreases |attempts|
  {
    hide Inv, Next, Within, FailuresAfter, Content;
    if attempts != [] {
      var (a1, b1) := Next(a, b, directive, attempts[0]);
      RoundKeepsInvariant(a, b, directive, attempts[0]);
      RoundKeepsWithin(a, b, directive, attempts[0], k);
      RunStaysWithin(a1, b1, directive, attempts[1..], FailuresAfter(a, b, directive, attempts[0], k));
    }
  }

  /** Crash tolerance.  From any deployed pair of servers, after any history of
      rounds, completed or stopped anywhere, each with records of its own, one
      uninterrupted round publishes its records on both servers under one serial,
      if and only if the serials on disk are at most 2^31 - 2 apart when it
      starts; and they are never further apart than the rounds in a row that have
      failed (counting the initial gap before the first completed round).  The
      history may be of any length, as long as no 2^32 rounds in a row fail.  And
      no serial ever stood for two record files on the way. */
  lemma InterruptedRunsAreRepaired(first: Server, second: Server, directive: string,
                                   attempts: seq<Attempt>, last: Attempt)
    requires Deployed(first, directive) && Deployed(second, directive) && IsDirective(directive)
    requires last.desired != "" && forall t | t in attempts :: t.desired != ""
    requires last.first.Uninterrupted() && last.second.Uninterrupted()
    requires var (a, b) := Start(first, second);
             Patient(a, b, directive, attempts, Gap(ZoneSerial(first.zone), ZoneSerial(second.zone)))
    ensures var start := Start(first, second);
            var (a, b) := Run(start.0, start.1, directive, attempts);
            var r := Outcome(a, b, directive, last);
            var (a', b') := Next(a, b, directive, last);
            var gap := Gap(ZoneSerial(a.server.zone), ZoneSerial(b.server.zone));
            && (r.Complete() <==> gap <= HALF_RANGE - 2)
            && gap <= Failures(start.0, start.1, directive, attempts,
                               Gap(ZoneSerial(first.zone), ZoneSerial(second.zone)))
            && (r.Complete() ==> OnBoth(r, last.desired))
            && OneContentPerSerial(a'.loads + b'.loads)
  {
    hide SerialOf, Content, Contains, Run, Next, Outcome, Start, OneContentPerSerial, Published, Patient, Failures;
    hide HistoryOk, Covered;
    StartHolds(first, second, directive);
    var (a0, b0) := Start(first, second);
    var k := Gap(ZoneSerial(first.zone), ZoneSerial(second.zone));
    RunStaysWithin(a0, b0, directive, attempts, k);
    var (a, b) := Run(a0, b0, directive, attempts);
    WithinIsRecent(a, b, Failures(a0, b0, directive, attempts, k));
    GapIsApart(a, b, directive);
    UninterruptedRound(a, b, directive, last);
    RoundKeepsInvariant(a, b, directive, last);
    if Outcome(a, b, directive, last).Complete() {
      var serial := Aim(a, b, last.desired) % MODULUS;
      PublishedSerial(Outcome(a, b, directive, last).first, last.desired, serial);
      PublishedSerial(Outcome(a, b, directive, last).second, last.desired, serial);
    }
    var (a', b') := Next(a, b, directive, last);
    InvHolds(a', b', directive);
  }

  /** Both servers serve the records, from disk, under one serial, with markers. */
  ghost predicate OnBoth(r: Round, desired: string) {
    && SerialOf(r.first.zone).Ok? && SerialOf(r.second.zone) == SerialOf(r.first.zone)
    && Published(r.first, desired, SerialOf(r.first.zone).value)
    && Published(r.second, desired, SerialOf(r.first.zone).value)
  }

  lemma GapIsApart(a: History, b: History, directive: string)
    requires HistoryOk(a, directive) && HistoryOk(b, directive) && Apart(a, b) <= HALF_RANGE
    ensures Gap(ZoneSerial(a.server.zone), ZoneSerial(b.server.zone)) == Apart(a, b)
  {
    hide SerialOf, Contains;
    AimIsTheTarget(a, b, directive, "");
  }

  lemma PublishedSerial(s: Server, desired: string, serial: int)
    requires Published(s, desired, serial)
    ensures SerialOf(s.zone) == Ok(serial)
  {
  }
}
