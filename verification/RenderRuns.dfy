/** Role rounds, zone renders and restarts together: when one serial still stands
    for one zone, and that the servers can still be repaired. */
module RenderRuns {
  import opened Wrappers
  import opened Text
  import opened Ring
  import opened ZoneText
  import opened RoleDns
  import opened RoleDnsRuns

  /** What a server has answered from: the zone text but for its serial, and the
      included records. */
  datatype Served = Served(at: nat, content: Option<(string, string)>, records: string)

  /** A server with everything it has ever served. */
  datatype Site = Site(h: History, served: seq<Served>)

  /** Whatever a step loads is the zone on disk. */
  function Follow(x: Site, h': History): Site {
    if |h'.loads| > |x.h.loads| then
      var l := h'.loads[|h'.loads| - 1];
      Site(h', x.served + [Served(l.at, Content(h'.server.zone), l.records)])
    else Site(h', x.served)
  }

  /** How far the DNS role gets on one server: not to the zone file, no further
      than writing it, or to the restart of NSD. */
  datatype Reach = Missed | Written | Restarted

  /** The DNS role on one server: the candidate text under the selected serial
      replaces the zone, and NSD is restarted if that changed the file. */
  function Rendered(h: History, text: string, initial: int, reach: Reach): History {
    var serial := SoaSerial(Some(h.server.zone), text, initial);
    if reach.Missed? || serial.Err? then h else
    var zone := ReplaceSerial(text, serial.value);
    if zone.Err? || zone.value == h.server.zone then h
    else
      var s := h.server.(zone := zone.value);
      Observe(h, if reach.Restarted? then Reload(s) else s, reach.Restarted?, false)
  }

  /** NSD is restarted over the files on disk, as the DNS role also does when only
      its configuration or another zone has changed. */
  function Reopened(h: History): History {
    Observe(h, Reload(h.server), true, false)
  }

  /** A role round, a run of the DNS role over both servers, each of them stopped
      anywhere on either server, or a restart of NSD on the servers named. */
  datatype Step =
    | RoleRound(t: Attempt)
    | Render(text: string, initial: int, first: Reach, second: Reach)
    | Restart(one: bool, other: bool)

  function After(x: Site, y: Site, directive: string, step: Step): (Site, Site) {
    match step
    case RoleRound(t) =>
      var n := Next(x.h, y.h, directive, t);
      (Follow(x, n.0), Follow(y, n.1))
    case Render(text, initial, first, second) =>
      (Follow(x, Rendered(x.h, text, initial, first)), Follow(y, Rendered(y.h, text, initial, second)))
    case Restart(first, second) =>
      (if first then Follow(x, Reopened(x.h)) else x, if second then Follow(y, Reopened(y.h)) else y)
  }

  function AfterAll(x: Site, y: Site, directive: string, steps: seq<Step>): (Site, Site)
    decreases |steps|
  {
    if steps == [] then (x, y)
    else
      var n := After(x, y, directive, steps[0]);
      AfterAll(n.0, n.1, directive, steps[1..])
  }

  // ----- what is kept -----

  /** Everything that either server has ever served. */
  function Zones(x: Site, y: Site): set<Served> {
    (set v | v in x.served) + (set v | v in y.served)
  }

  /** No serial ever stood for two zones, record file included. */
  ghost predicate OneZonePerSerial(zones: set<Served>) {
    forall v, w | v in zones && w in zones && v.at == w.at :: v == w
  }

  /** What was served under a serial is this text and these records. */
  ghost predicate At(zones: set<Served>, serial: nat, h: History) {
    forall v | v in zones && v.at == serial ::
      v.content == Content(h.server.zone) && h.server.records == Some(v.records)
  }

  /** What a server has served is of serials it has reached. */
  ghost predicate Past(x: Site) {
    forall v | v in x.served :: v.at <= x.h.unwrapped
  }

  /** What has been served, against what is on the two disks. */
  ghost predicate Shown(x: Site, y: Site) {
    && Past(x) && Past(y) && OneZonePerSerial(Zones(x, y))
    && At(Zones(x, y), x.h.unwrapped, x.h) && At(Zones(x, y), y.h.unwrapped, y.h)
  }

  predicate SameText(x: Site, y: Site) {
    Content(x.h.server.zone) == Content(y.h.server.zone)
  }

  ghost predicate Base(x: Site, y: Site, directive: string) {
    && Inv(x.h, y.h, directive) && Shown(x, y)
    && !HasPlaceholderLine(x.h.server.zone) && !HasPlaceholderLine(y.h.server.zone)
  }

  /** Both servers hold the same text, under whatever serials. */
  ghost predicate Kept(x: Site, y: Site, directive: string) {
    Base(x, y, directive) && SameText(x, y)
  }

  /** A render has changed the first server and not the second. */
  ghost predicate Leads(x: Site, y: Site, directive: string) {
    && Base(x, y, directive) && !SameText(x, y) && x.h.unwrapped == y.h.unwrapped + 1
    && x.h.server.records.Some? && x.h.server.records == y.h.server.records
  }

  /** Every state that rounds, renders and restarts may lead to. */
  ghost predicate Sound(x: Site, y: Site, directive: string) {
    Kept(x, y, directive) || Leads(x, y, directive) || Leads(y, x, directive)
  }

  /** The servers agree: same serial, same record file, same text. */
  predicate Agree(x: Site, y: Site) {
    && x.h.unwrapped == y.h.unwrapped && SameText(x, y)
    && x.h.server.records == y.h.server.records && x.h.server.records.Some?
  }

  /** The text is the one that the newer server has and the other has not. */
  predicate Finishes(x: Site, y: Site, text: string) {
    && !SameText(x, y)
    && Content(text) == Content(if x.h.unwrapped > y.h.unwrapped then x.h.server.zone else y.h.server.zone)
  }

  /** A text the template may give: one serial line, the include, and nothing that
      reads like a normalised serial line. */
  ghost predicate Renderable(text: string, directive: string) {
    WellFormed(text) && Contains(text, directive) && !HasPlaceholderLine(text)
  }

  /** Servers with the same serial have the same zone, and all have a record file. */
  predicate Restartable(x: Site, y: Site) {
    && x.h.server.records.Some? && y.h.server.records.Some?
    && (x.h.unwrapped == y.h.unwrapped ==> SameText(x, y) && x.h.server.records == y.h.server.records)
  }

  /** A role round needs servers with the same text; a render needs servers that
      agree, or finishes a render that has reached only one of them; a restart
      needs different serials or the same zone.  Rounds and renders may stop
      anywhere. */
  ghost predicate Allowed(x: Site, y: Site, directive: string, step: Step) {
    match step
    case RoleRound(t) => t.desired != "" && SameText(x, y)
    case Render(text, initial, _, _) =>
      Renderable(text, directive) && 0 <= initial < MODULUS && (Agree(x, y) || Finishes(x, y, text))
    case Restart(_, _) => Restartable(x, y)
  }

  ghost predicate AllAllowed(x: Site, y: Site, directive: string, steps: seq<Step>)
    decreases |steps|
  {
    steps == []
    || (Allowed(x, y, directive, steps[0])
        && var n := After(x, y, directive, steps[0]); AllAllowed(n.0, n.1, directive, steps[1..]))
  }

  // ----- one render on one server -----

  lemma ContentIsLocated(a: string, b: string)
    requires Locate(a).Some? && Locate(b).Some?
    ensures SameContent(a, b) <==> Content(a) == Content(b)
  {
    hide Locate;
  }

  /** A render keeps the serial of an unchanged zone and advances it otherwise. */
  lemma SelectedSerial(h: History, text: string, initial: int, directive: string)
    requires HistoryOk(h, directive) && Renderable(text, directive) && 0 <= initial < MODULUS
    requires !HasPlaceholderLine(h.server.zone) && IsDirective(directive)
    ensures var same := Content(h.server.zone) == Content(text);
            var at := if same then h.unwrapped else h.unwrapped + 1;
            var zone := ReplaceSerial(text, at % MODULUS);
            && SoaSerial(Some(h.server.zone), text, initial) == Ok(at % MODULUS)
            && zone.Ok? && WellFormed(zone.value) && SerialOf(zone.value) == Ok(at % MODULUS)
            && Content(zone.value) == Content(text) && Contains(zone.value, directive)
            && ZoneSerial(h.server.zone) == h.unwrapped % MODULUS
            && Distance(h.unwrapped % MODULUS, at % MODULUS) == at - h.unwrapped
  {
    hide Locate, Contains, Content, SoaSerial, ReplaceSerial, HasPlaceholderLine, DetectsChange;
    LocatedWhenWellFormed(h.server.zone);
    LocatedWhenWellFormed(text);
    ContentIsLocated(h.server.zone, text);
    BumpDetectionIsExact(h.server.zone, initial);
    DetectedBump(h.server.zone, text, initial);
    NextUnwrapped(h.unwrapped);
    var at := if Content(h.server.zone) == Content(text) then h.unwrapped else h.unwrapped + 1;
    ReplaceSerialRoundTrip(text, at % MODULUS);
    EditKeepsIncludes(text, at % MODULUS, directive);
    DistanceUnwrapped(h.unwrapped, at);
  }

  lemma DetectedBump(existing: string, desired: string, initial: int)
    requires WellFormed(existing) && WellFormed(desired) && DetectsChange(existing, desired, initial)
    ensures Locate(existing).Some? && Locate(desired).Some?
    ensures SoaSerial(Some(existing), desired, initial) ==
            Ok(if SameContent(existing, desired) then SerialOf(existing).value
               else (SerialOf(existing).value + 1) % MODULUS)
  {
    hide Locate;
  }

  lemma LocatedWhenWellFormed(zone: string)
    requires WellFormed(zone)
    ensures Locate(zone).Some?
  {
    hide Locate;
  }

  /** All that a render that reaches the file does to one server. */
  ghost predicate RenderedTo(h: History, h': History, text: string, directive: string) {
    var at := if Content(h.server.zone) == Content(text) then h.unwrapped else h.unwrapped + 1;
    && h'.unwrapped == at && SerialOf(h'.server.zone) == Ok(at % MODULUS)
    && WellFormed(h'.server.zone) && Contains(h'.server.zone, directive)
    && Content(h'.server.zone) == Content(text)
    && h'.server.records == h.server.records && h'.server.applied == h.server.applied && h'.attested == h.attested
    && ((h'.loads == h.loads && h'.server.loaded == h.server.loaded)
        || (h'.loads == h.loads + [Load(at, h.server.records.GetOr(""))]
            && h'.server.loaded == Some(Loaded(at % MODULUS, h.server.records.GetOr("")))))
  }

  lemma RenderStep(h: History, text: string, initial: int, reach: Reach, directive: string)
    requires HistoryOk(h, directive) && Renderable(text, directive) && 0 <= initial < MODULUS
    requires !HasPlaceholderLine(h.server.zone) && IsDirective(directive)
    ensures reach.Missed? ==> Rendered(h, text, initial, reach) == h
    ensures !reach.Missed? ==> RenderedTo(h, Rendered(h, text, initial, reach), text, directive)
    ensures reach.Restarted? && Content(h.server.zone) != Content(text) ==>
              Rendered(h, text, initial, reach).loads ==
              h.loads + [Load(h.unwrapped + 1, h.server.records.GetOr(""))]
  {
    hide Locate, Contains, Content, SoaSerial, ReplaceSerial, HasPlaceholderLine, SerialOf, Distance;
    SelectedSerial(h, text, initial, directive);
  }

  lemma RenderKeepsHistory(h: History, h': History, text: string, directive: string)
    requires HistoryOk(h, directive) && Reached(h) && RenderedTo(h, h', text, directive)
    ensures HistoryOk(h', directive)
  {
    hide Contains, Content, SerialOf, WellFormed;
    if h'.server.applied.Some? {
      var i: nat :| Attests(h, i);
      assert Attests(h', i);
    }
    assert forall l | l in h.loads :: l.at <= h'.unwrapped;
  }

  /** A rendered zone has no placeholder line: it differs from its text in the
      serial only. */
  lemma RenderLeavesNoPlaceholder(h: History, h': History, text: string, directive: string)
    requires RenderedTo(h, h', text, directive) && Renderable(text, directive)
    ensures !HasPlaceholderLine(h'.server.zone)
  {
    hide SerialOf, Content, Contains, HasPlaceholderLine, Locate;
    LocatedWhenWellFormed(text);
    LocatedWhenWellFormed(h'.server.zone);
    SameContentSamePlaceholders(text, h'.server.zone);
  }

  // ----- one render on both servers -----

  ghost predicate Topped(loads: seq<Load>, w: nat, records: string) {
    forall l | l in loads :: l.at <= w && (l.at == w ==> l.records == records)
  }

  /** New loads under the newest serial, all of one record file. */
  lemma LoadsOnTop(before: seq<Load>, after: seq<Load>, w: nat, records: string)
    requires OneContentPerSerial(before) && Topped(before, w, records)
    requires forall l | l in after :: l in before || l == Load(w, records)
    ensures OneContentPerSerial(after) && Topped(after, w, records)
  {
  }

  lemma ZonesOnTop(before: set<Served>, after: set<Served>, top: Served)
    requires OneZonePerSerial(before)
    requires forall v | v in before :: v.at <= top.at && (v.at == top.at ==> v == top)
    requires forall v | v in after :: v in before || v == top
    ensures OneZonePerSerial(after)
    ensures forall v | v in after :: v.at <= top.at && (v.at == top.at ==> v == top)
  {
  }

  /** A server is as it was, or serves the top zone in addition. */
  lemma ServesTop(x: Site, a: History, top: Served, v: Served)
    requires a.loads == x.h.loads || a.loads == x.h.loads + [Load(top.at, top.records)]
    requires a.loads != x.h.loads ==> Content(a.server.zone) == top.content
    requires v in Follow(x, a).served
    ensures v in x.served || v == top
  {
    hide Content;
  }

  lemma OnTop(a: History, b: History, w: nat, records: string)
    requires OneContentPerSerial(a.loads + b.loads) && Topped(a.loads + b.loads, w, records)
    requires a.unwrapped == b.unwrapped == w && a.server.records == b.server.records == Some(records)
    ensures Covered(a, b)
  {
    assert forall l | l in a.loads || l in b.loads :: l in a.loads + b.loads;
  }

  lemma ShownOnTop(x: Site, y: Site, top: Served)
    requires OneZonePerSerial(Zones(x, y)) && x.h.unwrapped == y.h.unwrapped == top.at
    requires forall v | v in Zones(x, y) :: v.at <= top.at && (v.at == top.at ==> v == top)
    requires Content(x.h.server.zone) == Content(y.h.server.zone) == top.content
    requires x.h.server.records == y.h.server.records == Some(top.records)
    ensures Shown(x, y)
  {
    hide Content;
    assert forall v | v in x.served || v in y.served :: v in Zones(x, y);
  }

  /** Both servers hold the same text under the newest serial. */
  lemma Meet(x: Site, y: Site, a: History, b: History, top: Served, directive: string)
    requires IsDirective(directive) && HistoryOk(a, directive) && HistoryOk(b, directive)
    requires a.unwrapped == b.unwrapped == top.at
    requires a.server.records == b.server.records == Some(top.records)
    requires Content(a.server.zone) == Content(b.server.zone) == top.content && !HasPlaceholderLine(a.server.zone)
    requires a.loads == x.h.loads || a.loads == x.h.loads + [Load(top.at, top.records)]
    requires b.loads == y.h.loads || b.loads == y.h.loads + [Load(top.at, top.records)]
    requires OneContentPerSerial(x.h.loads + y.h.loads) && Topped(x.h.loads + y.h.loads, top.at, top.records)
    requires OneZonePerSerial(Zones(x, y))
    requires forall v | v in Zones(x, y) :: v.at <= top.at && (v.at == top.at ==> v == top)
    ensures Kept(Follow(x, a), Follow(y, b), directive)
  {
    hide SerialOf, Content, Contains, HistoryOk, HasPlaceholderLine, OneContentPerSerial, OneZonePerSerial, Follow;
    hide Covered, Shown;
    LoadsOnTop(x.h.loads + y.h.loads, a.loads + b.loads, top.at, top.records);
    OnTop(a, b, top.at, top.records);
    HistoriesSamePlaceholders(a, b, directive);
    var x', y' := Follow(x, a), Follow(y, b);
    FollowKeeps(x, a);
    FollowKeeps(y, b);
    forall v | v in Zones(x', y')
      ensures v in Zones(x, y) || v == top
    {
      if v in x'.served {
        ServesTop(x, a, top, v);
      } else {
        ServesTop(y, b, top, v);
      }
    }
    ZonesOnTop(Zones(x, y), Zones(x', y'), top);
    ShownOnTop(x', y', top);
  }

  lemma FollowKeeps(x: Site, a: History)
    ensures Follow(x, a).h == a
    ensures a.loads == x.h.loads ==> Follow(x, a).served == x.served
  {
    hide Content;
  }

  /** Of two servers, one with the newest serial has everything under it. */
  lemma BaseIsTopped(x: Site, y: Site)
    requires Covered(x.h, y.h) && Shown(x, y) && y.h.unwrapped <= x.h.unwrapped && x.h.server.records.Some?
    ensures Topped(x.h.loads + y.h.loads, x.h.unwrapped, x.h.server.records.value)
    ensures var top := Served(x.h.unwrapped, Content(x.h.server.zone), x.h.server.records.value);
            forall v | v in Zones(x, y) :: v.at <= top.at && (v.at == top.at ==> v == top)
  {
    hide Content, OneContentPerSerial, OneZonePerSerial;
  }

  /** One server has moved on to a serial that nobody had. */
  lemma LeadIsCovered(h: History, a: History, other: History, records: string)
    requires Covered(h, other) && h.unwrapped == other.unwrapped && a.unwrapped == h.unwrapped + 1
    requires a.loads == h.loads || a.loads == h.loads + [Load(a.unwrapped, records)]
    requires a.server.records == Some(records)
    ensures Covered(a, other)
  {
    var before, after := h.loads + other.loads, a.loads + other.loads;
    assert forall l | l in h.loads || l in other.loads :: l in before;
    forall l | l in after
      ensures l in before || l == Load(a.unwrapped, records)
    {
    }
  }

  lemma LeadIsShown(x: Site, y: Site, a: History, text: string, records: string)
    requires Shown(x, y) && x.h.unwrapped == y.h.unwrapped && a.unwrapped == x.h.unwrapped + 1
    requires a.loads == x.h.loads || a.loads == x.h.loads + [Load(a.unwrapped, records)]
    requires a.server.records == Some(records) && Content(a.server.zone) == Content(text)
    ensures Shown(Follow(x, a), y)
  {
    hide Content, Follow;
    var top := Served(a.unwrapped, Content(text), records);
    var x' := Follow(x, a);
    FollowKeeps(x, a);
    assert forall v | v in x.served || v in y.served :: v in Zones(x, y);
    forall v | v in x'.served
      ensures v in x.served || v == top
    {
      ServesTop(x, a, top, v);
    }
  }

  /** From servers that agree, a new text on one of them leaves it in the lead. */
  lemma TakesTheLead(x: Site, y: Site, a: History, text: string, directive: string)
    requires Kept(x, y, directive) && Agree(x, y) && RenderedTo(x.h, a, text, directive)
    requires Renderable(text, directive) && Content(x.h.server.zone) != Content(text)
    ensures Leads(Follow(x, a), y, directive)
  {
    hide SerialOf, Content, Contains, HistoryOk, HasPlaceholderLine, Covered, Shown, Follow;
    CoveredReached(x.h, y.h);
    RenderKeepsHistory(x.h, a, text, directive);
    RenderLeavesNoPlaceholder(x.h, a, text, directive);
    LeadIsCovered(x.h, a, y.h, x.h.server.records.value);
    LeadIsShown(x, y, a, text, x.h.server.records.value);
    FollowKeeps(x, a);
  }

  lemma CoveredReached(a: History, b: History)
    requires Covered(a, b)
    ensures Reached(a) && Reached(b) && Fits(a, a.loads) && Fits(b, b.loads) && OneContentPerSerial(a.loads + b.loads)
  {
    OwnFits(a, a.loads, b.loads);
    OwnFits(b, a.loads, b.loads);
  }

  lemma HistoriesSamePlaceholders(h: History, h': History, directive: string)
    requires HistoryOk(h, directive) && HistoryOk(h', directive) && Content(h.server.zone) == Content(h'.server.zone)
    ensures HasPlaceholderLine(h.server.zone) <==> HasPlaceholderLine(h'.server.zone)
  {
    hide SerialOf, Content, Contains, HasPlaceholderLine, Locate;
    LocatedWhenWellFormed(h.server.zone);
    LocatedWhenWellFormed(h'.server.zone);
    SameContentSamePlaceholders(h.server.zone, h'.server.zone);
  }

  /** A server has loaded what is on its disk, under the serial it had. */
  lemma ReloadIsCovered(h: History, a: History, other: History, records: string)
    requires Covered(h, other) && a.unwrapped == h.unwrapped && a.server.records == h.server.records == Some(records)
    requires a.loads == h.loads || a.loads == h.loads + [Load(h.unwrapped, records)]
    requires h.unwrapped == other.unwrapped ==> other.server.records == Some(records)
    ensures Covered(a, other)
  {
    var before, after := h.loads + other.loads, a.loads + other.loads;
    assert forall l | l in h.loads || l in other.loads :: l in before;
    forall l | l in after
      ensures l in before || l == Load(h.unwrapped, records)
    {
    }
  }

  lemma ReloadIsShown(x: Site, y: Site, a: History, records: string)
    requires Shown(x, y) && a.unwrapped == x.h.unwrapped && a.server.records == x.h.server.records == Some(records)
    requires Content(a.server.zone) == Content(x.h.server.zone)
    requires a.loads == x.h.loads || a.loads == x.h.loads + [Load(a.unwrapped, records)]
    requires x.h.unwrapped == y.h.unwrapped ==> SameText(x, y) && y.h.server.records == Some(records)
    ensures Shown(Follow(x, a), y)
  {
    hide Content, Follow;
    var top := Served(a.unwrapped, Content(a.server.zone), records);
    var x' := Follow(x, a);
    FollowKeeps(x, a);
    assert forall v | v in x.served || v in y.served :: v in Zones(x, y);
    forall v | v in x'.served
      ensures v in x.served || v == top
    {
      ServesTop(x, a, top, v);
    }
  }

  /** The leading server rendered once more with its own text. */
  lemma StaysInTheLead(x: Site, y: Site, a: History, text: string, directive: string)
    requires Leads(x, y, directive) && Renderable(text, directive)
    requires Content(x.h.server.zone) == Content(text) && RenderedTo(x.h, a, text, directive)
    ensures Leads(Follow(x, a), y, directive)
  {
    hide SerialOf, Content, Contains, HistoryOk, HasPlaceholderLine, Covered, Shown, Follow;
    CoveredReached(x.h, y.h);
    RenderKeepsHistory(x.h, a, text, directive);
    RenderLeavesNoPlaceholder(x.h, a, text, directive);
    ReloadIsCovered(x.h, a, y.h, x.h.server.records.value);
    ReloadIsShown(x, y, a, x.h.server.records.value);
    FollowKeeps(x, a);
  }

  /** The lagging server catches up. */
  lemma CatchesUp(x: Site, y: Site, a: History, b: History, text: string, directive: string)
    requires Leads(x, y, directive) && Renderable(text, directive) && Content(x.h.server.zone) == Content(text)
    requires a == x.h || RenderedTo(x.h, a, text, directive)
    requires RenderedTo(y.h, b, text, directive)
    ensures Kept(Follow(x, a), Follow(y, b), directive)
  {
    hide SerialOf, Content, Contains, HistoryOk, HasPlaceholderLine, Covered, Follow;
    CoveredReached(x.h, y.h);
    if a != x.h {
      RenderKeepsHistory(x.h, a, text, directive);
      RenderLeavesNoPlaceholder(x.h, a, text, directive);
    }
    RenderKeepsHistory(y.h, b, text, directive);
    BaseIsTopped(x, y);
    Meet(x, y, a, b, Served(x.h.unwrapped, Content(text), x.h.server.records.value), directive);
  }

  /** Servers that agree are rendered with a text they have, or both reached. */
  lemma RenderTogether(x: Site, y: Site, a: History, b: History, text: string, directive: string)
    requires Kept(x, y, directive) && Agree(x, y) && Renderable(text, directive)
    requires RenderedTo(x.h, a, text, directive) || (a == x.h && Content(x.h.server.zone) == Content(text))
    requires RenderedTo(y.h, b, text, directive) || (b == y.h && Content(x.h.server.zone) == Content(text))
    ensures Kept(Follow(x, a), Follow(y, b), directive)
  {
    hide SerialOf, Content, Contains, HistoryOk, HasPlaceholderLine, Covered, Follow;
    CoveredReached(x.h, y.h);
    if a != x.h {
      RenderKeepsHistory(x.h, a, text, directive);
      RenderLeavesNoPlaceholder(x.h, a, text, directive);
    }
    if b != y.h {
      RenderKeepsHistory(y.h, b, text, directive);
    }
    BaseIsTopped(x, y);
    Meet(x, y, a, b, Served(a.unwrapped, Content(text), x.h.server.records.value), directive);
  }

  /** The order in which the servers are named does not matter. */
  lemma BaseSwaps(x: Site, y: Site, directive: string)
    requires Base(x, y, directive)
    ensures Base(y, x, directive)
  {
    hide SerialOf, Content, Contains, HistoryOk, HasPlaceholderLine;
    assert Zones(x, y) == Zones(y, x);
    assert forall l | l in y.h.loads + x.h.loads :: l in x.h.loads + y.h.loads;
  }

  // ----- one restart -----

  lemma ReopenedHistory(h: History, directive: string)
    requires HistoryOk(h, directive) && Reached(h) && h.server.records.Some?
    ensures var h' := Reopened(h);
            && HistoryOk(h', directive) && h'.unwrapped == h.unwrapped && h'.attested == h.attested
            && h'.server.zone == h.server.zone && h'.server.records == h.server.records
            && h'.server.applied == h.server.applied
            && h'.loads == h.loads + [Load(h.unwrapped, h.server.records.value)]
  {
    hide Contains, Content, SerialOf, Distance, WellFormed;
    DistanceUnwrapped(h.unwrapped, h.unwrapped);
    var h' := Reopened(h);
    assert h'.loads == h.loads + [Load(h.unwrapped, h.server.records.value)];
    if h.server.applied.Some? {
      var i: nat :| Attests(h, i);
      assert Attests(h', i);
    }
  }

  /** A restart changes nothing but what has been served. */
  lemma ReopenKeepsBase(x: Site, y: Site, directive: string)
    requires Base(x, y, directive) && Restartable(x, y)
    ensures var x' := Follow(x, Reopened(x.h));
            && Base(x', y, directive) && Restartable(x', y)
            && x'.h.unwrapped == x.h.unwrapped && x'.h.server.zone == x.h.server.zone
            && x'.h.server.records == x.h.server.records
            && x'.h.server.applied == x.h.server.applied && x'.h.attested == x.h.attested
  {
    hide SerialOf, Content, Contains, HistoryOk, HasPlaceholderLine, Covered, Shown, Follow, Reopened;
    CoveredReached(x.h, y.h);
    ReopenedHistory(x.h, directive);
    ReloadIsCovered(x.h, Reopened(x.h), y.h, x.h.server.records.value);
    ReloadIsShown(x, y, Reopened(x.h), x.h.server.records.value);
    FollowKeeps(x, Reopened(x.h));
  }

  /** Neither does a restart of both. */
  lemma RestartKeepsBase(x: Site, y: Site, directive: string, first: bool, second: bool)
    requires Base(x, y, directive) && Restartable(x, y)
    ensures var (x', y') := After(x, y, directive, Restart(first, second));
            && Base(x', y', directive) && Restartable(x', y')
            && x'.h.unwrapped == x.h.unwrapped && y'.h.unwrapped == y.h.unwrapped
            && x'.h.server.zone == x.h.server.zone && y'.h.server.zone == y.h.server.zone
            && x'.h.server.records == x.h.server.records && y'.h.server.records == y.h.server.records
            && x'.h.server.applied == x.h.server.applied && x'.h.attested == x.h.attested
            && y'.h.server.applied == y.h.server.applied && y'.h.attested == y.h.attested
  {
    hide Base, Content, Follow, Reopened;
    var x1 := if first then Follow(x, Reopened(x.h)) else x;
    if first {
      ReopenKeepsBase(x, y, directive);
    }
    if second {
      BaseSwaps(x1, y, directive);
      ReopenKeepsBase(y, x1, directive);
      BaseSwaps(Follow(y, Reopened(y.h)), x1, directive);
    }
  }

  lemma RestartKeepsSound(x: Site, y: Site, directive: string, first: bool, second: bool)
    requires Sound(x, y, directive) && Restartable(x, y)
    ensures var (x', y') := After(x, y, directive, Restart(first, second));
            Sound(x', y', directive)
  {
    hide Base, Content, After;
    if Leads(y, x, directive) {
      BaseSwaps(y, x, directive);
    }
    RestartKeepsBase(x, y, directive, first, second);
    var (x', y') := After(x, y, directive, Restart(first, second));
    BaseSwaps(x', y', directive);
  }

  // ----- all renders -----

  lemma Unmoved(x: Site)
    ensures Follow(x, x.h) == x
  {
  }

  lemma AgreedRender(x: Site, y: Site, directive: string, text: string, initial: int, first: Reach, second: Reach)
    requires Kept(x, y, directive) && Agree(x, y) && Renderable(text, directive) && 0 <= initial < MODULUS
    ensures var (x', y') := After(x, y, directive, Render(text, initial, first, second));
            Sound(x', y', directive)
  {
    hide SerialOf, Content, Contains, HasPlaceholderLine, HistoryOk, Covered, OneContentPerSerial, OneZonePerSerial;
    hide Renderable, Rendered, RenderedTo, Follow, Zones, Shown, Leads;
    RenderStep(x.h, text, initial, first, directive);
    RenderStep(y.h, text, initial, second, directive);
    Unmoved(x);
    Unmoved(y);
    var a, b := Rendered(x.h, text, initial, first), Rendered(y.h, text, initial, second);
    if Content(x.h.server.zone) == Content(text) || (!first.Missed? && !second.Missed?) {
      RenderTogether(x, y, a, b, text, directive);
    } else if first.Missed? && second.Missed? {
      assert Follow(x, a) == x && Follow(y, b) == y;
    } else if second.Missed? {
      TakesTheLead(x, y, a, text, directive);
    } else {
      BaseSwaps(x, y, directive);
      TakesTheLead(y, x, b, text, directive);
    }
  }

  lemma FinishingRender(x: Site, y: Site, directive: string, text: string, initial: int, first: Reach, second: Reach)
    requires Leads(x, y, directive) && Renderable(text, directive) && 0 <= initial < MODULUS
    requires Content(x.h.server.zone) == Content(text)
    ensures var (x', y') := After(x, y, directive, Render(text, initial, first, second));
            Sound(x', y', directive)
  {
    hide SerialOf, Content, Contains, HasPlaceholderLine, HistoryOk, Covered, OneContentPerSerial, OneZonePerSerial;
    hide Renderable, Rendered, RenderedTo, Follow, Zones, Shown, Kept;
    RenderStep(x.h, text, initial, first, directive);
    RenderStep(y.h, text, initial, second, directive);
    Unmoved(x);
    Unmoved(y);
    var a, b := Rendered(x.h, text, initial, first), Rendered(y.h, text, initial, second);
    if !second.Missed? {
      CatchesUp(x, y, a, b, text, directive);
    } else if !first.Missed? {
      StaysInTheLead(x, y, a, text, directive);
    }
  }

  lemma AfterSwaps(x: Site, y: Site, directive: string, text: string, initial: int, first: Reach, second: Reach)
    ensures var (x', y') := After(x, y, directive, Render(text, initial, first, second));
            After(y, x, directive, Render(text, initial, second, first)) == (y', x')
  {
  }

  lemma SoundSwaps(x: Site, y: Site, directive: string)
    requires Sound(x, y, directive)
    ensures Sound(y, x, directive)
  {
    hide Base, Content;
    if Kept(x, y, directive) {
      BaseSwaps(x, y, directive);
    }
  }

  lemma RenderKeepsSound(x: Site, y: Site, directive: string, text: string, initial: int, first: Reach, second: Reach)
    requires Sound(x, y, directive) && Allowed(x, y, directive, Render(text, initial, first, second))
    ensures var (x', y') := After(x, y, directive, Render(text, initial, first, second));
            Sound(x', y', directive)
  {
    hide SerialOf, Content, Contains, HasPlaceholderLine, HistoryOk, Covered, OneContentPerSerial, OneZonePerSerial;
    hide Inv, Renderable, Zones, Shown, After, Sound;
    if Kept(x, y, directive) {
      AgreedRender(x, y, directive, text, initial, first, second);
    } else if Leads(x, y, directive) {
      FinishingRender(x, y, directive, text, initial, first, second);
    } else {
      MustLead(x, y, directive);
      FinishingRender(y, x, directive, text, initial, second, first);
      AfterSwaps(x, y, directive, text, initial, first, second);
      var (x', y') := After(x, y, directive, Render(text, initial, first, second));
      SoundSwaps(y', x', directive);
    }
  }

  lemma MustLead(x: Site, y: Site, directive: string)
    requires Sound(x, y, directive) && !Kept(x, y, directive) && !Leads(x, y, directive)
    ensures Leads(y, x, directive)
  {
  }

  // ----- one round -----

  /** What a round has a server serve in addition. */
  lemma RoundServes(x: Site, a: History, aim: nat, desired: string, directive: string, v: Served)
    requires Stepped(x.h, a, aim, desired, directive) && v in Follow(x, a).served
    ensures v in x.served || (v == Served(aim, Content(x.h.server.zone), desired) && a.loads != x.h.loads)
  {
    hide Contains, Content, SerialOf, WellFormed;
  }

  lemma RoundKeepsShown(x: Site, y: Site, a: History, b: History, aim: nat, desired: string, directive: string)
    requires Kept(x, y, directive) && BothStepped(x.h, y.h, a, b, aim, desired, directive)
    requires (x.h.unwrapped < aim && y.h.unwrapped < aim) || x.h.unwrapped == y.h.unwrapped == aim
    ensures var x', y' := Follow(x, a), Follow(y, b);
            SameText(x', y') && Shown(x', y')
  {
    hide Contains, Content, SerialOf, WellFormed, HistoryOk, Covered, HasPlaceholderLine, Follow;
    var x', y' := Follow(x, a), Follow(y, b);
    FollowKeeps(x, a);
    FollowKeeps(y, b);
    var last := Served(aim, Content(x.h.server.zone), desired);
    assert forall v | v in x.served || v in y.served :: v in Zones(x, y);
    forall v | v in x'.served
      ensures v in x.served || (v == last && a.loads != x.h.loads)
    {
      RoundServes(x, a, aim, desired, directive, v);
    }
    forall v | v in y'.served
      ensures v in y.served || (v == last && b.loads != y.h.loads)
    {
      RoundServes(y, b, aim, desired, directive, v);
    }
  }

  lemma RoundKeepsText(x: Site, y: Site, directive: string, t: Attempt)
    requires Kept(x, y, directive) && t.desired != ""
    ensures var (x', y') := After(x, y, directive, RoleRound(t));
            Kept(x', y', directive)
  {
    hide SerialOf, Content, Contains, Next, Shown, HistoryOk, Covered, HasPlaceholderLine, Locate, Follow;
    RoundKeepsInvariant(x.h, y.h, directive, t);
    var n := Next(x.h, y.h, directive, t);
    FollowKeeps(x, n.0);
    FollowKeeps(y, n.1);
    HistoriesSamePlaceholders(x.h, n.0, directive);
    HistoriesSamePlaceholders(y.h, n.1, directive);
    if Apart(x.h, y.h) == HALF_RANGE {
      BlockedRound(x.h, y.h, directive, t);
      Unmoved(x);
      Unmoved(y);
    } else {
      RoundSteps(x.h, y.h, directive, t);
      RoundKeepsShown(x, y, n.0, n.1, Aim(x.h, y.h, t.desired), t.desired, directive);
    }
  }

  // ----- runs -----

  lemma StepKeepsSound(x: Site, y: Site, directive: string, step: Step)
    requires Sound(x, y, directive) && Allowed(x, y, directive, step)
    ensures var (x', y') := After(x, y, directive, step);
            Sound(x', y', directive)
  {
    hide Content, Kept, After, Renderable;
    match step {
      case RoleRound(t) =>
        SameTextIsKept(x, y, directive);
        RoundKeepsText(x, y, directive, t);
      case Render(text, initial, first, second) =>
        RenderKeepsSound(x, y, directive, text, initial, first, second);
      case Restart(first, second) =>
        RestartKeepsSound(x, y, directive, first, second);
    }
  }

  /** In every such state, the same text on both servers means that no render is
      unfinished. */
  lemma SameTextIsKept(x: Site, y: Site, directive: string)
    requires Sound(x, y, directive)
    ensures SameText(x, y) <==> Kept(x, y, directive)
  {
    hide Content, Base;
  }

  lemma SoundIsOneZone(x: Site, y: Site, directive: string)
    requires Sound(x, y, directive)
    ensures OneZonePerSerial(Zones(x, y))
  {
    hide Content, Inv, HasPlaceholderLine;
    assert Zones(x, y) == Zones(y, x);
  }

  /** One zone per serial, renders included: over every run of role rounds between
      servers with the same text, of renders of servers that agree or that finish
      an unfinished render, each stopped anywhere on either server, and of restarts
      between servers with different serials or the same zone, no serial on either
      server ever stands for two zone texts or two record files. */
  lemma {:induction false} RendersKeepOneZone(x: Site, y: Site, directive: string, steps: seq<Step>)
    requires Sound(x, y, directive) && AllAllowed(x, y, directive, steps)
    ensures var (x', y') := AfterAll(x, y, directive, steps);
            Sound(x', y', directive) && OneZonePerSerial(Zones(x', y'))
    decreases |steps|
  {
    hide Sound, After, Zones, OneZonePerSerial, Allowed;
    if steps == [] {
      SoundIsOneZone(x, y, directive);
    } else {
      StepKeepsSound(x, y, directive, steps[0]);
      var (x1, y1) := After(x, y, directive, steps[0]);
      RendersKeepOneZone(x1, y1, directive, steps[1..]);
    }
  }

  /** A completed round leaves servers that agree: then it is safe to render. */
  lemma CompletedRoundAgrees(x: Site, y: Site, directive: string, t: Attempt)
    requires Kept(x, y, directive) && t.desired != "" && Outcome(x.h, y.h, directive, t).Complete()
    ensures var (x', y') := After(x, y, directive, RoleRound(t));
            Agree(x', y') && x'.h.server.records == Some(t.desired)
  {
    hide SerialOf, Content, Contains, Distance, UpdateOutcome, ChooseTarget, Covered, Follow, HasPlaceholderLine, Shown;
    var a, b := x.h, y.h;
    RoundKeepsInvariant(a, b, directive, t);
    FollowKeeps(x, Next(a, b, directive, t).0);
    FollowKeeps(y, Next(a, b, directive, t).1);
    if Apart(a, b) == HALF_RANGE {
      BlockedRound(a, b, directive, t);
    } else {
      CompleteRoundMeets(a, b, directive, t);
      var aim := Aim(a, b, t.desired);
      AimIsTheTarget(a, b, directive, t.desired);
      UpdateMoves(a, t.desired, directive, aim, t.first.steps);
      UpdateMoves(b, t.desired, directive, aim, t.second.steps);
    }
  }

  // ----- repair after rounds and renders -----

  /** How many steps there have been since the last completed round, restarts not
      counted. */
  function Lag(x: Site, y: Site, directive: string, step: Step, before: nat): nat {
    match step
    case RoleRound(t) => FailuresAfter(x.h, y.h, directive, t, before)
    case Render(_, _, _, _) => before + 1
    case Restart(_, _) => before
  }

  function Lags(x: Site, y: Site, directive: string, steps: seq<Step>, before: nat): nat
    decreases |steps|
  {
    if steps == [] then before
    else
      var n := After(x, y, directive, steps[0]);
      Lags(n.0, n.1, directive, steps[1..], Lag(x, y, directive, steps[0], before))
  }

  /** At no point have there been 2^32 steps without a completed round. */
  ghost predicate Timely(x: Site, y: Site, directive: string, steps: seq<Step>, before: nat)
    decreases |steps|
  {
    before < MODULUS
    && (steps == [] ||
        var n := After(x, y, directive, steps[0]);
        Timely(n.0, n.1, directive, steps[1..], Lag(x, y, directive, steps[0], before)))
  }

  lemma RenderMovesOne(h: History, h': History, text: string, directive: string)
    requires h' == h || RenderedTo(h, h', text, directive)
    ensures h.unwrapped <= h'.unwrapped <= h.unwrapped + 1
    ensures h'.server.applied == h.server.applied && h'.attested == h.attested
  {
    hide SerialOf, Content, Contains;
  }

  lemma RenderKeepsWithin(x: Site, y: Site, directive: string, text: string, initial: int, first: Reach, second: Reach,
                          k: nat)
    requires Sound(x, y, directive) && Allowed(x, y, directive, Render(text, initial, first, second))
    requires Within(x.h, y.h, k)
    ensures var (x', y') := After(x, y, directive, Render(text, initial, first, second));
            Within(x'.h, y'.h, k + 1)
  {
    hide SerialOf, Content, Contains, HasPlaceholderLine, Covered, OneContentPerSerial, OneZonePerSerial;
    hide Renderable, Rendered, RenderedTo, Follow, Zones, Shown, HistoryOk;
    SoundServers(x, y, directive);
    RenderStep(x.h, text, initial, first, directive);
    RenderStep(y.h, text, initial, second, directive);
    var a, b := Rendered(x.h, text, initial, first), Rendered(y.h, text, initial, second);
    RenderMovesOne(x.h, a, text, directive);
    RenderMovesOne(y.h, b, text, directive);
    FollowKeeps(x, a);
    FollowKeeps(y, b);
  }

  lemma RestartKeepsWithin(x: Site, y: Site, directive: string, first: bool, second: bool, k: nat)
    requires Sound(x, y, directive) && Restartable(x, y) && Within(x.h, y.h, k)
    ensures var (x', y') := After(x, y, directive, Restart(first, second));
            Within(x'.h, y'.h, k)
  {
    hide Content, Base, Follow, Reopened;
    if Leads(y, x, directive) {
      BaseSwaps(y, x, directive);
    }
    RestartKeepsBase(x, y, directive, first, second);
  }

  lemma SoundServers(x: Site, y: Site, directive: string)
    requires Sound(x, y, directive)
    ensures IsDirective(directive) && HistoryOk(x.h, directive) && HistoryOk(y.h, directive)
    ensures !HasPlaceholderLine(x.h.server.zone) && !HasPlaceholderLine(y.h.server.zone)
    ensures Reached(x.h) && Reached(y.h)
  {
    hide Content, HasPlaceholderLine, HistoryOk, Shown, OneContentPerSerial, Fits;
  }

  lemma StepKeepsWithin(x: Site, y: Site, directive: string, step: Step, k: nat)
    requires Sound(x, y, directive) && Allowed(x, y, directive, step) && Within(x.h, y.h, k) && k < MODULUS
    ensures var (x', y') := After(x, y, directive, step);
            Within(x'.h, y'.h, Lag(x, y, directive, step, k))
  {
    hide Content, Within, Renderable, Rendered, Follow, Next;
    match step {
      case RoleRound(t) =>
        SameTextIsKept(x, y, directive);
        RoundKeepsWithin(x.h, y.h, directive, t, k);
        FollowKeeps(x, Next(x.h, y.h, directive, t).0);
        FollowKeeps(y, Next(x.h, y.h, directive, t).1);
      case Render(text, initial, first, second) =>
        RenderKeepsWithin(x, y, directive, text, initial, first, second, k);
      case Restart(first, second) =>
        RestartKeepsWithin(x, y, directive, first, second, k);
    }
  }

  lemma {:induction false} RunIsTimely(x: Site, y: Site, directive: string, steps: seq<Step>, k: nat)
    requires Sound(x, y, directive) && AllAllowed(x, y, directive, steps)
    requires Within(x.h, y.h, k) && Timely(x, y, directive, steps, k)
    ensures var (x', y') := AfterAll(x, y, directive, steps);
            var lag := Lags(x, y, directive, steps, k);
            Sound(x', y', directive) && Within(x'.h, y'.h, lag) && lag < MODULUS
    decreases |steps|
  {
    hide Sound, After, Within, Allowed, Lag;
    if steps != [] {
      StepKeepsSound(x, y, directive, steps[0]);
      StepKeepsWithin(x, y, directive, steps[0], k);
      var (x1, y1) := After(x, y, directive, steps[0]);
      RunIsTimely(x1, y1, directive, steps[1..], Lag(x, y, directive, steps[0], k));
    }
  }

  /** Crash tolerance with renders.  From any deployed pair of servers with one
      text, after any allowed history of rounds and renders, stopped anywhere,
      that leaves no render unfinished, one uninterrupted round publishes its
      records on both servers under one serial, if and only if the serials on disk
      are at most 2^31 - 2 apart; and they are never further apart than there have
      been steps since the last completed round. */
  lemma RendersAreRepaired(first: Server, second: Server, directive: string, steps: seq<Step>, last: Attempt)
    requires Deployed(first, directive) && Deployed(second, directive) && IsDirective(directive)
    requires Content(first.zone) == Content(second.zone) && !HasPlaceholderLine(first.zone)
    requires last.desired != "" && last.first.Uninterrupted() && last.second.Uninterrupted()
    requires var (a, b) := Start(first, second);
             && AllAllowed(Site(a, []), Site(b, []), directive, steps)
             && Timely(Site(a, []), Site(b, []), directive, steps,
                       Gap(ZoneSerial(first.zone), ZoneSerial(second.zone)))
    ensures var start := Start(first, second);
            var (x, y) := AfterAll(Site(start.0, []), Site(start.1, []), directive, steps);
            var r := Outcome(x.h, y.h, directive, last);
            var gap := Gap(ZoneSerial(x.h.server.zone), ZoneSerial(y.h.server.zone));
            SameText(x, y) ==>
              && (r.Complete() <==> gap <= HALF_RANGE - 2)
              && gap <= Lags(Site(start.0, []), Site(start.1, []), directive, steps,
                             Gap(ZoneSerial(first.zone), ZoneSerial(second.zone)))
              && (r.Complete() ==> OnBoth(r, last.desired))
  {
    hide SerialOf, Content, Contains, AfterAll, Outcome, Start, Published, Timely, Lags, AllAllowed, HasPlaceholderLine;
    hide HistoryOk, Covered, Sound, Kept;
    StartHolds(first, second, directive);
    var (a, b) := Start(first, second);
    var k := Gap(ZoneSerial(first.zone), ZoneSerial(second.zone));
    StartIsKept(a, b, directive);
    RunIsTimely(Site(a, []), Site(b, []), directive, steps, k);
    var (x, y) := AfterAll(Site(a, []), Site(b, []), directive, steps);
    WithinIsRecent(x.h, y.h, Lags(Site(a, []), Site(b, []), directive, steps, k));
    SameTextIsKept(x, y, directive);
    if SameText(x, y) {
      KeptHolds(x, y, directive);
      GapIsApart(x.h, y.h, directive);
      UninterruptedRound(x.h, y.h, directive, last);
      if Outcome(x.h, y.h, directive, last).Complete() {
        var serial := Aim(x.h, y.h, last.desired) % MODULUS;
        PublishedSerial(Outcome(x.h, y.h, directive, last).first, last.desired, serial);
        PublishedSerial(Outcome(x.h, y.h, directive, last).second, last.desired, serial);
      }
    }
  }

  lemma KeptHolds(x: Site, y: Site, directive: string)
    requires Kept(x, y, directive)
    ensures Inv(x.h, y.h, directive)
  {
  }

  lemma StartIsKept(a: History, b: History, directive: string)
    requires Inv(a, b, directive) && Content(a.server.zone) == Content(b.server.zone)
    requires !HasPlaceholderLine(a.server.zone)
    ensures Sound(Site(a, []), Site(b, []), directive)
  {
    hide Content, HasPlaceholderLine, HistoryOk, Covered;
    HistoriesSamePlaceholders(a, b, directive);
    assert Zones(Site(a, []), Site(b, [])) == {};
    assert Kept(Site(a, []), Site(b, []), directive);
  }
}
