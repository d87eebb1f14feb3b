/** Exactly when role rounds, renders and restarts are safe: servers with the same
    text for the first, servers that agree for the second, and servers that do not
    share a serial for different records for the last. */
module RenderLimits {
  import opened Wrappers
  import opened Text
  import opened Ring
  import opened ZoneText
  import opened RoleDns
  import opened RoleDnsRuns
  import opened RenderRuns

  // ----- complete renders, one after another -----

  /** Runs of the DNS role that reach both servers. */
  function Plays(texts: seq<string>, initial: int): seq<Step>
    decreases |texts|
  {
    if texts == [] then [] else [Render(texts[0], initial, Restarted, Restarted)] + Plays(texts[1..], initial)
  }

  /** The same on one server. */
  function RenderAll(x: Site, texts: seq<string>, initial: int): Site
    decreases |texts|
  {
    if texts == [] then x
    else RenderAll(Follow(x, Rendered(x.h, texts[0], initial, Restarted)), texts[1..], initial)
  }

  lemma {:induction false} PlaysAreSeparate(x: Site, y: Site, directive: string, texts: seq<string>, initial: int)
    ensures AfterAll(x, y, directive, Plays(texts, initial)) ==
            (RenderAll(x, texts, initial), RenderAll(y, texts, initial))
    decreases |texts|
  {
    hide Rendered, Follow;
    if texts != [] {
      var step := Render(texts[0], initial, Restarted, Restarted);
      assert Plays(texts, initial)[0] == step && Plays(texts, initial)[1..] == Plays(texts[1..], initial);
      var (x1, y1) := After(x, y, directive, step);
      PlaysAreSeparate(x1, y1, directive, texts[1..], initial);
    }
  }

  /** Each text differs from the one before it, and the first from the zone. */
  ghost predicate Alternate(zone: string, texts: seq<string>) {
    texts != [] ==>
      && Content(texts[0]) != Content(zone)
      && forall k | 0 <= k < |texts| - 1 :: Content(texts[k + 1]) != Content(texts[k])
  }

  ghost predicate AllRenderable(texts: seq<string>, directive: string) {
    forall t | t in texts :: Renderable(t, directive)
  }

  /** A server on which renders can be followed. */
  ghost predicate Ready(h: History, directive: string) {
    && IsDirective(directive) && HistoryOk(h, directive) && Reached(h)
    && !HasPlaceholderLine(h.server.zone) && h.server.records.Some?
  }

  lemma OneRender(x: Site, text: string, initial: int, directive: string)
    requires Ready(x.h, directive) && Renderable(text, directive) && 0 <= initial < MODULUS
    requires Content(x.h.server.zone) != Content(text)
    ensures var x' := Follow(x, Rendered(x.h, text, initial, Restarted));
            && Ready(x'.h, directive) && x'.h.unwrapped == x.h.unwrapped + 1
            && Content(x'.h.server.zone) == Content(text)
            && x'.served == x.served + [Served(x.h.unwrapped + 1, Content(text), x.h.server.records.GetOr(""))]
            && x'.h.server.records == x.h.server.records
  {
    hide SerialOf, Content, Contains, HasPlaceholderLine, HistoryOk, Rendered, WellFormed;
    RenderStep(x.h, text, initial, Restarted, directive);
    var a := Rendered(x.h, text, initial, Restarted);
    RenderKeepsHistory(x.h, a, text, directive);
    RenderLeavesNoPlaceholder(x.h, a, text, directive);
  }

  /** Nothing served is ever forgotten. */
  lemma {:induction false} RenderAllGrows(x: Site, texts: seq<string>, initial: int, v: Served)
    requires v in x.served
    ensures v in RenderAll(x, texts, initial).served
    decreases |texts|
  {
    hide Rendered;
    if texts != [] {
      RenderAllGrows(Follow(x, Rendered(x.h, texts[0], initial, Restarted)), texts[1..], initial, v);
    }
  }

  /** The k-th of a list of changing texts is served under the k-th next serial. */
  lemma {:induction false} ServesEach(x: Site, texts: seq<string>, initial: int, directive: string, k: nat)
    requires Ready(x.h, directive) && AllRenderable(texts, directive) && 0 <= initial < MODULUS
    requires Alternate(x.h.server.zone, texts) && k < |texts|
    ensures exists v :: v in RenderAll(x, texts, initial).served
                        && v.at == x.h.unwrapped + k + 1 && v.content == Content(texts[k])
    decreases |texts|
  {
    hide Content, Ready, Rendered, Follow, Renderable;
    assert texts[0] in texts;
    OneRender(x, texts[0], initial, directive);
    var x' := Follow(x, Rendered(x.h, texts[0], initial, Restarted));
    if k == 0 {
      var v := Served(x.h.unwrapped + 1, Content(texts[0]), x.h.server.records.GetOr(""));
      assert v == x'.served[|x.served|];
      RenderAllGrows(x', texts[1..], initial, v);
    } else {
      assert forall j | 0 <= j < |texts[1..]| :: texts[1..][j] == texts[j + 1];
      TailAlternates(x.h.server.zone, x'.h.server.zone, texts);
      ServesEach(x', texts[1..], initial, directive, k - 1);
    }
  }

  lemma TailAlternates(zone: string, next: string, texts: seq<string>)
    requires texts != [] && Alternate(zone, texts) && Content(next) == Content(texts[0])
    ensures Alternate(next, texts[1..])
  {
    hide Content;
    var rest := texts[1..];
    forall k | 0 <= k < |rest| - 1
      ensures Content(rest[k + 1]) != Content(rest[k])
    {
      assert rest[k] == texts[k + 1] && rest[k + 1] == texts[(k + 1) + 1];
    }
    if rest != [] {
      assert rest[0] == texts[0 + 1];
    }
  }

  // ----- renders are safe exactly for servers that agree -----

  /** c, d, c, d, ... and then a text that is neither the one before nor c. */
  function Turns(c: string, d: string, n: nat): seq<string> {
    if n == 0 then [] else Turns(c, d, n - 1) + [if n % 2 == 1 then c else d]
  }

  lemma {:induction false} TurnsAt(c: string, d: string, n: nat)
    ensures |Turns(c, d, n)| == n
    ensures forall k | 0 <= k < n :: Turns(c, d, n)[k] == if k % 2 == 0 then c else d
  {
    if n > 0 {
      TurnsAt(c, d, n - 1);
    }
  }

  function Colliding(c: string, d: string, e: string, gap: nat): seq<string> {
    Turns(c, d, gap) + [if gap % 2 == 1 then d else e]
  }

  /** Three texts that no two servers can be confused about. */
  ghost predicate ThreeTexts(c: string, d: string, e: string, directive: string) {
    && Renderable(c, directive) && Renderable(d, directive) && Renderable(e, directive)
    && Content(c) != Content(d) && Content(d) != Content(e) && Content(c) != Content(e)
  }

  lemma CollidingAlternates(zone: string, c: string, d: string, e: string, gap: nat, directive: string)
    requires ThreeTexts(c, d, e, directive) && Content(zone) != Content(c) && gap > 0
    ensures var texts := Colliding(c, d, e, gap);
            && |texts| == gap + 1 && AllRenderable(texts, directive) && Alternate(zone, texts)
            && texts[0] == c && Content(texts[gap]) != Content(c)
  {
    hide Content, Renderable;
    TurnsAt(c, d, gap);
    var texts := Colliding(c, d, e, gap);
    assert forall k | 0 <= k < gap :: texts[k] == if k % 2 == 0 then c else d;
    forall k | 0 <= k < |texts| - 1
      ensures Content(texts[k + 1]) != Content(texts[k])
    {
      if k + 1 == gap {
        assert texts[gap] == if gap % 2 == 1 then d else e;
      }
    }
  }

  /** Servers any number of serials apart: some renders put two texts under one serial. */
  lemma GapCollides(x: Site, y: Site, directive: string, initial: int, c: string, d: string, e: string)
    requires Ready(x.h, directive) && Ready(y.h, directive) && 0 <= initial < MODULUS
    requires x.h.unwrapped > y.h.unwrapped && ThreeTexts(c, d, e, directive)
    requires Content(x.h.server.zone) != Content(c) && Content(y.h.server.zone) != Content(c)
    ensures var texts := Colliding(c, d, e, x.h.unwrapped - y.h.unwrapped);
            && AllRenderable(texts, directive)
            && !OneZonePerSerial(Zones(RenderAll(x, texts, initial), RenderAll(y, texts, initial)))
  {
    hide Content, Ready, Renderable, RenderAll, Alternate, AllRenderable;
    var gap := x.h.unwrapped - y.h.unwrapped;
    var texts := Colliding(c, d, e, gap);
    CollidingAlternates(x.h.server.zone, c, d, e, gap, directive);
    CollidingAlternates(y.h.server.zone, c, d, e, gap, directive);
    ServesEach(x, texts, initial, directive, 0);
    ServesEach(y, texts, initial, directive, gap);
    var x', y' := RenderAll(x, texts, initial), RenderAll(y, texts, initial);
    var v :| v in x'.served && v.at == x.h.unwrapped + 1 && v.content == Content(texts[0]);
    var w :| w in y'.served && w.at == y.h.unwrapped + gap + 1 && w.content == Content(texts[gap]);
    assert v in Zones(x', y') && w in Zones(x', y') && v.at == w.at && v != w;
  }

  /** One serial and different record files: one render is enough. */
  lemma OtherRecordsCollide(x: Site, y: Site, directive: string, initial: int, c: string)
    requires Ready(x.h, directive) && Ready(y.h, directive) && 0 <= initial < MODULUS && Renderable(c, directive)
    requires x.h.unwrapped == y.h.unwrapped && x.h.server.records.Some? && y.h.server.records.Some?
    requires x.h.server.records != y.h.server.records
    requires Content(x.h.server.zone) != Content(c) && Content(y.h.server.zone) != Content(c)
    ensures !OneZonePerSerial(Zones(RenderAll(x, [c], initial), RenderAll(y, [c], initial)))
  {
    hide Content, Ready, Renderable, Rendered, Follow;
    OneRender(x, c, initial, directive);
    OneRender(y, c, initial, directive);
    var x', y' := RenderAll(x, [c], initial), RenderAll(y, [c], initial);
    assert [c][1..] == [];
    var x1, y1 := Follow(x, Rendered(x.h, c, initial, Restarted)), Follow(y, Rendered(y.h, c, initial, Restarted));
    assert RenderAll(x1, [c][1..], initial) == x1 && RenderAll(y1, [c][1..], initial) == y1;
    assert x' == x1 && y' == y1;
    var v, w := x'.served[|x.served|], y'.served[|y.served|];
    assert v in Zones(x', y') && w in Zones(x', y') && v.at == w.at && v != w;
  }

  /** Whatever complete renders follow, one serial stands for one zone. */
  ghost predicate RendersAreSafe(x: Site, y: Site, directive: string, initial: int) {
    forall texts | AllRenderable(texts, directive) ::
      var n := AfterAll(x, y, directive, Plays(texts, initial));
      OneZonePerSerial(Zones(n.0, n.1))
  }

  lemma {:induction false} AgreedPlaysAreSafe(x: Site, y: Site, directive: string, texts: seq<string>, initial: int)
    requires Kept(x, y, directive) && Agree(x, y) && AllRenderable(texts, directive) && 0 <= initial < MODULUS
    ensures OneZonePerSerial(Zones(RenderAll(x, texts, initial), RenderAll(y, texts, initial)))
    decreases |texts|
  {
    hide Kept, Agree, Renderable, Rendered, Follow, Zones, OneZonePerSerial;
    if texts == [] {
      SoundIsOneZone(x, y, directive);
    } else {
      assert texts[0] in texts;
      OnePlayKeepsAgreement(x, y, directive, texts[0], initial);
      AgreedPlaysAreSafe(Follow(x, Rendered(x.h, texts[0], initial, Restarted)),
                         Follow(y, Rendered(y.h, texts[0], initial, Restarted)), directive, texts[1..], initial);
    }
  }

  lemma OnePlayKeepsAgreement(x: Site, y: Site, directive: string, text: string, initial: int)
    requires Kept(x, y, directive) && Agree(x, y) && Renderable(text, directive) && 0 <= initial < MODULUS
    ensures var x', y' := Follow(x, Rendered(x.h, text, initial, Restarted)),
                          Follow(y, Rendered(y.h, text, initial, Restarted));
            Kept(x', y', directive) && Agree(x', y')
  {
    hide SerialOf, Content, Contains, HasPlaceholderLine, HistoryOk, Covered, OneZonePerSerial;
    hide Renderable, Rendered, Follow, Zones, Shown;
    RenderStep(x.h, text, initial, Restarted, directive);
    RenderStep(y.h, text, initial, Restarted, directive);
    var a, b := Rendered(x.h, text, initial, Restarted), Rendered(y.h, text, initial, Restarted);
    RenderTogether(x, y, a, b, text, directive);
    FollowKeeps(x, a);
    FollowKeeps(y, b);
  }

  lemma SoundIsReady(x: Site, y: Site, directive: string)
    requires Sound(x, y, directive) && x.h.server.records.Some? && y.h.server.records.Some?
    ensures Ready(x.h, directive) && Ready(y.h, directive)
  {
    hide Sound, HistoryOk, Reached, HasPlaceholderLine;
    SoundServers(x, y, directive);
  }

  lemma ZonesSwap(x: Site, y: Site)
    ensures Zones(x, y) == Zones(y, x)
  {
  }

  /** Renders are safe exactly for servers that agree.  In every state that rounds
      and renders may lead to, with record files on both servers: every list of
      complete renders keeps one zone per serial if and only if the servers agree
      on serial, records and text. */
  lemma RendersAreExact(x: Site, y: Site, directive: string, initial: int, c: string, d: string, e: string)
    requires Sound(x, y, directive) && 0 <= initial < MODULUS
    requires x.h.server.records.Some? && y.h.server.records.Some?
    requires ThreeTexts(c, d, e, directive)
    requires Content(x.h.server.zone) != Content(c) && Content(y.h.server.zone) != Content(c)
    ensures Agree(x, y) <==> RendersAreSafe(x, y, directive, initial)
  {
    hide Content, Ready, Renderable, RenderAll, Zones, OneZonePerSerial, Kept, Leads, Colliding, Plays, AfterAll;
    SoundIsReady(x, y, directive);
    SameTextIsKept(x, y, directive);
    if Agree(x, y) {
      forall texts | AllRenderable(texts, directive)
        ensures var n := AfterAll(x, y, directive, Plays(texts, initial)); OneZonePerSerial(Zones(n.0, n.1))
      {
        PlaysAreSeparate(x, y, directive, texts, initial);
        AgreedPlaysAreSafe(x, y, directive, texts, initial);
      }
    } else if x.h.unwrapped > y.h.unwrapped {
      GapCollides(x, y, directive, initial, c, d, e);
      PlaysAreSeparate(x, y, directive, Colliding(c, d, e, x.h.unwrapped - y.h.unwrapped), initial);
    } else if x.h.unwrapped < y.h.unwrapped {
      GapCollides(y, x, directive, initial, c, d, e);
      var texts := Colliding(c, d, e, y.h.unwrapped - x.h.unwrapped);
      ZonesSwap(RenderAll(x, texts, initial), RenderAll(y, texts, initial));
      PlaysAreSeparate(x, y, directive, texts, initial);
    } else {
      SameSerialSameText(x, y, directive);
      OtherRecordsCollide(x, y, directive, initial, c);
      PlaysAreSeparate(x, y, directive, [c], initial);
      assert AllRenderable([c], directive);
    }
  }

  lemma SameSerialSameText(x: Site, y: Site, directive: string)
    requires Sound(x, y, directive) && x.h.unwrapped == y.h.unwrapped
    ensures SameText(x, y)
  {
  }

  // ----- rounds are safe exactly for servers with the same text -----

  /** An uninterrupted round after a render that reached only one server publishes
      two texts under one serial, with its records on both: complete, and wrong. */
  lemma RoundOverUnfinishedRender(x: Site, y: Site, directive: string, t: Attempt)
    requires Leads(x, y, directive) && t.desired != "" && t.first.Uninterrupted() && t.second.Uninterrupted()
    ensures Outcome(x.h, y.h, directive, t).Complete()
    ensures var (x', y') := After(x, y, directive, RoleRound(t));
            && !OneZonePerSerial(Zones(x', y'))
            && x'.h.unwrapped == y'.h.unwrapped && x'.h.server.records == y'.h.server.records == Some(t.desired)
  {
    hide SerialOf, Content, Contains, HasPlaceholderLine, Covered, Shown, Follow;
    hide UpdateOutcome, ChooseTarget, Reload, Distance, NeedsReload, Observe, Zones, HistoryOk;
    var aim := x.h.unwrapped + 1;
    LeadAims(x, y, directive, t);
    LeadLoads(x, y, directive, t);
    var n := Next(x.h, y.h, directive, t);
    LastServed(x, n.0, aim, t.desired);
    LastServed(y, n.1, aim, t.desired);
    var x', y' := Follow(x, n.0), Follow(y, n.1);
    FollowKeeps(x, n.0);
    FollowKeeps(y, n.1);
    var v, w := x'.served[|x.served|], y'.served[|y.served|];
    InZones(x', y', v, w);
  }

  lemma InZones(x: Site, y: Site, v: Served, w: Served)
    requires v in x.served && w in y.served && v.at == w.at && v != w
    ensures !OneZonePerSerial(Zones(x, y))
  {
    assert v in Zones(x, y) && w in Zones(x, y);
  }

  lemma LastServed(x: Site, a: History, at: nat, records: string)
    requires a.loads == x.h.loads + [Load(at, records)]
    ensures Follow(x, a).served == x.served + [Served(at, Content(a.server.zone), records)]
  {
    hide Content;
  }

  lemma LeadAims(x: Site, y: Site, directive: string, t: Attempt)
    requires Leads(x, y, directive)
    ensures Aim(x.h, y.h, t.desired) == x.h.unwrapped + 1
    ensures ChooseTarget(x.h.server, y.h.server, t.desired) == Ok((x.h.unwrapped + 1) % MODULUS)
  {
    hide SerialOf, Content, Contains, HasPlaceholderLine, Covered, Shown, HistoryOk;
    hide ChooseTarget;
    AimIsTheTarget(x.h, y.h, directive, t.desired);
  }

  /** The update of one server moves it to the target and asks for a reload. */
  lemma UpdateAsksForReload(h: History, desired: string, directive: string, aim: nat, steps: nat)
    requires HistoryOk(h, directive) && IsDirective(directive) && desired != "" && steps >= 3
    requires h.unwrapped < aim <= h.unwrapped + 2
    ensures var (s, report) := UpdateOutcome(h.server, desired, directive, Some(aim % MODULUS), steps);
            && report.Ok? && NeedsReload(report.value)
            && report.value.serial == aim % MODULUS && report.value.recordsSha256 == Sha256(desired)
            && SerialOf(s.zone) == Ok(aim % MODULUS) && s.records == Some(desired)
            && Content(s.zone) == Content(h.server.zone)
            && h.unwrapped + Distance(ZoneSerial(h.server.zone), ZoneSerial(s.zone)) == aim
  {
    hide SerialOf, Content, Contains, UpdateOutcome, Distance;
    UpdateReaches(h, desired, directive, aim, steps);
    UpdateMoves(h, desired, directive, aim, steps);
    AcceptsAim(h.unwrapped, aim);
  }

  lemma LeadLoads(x: Site, y: Site, directive: string, t: Attempt)
    requires Leads(x, y, directive) && t.desired != "" && t.first.Uninterrupted() && t.second.Uninterrupted()
    ensures Outcome(x.h, y.h, directive, t).Complete()
    ensures var (a, b) := Next(x.h, y.h, directive, t);
            var aim := x.h.unwrapped + 1;
            && a.loads == x.h.loads + [Load(aim, t.desired)] && b.loads == y.h.loads + [Load(aim, t.desired)]
            && a.unwrapped == b.unwrapped == aim
            && a.server.records == b.server.records == Some(t.desired)
            && Content(a.server.zone) == Content(x.h.server.zone) && Content(b.server.zone) == Content(y.h.server.zone)
  {
    hide SerialOf, Content, Contains, HasPlaceholderLine, Covered, Shown, HistoryOk;
    hide UpdateOutcome, ChooseTarget, Distance, NeedsReload;
    var aim := x.h.unwrapped + 1;
    LeadAims(x, y, directive, t);
    UpdateAsksForReload(x.h, t.desired, directive, aim, t.first.steps);
    UpdateAsksForReload(y.h, t.desired, directive, aim, t.second.steps);
  }

  /** Role rounds are safe exactly for servers with the same text.  In every state
      that rounds and renders may lead to: every role round, stopped anywhere,
      keeps one zone per serial if and only if no render is unfinished. */
  lemma RoleRoundsAreExact(x: Site, y: Site, directive: string)
    requires Sound(x, y, directive)
    ensures SameText(x, y) <==>
              forall t: Attempt | t.desired != "" ::
                var n := After(x, y, directive, RoleRound(t)); OneZonePerSerial(Zones(n.0, n.1))
  {
    hide Content, Zones, OneZonePerSerial, After, Kept, Leads;
    SameTextIsKept(x, y, directive);
    if SameText(x, y) {
      forall t: Attempt | t.desired != ""
        ensures var n := After(x, y, directive, RoleRound(t)); OneZonePerSerial(Zones(n.0, n.1))
      {
        RoundKeepsText(x, y, directive, t);
        var n := After(x, y, directive, RoleRound(t));
        SoundIsOneZone(n.0, n.1, directive);
      }
    } else {
      var t := Attempt(".", Cut(3, true, true), Cut(3, true, true));
      if Leads(x, y, directive) {
        RoundOverUnfinishedRender(x, y, directive, t);
      } else {
        MustLead(x, y, directive);
        RoundSwaps(x, y, directive, t);
        RoundOverUnfinishedRender(y, x, directive, t);
        var n := After(x, y, directive, RoleRound(t));
        ZonesSwap(n.0, n.1);
      }
    }
  }

  /** An uninterrupted round does the same whichever server is listed first. */
  lemma RoundSwaps(x: Site, y: Site, directive: string, t: Attempt)
    requires t.first == t.second && t.first.Uninterrupted()
    ensures var (x', y') := After(x, y, directive, RoleRound(t));
            After(y, x, directive, RoleRound(t)) == (y', x')
  {
    hide SerialOf, UpdateOutcome, Reload, NeedsReload, Observe, Follow, Distance;
    TargetSwaps(x.h.server, y.h.server, t.desired);
  }

  lemma TargetSwaps(a: Server, b: Server, desired: string)
    ensures ChooseTarget(a, b, desired).Ok? <==> ChooseTarget(b, a, desired).Ok?
    ensures ChooseTarget(a, b, desired).Ok? ==> ChooseTarget(a, b, desired) == ChooseTarget(b, a, desired)
  {
    hide SerialOf, ConvergedSerial;
    var p, q := Inspect(a, desired), Inspect(b, desired);
    if p.Ok? && q.Ok? {
      ChoiceIsSymmetric(p.value.serial, q.value.serial, !p.value.recordsMatch || !q.value.recordsMatch);
    }
  }

  // ----- restarts are safe exactly for servers without two zones of one serial -----

  /** Restarts are safe exactly for servers that do not have one serial for
      different records.  In every state that rounds, renders and restarts may lead
      to, with record files on both servers. */
  lemma RestartsAreExact(x: Site, y: Site, directive: string)
    requires Sound(x, y, directive) && x.h.server.records.Some? && y.h.server.records.Some?
    ensures (x.h.unwrapped == y.h.unwrapped ==> x.h.server.records == y.h.server.records) <==>
              forall one, other ::
                var n := After(x, y, directive, Restart(one, other)); OneZonePerSerial(Zones(n.0, n.1))
  {
    hide Content, Zones, OneZonePerSerial, Base, Reopened, Follow;
    if x.h.unwrapped == y.h.unwrapped && x.h.server.records != y.h.server.records {
      RestartCollides(x, y, directive);
      var n := After(x, y, directive, Restart(true, true));
      assert !OneZonePerSerial(Zones(n.0, n.1));
    } else {
      forall one, other
        ensures var n := After(x, y, directive, Restart(one, other)); OneZonePerSerial(Zones(n.0, n.1))
      {
        RestartKeepsSound(x, y, directive, one, other);
        var n := After(x, y, directive, Restart(one, other));
        SoundIsOneZone(n.0, n.1, directive);
      }
    }
  }

  lemma RestartCollides(x: Site, y: Site, directive: string)
    requires Sound(x, y, directive) && x.h.server.records.Some? && y.h.server.records.Some?
    requires x.h.unwrapped == y.h.unwrapped && x.h.server.records != y.h.server.records
    ensures var n := After(x, y, directive, Restart(true, true)); !OneZonePerSerial(Zones(n.0, n.1))
  {
    hide Content, Zones, OneZonePerSerial, Sound, Reopened, Follow, HistoryOk, Reached;
    SoundServers(x, y, directive);
    ReopenedHistory(x.h, directive);
    ReopenedHistory(y.h, directive);
    LastServed(x, Reopened(x.h), x.h.unwrapped, x.h.server.records.value);
    LastServed(y, Reopened(y.h), y.h.unwrapped, y.h.server.records.value);
    var x', y' := Follow(x, Reopened(x.h)), Follow(y, Reopened(y.h));
    InZones(x', y', x'.served[|x.served|], y'.served[|y.served|]);
  }

  /** A round that stops on one server between zone and records, and then restarts:
      one serial for the old records on the one server and the new on the other. */
  lemma StoppedRoundAndRestartCollide(x: Site, y: Site, directive: string, t: Attempt)
    requires Kept(x, y, directive) && x.h.unwrapped == y.h.unwrapped && t.desired != ""
    requires x.h.server.records.Some? && x.h.server.records != Some(t.desired)
    requires t.first.steps == 1 && t.second.Uninterrupted()
    ensures var (x1, y1) := After(x, y, directive, RoleRound(t));
            var (x2, y2) := After(x1, y1, directive, Restart(true, true));
            Kept(x1, y1, directive) && !OneZonePerSerial(Zones(x2, y2))
  {
    hide Content, Base, After, Zones, OneZonePerSerial, Next;
    RoundKeepsText(x, y, directive, t);
    KeptHolds(x, y, directive);
    HalfUpdated(x.h, y.h, directive, t);
    FollowKeeps(x, Next(x.h, y.h, directive, t).0);
    FollowKeeps(y, Next(x.h, y.h, directive, t).1);
    var (x1, y1) := After(x, y, directive, RoleRound(t));
    assert x1.h == Next(x.h, y.h, directive, t).0 && y1.h == Next(x.h, y.h, directive, t).1 by {
      AfterRound(x, y, directive, t);
    }
    RestartCollides(x1, y1, directive);
  }

  lemma AfterRound(x: Site, y: Site, directive: string, t: Attempt)
    ensures var (x1, y1) := After(x, y, directive, RoleRound(t));
            (x1.h, y1.h) == Next(x.h, y.h, directive, t)
  {
    hide Next, Content;
  }

  lemma HalfUpdated(a: History, b: History, directive: string, t: Attempt)
    requires Inv(a, b, directive) && t.desired != "" && a.unwrapped == b.unwrapped
    requires a.server.records.Some? && a.server.records != Some(t.desired)
    requires t.first.steps == 1 && t.second.Uninterrupted()
    ensures var (a', b') := Next(a, b, directive, t);
            && a'.unwrapped == b'.unwrapped == a.unwrapped + 1
            && a'.server.records == a.server.records && b'.server.records == Some(t.desired)
  {
    hide Content, Contains, Locate, ReplaceSerial, Covered, SerialIsNewer, Distance, UpdateOutcome;
    var aim := Aim(a, b, t.desired);
    AimIsTheTarget(a, b, directive, t.desired);
    AcceptsAim(a.unwrapped, aim);
    DistanceUnwrapped(a.unwrapped, aim);
    DistanceUnwrapped(a.unwrapped, a.unwrapped);
    LocatedWhenWellFormed(a.server.zone);
    ReplaceSerialRoundTrip(a.server.zone, aim % MODULUS);
    EditKeepsIncludes(a.server.zone, aim % MODULUS, directive);
    StoppedUpdates(a, b, directive, t.(second := Cut(0, false, false)), aim);
    UpdateAsksForReload(b, t.desired, directive, aim, t.second.steps);
  }

  // ----- how the servers come to differ -----

  /** A render that reaches one of two servers that agree, and then an
      uninterrupted round: two texts under one serial on servers whose serials and
      records are the same again. */
  lemma OneSidedRenderCollides(x: Site, y: Site, directive: string, text: string, initial: int, t: Attempt)
    requires Kept(x, y, directive) && Agree(x, y) && Renderable(text, directive) && 0 <= initial < MODULUS
    requires Content(x.h.server.zone) != Content(text)
    requires t.desired != "" && t.first.Uninterrupted() && t.second.Uninterrupted()
    ensures var (x1, y1) := After(x, y, directive, Render(text, initial, Restarted, Missed));
            var (x2, y2) := After(x1, y1, directive, RoleRound(t));
            && Outcome(x1.h, y1.h, directive, t).Complete() && !OneZonePerSerial(Zones(x2, y2))
            && x2.h.unwrapped == y2.h.unwrapped && x2.h.server.records == y2.h.server.records
  {
    hide SerialOf, Content, Contains, HasPlaceholderLine, HistoryOk, Covered, OneZonePerSerial;
    hide Renderable, RenderedTo, Rendered, Follow, Zones, Shown, Leads;
    RenderStep(x.h, text, initial, Restarted, directive);
    MissedIsUntouched(y, text, initial);
    var a := Rendered(x.h, text, initial, Restarted);
    TakesTheLead(x, y, a, text, directive);
    RoundOverUnfinishedRender(Follow(x, a), y, directive, t);
  }

  lemma MissedIsUntouched(y: Site, text: string, initial: int)
    ensures Follow(y, Rendered(y.h, text, initial, Missed)) == y
  {
  }

  /** A round that stops after its first write leaves the servers one apart. */
  lemma StoppedRoundLeavesApart(a: History, b: History, directive: string, t: Attempt)
    requires Inv(a, b, directive) && t.desired != "" && a.unwrapped == b.unwrapped
    requires a.server.records != Some(t.desired) && t.first.steps == 1 && t.second.steps == 0
    ensures var (a', b') := Next(a, b, directive, t);
            && a'.unwrapped == b'.unwrapped + 1 && b'.unwrapped == b.unwrapped
            && a'.server.records == a.server.records && b'.server.records == b.server.records
            && a'.loads == a.loads && b'.loads == b.loads
  {
    hide Content, Contains, Locate, ReplaceSerial, Covered, SerialIsNewer, Distance;
    var aim := Aim(a, b, t.desired);
    AimIsTheTarget(a, b, directive, t.desired);
    AcceptsAim(a.unwrapped, aim);
    DistanceUnwrapped(a.unwrapped, aim);
    DistanceUnwrapped(b.unwrapped, b.unwrapped);
    LocatedWhenWellFormed(a.server.zone);
    ReplaceSerialRoundTrip(a.server.zone, aim % MODULUS);
    EditKeepsIncludes(a.server.zone, aim % MODULUS, directive);
    StoppedUpdates(a, b, directive, t, aim);
  }

  lemma StoppedUpdates(a: History, b: History, directive: string, t: Attempt, aim: nat)
    requires WellFormed(a.server.zone) && WellFormed(b.server.zone) && Contains(a.server.zone, directive)
    requires IsDirective(directive) && t.desired != ""
    requires SerialOf(a.server.zone) == Ok(a.unwrapped % MODULUS) && aim == a.unwrapped + 1
    requires a.server.records != Some(t.desired) && t.first.steps == 1 && t.second.steps == 0
    requires SerialIsNewer(a.unwrapped % MODULUS, aim % MODULUS) && aim % MODULUS != a.unwrapped % MODULUS
    ensures var u := UpdateOutcome(a.server, t.desired, directive, Some(aim % MODULUS), 1);
            && u.1.Err? && u.0 == a.server.(zone := ReplaceSerial(a.server.zone, aim % MODULUS).value)
            && SerialOf(u.0.zone) == Ok(aim % MODULUS)
    ensures var v := UpdateOutcome(b.server, t.desired, directive, Some(aim % MODULUS), 0);
            v.1.Err? && v.0 == b.server
  {
    hide Content, Contains, Locate, ReplaceSerial, SerialIsNewer, Distance;
    LocatedWhenWellFormed(a.server.zone);
    ReplaceSerialRoundTrip(a.server.zone, aim % MODULUS);
    EditKeepsIncludes(a.server.zone, aim % MODULUS, directive);
  }
}
