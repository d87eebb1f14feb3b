/** The conditions behind the merge: lower-case zone names for apex owners, and
    configured record types written as the filter compares them. */
module StaticCase {
  import opened Wrappers
  import opened Text
  import opened Sequences
  import opened Dns
  import opened StaticRecords
  import opened StaticMerge
  import opened StaticProperties
  import opened StaticOwners

  /** The owner as DNS compares it: names are case-insensitive, the apex too. */
  function TrueOwner(c: Claim): Result<string> {
    if c.record.name == "@" then Ok(Lower(c.zone)) else Owner(c)
  }

  ghost predicate TrulyFine(names: set<string>, runtime: set<string>, c: Claim) {
    && TrueOwner(c).Ok?
    && !(IsAlias(c.record.kind) && TrueOwner(c).value in names)
    && TrueOwner(c).value !in runtime
  }

  /** What the filter is meant to accept. */
  ghost predicate Proper(inp: Input) {
    var runtime := DnsName(RstripDots(inp.runtimeZone));
    var names := ByName(inp.zones);
    && runtime.Ok? && ZonesFine(inp.zones)
    && (forall s | s in inp.statics :: KnownForward(inp.zones, names, s.0))
    && (forall p | p in Pairs(inp.statics) :: Expand(inp.zones, names, p.0, p.1).Ok?)
    && (forall c | c in AllClaims(inp) :: TrulyFine(names.Keys, RuntimeOwners(runtime.value), c))
    && DistinctBy(AllClaims(inp), TrueOwner)
  }

  ghost predicate LowerZones(inp: Input) {
    forall z | z in inp.zones :: Lower(z.name) == z.name
  }

  /** An alias, as DNS reads types, is written CNAME. */
  predicate PlainType(kind: string) {
    IsAlias(kind) ==> kind == CNAME
  }

  /** The records configured in managed zones have types that satisfy this. */
  ghost predicate PlainTypes(inp: Input) {
    forall z, r | z in inp.zones && z.managed && r in z.records :: PlainType(r.kind)
  }

  predicate WrittenKind(kind: string) {
    kind == A || kind == CNAME || kind == PTR
  }

  /** A claim's type is configured in a managed zone, or written by the program. */
  lemma ClaimKind(inp: Input, c: Claim)
    requires c in AllClaims(inp)
    ensures WrittenKind(c.record.kind)
            || exists z, r :: z in inp.zones && z.managed && r in z.records && r.kind == c.record.kind
  {
    hide HostRecords, ByName, Placements, WrittenKind;
    if c in FlatMap(inp.zones, ZoneClaims(inp.hosts)) {
      FlatMapContains(inp.zones, ZoneClaims(inp.hosts), c);
      var z :| z in inp.zones && c in ZoneClaims(inp.hosts)(z);
      ZoneClaimKind(inp.hosts, z, c);
    } else {
      var f := PlacedClaim(inp.zones, ByName(inp.zones));
      FlatMapContains(Placements(inp), f, c);
      var p :| p in Placements(inp) && c in f(p);
      PlacementKind(inp, p);
    }
  }

  lemma ZoneClaimKind(hosts: seq<Host>, z: Zone, c: Claim)
    requires c in ZoneClaims(hosts)(z)
    ensures WrittenKind(c.record.kind) || (z.managed && exists r :: r in z.records && r.kind == c.record.kind)
  {
    hide HostRecords, WrittenKind;
    if c in ClaimsIn(z.name, z.records) {
      FlatMapContains(z.records, ClaimIn(z.name), c);
    } else {
      FlatMapContains(hosts, ClaimsFor(z), c);
      var h :| h in hosts && c in ClaimsFor(z)(h);
      FlatMapContains(HostRecords(z, h), ClaimIn(z.name), c);
      HostRecordKinds(z, h);
    }
  }

  lemma HostRecordKinds(z: Zone, h: Host)
    ensures forall r | r in HostRecords(z, h) :: WrittenKind(r.kind)
  {
    hide ReverseZoneName, Split, RstripDots, Relative;
    forall r | r in FlatMap(h.aliases, AliasRecords(z, h))
      ensures r.kind == A
    {
      FlatMapContains(h.aliases, AliasRecords(z, h), r);
    }
  }

  lemma PlacementKind(inp: Input, p: Placement)
    requires p in Placements(inp)
    ensures WrittenKind(p.record.kind)
  {
    hide Pairs, ByName, IsIpv4, DnsName, AbsoluteName, Split, ReverseZoneName;
    FlatMapContains(Pairs(inp.statics), Expansion(inp.zones, ByName(inp.zones)), p);
  }

  lemma ClaimsArePlain(inp: Input)
    requires PlainTypes(inp)
    ensures forall c | c in AllClaims(inp) :: PlainType(c.record.kind)
  {
    hide AllClaims, IsAlias;
    WrittenKinds();
    forall c | c in AllClaims(inp)
      ensures PlainType(c.record.kind)
    {
      ClaimKind(inp, c);
    }
  }

  /** With lower-case zone names and plain types the filter accepts exactly the
      proper inputs. */
  lemma LowerCaseIsEnough(inp: Input)
    requires LowerZones(inp) && PlainTypes(inp)
    ensures Accepted(inp) <==> Proper(inp)
  {
    hide ZonesFine, Expand, ByName, KnownForward, Pairs, Owner, AllClaims, RuntimeOwners, DnsName, Lower, IsAlias;
    ClaimsArePlain(inp);
    WrittenKinds();
    forall c | c in AllClaims(inp)
      ensures TrueOwner(c) == Owner(c)
    {
      ClaimIsInAZone(inp, c);
      ApexOwner(c);
    }
    var claims := AllClaims(inp);
    assert forall i | 0 <= i < |claims| :: claims[i] in claims;
  }

  lemma ApexOwner(c: Claim)
    ensures c.record.name == "@" ==> Owner(c) == Ok(c.zone)
  {
  }

  /** The zones of an input carry these names, in this order. */
  ghost predicate Names(inp: Input, names: seq<string>) {
    |inp.zones| == |names| && forall k | 0 <= k < |names| :: inp.zones[k].name == names[k]
  }

  /** Names that can be zone names together. */
  ghost predicate ZoneNames(names: seq<string>) {
    && (forall n | n in names :: DnsName(n).Ok?)
    && forall k, m | 0 <= k < m < |names| :: Lower(names[k]) != Lower(names[m])
  }

  ghost predicate AllLower(names: seq<string>) {
    forall n | n in names :: Lower(n) == n
  }

  /** The types configured in managed zones are among these. */
  ghost predicate Types(inp: Input, types: seq<string>) {
    forall z, r | z in inp.zones && z.managed && r in z.records :: r.kind in types
  }

  ghost predicate AllPlain(types: seq<string>) {
    forall t | t in types :: PlainType(t)
  }

  /** Zones of these names, only the i-th managed. */
  function SoleZone(names: seq<string>, i: nat, mode: Mode, records: seq<Record>, k: nat): Zone
    requires i < |names| && k < |names|
  {
    if k == i then Zone(names[k], true, mode, records) else Zone(names[k], false, NoInventory, [])
  }

  lemma {:induction false} OnlyOne<T, U>(s: seq<T>, i: nat, f: T -> seq<U>)
    requires i < |s| && forall k | 0 <= k < |s| && k != i :: f(s[k]) == []
    ensures FlatMap(s, f) == f(s[i])
  {
    hide FlatMap;
    assert s == s[..i] + ([s[i]] + s[i + 1..]);
    FlatMapAppend(s[..i], [s[i]] + s[i + 1..], f);
    FlatMapAppend([s[i]], s[i + 1..], f);
    FlatMapOne(s[i], f);
    FlatMapEmpty(s[..i], f);
    FlatMapEmpty(s[i + 1..], f);
  }

  lemma WithoutStatics(inp: Input)
    requires inp.statics == []
    ensures AllClaims(inp) == FlatMap(inp.zones, ZoneClaims(inp.hosts))
    ensures Accepted(inp) <==>
              var runtime := DnsName(RstripDots(inp.runtimeZone));
              && runtime.Ok? && ZonesFine(inp.zones)
              && (forall c | c in AllClaims(inp) :: Fine(ByName(inp.zones).Keys, RuntimeOwners(runtime.value), c))
              && DistinctBy(AllClaims(inp), Owner)
  {
    hide DnsName, ByName, RuntimeOwners, Fine, Owner, ZoneClaims, ZonesFine, DistinctBy, RstripDots;
    assert Pairs(inp.statics) == [];
    assert Placements(inp) == [];
    assert StaticClaims(inp) == [];
  }

  lemma SoleClaims(names: seq<string>, i: nat, mode: Mode, records: seq<Record>, hosts: seq<Host>, zones: seq<Zone>)
    requires i < |names| == |zones|
    requires forall k | 0 <= k < |names| :: zones[k] == SoleZone(names, i, mode, records, k)
    ensures FlatMap(zones, ZoneClaims(hosts)) == ClaimsIn(names[i], records) + FlatMap(hosts, ClaimsFor(zones[i]))
  {
    hide ZoneClaims, FlatMap, ClaimsIn, ClaimsFor;
    forall k | 0 <= k < |names|
      ensures ZoneClaims(hosts)(zones[k]) ==
              if k == i then ClaimsIn(names[i], records) + FlatMap(hosts, ClaimsFor(zones[i])) else []
    {
      ClaimsOfZone(hosts, zones[k]);
    }
    OnlyOne(zones, i, ZoneClaims(hosts));
  }

  /** An input that claims one zone's records, and nothing else. */
  lemma SoleRecords(names: seq<string>, i: nat, mode: Mode, records: seq<Record>, hosts: seq<Host>, runtime: string)
    returns (inp: Input)
    requires ZoneNames(names) && i < |names| && DnsName(runtime).Ok?
    ensures Names(inp, names) && inp.hosts == hosts && inp.zones[i] == Zone(names[i], true, mode, records)
    ensures forall z | z in inp.zones && z.managed :: z == inp.zones[i]
    ensures AllClaims(inp) == ClaimsIn(names[i], records) + FlatMap(hosts, ClaimsFor(inp.zones[i]))
    ensures Accepted(inp) <==>
              && (forall c | c in AllClaims(inp) :: Fine(ByName(inp.zones).Keys, RuntimeOwners(Lower(runtime)), c))
              && DistinctBy(AllClaims(inp), Owner)
    ensures ByName(inp.zones).Keys == set n | n in names :: Lower(n)
  {
    hide DnsName, Lower, ByName, RuntimeOwners, Fine, Owner, ZoneClaims, FlatMap, AllClaims, Accepted, RstripDots;
    hide ClaimsIn, ClaimsFor, DistinctBy;
    inp := Input(seq(|names|, k requires 0 <= k < |names| => SoleZone(names, i, mode, records, k)), [], hosts, runtime);
    assert forall k | 0 <= k < |names| :: inp.zones[k] == SoleZone(names, i, mode, records, k);
    SoleClaims(names, i, mode, records, hosts, inp.zones);
    WithoutStatics(inp);
    SoleKeys(inp, names);
    RuntimeZoneOf(runtime);
    SoleAreFine(inp, names);
  }

  lemma SoleAreFine(inp: Input, names: seq<string>)
    requires Names(inp, names) && ZoneNames(names)
    ensures ZonesFine(inp.zones)
  {
    hide DnsName, Lower;
    assert forall k | 0 <= k < |names| :: names[k] in names && ZoneKey(inp.zones[k]) == Lower(names[k]);
  }

  lemma ClaimsOfZone(hosts: seq<Host>, z: Zone)
    ensures ZoneClaims(hosts)(z) ==
            if z.managed then ClaimsIn(z.name, z.records) + FlatMap(hosts, ClaimsFor(z)) else []
  {
  }

  lemma SoleKeys(inp: Input, names: seq<string>)
    requires Names(inp, names)
    ensures ByName(inp.zones).Keys == set n | n in names :: Lower(n)
  {
    hide Lower, ByName;
    ByNameKeys(inp.zones);
    assert forall k | 0 <= k < |names| :: ZoneKey(inp.zones[k]) == Lower(names[k]);
    forall n | n in names
      ensures Lower(n) in ByName(inp.zones)
    {
      var k :| 0 <= k < |names| && names[k] == n;
      assert ZoneKey(inp.zones[k]) in ByName(inp.zones);
    }
    forall key | key in ByName(inp.zones)
      ensures exists n :: n in names && Lower(n) == key
    {
      var k := ByName(inp.zones)[key];
      assert names[k] in names && Lower(names[k]) == key;
    }
  }

  /** A single record at the apex of a single managed zone. */
  lemma SoleApex(names: seq<string>, i: nat, kind: string) returns (inp: Input, c: Claim)
    requires ZoneNames(names) && i < |names| && (Lower(names[i]) != names[i] || kind != CNAME)
    ensures Names(inp, names) && Types(inp, [kind]) && Accepted(inp) && TemplateReady(inp)
    ensures AllClaims(inp) == [c] && c == Claim(names[i], Record("@", kind, "", None))
    ensures Lower(names[i]) in ByName(inp.zones)
  {
    hide DnsName, Lower, ByName, RuntimeOwners, AllClaims, Accepted, FlatMap;
    var record := Record("@", kind, "", None);
    inp := SoleRecords(names, i, NoInventory, [record], [], names[i]);
    c := Claim(names[i], record);
    FlatMapOne(record, ClaimIn(names[i]));
    FlatMapEmpty([], ClaimsFor(inp.zones[i]));
    assert AllClaims(inp) == [c];
    RuntimeZoneOf(names[i]);
    if Lower(names[i]) != names[i] {
      CapitalIsNoKey(names, names[i]);
    }
  }

  /** An alias at the apex of a zone that the filter does not see as one: its zone
      has a capital letter, or its type is not written CNAME. */
  lemma ApexAlias(names: seq<string>, i: nat, kind: string) returns (inp: Input, c: Claim)
    requires ZoneNames(names) && i < |names| && IsAlias(kind) && (Lower(names[i]) != names[i] || kind != CNAME)
    ensures Names(inp, names) && Types(inp, [kind]) && Accepted(inp) && TemplateReady(inp)
    ensures AllClaims(inp) == [c] && c == Claim(names[i], Record("@", kind, "", None))
    ensures !Proper(inp) && !DefinedOnce(inp)
  {
    hide DnsName, Lower, ByName, IsAlias, Proper, DefinedOnce, Accepted, TemplateReady, AllClaims, Types;
    inp, c := SoleApex(names, i, kind);
    NotProper(inp, c);
    ApexIsRendered(inp, c);
  }

  lemma CapitalIsNoKey(names: seq<string>, name: string)
    requires Lower(name) != name
    ensures name !in set n | n in names :: Lower(n)
  {
    hide Lower;
    forall n | n in names
      ensures Lower(n) != name
    {
      LowerIsIdempotent(n);
    }
  }

  /** Whatever the zone names, one capital letter lets an alias stand at the
      apex of that zone. */
  lemma CapitalApex(names: seq<string>, i: nat) returns (inp: Input, c: Claim)
    requires ZoneNames(names) && i < |names| && Lower(names[i]) != names[i]
    ensures Names(inp, names) && Types(inp, [CNAME]) && Accepted(inp) && TemplateReady(inp)
    ensures AllClaims(inp) == [c] && c.record.kind == CNAME && c.record.name == "@" && c.zone == names[i]
    ensures !Proper(inp) && !DefinedOnce(inp)
  {
    hide Accepted, TemplateReady, Proper, DefinedOnce, Lower, DnsName;
    WrittenKinds();
    inp, c := ApexAlias(names, i, CNAME);
  }

  /** And whatever the zone names, lower case included, so does a type that DNS
      reads as an alias and the filter does not. */
  lemma UnseenAlias(names: seq<string>, i: nat, kind: string) returns (inp: Input, c: Claim)
    requires ZoneNames(names) && i < |names| && !PlainType(kind)
    ensures Names(inp, names) && Types(inp, [kind]) && Accepted(inp) && TemplateReady(inp)
    ensures AllClaims(inp) == [c] && c.record.kind == kind && c.record.name == "@" && c.zone == names[i]
    ensures !Proper(inp) && !DefinedOnce(inp)
  {
    hide Accepted, TemplateReady, Proper, DefinedOnce, Lower, DnsName, IsAlias;
    inp, c := ApexAlias(names, i, kind);
  }

  /** A type in small letters is such a type: an accepted input over the zone "b"
      with an alias beside its SOA and NS records. */
  lemma SmallAlias() returns (inp: Input, c: Claim)
    ensures Names(inp, ["b"]) && LowerZones(inp) && Accepted(inp) && TemplateReady(inp)
    ensures AllClaims(inp) == [c] && c.record.kind == "cname"
    ensures !Proper(inp) && !DefinedOnce(inp)
  {
    hide Accepted, TemplateReady, Proper, DefinedOnce, Lower, DnsName;
    MeetingNames();
    LowerWithoutCapitals("cname");
    assert "cname"[0] != CNAME[0];
    inp, c := UnseenAlias(["b"], 0, "cname");
  }

  lemma RuntimeZoneOf(name: string)
    requires DnsName(name).Ok?
    ensures DnsName(RstripDots(name)) == Ok(Lower(name))
    ensures name !in RuntimeOwners(Lower(name)) && Lower(name) !in RuntimeOwners(Lower(name))
  {
    hide IsName, Lower;
    ValidNameHasNoDotAtTheEnd(name);
    NoDotNoStrip(name);
    LowerIsIdempotent(name);
    assert forall o | o in RuntimeOwners(Lower(name)) :: |o| > |name|;
  }

  /** Exactly when the filter does what it is meant to do, whatever is declared:
      when the zone names are in lower case and the configured types, CNAME among
      them, are plain. */
  lemma LowerCaseIsExact(names: seq<string>, types: seq<string>)
    requires ZoneNames(names) && names != [] && CNAME in types
    ensures AllLower(names) && AllPlain(types) <==>
              forall inp: Input | Names(inp, names) && Types(inp, types) :: Accepted(inp) <==> Proper(inp)
  {
    hide Accepted, Proper, Lower, DnsName, TrueOwner, PlainType, TemplateReady;
    if AllLower(names) && AllPlain(types) {
      forall inp: Input | Names(inp, names) && Types(inp, types)
        ensures Accepted(inp) <==> Proper(inp)
      {
        NamesAreLower(inp, names);
        LowerCaseIsEnough(inp);
      }
    } else if !AllLower(names) {
      var i :| 0 <= i < |names| && Lower(names[i]) != names[i];
      var inp, c := CapitalApex(names, i);
    } else {
      var t :| t in types && !PlainType(t);
      var inp, c := UnseenAlias(names, 0, t);
    }
  }

  lemma NamesAreLower(inp: Input, names: seq<string>)
    requires Names(inp, names) && AllLower(names)
    ensures LowerZones(inp)
  {
    hide Lower;
    forall z | z in inp.zones
      ensures Lower(z.name) == z.name
    {
      var k :| 0 <= k < |inp.zones| && inp.zones[k] == z;
      assert names[k] in names;
    }
  }

  lemma NotProper(inp: Input, c: Claim)
    requires AllClaims(inp) == [c] && IsAlias(c.record.kind)
    requires TrueOwner(c).Ok? && TrueOwner(c).value in ByName(inp.zones)
    ensures !Proper(inp)
  {
    hide IsAlias, ByName, AllClaims, TrueOwner, ZonesFine, Expand, KnownForward, Pairs, RuntimeOwners, DnsName;
    assert c in AllClaims(inp);
  }

  // ----- what is rendered -----

  /** Over all rendered managed zones and the reserved runtime aliases: every DNS
      name is defined once, names compared without case, and no alias stands
      beside a zone's SOA and NS records. */
  ghost predicate DefinedOnce(inp: Input) {
    var rendered := FlatMap(Output(inp), RenderedIn(inp.hosts));
    var runtime := DnsName(RstripDots(inp.runtimeZone));
    && runtime.Ok?
    && DistinctBy(rendered, TrueOwner)
    && forall c | c in rendered ::
         && TrueOwner(c).Ok? && TrueOwner(c).value !in RuntimeOwners(runtime.value)
         && (IsAlias(c.record.kind) ==> TrueOwner(c).value !in ByName(inp.zones))
  }

  /** With lower-case zone names and plain types, every accepted input renders to
      zones in which every name is defined once. */
  lemma RenderedOwnersAreDistinct(inp: Input)
    requires Accepted(inp) && Renderable(inp) && LowerZones(inp) && PlainTypes(inp)
    ensures DefinedOnce(inp)
  {
    hide Accepted, Renderable, Output, RenderedIn, ByName, Owner, RuntimeOwners, DnsName, Lower, AllClaims;
    hide TrueOwner, FlatMap, RstripDots, PlainTypes;
    var rendered := FlatMap(Output(inp), RenderedIn(inp.hosts));
    RenderedHaveClaims(inp);
    RuntimeIsValid(inp);
    forall c | c in rendered
      ensures TrueOwner(c) == Owner(c) && RightlyOwned(inp, c)
    {
      var d :| d in AllClaims(inp) && Slot(d) == Slot(c);
      SlotKeepsTheOwner(c, d);
      ClaimIsInAZone(inp, d);
      OwnerInLowerZone(c);
      ClaimIsRight(inp, d);
    }
    assert forall k | 0 <= k < |rendered| :: rendered[k] in rendered;
  }

  ghost predicate RightlyOwned(inp: Input, c: Claim)
    requires DnsName(RstripDots(inp.runtimeZone)).Ok?
  {
    && Owner(c).Ok? && Owner(c).value !in RuntimeOwners(DnsName(RstripDots(inp.runtimeZone)).value)
    && (IsAlias(c.record.kind) ==> Owner(c).value !in ByName(inp.zones))
  }

  lemma ClaimIsRight(inp: Input, c: Claim)
    requires Accepted(inp) && PlainTypes(inp) && c in AllClaims(inp)
    ensures DnsName(RstripDots(inp.runtimeZone)).Ok? && RightlyOwned(inp, c)
  {
    hide DnsName, RuntimeOwners, ByName, Owner, AllClaims, IsAlias, ZonesFine, Expand, KnownForward, Pairs;
    ClaimsArePlain(inp);
  }

  lemma RuntimeIsValid(inp: Input)
    requires Accepted(inp)
    ensures DnsName(RstripDots(inp.runtimeZone)).Ok?
  {
    hide DnsName;
  }

  lemma OwnerInLowerZone(c: Claim)
    requires Lower(c.zone) == c.zone
    ensures TrueOwner(c) == Owner(c)
  {
    hide DnsName, Lower;
  }

  /** And this is exactly what it takes: for any zone names and any configured types,
      CNAME among them, every accepted input defines every name once if and only if
      the names are in lower case and the types are plain. */
  lemma RenderedOwnersAreExact(names: seq<string>, types: seq<string>)
    requires ZoneNames(names) && names != [] && CNAME in types
    ensures AllLower(names) && AllPlain(types) <==>
              forall inp: Input | Names(inp, names) && Types(inp, types) && Accepted(inp) && Renderable(inp) ::
                DefinedOnce(inp)
  {
    hide Accepted, TemplateReady, Renderable, DefinedOnce, Lower, DnsName, TrueOwner, PlainType, Proper;
    if AllLower(names) && AllPlain(types) {
      forall inp: Input | Names(inp, names) && Types(inp, types) && Accepted(inp) && Renderable(inp)
        ensures DefinedOnce(inp)
      {
        NamesAreLower(inp, names);
        RenderedOwnersAreDistinct(inp);
      }
    } else if !AllLower(names) {
      var i :| 0 <= i < |names| && Lower(names[i]) != names[i];
      var inp, c := CapitalApex(names, i);
      ReadyIsRenderable(inp);
    } else {
      var t :| t in types && !PlainType(t);
      var inp, c := UnseenAlias(names, 0, t);
      ReadyIsRenderable(inp);
    }
  }

  lemma ApexIsRendered(inp: Input, c: Claim)
    requires Accepted(inp) && TemplateReady(inp) && AllClaims(inp) == [c] && IsAlias(c.record.kind)
    requires TrueOwner(c).Ok? && TrueOwner(c).value in ByName(inp.zones)
    ensures !DefinedOnce(inp)
  {
    hide IsAlias, Accepted, TemplateReady, Output, RenderedIn, ByName, AllClaims, RuntimeOwners, DnsName, TrueOwner;
    hide FlatMap;
    RenderedAreTheClaims(inp);
    var rendered := FlatMap(Output(inp), RenderedIn(inp.hosts));
    assert c in multiset([c]);
    assert c in multiset(rendered);
  }

  /** Two zones can even define one DNS name twice: a.b as a record of the zone
      "b", and as the apex of the zone "A.b". */
  lemma OwnersMeetAcrossZones() returns (inp: Input, c: Claim, d: Claim)
    ensures Names(inp, ["b", "A.b"]) && Accepted(inp) && TemplateReady(inp)
    ensures AllClaims(inp) == [c, d] && c.zone == "b" && d.zone == "A.b"
    ensures TrueOwner(c) == TrueOwner(d) == Ok("a.b") && Owner(c) != Owner(d)
    ensures !DefinedOnce(inp)
  {
    hide DnsName, Output, RenderedIn, RuntimeOwners;
    var first, second := Record("a", A, "192.0.2.1", None), Record("@", A, "192.0.2.2", None);
    var outer, inner := Zone("b", true, NoInventory, [first]), Zone("A.b", true, NoInventory, [second]);
    inp := Input([outer, inner], [], [], "b");
    c, d := Claim("b", first), Claim("A.b", second);
    MeetingNames();
    FlatMapOne(first, ClaimIn("b"));
    FlatMapOne(second, ClaimIn("A.b"));
    FlatMapOne(inner, ZoneClaims([]));
    assert inp.zones == [outer] + [inner];
    FlatMapAppend([outer], [inner], ZoneClaims([]));
    FlatMapOne(outer, ZoneClaims([]));
    assert ZoneClaims([])(outer) == [c] && ZoneClaims([])(inner) == [d];
    assert AllClaims(inp) == [c, d];
    assert inp.zones[..1] == [outer] && inp.zones[..1][..0] == [];
    assert first.name != "@" && "a" + "." + "b" == "a.b";
    assert Owner(c) == Ok("a.b") && Owner(d) == Ok("A.b");
    assert Accepted(inp);
    MeetIsRendered(inp, c, d);
  }

  lemma MeetingNames()
    ensures DnsName("b") == Ok("b") && DnsName("A.b") == Ok("a.b") && DnsName("a.b") == Ok("a.b")
    ensures Lower("b") == "b" && Lower("A.b") == "a.b" && RstripDots("b") == "b"
    ensures "a.b" !in RuntimeOwners("b") && "A.b" !in RuntimeOwners("b")
  {
    hide IsName, IsLabel;
    ShortLabels();
    TwoLabels("A", "b");
    TwoLabels("a", "b");
    assert "A.b" == "A" + "." + "b" && "a.b" == "a" + "." + "b";
    ShortLower();
    assert forall o | o in RuntimeOwners("b") :: |o| > 3;
  }

  lemma ShortLabels()
    ensures IsLabel("a") && IsLabel("A") && IsLabel("b") && '.' !in "a" && '.' !in "A" && '.' !in "b"
    ensures IsName("b") <==> IsLabel("b")
  {
    SplitPart("b", "", '.');
  }

  lemma TwoLabels(first: string, second: string)
    requires IsLabel(first) && IsLabel(second) && '.' !in first && '.' !in second
    ensures IsName(first + "." + second)
  {
    hide IsLabel, Split;
    SplitPart(second, "", '.');
    SplitPart(first, second, '.');
    LabelLength(first);
    LabelLength(second);
  }

  lemma LabelLength(part: string)
    requires IsLabel(part)
    ensures |part| <= 63
  {
  }

  lemma ShortLower()
    ensures Lower("b") == "b" && Lower("A.b") == "a.b" && Lower("a.b") == "a.b"
  {
    assert Lower("") == "";
    assert "b"[1..] == "";
    assert ".b"[1..] == "b" && "A.b"[1..] == ".b" && "a.b"[1..] == ".b";
    assert Lower(".b") == "." + Lower("b");
  }

  lemma MeetIsRendered(inp: Input, c: Claim, d: Claim)
    requires Accepted(inp) && TemplateReady(inp) && AllClaims(inp) == [c, d]
    requires TrueOwner(c) == TrueOwner(d)
    ensures !DefinedOnce(inp)
  {
    hide Accepted, TemplateReady, Output, RenderedIn, ByName, AllClaims, RuntimeOwners, DnsName, TrueOwner, FlatMap;
    RenderedAreTheClaims(inp);
    var rendered := FlatMap(Output(inp), RenderedIn(inp.hosts));
    DistinctByPermutes(rendered, [c, d], TrueOwner);
    assert TrueOwner([c, d][0]) == TrueOwner([c, d][1]);
  }

  // ----- what competes with a PTR -----

  /** The only records that can compete with the PTR of a static record, as DNS reads
      owners: apex records of a zone that is named like the address, but with a
      capital letter. */
  lemma PtrCompetitorsAreExact(inp: Input, key: string, r: StaticRecord)
    requires Accepted(inp) && (key, r) in Pairs(inp.statics) && r.ptr
    ensures |Split(r.value, '.')| == 4 && ReverseZone(r) in ByName(inp.zones)
    ensures ByName(inp.zones)[ReverseZone(r)] < |inp.zones|
    ensures var ptr := Claim(inp.zones[ByName(inp.zones)[ReverseZone(r)]].name, Reverse(key, r));
            && ptr in AllClaims(inp)
            && ((forall c | c in AllClaims(inp) && TrueOwner(c) == TrueOwner(ptr) :: c == ptr) <==>
                forall c | c in AllClaims(inp) && c.record.name == "@" && Lower(c.zone) != c.zone ::
                  Ok(Lower(c.zone)) != TrueOwner(ptr))
  {
    hide Accepted, Pairs, ByName, AllClaims, Output, ReverseZone, Forward, DnsName, Lower, TargetName;
    PtrIsForwardConfirmed(inp, key, r);
    var ptr := Claim(inp.zones[ByName(inp.zones)[ReverseZone(r)]].name, Reverse(key, r));
    NotTheApex(inp, key, r);
    forall c | c in AllClaims(inp) && (c.record.name == "@" ==> Lower(c.zone) == c.zone)
      ensures TrueOwner(c) == Owner(c)
    {
      ApexOwner(c);
    }
  }

  lemma NotTheApex(inp: Input, key: string, r: StaticRecord)
    requires Accepted(inp) && (key, r) in Pairs(inp.statics) && r.ptr
    ensures |Split(r.value, '.')| == 4 && IsOctet(Split(r.value, '.')[3]) && Reverse(key, r).name != "@"
  {
    hide ZonesFine, Expand, ByName, KnownForward, RuntimeOwners, AllClaims, Fine, DistinctBy, Pairs;
    AcceptedHasFineZones(inp);
    assert Expand(inp.zones, ByName(inp.zones), key, r).Ok?;
    PtrExpansion(inp, key, r);
    assert IsOctet(Split(r.value, '.')[3]);
  }
}
