/** The owners that the zone template renders against the owners that the filter
    has claimed, for host names, aliases and zone names however they are spelled. */
module StaticOwners {
  import opened Wrappers
  import opened Text
  import opened Sequences
  import opened Dns
  import opened RecordOrder
  import opened StaticRecords
  import opened StaticProperties

  // ----- reverse zones, as the filter and as the template read them -----

  lemma ThreeParts(a: string, b: string, c: string)
    requires '.' !in a && '.' !in b && '.' !in c
    ensures Split(c + "." + b + "." + a, '.') == [c, b, a]
  {
    SplitPart(a, "", '.');
    SplitPart(b, a, '.');
    SplitPart(c, b + "." + a, '.');
    assert c + "." + b + "." + a == c + "." + (b + "." + a);
  }

  lemma FourParts(a: string, b: string, c: string, d: string)
    requires '.' !in a && '.' !in b && '.' !in c && '.' !in d
    ensures Split(a + "." + (b + "." + c + "." + d), '.') == [a, b, c, d]
  {
    ThreeParts(d, c, b);
    SplitPart(a, b + "." + c + "." + d, '.');
  }

  /** The inventory PTRs of the template and of the filter agree for every host
      exactly when the zone name ends in in-addr.arpa, or could not be taken
      for three bare octets. */
  lemma ReverseTemplateIsExact(z: Zone)
    requires IsName(z.name) && z.mode == ReversePtr
    ensures (EndsWith(z.name, ARPA) || |Split(z.name, '.')| != 3) <==>
              forall h: Host | PlainHost(h) :: TemplateRecords(z, h) == HostRecords(z, h)
  {
    hide IsName, TemplateRecords, HostRecords, EndsWith, PlainHost;
    if EndsWith(z.name, ARPA) {
      forall h: Host | PlainHost(h)
        ensures TemplateRecords(z, h) == HostRecords(z, h)
      {
        TemplateMatchesFilter(z, h);
      }
    } else if |Split(z.name, '.')| != 3 {
      forall h: Host | PlainHost(h)
        ensures TemplateRecords(z, h) == HostRecords(z, h)
      {
        NeitherEmits(z, h);
      }
    } else {
      var h := BareOctets(z);
    }
  }

  lemma NeitherEmits(z: Zone, h: Host)
    requires IsName(z.name) && z.mode == ReversePtr && !EndsWith(z.name, ARPA) && |Split(z.name, '.')| != 3
    ensures TemplateRecords(z, h) == HostRecords(z, h) == []
  {
    hide IsName, RstripDots;
    ValidNameHasNoDotAtTheEnd(z.name);
    var parts := Split(h.address, '.');
    SplitIsFree(h.address, '.');
    if |parts| == 4 {
      ThreeParts(parts[0], parts[1], parts[2]);
      ReverseEndsWithArpa(parts[0], parts[1], parts[2]);
    }
  }

  lemma ReverseEndsWithArpa(a: string, b: string, c: string)
    ensures EndsWith(ReverseZoneName(a, b, c), ARPA)
  {
    var head := c + "." + b + "." + a;
    assert ReverseZoneName(a, b, c)[|head|..] == ARPA;
  }

  /** A host whose PTR the template puts into such a zone, and the filter does not. */
  lemma BareOctets(z: Zone) returns (h: Host)
    requires IsName(z.name) && z.mode == ReversePtr && !EndsWith(z.name, ARPA) && |Split(z.name, '.')| == 3
    ensures h.fqdn == "h" && h.aliases == [] && PlainHost(h) && RstripDots(h.fqdn) == "h"
    ensures TemplateRecords(z, h) == [Record("1", PTR, "h.", None)] && HostRecords(z, h) == []
  {
    hide IsName;
    ValidNameHasNoDotAtTheEnd(z.name);
    var labels := Split(z.name, '.');
    SplitIsFree(z.name, '.');
    JoinSplit(z.name, '.');
    var c, b, a := labels[0], labels[1], labels[2];
    ThreeJoin(c, b, a);
    assert labels == [c, b, a];
    h := Host("h", a + "." + (b + "." + c + "." + "1"), []);
    FourParts(a, b, c, "1");
    ReverseEndsWithArpa(a, b, c);
    assert !EndsWith(h.fqdn, "..");
    assert PlainHost(h);
    assert StripOneDot("h") == "h" == RstripDots("h") && "h" + "." == "h.";
    assert c + "." + b + "." + a == z.name;
  }

  lemma ThreeJoin(c: string, b: string, a: string)
    ensures Join([c, b, a], '.') == c + "." + b + "." + a
  {
    assert [c, b, a][1..] == [b, a] && [b, a][1..] == [a];
    assert Join([b, a], '.') == b + "." + a;
    assert Join([c, b, a], '.') == c + "." + Join([b, a], '.');
  }

  // ----- the owners of one host -----

  /** A claim without its value: the owner, and what kind of record it is. */
  function Slot(c: Claim): Claim {
    Claim(c.zone, Record(c.record.name, c.record.kind, "", None))
  }

  function Slots<T>(f: T -> seq<Claim>): T -> seq<Claim> {
    (x: T) => Map(f(x), Slot)
  }

  /** A host name that is not a run of two dots or more. */
  predicate NotJustDots(fqdn: string) {
    RstripDots(fqdn) == "" ==> |fqdn| <= 1
  }

  /** The template finds the name in the zone, in front of a line break; the filter
      does not. */
  predicate Breaks(zone: string, name: string) {
    EndsWith(StripOneDot(name), "." + zone + "\n")
  }

  /** A zone name that the template does not take for three bare octets. */
  predicate ReverseName(zone: string) {
    EndsWith(zone, ARPA) || |Split(zone, '.')| != 3
  }

  /** What the template finds of a host in a zone, the filter finds too. */
  predicate Readable(z: Zone, h: Host) {
    && NotJustDots(h.fqdn)
    && (z.mode == ServerIdentity ==> !Breaks(z.name, h.fqdn))
    && (z.mode == AccessAliases ==> forall a | a in h.aliases :: !Breaks(z.name, a))
  }

  ghost predicate HostsRenderable(inp: Input) {
    forall z, h | z in inp.zones && z.managed && h in inp.hosts :: Readable(z, h)
  }

  ghost predicate ZonesRenderable(inp: Input) {
    forall z | z in inp.zones && z.managed && z.mode == ReversePtr :: ReverseName(z.name)
  }

  ghost predicate Renderable(inp: Input) {
    HostsRenderable(inp) && ZonesRenderable(inp)
  }

  lemma ReadyIsRenderable(inp: Input)
    requires TemplateReady(inp)
    ensures Renderable(inp)
  {
    hide EndsWith, RstripDots, OneDot;
    forall z, h | z in inp.zones && z.managed && h in inp.hosts
      ensures Readable(z, h)
    {
      assert PlainHost(h);
      StripsAgree(h.fqdn);
      PlainNeverBreaks(z.name, h.fqdn);
      forall a | a in h.aliases
        ensures !Breaks(z.name, a)
      {
        PlainNeverBreaks(z.name, a);
      }
    }
  }

  lemma PlainNeverBreaks(zone: string, name: string)
    requires OneDot(name)
    ensures !Breaks(zone, name)
  {
    hide EndsWith;
    NoBreakIsStripped(name);
    NoBreakAtTheEnd(StripOneDot(name), "." + zone);
  }

  /** Inside a zone, one stripped dot leaves no other to strip. */
  lemma NameInZone(zone: string, address: string, name: string)
    requires IsName(zone) && !Breaks(zone, name)
    ensures TemplateAddress(zone, address, StripOneDot(name)) == []
            || TemplateAddress(zone, address, StripOneDot(name)) == AddressIn(zone, address, RstripDots(name))
  {
    hide IsName, RstripDots, StripOneDot;
    ValidNameHasNoDotAtTheEnd(zone);
    NameIsNotEmpty(zone);
    NameHasNoBreak(zone);
    var stripped := StripOneDot(name);
    if EndsWith(stripped, "." + zone) {
      assert stripped[|stripped| - 1] == zone[|zone| - 1];
      NoDotToStrip(zone, stripped);
      NoDotNoStrip(stripped);
      RstripOnce(name);
    }
  }

  lemma NoDotToStrip(zone: string, name: string)
    requires zone != "" && StripOneDot(zone) == zone && '\n' !in zone
    requires name != "" && name[|name| - 1] == zone[|zone| - 1]
    ensures StripOneDot(name) == name
  {
  }

  lemma NameIsNotEmpty(zone: string)
    requires IsName(zone)
    ensures zone != ""
  {
    assert IsLabel(Split(zone, '.')[0]);
  }

  lemma RstripOnce(name: string)
    requires StripOneDot(name) != "" ==> StripOneDot(name)[|StripOneDot(name)| - 1] != '\n'
    ensures RstripDots(StripOneDot(name)) == RstripDots(name)
  {
  }

  lemma NoDotNoStrip(name: string)
    requires StripOneDot(name) == name
    ensures RstripDots(name) == name
  {
  }

  lemma AliasWithin(z: Zone, h: Host, alias: string)
    requires IsName(z.name) && h.address != "" && !Breaks(z.name, alias)
    ensures TemplateAlias(z.name, h)(alias) == [] || TemplateAlias(z.name, h)(alias) == AliasRecords(z, h)(alias)
  {
    hide IsName, AddressIn, TemplateAddress, RstripDots, StripOneDot, Breaks;
    NameInZone(z.name, h.address, alias);
  }

  lemma AliasesWithin(z: Zone, h: Host)
    requires IsName(z.name) && forall a | a in h.aliases :: !Breaks(z.name, a)
    ensures multiset(FlatMap(h.aliases, TemplateAlias(z.name, h))) <=
            multiset(if h.address != "" then FlatMap(h.aliases, AliasRecords(z, h)) else [])
  {
    hide IsName, FlatMap, AliasRecords, TemplateAlias, Breaks;
    if h.address != "" {
      forall i | 0 <= i < |h.aliases|
        ensures multiset(TemplateAlias(z.name, h)(h.aliases[i])) <= multiset(AliasRecords(z, h)(h.aliases[i]))
      {
        AliasWithin(z, h, h.aliases[i]);
      }
      FlatMapWithin(h.aliases, h.aliases, TemplateAlias(z.name, h), AliasRecords(z, h));
    } else {
      NoAddressNoAlias(z, h);
    }
  }

  lemma NoAddressNoAlias(z: Zone, h: Host)
    requires h.address == ""
    ensures FlatMap(h.aliases, TemplateAlias(z.name, h)) == []
  {
    FlatMapEmpty(h.aliases, TemplateAlias(z.name, h));
  }

  lemma HostNameIsLeft(fqdn: string)
    requires NotJustDots(fqdn) && StripOneDot(fqdn) != ""
    ensures RstripDots(fqdn) != ""
  {
    if fqdn[|fqdn| - 1] == '.' {
      assert |fqdn| > 1;
    }
  }

  /** A PTR of the template is one of the filter, though it may name another
      target. */
  lemma PointersWithin(z: Zone, h: Host)
    requires IsName(z.name) && NotJustDots(h.fqdn) && ReverseName(z.name) && z.mode == ReversePtr
    ensures TemplateRecords(z, h) == []
            || (exists r, s ::
                  TemplateRecords(z, h) == [r] && HostRecords(z, h) == [s] && r.name == s.name && r.kind == s.kind)
  {
    hide IsName, RstripDots, StripOneDot, EndsWith, ReverseZoneName, Split, NotJustDots;
    if !EndsWith(z.name, ARPA) {
      NeitherEmits(z, h);
    } else {
      ValidNameHasNoDotAtTheEnd(z.name);
      var parts := Split(h.address, '.');
      if StripOneDot(h.fqdn) != "" && |parts| == 4 {
        HostNameIsLeft(h.fqdn);
        ReverseNamesMatch(parts[0], parts[1], parts[2], z.name);
        EmptyHasNoDots(h.address);
      }
    }
  }

  lemma HostWithin(z: Zone, h: Host)
    requires IsName(z.name) && Readable(z, h) && (z.mode == ReversePtr ==> ReverseName(z.name))
    ensures multiset(Slots(RenderedFor(z))(h)) <= multiset(Slots(ClaimsFor(z))(h))
  {
    hide IsName, NotJustDots, Breaks, ReverseName, FlatMap, AliasRecords, TemplateAlias, AddressIn, TemplateAddress;
    hide RstripDots, Split;
    var rendered, claimed := TemplateRecords(z, h), HostRecords(z, h);
    if z.mode == ReversePtr && rendered != [] {
      PointersWithin(z, h);
      var r, s :| rendered == [r] && claimed == [s] && r.name == s.name && r.kind == s.kind;
      FlatMapOne(r, ClaimIn(z.name));
      FlatMapOne(s, ClaimIn(z.name));
      assert Slot(Claim(z.name, r)) == Slot(Claim(z.name, s));
      MapOne(Claim(z.name, r), Slot);
      MapOne(Claim(z.name, s), Slot);
    } else {
      assert multiset(rendered) <= multiset(claimed) by {
        ValidNameHasNoDotAtTheEnd(z.name);
        if z.mode == ServerIdentity {
          NameInZone(z.name, h.address, h.fqdn);
        } else if z.mode == AccessAliases {
          AliasesWithin(z, h);
        }
      }
      ClaimsWithin(z.name, rendered, claimed);
      MapOfSub(ClaimsIn(z.name, rendered), ClaimsIn(z.name, claimed), Slot);
    }
  }

  lemma ClaimsWithin(zone: string, rendered: seq<Record>, claimed: seq<Record>)
    requires multiset(rendered) <= multiset(claimed)
    ensures multiset(ClaimsIn(zone, rendered)) <= multiset(ClaimsIn(zone, claimed))
  {
    ClaimsAreMapped(zone, rendered);
    ClaimsAreMapped(zone, claimed);
    MapOfSub(rendered, claimed, Claimed(zone));
  }

  function Claimed(zone: string): Record -> Claim {
    (r: Record) => Claim(zone, r)
  }

  lemma {:induction false} ClaimsAreMapped(zone: string, records: seq<Record>)
    ensures ClaimsIn(zone, records) == Map(records, Claimed(zone))
  {
    if records != [] {
      ClaimsAreMapped(zone, records[1..]);
    }
  }

  // ----- the owners of all zones -----

  lemma ClaimIsInAZone(inp: Input, c: Claim)
    requires c in AllClaims(inp)
    ensures exists z :: z in inp.zones && z.name == c.zone
  {
    hide HostRecords, ByName, Placements;
    if c in FlatMap(inp.zones, ZoneClaims(inp.hosts)) {
      FlatMapContains(inp.zones, ZoneClaims(inp.hosts), c);
      var z :| z in inp.zones && c in ZoneClaims(inp.hosts)(z);
      ClaimOfZone(inp.hosts, z, c);
    } else {
      var f := PlacedClaim(inp.zones, ByName(inp.zones));
      FlatMapContains(Placements(inp), f, c);
      var p :| p in Placements(inp) && c in f(p);
      assert c.zone == inp.zones[ByName(inp.zones)[p.zone]].name;
    }
  }

  lemma ClaimOfZone(hosts: seq<Host>, z: Zone, c: Claim)
    requires c in ZoneClaims(hosts)(z)
    ensures c.zone == z.name
  {
    hide HostRecords;
    if c in ClaimsIn(z.name, z.records) {
      FlatMapContains(z.records, ClaimIn(z.name), c);
    } else {
      FlatMapContains(hosts, ClaimsFor(z), c);
      var h :| h in hosts && c in ClaimsFor(z)(h);
      FlatMapContains(HostRecords(z, h), ClaimIn(z.name), c);
    }
  }

  lemma HostsWithin(hosts: seq<Host>, z: Zone)
    requires IsName(z.name) && (forall h | h in hosts :: Readable(z, h))
    requires z.mode == ReversePtr ==> ReverseName(z.name)
    ensures multiset(Map(FlatMap(hosts, RenderedFor(z)), Slot)) <= multiset(Map(FlatMap(hosts, ClaimsFor(z)), Slot))
  {
    hide IsName, Readable, ReverseName, RenderedFor, ClaimsFor;
    MapOfFlatMap(hosts, RenderedFor(z), Slot, Slots(RenderedFor(z)));
    MapOfFlatMap(hosts, ClaimsFor(z), Slot, Slots(ClaimsFor(z)));
    forall i | 0 <= i < |hosts|
      ensures multiset(Slots(RenderedFor(z))(hosts[i])) <= multiset(Slots(ClaimsFor(z))(hosts[i]))
    {
      HostWithin(z, hosts[i]);
    }
    FlatMapWithin(hosts, hosts, Slots(RenderedFor(z)), Slots(ClaimsFor(z)));
  }

  /** The records handed to the template for one zone. */
  lemma HandedOver(inp: Input, i: nat)
    requires i < |inp.zones| && inp.zones[i].managed
    ensures Output(inp)[i].managed && Output(inp)[i].name == inp.zones[i].name
    ensures multiset(ClaimsIn(inp.zones[i].name, Output(inp)[i].records)) ==
            multiset(ClaimsIn(inp.zones[i].name, inp.zones[i].records))
            + multiset(AddedClaims(Placements(inp))(inp.zones[i]))
  {
    hide SortRecords, Placements, ZoneKey;
    var z := inp.zones[i];
    var added := FlatMap(Placements(inp), AddTo(ZoneKey(z)));
    SortSorts(z.records + added);
    FlatMapPermutes(z.records + added, Output(inp)[i].records, ClaimIn(z.name));
    FlatMapAppend(z.records, added, ClaimIn(z.name));
  }

  lemma HandedOverInventory(inp: Input, i: nat)
    requires i < |inp.zones| && inp.zones[i].managed
    ensures FlatMap(inp.hosts, RenderedFor(Output(inp)[i])) == FlatMap(inp.hosts, RenderedFor(inp.zones[i]))
  {
    hide SortRecords, Placements, TemplateRecords;
    var z, output := inp.zones[i], Output(inp)[i];
    forall h | h in inp.hosts
      ensures RenderedFor(output)(h) == RenderedFor(z)(h)
    {
      TemplateIgnoresRecords(z, output.records, h);
    }
    FlatMapSame(inp.hosts, RenderedFor(output), RenderedFor(z));
  }

  lemma ZoneWithin(inp: Input, i: nat)
    requires Accepted(inp) && Renderable(inp) && i < |inp.zones|
    ensures multiset(Slots(RenderedIn(inp.hosts))(Output(inp)[i])) <= multiset(Slots(Both(inp))(inp.zones[i]))
  {
    hide Accepted, Output, Placements, AddedClaims, RenderedFor, ClaimsFor, ClaimsIn, FlatMap, Readable, ReverseName,
      IsName, Map;
    var z, output, hosts := inp.zones[i], Output(inp)[i], inp.hosts;
    OutputIsManaged(inp, i);
    if z.managed {
      AcceptedNameIsValid(inp, i);
      HandedOver(inp, i);
      HandedOverInventory(inp, i);
      HostsWithin(hosts, z);
      var handed, rendered, claimed :=
        ClaimsIn(z.name, output.records), FlatMap(hosts, RenderedFor(z)), FlatMap(hosts, ClaimsFor(z));
      MapAppend(handed, rendered, Slot);
      MapAppend(handed, claimed, Slot);
      assert multiset(handed + claimed) == multiset(Both(inp)(z));
      MapOfSub(handed + claimed, Both(inp)(z), Slot);
    } else {
      MapOfSub([], Both(inp)(z), Slot);
    }
  }

  /** Whatever the template renders besides SOA and NS has its own claim, of the
      same owner and kind. */
  lemma RenderedOwnersAreClaimed(inp: Input)
    requires Accepted(inp) && Renderable(inp)
    ensures multiset(Map(FlatMap(Output(inp), RenderedIn(inp.hosts)), Slot)) <= multiset(Map(AllClaims(inp), Slot))
  {
    hide Accepted, Renderable, Output, RenderedIn, AllClaims, Both;
    var rendered, claimed := RenderedIn(inp.hosts), Both(inp);
    MapOfFlatMap(Output(inp), rendered, Slot, Slots(rendered));
    MapOfFlatMap(inp.zones, claimed, Slot, Slots(claimed));
    forall i | 0 <= i < |inp.zones|
      ensures multiset(Slots(rendered)(Output(inp)[i])) <= multiset(Slots(claimed)(inp.zones[i]))
    {
      ZoneWithin(inp, i);
    }
    FlatMapWithin(Output(inp), inp.zones, Slots(rendered), Slots(claimed));
    ClaimsByZone(inp);
    MapOfSub(FlatMap(inp.zones, claimed), AllClaims(inp), Slot);
  }

  lemma SlotsAreDistinct(claims: seq<Claim>)
    ensures DistinctBy(Map(claims, Slot), Owner) <==> DistinctBy(claims, Owner)
  {
    hide DnsName;
    MapAt(claims, Slot);
    var slots := Map(claims, Slot);
    assert forall k | 0 <= k < |claims| :: Owner(slots[k]) == Owner(claims[k]);
  }

  lemma {:induction false} SlotIsThere(claims: seq<Claim>, c: Claim)
    ensures c in claims ==> Slot(c) in multiset(Map(claims, Slot))
    ensures Slot(c) in multiset(Map(claims, Slot)) ==> exists d :: d in claims && Slot(d) == Slot(c)
  {
    MapAt(claims, Slot);
    var slots := Map(claims, Slot);
    if c in claims {
      var k :| 0 <= k < |claims| && claims[k] == c;
      assert slots[k] in multiset(slots);
    }
    if Slot(c) in multiset(slots) {
      var k :| 0 <= k < |slots| && slots[k] == Slot(c);
      assert claims[k] in claims && Slot(claims[k]) == Slot(c);
    }
  }

  lemma SlotKeepsTheOwner(c: Claim, d: Claim)
    requires Slot(c) == Slot(d)
    ensures Owner(c) == Owner(d) && c.zone == d.zone && c.record.kind == d.record.kind
  {
  }

  /** Owners are rendered once, as the filter reads them, and each rendered record
      has a claim of the same owner and kind. */
  lemma RenderedHaveClaims(inp: Input)
    requires Accepted(inp) && Renderable(inp)
    ensures var rendered := FlatMap(Output(inp), RenderedIn(inp.hosts));
            && DistinctBy(rendered, Owner)
            && forall c | c in rendered :: exists d :: d in AllClaims(inp) && Slot(d) == Slot(c)
  {
    hide Renderable, Output, RenderedIn, ZonesFine, ByName, Expand, KnownForward, Pairs, Owner, AllClaims, Map;
    hide FlatMap, DistinctBy;
    var rendered, claims := FlatMap(Output(inp), RenderedIn(inp.hosts)), AllClaims(inp);
    RenderedOwnersAreClaimed(inp);
    SlotsAreDistinct(claims);
    SlotsAreDistinct(rendered);
    DistinctBySub(Map(rendered, Slot), Map(claims, Slot), Owner);
    forall c | c in rendered
      ensures exists d :: d in claims && Slot(d) == Slot(c)
    {
      SlotIsThere(rendered, c);
      SlotIsThere(claims, c);
    }
  }
}
