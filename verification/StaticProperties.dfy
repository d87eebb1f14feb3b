/** What an accepted merge guarantees: forward-confirmed PTRs, and that the
    template renders exactly what the filter has claimed. */
module StaticProperties {
  import opened Wrappers
  import opened Text
  import opened Sequences
  import opened Dns
  import opened RecordOrder
  import opened StaticRecords
  import opened StaticMerge
  import opened StaticOrder

  // ----- every published record is a claim, and claims are unique -----

  lemma ClaimsAreUnique(inp: Input, c: Claim, d: Claim)
    requires Accepted(inp) && c in AllClaims(inp) && d in AllClaims(inp) && Owner(c) == Owner(d)
    ensures c == d
  {
    hide ZonesFine, Expand, ByName, Owner, KnownForward, RuntimeOwners, Pairs, AllClaims, Fine;
    UniqueByKey(AllClaims(inp), Owner, c, d);
  }

  lemma PlacementIsClaimed(inp: Input, p: Placement)
    requires Accepted(inp) && p in Placements(inp)
    ensures p.zone in ByName(inp.zones) && ByName(inp.zones)[p.zone] < |inp.zones|
    ensures var z := inp.zones[ByName(inp.zones)[p.zone]];
            && z.managed && ZoneKey(z) == p.zone && Claim(z.name, p.record) in AllClaims(inp)
            && p.record in Output(inp)[ByName(inp.zones)[p.zone]].records
  {
    hide ZonesFine, Expand, ByName, Owner, KnownForward, RuntimeOwners, Pairs, Fine, Placements, ZoneClaims,
      SortRecords, ZoneKey, DistinctBy;
    AcceptedHasFineZones(inp);
    PlacementsAreManaged(inp, p);
    ByNameKeys(inp.zones);
    var names := ByName(inp.zones);
    var z := inp.zones[names[p.zone]];
    FlatMapContains(Placements(inp), PlacedClaim(inp.zones, names), Claim(z.name, p.record));
    FlatMapContains(Placements(inp), AddTo(ZoneKey(z)), p.record);
    var filled := z.records + FlatMap(Placements(inp), AddTo(ZoneKey(z)));
    SortSorts(filled);
    assert p.record in multiset(filled);
    assert p.record in multiset(SortRecords(filled));
  }

  lemma AcceptedHasFineZones(inp: Input)
    requires Accepted(inp)
    ensures ZonesFine(inp.zones) && AllKnown(inp, inp.statics) && AllExpand(inp, Pairs(inp.statics))
  {
  }

  lemma ExpansionIsPlaced(inp: Input, key: string, r: StaticRecord, p: Placement)
    requires Accepted(inp) && (key, r) in Pairs(inp.statics)
    requires Expand(inp.zones, ByName(inp.zones), key, r).Ok? ==>
               p in Expand(inp.zones, ByName(inp.zones), key, r).value
    ensures Expand(inp.zones, ByName(inp.zones), key, r).Ok? && p in Placements(inp)
  {
    hide ZonesFine, Expand, ByName, Owner, KnownForward, RuntimeOwners, Pairs, Fine, AllClaims;
    AcceptedHasFineZones(inp);
    FlatMapContains(Pairs(inp.statics), Expansion(inp.zones, ByName(inp.zones)), p);
    assert p in Expansion(inp.zones, ByName(inp.zones))((key, r));
  }

  // ----- forward-confirmed reverse DNS -----

  /** The A record and the PTR record of a static record with ptr: true. */
  function Forward(r: StaticRecord): Record {
    Record(if r.name == "@" then "@" else Lower(r.name), A, r.value, r.ttl)
  }

  function Reverse(key: string, r: StaticRecord): Record
    requires |Split(r.value, '.')| == 4
  {
    Record(Split(r.value, '.')[3], PTR, TargetName(key, Forward(r).name) + ".", r.ttl)
  }

  function ReverseZone(r: StaticRecord): string
    requires |Split(r.value, '.')| == 4
  {
    var parts := Split(r.value, '.');
    ReverseZoneName(parts[0], parts[1], parts[2])
  }

  lemma PtrExpansion(inp: Input, key: string, r: StaticRecord)
    requires Expand(inp.zones, ByName(inp.zones), key, r).Ok? && r.ptr
    ensures r.kind == A && IsIpv4(r.value)
    ensures Expand(inp.zones, ByName(inp.zones), key, r).value ==
            [Placement(key, Forward(r)), Placement(ReverseZone(r), Reverse(key, r))]
    ensures ReverseZone(r) in ByName(inp.zones)
    ensures ByName(inp.zones)[ReverseZone(r)] < |inp.zones|
            && inp.zones[ByName(inp.zones)[ReverseZone(r)]].mode == ReversePtr
  {
    hide IsOctet, IsName, ByName, ReverseZoneName, AbsoluteName;
  }

  /** For every accepted ptr: true record, its A record is published in its zone,
      and in the zone of its /24 exactly one record has the name of the address:
      the PTR, which names the owner of that A record.  In any zone, no other
      record has that owner as the filter reads owners. */
  lemma PtrIsForwardConfirmed(inp: Input, key: string, r: StaticRecord)
    requires Accepted(inp) && (key, r) in Pairs(inp.statics) && r.ptr
    ensures |Split(r.value, '.')| == 4
    ensures key in ByName(inp.zones) && ReverseZone(r) in ByName(inp.zones)
    ensures var i, j := ByName(inp.zones)[key], ByName(inp.zones)[ReverseZone(r)];
            && i < |inp.zones| && j < |inp.zones| && inp.zones[j].managed && inp.zones[j].mode == ReversePtr
            && inp.zones[i].managed && Forward(r) in Output(inp)[i].records
            && Reverse(key, r) in Output(inp)[j].records
            && Claim(inp.zones[i].name, Forward(r)) in AllClaims(inp)
            && Claim(inp.zones[j].name, Reverse(key, r)) in AllClaims(inp)
            && (forall x | x in Output(inp)[j].records && NameKey(x) == NameKey(Reverse(key, r)) ::
                  x == Reverse(key, r))
            && Owner(Claim(inp.zones[i].name, Forward(r))).Ok?
            && Lower(Owner(Claim(inp.zones[i].name, Forward(r))).value) + "." == Reverse(key, r).value
            && (forall c | c in AllClaims(inp) && Owner(c) == Owner(Claim(inp.zones[j].name, Reverse(key, r))) ::
                  c == Claim(inp.zones[j].name, Reverse(key, r)))
  {
    hide ZonesFine, Expand, ByName, Owner, KnownForward, RuntimeOwners, Pairs, Fine, Placements, AllClaims,
      Output, NameKey, DistinctBy, IsIpv4, TargetName, ReverseZone;
    AcceptedHasFineZones(inp);
    assert Expand(inp.zones, ByName(inp.zones), key, r).Ok?;
    PtrExpansion(inp, key, r);
    IsIpv4Parts(r.value);
    var p, q := Placement(key, Forward(r)), Placement(ReverseZone(r), Reverse(key, r));
    ExpansionIsPlaced(inp, key, r, p);
    ExpansionIsPlaced(inp, key, r, q);
    PlacementIsClaimed(inp, p);
    PlacementIsClaimed(inp, q);
    var i, j := ByName(inp.zones)[key], ByName(inp.zones)[ReverseZone(r)];
    NameIsUniqueInZone(inp, j, Reverse(key, r));
    ClaimedOwner(inp, inp.zones[i], Forward(r), key, r.name);
    forall c | c in AllClaims(inp) && Owner(c) == Owner(Claim(inp.zones[j].name, Reverse(key, r)))
      ensures c == Claim(inp.zones[j].name, Reverse(key, r))
    {
      ClaimsAreUnique(inp, c, Claim(inp.zones[j].name, Reverse(key, r)));
    }
  }

  lemma IsIpv4Parts(value: string)
    requires IsIpv4(value)
    ensures |Split(value, '.')| == 4
  {
  }

  lemma ClaimedOwner(inp: Input, z: Zone, forward: Record, key: string, name: string)
    requires Accepted(inp) && Claim(z.name, forward) in AllClaims(inp) && ZoneKey(z) == key
    requires forward.name == if name == "@" then "@" else Lower(name)
    ensures Owner(Claim(z.name, forward)).Ok?
    ensures Lower(Owner(Claim(z.name, forward)).value) == TargetName(key, forward.name)
  {
    hide ZonesFine, Expand, ByName, KnownForward, RuntimeOwners, Pairs, AllClaims, DistinctBy, IsName;
    LowerApex(name);
    if name != "@" {
      LowerIsIdempotent(name);
      LowerIsIdempotent(forward.name + "." + z.name);
      LowerAppend(forward.name + ".", z.name);
      LowerAppend(forward.name, ".");
      assert Lower(".") == ".";
    }
  }

  lemma NameIsUniqueInZone(inp: Input, i: nat, r: Record)
    requires Accepted(inp) && i < |inp.zones| && inp.zones[i].managed && r in Output(inp)[i].records
    ensures forall x | x in Output(inp)[i].records && NameKey(x) == NameKey(r) :: x == r
  {
    hide Accepted, NameKey, SortRecords, Placements, ZoneKey;
    ZoneRecordsAreDistinct(inp, i);
    var filled := Filled(inp.zones[i], Placements(inp)).records;
    SortSorts(filled);
    var sorted := SortRecords(filled);
    DistinctByPermutes(filled, sorted, NameKey);
    forall x | x in sorted && NameKey(x) == NameKey(r)
      ensures x == r
    {
      UniqueByKey(sorted, NameKey, x, r);
    }
  }

  // ----- what the zone template renders -----

  /** regex_replace('\\.$', ''): the end of the pattern is the end of the text, or in
      front of a line break that ends it. */
  function StripOneDot(name: string): string {
    if name != "" && name[|name| - 1] == '.' then name[..|name| - 1]
    else if EndsWith(name, ".\n") then name[..|name| - 2] + "\n"
    else name
  }

  /** regex_replace of a zone's suffix, likewise, if there is one. */
  function TemplateRelative(name: string, zone: string): Option<string> {
    if EndsWith(name, "." + zone) then Some(name[..|name| - |zone| - 1])
    else if EndsWith(name, "." + zone + "\n") then Some(name[..|name| - |zone| - 2] + "\n")
    else None
  }

  function TemplateAddress(zone: string, address: string, name: string): seq<Record> {
    var relative := TemplateRelative(name, zone);
    if relative.Some? then [Record(relative.value, A, address, None)] else []
  }

  function TemplateAlias(zone: string, h: Host): string -> seq<Record> {
    (alias: string) => if h.address != "" then TemplateAddress(zone, h.address, StripOneDot(alias)) else []
  }

  /** The inventory lines of zone.j2 for one host. */
  function TemplateRecords(z: Zone, h: Host): seq<Record> {
    var zone := StripOneDot(z.name);
    var fqdn := StripOneDot(h.fqdn);
    match z.mode
    case NoInventory => []
    case ServerIdentity =>
      if fqdn != "" && h.address != "" then TemplateAddress(zone, h.address, fqdn) else []
    case AccessAliases => FlatMap(h.aliases, TemplateAlias(zone, h))
    case ReversePtr =>
      var prefix := if EndsWith(zone, ARPA) then zone[..|zone| - |ARPA|] else zone;
      var parts := Split(h.address, '.');
      if fqdn != "" && |parts| == 4 && parts[2] + "." + parts[1] + "." + parts[0] == prefix
      then [Record(parts[3], PTR, fqdn + ".", None)]
      else []
  }

  function RenderedFor(z: Zone): Host -> seq<Claim> {
    (h: Host) => ClaimsIn(z.name, TemplateRecords(z, h))
  }

  /** The owners that one rendered zone file defines besides its SOA and NS:
      the records handed to the template and its inventory lines. */
  function RenderedIn(hosts: seq<Host>): Zone -> seq<Claim> {
    (z: Zone) => if z.managed then ClaimsIn(z.name, z.records) + FlatMap(hosts, RenderedFor(z)) else []
  }

  /** A name without line breaks and with at most one trailing dot. */
  ghost predicate OneDot(name: string) {
    !EndsWith(name, "..") && '\n' !in name
  }

  ghost predicate PlainHost(h: Host) {
    OneDot(h.fqdn) && forall a | a in h.aliases :: OneDot(a)
  }

  lemma NoBreakAtTheEnd(name: string, part: string)
    requires '\n' !in name
    ensures !EndsWith(name, part + "\n")
  {
    var tail := part + "\n";
    assert tail[|part|] == '\n';
    forall k | 0 <= k <= |name|
      ensures name[k..] != tail
    {
      assert '\n' in tail && '\n' !in name[k..];
    }
  }

  lemma NoBreakIsStripped(name: string)
    requires '\n' !in name
    ensures '\n' !in StripOneDot(name)
  {
    NoBreakAtTheEnd(name, ".");
    assert "." + "\n" == ".\n";
  }

  /** Without line breaks, the template finds the zone's names where the filter does. */
  lemma PlainAddress(zone: string, address: string, name: string)
    requires OneDot(name)
    ensures TemplateAddress(zone, address, StripOneDot(name)) == AddressIn(zone, address, RstripDots(name))
  {
    hide RstripDots, EndsWith;
    StripsAgree(name);
    NoBreakIsStripped(name);
    NoBreakAtTheEnd(StripOneDot(name), "." + zone);
  }

  lemma StripsAgree(name: string)
    requires OneDot(name)
    ensures StripOneDot(name) == RstripDots(name)
  {
    NoBreakAtTheEnd(name, ".");
    assert |name| >= 2 ==> name[|name| - 2..] == [name[|name| - 2], name[|name| - 1]];
    if name != "" && name[|name| - 1] == '.' {
      var rest := name[..|name| - 1];
      assert rest != "" ==> rest[|rest| - 1] == name[|name| - 2];
    }
  }

  lemma ValidNameHasNoDotAtTheEnd(name: string)
    requires IsName(name)
    ensures StripOneDot(name) == name
  {
    hide IsName;
    NameHasNoBreak(name);
    NoBreakAtTheEnd(name, ".");
    if name != "" && name[|name| - 1] == '.' {
      assert name == name[..|name| - 1] + ".";
      TrailingDotIsNoName(name[..|name| - 1]);
    }
  }

  lemma TrailingDotIsNoName(rest: string)
    ensures !IsName(rest + ".")
  {
    EmptyLastLabel(rest);
    var labels := Split(rest + ".", '.');
    assert !IsLabel(labels[|labels| - 1]);
  }

  lemma {:induction false} EmptyLastLabel(rest: string)
    ensures var labels := Split(rest + ".", '.');
            labels[|labels| - 1] == ""
  {
    if rest == "" {
      assert (rest + ".")[1..] == "";
    } else {
      assert (rest + ".")[1..] == rest[1..] + ".";
      EmptyLastLabel(rest[1..]);
      var inner := Split(rest[1..] + ".", '.');
      if rest[0] != '.' && |inner| == 1 {
        DotMakesTwoParts(rest[1..]);
        assert false;
      }
    }
  }

  lemma {:induction false} DotMakesTwoParts(rest: string)
    ensures |Split(rest + ".", '.')| >= 2
  {
    if rest == "" {
      assert (rest + ".")[1..] == "";
    } else {
      assert (rest + ".")[1..] == rest[1..] + ".";
      DotMakesTwoParts(rest[1..]);
    }
  }

  lemma SuffixCancels(a: string, b: string, suffix: string)
    ensures a + suffix == b + suffix <==> a == b
  {
    if a + suffix == b + suffix {
      assert a == (a + suffix)[..|a|] == (b + suffix)[..|b|] == b;
    }
  }

  lemma WithoutSuffix(s: string, suffix: string)
    requires EndsWith(s, suffix)
    ensures s[..|s| - |suffix|] + suffix == s
  {
  }

  lemma AliasesMatch(zone: Zone, h: Host)
    requires forall a | a in h.aliases :: OneDot(a)
    ensures FlatMap(h.aliases, TemplateAlias(zone.name, h)) ==
            if h.address != "" then FlatMap(h.aliases, AliasRecords(zone, h)) else []
  {
    hide AliasRecords, TemplateAlias, OneDot;
    forall a | a in h.aliases
      ensures TemplateAlias(zone.name, h)(a) == if h.address != "" then AliasRecords(zone, h)(a) else []
    {
      AliasMatches(zone, h, a);
    }
    if h.address != "" {
      FlatMapSame(h.aliases, TemplateAlias(zone.name, h), AliasRecords(zone, h));
    } else {
      FlatMapEmpty(h.aliases, TemplateAlias(zone.name, h));
    }
  }

  lemma AliasMatches(zone: Zone, h: Host, a: string)
    requires OneDot(a)
    ensures TemplateAlias(zone.name, h)(a) == if h.address != "" then AliasRecords(zone, h)(a) else []
  {
    hide RstripDots, StripOneDot, OneDot, AddressIn, TemplateAddress;
    PlainAddress(zone.name, h.address, a);
  }

  lemma ReverseNamesMatch(a: string, b: string, c: string, zone: string)
    requires EndsWith(zone, ARPA)
    ensures c + "." + b + "." + a == zone[..|zone| - |ARPA|] <==> ReverseZoneName(a, b, c) == zone
  {
    WithoutSuffix(zone, ARPA);
    SuffixCancels(c + "." + b + "." + a, zone[..|zone| - |ARPA|], ARPA);
  }

  /** The template's inventory lines are the filter's inventory records. */
  lemma TemplateMatchesFilter(z: Zone, h: Host)
    requires IsName(z.name) && PlainHost(h) && (z.mode == ReversePtr ==> EndsWith(z.name, ARPA))
    ensures TemplateRecords(z, h) == HostRecords(z, h)
  {
    hide IsName, RstripDots, StripOneDot, OneDot, EndsWith, AddressIn, ReverseZoneName, FlatMap, Split, AliasRecords,
      TemplateAlias, TemplateAddress;
    ValidNameHasNoDotAtTheEnd(z.name);
    StripsAgree(h.fqdn);
    PlainAddress(z.name, h.address, h.fqdn);
    EmptyNameHasNoRecord(z.name, h.address);
    AliasesMatch(z, h);
    var parts := Split(h.address, '.');
    if z.mode == ReversePtr && |parts| == 4 {
      ReverseNamesMatch(parts[0], parts[1], parts[2], z.name);
      EmptyHasNoDots(h.address);
    }
  }

  lemma EmptyHasNoDots(address: string)
    ensures |Split(address, '.')| == 4 ==> address != ""
  {
  }

  lemma EmptyNameHasNoRecord(zone: string, address: string)
    ensures AddressIn(zone, address, "") == []
  {
  }

  ghost predicate TemplateReady(inp: Input) {
    && (forall h | h in inp.hosts :: PlainHost(h))
    && (forall z | z in inp.zones && z.managed && z.mode == ReversePtr :: EndsWith(z.name, ARPA))
  }

  lemma RenderedZone(inp: Input, i: nat)
    requires Accepted(inp) && TemplateReady(inp) && i < |inp.zones|
    ensures multiset(RenderedIn(inp.hosts)(Output(inp)[i])) ==
            multiset(RenderedIn(inp.hosts)(Filled(inp.zones[i], Placements(inp))))
    ensures inp.zones[i].managed ==>
              RenderedIn(inp.hosts)(Filled(inp.zones[i], Placements(inp))) ==
              ClaimsIn(inp.zones[i].name, Filled(inp.zones[i], Placements(inp)).records)
              + FlatMap(inp.hosts, ClaimsFor(inp.zones[i]))
  {
    hide ZonesFine, Expand, ByName, KnownForward, RuntimeOwners, Pairs, Fine, AllClaims, Placements,
      SortRecords, ZoneKey, TemplateRecords, HostRecords, IsName, PlainHost, EndsWith;
    var z := inp.zones[i];
    if z.managed {
      var filled := Filled(z, Placements(inp));
      var sorted := Output(inp)[i];
      SortSorts(filled.records);
      FlatMapPermutes(filled.records, sorted.records, ClaimIn(z.name));
      AcceptedNameIsValid(inp, i);
      forall h | h in inp.hosts
        ensures RenderedFor(filled)(h) == ClaimsFor(z)(h)
        ensures RenderedFor(sorted)(h) == RenderedFor(filled)(h)
      {
        TemplateMatchesFilter(z, h);
        TemplateIgnoresRecords(z, filled.records, h);
        TemplateIgnoresRecords(z, sorted.records, h);
      }
      FlatMapSame(inp.hosts, RenderedFor(filled), ClaimsFor(z));
      FlatMapSame(inp.hosts, RenderedFor(sorted), RenderedFor(filled));
    }
  }

  lemma AcceptedNameIsValid(inp: Input, i: nat)
    requires Accepted(inp) && i < |inp.zones|
    ensures IsName(inp.zones[i].name)
  {
    hide IsName, Expand, ByName, KnownForward, RuntimeOwners, Pairs, Fine, AllClaims, DistinctBy;
    assert inp.zones[i] in inp.zones;
  }

  lemma TemplateIgnoresRecords(z: Zone, records: seq<Record>, h: Host)
    ensures TemplateRecords(z.(records := records), h) == TemplateRecords(z, h)
  {
    hide AddressIn, StripOneDot, FlatMap;
  }

  // ----- rendering all zones -----

  /** The claims that some placements add to one zone. */
  function AddedClaims(placed: seq<Placement>): Zone -> seq<Claim> {
    (z: Zone) => if z.managed then ClaimsIn(z.name, FlatMap(placed, AddTo(ZoneKey(z)))) else []
  }

  /** A placement is added to exactly one zone. */
  lemma OnePlacementOneZone(inp: Input, p: Placement)
    requires ZonesFine(inp.zones) && p.zone in ByName(inp.zones) && ByName(inp.zones)[p.zone] < |inp.zones|
    requires inp.zones[ByName(inp.zones)[p.zone]].managed
    ensures multiset(FlatMap(inp.zones, AddedClaims([p]))) ==
            multiset(PlacedClaim(inp.zones, ByName(inp.zones))(p))
  {
    hide ZoneKey, ZonesFine, ByName, AddedClaims;
    var k := ByName(inp.zones)[p.zone];
    AddedToZone(inp, p, k);
    FlatMapRemove(inp.zones, k, AddedClaims([p]));
    var rest := RemoveAt(inp.zones, k);
    forall z | z in rest
      ensures AddedClaims([p])(z) == []
    {
      var i :| 0 <= i < |rest| && rest[i] == z;
      var j := if i < k then i else i + 1;
      assert z == inp.zones[j];
      AddedToZone(inp, p, j);
    }
    FlatMapEmpty(rest, AddedClaims([p]));
  }

  lemma AddedToZone(inp: Input, p: Placement, i: nat)
    requires ZonesFine(inp.zones) && p.zone in ByName(inp.zones) && ByName(inp.zones)[p.zone] < |inp.zones|
    requires inp.zones[ByName(inp.zones)[p.zone]].managed && i < |inp.zones|
    ensures AddedClaims([p])(inp.zones[i]) ==
            if i == ByName(inp.zones)[p.zone] then [Claim(inp.zones[i].name, p.record)] else []
  {
    hide ZoneKey, DnsName, ByName;
    var z := inp.zones[i];
    ByNameKeys(inp.zones);
    KeyFindsZone(inp.zones, i);
    FlatMapOne(p, AddTo(ZoneKey(z)));
    FlatMapOne(p.record, ClaimIn(z.name));
  }

  lemma AddedSplits(p: Placement, rest: seq<Placement>, z: Zone)
    ensures multiset(AddedClaims([p] + rest)(z)) == multiset(AddedClaims([p])(z)) + multiset(AddedClaims(rest)(z))
  {
    hide ZoneKey;
    FlatMapAppend([p], rest, AddTo(ZoneKey(z)));
    FlatMapAppend(FlatMap([p], AddTo(ZoneKey(z))), FlatMap(rest, AddTo(ZoneKey(z))), ClaimIn(z.name));
  }

  lemma {:induction false} AddedAreThePlaced(inp: Input, placed: seq<Placement>)
    requires ZonesFine(inp.zones)
    requires forall p | p in placed ::
               p.zone in ByName(inp.zones) && ByName(inp.zones)[p.zone] < |inp.zones|
               && inp.zones[ByName(inp.zones)[p.zone]].managed
    ensures multiset(FlatMap(inp.zones, AddedClaims(placed))) ==
            multiset(FlatMap(placed, PlacedClaim(inp.zones, ByName(inp.zones))))
    decreases |placed|
  {
    hide ZonesFine, ByName, AddedClaims, PlacedClaim;
    if placed == [] {
      forall z | z in inp.zones
        ensures AddedClaims(placed)(z) == []
      {
        NothingAdded(z);
      }
      FlatMapEmpty(inp.zones, AddedClaims(placed));
    } else {
      var p, rest := placed[0], placed[1..];
      assert placed == [p] + rest;
      AddedAreThePlaced(inp, rest);
      OnePlacementOneZone(inp, p);
      forall z | z in inp.zones
        ensures multiset(AddedClaims(placed)(z)) == multiset(AddedClaims([p])(z)) + multiset(AddedClaims(rest)(z))
      {
        AddedSplits(p, rest, z);
      }
      FlatMapSum(inp.zones, AddedClaims(placed), AddedClaims([p]), AddedClaims(rest));
    }
  }

  lemma NothingAdded(z: Zone)
    ensures AddedClaims([])(z) == []
  {
    hide ZoneKey;
  }

  lemma RenderedIsClaimedAndAdded(inp: Input, i: nat)
    requires Accepted(inp) && TemplateReady(inp) && i < |inp.zones|
    ensures multiset(RenderedIn(inp.hosts)(Output(inp)[i])) ==
            multiset(ZoneClaims(inp.hosts)(inp.zones[i])) + multiset(AddedClaims(Placements(inp))(inp.zones[i]))
  {
    hide Accepted, TemplateReady, Output, ZoneKey, Placements, RenderedFor, ClaimsFor;
    RenderedZone(inp, i);
    var z := inp.zones[i];
    FlatMapAppend(z.records, FlatMap(Placements(inp), AddTo(ZoneKey(z))), ClaimIn(z.name));
    OutputIsManaged(inp, i);
  }

  lemma OutputIsManaged(inp: Input, i: nat)
    requires i < |inp.zones|
    ensures Output(inp)[i].managed == inp.zones[i].managed
  {
  }

  /** The zone files hold, besides SOA and NS, exactly the claimed records. */
  lemma RenderedAreTheClaims(inp: Input)
    requires Accepted(inp) && TemplateReady(inp)
    ensures multiset(FlatMap(Output(inp), RenderedIn(inp.hosts))) == multiset(AllClaims(inp))
  {
    hide Accepted, TemplateReady, Output, Placements, ZoneClaims, AddedClaims, RenderedIn, AllClaims;
    forall i | 0 <= i < |inp.zones|
      ensures multiset(RenderedIn(inp.hosts)(Output(inp)[i])) == multiset(Both(inp)(inp.zones[i]))
    {
      RenderedIsClaimedAndAdded(inp, i);
    }
    FlatMapPointwise(Output(inp), inp.zones, RenderedIn(inp.hosts), Both(inp));
    ClaimsByZone(inp);
  }

  lemma ClaimsByZone(inp: Input)
    requires Accepted(inp)
    ensures multiset(FlatMap(inp.zones, Both(inp))) == multiset(AllClaims(inp))
  {
    hide Accepted, Placements, ZoneClaims, AddedClaims, ZonesFine, ByName;
    FlatMapSum(inp.zones, Both(inp), ZoneClaims(inp.hosts), AddedClaims(Placements(inp)));
    AcceptedHasFineZones(inp);
    forall p | p in Placements(inp)
      ensures p.zone in ByName(inp.zones) && ByName(inp.zones)[p.zone] < |inp.zones|
              && inp.zones[ByName(inp.zones)[p.zone]].managed
    {
      PlacementsAreManaged(inp, p);
    }
    AddedAreThePlaced(inp, Placements(inp));
  }

  function Both(inp: Input): Zone -> seq<Claim> {
    (z: Zone) => ZoneClaims(inp.hosts)(z) + AddedClaims(Placements(inp))(z)
  }
}
