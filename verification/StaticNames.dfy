/** Host names, aliases and reverse zone names for which the template renders what
    the filter has not claimed. */
module StaticNames {
  import opened Wrappers
  import opened Text
  import opened Sequences
  import opened Dns
  import opened StaticRecords
  import opened StaticProperties
  import opened StaticOwners
  import opened StaticCase

  // ----- what is rendered without a claim -----

  /** One zone and hosts of which the filter sees nothing in it. */
  lemma UnseenHosts(z: Zone, hosts: seq<Host>) returns (inp: Input)
    requires DnsName(z.name) == Ok(z.name) && z.managed && z.records == []
    requires forall h | h in hosts :: HostRecords(z, h) == []
    ensures inp.zones == [z] && inp.hosts == hosts
    ensures Accepted(inp) && LowerZones(inp) && PlainTypes(inp)
  {
    hide DnsName, Lower, HostRecords, RuntimeOwners;
    inp := Input([z], [], hosts, z.name);
    RuntimeZoneOf(z.name);
    LowerOfName(z.name);
    NothingClaimed(z, hosts);
    FlatMapOne(z, ZoneClaims(hosts));
    assert AllClaims(inp) == [];
    assert inp.zones[..1] == [z] && inp.zones[..1][..0] == [];
  }

  lemma LowerOfName(name: string)
    requires DnsName(name) == Ok(name)
    ensures Lower(name) == name
  {
    hide Lower, IsName;
  }

  lemma NothingClaimed(z: Zone, hosts: seq<Host>)
    requires z.records == [] && forall h | h in hosts :: HostRecords(z, h) == []
    ensures ZoneClaims(hosts)(z) == []
  {
    hide HostRecords;
    FlatMapEmpty(hosts, ClaimsFor(z));
  }

  /** All inventory lines of a single zone are in what is rendered. */
  lemma InventoryIsRendered(inp: Input, z: Zone)
    requires z.managed && inp.zones == [z]
    ensures exists before :: FlatMap(Output(inp), RenderedIn(inp.hosts)) == before + FlatMap(inp.hosts, RenderedFor(z))
  {
    hide SortRecords, Output, RenderedFor;
    OutputIsManaged(inp, 0);
    HandedOver(inp, 0);
    HandedOverInventory(inp, 0);
    var output := Output(inp)[0];
    assert Output(inp) == [output];
    FlatMapOne(output, RenderedIn(inp.hosts));
    var before := ClaimsIn(z.name, output.records);
    assert FlatMap(Output(inp), RenderedIn(inp.hosts)) == before + FlatMap(inp.hosts, RenderedFor(z));
  }

  /** Two hosts at one address whose PTR the filter does not see. */
  lemma UnseenPointers(z: Zone, h: Host, r: Record) returns (inp: Input)
    requires DnsName(z.name) == Ok(z.name) && z.managed && z.records == []
    requires TemplateRecords(z, h) == [r] && HostRecords(z, h) == []
    ensures inp.zones == [z] && inp.hosts == [h, h]
    ensures Accepted(inp) && LowerZones(inp) && PlainTypes(inp) && !DefinedOnce(inp)
  {
    hide DnsName, Lower, TemplateRecords, HostRecords, Accepted, TrueOwner, RuntimeOwners, ByName, Output, FlatMap;
    inp := UnseenHosts(z, [h, h]);
    var c := Claim(z.name, r);
    FlatMapOne(r, ClaimIn(z.name));
    assert inp.hosts == [h] + [h];
    FlatMapAppend([h], [h], RenderedFor(z));
    FlatMapOne(h, RenderedFor(z));
    assert RenderedFor(z)(h) == [c] && [c] + [c] == [c, c];
    InventoryIsRendered(inp, z);
    var rendered := FlatMap(Output(inp), RenderedIn(inp.hosts));
    var before :| rendered == before + [c, c];
    assert rendered[|before|] == rendered[|before| + 1] == c;
  }

  /** A host of which a line is rendered whose name is no DNS name. */
  lemma UnseenBreak(z: Zone, h: Host, r: Record) returns (inp: Input)
    requires DnsName(z.name) == Ok(z.name) && z.managed && z.records == []
    requires TemplateRecords(z, h) == [r] && HostRecords(z, h) == [] && '\n' in r.name
    ensures inp.zones == [z] && inp.hosts == [h]
    ensures Accepted(inp) && LowerZones(inp) && PlainTypes(inp) && !DefinedOnce(inp)
  {
    hide DnsName, Lower, TemplateRecords, HostRecords, Accepted, TrueOwner, RuntimeOwners, ByName, Output, FlatMap;
    inp := UnseenHosts(z, [h]);
    var c := Claim(z.name, r);
    FlatMapOne(r, ClaimIn(z.name));
    FlatMapOne(h, RenderedFor(z));
    InventoryIsRendered(inp, z);
    var rendered := FlatMap(Output(inp), RenderedIn(inp.hosts));
    var before :| rendered == before + [c];
    assert rendered[|before|] == c;
    BreakIsNoOwner(c);
  }

  lemma BreakIsNoOwner(c: Claim)
    requires '\n' in c.record.name
    ensures TrueOwner(c).Err?
  {
    hide IsName;
    assert '\n' in c.record.name + "." + c.zone;
    if IsName(c.record.name + "." + c.zone) {
      NameHasNoBreak(c.record.name + "." + c.zone);
    }
  }

  // ----- host names and aliases -----

  /** A host name or alias that no zone in lower case finds in front of a line break. */
  ghost predicate Unbroken(name: string) {
    forall zone | DnsName(zone) == Ok(zone) :: !Breaks(zone, name)
  }

  ghost predicate HostName(fqdn: string) {
    NotJustDots(fqdn) && Unbroken(fqdn)
  }

  ghost predicate HostNames(inp: Input, fqdns: seq<string>, aliases: seq<string>) {
    forall h | h in inp.hosts :: h.fqdn in fqdns && forall a | a in h.aliases :: a in aliases
  }

  /** For any host names and aliases: every name is defined once, whatever is
      declared, if and only if no host name is a run of two dots or more, and no
      host name and no alias ends in the name of a zone and a line break. */
  lemma HostNamesAreExact(fqdns: seq<string>, aliases: seq<string>)
    requires fqdns != []
    ensures (forall f | f in fqdns :: HostName(f)) && (forall a | a in aliases :: Unbroken(a)) <==>
              forall inp: Input
                | && Accepted(inp) && LowerZones(inp) && PlainTypes(inp) && ZonesRenderable(inp)
                  && HostNames(inp, fqdns, aliases) ::
                DefinedOnce(inp)
  {
    hide Accepted, LowerZones, PlainTypes, ZonesRenderable, DefinedOnce, NotJustDots, Unbroken;
    if (forall f | f in fqdns :: HostName(f)) && (forall a | a in aliases :: Unbroken(a)) {
      forall inp: Input
        | && Accepted(inp) && LowerZones(inp) && PlainTypes(inp) && ZonesRenderable(inp)
          && HostNames(inp, fqdns, aliases)
        ensures DefinedOnce(inp)
      {
        HostNamesAreReadable(inp, fqdns, aliases);
        RenderedOwnersAreDistinct(inp);
      }
    } else if a :| a in aliases && !Unbroken(a) {
      var inp := AliasBreakIsRendered(fqdns[0], a);
    } else {
      var f :| f in fqdns && !HostName(f);
      if !NotJustDots(f) {
        var inp := DotsAreRendered(f);
      } else {
        var inp := HostBreakIsRendered(f);
      }
    }
  }

  lemma HostNamesAreReadable(inp: Input, fqdns: seq<string>, aliases: seq<string>)
    requires Accepted(inp) && LowerZones(inp) && HostNames(inp, fqdns, aliases)
    requires (forall f | f in fqdns :: HostName(f)) && (forall a | a in aliases :: Unbroken(a))
    ensures HostsRenderable(inp)
  {
    hide Lower, IsName, Expand, ByName, KnownForward, RuntimeOwners, Pairs, Fine, AllClaims, DistinctBy, NotJustDots;
    forall z, h | z in inp.zones && z.managed && h in inp.hosts
      ensures Readable(z, h)
    {
      assert DnsName(z.name) == Ok(z.name);
    }
  }

  lemma BrokenZone(name: string) returns (zone: string)
    requires !Unbroken(name)
    ensures DnsName(zone) == Ok(zone) && Breaks(zone, name)
  {
    hide DnsName, Breaks;
    zone :| DnsName(zone) == Ok(zone) && Breaks(zone, name);
  }

  /** The template finds such a name, and the filter does not. */
  lemma BreakIsFound(zone: string, address: string, name: string)
    requires IsName(zone) && Breaks(zone, name)
    ensures StripOneDot(name) != "" && AddressIn(zone, address, RstripDots(name)) == []
    ensures exists r :: TemplateAddress(zone, address, StripOneDot(name)) == [r] && '\n' in r.name
  {
    hide IsName, RstripDots, StripOneDot;
    NameHasNoBreak(zone);
    NameIsNotEmpty(zone);
    ValidNameHasNoDotAtTheEnd(zone);
    var stripped, tail := StripOneDot(name), "." + zone + "\n";
    assert stripped[|stripped| - 1] == tail[|tail| - 1] == '\n';
    NeverInTheZone(zone, stripped);
    RstripKeepsBreak(name);
    NeverInTheZone(zone, RstripDots(name));
    var r := Record(stripped[..|stripped| - |zone| - 2] + "\n", A, address, None);
    assert TemplateAddress(zone, address, stripped) == [r] && '\n' in r.name;
  }

  lemma NeverInTheZone(zone: string, name: string)
    requires '\n' !in zone && zone != "" && name != "" && name[|name| - 1] == '\n'
    ensures !EndsWith(name, "." + zone)
  {
    var tail := "." + zone;
    forall k | 0 <= k < |name|
      ensures name[k..] != tail
    {
      assert name[k..][|name| - k - 1] == '\n' && '\n' !in tail;
    }
  }

  lemma RstripKeepsBreak(name: string)
    requires StripOneDot(name) != "" && StripOneDot(name)[|StripOneDot(name)| - 1] == '\n'
    ensures RstripDots(name) != "" && RstripDots(name)[|RstripDots(name)| - 1] == '\n'
  {
  }

  lemma HostBreakIsRendered(fqdn: string) returns (inp: Input)
    requires !Unbroken(fqdn)
    ensures Accepted(inp) && LowerZones(inp) && PlainTypes(inp) && ZonesRenderable(inp) && !DefinedOnce(inp)
    ensures forall h | h in inp.hosts :: h.fqdn == fqdn && h.aliases == []
  {
    hide RstripDots, StripOneDot, Accepted, LowerZones, PlainTypes, DefinedOnce, Lower, IsName, Unbroken, Breaks;
    hide TemplateAddress, AddressIn;
    var name := BrokenZone(fqdn);
    var z, h := Zone(name, true, ServerIdentity, []), Host(fqdn, "1", []);
    ValidNameHasNoDotAtTheEnd(name);
    BreakIsFound(name, "1", fqdn);
    var r :| TemplateAddress(name, "1", StripOneDot(fqdn)) == [r] && '\n' in r.name;
    inp := UnseenBreak(z, h, r);
  }

  lemma AliasBreakIsRendered(fqdn: string, alias: string) returns (inp: Input)
    requires !Unbroken(alias)
    ensures Accepted(inp) && LowerZones(inp) && PlainTypes(inp) && ZonesRenderable(inp) && !DefinedOnce(inp)
    ensures forall h | h in inp.hosts :: h.fqdn == fqdn && h.aliases == [alias]
  {
    hide RstripDots, StripOneDot, Accepted, LowerZones, PlainTypes, DefinedOnce, Lower, IsName, Unbroken, Breaks;
    hide TemplateRecords, HostRecords, TemplateAddress, AddressIn;
    var name := BrokenZone(alias);
    var z, h := Zone(name, true, AccessAliases, []), Host(fqdn, "1", [alias]);
    BreakIsFound(name, "1", alias);
    var r :| TemplateAddress(name, "1", StripOneDot(alias)) == [r] && '\n' in r.name;
    LinesOfAlias(z, h, alias);
    inp := UnseenBreak(z, h, r);
  }

  lemma LinesOfAlias(z: Zone, h: Host, alias: string)
    requires IsName(z.name) && z.mode == AccessAliases && h.aliases == [alias] && h.address != ""
    ensures TemplateRecords(z, h) == TemplateAddress(z.name, h.address, StripOneDot(alias))
    ensures HostRecords(z, h) == AddressIn(z.name, h.address, RstripDots(alias))
  {
    hide IsName, AliasRecords, TemplateAlias, RstripDots, StripOneDot, FlatMap, Split, ReverseZoneName;
    ValidNameHasNoDotAtTheEnd(z.name);
    FlatMapOne(alias, TemplateAlias(z.name, h));
    FlatMapOne(alias, AliasRecords(z, h));
    LineOfAlias(z, h, alias);
  }

  lemma LineOfAlias(z: Zone, h: Host, alias: string)
    requires h.address != ""
    ensures TemplateAlias(z.name, h)(alias) == TemplateAddress(z.name, h.address, StripOneDot(alias))
    ensures AliasRecords(z, h)(alias) == AddressIn(z.name, h.address, RstripDots(alias))
  {
    hide AddressIn, TemplateAddress, RstripDots, StripOneDot;
  }

  lemma ArpaLabels()
    ensures Split(ARPA[1..], '.') == ["in-addr", "arpa"] && '.' !in "1"
  {
    hide Split;
    SplitPart("arpa", "", '.');
    SplitPart("in-addr", "arpa", '.');
    assert ARPA[1..] == "in-addr" + "." + "arpa";
  }

  lemma OnesAreAName()
    ensures var name := ReverseZoneName("1", "1", "1"); IsName(name) && Lower(name) == name
  {
    hide Split, Lower;
    ArpaLabels();
    ReverseNameLabels("1", "1", "1");
    var name := ReverseZoneName("1", "1", "1");
    assert name == "1.1.1.in-addr.arpa";
    LowerWithoutCapitals(name);
    assert IsLabel("1") && IsLabel("in-addr") && IsLabel("arpa");
  }

  lemma DotsAreRendered(fqdn: string) returns (inp: Input)
    requires !NotJustDots(fqdn)
    ensures Accepted(inp) && LowerZones(inp) && PlainTypes(inp) && ZonesRenderable(inp) && !DefinedOnce(inp)
    ensures forall h | h in inp.hosts :: h.fqdn == fqdn && h.aliases == []
  {
    hide RstripDots, Split, Accepted, LowerZones, PlainTypes, DefinedOnce, Lower, IsName;
    var h := Host(fqdn, "1" + "." + ("1" + "." + "1" + "." + "1"), []);
    var name := ReverseZoneName("1", "1", "1");
    var z := Zone(name, true, ReversePtr, []);
    FourParts("1", "1", "1", "1");
    ReverseEndsWithArpa("1", "1", "1");
    OnesAreAName();
    ValidNameHasNoDotAtTheEnd(name);
    ReverseNamesMatch("1", "1", "1", name);
    inp := UnseenPointers(z, h, Record("1", PTR, StripOneDot(fqdn) + ".", None));
    assert inp.hosts == [h, h];
  }

  // ----- reverse zones -----

  ghost predicate ReverseNames(inp: Input, names: seq<string>) {
    forall z | z in inp.zones && z.managed && z.mode == ReversePtr :: z.name in names
  }

  /** For any names of reverse zones: every name is defined once, whatever is
      declared, if and only if the template takes none for three bare octets. */
  lemma ReverseNamesAreExact(names: seq<string>)
    requires forall n | n in names :: DnsName(n) == Ok(n)
    ensures (forall n | n in names :: ReverseName(n)) <==>
              forall inp: Input
                | && Accepted(inp) && LowerZones(inp) && PlainTypes(inp) && HostsRenderable(inp)
                  && ReverseNames(inp, names) ::
                DefinedOnce(inp)
  {
    hide Accepted, LowerZones, PlainTypes, HostsRenderable, DefinedOnce, ReverseName, Lower, DnsName;
    if forall n | n in names :: ReverseName(n) {
      forall inp: Input
        | && Accepted(inp) && LowerZones(inp) && PlainTypes(inp) && HostsRenderable(inp) && ReverseNames(inp, names)
        ensures DefinedOnce(inp)
      {
        RenderedOwnersAreDistinct(inp);
      }
    } else {
      var n :| n in names && !ReverseName(n);
      var inp := BareOctetsAreRendered(n);
    }
  }

  lemma BareOctetsAreRendered(name: string) returns (inp: Input)
    requires !ReverseName(name) && DnsName(name) == Ok(name)
    ensures Accepted(inp) && LowerZones(inp) && PlainTypes(inp) && HostsRenderable(inp) && !DefinedOnce(inp)
    ensures ReverseNames(inp, [name])
  {
    hide Accepted, LowerZones, PlainTypes, DefinedOnce, Lower, IsName, TemplateRecords, HostRecords;
    var z := Zone(name, true, ReversePtr, []);
    var h := BareOctets(z);
    inp := UnseenPointers(z, h, Record("1", PTR, "h.", None));
  }
}
