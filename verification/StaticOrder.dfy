/** Rearranging the input of the merge changes neither what is accepted nor what
    is written. */
module StaticOrder {
  import opened Wrappers
  import opened Text
  import opened Sequences
  import opened Dns
  import opened RecordOrder
  import opened StaticRecords
  import opened StaticMerge

  /** The same zones, hosts and static declarations, with the records of each
      managed zone, the hosts, the static mapping and its lists in any order. */
  ghost predicate Rearranged(a: Input, b: Input) {
    && a.runtimeZone == b.runtimeZone
    && SameZones(a.zones, b.zones)
    && multiset(a.hosts) == multiset(b.hosts)
    && multiset(Pairs(a.statics)) == multiset(Pairs(b.statics))
    && (forall key :: Declares(a.statics, key) <==> Declares(b.statics, key))
  }

  ghost predicate Declares(statics: seq<(string, seq<StaticRecord>)>, key: string) {
    exists s :: s in statics && s.0 == key
  }

  ghost predicate SameZones(s: seq<Zone>, t: seq<Zone>) {
    |s| == |t| && forall i | 0 <= i < |s| :: SameZone(s[i], t[i])
  }

  ghost predicate SameZone(x: Zone, y: Zone) {
    && x.name == y.name && x.managed == y.managed && x.mode == y.mode
    && (if x.managed then multiset(x.records) == multiset(y.records) else x.records == y.records)
  }

  // ----- the parts that do not look at the lists -----

  lemma {:induction false} SameByName(s: seq<Zone>, t: seq<Zone>)
    requires SameZones(s, t)
    ensures ByName(s) == ByName(t)
    decreases |s|
  {
    hide ZoneKey;
    if s != [] {
      SameByName(s[..|s| - 1], t[..|t| - 1]);
      var x, y := s[|s| - 1], t[|t| - 1];
      assert SameZone(x, y);
      assert ZoneKey(x) == ZoneKey(y) by { SameKey(x, y); }
    }
  }

  lemma SameKey(x: Zone, y: Zone)
    requires x.name == y.name
    ensures ZoneKey(x) == ZoneKey(y)
  {
  }

  lemma SameExpansion(s: seq<Zone>, t: seq<Zone>, names: map<string, nat>, key: string, r: StaticRecord)
    requires SameZones(s, t)
    ensures Expand(s, names, key, r) == Expand(t, names, key, r)
    ensures KnownForward(s, names, key) <==> KnownForward(t, names, key)
  {
    hide DnsName, IsIpv4, AbsoluteName, ReverseZoneName, EndsWith;
    assert forall i | 0 <= i < |s| :: SameZone(s[i], t[i]);
  }

  lemma SamePlacements(a: Input, b: Input)
    requires Rearranged(a, b)
    ensures ByName(a.zones) == ByName(b.zones)
    ensures multiset(Placements(a)) == multiset(Placements(b))
  {
    hide Expand, Pairs, ByName;
    SameByName(a.zones, b.zones);
    var names := ByName(a.zones);
    var f, g := Expansion(a.zones, names), Expansion(b.zones, names);
    FlatMapPermutes(Pairs(a.statics), Pairs(b.statics), f);
    forall p | p in Pairs(b.statics)
      ensures f(p) == g(p)
    {
      SameExpansion(a.zones, b.zones, names, p.0, p.1);
    }
    FlatMapSame(Pairs(b.statics), f, g);
  }

  lemma SameStaticClaims(a: Input, b: Input)
    requires Rearranged(a, b)
    ensures multiset(StaticClaims(a)) == multiset(StaticClaims(b))
  {
    hide Placements, ByName;
    SamePlacements(a, b);
    var names := ByName(a.zones);
    var f, g := PlacedClaim(a.zones, names), PlacedClaim(b.zones, names);
    FlatMapPermutes(Placements(a), Placements(b), f);
    assert forall i | 0 <= i < |a.zones| :: SameZone(a.zones[i], b.zones[i]);
    FlatMapSame(Placements(b), f, g);
  }

  lemma SameHostRecords(x: Zone, y: Zone, h: Host)
    requires x.name == y.name && x.mode == y.mode
    ensures HostRecords(x, h) == HostRecords(y, h)
  {
    hide RstripDots, AddressIn, ReverseZoneName;
    FlatMapSame(h.aliases, AliasRecords(x, h), AliasRecords(y, h));
  }

  lemma SameZoneClaims(x: Zone, y: Zone, hosts: seq<Host>, others: seq<Host>)
    requires SameZone(x, y) && multiset(hosts) == multiset(others)
    ensures multiset(ZoneClaims(hosts)(x)) == multiset(ZoneClaims(others)(y))
  {
    hide HostRecords;
    if x.managed {
      FlatMapPermutes(x.records, y.records, ClaimIn(x.name));
      FlatMapPermutes(hosts, others, ClaimsFor(x));
      forall h | h in others
        ensures ClaimsFor(x)(h) == ClaimsFor(y)(h)
      {
        SameHostRecords(x, y, h);
      }
      FlatMapSame(others, ClaimsFor(x), ClaimsFor(y));
    }
  }

  lemma SameClaims(a: Input, b: Input)
    requires Rearranged(a, b)
    ensures multiset(AllClaims(a)) == multiset(AllClaims(b))
  {
    hide StaticClaims, ZoneClaims;
    SameStaticClaims(a, b);
    forall i | 0 <= i < |a.zones|
      ensures multiset(ZoneClaims(a.hosts)(a.zones[i])) == multiset(ZoneClaims(b.hosts)(b.zones[i]))
    {
      assert SameZone(a.zones[i], b.zones[i]);
      SameZoneClaims(a.zones[i], b.zones[i], a.hosts, b.hosts);
    }
    FlatMapPointwise(a.zones, b.zones, ZoneClaims(a.hosts), ZoneClaims(b.hosts));
  }

  lemma SameZonesFine(s: seq<Zone>, t: seq<Zone>)
    requires SameZones(s, t) && ZonesFine(s)
    ensures ZonesFine(t)
  {
    hide DnsName, ZoneKey;
    forall z | z in t
      ensures DnsName(z.name).Ok?
    {
      var i :| 0 <= i < |t| && t[i] == z;
      assert SameZone(s[i], t[i]) && s[i] in s;
    }
    forall i, j | 0 <= i < j < |t|
      ensures ZoneKey(t[i]) != ZoneKey(t[j])
    {
      assert SameZone(s[i], t[i]) && SameZone(s[j], t[j]);
      SameKey(s[i], t[i]);
      SameKey(s[j], t[j]);
    }
  }

  lemma RearrangedIsSymmetric(a: Input, b: Input)
    requires Rearranged(a, b)
    ensures Rearranged(b, a)
  {
    assert forall i | 0 <= i < |a.zones| :: SameZone(a.zones[i], b.zones[i]);
  }

  lemma AcceptedCarriesOver(a: Input, b: Input)
    requires Rearranged(a, b) && Accepted(a)
    ensures Accepted(b)
  {
    hide DnsName, ZonesFine, Expand, Fine, Owner, KnownForward, AllClaims, Pairs, ByName, RuntimeOwners;
    SameByName(a.zones, b.zones);
    SameZonesFine(a.zones, b.zones);
    SameClaims(a, b);
    DistinctByPermutes(AllClaims(a), AllClaims(b), Owner);
    var names := ByName(a.zones);
    forall s | s in b.statics
      ensures KnownForward(b.zones, names, s.0)
    {
      assert Declares(b.statics, s.0);
      var e :| e in a.statics && e.0 == s.0;
      assert KnownForward(a.zones, names, e.0);
      SameExpansion(a.zones, b.zones, names, s.0, StaticRecord("", A, "", None, false));
    }
    forall p | p in Pairs(b.statics)
      ensures Expand(b.zones, names, p.0, p.1).Ok?
    {
      assert p in multiset(Pairs(b.statics));
      assert p in Pairs(a.statics);
      SameExpansion(a.zones, b.zones, names, p.0, p.1);
    }
    forall c | c in AllClaims(b)
      ensures c in AllClaims(a)
    {
      assert c in multiset(AllClaims(b));
    }
  }

  // ----- the records of one zone have distinct names -----

  lemma OwnerByName(zone: string, r: Record, s: Record)
    ensures NameKey(r) == NameKey(s) && Owner(Claim(zone, r)).Ok? && Owner(Claim(zone, s)).Ok? ==>
              Owner(Claim(zone, r)) == Owner(Claim(zone, s))
  {
    hide IsName;
    LowerApex(r.name);
    LowerApex(s.name);
    LowerAppend(r.name, "." + zone);
    LowerAppend(s.name, "." + zone);
    assert r.name + "." + zone == r.name + ("." + zone) && s.name + "." + zone == s.name + ("." + zone);
  }

  lemma LowerApex(name: string)
    ensures Lower(name) == "@" <==> name == "@"
  {
    LowerIsIdempotent(name);
    if |name| == 1 {
      assert Lower(name) == [LowerChar(name[0])] + Lower(name[1..]);
      assert name == [name[0]];
    }
  }

  lemma {:induction false} ClaimsOfAdded(inp: Input, i: nat, placed: seq<Placement>)
    requires ZonesFine(inp.zones) && i < |inp.zones|
    ensures var key := ZoneKey(inp.zones[i]);
            multiset(ClaimsIn(inp.zones[i].name, FlatMap(placed, AddTo(key)))) <=
            multiset(FlatMap(placed, PlacedClaim(inp.zones, ByName(inp.zones))))
  {
    hide ZoneKey, DnsName, ByName;
    var z, names := inp.zones[i], ByName(inp.zones);
    var key := ZoneKey(z);
    if placed != [] {
      var p := placed[0];
      ClaimsOfAdded(inp, i, placed[1..]);
      FlatMapAppend(AddTo(key)(p), FlatMap(placed[1..], AddTo(key)), ClaimIn(z.name));
      if p.zone == key {
        FlatMapOne(p.record, ClaimIn(z.name));
        KeyFindsZone(inp.zones, i);
      }
    }
  }

  lemma KeyFindsZone(zones: seq<Zone>, i: nat)
    requires ZonesFine(zones) && i < |zones|
    ensures ZoneKey(zones[i]) in ByName(zones) && ByName(zones)[ZoneKey(zones[i])] == i
  {
    hide ZoneKey, DnsName;
    ByNameKeys(zones);
    var k := ByName(zones)[ZoneKey(zones[i])];
    assert ZoneKey(zones[k]) == ZoneKey(zones[i]);
  }

  /** The records of one published zone are among the claims. */
  lemma ZoneRecordsAreClaims(inp: Input, i: nat)
    requires ZonesFine(inp.zones) && i < |inp.zones| && inp.zones[i].managed
    ensures var z := inp.zones[i];
            multiset(ClaimsIn(z.name, Filled(z, Placements(inp)).records)) <= multiset(AllClaims(inp))
  {
    hide ZonesFine, ZoneKey, ByName, Placements, HostRecords, ClaimIn, PlacedClaim, AddTo;
    var z := inp.zones[i];
    var added := FlatMap(Placements(inp), AddTo(ZoneKey(z)));
    FlatMapAppend(z.records, added, ClaimIn(z.name));
    ClaimsOfAdded(inp, i, Placements(inp));
    FlatMapOfElement(inp.zones, z, ZoneClaims(inp.hosts));
  }

  lemma DistinctClaimsDistinctNames(names: set<string>, runtime: set<string>, zone: string, records: seq<Record>)
    requires DistinctBy(ClaimsIn(zone, records), Owner)
    requires forall c | c in ClaimsIn(zone, records) :: Fine(names, runtime, c)
    ensures DistinctBy(records, NameKey)
  {
    hide Owner, NameKey;
    var claims := ClaimsIn(zone, records);
    ClaimsAreRecords(zone, records);
    forall j, k | 0 <= j < k < |records|
      ensures NameKey(records[j]) != NameKey(records[k])
    {
      assert claims[j] in claims && claims[k] in claims;
      OwnerByName(zone, records[j], records[k]);
    }
  }

  lemma ZoneRecordsAreDistinct(inp: Input, i: nat)
    requires Accepted(inp) && i < |inp.zones| && inp.zones[i].managed
    ensures DistinctBy(Filled(inp.zones[i], Placements(inp)).records, NameKey)
  {
    hide ZonesFine, Expand, ByName, Owner, Placements, NameKey, KnownForward, RuntimeOwners, Pairs, AllClaims,
      ClaimsIn, Fine, Filled, DistinctBy;
    var z := inp.zones[i];
    var claims := ClaimsIn(z.name, Filled(z, Placements(inp)).records);
    ZoneRecordsAreClaims(inp, i);
    DistinctBySub(claims, AllClaims(inp), Owner);
    forall c | c in claims
      ensures c in AllClaims(inp)
    {
      assert c in multiset(claims);
      assert c in multiset(AllClaims(inp));
    }
    DistinctClaimsDistinctNames(ByName(inp.zones).Keys, RuntimeOwners(DnsName(RstripDots(inp.runtimeZone)).value),
                                z.name, Filled(z, Placements(inp)).records);
  }

  lemma {:induction false} ClaimsAreRecords(zone: string, records: seq<Record>)
    ensures var claims := ClaimsIn(zone, records);
            |claims| == |records| && forall i | 0 <= i < |records| :: claims[i] == Claim(zone, records[i])
  {
    if records != [] {
      ClaimsAreRecords(zone, records[1..]);
    }
  }

  lemma SameOutputZone(a: Input, b: Input, i: nat)
    requires Rearranged(a, b) && Accepted(a) && i < |a.zones|
    ensures OutputZone(a.zones[i], Placements(a)) == OutputZone(b.zones[i], Placements(b)).(name := a.zones[i].name)
    ensures b.zones[i].name == a.zones[i].name
  {
    hide Accepted, Placements, SortRecords, ZoneKey;
    var x, y := a.zones[i], b.zones[i];
    assert SameZone(x, y);
    if x.managed {
      SameKey(x, y);
      SamePlacements(a, b);
      FlatMapPermutes(Placements(a), Placements(b), AddTo(ZoneKey(x)));
      ZoneRecordsAreDistinct(a, i);
      SortForgetsOrder(x.records + FlatMap(Placements(a), AddTo(ZoneKey(x))),
                       y.records + FlatMap(Placements(b), AddTo(ZoneKey(x))));
    }
  }

  /** Order never matters: a rearranged input is accepted exactly when the
      original is, and the zones written are equal, record for record. */
  lemma OrderDoesNotMatter(a: Input, b: Input)
    requires Rearranged(a, b)
    ensures Accepted(a) <==> Accepted(b)
    ensures Accepted(a) ==> Output(a) == Output(b)
  {
    hide Accepted, OutputZone;
    RearrangedIsSymmetric(a, b);
    if Accepted(a) {
      AcceptedCarriesOver(a, b);
      forall i | 0 <= i < |a.zones|
        ensures Output(a)[i] == Output(b)[i]
      {
        SameOutputZone(a, b, i);
        OutputKeepsName(b.zones[i], Placements(b));
      }
    }
    if Accepted(b) {
      AcceptedCarriesOver(b, a);
    }
  }

  lemma OutputKeepsName(z: Zone, placed: seq<Placement>)
    ensures OutputZone(z, placed).name == z.name
  {
  }
}
