/** The loops of dns_authoritative_static_zones, proved against the
    declarative merge. */
module StaticMerge {
  import opened Wrappers
  import opened Text
  import opened Sequences
  import opened Dns
  import opened StaticRecords

  // ----- claims -----

  lemma OwnersOfAppend(a: seq<Claim>, b: seq<Claim>)
    ensures OwnersOf(a + b) == OwnersOf(a) + OwnersOf(b)
  {
    hide Owner;
    assert forall c :: c in a + b <==> c in a || c in b;
  }

  lemma FitAppend(names: set<string>, runtime: set<string>, taken: set<string>, a: seq<Claim>, b: seq<Claim>)
    ensures Fit(names, runtime, taken, a + b) <==>
              Fit(names, runtime, taken, a) && Fit(names, runtime, taken + OwnersOf(a), b)
  {
    hide Owner;
    var s := a + b;
    assert forall c :: c in s <==> c in a || c in b;
    assert forall i | 0 <= i < |a| :: s[i] == a[i];
    assert forall i | 0 <= i < |b| :: s[|a| + i] == b[i];
    if Fit(names, runtime, taken, s) {
      assert DistinctBy(a, Owner);
      forall i, j | 0 <= i < j < |b|
        ensures Owner(b[i]) != Owner(b[j])
      {
        assert Owner(s[|a| + i]) != Owner(s[|a| + j]);
      }
      forall c | c in b
        ensures Owner(c).value !in taken + OwnersOf(a)
      {
        var j :| 0 <= j < |b| && b[j] == c;
        assert forall i | 0 <= i < |a| :: Owner(s[i]) != Owner(s[|a| + j]);
      }
    }
    if Fit(names, runtime, taken, a) && Fit(names, runtime, taken + OwnersOf(a), b) {
      FitBoth(names, runtime, taken, a, b);
    }
  }

  lemma FitBoth(names: set<string>, runtime: set<string>, taken: set<string>, a: seq<Claim>, b: seq<Claim>)
    requires Fit(names, runtime, taken, a) && Fit(names, runtime, taken + OwnersOf(a), b)
    ensures DistinctBy(a + b, Owner)
  {
    hide Owner;
    var s := a + b;
    forall i, j | 0 <= i < j < |s|
      ensures Owner(s[i]) != Owner(s[j])
    {
      if j >= |a| {
        assert s[j] == b[j - |a|] && s[j] in b;
        if i < |a| {
          assert s[i] == a[i] && s[i] in a;
          assert Owner(s[i]).value in OwnersOf(a);
        } else {
          assert s[i] == b[i - |a|];
        }
      } else {
        assert s[i] == a[i] && s[j] == a[j];
      }
    }
  }

  lemma FitOne(names: set<string>, runtime: set<string>, taken: set<string>, c: Claim)
    ensures Fit(names, runtime, taken, [c]) <==> Fine(names, runtime, c) && Owner(c).value !in taken
    ensures Owner(c).Ok? ==> OwnersOf([c]) == {Owner(c).value}
  {
    hide Owner;
    assert forall d :: d in [c] <==> d == c;
  }

  /** The closure claim, applied to a list of records in turn. */
  method ClaimAll(names: set<string>, runtime: set<string>, owners: set<string>, claims: seq<Claim>)
    returns (r: Result<set<string>>)
    ensures r.Ok? <==> Fit(names, runtime, owners, claims)
    ensures r.Ok? ==> r.value == owners + OwnersOf(claims)
  {
    hide Owner, Fit, OwnersOf;
    var taken := owners;
    assert Fit(names, runtime, owners, []) && OwnersOf([]) == {} by {
      EmptyFits(names, runtime, owners);
    }
    for i := 0 to |claims|
      invariant Fit(names, runtime, owners, claims[..i])
      invariant taken == owners + OwnersOf(claims[..i])
    {
      var c := claims[i];
      assert claims[..i + 1] == claims[..i] + [c];
      assert claims == claims[..i + 1] + claims[i + 1..];
      FitAppend(names, runtime, owners, claims[..i], [c]);
      FitAppend(names, runtime, owners, claims[..i + 1], claims[i + 1..]);
      FitOne(names, runtime, taken, c);
      OwnersOfAppend(claims[..i], [c]);
      var owner := Owner(c);
      if owner.Err? {
        return Err(InvalidName);
      }
      if c.record.kind == CNAME && owner.value in names {
        return Err(ApexCname);
      }
      if owner.value in runtime {
        return Err(RuntimeOwner);
      }
      if owner.value in taken {
        return Err(DuplicateOwner);
      }
      taken := taken + {owner.value};
    }
    assert claims[..|claims|] == claims;
    return Ok(taken);
  }

  lemma EmptyFits(names: set<string>, runtime: set<string>, taken: set<string>)
    ensures Fit(names, runtime, taken, []) && OwnersOf([]) == {}
  {
  }

  // ----- zones -----

  lemma {:induction false} ByNameKeys(zones: seq<Zone>)
    ensures forall k :: k in ByName(zones) <==> exists i :: 0 <= i < |zones| && ZoneKey(zones[i]) == k
    ensures forall k | k in ByName(zones) :: ByName(zones)[k] < |zones| && ZoneKey(zones[ByName(zones)[k]]) == k
    decreases |zones|
  {
    hide ZoneKey;
    if zones != [] {
      var prefix, last := zones[..|zones| - 1], |zones| - 1;
      ByNameKeys(prefix);
      assert forall i | 0 <= i < last :: zones[i] == prefix[i];
      forall k
        ensures k in ByName(zones) <==> exists i :: 0 <= i < |zones| && ZoneKey(zones[i]) == k
      {
        if k in ByName(prefix) {
          var i :| 0 <= i < |prefix| && ZoneKey(prefix[i]) == k;
          assert ZoneKey(zones[i]) == k;
        }
        assert forall i | 0 <= i < |zones| && ZoneKey(zones[i]) == k :: i == last || ZoneKey(prefix[i]) == k;
      }
    }
  }

  lemma ZonesFineAppend(zones: seq<Zone>, z: Zone)
    ensures ZonesFine(zones + [z]) <==>
              ZonesFine(zones) && DnsName(z.name).Ok? && ZoneKey(z) !in ByName(zones)
  {
    hide DnsName, ZoneKey;
    ByNameKeys(zones);
    DistinctByAppend(zones, z, ZoneKey);
    assert forall y :: y in zones + [z] <==> y in zones || y == z;
    assert ZoneKey(z) in Keys(zones, ZoneKey) <==> ZoneKey(z) in ByName(zones) by {
      if ZoneKey(z) in Keys(zones, ZoneKey) {
        var y :| y in zones && ZoneKey(y) == ZoneKey(z);
        var i :| 0 <= i < |zones| && zones[i] == y;
        assert ZoneKey(zones[i]) == ZoneKey(z);
      }
    }
  }

  lemma ZonesFinePrefix(zones: seq<Zone>, k: nat)
    requires k <= |zones| && ZonesFine(zones)
    ensures ZonesFine(zones[..k])
  {
    hide DnsName, ZoneKey;
  }

  /** The first loop: every zone under its lower-case name. */
  method AddZones(zones: seq<Zone>) returns (r: Result<map<string, nat>>)
    ensures r.Ok? <==> ZonesFine(zones)
    ensures r.Ok? ==> r.value == ByName(zones)
  {
    hide DnsName, ZoneKey, ZonesFine;
    var names: map<string, nat> := map[];
    assert ZonesFine(zones[..0]) by { NoZones(zones[..0]); }
    for i := 0 to |zones|
      invariant names == ByName(zones[..i]) && ZonesFine(zones[..i])
    {
      var z := zones[i];
      assert zones[..i + 1] == zones[..i] + [z];
      assert zones[..i + 1][..i] == zones[..i];
      ZonesFineAppend(zones[..i], z);
      if !ZonesFine(zones[..i + 1]) && ZonesFine(zones) {
        ZonesFinePrefix(zones, i + 1);
      }
      if DnsName(z.name).Err? {
        return Err(InvalidName);
      }
      if ZoneKey(z) in names {
        return Err(DuplicateZone);
      }
      names := names[ZoneKey(z) := i];
    }
    assert zones[..|zones|] == zones;
    return Ok(names);
  }

  lemma NoZones(zones: seq<Zone>)
    requires zones == []
    ensures ZonesFine(zones)
  {
  }

  // ----- static records -----

  /** All claims of the configuration and the inventory. */
  function Configured(inp: Input): seq<Claim> {
    FlatMap(inp.zones, ZoneClaims(inp.hosts))
  }

  function Placed(inp: Input, done: seq<(string, StaticRecord)>): seq<Placement> {
    FlatMap(done, Expansion(inp.zones, ByName(inp.zones)))
  }

  function ClaimsSoFar(inp: Input, placed: seq<Placement>): seq<Claim> {
    Configured(inp) + FlatMap(placed, PlacedClaim(inp.zones, ByName(inp.zones)))
  }

  function Filled(z: Zone, placed: seq<Placement>): Zone {
    z.(records := z.records + FlatMap(placed, AddTo(ZoneKey(z))))
  }

  ghost predicate Known(inp: Input, placed: seq<Placement>) {
    forall p | p in placed :: p.zone in ByName(inp.zones)
  }

  /** The state of the merge after some placements. */
  ghost predicate Progress(inp: Input, runtime: set<string>, placed: seq<Placement>,
                           owners: set<string>, result: seq<Zone>)
  {
    && Fit(ByName(inp.zones).Keys, runtime, {}, ClaimsSoFar(inp, placed))
    && owners == OwnersOf(ClaimsSoFar(inp, placed))
    && |result| == |inp.zones|
    && forall i | 0 <= i < |result| :: result[i] == Filled(inp.zones[i], placed)
  }

  lemma SoFarAppend(inp: Input, placed: seq<Placement>, more: seq<Placement>)
    ensures ClaimsSoFar(inp, placed + more) ==
            ClaimsSoFar(inp, placed) + FlatMap(more, PlacedClaim(inp.zones, ByName(inp.zones)))
  {
    FlatMapAppend(placed, more, PlacedClaim(inp.zones, ByName(inp.zones)));
  }

  /** zone["records"].append(record) */
  function AppendTo(result: seq<Zone>, names: map<string, nat>, p: Placement): seq<Zone> {
    if p.zone in names && names[p.zone] < |result|
    then result[names[p.zone] := result[names[p.zone]].(records := result[names[p.zone]].records + [p.record])]
    else result
  }

  lemma AppendFills(inp: Input, placed: seq<Placement>, p: Placement, result: seq<Zone>)
    requires ZonesFine(inp.zones) && p.zone in ByName(inp.zones)
    requires |result| == |inp.zones| && forall i | 0 <= i < |result| :: result[i] == Filled(inp.zones[i], placed)
    ensures var after := AppendTo(result, ByName(inp.zones), p);
            |after| == |inp.zones| && forall i | 0 <= i < |after| :: after[i] == Filled(inp.zones[i], placed + [p])
  {
    hide DnsName, ZoneKey, ByName, Filled;
    var names := ByName(inp.zones);
    ByNameKeys(inp.zones);
    var k := names[p.zone];
    var after := AppendTo(result, names, p);
    forall i | 0 <= i < |after|
      ensures after[i] == Filled(inp.zones[i], placed + [p])
    {
      FilledMore(inp.zones[i], placed, p);
      assert i != k ==> ZoneKey(inp.zones[i]) != ZoneKey(inp.zones[k]);
    }
  }

  lemma FilledMore(zone: Zone, placed: seq<Placement>, p: Placement)
    ensures var before := Filled(zone, placed);
            Filled(zone, placed + [p]) ==
            if p.zone == ZoneKey(zone) then before.(records := before.records + [p.record]) else before
  {
    hide ZoneKey;
    var key := ZoneKey(zone);
    FlatMapAppend(placed, [p], AddTo(key));
    FlatMapOne(p, AddTo(key));
    assert zone.records + (FlatMap(placed, AddTo(key)) + FlatMap([p], AddTo(key))) ==
           (zone.records + FlatMap(placed, AddTo(key))) + FlatMap([p], AddTo(key));
  }

  lemma PlacedClaimsOne(zones: seq<Zone>, names: map<string, nat>, p: Placement)
    requires p.zone in names && names[p.zone] < |zones|
    ensures FlatMap([p], PlacedClaim(zones, names)) == [Claim(zones[names[p.zone]].name, p.record)]
  {
  }

  /** Claiming and appending the one or two records of a static record. */
  method PlaceAll(inp: Input, names: map<string, nat>, runtime: set<string>, ghost placed: seq<Placement>,
                  owners: set<string>, result: seq<Zone>, more: seq<Placement>)
    returns (r: Result<(set<string>, seq<Zone>)>)
    requires ZonesFine(inp.zones) && names == ByName(inp.zones) && Known(inp, more)
    requires Progress(inp, runtime, placed, owners, result)
    ensures r.Ok? <==> Fit(names.Keys, runtime, {}, ClaimsSoFar(inp, placed + more))
    ensures r.Ok? ==> Progress(inp, runtime, placed + more, r.value.0, r.value.1)
  {
    hide ZonesFine, Fit, ByName, OwnersOf, AppendTo, ClaimsSoFar, Filled, PlacedClaim;
    var taken, zones := owners, result;
    assert placed + more[..0] == placed;
    for i := 0 to |more|
      invariant Progress(inp, runtime, placed + more[..i], taken, zones)
    {
      var p := more[i];
      var sofar := placed + more[..i];
      assert placed + more[..i + 1] == sofar + [p];
      assert placed + more == (sofar + [p]) + more[i + 1..];
      SoFarAppend(inp, sofar, [p]);
      SoFarAppend(inp, sofar + [p], more[i + 1..]);
      ByNameInRange(inp.zones);
      var claim := Claim(inp.zones[names[p.zone]].name, p.record);
      PlacedClaimsOne(inp.zones, names, p);
      var claimed := ClaimAll(names.Keys, runtime, taken, [claim]);
      FitAppend(names.Keys, runtime, {}, ClaimsSoFar(inp, sofar), [claim]);
      FitAppend(names.Keys, runtime, {}, ClaimsSoFar(inp, sofar + [p]),
                FlatMap(more[i + 1..], PlacedClaim(inp.zones, names)));
      assert {} + OwnersOf(ClaimsSoFar(inp, sofar)) == taken;
      if claimed.Err? {
        return Err(claimed.error);
      }
      OwnersOfAppend(ClaimsSoFar(inp, sofar), [claim]);
      AppendFills(inp, sofar, p, zones);
      taken := claimed.value;
      zones := AppendTo(zones, names, p);
    }
    assert more[..|more|] == more;
    return Ok((taken, zones));
  }

  lemma ByNameInRange(zones: seq<Zone>)
    ensures forall k | k in ByName(zones) :: ByName(zones)[k] < |zones|
  {
    ByNameKeys(zones);
  }

  lemma ExpansionIsKnown(inp: Input, key: string, r: StaticRecord)
    requires key in ByName(inp.zones) && Expand(inp.zones, ByName(inp.zones), key, r).Ok?
    ensures Known(inp, Expand(inp.zones, ByName(inp.zones), key, r).value)
  {
    hide IsIpv4, DnsName, AbsoluteName;
  }

  ghost predicate AllExpand(inp: Input, done: seq<(string, StaticRecord)>) {
    forall p | p in done :: Expand(inp.zones, ByName(inp.zones), p.0, p.1).Ok?
  }

  ghost predicate FitsSoFar(inp: Input, runtime: set<string>, placed: seq<Placement>) {
    Fit(ByName(inp.zones).Keys, runtime, {}, ClaimsSoFar(inp, placed))
  }

  lemma FitsPrefix(inp: Input, runtime: set<string>, placed: seq<Placement>, more: seq<Placement>)
    requires FitsSoFar(inp, runtime, placed + more)
    ensures FitsSoFar(inp, runtime, placed)
  {
    hide Fit, ClaimsSoFar;
    SoFarAppend(inp, placed, more);
    FitAppend(ByName(inp.zones).Keys, runtime, {}, ClaimsSoFar(inp, placed),
              FlatMap(more, PlacedClaim(inp.zones, ByName(inp.zones))));
  }

  lemma PlacedAppend(inp: Input, a: seq<(string, StaticRecord)>, b: seq<(string, StaticRecord)>)
    ensures Placed(inp, a + b) == Placed(inp, a) + Placed(inp, b)
  {
    FlatMapAppend(a, b, Expansion(inp.zones, ByName(inp.zones)));
  }

  lemma PlacedOne(inp: Input, key: string, r: StaticRecord)
    requires Expand(inp.zones, ByName(inp.zones), key, r).Ok?
    ensures Placed(inp, [(key, r)]) == Expand(inp.zones, ByName(inp.zones), key, r).value
  {
    hide Expand;
    FlatMapOne((key, r), Expansion(inp.zones, ByName(inp.zones)));
  }

  lemma PairsOfAppend(key: string, a: seq<StaticRecord>, b: seq<StaticRecord>)
    ensures PairsOf((key, a + b)) == PairsOf((key, a)) + PairsOf((key, b))
  {
    FlatMapAppend(a, b, PairWith(key));
  }

  lemma PairsOfOne(key: string, r: StaticRecord)
    ensures PairsOf((key, [r])) == [(key, r)]
  {
    FlatMapOne(r, PairWith(key));
  }

  /** What the loop over one zone's static records needs to succeed. */
  ghost predicate EntryFits(inp: Input, runtime: set<string>, placed: seq<Placement>,
                            pairs: seq<(string, StaticRecord)>)
  {
    AllExpand(inp, pairs) && FitsSoFar(inp, runtime, placed + Placed(inp, pairs))
  }

  lemma EntryPrefixFits(inp: Input, runtime: set<string>, placed: seq<Placement>,
                        a: seq<(string, StaticRecord)>, b: seq<(string, StaticRecord)>)
    requires EntryFits(inp, runtime, placed, a + b)
    ensures EntryFits(inp, runtime, placed, a)
  {
    hide Expand;
    PlacedAppend(inp, a, b);
    assert placed + (Placed(inp, a) + Placed(inp, b)) == (placed + Placed(inp, a)) + Placed(inp, b);
    FitsPrefix(inp, runtime, placed + Placed(inp, a), Placed(inp, b));
    assert forall p | p in a :: p in a + b;
  }

  lemma EntryStep(inp: Input, runtime: set<string>, placed: seq<Placement>,
                  done: seq<(string, StaticRecord)>, key: string, r: StaticRecord)
    requires EntryFits(inp, runtime, placed, done)
    ensures var e := Expand(inp.zones, ByName(inp.zones), key, r);
            && (EntryFits(inp, runtime, placed, done + [(key, r)]) <==>
                  e.Ok? && FitsSoFar(inp, runtime, (placed + Placed(inp, done)) + e.value))
            && (e.Ok? ==> placed + Placed(inp, done + [(key, r)]) == (placed + Placed(inp, done)) + e.value)
  {
    hide Expand, FitsSoFar;
    assert (key, r) in done + [(key, r)];
    assert forall p | p in done + [(key, r)] :: p in done || p == (key, r);
    if Expand(inp.zones, ByName(inp.zones), key, r).Ok? {
      PlacedAppend(inp, done, [(key, r)]);
      PlacedOne(inp, key, r);
      var e := Expand(inp.zones, ByName(inp.zones), key, r).value;
      assert placed + (Placed(inp, done) + e) == (placed + Placed(inp, done)) + e;
    }
  }

  /** The loop over the static records of one zone. */
  method PlaceEntry(inp: Input, names: map<string, nat>, runtime: set<string>, ghost placed: seq<Placement>,
                    owners: set<string>, result: seq<Zone>, key: string, records: seq<StaticRecord>)
    returns (r: Result<(set<string>, seq<Zone>)>)
    requires ZonesFine(inp.zones) && names == ByName(inp.zones) && key in names
    requires Progress(inp, runtime, placed, owners, result)
    ensures r.Ok? <==> EntryFits(inp, runtime, placed, PairsOf((key, records)))
    ensures r.Ok? ==> Progress(inp, runtime, placed + Placed(inp, PairsOf((key, records))), r.value.0, r.value.1)
  {
    hide ZonesFine, Fit, ByName, OwnersOf, ClaimsSoFar, Filled, Expand, PairsOf, EntryFits, Placed;
    var taken, zones := owners, result;
    NothingPlaced(inp, runtime, placed, owners, result, key);
    assert records[..0] == [];
    for i := 0 to |records|
      invariant EntryFits(inp, runtime, placed, PairsOf((key, records[..i])))
      invariant Progress(inp, runtime, placed + Placed(inp, PairsOf((key, records[..i]))), taken, zones)
    {
      var done := PairsOf((key, records[..i]));
      var rec := records[i];
      assert records[..i + 1] == records[..i] + [rec];
      assert records == records[..i + 1] + records[i + 1..];
      PairsOfAppend(key, records[..i], [rec]);
      PairsOfOne(key, rec);
      PairsOfAppend(key, records[..i + 1], records[i + 1..]);
      EntryStep(inp, runtime, placed, done, key, rec);
      if EntryFits(inp, runtime, placed, PairsOf((key, records))) {
        EntryPrefixFits(inp, runtime, placed, done + [(key, rec)], PairsOf((key, records[i + 1..])));
      }
      var expanded := Expand(inp.zones, names, key, rec);
      if expanded.Err? {
        return Err(expanded.error);
      }
      ExpansionIsKnown(inp, key, rec);
      var step := PlaceAll(inp, names, runtime, placed + Placed(inp, done), taken, zones, expanded.value);
      if step.Err? {
        return Err(step.error);
      }
      taken, zones := step.value.0, step.value.1;
    }
    assert records[..|records|] == records;
    return Ok((taken, zones));
  }

  lemma NothingPlaced(inp: Input, runtime: set<string>, placed: seq<Placement>, owners: set<string>,
                      result: seq<Zone>, key: string)
    requires Progress(inp, runtime, placed, owners, result)
    ensures PairsOf((key, [])) == [] && EntryFits(inp, runtime, placed, [])
    ensures placed + Placed(inp, []) == placed
  {
    hide Fit, ClaimsSoFar;
    assert placed + [] == placed;
  }

  lemma PairsAppend(a: seq<(string, seq<StaticRecord>)>, entry: (string, seq<StaticRecord>))
    ensures Pairs(a + [entry]) == Pairs(a) + PairsOf(entry)
  {
    FlatMapAppend(a, [entry], PairsOf);
    FlatMapOne(entry, PairsOf);
  }

  lemma EntriesStep(inp: Input, runtime: set<string>, done: seq<(string, StaticRecord)>,
                    more: seq<(string, StaticRecord)>)
    requires EntryFits(inp, runtime, [], done)
    ensures EntryFits(inp, runtime, [], done + more) <==> EntryFits(inp, runtime, Placed(inp, done), more)
    ensures Placed(inp, done + more) == Placed(inp, done) + Placed(inp, more)
  {
    hide Expand, FitsSoFar, Placed;
    PlacedAppend(inp, done, more);
    assert forall p :: p in done + more <==> p in done || p in more;
    assert [] + Placed(inp, done + more) == Placed(inp, done) + Placed(inp, more);
  }

  ghost predicate AllKnown(inp: Input, statics: seq<(string, seq<StaticRecord>)>) {
    forall s | s in statics :: KnownForward(inp.zones, ByName(inp.zones), s.0)
  }

  /** The loop over the static record mapping. */
  method PlaceStatics(inp: Input, names: map<string, nat>, runtime: set<string>, owners: set<string>, result: seq<Zone>)
    returns (r: Result<seq<Zone>>)
    requires ZonesFine(inp.zones) && names == ByName(inp.zones)
    requires Progress(inp, runtime, [], owners, result)
    ensures r.Ok? <==> AllKnown(inp, inp.statics) && EntryFits(inp, runtime, [], Pairs(inp.statics))
    ensures r.Ok? ==> |r.value| == |inp.zones| &&
                      forall i | 0 <= i < |r.value| :: r.value[i] == Filled(inp.zones[i], Placements(inp))
  {
    hide ZonesFine, Fit, ByName, OwnersOf, ClaimsSoFar, Filled, Pairs, PairsOf, EntryFits, Placed, KnownForward;
    var taken, zones := owners, result;
    NothingPlaced(inp, runtime, [], owners, result, "");
    assert inp.statics[..0] == [] && Pairs(inp.statics[..0]) == [] by { NoPairs(); }
    for i := 0 to |inp.statics|
      invariant AllKnown(inp, inp.statics[..i]) && EntryFits(inp, runtime, [], Pairs(inp.statics[..i]))
      invariant Progress(inp, runtime, Placed(inp, Pairs(inp.statics[..i])), taken, zones)
    {
      var done, entry := Pairs(inp.statics[..i]), inp.statics[i];
      assert inp.statics[..i + 1] == inp.statics[..i] + [entry];
      assert inp.statics == inp.statics[..i + 1] + inp.statics[i + 1..];
      PairsAppend(inp.statics[..i], entry);
      EntriesStep(inp, runtime, done, PairsOf(entry));
      PairsPrefix(inp.statics, i + 1);
      if EntryFits(inp, runtime, [], Pairs(inp.statics)) {
        EntryPrefixFits(inp, runtime, [], Pairs(inp.statics[..i + 1]), Pairs(inp.statics[i + 1..]));
      }
      if !KnownForward(inp.zones, names, entry.0) {
        assert entry in inp.statics;
        return Err(UnknownZone);
      }
      assert entry.0 in names by { KnownIsNamed(inp.zones, names, entry.0); }
      assert (entry.0, entry.1) == entry;
      var step := PlaceEntry(inp, names, runtime, Placed(inp, done), taken, zones, entry.0, entry.1);
      if step.Err? {
        return Err(step.error);
      }
      taken, zones := step.value.0, step.value.1;
    }
    assert inp.statics[..|inp.statics|] == inp.statics;
    PlacementsArePlaced(inp);
    return Ok(zones);
  }

  lemma NoPairs()
    ensures Pairs([]) == []
  {
  }

  lemma KnownIsNamed(zones: seq<Zone>, names: map<string, nat>, key: string)
    requires KnownForward(zones, names, key)
    ensures key in names
  {
  }

  lemma PairsPrefix(statics: seq<(string, seq<StaticRecord>)>, k: nat)
    requires k <= |statics|
    ensures Pairs(statics) == Pairs(statics[..k]) + Pairs(statics[k..])
  {
    FlatMapAppend(statics[..k], statics[k..], PairsOf);
    assert statics == statics[..k] + statics[k..];
  }

  lemma PlacementsArePlaced(inp: Input)
    ensures Placements(inp) == Placed(inp, Pairs(inp.statics))
    ensures AllClaims(inp) == ClaimsSoFar(inp, Placements(inp))
  {
  }

  /** Acceptance in the terms of the loops. */
  lemma AcceptedByParts(inp: Input)
    ensures var runtime := DnsName(RstripDots(inp.runtimeZone));
            Accepted(inp) <==>
              && runtime.Ok? && ZonesFine(inp.zones) && AllKnown(inp, inp.statics)
              && EntryFits(inp, RuntimeOwners(runtime.value), [], Pairs(inp.statics))
  {
    hide DnsName, ZonesFine, Expand, Owner, Pairs, KnownForward, RuntimeOwners, AllClaims, ClaimsSoFar;
    PlacementsArePlaced(inp);
    assert [] + Placed(inp, Pairs(inp.statics)) == Placements(inp);
  }

  /** The loop over configured and inventory records. */
  method ClaimConfigured(inp: Input, names: map<string, nat>, runtime: set<string>) returns (r: Result<set<string>>)
    requires names == ByName(inp.zones)
    ensures r.Ok? <==> Fit(names.Keys, runtime, {}, Configured(inp))
    ensures r.Ok? ==> r.value == OwnersOf(Configured(inp))
  {
    hide Fit, OwnersOf, ByName, ZoneClaims;
    var owners: set<string> := {};
    var zoneClaims := ZoneClaims(inp.hosts);
    EmptyFits(names.Keys, runtime, {});
    assert inp.zones[..0] == [] && FlatMap(inp.zones[..0], zoneClaims) == [];
    for i := 0 to |inp.zones|
      invariant Fit(names.Keys, runtime, {}, FlatMap(inp.zones[..i], zoneClaims))
      invariant owners == OwnersOf(FlatMap(inp.zones[..i], zoneClaims))
    {
      var before, z := FlatMap(inp.zones[..i], zoneClaims), inp.zones[i];
      assert inp.zones[..i + 1] == inp.zones[..i] + [z];
      assert inp.zones == inp.zones[..i + 1] + inp.zones[i + 1..];
      FlatMapAppend(inp.zones[..i], [z], zoneClaims);
      FlatMapAppend(inp.zones[..i + 1], inp.zones[i + 1..], zoneClaims);
      FlatMapOne(z, zoneClaims);
      FitAppend(names.Keys, runtime, {}, before, zoneClaims(z));
      FitAppend(names.Keys, runtime, {}, before + zoneClaims(z), FlatMap(inp.zones[i + 1..], zoneClaims));
      OwnersOfAppend(before, zoneClaims(z));
      assert {} + owners == owners;
      var claimed := ClaimAll(names.Keys, runtime, owners, zoneClaims(z));
      if claimed.Err? {
        return Err(claimed.error);
      }
      owners := claimed.value;
    }
    assert inp.zones[..|inp.zones|] == inp.zones;
    return Ok(owners);
  }

  lemma StartProgress(inp: Input, runtime: set<string>)
    ensures EntryFits(inp, runtime, [], Pairs(inp.statics)) ==>
              Fit(ByName(inp.zones).Keys, runtime, {}, Configured(inp))
    ensures Fit(ByName(inp.zones).Keys, runtime, {}, Configured(inp)) ==>
              Progress(inp, runtime, [], OwnersOf(Configured(inp)), inp.zones)
  {
    hide Fit, Configured, Expand, OwnersOf, Pairs, Placed;
    assert ClaimsSoFar(inp, []) == Configured(inp);
    if EntryFits(inp, runtime, [], Pairs(inp.statics)) {
      FitsPrefix(inp, runtime, [], Placed(inp, Pairs(inp.statics)));
    }
    forall i | 0 <= i < |inp.zones|
      ensures inp.zones[i] == Filled(inp.zones[i], [])
    {
      assert inp.zones[i].records + [] == inp.zones[i].records;
    }
  }

  /** Static records and their PTRs only ever go to managed zones. */
  lemma PlacementsAreManaged(inp: Input, p: Placement)
    requires ZonesFine(inp.zones) && AllKnown(inp, inp.statics) && AllExpand(inp, Pairs(inp.statics))
    requires p in Placements(inp)
    ensures p.zone in ByName(inp.zones) && ByName(inp.zones)[p.zone] < |inp.zones|
    ensures inp.zones[ByName(inp.zones)[p.zone]].managed
  {
    hide ByName, Expand, DnsName, ZonesFine, AllClaims, KnownForward;
    var expansion := Expansion(inp.zones, ByName(inp.zones));
    FlatMapContains(Pairs(inp.statics), expansion, p);
    var pair :| pair in Pairs(inp.statics) && p in expansion(pair);
    PairHasEntry(inp.statics, pair);
    var entry :| entry in inp.statics && entry.0 == pair.0;
    assert KnownForward(inp.zones, ByName(inp.zones), entry.0);
    ExpansionIsManaged(inp, pair.0, pair.1);
  }

  lemma PairHasEntry(statics: seq<(string, seq<StaticRecord>)>, pair: (string, StaticRecord))
    requires pair in Pairs(statics)
    ensures exists entry :: entry in statics && entry.0 == pair.0 && pair.1 in entry.1
  {
    FlatMapContains(statics, PairsOf, pair);
    var entry :| entry in statics && pair in PairsOf(entry);
    FlatMapContains(entry.1, PairWith(entry.0), pair);
  }

  lemma ExpansionIsManaged(inp: Input, key: string, r: StaticRecord)
    requires KnownForward(inp.zones, ByName(inp.zones), key)
    requires Expand(inp.zones, ByName(inp.zones), key, r).Ok?
    ensures forall p | p in Expand(inp.zones, ByName(inp.zones), key, r).value ::
              && p.zone in ByName(inp.zones) && ByName(inp.zones)[p.zone] < |inp.zones|
              && inp.zones[ByName(inp.zones)[p.zone]].managed
  {
    hide IsIpv4, DnsName, AbsoluteName, ByName, ReverseZoneName;
  }

  lemma NothingInUnmanaged(inp: Input, runtime: set<string>, i: nat)
    requires ZonesFine(inp.zones) && AllKnown(inp, inp.statics) && EntryFits(inp, runtime, [], Pairs(inp.statics))
    requires i < |inp.zones| && !inp.zones[i].managed
    ensures Filled(inp.zones[i], Placements(inp)) == inp.zones[i]
  {
    hide DnsName, Expand, KnownForward, ZoneKey, Placements, Pairs;
    var z := inp.zones[i];
    forall p | p in Placements(inp)
      ensures AddTo(ZoneKey(z))(p) == []
    {
      PlacementsAreManaged(inp, p);
      ByNameKeys(inp.zones);
    }
    FlatMapEmpty(Placements(inp), AddTo(ZoneKey(z)));
    assert z.records + [] == z.records;
  }

  /** dns_authoritative_static_zones accepts exactly the inputs of the
      declarative merge, and returns its zones. */
  method Merge(inp: Input) returns (r: Result<seq<Zone>>)
    ensures r.Ok? <==> Accepted(inp)
    ensures r.Ok? ==> r.value == Output(inp)
  {
    hide DnsName, ZonesFine, Fit, OwnersOf, ByName, Configured, ClaimsSoFar, Placements, Accepted, EntryFits,
      Pairs, RuntimeOwners, Owner;
    AcceptedByParts(inp);
    var runtimeZone := DnsName(RstripDots(inp.runtimeZone));
    if runtimeZone.Err? {
      return Err(runtimeZone.error);
    }
    var runtime := RuntimeOwners(runtimeZone.value);
    var names := AddZones(inp.zones);
    if names.Err? {
      return Err(names.error);
    }
    var owners := ClaimConfigured(inp, names.value, runtime);
    StartProgress(inp, runtime);
    if owners.Err? {
      return Err(owners.error);
    }
    var placed := PlaceStatics(inp, names.value, runtime, owners.value, inp.zones);
    if placed.Err? {
      return Err(placed.error);
    }
    var result := placed.value;
    for i := 0 to |result|
      invariant |result| == |inp.zones|
      invariant forall j | 0 <= j < i :: result[j] == OutputZone(inp.zones[j], Placements(inp))
      invariant forall j | i <= j < |result| :: result[j] == Filled(inp.zones[j], Placements(inp))
    {
      if result[i].managed {
        result := result[i := result[i].(records := SortRecords(result[i].records))];
      } else {
        NothingInUnmanaged(inp, runtime, i);
      }
    }
    assert result == Output(inp);
    return Ok(result);
  }
}
