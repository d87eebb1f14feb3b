/** The order of the zone list does not matter to the merge either. */
module StaticZoneOrder {
  import opened Wrappers
  import opened Sequences
  import opened Dns
  import opened StaticRecords
  import opened StaticMerge

  /** The same input with its zones listed in another order. */
  ghost predicate ZonesPermuted(a: Input, b: Input) {
    multiset(a.zones) == multiset(b.zones) && b == a.(zones := b.zones)
  }

  lemma SameElements<T>(s: seq<T>, t: seq<T>)
    requires multiset(s) == multiset(t)
    ensures forall x :: x in s <==> x in t
    ensures |s| == |t|
  {
    assert forall x :: x in s <==> x in multiset(s);
    assert forall x :: x in t <==> x in multiset(t);
    assert |s| == |multiset(s)| == |multiset(t)| == |t|;
  }

  lemma PermutedZonesFine(s: seq<Zone>, t: seq<Zone>)
    requires multiset(s) == multiset(t)
    ensures ZonesFine(s) <==> ZonesFine(t)
  {
    hide DnsName, ZoneKey;
    SameElements(s, t);
    DistinctByPermutes(s, t, ZoneKey);
  }

  /** A zone is found by its name, wherever it is listed. */
  lemma SameZoneFound(s: seq<Zone>, t: seq<Zone>)
    requires multiset(s) == multiset(t) && ZonesFine(s)
    ensures ByName(s).Keys == ByName(t).Keys
    ensures forall k | k in ByName(s) ::
              ByName(s)[k] < |s| && ByName(t)[k] < |t| && s[ByName(s)[k]] == t[ByName(t)[k]]
  {
    hide DnsName, ZoneKey, ByName;
    ByNameKeys(s);
    ByNameKeys(t);
    SameElements(s, t);
    forall k: string
      ensures k in ByName(s) <==> k in ByName(t)
    {
      if k in ByName(s) {
        assert s[ByName(s)[k]] in t;
        var i :| 0 <= i < |t| && t[i] == s[ByName(s)[k]];
      }
      if k in ByName(t) {
        assert t[ByName(t)[k]] in s;
        var i :| 0 <= i < |s| && s[i] == t[ByName(t)[k]];
      }
    }
    forall k | k in ByName(s)
      ensures s[ByName(s)[k]] == t[ByName(t)[k]]
    {
      UniqueByKey(s, ZoneKey, s[ByName(s)[k]], t[ByName(t)[k]]);
    }
  }

  lemma PermutedExpansion(s: seq<Zone>, t: seq<Zone>, key: string, r: StaticRecord)
    requires multiset(s) == multiset(t) && ZonesFine(s)
    ensures Expand(s, ByName(s), key, r) == Expand(t, ByName(t), key, r)
    ensures KnownForward(s, ByName(s), key) <==> KnownForward(t, ByName(t), key)
  {
    hide DnsName, IsIpv4, AbsoluteName, ReverseZoneName, EndsWith, ByName, ZonesFine;
    SameZoneFound(s, t);
    assert forall k :: k in ByName(s) <==> k in ByName(s).Keys;
    assert forall k :: k in ByName(t) <==> k in ByName(t).Keys;
  }

  lemma PermutedPlacements(a: Input, b: Input)
    requires ZonesPermuted(a, b) && ZonesFine(a.zones)
    ensures Placements(a) == Placements(b) && StaticClaims(a) == StaticClaims(b)
  {
    hide Expand, Pairs, ByName, ZonesFine;
    var f, g := Expansion(a.zones, ByName(a.zones)), Expansion(b.zones, ByName(b.zones));
    forall p | p in Pairs(a.statics)
      ensures f(p) == g(p)
    {
      PermutedExpansion(a.zones, b.zones, p.0, p.1);
    }
    FlatMapSame(Pairs(a.statics), f, g);
    SameZoneFound(a.zones, b.zones);
    assert forall k :: k in ByName(a.zones) <==> k in ByName(a.zones).Keys;
    assert forall k :: k in ByName(b.zones) <==> k in ByName(b.zones).Keys;
    FlatMapSame(Placements(a), PlacedClaim(a.zones, ByName(a.zones)), PlacedClaim(b.zones, ByName(b.zones)));
  }

  lemma PermutedClaims(a: Input, b: Input)
    requires ZonesPermuted(a, b) && ZonesFine(a.zones)
    ensures multiset(AllClaims(a)) == multiset(AllClaims(b))
  {
    hide StaticClaims, ZoneClaims, ZonesFine;
    PermutedPlacements(a, b);
    FlatMapPermutes(a.zones, b.zones, ZoneClaims(a.hosts));
  }

  lemma PermutedAccepted(a: Input, b: Input)
    requires ZonesPermuted(a, b) && Accepted(a)
    ensures Accepted(b)
  {
    hide DnsName, ZonesFine, Expand, Fine, Owner, KnownForward, AllClaims, Pairs, ByName, RuntimeOwners;
    PermutedZonesFine(a.zones, b.zones);
    PermutedClaims(a, b);
    SameElements(AllClaims(a), AllClaims(b));
    DistinctByPermutes(AllClaims(a), AllClaims(b), Owner);
    SameZoneFound(a.zones, b.zones);
    forall s | s in b.statics
      ensures KnownForward(b.zones, ByName(b.zones), s.0)
    {
      PermutedExpansion(a.zones, b.zones, s.0, StaticRecord("", A, "", None, false));
    }
    forall p | p in Pairs(b.statics)
      ensures Expand(b.zones, ByName(b.zones), p.0, p.1).Ok?
    {
      PermutedExpansion(a.zones, b.zones, p.0, p.1);
    }
  }

  function Written(placed: seq<Placement>): Zone -> seq<Zone> {
    (z: Zone) => [OutputZone(z, placed)]
  }

  lemma {:induction false} WrittenAt(zones: seq<Zone>, placed: seq<Placement>)
    ensures |FlatMap(zones, Written(placed))| == |zones|
    ensures forall i | 0 <= i < |zones| :: FlatMap(zones, Written(placed))[i] == OutputZone(zones[i], placed)
  {
    hide OutputZone;
    if zones != [] {
      WrittenAt(zones[1..], placed);
    }
  }

  /** Listing the zones in another order changes neither acceptance nor what is
      written for each zone: the output is the same zones in the other order. */
  lemma ZoneOrderDoesNotMatter(a: Input, b: Input)
    requires ZonesPermuted(a, b)
    ensures Accepted(a) <==> Accepted(b)
    ensures Accepted(a) ==>
              && multiset(Output(a)) == multiset(Output(b))
              && forall i, j | 0 <= i < |a.zones| && 0 <= j < |b.zones| && a.zones[i] == b.zones[j] ::
                   Output(a)[i] == Output(b)[j]
  {
    hide Accepted, OutputZone, ZonesFine, Placements;
    if Accepted(b) {
      PermutedAccepted(b, a);
    }
    if Accepted(a) {
      PermutedAccepted(a, b);
      AcceptedZonesFine(a);
      PermutedPlacements(a, b);
      var placed := Placements(a);
      WrittenAt(a.zones, placed);
      WrittenAt(b.zones, placed);
      assert Output(a) == FlatMap(a.zones, Written(placed));
      assert Output(b) == FlatMap(b.zones, Written(placed));
      FlatMapPermutes(a.zones, b.zones, Written(placed));
    }
  }

  lemma AcceptedZonesFine(a: Input)
    requires Accepted(a)
    ensures ZonesFine(a.zones)
  {
    hide DnsName, Expand, Fine, KnownForward, AllClaims, Pairs, ByName;
  }
}
