/** What is published is also served: NSD answers a name from the closest zone it
    is configured with, and nothing below a delegation or a redirection. */
module StaticVisible {
  import opened Wrappers
  import opened Text
  import opened Sequences
  import opened Dns
  import opened StaticRecords
  import opened StaticMerge
  import opened StaticProperties
  import opened StaticOwners
  import opened StaticCase

  predicate Within(owner: string, zone: string) {
    owner == zone || EndsWith(owner, "." + zone)
  }

  predicate IsDelegation(kind: string) {
    ReadsAs(kind, "ns", 2)
  }

  /** A DNAME (RFC 6672). */
  predicate IsRedirection(kind: string) {
    ReadsAs(kind, "dname", 39)
  }

  predicate IsCut(kind: string) {
    IsDelegation(kind) || IsRedirection(kind)
  }

  /** Names below this record's owner are not answered from its zone. */
  predicate Cuts(c: Claim) {
    IsRedirection(c.record.kind) || (IsDelegation(c.record.kind) && c.record.name != "@")
  }

  function Rendered(inp: Input): seq<Claim> {
    FlatMap(Output(inp), RenderedIn(inp.hosts))
  }

  /** No configured zone is closer to the owner than the record's own zone, and
      no record of that zone cuts it off. */
  ghost predicate Visible(zones: seq<Zone>, rendered: seq<Claim>, c: Claim) {
    && TrueOwner(c).Ok?
    && (forall z | z in zones && Within(TrueOwner(c).value, Lower(z.name)) :: |z.name| <= |c.zone|)
    && forall d | d in rendered && d.zone == c.zone && Cuts(d) && TrueOwner(d).Ok? ::
         !EndsWith(TrueOwner(c).value, "." + TrueOwner(d).value)
  }

  ghost predicate AllVisible(inp: Input) {
    forall c | c in Rendered(inp) :: Visible(inp.zones, Rendered(inp), c)
  }

  /** No listed name lies below another. */
  ghost predicate NoneBelow(names: seq<string>) {
    forall m, n | m in names && n in names :: !EndsWith(Lower(m), "." + Lower(n))
  }

  ghost predicate NoCuts(types: seq<string>) {
    forall t | t in types :: !IsCut(t)
  }

  // ----- when everything is visible -----

  lemma OwnerIsWithin(inp: Input, c: Claim)
    requires Accepted(inp) && c in AllClaims(inp)
    ensures TrueOwner(c).Ok? && Within(TrueOwner(c).value, Lower(c.zone))
  {
    hide ZonesFine, Expand, ByName, KnownForward, RuntimeOwners, Pairs, AllClaims, DistinctBy, IsName, Lower;
    if c.record.name != "@" {
      LowerAppend(c.record.name, "." + c.zone);
      LowerAppend(".", c.zone);
      LowerWithoutCapitals(".");
      assert c.record.name + "." + c.zone == c.record.name + ("." + c.zone);
    }
  }

  /** Of two zones that hold a name, the longer lies below the other. */
  lemma ZonesNest(owner: string, zone: string, longer: string)
    requires Within(owner, zone) && Within(owner, longer) && |zone| < |longer|
    ensures EndsWith(longer, "." + zone)
  {
    var tail := "." + zone;
    var k := |owner| - |longer|;
    assert owner[k..] == longer;
    assert owner[|owner| - |tail|..] == tail;
    assert longer[|longer| - |tail|..] == owner[k..][|longer| - |tail|..] == owner[|owner| - |tail|..];
  }

  lemma WrittenAreNoCuts()
    ensures !IsCut(A) && !IsCut(CNAME) && !IsCut(PTR)
  {
    LowerAt(A);
    LowerAt(CNAME);
    LowerAt(PTR);
    LowerAt(CNAME[..4]);
  }

  lemma ClaimsDoNotCut(inp: Input, types: seq<string>, c: Claim)
    requires Types(inp, types) && NoCuts(types) && c in AllClaims(inp)
    ensures !Cuts(c)
  {
    hide AllClaims, IsDelegation, IsRedirection;
    WrittenAreNoCuts();
    ClaimKind(inp, c);
  }

  /** Without nested zones and cuts all that is rendered is visible. */
  lemma NothingIsHidden(inp: Input, names: seq<string>, types: seq<string>)
    requires Accepted(inp) && Renderable(inp) && Names(inp, names) && Types(inp, types)
    requires NoneBelow(names) && NoCuts(types)
    ensures AllVisible(inp)
  {
    hide Accepted, Renderable, Types, NoCuts, Rendered, AllClaims, Lower, TrueOwner, Within, Cuts;
    RenderedHaveClaims(inp);
    forall c | c in Rendered(inp)
      ensures Visible(inp.zones, Rendered(inp), c)
    {
      assert exists d :: d in AllClaims(inp) && Slot(d) == Slot(c) by {
        RenderedIsFlat(inp);
      }
      var d :| d in AllClaims(inp) && Slot(d) == Slot(c);
      SameOwners(c, d);
      OwnerIsWithin(inp, d);
      ClaimIsInAZone(inp, d);
      NoCloserZone(inp, names, d);
      forall e | e in Rendered(inp)
        ensures !Cuts(e)
      {
        RenderedIsFlat(inp);
        var f :| f in AllClaims(inp) && Slot(f) == Slot(e);
        SameOwners(e, f);
        ClaimsDoNotCut(inp, types, f);
      }
    }
  }

  lemma RenderedIsFlat(inp: Input)
    ensures Rendered(inp) == FlatMap(Output(inp), RenderedIn(inp.hosts))
  {
  }

  lemma SameOwners(c: Claim, d: Claim)
    requires Slot(c) == Slot(d)
    ensures TrueOwner(c) == TrueOwner(d) && c.zone == d.zone && (Cuts(c) <==> Cuts(d))
  {
  }

  lemma NoCloserZone(inp: Input, names: seq<string>, c: Claim)
    requires Names(inp, names) && NoneBelow(names) && TrueOwner(c).Ok?
    requires Within(TrueOwner(c).value, Lower(c.zone)) && exists z :: z in inp.zones && z.name == c.zone
    ensures forall z | z in inp.zones && Within(TrueOwner(c).value, Lower(z.name)) :: |z.name| <= |c.zone|
  {
    hide TrueOwner, Lower, Within, EndsWith;
    var own :| own in inp.zones && own.name == c.zone;
    var i :| 0 <= i < |inp.zones| && inp.zones[i] == own;
    assert names[i] in names;
    forall z | z in inp.zones && Within(TrueOwner(c).value, Lower(z.name))
      ensures |z.name| <= |c.zone|
    {
      LowerIsIdempotent(z.name);
      LowerIsIdempotent(c.zone);
      var k :| 0 <= k < |inp.zones| && inp.zones[k] == z;
      assert names[k] in names;
      if |z.name| > |c.zone| {
        ZonesNest(TrueOwner(c).value, Lower(c.zone), Lower(z.name));
      }
    }
  }

  // ----- what hides a record -----

  /** A name that lies below a zone, in any case, is a name in that zone. */
  lemma NameBelow(name: string, zone: string, prefix: string)
    requires IsName(name) && IsName(zone) && Lower(name) == prefix + "." + Lower(zone)
    ensures IsName(prefix + "." + zone) && Lower(prefix + "." + zone) == Lower(name) && prefix != "@"
  {
    hide IsName, Lower;
    var full := prefix + "." + zone;
    assert full == prefix + ("." + zone) && Lower(name) == prefix + ("." + Lower(zone));
    LowerIsIdempotent(name);
    LowerIsIdempotent(zone);
    LowerAppend(prefix, "." + zone);
    LowerAppend(".", zone);
    LowerAppend(prefix, "." + Lower(zone));
    LowerAppend(".", Lower(zone));
    LowerWithoutCapitals(".");
    NameInAnyCase(name);
    NameInAnyCase(full);
    NoSignInName(full);
    assert prefix != "" ==> prefix[0] == full[0] && full[0] in full;
  }

  lemma NoSignInName(name: string)
    requires IsName(name)
    ensures '@' !in name
  {
    var labels := Split(name, '.');
    forall i | 0 <= i < |labels|
      ensures '@' !in labels[i]
    {
      assert IsLabel(labels[i]);
    }
    if '@' in name {
      var k := PartWith(name, '.', '@');
    }
  }

  /** A host named in the zone. */
  lemma HostInZone(z: Zone, h: Host, prefix: string)
    requires IsName(h.fqdn) && h.fqdn == prefix + "." + z.name && z.mode == ServerIdentity && h.address != ""
    ensures HostRecords(z, h) == [Record(prefix, A, h.address, None)] && OneDot(h.fqdn)
  {
    hide IsName, RstripDots;
    ValidNameHasNoDotAtTheEnd(h.fqdn);
    NoDotNoStrip(h.fqdn);
    NameHasNoBreak(h.fqdn);
    assert h.fqdn == prefix + ("." + z.name);
    assert h.fqdn[|prefix|..] == "." + z.name;
  }

  /** One host in one zone, under a given name. */
  lemma SoleHost(names: seq<string>, j: nat, prefix: string, runtime: string) returns (inp: Input, c: Claim)
    requires ZoneNames(names) && j < |names| && DnsName(runtime).Ok? && |prefix| + 1 + |names[j]| <= |runtime|
    requires IsName(prefix + "." + names[j]) && prefix != "@"
    ensures Names(inp, names) && Types(inp, []) && Accepted(inp) && TemplateReady(inp)
    ensures AllClaims(inp) == [c] && c.zone == names[j] && c.record.name == prefix
  {
    hide IsName, Lower, ByName, RuntimeOwners, TrueOwner, HostRecords, Accepted, OneDot, AllClaims;
    var zone, h := names[j], Host(prefix + "." + names[j], "192.0.2.1", []);
    inp := SoleRecords(names, j, ServerIdentity, [], [h], runtime);
    HostInZone(inp.zones[j], h, prefix);
    var record := Record(prefix, A, h.address, None);
    c := Claim(zone, record);
    FlatMapOne(record, ClaimIn(zone));
    FlatMapOne(h, ClaimsFor(inp.zones[j]));
    assert AllClaims(inp) == [c];
    WrittenKinds();
    NotReserved(prefix + "." + zone, runtime);
  }

  lemma NotReserved(name: string, runtime: string)
    requires |name| <= |runtime|
    ensures Lower(name) !in RuntimeOwners(Lower(runtime))
  {
    hide Lower;
    LowerAt(name);
    LowerAt(runtime);
    assert forall o | o in RuntimeOwners(Lower(runtime)) :: |o| > |runtime|;
  }

  /** In a zone above another one of the list, a host under that other zone's name
      is accepted, and its address is never answered. */
  lemma BelowIsHidden(names: seq<string>, i: nat, j: nat) returns (inp: Input)
    requires ZoneNames(names) && i < |names| && j < |names| && EndsWith(Lower(names[i]), "." + Lower(names[j]))
    ensures Names(inp, names) && Types(inp, []) && Accepted(inp) && TemplateReady(inp) && !AllVisible(inp)
  {
    hide IsName, Lower, Accepted, TemplateReady, AllVisible, AllClaims, Types;
    var below, zone := Lower(names[i]), names[j];
    LowerAt(names[i]);
    LowerAt(zone);
    var prefix := below[..|below| - |zone| - 1];
    assert below == prefix + ("." + Lower(zone));
    assert names[i] in names && zone in names;
    NameBelow(names[i], zone, prefix);
    var c;
    inp, c := SoleHost(names, j, prefix, names[i]);
    ClaimIsRendered(inp, c);
    CloserZoneHides(inp, c, inp.zones[i]);
  }

  lemma CloserZoneHides(inp: Input, c: Claim, z: Zone)
    requires c in Rendered(inp) && z in inp.zones && |z.name| > |c.zone|
    requires TrueOwner(c) == Ok(Lower(z.name))
    ensures !AllVisible(inp)
  {
    hide TrueOwner, Lower, Rendered;
    assert !Visible(inp.zones, Rendered(inp), c);
  }

  lemma ClaimIsRendered(inp: Input, c: Claim)
    requires Accepted(inp) && TemplateReady(inp) && c in AllClaims(inp)
    ensures c in Rendered(inp)
  {
    hide Accepted, TemplateReady, Output, RenderedIn, AllClaims, FlatMap;
    RenderedAreTheClaims(inp);
    assert c in multiset(AllClaims(inp));
    assert c in multiset(Rendered(inp));
  }

  /** The zones "b" and "a.b": the record "a" of the outer zone is never answered. */
  lemma InnerZoneHides() returns (inp: Input)
    ensures Names(inp, ["b", "a.b"]) && LowerZones(inp) && Accepted(inp) && TemplateReady(inp) && !AllVisible(inp)
  {
    hide IsName, Lower, Accepted, TemplateReady, AllVisible, Types;
    MeetingNames();
    LowerIsIdempotent("A.b");
    assert "a.b" == "a" + "." + "b";
    assert EndsWith("a.b", "." + "b");
    inp := BelowIsHidden(["b", "a.b"], 1, 0);
  }

  lemma TwoClaims(zone: string, first: Record, second: Record)
    ensures ClaimsIn(zone, [first, second]) == [Claim(zone, first), Claim(zone, second)]
  {
    hide FlatMap;
    assert [first, second] == [first] + [second];
    FlatMapAppend([first], [second], ClaimIn(zone));
    FlatMapOne(first, ClaimIn(zone));
    FlatMapOne(second, ClaimIn(zone));
  }

  /** Two records of one type, one under the other. */
  lemma OneUnderTheOther(names: seq<string>, k: nat, kind: string) returns (inp: Input, c: Claim, d: Claim)
    requires ZoneNames(names) && k < |names| && |names[k]| <= 249 && kind != CNAME
    ensures Names(inp, names) && Types(inp, [kind]) && Accepted(inp) && TemplateReady(inp)
    ensures c in AllClaims(inp) && d in AllClaims(inp) && c.zone == d.zone == names[k]
    ensures c.record.name == "a" && c.record.kind == kind
    ensures TrueOwner(c) == Ok("a." + Lower(names[k])) && TrueOwner(d) == Ok("a.a." + Lower(names[k]))
  {
    hide IsName, Lower, ByName, RuntimeOwners, Accepted, AllClaims, ClaimsIn, FlatMap, ClaimsFor;
    var first, second := Record("a", kind, "", None), Record("a.a", kind, "", None);
    var zone := names[k];
    inp := SoleRecords(names, k, NoInventory, [first, second], [], zone);
    c, d := Claim(zone, first), Claim(zone, second);
    TwoClaims(zone, first, second);
    NoHosts(inp.zones[k]);
    assert AllClaims(inp) == [c, d];
    CutOwners(zone);
  }

  lemma NoHosts(z: Zone)
    ensures FlatMap([], ClaimsFor(z)) == []
  {
  }

  lemma OneEndsWithTheOther(zone: string)
    ensures EndsWith("a.a." + zone, "." + ("a." + zone))
  {
    assert ("a.a." + zone)[1..] == "." + ("a." + zone);
  }

  /** Whatever lies below a delegation or redirection is accepted, and not answered. */
  lemma CutHides(names: seq<string>, k: nat, kind: string) returns (inp: Input)
    requires ZoneNames(names) && k < |names| && |names[k]| <= 249 && IsCut(kind)
    ensures Names(inp, names) && Types(inp, [kind]) && Accepted(inp) && TemplateReady(inp) && !AllVisible(inp)
  {
    hide IsName, Lower, Accepted, TemplateReady, AllVisible, AllClaims, IsDelegation, IsRedirection, Types, Rendered;
    hide TrueOwner, EndsWith;
    WrittenAreNoCuts();
    var c, d;
    inp, c, d := OneUnderTheOther(names, k, kind);
    ClaimIsRendered(inp, c);
    ClaimIsRendered(inp, d);
    OneEndsWithTheOther(Lower(names[k]));
    CutIsAbove(inp, c, d);
  }

  lemma CutOwners(zone: string)
    requires IsName(zone) && |zone| <= 249
    ensures IsName("a" + "." + zone) && IsName("a.a" + "." + zone)
    ensures Lower("a" + "." + zone) == "a." + Lower(zone) && Lower("a.a" + "." + zone) == "a.a." + Lower(zone)
    ensures Lower("a" + "." + zone) !in RuntimeOwners(Lower(zone))
    ensures Lower("a.a" + "." + zone) !in RuntimeOwners(Lower(zone))
  {
    hide IsName, Lower;
    var name := "a" + "." + zone;
    NameUnder("a", zone);
    NameUnder("a", name);
    assert "a.a" + "." + zone == "a" + "." + name;
    LowerWithoutCapitals("a.");
    LowerWithoutCapitals("a.a.");
    LowerAppend("a.", zone);
    LowerAppend("a.a.", zone);
    assert "a." + zone == name && "a.a." + zone == "a.a" + "." + zone;
    LowerAt(zone);
    assert forall o | o in RuntimeOwners(Lower(zone)) :: |o| > |zone| + 4;
  }

  lemma CutIsAbove(inp: Input, c: Claim, d: Claim)
    requires c in Rendered(inp) && d in Rendered(inp) && c.zone == d.zone && Cuts(c)
    requires TrueOwner(c).Ok? && TrueOwner(d).Ok? && EndsWith(TrueOwner(d).value, "." + TrueOwner(c).value)
    ensures !AllVisible(inp)
  {
    hide TrueOwner, Rendered, Cuts;
    assert !Visible(inp.zones, Rendered(inp), d);
  }

  /** Exactly when everything that is accepted is also answered: for any zone names,
      one of which has room for two more labels of a letter, and any configured types,
      when no zone lies below another and no type delegates or redirects. */
  lemma VisibleIsExact(names: seq<string>, types: seq<string>)
    requires ZoneNames(names) && exists n :: n in names && |n| <= 249
    ensures NoneBelow(names) && NoCuts(types) <==>
              forall inp: Input | Names(inp, names) && Types(inp, types) && Accepted(inp) && Renderable(inp) ::
                AllVisible(inp)
  {
    hide Accepted, TemplateReady, Renderable, AllVisible, Lower, IsName, EndsWith, IsCut;
    if NoneBelow(names) && NoCuts(types) {
      forall inp: Input | Names(inp, names) && Types(inp, types) && Accepted(inp) && Renderable(inp)
        ensures AllVisible(inp)
      {
        NothingIsHidden(inp, names, types);
      }
    } else if !NoneBelow(names) {
      var m, n :| m in names && n in names && EndsWith(Lower(m), "." + Lower(n));
      var i :| 0 <= i < |names| && names[i] == m;
      var j :| 0 <= j < |names| && names[j] == n;
      var inp := BelowIsHidden(names, i, j);
      ReadyIsRenderable(inp);
    } else {
      var t :| t in types && IsCut(t);
      var n :| n in names && |n| <= 249;
      var k :| 0 <= k < |names| && names[k] == n;
      var inp := CutHides(names, k, t);
      ReadyIsRenderable(inp);
    }
  }

  // ----- an address and its name -----

  /** What NSD answers for a name. */
  ghost function Answers(inp: Input, name: string): set<Claim> {
    set c | c in Rendered(inp) && TrueOwner(c) == Ok(name) && Visible(inp.zones, Rendered(inp), c)
  }

  /** The name under which an address is looked up. */
  function PointerName(r: StaticRecord): string
    requires |Split(r.value, '.')| == 4
  {
    Split(r.value, '.')[3] + "." + ReverseZone(r)
  }

  /** The name of a static record. */
  function FullName(key: string, r: StaticRecord): string {
    TargetName(key, Forward(r).name)
  }

  lemma RecordIsRendered(inp: Input, i: nat, r: Record)
    requires i < |inp.zones| && inp.zones[i].managed && r in Output(inp)[i].records
    ensures Claim(inp.zones[i].name, r) in Rendered(inp)
  {
    hide SortRecords, Placements, RenderedFor;
    var z := Output(inp)[i];
    OutputIsManaged(inp, i);
    FlatMapContains(z.records, ClaimIn(z.name), Claim(z.name, r));
    assert Claim(z.name, r) in RenderedIn(inp.hosts)(z);
    FlatMapContains(Output(inp), RenderedIn(inp.hosts), Claim(z.name, r));
  }

  /** In lower-case zones a rendered record shares its name with no other. */
  lemma OnlyAnswer(inp: Input, c: Claim)
    requires Accepted(inp) && Renderable(inp) && LowerZones(inp) && c in Rendered(inp) && TrueOwner(c).Ok?
    requires AllVisible(inp)
    ensures Answers(inp, TrueOwner(c).value) == {c}
  {
    hide Accepted, Renderable, Owner, AllClaims, TrueOwner, Lower, Visible, DistinctBy, Output, RenderedIn, FlatMap;
    RenderedHaveClaims(inp);
    forall d | d in Rendered(inp)
      ensures TrueOwner(d) == Owner(d)
    {
      var e :| e in AllClaims(inp) && Slot(e) == Slot(d);
      ClaimIsInAZone(inp, e);
      OwnerInLowerZone(d);
    }
    forall d | d in Answers(inp, TrueOwner(c).value)
      ensures d == c
    {
      UniqueByKey(Rendered(inp), Owner, d, c);
    }
  }

  lemma KeysAreNames(inp: Input, key: string)
    requires LowerZones(inp) && key in ByName(inp.zones)
    ensures ByName(inp.zones)[key] < |inp.zones| && inp.zones[ByName(inp.zones)[key]].name == key
  {
    hide Lower, ByName;
    ByNameKeys(inp.zones);
  }

  lemma TrueOwnerIsLower(c: Claim)
    requires Owner(c).Ok?
    ensures TrueOwner(c) == Ok(Lower(Owner(c).value))
  {
    hide IsName, Lower;
    LowerIsIdempotent(c.record.name + "." + c.zone);
  }

  lemma PointerOwner(inp: Input, key: string, r: StaticRecord)
    requires Accepted(inp) && (key, r) in Pairs(inp.statics) && r.ptr
    requires LowerZones(inp) && |Split(r.value, '.')| == 4 && ReverseZone(r) in ByName(inp.zones)
    requires Owner(Claim(ReverseZone(r), Reverse(key, r))).Ok?
    ensures Owner(Claim(ReverseZone(r), Reverse(key, r))) == Ok(PointerName(r))
    ensures Lower(PointerName(r)) == PointerName(r)
  {
    hide Accepted, Pairs, IsName, Lower, ReverseZone, Forward, TargetName, ByName;
    KeysAreNames(inp, ReverseZone(r));
    NotTheApex(inp, key, r);
    var octet := Split(r.value, '.')[3];
    assert Reverse(key, r).name == octet;
    LowerWithoutCapitals(octet);
    LowerWithoutCapitals(".");
    LowerAppend(octet, ".");
    LowerAppend(octet + ".", ReverseZone(r));
  }

  lemma ClaimHasOwner(inp: Input, c: Claim)
    requires Accepted(inp) && c in AllClaims(inp)
    ensures Owner(c).Ok?
  {
    hide ZonesFine, Expand, ByName, KnownForward, RuntimeOwners, Pairs, AllClaims, DistinctBy, Owner;
  }

  /** Forward-confirmed reverse DNS, as it is answered: where nothing is hidden, the
      address of an accepted ptr: true record leads to one PTR, which names the record,
      and that name leads to one address record, with that address. */
  lemma PtrRoundTrip(inp: Input, key: string, r: StaticRecord)
    requires Accepted(inp) && Renderable(inp) && LowerZones(inp) && AllVisible(inp)
    requires (key, r) in Pairs(inp.statics) && r.ptr
    ensures |Split(r.value, '.')| == 4
    ensures Answers(inp, PointerName(r)) == {Claim(ReverseZone(r), Reverse(key, r))}
    ensures Reverse(key, r).kind == PTR && Reverse(key, r).value == FullName(key, r) + "."
    ensures Answers(inp, FullName(key, r)) == {Claim(key, Forward(r))}
    ensures Forward(r).kind == A && Forward(r).value == r.value
  {
    hide Accepted, Renderable, AllVisible, Rendered, Answers, Pairs, ByName, Output, AllClaims, ReverseZone;
    hide DnsName, Lower, TargetName, Forward, TrueOwner, LowerZones;
    PtrIsForwardConfirmed(inp, key, r);
    var i, j := ByName(inp.zones)[key], ByName(inp.zones)[ReverseZone(r)];
    KeysAreNames(inp, key);
    KeysAreNames(inp, ReverseZone(r));
    RecordIsRendered(inp, i, Forward(r));
    RecordIsRendered(inp, j, Reverse(key, r));
    var forward, ptr := Claim(key, Forward(r)), Claim(ReverseZone(r), Reverse(key, r));
    ClaimHasOwner(inp, ptr);
    PointerOwner(inp, key, r);
    TrueOwnerIsLower(ptr);
    TrueOwnerIsLower(forward);
    SuffixCancels(Lower(Owner(forward).value), FullName(key, r), ".");
    OnlyAnswer(inp, forward);
    OnlyAnswer(inp, ptr);
    WrittenForward(r);
  }

  lemma WrittenForward(r: StaticRecord)
    ensures Forward(r).kind == A && Forward(r).value == r.value
  {
  }
}
