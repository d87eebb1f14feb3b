/** The merge of static DNS records into the managed zones
    (dns_authoritative_static_zones). */
module StaticRecords {
  import opened Wrappers
  import opened Text
  import opened Sequences
  import opened Dns

  /** Everything the filter is given; hosts are in the order of their names. */
  datatype Input = Input(zones: seq<Zone>, statics: seq<(string, seq<StaticRecord>)>, hosts: seq<Host>,
                         runtimeZone: string)

  // ----- records published from inventory -----

  predicate EndsWith(s: string, suffix: string) {
    |suffix| <= |s| && s[|s| - |suffix|..] == suffix
  }

  function Relative(name: string, zone: string): Option<string> {
    if EndsWith(name, "." + zone) then Some(name[..|name| - |zone| - 1]) else None
  }

  /** The address record of a full name that lies in the zone. */
  function AddressIn(zone: string, address: string, name: string): seq<Record> {
    var relative := Relative(name, zone);
    if relative.Some? then [Record(relative.value, A, address, None)] else []
  }

  function AliasRecords(z: Zone, h: Host): string -> seq<Record> {
    (alias: string) => AddressIn(z.name, h.address, RstripDots(alias))
  }

  /** _inventory_records, for one host. */
  function HostRecords(z: Zone, h: Host): seq<Record> {
    var fqdn := RstripDots(h.fqdn);
    match z.mode
    case NoInventory => []
    case ServerIdentity =>
      if h.address != "" then AddressIn(z.name, h.address, fqdn) else []
    case AccessAliases =>
      if h.address != "" then FlatMap(h.aliases, AliasRecords(z, h)) else []
    case ReversePtr =>
      var parts := Split(h.address, '.');
      if fqdn != "" && h.address != "" && |parts| == 4 && ReverseZoneName(parts[0], parts[1], parts[2]) == z.name
      then [Record(parts[3], PTR, fqdn + ".", None)]
      else []
  }

  // ----- claims -----

  /** A record under the name of the zone it is in. */
  datatype Claim = Claim(zone: string, record: Record)

  function ClaimsFor(z: Zone): Host -> seq<Claim> {
    (h: Host) => ClaimsIn(z.name, HostRecords(z, h))
  }

  function ClaimsIn(zone: string, records: seq<Record>): seq<Claim> {
    FlatMap(records, ClaimIn(zone))
  }

  function ClaimIn(zone: string): Record -> seq<Claim> {
    (r: Record) => [Claim(zone, r)]
  }

  /** The configured and the inventory records of one zone. */
  function ZoneClaims(hosts: seq<Host>): Zone -> seq<Claim> {
    (z: Zone) => if z.managed then ClaimsIn(z.name, z.records) + FlatMap(hosts, ClaimsFor(z)) else []
  }

  /** The full name a record claims. */
  function Owner(c: Claim): Result<string> {
    if c.record.name == "@" then Ok(c.zone) else DnsName(c.record.name + "." + c.zone)
  }

  function RuntimeOwners(zone: string): set<string> {
    {"mysql-shared-primary." + zone, "mysql-shared-replica." + zone}
  }

  /** The tests of claim that look at one record alone. */
  predicate Fine(names: set<string>, runtime: set<string>, c: Claim) {
    && Owner(c).Ok?
    && !(c.record.kind == CNAME && Owner(c).value in names)
    && Owner(c).value !in runtime
  }

  /** claim, repeated over a list of records: what is newly owned. */
  ghost predicate Fit(names: set<string>, runtime: set<string>, taken: set<string>, claims: seq<Claim>) {
    && (forall c | c in claims :: Fine(names, runtime, c) && Owner(c).value !in taken)
    && DistinctBy(claims, Owner)
  }

  function OwnersOf(claims: seq<Claim>): set<string> {
    set c | c in claims && Owner(c).Ok? :: Owner(c).value
  }

  // ----- static records -----

  function ZoneKey(z: Zone): string {
    Lower(z.name)
  }

  /** by_name: the position of each zone. */
  function ByName(zones: seq<Zone>): map<string, nat>
    decreases |zones|
  {
    if zones == [] then map[] else ByName(zones[..|zones| - 1])[ZoneKey(zones[|zones| - 1]) := |zones| - 1]
  }

  /** A record to be appended to the zone of that name. */
  datatype Placement = Placement(zone: string, record: Record)

  predicate KnownForward(zones: seq<Zone>, names: map<string, nat>, key: string) {
    key in names && names[key] < |zones| && zones[names[key]].managed && !EndsWith(key, ARPA)
  }

  function TargetName(key: string, owner: string): string {
    if owner == "@" then key else owner + "." + key
  }

  /** One static record: the record itself, and its PTR if it asks for one. */
  function Expand(zones: seq<Zone>, names: map<string, nat>, key: string, r: StaticRecord): Result<seq<Placement>> {
    var owner := if r.name == "@" then Ok("@") else DnsName(r.name);
    var value := if r.kind == A then (if IsIpv4(r.value) then Ok(r.value) else Err(InvalidRecord))
                 else if r.kind == CNAME then AbsoluteName(r.value)
                 else Err(InvalidRecord);
    if owner.Err? || value.Err? then Err(InvalidRecord)
    else if r.ttl.Some? && !(0 <= r.ttl.value < 0x8000_0000) then Err(InvalidRecord)
    else if r.ptr && r.kind != A then Err(InvalidRecord)
    else
      var rendered := Record(owner.value, r.kind, if r.kind == CNAME then value.value + "." else value.value, r.ttl);
      if !r.ptr then Ok([Placement(key, rendered)]) else
      var parts := Split(r.value, '.');
      if |parts| != 4 then Err(InvalidRecord) else
      var reverse := ReverseZoneName(parts[0], parts[1], parts[2]);
      if reverse in names && names[reverse] < |zones|
         && zones[names[reverse]].managed && zones[names[reverse]].mode == ReversePtr
      then Ok([Placement(key, rendered),
               Placement(reverse, Record(parts[3], PTR, TargetName(key, owner.value) + ".", r.ttl))])
      else Err(OutsideReverseZones)
  }

  function PairsOf(entry: (string, seq<StaticRecord>)): seq<(string, StaticRecord)> {
    FlatMap(entry.1, PairWith(entry.0))
  }

  function PairWith(key: string): StaticRecord -> seq<(string, StaticRecord)> {
    (r: StaticRecord) => [(key, r)]
  }

  function Pairs(statics: seq<(string, seq<StaticRecord>)>): seq<(string, StaticRecord)> {
    FlatMap(statics, PairsOf)
  }

  function Expansion(zones: seq<Zone>, names: map<string, nat>): ((string, StaticRecord)) -> seq<Placement> {
    (pair: (string, StaticRecord)) =>
      var e := Expand(zones, names, pair.0, pair.1);
      if e.Ok? then e.value else []
  }

  function Placements(inp: Input): seq<Placement> {
    FlatMap(Pairs(inp.statics), Expansion(inp.zones, ByName(inp.zones)))
  }

  /** A placement as a claim, under the zone's name as configured. */
  function PlacedClaim(zones: seq<Zone>, names: map<string, nat>): Placement -> seq<Claim> {
    (p: Placement) =>
      if p.zone in names && names[p.zone] < |zones| then [Claim(zones[names[p.zone]].name, p.record)] else []
  }

  function StaticClaims(inp: Input): seq<Claim> {
    FlatMap(Placements(inp), PlacedClaim(inp.zones, ByName(inp.zones)))
  }

  // ----- the declarative merge -----

  /** Every record that will be published, with the zone it is in. */
  function AllClaims(inp: Input): seq<Claim> {
    FlatMap(inp.zones, ZoneClaims(inp.hosts)) + StaticClaims(inp)
  }

  ghost predicate ZonesFine(zones: seq<Zone>) {
    (forall z | z in zones :: DnsName(z.name).Ok?) && DistinctBy(zones, ZoneKey)
  }

  /** What the filter accepts, without any order of checking. */
  ghost predicate Accepted(inp: Input) {
    var runtime := DnsName(RstripDots(inp.runtimeZone));
    var names := ByName(inp.zones);
    && runtime.Ok? && ZonesFine(inp.zones)
    && (forall s | s in inp.statics :: KnownForward(inp.zones, names, s.0))
    && (forall p | p in Pairs(inp.statics) :: Expand(inp.zones, names, p.0, p.1).Ok?)
    && (forall c | c in AllClaims(inp) :: Fine(names.Keys, RuntimeOwners(runtime.value), c))
    && DistinctBy(AllClaims(inp), Owner)
  }

  function AddTo(key: string): Placement -> seq<Record> {
    (p: Placement) => if p.zone == key then [p.record] else []
  }

  function OutputZone(z: Zone, added: seq<Placement>): Zone {
    if z.managed then z.(records := SortRecords(z.records + FlatMap(added, AddTo(ZoneKey(z))))) else z
  }

  function Output(inp: Input): (zones: seq<Zone>)
    ensures |zones| == |inp.zones|
    ensures forall i | 0 <= i < |zones| :: zones[i] == OutputZone(inp.zones[i], Placements(inp))
  {
    seq(|inp.zones|, i requires 0 <= i < |inp.zones| => OutputZone(inp.zones[i], Placements(inp)))
  }
}
