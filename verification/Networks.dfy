/** Reverse zones generated from the inventory networks (network_reverse_zones),
    and the addresses they cover. */
module Networks {
  import opened Wrappers
  import opened Text
  import opened Sequences
  import opened Dns
  import opened StaticRecords
  import opened StaticMerge
  import opened StaticOrder

  /** An IPv4 network as parsed: its address as a number and its prefix length. */
  datatype Network = Network(address: nat, prefix: nat)

  /** How many /24 networks a network is, for prefixes up to 24. */
  function Subnets(prefix: nat): (count: nat)
    ensures count > 0
    decreases 24 - prefix
  {
    if prefix >= 24 then 1 else 2 * Subnets(prefix + 1)
  }

  /** The length is supported and no host bits are set. */
  predicate Supported(n: Network) {
    16 <= n.prefix <= 24 && n.address % (256 * Subnets(n.prefix)) == 0
    && n.address + 256 * Subnets(n.prefix) <= 0x1_0000_0000
  }

  predicate Covers(n: Network, address: nat) {
    n.address <= address < n.address + 256 * Subnets(n.prefix)
  }

  /** The reverse name of the /24 with that number. */
  function BlockName(block: nat): string {
    ReverseZoneName(Decimal(block / 65536), Decimal(block / 256 % 256), Decimal(block % 256))
  }

  function BlockZone(block: nat): Zone {
    Zone(BlockName(block), true, ReversePtr, [])
  }

  /** The first `count` zones from a block on, and all zones of a network. */
  function Blocks(first: nat, count: nat): seq<Zone> {
    if count == 0 then [] else Blocks(first, count - 1) + [BlockZone(first + count - 1)]
  }

  function ZonesOf(n: Network): seq<Zone> {
    Blocks(n.address / 256, Subnets(n.prefix))
  }

  /** A list without its repetitions: each element where it stands first. */
  function FirstTimes<T(==)>(s: seq<T>): seq<T> {
    if s == [] then []
    else
      var earlier, last := FirstTimes(s[..|s| - 1]), s[|s| - 1];
      if last in earlier then earlier else earlier + [last]
  }

  lemma OneMoreTime<T>(s: seq<T>, x: T)
    ensures FirstTimes(s + [x]) == if x in FirstTimes(s) then FirstTimes(s) else FirstTimes(s) + [x]
  {
    assert (s + [x])[..|s|] == s;
  }

  lemma OneMoreBlock(listed: seq<Zone>, first: nat, k: nat)
    ensures var zone, before := BlockZone(first + k), FirstTimes(listed + Blocks(first, k));
            FirstTimes(listed + Blocks(first, k + 1)) == if zone in before then before else before + [zone]
  {
    hide BlockZone;
    assert listed + Blocks(first, k + 1) == (listed + Blocks(first, k)) + [BlockZone(first + k)];
    OneMoreTime(listed + Blocks(first, k), BlockZone(first + k));
  }

  lemma OneMoreNetwork(networks: seq<Network>, n: Network)
    ensures FlatMap(networks + [n], ZonesOf) == FlatMap(networks, ZonesOf) + Blocks(n.address / 256, Subnets(n.prefix))
  {
    FlatMapAppend(networks, [n], ZonesOf);
    FlatMapOne(n, ZonesOf);
  }

  /** network_reverse_zones: the nested loops over networks and their /24s. */
  method ReverseZones(networks: seq<Network>) returns (r: Result<seq<Zone>>)
    ensures r.Ok? <==> forall n | n in networks :: Supported(n)
    ensures r.Ok? ==> r.value == FirstTimes(FlatMap(networks, ZonesOf))
    ensures r.Ok? ==>
              && DistinctBy(r.value, ZoneKey)
              && (forall z | z in r.value ::
                    exists block: nat :: block < 0x100_0000 && z == BlockZone(block) && InNetworks(networks, block))
              && (forall block: nat | block < 0x100_0000 && InNetworks(networks, block) :: BlockZone(block) in r.value)
  {
    hide BlockZone, ZoneKey, Subnets, FirstTimes, Blocks;
    var zones: seq<Zone> := [];
    NothingYet();
    for i := 0 to |networks|
      invariant forall n | n in networks[..i] :: Supported(n)
      invariant Listed(zones, networks[..i])
      invariant zones == FirstTimes(FlatMap(networks[..i], ZonesOf))
    {
      var n := networks[i];
      assert networks[..i + 1] == networks[..i] + [n];
      if !Supported(n) {
        assert n in networks;
        return Err(InvalidNetwork);
      }
      var first := n.address / 256;
      FirstBlock(n);
      ghost var listed := FlatMap(networks[..i], ZonesOf);
      NoBlocks(first);
      assert listed + [] == listed;
      for k := 0 to Subnets(n.prefix)
        invariant ListedUpTo(zones, networks[..i], first, k)
        invariant zones == FirstTimes(listed + Blocks(first, k))
      {
        OneMoreBlock(listed, first, k);
        var zone := BlockZone(first + k);
        if zone in zones {
          AlreadyListed(zones, networks[..i], first, k);
        } else {
          NewlyListed(zones, networks[..i], first, k);
          zones := zones + [zone];
        }
      }
      NetworkListed(zones, networks[..i], n);
      OneMoreNetwork(networks[..i], n);
    }
    assert networks[..|networks|] == networks;
    return Ok(zones);
  }

  lemma NothingYet()
    ensures FirstTimes<Zone>([]) == [] && FlatMap([], ZonesOf) == []
  {
  }

  lemma NoBlocks(first: nat)
    ensures Blocks(first, 0) == []
  {
  }

  /** Some network contains the /24. */
  ghost predicate InNetworks(networks: seq<Network>, block: nat) {
    exists n :: n in networks && Covers(n, 256 * block)
  }

  ghost predicate Listed(zones: seq<Zone>, networks: seq<Network>) {
    && DistinctBy(zones, ZoneKey)
    && (forall z | z in zones ::
          exists block: nat :: block < 0x100_0000 && z == BlockZone(block) && InNetworks(networks, block))
    && (forall block: nat | block < 0x100_0000 && InNetworks(networks, block) :: BlockZone(block) in zones)
  }

  ghost predicate Wanted(networks: seq<Network>, first: nat, k: nat, block: nat) {
    block < 0x100_0000 && (InNetworks(networks, block) || first <= block < first + k)
  }

  ghost predicate ListedUpTo(zones: seq<Zone>, networks: seq<Network>, first: nat, k: nat) {
    && first + k <= 0x100_0000
    && DistinctBy(zones, ZoneKey)
    && (forall z | z in zones :: exists block: nat :: z == BlockZone(block) && Wanted(networks, first, k, block))
    && (forall block: nat | Wanted(networks, first, k, block) :: BlockZone(block) in zones)
  }

  lemma FirstBlock(n: Network)
    requires Supported(n)
    ensures n.address == 256 * (n.address / 256)
    ensures n.address / 256 + Subnets(n.prefix) <= 0x100_0000
    ensures forall block: nat ::
              Covers(n, 256 * block) <==> n.address / 256 <= block < n.address / 256 + Subnets(n.prefix)
  {
    hide Subnets;
    WholeBlocks(n.address, Subnets(n.prefix));
  }

  lemma WholeBlocks(address: nat, s: nat)
    requires s > 0 && address % (256 * s) == 0
    ensures address == 256 * (address / 256)
  {
    var q := address / (256 * s);
    assert address == (256 * s) * q;
    Regroup(s, q);
    BlockOf(s * q);
  }

  lemma Regroup(s: nat, q: nat)
    ensures (256 * s) * q == 256 * (s * q)
  {
  }

  lemma BlockOf(b: int)
    ensures 256 * b / 256 == b
  {
  }

  lemma AlreadyListed(zones: seq<Zone>, networks: seq<Network>, first: nat, k: nat)
    requires ListedUpTo(zones, networks, first, k) && first + k < 0x100_0000 && BlockZone(first + k) in zones
    ensures ListedUpTo(zones, networks, first, k + 1)
  {
    hide BlockZone, ZoneKey, InNetworks;
    forall z | z in zones
      ensures exists block: nat :: z == BlockZone(block) && Wanted(networks, first, k + 1, block)
    {
      var block: nat :| z == BlockZone(block) && Wanted(networks, first, k, block);
      assert Wanted(networks, first, k + 1, block);
    }
    forall block: nat | Wanted(networks, first, k + 1, block)
      ensures BlockZone(block) in zones
    {
      assert block != first + k ==> Wanted(networks, first, k, block);
    }
  }

  lemma NewlyListed(zones: seq<Zone>, networks: seq<Network>, first: nat, k: nat)
    requires ListedUpTo(zones, networks, first, k) && first + k < 0x100_0000 && BlockZone(first + k) !in zones
    ensures ListedUpTo(zones + [BlockZone(first + k)], networks, first, k + 1)
  {
    hide BlockZone, ZoneKey, InNetworks;
    var added := BlockZone(first + k);
    var after := zones + [added];
    forall z | z in after
      ensures exists block: nat :: z == BlockZone(block) && Wanted(networks, first, k + 1, block)
    {
      if z in zones {
        var block: nat :| z == BlockZone(block) && Wanted(networks, first, k, block);
        assert Wanted(networks, first, k + 1, block);
      } else {
        assert z == BlockZone(first + k) && Wanted(networks, first, k + 1, first + k);
      }
    }
    forall block: nat | Wanted(networks, first, k + 1, block)
      ensures BlockZone(block) in after
    {
      assert block != first + k ==> Wanted(networks, first, k, block);
    }
    DistinctByAppend(zones, added, ZoneKey);
    if ZoneKey(added) in Keys(zones, ZoneKey) {
      var z :| z in zones && ZoneKey(z) == ZoneKey(added);
      var block: nat :| z == BlockZone(block) && Wanted(networks, first, k, block);
      BlockKeysDiffer(block, first + k);
    }
  }

  lemma NetworkListed(zones: seq<Zone>, networks: seq<Network>, n: Network)
    requires Supported(n) && ListedUpTo(zones, networks, n.address / 256, Subnets(n.prefix))
    ensures Listed(zones, networks + [n])
  {
    hide BlockZone, ZoneKey, Subnets, Covers;
    FirstBlock(n);
    var first, s := n.address / 256, Subnets(n.prefix);
    forall block: nat | block < 0x100_0000
      ensures InNetworks(networks + [n], block) <==> Wanted(networks, first, s, block)
    {
      assert InNetworks(networks + [n], block) <==> InNetworks(networks, block) || Covers(n, 256 * block) by {
        assert forall m :: m in networks + [n] <==> m in networks || m == n;
      }
    }
    forall z | z in zones
      ensures exists block: nat :: block < 0x100_0000 && z == BlockZone(block) && InNetworks(networks + [n], block)
    {
      var block: nat :| z == BlockZone(block) && Wanted(networks, first, s, block);
      assert InNetworks(networks + [n], block);
    }
  }

  // ----- names of /24 networks -----

  lemma NoDotInNumeral(n: nat)
    ensures '.' !in Decimal(n)
  {
    assert IsNumeral(Decimal(n)) && '.' !in DIGITS;
  }

  lemma DecimalIsInjective(m: nat, n: nat)
    ensures Decimal(m) == Decimal(n) <==> m == n
  {
    NumberOfDecimal(m);
    NumberOfDecimal(n);
  }

  lemma ReverseNamesDiffer(a: string, b: string, c: string, x: string, y: string, z: string)
    requires '.' !in a && '.' !in b && '.' !in c && '.' !in x && '.' !in y && '.' !in z
    requires ReverseZoneName(a, b, c) == ReverseZoneName(x, y, z)
    ensures a == x && b == y && c == z
  {
    ReverseNameLabels(a, b, c);
    ReverseNameLabels(x, y, z);
    assert ([c, b, a] + Split(ARPA[1..], '.'))[..3] == [c, b, a];
    assert ([z, y, x] + Split(ARPA[1..], '.'))[..3] == [z, y, x];
  }

  lemma BlockNamesDiffer(m: nat, n: nat)
    requires BlockName(m) == BlockName(n)
    ensures m == n
  {
    hide ReverseZoneName, Decimal;
    assert m / 256 % 256 >= 0 && n / 256 % 256 >= 0;
    NoDotInNumeral(m / 65536);
    NoDotInNumeral(m / 256 % 256);
    NoDotInNumeral(m % 256);
    NoDotInNumeral(n / 65536);
    NoDotInNumeral(n / 256 % 256);
    NoDotInNumeral(n % 256);
    ReverseNamesDiffer(Decimal(m / 65536), Decimal(m / 256 % 256), Decimal(m % 256),
                       Decimal(n / 65536), Decimal(n / 256 % 256), Decimal(n % 256));
    DecimalIsInjective(m / 65536, n / 65536);
    DecimalIsInjective(m / 256 % 256, n / 256 % 256);
    DecimalIsInjective(m % 256, n % 256);
    BlockOfOctets(m);
    BlockOfOctets(n);
  }

  lemma BlockOfOctets(block: nat)
    ensures block == (block / 65536) * 65536 + (block / 256 % 256) * 256 + block % 256
  {
    var q := block / 256;
    assert q / 256 == block / 65536;
  }

  lemma BlockKey(block: nat)
    ensures ZoneKey(BlockZone(block)) == BlockName(block)
  {
    hide Decimal, Lower;
    var a, b, c := Decimal(block / 65536), Decimal(block / 256 % 256), Decimal(block % 256);
    assert IsNumeral(a) && IsNumeral(b) && IsNumeral(c);
    LowerWithoutCapitals(a);
    LowerWithoutCapitals(b);
    LowerWithoutCapitals(c);
    LowerWithoutCapitals(".");
    LowerWithoutCapitals(ARPA);
    LowerAppend(c, ".");
    LowerAppend(c + ".", b);
    LowerAppend(c + "." + b, ".");
    LowerAppend(c + "." + b + ".", a);
    LowerAppend(c + "." + b + "." + a, ARPA);
  }

  lemma BlockKeysDiffer(m: nat, n: nat)
    ensures ZoneKey(BlockZone(m)) == ZoneKey(BlockZone(n)) ==> m == n
  {
    hide BlockName;
    BlockKey(m);
    BlockKey(n);
    if BlockName(m) == BlockName(n) {
      BlockNamesDiffer(m, n);
    }
  }

  // ----- addresses in text -----

  /** The number of an address written as four octets. */
  function AddressOf(value: string): nat
    requires IsIpv4(value)
  {
    var parts := Split(value, '.');
    ((OctetValue(parts[0]) * 256 + OctetValue(parts[1])) * 256 + OctetValue(parts[2])) * 256 + OctetValue(parts[3])
  }

  function OctetValue(s: string): (v: nat)
    requires IsOctet(s)
    ensures v < 256
  {
    Number(s)
  }

  lemma {:induction false} NumberOfTwoDigits(s: string)
    requires IsNumeral(s) && |s| <= 3
    ensures |s| == 1 ==> Number(s) == DigitValue(s[0])
    ensures |s| == 2 ==> Number(s) == 10 * DigitValue(s[0]) + DigitValue(s[1])
    ensures |s| == 3 ==> Number(s) == 100 * DigitValue(s[0]) + 10 * DigitValue(s[1]) + DigitValue(s[2])
  {
    if |s| == 1 {
      assert s[..0] == "";
    } else {
      NumberOfTwoDigits(s[..|s| - 1]);
    }
  }

  /** An octet without leading zeros is the numeral of its value. */
  lemma OctetIsCanonical(s: string)
    requires IsOctet(s)
    ensures Decimal(OctetValue(s)) == s
  {
    NumberOfTwoDigits(s);
    DigitsAreChars();
    var n := OctetValue(s);
    if |s| == 1 {
      assert Decimal(n) == [DigitChar(n)];
    } else if |s| == 2 {
      assert n / 10 == DigitValue(s[0]) && n % 10 == DigitValue(s[1]);
      assert Decimal(n) == Decimal(n / 10) + [DigitChar(n % 10)];
    } else {
      assert n / 10 == 10 * DigitValue(s[0]) + DigitValue(s[1]) && n % 10 == DigitValue(s[2]);
      assert n / 10 / 10 == DigitValue(s[0]) && n / 10 % 10 == DigitValue(s[1]);
      assert Decimal(n) == Decimal(n / 10) + [DigitChar(n % 10)];
      assert Decimal(n / 10) == Decimal(n / 10 / 10) + [DigitChar(n / 10 % 10)];
    }
  }

  lemma DigitsAreChars()
    ensures forall c | c in DIGITS :: DigitChar(DigitValue(c)) == c
    ensures forall c | c in DIGITS :: DigitValue(c) == 0 <==> c == '0'
  {
  }

  /** The reverse zone an address belongs to is the zone of its /24. */
  lemma ReverseZoneOfAddress(value: string)
    requires IsIpv4(value)
    ensures |Split(value, '.')| == 4
    ensures var parts := Split(value, '.');
            ReverseZoneName(parts[0], parts[1], parts[2]) == BlockName(AddressOf(value) / 256)
    ensures AddressOf(value) < 0x1_0000_0000
  {
    hide IsOctet, ReverseZoneName, Decimal;
    var parts := Split(value, '.');
    var a, b, c, d := OctetValue(parts[0]), OctetValue(parts[1]), OctetValue(parts[2]), OctetValue(parts[3]);
    OctetIsCanonical(parts[0]);
    OctetIsCanonical(parts[1]);
    OctetIsCanonical(parts[2]);
    OctetsOfBlock(a, b, c, d);
  }

  lemma OctetsOfBlock(a: nat, b: nat, c: nat, d: nat)
    requires a < 256 && b < 256 && c < 256 && d < 256
    ensures var block := (((a * 256 + b) * 256 + c) * 256 + d) / 256;
            block / 65536 == a && block / 256 % 256 == b && block % 256 == c
    ensures ((a * 256 + b) * 256 + c) * 256 + d < 0x1_0000_0000
  {
    var block := (((a * 256 + b) * 256 + c) * 256 + d) / 256;
    assert block == (a * 256 + b) * 256 + c;
    assert block / 256 == a * 256 + b;
  }

  // ----- scope -----

  lemma CoversBlock(n: Network, address: nat)
    requires Supported(n)
    ensures Covers(n, address) <==> Covers(n, 256 * (address / 256))
  {
    hide Subnets;
    FirstBlock(n);
    var s, q := Subnets(n.prefix), n.address / 256;
    assert address == 256 * (address / 256) + address % 256;
  }

  /** The scope of reverse DNS is exactly the inventory networks: with the
      generated reverse zones next to the forward zones, a static address may
      ask for a PTR if and only if one of the networks contains it. */
  lemma PtrScopeIsTheNetworks(inp: Input, forward: seq<Zone>, reverse: seq<Zone>, networks: seq<Network>,
                              key: string, r: StaticRecord)
    requires inp.zones == forward + reverse && ZonesFine(inp.zones)
    requires forall z | z in forward :: !EndsWith(ZoneKey(z), ARPA)
    requires (forall n | n in networks :: Supported(n)) && Listed(reverse, networks)
    requires r.kind == A && r.ptr && IsIpv4(r.value) && (r.name == "@" || DnsName(r.name).Ok?)
    requires r.ttl.Some? ==> 0 <= r.ttl.value < 0x8000_0000
    ensures Expand(inp.zones, ByName(inp.zones), key, r).Ok? <==>
              exists n :: n in networks && Covers(n, AddressOf(r.value))
  {
    hide IsIpv4, DnsName, ByName, ZoneKey, ReverseZoneName, AddressOf, Subnets, Covers, BlockName;
    ReverseZoneOfAddress(r.value);
    var block := AddressOf(r.value) / 256;
    ScopeOfBlock(inp, forward, reverse, networks, block);
    forall n | n in networks
      ensures Covers(n, AddressOf(r.value)) <==> Covers(n, 256 * block)
    {
      CoversBlock(n, AddressOf(r.value));
    }
  }

  lemma ScopeOfBlock(inp: Input, forward: seq<Zone>, reverse: seq<Zone>, networks: seq<Network>, block: nat)
    requires inp.zones == forward + reverse && ZonesFine(inp.zones) && block < 0x100_0000
    requires forall z | z in forward :: !EndsWith(ZoneKey(z), ARPA)
    requires Listed(reverse, networks)
    ensures InNetworks(networks, block) <==>
              && BlockName(block) in ByName(inp.zones)
              && ByName(inp.zones)[BlockName(block)] < |inp.zones|
              && inp.zones[ByName(inp.zones)[BlockName(block)]].managed
              && inp.zones[ByName(inp.zones)[BlockName(block)]].mode == ReversePtr
  {
    hide DnsName, ByName, ZoneKey, BlockName, InNetworks, ZonesFine;
    BlockKey(block);
    ByNameKeys(inp.zones);
    var name := BlockName(block);
    if InNetworks(networks, block) {
      assert BlockZone(block) in reverse;
      var i :| 0 <= i < |reverse| && reverse[i] == BlockZone(block);
      assert inp.zones[|forward| + i] == BlockZone(block);
      KeyFindsZone(inp.zones, |forward| + i);
    }
    if name in ByName(inp.zones) {
      var z := inp.zones[ByName(inp.zones)[name]];
      assert ZoneKey(z) == name;
      BlockEndsWithArpa(block);
      assert z in reverse by {
        assert z in forward || z in reverse;
      }
      var other: nat :| other < 0x100_0000 && z == BlockZone(other) && InNetworks(networks, other);
      BlockKeysDiffer(other, block);
    }
  }

  lemma BlockEndsWithArpa(block: nat)
    ensures EndsWith(BlockName(block), ARPA)
  {
    hide Decimal;
    var head := Decimal(block % 256) + "." + Decimal(block / 256 % 256) + "." + Decimal(block / 65536);
    assert BlockName(block) == head + ARPA;
    assert BlockName(block)[|head|..] == ARPA;
  }
}
