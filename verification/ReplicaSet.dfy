/** What the ReplicaSet manager reads off AdminAPI's answers: the members by
    expected name, the checks on them, and the replication account policy. */
module ReplicaSet {
  import opened Wrappers
  import opened Text
  import opened Sequences
  import opened Dns

  // ----- instances, members, servers -----

  datatype Instance = Instance(name: string, host: string, port: nat, serverId: int)

  datatype Role = Primary | Secondary | OtherRole(text: string)

  datatype Status = Online | Offline | Connecting | OtherStatus(text: string)

  /** One entry of the reported topology; an absent or empty text is "". */
  datatype Reported = Reported(endpoint: string, address: string, memberLabel: string, role: Option<Role>,
                               status: Option<Status>)

  datatype Member = Member(name: string, address: string, role: Role, status: Status)

  /** The replication settings that every server must have. */
  datatype Policy = Policy(gtidMode: string, enforceGtidConsistency: string, binlogFormat: string,
                           logReplicaUpdates: int, logBin: int, serverId: int, requireSecureTransport: int)

  datatype Server = Unreachable | Reachable(readOnly: int, superReadOnly: int, policy: Policy)

  datatype State = State(members: seq<Member>, primary: Option<string>, secondary: Option<string>,
                         servers: map<string, Server>)

  // ----- normalize_status -----

  function Or(text: string, default: string): string {
    if text != "" then text else default
  }

  function HostPart(r: Reported): string {
    Lower(Split(Or(r.address, r.endpoint), ':')[0])
  }

  predicate Matches(i: Instance, r: Reported) {
    Lower(i.name) == Lower(r.memberLabel) || Lower(i.host) == HostPart(r) || Lower(i.name) == HostPart(r)
  }

  function ExpectedName(r: Reported, instances: seq<Instance>): string {
    if instances == [] then Or(r.memberLabel, r.endpoint)
    else if Matches(instances[0], r) then instances[0].name
    else ExpectedName(r, instances[1..])
  }

  function MemberOf(instances: seq<Instance>): Reported -> Member {
    (r: Reported) =>
      Member(ExpectedName(r, instances), Or(r.address, r.endpoint),
             r.role.GetOr(OtherRole("UNKNOWN")), r.status.GetOr(OtherStatus("UNKNOWN")))
  }

  /** The name of the first online member with a role. */
  function FirstOnline(members: seq<Member>, role: Role): Option<string> {
    if members == [] then None
    else if members[0].role == role && members[0].status == Online then Some(members[0].name)
    else FirstOnline(members[1..], role)
  }

  function FirstNamed(members: seq<Member>, name: string): Option<Member> {
    if members == [] then None
    else if members[0].name == name then Some(members[0])
    else FirstNamed(members[1..], name)
  }

  /** normalize_status; the server variables are read afterwards. */
  function Normalize(topology: seq<Reported>, instances: seq<Instance>): State {
    var members := Map(topology, MemberOf(instances));
    State(members, FirstOnline(members, Primary), FirstOnline(members, Secondary), map[])
  }

  // ----- the checks -----

  /** validate_server_configuration. */
  function ServerError(i: Instance, s: Server): Option<Error> {
    if s.Unreachable? then Some(ServerUnreachable)
    else if s.policy != Policy("ON", "ON", "ROW", 1, 1, i.serverId, 1) then Some(ServerPolicy)
    else None
  }

  function Named(name: string): Member -> bool {
    (m: Member) => m.name == name
  }

  function IsOnline(m: Member): bool {
    m.status == Online
  }

  function HasRole(role: Role): Member -> bool {
    (m: Member) => m.role == role
  }

  /** validate_online_pair. */
  function OnlinePairError(s: State, instances: seq<Instance>): Option<Error> {
    var online := Filter(s.members, IsOnline);
    if |s.members| != |instances| then Some(MemberCount)
    else if exists i | i in instances :: |Filter(s.members, Named(i.name))| != 1 then Some(MemberNames)
    else if |online| != 2 || |Filter(online, HasRole(Primary))| != 1 || |Filter(online, HasRole(Secondary))| != 1
    then Some(NotAnOnlinePair)
    else None
  }

  predicate Protected(i: Instance, s: State) {
    var expected := if s.primary == Some(i.name) then 0 else 1;
    && i.name in s.servers && s.servers[i.name].Reachable?
    && s.servers[i.name].readOnly == expected && s.servers[i.name].superReadOnly == expected
  }

  /** validate_writable_topology. */
  function WritableError(s: State, instances: seq<Instance>): Option<Error> {
    var pair := OnlinePairError(s, instances);
    if pair.Some? then pair
    else if exists i | i in instances :: !Protected(i, s) then Some(WriteProtection)
    else None
  }

  /** validate_failover_candidate; an empty primary name counts as none. */
  function CandidateError(s: State, target: string): Option<Error> {
    if s.primary.Some? && s.primary.value != "" then Some(OnlinePrimaryExists)
    else
      var candidate := FirstNamed(s.members, target);
      if candidate.None? || !(candidate.value.status == Online || candidate.value.status == Connecting)
         || candidate.value.role != Secondary
      then Some(UnfitCandidate)
      else None
  }

  // ----- the replication accounts -----

  /** One row of the account metadata: does the account exist at its recorded
      host, and does one with that user exist at the desired host? */
  datatype Account = Account(name: string, user: string, host: string, sourceExists: bool, targetExists: bool)

  datatype HostChange = HostChange(changed: bool, current: string, desired: string)

  const ALLOWED_HOST: string := "replicationAllowedHost"

  function IsAllowedHost(o: (string, string)): bool {
    o.0 == ALLOWED_HOST
  }

  predicate Disagrees(a: Account, desired: string) {
    a.user == "" || a.host == "" || !a.sourceExists || (a.host != desired && a.targetExists)
  }

  /** The decision of converge_replication_allowed_host. */
  function HostDecision(options: seq<(string, string)>, accounts: seq<Account>, desired: string)
    : Result<HostChange>
  {
    var matches := Filter(options, IsAllowedHost);
    if |matches| != 1 then Err(OptionCount)
    else if accounts == [] then Err(NoAccounts)
    else if exists a | a in accounts :: Disagrees(a, desired) then Err(AccountsDisagree)
    else
      Ok(HostChange(matches[0].1 != desired || exists a | a in accounts :: a.host != desired, matches[0].1, desired))
  }

  // ----- expected instances -----

  /** expected_instance. */
  function ExpectedInstance(instances: seq<Instance>, name: string): Result<Instance> {
    if instances == [] then Err(UnknownMember)
    else if instances[0].name == name then Ok(instances[0])
    else ExpectedInstance(instances[1..], name)
  }

  // ----- properties -----

  function NameOf(m: Member): string {
    m.name
  }

  function InstanceName(i: Instance): string {
    i.name
  }

  ghost predicate IsNormalized(s: State) {
    s.primary == FirstOnline(s.members, Primary) && s.secondary == FirstOnline(s.members, Secondary)
  }

  lemma {:induction false} CountIsMultiplicity(members: seq<Member>, name: string)
    ensures |Filter(members, Named(name))| == multiset(Map(members, NameOf))[name]
  {
    if members != [] {
      CountIsMultiplicity(members[1..], name);
      assert Map(members, NameOf) == [members[0].name] + Map(members[1..], NameOf);
    }
  }

  lemma TwiceIsNotDistinct(instances: seq<Instance>, name: string)
    requires multiset(Map(instances, InstanceName))[name] >= 2
    ensures !DistinctBy(instances, InstanceName)
  {
    MapAt(instances, InstanceName);
    var p, q := TwoPlaces(Map(instances, InstanceName), name);
    assert InstanceName(instances[p]) == InstanceName(instances[q]);
  }

  lemma OnceEach(instances: seq<Instance>)
    ensures DistinctBy(instances, InstanceName) <==>
            forall i | i in instances :: multiset(Map(instances, InstanceName))[i.name] == 1
  {
    var names := Map(instances, InstanceName);
    MapAt(instances, InstanceName);
    if DistinctBy(instances, InstanceName) {
      forall i | i in instances
        ensures multiset(names)[i.name] == 1
      {
        var k :| 0 <= k < |instances| && instances[k] == i;
        assert names[k] == i.name && i.name in multiset(names);
        if multiset(names)[i.name] >= 2 {
          TwiceIsNotDistinct(instances, i.name);
        }
      }
    }
    if forall i | i in instances :: multiset(names)[i.name] == 1 {
      forall p, q | 0 <= p < q < |instances|
        ensures InstanceName(instances[p]) != InstanceName(instances[q])
      {
        if names[p] == names[q] {
          OnceAt(names, p, q);
          assert instances[p] in instances;
        }
      }
    }
  }

  lemma OnceAt(names: seq<string>, p: nat, q: nat)
    requires p < q < |names| && names[p] == names[q]
    ensures multiset(names)[names[p]] >= 2
  {
    RemoveAtMultiset(names, q);
    assert RemoveAt(names, q)[p] == names[p];
    assert names[p] in multiset(RemoveAt(names, q));
  }

  lemma SameSize<T>(a: multiset<T>, b: multiset<T>)
    requires a <= b && |a| == |b|
    ensures a == b
  {
    assert b == a + (b - a);
    assert |b - a| == 0;
    assert b - a == multiset{};
  }

  /** Membership by counting: as many members as expected, and each expected
      name once, is a permutation exactly when the expected names are distinct. */
  lemma MembershipIsAPermutation(members: seq<Member>, instances: seq<Instance>)
    ensures DistinctBy(instances, InstanceName) ==>
              (multiset(Map(members, NameOf)) == multiset(Map(instances, InstanceName)) <==>
               |members| == |instances| && forall i | i in instances :: |Filter(members, Named(i.name))| == 1)
    ensures (|members| == |instances| && forall i | i in instances :: |Filter(members, Named(i.name))| == 1) ==>
              (multiset(Map(members, NameOf)) == multiset(Map(instances, InstanceName)) <==>
               DistinctBy(instances, InstanceName))
  {
    hide Filter, Map, DistinctBy;
    var have, want := Map(members, NameOf), Map(instances, InstanceName);
    MapAt(members, NameOf);
    MapAt(instances, InstanceName);
    OnceEach(instances);
    forall i: Instance
      ensures |Filter(members, Named(i.name))| == multiset(have)[i.name]
    {
      CountIsMultiplicity(members, i.name);
    }
    if multiset(have) == multiset(want) {
      assert |have| == |multiset(have)| == |multiset(want)| == |want|;
    }
    if |members| == |instances| && DistinctBy(instances, InstanceName)
       && forall i | i in instances :: |Filter(members, Named(i.name))| == 1
    {
      forall n | n in multiset(want)
        ensures multiset(want)[n] <= multiset(have)[n]
      {
        var k :| 0 <= k < |want| && want[k] == n;
        assert instances[k] in instances && instances[k].name == n;
      }
      assert multiset(want) <= multiset(have);
      SameSize(multiset(want), multiset(have));
    }
  }
}
