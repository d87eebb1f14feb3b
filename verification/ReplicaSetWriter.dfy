/** What the counting checks establish: exactly one writer. */
module ReplicaSetWriter {
  import opened Wrappers
  import opened Sequences
  import opened ReplicaSet

  predicate Writes(i: Instance, servers: map<string, Server>) {
    i.name in servers && servers[i.name].Reachable?
    && servers[i.name].readOnly == 0 && servers[i.name].superReadOnly == 0
  }

  predicate WriteProtected(i: Instance, servers: map<string, Server>) {
    i.name in servers && servers[i.name].Reachable?
    && servers[i.name].readOnly == 1 && servers[i.name].superReadOnly == 1
  }

  /** p and q are the online members, and p is the one that accepts writes. */
  ghost predicate OneWriter(s: State, instances: seq<Instance>, p: Member, q: Member) {
    && multiset(Map(s.members, NameOf)) == multiset(Map(instances, InstanceName))
    && p in s.members && q in s.members && p.name != q.name
    && p.role == Primary && q.role == Secondary
    && (forall m | m in s.members :: m.status == Online <==> m == p || m == q)
    && (forall i | i in instances :: if i.name == p.name then Writes(i, s.servers) else WriteProtected(i, s.servers))
  }

  ghost predicate SomeWriter(s: State, instances: seq<Instance>) {
    exists p, q :: OneWriter(s, instances, p, q)
  }

  lemma {:induction false} FirstOnlineIs(members: seq<Member>, role: Role)
    ensures FirstOnline(members, role).None? <==> forall m | m in members :: !(m.role == role && m.status == Online)
    ensures FirstOnline(members, role).Some? ==>
              exists m :: m in members && m.role == role && m.status == Online
                          && FirstOnline(members, role) == Some(m.name)
  {
    if members != [] {
      FirstOnlineIs(members[1..], role);
      assert members == [members[0]] + members[1..];
    }
  }

  lemma {:induction false} OneLeft<T>(s: seq<T>, p: T -> bool)
    ensures |Filter(s, p)| == 1 ==>
              exists x :: x in s && p(x) && Filter(s, p) == [x] && forall y | y in s && p(y) :: y == x
  {
    if |Filter(s, p)| == 1 {
      var x := Filter(s, p)[0];
      FilterContains(s, p, x);
      forall y | y in s && p(y)
        ensures y == x
      {
        FilterContains(s, p, y);
      }
    }
  }

  /** An accepted pair: two online members of different names and roles. */
  lemma PairFound(s: State, instances: seq<Instance>) returns (p: Member, q: Member)
    requires DistinctBy(instances, InstanceName) && OnlinePairError(s, instances).None?
    ensures multiset(Map(s.members, NameOf)) == multiset(Map(instances, InstanceName))
    ensures p in s.members && q in s.members && p.name != q.name && p.role == Primary && q.role == Secondary
    ensures forall m | m in s.members :: m.status == Online <==> m == p || m == q
  {
    hide Filter, Map, DistinctBy;
    MembershipIsAPermutation(s.members, instances);
    var online := Filter(s.members, IsOnline);
    OneLeft(online, HasRole(Primary));
    OneLeft(online, HasRole(Secondary));
    p :| p in online && HasRole(Primary)(p);
    q :| q in online && HasRole(Secondary)(q);
    var i :| 0 <= i < 2 && online[i] == p;
    var j :| 0 <= j < 2 && online[j] == q;
    assert i != j && online == if i == 0 then [p, q] else [q, p];
    forall m: Member
      ensures m in online <==> m in s.members && m.status == Online
    {
      FilterContains(s.members, IsOnline, m);
    }
    MembersDiffer(s.members, instances, p, q);
  }

  lemma MembersDiffer(members: seq<Member>, instances: seq<Instance>, p: Member, q: Member)
    requires multiset(Map(members, NameOf)) == multiset(Map(instances, InstanceName))
    requires DistinctBy(instances, InstanceName) && p in members && q in members && p != q
    ensures p.name != q.name
  {
    var have, want := Map(members, NameOf), Map(instances, InstanceName);
    MapAt(members, NameOf);
    MapAt(instances, InstanceName);
    if p.name == q.name {
      var i :| 0 <= i < |members| && members[i] == p;
      var j :| 0 <= j < |members| && members[j] == q;
      assert have[i] == have[j];
      if i < j {
        OnceAt(have, i, j);
      } else {
        OnceAt(have, j, i);
      }
      assert multiset(want)[p.name] >= 2;
      TwiceIsNotDistinct(instances, p.name);
    }
  }

  lemma NormalizedNames(s: State, p: Member, q: Member)
    requires IsNormalized(s) && p in s.members && q in s.members && p.role == Primary && q.role == Secondary
    requires forall m | m in s.members :: m.status == Online <==> m == p || m == q
    ensures s.primary == Some(p.name) && s.secondary == Some(q.name)
  {
    FirstOnlineIs(s.members, Primary);
    FirstOnlineIs(s.members, Secondary);
  }

  lemma {:induction false} FilterOnly<T>(s: seq<T>, keep: T -> bool, x: T)
    requires forall y | y in s :: keep(y) <==> y == x
    ensures |Filter(s, keep)| == multiset(s)[x]
  {
    if s != [] {
      assert s == [s[0]] + s[1..];
      FilterOnly(s[1..], keep, x);
    }
  }

  lemma {:induction false} MultiplicityOfName(members: seq<Member>, x: Member)
    ensures multiset(members)[x] <= multiset(Map(members, NameOf))[x.name]
  {
    if members != [] {
      MultiplicityOfName(members[1..], x);
      assert members == [members[0]] + members[1..];
      assert Map(members, NameOf) == [members[0].name] + Map(members[1..], NameOf);
    }
  }

  /** Each member once, and so two online members. */
  lemma PairCounts(s: State, instances: seq<Instance>, p: Member, q: Member)
    requires DistinctBy(instances, InstanceName) && OneWriter(s, instances, p, q)
    ensures OnlinePairError(s, instances).None?
  {
    hide Filter, Map, DistinctBy, Writes, WriteProtected;
    MembershipIsAPermutation(s.members, instances);
    OnceEach(instances);
    Once(s.members, instances, p);
    Once(s.members, instances, q);
    OnlineAre(s.members, p, q);
    var online := Filter(s.members, IsOnline);
    forall m: Member
      ensures m in online <==> m == p || m == q
    {
      FilterContains(s.members, IsOnline, m);
    }
    FilterOnly(online, HasRole(Primary), p);
    FilterOnly(online, HasRole(Secondary), q);
  }

  lemma Once(members: seq<Member>, instances: seq<Instance>, x: Member)
    requires multiset(Map(members, NameOf)) == multiset(Map(instances, InstanceName))
    requires DistinctBy(instances, InstanceName) && x in members
    ensures multiset(members)[x] == 1
  {
    hide DistinctBy;
    OnceEach(instances);
    MapAt(instances, InstanceName);
    MapAt(members, NameOf);
    MultiplicityOfName(members, x);
    var want := Map(instances, InstanceName);
    var k :| 0 <= k < |members| && members[k] == x;
    assert x.name in multiset(Map(members, NameOf)) by {
      assert Map(members, NameOf)[k] == x.name;
    }
    assert x.name in multiset(want);
    var j :| 0 <= j < |want| && want[j] == x.name;
    assert instances[j] in instances && instances[j].name == x.name;
    assert x in multiset(members);
  }

  lemma {:induction false} OnlineCount(members: seq<Member>, p: Member, q: Member)
    requires p != q && forall m | m in members :: m.status == Online <==> m == p || m == q
    ensures multiset(Filter(members, IsOnline))[p] == multiset(members)[p]
    ensures multiset(Filter(members, IsOnline))[q] == multiset(members)[q]
    ensures |Filter(members, IsOnline)| == multiset(members)[p] + multiset(members)[q]
  {
    if members != [] {
      var first := if IsOnline(members[0]) then [members[0]] else [];
      OnlineCount(members[1..], p, q);
      assert members == [members[0]] + members[1..];
      assert multiset(Filter(members, IsOnline)) == multiset(first) + multiset(Filter(members[1..], IsOnline));
    }
  }

  lemma OnlineAre(members: seq<Member>, p: Member, q: Member)
    requires p != q && forall m | m in members :: m.status == Online <==> m == p || m == q
    requires multiset(members)[p] == 1 && multiset(members)[q] == 1
    ensures |Filter(members, IsOnline)| == 2
    ensures multiset(Filter(members, IsOnline))[p] == 1 && multiset(Filter(members, IsOnline))[q] == 1
  {
    OnlineCount(members, p, q);
  }

  /** Exactly one writer.  For distinct expected instances, however many, a
      reading passes validate_writable_topology if and only if its members are a
      permutation of the expected ones, two of them are online, a PRIMARY and
      another SECONDARY, and the PRIMARY has both read-only flags off while
      every other instance has both on. */
  lemma ExactlyOneWriter(s: State, instances: seq<Instance>)
    requires DistinctBy(instances, InstanceName) && IsNormalized(s)
    ensures WritableError(s, instances).None? <==> SomeWriter(s, instances)
  {
    hide OnlinePairError, Filter, Map, DistinctBy, IsNormalized;
    if WritableError(s, instances).None? {
      var p, q := PairFound(s, instances);
      NormalizedNames(s, p, q);
      assert OneWriter(s, instances, p, q);
    }
    if SomeWriter(s, instances) {
      var p, q :| OneWriter(s, instances, p, q);
      PairCounts(s, instances, p, q);
      NormalizedNames(s, p, q);
    }
  }

  function WritesIn(servers: map<string, Server>): Instance -> bool {
    (i: Instance) => Writes(i, servers)
  }

  /** By counting: one of the instances accepts writes, the reported primary. */
  lemma WritersCounted(s: State, instances: seq<Instance>)
    requires DistinctBy(instances, InstanceName) && IsNormalized(s) && WritableError(s, instances).None?
    ensures |Filter(instances, WritesIn(s.servers))| == 1
    ensures s.primary == Some(Filter(instances, WritesIn(s.servers))[0].name)
    ensures s.secondary.Some? && s.secondary != s.primary
  {
    hide OnlinePairError, Map, Filter;
    var p, q := PairFound(s, instances);
    NormalizedNames(s, p, q);
    var want := Map(instances, InstanceName);
    MapAt(instances, InstanceName);
    MapAt(s.members, NameOf);
    var k :| 0 <= k < |s.members| && s.members[k] == p;
    assert Map(s.members, NameOf)[k] == p.name;
    assert p.name in multiset(Map(s.members, NameOf)) && p.name in multiset(want);
    var j :| 0 <= j < |want| && want[j] == p.name;
    WriterIsUnique(s, instances, p.name, instances[j]);
  }

  lemma WriterIsUnique(s: State, instances: seq<Instance>, name: string, writer: Instance)
    requires DistinctBy(instances, InstanceName) && writer in instances && writer.name == name
    requires s.primary == Some(name) && forall i | i in instances :: Protected(i, s)
    ensures Filter(instances, WritesIn(s.servers)) == [writer]
  {
    hide Map, DistinctBy;
    forall i | i in instances
      ensures WritesIn(s.servers)(i) <==> i == writer
    {
      if i.name == name {
        UniqueByKey(instances, InstanceName, i, writer);
      }
    }
    FilterOnly(instances, WritesIn(s.servers), writer);
    InstanceOnce(instances, writer);
    var found := Filter(instances, WritesIn(s.servers));
    FilterContains(instances, WritesIn(s.servers), found[0]);
  }

  lemma InstanceOnce(instances: seq<Instance>, x: Instance)
    requires DistinctBy(instances, InstanceName) && x in instances
    ensures multiset(instances)[x] == 1
  {
    assert x in multiset(instances);
    if multiset(instances)[x] >= 2 {
      PlacedTwice(instances, x);
    }
  }

  lemma PlacedTwice(instances: seq<Instance>, x: Instance)
    requires multiset(instances)[x] >= 2
    ensures !DistinctBy(instances, InstanceName)
  {
    var i, j := TwoPlaces(instances, x);
    assert InstanceName(instances[i]) == InstanceName(instances[j]);
  }

  /** What AdminAPI reports is normalized, and its members bear expected names
      or the names that AdminAPI gives them. */
  lemma NormalizeIsNormalized(topology: seq<Reported>, instances: seq<Instance>, servers: map<string, Server>)
    requires (forall i | i in instances :: i.name != "") && forall r | r in topology :: r.endpoint != ""
    ensures IsNormalized(Normalize(topology, instances).(servers := servers))
    ensures forall m | m in Normalize(topology, instances).members :: m.name != ""
  {
    var members := Normalize(topology, instances).members;
    MapAt(topology, MemberOf(instances));
    forall k | 0 <= k < |members|
      ensures members[k].name != ""
    {
      NameIsGiven(topology[k], instances);
    }
  }

  lemma {:induction false} NameIsGiven(r: Reported, instances: seq<Instance>)
    requires (forall i | i in instances :: i.name != "") && r.endpoint != ""
    ensures ExpectedName(r, instances) != ""
  {
    if instances != [] {
      assert instances[0] in instances;
      NameIsGiven(r, instances[1..]);
    }
  }

  // ----- the account policy settles -----

  function Settled(desired: string): Account -> Account {
    (a: Account) => a.(host := desired, sourceExists := true, targetExists := true)
  }

  function OptionSet(desired: string): ((string, string)) -> (string, string) {
    (o: (string, string)) => if o.0 == ALLOWED_HOST then (o.0, desired) else o
  }

  /** Setting the option moves the option and every account to the desired
      host; then nothing is left to change, unless the desired host is empty: the
      accounts are then refused from there on.  An accepted reading asks for no
      change exactly when the option and all accounts are there already. */
  lemma AllowedHostSettles(options: seq<(string, string)>, accounts: seq<Account>, desired: string)
    requires HostDecision(options, accounts, desired).Ok?
    ensures HostDecision(Map(options, OptionSet(desired)), Map(accounts, Settled(desired)), desired) ==
            if desired == "" then Err(AccountsDisagree) else Ok(HostChange(false, desired, desired))
    ensures !HostDecision(options, accounts, desired).value.changed <==>
              && (forall o | o in options && o.0 == ALLOWED_HOST :: o.1 == desired)
              && (forall a | a in accounts :: a.host == desired)
  {
    hide Map, Filter, ALLOWED_HOST;
    var re := OptionSet(desired);
    FilterOfMap(options, re, IsAllowedHost, IsAllowedHost);
    var matches := Filter(options, IsAllowedHost);
    MapAt(matches, re);
    MapAt(accounts, Settled(desired));
    OneLeft(options, IsAllowedHost);
    FilterContains(options, IsAllowedHost, matches[0]);
    var settled := Map(accounts, Settled(desired));
    forall a | a in settled
      ensures a == Account(a.name, a.user, desired, true, true) && a.user != ""
    {
      var k :| 0 <= k < |settled| && settled[k] == a;
      assert accounts[k] in accounts;
    }
    assert settled[0] in settled;
  }
}
