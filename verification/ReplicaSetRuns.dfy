/** What the manager's log shows about every change it asked for. */
module ReplicaSetRuns {
  import opened Sequences
  import opened ReplicaSet
  import opened ReplicaSetWriter
  import opened ReplicaSetManager

  lemma {:induction false} DisciplinedAt(c: Config, log: Log, k: nat)
    requires Disciplined(c, log) && k < |log|
    ensures Justified(c, log[..k], log[k].call)
    decreases |log|
  {
    hide Justified;
    if k < |log| - 1 {
      var shorter := log[..|log| - 1];
      DisciplinedAt(c, shorter, k);
      assert shorter[..k] == log[..k] && shorter[k] == log[k];
    }
  }

  /** Names are not empty: neither the expected ones nor the reported endpoints. */
  ghost predicate AreNamed(c: Config, topology: seq<Reported>) {
    (forall i | i in c.instances :: i.name != "") && forall r | r in topology :: r.endpoint != ""
  }

  lemma {:induction false} FirstNamedIs(members: seq<Member>, name: string)
    ensures FirstNamed(members, name).Some? ==>
              FirstNamed(members, name).value in members && FirstNamed(members, name).value.name == name
    ensures FirstNamed(members, name).None? <==> forall m | m in members :: m.name != name
  {
    if members != [] {
      FirstNamedIs(members[1..], name);
      assert members == [members[0]] + members[1..];
    }
  }

  /** The dry run that comes before a promotion, and the snapshot before that. */
  lemma PromotionIsRehearsed(c: Config, log: Log, k: nat, address: string, force: bool)
    requires Disciplined(c, log) && k < |log|
    requires log[k].call == if force then ForcePrimary(address, false) else SetPrimary(address, false)
    ensures !c.dryRun && k >= 2
    ensures log[k - 1] == Exchange(if force then ForcePrimary(address, true) else SetPrimary(address, true), Done)
    ensures MayPromote(c, log[..k - 1], address, force)
    ensures log[k - 2].call == Snapshot && log[k - 2].reply.Seen?
    ensures LastSeen(c, log[..k - 1]) == StateOf(c, log[k - 2].reply)
  {
    hide Disciplined, OnlinePairError, CandidateError, ServerError, StateOf, Configured;
    DisciplinedAt(c, log, k);
    var before := log[..k];
    assert before[|before| - 1] == log[k - 1];
    DisciplinedAt(c, log, k - 1);
    var earlier := log[..k - 1];
    assert earlier[|earlier| - 1] == log[k - 2];
  }

  /** A forced promotion is asked for only after a snapshot in which no member is
      an online PRIMARY and the target is an ONLINE or CONNECTING SECONDARY under
      the server policy, and after AdminAPI has accepted the same promotion as a
      dry run. */
  lemma ForcedFailoverIsSafe(c: Config, log: Log, k: nat, address: string)
    requires Disciplined(c, log) && k < |log| && log[k].call == ForcePrimary(address, false)
    ensures !c.dryRun && k >= 2 && log[k - 1] == Exchange(ForcePrimary(address, true), Done)
    ensures log[k - 2].call == Snapshot && log[k - 2].reply.Seen?
    ensures AreNamed(c, log[k - 2].reply.topology) ==>
              forall m | m in StateOf(c, log[k - 2].reply).members :: !(m.role == Primary && m.status == Online)
    ensures exists m, i ::
              && m in StateOf(c, log[k - 2].reply).members && m.name == c.target && m.role == Secondary
              && (m.status == Online || m.status == Connecting)
              && i in c.instances && i.name == c.target && address == Address(i)
              && c.target in log[k - 2].reply.servers
              && ServerError(i, log[k - 2].reply.servers[c.target]).None?
  {
    hide Disciplined, Normalize, ServerError, Address;
    PromotionIsRehearsed(c, log, k, address, true);
    var reply := log[k - 2].reply;
    var s := StateOf(c, reply);
    FirstNamedIs(s.members, c.target);
    ExpectedIsNamed(c.instances, c.target);
    var i := ExpectedInstance(c.instances, c.target).value;
    RefusesUnreachable(i);
    if AreNamed(c, reply.topology) {
      NormalizeIsNormalized(reply.topology, c.instances, s.servers);
      FirstOnlineIs(s.members, Primary);
    }
  }

  lemma RefusesUnreachable(i: Instance)
    ensures ServerError(i, Server.Unreachable).Some?
  {
  }

  /** A planned switchover is asked for only after a snapshot with exactly two
      online members, the target as SECONDARY and another one as PRIMARY, whose
      names are a permutation of the expected ones. */
  lemma SwitchoverIsSafe(c: Config, log: Log, k: nat, address: string) returns (p: Member, q: Member)
    requires Disciplined(c, log) && k < |log| && log[k].call == SetPrimary(address, false)
    requires DistinctBy(c.instances, InstanceName)
    ensures !c.dryRun && k >= 2 && log[k - 1] == Exchange(SetPrimary(address, true), Done)
    ensures log[k - 2].call == Snapshot && log[k - 2].reply.Seen?
    ensures var s := StateOf(c, log[k - 2].reply);
            && multiset(Map(s.members, NameOf)) == multiset(Map(c.instances, InstanceName))
            && p in s.members && q in s.members && p.role == Primary && q.role == Secondary
            && q.name == c.target && p.name != c.target
            && forall m | m in s.members :: m.status == Online <==> m == p || m == q
    ensures Configured(c, log[..k - 1])
    ensures exists i :: i in c.instances && i.name == c.target && address == Address(i)
  {
    hide Disciplined, OnlinePairError, DistinctBy, Address, Map, Configured;
    PromotionIsRehearsed(c, log, k, address, false);
    var s := StateOf(c, log[k - 2].reply);
    p, q := PairFound(s, c.instances);
    NormalizedNames(s, p, q);
    ExpectedIsNamed(c.instances, c.target);
  }

  /** A ReplicaSet is created only as the first change, and only when every
      expected instance has been seen to hold no metadata. */
  lemma BootstrapIsSafe(c: Config, log: Log, k: nat, seed: string, host: string)
    requires Disciplined(c, log) && k < |log| && log[k].call == Create(seed, host)
    requires DistinctBy(c.instances, InstanceName)
    ensures Mutations(log[..k]) == [] && seed == c.initialPrimary && host == c.allowedHost
    ensures forall i | i in c.instances :: Exchange(HasMetadata(i), Present(false)) in log[..k]
    ensures Configured(c, log[..k])
  {
    hide Disciplined, Mutations, DistinctBy, Configured;
    DisciplinedAt(c, log, k);
    ExpectedIsNamed(c.instances, seed);
    var found := ExpectedInstance(c.instances, seed).value;
    forall i | i in c.instances
      ensures Exchange(HasMetadata(i), Present(false)) in log[..k]
    {
      if i.name == seed {
        UniqueByKey(c.instances, InstanceName, i, found);
      }
    }
  }

  /** A member is added only when the status just read has no member of its name,
      and rejoined only when that status shows it OFFLINE. */
  lemma JoinsAreNeeded(c: Config, log: Log, k: nat)
    requires Disciplined(c, log) && k < |log| && (log[k].call.AddInstance? || log[k].call.RejoinInstance?)
    ensures k >= 1 && log[k - 1].call == ReadTopology && log[k - 1].reply.Topology? && Configured(c, log[..k])
    ensures exists i ::
              && i in c.instances && log[k].call.address == Address(i)
              && var members := Normalize(log[k - 1].reply.topology, c.instances).members;
                 if log[k].call.AddInstance? then
                   log[k].call.name == i.name && forall m | m in members :: m.name != i.name
                 else exists m :: m in members && m.name == i.name && m.status == Offline
  {
    hide Disciplined, Address, Normalize, Configured;
    DisciplinedAt(c, log, k);
    var before := log[..k];
    assert before[|before| - 1] == log[k - 1];
    var members := Normalize(log[k - 1].reply.topology, c.instances).members;
    if log[k].call.AddInstance? {
      FirstNamedIs(members, log[k].call.name);
    } else {
      var i :| i in c.instances && log[k].call.address == Address(i)
               && var m := FirstNamed(members, i.name); m.Some? && m.value.status == Offline;
      FirstNamedIs(members, i.name);
    }
  }

  /** The replication host is set only when the metadata just read agree with the
      accounts and something is not at the desired host yet. */
  lemma OptionSetIsNeeded(c: Config, log: Log, k: nat, value: string)
    requires Disciplined(c, log) && k < |log| && log[k].call == SetOption(value)
    ensures !c.dryRun && value == c.allowedHost && k >= 2
    ensures log[k - 1].reply.Options? && log[k - 2].reply.Accounts?
    ensures forall a | a in log[k - 2].reply.accounts :: a.sourceExists && (a.host == value || !a.targetExists)
    ensures (exists a :: a in log[k - 2].reply.accounts && a.host != value)
            || exists o :: o in log[k - 1].reply.options && o.0 == ALLOWED_HOST && o.1 != value
  {
    hide Disciplined, ALLOWED_HOST, Configured;
    DisciplinedAt(c, log, k);
    var before := log[..k];
    assert before[|before| - 1] == log[k - 1] && before[|before| - 2] == log[k - 2];
    DecisionShows(log[k - 1].reply.options, log[k - 2].reply.accounts, value);
  }

  lemma DecisionShows(options: seq<(string, string)>, accounts: seq<Account>, desired: string)
    requires HostDecision(options, accounts, desired).Ok?
    ensures forall a | a in accounts :: a.sourceExists && (a.host == desired || !a.targetExists)
    ensures HostDecision(options, accounts, desired).value.changed ==>
              (exists a :: a in accounts && a.host != desired)
              || exists o :: o in options && o.0 == ALLOWED_HOST && o.1 != desired
  {
    hide ALLOWED_HOST, Filter;
    AllowedHostSettles(options, accounts, desired);
    forall a | a in accounts
      ensures a.sourceExists && (a.host == desired || !a.targetExists)
    {
      assert !Disagrees(a, desired);
    }
  }

  /** A reading that passes at the end of a run shows one writer. */
  lemma AcceptedReadingHasOneWriter(c: Config, log: Log)
    requires DistinctBy(c.instances, InstanceName) && JustSaw(log)
    ensures WritableError(LastSeen(c, log), c.instances).None? <==> SomeWriter(LastSeen(c, log), c.instances)
    ensures WritableError(LastSeen(c, log), c.instances).None? ==>
              |Filter(c.instances, WritesIn(LastSeen(c, log).servers))| == 1
  {
    hide WritableError, SomeWriter, DistinctBy, Filter;
    var s := LastSeen(c, log);
    assert IsNormalized(s);
    ExactlyOneWriter(s, c.instances);
    if WritableError(s, c.instances).None? {
      WritersCounted(s, c.instances);
    }
  }
}
