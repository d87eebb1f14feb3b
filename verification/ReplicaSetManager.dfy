/** ReplicaSetManager.run as a machine that talks to AdminAPI.  What the servers
    answer is arbitrary; every call and its answer are kept in a log. */
module ReplicaSetManager {
  import opened Wrappers
  import opened Text
  import opened Sequences
  import opened ReplicaSet

  datatype Action = Check | Converge | ReadStatus | Switchover | Failover | Unsupported

  datatype Config = Config(instances: seq<Instance>, initialPrimary: string, allowedHost: string, target: string,
                           dryRun: bool)

  datatype Call =
    | Connect(i: Instance)
    | ReadServer(i: Instance)
    | HasMetadata(i: Instance)
    | GetReplicaSet
    | ReadTopology
    | Snapshot
    | ReadAccounts(primary: string)
    | ReadOptions
    | Create(seed: string, host: string)
    | AddInstance(address: string, name: string)
    | RejoinInstance(address: string)
    | SetOption(value: string)
    | SetPrimary(address: string, dryRun: bool)
    | ForcePrimary(address: string, dryRun: bool)

  /** An answer; one of another kind than asked for counts as a failure. */
  datatype Reply =
    | Failed
    | Done
    | Present(found: bool)
    | Server(server: ReplicaSet.Server)
    | Topology(topology: seq<Reported>)
    | Seen(topology: seq<Reported>, servers: map<string, ReplicaSet.Server>)
    | Accounts(accounts: seq<Account>)
    | Options(options: seq<(string, string)>)

  datatype Exchange = Exchange(call: Call, reply: Reply)

  type Log = seq<Exchange>

  /** A server that no longer answers has failed. */
  function Answer(answers: seq<Reply>, k: nat): Reply {
    if k < |answers| then answers[k] else Failed
  }

  /** The calls that change the ReplicaSet. */
  predicate Mutates(c: Call) {
    c.Create? || c.AddInstance? || c.RejoinInstance? || c.SetOption?
    || ((c.SetPrimary? || c.ForcePrimary?) && !c.dryRun)
  }

  function Mutations(log: Log): seq<Call>
    decreases |log|
  {
    if log == [] then []
    else
      var last := log[|log| - 1].call;
      Mutations(log[..|log| - 1]) + if Mutates(last) then [last] else []
  }

  lemma MutationsAppend(log: Log, e: Exchange)
    ensures Mutations(log + [e]) == Mutations(log) + if Mutates(e.call) then [e.call] else []
  {
    assert (log + [e])[..|log|] == log;
  }

  // ----- when a ReplicaSet is created -----

  predicate GoodServers(instances: seq<Instance>, answers: seq<Reply>) {
    |answers| >= |instances|
    && forall k | 0 <= k < |instances| ::
         answers[k].Server? && ServerError(instances[k], answers[k].server).None?
  }

  /** What the seed says of its metadata, after all servers passed. */
  function SeedAnswer(instances: seq<Instance>, answers: seq<Reply>): Reply {
    if |answers| > |instances| + 1 && answers[0] == Done && GoodServers(instances, answers[1..])
    then answers[|instances| + 1] else Failed
  }

  predicate OthersAbsent(instances: seq<Instance>, seed: string, answers: seq<Reply>)
    decreases |instances|
  {
    if instances == [] then true
    else if instances[0].name == seed then OthersAbsent(instances[1..], seed, answers)
    else answers != [] && answers[0] == Present(false) && OthersAbsent(instances[1..], seed, answers[1..])
  }

  /** The answers on which converge creates a ReplicaSet: the seed can be reached,
      every server follows the policy, and no instance holds metadata. */
  predicate Creates(c: Config, answers: seq<Reply>) {
    && ExpectedInstance(c.instances, c.initialPrimary).Ok?
    && SeedAnswer(c.instances, answers) == Present(false)
    && OthersAbsent(c.instances, c.initialPrimary, answers[|c.instances| + 2..])
  }

  /** The status in an answer shows the instance ONLINE. */
  predicate ShowsOnline(c: Config, answer: Reply, i: Instance) {
    answer.Topology?
    && var m := FirstNamed(Normalize(answer.topology, c.instances).members, i.name);
       m.Some? && m.value.status == Online
  }

  /** The status in an answer calls for the instance to be added or rejoined. */
  predicate ShowsJoinable(c: Config, answer: Reply, i: Instance) {
    answer.Topology?
    && var m := FirstNamed(Normalize(answer.topology, c.instances).members, i.name);
       m.None? || m.value.status == Offline
  }

  predicate OnlineUpTo(c: Config, answers: seq<Reply>, n: nat)
    requires n <= |c.instances|
  {
    n <= |answers| && forall k | 0 <= k < n :: ShowsOnline(c, answers[k], c.instances[k])
  }

  /** The answers on which converge adds or rejoins an instance: each status read
      showed the next instance ONLINE, up to one that calls for it. */
  predicate Joins(c: Config, answers: seq<Reply>) {
    exists k | 0 <= k < |c.instances| ::
      k < |answers| && ShowsJoinable(c, answers[k], c.instances[k]) && OnlineUpTo(c, answers, k)
  }

  lemma NoneJoinable(c: Config, answers: seq<Reply>, n: nat)
    requires n <= |c.instances| && OnlineUpTo(c, answers, n)
    requires n < |c.instances| && n < |answers| ==>
               !ShowsJoinable(c, answers[n], c.instances[n]) && !ShowsOnline(c, answers[n], c.instances[n])
    ensures !Joins(c, answers)
  {
    hide Normalize, FirstNamed;
    forall k | n < k < |c.instances|
      ensures OnlineUpTo(c, answers, k) ==> n < |answers| && ShowsOnline(c, answers[n], c.instances[n])
    {
    }
  }

  lemma NoneOnline(c: Config, answers: seq<Reply>)
    ensures OnlineUpTo(c, answers, 0)
  {
  }

  /** After n statuses that showed the first n ONLINE, none can be read. */
  lemma NoneShown(c: Config, answers: seq<Reply>, n: nat)
    requires n <= |c.instances| && OnlineUpTo(c, answers, n) && !Answer(answers, n).Topology?
    ensures !Joins(c, answers)
  {
    NoneJoinable(c, answers, n);
  }

  /** What one more status says. */
  lemma OneStatus(c: Config, answers: seq<Reply>, n: nat)
    requires n < |c.instances| && n < |answers| && OnlineUpTo(c, answers, n)
    ensures ShowsJoinable(c, answers[n], c.instances[n]) ==> Joins(c, answers)
    ensures ShowsOnline(c, answers[n], c.instances[n]) ==>
              OnlineUpTo(c, answers, n + 1) && !ShowsJoinable(c, answers[n], c.instances[n])
    ensures !ShowsOnline(c, answers[n], c.instances[n]) && !ShowsJoinable(c, answers[n], c.instances[n]) ==>
              !Joins(c, answers)
  {
    if !ShowsOnline(c, answers[n], c.instances[n]) && !ShowsJoinable(c, answers[n], c.instances[n]) {
      NoneJoinable(c, answers, n);
    }
  }

  /** The answers on which converge finds the ReplicaSet of the seed. */
  predicate Finds(c: Config, answers: seq<Reply>) {
    && ExpectedInstance(c.instances, c.initialPrimary).Ok?
    && SeedAnswer(c.instances, answers) == Present(true)
    && |answers| > |c.instances| + 2 && answers[|c.instances| + 2] == Done
  }

  /** The answers on which converge changes something other than the option. */
  predicate Changes(c: Config, answers: seq<Reply>) {
    Creates(c, answers) || (Finds(c, answers) && Joins(c, answers[|c.instances| + 3..]))
  }

  function Address(i: Instance): string {
    i.host + ":" + Decimal(i.port)
  }

  /** read_only_state for every expected instance; one that is not in the answer
      could not be reached. */
  function ServersOf(instances: seq<Instance>, servers: map<string, ReplicaSet.Server>)
    : map<string, ReplicaSet.Server>
  {
    map i | i in instances :: i.name := if i.name in servers then servers[i.name] else Unreachable
  }

  /** state(): the status and then the server variables. */
  function StateOf(c: Config, reply: Reply): State
    requires reply.Seen?
  {
    Normalize(reply.topology, c.instances).(servers := ServersOf(c.instances, reply.servers))
  }

  /** What the accounts and the option, read at k for the primary, decide. */
  predicate DecidedAt(c: Config, log: Log, k: int, primary: string, host: HostChange) {
    && 0 <= k < |log| - 1
    && log[k].call == ReadAccounts(primary) && log[k].reply.Accounts?
    && log[k + 1].call == ReadOptions && log[k + 1].reply.Options?
    && HostDecision(log[k + 1].reply.options, log[k].reply.accounts, c.allowedHost) == Ok(host)
  }

  /** The answers about a known primary on which the option is to be set. */
  predicate HostToSet(c: Config, primary: Option<string>, answers: seq<Reply>) {
    && primary.Some? && ExpectedInstance(c.instances, primary.value).Ok?
    && Answer(answers, 0).Accounts? && Answer(answers, 1).Options?
    && var d := HostDecision(answers[1].options, answers[0].accounts, c.allowedHost);
       d.Ok? && d.value.changed
  }

  /** What the last exchange was. */
  predicate JustSaw(log: Log) {
    log != [] && log[|log| - 1].call == Snapshot && log[|log| - 1].reply.Seen?
  }

  /** The last exchanges before n: a snapshot, and what its primary's accounts and
      the option decide. */
  predicate Decided(c: Config, log: Log, n: int, host: HostChange) {
    && 2 <= n <= |log| && JustSaw(log[..n - 2])
    && var primary := LastSeen(c, log[..n - 2]).primary;
       primary.Some? && DecidedAt(c, log, n - 2, primary.value, host)
  }

  lemma DecidedGrows(c: Config, log: Log, longer: Log, n: int, host: HostChange)
    requires Decided(c, log, n, host) && log <= longer
    ensures Decided(c, longer, n, host)
  {
    hide LastSeen, JustSaw, HostDecision;
    assert longer[..n - 2] == log[..n - 2];
  }

  predicate JustReported(log: Log) {
    log != [] && log[|log| - 1].call == ReadTopology && log[|log| - 1].reply.Topology?
  }

  predicate LastDid(log: Log, call: Call) {
    log != [] && log[|log| - 1] == Exchange(call, Done)
  }

  function LastSeen(c: Config, log: Log): State
    requires JustSaw(log)
  {
    StateOf(c, log[|log| - 1].reply)
  }

  function LastReported(c: Config, log: Log): seq<Member>
    requires JustReported(log)
  {
    Normalize(log[|log| - 1].reply.topology, c.instances).members
  }

  // ----- the discipline -----

  /** Every expected server has been read and follows the policy. */
  ghost predicate Configured(c: Config, log: Log) {
    forall i | i in c.instances ::
      exists s :: Exchange(ReadServer(i), Reply.Server(s)) in log && ServerError(i, s).None?
  }

  lemma ConfiguredGrows(c: Config, log: Log, longer: Log)
    requires Configured(c, log) && log <= longer
    ensures Configured(c, longer)
  {
    hide ServerError;
    forall i | i in c.instances
      ensures exists s :: Exchange(ReadServer(i), Reply.Server(s)) in longer && ServerError(i, s).None?
    {
      var s :| Exchange(ReadServer(i), Reply.Server(s)) in log && ServerError(i, s).None?;
      assert Exchange(ReadServer(i), Reply.Server(s)) in longer;
    }
  }

  /** The dry run of a transition: right after a snapshot that allows it. */
  ghost predicate MayPromote(c: Config, log: Log, address: string, force: bool) {
    var target := ExpectedInstance(c.instances, c.target);
    && target.Ok? && address == Address(target.value) && JustSaw(log)
    && var s := LastSeen(c, log);
       if force then
         CandidateError(s, c.target).None? && c.target in s.servers
         && ServerError(target.value, s.servers[c.target]).None?
       else
         Configured(c, log) && OnlinePairError(s, c.instances).None? && s.secondary == Some(c.target)
  }

  ghost predicate MaySetOption(c: Config, log: Log, value: string) {
    && !c.dryRun && value == c.allowedHost && Configured(c, log)
    && |log| >= 2 && log[|log| - 1].call == ReadOptions && log[|log| - 1].reply.Options?
    && log[|log| - 2].call.ReadAccounts? && log[|log| - 2].reply.Accounts?
    && var d := HostDecision(log[|log| - 1].reply.options, log[|log| - 2].reply.accounts, value);
       d.Ok? && d.value.changed
  }

  lemma DecidedMaySet(c: Config, log: Log, host: HostChange)
    requires !c.dryRun && Configured(c, log) && Decided(c, log, |log|, host) && host.changed
    ensures MaySetOption(c, log, c.allowedHost)
  {
    hide Configured, HostDecision, LastSeen, JustSaw;
  }

  /** When a call is made, in view of the log so far. */
  ghost predicate Justified(c: Config, log: Log, call: Call) {
    match call
    case Create(seed, host) =>
      seed == c.initialPrimary && host == c.allowedHost && Mutations(log) == [] && Configured(c, log)
      && (exists i :: ExpectedInstance(c.instances, seed) == Ok(i)
                      && Exchange(HasMetadata(i), Present(false)) in log)
      && forall i | i in c.instances && i.name != seed :: Exchange(HasMetadata(i), Present(false)) in log
    case AddInstance(address, name) =>
      JustReported(log) && Configured(c, log) && FirstNamed(LastReported(c, log), name).None?
      && exists i :: i in c.instances && i.name == name && address == Address(i)
    case RejoinInstance(address) =>
      JustReported(log) && Configured(c, log)
      && exists i :: i in c.instances && address == Address(i)
                     && var m := FirstNamed(LastReported(c, log), i.name); m.Some? && m.value.status == Offline
    case SetOption(value) => MaySetOption(c, log, value)
    case SetPrimary(address, dryRun) =>
      if dryRun then MayPromote(c, log, address, false)
      else !c.dryRun && LastDid(log, SetPrimary(address, true))
    case ForcePrimary(address, dryRun) =>
      if dryRun then MayPromote(c, log, address, true)
      else !c.dryRun && LastDid(log, ForcePrimary(address, true))
    case _ => true
  }

  ghost predicate Disciplined(c: Config, log: Log)
    decreases |log|
  {
    log == []
    || (Disciplined(c, log[..|log| - 1]) && Justified(c, log[..|log| - 1], log[|log| - 1].call))
  }

  lemma DisciplinedAppend(c: Config, log: Log, e: Exchange)
    ensures Disciplined(c, log + [e]) <==> Disciplined(c, log) && Justified(c, log, e.call)
  {
    assert (log + [e])[..|log|] == log;
  }

  /** What a run returns. */
  datatype Report = Report(action: Action, changed: bool, present: bool, before: Option<State>,
                           host: Option<HostChange>, current: Option<State>)

  class Manager {
    const config: Config
    var answers: seq<Reply>
    var log: Log

    constructor (config: Config, answers: seq<Reply>)
      ensures this.config == config && this.answers == answers && log == []
    {
      this.config := config;
      this.answers := answers;
      this.log := [];
    }

    ghost predicate Valid()
      reads this
    {
      Disciplined(config, log)
    }

    /** One call and its answer. */
    method Ask(c: Call) returns (reply: Reply)
      requires Valid() && Justified(config, log, c)
      modifies this
      ensures Valid() && log == old(log) + [Exchange(c, reply)]
      ensures Mutations(log) == old(Mutations(log)) + if Mutates(c) then [c] else []
      ensures reply == Answer(old(answers), 0)
      ensures answers == if old(answers) == [] then [] else old(answers)[1..]
    {
      reply := Answer(answers, 0);
      if answers != [] {
        answers := answers[1..];
      }
      DisciplinedAppend(config, log, Exchange(c, reply));
      MutationsAppend(log, Exchange(c, reply));
      log := log + [Exchange(c, reply)];
    }

    /** connect_to_reachable_member: the first that can be reached. */
    method ConnectToReachable() returns (r: Result<Instance>)
      requires Valid()
      modifies this
      ensures Valid() && Mutations(log) == old(Mutations(log)) && old(log) <= log
      ensures |log| <= |old(log)| + |config.instances|
      ensures forall k | |old(log)| <= k < |log| ::
                && log[k].call == Connect(config.instances[k - |old(log)|])
                && (log[k].reply == Done <==> r.Ok? && k == |log| - 1)
      ensures if r.Ok? then |log| > |old(log)| && log[|log| - 1] == Exchange(Connect(r.value), Done)
              else |log| == |old(log)| + |config.instances|
    {
      hide Disciplined, Mutations;
      for k := 0 to |config.instances|
        invariant Valid() && Mutations(log) == old(Mutations(log)) && old(log) <= log
        invariant |log| == |old(log)| + k
        invariant forall m | |old(log)| <= m < |log| ::
                    log[m].call == Connect(config.instances[m - |old(log)|]) && log[m].reply != Done
      {
        var reply := Ask(Connect(config.instances[k]));
        if reply == Done {
          return Ok(config.instances[k]);
        }
      }
      return Err(NoneReachable);
    }

    /** validate_expected_configurations. */
    method ValidateConfigurations() returns (r: Option<Error>)
      requires Valid()
      modifies this
      ensures Valid() && Mutations(log) == old(Mutations(log)) && old(log) <= log
      ensures r.None? <==> GoodServers(config.instances, old(answers))
      ensures r.None? ==> Configured(config, log) && answers == old(answers)[|config.instances|..]
    {
      hide Disciplined, ServerError, Mutations;
      for k := 0 to |config.instances|
        invariant Valid() && Mutations(log) == old(Mutations(log)) && old(log) <= log
        invariant k <= |old(answers)| && answers == old(answers)[k..]
        invariant forall j | 0 <= j < k ::
                    && old(answers)[j].Server? && ServerError(config.instances[j], old(answers)[j].server).None?
                    && Exchange(ReadServer(config.instances[j]), old(answers)[j]) in log
      {
        var reply := Ask(ReadServer(config.instances[k]));
        var server := if reply.Server? then reply.server else Unreachable;
        UnreachableIsRefused(config.instances[k]);
        var e := ServerError(config.instances[k], server);
        if e.Some? {
          return e;
        }
        assert log[|log| - 1] == Exchange(ReadServer(config.instances[k]), reply);
      }
      ServersRead(config, log, old(answers));
      return None;
    }

    /** state(). */
    method Observe() returns (r: Result<State>)
      requires Valid()
      modifies this
      ensures Valid() && Mutations(log) == old(Mutations(log)) && old(log) <= log
      ensures |log| == |old(log)| + 1
      ensures r.Ok? ==> JustSaw(log) && r.value == LastSeen(config, log)
    {
      hide Disciplined;
      var reply := Ask(Snapshot);
      return if reply.Seen? then Ok(StateOf(config, reply)) else Err(ApiFailed);
    }

    /** normalize_status(rs.status(...)). */
    method ReportMembers() returns (r: Result<seq<Member>>)
      requires Valid()
      modifies this
      ensures Valid() && Mutations(log) == old(Mutations(log)) && old(log) <= log
      ensures r.Ok? ==> JustReported(log) && r.value == LastReported(config, log)
      ensures log == old(log) + [Exchange(ReadTopology, Answer(old(answers), 0))]
      ensures r.Ok? <==> Answer(old(answers), 0).Topology?
      ensures r.Ok? ==>
                && r.value == Normalize(old(answers)[0].topology, config.instances).members
                && answers == old(answers)[1..]
    {
      hide Disciplined;
      var reply := Ask(ReadTopology);
      return if reply.Topology? then Ok(Normalize(reply.topology, config.instances).members) else Err(ApiFailed);
    }

    /** The readings of replication_accounts and converge_replication_allowed_host,
        and what they decide. */
    method ReadHost(primary: string) returns (r: Result<HostChange>)
      requires Valid() && ExpectedInstance(config.instances, primary).Ok?
      modifies this
      ensures Valid() && old(log) <= log && Mutations(log) == old(Mutations(log))
      ensures r.Ok? ==> |log| == |old(log)| + 2 && DecidedAt(config, log, |old(log)|, primary, r.value)
      ensures r.Ok? && r.value.changed <==> HostToSet(config, Some(primary), old(answers))
    {
      hide Disciplined, Mutations, HostDecision;
      var rows := Ask(ReadAccounts(primary));
      if !rows.Accounts? {
        return Err(ApiFailed);
      }
      var read := Ask(ReadOptions);
      if !read.Options? {
        return Err(ApiFailed);
      }
      r := DecideHost(read.options, rows.accounts, config.allowedHost);
    }

    /** replication_accounts and converge_replication_allowed_host. */
    method ConvergeAllowedHost(primary: Option<string>, dryRun: bool) returns (r: Result<HostChange>)
      requires Valid() && (config.dryRun ==> dryRun) && Configured(config, log)
      requires JustSaw(log) && primary == LastSeen(config, log).primary
      modifies this
      ensures Valid() && old(log) <= log
      ensures dryRun ==> Mutations(log) == old(Mutations(log))
      ensures Mutations(log) == old(Mutations(log))
              || Mutations(log) == old(Mutations(log)) + [SetOption(config.allowedHost)]
      ensures r.Ok? ==>
                && Decided(config, log, |old(log)| + 2, r.value)
                && |log| == |old(log)| + (if r.value.changed && !dryRun then 3 else 2)
      ensures Mutations(log) == old(Mutations(log)) + if !dryRun && HostToSet(config, primary, old(answers))
                                                      then [SetOption(config.allowedHost)] else []
      ensures r.Ok? ==> (r.value.changed <==> HostToSet(config, primary, old(answers)))
    {
      hide Disciplined, Mutations, Configured, JustSaw, LastSeen, DecidedAt, MaySetOption;
      if primary.None? || ExpectedInstance(config.instances, primary.value).Err? {
        return Err(UnknownMember);
      }
      r := ReadHost(primary.value);
      ghost var decided := log;
      assert decided[..|old(log)|] == old(log);
      assert r.Ok? ==> Decided(config, decided, |decided|, r.value);
      if r.Ok? && r.value.changed && !dryRun {
        ConfiguredGrows(config, old(log), log);
        DecidedMaySet(config, log, r.value);
        var done := Ask(SetOption(config.allowedHost));
        DecidedGrows(config, decided, log, |decided|, r.value);
        return if done == Done then r else Err(ApiFailed);
      }
    }

    /** run('check'). */
    method RunCheck() returns (r: Result<Report>)
      requires Valid()
      modifies this
      ensures Valid() && Mutations(log) == old(Mutations(log))
      ensures r.Ok? ==> r.value.action == Check && r.value.before.None? && Configured(config, log)
      ensures r.Ok? && !r.value.present ==> !r.value.changed && r.value.current.None? && r.value.host.None?
      ensures r.Ok? && r.value.present ==>
                && r.value.current.Some? && WritableError(r.value.current.value, config.instances).None?
                && r.value.host.Some? && r.value.changed == r.value.host.value.changed
                && Decided(config, log, |log|, r.value.host.value)
                && r.value.current.value == LastSeen(config, log[..|log| - 2])
    {
      hide Disciplined, WritableError, Mutations, Configured, GoodServers, Decided, LastSeen, JustSaw, HostToSet;
      var connected := ConnectToReachable();
      if connected.Err? {
        return Err(connected.error);
      }
      var bad := ValidateConfigurations();
      if bad.Some? {
        return Err(bad.value);
      }
      ghost var configured := log;
      var metadata := Ask(HasMetadata(connected.value));
      if !metadata.Present? {
        return Err(ApiFailed);
      }
      ConfiguredGrows(config, configured, log);
      if !metadata.found {
        return Ok(Report(Check, false, false, None, None, None));
      }
      var rs := Ask(GetReplicaSet);
      if rs != Done {
        return Err(ApiFailed);
      }
      var state := Observe();
      if state.Err? {
        return Err(state.error);
      }
      var wrong := WritableError(state.value, config.instances);
      if wrong.Some? {
        return Err(wrong.value);
      }
      ConfiguredGrows(config, configured, log);
      ghost var seen := log;
      var host := ConvergeAllowedHost(state.value.primary, true);
      ConfiguredGrows(config, configured, log);
      if host.Err? {
        return Err(host.error);
      }
      assert log[..|log| - 2] == seen;
      return Ok(Report(Check, host.value.changed, true, None, Some(host.value), Some(state.value)));
    }

    method SeedMetadata(seed: Instance) returns (r: Reply)
      requires Valid()
      modifies this
      ensures Valid() && Mutations(log) == old(Mutations(log))
      ensures r == SeedAnswer(config.instances, old(answers))
      ensures r.Present? ==> Exchange(HasMetadata(seed), r) in log && Configured(config, log)
      ensures r.Present? ==> answers == old(answers)[|config.instances| + 2..]
    {
      hide Disciplined, Mutations, Configured, GoodServers;
      NeedsServers(config.instances, []);
      var connected := Ask(Connect(seed));
      if connected != Done {
        return Failed;
      }
      NeedsServers(config.instances, answers);
      var bad := ValidateConfigurations();
      if bad.Some? {
        return Failed;
      }
      ghost var configured := log;
      r := Ask(HasMetadata(seed));
      ConfiguredGrows(config, configured, log);
      assert log[|log| - 1] == Exchange(HasMetadata(seed), r);
    }

    /** The first half of run('converge'): the ReplicaSet of the seed, created if
        no expected instance knows of one. */
    method Bootstrap() returns (r: Result<bool>)
      requires log == []
      modifies this
      ensures Valid()
      ensures Mutations(log) <= [Create(config.initialPrimary, config.allowedHost)]
      ensures r.Ok? ==>
                Mutations(log) == if r.value then [Create(config.initialPrimary, config.allowedHost)] else []
      ensures Mutations(log) != [] <==> Creates(config, old(answers))
      ensures r.Ok? ==> Configured(config, log)
      ensures r.Ok? && !r.value <==> Finds(config, old(answers))
      ensures r.Ok? && !r.value ==> answers == old(answers)[|config.instances| + 3..]
    {
      hide Disciplined, Mutations, Configured, SeedAnswer, OthersAbsent;
      EmptyIsDisciplined(config);
      NoMutations();
      var seed := ExpectedInstance(config.instances, config.initialPrimary);
      if seed.Err? {
        return Err(seed.error);
      }
      ExpectedIsNamed(config.instances, config.initialPrimary);
      var metadata := SeedMetadata(seed.value);
      if !metadata.Present? {
        return Err(ApiFailed);
      }
      ghost var configured := log;
      if metadata.found {
        NeedsAnswers(config.instances, old(answers));
        var rs := Ask(GetReplicaSet);
        ConfiguredGrows(config, configured, log);
        return if rs == Done then Ok(false) else Err(ApiFailed);
      }
      var foreign := OthersHaveNoMetadata(seed.value);
      if foreign.Some? {
        return Err(foreign.value);
      }
      ConfiguredGrows(config, configured, log);
      var created := Ask(Create(config.initialPrimary, config.allowedHost));
      ConfiguredGrows(config, configured, log);
      return if created == Done then Ok(true) else Err(ApiFailed);
    }

    method OthersHaveNoMetadata(seed: Instance) returns (r: Option<Error>)
      requires Valid() && seed.name == config.initialPrimary
      modifies this
      ensures Valid() && Mutations(log) == old(Mutations(log)) && old(log) <= log
      ensures r.None? <==> OthersAbsent(config.instances, config.initialPrimary, old(answers))
      ensures r.None? ==>
                forall i | i in config.instances && i.name != config.initialPrimary ::
                  Exchange(HasMetadata(i), Present(false)) in log
    {
      hide Disciplined, Mutations;
      assert config.instances[0..] == config.instances;
      for k := 0 to |config.instances|
        invariant Valid() && Mutations(log) == old(Mutations(log)) && old(log) <= log
        invariant OthersAbsent(config.instances, config.initialPrimary, old(answers)) <==>
                    OthersAbsent(config.instances[k..], config.initialPrimary, answers)
        invariant forall j | 0 <= j < k && config.instances[j].name != config.initialPrimary ::
                    Exchange(HasMetadata(config.instances[j]), Present(false)) in log
      {
        assert config.instances[k..][1..] == config.instances[k + 1..];
        if config.instances[k].name != seed.name {
          var reply := Ask(HasMetadata(config.instances[k]));
          if !reply.Present? {
            return Some(ApiFailed);
          }
          if reply.found {
            return Some(ForeignMetadata);
          }
          assert log[|log| - 1] == Exchange(HasMetadata(config.instances[k]), Present(false));
        }
      }
      return None;
    }

    /** One expected instance, in view of the members just reported. */
    method JoinInstance(i: Instance, members: seq<Member>) returns (r: Result<bool>)
      requires Valid() && i in config.instances && JustReported(log) && members == LastReported(config, log)
      requires Configured(config, log)
      modifies this
      ensures Valid() && old(log) <= log
      ensures old(Mutations(log)) <= Mutations(log) && |Mutations(log)| <= |old(Mutations(log))| + 1
      ensures AllJoins(Mutations(log)[|old(Mutations(log))|..])
      ensures r.Ok? ==> (r.value <==> Mutations(log) != old(Mutations(log)))
      ensures Mutations(log) != old(Mutations(log)) <==> ShowsJoinable(config, old(log[|log| - 1].reply), i)
      ensures Mutations(log) == old(Mutations(log)) ==>
                answers == old(answers) && (r.Ok? <==> ShowsOnline(config, old(log[|log| - 1].reply), i))
    {
      hide Disciplined, Mutations, Configured;
      var member := FirstNamed(members, i.name);
      var reply;
      if member.None? {
        reply := Ask(AddInstance(Address(i), i.name));
      } else if member.value.status == Offline {
        reply := Ask(RejoinInstance(Address(i)));
      } else {
        return if member.value.status == Online then Ok(false) else Err(AmbiguousRejoin);
      }
      return if reply == Done then Ok(true) else Err(ApiFailed);
    }

    /** The loop of run('converge') over the expected instances. */
    method JoinInstances() returns (r: Result<bool>)
      requires Valid() && Configured(config, log)
      modifies this
      ensures Valid() && old(log) <= log && old(Mutations(log)) <= Mutations(log)
      ensures AllJoins(Mutations(log)[|old(Mutations(log))|..])
      ensures |Mutations(log)| <= |old(Mutations(log))| + |config.instances|
      ensures r.Ok? ==> (r.value <==> Mutations(log) != old(Mutations(log)))
      ensures Mutations(log) != old(Mutations(log)) <==> Joins(config, old(answers))
      ensures r.Ok? && !r.value ==> OnlineUpTo(config, old(answers), |config.instances|)
    {
      hide Disciplined, Mutations, Configured, ShowsOnline, ShowsJoinable, AllJoins, Joins, OnlineUpTo;
      hide JustReported, LastReported, Normalize;
      NoneOnline(config, answers);
      NoJoins();
      assert Mutations(log)[|Mutations(log)|..] == [];
      ghost var given, entry := answers, Mutations(log);
      var members := ReportMembers();
      if members.Err? {
        NoneShown(config, given, 0);
        return Err(members.error);
      }
      var changed := false;
      for k := 0 to |config.instances|
        invariant Valid() && old(log) <= log && entry <= Mutations(log) && AllJoins(Mutations(log)[|entry|..])
        invariant |Mutations(log)| <= |entry| + k && log != []
        invariant members.Ok? && JustReported(log) && members.value == LastReported(config, log)
        invariant changed <==> Mutations(log) != entry
        invariant changed ==> Joins(config, given)
        invariant !changed ==>
                    && OnlineUpTo(config, given, k) && k < |given| && answers == given[k + 1..]
                    && log[|log| - 1].reply == given[k]
      {
        ghost var before := Mutations(log);
        ConfiguredGrows(config, old(log), log);
        var joined := JoinInstance(config.instances[k], members.value);
        JoinsGrow(entry, before, Mutations(log));
        if !changed {
          OneStatus(config, given, k);
        }
        if joined.Err? {
          return Err(joined.error);
        }
        changed := changed || joined.value;
        members := ReportMembers();
        if members.Err? {
          if !changed {
            NoneShown(config, given, k + 1);
          }
          return Err(members.error);
        }
      }
      if !changed {
        NoneJoinable(config, given, |config.instances|);
      }
      return Ok(changed);
    }

    /** run('converge') up to the final reading. */
    method ConvergeMembers() returns (r: Result<(bool, HostChange)>)
      requires log == []
      modifies this
      ensures Valid() && !exists m :: m in Mutations(log) && (m.SetPrimary? || m.ForcePrimary?)
      ensures r.Ok? ==> (r.value.0 <==> Mutations(log) != [] || r.value.1.changed) && Configured(config, log)
      ensures r.Ok? ==>
                (SetOption(config.allowedHost) in Mutations(log) <==> r.value.1.changed && !config.dryRun)
      ensures Create(config.initialPrimary, config.allowedHost) in Mutations(log) <==> Creates(config, old(answers))
      ensures Mutations(log) != [] <==>
                Changes(config, old(answers)) || SetOption(config.allowedHost) in Mutations(log)
      ensures config.dryRun ==> SetOption(config.allowedHost) !in Mutations(log)
      ensures r.Ok? ==>
                Decided(config, log, |log| - (if r.value.1.changed && !config.dryRun then 1 else 0), r.value.1)
    {
      hide Disciplined, Mutations, WritableError, Configured, Creates, Finds, Joins, OnlineUpTo, Decided;
      hide LastSeen, JustSaw, HostToSet;
      NoMutations();
      var created := Bootstrap();
      OnlyCreate(Mutations(log), Create(config.initialPrimary, config.allowedHost));
      if created.Err? {
        return Err(created.error);
      }
      ghost var first, configured := Mutations(log), log;
      var joined := JoinInstances();
      ghost var second := Mutations(log);
      JoinsKept(first, second);
      JoinsCreateNothing(first, second, Create(config.initialPrimary, config.allowedHost));
      if joined.Err? {
        return Err(joined.error);
      }
      var state := Observe();
      if state.Err? {
        return Err(state.error);
      }
      var wrong := WritableError(state.value, config.instances);
      if wrong.Some? {
        return Err(wrong.value);
      }
      ConfiguredGrows(config, configured, log);
      var host := ConvergeAllowedHost(state.value.primary, config.dryRun);
      if host.Err? {
        return Err(host.error);
      }
      ConfiguredGrows(config, configured, log);
      return Ok((created.value || joined.value || host.value.changed, host.value));
    }

    /** The first reading of run('status'), run('switchover') and run('failover'). */
    method ReadBefore(action: Action) returns (r: Result<State>)
      requires log == []
      modifies this
      ensures Valid() && Mutations(log) == []
      ensures r.Ok? ==> JustSaw(log) && r.value == LastSeen(config, log)
      ensures r.Ok? && action != Failover ==> Configured(config, log)
    {
      hide Disciplined, Mutations, Configured, GoodServers, StateOf;
      NoMutations();
      EmptyIsDisciplined(config);
      var connected := ConnectToReachable();
      if connected.Err? {
        return Err(connected.error);
      }
      if action != Failover {
        var bad := ValidateConfigurations();
        if bad.Some? {
          return Err(bad.value);
        }
      }
      ghost var configured := log;
      var rs := Ask(GetReplicaSet);
      if rs != Done {
        return Err(ApiFailed);
      }
      r := Observe();
      if action != Failover {
        ConfiguredGrows(config, configured, log);
      }
    }

    /** The transition of run('switchover') and run('failover'): a dry run, and then
        the transition itself unless this is a dry run. */
    method Promote(action: Action, before: State) returns (r: Result<bool>)
      requires Valid() && (action == Switchover || action == Failover)
      requires JustSaw(log) && before == LastSeen(config, log) && (action == Switchover ==> Configured(config, log))
      modifies this
      ensures Valid()
      ensures config.dryRun || ExpectedInstance(config.instances, config.target).Err? ==>
                Mutations(log) == old(Mutations(log))
      ensures ExpectedInstance(config.instances, config.target).Err? ==> r.Err?
      ensures ExpectedInstance(config.instances, config.target).Ok? ==>
                Mutations(log) == old(Mutations(log))
                || Mutations(log) == old(Mutations(log)) + [Attempt(config, action, false)]
      ensures r.Ok? ==> (r.value <==> !config.dryRun)
      ensures r.Ok? && r.value ==> Mutations(log) == old(Mutations(log)) + [Attempt(config, action, false)]
      ensures Refusal(config, action, before).Some? ==>
                log == old(log) && r == Err(Refusal(config, action, before).value)
      ensures Refusal(config, action, before).None? ==>
                && ExpectedInstance(config.instances, config.target).Ok?
                && log == old(log) + Attempts(config, action, old(answers))
                && (r.Ok? <==> forall e | e in Attempts(config, action, old(answers)) :: e.reply == Done)
    {
      hide Disciplined, Mutations, Configured, StateOf, Refusal, MayPromote;
      var refused := Refusal(config, action, before);
      if refused.Some? {
        return Err(refused.value);
      }
      RefusalNeedsTarget(config, action, before);
      RefusalIsExact(config, action, log);
      var address := Address(ExpectedInstance(config.instances, config.target).value);
      var tried := Ask(if action == Switchover then SetPrimary(address, true) else ForcePrimary(address, true));
      if tried != Done {
        return Err(ApiFailed);
      }
      if config.dryRun {
        return Ok(false);
      }
      var done := Ask(if action == Switchover then SetPrimary(address, false) else ForcePrimary(address, false));
      return if done == Done then Ok(true) else Err(ApiFailed);
    }

    /** run('status'), run('switchover') and run('failover') up to the final
        reading. */
    method Transition(action: Action) returns (r: Result<(bool, State)>)
      requires log == [] && (action == ReadStatus || action == Switchover || action == Failover)
      modifies this
      ensures Valid() && (action == ReadStatus || config.dryRun ==> Mutations(log) == [])
      ensures action != ReadStatus && ExpectedInstance(config.instances, config.target).Err? ==>
                r.Err? && Mutations(log) == []
      ensures action != ReadStatus && ExpectedInstance(config.instances, config.target).Ok? ==>
                Mutations(log) <= [Attempt(config, action, false)]
      ensures r.Ok? ==> (r.value.0 <==> action != ReadStatus && !config.dryRun)
      ensures r.Ok? && r.value.0 ==> Mutations(log) == [Attempt(config, action, false)]
      ensures r.Ok? && action == ReadStatus ==>
                JustSaw(log) && r.value.1 == LastSeen(config, log) && Configured(config, log)
    {
      hide Disciplined, Mutations, Configured, Attempt, StateOf;
      var before := ReadBefore(action);
      if before.Err? {
        return Err(before.error);
      }
      if action == ReadStatus {
        return Ok((false, before.value));
      }
      var promoted := Promote(action, before.value);
      return if promoted.Ok? then Ok((promoted.value, before.value)) else Err(promoted.error);
    }

    /** run. */
    method Run(action: Action) returns (r: Result<Report>)
      requires log == []
      modifies this
      ensures Valid()
      ensures (action == Check || action == ReadStatus || action == Unsupported
               || (config.dryRun && (action == Switchover || action == Failover))) ==>
                Mutations(log) == []
      ensures action == Switchover || action == Failover ==>
                Mutations(log) == [] || (ExpectedInstance(config.instances, config.target).Ok?
                                         && Mutations(log) == [Attempt(config, action, false)])
      ensures r.Ok? && action != Check && !config.dryRun ==> (r.value.changed <==> Mutations(log) != [])
      ensures r.Ok? && action == Converge ==>
                && r.value.host.Some?
                && (r.value.changed <==> Mutations(log) != [] || r.value.host.value.changed)
                && (SetOption(config.allowedHost) in Mutations(log) <==>
                    r.value.host.value.changed && !config.dryRun)
      ensures action == Converge ==>
                (Create(config.initialPrimary, config.allowedHost) in Mutations(log) <==>
                 Creates(config, old(answers)))
      ensures action == Converge ==>
                && (Mutations(log) != [] <==>
                    Changes(config, old(answers)) || SetOption(config.allowedHost) in Mutations(log))
                && (config.dryRun ==> SetOption(config.allowedHost) !in Mutations(log))
      ensures r.Ok? && action == Converge ==>
                var host := r.value.host.value;
                Decided(config, log, |log| - (if host.changed && !config.dryRun then 2 else 1), host)
      ensures r.Ok? && action == Check && r.value.present ==>
                && r.value.host.Some? && r.value.changed == r.value.host.value.changed
                && Decided(config, log, |log|, r.value.host.value)
                && r.value.current.Some? && r.value.current.value == LastSeen(config, log[..|log| - 2])
      ensures r.Ok? && (action == Converge || action == ReadStatus || (action == Switchover && !config.dryRun)) ==>
                r.value.current.Some? && WritableError(r.value.current.value, config.instances).None?
      ensures r.Ok? && (action == Switchover || action == Failover) && !config.dryRun ==>
                r.value.current.Some? && r.value.current.value.primary == Some(config.target)
      ensures r.Ok? && action == Failover && !config.dryRun ==>
                && config.target in r.value.current.value.servers
                && var server := r.value.current.value.servers[config.target];
                   server.Reachable? && server.readOnly == 0 && server.superReadOnly == 0
      ensures r.Ok? && (action == Converge || (action != Check && !config.dryRun)) ==>
                JustSaw(log) && r.value.current == Some(LastSeen(config, log))
      ensures r.Ok? && (action == Check || action == Converge || action == ReadStatus) ==> Configured(config, log)
      ensures r.Ok? ==> r.value.action == action && (r.value.current.Some? <==> r.value.present)
    {
      hide Disciplined, Mutations, WritableError, ServerError, Configured, Creates, Changes, Decided, LastSeen, JustSaw;
      NoMutations();
      EmptyIsDisciplined(config);
      var changed, before, host := false, None, None;
      match action {
        case Check =>
          r := RunCheck();
          return;
        case Converge =>
          var converged := ConvergeMembers();
          if converged.Err? {
            return Err(converged.error);
          }
          changed, host := converged.value.0, Some(converged.value.1);
        case Unsupported =>
          return Err(UnsupportedAction);
        case _ =>
          var moved := Transition(action);
          if moved.Err? {
            return Err(moved.error);
          }
          changed, before := moved.value.0, Some(moved.value.1);
      }
      var current;
      ghost var moved := log;
      if config.dryRun && before.Some? {
        current := before.value;
      } else {
        var read := Observe();
        if read.Err? {
          return Err(read.error);
        }
        current := read.value;
        if action == Converge {
          var writes := if host.value.changed && !config.dryRun then 1 else 0;
          DecidedGrows(config, moved, log, |moved| - writes, host.value);
        }
      }
      if action == Converge || action == ReadStatus {
        ConfiguredGrows(config, moved, log);
      }
      var wrong := FinalError(config, action, current);
      if wrong.Some? {
        return Err(wrong.value);
      }
      return Ok(Report(action, changed, true, before, host, Some(current)));
    }
  }

  /** The checks before a transition. */
  function Refusal(c: Config, action: Action, before: State): Option<Error> {
    var target := ExpectedInstance(c.instances, c.target);
    if target.Err? then Some(target.error)
    else if action == Switchover then
      var pair := OnlinePairError(before, c.instances);
      if pair.Some? then pair
      else if before.secondary != Some(c.target) then Some(NotTheSecondary) else None
    else
      var unfit := CandidateError(before, c.target);
      if unfit.Some? then unfit
      else if c.target !in before.servers then Some(UnknownMember)
      else ServerError(target.value, before.servers[c.target])
  }

  lemma RefusalNeedsTarget(c: Config, action: Action, before: State)
    requires Refusal(c, action, before).None?
    ensures ExpectedInstance(c.instances, c.target).Ok?
  {
  }

  lemma RefusalIsExact(c: Config, action: Action, log: Log)
    requires (action == Switchover || action == Failover) && JustSaw(log)
    requires ExpectedInstance(c.instances, c.target).Ok? && (action == Switchover ==> Configured(c, log))
    ensures Refusal(c, action, LastSeen(c, log)).None? <==>
              MayPromote(c, log, Address(ExpectedInstance(c.instances, c.target).value), action == Failover)
  {
    hide OnlinePairError, CandidateError, ServerError, Configured;
  }

  /** The call of a transition, and of its dry run. */
  function Attempt(c: Config, action: Action, dryRun: bool): Call
    requires ExpectedInstance(c.instances, c.target).Ok?
  {
    var address := Address(ExpectedInstance(c.instances, c.target).value);
    if action == Switchover then SetPrimary(address, dryRun) else ForcePrimary(address, dryRun)
  }

  /** The dry run, and the transition itself if that succeeds and is wanted. */
  function Attempts(c: Config, action: Action, answers: seq<Reply>): Log
    requires ExpectedInstance(c.instances, c.target).Ok?
  {
    var tried := Exchange(Attempt(c, action, true), Answer(answers, 0));
    if tried.reply == Done && !c.dryRun then [tried, Exchange(Attempt(c, action, false), Answer(answers, 1))]
    else [tried]
  }

  /** The checks on the final reading. */
  function FinalError(c: Config, action: Action, current: State): Option<Error> {
    var writable := if action == Converge || action == ReadStatus || (action == Switchover && !c.dryRun)
                    then WritableError(current, c.instances) else None;
    if writable.Some? then writable
    else if (action == Switchover || action == Failover) && !c.dryRun then
      if current.primary != Some(c.target) then Some(NotPromoted)
      else if action == Switchover then None
      else
        var target := ExpectedInstance(c.instances, c.target);
        if target.Err? || c.target !in current.servers then Some(UnknownMember) else
        var server := current.servers[c.target];
        var bad := ServerError(target.value, server);
        if bad.Some? then bad
        else if server.Unreachable? || server.readOnly != 0 || server.superReadOnly != 0
        then Some(PrimaryNotWritable)
        else None
    else None
  }

  lemma NoMutations()
    ensures Mutations([]) == []
  {
  }

  lemma EmptyIsDisciplined(c: Config)
    ensures Disciplined(c, [])
  {
  }

  lemma NoJoins()
    ensures AllJoins([])
  {
  }

  predicate AllJoins(calls: seq<Call>) {
    forall m | m in calls :: m.AddInstance? || m.RejoinInstance?
  }

  lemma JoinsGrow(entry: seq<Call>, before: seq<Call>, after: seq<Call>)
    requires entry <= before <= after && AllJoins(before[|entry|..]) && AllJoins(after[|before|..])
    ensures AllJoins(after[|entry|..])
  {
    assert after[|entry|..] == before[|entry|..] + after[|before|..];
  }

  lemma {:induction false} ExpectedIsNamed(instances: seq<Instance>, name: string)
    ensures ExpectedInstance(instances, name).Ok? ==>
              && ExpectedInstance(instances, name).value in instances
              && ExpectedInstance(instances, name).value.name == name
    ensures ExpectedInstance(instances, name).Err? ==> forall i | i in instances :: i.name != name
  {
    if instances != [] {
      ExpectedIsNamed(instances[1..], name);
      assert instances == [instances[0]] + instances[1..];
    }
  }

  lemma OnlyCreate(calls: seq<Call>, create: Call)
    requires calls <= [create]
    ensures create in calls <==> calls != []
  {
    assert calls != [] ==> calls[0] == create;
  }

  lemma JoinsCreateNothing(first: seq<Call>, second: seq<Call>, create: Call)
    requires first <= second && AllJoins(second[|first|..]) && create.Create?
    ensures create in second <==> create in first
  {
    assert second == first + second[|first|..];
  }

  lemma JoinsKept(first: seq<Call>, second: seq<Call>)
    requires |first| <= 1 && (forall m | m in first :: m.Create?) && first <= second && AllJoins(second[|first|..])
    ensures forall m | m in second :: m.Create? || m.AddInstance? || m.RejoinInstance?
  {
    assert second == first + second[|first|..];
  }

  lemma NeedsAnswers(instances: seq<Instance>, answers: seq<Reply>)
    ensures SeedAnswer(instances, answers) != Failed ==> |answers| > |instances| + 1
  {
  }

  lemma NeedsServers(instances: seq<Instance>, answers: seq<Reply>)
    ensures GoodServers(instances, answers) ==> |answers| >= |instances|
  {
  }

  lemma ServersRead(c: Config, log: Log, answers: seq<Reply>)
    requires GoodServers(c.instances, answers)
    requires forall j | 0 <= j < |c.instances| :: Exchange(ReadServer(c.instances[j]), answers[j]) in log
    ensures Configured(c, log)
  {
    hide ServerError;
    forall i | i in c.instances
      ensures exists s :: Exchange(ReadServer(i), Reply.Server(s)) in log && ServerError(i, s).None?
    {
      var j :| 0 <= j < |c.instances| && c.instances[j] == i;
      assert answers[j] == Reply.Server(answers[j].server);
    }
  }

  lemma UnreachableIsRefused(i: Instance)
    ensures ServerError(i, Unreachable).Some?
  {
  }

  /** The loop of converge_replication_allowed_host. */
  method DecideHost(options: seq<(string, string)>, accounts: seq<Account>, desired: string)
    returns (r: Result<HostChange>)
    ensures r == HostDecision(options, accounts, desired)
  {
    hide Filter, Disagrees;
    var matches := Filter(options, IsAllowedHost);
    if |matches| != 1 {
      return Err(OptionCount);
    }
    if accounts == [] {
      return Err(NoAccounts);
    }
    var current := matches[0].1;
    var changed := current != desired;
    for k := 0 to |accounts|
      invariant forall a | a in accounts[..k] :: !Disagrees(a, desired)
      invariant changed <==> current != desired || exists a | a in accounts[..k] :: a.host != desired
    {
      var a := accounts[k];
      assert accounts[..k + 1] == accounts[..k] + [a];
      if Disagrees(a, desired) {
        assert a in accounts;
        return Err(AccountsDisagree);
      }
      changed := changed || a.host != desired;
    }
    assert accounts[..|accounts|] == accounts;
    return Ok(HostChange(changed, current, desired));
  }

  // ----- a dry run is not always dry -----

  /** The dry-run flag has no say in whether converge creates a ReplicaSet. */
  lemma CreatingIgnoresTheDryRun(c: Config, answers: seq<Reply>, dryRun: bool)
    ensures Creates(c.(dryRun := dryRun), answers) <==> Creates(c, answers)
  {
  }

  const FIRST: Instance := Instance("a", "a.example", 3306, 1)
  const SECOND: Instance := Instance("b", "b.example", 3306, 2)

  /** Two expected instances without metadata, in a dry run. */
  const FRESH_PAIR: Config := Config([FIRST, SECOND], "a", "%", "", true)

  function InOrder(i: Instance): Reply {
    Reply.Server(Reachable(0, 0, Policy("ON", "ON", "ROW", 1, 1, i.serverId, 1)))
  }

  const FRESH_ANSWERS: seq<Reply> := [Done, InOrder(FIRST), InOrder(SECOND), Present(false), Present(false)]

  lemma FreshPairIsCreated()
    ensures FRESH_PAIR.dryRun && Creates(FRESH_PAIR, FRESH_ANSWERS)
  {
    var c, answers := FRESH_PAIR, FRESH_ANSWERS;
    var servers := answers[1..];
    assert servers[0] == InOrder(FIRST) && servers[1] == InOrder(SECOND);
    assert ServerError(FIRST, InOrder(FIRST).server).None? && ServerError(SECOND, InOrder(SECOND).server).None?;
    assert GoodServers(c.instances, servers);
    assert SeedAnswer(c.instances, answers) == Present(false);
    assert c.instances[1..] == [SECOND] && [SECOND][1..] == [];
    var last := answers[4..];
    assert last == [Present(false)] && last[1..] == [];
    assert SECOND.name[0] != "a"[0];
    assert OthersAbsent([SECOND], "a", last);
  }

  /** A dry run of converge that asks for a ReplicaSet to be created. */
  method DryRunCreates() returns (m: Manager)
    ensures fresh(m) && m.config.dryRun
    ensures Create(m.config.initialPrimary, m.config.allowedHost) in Mutations(m.log)
  {
    hide Mutations, Creates, Disciplined, FRESH_ANSWERS;
    FreshPairIsCreated();
    m := new Manager(FRESH_PAIR, FRESH_ANSWERS);
    var r := m.Run(Converge);
  }
}
