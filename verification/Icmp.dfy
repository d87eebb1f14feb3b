/** The plan by which a host's ICMP items and triggers are adopted by another
    template (icmp_migration), and the two tasks that carry it out. */
module Icmp {
  import opened Wrappers
  import opened Sequences

  // ----- Zabbix entities -----

  const OLD: string := "ICMP Ping"
  const NEW: string := "Network Generic Device by SNMP"
  const NO_TEMPLATE: string := "0"

  /** The three known triggers. */
  datatype Suffix = Unavailable | Loss | ResponseTime

  /** A trigger name: "ICMP Ping: ...", "Network Generic Device: ..." or another.
      IcmpPingOther is for the names "ICMP Ping: ..." whose suffix is none of the three. */
  datatype Description = IcmpPing(suffix: Suffix) | Generic(suffix: Suffix)
                       | IcmpPingOther(rest: string) | OtherName(text: string)

  /** A trigger expression cut at its {functionid} references. */
  datatype Token = Text(s: string) | Ref(functionId: string)

  datatype TriggerFunction = TriggerFunction(functionId: string, itemId: string, name: string, parameter: string)

  /** recovery_mode, priority, status, type, manual_close and the correlation fields. */
  type Settings = seq<string>

  datatype Trigger = Trigger(
    triggerId: string, description: Description, templateId: string, hosts: seq<string>,
    expression: seq<Token>, recovery: seq<Token>, functions: seq<TriggerFunction>,
    dependencies: seq<string>, settings: Settings)

  /** An item: what _item_signature looks at is its key, its plain fields, its
      master item and its preprocessing steps. */
  datatype Item = Item(itemId: string, hostId: string, templateId: string, key: string, fields: seq<string>,
                       masterItemId: string, preprocessing: seq<seq<string>>)

  datatype Host = Host(hostId: string, parents: seq<string>, macros: set<string>)

  const ICMP_MACROS: set<string> := {"{$ICMP_LOSS_WARN}", "{$ICMP_RESPONSE_TIME_WARN}"}

  datatype State = State(host: Option<Host>, items: seq<Item>, triggers: seq<Trigger>)

  /** The packaged templates' items and triggers, and the declared macros. */
  datatype Templates = Templates(items: seq<Item>, triggers: seq<Trigger>, declared: set<string>)

  datatype Rename = Rename(triggerId: string, description: Description)

  datatype Plan = Plan(unlink: bool, renames: seq<Rename>, pending: bool)

  // ----- signatures -----

  /** A dictionary built from a list of pairs: a later pair wins. */
  function Lookup<V>(pairs: seq<(string, V)>, id: string): Option<V> {
    if pairs == [] then None
    else if pairs[|pairs| - 1].0 == id then Some(pairs[|pairs| - 1].1)
    else Lookup(pairs[..|pairs| - 1], id)
  }

  /** A function call by meaning: its name, the key of its item, its parameter. */
  datatype SigToken = Literal(s: string) | Call(name: string, key: string, parameter: string)

  datatype Signature = Signature(expression: seq<SigToken>, recovery: seq<SigToken>,
                                 dependencies: multiset<Suffix>, settings: Settings)

  function Calls(fs: seq<TriggerFunction>, keys: seq<(string, string)>): Option<seq<(string, SigToken)>> {
    if fs == [] then Some([])
    else
      var f, rest := fs[0], Calls(fs[1..], keys);
      var key := Lookup(keys, f.itemId);
      if key.None? || rest.None? then None
      else Some([(f.functionId, Call(f.name, key.value, f.parameter))] + rest.value)
  }

  function Substitute(tokens: seq<Token>, calls: seq<(string, SigToken)>): Option<seq<SigToken>> {
    if tokens == [] then Some([])
    else
      var rest := Substitute(tokens[1..], calls);
      var first := match tokens[0]
                   case Text(s) => Some(Literal(s))
                   case Ref(id) => Lookup(calls, id);
      if first.None? || rest.None? then None else Some([first.value] + rest.value)
  }

  function DependencyNames(ids: seq<string>, names: seq<(string, Suffix)>): Option<multiset<Suffix>> {
    if ids == [] then Some(multiset{})
    else
      var name, rest := Lookup(names, ids[0]), DependencyNames(ids[1..], names);
      if name.None? || rest.None? then None else Some(multiset{name.value} + rest.value)
  }

  /** _signature: None when a reference leaves the expected entities. */
  function SignatureOf(t: Trigger, keys: seq<(string, string)>, names: seq<(string, Suffix)>): Option<Signature> {
    var calls := Calls(t.functions, keys);
    var dependencies := DependencyNames(t.dependencies, names);
    if calls.None? || dependencies.None? then None
    else
      var expression, recovery := Substitute(t.expression, calls.value), Substitute(t.recovery, calls.value);
      if expression.None? || recovery.None? then None
      else Some(Signature(expression.value, recovery.value, dependencies.value, t.settings))
  }

  datatype ItemSignature = ItemSignature(key: string, fields: seq<string>, masterItemId: string,
                                         preprocessing: seq<seq<string>>)

  function ItemSignatureOf(i: Item): ItemSignature {
    ItemSignature(i.key, i.fields, i.masterItemId, i.preprocessing)
  }

  // ----- the plan -----

  /** One known trigger: the host's, and the one the new template expects. */
  datatype Pair = Pair(suffix: Suffix, current: Trigger, desired: Trigger)

  function IsCandidate(suffix: Suffix): Trigger -> bool {
    (t: Trigger) => t.description == IcmpPing(suffix) || t.description == Generic(suffix)
  }

  function IsExpected(suffix: Suffix): Trigger -> bool {
    (t: Trigger) => t.description == Generic(suffix)
  }

  predicate Allowed(templates: Templates, suffix: Suffix, templateId: string) {
    templateId == NO_TEMPLATE
    || exists t | t in templates.triggers :: IsCandidate(suffix)(t) && t.triggerId == templateId
  }

  function FindPair(triggers: seq<Trigger>, templates: Templates, suffix: Suffix): Result<Pair> {
    var candidates := Filter(triggers, IsCandidate(suffix));
    var expected := Filter(templates.triggers, IsExpected(suffix));
    if |candidates| != 1 || |expected| != 1 then Err(TriggerCount)
    else if !Allowed(templates, suffix, candidates[0].templateId) then Err(TriggerTemplate)
    else Ok(Pair(suffix, candidates[0], expected[0]))
  }

  const SUFFIXES: seq<Suffix> := [Unavailable, Loss, ResponseTime]

  function FindPairs(triggers: seq<Trigger>, templates: Templates, suffixes: seq<Suffix>): Result<seq<Pair>> {
    if suffixes == [] then Ok([])
    else
      var first := FindPair(triggers, templates, suffixes[0]);
      if first.Err? then Err(first.error) else
      var rest := FindPairs(triggers, templates, suffixes[1..]);
      if rest.Err? then Err(rest.error) else Ok([first.value] + rest.value)
  }

  function KeyOf(i: Item): (string, string) {
    (i.itemId, i.key)
  }

  function CurrentName(p: Pair): (string, Suffix) {
    (p.current.triggerId, p.suffix)
  }

  function DesiredName(p: Pair): (string, Suffix) {
    (p.desired.triggerId, p.suffix)
  }

  function ItemIdOf(f: TriggerFunction): string {
    f.itemId
  }

  function DesiredItemIds(p: Pair): seq<string> {
    Map(p.desired.functions, ItemIdOf)
  }

  function OldItemIds(t: Trigger): seq<string> {
    if t.description.IcmpPing? || t.description.IcmpPingOther? then Map(t.functions, ItemIdOf) else []
  }

  function IsPackaged(ids: seq<string>, key: string): Item -> bool {
    (i: Item) => i.itemId in ids && i.key == key
  }

  /** One item of the host against its two packaged versions. */
  function CheckItem(i: Item, packaged: seq<Item>, oldIds: seq<string>, newIds: seq<string>): Option<Error> {
    var before := Filter(packaged, IsPackaged(oldIds, i.key));
    var after := Filter(packaged, IsPackaged(newIds, i.key));
    if |before| != 1 || |after| != 1 || ItemSignatureOf(before[0]) != ItemSignatureOf(after[0])
    then Some(ItemDefinition)
    else if i.templateId != NO_TEMPLATE && i.templateId != before[0].itemId && i.templateId != after[0].itemId
    then Some(ItemTemplate)
    else if ItemSignatureOf(i) != ItemSignatureOf(after[0]) then Some(ItemModified)
    else None
  }

  function CheckItems(items: seq<Item>, packaged: seq<Item>, oldIds: seq<string>, newIds: seq<string>): Option<Error> {
    if items == [] then None
    else
      var first := CheckItem(items[0], packaged, oldIds, newIds);
      if first.Some? then first else CheckItems(items[1..], packaged, oldIds, newIds)
  }

  /** What the comparisons of all pairs look at. */
  datatype Context = Context(hostKeys: seq<(string, string)>, hostNames: seq<(string, Suffix)>,
                             templateKeys: seq<(string, string)>, templateNames: seq<(string, Suffix)>)

  function SamePair(p: Pair, c: Context): Result<bool> {
    var current := SignatureOf(p.current, c.hostKeys, c.hostNames);
    var desired := SignatureOf(p.desired, c.templateKeys, c.templateNames);
    if current.None? || desired.None? then Err(OutsideEntities) else Ok(current == desired)
  }

  function RenamesFor(pairs: seq<Pair>, c: Context): Result<seq<Rename>> {
    if pairs == [] then Ok([])
    else
      var same := SamePair(pairs[0], c);
      if same.Err? then Err(same.error)
      else if !same.value then Err(TriggerModified) else
      var rest := RenamesFor(pairs[1..], c);
      if rest.Err? then Err(rest.error) else Ok(RenameOf(pairs[0]) + rest.value)
  }

  function RenameOf(p: Pair): seq<Rename> {
    if p.current.description != p.desired.description
    then [Rename(p.current.triggerId, p.desired.description)] else []
  }

  function OnHost(id: string): Item -> bool {
    (i: Item) => i.hostId == id
  }

  function TriggerOnHost(id: string): Trigger -> bool {
    (t: Trigger) => id in t.hosts
  }

  function MakeContext(items: seq<Item>, pairs: seq<Pair>, templates: Templates): Context {
    Context(Map(items, KeyOf), Map(pairs, CurrentName), Map(templates.items, KeyOf), Map(pairs, DesiredName))
  }

  /** The part of icmp_migration after the checks on the host itself. */
  function PlanFor(items: seq<Item>, triggers: seq<Trigger>, templates: Templates): Result<seq<Rename>> {
    var pairs := FindPairs(triggers, templates, SUFFIXES);
    if pairs.Err? then Err(pairs.error) else
    var bad := CheckItems(items, templates.items, FlatMap(templates.triggers, OldItemIds),
                          FlatMap(pairs.value, DesiredItemIds));
    if bad.Some? then Err(bad.value)
    else RenamesFor(pairs.value, MakeContext(items, pairs.value, templates))
  }

  predicate ParentsKnown(parents: seq<string>) {
    (forall p | p in parents :: p == OLD || p == NEW) && !(OLD in parents && NEW in parents)
  }

  /** icmp_migration. */
  function Migration(s: State, templates: Templates): Result<Plan> {
    if s.host.None? then Ok(Plan(false, [], true)) else
    var host := s.host.value;
    var items, triggers := Filter(s.items, OnHost(host.hostId)), Filter(s.triggers, TriggerOnHost(host.hostId));
    if !ParentsKnown(host.parents) then Err(UnexpectedTemplates)
    else if host.macros * ICMP_MACROS - templates.declared != {} then Err(UndeclaredMacros)
    else if host.parents == [] && items == [] && triggers == [] then Ok(Plan(false, [], true))
    else
      var renames := PlanFor(items, triggers, templates);
      if renames.Err? then Err(renames.error)
      else Ok(Plan(OLD in host.parents, renames.value, NEW !in host.parents))
  }

  // ----- the loops -----

  method PairLoop(triggers: seq<Trigger>, templates: Templates) returns (r: Result<seq<Pair>>)
    ensures r == FindPairs(triggers, templates, SUFFIXES)
  {
    hide FindPair;
    var pairs: seq<Pair> := [];
    assert SUFFIXES[0..] == SUFFIXES;
    AfterNothing(FindPairs(triggers, templates, SUFFIXES));
    for i := 0 to |SUFFIXES|
      invariant FindPairs(triggers, templates, SUFFIXES) == After(pairs, FindPairs(triggers, templates, SUFFIXES[i..]))
    {
      assert SUFFIXES[i..][1..] == SUFFIXES[i + 1..];
      var p := FindPair(triggers, templates, SUFFIXES[i]);
      if p.Err? {
        return Err(p.error);
      }
      AfterMore(pairs, [p.value], FindPairs(triggers, templates, SUFFIXES[i + 1..]));
      pairs := pairs + [p.value];
    }
    assert pairs + [] == pairs;
    return Ok(pairs);
  }

  /** What a loop has collected, in front of what it still has to do. */
  function After<T>(done: seq<T>, rest: Result<seq<T>>): Result<seq<T>> {
    if rest.Err? then rest else Ok(done + rest.value)
  }

  lemma AfterNothing<T>(r: Result<seq<T>>)
    ensures After([], r) == r
  {
    if r.Ok? {
      assert [] + r.value == r.value;
    }
  }

  lemma AfterMore<T>(done: seq<T>, more: seq<T>, rest: Result<seq<T>>)
    ensures After(done, if rest.Err? then Err(rest.error) else Ok(more + rest.value)) == After(done + more, rest)
  {
    if rest.Ok? {
      assert done + (more + rest.value) == (done + more) + rest.value;
    }
  }

  method RenameLoop(pairs: seq<Pair>, c: Context) returns (r: Result<seq<Rename>>)
    ensures r == RenamesFor(pairs, c)
  {
    hide SamePair, RenameOf;
    var renames: seq<Rename> := [];
    assert pairs[0..] == pairs;
    AfterNothing(RenamesFor(pairs, c));
    for i := 0 to |pairs|
      invariant RenamesFor(pairs, c) == After(renames, RenamesFor(pairs[i..], c))
    {
      assert pairs[i..][1..] == pairs[i + 1..];
      var same := SamePair(pairs[i], c);
      if same.Err? {
        return Err(same.error);
      }
      if !same.value {
        return Err(TriggerModified);
      }
      AfterMore(renames, RenameOf(pairs[i]), RenamesFor(pairs[i + 1..], c));
      renames := renames + RenameOf(pairs[i]);
    }
    assert renames + [] == renames;
    return Ok(renames);
  }

  method ItemLoop(items: seq<Item>, packaged: seq<Item>, oldIds: seq<string>, newIds: seq<string>)
    returns (r: Option<Error>)
    ensures r == CheckItems(items, packaged, oldIds, newIds)
  {
    hide CheckItem;
    assert items[0..] == items;
    for i := 0 to |items|
      invariant CheckItems(items, packaged, oldIds, newIds) == CheckItems(items[i..], packaged, oldIds, newIds)
    {
      assert items[i..][1..] == items[i + 1..];
      var bad := CheckItem(items[i], packaged, oldIds, newIds);
      if bad.Some? {
        return bad;
      }
    }
    return None;
  }

  /** icmp_migration: the checks and the three loops. */
  method PlanMigration(s: State, templates: Templates) returns (r: Result<Plan>)
    ensures r == Migration(s, templates)
  {
    hide FindPairs, CheckItems, RenamesFor, MakeContext, Filter, ParentsKnown;
    if s.host.None? {
      return Ok(Plan(false, [], true));
    }
    var host := s.host.value;
    var items, triggers := Filter(s.items, OnHost(host.hostId)), Filter(s.triggers, TriggerOnHost(host.hostId));
    if !ParentsKnown(host.parents) {
      return Err(UnexpectedTemplates);
    }
    if host.macros * ICMP_MACROS - templates.declared != {} {
      return Err(UndeclaredMacros);
    }
    if host.parents == [] && items == [] && triggers == [] {
      return Ok(Plan(false, [], true));
    }
    var pairs := PairLoop(triggers, templates);
    if pairs.Err? {
      return Err(pairs.error);
    }
    var bad := ItemLoop(items, templates.items, FlatMap(templates.triggers, OldItemIds),
                        FlatMap(pairs.value, DesiredItemIds));
    if bad.Some? {
      return Err(bad.value);
    }
    var renames := RenameLoop(pairs.value, MakeContext(items, pairs.value, templates));
    if renames.Err? {
      return Err(renames.error);
    }
    return Ok(Plan(OLD in host.parents, renames.value, NEW !in host.parents));
  }

  // ----- the two tasks -----

  /** A Zabbix server's view of one host, changed by the two API calls. */
  class ZabbixHost {
    var state: State

    constructor (state: State)
      ensures this.state == state
    {
      this.state := state;
    }

    /** host.update with no templates: unlink and keep. */
    method Unlink()
      modifies this
      ensures state == Unlinked(old(state))
      ensures state.host.None? <==> old(state).host.None?
      ensures state.host.Some? ==> state.host.value == old(state).host.value.(parents := [])
      ensures |state.items| == |old(state).items| && |state.triggers| == |old(state).triggers|
      ensures state.host.Some? ==>
                forall k | 0 <= k < |state.items| ::
                  if old(state).items[k].hostId == state.host.value.hostId
                  then state.items[k] == old(state).items[k].(templateId := NO_TEMPLATE)
                  else state.items[k] == old(state).items[k]
      ensures state.host.Some? ==>
                forall k | 0 <= k < |state.triggers| ::
                  if state.host.value.hostId in old(state).triggers[k].hosts
                  then state.triggers[k] == old(state).triggers[k].(templateId := NO_TEMPLATE)
                  else state.triggers[k] == old(state).triggers[k]
    {
      if state.host.Some? {
        var h := state.host.value;
        MapAt(state.items, KeepItem(h.hostId));
        MapAt(state.triggers, KeepTrigger(h.hostId));
        state := State(Some(h.(parents := [])), Map(state.items, KeepItem(h.hostId)),
                       Map(state.triggers, KeepTrigger(h.hostId)));
      }
    }

    /** trigger.update with the renames that get through. */
    method RenameTriggers(renames: seq<Rename>)
      modifies this
      ensures state == Renamed(old(state), renames)
    {
      var triggers := state.triggers;
      assert renames[..0] == [];
      NoRenames(triggers);
      for i := 0 to |renames|
        invariant state == old(state)
        invariant triggers == Map(state.triggers, Renaming(renames[..i]))
      {
        assert renames[..i + 1] == renames[..i] + [renames[i]];
        OneMoreRename(state.triggers, renames[..i], renames[i]);
        triggers := Map(triggers, Renaming([renames[i]]));
      }
      assert renames[..|renames|] == renames;
      state := state.(triggers := triggers);
    }
  }

  function KeepItem(id: string): Item -> Item {
    (i: Item) => if i.hostId == id then i.(templateId := NO_TEMPLATE) else i
  }

  function KeepTrigger(id: string): Trigger -> Trigger {
    (t: Trigger) => if id in t.hosts then t.(templateId := NO_TEMPLATE) else t
  }

  /** Unlinking without clearing: the entities stay and inherit from nothing. */
  function Unlinked(s: State): State {
    if s.host.None? then s
    else
      var h := s.host.value;
      State(Some(h.(parents := [])), Map(s.items, KeepItem(h.hostId)), Map(s.triggers, KeepTrigger(h.hostId)))
  }

  function NameAfter(renames: seq<Rename>, t: Trigger): Description
    decreases |renames|
  {
    if renames == [] then t.description
    else if renames[|renames| - 1].triggerId == t.triggerId then renames[|renames| - 1].description
    else NameAfter(renames[..|renames| - 1], t)
  }

  function Renaming(renames: seq<Rename>): Trigger -> Trigger {
    (t: Trigger) => t.(description := NameAfter(renames, t))
  }

  function Renamed(s: State, renames: seq<Rename>): State {
    s.(triggers := Map(s.triggers, Renaming(renames)))
  }

  lemma {:induction false} NoRenames(triggers: seq<Trigger>)
    ensures Map(triggers, Renaming([])) == triggers
  {
    if triggers != [] {
      NoRenames(triggers[1..]);
      assert triggers == [triggers[0]] + triggers[1..];
    }
  }

  lemma {:induction false} OneMoreRename(triggers: seq<Trigger>, done: seq<Rename>, r: Rename)
    ensures Map(Map(triggers, Renaming(done)), Renaming([r])) == Map(triggers, Renaming(done + [r]))
  {
    if triggers != [] {
      OneMoreRename(triggers[1..], done, r);
      var t := triggers[0];
      assert Map(triggers, Renaming(done))[1..] == Map(triggers[1..], Renaming(done));
      OneMoreName(t, done, r);
    }
  }

  lemma OneMoreName(t: Trigger, done: seq<Rename>, r: Rename)
    ensures Renaming([r])(Renaming(done)(t)) == Renaming(done + [r])(t)
  {
    var more := done + [r];
    assert more[..|more| - 1] == done && more[|more| - 1] == r;
    var one := [r];
    assert one[..|one| - 1] == [];
    var named := t.(description := NameAfter(done, t));
    assert NameAfter(one, named) == NameAfter(more, t);
  }
}
