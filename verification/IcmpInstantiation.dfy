/** Linking the new template to a host that has nothing to adopt: its items and
    triggers are created from the template, and the migration is complete. */
module IcmpInstantiation {
  import opened Wrappers
  import opened Sequences
  import opened Icmp
  import opened IcmpMeaning

  /** A template item and a template trigger, created on a host under new ids. */
  function NewItem(ids: Ids, host: string): Item -> Item {
    (n: Item) => ReItem(ids)(n).(hostId := host, templateId := n.itemId)
  }

  function NewTrigger(ids: Ids, host: string): Trigger -> Trigger {
    (d: Trigger) => ReTrigger(ids)(d).(hosts := [host], templateId := d.triggerId)
  }

  function IdOf(i: Item): string {
    i.itemId
  }

  function WantedIds(d: Trigger): seq<string> {
    Map(d.functions, ItemIdOf)
  }

  function Suffixed(d: Trigger): (string, Suffix) {
    (d.triggerId, if d.description.Generic? then d.description.suffix else Unavailable)
  }

  /** The new template's three triggers are known, refer to its own items and to
      each other only, and its items agree with the old template's. */
  ghost predicate Packaged(templates: Templates, own: seq<Item>, wanted: seq<Trigger>) {
    && |wanted| == 3 && DistinctBy(templates.items, IdOf)
    && (forall k | 0 <= k < 3 :: Filter(templates.triggers, IsExpected(SUFFIXES[k])) == [wanted[k]])
    && (forall n | n in own :: n in templates.items && n.masterItemId == NO_TEMPLATE && Agrees(templates, wanted, n))
    && (forall d | d in wanted :: Closed(own, d.functions))
    && (forall d | d in wanted :: SignatureOf(d, Map(templates.items, KeyOf), Map(wanted, Suffixed)).Some?)
  }

  ghost predicate Closed(own: seq<Item>, fs: seq<TriggerFunction>) {
    forall f | f in fs :: exists n :: n in own && n.itemId == f.itemId
  }

  ghost predicate Agrees(templates: Templates, wanted: seq<Trigger>, n: Item) {
    && Filter(templates.items, IsPackaged(FlatMap(wanted, WantedIds), n.key)) == [n]
    && exists before ::
         && Filter(templates.items, IsPackaged(FlatMap(templates.triggers, OldItemIds), n.key)) == [before]
         && ItemSignatureOf(before) == ItemSignatureOf(n)
  }

  // ----- items -----

  lemma {:induction false} KeyFound(items: seq<Item>, n: Item)
    requires DistinctBy(items, IdOf) && n in items
    ensures Lookup(Map(items, KeyOf), n.itemId) == Some(n.key)
    decreases |items|
  {
    var prefix, last := items[..|items| - 1], items[|items| - 1];
    assert items == prefix + [last];
    MapAppend(prefix, [last], KeyOf);
    MapOne(last, KeyOf);
    var all := Map(items, KeyOf);
    assert all[|all| - 1] == KeyOf(last) && all[..|all| - 1] == Map(prefix, KeyOf);
    if last.itemId == n.itemId {
      UniqueByKey(items, IdOf, last, n);
    } else {
      KeyFound(prefix, n);
    }
  }

  /** A list of items finds the key of each of its ids. */
  lemma {:induction false} OwnKeyFound(own: seq<Item>, items: seq<Item>, id: string)
    requires (forall n | n in own :: n in items) && DistinctBy(items, IdOf)
    requires exists n :: n in own && n.itemId == id
    ensures Lookup(Map(own, KeyOf), id) == Lookup(Map(items, KeyOf), id)
    decreases |own|
  {
    var prefix, last := own[..|own| - 1], own[|own| - 1];
    assert own == prefix + [last];
    MapAppend(prefix, [last], KeyOf);
    MapOne(last, KeyOf);
    var all := Map(own, KeyOf);
    assert all[|all| - 1] == KeyOf(last) && all[..|all| - 1] == Map(prefix, KeyOf);
    if last.itemId == id {
      KeyFound(items, last);
    } else {
      OwnKeyFound(prefix, items, id);
    }
  }

  lemma {:induction false} SameCalls(own: seq<Item>, items: seq<Item>, fs: seq<TriggerFunction>)
    requires (forall n | n in own :: n in items) && DistinctBy(items, IdOf) && Closed(own, fs)
    ensures Calls(fs, Map(own, KeyOf)) == Calls(fs, Map(items, KeyOf))
  {
    hide Lookup, Map, DistinctBy;
    if fs != [] {
      assert fs[0] in fs;
      OwnKeyFound(own, items, fs[0].itemId);
      SameCalls(own, items, fs[1..]);
    }
  }

  lemma NewItemPasses(templates: Templates, own: seq<Item>, wanted: seq<Trigger>, ids: Ids, host: string, n: Item)
    requires Packaged(templates, own, wanted) && n in own && Faithful(ids)
    ensures CheckItem(NewItem(ids, host)(n), templates.items, FlatMap(templates.triggers, OldItemIds),
                      FlatMap(wanted, WantedIds)).None?
  {
    hide Filter, IsPackaged, FlatMap, SignatureOf, Map, DistinctBy;
    var i := NewItem(ids, host)(n);
    assert ReItem(ids)(n).key == n.key;
    assert i.key == n.key && i.templateId == n.itemId && i.masterItemId == NO_TEMPLATE;
    assert ItemSignatureOf(i) == ItemSignatureOf(n);
    assert Agrees(templates, wanted, n);
  }

  lemma {:induction false} NewItemsPass(templates: Templates, own: seq<Item>, wanted: seq<Trigger>, ids: Ids,
                                        host: string, items: seq<Item>)
    requires Packaged(templates, own, wanted) && Faithful(ids) && forall n | n in items :: n in own
    ensures CheckItems(Map(items, NewItem(ids, host)), templates.items, FlatMap(templates.triggers, OldItemIds),
                       FlatMap(wanted, WantedIds)).None?
  {
    hide CheckItem, Packaged, Faithful;
    if items != [] {
      NewItemPasses(templates, own, wanted, ids, host, items[0]);
      NewItemsPass(templates, own, wanted, ids, host, items[1..]);
      assert Map(items, NewItem(ids, host))[1..] == Map(items[1..], NewItem(ids, host));
    }
  }

  // ----- triggers -----

  function NewPair(ids: Ids, host: string): Trigger -> Pair {
    (d: Trigger) => Pair(Suffixed(d).1, NewTrigger(ids, host)(d), d)
  }

  /** A packaged trigger carries its own name. */
  lemma WantedNames(templates: Templates, own: seq<Item>, wanted: seq<Trigger>)
    requires Packaged(templates, own, wanted)
    ensures forall k | 0 <= k < 3 :: wanted[k].description == Generic(SUFFIXES[k]) && wanted[k] in templates.triggers
  {
    hide SignatureOf, Agrees, Closed, Filter, Map;
    forall k | 0 <= k < 3
      ensures wanted[k].description == Generic(SUFFIXES[k]) && wanted[k] in templates.triggers
    {
      FilterContains(templates.triggers, IsExpected(SUFFIXES[k]), wanted[k]);
    }
  }

  lemma NewTriggerFields(ids: Ids, host: string, d: Trigger)
    ensures var t := NewTrigger(ids, host)(d);
            && t.description == d.description && t.templateId == d.triggerId && t.hosts == [host]
            && t.triggerId == ids.t(d.triggerId)
    ensures forall keys, names ::
              SignatureOf(NewTrigger(ids, host)(d), keys, names) == SignatureOf(ReTrigger(ids)(d), keys, names)
  {
    hide Map;
    assert ReTrigger(ids)(d).description == d.description;
  }

  lemma {:induction false} NewPairFound(templates: Templates, own: seq<Item>, wanted: seq<Trigger>, ids: Ids,
                                        host: string, k: nat)
    requires Packaged(templates, own, wanted) && k < 3
    ensures FindPair(Map(wanted, NewTrigger(ids, host)), templates, SUFFIXES[k]) == Ok(NewPair(ids, host)(wanted[k]))
  {
    hide Packaged, Map, Filter, SignatureOf;
    WantedNames(templates, own, wanted);
    PackagedFilters(templates, own, wanted);
    var make := NewTrigger(ids, host);
    var list := Map(wanted, make);
    MapAt(wanted, make);
    assert list == [make(wanted[0]), make(wanted[1]), make(wanted[2])];
    NewTriggerFields(ids, host, wanted[0]);
    NewTriggerFields(ids, host, wanted[1]);
    NewTriggerFields(ids, host, wanted[2]);
    OneOfThree(list, k);
    assert IsCandidate(SUFFIXES[k])(wanted[k]);
    assert Allowed(templates, SUFFIXES[k], list[k].templateId);
  }

  lemma PackagedFilters(templates: Templates, own: seq<Item>, wanted: seq<Trigger>)
    requires Packaged(templates, own, wanted)
    ensures |wanted| == 3
    ensures forall k | 0 <= k < 3 :: Filter(templates.triggers, IsExpected(SUFFIXES[k])) == [wanted[k]]
  {
    hide Filter, Map, SignatureOf;
  }

  lemma {:induction false} OneOfThree(list: seq<Trigger>, k: nat)
    requires |list| == 3 && k < 3 && forall j | 0 <= j < 3 :: list[j].description == Generic(SUFFIXES[j])
    ensures Filter(list, IsCandidate(SUFFIXES[k])) == [list[k]]
  {
    assert SUFFIXES[0] == Unavailable && SUFFIXES[1] == Loss && SUFFIXES[2] == ResponseTime;
    var p := IsCandidate(SUFFIXES[k]);
    var rest := list[1..];
    var last := rest[1..];
    assert last[1..] == [] && Filter(last[1..], p) == [];
    assert Filter(last, p) == (if p(list[2]) then [list[2]] else []) + [];
    assert Filter(rest, p) == (if p(list[1]) then [list[1]] else []) + Filter(last, p);
  }

  lemma NewPairsFound(templates: Templates, own: seq<Item>, wanted: seq<Trigger>, ids: Ids, host: string)
    requires Packaged(templates, own, wanted)
    ensures FindPairs(Map(wanted, NewTrigger(ids, host)), templates, SUFFIXES) == Ok(Map(wanted, NewPair(ids, host)))
  {
    hide Packaged, FindPair, Filter, SignatureOf;
    PackagedFilters(templates, own, wanted);
    var triggers := Map(wanted, NewTrigger(ids, host));
    var make := NewPair(ids, host);
    NewPairFound(templates, own, wanted, ids, host, 0);
    NewPairFound(templates, own, wanted, ids, host, 1);
    NewPairFound(templates, own, wanted, ids, host, 2);
    var rest := SUFFIXES[1..];
    var last := rest[1..];
    assert last[1..] == [] && FindPairs(triggers, templates, last[1..]) == Ok([]);
    assert rest[0] == SUFFIXES[1] && last[0] == SUFFIXES[2];
    var third: seq<Pair> := [make(wanted[2])];
    assert third + [] == third;
    assert FindPairs(triggers, templates, last) == Ok(third);
    var second: seq<Pair> := [make(wanted[1])] + third;
    assert FindPairs(triggers, templates, rest) == Ok(second);
    var all: seq<Pair> := [make(wanted[0])] + second;
    assert FindPairs(triggers, templates, SUFFIXES) == Ok(all);
    MapAt(wanted, make);
    assert Map(wanted, make) == all;
  }

  /** The context of the comparison, in the template's own terms. */
  lemma NewContext(own: seq<Item>, wanted: seq<Trigger>, templates: Templates, ids: Ids, host: string)
    ensures MakeContext(Map(own, NewItem(ids, host)), Map(wanted, NewPair(ids, host)), templates) ==
            Context(Map(Map(own, KeyOf), ReFirst(ids.i)), Map(Map(wanted, Suffixed), ReFirst(ids.t)),
                    Map(templates.items, KeyOf), Map(wanted, Suffixed))
  {
    hide Map;
    var keys: ((string, string)) -> (string, string) := ReFirst(ids.i);
    var names: ((string, Suffix)) -> (string, Suffix) := ReFirst(ids.t);
    forall n | n in own
      ensures KeyOf(NewItem(ids, host)(n)) == keys(KeyOf(n))
    {
      assert ReItem(ids)(n).key == n.key;
    }
    MapCommutes(own, NewItem(ids, host), KeyOf, KeyOf, keys);
    forall d | d in wanted
      ensures CurrentName(NewPair(ids, host)(d)) == names(Suffixed(d))
      ensures DesiredName(NewPair(ids, host)(d)) == Suffixed(d)
    {
      NewTriggerFields(ids, host, d);
    }
    MapCommutes(wanted, NewPair(ids, host), CurrentName, Suffixed, names);
    MapOfMap(wanted, NewPair(ids, host), DesiredName, Suffixed);
  }

  lemma NewPairIsSame(own: seq<Item>, wanted: seq<Trigger>, templates: Templates, ids: Ids, host: string, d: Trigger)
    requires Packaged(templates, own, wanted) && Faithful(ids) && d in wanted
    ensures var c := Context(Map(Map(own, KeyOf), ReFirst(ids.i)), Map(Map(wanted, Suffixed), ReFirst(ids.t)),
                             Map(templates.items, KeyOf), Map(wanted, Suffixed));
            SamePair(NewPair(ids, host)(d), c) == Ok(true)
    ensures RenameOf(NewPair(ids, host)(d)) == []
  {
    hide Map, Calls, Substitute, DependencyNames, Filter, DistinctBy, Faithful, Agrees;
    NewTriggerFields(ids, host, d);
    SignatureRenamed(d, Map(own, KeyOf), Map(wanted, Suffixed), ids);
    SameCalls(own, templates.items, d.functions);
    assert SignatureOf(d, Map(own, KeyOf), Map(wanted, Suffixed)) ==
           SignatureOf(d, Map(templates.items, KeyOf), Map(wanted, Suffixed));
  }

  lemma {:induction false} NoRenamesNeeded(pairs: seq<Pair>, c: Context)
    requires forall p | p in pairs :: SamePair(p, c) == Ok(true) && RenameOf(p) == []
    ensures RenamesFor(pairs, c) == Ok([])
  {
    hide SamePair, RenameOf;
    if pairs != [] {
      assert pairs[0] in pairs;
      NoRenamesNeeded(pairs[1..], c);
      var none: seq<Rename> := [];
      assert none + none == none;
      assert RenameOf(pairs[0]) == none;
    }
  }

  lemma NewIdsAreWanted(wanted: seq<Trigger>, ids: Ids, host: string)
    ensures FlatMap(Map(wanted, NewPair(ids, host)), DesiredItemIds) == FlatMap(wanted, WantedIds)
  {
    FlatMapOfMap(wanted, NewPair(ids, host), DesiredItemIds, WantedIds);
  }

  lemma {:induction false} FlatMapOfMap<T, U, V>(s: seq<T>, f: T -> U, g: U -> seq<V>, h: T -> seq<V>)
    requires forall x | x in s :: g(f(x)) == h(x)
    ensures FlatMap(Map(s, f), g) == FlatMap(s, h)
  {
    if s != [] {
      assert s[0] in s;
      FlatMapOfMap(s[1..], f, g, h);
      assert Map(s, f)[1..] == Map(s[1..], f);
    }
  }

  lemma CreatedPlan(own: seq<Item>, wanted: seq<Trigger>, templates: Templates, ids: Ids, host: string)
    requires Packaged(templates, own, wanted) && Faithful(ids)
    ensures PlanFor(Map(own, NewItem(ids, host)), Map(wanted, NewTrigger(ids, host)), templates) == Ok([])
  {
    hide Packaged, Faithful, Map, FlatMap, CheckItem, CheckItems, SamePair, RenameOf;
    hide FindPairs, MakeContext, RenamesFor;
    NewPairsFound(templates, own, wanted, ids, host);
    NewIdsAreWanted(wanted, ids, host);
    NewItemsPass(templates, own, wanted, ids, host, own);
    NewContext(own, wanted, templates, ids, host);
    var pairs := Map(wanted, NewPair(ids, host));
    MapAt(wanted, NewPair(ids, host));
    var c := MakeContext(Map(own, NewItem(ids, host)), pairs, templates);
    forall p | p in pairs
      ensures SamePair(p, c) == Ok(true) && RenameOf(p) == []
    {
      var k :| 0 <= k < |pairs| && pairs[k] == p;
      NewPairIsSame(own, wanted, templates, ids, host, wanted[k]);
    }
    NoRenamesNeeded(pairs, c);
  }

  lemma {:induction false} AllKept<T>(s: seq<T>, p: T -> bool)
    requires forall x | x in s :: p(x)
    ensures Filter(s, p) == s
  {
    if s != [] {
      assert s[0] in s;
      AllKept(s[1..], p);
    }
  }

  /** The host's part of a reading to which the template's entities are added. */
  lemma CreatedOnHost(s: State, own: seq<Item>, wanted: seq<Trigger>, ids: Ids, host: string)
    requires Filter(s.items, OnHost(host)) == [] && Filter(s.triggers, TriggerOnHost(host)) == []
    ensures Filter(s.items + Map(own, NewItem(ids, host)), OnHost(host)) == Map(own, NewItem(ids, host))
    ensures Filter(s.triggers + Map(wanted, NewTrigger(ids, host)), TriggerOnHost(host)) ==
            Map(wanted, NewTrigger(ids, host))
  {
    hide Filter, Map;
    var items, triggers := Map(own, NewItem(ids, host)), Map(wanted, NewTrigger(ids, host));
    MapAt(own, NewItem(ids, host));
    MapAt(wanted, NewTrigger(ids, host));
    FilterAppend(s.items, items, OnHost(host));
    FilterAppend(s.triggers, triggers, TriggerOnHost(host));
    AllKept(items, OnHost(host));
    AllKept(triggers, TriggerOnHost(host));
  }

  /** Linking the new template to an accepted host that has nothing creates the
      template's items and triggers under new ids; and if the packaged
      definitions agree, the plan is then empty and not pending. */
  lemma CreatingCompletes(s: State, templates: Templates, own: seq<Item>, wanted: seq<Trigger>, ids: Ids)
    requires s.host.Some? && Migration(s, templates) == Ok(Plan(false, [], true)) && s.host.value.parents == []
    requires Filter(s.items, OnHost(s.host.value.hostId)) == []
    requires Filter(s.triggers, TriggerOnHost(s.host.value.hostId)) == []
    requires Packaged(templates, own, wanted) && Faithful(ids)
    ensures var id := s.host.value.hostId;
            Migration(State(Some(s.host.value.(parents := [NEW])), s.items + Map(own, NewItem(ids, id)),
                            s.triggers + Map(wanted, NewTrigger(ids, id))), templates)
            == Ok(Plan(false, [], false))
  {
    hide PlanFor, Packaged, Faithful, Filter, Map;
    CreatedOnHost(s, own, wanted, ids, s.host.value.hostId);
    CreatedPlan(own, wanted, templates, ids, s.host.value.hostId);
    NamesDiffer();
  }
}
