/** What the plan depends on: not the database ids, and of the expressions
    nothing but their meaning; and that linking the new template completes it. */
module IcmpMeaning {
  import opened Wrappers
  import opened Sequences
  import opened Icmp
  import opened IcmpRuns

  // ----- equal signatures mean equal expressions -----

  datatype Value = Fixed(s: string) | Measured(v: int)

  /** An expression's values under a meaning of (function, item key, parameter). */
  function Evaluate(tokens: seq<SigToken>, meaning: (string, string, string) -> int): seq<Value> {
    if tokens == [] then []
    else
      [match tokens[0]
       case Literal(s) => Fixed(s)
       case Call(name, key, parameter) => Measured(meaning(name, key, parameter))]
      + Evaluate(tokens[1..], meaning)
  }

  lemma {:induction false} EvaluateAt(tokens: seq<SigToken>, meaning: (string, string, string) -> int)
    ensures |Evaluate(tokens, meaning)| == |tokens|
    ensures forall k | 0 <= k < |tokens| ::
              Evaluate(tokens, meaning)[k] ==
              match tokens[k]
              case Literal(s) => Fixed(s)
              case Call(name, key, parameter) => Measured(meaning(name, key, parameter))
  {
    if tokens != [] {
      EvaluateAt(tokens[1..], meaning);
    }
  }

  function Only(c: SigToken): (string, string, string) -> int {
    (name: string, key: string, parameter: string) => if c == Call(name, key, parameter) then 1 else 0
  }

  ghost predicate EvaluateAlike(a: seq<SigToken>, b: seq<SigToken>) {
    forall meaning: (string, string, string) -> int :: Evaluate(a, meaning) == Evaluate(b, meaning)
  }

  /** Two substituted expressions are equal exactly when they evaluate equally
      under every meaning of function, item key and parameter. */
  lemma SignatureIsMeaning(a: seq<SigToken>, b: seq<SigToken>)
    ensures a == b <==> EvaluateAlike(a, b)
  {
    if a == b {
      assert EvaluateAlike(a, b);
    }
    if EvaluateAlike(a, b) {
      SameLength(a, b);
      forall k | 0 <= k < |a|
        ensures a[k] == b[k]
      {
        SameToken(a, b, k);
      }
    }
  }

  lemma SameLength(a: seq<SigToken>, b: seq<SigToken>)
    requires EvaluateAlike(a, b)
    ensures |a| == |b|
  {
    var any := Only(Literal(""));
    EvaluateAt(a, any);
    EvaluateAt(b, any);
    assert Evaluate(a, any) == Evaluate(b, any);
  }

  /** The meaning that singles out one call tells two tokens apart. */
  lemma SameToken(a: seq<SigToken>, b: seq<SigToken>, k: nat)
    requires EvaluateAlike(a, b) && k < |a| == |b|
    ensures a[k] == b[k]
  {
    var one := Only(a[k]);
    EvaluateAt(a, one);
    EvaluateAt(b, one);
    assert Evaluate(a, one)[k] == Evaluate(b, one)[k];
  }

  // ----- renaming the database ids -----

  /** New ids for functions, items and triggers. */
  datatype Ids = Ids(f: string -> string, i: string -> string, t: string -> string)

  ghost predicate Injective(g: string -> string) {
    forall x, y :: g(x) == g(y) ==> x == y
  }

  ghost predicate Faithful(ids: Ids) {
    Injective(ids.f) && Injective(ids.i) && Injective(ids.t)
    && ids.i(NO_TEMPLATE) == NO_TEMPLATE && ids.t(NO_TEMPLATE) == NO_TEMPLATE
  }

  function ReToken(ids: Ids): Token -> Token {
    (x: Token) => if x.Ref? then Ref(ids.f(x.functionId)) else x
  }

  function ReFunction(ids: Ids): TriggerFunction -> TriggerFunction {
    (x: TriggerFunction) => x.(functionId := ids.f(x.functionId), itemId := ids.i(x.itemId))
  }

  function ReTrigger(ids: Ids): Trigger -> Trigger {
    (x: Trigger) =>
      x.(triggerId := ids.t(x.triggerId), templateId := ids.t(x.templateId),
         expression := Map(x.expression, ReToken(ids)), recovery := Map(x.recovery, ReToken(ids)),
         functions := Map(x.functions, ReFunction(ids)), dependencies := Map(x.dependencies, ids.t))
  }

  function ReItem(ids: Ids): Item -> Item {
    (x: Item) =>
      x.(itemId := ids.i(x.itemId), templateId := ids.i(x.templateId), masterItemId := ids.i(x.masterItemId))
  }

  function ReState(ids: Ids, s: State): State {
    State(s.host, Map(s.items, ReItem(ids)), Map(s.triggers, ReTrigger(ids)))
  }

  function ReTemplates(ids: Ids, t: Templates): Templates {
    Templates(Map(t.items, ReItem(ids)), Map(t.triggers, ReTrigger(ids)), t.declared)
  }

  function ReRename(ids: Ids): Rename -> Rename {
    (r: Rename) => r.(triggerId := ids.t(r.triggerId))
  }

  function RePair(ids: Ids): Pair -> Pair {
    (p: Pair) => p.(current := ReTrigger(ids)(p.current), desired := ReTrigger(ids)(p.desired))
  }

  function ReFirst<V>(g: string -> string): ((string, V)) -> (string, V) {
    (p: (string, V)) => (g(p.0), p.1)
  }

  lemma {:induction false} LookupRenamed<V>(pairs: seq<(string, V)>, g: string -> string, id: string)
    requires Injective(g)
    ensures Lookup(Map(pairs, ReFirst(g)), g(id)) == Lookup(pairs, id)
    decreases |pairs|
  {
    if pairs != [] {
      var prefix, last := pairs[..|pairs| - 1], pairs[|pairs| - 1];
      LookupRenamed(prefix, g, id);
      var re: ((string, V)) -> (string, V) := ReFirst(g);
      assert pairs == prefix + [last];
      MapAppend(prefix, [last], re);
      MapOne(last, re);
      var all := Map(pairs, re);
      assert all == Map(prefix, re) + [re(last)];
      assert all[..|all| - 1] == Map(prefix, re) && all[|all| - 1] == re(last);
    }
  }

  lemma {:induction false} CallsRenamed(fs: seq<TriggerFunction>, keys: seq<(string, string)>, ids: Ids)
    requires Faithful(ids)
    ensures var re := Calls(Map(fs, ReFunction(ids)), Map(keys, ReFirst(ids.i)));
            && (re.None? <==> Calls(fs, keys).None?)
            && (re.Some? ==> re.value == Map(Calls(fs, keys).value, ReFirst(ids.f)))
  {
    hide Lookup;
    if fs != [] {
      CallsRenamed(fs[1..], keys, ids);
      LookupRenamed(keys, ids.i, fs[0].itemId);
      assert Map(fs, ReFunction(ids))[1..] == Map(fs[1..], ReFunction(ids));
      if Calls(fs, keys).Some? {
        var call := Calls(fs, keys).value[0];
        var rest := Calls(fs[1..], keys).value;
        assert Calls(fs, keys).value == [call] + rest;
        MapAppend([call], rest, ReFirst(ids.f));
        MapOne(call, ReFirst(ids.f));
      }
    }
  }

  lemma {:induction false} SubstituteRenamed(tokens: seq<Token>, calls: seq<(string, SigToken)>, ids: Ids)
    requires Faithful(ids)
    ensures Substitute(Map(tokens, ReToken(ids)), Map(calls, ReFirst(ids.f))) == Substitute(tokens, calls)
  {
    hide Lookup;
    if tokens != [] {
      SubstituteRenamed(tokens[1..], calls, ids);
      assert Map(tokens, ReToken(ids))[1..] == Map(tokens[1..], ReToken(ids));
      if tokens[0].Ref? {
        LookupRenamed(calls, ids.f, tokens[0].functionId);
      }
    }
  }

  lemma {:induction false} DependenciesRenamed(deps: seq<string>, names: seq<(string, Suffix)>, ids: Ids)
    requires Faithful(ids)
    ensures DependencyNames(Map(deps, ids.t), Map(names, ReFirst(ids.t))) == DependencyNames(deps, names)
  {
    hide Lookup;
    if deps != [] {
      DependenciesRenamed(deps[1..], names, ids);
      assert Map(deps, ids.t)[1..] == Map(deps[1..], ids.t);
      LookupRenamed(names, ids.t, deps[0]);
    }
  }

  /** A signature holds no ids. */
  lemma SignatureRenamed(t: Trigger, keys: seq<(string, string)>, names: seq<(string, Suffix)>, ids: Ids)
    requires Faithful(ids)
    ensures SignatureOf(ReTrigger(ids)(t), Map(keys, ReFirst(ids.i)), Map(names, ReFirst(ids.t))) ==
            SignatureOf(t, keys, names)
  {
    hide Calls, Substitute, DependencyNames, Map, Faithful;
    CallsRenamed(t.functions, keys, ids);
    DependenciesRenamed(t.dependencies, names, ids);
    if Calls(t.functions, keys).Some? {
      SubstituteRenamed(t.expression, Calls(t.functions, keys).value, ids);
      SubstituteRenamed(t.recovery, Calls(t.functions, keys).value, ids);
    }
  }

  // ----- pairs and items under renaming -----

  lemma CandidateRenamed(triggers: seq<Trigger>, x: Suffix, t: Trigger, ids: Ids)
    requires t in triggers && IsCandidate(x)(t)
    ensures exists u :: u in Map(triggers, ReTrigger(ids)) && IsCandidate(x)(u) && u.triggerId == ids.t(t.triggerId)
  {
    var re := Map(triggers, ReTrigger(ids));
    MapAt(triggers, ReTrigger(ids));
    var k :| 0 <= k < |triggers| && triggers[k] == t;
    var u := ReTrigger(ids)(t);
    assert re[k] == u && u in re;
  }

  lemma CandidateRestored(triggers: seq<Trigger>, x: Suffix, u: Trigger, ids: Ids)
    requires u in Map(triggers, ReTrigger(ids)) && IsCandidate(x)(u)
    ensures exists t :: t in triggers && IsCandidate(x)(t) && u.triggerId == ids.t(t.triggerId)
  {
    var re := Map(triggers, ReTrigger(ids));
    MapAt(triggers, ReTrigger(ids));
    var k :| 0 <= k < |re| && re[k] == u;
    var t := triggers[k];
    assert u == ReTrigger(ids)(t) && t in triggers;
  }

  lemma AllowedRenamed(templates: Templates, x: Suffix, id: string, ids: Ids)
    requires Faithful(ids)
    ensures Allowed(ReTemplates(ids, templates), x, ids.t(id)) <==> Allowed(templates, x, id)
  {
    hide Map, ReTrigger, IsCandidate;
    if Allowed(templates, x, id) && id != NO_TEMPLATE {
      var t :| t in templates.triggers && IsCandidate(x)(t) && t.triggerId == id;
      CandidateRenamed(templates.triggers, x, t, ids);
    }
    if Allowed(ReTemplates(ids, templates), x, ids.t(id)) && ids.t(id) != NO_TEMPLATE {
      var u :| u in ReTemplates(ids, templates).triggers && IsCandidate(x)(u) && u.triggerId == ids.t(id);
      CandidateRestored(templates.triggers, x, u, ids);
    }
  }

  lemma FindPairRenamed(triggers: seq<Trigger>, templates: Templates, x: Suffix, ids: Ids)
    requires Faithful(ids)
    ensures var p := FindPair(triggers, templates, x);
            FindPair(Map(triggers, ReTrigger(ids)), ReTemplates(ids, templates), x) ==
            if p.Err? then p else Ok(RePair(ids)(p.value))
  {
    hide Allowed, Faithful;
    var re := ReTrigger(ids);
    FilterOfMap(triggers, re, IsCandidate(x), IsCandidate(x));
    FilterOfMap(templates.triggers, re, IsExpected(x), IsExpected(x));
    var candidates, expected := Filter(triggers, IsCandidate(x)), Filter(templates.triggers, IsExpected(x));
    MapAt(candidates, re);
    MapAt(expected, re);
    if |candidates| == 1 {
      AllowedRenamed(templates, x, candidates[0].templateId, ids);
    }
  }

  lemma {:induction false} FindPairsRenamed(triggers: seq<Trigger>, templates: Templates, suffixes: seq<Suffix>,
                                            ids: Ids)
    requires Faithful(ids)
    ensures var p := FindPairs(triggers, templates, suffixes);
            FindPairs(Map(triggers, ReTrigger(ids)), ReTemplates(ids, templates), suffixes) ==
            if p.Err? then p else Ok(Map(p.value, RePair(ids)))
    decreases |suffixes|
  {
    hide FindPair, Faithful, ReTemplates;
    if suffixes != [] {
      FindPairRenamed(triggers, templates, suffixes[0], ids);
      FindPairsRenamed(triggers, templates, suffixes[1..], ids);
      if FindPairs(triggers, templates, suffixes).Ok? {
        var first := FindPair(triggers, templates, suffixes[0]).value;
        var rest := FindPairs(triggers, templates, suffixes[1..]).value;
        MapAppend([first], rest, RePair(ids));
        MapOne(first, RePair(ids));
      }
    }
  }

  lemma PackagedRenamed(packaged: seq<Item>, known: seq<string>, key: string, ids: Ids)
    requires Faithful(ids)
    ensures Filter(Map(packaged, ReItem(ids)), IsPackaged(Map(known, ids.i), key)) ==
            Map(Filter(packaged, IsPackaged(known, key)), ReItem(ids))
  {
    forall i | i in packaged
      ensures IsPackaged(Map(known, ids.i), key)(ReItem(ids)(i)) <==> IsPackaged(known, key)(i)
    {
      MembersRenamed(known, ids.i, i.itemId);
    }
    FilterOfMap(packaged, ReItem(ids), IsPackaged(known, key), IsPackaged(Map(known, ids.i), key));
  }

  lemma {:induction false} MembersRenamed(known: seq<string>, g: string -> string, id: string)
    requires Injective(g)
    ensures g(id) in Map(known, g) <==> id in known
  {
    if known != [] {
      MembersRenamed(known[1..], g, id);
      assert known == [known[0]] + known[1..];
    }
  }

  lemma ItemSignatureRenamed(a: Item, b: Item, ids: Ids)
    requires Injective(ids.i)
    ensures ItemSignatureOf(ReItem(ids)(a)) == ItemSignatureOf(ReItem(ids)(b)) <==>
            ItemSignatureOf(a) == ItemSignatureOf(b)
  {
  }

  lemma CheckItemRenamed(i: Item, packaged: seq<Item>, oldIds: seq<string>, newIds: seq<string>, ids: Ids)
    requires Faithful(ids)
    ensures CheckItem(ReItem(ids)(i), Map(packaged, ReItem(ids)), Map(oldIds, ids.i), Map(newIds, ids.i)) ==
            CheckItem(i, packaged, oldIds, newIds)
  {
    hide Map, Filter, IsPackaged, ItemSignatureOf;
    PackagedRenamed(packaged, oldIds, i.key, ids);
    PackagedRenamed(packaged, newIds, i.key, ids);
    var before, after := Filter(packaged, IsPackaged(oldIds, i.key)), Filter(packaged, IsPackaged(newIds, i.key));
    MapAt(before, ReItem(ids));
    MapAt(after, ReItem(ids));
    if |before| == 1 && |after| == 1 {
      ItemSignatureRenamed(before[0], after[0], ids);
      ItemSignatureRenamed(i, after[0], ids);
    }
  }

  lemma {:induction false} CheckItemsRenamed(items: seq<Item>, packaged: seq<Item>, oldIds: seq<string>,
                                             newIds: seq<string>, ids: Ids)
    requires Faithful(ids)
    ensures CheckItems(Map(items, ReItem(ids)), Map(packaged, ReItem(ids)), Map(oldIds, ids.i), Map(newIds, ids.i))
            == CheckItems(items, packaged, oldIds, newIds)
  {
    hide CheckItem, Faithful;
    if items != [] {
      CheckItemRenamed(items[0], packaged, oldIds, newIds, ids);
      CheckItemsRenamed(items[1..], packaged, oldIds, newIds, ids);
      assert Map(items, ReItem(ids))[1..] == Map(items[1..], ReItem(ids));
    }
  }

  lemma {:induction false} FunctionItemsRenamed(fs: seq<TriggerFunction>, ids: Ids)
    ensures Map(Map(fs, ReFunction(ids)), ItemIdOf) == Map(Map(fs, ItemIdOf), ids.i)
  {
    if fs != [] {
      FunctionItemsRenamed(fs[1..], ids);
      assert Map(fs, ReFunction(ids))[1..] == Map(fs[1..], ReFunction(ids));
      assert Map(fs, ItemIdOf)[1..] == Map(fs[1..], ItemIdOf);
    }
  }

  lemma {:induction false} OldIdsRenamed(triggers: seq<Trigger>, ids: Ids)
    ensures FlatMap(Map(triggers, ReTrigger(ids)), OldItemIds) == Map(FlatMap(triggers, OldItemIds), ids.i)
  {
    if triggers != [] {
      OldIdsRenamed(triggers[1..], ids);
      assert Map(triggers, ReTrigger(ids))[1..] == Map(triggers[1..], ReTrigger(ids));
      FunctionItemsRenamed(triggers[0].functions, ids);
      MapAppend(OldItemIds(triggers[0]), FlatMap(triggers[1..], OldItemIds), ids.i);
      assert OldItemIds(ReTrigger(ids)(triggers[0])) == Map(OldItemIds(triggers[0]), ids.i);
    }
  }

  lemma RePairFields(p: Pair, ids: Ids)
    ensures RePair(ids)(p) == Pair(p.suffix, ReTrigger(ids)(p.current), ReTrigger(ids)(p.desired))
    ensures RePair(ids)(p).current.description == p.current.description
    ensures RePair(ids)(p).current.triggerId == ids.t(p.current.triggerId)
    ensures RePair(ids)(p).desired.description == p.desired.description
    ensures RePair(ids)(p).desired.triggerId == ids.t(p.desired.triggerId)
    ensures RePair(ids)(p).desired.functions == Map(p.desired.functions, ReFunction(ids))
  {
    hide Map;
    assert ReTrigger(ids)(p.current).description == p.current.description;
    assert ReTrigger(ids)(p.desired).description == p.desired.description;
  }

  lemma {:induction false} NewIdsRenamed(pairs: seq<Pair>, ids: Ids)
    ensures FlatMap(Map(pairs, RePair(ids)), DesiredItemIds) == Map(FlatMap(pairs, DesiredItemIds), ids.i)
  {
    if pairs != [] {
      NewIdsRenamed(pairs[1..], ids);
      assert Map(pairs, RePair(ids))[1..] == Map(pairs[1..], RePair(ids));
      FunctionItemsRenamed(pairs[0].desired.functions, ids);
      MapAppend(DesiredItemIds(pairs[0]), FlatMap(pairs[1..], DesiredItemIds), ids.i);
      RePairFields(pairs[0], ids);
      assert DesiredItemIds(RePair(ids)(pairs[0])) == Map(DesiredItemIds(pairs[0]), ids.i);
    }
  }

  function ReContext(ids: Ids, c: Context): Context {
    Context(Map(c.hostKeys, ReFirst(ids.i)), Map(c.hostNames, ReFirst(ids.t)),
            Map(c.templateKeys, ReFirst(ids.i)), Map(c.templateNames, ReFirst(ids.t)))
  }

  lemma ContextRenamed(items: seq<Item>, pairs: seq<Pair>, templates: Templates, ids: Ids)
    ensures MakeContext(Map(items, ReItem(ids)), Map(pairs, RePair(ids)), ReTemplates(ids, templates)) ==
            ReContext(ids, MakeContext(items, pairs, templates))
  {
    KeysRenamed(items, ids);
    KeysRenamed(templates.items, ids);
    NamesRenamed(pairs, ids);
  }

  lemma {:induction false} KeysRenamed(items: seq<Item>, ids: Ids)
    ensures Map(Map(items, ReItem(ids)), KeyOf) == Map(Map(items, KeyOf), ReFirst(ids.i))
  {
    if items != [] {
      KeysRenamed(items[1..], ids);
      assert Map(items, ReItem(ids))[1..] == Map(items[1..], ReItem(ids));
      assert Map(items, KeyOf)[1..] == Map(items[1..], KeyOf);
    }
  }

  lemma NameRenamed(p: Pair, ids: Ids)
    ensures var re: ((string, Suffix)) -> (string, Suffix) := ReFirst(ids.t);
            CurrentName(RePair(ids)(p)) == re(CurrentName(p)) && DesiredName(RePair(ids)(p)) == re(DesiredName(p))
  {
    hide Map;
    RePairFields(p, ids);
    var re: ((string, Suffix)) -> (string, Suffix) := ReFirst(ids.t);
    assert CurrentName(RePair(ids)(p)) == (ids.t(p.current.triggerId), p.suffix);
  }

  lemma NamesRenamed(pairs: seq<Pair>, ids: Ids)
    ensures Map(Map(pairs, RePair(ids)), CurrentName) == Map(Map(pairs, CurrentName), ReFirst(ids.t))
    ensures Map(Map(pairs, RePair(ids)), DesiredName) == Map(Map(pairs, DesiredName), ReFirst(ids.t))
  {
    hide Map;
    var re: ((string, Suffix)) -> (string, Suffix) := ReFirst(ids.t);
    forall p | p in pairs
      ensures CurrentName(RePair(ids)(p)) == re(CurrentName(p)) && DesiredName(RePair(ids)(p)) == re(DesiredName(p))
    {
      NameRenamed(p, ids);
    }
    MapCommutes(pairs, RePair(ids), CurrentName, CurrentName, re);
    MapCommutes(pairs, RePair(ids), DesiredName, DesiredName, re);
  }

  lemma {:induction false} MapCommutes<T, U, V, W>(s: seq<T>, f: T -> U, g: U -> W, h: T -> V, k: V -> W)
    requires forall x | x in s :: g(f(x)) == k(h(x))
    ensures Map(Map(s, f), g) == Map(Map(s, h), k)
  {
    if s != [] {
      assert s[0] in s;
      MapCommutes(s[1..], f, g, h, k);
      assert Map(s, f)[1..] == Map(s[1..], f);
      assert Map(s, h)[1..] == Map(s[1..], h);
    }
  }

  lemma {:induction false} RenamesRenamed(pairs: seq<Pair>, c: Context, ids: Ids)
    requires Faithful(ids)
    ensures var r := RenamesFor(pairs, c);
            RenamesFor(Map(pairs, RePair(ids)), ReContext(ids, c)) ==
            if r.Err? then r else Ok(Map(r.value, ReRename(ids)))
  {
    hide SignatureOf, Faithful, ReTrigger;
    if pairs != [] {
      var p := pairs[0];
      RenamesRenamed(pairs[1..], c, ids);
      assert Map(pairs, RePair(ids))[1..] == Map(pairs[1..], RePair(ids));
      SignatureRenamed(p.current, c.hostKeys, c.hostNames, ids);
      SignatureRenamed(p.desired, c.templateKeys, c.templateNames, ids);
      OwnRenameRenamed(p, ids);
      if RenamesFor(pairs, c).Ok? {
        MapAppend(RenameOf(p), RenamesFor(pairs[1..], c).value, ReRename(ids));
      }
    }
  }

  lemma OwnRenameRenamed(p: Pair, ids: Ids)
    ensures RenameOf(RePair(ids)(p)) == Map(RenameOf(p), ReRename(ids))
  {
    MapOne(Rename(p.current.triggerId, p.desired.description), ReRename(ids));
    var none: seq<Rename> := [];
    assert Map(none, ReRename(ids)) == [];
    RePairFields(p, ids);
  }

  lemma PlanForRenamed(items: seq<Item>, triggers: seq<Trigger>, templates: Templates, ids: Ids)
    requires Faithful(ids)
    ensures var r := PlanFor(items, triggers, templates);
            PlanFor(Map(items, ReItem(ids)), Map(triggers, ReTrigger(ids)), ReTemplates(ids, templates)) ==
            if r.Err? then r else Ok(Map(r.value, ReRename(ids)))
  {
    hide FindPair, CheckItem, SamePair, Faithful;
    FindPairsRenamed(triggers, templates, SUFFIXES, ids);
    var pairs := FindPairs(triggers, templates, SUFFIXES);
    if pairs.Ok? {
      OldIdsRenamed(templates.triggers, ids);
      NewIdsRenamed(pairs.value, ids);
      CheckItemsRenamed(items, templates.items, FlatMap(templates.triggers, OldItemIds),
                        FlatMap(pairs.value, DesiredItemIds), ids);
      ContextRenamed(items, pairs.value, templates, ids);
      RenamesRenamed(pairs.value, MakeContext(items, pairs.value, templates), ids);
    }
  }

  lemma NothingToRename(ids: Ids)
    ensures var none: seq<Rename> := []; Map(none, ReRename(ids)) == none
  {
  }

  lemma HostPartRenamed(s: State, ids: Ids, id: string)
    ensures Filter(ReState(ids, s).items, OnHost(id)) == Map(Filter(s.items, OnHost(id)), ReItem(ids))
    ensures Filter(ReState(ids, s).triggers, TriggerOnHost(id)) ==
            Map(Filter(s.triggers, TriggerOnHost(id)), ReTrigger(ids))
    ensures Filter(ReState(ids, s).items, OnHost(id)) == [] <==> Filter(s.items, OnHost(id)) == []
    ensures Filter(ReState(ids, s).triggers, TriggerOnHost(id)) == [] <==> Filter(s.triggers, TriggerOnHost(id)) == []
  {
    hide Map, Filter;
    FilterOfMap(s.items, ReItem(ids), OnHost(id), OnHost(id));
    FilterOfMap(s.triggers, ReTrigger(ids), TriggerOnHost(id), TriggerOnHost(id));
    MapAt(Filter(s.items, OnHost(id)), ReItem(ids));
    MapAt(Filter(s.triggers, TriggerOnHost(id)), ReTrigger(ids));
  }

  /** Other database ids give the same decision, and the same plan but for the
      ids in it. */
  lemma PlanIgnoresIds(s: State, templates: Templates, ids: Ids)
    requires Faithful(ids)
    ensures var r := Migration(s, templates);
            Migration(ReState(ids, s), ReTemplates(ids, templates)) ==
            if r.Err? then r
            else Ok(Plan(r.value.unlink, Map(r.value.renames, ReRename(ids)), r.value.pending))
  {
    hide PlanFor, Faithful, Filter, Map, ParentsKnown, ReItem, ReTrigger;
    if s.host.Some? {
      var id := s.host.value.hostId;
      HostPartRenamed(s, ids, id);
      PlanForRenamed(Filter(s.items, OnHost(id)), Filter(s.triggers, TriggerOnHost(id)), templates, ids);
    } else {
      assert ReState(ids, s).host.None?;
    }
    NothingToRename(ids);
  }

  // ----- linking the new template -----

  /** The new template's item for a key: one of its triggers measures it. */
  ghost predicate OwnsItem(templates: Templates, n: Item, key: string) {
    && n in templates.items && n.key == key
    && exists t :: t in templates.triggers && t.description.Generic? && n.itemId in Map(t.functions, ItemIdOf)
  }

  /** An item is left alone, or inherits from the new template's item of its key. */
  ghost predicate AdoptedItem(templates: Templates, i: Item, i': Item) {
    && i' == i.(templateId := i'.templateId)
    && (i'.templateId == i.templateId || exists n :: OwnsItem(templates, n, i.key) && n.itemId == i'.templateId)
  }

  /** A trigger is left alone, or inherits from the new template's trigger of its name. */
  ghost predicate AdoptedTrigger(templates: Templates, t: Trigger, t': Trigger) {
    && t' == t.(templateId := t'.templateId)
    && (t'.templateId == t.templateId ||
        exists e :: e in templates.triggers && e.description == t.description && e.description.Generic?
                    && e.triggerId == t'.templateId)
  }

  lemma {:induction false} EverySuffixIsFound(triggers: seq<Trigger>, templates: Templates, suffixes: seq<Suffix>,
                                              x: Suffix)
    requires FindPairs(triggers, templates, suffixes).Ok? && x in suffixes
    ensures exists p :: p in FindPairs(triggers, templates, suffixes).value
                        && Filter(templates.triggers, IsExpected(x)) == [p.desired]
    decreases |suffixes|
  {
    var pairs := FindPairs(triggers, templates, suffixes).value;
    if suffixes[0] == x {
      assert pairs[0] in pairs;
    } else {
      assert suffixes == [suffixes[0]] + suffixes[1..];
      EverySuffixIsFound(triggers, templates, suffixes[1..], x);
      var p :| p in FindPairs(triggers, templates, suffixes[1..]).value
               && Filter(templates.triggers, IsExpected(x)) == [p.desired];
      assert p in pairs;
    }
  }

  lemma AllSuffixes(x: Suffix)
    ensures x in SUFFIXES
  {
    assert SUFFIXES[0] == Unavailable && SUFFIXES[1] == Loss && SUFFIXES[2] == ResponseTime;
    match x
    case Unavailable => assert x == SUFFIXES[0];
    case Loss => assert x == SUFFIXES[1];
    case ResponseTime => assert x == SUFFIXES[2];
  }

  lemma OwnedIsDesired(triggers: seq<Trigger>, templates: Templates, n: Item, key: string)
    requires FindPairs(triggers, templates, SUFFIXES).Ok? && OwnsItem(templates, n, key)
    ensures IsPackaged(FlatMap(FindPairs(triggers, templates, SUFFIXES).value, DesiredItemIds), key)(n)
  {
    hide FindPairs;
    var pairs := FindPairs(triggers, templates, SUFFIXES).value;
    var t :| t in templates.triggers && t.description.Generic? && n.itemId in Map(t.functions, ItemIdOf);
    var x := t.description.suffix;
    AllSuffixes(x);
    EverySuffixIsFound(triggers, templates, SUFFIXES, x);
    var p :| p in pairs && Filter(templates.triggers, IsExpected(x)) == [p.desired];
    FilterContains(templates.triggers, IsExpected(x), t);
    FlatMapContains(pairs, DesiredItemIds, n.itemId);
    assert n.itemId in DesiredItemIds(p);
  }

  lemma AdoptedItemMoves(triggers: seq<Trigger>, templates: Templates, oldIds: seq<string>, i: Item, i': Item)
    requires FindPairs(triggers, templates, SUFFIXES).Ok? && AdoptedItem(templates, i, i')
    ensures ItemMovedOn(templates.items, oldIds,
                        FlatMap(FindPairs(triggers, templates, SUFFIXES).value, DesiredItemIds), i, i')
  {
    hide FindPairs, OwnsItem;
    var newIds := FlatMap(FindPairs(triggers, templates, SUFFIXES).value, DesiredItemIds);
    if i'.templateId == i.templateId {
      assert i' == i;
      return;
    }
    var n :| OwnsItem(templates, n, i.key) && n.itemId == i'.templateId;
    OwnedIsDesired(triggers, templates, n, i.key);
    IsInItems(templates, n, i.key);
    FilterContains(templates.items, IsPackaged(newIds, i.key), n);
  }

  lemma IsInItems(templates: Templates, n: Item, key: string)
    requires OwnsItem(templates, n, key)
    ensures n in templates.items
  {
  }

  /** Linking touches the entities of one host, and any number of them. */
  ghost predicate LinkedItems(s: State, templates: Templates, id: string, g: Item -> Item) {
    forall i | i in s.items :: if i.hostId == id then AdoptedItem(templates, i, g(i)) else g(i) == i
  }

  ghost predicate LinkedTriggers(s: State, templates: Templates, id: string, f: Trigger -> Trigger) {
    forall t | t in s.triggers :: if id in t.hosts then AdoptedTrigger(templates, t, f(t)) else f(t) == t
  }

  /** Once no step is left, linking the new template to the host completes the
      migration: whatever of the host's entities it adopts, and whatever else the
      reading holds for other hosts, the plan is empty and not pending. */
  lemma LinkingCompletes(s: State, templates: Templates, g: Item -> Item, f: Trigger -> Trigger)
    requires s.host.Some? && Migration(s, templates) == Ok(Plan(false, [], true))
    requires DistinctBy(s.triggers, TriggerIdOf)
    requires exists t :: t in s.triggers && s.host.value.hostId in t.hosts
    requires LinkedItems(s, templates, s.host.value.hostId, g)
    requires LinkedTriggers(s, templates, s.host.value.hostId, f)
    ensures Migration(State(Some(s.host.value.(parents := [NEW])), Map(s.items, g), Map(s.triggers, f)), templates)
            == Ok(Plan(false, [], false))
  {
    hide PlanFor, AdoptedItem, AdoptedTrigger, DistinctBy, Filter, Map;
    var id := s.host.value.hostId;
    var items, triggers := Filter(s.items, OnHost(id)), Filter(s.triggers, TriggerOnHost(id));
    var t0 :| t0 in s.triggers && id in t0.hosts;
    FilterContains(s.triggers, TriggerOnHost(id), t0);
    assert PlanFor(items, triggers, templates) == Ok([]);
    DistinctOnHost(s, id);
    HostPartAdopted(s, templates, id, g, f);
    MapAt(triggers, f);
    AdoptionKeepsThePlan(items, triggers, templates, g, f);
    NamesDiffer();
  }

  lemma NamesDiffer()
    ensures OLD != NEW
  {
    assert |OLD| != |NEW|;
  }

  lemma HostPartAdopted(s: State, templates: Templates, id: string, g: Item -> Item, f: Trigger -> Trigger)
    requires LinkedItems(s, templates, id, g) && LinkedTriggers(s, templates, id, f)
    ensures Filter(Map(s.items, g), OnHost(id)) == Map(Filter(s.items, OnHost(id)), g)
    ensures Filter(Map(s.triggers, f), TriggerOnHost(id)) == Map(Filter(s.triggers, TriggerOnHost(id)), f)
    ensures forall i | i in Filter(s.items, OnHost(id)) :: AdoptedItem(templates, i, g(i))
    ensures forall t | t in Filter(s.triggers, TriggerOnHost(id)) :: AdoptedTrigger(templates, t, f(t))
  {
    hide AdoptedItem, AdoptedTrigger, Filter, Map;
    forall i | i in s.items
      ensures OnHost(id)(g(i)) <==> OnHost(id)(i)
    {
      if i.hostId == id {
        ItemStays(templates, i, g(i));
      }
    }
    forall t | t in s.triggers
      ensures TriggerOnHost(id)(f(t)) <==> TriggerOnHost(id)(t)
    {
      if id in t.hosts {
        TriggerStays(templates, t, f(t));
      }
    }
    FilterOfMap(s.items, g, OnHost(id), OnHost(id));
    FilterOfMap(s.triggers, f, TriggerOnHost(id), TriggerOnHost(id));
    forall i | i in Filter(s.items, OnHost(id))
      ensures AdoptedItem(templates, i, g(i))
    {
      FilterContains(s.items, OnHost(id), i);
    }
    forall t | t in Filter(s.triggers, TriggerOnHost(id))
      ensures AdoptedTrigger(templates, t, f(t))
    {
      FilterContains(s.triggers, TriggerOnHost(id), t);
    }
  }

  lemma ItemStays(templates: Templates, i: Item, i': Item)
    requires AdoptedItem(templates, i, i')
    ensures i'.hostId == i.hostId
  {
  }

  lemma TriggerStays(templates: Templates, t: Trigger, t': Trigger)
    requires AdoptedTrigger(templates, t, t')
    ensures t'.hosts == t.hosts && t'.description == t.description && t'.triggerId == t.triggerId
    ensures MovedOn(templates, t, t')
  {
    if t'.templateId != t.templateId {
      var e :| e in templates.triggers && e.description == t.description && e.description.Generic?
               && e.triggerId == t'.templateId;
      forall x: Suffix | IsCandidate(x)(t)
        ensures Allowed(templates, x, t'.templateId)
      {
        assert IsCandidate(x)(e);
      }
    }
  }

  lemma AdoptionKeepsThePlan(items: seq<Item>, triggers: seq<Trigger>, templates: Templates, g: Item -> Item,
                             f: Trigger -> Trigger)
    requires PlanFor(items, triggers, templates) == Ok([]) && DistinctBy(triggers, TriggerIdOf)
    requires forall i | i in items :: AdoptedItem(templates, i, g(i))
    requires forall t | t in triggers :: AdoptedTrigger(templates, t, f(t))
    ensures PlanFor(Map(items, g), Map(triggers, f), templates) == Ok([])
  {
    hide PlanFor, AdoptedItem, AdoptedTrigger, MovedOn, ItemMovedOn, RenameMoved, RenameOf, FindPairs;
    PlanIsOfPairs(items, triggers, templates);
    PairsAreFound(items, triggers, templates);
    var pairs := FindPairs(triggers, templates, SUFFIXES).value;
    forall t | t in triggers
      ensures MovedOn(templates, t, f(t))
    {
      TriggerStays(templates, t, f(t));
    }
    forall i | i in items
      ensures ItemMovedOn(templates.items, FlatMap(templates.triggers, OldItemIds), FlatMap(pairs, DesiredItemIds),
                          i, g(i))
    {
      AdoptedItemMoves(triggers, templates, FlatMap(templates.triggers, OldItemIds), i, g(i));
    }
    PlanAfterMove(items, triggers, templates, g, f);
    forall p | p in pairs
      ensures RenameMoved(f)(p) == RenameOf(p)
    {
      TriggerStays(templates, p.current, f(p.current));
      SameRename(p, f);
    }
    FlatMapSame(pairs, RenameMoved(f), RenameOf);
  }

  lemma SameRename(p: Pair, f: Trigger -> Trigger)
    requires f(p.current).description == p.current.description && f(p.current).triggerId == p.current.triggerId
    ensures RenameMoved(f)(p) == RenameOf(p)
  {
    var q := MovePair(f)(p);
    assert q.current == f(p.current) && q.desired == p.desired;
    assert RenameOf(q) == RenameOf(p);
  }

  lemma PairsAreFound(items: seq<Item>, triggers: seq<Trigger>, templates: Templates)
    requires PlanFor(items, triggers, templates).Ok?
    ensures FindPairs(triggers, templates, SUFFIXES).Ok?
  {
    hide FindPairs;
  }
}
