/** What acceptance means: the host's triggers and items behave as the packaged
    ones do, so adopting them changes no measurement. */
module IcmpBehaviour {
  import opened Wrappers
  import opened Sequences
  import opened Icmp
  import opened IcmpMeaning

  // ----- expressions, evaluated where they stand -----

  /** The function with that id; of several, the last. */
  function FunctionNamed(fs: seq<TriggerFunction>, id: string): Option<TriggerFunction> {
    if fs == [] then None
    else
      var later := FunctionNamed(fs[1..], id);
      if later.Some? then later else if fs[0].functionId == id then Some(fs[0]) else None
  }

  /** A part of an expression under a meaning of (function, item key, parameter):
      a reference stands for its function, applied to the item with its id. */
  function ValueOf(x: Token, fs: seq<TriggerFunction>, keys: seq<(string, string)>,
                   meaning: (string, string, string) -> int): Option<Value> {
    match x
    case Text(s) => Some(Fixed(s))
    case Ref(id) =>
      var f := FunctionNamed(fs, id);
      if f.None? then None else
      var key := Lookup(keys, f.value.itemId);
      if key.None? then None else Some(Measured(meaning(f.value.name, key.value, f.value.parameter)))
  }

  function ValuesOf(tokens: seq<Token>, fs: seq<TriggerFunction>, keys: seq<(string, string)>,
                    meaning: (string, string, string) -> int): Option<seq<Value>>
    decreases |tokens|
  {
    if tokens == [] then Some([])
    else
      var first := ValueOf(tokens[0], fs, keys, meaning);
      var rest := ValuesOf(tokens[1..], fs, keys, meaning);
      if first.None? || rest.None? then None else Some([first.value] + rest.value)
  }

  lemma {:induction false} LookupBehind<V>(p: (string, V), rest: seq<(string, V)>, id: string)
    ensures Lookup([p] + rest, id) ==
            if Lookup(rest, id).Some? then Lookup(rest, id) else if p.0 == id then Some(p.1) else None
    decreases |rest|
  {
    var all := [p] + rest;
    if rest == [] {
      assert all[..0] == [];
      assert Lookup(all[..0], id) == None;
    } else {
      assert all[..|all| - 1] == [p] + rest[..|rest| - 1];
      LookupBehind(p, rest[..|rest| - 1], id);
    }
  }

  /** A call by meaning is the function by id, with its item's key. */
  lemma {:induction false} CallIsFunction(fs: seq<TriggerFunction>, keys: seq<(string, string)>, id: string)
    requires Calls(fs, keys).Some?
    ensures var f := FunctionNamed(fs, id);
            Lookup(Calls(fs, keys).value, id) ==
            if f.None? then None
            else
              var key := Lookup(keys, f.value.itemId);
              if key.None? then None else Some(Call(f.value.name, key.value, f.value.parameter))
    ensures FunctionNamed(fs, id).Some? ==> Lookup(keys, FunctionNamed(fs, id).value.itemId).Some?
    decreases |fs|
  {
    if fs != [] {
      CallIsFunction(fs[1..], keys, id);
      var key := Lookup(keys, fs[0].itemId).value;
      LookupBehind((fs[0].functionId, Call(fs[0].name, key, fs[0].parameter)), Calls(fs[1..], keys).value, id);
    }
  }

  /** Substituting calls and then evaluating is evaluating in place. */
  lemma {:induction false} SubstitutionEvaluates(tokens: seq<Token>, fs: seq<TriggerFunction>,
                                                 keys: seq<(string, string)>,
                                                 meaning: (string, string, string) -> int)
    requires Calls(fs, keys).Some?
    ensures var text := Substitute(tokens, Calls(fs, keys).value);
            ValuesOf(tokens, fs, keys, meaning) ==
            if text.None? then None else Some(Evaluate(text.value, meaning))
    decreases |tokens|
  {
    hide Calls, Lookup, FunctionNamed;
    if tokens != [] {
      SubstitutionEvaluates(tokens[1..], fs, keys, meaning);
      if tokens[0].Ref? {
        CallIsFunction(fs, keys, tokens[0].functionId);
      }
      var text := Substitute(tokens, Calls(fs, keys).value);
      if text.Some? {
        assert text.value[1..] == Substitute(tokens[1..], Calls(fs, keys).value).value;
      }
    }
  }

  // ----- accepted triggers -----

  ghost predicate SameValues(p: Pair, c: Context, meaning: (string, string, string) -> int) {
    && ValuesOf(p.current.expression, p.current.functions, c.hostKeys, meaning) ==
       ValuesOf(p.desired.expression, p.desired.functions, c.templateKeys, meaning)
    && ValuesOf(p.current.recovery, p.current.functions, c.hostKeys, meaning) ==
       ValuesOf(p.desired.recovery, p.desired.functions, c.templateKeys, meaning)
    && ValuesOf(p.current.expression, p.current.functions, c.hostKeys, meaning).Some?
    && ValuesOf(p.current.recovery, p.current.functions, c.hostKeys, meaning).Some?
  }

  /** The two triggers of a pair agree on everything but ids, name and template. */
  ghost predicate BehaveAlike(p: Pair, c: Context) {
    && p.current.settings == p.desired.settings
    && DependencyNames(p.current.dependencies, c.hostNames).Some?
    && DependencyNames(p.current.dependencies, c.hostNames) == DependencyNames(p.desired.dependencies, c.templateNames)
    && forall meaning: (string, string, string) -> int :: SameValues(p, c, meaning)
  }

  /** The comparison of signatures is sound and complete for behaviour. */
  lemma SamePairIsExact(p: Pair, c: Context)
    requires Calls(p.current.functions, c.hostKeys).Some? && Calls(p.desired.functions, c.templateKeys).Some?
    ensures SamePair(p, c) == Ok(true) <==> BehaveAlike(p, c)
  {
    hide Calls, Substitute, DependencyNames, ValuesOf;
    var current := SignatureOf(p.current, c.hostKeys, c.hostNames);
    var desired := SignatureOf(p.desired, c.templateKeys, c.templateNames);
    if SamePair(p, c) == Ok(true) {
      forall meaning: (string, string, string) -> int
        ensures SameValues(p, c, meaning)
      {
        PairEvaluates(p, c, meaning);
      }
    }
    if BehaveAlike(p, c) {
      TextsExist(p, c);
      SameTexts(p.current.expression, p.desired.expression, p, c);
      SameTexts(p.current.recovery, p.desired.recovery, p, c);
    }
  }

  lemma PairEvaluates(p: Pair, c: Context, meaning: (string, string, string) -> int)
    requires Calls(p.current.functions, c.hostKeys).Some? && Calls(p.desired.functions, c.templateKeys).Some?
    requires SamePair(p, c) == Ok(true)
    ensures SameValues(p, c, meaning)
  {
    hide Calls, Substitute, DependencyNames, ValuesOf;
    SubstitutionEvaluates(p.current.expression, p.current.functions, c.hostKeys, meaning);
    SubstitutionEvaluates(p.current.recovery, p.current.functions, c.hostKeys, meaning);
    SubstitutionEvaluates(p.desired.expression, p.desired.functions, c.templateKeys, meaning);
    SubstitutionEvaluates(p.desired.recovery, p.desired.functions, c.templateKeys, meaning);
  }

  lemma TextsExist(p: Pair, c: Context)
    requires Calls(p.current.functions, c.hostKeys).Some? && Calls(p.desired.functions, c.templateKeys).Some?
    requires BehaveAlike(p, c)
    ensures Substitute(p.current.expression, Calls(p.current.functions, c.hostKeys).value).Some?
    ensures Substitute(p.current.recovery, Calls(p.current.functions, c.hostKeys).value).Some?
    ensures Substitute(p.desired.expression, Calls(p.desired.functions, c.templateKeys).value).Some?
    ensures Substitute(p.desired.recovery, Calls(p.desired.functions, c.templateKeys).value).Some?
  {
    hide Calls, Substitute, DependencyNames, ValuesOf;
    var any := Only(Literal(""));
    assert SameValues(p, c, any);
    SubstitutionEvaluates(p.current.expression, p.current.functions, c.hostKeys, any);
    SubstitutionEvaluates(p.current.recovery, p.current.functions, c.hostKeys, any);
    SubstitutionEvaluates(p.desired.expression, p.desired.functions, c.templateKeys, any);
    SubstitutionEvaluates(p.desired.recovery, p.desired.functions, c.templateKeys, any);
  }

  lemma SameTexts(current: seq<Token>, desired: seq<Token>, p: Pair, c: Context)
    requires Calls(p.current.functions, c.hostKeys).Some? && Calls(p.desired.functions, c.templateKeys).Some?
    requires Substitute(current, Calls(p.current.functions, c.hostKeys).value).Some?
    requires Substitute(desired, Calls(p.desired.functions, c.templateKeys).value).Some?
    requires BehaveAlike(p, c)
    requires (current == p.current.expression && desired == p.desired.expression)
             || (current == p.current.recovery && desired == p.desired.recovery)
    ensures Substitute(current, Calls(p.current.functions, c.hostKeys).value) ==
            Substitute(desired, Calls(p.desired.functions, c.templateKeys).value)
  {
    hide Calls, Substitute, DependencyNames, ValuesOf, Evaluate;
    var a := Substitute(current, Calls(p.current.functions, c.hostKeys).value).value;
    var b := Substitute(desired, Calls(p.desired.functions, c.templateKeys).value).value;
    forall meaning: (string, string, string) -> int
      ensures Evaluate(a, meaning) == Evaluate(b, meaning)
    {
      assert SameValues(p, c, meaning);
      SubstitutionEvaluates(current, p.current.functions, c.hostKeys, meaning);
      SubstitutionEvaluates(desired, p.desired.functions, c.templateKeys, meaning);
    }
    assert EvaluateAlike(a, b);
    SignatureIsMeaning(a, b);
  }

  // ----- accepted items and plans -----

  /** Its one packaged definition before and after, and the item itself, agree. */
  ghost predicate Unmodified(i: Item, packaged: seq<Item>, oldIds: seq<string>, newIds: seq<string>) {
    exists before, after ::
      && Filter(packaged, IsPackaged(oldIds, i.key)) == [before]
      && Filter(packaged, IsPackaged(newIds, i.key)) == [after]
      && ItemSignatureOf(i) == ItemSignatureOf(before) == ItemSignatureOf(after)
      && (i.templateId == NO_TEMPLATE || i.templateId == before.itemId || i.templateId == after.itemId)
  }

  lemma CheckedIsUnmodified(i: Item, packaged: seq<Item>, oldIds: seq<string>, newIds: seq<string>)
    ensures CheckItem(i, packaged, oldIds, newIds).None? <==> Unmodified(i, packaged, oldIds, newIds)
  {
    hide Filter, IsPackaged, ItemSignatureOf;
    var before, after := Filter(packaged, IsPackaged(oldIds, i.key)), Filter(packaged, IsPackaged(newIds, i.key));
    if |before| == 1 && |after| == 1 {
      assert before == [before[0]] && after == [after[0]];
    }
  }

  lemma {:induction false} CheckedAreUnmodified(items: seq<Item>, packaged: seq<Item>, oldIds: seq<string>,
                                                newIds: seq<string>)
    ensures CheckItems(items, packaged, oldIds, newIds).None? <==>
              forall i | i in items :: Unmodified(i, packaged, oldIds, newIds)
  {
    hide CheckItem, Unmodified;
    if items != [] {
      CheckedIsUnmodified(items[0], packaged, oldIds, newIds);
      CheckedAreUnmodified(items[1..], packaged, oldIds, newIds);
      assert items == [items[0]] + items[1..];
    }
  }

  lemma {:induction false} AllPairsAreSame(pairs: seq<Pair>, c: Context)
    requires RenamesFor(pairs, c).Ok?
    ensures forall p | p in pairs :: SamePair(p, c) == Ok(true)
  {
    hide SamePair;
    if pairs != [] {
      AllPairsAreSame(pairs[1..], c);
      assert pairs == [pairs[0]] + pairs[1..];
    }
  }

  lemma {:induction false} PairsAreFiltered(triggers: seq<Trigger>, templates: Templates, suffixes: seq<Suffix>)
    requires FindPairs(triggers, templates, suffixes).Ok?
    ensures var pairs := FindPairs(triggers, templates, suffixes).value;
            && |pairs| == |suffixes|
            && forall k | 0 <= k < |pairs| ::
                 && Filter(triggers, IsCandidate(suffixes[k])) == [pairs[k].current]
                 && Filter(templates.triggers, IsExpected(suffixes[k])) == [pairs[k].desired]
                 && Allowed(templates, suffixes[k], pairs[k].current.templateId)
    decreases |suffixes|
  {
    hide Filter, Allowed;
    if suffixes != [] {
      PairsAreFiltered(triggers, templates, suffixes[1..]);
    }
  }

  /** An adoption replaces no measurement.  When a plan for a host that has
      anything is accepted, the host has exactly one trigger for each of the three
      known names; it evaluates as the packaged one under every meaning of the
      functions, with the same settings and dependencies, and inherits from no
      foreign template; and every item is its packaged definition, unmodified. */
  lemma AcceptedMeansUnmodified(items: seq<Item>, triggers: seq<Trigger>, templates: Templates)
    requires PlanFor(items, triggers, templates).Ok?
    ensures FindPairs(triggers, templates, SUFFIXES).Ok?
    ensures var pairs := FindPairs(triggers, templates, SUFFIXES).value;
            && |pairs| == 3
            && (forall k | 0 <= k < 3 ::
                  && Filter(triggers, IsCandidate(SUFFIXES[k])) == [pairs[k].current]
                  && Filter(templates.triggers, IsExpected(SUFFIXES[k])) == [pairs[k].desired]
                  && Allowed(templates, SUFFIXES[k], pairs[k].current.templateId)
                  && BehaveAlike(pairs[k], MakeContext(items, pairs, templates)))
            && (forall i | i in items ::
                  Unmodified(i, templates.items, FlatMap(templates.triggers, OldItemIds),
                             FlatMap(pairs, DesiredItemIds)))
  {
    hide FindPairs, CheckItems, RenamesFor, Unmodified, BehaveAlike, SamePair, Filter, Allowed, MakeContext;
    var pairs := FindPairs(triggers, templates, SUFFIXES).value;
    var c := MakeContext(items, pairs, templates);
    PairsAreFiltered(triggers, templates, SUFFIXES);
    CheckedAreUnmodified(items, templates.items, FlatMap(templates.triggers, OldItemIds),
                         FlatMap(pairs, DesiredItemIds));
    AllPairsAreSame(pairs, c);
    forall p | p in pairs
      ensures BehaveAlike(p, c)
    {
      SameHasCalls(p, c);
      SamePairIsExact(p, c);
    }
    assert |SUFFIXES| == 3;
  }

  lemma SameHasCalls(p: Pair, c: Context)
    requires SamePair(p, c) == Ok(true)
    ensures Calls(p.current.functions, c.hostKeys).Some? && Calls(p.desired.functions, c.templateKeys).Some?
  {
    hide Calls, Substitute, DependencyNames;
  }
}
