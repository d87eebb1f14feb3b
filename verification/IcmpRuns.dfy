/** A migration can be interrupted after any of its steps and planned again. */
module IcmpRuns {
  import opened Wrappers
  import opened Sequences
  import opened Icmp

  // ----- changes that a plan does not notice -----

  /** A trigger that moved along: only its template and, from the old to the new
      name of the same measurement, its name may differ. */
  ghost predicate MovedOn(templates: Templates, t: Trigger, t': Trigger) {
    && t' == t.(templateId := t'.templateId, description := t'.description)
    && (t'.description == t.description ||
        (t.description.IcmpPing? && t'.description == Generic(t.description.suffix)))
    && (forall x: Suffix | IsCandidate(x)(t) && Allowed(templates, x, t.templateId) ::
          Allowed(templates, x, t'.templateId))
  }

  /** An item that moved along is still what the plan accepts. */
  ghost predicate ItemMovedOn(packaged: seq<Item>, oldIds: seq<string>, newIds: seq<string>, i: Item, i': Item) {
    && i' == i.(templateId := i'.templateId)
    && (CheckItem(i, packaged, oldIds, newIds).None? ==> CheckItem(i', packaged, oldIds, newIds).None?)
  }

  lemma SameSignature(templates: Templates, t: Trigger, t': Trigger, keys: seq<(string, string)>,
                      names: seq<(string, Suffix)>)
    requires MovedOn(templates, t, t')
    ensures SignatureOf(t', keys, names) == SignatureOf(t, keys, names)
  {
  }

  function MovePair(f: Trigger -> Trigger): Pair -> Pair {
    (p: Pair) => p.(current := f(p.current))
  }

  lemma FindMovedPair(triggers: seq<Trigger>, templates: Templates, x: Suffix, f: Trigger -> Trigger)
    requires forall t | t in triggers :: MovedOn(templates, t, f(t))
    requires FindPair(triggers, templates, x).Ok?
    ensures FindPair(Map(triggers, f), templates, x) == Ok(MovePair(f)(FindPair(triggers, templates, x).value))
    ensures FindPair(triggers, templates, x).value.current in triggers
    ensures FindPair(triggers, templates, x).value.suffix == x
    ensures IsCandidate(x)(FindPair(triggers, templates, x).value.current)
    ensures FindPair(triggers, templates, x).value.desired.description == Generic(x)
    ensures FindPair(triggers, templates, x).value.desired in templates.triggers
  {
    hide Allowed;
    FilterOfMap(triggers, f, IsCandidate(x), IsCandidate(x));
    var candidates := Filter(triggers, IsCandidate(x));
    var expected := Filter(templates.triggers, IsExpected(x));
    FilterContains(triggers, IsCandidate(x), candidates[0]);
    FilterContains(templates.triggers, IsExpected(x), expected[0]);
    MapAt(candidates, f);
  }

  lemma {:induction false} FindMovedPairs(triggers: seq<Trigger>, templates: Templates, suffixes: seq<Suffix>,
                                          f: Trigger -> Trigger)
    requires forall t | t in triggers :: MovedOn(templates, t, f(t))
    requires FindPairs(triggers, templates, suffixes).Ok?
    ensures FindPairs(Map(triggers, f), templates, suffixes) ==
            Ok(Map(FindPairs(triggers, templates, suffixes).value, MovePair(f)))
    ensures forall p | p in FindPairs(triggers, templates, suffixes).value ::
              && p.current in triggers && IsCandidate(p.suffix)(p.current)
              && p.desired in templates.triggers && p.desired.description == Generic(p.suffix)
    decreases |suffixes|
  {
    hide FindPair, MovedOn;
    if suffixes != [] {
      FindMovedPair(triggers, templates, suffixes[0], f);
      FindMovedPairs(triggers, templates, suffixes[1..], f);
      var rest := FindPairs(triggers, templates, suffixes[1..]).value;
      MapAppend([FindPair(triggers, templates, suffixes[0]).value], rest, MovePair(f));
      MapOne(FindPair(triggers, templates, suffixes[0]).value, MovePair(f));
    }
  }

  lemma {:induction false} MovedItemsPass(items: seq<Item>, packaged: seq<Item>, oldIds: seq<string>,
                                          newIds: seq<string>, g: Item -> Item)
    requires forall i | i in items :: ItemMovedOn(packaged, oldIds, newIds, i, g(i))
    requires CheckItems(items, packaged, oldIds, newIds).None?
    ensures CheckItems(Map(items, g), packaged, oldIds, newIds).None?
    ensures Map(Map(items, g), KeyOf) == Map(items, KeyOf)
  {
    hide CheckItem;
    if items != [] {
      assert items[0] in items;
      MovedItemsPass(items[1..], packaged, oldIds, newIds, g);
      assert Map(items, g)[1..] == Map(items[1..], g);
    }
  }

  lemma {:induction false} PairDataUnmoved(templates: Templates, pairs: seq<Pair>, f: Trigger -> Trigger)
    requires forall p | p in pairs :: MovedOn(templates, p.current, f(p.current))
    ensures Map(Map(pairs, MovePair(f)), CurrentName) == Map(pairs, CurrentName)
    ensures Map(Map(pairs, MovePair(f)), DesiredName) == Map(pairs, DesiredName)
    ensures FlatMap(Map(pairs, MovePair(f)), DesiredItemIds) == FlatMap(pairs, DesiredItemIds)
  {
    if pairs != [] {
      assert pairs[0] in pairs;
      PairDataUnmoved(templates, pairs[1..], f);
      assert Map(pairs, MovePair(f))[1..] == Map(pairs[1..], MovePair(f));
    }
  }

  function RenameMoved(f: Trigger -> Trigger): Pair -> seq<Rename> {
    (p: Pair) => RenameOf(MovePair(f)(p))
  }

  lemma {:induction false} MovedRenames(templates: Templates, pairs: seq<Pair>, c: Context, f: Trigger -> Trigger)
    requires forall p | p in pairs :: MovedOn(templates, p.current, f(p.current))
    requires RenamesFor(pairs, c).Ok?
    ensures RenamesFor(Map(pairs, MovePair(f)), c) == Ok(FlatMap(pairs, RenameMoved(f)))
    ensures RenamesFor(pairs, c).value == FlatMap(pairs, RenameOf)
  {
    hide SignatureOf, RenameOf, MovedOn;
    if pairs != [] {
      assert pairs[0] in pairs;
      MovedRenames(templates, pairs[1..], c, f);
      SameSignature(templates, pairs[0].current, f(pairs[0].current), c.hostKeys, c.hostNames);
      assert Map(pairs, MovePair(f))[1..] == Map(pairs[1..], MovePair(f));
    }
  }

  /** Planning again after entities have moved along: still accepted, with the
      renames that are left. */
  lemma PlanAfterMove(items: seq<Item>, triggers: seq<Trigger>, templates: Templates, g: Item -> Item,
                      f: Trigger -> Trigger)
    requires PlanFor(items, triggers, templates).Ok?
    requires forall t | t in triggers :: MovedOn(templates, t, f(t))
    requires var pairs := FindPairs(triggers, templates, SUFFIXES).value;
             forall i | i in items ::
               ItemMovedOn(templates.items, FlatMap(templates.triggers, OldItemIds), FlatMap(pairs, DesiredItemIds),
                           i, g(i))
    ensures var pairs := FindPairs(triggers, templates, SUFFIXES).value;
            && PlanFor(Map(items, g), Map(triggers, f), templates) == Ok(FlatMap(pairs, RenameMoved(f)))
            && PlanFor(items, triggers, templates) == Ok(FlatMap(pairs, RenameOf))
  {
    hide MovedOn, ItemMovedOn, CheckItem, FindPair, SamePair;
    var pairs := FindPairs(triggers, templates, SUFFIXES).value;
    FindMovedPairs(triggers, templates, SUFFIXES, f);
    PairDataUnmoved(templates, pairs, f);
    MovedItemsPass(items, templates.items, FlatMap(templates.triggers, OldItemIds),
                   FlatMap(pairs, DesiredItemIds), g);
    MovedRenames(templates, pairs, MakeContext(items, pairs, templates), f);
  }

  // ----- carrying out part of a plan -----

  function TriggerIdOf(t: Trigger): string {
    t.triggerId
  }

  /** Part of a plan: perhaps the unlink, and some of the renames in some order. */
  ghost predicate PartOf(plan: Plan, unlink: bool, chosen: seq<Rename>) {
    (unlink ==> plan.unlink) && forall r | r in chosen :: r in plan.renames
  }

  function Applied(s: State, unlink: bool, chosen: seq<Rename>): State {
    Renamed(if unlink then Unlinked(s) else s, chosen)
  }

  function NotIn(chosen: seq<Rename>): Rename -> bool {
    (r: Rename) => r !in chosen
  }

  /** What one application does to the triggers and items of the host. */
  function MoveTrigger(unlink: bool, chosen: seq<Rename>): Trigger -> Trigger {
    (t: Trigger) => Renaming(chosen)(if unlink then t.(templateId := NO_TEMPLATE) else t)
  }

  function MoveItem(unlink: bool): Item -> Item {
    (i: Item) => if unlink then i.(templateId := NO_TEMPLATE) else i
  }

  lemma {:induction false} NameAfterCases(chosen: seq<Rename>, t: Trigger)
    ensures (NameAfter(chosen, t) == t.description && forall r | r in chosen :: r.triggerId != t.triggerId)
            || exists r :: r in chosen && r.triggerId == t.triggerId && NameAfter(chosen, t) == r.description
    decreases |chosen|
  {
    if chosen != [] {
      var prefix, last := chosen[..|chosen| - 1], chosen[|chosen| - 1];
      assert chosen == prefix + [last];
      NameAfterCases(prefix, t);
    }
  }

  /** The host's pairs, as an accepted plan has found them. */
  ghost predicate Found(triggers: seq<Trigger>, pairs: seq<Pair>) {
    && DistinctBy(triggers, TriggerIdOf)
    && forall p | p in pairs ::
         p.current in triggers && IsCandidate(p.suffix)(p.current) && p.desired.description == Generic(p.suffix)
  }

  /** A chosen rename of a trigger is the rename of its pair. */
  lemma RenameIsOfPair(triggers: seq<Trigger>, pairs: seq<Pair>, r: Rename, t: Trigger)
    requires Found(triggers, pairs) && r in FlatMap(pairs, RenameOf) && t in triggers && r.triggerId == t.triggerId
    ensures t.description.IcmpPing? && r == Rename(t.triggerId, Generic(t.description.suffix))
  {
    FlatMapContains(pairs, RenameOf, r);
    var p :| p in pairs && r in RenameOf(p);
    UniqueByKey(triggers, TriggerIdOf, t, p.current);
  }

  lemma TriggerMoves(triggers: seq<Trigger>, templates: Templates, pairs: seq<Pair>, unlink: bool,
                     chosen: seq<Rename>, t: Trigger)
    requires Found(triggers, pairs) && t in triggers && forall r | r in chosen :: r in FlatMap(pairs, RenameOf)
    ensures MovedOn(templates, t, MoveTrigger(unlink, chosen)(t))
  {
    hide FlatMap, Found, RenameOf;
    NameAfterCases(chosen, if unlink then t.(templateId := NO_TEMPLATE) else t);
    forall r | r in chosen && r.triggerId == t.triggerId
      ensures t.description.IcmpPing? && r.description == Generic(t.description.suffix)
    {
      RenameIsOfPair(triggers, pairs, r, t);
    }
  }

  /** What is left of one pair's rename. */
  lemma PairAfterMove(triggers: seq<Trigger>, templates: Templates, pairs: seq<Pair>, unlink: bool,
                      chosen: seq<Rename>, p: Pair)
    requires Found(triggers, pairs) && p in pairs && forall r | r in chosen :: r in FlatMap(pairs, RenameOf)
    ensures RenameMoved(MoveTrigger(unlink, chosen))(p) == Filter(RenameOf(p), NotIn(chosen))
  {
    hide FlatMap;
    var t := p.current;
    var kept := if unlink then t.(templateId := NO_TEMPLATE) else t;
    NameAfterCases(chosen, kept);
    forall r | r in chosen && r.triggerId == t.triggerId
      ensures r == Rename(t.triggerId, p.desired.description) && t.description != p.desired.description
    {
      RenameIsOfPair(triggers, pairs, r, t);
    }
    var own := Rename(t.triggerId, p.desired.description);
    FilterOne(own, NotIn(chosen));
    assert Filter<Rename>([], NotIn(chosen)) == [];
    var moved := MovePair(MoveTrigger(unlink, chosen))(p);
    assert moved.current.triggerId == t.triggerId;
    assert moved.current.description == NameAfter(chosen, kept);
    if own in chosen && t.description != p.desired.description {
      assert moved.current.description == p.desired.description;
    } else {
      assert forall r | r in chosen :: r.triggerId != t.triggerId;
      assert moved.current.description == t.description;
    }
  }

  lemma FilterOne<T>(x: T, p: T -> bool)
    ensures Filter([x], p) == if p(x) then [x] else []
  {
    assert [x][1..] == [];
    assert Filter([x][1..], p) == [];
  }

  lemma ItemMoves(packaged: seq<Item>, oldIds: seq<string>, newIds: seq<string>, unlink: bool, i: Item)
    ensures ItemMovedOn(packaged, oldIds, newIds, i, MoveItem(unlink)(i))
  {
    hide Filter;
  }

  lemma OnHostAfterMove(s: State, unlink: bool, chosen: seq<Rename>)
    requires s.host.Some?
    ensures var h, s' := s.host.value, Applied(s, unlink, chosen);
            && s'.host == Some(if unlink then h.(parents := []) else h)
            && Filter(s'.items, OnHost(h.hostId)) == Map(Filter(s.items, OnHost(h.hostId)), MoveItem(unlink))
            && Filter(s'.triggers, TriggerOnHost(h.hostId)) ==
               Map(Filter(s.triggers, TriggerOnHost(h.hostId)), MoveTrigger(unlink, chosen))
  {
    var id := s.host.value.hostId;
    var on, tOn := OnHost(id), TriggerOnHost(id);
    var keepI: Item -> Item := if unlink then KeepItem(id) else MoveItem(false);
    var keepT: Trigger -> Trigger := if unlink then KeepTrigger(id) else MoveTrigger(false, []);
    if !unlink {
      MapIdentity(s.items, keepI);
      MapIdentity(s.triggers, keepT);
    }
    FilterOfMap(s.items, keepI, on, on);
    FilterOfMap(s.triggers, keepT, tOn, tOn);
    var items, triggers := Filter(s.items, on), Filter(s.triggers, tOn);
    forall i | i in items
      ensures keepI(i) == MoveItem(unlink)(i)
    {
      FilterContains(s.items, on, i);
    }
    SameMap(items, keepI, MoveItem(unlink));
    FilterOfMap(Map(s.triggers, keepT), Renaming(chosen), tOn, tOn);
    forall t | t in triggers
      ensures Renaming(chosen)(keepT(t)) == MoveTrigger(unlink, chosen)(t)
    {
      FilterContains(s.triggers, tOn, t);
    }
    MapOfMap(triggers, keepT, Renaming(chosen), MoveTrigger(unlink, chosen));
  }

  lemma {:induction false} SameMap<T, U>(s: seq<T>, f: T -> U, g: T -> U)
    requires forall x | x in s :: f(x) == g(x)
    ensures Map(s, f) == Map(s, g)
  {
    if s != [] {
      assert s[0] in s;
      SameMap(s[1..], f, g);
    }
  }

  lemma DistinctOnHost(s: State, id: string)
    requires DistinctBy(s.triggers, TriggerIdOf)
    ensures DistinctBy(Filter(s.triggers, TriggerOnHost(id)), TriggerIdOf)
  {
    FilterIsPart(s.triggers, TriggerOnHost(id));
    DistinctBySub(Filter(s.triggers, TriggerOnHost(id)), s.triggers, TriggerIdOf);
  }

  lemma {:induction false} FilterIsPart<T>(s: seq<T>, p: T -> bool)
    ensures multiset(Filter(s, p)) <= multiset(s)
  {
    if s != [] {
      FilterIsPart(s[1..], p);
      assert s == [s[0]] + s[1..];
    }
  }

  /** The renames that are left after part of a plan. */
  lemma RemainingRenames(items: seq<Item>, triggers: seq<Trigger>, templates: Templates, unlink: bool,
                         chosen: seq<Rename>)
    requires DistinctBy(triggers, TriggerIdOf) && PlanFor(items, triggers, templates).Ok?
    requires forall r | r in chosen :: r in PlanFor(items, triggers, templates).value
    ensures PlanFor(Map(items, MoveItem(unlink)), Map(triggers, MoveTrigger(unlink, chosen)), templates) ==
            Ok(Filter(PlanFor(items, triggers, templates).value, NotIn(chosen)))
    ensures triggers != []
  {
    hide FindPair, CheckItems, MakeContext, MovedOn, ItemMovedOn, MoveTrigger, MoveItem, RenameMoved, RenameOf;
    var pairs := FindPairs(triggers, templates, SUFFIXES).value;
    PlanIsOfPairs(items, triggers, templates);
    forall t | t in triggers
      ensures MovedOn(templates, t, MoveTrigger(unlink, chosen)(t))
    {
      TriggerMoves(triggers, templates, pairs, unlink, chosen, t);
    }
    forall i | i in items
      ensures ItemMovedOn(templates.items, FlatMap(templates.triggers, OldItemIds), FlatMap(pairs, DesiredItemIds),
                          i, MoveItem(unlink)(i))
    {
      ItemMoves(templates.items, FlatMap(templates.triggers, OldItemIds), FlatMap(pairs, DesiredItemIds), unlink, i);
    }
    PlanAfterMove(items, triggers, templates, MoveItem(unlink), MoveTrigger(unlink, chosen));
    forall p | p in pairs
      ensures RenameMoved(MoveTrigger(unlink, chosen))(p) == Filter(RenameOf(p), NotIn(chosen))
    {
      PairAfterMove(triggers, templates, pairs, unlink, chosen, p);
    }
    FilterOfFlatMap(pairs, RenameOf, NotIn(chosen), RenameMoved(MoveTrigger(unlink, chosen)));
  }

  /** An accepted plan has found its pairs among the host's triggers. */
  lemma PlanIsOfPairs(items: seq<Item>, triggers: seq<Trigger>, templates: Templates)
    requires DistinctBy(triggers, TriggerIdOf) && PlanFor(items, triggers, templates).Ok?
    ensures var pairs := FindPairs(triggers, templates, SUFFIXES).value;
            && Found(triggers, pairs) && pairs != []
            && PlanFor(items, triggers, templates) == Ok(FlatMap(pairs, RenameOf))
    ensures triggers != []
  {
    hide FindPair, CheckItems;
    var same: Trigger -> Trigger := (t: Trigger) => t;
    FindMovedPairs(triggers, templates, SUFFIXES, same);
    var pairs := FindPairs(triggers, templates, SUFFIXES).value;
    assert pairs[0] in pairs;
    MovedRenames(templates, pairs, MakeContext(items, pairs, templates), same);
  }

  /** Resumption.  After any part of an accepted plan - with or without its
      unlink, with any of its renames - planning again is accepted and asks for
      exactly the steps that were left out. */
  lemma PlanIsResumable(s: State, templates: Templates, unlink: bool, chosen: seq<Rename>)
    requires DistinctBy(s.triggers, TriggerIdOf)
    requires Migration(s, templates).Ok? && PartOf(Migration(s, templates).value, unlink, chosen)
    ensures var plan := Migration(s, templates).value;
            Migration(Applied(s, unlink, chosen), templates) ==
            Ok(Plan(plan.unlink && !unlink, Filter(plan.renames, NotIn(chosen)), plan.pending))
  {
    hide PlanFor, Applied;
    if s.host.None? {
      NothingToApply(s, chosen);
    } else {
      var h := s.host.value;
      var items, triggers := Filter(s.items, OnHost(h.hostId)), Filter(s.triggers, TriggerOnHost(h.hostId));
      OnHostAfterMove(s, unlink, chosen);
      MapAt(items, MoveItem(unlink));
      MapAt(triggers, MoveTrigger(unlink, chosen));
      DistinctOnHost(s, h.hostId);
      if !(h.parents == [] && items == [] && triggers == []) {
        RemainingRenames(items, triggers, templates, unlink, chosen);
      }
    }
  }

  lemma NothingToApply(s: State, chosen: seq<Rename>)
    requires s.host.None?
    ensures Applied(s, false, chosen).host.None? && Applied(s, true, chosen).host.None?
  {
  }

  /** Every step that is carried out leaves fewer steps to plan. */
  lemma StepsDecrease(s: State, templates: Templates, unlink: bool, chosen: seq<Rename>)
    requires DistinctBy(s.triggers, TriggerIdOf)
    requires Migration(s, templates).Ok? && PartOf(Migration(s, templates).value, unlink, chosen)
    requires unlink || chosen != []
    ensures Migration(Applied(s, unlink, chosen), templates).Ok?
    ensures Steps(Migration(Applied(s, unlink, chosen), templates).value) < Steps(Migration(s, templates).value)
  {
    hide Migration, Applied;
    PlanIsResumable(s, templates, unlink, chosen);
    var plan := Migration(s, templates).value;
    FilterShrinks(plan.renames, NotIn(chosen));
    if chosen != [] {
      assert chosen[0] in plan.renames && !NotIn(chosen)(chosen[0]);
    }
  }

  function Steps(plan: Plan): nat {
    (if plan.unlink then 1 else 0) + |plan.renames|
  }
}
