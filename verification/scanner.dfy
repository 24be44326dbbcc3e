/**
 * `find_providers`: a visit of a whole file that, after visiting a trait's
 * contents, keeps the trait's specification when the trait carries the
 * `tracer` marker and `from_trait` accepts it. Rejected candidates are dropped.
 */
module Scanner {
  import opened Results
  import opened Syntax
  import opened Provider

  /** What the visitor appends for trait `t` itself, after its contents have been visited. */
  function Harvested(env: Collaborators, t: ItemTrait): (r: seq<ProviderSpecification>)
    ensures |r| <= 1
    ensures |r| == 1 <==> IsMarked(t) && FromTrait(env, t).Ok?
    ensures |r| == 1 ==> r[0].itemTrait == t && Consistent(env, r[0])
  {
    if IsMarked(t) then
      match FromTrait(env, t)
      case Ok(p) => [p]
      case Err(_) => []
    else []
  }

  // The visitor, threading the list of providers found so far through the tree.

  function VisitItems(env: Collaborators, items: seq<Item>, acc: seq<ProviderSpecification>): (r: seq<ProviderSpecification>)
    ensures acc <= r
    decreases items
  {
    if |items| == 0 then acc else VisitItems(env, items[1..], VisitItem(env, items[0], acc))
  }

  function VisitItem(env: Collaborators, item: Item, acc: seq<ProviderSpecification>): (r: seq<ProviderSpecification>)
    ensures acc <= r
    decreases item
  {
    match item
    case Trait(t) => VisitItemTrait(env, t, acc)
    case Nested(_, items) => VisitItems(env, items, acc)
    case Leaf(_) => acc
  }

  /** `visit_item_trait`: the default visit of the trait's contents first, then the marker test. */
  function VisitItemTrait(env: Collaborators, t: ItemTrait, acc: seq<ProviderSpecification>): (r: seq<ProviderSpecification>)
    ensures acc <= r
    ensures IsMarked(t) && FromTrait(env, t).Ok? ==> |r| > |acc| && r[|r| - 1] == FromTrait(env, t).value
    decreases t
  {
    var inner := VisitTraitItems(env, t.items, acc);
    inner + Harvested(env, t)
  }

  function VisitTraitItems(env: Collaborators, members: seq<TraitItem>, acc: seq<ProviderSpecification>): (r: seq<ProviderSpecification>)
    ensures acc <= r
    decreases members
  {
    if |members| == 0 then acc
    else VisitTraitItems(env, members[1..], VisitItems(env, members[0].nested, acc))
  }

  // The reference definition: every trait of the file, nested traits before
  // the trait enclosing them, then a filter over that list.

  function TraitsInItems(items: seq<Item>): seq<ItemTrait>
    decreases items
  {
    if |items| == 0 then [] else TraitsInItem(items[0]) + TraitsInItems(items[1..])
  }

  function TraitsInItem(item: Item): seq<ItemTrait>
    decreases item
  {
    match item
    case Trait(t) => TraitsInTrait(t)
    case Nested(_, items) => TraitsInItems(items)
    case Leaf(_) => []
  }

  function TraitsInTrait(t: ItemTrait): seq<ItemTrait>
    decreases t
  {
    TraitsInMembers(t.items) + [t]
  }

  function TraitsInMembers(members: seq<TraitItem>): seq<ItemTrait>
    decreases members
  {
    if |members| == 0 then []
    else TraitsInItems(members[0].nested) + TraitsInMembers(members[1..])
  }

  /** The specifications of the marked traits that `from_trait` accepts, in list order. */
  function Harvest(env: Collaborators, ts: seq<ItemTrait>): (r: seq<ProviderSpecification>)
    ensures |r| <= |ts|
  {
    if |ts| == 0 then [] else Harvested(env, ts[0]) + Harvest(env, ts[1..])
  }

  lemma {:induction false} HarvestAppend(env: Collaborators, a: seq<ItemTrait>, b: seq<ItemTrait>)
    ensures Harvest(env, a + b) == Harvest(env, a) + Harvest(env, b)
    decreases |a|
  {
    if |a| == 0 {
      assert a + b == b;
    } else {
      assert (a + b)[0] == a[0];
      assert (a + b)[1..] == a[1..] + b;
      HarvestAppend(env, a[1..], b);
    }
  }

  /** Some marked trait of the list builds `s`. */
  predicate BuiltFrom(env: Collaborators, ts: seq<ItemTrait>, s: ProviderSpecification) {
    exists i :: 0 <= i < |ts| && IsMarked(ts[i]) && FromTrait(env, ts[i]) == Ok(s)
  }

  /** A specification is harvested from a list exactly when some marked trait of the list builds it. */
  lemma {:induction false} HarvestMembers(env: Collaborators, ts: seq<ItemTrait>, s: ProviderSpecification)
    ensures s in Harvest(env, ts) <==> BuiltFrom(env, ts, s)
    decreases |ts|
  {
    if |ts| > 0 {
      HarvestMembers(env, ts[1..], s);
      if s in Harvest(env, ts[1..]) {
        var i :| 0 <= i < |ts[1..]| && IsMarked(ts[1..][i]) && FromTrait(env, ts[1..][i]) == Ok(s);
        assert ts[i + 1] == ts[1..][i];
      }
      if exists i :: 0 <= i < |ts| && IsMarked(ts[i]) && FromTrait(env, ts[i]) == Ok(s) {
        var i :| 0 <= i < |ts| && IsMarked(ts[i]) && FromTrait(env, ts[i]) == Ok(s);
        if i > 0 {
          assert ts[1..][i - 1] == ts[i];
        }
      }
    }
  }

  // The visitor computes the reference definition, appended to what it was given.

  lemma {:induction false} VisitItemsHarvests(env: Collaborators, items: seq<Item>, acc: seq<ProviderSpecification>)
    ensures VisitItems(env, items, acc) == acc + Harvest(env, TraitsInItems(items))
    decreases items
  {
    if |items| > 0 {
      VisitItemHarvests(env, items[0], acc);
      VisitItemsHarvests(env, items[1..], VisitItem(env, items[0], acc));
      HarvestAppend(env, TraitsInItem(items[0]), TraitsInItems(items[1..]));
    }
  }

  lemma {:induction false} VisitItemHarvests(env: Collaborators, item: Item, acc: seq<ProviderSpecification>)
    ensures VisitItem(env, item, acc) == acc + Harvest(env, TraitsInItem(item))
    decreases item
  {
    match item
    case Trait(t) => VisitItemTraitHarvests(env, t, acc);
    case Nested(_, items) => VisitItemsHarvests(env, items, acc);
    case Leaf(_) =>
  }

  lemma {:induction false} VisitItemTraitHarvests(env: Collaborators, t: ItemTrait, acc: seq<ProviderSpecification>)
    ensures VisitItemTrait(env, t, acc) == acc + Harvest(env, TraitsInTrait(t))
    decreases t
  {
    VisitTraitItemsHarvests(env, t.items, acc);
    HarvestAppend(env, TraitsInMembers(t.items), [t]);
    assert Harvest(env, [t]) == Harvested(env, t) by {
      assert [t][1..] == [];
    }
  }

  lemma {:induction false} VisitTraitItemsHarvests(env: Collaborators, members: seq<TraitItem>, acc: seq<ProviderSpecification>)
    ensures VisitTraitItems(env, members, acc) == acc + Harvest(env, TraitsInMembers(members))
    decreases members
  {
    if |members| > 0 {
      VisitItemsHarvests(env, members[0].nested, acc);
      VisitTraitItemsHarvests(env, members[1..], VisitItems(env, members[0].nested, acc));
      HarvestAppend(env, TraitsInItems(members[0].nested), TraitsInMembers(members[1..]));
    }
  }

  /** `find_providers`: visit the file with an empty list of providers. */
  function FindProviders(env: Collaborators, file: File): (r: seq<ProviderSpecification>)
    ensures r == Harvest(env, TraitsInItems(file.items))
  {
    VisitItemsHarvests(env, file.items, []);
    VisitItems(env, file.items, [])
  }

  /** Exactly the specifications `from_trait` builds from the file's marked traits are found. */
  lemma FindProvidersMembers(env: Collaborators, file: File, s: ProviderSpecification)
    ensures s in FindProviders(env, file) <==> BuiltFrom(env, TraitsInItems(file.items), s)
  {
    HarvestMembers(env, TraitsInItems(file.items), s);
  }

  /** Every specification found is a consistent record of a marked trait. */
  lemma FindProvidersSound(env: Collaborators, file: File, s: ProviderSpecification)
    requires s in FindProviders(env, file)
    ensures IsMarked(s.itemTrait) && Consistent(env, s)
  {
    FindProvidersMembers(env, file, s);
    var ts := TraitsInItems(file.items);
    var i :| 0 <= i < |ts| && IsMarked(ts[i]) && FromTrait(env, ts[i]) == Ok(s);
  }

  /** A file holding one marked trait that `from_trait` rejects, and no other trait, yields nothing. */
  lemma InvalidTraitDropped(env: Collaborators, t: ItemTrait)
    requires TraitsInMembers(t.items) == []
    requires FromTrait(env, t).Err?
    ensures FindProviders(env, File([], [Trait(t)])) == []
  {
    assert TraitsInItems([Trait(t)]) == [t] by {
      assert [Trait(t)][1..] == [];
      assert TraitsInItem(Trait(t)) == TraitsInTrait(t) == [t];
    }
    assert [t][1..] == [];
  }

  /** The enclosing trait's specification comes last, after those of the traits nested in it. */
  lemma EnclosingTraitLast(env: Collaborators, u: ItemTrait)
    requires IsMarked(u) && FromTrait(env, u).Ok?
    ensures FindProviders(env, File([], [Trait(u)])) == Harvest(env, TraitsInMembers(u.items)) + [FromTrait(env, u).value]
  {
    assert TraitsInItems([Trait(u)]) == TraitsInTrait(u) by {
      assert [Trait(u)][1..] == [];
    }
    HarvestAppend(env, TraitsInMembers(u.items), [u]);
    assert [u][1..] == [];
  }

  /**
   * A file with a marked generic trait followed by a marked one-method trait
   * whose method the extractor accepts: one provider, with one probe.
   */
  lemma GenericThenValidScenario(env: Collaborators, bad: ItemTrait, good: ItemTrait)
    requires IsMarked(bad) && HasTypeParam(bad) && TraitsInMembers(bad.items) == []
    requires IsMarked(good) && !HasGenerics(good) && |good.items| == 1 && good.items[0].Method?
    requires TraitsInItems(good.items[0].nested) == []
    requires env.fromMethod(good, good.items[0].decl).Ok?
    ensures |FindProviders(env, File([], [Trait(bad), Trait(good)]))| == 1
    ensures FindProviders(env, File([], [Trait(bad), Trait(good)]))[0].itemTrait == good
    ensures |FindProviders(env, File([], [Trait(bad), Trait(good)]))[0].probes| == 1
  {
    var items := [Trait(bad), Trait(good)];
    assert TraitsInMembers(good.items) == [] by {
      assert good.items[1..] == [];
    }
    assert TraitsInItem(Trait(bad)) == [bad];
    assert TraitsInItem(Trait(good)) == [good];
    assert TraitsInItems(items) == [bad, good] by {
      assert items[1..] == [Trait(good)];
      assert items[1..][1..] == [];
      assert TraitsInItems([Trait(good)]) == [good];
    }
    assert FromTrait(env, bad).Err?;
    assert FromTrait(env, good).Ok? by {
      assert AllSucceed(env, good, good.items);
    }
    assert Harvested(env, bad) == [];
    assert Harvested(env, good) == [FromTrait(env, good).value];
    assert Harvest(env, [good]) == [FromTrait(env, good).value] by {
      assert [good][1..] == [];
    }
    assert Harvest(env, [bad, good]) == [FromTrait(env, good).value] by {
      assert [bad, good][1..] == [good];
    }
  }
}
