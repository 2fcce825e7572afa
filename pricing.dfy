/**
 * `calculate_item_price`: the base price of an item plus, for every
 * requested modifier id (each occurrence counted), the price of the first
 * option carrying that id in each of the item's groups, required groups
 * first. An unknown item is priced 0. Amounts are integer cents, so the
 * final rounding to two decimal digits is the identity.
 */
module Pricing {
  import opened Menu

  /** What one group charges for `id`: its first option with that id, or nothing. */
  function FirstOptionPrice(options: seq<ModifierOption>, id: string): (p: int)
    ensures (forall j :: 0 <= j < |options| ==> options[j].id != id) ==> p == 0
    ensures forall j ::
              (0 <= j < |options| && options[j].id == id && forall k :: 0 <= k < j ==> options[k].id != id)
              ==> p == options[j].price
  {
    if |options| == 0 then 0
    else if options[0].id == id then options[0].price
    else FirstOptionPrice(options[1..], id)
  }

  /** What one modifier id adds: the sum of what every group charges for it. */
  function GroupsPrice(groups: seq<ModifierGroup>, id: string): int
  {
    if |groups| == 0 then 0
    else GroupsPrice(groups[..|groups| - 1], id) + FirstOptionPrice(groups[|groups| - 1].options, id)
  }

  /** What a list of modifier ids adds, each occurrence counted. */
  function ModifiersPrice(groups: seq<ModifierGroup>, ids: seq<string>): int
  {
    if |ids| == 0 then 0
    else ModifiersPrice(groups, ids[..|ids| - 1]) + GroupsPrice(groups, ids[|ids| - 1])
  }

  /** The price the menu service quotes for an item with modifiers. */
  function ItemPrice(catalog: Catalog, itemId: string, modifierIds: seq<string>): int
  {
    if itemId in catalog.items then
      var item := catalog.items[itemId];
      item.basePrice + ModifiersPrice(AllGroups(item), modifierIds)
    else 0
  }

  /** The nested scan of the source: ids, then groups, then options up to the first match. */
  method CalculateItemPrice(catalog: Catalog, itemId: string, modifierIds: seq<string>) returns (price: int)
    ensures price == ItemPrice(catalog, itemId, modifierIds)
    ensures itemId !in catalog.items ==> price == 0
  {
    if itemId !in catalog.items {
      return 0;
    }
    var item := catalog.items[itemId];
    var groups := item.modifiers.required + item.modifiers.optional;
    var total := item.basePrice;
    var i := 0;
    while i < |modifierIds|
      invariant 0 <= i <= |modifierIds|
      invariant total == item.basePrice + ModifiersPrice(groups, modifierIds[..i])
    {
      var id := modifierIds[i];
      var g := 0;
      while g < |groups|
        invariant 0 <= g <= |groups|
        invariant total == item.basePrice + ModifiersPrice(groups, modifierIds[..i]) + GroupsPrice(groups[..g], id)
      {
        var options := groups[g].options;
        ghost var before := total;
        var o := 0;
        while o < |options|
          invariant 0 <= o <= |options|
          invariant total == before
          invariant FirstOptionPrice(options[o..], id) == FirstOptionPrice(options, id)
        {
          if options[o].id == id {
            total := total + options[o].price;
            break;
          }
          assert options[o..][1..] == options[o + 1..];
          o := o + 1;
        }
        assert total == before + FirstOptionPrice(options, id);
        GroupsPriceStep(groups, g, id);
        g := g + 1;
      }
      assert groups[..g] == groups;
      ModifiersPriceStep(groups, modifierIds, i);
      i := i + 1;
    }
    assert modifierIds[..i] == modifierIds;
    price := total;
  }

  lemma GroupsPriceStep(groups: seq<ModifierGroup>, g: nat, id: string)
    requires g < |groups|
    ensures GroupsPrice(groups[..g + 1], id) == GroupsPrice(groups[..g], id) + FirstOptionPrice(groups[g].options, id)
  {
    assert groups[..g + 1][..g] == groups[..g];
  }

  lemma ModifiersPriceStep(groups: seq<ModifierGroup>, ids: seq<string>, i: nat)
    requires i < |ids|
    ensures ModifiersPrice(groups, ids[..i + 1]) == ModifiersPrice(groups, ids[..i]) + GroupsPrice(groups, ids[i])
  {
    assert ids[..i + 1][..i] == ids[..i];
  }

  /** Modifier ids are charged independently: a list's price is the sum of its halves'. */
  lemma {:induction false} ModifiersPriceAppend(groups: seq<ModifierGroup>, a: seq<string>, b: seq<string>)
    ensures ModifiersPrice(groups, a + b) == ModifiersPrice(groups, a) + ModifiersPrice(groups, b)
  {
    if |b| == 0 {
      assert a + b == a;
    } else {
      var b' := b[..|b| - 1];
      assert (a + b)[..|a + b| - 1] == a + b';
      ModifiersPriceAppend(groups, a, b');
    }
  }

  /** The price of one id at position j, taken out of the list. */
  lemma ModifiersPriceSplit(groups: seq<ModifierGroup>, ids: seq<string>, j: nat)
    requires j < |ids|
    ensures ModifiersPrice(groups, ids) ==
            ModifiersPrice(groups, ids[..j] + ids[j + 1..]) + GroupsPrice(groups, ids[j])
  {
    assert ids == ids[..j] + [ids[j]] + ids[j + 1..];
    ModifiersPriceAppend(groups, ids[..j] + [ids[j]], ids[j + 1..]);
    ModifiersPriceAppend(groups, ids[..j], [ids[j]]);
    ModifiersPriceAppend(groups, ids[..j], ids[j + 1..]);
    assert ModifiersPrice(groups, [ids[j]]) == GroupsPrice(groups, ids[j]) by {
      assert [ids[j]][..0] == [];
    }
  }

  /** The order in which modifier ids are requested does not change the price. */
  lemma {:induction false} ModifiersPriceOrderIrrelevant(groups: seq<ModifierGroup>, a: seq<string>, b: seq<string>)
    requires multiset(a) == multiset(b)
    ensures ModifiersPrice(groups, a) == ModifiersPrice(groups, b)
    decreases |a|
  {
    if |a| == 0 {
      assert |b| == |multiset(b)| == 0;
    } else {
      var n := |a| - 1;
      var x := a[n];
      assert x in multiset(b) by { assert a == a[..n] + [x]; }
      var j :| 0 <= j < |b| && b[j] == x;
      var b' := b[..j] + b[j + 1..];
      assert b == b[..j] + [x] + b[j + 1..];
      assert a == a[..n] + [x];
      assert multiset(a) == multiset(a[..n]) + multiset{x};
      assert multiset(b) == multiset(b[..j]) + multiset{x} + multiset(b[j + 1..]);
      assert multiset(b') == multiset(b[..j]) + multiset(b[j + 1..]);
      assert multiset(a[..n]) == multiset(a) - multiset{x};
      assert multiset(b') == multiset(b) - multiset{x};
      ModifiersPriceOrderIrrelevant(groups, a[..n], b');
      ModifiersPriceSplit(groups, b, j);
    }
  }

  /** Ids that no option of any group carries add nothing. */
  lemma {:induction false} UnmatchedIdsAddNothing(groups: seq<ModifierGroup>, ids: seq<string>)
    requires forall g, o, k :: 0 <= g < |groups| && 0 <= o < |groups[g].options| && 0 <= k < |ids| ==>
               groups[g].options[o].id != ids[k]
    ensures ModifiersPrice(groups, ids) == 0
  {
    if |ids| > 0 {
      UnmatchedIdsAddNothing(groups, ids[..|ids| - 1]);
      UnmatchedIdAddsNothing(groups, ids[|ids| - 1]);
    }
  }

  lemma {:induction false} UnmatchedIdAddsNothing(groups: seq<ModifierGroup>, id: string)
    requires forall g, o :: 0 <= g < |groups| && 0 <= o < |groups[g].options| ==> groups[g].options[o].id != id
    ensures GroupsPrice(groups, id) == 0
  {
    if |groups| > 0 {
      UnmatchedIdAddsNothing(groups[..|groups| - 1], id);
    }
  }

  /** The charge for one id over a concatenation of group lists is the sum of both. */
  lemma {:induction false} GroupsPriceAppend(g1: seq<ModifierGroup>, g2: seq<ModifierGroup>, id: string)
    ensures GroupsPrice(g1 + g2, id) == GroupsPrice(g1, id) + GroupsPrice(g2, id)
  {
    if |g2| == 0 {
      assert g1 + g2 == g1;
    } else {
      assert (g1 + g2)[..|g1 + g2| - 1] == g1 + g2[..|g2| - 1];
      GroupsPriceAppend(g1, g2[..|g2| - 1], id);
    }
  }

  /**
   * The `break` leaves only the option scan, so an id offered by a required
   * group and by an optional group is charged by both.
   */
  lemma IdChargedPerGroup(catalog: Catalog, itemId: string, id: string)
    requires itemId in catalog.items
    ensures var item := catalog.items[itemId];
      ItemPrice(catalog, itemId, [id]) ==
      item.basePrice + GroupsPrice(item.modifiers.required, id) + GroupsPrice(item.modifiers.optional, id)
  {
    var item := catalog.items[itemId];
    GroupsPriceAppend(item.modifiers.required, item.modifiers.optional, id);
    assert ModifiersPrice(AllGroups(item), [id]) == GroupsPrice(AllGroups(item), id) by {
      assert [id][..0] == [];
    }
  }

  predicate NonNegativeOptions(groups: seq<ModifierGroup>)
  {
    forall g, o :: 0 <= g < |groups| && 0 <= o < |groups[g].options| ==> groups[g].options[o].price >= 0
  }

  /** With non-negative option prices, modifiers never lower the price below the base price. */
  lemma {:induction false} PriceAtLeastBase(catalog: Catalog, itemId: string, ids: seq<string>)
    requires itemId in catalog.items
    requires NonNegativeOptions(AllGroups(catalog.items[itemId]))
    ensures ItemPrice(catalog, itemId, ids) >= catalog.items[itemId].basePrice
  {
    ModifiersPriceNonNegative(AllGroups(catalog.items[itemId]), ids);
  }

  lemma {:induction false} ModifiersPriceNonNegative(groups: seq<ModifierGroup>, ids: seq<string>)
    requires NonNegativeOptions(groups)
    ensures ModifiersPrice(groups, ids) >= 0
  {
    if |ids| > 0 {
      ModifiersPriceNonNegative(groups, ids[..|ids| - 1]);
      GroupsPriceNonNegative(groups, ids[|ids| - 1]);
    }
  }

  lemma {:induction false} GroupsPriceNonNegative(groups: seq<ModifierGroup>, id: string)
    requires NonNegativeOptions(groups)
    ensures GroupsPrice(groups, id) >= 0
  {
    if |groups| > 0 {
      GroupsPriceNonNegative(groups[..|groups| - 1], id);
      OptionPriceNonNegative(groups[|groups| - 1].options, id);
    }
  }

  lemma {:induction false} OptionPriceNonNegative(options: seq<ModifierOption>, id: string)
    requires forall o :: 0 <= o < |options| ==> options[o].price >= 0
    ensures FirstOptionPrice(options, id) >= 0
  {
    if |options| > 0 && options[0].id != id {
      OptionPriceNonNegative(options[1..], id);
    }
  }
}
