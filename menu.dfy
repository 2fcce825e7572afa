/**
 * The read-only catalog that both the search engine and the order ledger
 * consult: item records keyed by an opaque id, each with its modifier
 * groups. Prices are in integer cents.
 */
module Menu {
  import opened Wrappers

  datatype ModifierOption = ModifierOption(id: string, name: string, price: int)

  /** A modifier group; `maxSelections` is present only when the group name states one. */
  datatype ModifierGroup = ModifierGroup(groupName: string, maxSelections: Option<nat>, options: seq<ModifierOption>)

  datatype Modifiers = Modifiers(required: seq<ModifierGroup>, optional: seq<ModifierGroup>)

  datatype CatalogItem = CatalogItem(
    name: string,
    category: string,
    basePrice: int,
    description: string,
    available: bool,
    modifiers: Modifiers)

  /**
   * The items dictionary of the menu data: `items` maps an id to its record
   * and `order` lists the ids in the dictionary's iteration (insertion) order.
   */
  datatype Catalog = Catalog(order: seq<string>, items: map<string, CatalogItem>) {

    ghost predicate Valid()
    {
      && (forall i, j :: 0 <= i < j < |order| ==> order[i] != order[j])
      && (forall k :: k in items <==> k in order)
    }
  }

  /** The groups a modifier id is looked up in: required ones, then optional ones. */
  function AllGroups(item: CatalogItem): seq<ModifierGroup>
  {
    item.modifiers.required + item.modifiers.optional
  }

  /** The index of the first occurrence of `id` in `order` (|order| when absent). */
  function Position(order: seq<string>, id: string): (p: nat)
    ensures p <= |order|
    ensures p < |order| <==> id in order
    ensures p < |order| ==> order[p] == id
    ensures forall i :: 0 <= i < p ==> order[i] != id
  {
    if |order| == 0 then 0
    else if order[0] == id then 0
    else 1 + Position(order[1..], id)
  }
}
