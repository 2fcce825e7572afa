/**
 * The order ledger: a store mapping session ids to carts, changed in place
 * by the order endpoints. A cart holds its order lines in insertion order and
 * a running total that always equals the sum of the lines' subtotals (in
 * integer cents, where rounding to two decimal digits is the identity).
 * Fresh session ids and timestamps come in as parameters.
 */
module OrderLedger {
  import opened Wrappers
  import opened Menu
  import opened Pricing

  /** A line snapshots the item's name and base price when it is added. */
  datatype OrderLine = OrderLine(
    itemId: string,
    itemName: string,
    basePrice: int,
    modifierIds: seq<string>,
    quantity: int,
    itemTotal: int,
    subtotal: int)

  datatype Cart = Cart(items: seq<OrderLine>, total: int, createdAt: string)

  /** The failures the endpoints report, in place of HTTP status codes and messages. */
  datatype LedgerError =
    | ItemIdRequired
    | ItemNotFound(itemId: string)
    | InvalidSession
    | ItemIndexRequired
    | ItemIndexOutOfRange
    | InternalError

  /** A field of a JSON request body: left out, sent as `null`, or sent with a value. */
  datatype Field<T> = Missing | Null | Given(value: T)

  /** `data.get(key, fallback)` for a field that is not `null`: the value sent, else the fallback. */
  function OrDefault<T>(f: Field<T>, fallback: T): T
    requires !f.Null?
  {
    if f.Given? then f.value else fallback
  }

  datatype Added = Added(sessionId: string, line: OrderLine, total: int)

  datatype Removed = Removed(line: OrderLine, total: int)

  /** What the order summary shows; `sessionId` and `createdAt` are absent for an unknown session. */
  datatype OrderView = OrderView(
    sessionId: Option<string>,
    items: seq<OrderLine>,
    total: int,
    itemCount: nat,
    createdAt: Option<string>)

  /** The sum of the lines' subtotals. */
  function Subtotals(lines: seq<OrderLine>): int
  {
    if |lines| == 0 then 0 else Subtotals(lines[..|lines| - 1]) + lines[|lines| - 1].subtotal
  }

  /** `list.pop(i)`: the list without its i-th element, the others in their order. */
  function RemoveAt(lines: seq<OrderLine>, i: nat): (r: seq<OrderLine>)
    requires i < |lines|
    ensures |r| == |lines| - 1
    ensures forall j :: 0 <= j < i ==> r[j] == lines[j]
    ensures forall j :: i <= j < |r| ==> r[j] == lines[j + 1]
    ensures multiset(r) + multiset{lines[i]} == multiset(lines)
  {
    assert lines == lines[..i] + [lines[i]] + lines[i + 1..];
    lines[..i] + lines[i + 1..]
  }

  /** `session_id and session_id in orders`: a non-empty id the store knows. */
  predicate IsKnown(orders: map<string, Cart>, sessionId: Option<string>)
  {
    sessionId.Some? && sessionId.value != "" && sessionId.value in orders
  }

  /** The session an add lands in: the given one when known, else the fresh one. */
  function SessionFor(orders: map<string, Cart>, sessionId: Option<string>, freshId: string): string
  {
    if IsKnown(orders, sessionId) then sessionId.value else freshId
  }

  /** The cart an add starts from: the known session's, else a new empty one. */
  function CartFor(orders: map<string, Cart>, sessionId: Option<string>, now: string): Cart
  {
    if IsKnown(orders, sessionId) then orders[sessionId.value] else Cart([], 0, now)
  }

  /** Writing a key twice leaves only the second value. */
  lemma UpdateTwice<K, V>(m: map<K, V>, k: K, a: V, b: V)
    ensures m[k := a][k := b] == m[k := b]
  {
  }

  /** The line the add endpoint builds: name and base price copied from the catalog, priced with its modifiers. */
  function PricedLine(catalog: Catalog, itemId: string, modifierIds: seq<string>, quantity: int): OrderLine
    requires itemId in catalog.items
  {
    var item := catalog.items[itemId];
    var price := ItemPrice(catalog, itemId, modifierIds);
    OrderLine(itemId, item.name, item.basePrice, modifierIds, quantity, price, price * quantity)
  }

  /** A cart with one more line and its subtotal added to the total. */
  function Appended(cart: Cart, line: OrderLine): Cart
  {
    Cart(cart.items + [line], cart.total + line.subtotal, cart.createdAt)
  }

  /** A line as the add endpoint builds it: a catalog item, priced by the catalog. */
  ghost predicate LineValid(catalog: Catalog, line: OrderLine)
  {
    && line.itemId in catalog.items
    && line.itemName == catalog.items[line.itemId].name
    && line.basePrice == catalog.items[line.itemId].basePrice
    && line.itemTotal == ItemPrice(catalog, line.itemId, line.modifierIds)
    && line.subtotal == line.itemTotal * line.quantity
  }

  /** The running total is the sum of the subtotals, and every line is well formed. */
  ghost predicate CartValid(catalog: Catalog, cart: Cart)
  {
    && cart.total == Subtotals(cart.items)
    && forall i :: 0 <= i < |cart.items| ==> LineValid(catalog, cart.items[i])
  }

  lemma SubtotalsAppend(lines: seq<OrderLine>, line: OrderLine)
    ensures Subtotals(lines + [line]) == Subtotals(lines) + line.subtotal
  {
    assert (lines + [line])[..|lines|] == lines;
  }

  /** Popping a line takes exactly its subtotal off the sum. */
  lemma {:induction false} SubtotalsRemoveAt(lines: seq<OrderLine>, i: nat)
    requires i < |lines|
    ensures Subtotals(RemoveAt(lines, i)) == Subtotals(lines) - lines[i].subtotal
    decreases |lines|
  {
    var n := |lines| - 1;
    var front := lines[..n];
    assert Subtotals(lines) == Subtotals(front) + lines[n].subtotal;
    if i < n {
      SubtotalsRemoveAt(front, i);
      var rest := RemoveAt(front, i);
      assert RemoveAt(lines, i) == rest + [lines[n]];
      SubtotalsAppend(rest, lines[n]);
    } else {
      assert RemoveAt(lines, i) == front;
    }
  }

  /** Appending a well-formed line keeps a cart valid when the total grows by its subtotal. */
  lemma AppendKeepsCartValid(catalog: Catalog, cart: Cart, line: OrderLine)
    requires CartValid(catalog, cart) && LineValid(catalog, line)
    ensures CartValid(catalog, Appended(cart, line))
  {
    SubtotalsAppend(cart.items, line);
    var items := cart.items + [line];
    forall i | 0 <= i < |items| ensures LineValid(catalog, items[i]) {
      if i < |cart.items| {
        assert items[i] == cart.items[i];
      } else {
        assert items[i] == line;
      }
    }
  }

  /** Popping a line keeps a cart valid when the total shrinks by its subtotal. */
  lemma RemoveKeepsCartValid(catalog: Catalog, cart: Cart, i: nat)
    requires CartValid(catalog, cart) && i < |cart.items|
    ensures CartValid(catalog, Cart(RemoveAt(cart.items, i), cart.total - cart.items[i].subtotal, cart.createdAt))
  {
    SubtotalsRemoveAt(cart.items, i);
    var items := RemoveAt(cart.items, i);
    forall j | 0 <= j < |items| ensures LineValid(catalog, items[j]) {
      if j < i {
        assert items[j] == cart.items[j];
      } else {
        assert items[j] == cart.items[j + 1];
      }
    }
  }

  class Ledger {
    const catalog: Catalog
    var orders: map<string, Cart>

    ghost predicate Valid()
      reads this
    {
      forall sid :: sid in orders ==> CartValid(catalog, orders[sid])
    }

    constructor (menu: Catalog)
      ensures Valid()
      ensures catalog == menu && orders == map[]
    {
      catalog := menu;
      orders := map[];
    }

    /** `get_or_create_session`: a known id is kept; anything else gets a fresh, empty cart. */
    method GetOrCreateSession(sessionId: Option<string>, freshId: string, now: string) returns (sid: string)
      requires Valid()
      requires freshId != "" && freshId !in orders
      modifies this
      ensures Valid()
      ensures IsKnown(old(orders), sessionId) ==> sid == sessionId.value && orders == old(orders)
      ensures !IsKnown(old(orders), sessionId) ==>
                sid == freshId && orders == old(orders)[freshId := Cart([], 0, now)]
      ensures IsKnown(orders, Some(sid))
    {
      if sessionId.Some? && sessionId.value != "" && sessionId.value in orders {
        return sessionId.value;
      }
      sid := freshId;
      orders := orders[sid := Cart([], 0, now)];
    }

    /**
     * `add_to_order`: the item id is checked before any session is touched.
     * Left-out modifier ids and quantity default to `[]` and 1; one sent as
     * `null` fails inside the pricing step, after the session was resolved
     * or created, and the request ends with the internal-error reply.
     * Otherwise the line is appended and its subtotal added to the total.
     * The quantity is not checked.
     */
    method AddToOrder(sessionId: Option<string>, itemId: Option<string>, modifierIds: Field<seq<string>>,
                      quantity: Field<int>, freshId: string, now: string) returns (r: Result<Added, LedgerError>)
      requires Valid()
      requires freshId != "" && freshId !in orders
      modifies this
      ensures Valid()
      ensures (itemId.None? || itemId.value == "") ==> r == Err(ItemIdRequired) && orders == old(orders)
      ensures itemId.Some? && itemId.value != "" && itemId.value !in catalog.items ==>
                r == Err(ItemNotFound(itemId.value)) && orders == old(orders)
      ensures itemId.Some? && itemId.value != "" && itemId.value in catalog.items && (modifierIds.Null? || quantity.Null?) ==>
                && r == Err(InternalError)
                && orders == old(orders)[SessionFor(old(orders), sessionId, freshId) := CartFor(old(orders), sessionId, now)]
      ensures itemId.Some? && itemId.value != "" && itemId.value in catalog.items && !modifierIds.Null? && !quantity.Null? ==>
                && r.Ok?
                && var sid := SessionFor(old(orders), sessionId, freshId);
                   && r.value.sessionId == sid
                   && r.value.line == PricedLine(catalog, itemId.value, OrDefault(modifierIds, []), OrDefault(quantity, 1))
                   && orders == old(orders)[sid := Appended(CartFor(old(orders), sessionId, now), r.value.line)]
                   && r.value.total == orders[sid].total
    {
      if itemId.None? || itemId.value == "" {
        return Err(ItemIdRequired);
      }
      var id := itemId.value;
      if id !in catalog.items {
        return Err(ItemNotFound(id));
      }
      var item := catalog.items[id];
      ghost var start := orders;
      var sid := GetOrCreateSession(sessionId, freshId, now);
      ghost var cart := orders[sid];
      assert sid == SessionFor(start, sessionId, freshId) && cart == CartFor(start, sessionId, now);
      if modifierIds.Null? || quantity.Null? {
        if IsKnown(start, sessionId) {
          assert start[sid := cart] == start;
        }
        return Err(InternalError);
      }
      var mods := OrDefault(modifierIds, []);
      var qty := OrDefault(quantity, 1);
      var price := CalculateItemPrice(catalog, id, mods);
      var line := OrderLine(id, item.name, item.basePrice, mods, qty, price, price * qty);
      assert line == PricedLine(catalog, id, mods, qty);
      var total := AppendLine(sid, line);
      if !IsKnown(start, sessionId) {
        UpdateTwice(start, sid, cart, Appended(cart, line));
      }
      r := Ok(Added(sid, line, total));
    }

    /** Appends a priced line to a known session's cart and adds its subtotal to the total. */
    method AppendLine(sid: string, line: OrderLine) returns (total: int)
      requires Valid() && sid in orders && LineValid(catalog, line)
      modifies this
      ensures Valid()
      ensures orders == old(orders)[sid := Appended(old(orders)[sid], line)]
      ensures total == orders[sid].total
    {
      var cart := orders[sid];
      var cart' := Appended(cart, line);
      AppendKeepsCartValid(catalog, cart, line);
      ghost var before := orders;
      orders := orders[sid := cart'];
      assert Valid() by {
        forall k | k in orders ensures CartValid(catalog, orders[k]) {
          if k != sid {
            assert orders[k] == before[k];
          }
        }
      }
      total := cart'.total;
    }

    /** `get_order_summary`: an unknown session shows an empty order and creates nothing. */
    function Summary(sessionId: Option<string>): (v: OrderView)
      reads this
      requires Valid()
      ensures !IsKnown(orders, sessionId) ==> v == OrderView(None, [], 0, 0, None)
      ensures IsKnown(orders, sessionId) ==>
                && v.sessionId == sessionId
                && v.items == orders[sessionId.value].items
                && v.itemCount == |v.items|
                && v.total == Subtotals(v.items)
                && v.createdAt == Some(orders[sessionId.value].createdAt)
    {
      if !IsKnown(orders, sessionId) then OrderView(None, [], 0, 0, None)
      else
        var cart := orders[sessionId.value];
        OrderView(sessionId, cart.items, cart.total, |cart.items|, Some(cart.createdAt))
    }

    /** `clear_order`: deletes a known session; always succeeds. */
    method ClearOrder(sessionId: Option<string>)
      requires Valid()
      modifies this
      ensures Valid()
      ensures orders == if IsKnown(old(orders), sessionId) then old(orders) - {sessionId.value} else old(orders)
    {
      if sessionId.Some? && sessionId.value != "" && sessionId.value in orders {
        orders := orders - {sessionId.value};
      }
    }

    /**
     * `remove_from_order`: the session is checked first, then that an index
     * is given and non-negative, then that it is in range; then the line is
     * popped and its subtotal taken off the total.
     */
    method RemoveFromOrder(sessionId: Option<string>, index: Option<int>) returns (r: Result<Removed, LedgerError>)
      requires Valid()
      modifies this
      ensures Valid()
      ensures !IsKnown(old(orders), sessionId) ==> r == Err(InvalidSession) && orders == old(orders)
      ensures IsKnown(old(orders), sessionId) && (index.None? || index.value < 0) ==>
                r == Err(ItemIndexRequired) && orders == old(orders)
      ensures IsKnown(old(orders), sessionId) && index.Some? && index.value >= |old(orders)[sessionId.value].items| ==>
                r == Err(ItemIndexOutOfRange) && orders == old(orders)
      ensures IsKnown(old(orders), sessionId) && index.Some? && 0 <= index.value < |old(orders)[sessionId.value].items| ==>
                var sid := sessionId.value;
                var cart := old(orders)[sid];
                var line := cart.items[index.value];
                && r == Ok(Removed(line, cart.total - line.subtotal))
                && orders == old(orders)[sid := Cart(RemoveAt(cart.items, index.value), cart.total - line.subtotal, cart.createdAt)]
    {
      if !(sessionId.Some? && sessionId.value != "" && sessionId.value in orders) {
        return Err(InvalidSession);
      }
      if index.None? || index.value < 0 {
        return Err(ItemIndexRequired);
      }
      var sid := sessionId.value;
      var cart := orders[sid];
      var i := index.value;
      if i >= |cart.items| {
        return Err(ItemIndexOutOfRange);
      }
      var line := cart.items[i];
      RemoveKeepsCartValid(catalog, cart, i);
      var rest := RemoveAt(cart.items, i);
      ghost var before := orders;
      orders := orders[sid := Cart(rest, cart.total - line.subtotal, cart.createdAt)];
      assert Valid() by {
        forall k | k in orders ensures CartValid(catalog, orders[k]) {
          if k != sid {
            assert orders[k] == before[k];
          }
        }
      }
      r := Ok(Removed(line, cart.total - line.subtotal));
    }
  }

  // ---------------------------------------------------------------------------
  // A walk through the order flow on a two-item breakfast menu: two pancakes
  // (8.00 each) make a 16.00 order whose summary shows that one line; an
  // omelet (12.00) brings it to 28.00; removing line 0 takes the pancakes
  // off and leaves 12.00; clearing the session leaves an empty summary.

  const Pancakes := CatalogItem("Pancakes", "Breakfast", 800, "", true, Modifiers([], []))
  const Omelet := CatalogItem("Omelet", "Breakfast", 1200, "", true, Modifiers([], []))
  const BreakfastMenu := Catalog(["P1", "O1"], map["P1" := Pancakes, "O1" := Omelet])
  const TwoPancakes := OrderLine("P1", "Pancakes", 800, [], 2, 800, 1600)
  const OneOmelet := OrderLine("O1", "Omelet", 1200, [], 1, 1200, 1200)

  /** Neither item has modifiers, so each line is priced at its base price. */
  lemma BreakfastPriced()
    ensures PricedLine(BreakfastMenu, "P1", [], 2) == TwoPancakes
    ensures PricedLine(BreakfastMenu, "O1", [], 1) == OneOmelet
  {
    assert AllGroups(Pancakes) == [] && AllGroups(Omelet) == [];
    assert ItemPrice(BreakfastMenu, "P1", []) == 800;
    assert ItemPrice(BreakfastMenu, "O1", []) == 1200;
  }

  method AddTwoPancakes(ledger: Ledger) returns (total: int)
    requires ledger.Valid() && ledger.catalog == BreakfastMenu && ledger.orders == map[]
    modifies ledger
    ensures ledger.Valid() && ledger.orders == map["s1" := Cart([TwoPancakes], 1600, "t0")]
    ensures total == 1600
  {
    BreakfastPriced();
    var a := ledger.AddToOrder(None, Some("P1"), Given([]), Given(2), "s1", "t0");
    assert a.value.line == TwoPancakes;
    assert Appended(Cart([], 0, "t0"), TwoPancakes) == Cart([TwoPancakes], 1600, "t0");
    total := a.value.total;
  }

  method AddOmelet(ledger: Ledger) returns (total: int)
    requires ledger.Valid() && ledger.catalog == BreakfastMenu
    requires ledger.orders == map["s1" := Cart([TwoPancakes], 1600, "t0")]
    modifies ledger
    ensures ledger.Valid() && ledger.orders == map["s1" := Cart([TwoPancakes, OneOmelet], 2800, "t0")]
    ensures total == 2800
  {
    BreakfastPriced();
    ghost var start := ledger.orders;
    assert "s2" != "s1" by { assert "s2"[1] != "s1"[1]; }
    assert IsKnown(start, Some("s1"));
    var b := ledger.AddToOrder(Some("s1"), Some("O1"), Given([]), Given(1), "s2", "t1");
    assert b.value.line == OneOmelet;
    var after := Cart([TwoPancakes, OneOmelet], 2800, "t0");
    assert Appended(Cart([TwoPancakes], 1600, "t0"), OneOmelet) == after by {
      assert [TwoPancakes] + [OneOmelet] == [TwoPancakes, OneOmelet];
    }
    UpdateTwice(map[], "s1", Cart([TwoPancakes], 1600, "t0"), after);
    total := b.value.total;
  }

  method RemoveFirstLine(ledger: Ledger) returns (removed: OrderLine, total: int)
    requires ledger.Valid()
    requires ledger.orders == map["s1" := Cart([TwoPancakes, OneOmelet], 2800, "t0")]
    modifies ledger
    ensures ledger.Valid() && ledger.orders == map["s1" := Cart([OneOmelet], 1200, "t0")]
    ensures removed == TwoPancakes && total == 1200
  {
    assert RemoveAt([TwoPancakes, OneOmelet], 0) == [OneOmelet];
    var after := Cart([OneOmelet], 1200, "t0");
    UpdateTwice(map[], "s1", Cart([TwoPancakes, OneOmelet], 2800, "t0"), after);
    var c := ledger.RemoveFromOrder(Some("s1"), Some(0));
    assert c == Ok(Removed(TwoPancakes, 1200));
    removed := c.value.line;
    total := c.value.total;
  }

  method BreakfastOrderScenario()
    returns (first: int, firstView: OrderView, second: int, removed: OrderLine, afterRemove: int, cleared: OrderView)
    ensures first == 1600 && firstView == OrderView(Some("s1"), [TwoPancakes], 1600, 1, Some("t0"))
    ensures second == 2800
    ensures removed == TwoPancakes && afterRemove == 1200
    ensures cleared == OrderView(None, [], 0, 0, None)
  {
    var ledger := new Ledger(BreakfastMenu);
    first := AddTwoPancakes(ledger);
    firstView := ledger.Summary(Some("s1"));
    second := AddOmelet(ledger);
    removed, afterRemove := RemoveFirstLine(ledger);
    ledger.ClearOrder(Some("s1"));
    cleared := ledger.Summary(Some("s1"));
  }
}
