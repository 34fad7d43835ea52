/** The guest's cart (lib/cart-context.tsx): a list of cart lines keyed by
    id, the pure list transforms behind `addItem`, `removeItem` and
    `updateQuantity`, the item count, and the provider state with its
    order-number counter. */
module Cart {
  import opened Wrappers
  import Types
  import JsText

  /** A cart line without its quantity, as `addItem` receives it. */
  datatype ItemDetails = ItemDetails(
    id: string,
    name: string,
    description: string,
    image: Option<string>,
    price: Types.Cents,
    priceDescription: Option<string>,
    sectionName: string)

  datatype CartItem = CartItem(details: ItemDetails, quantity: int) {
    function Id(): string { details.id }
  }

  datatype CartStatus = Idle | OrderSubmitted

  function Ids(items: seq<CartItem>): (ids: seq<string>)
    ensures |ids| == |items|
    ensures forall i :: 0 <= i < |items| ==> ids[i] == items[i].Id()
  {
    seq(|items|, i requires 0 <= i < |items| => items[i].Id())
  }

  /** The cart's invariant: no two lines share an id, and every line holds
      at least one unit. */
  predicate WellFormed(items: seq<CartItem>) {
    && (forall i, j :: 0 <= i < j < |items| ==> items[i].Id() != items[j].Id())
    && (forall i :: 0 <= i < |items| ==> items[i].quantity >= 1)
  }

  /** `items.find(i => i.id === id)`, as a position. */
  function LineIndex(items: seq<CartItem>, id: string): (r: Option<nat>)
    ensures r.Some? ==> r.value < |items| && items[r.value].Id() == id
    ensures r.Some? ==> forall j :: 0 <= j < r.value ==> items[j].Id() != id
  {
    if items == [] then None
    else if items[0].Id() == id then Some(0)
    else match LineIndex(items[1..], id)
      case None => None
      case Some(k) => Some(k + 1)
  }

  /** The lookup finds a line exactly when the id is in the cart. */
  lemma {:induction false} LineIndexNone(items: seq<CartItem>, id: string)
    ensures LineIndex(items, id).None? <==> id !in Ids(items)
    decreases |items|
  {
    if items != [] {
      assert Ids(items) == [items[0].Id()] + Ids(items[1..]);
      LineIndexNone(items[1..], id);
    }
  }

  /** The quantity of the first line with this id, 0 when there is none
      (`items.find(…)?.quantity || 0`). */
  function QuantityOf(items: seq<CartItem>, id: string): int {
    match LineIndex(items, id)
    case None => 0
    case Some(k) => items[k].quantity
  }

  /** `items.reduce((total, item) => total + item.quantity, 0)`. */
  function TotalItems(items: seq<CartItem>): int {
    if items == [] then 0 else TotalItems(items[..|items| - 1]) + items[|items| - 1].quantity
  }

  function Incremented(items: seq<CartItem>, id: string): seq<CartItem> {
    seq(|items|, i requires 0 <= i < |items| =>
      if items[i].Id() == id then items[i].(quantity := items[i].quantity + 1) else items[i])
  }

  /** `addItem`: a known id gets one more unit on its line, an unknown id a
      new line with quantity 1 at the end. */
  function WithItemAdded(items: seq<CartItem>, item: ItemDetails): seq<CartItem> {
    if item.id in Ids(items) then Incremented(items, item.id) else items + [CartItem(item, 1)]
  }

  /** `removeItem`: every line with this id is dropped, the others keep
      their order. */
  function WithoutItem(items: seq<CartItem>, id: string): (r: seq<CartItem>)
    ensures |r| <= |items|
    ensures forall x :: x in r ==> x in items && x.Id() != id
    ensures forall x :: x in items && x.Id() != id ==> x in r
  {
    if items == [] then []
    else (if items[0].Id() == id then [] else [items[0]]) + WithoutItem(items[1..], id)
  }

  function WithQuantitySet(items: seq<CartItem>, id: string, quantity: int): seq<CartItem> {
    seq(|items|, i requires 0 <= i < |items| =>
      if items[i].Id() == id then items[i].(quantity := quantity) else items[i])
  }

  /** `updateQuantity`: a quantity of zero or less removes the id;
      otherwise the id's line takes the new quantity. */
  function WithQuantity(items: seq<CartItem>, id: string, quantity: int): seq<CartItem> {
    if quantity <= 0 then WithoutItem(items, id) else WithQuantitySet(items, id, quantity)
  }

  // ---------------------------------------------------------------------
  // Quantities seen through the first-match lookup
  // ---------------------------------------------------------------------

  /** Two carts with the same ids position by position find the same line
      for every id. */
  lemma {:induction false} LineIndexOfSameIds(a: seq<CartItem>, b: seq<CartItem>, id: string)
    requires |a| == |b|
    requires forall i :: 0 <= i < |a| ==> a[i].Id() == b[i].Id()
    ensures LineIndex(a, id) == LineIndex(b, id)
    decreases |a|
  {
    if a != [] && a[0].Id() != id {
      LineIndexOfSameIds(a[1..], b[1..], id);
    }
  }

  lemma {:induction false} LineIndexAppend(items: seq<CartItem>, x: CartItem, id: string)
    ensures LineIndex(items + [x], id)
         == if id in Ids(items) then LineIndex(items, id) else if x.Id() == id then Some(|items|) else None
    decreases |items|
  {
    if items == [] {
      assert [] + [x] == [x];
    } else {
      assert (items + [x])[1..] == items[1..] + [x];
      assert Ids(items) == [items[0].Id()] + Ids(items[1..]);
      if items[0].Id() != id {
        LineIndexAppend(items[1..], x, id);
      }
    }
  }

  lemma LineIndexOfCons(x: CartItem, rest: seq<CartItem>, id: string)
    ensures LineIndex([x] + rest, id)
         == if x.Id() == id then Some(0) else match LineIndex(rest, id) case None => None case Some(k) => Some(k + 1)
  {
    assert ([x] + rest)[1..] == rest;
  }

  lemma QuantityOfCons(x: CartItem, rest: seq<CartItem>, id: string)
    ensures QuantityOf([x] + rest, id) == if x.Id() == id then x.quantity else QuantityOf(rest, id)
  {
    var items := [x] + rest;
    assert items[0] == x && items[1..] == rest;
    if x.Id() != id {
      var found := LineIndex(rest, id);
      assert LineIndex(items, id) == if found.None? then None else Some(found.value + 1);
      if found.Some? {
        assert items[found.value + 1] == rest[found.value];
      }
    }
  }

  // ---------------------------------------------------------------------
  // addItem
  // ---------------------------------------------------------------------

  /** Adding keeps the cart well formed. */
  lemma AddItemWellFormed(items: seq<CartItem>, item: ItemDetails)
    requires WellFormed(items)
    ensures WellFormed(WithItemAdded(items, item))
  {
    if item.id !in Ids(items) {
      var r := items + [CartItem(item, 1)];
      forall i, j | 0 <= i < j < |r| ensures r[i].Id() != r[j].Id() {
        if j == |items| {
          assert Ids(items)[i] == items[i].Id();
        }
      }
    }
  }

  /** Adding raises the added id's quantity by exactly one and leaves every
      other id's quantity as it was. */
  lemma AddItemQuantities(items: seq<CartItem>, item: ItemDetails, other: string)
    ensures QuantityOf(WithItemAdded(items, item), other)
         == QuantityOf(items, other) + (if other == item.id then 1 else 0)
  {
    var r := WithItemAdded(items, item);
    if item.id in Ids(items) {
      LineIndexNone(items, item.id);
      LineIndexOfSameIds(items, r, other);
    } else {
      LineIndexAppend(items, CartItem(item, 1), other);
    }
  }

  /** A new id becomes the last line; a known id changes only its own
      line's quantity and keeps the cart's length and order. */
  lemma AddItemShape(items: seq<CartItem>, item: ItemDetails)
    ensures item.id !in Ids(items) ==> WithItemAdded(items, item) == items + [CartItem(item, 1)]
    ensures item.id in Ids(items) ==>
      var r := WithItemAdded(items, item);
      && |r| == |items|
      && Ids(r) == Ids(items)
      && (forall i :: 0 <= i < |items| && items[i].Id() != item.id ==> r[i] == items[i])
  {
  }

  lemma {:induction false} TotalItemsAppend(items: seq<CartItem>, x: CartItem)
    ensures TotalItems(items + [x]) == TotalItems(items) + x.quantity
  {
    assert (items + [x])[..|items|] == items;
  }

  lemma {:induction false} IncrementedAbsent(items: seq<CartItem>, id: string)
    requires id !in Ids(items)
    ensures Incremented(items, id) == items
  {
    var r := Incremented(items, id);
    forall i | 0 <= i < |items| ensures r[i] == items[i] {
      assert Ids(items)[i] == items[i].Id();
    }
  }

  lemma {:induction false} TotalItemsIncremented(items: seq<CartItem>, id: string)
    requires WellFormed(items) && id in Ids(items)
    ensures TotalItems(Incremented(items, id)) == TotalItems(items) + 1
    decreases |items|
  {
    var n := |items|;
    var front := items[..n - 1];
    var r := Incremented(items, id);
    assert r[..n - 1] == Incremented(front, id);
    if items[n - 1].Id() == id {
      assert id !in Ids(front) by {
        forall i | 0 <= i < n - 1 ensures Ids(front)[i] != id {
          assert front[i] == items[i];
        }
      }
      IncrementedAbsent(front, id);
    } else {
      var k :| 0 <= k < n && Ids(items)[k] == id;
      assert Ids(front)[k] == id;
      TotalItemsIncremented(front, id);
    }
  }

  /** With distinct ids, adding raises the item count by exactly one. */
  lemma TotalItemsAfterAdd(items: seq<CartItem>, item: ItemDetails)
    requires WellFormed(items)
    ensures TotalItems(WithItemAdded(items, item)) == TotalItems(items) + 1
  {
    if item.id in Ids(items) {
      TotalItemsIncremented(items, item.id);
    } else {
      TotalItemsAppend(items, CartItem(item, 1));
    }
  }

  // ---------------------------------------------------------------------
  // removeItem
  // ---------------------------------------------------------------------

  lemma {:induction false} RemoveItemWellFormed(items: seq<CartItem>, id: string)
    requires WellFormed(items)
    ensures WellFormed(WithoutItem(items, id))
    decreases |items|
  {
    if items == [] {
      return;
    }
    var h, t := items[0], items[1..];
    assert WellFormed(t) by {
      forall i, j | 0 <= i < j < |t| ensures t[i].Id() != t[j].Id() {
        assert t[i] == items[i + 1] && t[j] == items[j + 1];
      }
    }
    RemoveItemWellFormed(t, id);
    var rest := WithoutItem(t, id);
    if h.Id() != id {
      forall x | x in rest ensures x.Id() != h.Id() {
        var k :| 0 <= k < |t| && t[k] == x;
        assert items[k + 1] == x;
      }
      ConsWellFormed(h, rest);
    } else {
      assert WithoutItem(items, id) == rest;
    }
  }

  lemma ConsWellFormed(h: CartItem, rest: seq<CartItem>)
    requires WellFormed(rest) && h.quantity >= 1
    requires forall x :: x in rest ==> x.Id() != h.Id()
    ensures WellFormed([h] + rest)
  {
    var r := [h] + rest;
    forall i, j | 0 <= i < j < |r| ensures r[i].Id() != r[j].Id() {
      assert r[j] == rest[j - 1];
      if i > 0 {
        assert r[i] == rest[i - 1];
      }
    }
  }

  /** Removing sets the removed id's quantity to 0 and leaves every other
      id's quantity as it was. */
  lemma {:induction false} RemoveItemQuantities(items: seq<CartItem>, id: string, other: string)
    ensures QuantityOf(WithoutItem(items, id), other) == if other == id then 0 else QuantityOf(items, other)
    decreases |items|
  {
    if items == [] {
      return;
    }
    var h, t := items[0], items[1..];
    var rest := WithoutItem(t, id);
    RemoveItemQuantities(t, id, other);
    assert items == [h] + t;
    QuantityOfCons(h, t, other);
    if h.Id() == id {
      assert WithoutItem(items, id) == rest;
    } else {
      assert WithoutItem(items, id) == [h] + rest;
      QuantityOfCons(h, rest, other);
    }
  }

  /** Removing an id that is not in the cart changes nothing. */
  lemma RemoveAbsentItem(items: seq<CartItem>, id: string)
    requires id !in Ids(items)
    ensures WithoutItem(items, id) == items
  {
    forall i | 0 <= i < |items| ensures items[i].Id() != id {
      assert Ids(items)[i] == items[i].Id();
    }
    KeepsEveryLine(items, id);
  }

  lemma {:induction false} KeepsEveryLine(items: seq<CartItem>, id: string)
    requires forall i :: 0 <= i < |items| ==> items[i].Id() != id
    ensures WithoutItem(items, id) == items
    decreases |items|
  {
    if items != [] {
      KeepsEveryLine(items[1..], id);
      assert items == [items[0]] + items[1..];
    }
  }

  /** Removing works line by line: the survivors of a concatenation are the
      survivors of each part, in the same order. */
  lemma {:induction false} RemoveItemAppend(a: seq<CartItem>, b: seq<CartItem>, id: string)
    ensures WithoutItem(a + b, id) == WithoutItem(a, id) + WithoutItem(b, id)
    decreases |a|
  {
    if a == [] {
      assert a + b == b;
    } else {
      assert (a + b)[1..] == a[1..] + b;
      RemoveItemAppend(a[1..], b, id);
      var head := if a[0].Id() == id then [] else [a[0]];
      assert head + (WithoutItem(a[1..], id) + WithoutItem(b, id))
          == (head + WithoutItem(a[1..], id)) + WithoutItem(b, id);
    }
  }

  // ---------------------------------------------------------------------
  // updateQuantity
  // ---------------------------------------------------------------------

  /** Setting a positive quantity changes only that id's quantity, and
      only when the id is in the cart. */
  lemma UpdateQuantityQuantities(items: seq<CartItem>, id: string, quantity: int, other: string)
    requires quantity > 0
    ensures QuantityOf(WithQuantity(items, id, quantity), other)
         == if other == id && id in Ids(items) then quantity else QuantityOf(items, other)
  {
    LineIndexNone(items, id);
    LineIndexOfSameIds(items, WithQuantity(items, id, quantity), other);
  }

  /** A quantity of zero or less is the same as removing the id. */
  lemma UpdateQuantityRemoves(items: seq<CartItem>, id: string, quantity: int)
    requires quantity <= 0
    ensures WithQuantity(items, id, quantity) == WithoutItem(items, id)
    ensures QuantityOf(WithQuantity(items, id, quantity), id) == 0
  {
    RemoveItemQuantities(items, id, id);
  }

  /** Updating an id that is not in the cart changes nothing. */
  lemma UpdateAbsentQuantity(items: seq<CartItem>, id: string, quantity: int)
    requires id !in Ids(items)
    ensures WithQuantity(items, id, quantity) == items
  {
    if quantity <= 0 {
      RemoveAbsentItem(items, id);
    } else {
      var r := WithQuantity(items, id, quantity);
      forall i | 0 <= i < |items| ensures r[i] == items[i] {
        assert Ids(items)[i] == items[i].Id();
      }
    }
  }

  lemma UpdateQuantityWellFormed(items: seq<CartItem>, id: string, quantity: int)
    requires WellFormed(items)
    ensures WellFormed(WithQuantity(items, id, quantity))
  {
    if quantity <= 0 {
      RemoveItemWellFormed(items, id);
    }
  }

  // ---------------------------------------------------------------------
  // getTotalItems
  // ---------------------------------------------------------------------

  lemma {:induction false} TotalItemsAtLeastLength(items: seq<CartItem>)
    requires forall i :: 0 <= i < |items| ==> items[i].quantity >= 1
    ensures TotalItems(items) >= |items|
    decreases |items|
  {
    if items != [] {
      TotalItemsAtLeastLength(items[..|items| - 1]);
    }
  }

  /** In a well-formed cart the item count is 0 exactly when the cart is
      empty. */
  lemma TotalItemsZeroIffEmpty(items: seq<CartItem>)
    requires WellFormed(items)
    ensures TotalItems(items) == 0 <==> items == []
  {
    TotalItemsAtLeastLength(items);
  }

  // ---------------------------------------------------------------------
  // Order numbers
  // ---------------------------------------------------------------------

  const FirstOrderNumber := 23

  /** The number handed out by the counter's `i`-th call. */
  function OrderNumber(i: nat): string {
    JsText.NatToString(FirstOrderNumber + i)
  }

  /** The module-level order-number counter, shared by every provider. The
      ghost `issued` records every number handed out so far. */
  class OrderNumberCounter {
    var next: nat
    ghost var issued: seq<string>

    ghost predicate Valid()
      reads this
    {
      && next == FirstOrderNumber + |issued|
      && (forall i :: 0 <= i < |issued| ==> issued[i] == OrderNumber(i))
    }

    constructor ()
      ensures Valid() && next == FirstOrderNumber && issued == []
    {
      next := FirstOrderNumber;
      issued := [];
    }

    /** `generateOrderNumber`: the decimal string of the counter, which then
        moves on by one. The number was never handed out before. */
    method Generate() returns (number: string)
      requires Valid()
      modifies this
      ensures Valid()
      ensures number == JsText.NatToString(old(next)) && next == old(next) + 1
      ensures number == OrderNumber(|old(issued)|)
      ensures issued == old(issued) + [number]
      ensures number !in old(issued)
    {
      number := JsText.NatToString(next);
      assert number == OrderNumber(|issued|);
      forall i | 0 <= i < |issued| ensures issued[i] != number {
        OrderNumbersDistinct(i, |issued|);
      }
      issued := issued + [number];
      next := next + 1;
    }
  }

  /** The numbers the counter hands out are pairwise distinct. */
  lemma OrderNumbersDistinct(i: nat, j: nat)
    requires i != j
    ensures OrderNumber(i) != OrderNumber(j)
  {
    JsText.IntToStringInjective(FirstOrderNumber + i, FirstOrderNumber + j);
  }

  // ---------------------------------------------------------------------
  // The provider's state
  // ---------------------------------------------------------------------

  /** `CartProvider`'s state: the lines, the order status and the last
      order number, with the shared counter. */
  class CartProvider {
    var items: seq<CartItem>
    var orderStatus: CartStatus
    var orderNumber: Option<string>
    const numbers: OrderNumberCounter

    ghost predicate Valid()
      reads this
    {
      WellFormed(items)
    }

    constructor (numbers: OrderNumberCounter)
      ensures Valid()
      ensures items == [] && orderStatus == Idle && orderNumber == None && this.numbers == numbers
    {
      items := [];
      orderStatus := Idle;
      orderNumber := None;
      this.numbers := numbers;
    }

    method AddItem(item: ItemDetails)
      requires Valid()
      modifies this
      ensures Valid()
      ensures items == WithItemAdded(old(items), item)
      ensures orderStatus == old(orderStatus) && orderNumber == old(orderNumber)
    {
      AddItemWellFormed(items, item);
      items := WithItemAdded(items, item);
    }

    method RemoveItem(id: string)
      requires Valid()
      modifies this
      ensures Valid()
      ensures items == WithoutItem(old(items), id)
      ensures orderStatus == old(orderStatus) && orderNumber == old(orderNumber)
    {
      RemoveItemWellFormed(items, id);
      items := WithoutItem(items, id);
    }

    method UpdateQuantity(id: string, quantity: int)
      requires Valid()
      modifies this
      ensures Valid()
      ensures items == WithQuantity(old(items), id, quantity)
      ensures orderStatus == old(orderStatus) && orderNumber == old(orderNumber)
    {
      if quantity <= 0 {
        RemoveItem(id);
        return;
      }
      UpdateQuantityWellFormed(items, id, quantity);
      items := WithQuantitySet(items, id, quantity);
    }

    method ClearCart()
      modifies this
      ensures Valid()
      ensures items == [] && orderStatus == old(orderStatus) && orderNumber == old(orderNumber)
    {
      items := [];
    }

    function GetTotalItems(): (n: int)
      reads this
      requires Valid()
      ensures n >= 0
      ensures n == 0 <==> items == []
    {
      TotalItemsZeroIffEmpty(items);
      TotalItemsAtLeastLength(items);
      TotalItems(items)
    }

    /** `submitOrder`: nothing happens on an empty cart; otherwise a new
        order number is drawn and the status becomes submitted. The lines
        stay in the cart. */
    method SubmitOrder()
      requires Valid() && numbers.Valid()
      modifies this, numbers
      ensures Valid() && numbers.Valid()
      ensures items == old(items)
      ensures old(items) == [] ==>
        && orderStatus == old(orderStatus) && orderNumber == old(orderNumber)
        && numbers.next == old(numbers.next) && numbers.issued == old(numbers.issued)
      ensures old(items) != [] ==>
        && orderStatus == OrderSubmitted
        && orderNumber == Some(OrderNumber(|old(numbers.issued)|))
        && numbers.next == old(numbers.next) + 1
        && numbers.issued == old(numbers.issued) + [orderNumber.value]
    {
      if |items| == 0 {
        return;
      }
      var number := numbers.Generate();
      orderNumber := Some(number);
      orderStatus := OrderSubmitted;
    }

    /** `resetOrder`: back to an idle, empty cart without a number; the
        counter is not reset. */
    method ResetOrder()
      modifies this
      ensures Valid()
      ensures orderStatus == Idle && orderNumber == None && items == []
    {
      orderStatus := Idle;
      orderNumber := None;
      items := [];
    }
  }
}
