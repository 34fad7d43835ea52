/** The menu's ordering controls (components/order-system-menu.tsx): the
    section anchor derived from a section title, and the per-price buttons
    that add, remove and count cart lines identified as
    `section-name-priceIndex`. */
module OrderSystemMenu {
  import opened Wrappers
  import opened JsText
  import opened Cart
  import Types

  datatype PriceOption = PriceOption(value: Types.Cents, description: Option<string>)

  datatype MenuItemData = MenuItemData(
    name: string,
    description: string,
    image: Option<string>,
    priceInEuro: seq<PriceOption>)

  // ---------------------------------------------------------------------
  // createSectionId
  // ---------------------------------------------------------------------

  predicate NoUpperAscii(s: string) {
    forall i :: 0 <= i < |s| ==> !IsUpperAscii(s[i])
  }

  /** `s.replace(/\s+/g, "-")`: every maximal run of white space becomes a
      single hyphen. */
  function Slugify(s: string): (r: string)
    ensures NoWhitespace(r)
    ensures NoUpperAscii(s) ==> NoUpperAscii(r)
    decreases |s|
  {
    if s == [] then []
    else if IsWhitespace(s[0]) then
      var t := TrimStart(s);
      assert |t| < |s|;
      "-" + Slugify(t)
    else [s[0]] + Slugify(s[1..])
  }

  /** `createSectionId`: the title in lower case with its white-space runs
      turned into hyphens. */
  function CreateSectionId(title: string): string {
    Slugify(LowerAscii(title))
  }

  /** Text without white space passes through unchanged, and what follows
      it is slugged on its own. */
  lemma {:induction false} SlugifyWord(word: string, rest: string)
    requires NoWhitespace(word)
    ensures Slugify(word + rest) == word + Slugify(rest)
    decreases |word|
  {
    if word != [] {
      TailOfAppend(word, rest);
      assert !IsWhitespace(word[0]);
      SlugifyWord(word[1..], rest);
      assert Slugify(word + rest) == [word[0]] + Slugify(word[1..] + rest);
      TailOfAppend(word, Slugify(rest));
    } else {
      assert word + rest == rest;
    }
  }

  /** A maximal run of white space becomes exactly one hyphen. */
  lemma SlugifyRun(blank: string, rest: string)
    requires blank != [] && forall i :: 0 <= i < |blank| ==> IsWhitespace(blank[i])
    requires rest == [] || !IsWhitespace(rest[0])
    ensures Slugify(blank + rest) == "-" + Slugify(rest)
  {
    TrimStartOfBlank(blank, rest);
    TailOfAppend(blank, rest);
  }

  /** The section id of a title: no white space is left in it. */
  lemma SectionIdHasNoWhitespace(title: string)
    ensures NoWhitespace(CreateSectionId(title))
    ensures NoUpperAscii(CreateSectionId(title))
  {
    assert NoUpperAscii(LowerAscii(title));
  }

  lemma LowerAsciiOfLower(s: string)
    requires NoUpperAscii(s)
    ensures LowerAscii(s) == s
  {
  }

  /** Applying `createSectionId` to a section id gives it back. */
  lemma CreateSectionIdIdempotent(title: string)
    ensures CreateSectionId(CreateSectionId(title)) == CreateSectionId(title)
  {
    var id := CreateSectionId(title);
    SectionIdHasNoWhitespace(title);
    LowerAsciiOfLower(id);
    SlugifyWord(id, []);
    assert id + [] == id;
  }

  // ---------------------------------------------------------------------
  // Cart lines of one menu entry
  // ---------------------------------------------------------------------

  /** The cart-line id of one price of one entry in one section. */
  function LineId(sectionName: string, itemName: string, priceIndex: nat): string {
    sectionName + "-" + itemName + "-" + NatToString(priceIndex)
  }

  /** The line `handleAddItem` passes to `addItem`. */
  function LineDetails(item: MenuItemData, sectionName: string, priceIndex: nat): ItemDetails
    requires priceIndex < |item.priceInEuro|
  {
    var option := item.priceInEuro[priceIndex];
    ItemDetails(LineId(sectionName, item.name, priceIndex), item.name, item.description,
                item.image, option.value, option.description, sectionName)
  }

  /** `getQuantity`: the quantity of the price's line, 0 without one. */
  function GetQuantity(items: seq<CartItem>, item: MenuItemData, sectionName: string, priceIndex: nat): int {
    QuantityOf(items, LineId(sectionName, item.name, priceIndex))
  }

  /** In a well-formed cart a price shows 0 exactly when it has no line. */
  lemma GetQuantityZeroIffAbsent(items: seq<CartItem>, item: MenuItemData, sectionName: string, priceIndex: nat)
    requires WellFormed(items)
    ensures GetQuantity(items, item, sectionName, priceIndex) == 0
        <==> LineId(sectionName, item.name, priceIndex) !in Ids(items)
  {
    LineIndexNone(items, LineId(sectionName, item.name, priceIndex));
  }

  /** The first press on a price appends a line carrying that price, with
      quantity 1. */
  lemma FirstAddAppendsPricedLine(items: seq<CartItem>, item: MenuItemData, sectionName: string, priceIndex: nat)
    requires priceIndex < |item.priceInEuro|
    requires LineId(sectionName, item.name, priceIndex) !in Ids(items)
    ensures var r := WithItemAdded(items, LineDetails(item, sectionName, priceIndex));
      && |r| == |items| + 1 && r[..|items|] == items
      && r[|items|].details.price == item.priceInEuro[priceIndex].value
      && r[|items|].quantity == 1
      && LineIndex(r, LineId(sectionName, item.name, priceIndex)) == Some(|items|)
  {
    var line := CartItem(LineDetails(item, sectionName, priceIndex), 1);
    LineIndexAppend(items, line, line.Id());
  }

  /** What `handleRemoveItem` does to the lines: nothing without a line, a
      line of one unit goes, a larger one loses one unit. */
  function DecrementLine(items: seq<CartItem>, id: string): seq<CartItem> {
    match LineIndex(items, id)
    case None => items
    case Some(k) =>
      if items[k].quantity == 1 then WithoutItem(items, id)
      else WithQuantity(items, id, items[k].quantity - 1)
  }

  /** One press on "minus" lowers the line's quantity by one (removing it at
      zero) and leaves every other line's quantity alone. */
  lemma DecrementLineQuantities(items: seq<CartItem>, id: string, other: string)
    requires WellFormed(items)
    ensures QuantityOf(DecrementLine(items, id), other)
         == if other == id && id in Ids(items) then QuantityOf(items, id) - 1 else QuantityOf(items, other)
  {
    var found := LineIndex(items, id);
    LineIndexNone(items, id);
    if found.Some? {
      var q := items[found.value].quantity;
      assert QuantityOf(items, id) == q;
      if q == 1 {
        assert DecrementLine(items, id) == WithoutItem(items, id);
        RemoveItemQuantities(items, id, other);
      } else {
        assert DecrementLine(items, id) == WithQuantity(items, id, q - 1);
        UpdateQuantityQuantities(items, id, q - 1, other);
      }
    }
  }

  lemma DecrementLineWellFormed(items: seq<CartItem>, id: string)
    requires WellFormed(items)
    ensures WellFormed(DecrementLine(items, id))
  {
    var found := LineIndex(items, id);
    if found.Some? {
      var q := items[found.value].quantity;
      if q == 1 {
        assert DecrementLine(items, id) == WithoutItem(items, id);
        RemoveItemWellFormed(items, id);
      } else {
        assert DecrementLine(items, id) == WithQuantity(items, id, q - 1);
        UpdateQuantityWellFormed(items, id, q - 1);
      }
    }
  }

  /** "Minus" undoes "plus": in a well-formed cart, removing one unit of a
      line right after adding one gives back the same cart. */
  lemma DecrementUndoesAdd(items: seq<CartItem>, details: ItemDetails)
    requires WellFormed(items)
    ensures DecrementLine(WithItemAdded(items, details), details.id) == items
  {
    if details.id in Ids(items) {
      DecrementUndoesIncrement(items, details.id);
    } else {
      DecrementUndoesAppend(items, details);
    }
  }

  /** The case of `DecrementUndoesAdd` where the line already exists. */
  lemma DecrementUndoesIncrement(items: seq<CartItem>, id: string)
    requires WellFormed(items) && id in Ids(items)
    ensures DecrementLine(Incremented(items, id), id) == items
  {
    var added := Incremented(items, id);
    LineIndexNone(items, id);
    var k := LineIndex(items, id).value;
    var q := items[k].quantity;
    LineIndexOfSameIds(items, added, id);
    assert added[k].quantity == q + 1;
    DecrementLineAt(added, id, k);
    OnlyLine(items, id, k);
    ResetIncremented(items, id, q);
  }

  /** Taking one unit off a line holding at least two. */
  lemma DecrementLineAt(items: seq<CartItem>, id: string, k: nat)
    requires LineIndex(items, id) == Some(k) && items[k].quantity >= 2
    ensures DecrementLine(items, id) == WithQuantitySet(items, id, items[k].quantity - 1)
  {
    var q := items[k].quantity - 1;
    assert WithQuantity(items, id, q) == WithQuantitySet(items, id, q);
  }

  /** In a well-formed cart the line `LineIndex` finds is the only one
      with its id. */
  lemma OnlyLine(items: seq<CartItem>, id: string, k: nat)
    requires WellFormed(items) && LineIndex(items, id) == Some(k)
    ensures forall i :: 0 <= i < |items| && items[i].Id() == id ==> items[i] == items[k]
  {
  }

  /** Setting every line of `id` back to the quantity they all had before
      an increment restores the cart. */
  lemma ResetIncremented(items: seq<CartItem>, id: string, q: int)
    requires forall i :: 0 <= i < |items| && items[i].Id() == id ==> items[i].quantity == q
    ensures WithQuantitySet(Incremented(items, id), id, q) == items
  {
    var back := WithQuantitySet(Incremented(items, id), id, q);
    assert |back| == |items|;
    forall i | 0 <= i < |items| ensures back[i] == items[i] {
    }
  }

  /** The case of `DecrementUndoesAdd` where the line is new. */
  lemma DecrementUndoesAppend(items: seq<CartItem>, details: ItemDetails)
    requires details.id !in Ids(items)
    ensures DecrementLine(items + [CartItem(details, 1)], details.id) == items
  {
    var id := details.id;
    var line := CartItem(details, 1);
    LineIndexAppend(items, line, id);
    assert DecrementLine(items + [line], id) == WithoutItem(items + [line], id);
    RemoveItemAppend(items, [line], id);
    RemoveAbsentItem(items, id);
    assert WithoutItem([line], id) == [];
    assert items + [] == items;
  }

  /** `handleAddItem`: adds one unit of the chosen price's line. Only
      rendered prices have a button, so the index is within the list. */
  method HandleAddItem(cart: CartProvider, item: MenuItemData, sectionName: string, priceIndex: nat)
    requires cart.Valid() && priceIndex < |item.priceInEuro|
    modifies cart
    ensures cart.Valid()
    ensures cart.items == WithItemAdded(old(cart.items), LineDetails(item, sectionName, priceIndex))
    ensures GetQuantity(cart.items, item, sectionName, priceIndex)
         == GetQuantity(old(cart.items), item, sectionName, priceIndex) + 1
    ensures cart.orderStatus == old(cart.orderStatus) && cart.orderNumber == old(cart.orderNumber)
  {
    var details := LineDetails(item, sectionName, priceIndex);
    AddItemQuantities(cart.items, details, details.id);
    cart.AddItem(details);
  }

  /** `handleRemoveItem`: takes one unit off the price's line. */
  method HandleRemoveItem(cart: CartProvider, item: MenuItemData, sectionName: string, priceIndex: nat)
    requires cart.Valid()
    modifies cart
    ensures cart.Valid()
    ensures cart.items == DecrementLine(old(cart.items), LineId(sectionName, item.name, priceIndex))
    ensures cart.orderStatus == old(cart.orderStatus) && cart.orderNumber == old(cart.orderNumber)
  {
    var itemId := LineId(sectionName, item.name, priceIndex);
    var found := LineIndex(cart.items, itemId);
    if found.Some? {
      var quantity := cart.items[found.value].quantity;
      if quantity == 1 {
        cart.RemoveItem(itemId);
      } else {
        cart.UpdateQuantity(itemId, quantity - 1);
      }
    }
  }
}
