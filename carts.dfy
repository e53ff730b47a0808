/** Cart.java: the cart aggregate. The operations on its list of lines are
    specified by functions on the lines' states; the class `Cart` performs
    them in place and is proved to agree with those functions. */
module Carts {
  import opened Common
  import opened Items

  /** findItemByProductId: the position of the first line for the product. */
  function FirstWithProduct(items: seq<ItemState>, productId: string): (r: Option<nat>)
    ensures r.Some? ==> r.value < |items| && items[r.value].productId == productId
    ensures r.Some? ==> forall j :: 0 <= j < r.value ==> items[j].productId != productId
    ensures r.None? ==> forall j :: 0 <= j < |items| ==> items[j].productId != productId
  {
    if items == [] then None
    else if items[0].productId == productId then Some(0)
    else match FirstWithProduct(items[1..], productId)
      case None => None
      case Some(k) => Some(k + 1)
  }

  /** What findItemById meets while it scans the lines in order: the first
      line with the id, the end of the list, or a line whose id is null
      (dereferencing it throws). */
  datatype Lookup = Found(index: nat) | Missing | NullAt(index: nat)

  /** findItemById, including the line with a null id that stops the scan. */
  function FindId(items: seq<ItemState>, itemId: Uuid): (r: Lookup)
    ensures r.Found? ==> r.index < |items| && items[r.index].id == Some(itemId)
    ensures r.Found? ==> forall j :: 0 <= j < r.index ==> items[j].id.Some? && items[j].id != Some(itemId)
    ensures r.Missing? ==> forall j :: 0 <= j < |items| ==> items[j].id.Some? && items[j].id != Some(itemId)
    ensures r.NullAt? ==> r.index < |items| && items[r.index].id.None?
    ensures r.NullAt? ==> forall j :: 0 <= j < r.index ==> items[j].id.Some? && items[j].id != Some(itemId)
  {
    if items == [] then Missing
    else if items[0].id.None? then NullAt(0)
    else if items[0].id == Some(itemId) then Found(0)
    else match FindId(items[1..], itemId)
      case Found(k) => Found(k + 1)
      case Missing => Missing
      case NullAt(k) => NullAt(k + 1)
  }

  /** addItem(productId, productName, price, quantity) on the line states:
      merge into the first line for the product (Java int addition), else
      append a new line with no id. */
  function Added(items: seq<ItemState>, cartId: Uuid, productId: string, productName: string,
                 price: real, quantity: Int32): seq<ItemState>
  {
    match FirstWithProduct(items, productId)
    case None => items + [NewItem(cartId, productId, productName, price, quantity)]
    case Some(k) => items[k := items[k].(quantity := Wrap32(items[k].quantity + quantity))]
  }

  /** removeItem: keep, in order, the lines whose id is not the given one. */
  function Removed(items: seq<ItemState>, itemId: Uuid): seq<ItemState>
  {
    if items == [] then []
    else Removed(items[..|items| - 1], itemId)
         + (if items[|items| - 1].id == Some(itemId) then [] else [items[|items| - 1]])
  }

  /** removeIf dereferences every line's id, so one null id makes it throw. */
  predicate HasNullId(items: seq<ItemState>) {
    exists i :: 0 <= i < |items| && items[i].id.None?
  }

  /** getTotalAmount: the stream reduction of line totals from zero. */
  function Total(items: seq<ItemState>): real {
    if items == [] then 0.0 else Total(items[..|items| - 1]) + items[|items| - 1].TotalPrice()
  }

  /** The exact sum of the quantities; getItemCount is this in Java int. */
  function QuantitySum(items: seq<ItemState>): int {
    if items == [] then 0 else QuantitySum(items[..|items| - 1]) + items[|items| - 1].quantity
  }

  /** Adding a product the cart does not hold appends exactly one new line at
      the end: no id, this cart's id, and the given name, price and quantity. */
  lemma AddedNewProduct(items: seq<ItemState>, cartId: Uuid, productId: string, productName: string,
                        price: real, quantity: Int32)
    requires forall j :: 0 <= j < |items| ==> items[j].productId != productId
    ensures Added(items, cartId, productId, productName, price, quantity)
            == items + [ItemState(None, cartId, productId, productName, price, quantity, None, None)]
  {
  }

  /** Adding a product the cart holds adds the amount (in Java int) to the
      first line for it; every other field and every other line, and the
      length of the list, stay as they were. */
  lemma AddedExistingProduct(items: seq<ItemState>, cartId: Uuid, productId: string, productName: string,
                             price: real, quantity: Int32, k: nat)
    requires k < |items| && items[k].productId == productId
    requires forall j :: 0 <= j < k ==> items[j].productId != productId
    ensures var r := Added(items, cartId, productId, productName, price, quantity);
            && r == items[k := items[k].(quantity := Wrap32(items[k].quantity + quantity))]
            && |r| == |items|
            && r[k] == items[k].(quantity := Wrap32(items[k].quantity + quantity))
            && r[k].price == items[k].price && r[k].productName == items[k].productName
            && forall j :: 0 <= j < |items| && j != k ==> r[j] == items[j]
  {
  }

  /** Replacing one line changes the total by the difference of line totals. */
  lemma {:induction false} TotalUpdate(items: seq<ItemState>, k: nat, x: ItemState)
    requires k < |items|
    ensures Total(items[k := x]) == Total(items) - items[k].TotalPrice() + x.TotalPrice()
  {
    var n := |items| - 1;
    if k < n {
      TotalUpdate(items[..n], k, x);
      assert items[k := x][..n] == items[..n][k := x];
    } else {
      assert items[k := x][..n] == items[..n];
    }
  }

  /** Replacing one line changes the quantity sum by the difference. */
  lemma {:induction false} QuantitySumUpdate(items: seq<ItemState>, k: nat, x: ItemState)
    requires k < |items|
    ensures QuantitySum(items[k := x]) == QuantitySum(items) - items[k].quantity + x.quantity
  {
    var n := |items| - 1;
    if k < n {
      QuantitySumUpdate(items[..n], k, x);
      assert items[k := x][..n] == items[..n][k := x];
    } else {
      assert items[k := x][..n] == items[..n];
    }
  }

  /** Appending a line adds its total. */
  lemma TotalAppend(items: seq<ItemState>, x: ItemState)
    ensures Total(items + [x]) == Total(items) + x.TotalPrice()
  {
    assert (items + [x])[..|items|] == items;
  }

  /** The total of a new line is the price times the quantity. */
  lemma NewItemTotal(cartId: Uuid, productId: string, productName: string, price: real, quantity: Int32)
    ensures NewItem(cartId, productId, productName, price, quantity).TotalPrice() == price * quantity as real
  {
  }

  /** Adding a new product grows the total by price times quantity. */
  lemma AddedTotalNew(items: seq<ItemState>, cartId: Uuid, productId: string, productName: string,
                      price: real, quantity: Int32)
    requires forall j :: 0 <= j < |items| ==> items[j].productId != productId
    ensures Total(Added(items, cartId, productId, productName, price, quantity))
            == Total(items) + price * quantity as real
  {
    AddedNewProduct(items, cartId, productId, productName, price, quantity);
    TotalAppend(items, NewItem(cartId, productId, productName, price, quantity));
    NewItemTotal(cartId, productId, productName, price, quantity);
  }

  /** Merging more units into line k grows the total by that line's price
      times the units, when the Java int sum does not wrap. */
  lemma TotalMergeAt(items: seq<ItemState>, k: nat, quantity: Int32)
    requires k < |items|
    requires INT32_MIN <= items[k].quantity + quantity <= INT32_MAX
    ensures Total(items[k := items[k].(quantity := Wrap32(items[k].quantity + quantity))])
            == Total(items) + items[k].price * quantity as real
  {
    var x := items[k].(quantity := Wrap32(items[k].quantity + quantity));
    TotalUpdate(items, k, x);
    TotalPriceOfMerge(items[k], quantity);
  }

  /** A merging add grows the total by quantity times the price of the line
      it merges into; the price passed to addItem plays no part. Holds when
      the new quantity does not wrap. */
  lemma AddedTotalMerge(items: seq<ItemState>, cartId: Uuid, productId: string, productName: string,
                        price: real, quantity: Int32, k: nat)
    requires k < |items| && items[k].productId == productId
    requires forall j :: 0 <= j < k ==> items[j].productId != productId
    requires INT32_MIN <= items[k].quantity + quantity <= INT32_MAX
    ensures Total(Added(items, cartId, productId, productName, price, quantity))
            == Total(items) + items[k].price * quantity as real
  {
    AddedExistingProduct(items, cartId, productId, productName, price, quantity, k);
    TotalMergeAt(items, k, quantity);
  }

  /** An add that does not wrap grows the exact quantity sum by its quantity. */
  lemma AddedQuantity(items: seq<ItemState>, cartId: Uuid, productId: string, productName: string,
                      price: real, quantity: Int32)
    requires forall j :: 0 <= j < |items| && items[j].productId == productId ==>
               INT32_MIN <= items[j].quantity + quantity <= INT32_MAX
    ensures QuantitySum(Added(items, cartId, productId, productName, price, quantity))
            == QuantitySum(items) + quantity
  {
    match FirstWithProduct(items, productId)
    case None =>
      var x := NewItem(cartId, productId, productName, price, quantity);
      AddedNewProduct(items, cartId, productId, productName, price, quantity);
      assert (items + [x])[..|items|] == items;
    case Some(k) =>
      AddedExistingProduct(items, cartId, productId, productName, price, quantity, k);
      QuantityMergeAt(items, k, quantity);
  }

  /** Merging more units into line k grows the quantity sum by the units,
      when the Java int sum does not wrap. */
  lemma QuantityMergeAt(items: seq<ItemState>, k: nat, quantity: Int32)
    requires k < |items|
    requires INT32_MIN <= items[k].quantity + quantity <= INT32_MAX
    ensures QuantitySum(items[k := items[k].(quantity := Wrap32(items[k].quantity + quantity))])
            == QuantitySum(items) + quantity
  {
    QuantitySumUpdate(items, k, items[k].(quantity := Wrap32(items[k].quantity + quantity)));
  }

  /** One add request: the arguments of addItem. */
  datatype Line = Line(productId: string, productName: string, price: real, quantity: Int32)

  /** A sequence of addItem calls, in order. */
  function AddAll(items: seq<ItemState>, cartId: Uuid, lines: seq<Line>): seq<ItemState>
  {
    if lines == [] then items
    else var l := lines[|lines| - 1];
         Added(AddAll(items, cartId, lines[..|lines| - 1]), cartId, l.productId, l.productName, l.price, l.quantity)
  }

  /** The new lines a sequence of adds of fresh products appends. */
  function NewLines(cartId: Uuid, lines: seq<Line>): (r: seq<ItemState>)
    ensures |r| == |lines|
  {
    if lines == [] then []
    else var l := lines[|lines| - 1];
         NewLines(cartId, lines[..|lines| - 1]) + [NewItem(cartId, l.productId, l.productName, l.price, l.quantity)]
  }

  function LinesTotal(lines: seq<Line>): real {
    if lines == [] then 0.0
    else LinesTotal(lines[..|lines| - 1]) + lines[|lines| - 1].price * lines[|lines| - 1].quantity as real
  }

  function LinesQuantity(lines: seq<Line>): int {
    if lines == [] then 0 else LinesQuantity(lines[..|lines| - 1]) + lines[|lines| - 1].quantity
  }

  lemma {:induction false} NewLinesAt(cartId: Uuid, lines: seq<Line>, i: nat)
    requires i < |lines|
    ensures NewLines(cartId, lines)[i]
            == NewItem(cartId, lines[i].productId, lines[i].productName, lines[i].price, lines[i].quantity)
  {
    var n := |lines| - 1;
    if i < n {
      NewLinesAt(cartId, lines[..n], i);
    }
  }

  lemma {:induction false} TotalConcat(a: seq<ItemState>, b: seq<ItemState>)
    ensures Total(a + b) == Total(a) + Total(b)
    ensures QuantitySum(a + b) == QuantitySum(a) + QuantitySum(b)
  {
    if b == [] {
      assert a + b == a;
    } else {
      var n := |b| - 1;
      TotalConcat(a, b[..n]);
      assert (a + b)[..|a + b| - 1] == a + b[..n];
    }
  }

  lemma {:induction false} NewLinesTotals(cartId: Uuid, lines: seq<Line>)
    ensures Total(NewLines(cartId, lines)) == LinesTotal(lines)
    ensures QuantitySum(NewLines(cartId, lines)) == LinesQuantity(lines)
  {
    if lines != [] {
      var n := |lines| - 1;
      NewLinesTotals(cartId, lines[..n]);
      var r := NewLines(cartId, lines);
      assert r[..|r| - 1] == NewLines(cartId, lines[..n]);
    }
  }

  /** Adds of pairwise distinct products that the cart does not hold append
      one new line each, in order. */
  lemma {:induction false} AddAllAppends(items: seq<ItemState>, cartId: Uuid, lines: seq<Line>)
    requires forall i, j :: 0 <= i < j < |lines| ==> lines[i].productId != lines[j].productId
    requires forall i, j :: 0 <= i < |lines| && 0 <= j < |items| ==> lines[i].productId != items[j].productId
    ensures AddAll(items, cartId, lines) == items + NewLines(cartId, lines)
  {
    if lines != [] {
      var n := |lines| - 1;
      var l := lines[n];
      AddAllAppends(items, cartId, lines[..n]);
      var pre := items + NewLines(cartId, lines[..n]);
      forall j | 0 <= j < |pre| ensures pre[j].productId != l.productId {
        if j >= |items| {
          NewLinesAt(cartId, lines[..n], j - |items|);
        }
      }
      AddedNewProduct(pre, cartId, l.productId, l.productName, l.price, l.quantity);
    }
  }

  /** Adds of pairwise distinct products, none already in the cart: the item
      count grows by the sum of their quantities and the total by the exact
      sum of price times quantity. */
  lemma AddAllDistinctTotals(items: seq<ItemState>, cartId: Uuid, lines: seq<Line>)
    requires forall i, j :: 0 <= i < j < |lines| ==> lines[i].productId != lines[j].productId
    requires forall i, j :: 0 <= i < |lines| && 0 <= j < |items| ==> lines[i].productId != items[j].productId
    ensures Total(AddAll(items, cartId, lines)) == Total(items) + LinesTotal(lines)
    ensures QuantitySum(AddAll(items, cartId, lines)) == QuantitySum(items) + LinesQuantity(lines)
  {
    AddAllAppends(items, cartId, lines);
    TotalConcat(items, NewLines(cartId, lines));
    NewLinesTotals(cartId, lines);
  }

  /** removeItem with an id no line carries changes nothing. */
  lemma {:induction false} RemovedAbsent(items: seq<ItemState>, itemId: Uuid)
    requires forall j :: 0 <= j < |items| ==> items[j].id != Some(itemId)
    ensures Removed(items, itemId) == items
  {
    if items != [] {
      RemovedAbsent(items[..|items| - 1], itemId);
      assert items[..|items| - 1] + [items[|items| - 1]] == items;
    }
  }

  /** removeItem is a filter: it distributes over concatenation (so the
      relative order of the kept lines is the original one), drops a line
      with the id and keeps a line without it. */
  lemma {:induction false} RemovedConcat(a: seq<ItemState>, b: seq<ItemState>, itemId: Uuid)
    ensures Removed(a + b, itemId) == Removed(a, itemId) + Removed(b, itemId)
  {
    if b != [] {
      var n := |b| - 1;
      RemovedConcat(a, b[..n], itemId);
      assert (a + b)[..|a + b| - 1] == a + b[..n];
    } else {
      assert a + b == a;
    }
  }

  lemma RemovedSingle(x: ItemState, itemId: Uuid)
    ensures Removed([x], itemId) == if x.id == Some(itemId) then [] else [x]
  {
    assert [x][..0] == [];
  }

  /** No line left by removeItem carries the removed id, and every line
      with another id is kept. */
  lemma {:induction false} RemovedMembers(items: seq<ItemState>, itemId: Uuid)
    ensures forall x :: x in Removed(items, itemId) <==> x in items && x.id != Some(itemId)
  {
    if items != [] {
      var n := |items| - 1;
      RemovedMembers(items[..n], itemId);
      assert items == items[..n] + [items[n]];
    }
  }

  /** The filter of removeIf over the beans: the beans whose id is not the
      given one, in order. */
  function KeptLines(s: seq<CartItem>, itemId: Uuid): (r: seq<CartItem>)
    reads s
    ensures forall x :: x in r ==> x in s
  {
    if s == [] then []
    else
      var n := |s| - 1;
      KeptLines(s[..n], itemId) + (if s[n].id == Some(itemId) then [] else [s[n]])
  }

  /** On the states of the beans the filter is removeItem's. */
  lemma {:induction false} KeptLinesStates(s: seq<CartItem>, itemId: Uuid)
    ensures States(KeptLines(s, itemId)) == Removed(States(s), itemId)
  {
    if s != [] {
      var n := |s| - 1;
      var kept := KeptLines(s[..n], itemId);
      KeptLinesStates(s[..n], itemId);
      StatesPrefix(s, n);
      StatesAppend(kept, s[n]);
    }
  }

  /** The filter takes no bean twice from a list without repeats. */
  lemma {:induction false} KeptLinesDistinct(s: seq<CartItem>, itemId: Uuid)
    requires forall a, b :: 0 <= a < b < |s| ==> s[a] != s[b]
    ensures forall a, b :: 0 <= a < b < |KeptLines(s, itemId)| ==> KeptLines(s, itemId)[a] != KeptLines(s, itemId)[b]
  {
    if s != [] {
      var n := |s| - 1;
      KeptLinesDistinct(s[..n], itemId);
      var kept := KeptLines(s[..n], itemId);
      if s[n].id != Some(itemId) {
        forall a | 0 <= a < |kept| ensures kept[a] != s[n] {
          assert kept[a] in s[..n];
        }
      }
    }
  }

  /** The aggregate. `id`, `userId` and `createdAt` are fixed at
      construction; `updatedAt` has a setter; `items` changes only through
      the operations below. */
  class Cart {
    const id: Uuid
    const userId: string
    const createdAt: Time
    var updatedAt: Time
    var items: seq<CartItem>

    /** No bean appears twice in the list. */
    ghost predicate Valid()
      reads this
    {
      forall i, j :: 0 <= i < j < |items| ==> items[i] != items[j]
    }

    /** The states of the lines, in list order (what getItems shows). */
    function View(): seq<ItemState>
      reads this, items
    {
      States(items)
    }

    constructor (id: Uuid, userId: string, createdAt: Time, updatedAt: Time)
      ensures this.id == id && this.userId == userId
      ensures this.createdAt == createdAt && this.updatedAt == updatedAt
      ensures items == [] && Valid()
    {
      this.id := id;
      this.userId := userId;
      this.createdAt := createdAt;
      this.updatedAt := updatedAt;
      this.items := [];
    }

    /** addItem(productId, productName, price, quantity). */
    method AddItem(productId: string, productName: string, price: real, quantity: Int32)
      requires Valid()
      modifies this, set x | x in items
      ensures Valid() && updatedAt == old(updatedAt)
      ensures View() == Added(old(View()), id, productId, productName, price, quantity)
      ensures forall x :: x in items ==> x in old(items) || fresh(x)
    {
      ghost var v := View();
      var found := FirstWithProduct(View(), productId);
      match found {
        case Some(k) =>
          AddedExistingProduct(v, id, productId, productName, price, quantity, k);
          assert items[k].quantity == v[k].quantity;
          SetQuantityAt(k, Wrap32(items[k].quantity + quantity));
          assert View() == Added(v, id, productId, productName, price, quantity);
        case None =>
          AddedNewProduct(v, id, productId, productName, price, quantity);
          var item := new CartItem(id, productId, productName, price, quantity);
          AddCartItem(item);
          assert View() == Added(v, id, productId, productName, price, quantity);
      }
    }

    /** item.setQuantity on the line at position k. */
    method SetQuantityAt(k: nat, quantity: Int32)
      requires Valid() && k < |items|
      modifies items[k]
      ensures View() == old(View())[k := old(View())[k].(quantity := quantity)]
    {
      ghost var w := View()[k := View()[k].(quantity := quantity)];
      var item := items[k];
      item.SetQuantity(quantity);
      forall j | 0 <= j < |items| ensures items[j].State() == w[j] {
        if j != k {
          assert items[j] != item;
        }
      }
      assert View() == w;
    }

    /** addItem(CartItem): append the given bean, as the loaders do. */
    method AddCartItem(item: CartItem)
      requires Valid() && item !in items
      modifies this
      ensures Valid() && updatedAt == old(updatedAt)
      ensures items == old(items) + [item]
      ensures View() == old(View()) + [item.State()]
    {
      items := items + [item];
    }

    /** updateItemQuantity: set the quantity of the first line with the id;
        throw when no line has it. */
    method UpdateItemQuantity(itemId: Uuid, quantity: Int32) returns (r: Outcome)
      requires Valid()
      modifies set x | x in items
      ensures Valid() && updatedAt == old(updatedAt) && items == old(items)
      ensures match FindId(old(View()), itemId)
              case Found(k) => r == Done && View() == old(View())[k := old(View())[k].(quantity := quantity)]
              case Missing => r == Fail(Error(IllegalArgument, ItemNotFound)) && View() == old(View())
              case NullAt(_) => r == Fail(Error(NullPointer, NullItemId)) && View() == old(View())
    {
      var found := FindId(View(), itemId);
      match found {
        case Found(k) =>
          SetQuantityAt(k, quantity);
          r := Done;
        case Missing =>
          r := Fail(Error(IllegalArgument, ItemNotFound));
        case NullAt(_) =>
          r := Fail(Error(NullPointer, NullItemId));
      }
    }

    /** removeItem: drop every line with the id, keeping the others in order;
        a line with a null id makes the filter throw before anything changes. */
    method RemoveItem(itemId: Uuid) returns (r: Outcome)
      requires Valid()
      modifies this
      ensures Valid() && updatedAt == old(updatedAt)
      ensures HasNullId(old(View())) ==> r == Fail(Error(NullPointer, NullItemId)) && items == old(items)
      ensures !HasNullId(old(View())) ==> r == Done && View() == Removed(old(View()), itemId)
      ensures forall x :: x in items ==> x in old(items)
    {
      if HasNullId(View()) {
        return Fail(Error(NullPointer, NullItemId));
      }
      var kept := KeptLines(items, itemId);
      KeptLinesDistinct(items, itemId);
      KeptLinesStates(items, itemId);
      items := kept;
      r := Done;
    }

    /** clearItems. */
    method ClearItems()
      modifies this
      ensures items == [] && Valid() && updatedAt == old(updatedAt)
    {
      items := [];
    }

    /** getTotalAmount. */
    function TotalAmount(): real
      reads this, items
    {
      Total(View())
    }

    /** getItemCount: the quantity sum, accumulated in Java int. */
    function ItemCount(): Int32
      reads this, items
    {
      Wrap32(QuantitySum(View()))
    }

    /** isEmpty. */
    predicate IsEmpty()
      reads this
    {
      |items| == 0
    }

    /** belongsToUser. */
    predicate BelongsToUser(userId: string)
    {
      this.userId == userId
    }

    method SetUpdatedAt(updatedAt: Time)
      modifies this
      ensures this.updatedAt == updatedAt && items == old(items)
    {
      this.updatedAt := updatedAt;
    }
  }

  /** After clearItems the cart is empty, its total is 0 and its item count 0. */
  lemma ClearedCart(c: Cart)
    requires c.items == []
    ensures c.IsEmpty() && c.TotalAmount() == 0.0 && c.ItemCount() == 0
  {
  }

  /** The totals of the add / set quantity / remove walk-through, with the
      ids the store gives the two lines on the first save. */
  lemma TotalsScenario()
    ensures var c := 7;
            var v1 := Added([], c, "product-001", "iPhone 15", 999.99, 1);
            var v2 := Added(v1, c, "product-002", "MacBook Pro", 2499.99, 1);
            var s := [v2[0].(id := Some(1)), v2[1].(id := Some(2))];
            var v3 := s[0 := s[0].(quantity := 3)];
            var v4 := Removed(v3, 1);
            && |v2| == 2 && Total(v2) == 3499.98 && Wrap32(QuantitySum(v2)) == 2
            && FindId(s, 1) == Found(0)
            && v3[0].TotalPrice() == 2999.97 && Total(v3) == 5499.96
            && |v4| == 1 && v4[0].productId == "product-002" && Total(v4) == 2499.99
  {
    var c := 7;
    var v1 := Added([], c, "product-001", "iPhone 15", 999.99, 1);
    assert v1 == [NewItem(c, "product-001", "iPhone 15", 999.99, 1)];
    assert Total(v1) == 999.99 by { assert v1[..0] == []; }
    var v2 := Added(v1, c, "product-002", "MacBook Pro", 2499.99, 1);
    assert v2 == v1 + [NewItem(c, "product-002", "MacBook Pro", 2499.99, 1)];
    assert v2[..1] == v1 && v1[..0] == [];
    assert Total(v2) == Total(v1) + 2499.99;
    assert QuantitySum(v2) == QuantitySum(v1) + 1;
    var s := [v2[0].(id := Some(1)), v2[1].(id := Some(2))];
    var v3 := s[0 := s[0].(quantity := 3)];
    assert v3[..1] == [v3[0]] && [v3[0]][..0] == [];
    assert Total([v3[0]]) == 2999.97;
    assert Total(v3) == Total(v3[..1]) + v3[1].TotalPrice();
    var v4 := Removed(v3, 1);
    assert Removed([v3[0]], 1) == [] by { RemovedSingle(v3[0], 1); }
    assert v4 == Removed(v3[..1], 1) + [v3[1]];
    assert v4 == [v3[1]];
    assert v4[..0] == [];
  }
}
