/** CartItem.java: one line of a cart. The bean is the class `CartItem`; the
    values of its eight fields at one moment are an `ItemState`, on which its
    pure operations (getTotalPrice, equals, hashCode) are defined. */
module Items {
  import opened Common

  /** The field values of a CartItem. `id`, `createdAt` and `updatedAt` are
      null until the item is first stored. */
  datatype ItemState = ItemState(
    id: Option<Uuid>,
    cartId: Uuid,
    productId: string,
    productName: string,
    price: real,
    quantity: Int32,
    createdAt: Option<Time>,
    updatedAt: Option<Time>)
  {
    /** getTotalPrice: price times quantity, exactly. */
    function TotalPrice(): real {
      price * quantity as real
    }

    /** equals: the six fields other than the two timestamps agree. */
    predicate SameAs(other: ItemState) {
      && id == other.id
      && cartId == other.cartId
      && productId == other.productId
      && productName == other.productName
      && price == other.price
      && quantity == other.quantity
    }

    /** hashCode: Objects.hash over the same six fields. */
    function HashCode(): Int32 {
      CombineHashes([OptionalUuidHash(id), UuidHash(cartId), StringHash(productId),
                     StringHash(productName), PriceHash(price), quantity])
    }

    /** This state with both timestamps erased. */
    function Untimed(): ItemState {
      this.(createdAt := None, updatedAt := None)
    }
  }

  /** The state the five-argument constructor builds: no id, no timestamps. */
  function NewItem(cartId: Uuid, productId: string, productName: string, price: real, quantity: Int32): ItemState {
    ItemState(None, cartId, productId, productName, price, quantity, None, None)
  }

  /** Arrays.hashCode, which Objects.hash applies to its arguments:
      start from 1, then multiply by 31 and add the next hash, in int. */
  function CombineHashes(hs: seq<Int32>): Int32 {
    if hs == [] then 1 else Wrap32(31 * CombineHashes(hs[..|hs| - 1]) + hs[|hs| - 1])
  }

  /** String.hashCode: the base-31 polynomial of the characters, in int.
      The characters are Unicode scalar values, not UTF-16 code units. */
  function StringHash(s: string): Int32 {
    if s == [] then 0 else Wrap32(31 * StringHash(s[..|s| - 1]) + s[|s| - 1] as int)
  }

  function UuidHash(u: Uuid): Int32 {
    Wrap32(u)
  }

  /** Objects.hash hashes a null element as 0. */
  function OptionalUuidHash(u: Option<Uuid>): Int32 {
    match u
    case None => 0
    case Some(v) => UuidHash(v)
  }

  function PriceHash(p: real): Int32 {
    Wrap32(p.Floor)
  }

  /** equals holds exactly when the two items agree once timestamps are erased. */
  lemma SameAsMeansEqualUntimed(a: ItemState, b: ItemState)
    ensures a.SameAs(b) <==> a.Untimed() == b.Untimed()
  {
  }

  /** Changing only the timestamps never makes an item unequal to itself. */
  lemma SameAsIgnoresTimestamps(a: ItemState, c: Option<Time>, u: Option<Time>)
    ensures a.SameAs(a.(createdAt := c, updatedAt := u))
    ensures a.(createdAt := c, updatedAt := u).SameAs(a)
  {
  }

  /** equals is an equivalence relation. */
  lemma SameAsIsEquivalence(a: ItemState, b: ItemState, c: ItemState)
    ensures a.SameAs(a)
    ensures a.SameAs(b) ==> b.SameAs(a)
    ensures a.SameAs(b) && b.SameAs(c) ==> a.SameAs(c)
  {
  }

  /** hashCode is consistent with equals. */
  lemma SameAsHashCode(a: ItemState, b: ItemState)
    requires a.SameAs(b)
    ensures a.HashCode() == b.HashCode()
  {
  }

  /** A line's total is linear in its quantity: merging `more` units into a
      line adds price * more to its total, when the Java int sum does not wrap. */
  lemma TotalPriceOfMerge(a: ItemState, more: Int32)
    requires INT32_MIN <= a.quantity + more <= INT32_MAX
    ensures a.(quantity := Wrap32(a.quantity + more)).TotalPrice() == a.TotalPrice() + a.price * more as real
  {
    var q := Wrap32(a.quantity + more);
    assert q == a.quantity + more;
    assert q as real == a.quantity as real + more as real;
  }

  /** The bean. Each setter changes its own field and nothing else. */
  class CartItem {
    var id: Option<Uuid>
    var cartId: Uuid
    var productId: string
    var productName: string
    var price: real
    var quantity: Int32
    var createdAt: Option<Time>
    var updatedAt: Option<Time>

    /** The current field values. */
    function State(): ItemState
      reads this
    {
      ItemState(id, cartId, productId, productName, price, quantity, createdAt, updatedAt)
    }

    /** CartItem(cartId, productId, productName, price, quantity): a new line
        with no id and no timestamps, which save treats as not yet stored. */
    constructor (cartId: Uuid, productId: string, productName: string, price: real, quantity: Int32)
      ensures State() == NewItem(cartId, productId, productName, price, quantity)
      ensures State().id.None? && State().createdAt.None? && State().updatedAt.None?
    {
      this.id := None;
      this.cartId := cartId;
      this.productId := productId;
      this.productName := productName;
      this.price := price;
      this.quantity := quantity;
      this.createdAt := None;
      this.updatedAt := None;
    }

    /** The all-fields constructor, as the row mapper uses it. */
    constructor Full(id: Option<Uuid>, cartId: Uuid, productId: string, productName: string,
                     price: real, quantity: Int32, createdAt: Option<Time>, updatedAt: Option<Time>)
      ensures State() == ItemState(id, cartId, productId, productName, price, quantity, createdAt, updatedAt)
    {
      this.id := id;
      this.cartId := cartId;
      this.productId := productId;
      this.productName := productName;
      this.price := price;
      this.quantity := quantity;
      this.createdAt := createdAt;
      this.updatedAt := updatedAt;
    }

    method SetId(id: Option<Uuid>)
      modifies this
      ensures State() == old(State()).(id := id)
    {
      this.id := id;
    }

    method SetCartId(cartId: Uuid)
      modifies this
      ensures State() == old(State()).(cartId := cartId)
    {
      this.cartId := cartId;
    }

    method SetProductId(productId: string)
      modifies this
      ensures State() == old(State()).(productId := productId)
    {
      this.productId := productId;
    }

    method SetProductName(productName: string)
      modifies this
      ensures State() == old(State()).(productName := productName)
    {
      this.productName := productName;
    }

    method SetPrice(price: real)
      modifies this
      ensures State() == old(State()).(price := price)
    {
      this.price := price;
    }

    method SetQuantity(quantity: Int32)
      modifies this
      ensures State() == old(State()).(quantity := quantity)
    {
      this.quantity := quantity;
    }

    method SetCreatedAt(createdAt: Option<Time>)
      modifies this
      ensures State() == old(State()).(createdAt := createdAt)
    {
      this.createdAt := createdAt;
    }

    method SetUpdatedAt(updatedAt: Option<Time>)
      modifies this
      ensures State() == old(State()).(updatedAt := updatedAt)
    {
      this.updatedAt := updatedAt;
    }
  }

  /** The states of a list of beans, position by position. */
  function States(s: seq<CartItem>): (r: seq<ItemState>)
    reads s
    ensures |r| == |s|
    ensures forall i :: 0 <= i < |s| ==> r[i] == s[i].State()
  {
    if s == [] then [] else States(s[..|s| - 1]) + [s[|s| - 1].State()]
  }

  lemma StatesPrefix(s: seq<CartItem>, n: nat)
    requires n <= |s|
    ensures States(s[..n]) == States(s)[..n]
  {
  }

  lemma StatesAppend(s: seq<CartItem>, x: CartItem)
    ensures States(s + [x]) == States(s) + [x.State()]
  {
  }
}
