/** What each CartService use-case does to the store in one attempt, stated
    on store snapshots: the request check, the cart it looks up or creates,
    the change it makes to that cart's lines and the save that follows.
    The class in module Service performs these steps on the repository. */
module UseCases {
  import opened Common
  import opened Items
  import opened Carts
  import opened Store
  import opened Reconcile
  import opened Repository

  // ---------------------------------------------------------------------
  // The add-to-cart request and its check.

  /** AddToCartRequest: a record whose components may all be null. */
  datatype AddToCartRequest = AddToCartRequest(
    productId: Option<string>,
    productName: Option<string>,
    price: Option<real>,
    quantity: Option<Int32>)

  /** String.trim drops leading characters up to U+0020 ... */
  function TrimStart(s: string): (r: string)
    ensures |r| <= |s| && r == s[|s| - |r|..]
    ensures forall i :: 0 <= i < |s| - |r| ==> s[i] <= ' '
    ensures r != [] ==> r[0] > ' '
  {
    if s != [] && s[0] <= ' ' then TrimStart(s[1..]) else s
  }

  /** ... and trailing ones. */
  function TrimEnd(s: string): (r: string)
    ensures |r| <= |s| && r == s[..|r|]
    ensures forall i :: |r| <= i < |s| ==> s[i] <= ' '
    ensures r != [] ==> r[|r| - 1] > ' '
  {
    if s != [] && s[|s| - 1] <= ' ' then TrimEnd(s[..|s| - 1]) else s
  }

  function Trim(s: string): string {
    TrimEnd(TrimStart(s))
  }

  /** Some character of `s` is above U+0020. */
  predicate HasText(s: string) {
    exists i :: 0 <= i < |s| && s[i] > ' '
  }

  /** trim().isEmpty() fails exactly when some character is above U+0020. */
  lemma BlankMeansSpaces(s: string)
    ensures Trim(s) != [] <==> HasText(s)
  {
    var a := TrimStart(s);
    if a != [] {
      assert s[|s| - |a|] == a[0];
    }
  }

  /** validateAddToCartRequest: quantity, then price, then product id, then
      product name; the first check that fails decides the error. */
  function Validate(req: AddToCartRequest): Outcome {
    if req.quantity.None? || req.quantity.value <= 0 then Fail(Error(IllegalArgument, QuantityNotPositive))
    else if req.price.None? || req.price.value <= 0.0 then Fail(Error(IllegalArgument, PriceNotPositive))
    else if req.productId.None? || Trim(req.productId.value) == [] then Fail(Error(IllegalArgument, ProductIdRequired))
    else if req.productName.None? || Trim(req.productName.value) == [] then Fail(Error(IllegalArgument, ProductNameRequired))
    else Done
  }

  /** A request passes exactly when every field is present, the quantity and
      price are positive and the product id and name are not blank. */
  lemma ValidateAccepts(req: AddToCartRequest)
    ensures Validate(req) == Done <==>
              && req.quantity.Some? && req.quantity.value > 0
              && req.price.Some? && req.price.value > 0.0
              && req.productId.Some? && HasText(req.productId.value)
              && req.productName.Some? && HasText(req.productName.value)
  {
    PresentText(req.productId);
    PresentText(req.productName);
    var idBlank := req.productId.None? || Trim(req.productId.value) == [];
    var nameBlank := req.productName.None? || Trim(req.productName.value) == [];
    var qBad := req.quantity.None? || req.quantity.value <= 0;
    var pBad := req.price.None? || req.price.value <= 0.0;
    assert Validate(req) == Done <==> !qBad && !pBad && !idBlank && !nameBlank;
  }

  /** A null or blank field is one without a character above U+0020. */
  lemma PresentText(o: Option<string>)
    ensures (o.None? || Trim(o.value) == []) <==> !(o.Some? && HasText(o.value))
  {
    if o.Some? {
      BlankMeansSpaces(o.value);
    }
  }

  /** A request that fails gets a validation error naming the first check
      it fails, in the order quantity, price, product id, product name. */
  lemma ValidateOrder(req: AddToCartRequest)
    ensures Validate(req).Fail? ==> Validate(req).error.exception == IllegalArgument
    ensures Validate(req) == Fail(Error(IllegalArgument, QuantityNotPositive)) <==>
              req.quantity.None? || req.quantity.value <= 0
    ensures Validate(req) == Fail(Error(IllegalArgument, PriceNotPositive)) <==>
              && req.quantity.Some? && req.quantity.value > 0
              && (req.price.None? || req.price.value <= 0.0)
    ensures Validate(req) == Fail(Error(IllegalArgument, ProductIdRequired)) <==>
              && req.quantity.Some? && req.quantity.value > 0 && req.price.Some? && req.price.value > 0.0
              && (req.productId.None? || !HasText(req.productId.value))
    ensures Validate(req) == Fail(Error(IllegalArgument, ProductNameRequired)) <==>
              && req.quantity.Some? && req.quantity.value > 0 && req.price.Some? && req.price.value > 0.0
              && req.productId.Some? && HasText(req.productId.value)
              && (req.productName.None? || !HasText(req.productName.value))
  {
    PresentText(req.productId);
    PresentText(req.productName);
    var qBad := req.quantity.None? || req.quantity.value <= 0;
    var pBad := req.price.None? || req.price.value <= 0.0;
    var idBlank := req.productId.None? || Trim(req.productId.value) == [];
    var nameBlank := req.productName.None? || Trim(req.productName.value) == [];
    assert Validate(req) == if qBad then Fail(Error(IllegalArgument, QuantityNotPositive))
                            else if pBad then Fail(Error(IllegalArgument, PriceNotPositive))
                            else if idBlank then Fail(Error(IllegalArgument, ProductIdRequired))
                            else if nameBlank then Fail(Error(IllegalArgument, ProductNameRequired))
                            else Done;
  }

  // ---------------------------------------------------------------------
  // The carts a use-case works on.

  /** The user has at least one cart row. */
  predicate HasCart(t: Tables, userId: string) {
    exists k :: k in t.carts && t.carts[k].userId == userId
  }

  /** `c` is one of the user's carts created last: what findByUserId picks. */
  predicate Latest(t: Tables, userId: string, c: Uuid) {
    && c in t.carts && t.carts[c].userId == userId
    && forall k :: k in t.carts && t.carts[k].userId == userId ==> t.carts[k].createdAt <= t.carts[c].createdAt
  }

  /** The store after create(userId). */
  function Created(t: Tables, userId: string): Tables {
    Tables(t.carts[t.nextId := CartRow(userId, t.clock, t.clock)], t.cartItems, t.nextId + 1, t.clock + 1)
  }

  /** The store after findByUserId(userId).orElseGet(() -> create(userId)). */
  function WithCart(t: Tables, userId: string): Tables {
    if HasCart(t, userId) then t else Created(t, userId)
  }

  /** `v` is what loading cart `c` gives: its rows, earliest first. */
  predicate Loaded(t: Tables, c: Uuid, v: seq<ItemState>) {
    Mirrors(v, t.cartItems, c) && OldestFirst(v)
  }

  /** The lines addToCart starts from: the loaded lines of the user's cart,
      or none for a cart it has just created (which it does not load). */
  predicate Opened(t: Tables, userId: string, c: Uuid, v: seq<ItemState>) {
    if HasCart(t, userId) then Loaded(t, c, v) else v == []
  }

  /** The store after save of cart `c` with lines `v`. */
  function SavedTables(t: Tables, c: Uuid, v: seq<ItemState>): Tables
    requires c in t.carts
  {
    SaveSpec(t, c, v).value.tables
  }

  /** The store after deleteById(c). */
  function Deleted(t: Tables, c: Uuid): Tables {
    Tables(t.carts - {c}, t.cartItems - RowsOf(t.cartItems, c).Keys, t.nextId, t.clock)
  }

  // ---------------------------------------------------------------------
  // One attempt of each use-case.

  datatype UseCase =
    | GetOrCreate(userId: string)
    | GetById(cartId: Uuid)
    | AddTo(userId: string, request: AddToCartRequest)
    | UpdateQuantity(userId: string, itemId: Uuid, quantity: Int32)
    | RemoveFrom(userId: string, itemId: Uuid)
    | Clear(userId: string)
    | Delete(userId: string)

  /** The user a use-case acts for; getCartById acts for nobody. */
  function UserOf(u: UseCase): Option<string> {
    match u
    case GetById(_) => None
    case GetOrCreate(userId) => Some(userId)
    case AddTo(userId, _) => Some(userId)
    case UpdateQuantity(userId, _, _) => Some(userId)
    case RemoveFrom(userId, _) => Some(userId)
    case Clear(userId) => Some(userId)
    case Delete(userId) => Some(userId)
  }

  /** The outcome a result reports. */
  function StatusOf<T>(r: Result<T>): (o: Outcome)
    ensures o.Done? <==> r.Ok?
    ensures o.Fail? ==> o.error == r.error
  {
    if r.Ok? then Done else Fail(r.error)
  }

  const NO_CART_FOR_USER := Fail(Error(IllegalArgument, CartNotFoundForUser))

  /** updateItemQuantity on the loaded lines `v` of cart `c`, then save:
      a missing item fails before anything is written; a null id cannot
      occur, since loaded lines all have ids. */
  predicate QuantitySet(t: Tables, t2: Tables, o: Outcome, c: Uuid, v: seq<ItemState>, itemId: Uuid, quantity: Int32)
    requires c in t.carts
  {
    match FindId(v, itemId)
    case Found(k) => o == Done && t2 == SavedTables(t, c, v[k := v[k].(quantity := quantity)])
    case Missing => o == Fail(Error(IllegalArgument, ItemNotFound)) && t2 == t
    case NullAt(_) => false
  }

  /** One attempt of use-case `u` may take the store from `t` to `t2` and
      end with `o`. Loading a cart fixes its lines only up to the order of
      lines created at the same instant, hence the existentials. */
  ghost predicate Effect(u: UseCase, t: Tables, t2: Tables, o: Outcome) {
    match u
    case GetOrCreate(userId) =>
      o == Done && t2 == WithCart(t, userId)
    case GetById(cartId) =>
      t2 == t && o == if cartId in t.carts then Done else Fail(Error(IllegalArgument, CartNotFoundWithId))
    case AddTo(userId, req) =>
      if Validate(req).Fail? then o == Validate(req) && t2 == t
      else
        var t1 := WithCart(t, userId);
        o == Done &&
        exists c: Uuid, v: seq<ItemState> :: Latest(t1, userId, c) && Opened(t, userId, c, v) &&
          t2 == SavedTables(t1, c, Added(v, c, req.productId.value, req.productName.value,
                                         req.price.value, req.quantity.value))
    case UpdateQuantity(userId, itemId, quantity) =>
      if quantity <= 0 then o == Fail(Error(IllegalArgument, QuantityNotPositive)) && t2 == t
      else if !HasCart(t, userId) then o == NO_CART_FOR_USER && t2 == t
      else
        exists c: Uuid, v: seq<ItemState> :: Latest(t, userId, c) && Loaded(t, c, v) &&
          QuantitySet(t, t2, o, c, v, itemId, quantity)
    case RemoveFrom(userId, itemId) =>
      if !HasCart(t, userId) then o == NO_CART_FOR_USER && t2 == t
      else o == Done && exists c: Uuid, v: seq<ItemState> :: Latest(t, userId, c) && Loaded(t, c, v) && t2 == SavedTables(t, c, Removed(v, itemId))
    case Clear(userId) =>
      if !HasCart(t, userId) then o == NO_CART_FOR_USER && t2 == t
      else o == Done && exists c: Uuid, v: seq<ItemState> :: Latest(t, userId, c) && Loaded(t, c, v) && t2 == SavedTables(t, c, [])
    case Delete(userId) =>
      if !HasCart(t, userId) then o == NO_CART_FOR_USER && t2 == t
      else o == Done && exists c: Uuid :: Latest(t, userId, c) && t2 == Deleted(t, c)
  }

  // ---------------------------------------------------------------------
  // The steps of a successful attempt make up its Effect.

  lemma AddToWitness(t: Tables, t1: Tables, t2: Tables, userId: string, req: AddToCartRequest,
                     c: Uuid, v: seq<ItemState>)
    requires Validate(req) == Done && t1 == WithCart(t, userId)
    requires Latest(t1, userId, c) && Opened(t, userId, c, v)
    requires t2 == SavedTables(t1, c, Added(v, c, req.productId.value, req.productName.value,
                                            req.price.value, req.quantity.value))
    ensures Effect(AddTo(userId, req), t, t2, Done)
  {
  }

  lemma QuantityWitness(t: Tables, t2: Tables, userId: string, itemId: Uuid, quantity: Int32,
                        c: Uuid, v: seq<ItemState>)
    requires quantity > 0 && Latest(t, userId, c) && Loaded(t, c, v) && FindId(v, itemId).Found?
    requires t2 == SavedTables(t, c, v[FindId(v, itemId).index := v[FindId(v, itemId).index].(quantity := quantity)])
    ensures Effect(UpdateQuantity(userId, itemId, quantity), t, t2, Done)
  {
  }

  lemma RemoveWitness(t: Tables, t2: Tables, userId: string, itemId: Uuid, c: Uuid, v: seq<ItemState>)
    requires Latest(t, userId, c) && Loaded(t, c, v) && t2 == SavedTables(t, c, Removed(v, itemId))
    ensures Effect(RemoveFrom(userId, itemId), t, t2, Done)
  {
  }

  // ---------------------------------------------------------------------
  // The cart's operations keep loaded lines coherent with the store.

  /** Appending a line made for the cart, whose id (if any) names a row of
      the cart with its product and timestamps and is not yet used. */
  lemma CoherentAppend(a: seq<ItemState>, x: ItemState, rows: map<Uuid, ItemRow>, c: Uuid)
    requires Coherent(a, rows, c) && x.cartId == c
    requires x.id.Some? ==> && x.id.value in rows && rows[x.id.value].cartId == c
                            && x.productId == rows[x.id.value].productId
                            && x.createdAt == Some(rows[x.id.value].createdAt)
                            && x.updatedAt == Some(rows[x.id.value].updatedAt)
                            && x.id.value !in IdsOf(a)
    ensures Coherent(a + [x], rows, c)
  {
    var w := a + [x];
    assert forall j :: 0 <= j < |a| ==> w[j] == a[j];
    forall i, j | 0 <= i < j < |w| && w[i].id.Some? ensures w[i].id != w[j].id {
      if j == |a| && x.id.Some? {
        assert a[i].id.value in IdsOf(a);
      }
    }
  }

  lemma CoherentAdded(v: seq<ItemState>, rows: map<Uuid, ItemRow>, c: Uuid, productId: string,
                      productName: string, price: real, quantity: Int32)
    requires Coherent(v, rows, c)
    ensures Coherent(Added(v, c, productId, productName, price, quantity), rows, c)
  {
    match FirstWithProduct(v, productId) {
      case None =>
        CoherentAppend(v, NewItem(c, productId, productName, price, quantity), rows, c);
      case Some(k) =>
        var w := Added(v, c, productId, productName, price, quantity);
        assert forall j :: 0 <= j < |v| && j != k ==> w[j] == v[j];
    }
  }

  lemma CoherentQuantity(v: seq<ItemState>, rows: map<Uuid, ItemRow>, c: Uuid, k: nat, quantity: Int32)
    requires Coherent(v, rows, c) && k < |v|
    ensures Coherent(v[k := v[k].(quantity := quantity)], rows, c)
  {
    var w := v[k := v[k].(quantity := quantity)];
    assert forall j :: 0 <= j < |v| && j != k ==> w[j] == v[j];
  }

  lemma CoherentPrefix(v: seq<ItemState>, rows: map<Uuid, ItemRow>, c: Uuid, n: nat)
    requires Coherent(v, rows, c) && n <= |v|
    ensures Coherent(v[..n], rows, c)
  {
    assert forall j :: 0 <= j < n ==> v[..n][j] == v[j];
  }

  /** removeItem only drops lines, so the ids left are among the old ones. */
  lemma RemovedIds(v: seq<ItemState>, itemId: Uuid)
    ensures IdsOf(Removed(v, itemId)) == IdsOf(v) - {itemId}
  {
    var r := Removed(v, itemId);
    RemovedMembers(v, itemId);
    forall k | k in IdsOf(r) ensures k in IdsOf(v) && k != itemId {
      var j :| 0 <= j < |r| && r[j].id == Some(k);
      assert r[j] in r;
      var i :| 0 <= i < |v| && v[i] == r[j];
    }
    forall k | k in IdsOf(v) && k != itemId ensures k in IdsOf(r) {
      var i :| 0 <= i < |v| && v[i].id == Some(k);
      assert v[i] in v;
      var j :| 0 <= j < |r| && r[j] == v[i];
    }
  }

  lemma {:induction false} CoherentRemoved(v: seq<ItemState>, rows: map<Uuid, ItemRow>, c: Uuid, itemId: Uuid)
    requires Coherent(v, rows, c)
    ensures Coherent(Removed(v, itemId), rows, c)
  {
    if v != [] {
      var n := |v| - 1;
      CoherentPrefix(v, rows, c, n);
      CoherentRemoved(v[..n], rows, c, itemId);
      if v[n].id != Some(itemId) {
        RemovedIds(v[..n], itemId);
        CoherentAppend(Removed(v[..n], itemId), v[n], rows, c);
      }
    }
  }

  /** Loaded lines, and the lines the cart's operations make of them, can
      be saved coherently. */
  lemma LoadedCoherent(t: Tables, c: Uuid, v: seq<ItemState>)
    requires Loaded(t, c, v)
    ensures Coherent(v, t.cartItems, c)
    ensures !HasNullId(v) && forall j :: 0 <= j < |v| ==> v[j].id.Some?
  {
    MirrorsCoherent(v, t.cartItems, c);
  }

  // ---------------------------------------------------------------------
  // Facts about the store after one attempt.

  /** The rows of a cart that mirrors `v` are keyed by the ids of `v`. */
  lemma MirrorsKeys(v: seq<ItemState>, rows: map<Uuid, ItemRow>, c: Uuid)
    requires Mirrors(v, rows, c)
    ensures RowsOf(rows, c).Keys == IdsOf(v)
  {
    forall k | k in IdsOf(v) ensures k in RowsOf(rows, c) {
      var j :| 0 <= j < |v| && v[j].id == Some(k);
    }
  }

  /** A save of lines that all have ids keeps those ids. */
  lemma SavedIds(t: Tables, c: Uuid, w: seq<ItemState>)
    requires c in t.carts && forall j :: 0 <= j < |w| ==> w[j].id.Some?
    ensures IdsOf(SaveSpec(t, c, w).value.items) == IdsOf(w)
  {
    var s := SaveSpec(t, c, w).value;
    VisitAllShape(RowsOf(t.cartItems, c), c, Start(t), w);
    forall j | 0 <= j < |w| ensures s.items[j].id == w[j].id {
      SaveItem(t, c, w, j);
    }
    SameIds(s.items, w);
  }

  /** Lists with the same ids position by position carry the same ids. */
  lemma SameIds(a: seq<ItemState>, b: seq<ItemState>)
    requires |a| == |b| && forall j :: 0 <= j < |a| ==> a[j].id == b[j].id
    ensures IdsOf(a) == IdsOf(b)
  {
    forall k | k in IdsOf(a) ensures k in IdsOf(b) {
      var j :| 0 <= j < |a| && a[j].id == Some(k);
      assert b[j].id == Some(k);
    }
    forall k | k in IdsOf(b) ensures k in IdsOf(a) {
      var j :| 0 <= j < |b| && b[j].id == Some(k);
      assert a[j].id == Some(k);
    }
  }

  /** Rows of carts other than `c` read the same after a write that kept them. */
  lemma OthersRows(before: map<Uuid, ItemRow>, rows: map<Uuid, ItemRow>, c: Uuid, k: Uuid)
    requires OthersKept(before, rows, c) && k != c
    ensures RowsOf(rows, k) == RowsOf(before, k)
  {
  }

  lemma CreatedIssued(t: Tables, userId: string)
    requires t.Issued()
    ensures Created(t, userId).Issued() && t.nextId !in t.carts
    ensures !HasCart(t, userId) ==> Latest(WithCart(t, userId), userId, t.nextId)
  {
  }

  /** The step from `t` to `t2` changed cart `c` only: the same carts
      exist, the others with the same rows and items, and `c` still
      belongs to the same user. */
  ghost predicate OnlyCart(t: Tables, t2: Tables, c: Uuid) {
    && t2.carts.Keys == t.carts.Keys && c in t.carts
    && t2.carts[c].userId == t.carts[c].userId
    && (forall k :: k in t.carts && k != c ==> t2.carts[k] == t.carts[k])
    && (forall k :: k != c ==> RowsOf(t2.cartItems, k) == RowsOf(t.cartItems, k))
  }

  /** A save the use-cases make: of lines coherent with the cart's rows. */
  lemma SaveOf(t: Tables, c: Uuid, w: seq<ItemState>)
    requires t.Issued() && c in t.carts && Coherent(w, t.cartItems, c)
    ensures var t2 := SavedTables(t, c, w);
            && t2.Issued() && OnlyCart(t, t2, c)
            && Mirrors(SaveSpec(t, c, w).value.items, t2.cartItems, c)
  {
    SaveMirrors(t, c, w);
    var t2 := SavedTables(t, c, w);
    forall k | k != c ensures RowsOf(t2.cartItems, k) == RowsOf(t.cartItems, k) {
      OthersRows(t.cartItems, t2.cartItems, c, k);
    }
  }

  /** An attempt that fails has written nothing: every check comes before
      the first write. Its error is never a write conflict, which only a
      commit raises. */
  lemma FailureWritesNothing(u: UseCase, t: Tables, t2: Tables, o: Outcome)
    requires Effect(u, t, t2, o) && o.Fail?
    ensures t2 == t
    ensures o.error.exception != OptimisticLockingFailure
  {
    if u.UpdateQuantity? && u.quantity > 0 && HasCart(t, u.userId) {
      var c: Uuid, v: seq<ItemState> :| Latest(t, u.userId, c) && Loaded(t, c, v) && QuantitySet(t, t2, o, c, v, u.itemId, u.quantity);
    }
  }

  /** getOrCreateCart returns the user's cart when there is one, writing
      nothing; otherwise it creates exactly one, with no items, which is
      then the user's latest cart. */
  lemma GetOrCreateEffect(t: Tables, t2: Tables, userId: string)
    requires t.Issued() && Effect(GetOrCreate(userId), t, t2, Done)
    ensures t2.Issued() && HasCart(t2, userId)
    ensures HasCart(t, userId) ==> t2 == t
    ensures !HasCart(t, userId) ==>
              && t.nextId !in t.carts && t2.carts.Keys == t.carts.Keys + {t.nextId}
              && Latest(t2, userId, t.nextId) && RowsOf(t2.cartItems, t.nextId) == RowsOf(t.cartItems, t.nextId)
              && (forall k :: k in t.carts ==> t2.carts[k] == t.carts[k])
  {
    if !HasCart(t, userId) {
      assert t.nextId in t2.carts;
    }
  }

  /** Some row of cart `c` is for the product. */
  predicate HasProduct(t: Tables, c: Uuid, productId: string) {
    exists k :: k in t.cartItems && t.cartItems[k].cartId == c && t.cartItems[k].productId == productId
  }

  /** After a save of coherent lines, line i is stored in a row of the cart
      with its product and quantity (under its own id when it had one). */
  lemma SavedLine(t: Tables, c: Uuid, w: seq<ItemState>, i: nat)
    requires t.Issued() && c in t.carts && Coherent(w, t.cartItems, c) && i < |w|
    ensures var rows := SavedTables(t, c, w).cartItems;
            exists k :: && k in rows && rows[k].cartId == c && rows[k].productId == w[i].productId
                        && rows[k].quantity == w[i].quantity && (w[i].id.Some? ==> k == w[i].id.value)
  {
    SaveMirrors(t, c, w);
    SaveItem(t, c, w, i);
    var x := SaveSpec(t, c, w).value.items[i];
    var rows := SavedTables(t, c, w).cartItems;
    assert ItemOfRow(x.id.value, rows[x.id.value]) == x;
  }

  /** After a save of coherent lines that all have ids, the cart's rows are
      keyed by exactly those ids. */
  lemma SavedKeys(t: Tables, c: Uuid, w: seq<ItemState>)
    requires t.Issued() && c in t.carts && Coherent(w, t.cartItems, c)
    requires forall j :: 0 <= j < |w| ==> w[j].id.Some?
    ensures RowsOf(SavedTables(t, c, w).cartItems, c).Keys == IdsOf(w)
  {
    SaveMirrors(t, c, w);
    MirrorsKeys(SaveSpec(t, c, w).value.items, SavedTables(t, c, w).cartItems, c);
    SavedIds(t, c, w);
  }

  /** addItem on loaded lines, then save: the product is in a row of the
      cart, and no other cart changes. */
  lemma AddedSave(t: Tables, c: Uuid, v: seq<ItemState>, productId: string, productName: string,
                  price: real, quantity: Int32)
    requires t.Issued() && c in t.carts && Coherent(v, t.cartItems, c)
    ensures var t2 := SavedTables(t, c, Added(v, c, productId, productName, price, quantity));
            t2.Issued() && OnlyCart(t, t2, c) && HasProduct(t2, c, productId)
  {
    var w := Added(v, c, productId, productName, price, quantity);
    CoherentAdded(v, t.cartItems, c, productId, productName, price, quantity);
    SaveOf(t, c, w);
    var i := match FirstWithProduct(v, productId) case Some(k) => k case None => |v|;
    assert i < |w| && w[i].productId == productId;
    SavedLine(t, c, w, i);
  }

  /** addToCart leaves the product in a row of the user's latest (perhaps
      new) cart, and changes no other cart. */
  lemma AddToCartEffect(t: Tables, t2: Tables, userId: string, req: AddToCartRequest)
    requires t.Issued() && Effect(AddTo(userId, req), t, t2, Done)
    ensures t2.Issued()
    ensures exists c :: Latest(WithCart(t, userId), userId, c) && OnlyCart(WithCart(t, userId), t2, c)
                        && HasProduct(t2, c, req.productId.value)
  {
    ValidateAccepts(req);
    var t1 := WithCart(t, userId);
    CreatedIssued(t, userId);
    assert t1.Issued();
    var c: Uuid, v: seq<ItemState> :| Latest(t1, userId, c) && Opened(t, userId, c, v) &&
      t2 == SavedTables(t1, c, Added(v, c, req.productId.value, req.productName.value, req.price.value, req.quantity.value));
    if HasCart(t, userId) {
      LoadedCoherent(t1, c, v);
    }
    AddedSave(t1, c, v, req.productId.value, req.productName.value, req.price.value, req.quantity.value);
  }

  /** updateItemQuantity on an item of the user's latest cart leaves that
      item's row with exactly the new quantity, and changes no other cart. */
  lemma UpdateQuantityEffect(t: Tables, t2: Tables, userId: string, itemId: Uuid, quantity: Int32)
    requires t.Issued() && Effect(UpdateQuantity(userId, itemId, quantity), t, t2, Done)
    ensures t2.Issued()
    ensures exists c :: Latest(t, userId, c) && OnlyCart(t, t2, c)
                        && itemId in RowsOf(t.cartItems, c) && itemId in RowsOf(t2.cartItems, c)
                        && t2.cartItems[itemId].quantity == quantity
  {
    var c: Uuid, v: seq<ItemState> :| Latest(t, userId, c) && Loaded(t, c, v) && QuantitySet(t, t2, Done, c, v, itemId, quantity);
    LoadedCoherent(t, c, v);
    var k := FindId(v, itemId).index;
    var w := v[k := v[k].(quantity := quantity)];
    CoherentQuantity(v, t.cartItems, c, k, quantity);
    SaveOf(t, c, w);
    SavedLine(t, c, w, k);
    assert itemId in RowsOf(t.cartItems, c);
  }

  /** removeItemFromCart removes exactly the row with the id (if the user's
      latest cart has it) and changes no other cart. */
  lemma RemoveEffect(t: Tables, t2: Tables, userId: string, itemId: Uuid)
    requires t.Issued() && Effect(RemoveFrom(userId, itemId), t, t2, Done)
    ensures t2.Issued()
    ensures exists c :: Latest(t, userId, c) && OnlyCart(t, t2, c)
                        && RowsOf(t2.cartItems, c).Keys == RowsOf(t.cartItems, c).Keys - {itemId}
  {
    var c: Uuid, v: seq<ItemState> :| Latest(t, userId, c) && Loaded(t, c, v) && t2 == SavedTables(t, c, Removed(v, itemId));
    RemovedSave(t, c, v, itemId);
  }

  /** removeItem on loaded lines, then save: exactly the row with the id
      is gone from the cart, and no other cart changes. */
  lemma RemovedSave(t: Tables, c: Uuid, v: seq<ItemState>, itemId: Uuid)
    requires t.Issued() && c in t.carts && Loaded(t, c, v)
    ensures var t2 := SavedTables(t, c, Removed(v, itemId));
            && t2.Issued() && OnlyCart(t, t2, c)
            && RowsOf(t2.cartItems, c).Keys == RowsOf(t.cartItems, c).Keys - {itemId}
  {
    LoadedCoherent(t, c, v);
    CoherentRemoved(v, t.cartItems, c, itemId);
    SaveOf(t, c, Removed(v, itemId));
    RemovedKeys(t, c, v, itemId);
  }

  lemma RemovedKeys(t: Tables, c: Uuid, v: seq<ItemState>, itemId: Uuid)
    requires t.Issued() && c in t.carts && Loaded(t, c, v)
    requires Coherent(Removed(v, itemId), t.cartItems, c)
    ensures RowsOf(SavedTables(t, c, Removed(v, itemId)).cartItems, c).Keys == RowsOf(t.cartItems, c).Keys - {itemId}
  {
    var w := Removed(v, itemId);
    MirrorsKeys(v, t.cartItems, c);
    RemovedAllIds(v, itemId);
    SavedKeys(t, c, w);
    RemovedIds(v, itemId);
  }

  /** When every line has an id, so does every line removeItem keeps. */
  lemma RemovedAllIds(v: seq<ItemState>, itemId: Uuid)
    requires forall j :: 0 <= j < |v| ==> v[j].id.Some?
    ensures forall j :: 0 <= j < |Removed(v, itemId)| ==> Removed(v, itemId)[j].id.Some?
  {
    var w := Removed(v, itemId);
    RemovedMembers(v, itemId);
    assert forall j :: 0 <= j < |w| ==> w[j] in v;
  }

  /** clearCart leaves the user's latest cart without rows and changes no
      other cart. */
  lemma ClearEffect(t: Tables, t2: Tables, userId: string)
    requires t.Issued() && Effect(Clear(userId), t, t2, Done)
    ensures t2.Issued()
    ensures exists c :: Latest(t, userId, c) && OnlyCart(t, t2, c) && RowsOf(t2.cartItems, c) == map[]
  {
    var c: Uuid, v: seq<ItemState> :| Latest(t, userId, c) && Loaded(t, c, v) && t2 == SavedTables(t, c, []);
    SaveOf(t, c, []);
    SaveIdsEmpty(t, c);
    MirrorsKeys(SaveSpec(t, c, []).value.items, t2.cartItems, c);
  }

  lemma SaveIdsEmpty(t: Tables, c: Uuid)
    requires c in t.carts
    ensures SaveSpec(t, c, []).value.items == []
  {
    VisitAllShape(RowsOf(t.cartItems, c), c, Start(t), []);
  }

  /** deleteCart removes the user's latest cart and all its rows, and
      nothing else. */
  lemma DeleteEffect(t: Tables, t2: Tables, userId: string)
    requires t.Issued() && Effect(Delete(userId), t, t2, Done)
    ensures t2.Issued()
    ensures exists c :: && Latest(t, userId, c) && t2.carts.Keys == t.carts.Keys - {c}
                        && RowsOf(t2.cartItems, c) == map[]
                        && (forall k :: k in t2.carts ==> t2.carts[k] == t.carts[k])
                        && (forall k :: k != c ==> RowsOf(t2.cartItems, k) == RowsOf(t.cartItems, k))
  {
    var c: Uuid :| Latest(t, userId, c) && t2 == Deleted(t, c);
    DeletedSpares(t, c);
  }

  /** deleteById(c) removes cart c and its rows and nothing else. */
  lemma DeletedSpares(t: Tables, c: Uuid)
    requires t.Issued()
    ensures var t2 := Deleted(t, c);
            && t2.Issued() && t2.carts.Keys == t.carts.Keys - {c} && RowsOf(t2.cartItems, c) == map[]
            && (forall k :: k in t2.carts ==> t2.carts[k] == t.carts[k])
            && (forall k :: k != c ==> RowsOf(t2.cartItems, k) == RowsOf(t.cartItems, k))
  {
    var t2 := Deleted(t, c);
    forall k | k != c ensures RowsOf(t2.cartItems, k) == RowsOf(t.cartItems, k) {
      assert forall j :: j in RowsOf(t.cartItems, k) ==> j !in RowsOf(t.cartItems, c);
    }
  }

  /** Every attempt keeps the store's counters ahead of what it holds. */
  lemma EffectKeepsIssued(u: UseCase, t: Tables, t2: Tables, o: Outcome)
    requires t.Issued() && Effect(u, t, t2, o)
    ensures t2.Issued()
  {
    if o.Fail? {
      FailureWritesNothing(u, t, t2, o);
    } else {
      match u {
        case GetOrCreate(userId) => GetOrCreateEffect(t, t2, userId);
        case GetById(_) =>
        case AddTo(userId, req) => AddToCartEffect(t, t2, userId, req);
        case UpdateQuantity(userId, itemId, quantity) => UpdateQuantityEffect(t, t2, userId, itemId, quantity);
        case RemoveFrom(userId, itemId) => RemoveEffect(t, t2, userId, itemId);
        case Clear(userId) => ClearEffect(t, t2, userId);
        case Delete(userId) => DeleteEffect(t, t2, userId);
      }
    }
  }

  /** save moves the id generator and the clock only forward. */
  lemma SavedAdvances(t: Tables, c: Uuid, v: seq<ItemState>)
    requires c in t.carts
    ensures t.Before(SavedTables(t, c, v))
  {
    VisitAllGrows(RowsOf(t.cartItems, c), c, Start(t), v);
  }

  /** No attempt moves the id generator or the clock back, so what one
      attempt issued no later attempt issues again. */
  lemma EffectAdvances(u: UseCase, t: Tables, t2: Tables, o: Outcome)
    requires Effect(u, t, t2, o)
    ensures t.Before(t2)
  {
    if o.Fail? {
      FailureWritesNothing(u, t, t2, o);
    } else {
      match u {
        case GetOrCreate(_) =>
        case GetById(_) =>
        case AddTo(userId, req) => AddToAdvances(t, t2, userId, req);
        case UpdateQuantity(userId, itemId, quantity) => QuantityAdvances(t, t2, userId, itemId, quantity);
        case RemoveFrom(userId, itemId) => RemoveAdvances(t, t2, userId, itemId);
        case Clear(userId) =>
          var c: Uuid, v: seq<ItemState> :| Latest(t, userId, c) && Loaded(t, c, v) && t2 == SavedTables(t, c, []);
          SavedAdvances(t, c, []);
        case Delete(_) =>
      }
    }
  }

  lemma AddToAdvances(t: Tables, t2: Tables, userId: string, req: AddToCartRequest)
    requires Effect(AddTo(userId, req), t, t2, Done)
    ensures t.Before(t2)
  {
    var t1 := WithCart(t, userId);
    forall c: Uuid, w: seq<ItemState> | c in t1.carts ensures t1.Before(SavedTables(t1, c, w)) {
      SavedAdvances(t1, c, w);
    }
  }

  lemma QuantityAdvances(t: Tables, t2: Tables, userId: string, itemId: Uuid, quantity: Int32)
    requires Effect(UpdateQuantity(userId, itemId, quantity), t, t2, Done)
    ensures t.Before(t2)
  {
    var c: Uuid, v: seq<ItemState> :| Latest(t, userId, c) && Loaded(t, c, v) &&
      QuantitySet(t, t2, Done, c, v, itemId, quantity);
    var k := FindId(v, itemId).index;
    SavedAdvances(t, c, v[k := v[k].(quantity := quantity)]);
  }

  lemma RemoveAdvances(t: Tables, t2: Tables, userId: string, itemId: Uuid)
    requires Effect(RemoveFrom(userId, itemId), t, t2, Done)
    ensures t.Before(t2)
  {
    var c: Uuid, v: seq<ItemState> :| Latest(t, userId, c) && Loaded(t, c, v) &&
      t2 == SavedTables(t, c, Removed(v, itemId));
    SavedAdvances(t, c, Removed(v, itemId));
  }

  /** A use-case acting for one user leaves every cart of every other user,
      and its rows, as they were. */
  lemma EffectKeepsOtherUsers(u: UseCase, t: Tables, t2: Tables, o: Outcome, k: Uuid)
    requires t.Issued() && Effect(u, t, t2, o)
    requires k in t.carts && UserOf(u) != Some(t.carts[k].userId)
    ensures k in t2.carts && t2.carts[k] == t.carts[k]
    ensures RowsOf(t2.cartItems, k) == RowsOf(t.cartItems, k)
  {
    if o.Fail? {
      FailureWritesNothing(u, t, t2, o);
    } else {
      match u {
        case GetOrCreate(userId) => GetOrCreateEffect(t, t2, userId);
        case GetById(_) =>
        case AddTo(userId, req) => AddToSparesOthers(t, t2, userId, req, k);
        case UpdateQuantity(userId, itemId, quantity) => UpdateSparesOthers(t, t2, userId, itemId, quantity, k);
        case RemoveFrom(userId, itemId) => RemoveSparesOthers(t, t2, userId, itemId, k);
        case Clear(userId) => ClearSparesOthers(t, t2, userId, k);
        case Delete(userId) => DeleteSparesOthers(t, t2, userId, k);
      }
    }
  }

  /** A step that changed only one of the user's carts kept the carts of
      every other user. */
  lemma OtherCartKept(t: Tables, t2: Tables, userId: string, k: Uuid)
    requires exists c :: Latest(t, userId, c) && OnlyCart(t, t2, c)
    requires k in t.carts && t.carts[k].userId != userId
    ensures k in t2.carts && t2.carts[k] == t.carts[k]
    ensures RowsOf(t2.cartItems, k) == RowsOf(t.cartItems, k)
  {
    var c :| Latest(t, userId, c) && OnlyCart(t, t2, c);
    assert k != c;
  }

  lemma AddToSparesOthers(t: Tables, t2: Tables, userId: string, req: AddToCartRequest, k: Uuid)
    requires t.Issued() && Effect(AddTo(userId, req), t, t2, Done)
    requires k in t.carts && t.carts[k].userId != userId
    ensures k in t2.carts && t2.carts[k] == t.carts[k]
    ensures RowsOf(t2.cartItems, k) == RowsOf(t.cartItems, k)
  {
    AddToCartEffect(t, t2, userId, req);
    CreatedIssued(t, userId);
    OtherCartKept(WithCart(t, userId), t2, userId, k);
  }

  lemma UpdateSparesOthers(t: Tables, t2: Tables, userId: string, itemId: Uuid, quantity: Int32, k: Uuid)
    requires t.Issued() && Effect(UpdateQuantity(userId, itemId, quantity), t, t2, Done)
    requires k in t.carts && t.carts[k].userId != userId
    ensures k in t2.carts && t2.carts[k] == t.carts[k]
    ensures RowsOf(t2.cartItems, k) == RowsOf(t.cartItems, k)
  {
    UpdateQuantityEffect(t, t2, userId, itemId, quantity);
    OtherCartKept(t, t2, userId, k);
  }

  lemma RemoveSparesOthers(t: Tables, t2: Tables, userId: string, itemId: Uuid, k: Uuid)
    requires t.Issued() && Effect(RemoveFrom(userId, itemId), t, t2, Done)
    requires k in t.carts && t.carts[k].userId != userId
    ensures k in t2.carts && t2.carts[k] == t.carts[k]
    ensures RowsOf(t2.cartItems, k) == RowsOf(t.cartItems, k)
  {
    RemoveEffect(t, t2, userId, itemId);
    OtherCartKept(t, t2, userId, k);
  }

  lemma ClearSparesOthers(t: Tables, t2: Tables, userId: string, k: Uuid)
    requires t.Issued() && Effect(Clear(userId), t, t2, Done)
    requires k in t.carts && t.carts[k].userId != userId
    ensures k in t2.carts && t2.carts[k] == t.carts[k]
    ensures RowsOf(t2.cartItems, k) == RowsOf(t.cartItems, k)
  {
    ClearEffect(t, t2, userId);
    OtherCartKept(t, t2, userId, k);
  }

  lemma DeleteSparesOthers(t: Tables, t2: Tables, userId: string, k: Uuid)
    requires t.Issued() && Effect(Delete(userId), t, t2, Done)
    requires k in t.carts && t.carts[k].userId != userId
    ensures k in t2.carts && t2.carts[k] == t.carts[k]
    ensures RowsOf(t2.cartItems, k) == RowsOf(t.cartItems, k)
  {
    var c :| Latest(t, userId, c) && t2 == Deleted(t, c);
    DeletedSpares(t, c);
    assert k != c;
  }
}
