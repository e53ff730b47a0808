/** CartService.java: the use-cases, each a unit of work run through the
    repository, and the retry policy around them. Each use-case method is
    one attempt and is proved to do what `Effect` in module UseCases says;
    `Execute` runs one through the retry policy of module RetryPolicy. */
module Service {
  import opened Common
  import opened Items
  import opened Carts
  import opened Store
  import opened Reconcile
  import opened Repository
  import opened RetryPolicy
  import opened UseCases

  /** What a use-case hands back: the cart, or nothing (clearCart and
      deleteCart return void). */
  datatype Reply = CartReply(cart: Cart) | NoReply

  class CartService {
    const repo: CartRepository

    /** The store's counters are ahead of every key and time it holds. */
    ghost predicate Valid()
      reads repo.db
    {
      repo.db.Snapshot().Issued()
    }

    constructor (repo: CartRepository)
      ensures this.repo == repo
    {
      this.repo := repo;
    }

    /** getOrCreateCart(userId): the user's latest cart, loaded, or else a
        new empty one. */
    method GetOrCreateCart(userId: string) returns (cart: Cart)
      requires Valid()
      modifies repo.db
      ensures Valid()
      ensures Effect(GetOrCreate(userId), old(repo.db.Snapshot()), repo.db.Snapshot(), Done)
      ensures fresh(cart) && cart.Valid() && (forall x :: x in cart.items ==> fresh(x))
      ensures cart.userId == userId && Latest(repo.db.Snapshot(), userId, cart.id)
      ensures Opened(old(repo.db.Snapshot()), userId, cart.id, cart.View())
    {
      var found := repo.FindByUserId(userId);
      match found {
        case Some(c) =>
          cart := c;
        case None =>
          cart := repo.Create(userId);
          CreatedIssued(old(repo.db.Snapshot()), userId);
      }
    }

    /** getCartById(cartId): the cart, loaded, or a not-found error. */
    method GetCartById(cartId: Uuid) returns (r: Result<Cart>)
      modifies repo.db
      ensures Effect(GetById(cartId), old(repo.db.Snapshot()), repo.db.Snapshot(), StatusOf(r))
      ensures r.Ok? ==> var cart := r.value;
              && fresh(cart) && cart.Valid() && cart.id == cartId && Loaded(repo.db.Snapshot(), cartId, cart.View())
    {
      var found := repo.FindById(cartId);
      match found {
        case Some(c) => r := Ok(c);
        case None => r := Err(Error(IllegalArgument, CartNotFoundWithId));
      }
    }

    /** findCartByUserId(userId): the user's latest cart, loaded, or a
        not-found error. */
    method FindCartByUserId(userId: string) returns (r: Result<Cart>)
      ensures r.Err? <==> !HasCart(repo.db.Snapshot(), userId)
      ensures r.Err? ==> r.error == NO_CART_FOR_USER.error
      ensures r.Ok? ==> var cart := r.value;
              && fresh(cart) && cart.Valid() && (forall x :: x in cart.items ==> fresh(x))
              && cart.userId == userId && Latest(repo.db.Snapshot(), userId, cart.id)
              && Loaded(repo.db.Snapshot(), cart.id, cart.View())
    {
      var found := repo.FindByUserId(userId);
      match found {
        case Some(c) => r := Ok(c);
        case None => r := Err(NO_CART_FOR_USER.error);
      }
    }

    /** addToCart(userId, request): check the request, get or create the
        cart, add the line, save. The cart returned mirrors its rows. */
    method AddToCart(userId: string, request: AddToCartRequest) returns (r: Result<Cart>)
      requires Valid()
      modifies repo.db
      ensures Valid()
      ensures Effect(AddTo(userId, request), old(repo.db.Snapshot()), repo.db.Snapshot(), StatusOf(r))
      ensures r.Ok? ==> r.value.Valid() && r.value.userId == userId
                        && Mirrors(r.value.View(), repo.db.cartItems, r.value.id)
    {
      var check := Validate(request);
      if check.Fail? {
        return Err(check.error);
      }
      ghost var t := repo.db.Snapshot();
      var cart := GetOrCreateCart(userId);
      ghost var t1 := repo.db.Snapshot();
      ghost var v := cart.View();
      if HasCart(t, userId) {
        LoadedCoherent(t1, cart.id, v);
      }
      AddLine(cart, request.productId.value, request.productName.value, request.price.value, request.quantity.value);
      AddToWitness(t, t1, repo.db.Snapshot(), userId, request, cart.id, v);
      r := Ok(cart);
    }

    /** The rest of addToCart, on the cart it got or created: add the line
        and save. */
    method AddLine(cart: Cart, productId: string, productName: string, price: real, quantity: Int32)
      requires Valid() && cart.Valid() && cart.id in repo.db.carts
      requires Coherent(cart.View(), repo.db.cartItems, cart.id)
      modifies repo.db, cart, set x | x in cart.items
      ensures Valid() && cart.Valid()
      ensures repo.db.Snapshot()
              == SavedTables(old(repo.db.Snapshot()), cart.id, Added(old(cart.View()), cart.id, productId, productName, price, quantity))
      ensures Mirrors(cart.View(), repo.db.cartItems, cart.id)
    {
      ghost var v := cart.View();
      cart.AddItem(productId, productName, price, quantity);
      CoherentAdded(v, repo.db.cartItems, cart.id, productId, productName, price, quantity);
      SaveCart(cart);
    }

    /** updateItemQuantity(userId, itemId, quantity): reject a quantity
        below 1, find the user's cart, set the line's quantity, save. */
    method UpdateItemQuantity(userId: string, itemId: Uuid, quantity: Int32) returns (r: Result<Cart>)
      requires Valid()
      modifies repo.db
      ensures Valid()
      ensures Effect(UpdateQuantity(userId, itemId, quantity), old(repo.db.Snapshot()), repo.db.Snapshot(), StatusOf(r))
      ensures r.Ok? ==> r.value.Valid() && r.value.userId == userId
                        && Mirrors(r.value.View(), repo.db.cartItems, r.value.id)
    {
      if quantity <= 0 {
        return Err(Error(IllegalArgument, QuantityNotPositive));
      }
      var found := FindCartByUserId(userId);
      if found.Err? {
        return Err(found.error);
      }
      var cart := found.value;
      if !cart.BelongsToUser(userId) {
        // The cart was looked up by this user id: the ownership check never fails.
        assert false;
      }
      ghost var t := repo.db.Snapshot();
      ghost var v := cart.View();
      r := SetQuantity(cart, userId, itemId, quantity);
      assert Latest(t, userId, cart.id) && Loaded(t, cart.id, v)
             && QuantitySet(t, repo.db.Snapshot(), StatusOf(r), cart.id, v, itemId, quantity);
    }

    /** The rest of updateItemQuantity, on the user's loaded cart: set the
        line's quantity, or fail when there is no such line; then save. */
    method SetQuantity(cart: Cart, userId: string, itemId: Uuid, quantity: Int32) returns (r: Result<Cart>)
      requires Valid() && quantity > 0 && cart.Valid() && cart.userId == userId
      requires Latest(repo.db.Snapshot(), userId, cart.id) && Loaded(repo.db.Snapshot(), cart.id, cart.View())
      modifies repo.db, cart, set x | x in cart.items
      ensures Valid()
      ensures QuantitySet(old(repo.db.Snapshot()), repo.db.Snapshot(), StatusOf(r), cart.id, old(cart.View()), itemId, quantity)
      ensures r.Ok? ==> r.value == cart && cart.Valid() && Mirrors(cart.View(), repo.db.cartItems, cart.id)
    {
      ghost var t := repo.db.Snapshot();
      ghost var v := cart.View();
      LoadedCoherent(t, cart.id, v);
      var changed := cart.UpdateItemQuantity(itemId, quantity);
      if changed.Fail? {
        return Err(changed.error);
      }
      ghost var k := FindId(v, itemId).index;
      CoherentQuantity(v, t.cartItems, cart.id, k, quantity);
      SaveCart(cart);
      r := Ok(cart);
    }

    /** removeItemFromCart(userId, itemId): find the user's cart, drop the
        lines with the id, save. */
    method RemoveItemFromCart(userId: string, itemId: Uuid) returns (r: Result<Cart>)
      requires Valid()
      modifies repo.db
      ensures Valid()
      ensures Effect(RemoveFrom(userId, itemId), old(repo.db.Snapshot()), repo.db.Snapshot(), StatusOf(r))
      ensures r.Ok? ==> r.value.Valid() && r.value.userId == userId
                        && Mirrors(r.value.View(), repo.db.cartItems, r.value.id)
    {
      var found := FindCartByUserId(userId);
      if found.Err? {
        return Err(found.error);
      }
      var cart := found.value;
      if !cart.BelongsToUser(userId) {
        assert false;
      }
      ghost var t := repo.db.Snapshot();
      ghost var v := cart.View();
      LoadedCoherent(t, cart.id, v);
      var removed := cart.RemoveItem(itemId);
      // Loaded lines all have ids, so the filter cannot throw.
      assert removed == Done;
      CoherentRemoved(v, t.cartItems, cart.id, itemId);
      SaveCart(cart);
      RemoveWitness(t, repo.db.Snapshot(), userId, itemId, cart.id, v);
      r := Ok(cart);
    }

    /** clearCart(userId): find the user's cart, empty it, save. */
    method ClearCart(userId: string) returns (r: Outcome)
      requires Valid()
      modifies repo.db
      ensures Valid()
      ensures Effect(Clear(userId), old(repo.db.Snapshot()), repo.db.Snapshot(), r)
    {
      var found := FindCartByUserId(userId);
      if found.Err? {
        return Fail(found.error);
      }
      var cart := found.value;
      cart.ClearItems();
      SaveCart(cart);
      r := Done;
    }

    /** deleteCart(userId): find the user's cart, delete it with its rows. */
    method DeleteCart(userId: string) returns (r: Outcome)
      requires Valid()
      modifies repo.db
      ensures Valid()
      ensures Effect(Delete(userId), old(repo.db.Snapshot()), repo.db.Snapshot(), r)
    {
      var found := FindCartByUserId(userId);
      if found.Err? {
        return Fail(found.error);
      }
      var cart := found.value;
      repo.DeleteById(cart.id);
      r := Done;
    }

    /** cartRepository.save(cart) on a cart whose lines are coherent with
        its rows: it succeeds, and afterwards the rows mirror the lines. */
    method SaveCart(cart: Cart)
      requires Valid() && cart.Valid() && cart.id in repo.db.carts
      requires Coherent(cart.View(), repo.db.cartItems, cart.id)
      modifies repo.db, cart, set x | x in cart.items
      ensures Valid() && cart.Valid()
      ensures repo.db.Snapshot() == SavedTables(old(repo.db.Snapshot()), cart.id, old(cart.View()))
      ensures Mirrors(cart.View(), repo.db.cartItems, cart.id)
    {
      SaveOf(repo.db.Snapshot(), cart.id, cart.View());
      var saved := repo.Save(cart);
      // The cart row exists, so save cannot fail.
      assert saved == Done;
    }

    /** One attempt of a use-case: the unit of work the retry policy runs. */
    method Attempt(u: UseCase) returns (r: Result<Reply>)
      requires Valid()
      modifies repo.db
      ensures Valid()
      ensures Effect(u, old(repo.db.Snapshot()), repo.db.Snapshot(), StatusOf(r))
    {
      match u {
        case GetOrCreate(userId) =>
          var cart := GetOrCreateCart(userId);
          r := Ok(CartReply(cart));
        case GetById(cartId) =>
          var found := GetCartById(cartId);
          r := if found.Ok? then Ok(CartReply(found.value)) else Err(found.error);
        case AddTo(userId, request) =>
          var found := AddToCart(userId, request);
          r := if found.Ok? then Ok(CartReply(found.value)) else Err(found.error);
        case UpdateQuantity(userId, itemId, quantity) =>
          var found := UpdateItemQuantity(userId, itemId, quantity);
          r := if found.Ok? then Ok(CartReply(found.value)) else Err(found.error);
        case RemoveFrom(userId, itemId) =>
          var found := RemoveItemFromCart(userId, itemId);
          r := if found.Ok? then Ok(CartReply(found.value)) else Err(found.error);
        case Clear(userId) =>
          var o := ClearCart(userId);
          r := if o.Done? then Ok(NoReply) else Err(o.error);
        case Delete(userId) =>
          var o := DeleteCart(userId);
          r := if o.Done? then Ok(NoReply) else Err(o.error);
      }
    }

    /** One attempt inside the transaction the retry policy opens: a
        failure rolls the attempt back, and a successful attempt whose
        commit meets a concurrent write (`conflict`) is rolled back and
        reported as the conflict. A rollback restores the rows; ids and
        clock readings the attempt used stay used. */
    method Transaction(u: UseCase, conflict: bool) returns (o: Result<Reply>)
      requires Valid()
      modifies repo.db
      ensures Valid()
      ensures o.Err? ==> old(repo.db.Snapshot()).RolledBack(repo.db.Snapshot())
      ensures o.Ok? ==> Effect(u, old(repo.db.Snapshot()), repo.db.Snapshot(), Done)
      ensures IsRetryable(o) <==> o == Err(CONFLICT)
      ensures IsRetryable(o) ==> conflict
    {
      var before := repo.db.Snapshot();
      o := Attempt(u);
      EffectAdvances(u, before, repo.db.Snapshot(), StatusOf(o));
      if o.Err? {
        FailureWritesNothing(u, before, repo.db.Snapshot(), StatusOf(o));
        repo.db.Restore(before);
      } else if conflict {
        repo.db.Restore(before);
        o := Err(CONFLICT);
      }
    }

    /** A use-case under the retry policy. `conflicts[j]` says whether the
        commit of attempt j meets a concurrent write (SQLState 40001); such
        an attempt is rolled back and, while attempts are left, the whole
        use-case runs again. A failed attempt is rolled back and ends the
        run. The attempts made form a settled trace of the policy, so the
        policy's result, whatever later attempts would have given, is `r`.
        `start` is the store the last attempt began from: the rows as they
        were, with the counters moved on by the attempts rolled back. */
    method Execute(u: UseCase, conflicts: seq<bool>)
      returns (r: Result<Reply>, attempts: nat, ghost seen: seq<Result<Reply>>, ghost start: Tables)
      requires Valid()
      modifies repo.db
      ensures Valid()
      ensures attempts == |seen| && Settled(seen, MAX_ATTEMPTS) && r == seen[attempts - 1]
      ensures forall rest :: MAX_ATTEMPTS <= |seen + rest| ==> Retry(seen + rest, MAX_ATTEMPTS) == Run(r, attempts)
      ensures Conflicted(seen[..attempts - 1], conflicts)
      ensures old(repo.db.Snapshot()).RolledBack(start) && start.Issued()
      ensures r.Err? ==> old(repo.db.Snapshot()).RolledBack(repo.db.Snapshot())
      ensures r.Ok? ==> Effect(u, start, repo.db.Snapshot(), Done)
    {
      var before := repo.db.Snapshot();
      attempts := 0;
      seen := [];
      while true
        invariant attempts < MAX_ATTEMPTS && |seen| == attempts
        invariant Valid() && before.RolledBack(repo.db.Snapshot())
        invariant Conflicted(seen, conflicts)
        decreases MAX_ATTEMPTS - attempts
      {
        start := repo.db.Snapshot();
        var o := Transaction(u, attempts < |conflicts| && conflicts[attempts]);
        if !IsRetryable(o) || attempts + 1 == MAX_ATTEMPTS {
          LastAttempt(seen, o, conflicts);
          r, attempts, seen := o, attempts + 1, seen + [o];
          return;
        }
        ConflictedAppend(seen, conflicts);
        attempts, seen := attempts + 1, seen + [o];
      }
    }
  }

  /** Every attempt of the trace met a concurrent write at commit. */
  ghost predicate Conflicted(seen: seq<Result<Reply>>, conflicts: seq<bool>) {
    forall j :: 0 <= j < |seen| ==> seen[j] == Err(CONFLICT) && j < |conflicts| && conflicts[j]
  }

  lemma ConflictedAppend(seen: seq<Result<Reply>>, conflicts: seq<bool>)
    requires Conflicted(seen, conflicts) && |seen| < |conflicts| && conflicts[|seen|]
    ensures Conflicted(seen + [Err(CONFLICT)], conflicts)
  {
    assert forall j :: 0 <= j < |seen| ==> (seen + [Err(CONFLICT)])[j] == seen[j];
  }

  /** Conflicts while attempts are left, then an outcome the policy stops
      at: the trace is settled and its last outcome is the policy's result. */
  lemma LastAttempt(seen: seq<Result<Reply>>, o: Result<Reply>, conflicts: seq<bool>)
    requires |seen| < MAX_ATTEMPTS && Conflicted(seen, conflicts)
    requires !IsRetryable(o) || |seen| + 1 == MAX_ATTEMPTS
    ensures Settled(seen + [o], MAX_ATTEMPTS)
    ensures forall rest :: MAX_ATTEMPTS <= |seen + [o] + rest| ==>
              Retry(seen + [o] + rest, MAX_ATTEMPTS) == Run(o, |seen| + 1)
    ensures (seen + [o])[..|seen|] == seen
  {
    SettledAfter(seen, o, MAX_ATTEMPTS);
    assert (seen + [o])[..|seen|] == seen;
  }
}
