/** CartRepository.java: loads carts with their items, creates carts, saves
    a cart's items by reconciling them with the stored rows, and deletes a
    cart with its items. Each SQL statement becomes an update of the maps in
    `Database`; each call to the clock is `Now`. */
module Repository {
  import opened Common
  import opened Items
  import opened Carts
  import opened Store
  import opened Reconcile

  /** ORDER BY created_at ASC, on the loaded items. */
  predicate OldestFirst(items: seq<ItemState>) {
    forall i, j :: 0 <= i < j < |items| && items[i].createdAt.Some? && items[j].createdAt.Some? ==>
      items[i].createdAt.value <= items[j].createdAt.value
  }

  /** Replacing the first not yet visited element by its visited state. */
  lemma SpliceNext<T>(before: seq<T>, done: seq<T>, x: seq<T>, rest: seq<T>, i: nat)
    requires i < |rest| && |done| == i && |x| == 1 && before == done + rest[i..]
    ensures before[i := x[0]] == done + x + rest[i + 1..]
  {
  }

  /** The beans made from the rows of a cart, one per row in the query's
      order, mirror the cart's rows and come earliest first. */
  lemma LoadedRows(rows: map<Uuid, ItemRow>, cartId: Uuid, ids: seq<Uuid>, v: seq<ItemState>)
    requires Distinct(ids)
    requires forall k :: k in ids <==> k in rows && rows[k].cartId == cartId
    requires forall i :: 0 <= i < |ids| ==> ids[i] in rows
    requires Ascending(rows, ids)
    requires |v| == |ids| && forall j :: 0 <= j < |v| ==> v[j] == ItemOfRow(ids[j], rows[ids[j]])
    ensures Mirrors(v, rows, cartId) && OldestFirst(v)
  {
    forall k | k in rows && rows[k].cartId == cartId ensures k in IdsOf(v) {
      var j :| 0 <= j < |ids| && ids[j] == k;
      assert v[j].id == Some(k);
    }
  }

  class CartRepository {
    const db: Database

    constructor (db: Database)
      ensures this.db == db
    {
      this.db := db;
    }

    /** create(userId): one new cart row with a fresh id, the user, and
        created_at = updated_at = now; the cart returned has no items. */
    method Create(userId: string) returns (cart: Cart)
      modifies db
      ensures fresh(cart) && cart.Valid() && cart.items == []
      ensures cart.id == old(db.nextId) && cart.userId == userId
      ensures cart.createdAt == old(db.clock) && cart.updatedAt == old(db.clock)
      ensures db.Snapshot() == old(db.Snapshot()).(carts := old(db.carts)[cart.id := CartRow(userId, old(db.clock), old(db.clock))],
                                                    nextId := old(db.nextId) + 1, clock := old(db.clock) + 1)
      ensures old(db.Snapshot().Issued()) ==> cart.id !in old(db.carts) && db.Snapshot().Issued()
    {
      var now := db.Now();
      var id := db.NewId();
      db.carts := db.carts[id := CartRow(userId, now, now)];
      cart := new Cart(id, userId, now, now);
    }

    /** findCartItems(cartId): a new bean for each of the cart's rows, the
        earliest created first. */
    method FindCartItems(cartId: Uuid) returns (items: seq<CartItem>)
      ensures forall x :: x in items ==> fresh(x)
      ensures forall i, j :: 0 <= i < j < |items| ==> items[i] != items[j]
      ensures Mirrors(States(items), db.cartItems, cartId)
      ensures OldestFirst(States(items))
    {
      var ids := db.SelectItemIds(cartId);
      items := [];
      var i := 0;
      while i < |ids|
        invariant 0 <= i <= |ids| && |items| == i
        invariant forall x :: x in items ==> fresh(x)
        invariant forall a, b :: 0 <= a < b < |items| ==> items[a] != items[b]
        invariant forall j :: 0 <= j < i ==> items[j].State() == ItemOfRow(ids[j], db.cartItems[ids[j]])
      {
        var row := db.cartItems[ids[i]];
        var item := new CartItem.Full(Some(ids[i]), row.cartId, row.productId, row.productName,
                                      row.price, row.quantity, Some(row.createdAt), Some(row.updatedAt));
        items := items + [item];
        i := i + 1;
      }
      LoadedRows(db.cartItems, cartId, ids, States(items));
    }

    /** The cart of a stored row, filled as findById and findByUserId do:
        each loaded item is appended with addItem(CartItem). */
    method Load(id: Uuid) returns (cart: Cart)
      requires id in db.carts
      ensures fresh(cart) && cart.Valid() && forall x :: x in cart.items ==> fresh(x)
      ensures cart.id == id && cart.userId == db.carts[id].userId
      ensures cart.createdAt == db.carts[id].createdAt && cart.updatedAt == db.carts[id].updatedAt
      ensures Mirrors(cart.View(), db.cartItems, id) && OldestFirst(cart.View())
    {
      var row := db.carts[id];
      cart := new Cart(id, row.userId, row.createdAt, row.updatedAt);
      var items := FindCartItems(id);
      ghost var v := States(items);
      ghost var rows := db.cartItems;
      Fill(cart, items);
      assert cart.View() == v && db.cartItems == rows;
    }

    /** items.forEach(cart::addItem). */
    method Fill(cart: Cart, items: seq<CartItem>)
      requires cart.Valid() && cart.items == []
      requires forall i, j :: 0 <= i < j < |items| ==> items[i] != items[j]
      modifies cart
      ensures cart.Valid() && cart.items == items && cart.View() == States(items)
      ensures cart.updatedAt == old(cart.updatedAt) && db.cartItems == old(db.cartItems)
    {
      var i := 0;
      while i < |items|
        invariant 0 <= i <= |items|
        invariant cart.items == items[..i] && cart.Valid()
        invariant cart.updatedAt == old(cart.updatedAt)
      {
        assert items[i] !in items[..i];
        cart.AddCartItem(items[i]);
        assert items[..i + 1] == items[..i] + [items[i]];
        i := i + 1;
      }
      assert items[..i] == items;
    }

    /** findById(id): absent when there is no such cart row. */
    method FindById(id: Uuid) returns (r: Option<Cart>)
      ensures r.None? <==> id !in db.carts
      ensures r.Some? ==> var cart := r.value;
              && fresh(cart) && cart.Valid() && (forall x :: x in cart.items ==> fresh(x))
              && cart.id == id && cart.userId == db.carts[id].userId
              && cart.createdAt == db.carts[id].createdAt && cart.updatedAt == db.carts[id].updatedAt
              && Mirrors(cart.View(), db.cartItems, id) && OldestFirst(cart.View())
    {
      if id !in db.carts {
        return None;
      }
      var cart := Load(id);
      r := Some(cart);
    }

    /** findByUserId(userId): absent when the user has no cart, otherwise
        one of the user's carts created last. */
    method FindByUserId(userId: string) returns (r: Option<Cart>)
      ensures r.None? <==> forall k :: k in db.carts ==> db.carts[k].userId != userId
      ensures r.Some? ==> var cart := r.value;
              && fresh(cart) && cart.Valid() && (forall x :: x in cart.items ==> fresh(x))
              && cart.id in db.carts && cart.userId == userId
              && db.carts[cart.id].userId == userId
              && cart.createdAt == db.carts[cart.id].createdAt && cart.updatedAt == db.carts[cart.id].updatedAt
              && (forall k :: k in db.carts && db.carts[k].userId == userId ==>
                    db.carts[k].createdAt <= cart.createdAt)
              && Mirrors(cart.View(), db.cartItems, cart.id) && OldestFirst(cart.View())
    {
      var latest := db.SelectLatestCart(userId);
      match latest {
        case None =>
          return None;
        case Some(id) =>
          var cart := Load(id);
          r := Some(cart);
      }
    }

    /** cartExists(cartId): COUNT(*) > 0. */
    method CartExists(cartId: Uuid) returns (b: bool)
      ensures b <==> cartId in db.carts
    {
      var matching := set k | k in db.carts && k == cartId;
      if cartId in db.carts {
        assert matching == {cartId};
      } else {
        assert matching == {};
      }
      b := |matching| > 0;
    }

    /** insertCartItem(cartId, item): a row for the cart with a fresh id and
        created_at = updated_at = now, written back onto the bean. */
    method InsertCartItem(cartId: Uuid, item: CartItem)
      modifies db, item
      ensures var now := old(db.clock);
              var it := old(item.State());
              && item.State() == it.(id := Some(old(db.nextId)), createdAt := Some(now), updatedAt := Some(now))
              && db.Snapshot() == old(db.Snapshot()).(
                   cartItems := old(db.cartItems)[old(db.nextId) := ItemRow(cartId, it.productId, it.productName,
                                                                            it.price, it.quantity, now, now)],
                   nextId := old(db.nextId) + 1, clock := now + 1)
    {
      var now := db.Now();
      var id := db.NewId();
      db.cartItems := db.cartItems[id := ItemRow(cartId, item.productId, item.productName,
                                                 item.price, item.quantity, now, now)];
      item.SetId(Some(id));
      item.SetCreatedAt(Some(now));
      item.SetUpdatedAt(Some(now));
    }

    /** updateCartItem(item): UPDATE ... WHERE id = ? rewrites name, price,
        quantity and updated_at of the row with the bean's id, of whatever
        cart, and matches nothing when there is none; the bean gets the new
        updatedAt either way. */
    method UpdateCartItem(item: CartItem)
      modifies db, item
      ensures var now := old(db.clock);
              var it := old(item.State());
              var rows := old(db.cartItems);
              && item.State() == it.(updatedAt := Some(now))
              && db.Snapshot() == old(db.Snapshot()).(
                   cartItems := if it.id.Some? && it.id.value in rows
                                then rows[it.id.value := rows[it.id.value].(productName := it.productName,
                                       price := it.price, quantity := it.quantity, updatedAt := now)]
                                else rows,
                   clock := now + 1)
    {
      var now := db.Now();
      if item.id.Some? && item.id.value in db.cartItems {
        var k := item.id.value;
        db.cartItems := db.cartItems[k := db.cartItems[k].(productName := item.productName, price := item.price,
                                                           quantity := item.quantity, updatedAt := now)];
      }
      item.SetUpdatedAt(Some(now));
    }

    /** deleteCartItems(ids): nothing for no ids, else remove those rows. */
    method DeleteCartItems(ids: set<Uuid>)
      modifies db
      ensures db.Snapshot() == old(db.Snapshot()).(cartItems := old(db.cartItems) - ids)
    {
      if ids == {} {
        assert db.cartItems - ids == db.cartItems;
        return;
      }
      db.cartItems := db.cartItems - ids;
    }

    /** One pass of save's loop, on the cart's item at position i, after
        the passes that left `q`: insert it when it has no id, update it
        when it differs from its loaded row, leave it alone otherwise. */
    method SaveItem(cart: Cart, existing: map<Uuid, ItemRow>, i: nat, ghost t0: Tables, ghost q: Pass,
                    ghost v0: seq<ItemState>)
      returns (wrote: bool)
      requires cart.Valid() && i < |cart.items| == |v0|
      requires db.Snapshot() == Tables(t0.carts, q.rows, q.nextId, q.clock)
      requires |q.done| == i && cart.View() == q.done + v0[i..]
      modifies db, cart.items[i]
      ensures var r := Visit(existing, cart.id, q, v0[i]);
              && db.Snapshot() == Tables(t0.carts, r.rows, r.nextId, r.clock)
              && cart.View() == r.done + v0[i + 1..] && |r.done| == i + 1 && (q.written || wrote) == r.written
    {
      ghost var before := cart.View();
      assert before[i] == v0[i];
      VisitLocal(existing, cart.id, q, v0[i]);
      var item := cart.items[i];
      if item.id.None? {
        InsertCartItem(cart.id, item);
        wrote := true;
      } else if !(item.id.value in existing && item.State().SameAs(ItemOfRow(item.id.value, existing[item.id.value]))) {
        UpdateCartItem(item);
        wrote := true;
      } else {
        wrote := false;
      }
      assert forall j :: 0 <= j < |cart.items| && j != i ==> cart.items[j] != item;
      ghost var p := Visit(existing, cart.id, Pass(q.rows, [], q.nextId, q.clock, false), v0[i]);
      assert cart.View() == before[i := p.done[0]];
      SpliceNext(before, q.done, p.done, v0, i);
    }

    /** The loop of save over the cart's items, in list order. */
    method SaveItems(cart: Cart, existing: map<Uuid, ItemRow>) returns (updated: bool)
      requires cart.Valid()
      modifies db, set x | x in cart.items
      ensures var q := VisitAll(existing, cart.id, Start(old(db.Snapshot())), old(cart.View()));
              && db.Snapshot() == Tables(old(db.carts), q.rows, q.nextId, q.clock)
              && updated == q.written && cart.View() == q.done
    {
      ghost var t0 := db.Snapshot();
      ghost var v0 := cart.View();
      ghost var q := Start(t0);
      updated := false;
      var i := 0;
      while i < |cart.items|
        invariant 0 <= i <= |cart.items| == |v0|
        invariant q == VisitAll(existing, cart.id, Start(t0), v0[..i])
        invariant db.Snapshot() == Tables(t0.carts, q.rows, q.nextId, q.clock)
        invariant updated == q.written && cart.View() == q.done + v0[i..]
        invariant |q.done| == i
        invariant cart.items == old(cart.items)
        invariant cart.Valid()
      {
        VisitAllPrefix(existing, cart.id, Start(t0), v0, i);
        var wrote := SaveItem(cart, existing, i, t0, q, v0);
        updated := updated || wrote;
        q := Visit(existing, cart.id, q, v0[i]);
        i := i + 1;
      }
      assert v0[..i] == v0;
    }

    /** save(cart): writes the cart's items to the store, exactly as SaveSpec
        says, and sets the in-memory updatedAt to its new value. */
    method Save(cart: Cart) returns (r: Outcome)
      requires cart.Valid()
      modifies db, cart, set x | x in cart.items
      ensures cart.Valid() && cart.items == old(cart.items)
      ensures match SaveSpec(old(db.Snapshot()), cart.id, old(cart.View()))
              case Err(e) => r == Fail(e) && db.Snapshot() == old(db.Snapshot())
                             && cart.View() == old(cart.View()) && cart.updatedAt == old(cart.updatedAt)
              case Ok(s) => r == Done && db.Snapshot() == s.tables && cart.View() == s.items
                            && cart.updatedAt == (if s.stamp.Some? then s.stamp.value else old(cart.updatedAt))
    {
      var present := CartExists(cart.id);
      if !present {
        return Fail(Error(IllegalState, CartMissingAtSave));
      }
      Persist(cart);
      r := Done;
    }

    /** The body of save once the cart row is known to exist. */
    method Persist(cart: Cart)
      requires cart.Valid() && cart.id in db.carts
      modifies db, cart, set x | x in cart.items
      ensures cart.Valid() && cart.items == old(cart.items)
      ensures var s := Finish(old(db.Snapshot()), cart.id,
                              VisitAll(RowsOf(old(db.cartItems), cart.id), cart.id, Start(old(db.Snapshot())), old(cart.View())));
              && db.Snapshot() == s.tables && cart.View() == s.items
              && cart.updatedAt == (if s.stamp.Some? then s.stamp.value else old(cart.updatedAt))
    {
      ghost var t0 := db.Snapshot();
      ghost var v0 := cart.View();
      var existing := RowsOf(db.cartItems, cart.id);
      var updated := SaveItems(cart, existing);
      Conclude(cart, existing, updated, t0, VisitAll(existing, cart.id, Start(t0), v0));
    }

    /** The end of save, after the loop left the pass `p`: delete the stale
        rows, then stamp the cart row and the bean when anything was written. */
    method Conclude(cart: Cart, existing: map<Uuid, ItemRow>, updated: bool, ghost t: Tables, ghost p: Pass)
      requires cart.Valid() && cart.id in t.carts && existing == RowsOf(t.cartItems, cart.id)
      requires db.Snapshot() == Tables(t.carts, p.rows, p.nextId, p.clock)
      requires cart.View() == p.done && updated == p.written
      modifies db, cart
      ensures cart.Valid() && cart.items == old(cart.items)
      ensures var s := Finish(t, cart.id, p);
              && db.Snapshot() == s.tables && cart.View() == s.items
              && cart.updatedAt == (if s.stamp.Some? then s.stamp.value else old(cart.updatedAt))
    {
      var stale := existing.Keys - IdsOf(cart.View());
      var wrote := updated;
      if stale != {} {
        DeleteCartItems(stale);
        wrote := true;
      } else {
        assert p.rows - stale == p.rows;
      }
      if wrote {
        var now := db.Now();
        db.carts := db.carts[cart.id := db.carts[cart.id].(updatedAt := now)];
        cart.SetUpdatedAt(now);
      }
    }

    /** deleteById(id): the cart's item rows, then the cart row. Afterwards
        findById(id) finds nothing and no row is left for the cart. */
    method DeleteById(id: Uuid)
      modifies db
      ensures db.Snapshot() == old(db.Snapshot()).(carts := old(db.carts) - {id},
                                                    cartItems := old(db.cartItems) - RowsOf(old(db.cartItems), id).Keys)
      ensures id !in db.carts && RowsOf(db.cartItems, id) == map[]
    {
      db.cartItems := db.cartItems - RowsOf(db.cartItems, id).Keys;
      db.carts := db.carts - {id};
    }
  }
}
