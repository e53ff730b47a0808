/** CartRepository.save as a function of the store and of the states of the
    cart's items: the loop that inserts or updates each item, the batch
    delete of stored rows that are no longer in the cart, and the bump of
    the cart's updatedAt when anything was written. The imperative
    `CartRepository.Save` is proved to compute exactly this. */
module Reconcile {
  import opened Common
  import opened Items
  import opened Store

  /** The progress of the loop over the items: the item table, the states
      the visited items now have, the counters, and the `updated` flag. */
  datatype Pass = Pass(rows: map<Uuid, ItemRow>, done: seq<ItemState>, nextId: Uuid, clock: Time, written: bool)

  /** Before the first item. */
  function Start(t: Tables): Pass {
    Pass(t.cartItems, [], t.nextId, t.clock, false)
  }

  /** An item that already has an id and equals (by CartItem.equals) the row
      loaded for that id needs no write; every other item does. */
  predicate Unchanged(existing: map<Uuid, ItemRow>, it: ItemState) {
    it.id.Some? && it.id.value in existing && it.SameAs(ItemOfRow(it.id.value, existing[it.id.value]))
  }

  /** One iteration of the loop.
      No id: insertCartItem reads the clock, inserts a row for this cart
      and writes the new id and both timestamps back onto the item.
      An id whose loaded row differs, or that has no loaded row:
      updateCartItem reads the clock, rewrites name, price, quantity and
      updated_at of the row with that id wherever it is (no row: no
      effect), and writes updatedAt back onto the item. */
  function Visit(existing: map<Uuid, ItemRow>, cartId: Uuid, p: Pass, it: ItemState): Pass {
    if Unchanged(existing, it) then
      p.(done := p.done + [it])
    else if it.id.None? then
      var now := p.clock;
      var row := ItemRow(cartId, it.productId, it.productName, it.price, it.quantity, now, now);
      Pass(p.rows[p.nextId := row],
           p.done + [it.(id := Some(p.nextId), createdAt := Some(now), updatedAt := Some(now))],
           p.nextId + 1, p.clock + 1, true)
    else
      var now := p.clock;
      var k := it.id.value;
      var rows := if k in p.rows
                  then p.rows[k := p.rows[k].(productName := it.productName, price := it.price,
                                              quantity := it.quantity, updatedAt := now)]
                  else p.rows;
      Pass(rows, p.done + [it.(updatedAt := Some(now))], p.nextId, p.clock + 1, true)
  }

  /** A visit depends on the progress so far only through the table and the
      counters: what it appends and writes is the same from any list of
      visited items and any flag. */
  lemma VisitLocal(existing: map<Uuid, ItemRow>, cartId: Uuid, q: Pass, it: ItemState)
    ensures var p := Visit(existing, cartId, Pass(q.rows, [], q.nextId, q.clock, false), it);
            Visit(existing, cartId, q, it) == Pass(p.rows, q.done + p.done, p.nextId, p.clock, q.written || p.written)
  {
  }

  /** The loop over the items, in list order. */
  function VisitAll(existing: map<Uuid, ItemRow>, cartId: Uuid, p: Pass, items: seq<ItemState>): Pass {
    if items == [] then p
    else Visit(existing, cartId, VisitAll(existing, cartId, p, items[..|items| - 1]), items[|items| - 1])
  }

  /** The non-null ids of a list of items (currentItemIds). */
  function IdsOf(items: seq<ItemState>): (r: set<Uuid>)
    ensures forall k :: k in r <==> exists j :: 0 <= j < |items| && items[j].id == Some(k)
  {
    set j | 0 <= j < |items| && items[j].id.Some? :: items[j].id.value
  }

  lemma IdsOfAppend(items: seq<ItemState>, x: ItemState)
    ensures IdsOf(items + [x]) == IdsOf(items) + (if x.id.Some? then {x.id.value} else {})
  {
    var r := items + [x];
    forall k | k in IdsOf(r) ensures k in IdsOf(items) || x.id == Some(k) {
      var j :| 0 <= j < |r| && r[j].id == Some(k);
      if j < |items| {
        assert items[j].id == Some(k);
      }
    }
    forall k | k in IdsOf(items) ensures k in IdsOf(r) {
      var j :| 0 <= j < |items| && items[j].id == Some(k);
      assert r[j] == items[j];
    }
    if x.id.Some? {
      assert r[|items|] == x;
    }
  }

  /** The outcome of a save: the store, the item states written back onto
      the beans, and the new updatedAt of the cart when one was set. */
  datatype Saved = Saved(tables: Tables, items: seq<ItemState>, stamp: Option<Time>)

  /** What save does once the loop has run and left `p`: delete the loaded
      rows whose id no item carries (when there are any) and, when anything
      was written, stamp the cart with a new clock reading. */
  function Finish(t: Tables, cartId: Uuid, p: Pass): Saved
    requires cartId in t.carts
  {
    var stale := RowsOf(t.cartItems, cartId).Keys - IdsOf(p.done);
    var rows := p.rows - stale;
    if p.written || stale != {} then
      Saved(Tables(t.carts[cartId := t.carts[cartId].(updatedAt := p.clock)], rows, p.nextId, p.clock + 1),
            p.done, Some(p.clock))
    else
      Saved(Tables(t.carts, rows, p.nextId, p.clock), p.done, None)
  }

  /** save(cart), for the cart with id `cartId` whose items have the states
      `items`. */
  function SaveSpec(t: Tables, cartId: Uuid, items: seq<ItemState>): (r: Result<Saved>)
    ensures r.Err? <==> cartId !in t.carts
    ensures r.Err? ==> r.error == Error(IllegalState, CartMissingAtSave)
  {
    if cartId !in t.carts then Err(Error(IllegalState, CartMissingAtSave))
    else Ok(Finish(t, cartId, VisitAll(RowsOf(t.cartItems, cartId), cartId, Start(t), items)))
  }

  /** The ids carried by the items are pairwise different. */
  predicate IdsDistinct(items: seq<ItemState>) {
    forall i, j :: 0 <= i < j < |items| && items[i].id.Some? ==> items[i].id != items[j].id
  }

  /** The stored item rows of cart `cartId` are exactly the items: every item
      has an id, its row has that cart id and maps back to the item field by
      field, timestamps included, and no other row belongs to the cart. */
  predicate Mirrors(items: seq<ItemState>, rows: map<Uuid, ItemRow>, cartId: Uuid) {
    && (forall j :: 0 <= j < |items| ==>
          && items[j].id.Some? && items[j].id.value in rows
          && rows[items[j].id.value].cartId == cartId
          && ItemOfRow(items[j].id.value, rows[items[j].id.value]) == items[j])
    && IdsDistinct(items)
    && (forall k :: k in rows && rows[k].cartId == cartId ==> k in IdsOf(items))
  }

  /** Items that save can bring in line with the store: each item with an
      id names a row of this cart with the same product and timestamps (so
      only name, price and quantity may differ), each item without one was
      made for this cart, and no id occurs twice. Loading a cart gives such
      items, and the cart's operations keep them so. */
  predicate Coherent(items: seq<ItemState>, rows: map<Uuid, ItemRow>, cartId: Uuid) {
    && (forall j :: 0 <= j < |items| ==> items[j].cartId == cartId)
    && (forall j :: 0 <= j < |items| && items[j].id.Some? ==>
          && items[j].id.value in rows
          && rows[items[j].id.value].cartId == cartId
          && items[j].productId == rows[items[j].id.value].productId
          && items[j].createdAt == Some(rows[items[j].id.value].createdAt)
          && items[j].updatedAt == Some(rows[items[j].id.value].updatedAt))
    && IdsDistinct(items)
  }

  // ---------------------------------------------------------------------
  // The shape of the loop's result.

  /** The loop visits each item once, appending its new state; nothing is
      written when every item is unchanged, and then only the list grows. */
  lemma VisitAllShape(existing: map<Uuid, ItemRow>, cartId: Uuid, p: Pass, items: seq<ItemState>)
    ensures var q := VisitAll(existing, cartId, p, items);
            && |q.done| == |p.done| + |items| && q.done[..|p.done|] == p.done
            && p.nextId <= q.nextId && p.clock <= q.clock
            && (q.written <==> p.written || exists j :: 0 <= j < |items| && !Unchanged(existing, items[j]))
            && ((forall j :: 0 <= j < |items| ==> Unchanged(existing, items[j])) ==>
                  q == p.(done := p.done + items))
  {
    VisitAllGrows(existing, cartId, p, items);
    VisitAllWritten(existing, cartId, p, items);
    if forall j :: 0 <= j < |items| ==> Unchanged(existing, items[j]) {
      VisitAllIdle(existing, cartId, p, items);
    }
  }

  /** The list of visited items grows by one per item; the counters never
      go back. */
  lemma {:induction false} VisitAllGrows(existing: map<Uuid, ItemRow>, cartId: Uuid, p: Pass, items: seq<ItemState>)
    ensures var q := VisitAll(existing, cartId, p, items);
            && |q.done| == |p.done| + |items| && q.done[..|p.done|] == p.done
            && p.nextId <= q.nextId && p.clock <= q.clock
  {
    if items != [] {
      var n := |items| - 1;
      VisitAllGrows(existing, cartId, p, items[..n]);
      var q := VisitAll(existing, cartId, p, items[..n]);
      assert (q.done + [items[n]])[..|p.done|] == q.done[..|p.done|];
    }
  }

  /** The `updated` flag ends up set exactly when it was set before or some
      item is not unchanged. */
  lemma {:induction false} VisitAllWritten(existing: map<Uuid, ItemRow>, cartId: Uuid, p: Pass, items: seq<ItemState>)
    ensures VisitAll(existing, cartId, p, items).written
            <==> p.written || exists j :: 0 <= j < |items| && !Unchanged(existing, items[j])
  {
    if items != [] {
      var n := |items| - 1;
      VisitAllWritten(existing, cartId, p, items[..n]);
      assert (exists j :: 0 <= j < n && !Unchanged(existing, items[..n][j]))
             <==> (exists j :: 0 <= j < n && !Unchanged(existing, items[j]));
    }
  }

  /** When every item is unchanged, the loop only appends them. */
  lemma {:induction false} VisitAllIdle(existing: map<Uuid, ItemRow>, cartId: Uuid, p: Pass, items: seq<ItemState>)
    requires forall j :: 0 <= j < |items| ==> Unchanged(existing, items[j])
    ensures VisitAll(existing, cartId, p, items) == p.(done := p.done + items)
  {
    if items != [] {
      var n := |items| - 1;
      assert forall j :: 0 <= j < n ==> Unchanged(existing, items[..n][j]);
      VisitAllIdle(existing, cartId, p, items[..n]);
      assert Unchanged(existing, items[n]);
      assert p.done + items[..n] + [items[n]] == p.done + items;
    } else {
      assert p.done + items == p.done;
    }
  }

  /** What the loop makes of each item: an unchanged item stays as it was; an
      item without an id gets a fresh id and a creation time equal to its
      update time, both read from the clock during the loop; any other item
      gets only a new update time from the clock. */
  lemma {:induction false} VisitAllItem(existing: map<Uuid, ItemRow>, cartId: Uuid, p: Pass,
                                        items: seq<ItemState>, j: nat)
    requires j < |items|
    ensures |VisitAll(existing, cartId, p, items).done| == |p.done| + |items|
    ensures var q := VisitAll(existing, cartId, p, items);
            Fate(existing, items[j], q.done[|p.done| + j], p.nextId, q.nextId, p.clock, q.clock)
  {
    var n := |items| - 1;
    var q := VisitAll(existing, cartId, p, items[..n]);
    VisitAllGrows(existing, cartId, p, items[..n]);
    VisitFate(existing, cartId, q, items[n]);
    var r := Visit(existing, cartId, q, items[n]);
    if j < n {
      VisitAllItem(existing, cartId, p, items[..n], j);
      assert items[..n][j] == items[j];
      assert r.done[|p.done| + j] == q.done[|p.done| + j];
      FateWiden(existing, items[j], q.done[|p.done| + j], p.nextId, q.nextId, r.nextId, p.clock, q.clock, r.clock);
    } else {
      FateLower(existing, items[j], r.done[|p.done| + j], p.nextId, q.nextId, r.nextId, p.clock, q.clock, r.clock);
    }
  }

  /** What became of item `it` in the visited state `x`, with the ids and
      clock readings it got lying in [id0, id1) and [c0, c1). */
  predicate Fate(existing: map<Uuid, ItemRow>, it: ItemState, x: ItemState, id0: nat, id1: nat, c0: nat, c1: nat) {
    && (Unchanged(existing, it) ==> x == it)
    && (!Unchanged(existing, it) && it.id.None? ==>
          && x.id.Some? && id0 <= x.id.value < id1
          && x.createdAt.Some? && x.createdAt == x.updatedAt
          && c0 <= x.createdAt.value < c1
          && x == it.(id := x.id, createdAt := x.createdAt, updatedAt := x.updatedAt))
    && (!Unchanged(existing, it) && it.id.Some? ==>
          && x.updatedAt.Some? && c0 <= x.updatedAt.value < c1
          && x == it.(updatedAt := x.updatedAt))
  }

  /** One visit appends the item's new state, and its ids and readings come
      from the counters as they stood. */
  lemma VisitFate(existing: map<Uuid, ItemRow>, cartId: Uuid, q: Pass, it: ItemState)
    ensures var r := Visit(existing, cartId, q, it);
            && |r.done| == |q.done| + 1 && r.done[..|q.done|] == q.done
            && q.nextId <= r.nextId && q.clock <= r.clock
            && Fate(existing, it, r.done[|q.done|], q.nextId, r.nextId, q.clock, r.clock)
  {
  }

  lemma FateWiden(existing: map<Uuid, ItemRow>, it: ItemState, x: ItemState,
                  id0: nat, id1: nat, id2: nat, c0: nat, c1: nat, c2: nat)
    requires Fate(existing, it, x, id0, id1, c0, c1) && id1 <= id2 && c1 <= c2
    ensures Fate(existing, it, x, id0, id2, c0, c2)
  {
  }

  lemma FateLower(existing: map<Uuid, ItemRow>, it: ItemState, x: ItemState,
                  id0: nat, id1: nat, id2: nat, c0: nat, c1: nat, c2: nat)
    requires Fate(existing, it, x, id1, id2, c1, c2) && id0 <= id1 && c0 <= c1
    ensures Fate(existing, it, x, id0, id2, c0, c2)
  {
  }

  // ---------------------------------------------------------------------
  // A save of coherent items leaves the store mirroring them.

  /** Every item in `done` is stored in cart `cartId` exactly as it is, and
      no two of them share an id. */
  predicate Stored(done: seq<ItemState>, rows: map<Uuid, ItemRow>, cartId: Uuid) {
    && (forall j :: 0 <= j < |done| ==>
          && done[j].id.Some? && done[j].id.value in rows
          && rows[done[j].id.value].cartId == cartId
          && ItemOfRow(done[j].id.value, rows[done[j].id.value]) == done[j])
    && IdsDistinct(done)
  }

  /** The cart's rows are the loaded ones plus those of the items in `done`,
      and a loaded row no item in `done` has claimed is as it was loaded. */
  predicate CartRows(existing: map<Uuid, ItemRow>, done: seq<ItemState>, rows: map<Uuid, ItemRow>, cartId: Uuid) {
    && (forall k :: k in rows && rows[k].cartId == cartId ==> k in existing || k in IdsOf(done))
    && (forall k :: k in existing ==> k in rows && rows[k].cartId == cartId)
    && (forall k :: k in existing && k !in IdsOf(done) ==> rows[k] == existing[k])
  }

  /** The rows of other carts are those of `before`, unchanged. */
  predicate OthersKept(before: map<Uuid, ItemRow>, rows: map<Uuid, ItemRow>, cartId: Uuid) {
    && (forall k :: k in rows && rows[k].cartId != cartId ==> k in before && before[k] == rows[k])
    && (forall k :: k in before && before[k].cartId != cartId ==> k in rows && rows[k] == before[k])
  }

  /** A write of row `row` at key `k` for item `x` keeps Stored. */
  lemma WriteStored(done: seq<ItemState>, rows: map<Uuid, ItemRow>, cartId: Uuid, k: Uuid, row: ItemRow, x: ItemState)
    requires Stored(done, rows, cartId) && k !in IdsOf(done)
    requires row.cartId == cartId && ItemOfRow(k, row) == x
    ensures Stored(done + [x], rows[k := row], cartId)
  {
    var d := done + [x];
    forall j | 0 <= j < |done| ensures d[j].id.value != k {
      assert d[j] == done[j];
    }
  }

  /** ... keeps CartRows, when `k` is a loaded row or a key not yet used. */
  lemma WriteCartRows(existing: map<Uuid, ItemRow>, done: seq<ItemState>, rows: map<Uuid, ItemRow>, cartId: Uuid,
                      k: Uuid, row: ItemRow, x: ItemState)
    requires CartRows(existing, done, rows, cartId) && k !in IdsOf(done)
    requires k in existing || k !in rows
    requires row.cartId == cartId && x.id == Some(k)
    ensures CartRows(existing, done + [x], rows[k := row], cartId)
  {
    IdsOfAppend(done, x);
  }

  /** ... and keeps OthersKept, when the row at `k` (if any) is this cart's. */
  lemma WriteOthersKept(before: map<Uuid, ItemRow>, rows: map<Uuid, ItemRow>, cartId: Uuid, k: Uuid, row: ItemRow)
    requires OthersKept(before, rows, cartId)
    requires k in rows ==> rows[k].cartId == cartId
    requires row.cartId == cartId
    ensures OthersKept(before, rows[k := row], cartId)
  {
  }

  /** Each of the first `i` items kept its id in `done`, or got one the
      store had not issued before. */
  predicate Origins(t: Tables, items: seq<ItemState>, i: nat, done: seq<ItemState>)
    requires i <= |items| && |done| == i
  {
    && (forall j :: 0 <= j < i && items[j].id.Some? ==> done[j].id == items[j].id)
    && (forall j :: 0 <= j < i && items[j].id.None? ==> done[j].id.Some? && t.nextId <= done[j].id.value)
  }

  lemma OriginsAppend(t: Tables, items: seq<ItemState>, i: nat, done: seq<ItemState>, x: ItemState)
    requires i < |items| && |done| == i && Origins(t, items, i, done)
    requires items[i].id.Some? ==> x.id == items[i].id
    requires items[i].id.None? ==> x.id.Some? && t.nextId <= x.id.value
    ensures Origins(t, items, i + 1, done + [x])
  {
    var d := done + [x];
    assert forall j :: 0 <= j < i ==> d[j] == done[j];
  }

  /** The counters only grow, and stay above every stored key and time. */
  predicate Counters(t: Tables, q: Pass) {
    t.nextId <= q.nextId && t.clock <= q.clock && Tables(t.carts, q.rows, q.nextId, q.clock).Issued()
  }

  lemma CountersWrite(t: Tables, q: Pass, k: Uuid, row: ItemRow, r: Pass)
    requires Counters(t, q)
    requires r.rows == q.rows[k := row] && q.nextId <= r.nextId && q.clock <= r.clock
    requires k < r.nextId && row.createdAt < r.clock && row.updatedAt < r.clock
    ensures Counters(t, r)
  {
  }

  /** What holds after the loop has visited items[..i] of coherent items,
      starting from the store `t`. */
  predicate Inv(t: Tables, cartId: Uuid, items: seq<ItemState>, i: nat, q: Pass)
    requires i <= |items|
  {
    && |q.done| == i
    && Stored(q.done, q.rows, cartId)
    && CartRows(RowsOf(t.cartItems, cartId), q.done, q.rows, cartId)
    && OthersKept(t.cartItems, q.rows, cartId)
    && Origins(t, items, i, q.done)
    && Counters(t, q)
  }

  /** The loop's result, one prefix at a time. */
  lemma VisitAllPrefix(existing: map<Uuid, ItemRow>, cartId: Uuid, p: Pass, items: seq<ItemState>, i: nat)
    requires i < |items|
    ensures VisitAll(existing, cartId, p, items[..i + 1])
            == Visit(existing, cartId, VisitAll(existing, cartId, p, items[..i]), items[i])
  {
    assert items[..i + 1][..i] == items[..i];
  }

  /** An id the loop is about to meet is not among those it has handed out. */
  lemma NextIdUnused(t: Tables, cartId: Uuid, items: seq<ItemState>, i: nat, q: Pass)
    requires t.Issued() && Coherent(items, t.cartItems, cartId)
    requires i < |items| && Inv(t, cartId, items, i, q) && items[i].id.Some?
    ensures items[i].id.value !in IdsOf(q.done)
  {
    var k := items[i].id.value;
    forall j | 0 <= j < i ensures q.done[j].id != Some(k) {
      if items[j].id.Some? {
        assert q.done[j].id == items[j].id;
      } else {
        assert t.nextId <= q.done[j].id.value;
      }
    }
  }

  /** Visiting an item without an id keeps the invariant. */
  lemma InsertStep(t: Tables, cartId: Uuid, items: seq<ItemState>, i: nat, q: Pass)
    requires t.Issued() && Coherent(items, t.cartItems, cartId)
    requires i < |items| && Inv(t, cartId, items, i, q) && items[i].id.None?
    ensures Inv(t, cartId, items, i + 1, Visit(RowsOf(t.cartItems, cartId), cartId, q, items[i]))
  {
    var existing := RowsOf(t.cartItems, cartId);
    var it := items[i];
    var n := q.nextId;
    var row := ItemRow(cartId, it.productId, it.productName, it.price, it.quantity, q.clock, q.clock);
    var x := it.(id := Some(n), createdAt := Some(q.clock), updatedAt := Some(q.clock));
    var r := Visit(existing, cartId, q, it);
    assert r == Pass(q.rows[n := row], q.done + [x], n + 1, q.clock + 1, true);
    assert n !in q.rows && n !in existing;
    assert n !in IdsOf(q.done);
    WriteStored(q.done, q.rows, cartId, n, row, x);
    WriteCartRows(existing, q.done, q.rows, cartId, n, row, x);
    WriteOthersKept(t.cartItems, q.rows, cartId, n, row);
    OriginsAppend(t, items, i, q.done, x);
    CountersWrite(t, q, n, row, r);
  }

  /** Visiting an item with an id keeps the invariant. */
  lemma KeptStep(t: Tables, cartId: Uuid, items: seq<ItemState>, i: nat, q: Pass)
    requires t.Issued() && Coherent(items, t.cartItems, cartId)
    requires i < |items| && Inv(t, cartId, items, i, q) && items[i].id.Some?
    ensures Inv(t, cartId, items, i + 1, Visit(RowsOf(t.cartItems, cartId), cartId, q, items[i]))
  {
    var existing := RowsOf(t.cartItems, cartId);
    var it := items[i];
    var k := it.id.value;
    var r := Visit(existing, cartId, q, it);
    NextIdUnused(t, cartId, items, i, q);
    assert k in existing && q.rows[k] == existing[k];
    if Unchanged(existing, it) {
      assert ItemOfRow(k, q.rows[k]) == it;
      assert q.rows[k := q.rows[k]] == q.rows;
      WriteStored(q.done, q.rows, cartId, k, q.rows[k], it);
      WriteCartRows(existing, q.done, q.rows, cartId, k, q.rows[k], it);
      OriginsAppend(t, items, i, q.done, it);
    } else {
      var row := q.rows[k].(productName := it.productName, price := it.price,
                            quantity := it.quantity, updatedAt := q.clock);
      var x := it.(updatedAt := Some(q.clock));
      assert r == Pass(q.rows[k := row], q.done + [x], q.nextId, q.clock + 1, true);
      assert ItemOfRow(k, row) == x;
      WriteStored(q.done, q.rows, cartId, k, row, x);
      WriteCartRows(existing, q.done, q.rows, cartId, k, row, x);
      WriteOthersKept(t.cartItems, q.rows, cartId, k, row);
      OriginsAppend(t, items, i, q.done, x);
      CountersWrite(t, q, k, row, r);
    }
  }

  /** The invariant holds after every prefix of the loop. */
  lemma {:induction false} VisitAllInv(t: Tables, cartId: Uuid, items: seq<ItemState>, i: nat)
    requires t.Issued() && Coherent(items, t.cartItems, cartId)
    requires i <= |items|
    ensures Inv(t, cartId, items, i, VisitAll(RowsOf(t.cartItems, cartId), cartId, Start(t), items[..i]))
  {
    var existing := RowsOf(t.cartItems, cartId);
    if i == 0 {
      assert items[..0] == [];
    } else {
      VisitAllInv(t, cartId, items, i - 1);
      VisitAllPrefix(existing, cartId, Start(t), items, i - 1);
      var q := VisitAll(existing, cartId, Start(t), items[..i - 1]);
      if items[i - 1].id.None? {
        InsertStep(t, cartId, items, i - 1, q);
      } else {
        KeptStep(t, cartId, items, i - 1, q);
      }
    }
  }

  /** After the batch delete of the loaded rows no item claimed, the cart's
      rows are exactly the items'. */
  lemma DeleteStale(existing: map<Uuid, ItemRow>, done: seq<ItemState>, rows: map<Uuid, ItemRow>, cartId: Uuid)
    requires Stored(done, rows, cartId) && CartRows(existing, done, rows, cartId)
    ensures Mirrors(done, rows - (existing.Keys - IdsOf(done)), cartId)
  {
    var left := rows - (existing.Keys - IdsOf(done));
    forall j | 0 <= j < |done|
      ensures done[j].id.value in left && left[done[j].id.value] == rows[done[j].id.value]
    {
      assert done[j].id.value in IdsOf(done);
    }
  }

  /** The batch delete touches only loaded rows of the cart. */
  lemma DeleteKeepsOthers(before: map<Uuid, ItemRow>, existing: map<Uuid, ItemRow>, rows: map<Uuid, ItemRow>,
                          cartId: Uuid, stale: set<Uuid>)
    requires OthersKept(before, rows, cartId)
    requires forall k :: k in stale && k in rows ==> rows[k].cartId == cartId
    ensures OthersKept(before, rows - stale, cartId)
  {
  }

  /** Saving coherent items of a stored cart succeeds, and afterwards:
      the cart's item rows are exactly the items' new states; no other
      cart's item row has changed, appeared or gone; the carts table is as
      before apart from the saved cart's updatedAt; and every id and time
      stored was still issued before the counters. */
  lemma SaveMirrors(t: Tables, cartId: Uuid, items: seq<ItemState>)
    requires t.Issued() && cartId in t.carts && Coherent(items, t.cartItems, cartId)
    ensures SaveSpec(t, cartId, items).Ok?
    ensures var s := SaveSpec(t, cartId, items).value;
            && Mirrors(s.items, s.tables.cartItems, cartId)
            && OthersKept(t.cartItems, s.tables.cartItems, cartId)
            && s.tables.carts.Keys == t.carts.Keys
            && (forall k :: k in t.carts && k != cartId ==> s.tables.carts[k] == t.carts[k])
            && s.tables.carts[cartId].userId == t.carts[cartId].userId
            && s.tables.carts[cartId].createdAt == t.carts[cartId].createdAt
            && s.tables.Issued()
  {
    var existing := RowsOf(t.cartItems, cartId);
    VisitAllInv(t, cartId, items, |items|);
    assert items[..|items|] == items;
    var q := VisitAll(existing, cartId, Start(t), items);
    var stale := existing.Keys - IdsOf(q.done);
    DeleteStale(existing, q.done, q.rows, cartId);
    DeleteKeepsOthers(t.cartItems, existing, q.rows, cartId, stale);
    FinishCarts(t, cartId, q);
  }

  /** The end of a save keeps the cart rows but for the stamp of this one,
      and keeps the counters ahead of everything stored. */
  lemma FinishCarts(t: Tables, cartId: Uuid, q: Pass)
    requires t.Issued() && cartId in t.carts && Counters(t, q)
    ensures var s := Finish(t, cartId, q);
            && s.items == q.done
            && s.tables.cartItems == q.rows - (RowsOf(t.cartItems, cartId).Keys - IdsOf(q.done))
            && s.tables.carts.Keys == t.carts.Keys
            && (forall k :: k in t.carts && k != cartId ==> s.tables.carts[k] == t.carts[k])
            && s.tables.carts[cartId].userId == t.carts[cartId].userId
            && s.tables.carts[cartId].createdAt == t.carts[cartId].createdAt
            && s.tables.Issued()
  {
  }

  /** Saving items that already mirror the store writes nothing: the store,
      the items and the cart's updatedAt stay as they are. */
  lemma SaveIdempotent(t: Tables, cartId: Uuid, items: seq<ItemState>)
    requires cartId in t.carts && Mirrors(items, t.cartItems, cartId)
    ensures SaveSpec(t, cartId, items) == Ok(Saved(t, items, None))
  {
    var existing := RowsOf(t.cartItems, cartId);
    forall j | 0 <= j < |items| ensures Unchanged(existing, items[j]) {
      var k := items[j].id.value;
      assert ItemOfRow(k, existing[k]) == items[j];
    }
    VisitAllShape(existing, cartId, Start(t), items);
    var q := VisitAll(existing, cartId, Start(t), items);
    assert q.done == items;
    assert existing.Keys - IdsOf(items) == {};
    assert t.cartItems - {} == t.cartItems;
  }

  /** Items that mirror the store are coherent with it. */
  lemma MirrorsCoherent(items: seq<ItemState>, rows: map<Uuid, ItemRow>, cartId: Uuid)
    requires Mirrors(items, rows, cartId)
    ensures Coherent(items, rows, cartId)
  {
    forall j | 0 <= j < |items| ensures items[j].cartId == cartId {
      assert ItemOfRow(items[j].id.value, rows[items[j].id.value]) == items[j];
    }
  }

  /** The updatedAt of the cart changes exactly when a row was inserted,
      updated or deleted: then it is the latest clock reading of the save,
      later than anything read before; otherwise the store is untouched. */
  lemma SaveStamp(t: Tables, cartId: Uuid, items: seq<ItemState>)
    requires cartId in t.carts
    ensures var s := SaveSpec(t, cartId, items).value;
            var existing := RowsOf(t.cartItems, cartId);
            && (s.stamp.Some? <==>
                  || (exists j :: 0 <= j < |items| && !Unchanged(existing, items[j]))
                  || (exists k :: k in existing && k !in IdsOf(s.items)))
            && (s.stamp.Some? ==> t.clock <= s.stamp.value && s.tables.clock == s.stamp.value + 1
                                  && s.tables.carts == t.carts[cartId := t.carts[cartId].(updatedAt := s.stamp.value)])
            && (s.stamp.None? ==> s.tables == t && s.items == items)
  {
    var existing := RowsOf(t.cartItems, cartId);
    VisitAllShape(existing, cartId, Start(t), items);
    var q := VisitAll(existing, cartId, Start(t), items);
    var stale := existing.Keys - IdsOf(q.done);
    if stale != {} {
      var k :| k in stale;
      assert k in existing && k !in IdsOf(q.done);
    }
    if !q.written && stale == {} {
      assert q.done == items;
      assert q.rows - stale == t.cartItems;
    }
  }

  /** What save makes of each item: an unchanged item keeps its state; an
      item without an id gets a new id never issued before and equal
      creation and update times, read during this save; an item with an id
      that needs writing gets only a new update time. */
  lemma SaveItem(t: Tables, cartId: Uuid, items: seq<ItemState>, j: nat)
    requires cartId in t.carts && j < |items|
    ensures |SaveSpec(t, cartId, items).value.items| == |items|
    ensures var s := SaveSpec(t, cartId, items).value;
            var existing := RowsOf(t.cartItems, cartId);
            var x := s.items[j];
            && (Unchanged(existing, items[j]) ==> x == items[j])
            && (!Unchanged(existing, items[j]) && items[j].id.None? ==>
                  && x.id.Some? && t.nextId <= x.id.value
                  && x.createdAt.Some? && x.createdAt == x.updatedAt && t.clock <= x.createdAt.value
                  && x == items[j].(id := x.id, createdAt := x.createdAt, updatedAt := x.updatedAt))
            && (!Unchanged(existing, items[j]) && items[j].id.Some? ==>
                  && x.updatedAt.Some? && t.clock <= x.updatedAt.value
                  && x == items[j].(updatedAt := x.updatedAt))
  {
    VisitAllItem(RowsOf(t.cartItems, cartId), cartId, Start(t), items, j);
  }
}
