/** The two tables CartRepository reads and writes, `carts` and
    `cart_items`, with the database's id generator and the repository's
    clock. Each table is a map from primary key to row. */
module Store {
  import opened Common
  import opened Items

  datatype CartRow = CartRow(userId: string, createdAt: Time, updatedAt: Time)

  datatype ItemRow = ItemRow(
    cartId: Uuid,
    productId: string,
    productName: string,
    price: real,
    quantity: Int32,
    createdAt: Time,
    updatedAt: Time)

  /** A snapshot of the whole store: both tables, the next id the database
      will issue and the next clock reading. */
  datatype Tables = Tables(
    carts: map<Uuid, CartRow>,
    cartItems: map<Uuid, ItemRow>,
    nextId: Uuid,
    clock: Time)
  {
    /** Every stored key and timestamp was issued before the counters' current
        values, so the next id is fresh and the next reading is the latest. */
    predicate Issued() {
      && (forall k :: k in carts ==> k < nextId && carts[k].createdAt < clock && carts[k].updatedAt < clock)
      && (forall k :: k in cartItems ==>
            k < nextId && cartItems[k].createdAt < clock && cartItems[k].updatedAt < clock)
    }

    /** The id generator and the clock of `t2` are no earlier than these:
        nothing hands out an id or a reading twice. */
    predicate Before(t2: Tables) {
      nextId <= t2.nextId && clock <= t2.clock
    }

    /** `t2` is this snapshot rolled back to: the same rows in both tables,
        while the id generator and the clock have kept running. */
    predicate RolledBack(t2: Tables) {
      carts == t2.carts && cartItems == t2.cartItems && Before(t2)
    }
  }

  /** WHERE cart_id = ?: the item rows of one cart. */
  function RowsOf(rows: map<Uuid, ItemRow>, cartId: Uuid): (r: map<Uuid, ItemRow>)
    ensures forall k :: k in r <==> k in rows && rows[k].cartId == cartId
    ensures forall k :: k in r ==> r[k] == rows[k]
  {
    map k | k in rows && rows[k].cartId == cartId :: rows[k]
  }

  /** The row mapper: the CartItem a stored row becomes. */
  function ItemOfRow(id: Uuid, row: ItemRow): (r: ItemState)
    ensures r.id == Some(id) && r.cartId == row.cartId && r.productId == row.productId
    ensures r.createdAt == Some(row.createdAt) && r.updatedAt == Some(row.updatedAt)
  {
    ItemState(Some(id), row.cartId, row.productId, row.productName, row.price, row.quantity,
              Some(row.createdAt), Some(row.updatedAt))
  }

  /** Writing row `k` moves it into, within or out of a cart's selection,
      by the cart id it now carries, and leaves the rest of the selection
      as it was. */
  lemma RowsOfUpdate(rows: map<Uuid, ItemRow>, k: Uuid, row: ItemRow, cartId: Uuid)
    ensures RowsOf(rows[k := row], cartId) ==
              if row.cartId == cartId then RowsOf(rows, cartId)[k := row] else RowsOf(rows, cartId) - {k}
  {
  }

  /** Deleting rows deletes them from every cart's selection and from
      nothing else. */
  lemma RowsOfDelete(rows: map<Uuid, ItemRow>, ks: set<Uuid>, cartId: Uuid)
    ensures RowsOf(rows - ks, cartId) == RowsOf(rows, cartId) - ks
  {
  }

  /** The row mapper loses nothing: beans read from different keys or
      different rows are different. */
  lemma ItemOfRowInjective(id1: Uuid, row1: ItemRow, id2: Uuid, row2: ItemRow)
    ensures ItemOfRow(id1, row1) == ItemOfRow(id2, row2) <==> id1 == id2 && row1 == row2
  {
  }

  /** The row insertCartItem writes for a bean reads back as that bean,
      now carrying the new id and the insert time as both timestamps. */
  lemma InsertedReadsBack(id: Uuid, it: ItemState, now: Time)
    ensures ItemOfRow(id, ItemRow(it.cartId, it.productId, it.productName, it.price, it.quantity, now, now)) ==
              it.(id := Some(id), createdAt := Some(now), updatedAt := Some(now))
  {
  }

  predicate Distinct<T(==)>(s: seq<T>) {
    forall i, j :: 0 <= i < j < |s| ==> s[i] != s[j]
  }

  /** ORDER BY created_at ASC over the given keys. */
  predicate Ascending(rows: map<Uuid, ItemRow>, ids: seq<Uuid>)
    requires forall i :: 0 <= i < |ids| ==> ids[i] in rows
  {
    forall i, j :: 0 <= i < j < |ids| ==> rows[ids[i]].createdAt <= rows[ids[j]].createdAt
  }

  /** Part way through the ordered selection of the keys `all`: `ids` are
      the keys taken so far, once each and earliest first, no later than any
      key of `rest`, the keys still to take. */
  ghost predicate Picking(rows: map<Uuid, ItemRow>, all: set<Uuid>, ids: seq<Uuid>, rest: set<Uuid>) {
    && all <= rows.Keys && rest <= all
    && (forall k :: k in ids ==> k in all && k !in rest)
    && (forall k :: k in all ==> k in ids || k in rest)
    && Distinct(ids)
    && (forall i :: 0 <= i < |ids| ==> ids[i] in rows)
    && Ascending(rows, ids)
    && (forall i, k :: 0 <= i < |ids| && k in rest ==> rows[ids[i]].createdAt <= rows[k].createdAt)
  }

  /** Taking next a key of `rest` created no later than any other key of
      `rest` keeps the selection ordered. */
  lemma PickEarliest(rows: map<Uuid, ItemRow>, all: set<Uuid>, ids: seq<Uuid>, rest: set<Uuid>, m: Uuid)
    requires Picking(rows, all, ids, rest) && m in rest
    requires forall x :: x in rest ==> (if x in rows then rows[x].createdAt else 0) >= rows[m].createdAt
    ensures Picking(rows, all, ids + [m], rest - {m})
  {
    var next := ids + [m];
    forall i, k | 0 <= i < |next| && k in rest - {m}
      ensures rows[next[i]].createdAt <= rows[k].createdAt
    {
      if i < |ids| {
        assert next[i] == ids[i];
      }
    }
    forall k | k in next ensures k in all && k !in rest - {m} {
      if k != m {
        assert k in ids;
      }
    }
  }

  /** The database the repository talks to. */
  class Database {
    var carts: map<Uuid, CartRow>
    var cartItems: map<Uuid, ItemRow>
    var nextId: Uuid
    var clock: Time

    function Snapshot(): Tables
      reads this
    {
      Tables(carts, cartItems, nextId, clock)
    }

    /** An empty database. */
    constructor ()
      ensures Snapshot() == Tables(map[], map[], 0, 0) && Snapshot().Issued()
    {
      carts := map[];
      cartItems := map[];
      nextId := 0;
      clock := 0;
    }

    /** Roll back to the snapshot `t` taken when the transaction began:
        both tables get their rows back, while the id generator and the
        injected clock, which no rollback rewinds, keep their values. */
    method Restore(t: Tables)
      modifies this
      ensures Snapshot() == t.(nextId := old(nextId), clock := old(clock))
    {
      carts, cartItems := t.carts, t.cartItems;
    }

    /** OffsetDateTime.now(clock): the current reading; the clock moves on. */
    method Now() returns (t: Time)
      modifies this
      ensures t == old(clock) && Snapshot() == old(Snapshot()).(clock := old(clock) + 1)
    {
      t := clock;
      clock := clock + 1;
    }

    /** The id an INSERT ... RETURNING id hands out. */
    method NewId() returns (id: Uuid)
      modifies this
      ensures id == old(nextId) && Snapshot() == old(Snapshot()).(nextId := old(nextId) + 1)
    {
      id := nextId;
      nextId := nextId + 1;
    }

    /** SELECT id FROM cart_items WHERE cart_id = ? ORDER BY created_at ASC:
        each of the cart's rows once, earliest first (rows created at the
        same instant come in an unspecified order). */
    method SelectItemIds(cartId: Uuid) returns (ids: seq<Uuid>)
      ensures Distinct(ids)
      ensures forall k :: k in ids <==> k in cartItems && cartItems[k].cartId == cartId
      ensures forall i :: 0 <= i < |ids| ==> ids[i] in cartItems
      ensures Ascending(cartItems, ids)
    {
      var rows := cartItems;
      ghost var all := RowsOf(rows, cartId).Keys;
      var rest := RowsOf(rows, cartId).Keys;
      ids := [];
      while rest != {}
        invariant Picking(rows, all, ids, rest)
        decreases |rest|
      {
        var created: Uuid -> int := k => if k in rows then rows[k].createdAt else 0;
        LeastExists(rest, created);
        var m :| m in rest && forall x :: x in rest ==> created(m) <= created(x);
        PickEarliest(rows, all, ids, rest, m);
        ids := ids + [m];
        rest := rest - {m};
      }
    }

    /** SELECT id FROM carts WHERE user_id = ? ORDER BY created_at DESC
        LIMIT 1: none when the user has no cart, else one of the user's
        carts created last. */
    method SelectLatestCart(userId: string) returns (r: Option<Uuid>)
      ensures r.None? <==> forall k :: k in carts ==> carts[k].userId != userId
      ensures r.Some? ==> r.value in carts && carts[r.value].userId == userId
      ensures r.Some? ==> forall k :: k in carts && carts[k].userId == userId ==>
                            carts[k].createdAt <= carts[r.value].createdAt
    {
      var rows := carts;
      var mine := set k | k in rows && rows[k].userId == userId;
      if mine == {} {
        assert forall k :: k in rows ==> rows[k].userId != userId by {
          forall k | k in rows ensures rows[k].userId != userId {
            assert k in mine <==> rows[k].userId == userId;
          }
        }
        return None;
      }
      var later: Uuid -> int := k => if k in rows then -(rows[k].createdAt as int) else 0;
      LeastExists(mine, later);
      var m :| m in mine && forall x :: x in mine ==> later(m) <= later(x);
      r := Some(m);
      forall k | k in rows && rows[k].userId == userId
        ensures rows[k].createdAt <= rows[m].createdAt
      {
        assert k in mine && later(m) <= later(k);
      }
    }
  }
}
