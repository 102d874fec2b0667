/**
 What the tables keep whatever events arrive, in whatever order and however often: an event that is
 delivered twice has the effect of one, an upsert never moves an order to another account or price,
 a sync replaces one address's rows or nothing, and fills and trades have unique ids.
 */
module Tables {
  import opened OrderTypes
  import opened EdgeMatch
  import opened EdgePositions
  import opened EdgeState
  import opened Persistence

  // ---- Replacing rows ------------------------------------------------------------------

  /** A sync leaves the rows of all other addresses alone. It either gives the address exactly the new
      rows or, if one of them would take another address's key, changes nothing. */
  lemma SyncAllOrNothing<K, V>(t: map<K, Row<V>>, a: Address, rows: map<K, V>)
    ensures var t' := Sync(t, a, rows);
            var clash := exists k :: k in rows && k in t && t[k].group != a;
            && (forall k | k in t && t[k].group != a :: k in t' && t'[k] == t[k])
            && (forall k | k in t' && t'[k].group != a :: k in t && t[k] == t'[k])
            && (if clash then t' == t else forall k, v :: (k in t' && t'[k] == Row(a, v)) <==> (k in rows && rows[k] == v))
  {
    if exists k :: k in rows && k in t && t[k].group != a {
      var k :| k in rows && k in t && t[k].group != a;
      assert k in Kept(t, a) && k in rows.Keys;
    } else {
      assert rows.Keys !! Kept(t, a).Keys;
    }
  }

  lemma SyncTwice<K, V>(t: map<K, Row<V>>, a: Address, rows: map<K, V>)
    ensures Sync(Sync(t, a, rows), a, rows) == Sync(t, a, rows)
  {
    if rows.Keys !! Kept(t, a).Keys {
      assert Kept(Kept(t, a) + Tagged(a, rows), a) == Kept(t, a);
    }
  }

  // ---- One event -----------------------------------------------------------------------

  /** Delivering an event again changes nothing. */
  lemma ApplyTwice(t: Store, ev: Event)
    ensures Apply(Apply(t, ev), ev) == Apply(t, ev)
  {
    hide Sync, OrderRows, PositionRows, DistinctIds, OnePerMarket;
    match ev
    case UpsertOrder(a, o) =>
    case DeleteOrder(id) =>
    case SyncOrders(a, list) => SyncTwice<OrderId, OpenOrder>(t.orders, a, OrderRows(list));
    case InsertFill(a, f) => FillAdded(t.fills, Row(a, f));
    case SyncPositions(a, list) => SyncTwice(t.positions, a, PositionRows(a, list));
    case UpsertVault(a, amount) =>
    case InsertTrade(x) => TradeAdded(t.trades, x);
    case InsertFunding(m, s) =>
  }

  lemma FillAdded(rows: seq<Row<FillInfo>>, r: Row<FillInfo>)
    ensures HasFill(rows + [r], r.value.id)
  {
    assert (rows + [r])[|rows|] == r;
  }

  lemma TradeAdded(rows: seq<PublicTrade>, x: PublicTrade)
    ensures HasTrade(rows + [x], x.id)
  {
    assert (rows + [x])[|rows|] == x;
  }

  /** An upsert of an id that is taken moves nothing but the remaining quantity; a new id gets the
      order as it is; no other row is touched. */
  lemma UpsertExact(t: Store, a: Address, o: OpenOrder)
    ensures var t' := Apply(t, UpsertOrder(a, o));
            && t' == t.(orders := t'.orders) && t'.orders.Keys == t.orders.Keys + {o.id}
            && (forall k | k in t.orders && k != o.id :: t'.orders[k] == t.orders[k])
            && (if o.id in t.orders
                then t'.orders[o.id].group == t.orders[o.id].group
                     && t'.orders[o.id].value == t.orders[o.id].value.(remaining := o.remaining)
                else t'.orders[o.id].group == a && t'.orders[o.id].value == o)
  {}

  // ---- Any log -------------------------------------------------------------------------

  predicate UniqueRows(t: Store) {
    && (forall i, j | 0 <= i < j < |t.fills| :: t.fills[i].value.id != t.fills[j].value.id)
    && (forall i, j | 0 <= i < j < |t.trades| :: t.trades[i].id != t.trades[j].id)
  }

  lemma EventKeepsUnique(t: Store, ev: Event)
    requires UniqueRows(t)
    ensures var t' := Apply(t, ev); UniqueRows(t') && t.fills <= t'.fills && t.trades <= t'.trades
  {
    hide Sync, OrderRows, PositionRows, DistinctIds, OnePerMarket, Upsert;
    match ev
    case InsertFill(a, f) =>
    case InsertTrade(x) =>
    case _ => assert Apply(t, ev).fills == t.fills && Apply(t, ev).trades == t.trades;
  }

  /** Under whatever events, fills and trades keep unique ids, and those already there stay in place. */
  lemma {:induction false} RowsStayUnique(base: Store, log: seq<Event>)
    requires UniqueRows(base)
    ensures var t := ReplayFrom(base, log); UniqueRows(t) && base.fills <= t.fills && base.trades <= t.trades
  {
    hide Apply, UniqueRows;
    if log != [] {
      RowsStayUnique(base, log[..|log| - 1]);
      EventKeepsUnique(ReplayFrom(base, log[..|log| - 1]), log[|log| - 1]);
    }
  }
}
