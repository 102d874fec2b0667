/**
 The tables mirror the state. Whatever sequence of orders, cancels, liquidations, vault changes
 and funding samples the edge serves, applying its events to tables that mirrored it before gives
 tables that mirror it afterwards.
 */
module Restart {
  import opened OrderTypes
  import opened EdgeMatch
  import opened EdgePositions
  import opened EdgeState
  import opened Persistence
  import opened MatchFrame

  // ---- The tables mirror the state -----------------------------------------------------

  function OwnedOrders(t: map<OrderId, Row<OpenOrder>>, a: Address): map<OrderId, OpenOrder> {
    Owned<OrderId, OpenOrder>(t, a)
  }

  function OwnedPositions(t: map<PositionKey, Row<EdgePosition>>, a: Address): map<PositionKey, EdgePosition> {
    Owned<PositionKey, EdgePosition>(t, a)
  }

  predicate OrdersAt(list: seq<OpenOrder>, t: map<OrderId, Row<OpenOrder>>, a: Address) {
    DistinctIds(list) && NonZero(list) && OwnedOrders(t, a) == OrderRows(list)
  }

  ghost predicate OrdersMirrored(orders: Orders, t: map<OrderId, Row<OpenOrder>>) {
    forall a :: OrdersAt(ListOf(orders, a), t, a)
  }

  type PositionLists = map<Address, seq<EdgePosition>>

  function PositionList(positions: PositionLists, a: Address): seq<EdgePosition> {
    if a in positions then positions[a] else []
  }

  predicate PositionsAt(list: seq<EdgePosition>, t: map<PositionKey, Row<EdgePosition>>, a: Address) {
    OnePerMarket(list) && OwnedPositions(t, a) == PositionRows(a, list)
  }

  predicate OwnKeys(t: map<PositionKey, Row<EdgePosition>>) {
    forall k | k in t :: t[k].group == k.0
  }

  ghost predicate PositionsMirrored(positions: PositionLists, t: map<PositionKey, Row<EdgePosition>>) {
    OwnKeys(t) && forall a :: PositionsAt(PositionList(positions, a), t, a)
  }

  function RowsOf<V>(rows: seq<Row<V>>, a: Address): seq<V> {
    if rows == [] then [] else
    var before, r := RowsOf(rows[..|rows| - 1], a), rows[|rows| - 1];
    if r.group == a then before + [r.value] else before
  }

  ghost predicate FillsMirrored(fills: map<Address, seq<FillInfo>>, rows: seq<Row<FillInfo>>) {
    forall a :: RowsOf(rows, a) == if a in fills then fills[a] else []
  }

  function TradeRowsOf(rows: seq<PublicTrade>, m: MarketId): seq<PublicTrade> {
    if rows == [] then [] else
    var before, r := TradeRowsOf(rows[..|rows| - 1], m), rows[|rows| - 1];
    if r.market == m then before + [r] else before
  }

  ghost predicate TradesMirrored(trades: map<MarketId, seq<PublicTrade>>, rows: seq<PublicTrade>) {
    forall m :: TradeRowsOf(rows, m) == if m in trades then trades[m] else []
  }

  function OwnedFunding(t: map<FundingKey, Row<Sample>>, m: MarketId): map<FundingKey, Sample> {
    Owned<FundingKey, Sample>(t, m)
  }

  /** One row per time: of several samples at one time the last stays. */
  function FundingRows(m: MarketId, samples: seq<Sample>): map<FundingKey, Sample> {
    if samples == [] then map[] else FundingRows(m, samples[..|samples| - 1])[(m, samples[|samples| - 1].ts) := samples[|samples| - 1]]
  }

  function SampleList(funding: map<MarketId, seq<Sample>>, m: MarketId): seq<Sample> {
    if m in funding then funding[m] else []
  }

  predicate FundingAt(samples: seq<Sample>, t: map<FundingKey, Row<Sample>>, m: MarketId) {
    OwnedFunding(t, m) == FundingRows(m, samples)
  }

  ghost predicate FundingMirrored(funding: map<MarketId, seq<Sample>>, t: map<FundingKey, Row<Sample>>) {
    forall m :: FundingAt(SampleList(funding, m), t, m)
  }

  ghost predicate Mirrors(e: Edge, t: Store) {
    && OrdersMirrored(e.orders, t.orders)
    && PositionsMirrored(e.positions, t.positions)
    && FillsMirrored(e.fills, t.fills)
    && e.vaults == t.vaults
    && TradesMirrored(e.trades, t.trades)
    && FundingMirrored(e.funding, t.funding)
  }

  /** Ids already in use: of orders below `k`, of fills and trades below `n`. */
  predicate OrdersBelow(t: map<OrderId, Row<OpenOrder>>, k: nat) {
    forall id | id in t :: id < k
  }

  predicate FillsBelow(rows: seq<Row<FillInfo>>, n: nat) {
    forall i | 0 <= i < |rows| :: rows[i].value.id < n
  }

  predicate TradesBelow(rows: seq<PublicTrade>, n: nat) {
    forall i | 0 <= i < |rows| :: rows[i].id < n
  }

  ghost predicate InStep(base: Store, e: Edge, k: nat, n: nat) {
    var t := ReplayFrom(base, e.log);
    Mirrors(e, t) && OrdersBelow(t.orders, k) && FillsBelow(t.fills, n) && TradesBelow(t.trades, n)
  }

  lemma ReplaySnoc(base: Store, log: seq<Event>, ev: Event)
    ensures ReplayFrom(base, log + [ev]) == Apply(ReplayFrom(base, log), ev)
  {
    hide Apply;
    assert (log + [ev])[..|log|] == log;
  }

  // ---- Tables of rows ------------------------------------------------------------------

  lemma SyncOwned<K, V>(t: map<K, Row<V>>, a: Address, rows: map<K, V>, b: Address)
    requires rows.Keys !! Kept(t, a).Keys
    ensures Owned(Sync(t, a, rows), b) == if a == b then rows else Owned(t, b)
  {}

  /** The row map of a list, known by what it holds. */
  lemma RowsAre(list: seq<OpenOrder>, m: map<OrderId, OpenOrder>)
    requires DistinctIds(list)
    requires forall o | o in list :: o.id in m && m[o.id] == o
    requires forall k | k in m :: m[k] in list && m[k].id == k
    ensures OrderRows(list) == m
  {
    hide OrderRows;
    RowsHold(list);
    forall k | k in OrderRows(list) ensures k in m && m[k] == OrderRows(list)[k] { assert OrderRows(list)[k] in list; }
    forall k | k in m ensures k in OrderRows(list) { assert m[k] in list; }
  }

  lemma {:induction false} RowsHold(list: seq<OpenOrder>)
    requires DistinctIds(list)
    ensures forall o | o in list :: o.id in OrderRows(list) && OrderRows(list)[o.id] == o
    ensures forall k | k in OrderRows(list) :: OrderRows(list)[k] in list && OrderRows(list)[k].id == k
  {
    if list != [] {
      var n := |list| - 1;
      var init, last := list[..n], list[n];
      assert list == init + [last];
      RowsHold(init);
      forall o | o in init ensures o.id != last.id {}
    }
  }

  // ---- Single events -------------------------------------------------------------------

  lemma UpsertMirrors(orders: Orders, t: map<OrderId, Row<OpenOrder>>, a: Address, o: OpenOrder)
    requires OrdersMirrored(orders, t) && o.id !in t && o.remaining != 0.0
    ensures OrdersMirrored(orders[a := ListOf(orders, a) + [o]], Upsert(t, a, o))
  {
    var orders', t' := orders[a := ListOf(orders, a) + [o]], Upsert(t, a, o);
    forall b ensures OrdersAt(ListOf(orders', b), t', b) {
      var list := ListOf(orders, b);
      assert OrdersAt(list, t, b);
      if a == b {
        RowAppended(list, t, a, o);
      } else {
        assert OwnedOrders(t', b) == OwnedOrders(t, b);
      }
    }
  }

  lemma RowAppended(list: seq<OpenOrder>, t: map<OrderId, Row<OpenOrder>>, a: Address, o: OpenOrder)
    requires OrdersAt(list, t, a) && o.id !in t && o.remaining != 0.0
    ensures OrdersAt(list + [o], Upsert(t, a, o), a)
  {
    hide OrderRows;
    RowsHold(list);
    forall i | 0 <= i < |list| ensures list[i].id != o.id { assert list[i] in list; assert list[i].id in OwnedOrders(t, a); }
    assert OwnedOrders(Upsert(t, a, o), a) == OwnedOrders(t, a)[o.id := o];
    OrderRowsSnoc(list + [o], |list|);
    assert (list + [o])[..|list|] == list && (list + [o])[..|list| + 1] == list + [o];
  }

  lemma {:induction false} WithoutHas(list: seq<OpenOrder>, id: OrderId)
    ensures forall o :: o in Without(list, id) <==> o in list && o.id != id
  {
    if list != [] {
      WithoutHas(list[1..], id);
      assert list == [list[0]] + list[1..];
      assert [] + Without(list[1..], id) == Without(list[1..], id);
    }
  }

  lemma {:induction false} WithoutDistinct(list: seq<OpenOrder>, id: OrderId)
    requires DistinctIds(list)
    ensures DistinctIds(Without(list, id))
  {
    if list != [] {
      TailDistinct(list);
      WithoutDistinct(list[1..], id);
      WithoutHas(list[1..], id);
      var r := Without(list[1..], id);
      assert [] + r == r;
      forall i | 0 <= i < |r| ensures r[i].id != list[0].id { assert r[i] in r; }
    }
  }

  lemma WithoutNonZero(list: seq<OpenOrder>, id: OrderId)
    requires NonZero(list)
    ensures NonZero(Without(list, id))
  {
    WithoutHas(list, id);
    var r := Without(list, id);
    forall i | 0 <= i < |r| ensures r[i].remaining != 0.0 { assert r[i] in r; }
  }

  lemma TailDistinct(list: seq<OpenOrder>)
    requires list != [] && DistinctIds(list)
    ensures DistinctIds(list[1..]) && forall o | o in list[1..] :: o.id != list[0].id
  {
    forall i, j | 0 <= i < j < |list| - 1 ensures list[1..][i].id != list[1..][j].id { assert list[i + 1].id != list[j + 1].id; }
  }

  lemma DeleteMirrors(orders: Orders, t: map<OrderId, Row<OpenOrder>>, a: Address, id: OrderId)
    requires OrdersMirrored(orders, t) && a in orders && HasId(orders[a], id)
    ensures OrdersMirrored(orders[a := Without(orders[a], id)], t - {id})
  {
    hide Without, OrderRows;
    var orders', t' := orders[a := Without(orders[a], id)], t - {id};
    assert OrdersAt(ListOf(orders, a), t, a);
    RowsHold(orders[a]);
    var i :| 0 <= i < |orders[a]| && orders[a][i].id == id;
    assert orders[a][i] in orders[a];
    assert id in OwnedOrders(t, a);
    forall b ensures OrdersAt(ListOf(orders', b), t', b) {
      assert OrdersAt(ListOf(orders, b), t, b);
      if a == b {
        var list := orders[a];
        WithoutHas(list, id);
        WithoutDistinct(list, id);
        WithoutNonZero(list, id);
        forall k | k in OwnedOrders(t', a) ensures OwnedOrders(t', a)[k] in Without(list, id) && OwnedOrders(t', a)[k].id == k {
          assert k in OwnedOrders(t, a) && OwnedOrders(t, a)[k] == OwnedOrders(t', a)[k];
          assert OrderRows(list)[k] in list;
        }
        RowsAre(Without(list, id), OwnedOrders(t', a));
      } else {
        assert OwnedOrders(t', b) == OwnedOrders(t, b);
      }
    }
  }

  lemma PositionsSynced(positions: PositionLists, t: map<PositionKey, Row<EdgePosition>>, a: Address, list: seq<EdgePosition>)
    requires PositionsMirrored(positions, t) && OnePerMarket(list)
    ensures PositionsMirrored(positions[a := list], Sync<PositionKey, EdgePosition>(t, a, PositionRows(a, list)))
  {
    hide PositionRows;
    var positions', rows := positions[a := list], PositionRows(a, list);
    PositionRowKeys(a, list);
    var t' := Sync<PositionKey, EdgePosition>(t, a, rows);
    assert forall k | k in rows :: k.0 == a;
    assert rows.Keys !! Kept<PositionKey, EdgePosition>(t, a).Keys;
    forall b ensures PositionsAt(PositionList(positions', b), t', b) {
      assert PositionsAt(PositionList(positions, b), t, b);
      SyncOwned<PositionKey, EdgePosition>(t, a, rows, b);
    }
  }

  lemma FillAppended(fills: map<Address, seq<FillInfo>>, rows: seq<Row<FillInfo>>, a: Address, f: FillInfo)
    requires FillsMirrored(fills, rows)
    ensures FillsMirrored(fills[a := (if a in fills then fills[a] else []) + [f]], rows + [Row(a, f)])
  {
    assert (rows + [Row(a, f)])[..|rows|] == rows;
  }

  lemma TradeAppended(trades: map<MarketId, seq<PublicTrade>>, rows: seq<PublicTrade>, x: PublicTrade)
    requires TradesMirrored(trades, rows)
    ensures TradesMirrored(trades[x.market := (if x.market in trades then trades[x.market] else []) + [x]], rows + [x])
  {
    assert (rows + [x])[..|rows|] == rows;
  }

  lemma {:induction false} FundingKeys(m: MarketId, samples: seq<Sample>)
    ensures forall k | k in FundingRows(m, samples) :: k == (m, FundingRows(m, samples)[k].ts)
  {
    if samples != [] { FundingKeys(m, samples[..|samples| - 1]); }
  }

  lemma SampleAppended(funding: map<MarketId, seq<Sample>>, t: map<FundingKey, Row<Sample>>, m: MarketId, s: Sample)
    requires FundingMirrored(funding, t)
    ensures FundingMirrored(funding[m := SampleList(funding, m) + [s]], t[(m, s.ts) := Row(m, s)])
  {
    var funding', t' := funding[m := SampleList(funding, m) + [s]], t[(m, s.ts) := Row(m, s)];
    forall n ensures FundingAt(SampleList(funding', n), t', n) {
      var samples := SampleList(funding, n);
      assert FundingAt(samples, t, n);
      if n == m {
        assert (samples + [s])[..|samples|] == samples;
        assert OwnedFunding(t', m) == OwnedFunding(t, m)[(m, s.ts) := s];
      } else {
        FundingKeys(n, samples);
        assert (m, s.ts) !in OwnedFunding(t, n);
        assert OwnedFunding(t', n) == OwnedFunding(t, n);
      }
    }
  }

  // ---- Every single change stays in step -----------------------------------------------

  lemma RecordFillInStep(base: Store, e: Edge, a: Address, f: FillInfo, k: nat, n: nat)
    requires InStep(base, e, k, n) && f.id == n
    ensures InStep(base, RecordFill(e, a, f), k, n + 1)
  {
    hide ReplayFrom, OrdersMirrored, PositionsMirrored, FillsMirrored, TradesMirrored, FundingMirrored, RowsOf;
    ReplaySnoc(base, e.log, InsertFill(a, f));
    FillAppended(e.fills, ReplayFrom(base, e.log).fills, a, f);
  }

  lemma RecordTradeInStep(base: Store, e: Edge, x: PublicTrade, k: nat, n: nat)
    requires InStep(base, e, k, n) && x.id == n
    ensures InStep(base, RecordTrade(e, x), k, n + 1)
  {
    hide ReplayFrom, OrdersMirrored, PositionsMirrored, FillsMirrored, TradesMirrored, FundingMirrored, TradeRowsOf;
    ReplaySnoc(base, e.log, InsertTrade(x));
    TradeAppended(e.trades, ReplayFrom(base, e.log).trades, x);
  }

  lemma RecordFundingInStep(base: Store, e: Edge, m: MarketId, s: Sample, k: nat, n: nat)
    requires InStep(base, e, k, n)
    ensures InStep(base, RecordFunding(e, m, s), k, n)
  {
    hide ReplayFrom, OrdersMirrored, PositionsMirrored, FillsMirrored, TradesMirrored, FundingMirrored;
    ReplaySnoc(base, e.log, InsertFunding(m, s));
    SampleAppended(e.funding, ReplayFrom(base, e.log).funding, m, s);
  }

  lemma SetVaultInStep(base: Store, e: Edge, a: Address, amount: int, k: nat, n: nat)
    requires InStep(base, e, k, n)
    ensures InStep(base, SetVault(e, a, amount), k, n)
  {
    hide ReplayFrom, OrdersMirrored, PositionsMirrored, FillsMirrored, TradesMirrored, FundingMirrored;
    ReplaySnoc(base, e.log, UpsertVault(a, amount));
  }

  lemma AdjustVaultInStep(base: Store, e: Edge, a: Address, delta: real, k: nat, n: nat)
    requires InStep(base, e, k, n)
    ensures InStep(base, AdjustVault(e, a, delta), k, n)
  {
    hide InStep, SetVault;
    if delta != 0.0 {
      var next := VaultOf(e, a) + ScaleUsdc(delta);
      SetVaultInStep(base, e, a, if next < 0 then 0 else next, k, n);
    }
  }

  lemma SetPositionsInStep(base: Store, e: Edge, a: Address, list: seq<EdgePosition>, k: nat, n: nat)
    requires InStep(base, e, k, n) && OnePerMarket(list)
    ensures InStep(base, SetPositions(e, a, list), k, n)
  {
    hide ReplayFrom, OrdersMirrored, PositionsMirrored, FillsMirrored, TradesMirrored, FundingMirrored, Sync, PositionRows, OnePerMarket;
    ReplaySnoc(base, e.log, SyncPositions(a, list));
    PositionsSynced(e.positions, ReplayFrom(base, e.log).positions, a, list);
  }

  lemma OneKnown(base: Store, e: Edge, a: Address, k: nat, n: nat)
    requires InStep(base, e, k, n)
    ensures OnePerMarket(PositionsOf(e, a))
  {
    hide ReplayFrom, OrdersMirrored, FillsMirrored, TradesMirrored, FundingMirrored, OnePerMarket, OwnedPositions;
    assert PositionsAt(PositionList(e.positions, a), ReplayFrom(base, e.log).positions, a);
  }

  /** No account holds two positions in one market. */
  ghost predicate AllOne(e: Edge) {
    forall a :: OnePerMarket(PositionsOf(e, a))
  }

  lemma InStepOne(base: Store, e: Edge)
    requires InStep(base, e, e.nextId, e.nextId)
    ensures AllOne(e)
  {
    hide InStep, OnePerMarket, PositionsOf;
    forall a ensures OnePerMarket(PositionsOf(e, a)) { OneKnown(base, e, a, e.nextId, e.nextId); }
  }

  lemma UpsertPositionInStep(base: Store, e: Edge, a: Address, market: MarketId, side: Side, qty: real, price: real, k: nat, n: nat)
    requires InStep(base, e, k, n)
    ensures InStep(base, UpsertPosition(e, a, market, side, qty, price), k, n)
  {
    hide InStep, SetPositions, FillList, OnePerMarket;
    OneKnown(base, e, a, k, n);
    FillKeepsOne(PositionsOf(e, a), PositionFill(market, side, qty, price));
    SetPositionsInStep(base, e, a, FillList(PositionsOf(e, a), market, side, qty, price), k, n);
  }

  lemma AddOpenOrderInStep(base: Store, e: Edge, a: Address, o: OpenOrder, k: nat, n: nat)
    requires InStep(base, e, k, n) && o.id == k && o.remaining != 0.0
    ensures InStep(base, AddOpenOrder(e, a, o), k + 1, n)
  {
    hide ReplayFrom, OrdersMirrored, PositionsMirrored, FillsMirrored, TradesMirrored, FundingMirrored;
    ReplaySnoc(base, e.log, UpsertOrder(a, o));
    UpsertMirrors(e.orders, ReplayFrom(base, e.log).orders, a, o);
  }

  lemma CancelInStep(base: Store, e: Edge, a: Address, id: OrderId, k: nat, n: nat)
    requires InStep(base, e, k, n)
    ensures InStep(base, CancelOrder(e, a, id), k, n)
  {
    hide ReplayFrom, OrdersMirrored, PositionsMirrored, FillsMirrored, TradesMirrored, FundingMirrored, Find, Without;
    var list := ListOf(e.orders, a);
    if Find(list, id) < |list| {
      assert HasId(list, id);
      ReplaySnoc(base, e.log, DeleteOrder(id));
      DeleteMirrors(e.orders, ReplayFrom(base, e.log).orders, a, id);
    }
  }

  // ---- A match stays in step -----------------------------------------------------------

  /** Nothing but orders differs. */
  predicate SameElse(t: Store, t': Store) {
    t' == t.(orders := t'.orders)
  }

  /** Replacing an address's rows by orders whose ids it already has cannot conflict. */
  lemma SyncOne(t: map<OrderId, Row<OpenOrder>>, a: Address, list: seq<OpenOrder>, old': seq<OpenOrder>, k: nat)
    requires OwnedOrders(t, a) == OrderRows(old') && IdsWithin(list, old') && OrdersBelow(t, k)
    ensures var t' := Sync<OrderId, OpenOrder>(t, a, OrderRows(list));
            && OrdersBelow(t', k) && (forall b :: OwnedOrders(t', b) == if a == b then OrderRows(list) else OwnedOrders(t, b))
  {
    hide OrderRows;
    OrderRowKeys(list);
    OrderRowKeys(old');
    var rows := OrderRows(list);
    forall id | id in rows ensures id in OwnedOrders(t, a) {
      var i :| 0 <= i < |list| && list[i].id == id && rows[id] == list[i];
      assert HasId(old', list[i].id);
    }
    assert rows.Keys !! Kept<OrderId, OpenOrder>(t, a).Keys;
    forall b ensures OwnedOrders(Sync<OrderId, OpenOrder>(t, a, rows), b) == if a == b then rows else OwnedOrders(t, b) {
      SyncOwned<OrderId, OpenOrder>(t, a, rows, b);
    }
  }

  /** After some makers are synced: theirs are the new rows, all others the old ones. */
  ghost predicate SyncedSoFar(orders: Orders, orders': Orders, makers: seq<Address>, t: map<OrderId, Row<OpenOrder>>) {
    forall a :: OwnedOrders(t, a) == OrderRows(if a in makers then ListOf(orders', a) else ListOf(orders, a))
  }

  ghost predicate AllShrink(orders: Orders, orders': Orders) {
    forall a :: DistinctIds(ListOf(orders', a)) && IdsWithin(ListOf(orders', a), ListOf(orders, a))
  }

  lemma IdsReflexive(list: seq<OpenOrder>)
    ensures IdsWithin(list, list)
  {
    forall i | 0 <= i < |list| ensures HasId(list, list[i].id) {}
  }

  lemma SyncStep(orders: Orders, orders': Orders, makers: seq<Address>, a: Address, t: map<OrderId, Row<OpenOrder>>, k: nat)
    requires AllShrink(orders, orders') && OrdersBelow(t, k) && SyncedSoFar(orders, orders', makers, t)
    ensures var t' := Sync<OrderId, OpenOrder>(t, a, OrderRows(ListOf(orders', a)));
            OrdersBelow(t', k) && SyncedSoFar(orders, orders', makers + [a], t')
  {
    hide OrderRows, OwnedOrders, Sync, DistinctIds, IdsWithin, OrdersBelow;
    var list := ListOf(orders', a);
    IdsReflexive(list);
    SyncOne(t, a, list, if a in makers then list else ListOf(orders, a), k);
  }

  lemma SyncApplied(t: Store, a: Address, list: seq<OpenOrder>)
    requires DistinctIds(list)
    ensures Apply(t, SyncOrders(a, list)) == t.(orders := Sync<OrderId, OpenOrder>(t.orders, a, OrderRows(list)))
  {}

  lemma {:induction false} SyncAllReplayed(base: Store, log: seq<Event>, orders: Orders, orders': Orders, makers: seq<Address>, k: nat)
    requires AllShrink(orders, orders') && OrdersBelow(ReplayFrom(base, log).orders, k)
    requires SyncedSoFar(orders, orders', [], ReplayFrom(base, log).orders)
    ensures var t' := ReplayFrom(base, log + SyncAll(orders', makers));
            SameElse(ReplayFrom(base, log), t') && OrdersBelow(t'.orders, k) && SyncedSoFar(orders, orders', makers, t'.orders)
  {
    hide ReplayFrom, Apply, Sync, OrdersBelow, SyncedSoFar, DistinctIds, IdsWithin;
    if makers == [] {
      assert log + SyncAll(orders', makers) == log;
    } else {
      var n := |makers| - 1;
      var init, a := makers[..n], makers[n];
      SyncAllReplayed(base, log, orders, orders', init, k);
      var log1, list := log + SyncAll(orders', init), ListOf(orders', a);
      assert log + SyncAll(orders', makers) == log1 + [SyncOrders(a, list)];
      ReplaySnoc(base, log1, SyncOrders(a, list));
      SyncApplied(ReplayFrom(base, log1), a, list);
      SyncStep(orders, orders', init, a, ReplayFrom(base, log1).orders, k);
      assert makers == init + [a];
    }
  }

  lemma {:induction false} MakersSeen(seen: seq<Address>, fills: seq<Matched>, a: Address)
    requires a in seen || HasMaker(fills, a)
    ensures a in Makers(seen, fills)
    decreases |fills|
  {
    if fills != [] {
      var f := fills[0];
      var seen' := if f.maker in seen then seen else seen + [f.maker];
      if a !in seen' {
        var i :| 0 <= i < |fills| && fills[i].maker == a;
        assert fills[1..][i - 1].maker == a;
      }
      MakersSeen(seen', fills[1..], a);
    }
  }

  lemma MirroredFacts(orders: Orders, t: map<OrderId, Row<OpenOrder>>)
    requires OrdersMirrored(orders, t)
    ensures forall a :: DistinctIds(ListOf(orders, a)) && NonZero(ListOf(orders, a))
    ensures SyncedSoFar(orders, orders, [], t)
  {
    hide DistinctIds, NonZero, OrderRows, OwnedOrders;
    forall a ensures DistinctIds(ListOf(orders, a)) && NonZero(ListOf(orders, a)) && OwnedOrders(t, a) == OrderRows(ListOf(orders, a)) {
      assert OrdersAt(ListOf(orders, a), t, a);
    }
  }

  lemma MatchInStep(base: Store, e: Edge, users: seq<Address>, req: Request, k: nat, n: nat)
    requires InStep(base, e, k, n)
    ensures InStep(base, MatchTaker(e, users, req).edge, k, n)
  {
    hide ReplayFrom, Match, Makers, SyncAll, PositionsMirrored, FillsMirrored, TradesMirrored, FundingMirrored, OrdersMirrored, OrdersBelow, FillsBelow, TradesBelow;
    var r := Match(e.orders, users, req);
    var makers := Makers([], r.fills);
    MirroredFacts(e.orders, ReplayFrom(base, e.log).orders);
    MatchShrinks(e.orders, users, req);
    SyncAllReplayed(base, e.log, e.orders, r.orders, makers, k);
    var t' := ReplayFrom(base, e.log + SyncAll(r.orders, makers));
    MirroredAgain(e.orders, users, req, t'.orders);
  }

  lemma MatchShrinks(orders: Orders, users: seq<Address>, req: Request)
    requires forall a :: DistinctIds(ListOf(orders, a)) && NonZero(ListOf(orders, a))
    ensures AllShrink(orders, Match(orders, users, req).orders)
  {
    hide Match, DistinctIds, NonZero, IdsWithin;
    forall a ensures DistinctIds(ListOf(Match(orders, users, req).orders, a)) && IdsWithin(ListOf(Match(orders, users, req).orders, a), ListOf(orders, a)) {
      MatchChanges(orders, users, req, a);
    }
  }

  lemma MirroredAgain(orders: Orders, users: seq<Address>, req: Request, t: map<OrderId, Row<OpenOrder>>)
    requires forall a :: DistinctIds(ListOf(orders, a)) && NonZero(ListOf(orders, a))
    requires SyncedSoFar(orders, Match(orders, users, req).orders, Makers([], Match(orders, users, req).fills), t)
    ensures OrdersMirrored(Match(orders, users, req).orders, t)
  {
    hide Match, Makers, DistinctIds, NonZero, OrderRows, OwnedOrders, HasMaker;
    var r := Match(orders, users, req);
    forall a ensures OrdersAt(ListOf(r.orders, a), t, a) {
      MatchChanges(orders, users, req, a);
      if HasMaker(r.fills, a) { MakersSeen([], r.fills, a); }
    }
  }

  // ---- Whole operations ----------------------------------------------------------------

  lemma Relax(base: Store, e: Edge, k: nat, n: nat, k': nat, n': nat)
    requires InStep(base, e, k, n) && k <= k' && n <= n'
    ensures InStep(base, e, k', n')
  {
    hide ReplayFrom, Mirrors;
  }

  lemma Renumber(base: Store, e: Edge, k: nat, n: nat, next: nat)
    requires InStep(base, e, k, n)
    ensures InStep(base, e.(nextId := next), k, n)
  {
    hide ReplayFrom, OrdersMirrored, PositionsMirrored, FillsMirrored, TradesMirrored, FundingMirrored;
  }

  lemma SettleInStep(base: Store, e: Edge, t: Ticket, order: OrderId, m: Matched, fees: Fees, k: nat)
    requires InStep(base, e, k, e.nextId)
    ensures InStep(base, SettleMatch(e, t, order, m, fees), k, e.nextId + 3)
    ensures SettleMatch(e, t, order, m, fees).nextId == e.nextId + 3
  {
    hide InStep, Share, RecordFill, RecordTrade, AdjustVault, UpsertPosition, TakerFill, MakerFill;
    var n := e.nextId;
    var e0 := e.(nextId := n + 3);
    Renumber(base, e, k, n, n + 3);
    FillIds(t, n, order, m, fees);
    RecordFillInStep(base, e0, t.user, TakerFill(t, n, order, m, fees), k, n);
    var e1 := RecordFill(e0, t.user, TakerFill(t, n, order, m, fees));
    RecordFillInStep(base, e1, m.maker, MakerFill(t, n + 1, m, fees), k, n + 1);
    var e2 := RecordFill(e1, m.maker, MakerFill(t, n + 1, m, fees));
    AdjustVaultInStep(base, e2, t.user, -Share(m, fees.takerBps), k, n + 2);
    var e3 := AdjustVault(e2, t.user, -Share(m, fees.takerBps));
    AdjustVaultInStep(base, e3, m.maker, Share(m, fees.rebateBps), k, n + 2);
    var e4 := AdjustVault(e3, m.maker, Share(m, fees.rebateBps));
    RecordTradeInStep(base, e4, PublicTrade(n + 2, t.market, m.price, m.qty, t.side, t.ts), k, n + 2);
    var e5 := RecordTrade(e4, PublicTrade(n + 2, t.market, m.price, m.qty, t.side, t.ts));
    UpsertPositionInStep(base, e5, t.user, t.market, t.side, m.qty, m.price, k, n + 3);
    var e6 := UpsertPosition(e5, t.user, t.market, t.side, m.qty, m.price);
    UpsertPositionInStep(base, e6, m.maker, t.market, t.side.Opposite(), m.qty, m.price, k, n + 3);
    SettleCounts(e, t, order, m, fees);
  }

  lemma FillIds(t: Ticket, n: nat, order: OrderId, m: Matched, fees: Fees)
    ensures TakerFill(t, n, order, m, fees).id == n && MakerFill(t, n + 1, m, fees).id == n + 1
  {}

  lemma SettleCounts(e: Edge, t: Ticket, order: OrderId, m: Matched, fees: Fees)
    ensures SettleMatch(e, t, order, m, fees).nextId == e.nextId + 3
  {
    hide Share, TakerFill, MakerFill, ScaleUsdc, FillList;
  }

  lemma {:induction false} SettleAllInStep(base: Store, e: Edge, t: Ticket, order: OrderId, matches: seq<Matched>, fees: Fees, k: nat)
    requires InStep(base, e, k, e.nextId)
    ensures var e' := SettleAll(e, t, order, matches, fees); InStep(base, e', k, e'.nextId) && e.nextId <= e'.nextId
    decreases |matches|
  {
    hide InStep, SettleMatch;
    if matches != [] {
      SettleInStep(base, e, t, order, matches[0], fees, k);
      SettleAllInStep(base, SettleMatch(e, t, order, matches[0], fees), t, order, matches[1..], fees, k);
    }
  }

  lemma PlaceInStep(base: Store, e: Edge, users: seq<Address>, t: Ticket, fees: Fees)
    requires InStep(base, e, e.nextId, e.nextId)
    ensures var e' := PlaceOrder(e, users, t, fees); InStep(base, e', e'.nextId, e'.nextId)
  {
    hide InStep, Match, SettleAll, ProbeFrom, Collect, TotalQty;
    if t.admitted && t.qty != 0.0 {
      var id, req := e.nextId, RequestOf(t);
      var e1 := e.(nextId := id + 1);
      Renumber(base, e, id, id, id + 1);
      Relax(base, e1, id, id, id, id + 1);
      Relax(base, e1, id, id + 1, id + 1, id + 1);
      var r := MatchTaker(e1, users, req);
      MatchInStep(base, e1, users, req, id, id + 1);
      SettleAllInStep(base, r.edge, t, id, r.fills, fees, id);
      var e2 := SettleAll(r.edge, t, id, r.fills, fees);
      var remaining := t.qty - TotalQty(r.fills);
      Relax(base, e2, id, e2.nextId, e2.nextId, e2.nextId);
      if remaining != 0.0 && t.limit.Some? {
        var o := RestingOrder(t, id, remaining);
        AddOpenOrderInStep(base, e2, t.user, o, id, e2.nextId);
        Relax(base, AddOpenOrder(e2, t.user, o), id + 1, e2.nextId, e2.nextId, e2.nextId);
      }
    }
  }

  lemma {:induction false} OthersHas(list: seq<EdgePosition>, market: MarketId)
    ensures forall p :: p in Others(list, market) <==> p in list && p.market != market
  {
    if list != [] {
      OthersHas(list[1..], market);
      assert list == [list[0]] + list[1..];
      assert [] + Others(list[1..], market) == Others(list[1..], market);
    }
  }

  lemma OneOfNone()
    ensures OnePerMarket([])
  {}

  lemma OneTail(list: seq<EdgePosition>)
    requires list != [] && OnePerMarket(list)
    ensures OnePerMarket(list[1..]) && forall p | p in list[1..] :: p.market != list[0].market
  {
    forall i, j | 0 <= i < j < |list| - 1 ensures list[1..][i].market != list[1..][j].market { assert list[i + 1].market != list[j + 1].market; }
  }

  lemma OneCons(p: EdgePosition, r: seq<EdgePosition>)
    requires OnePerMarket(r) && forall i | 0 <= i < |r| :: r[i].market != p.market
    ensures OnePerMarket([p] + r)
  {}

  lemma {:induction false} OthersOne(list: seq<EdgePosition>, market: MarketId)
    requires OnePerMarket(list)
    ensures OnePerMarket(Others(list, market))
  {
    hide OnePerMarket;
    if list == [] {
      OneOfNone();
    } else {
      OneTail(list);
      OthersOne(list[1..], market);
      OthersHas(list[1..], market);
      var r := Others(list[1..], market);
      assert [] + r == r;
      forall i | 0 <= i < |r| ensures r[i].market != list[0].market { assert r[i] in r; }
      OneCons(list[0], r);
    }
  }

  lemma LiquidateInStep(base: Store, e: Edge, a: Address, market: MarketId, prices: Prices, ts: nat)
    requires InStep(base, e, e.nextId, e.nextId)
    ensures var e' := LiquidatePosition(e, a, market, prices, ts); InStep(base, e', e'.nextId, e'.nextId)
  {
    hide InStep, Underwater, Others, ClosePnl, Collateral, ScaleUsdc, OnePerMarket;
    var list := PositionsOf(e, a);
    var i := IndexOf(list, market);
    if i < |list| && Underwater(e, a, list[i], prices) {
      UnderwaterPriced(e, a, list[i], prices);
      CloseInStep(base, e, a, list[i], prices[market].mark, ts);
    }
  }

  lemma UnderwaterPriced(e: Edge, a: Address, p: EdgePosition, prices: Prices)
    requires Underwater(e, a, p, prices)
    ensures p.market in prices
  {}

  lemma CloseInStep(base: Store, e: Edge, a: Address, p: EdgePosition, mark: real, ts: nat)
    requires InStep(base, e, e.nextId, e.nextId)
    ensures var e' := CloseOut(e, a, p, mark, ts); InStep(base, e', e'.nextId, e'.nextId)
  {
    hide InStep, Others, ClosePnl, Collateral, ScaleUsdc, OnePerMarket;
    var n := e.nextId;
    var raw := Collateral(e, a) + ClosePnl(p, mark);
    var amount := ScaleUsdc(if raw < 0.0 then 0.0 else raw);
    var e0 := e.(nextId := n + 2);
    Renumber(base, e, n, n, n + 2);
    SetVaultInStep(base, e0, a, amount, n, n);
    var e1 := SetVault(e0, a, amount);
    OneKnown(base, e, a, n, n);
    OthersOne(PositionsOf(e, a), p.market);
    SetPositionsInStep(base, e1, a, Others(PositionsOf(e, a), p.market), n, n);
    var e2 := SetPositions(e1, a, Others(PositionsOf(e, a), p.market));
    var f := FillInfo(n, None, p.market, p.side.Opposite(), mark, p.size, 0, Liquidation, ts);
    RecordFillInStep(base, e2, a, f, n, n);
    var e3 := RecordFill(e2, a, f);
    var x := PublicTrade(n + 1, p.market, mark, p.size, p.side.Opposite(), ts);
    RecordTradeInStep(base, e3, x, n, n + 1);
    Relax(base, RecordTrade(e3, x), n, n + 2, n + 2, n + 2);
  }

  // ---- Whole runs ----------------------------------------------------------------------

  datatype Op =
    | Place(users: seq<Address>, ticket: Ticket, fees: Fees)
    | Cancel(address: Address, id: OrderId)
    | Liquidate(address: Address, market: MarketId, prices: Prices, ts: nat)
    | SetBalance(address: Address, amount: int)
    | Seed(address: Address, optedIn: bool)
    | Adjust(address: Address, delta: real)
    | RecordSample(market: MarketId, sample: Sample)

  function Do(e: Edge, op: Op): Edge {
    match op
    case Place(users, ticket, fees) => PlaceOrder(e, users, ticket, fees)
    case Cancel(a, id) => CancelOrder(e, a, id)
    case Liquidate(a, market, prices, ts) => LiquidatePosition(e, a, market, prices, ts)
    case SetBalance(a, amount) => SetVault(e, a, amount)
    case Seed(a, optedIn) => SeedVault(e, optedIn, a)
    case Adjust(a, delta) => AdjustVault(e, a, delta)
    case RecordSample(m, s) => RecordFunding(e, m, s)
  }

  function RunFrom(start: Edge, ops: seq<Op>): Edge {
    if ops == [] then start else Do(RunFrom(start, ops[..|ops| - 1]), ops[|ops| - 1])
  }

  function Run(ops: seq<Op>): Edge {
    RunFrom(NEW, ops)
  }

  lemma DoInStep(base: Store, e: Edge, op: Op)
    requires InStep(base, e, e.nextId, e.nextId)
    ensures InStep(base, Do(e, op), Do(e, op).nextId, Do(e, op).nextId)
  {
    hide InStep, PlaceOrder, LiquidatePosition;
    var n := e.nextId;
    match op
    case Place(users, ticket, fees) => PlaceInStep(base, e, users, ticket, fees);
    case Cancel(a, id) => CancelInStep(base, e, a, id, n, n);
    case Liquidate(a, market, prices, ts) => LiquidateInStep(base, e, a, market, prices, ts);
    case SetBalance(a, amount) => SetVaultInStep(base, e, a, amount, n, n);
    case Seed(a, _) => SetVaultInStep(base, e, a, DEV_SEED, n, n);
    case Adjust(a, delta) => AdjustVaultInStep(base, e, a, delta, n, n);
    case RecordSample(m, s) => RecordFundingInStep(base, e, m, s, n, n);
  }

  lemma StartsInStep()
    ensures InStep(NO_ROWS, NEW, 0, 0)
  {
    assert OrderRows([]) == map[];
    forall a ensures PositionRows(a, []) == map[] {}
    forall m ensures FundingRows(m, []) == map[] {}
  }

  /** From any edge whose tables mirror it, every run keeps it so: the tables, brought forward by
      the events on the log, hold exactly the state in memory. */
  lemma {:induction false} RunInStep(base: Store, start: Edge, ops: seq<Op>)
    requires InStep(base, start, start.nextId, start.nextId)
    ensures var e := RunFrom(start, ops); InStep(base, e, e.nextId, e.nextId)
  {
    hide InStep, Do;
    if ops != [] {
      RunInStep(base, start, ops[..|ops| - 1]);
      DoInStep(base, RunFrom(start, ops[..|ops| - 1]), ops[|ops| - 1]);
    }
  }

  /** In particular from an empty edge with empty tables. */
  lemma FirstRunInStep(ops: seq<Op>)
    ensures InStep(NO_ROWS, Run(ops), Run(ops).nextId, Run(ops).nextId)
  {
    hide InStep, RunFrom;
    StartsInStep();
    RunInStep(NO_ROWS, NEW, ops);
  }
}
