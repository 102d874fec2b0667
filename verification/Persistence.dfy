/**
 The durable tables behind the edge: how each persistence event changes them, and how the maps in
 memory are filled from them at start-up. Rows come back in no particular order, except where a
 sequence column keeps the order of insertion.
 */
module Persistence {
  import opened OrderTypes
  import opened EdgeMatch
  import opened EdgePositions
  import opened EdgeState

  /** A row and the address or market it belongs to. */
  datatype Row<V> = Row(group: nat, value: V)

  type PositionKey = (Address, MarketId)
  type FundingKey = (MarketId, nat)

  /** Orders are keyed by id, positions by address and market, funding samples by market and time;
      fills and trades keep their order and have unique ids. */
  datatype Store = Store(
    orders: map<OrderId, Row<OpenOrder>>,
    positions: map<PositionKey, Row<EdgePosition>>,
    fills: seq<Row<FillInfo>>,
    vaults: map<Address, int>,
    trades: seq<PublicTrade>,
    funding: map<FundingKey, Row<Sample>>)

  const NO_ROWS := Store(map[], map[], [], map[], [], map[])

  // ---- Replacing the rows of one address -----------------------------------------------

  function Owned<K, V>(t: map<K, Row<V>>, a: Address): map<K, V> {
    map k | k in t && t[k].group == a :: t[k].value
  }

  function Kept<K, V>(t: map<K, Row<V>>, a: Address): map<K, Row<V>> {
    map k | k in t && t[k].group != a :: t[k]
  }

  function Tagged<K, V>(a: Address, rows: map<K, V>): map<K, Row<V>> {
    map k | k in rows :: Row(a, rows[k])
  }

  /** Delete, then insert; a key that is still taken undoes both. */
  function Sync<K, V>(t: map<K, Row<V>>, a: Address, rows: map<K, V>): map<K, Row<V>> {
    if rows.Keys !! Kept(t, a).Keys then Kept(t, a) + Tagged(a, rows) else t
  }

  function OrderRows(list: seq<OpenOrder>): map<OrderId, OpenOrder> {
    if list == [] then map[] else OrderRows(list[..|list| - 1])[list[|list| - 1].id := list[|list| - 1]]
  }

  function PositionRows(a: Address, list: seq<EdgePosition>): map<PositionKey, EdgePosition> {
    if list == [] then map[] else
    var p := list[|list| - 1];
    PositionRows(a, list[..|list| - 1])[(a, p.market) := p]
  }

  predicate DistinctIds(list: seq<OpenOrder>) {
    forall i, j | 0 <= i < j < |list| :: list[i].id != list[j].id
  }

  // ---- Events --------------------------------------------------------------------------

  predicate HasFill(rows: seq<Row<FillInfo>>, id: nat) {
    exists i :: 0 <= i < |rows| && rows[i].value.id == id
  }

  predicate HasTrade(rows: seq<PublicTrade>, id: nat) {
    exists i :: 0 <= i < |rows| && rows[i].id == id
  }

  /** On an id that is taken, an upsert only refreshes the remaining quantity. */
  function Upsert(t: map<OrderId, Row<OpenOrder>>, a: Address, o: OpenOrder): map<OrderId, Row<OpenOrder>> {
    if o.id in t then t[o.id := t[o.id].(value := t[o.id].value.(remaining := o.remaining))] else t[o.id := Row(a, o)]
  }

  function Apply(t: Store, ev: Event): Store {
    match ev
    case UpsertOrder(a, o) => t.(orders := Upsert(t.orders, a, o))
    case DeleteOrder(id) => t.(orders := t.orders - {id})
    case SyncOrders(a, list) => if DistinctIds(list) then t.(orders := Sync<OrderId, OpenOrder>(t.orders, a, OrderRows(list))) else t
    case InsertFill(a, f) => if HasFill(t.fills, f.id) then t else t.(fills := t.fills + [Row(a, f)])
    case SyncPositions(a, list) =>
      if OnePerMarket(list) then t.(positions := Sync(t.positions, a, PositionRows(a, list))) else t
    case UpsertVault(a, amount) => t.(vaults := t.vaults[a := amount])
    case InsertTrade(x) => if HasTrade(t.trades, x.id) then t else t.(trades := t.trades + [x])
    case InsertFunding(m, s) => t.(funding := t.funding[(m, s.ts) := Row(m, s)])
  }

  /** Events applied in order to tables that may already hold something. */
  function ReplayFrom(base: Store, log: seq<Event>): Store {
    if log == [] then base else Apply(ReplayFrom(base, log[..|log| - 1]), log[|log| - 1])
  }

  // ---- In place ------------------------------------------------------------------------

  class Db {
    var orders: map<OrderId, Row<OpenOrder>>
    var positions: map<PositionKey, Row<EdgePosition>>
    var fills: seq<Row<FillInfo>>
    var vaults: map<Address, int>
    var trades: seq<PublicTrade>
    var funding: map<FundingKey, Row<Sample>>

    ghost function View(): Store
      reads this
    {
      Store(orders, positions, fills, vaults, trades, funding)
    }

    constructor ()
      ensures View() == NO_ROWS
    {
      orders, positions, fills, vaults, trades, funding := map[], map[], [], map[], [], map[];
    }

    /** Replace an address's orders, one insert after another; the first conflict rolls back. */
    method SyncOrderRows(a: Address, list: seq<OpenOrder>)
      modifies this`orders
      ensures orders == if DistinctIds(list) then Sync<OrderId, OpenOrder>(old(orders), a, OrderRows(list)) else old(orders)
    {
      hide OrderRows;
      var t := Kept<OrderId, OpenOrder>(orders, a);
      NoOrderRows(a, t);
      for i := 0 to |list|
        invariant DistinctIds(list[..i]) && OrderRows(list[..i]).Keys !! Kept<OrderId, OpenOrder>(orders, a).Keys
        invariant t == Kept<OrderId, OpenOrder>(orders, a) + Tagged<OrderId, OpenOrder>(a, OrderRows(list[..i]))
        invariant orders == old(orders)
      {
        InsertOrderRow(Kept<OrderId, OpenOrder>(orders, a), a, list, i);
        if list[i].id in t {
          return;
        }
        t := t[list[i].id := Row(a, list[i])];
      }
      assert list[..|list|] == list;
      orders := t;
    }

    method SyncPositionRows(a: Address, list: seq<EdgePosition>)
      modifies this`positions
      ensures positions == if OnePerMarket(list) then Sync(old(positions), a, PositionRows(a, list)) else old(positions)
    {
      hide PositionRows;
      var t := Kept(positions, a);
      NoPositionRows(a, t);
      for i := 0 to |list|
        invariant OnePerMarket(list[..i]) && PositionRows(a, list[..i]).Keys !! Kept(positions, a).Keys
        invariant t == Kept(positions, a) + Tagged(a, PositionRows(a, list[..i]))
        invariant positions == old(positions)
      {
        InsertPositionRow(Kept(positions, a), a, list, i);
        if (a, list[i].market) in t {
          return;
        }
        t := t[(a, list[i].market) := Row(a, list[i])];
      }
      assert list[..|list|] == list;
      positions := t;
    }

    method Write(ev: Event)
      modifies this
      ensures View() == Apply(old(View()), ev)
    {
      hide Sync, OrderRows, PositionRows, DistinctIds, OnePerMarket;
      match ev
      case UpsertOrder(a, o) =>
        if o.id in orders {
          var row := orders[o.id];
          orders := orders[o.id := row.(value := row.value.(remaining := o.remaining))];
        } else {
          orders := orders[o.id := Row(a, o)];
        }
      case DeleteOrder(id) => orders := orders - {id};
      case SyncOrders(a, list) => SyncOrderRows(a, list);
      case InsertFill(a, f) =>
        if !HasFill(fills, f.id) {
          fills := fills + [Row(a, f)];
        }
      case SyncPositions(a, list) => SyncPositionRows(a, list);
      case UpsertVault(a, amount) => vaults := vaults[a := amount];
      case InsertTrade(x) =>
        if !HasTrade(trades, x.id) {
          trades := trades + [x];
        }
      case InsertFunding(m, s) => funding := funding[(m, s.ts) := Row(m, s)];
    }

    /** Drain the channel in order. */
    method Drain(events: seq<Event>)
      modifies this
      ensures View() == ReplayFrom(old(View()), events)
    {
      hide Apply;
      ghost var base := View();
      for i := 0 to |events|
        invariant View() == ReplayFrom(base, events[..i])
      {
        assert events[..i + 1][..i] == events[..i];
        Write(events[i]);
      }
      assert events[..|events|] == events;
    }

    /** Read everything back, grouped as the maps in memory are. */
    method LoadSnapshot() returns (snap: Snapshot)
      ensures Loads(View(), snap)
    {
      hide Grouped, Tape, Balances, Fetched, FetchedVaults, Ascending;
      var orderRows, orderKeys := Select(orders);
      var positionRows, positionKeys := Select(positions);
      var vaultRows := SelectVaults(vaults);
      var fundingRows, fundingKeys := SelectByTime(funding);
      var loadedOrders := Group(orderRows);
      var loadedPositions := Group(positionRows);
      var loadedFills := Group(fills);
      var loadedVaults := GroupVaults(vaultRows);
      var loadedTrades := GroupTrades(trades);
      var loadedFunding := Group(fundingRows);
      snap := Snapshot(loadedOrders, loadedPositions, loadedFills, loadedVaults, loadedTrades, loadedFunding);
      LoadsIntro(View(), orderKeys, orderRows, positionKeys, positionRows, vaultRows, fundingKeys, fundingRows);
    }
  }

  lemma NoOrderRows(a: Address, t: map<OrderId, Row<OpenOrder>>)
    ensures OrderRows([]) == map[] && t == t + Tagged<OrderId, OpenOrder>(a, OrderRows([]))
  {}

  lemma NoPositionRows(a: Address, t: map<PositionKey, Row<EdgePosition>>)
    ensures PositionRows(a, []) == map[] && t == t + Tagged(a, PositionRows(a, []))
  {}

  lemma InsertOrderRow(kept: map<OrderId, Row<OpenOrder>>, a: Address, list: seq<OpenOrder>, i: nat)
    requires i < |list| && DistinctIds(list[..i]) && OrderRows(list[..i]).Keys !! kept.Keys
    ensures var t, o := kept + Tagged<OrderId, OpenOrder>(a, OrderRows(list[..i])), list[i];
            if o.id in t then !DistinctIds(list) || !(OrderRows(list).Keys !! kept.Keys)
            else && DistinctIds(list[..i + 1]) && OrderRows(list[..i + 1]).Keys !! kept.Keys
                 && t[o.id := Row(a, o)] == kept + Tagged<OrderId, OpenOrder>(a, OrderRows(list[..i + 1]))
  {
    hide OrderRows, Tagged;
    var rows, o := OrderRows(list[..i]), list[i];
    OrderRowsSnoc(list, i);
    TaggedKeys<OrderId, OpenOrder>(a, rows);
    if o.id in kept {
      OrderRowKeys(list);
      assert list[i].id in OrderRows(list);
    } else if o.id in rows {
      OrderRowKeys(list[..i]);
      var j :| 0 <= j < |list[..i]| && list[..i][j].id == o.id && rows[o.id] == list[..i][j];
      assert list[j].id == list[i].id;
    } else {
      OrderRowHas(list[..i]);
      InsertTagged<OrderId, OpenOrder>(kept, a, rows, o.id, o);
      assert list[..i + 1] == list[..i] + [o];
    }
  }

  lemma OrderRowHas(list: seq<OpenOrder>)
    ensures forall j | 0 <= j < |list| :: list[j].id in OrderRows(list)
  {
    OrderRowKeys(list);
  }

  lemma TaggedKeys<K, V>(a: Address, rows: map<K, V>)
    ensures Tagged(a, rows).Keys == rows.Keys
  {}

  lemma InsertTagged<K, V>(kept: map<K, Row<V>>, a: Address, rows: map<K, V>, k: K, v: V)
    requires rows.Keys !! kept.Keys && k !in kept && k !in rows
    ensures rows[k := v].Keys !! kept.Keys
    ensures (kept + Tagged(a, rows))[k := Row(a, v)] == kept + Tagged(a, rows[k := v])
  {}

  lemma OrderRowsSnoc(list: seq<OpenOrder>, i: nat)
    requires i < |list|
    ensures OrderRows(list[..i + 1]) == OrderRows(list[..i])[list[i].id := list[i]]
  {
    assert list[..i + 1][..i] == list[..i];
  }

  /** The keys are the ids of the list. */
  lemma {:induction false} OrderRowKeys(list: seq<OpenOrder>)
    ensures forall i | 0 <= i < |list| :: list[i].id in OrderRows(list)
    ensures forall k | k in OrderRows(list) :: exists i :: 0 <= i < |list| && list[i].id == k && OrderRows(list)[k] == list[i]
  {
    if list != [] {
      var n := |list| - 1;
      OrderRowKeys(list[..n]);
      forall k | k in OrderRows(list) ensures exists i :: 0 <= i < |list| && list[i].id == k && OrderRows(list)[k] == list[i] {
        if k == list[n].id {
          assert OrderRows(list)[k] == list[n];
        } else {
          var i :| 0 <= i < n && list[..n][i].id == k && OrderRows(list[..n])[k] == list[..n][i];
          assert list[i].id == k && OrderRows(list)[k] == list[i];
        }
      }
    }
  }

  lemma InsertPositionRow(kept: map<PositionKey, Row<EdgePosition>>, a: Address, list: seq<EdgePosition>, i: nat)
    requires i < |list| && OnePerMarket(list[..i]) && PositionRows(a, list[..i]).Keys !! kept.Keys
    ensures var t, p := kept + Tagged(a, PositionRows(a, list[..i])), list[i];
            if (a, p.market) in t then !OnePerMarket(list) || !(PositionRows(a, list).Keys !! kept.Keys)
            else && OnePerMarket(list[..i + 1]) && PositionRows(a, list[..i + 1]).Keys !! kept.Keys
                 && t[(a, p.market) := Row(a, p)] == kept + Tagged(a, PositionRows(a, list[..i + 1]))
  {
    hide PositionRows, Tagged;
    var rows, k := PositionRows(a, list[..i]), (a, list[i].market);
    PositionRowsSnoc(a, list, i);
    TaggedKeys(a, rows);
    if k in kept {
      PositionRowKeys(a, list);
      assert (a, list[i].market) in PositionRows(a, list);
    } else if k in rows {
      PositionRowKeys(a, list[..i]);
      var j :| 0 <= j < |list[..i]| && k == (a, list[..i][j].market) && rows[k] == list[..i][j];
      assert list[j].market == list[i].market;
    } else {
      PositionRowHas(a, list[..i]);
      InsertTagged(kept, a, rows, k, list[i]);
      assert list[..i + 1] == list[..i] + [list[i]];
    }
  }

  lemma PositionRowHas(a: Address, list: seq<EdgePosition>)
    ensures forall j | 0 <= j < |list| :: (a, list[j].market) in PositionRows(a, list)
  {
    PositionRowKeys(a, list);
  }

  lemma PositionRowsSnoc(a: Address, list: seq<EdgePosition>, i: nat)
    requires i < |list|
    ensures PositionRows(a, list[..i + 1]) == PositionRows(a, list[..i])[(a, list[i].market) := list[i]]
  {
    assert list[..i + 1][..i] == list[..i];
  }

  lemma {:induction false} PositionRowKeys(a: Address, list: seq<EdgePosition>)
    ensures forall i | 0 <= i < |list| :: (a, list[i].market) in PositionRows(a, list)
    ensures forall k | k in PositionRows(a, list) ::
              exists i :: 0 <= i < |list| && k == (a, list[i].market) && PositionRows(a, list)[k] == list[i]
  {
    if list != [] {
      var n := |list| - 1;
      PositionRowKeys(a, list[..n]);
      forall k | k in PositionRows(a, list)
        ensures exists i :: 0 <= i < |list| && k == (a, list[i].market) && PositionRows(a, list)[k] == list[i]
      {
        if k == (a, list[n].market) {
          assert PositionRows(a, list)[k] == list[n];
        } else {
          assert k in PositionRows(a, list[..n]);
          var i :| 0 <= i < |list[..n]| && k == (a, list[..n][i].market) && PositionRows(a, list[..n])[k] == list[..n][i];
          assert k == (a, list[i].market) && PositionRows(a, list)[k] == list[i];
        }
      }
    }
  }

  // ---- Loading -------------------------------------------------------------------------

  function Push<V>(m: map<nat, seq<V>>, k: nat, v: V): map<nat, seq<V>> {
    m[k := (if k in m then m[k] else []) + [v]]
  }

  /** Rows by group, each group in the order the rows came. */
  function Grouped<V>(rows: seq<Row<V>>): map<nat, seq<V>> {
    if rows == [] then map[] else Push(Grouped(rows[..|rows| - 1]), rows[|rows| - 1].group, rows[|rows| - 1].value)
  }

  function Tape(rows: seq<PublicTrade>): map<MarketId, seq<PublicTrade>> {
    if rows == [] then map[] else Push(Tape(rows[..|rows| - 1]), rows[|rows| - 1].market, rows[|rows| - 1])
  }

  function Balances(rows: seq<(Address, int)>): map<Address, int> {
    if rows == [] then map[] else Balances(rows[..|rows| - 1])[rows[|rows| - 1].0 := rows[|rows| - 1].1]
  }

  /** What a query on a keyed table returns: every row once, in any order. */
  ghost predicate Fetched<K, V>(t: map<K, Row<V>>, keys: seq<K>, rows: seq<Row<V>>) {
    && (forall i, j | 0 <= i < j < |keys| :: keys[i] != keys[j])
    && (forall k | k in t :: k in keys)
    && |rows| == |keys| && (forall i | 0 <= i < |keys| :: keys[i] in t && rows[i] == t[keys[i]])
  }

  ghost predicate FetchedVaults(t: map<Address, int>, rows: seq<(Address, int)>) {
    && (forall i | 0 <= i < |rows| :: rows[i].0 in t && t[rows[i].0] == rows[i].1)
    && (forall a | a in t :: (a, t[a]) in rows)
  }

  /** Funding samples come in order of time. */
  predicate Ascending(rows: seq<Row<Sample>>) {
    forall i, j | 0 <= i < j < |rows| :: rows[i].value.ts <= rows[j].value.ts
  }

  /** `s` may come out of loading the tables `t`, whatever order their rows are returned in. */
  ghost predicate Loads(t: Store, s: Snapshot) {
    exists orderKeys, orderRows, positionKeys, positionRows, vaultRows, fundingKeys, fundingRows ::
      LoadsBy(t, s, orderKeys, orderRows, positionKeys, positionRows, vaultRows, fundingKeys, fundingRows)
  }

  ghost predicate LoadsBy(
    t: Store, s: Snapshot, orderKeys: seq<OrderId>, orderRows: seq<Row<OpenOrder>>,
    positionKeys: seq<PositionKey>, positionRows: seq<Row<EdgePosition>>, vaultRows: seq<(Address, int)>,
    fundingKeys: seq<FundingKey>, fundingRows: seq<Row<Sample>>)
  {
    && Fetched<OrderId, OpenOrder>(t.orders, orderKeys, orderRows)
    && Fetched<PositionKey, EdgePosition>(t.positions, positionKeys, positionRows)
    && FetchedVaults(t.vaults, vaultRows)
    && Fetched<FundingKey, Sample>(t.funding, fundingKeys, fundingRows) && Ascending(fundingRows)
    && s == Snapshot(Grouped(orderRows), Grouped(positionRows), Grouped(t.fills), Balances(vaultRows), Tape(t.trades), Grouped(fundingRows))
  }

  lemma LoadsIntro(
    t: Store, orderKeys: seq<OrderId>, orderRows: seq<Row<OpenOrder>>, positionKeys: seq<PositionKey>,
    positionRows: seq<Row<EdgePosition>>, vaultRows: seq<(Address, int)>, fundingKeys: seq<FundingKey>, fundingRows: seq<Row<Sample>>)
    requires Fetched<OrderId, OpenOrder>(t.orders, orderKeys, orderRows)
    requires Fetched<PositionKey, EdgePosition>(t.positions, positionKeys, positionRows)
    requires FetchedVaults(t.vaults, vaultRows)
    requires Fetched<FundingKey, Sample>(t.funding, fundingKeys, fundingRows) && Ascending(fundingRows)
    ensures Loads(t, Snapshot(Grouped(orderRows), Grouped(positionRows), Grouped(t.fills), Balances(vaultRows), Tape(t.trades), Grouped(fundingRows)))
  {
    hide Fetched, FetchedVaults, Ascending, Grouped, Balances, Tape;
    var s := Snapshot(Grouped(orderRows), Grouped(positionRows), Grouped(t.fills), Balances(vaultRows), Tape(t.trades), Grouped(fundingRows));
    assert LoadsBy(t, s, orderKeys, orderRows, positionKeys, positionRows, vaultRows, fundingKeys, fundingRows);
  }

  // ---- Queries -------------------------------------------------------------------------

  /** All keys but those of `rest` have been fetched. */
  ghost predicate Fetching<K, V>(t: map<K, Row<V>>, rest: set<K>, keys: seq<K>, rows: seq<Row<V>>) {
    && |rows| == |keys| && (forall k | k in t :: k in rest <==> k !in keys)
    && (forall i, j | 0 <= i < j < |keys| :: keys[i] != keys[j])
    && (forall i | 0 <= i < |keys| :: keys[i] in t && rows[i] == t[keys[i]])
  }

  lemma FetchOne<K, V>(t: map<K, Row<V>>, rest: set<K>, keys: seq<K>, rows: seq<Row<V>>, k: K)
    requires rest <= t.Keys && k in rest && Fetching(t, rest, keys, rows)
    ensures Fetching(t, rest - {k}, keys + [k], rows + [t[k]])
  {}

  lemma AscendingSnoc(rows: seq<Row<Sample>>, r: Row<Sample>)
    requires Ascending(rows) && forall i | 0 <= i < |rows| :: rows[i].value.ts <= r.value.ts
    ensures Ascending(rows + [r])
  {}

  /** A query without an order: the rows come as they please. */
  method Select<K(==), V>(t: map<K, Row<V>>) returns (rows: seq<Row<V>>, ghost keys: seq<K>)
    ensures Fetched(t, keys, rows)
    ensures forall k | k in t :: t[k] in rows
  {
    rows, keys := [], [];
    var rest := t.Keys;
    while rest != {}
      invariant rest <= t.Keys && Fetching(t, rest, keys, rows)
      decreases |rest|
    {
      hide Fetching;
      var k :| k in rest;
      FetchOne(t, rest, keys, rows, k);
      rows, keys, rest := rows + [t[k]], keys + [k], rest - {k};
    }
  }

  lemma {:induction false} Earliest(t: map<FundingKey, Row<Sample>>, keys: set<FundingKey>) returns (k: FundingKey)
    requires keys != {} && keys <= t.Keys
    ensures k in keys && forall j | j in keys :: t[k].value.ts <= t[j].value.ts
    decreases |keys|
  {
    var any :| any in keys;
    var rest := keys - {any};
    assert keys == rest + {any};
    k := any;
    if rest != {} {
      var j := Earliest(t, rest);
      if t[j].value.ts < t[any].value.ts { k := j; }
    }
  }

  /** A query ordered by time; rows of equal time come as they please. */
  method SelectByTime(t: map<FundingKey, Row<Sample>>) returns (rows: seq<Row<Sample>>, ghost keys: seq<FundingKey>)
    ensures Fetched(t, keys, rows) && Ascending(rows)
  {
    rows, keys := [], [];
    var rest := t.Keys;
    while rest != {}
      invariant rest <= t.Keys && Fetching(t, rest, keys, rows)
      invariant Ascending(rows) && forall i, k | 0 <= i < |rows| && k in rest :: rows[i].value.ts <= t[k].value.ts
      decreases |rest|
    {
      hide Fetching, Ascending;
      ghost var first := Earliest(t, rest);
      var k :| k in rest && forall j | j in rest :: t[k].value.ts <= t[j].value.ts;
      FetchOne(t, rest, keys, rows, k);
      AscendingSnoc(rows, t[k]);
      rows, keys, rest := rows + [t[k]], keys + [k], rest - {k};
    }
  }

  method SelectVaults(t: map<Address, int>) returns (rows: seq<(Address, int)>)
    ensures FetchedVaults(t, rows)
  {
    rows := [];
    var rest := t.Keys;
    while rest != {}
      invariant rest <= t.Keys
      invariant forall i | 0 <= i < |rows| :: rows[i].0 in t && t[rows[i].0] == rows[i].1
      invariant forall a | a in t && a !in rest :: (a, t[a]) in rows
      decreases |rest|
    {
      var a :| a in rest;
      rows, rest := rows + [(a, t[a])], rest - {a};
    }
  }

  method Group<V>(rows: seq<Row<V>>) returns (m: map<nat, seq<V>>)
    ensures m == Grouped(rows)
  {
    m := map[];
    for i := 0 to |rows|
      invariant m == Grouped(rows[..i])
    {
      assert rows[..i + 1][..i] == rows[..i];
      var a := rows[i].group;
      if a !in m {
        m := m[a := []];
      }
      m := m[a := m[a] + [rows[i].value]];
    }
    assert rows[..|rows|] == rows;
  }

  method GroupTrades(rows: seq<PublicTrade>) returns (m: map<MarketId, seq<PublicTrade>>)
    ensures m == Tape(rows)
  {
    m := map[];
    for i := 0 to |rows|
      invariant m == Tape(rows[..i])
    {
      assert rows[..i + 1][..i] == rows[..i];
      m := Push(m, rows[i].market, rows[i]);
    }
    assert rows[..|rows|] == rows;
  }

  method GroupVaults(rows: seq<(Address, int)>) returns (m: map<Address, int>)
    ensures m == Balances(rows)
  {
    m := map[];
    for i := 0 to |rows|
      invariant m == Balances(rows[..i])
    {
      assert rows[..i + 1][..i] == rows[..i];
      m := m[rows[i].0 := rows[i].1];
    }
    assert rows[..|rows|] == rows;
  }
}
