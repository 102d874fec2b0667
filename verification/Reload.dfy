/**
 Loading the tables at start-up gives back what was in memory, and leaves edge and tables in step
 for the next run. So state survives any number of restarts, however the rows happen to be ordered.
 Only funding samples may be lost: of several at one time the table keeps the last.
 */
module Reload {
  import opened OrderTypes
  import opened EdgeMatch
  import opened EdgePositions
  import opened EdgeState
  import opened Persistence
  import opened Restart

  // ---- Rows of one group ---------------------------------------------------------------

  function At<V>(m: map<nat, seq<V>>, k: nat): seq<V> {
    if k in m then m[k] else []
  }

  lemma {:induction false} GroupedAt<V>(rows: seq<Row<V>>, a: Address)
    ensures At(Grouped(rows), a) == RowsOf(rows, a)
  {
    if rows != [] { GroupedAt(rows[..|rows| - 1], a); }
  }

  lemma {:induction false} TapeAt(rows: seq<PublicTrade>, m: MarketId)
    ensures At(Tape(rows), m) == TradeRowsOf(rows, m)
  {
    if rows != [] { TapeAt(rows[..|rows| - 1], m); }
  }

  lemma {:induction false} BalancesHold(rows: seq<(Address, int)>, t: map<Address, int>)
    requires forall i | 0 <= i < |rows| :: rows[i].0 in t && t[rows[i].0] == rows[i].1
    ensures forall a | a in Balances(rows) :: a in t && t[a] == Balances(rows)[a]
    ensures forall i | 0 <= i < |rows| :: rows[i].0 in Balances(rows)
  {
    if rows != [] { BalancesHold(rows[..|rows| - 1], t); }
  }

  predicate NoDup<V(==)>(s: seq<V>) {
    forall i, j | 0 <= i < j < |s| :: s[i] != s[j]
  }

  /** The rows of one address: as distinct as the rows are, and nothing but them. */
  lemma {:induction false} RowsOfHolds<V>(rows: seq<Row<V>>, a: Address)
    requires forall i, j | 0 <= i < j < |rows| :: rows[i] != rows[j]
    ensures NoDup(RowsOf(rows, a)) && forall v :: v in RowsOf(rows, a) <==> Row(a, v) in rows
  {
    if rows != [] {
      var n := |rows| - 1;
      var init, last := rows[..n], rows[n];
      RowsOfHolds(init, a);
      assert rows == init + [last];
      assert last !in init;
    }
  }

  /** Two lists without duplicates and with the same elements are permutations. */
  lemma {:induction false} SameMultiset<V>(x: seq<V>, y: seq<V>)
    requires NoDup(x) && NoDup(y) && forall v :: v in x <==> v in y
    ensures multiset(x) == multiset(y)
  {
    forall v ensures multiset(x)[v] == multiset(y)[v] {
      CountOnce(x, v);
      CountOnce(y, v);
    }
  }

  lemma {:induction false} CountOnce<V>(s: seq<V>, v: V)
    requires NoDup(s)
    ensures multiset(s)[v] == if v in s then 1 else 0
  {
    if s != [] {
      var n := |s| - 1;
      assert s == s[..n] + [s[n]];
      CountOnce(s[..n], v);
    }
  }

  lemma FetchedDistinct<K, V>(t: map<K, Row<V>>, keys: seq<K>, rows: seq<Row<V>>)
    requires Fetched(t, keys, rows)
    requires forall k, k' | k in t && k' in t && t[k] == t[k'] :: k == k'
    ensures forall i, j | 0 <= i < j < |rows| :: rows[i] != rows[j]
    ensures forall r :: r in rows <==> exists k :: k in t && t[k] == r
  {
    forall r | r in rows ensures exists k :: k in t && t[k] == r {
      var i :| 0 <= i < |rows| && rows[i] == r;
      assert t[keys[i]] == r;
    }
    forall k | k in t ensures t[k] in rows {
      assert k in keys;
      var i :| 0 <= i < |keys| && keys[i] == k;
      assert rows[i] == t[k];
    }
  }

  // ---- Orders and positions ------------------------------------------------------------

  /** Every order row stands for an order in memory. */
  lemma OrderTableIs(orders: Orders, t: map<OrderId, Row<OpenOrder>>)
    requires OrdersMirrored(orders, t)
    ensures forall k | k in t :: t[k].value.id == k && t[k].value in ListOf(orders, t[k].group)
  {
    hide OrderRows;
    forall k | k in t ensures t[k].value.id == k && t[k].value in ListOf(orders, t[k].group) {
      var b := t[k].group;
      assert OrdersAt(ListOf(orders, b), t, b);
      RowsHold(ListOf(orders, b));
      assert k in OwnedOrders(t, b);
    }
  }

  lemma LoadedOrders(orders: Orders, t: map<OrderId, Row<OpenOrder>>, keys: seq<OrderId>, rows: seq<Row<OpenOrder>>, a: Address)
    requires OrdersMirrored(orders, t) && Fetched<OrderId, OpenOrder>(t, keys, rows)
    ensures NoDup(At(Grouped(rows), a)) && forall o :: o in At(Grouped(rows), a) <==> o in ListOf(orders, a)
  {
    hide OrderRows, RowsOf, Grouped, Fetched;
    OrderTableIs(orders, t);
    FetchedDistinct<OrderId, OpenOrder>(t, keys, rows);
    RowsOfHolds(rows, a);
    GroupedAt(rows, a);
    var list := ListOf(orders, a);
    assert OrdersAt(list, t, a);
    RowsHold(list);
    forall o | o in list ensures Row(a, o) in rows {
      assert o.id in OwnedOrders(t, a);
      assert t[o.id] == Row(a, o);
    }
  }

  lemma OrdersComeBack(orders: Orders, t: map<OrderId, Row<OpenOrder>>, keys: seq<OrderId>, rows: seq<Row<OpenOrder>>, a: Address)
    requires OrdersMirrored(orders, t) && Fetched<OrderId, OpenOrder>(t, keys, rows)
    ensures multiset(At(Grouped(rows), a)) == multiset(ListOf(orders, a)) && OrdersAt(At(Grouped(rows), a), t, a)
  {
    hide OrderRows, Grouped, Fetched, OrdersMirrored;
    LoadedOrders(orders, t, keys, rows, a);
    var list, list' := ListOf(orders, a), At(Grouped(rows), a);
    MirroredAt(orders, t, a);
    RowsHold(list);
    forall i, j | 0 <= i < j < |list| ensures list[i] != list[j] { assert list[i].id != list[j].id; }
    SameMultiset(list', list);
    forall i | 0 <= i < |list'| ensures list'[i] in list { assert list'[i] in list'; }
    forall i, j | 0 <= i < j < |list'| ensures list'[i].id != list'[j].id {
      assert list'[i] in list && list'[j] in list && list'[i] != list'[j];
    }
    forall i | 0 <= i < |list'| ensures list'[i].remaining != 0.0 { assert list'[i] in list; }
    RowsAre(list', OwnedOrders(t, a));
  }

  lemma MirroredAt(orders: Orders, t: map<OrderId, Row<OpenOrder>>, a: Address)
    requires OrdersMirrored(orders, t)
    ensures OrdersAt(ListOf(orders, a), t, a)
  {}

  lemma {:induction false} PositionRowsHold(a: Address, list: seq<EdgePosition>)
    requires OnePerMarket(list)
    ensures forall p | p in list :: (a, p.market) in PositionRows(a, list) && PositionRows(a, list)[(a, p.market)] == p
    ensures forall k | k in PositionRows(a, list) :: PositionRows(a, list)[k] in list && k == (a, PositionRows(a, list)[k].market)
  {
    if list != [] {
      var n := |list| - 1;
      var init, last := list[..n], list[n];
      assert list == init + [last];
      PositionRowsHold(a, init);
      forall p | p in init ensures p.market != last.market {}
    }
  }

  lemma PositionRowsAre(a: Address, list: seq<EdgePosition>, m: map<PositionKey, EdgePosition>)
    requires OnePerMarket(list)
    requires forall p | p in list :: (a, p.market) in m && m[(a, p.market)] == p
    requires forall k | k in m :: m[k] in list && k == (a, m[k].market)
    ensures PositionRows(a, list) == m
  {
    hide PositionRows;
    PositionRowsHold(a, list);
    forall k | k in PositionRows(a, list) ensures k in m && m[k] == PositionRows(a, list)[k] { assert PositionRows(a, list)[k] in list; }
    forall k | k in m ensures k in PositionRows(a, list) { assert m[k] in list; }
  }

  lemma LoadedPositions(positions: PositionLists, t: map<PositionKey, Row<EdgePosition>>, keys: seq<PositionKey>, rows: seq<Row<EdgePosition>>, a: Address)
    requires PositionsMirrored(positions, t) && Fetched<PositionKey, EdgePosition>(t, keys, rows)
    ensures NoDup(At(Grouped(rows), a)) && forall p :: p in At(Grouped(rows), a) <==> p in PositionList(positions, a)
  {
    hide PositionRows, RowsOf, Grouped, Fetched;
    forall k | k in t ensures k == (t[k].group, t[k].value.market) && t[k].value in PositionList(positions, t[k].group) {
      var b := t[k].group;
      assert PositionsAt(PositionList(positions, b), t, b);
      PositionRowsHold(b, PositionList(positions, b));
      assert k in OwnedPositions(t, b);
    }
    FetchedDistinct<PositionKey, EdgePosition>(t, keys, rows);
    RowsOfHolds(rows, a);
    GroupedAt(rows, a);
    var list := PositionList(positions, a);
    assert PositionsAt(list, t, a);
    PositionRowsHold(a, list);
    forall p | p in list ensures Row(a, p) in rows {
      assert (a, p.market) in OwnedPositions(t, a);
      assert t[(a, p.market)] == Row(a, p);
    }
  }

  lemma PositionsComeBack(positions: PositionLists, t: map<PositionKey, Row<EdgePosition>>, keys: seq<PositionKey>, rows: seq<Row<EdgePosition>>, a: Address)
    requires PositionsMirrored(positions, t) && Fetched<PositionKey, EdgePosition>(t, keys, rows)
    ensures multiset(At(Grouped(rows), a)) == multiset(PositionList(positions, a)) && PositionsAt(At(Grouped(rows), a), t, a)
  {
    hide PositionRows, Grouped, Fetched, PositionsMirrored;
    LoadedPositions(positions, t, keys, rows, a);
    var list, list' := PositionList(positions, a), At(Grouped(rows), a);
    PositionsMirroredAt(positions, t, a);
    PositionRowsHold(a, list);
    forall i, j | 0 <= i < j < |list| ensures list[i] != list[j] { assert list[i].market != list[j].market; }
    SameMultiset(list', list);
    forall i | 0 <= i < |list'| ensures list'[i] in list { assert list'[i] in list'; }
    forall i, j | 0 <= i < j < |list'| ensures list'[i].market != list'[j].market {
      assert list'[i] in list && list'[j] in list && list'[i] != list'[j];
    }
    PositionRowsAre(a, list', OwnedPositions(t, a));
  }

  lemma PositionsMirroredAt(positions: PositionLists, t: map<PositionKey, Row<EdgePosition>>, a: Address)
    requires PositionsMirrored(positions, t)
    ensures PositionsAt(PositionList(positions, a), t, a) && OwnKeys(t)
  {}

  // ---- Funding samples -----------------------------------------------------------------

  predicate Rising(samples: seq<Sample>) {
    forall i, j | 0 <= i < j < |samples| :: samples[i].ts < samples[j].ts
  }

  /** No later sample has the same time. */
  predicate IsLast(samples: seq<Sample>, v: Sample) {
    exists i :: 0 <= i < |samples| && samples[i] == v && forall j | i < j < |samples| :: samples[j].ts != v.ts
  }

  /** What is left of a history after loading: the last sample of each time, in order of time. */
  ghost predicate FundingRestored(samples: seq<Sample>, loaded: seq<Sample>) {
    Rising(loaded) && forall v :: v in loaded <==> IsLast(samples, v)
  }

  lemma LastSnoc(samples: seq<Sample>, s: Sample, v: Sample)
    ensures IsLast(samples + [s], v) <==> v == s || (IsLast(samples, v) && v.ts != s.ts)
  {
    var all := samples + [s];
    if IsLast(all, v) && v != s {
      var i :| 0 <= i < |all| && all[i] == v && forall j | i < j < |all| :: all[j].ts != v.ts;
      assert all[|samples|] == s && i < |samples| && samples[i] == v;
      forall j | i < j < |samples| ensures samples[j].ts != v.ts { assert all[j] == samples[j]; }
    }
    if v == s { assert all[|samples|] == v; }
    if IsLast(samples, v) && v.ts != s.ts {
      var i :| 0 <= i < |samples| && samples[i] == v && forall j | i < j < |samples| :: samples[j].ts != v.ts;
      assert all[i] == v;
    }
  }

  /** The funding table of a market holds exactly the last samples. */
  lemma {:induction false} TableHoldsLast(m: MarketId, samples: seq<Sample>, v: Sample)
    ensures IsLast(samples, v) <==> (m, v.ts) in FundingRows(m, samples) && FundingRows(m, samples)[(m, v.ts)] == v
  {
    hide IsLast;
    if samples == [] {
      NoneLast(v);
    } else {
      var n := |samples| - 1;
      TableHoldsLast(m, samples[..n], v);
      LastSnoc(samples[..n], samples[n], v);
      assert samples == samples[..n] + [samples[n]];
    }
  }

  lemma NoneLast(v: Sample)
    ensures !IsLast([], v)
  {}

  predicate InOrder(l: seq<Sample>) {
    forall i, j | 0 <= i < j < |l| :: l[i].ts <= l[j].ts
  }

  lemma InOrderSnoc(l: seq<Sample>, s: Sample)
    requires InOrder(l) && forall i | 0 <= i < |l| :: l[i].ts <= s.ts
    ensures InOrder(l + [s])
  {}

  lemma {:induction false} RowsOfAscend(rows: seq<Row<Sample>>, m: MarketId)
    requires Ascending(rows)
    ensures InOrder(RowsOf(rows, m)) && forall v | v in RowsOf(rows, m) :: Row(m, v) in rows
  {
    if rows != [] {
      var n := |rows| - 1;
      RowsOfAscend(rows[..n], m);
      var before := RowsOf(rows[..n], m);
      forall i | 0 <= i < |before| ensures before[i].ts <= rows[n].value.ts {
        assert before[i] in before;
        assert Row(m, before[i]) in rows[..n];
      }
      InOrderSnoc(before, rows[n].value);
    }
  }

  lemma FundingTableIs(funding: map<MarketId, seq<Sample>>, t: map<FundingKey, Row<Sample>>)
    requires FundingMirrored(funding, t)
    ensures forall k | k in t :: k == (t[k].group, t[k].value.ts)
  {
    hide FundingRows;
    forall k | k in t ensures k == (t[k].group, t[k].value.ts) {
      var m := t[k].group;
      assert FundingAt(SampleList(funding, m), t, m);
      FundingKeys(m, SampleList(funding, m));
      assert k in OwnedFunding(t, m);
    }
  }

  lemma LoadedFunding(funding: map<MarketId, seq<Sample>>, t: map<FundingKey, Row<Sample>>, keys: seq<FundingKey>, rows: seq<Row<Sample>>, m: MarketId)
    requires FundingMirrored(funding, t) && Fetched<FundingKey, Sample>(t, keys, rows) && Ascending(rows)
    ensures var l := At(Grouped(rows), m);
            Rising(l) && forall v :: v in l <==> (m, v.ts) in OwnedFunding(t, m) && OwnedFunding(t, m)[(m, v.ts)] == v
  {
    hide FundingRows, RowsOf, Grouped, Fetched, FundingMirrored, Ascending;
    FundingTableIs(funding, t);
    FetchedDistinct<FundingKey, Sample>(t, keys, rows);
    RowsOfHolds(rows, m);
    RowsOfAscend(rows, m);
    GroupedAt(rows, m);
    var l := At(Grouped(rows), m);
    forall v ensures v in l <==> (m, v.ts) in OwnedFunding(t, m) && OwnedFunding(t, m)[(m, v.ts)] == v {
      if v in l {
        var k :| k in t && t[k] == Row(m, v);
        assert k == (m, v.ts);
      }
      if (m, v.ts) in OwnedFunding(t, m) && OwnedFunding(t, m)[(m, v.ts)] == v {
        assert t[(m, v.ts)] == Row(m, v);
      }
    }
    forall i, j | 0 <= i < j < |l| ensures l[i].ts < l[j].ts {
      assert l[i] in l && l[j] in l && l[i] != l[j];
    }
  }

  lemma {:induction false} RisingRows(m: MarketId, l: seq<Sample>)
    requires Rising(l)
    ensures forall v | v in l :: (m, v.ts) in FundingRows(m, l) && FundingRows(m, l)[(m, v.ts)] == v
    ensures forall k | k in FundingRows(m, l) :: FundingRows(m, l)[k] in l && k == (m, FundingRows(m, l)[k].ts)
  {
    if l != [] {
      var n := |l| - 1;
      RisingRows(m, l[..n]);
      assert l == l[..n] + [l[n]];
      forall v | v in l[..n] ensures v.ts != l[n].ts {}
    }
  }

  lemma FundingComesBack(funding: map<MarketId, seq<Sample>>, t: map<FundingKey, Row<Sample>>, keys: seq<FundingKey>, rows: seq<Row<Sample>>, m: MarketId)
    requires FundingMirrored(funding, t) && Fetched<FundingKey, Sample>(t, keys, rows) && Ascending(rows)
    ensures FundingRestored(SampleList(funding, m), At(Grouped(rows), m)) && FundingAt(At(Grouped(rows), m), t, m)
  {
    hide FundingRows, Grouped, Fetched, Ascending, IsLast, Rising;
    LoadedFunding(funding, t, keys, rows, m);
    FundingTableIs(funding, t);
    var samples, l := SampleList(funding, m), At(Grouped(rows), m);
    assert FundingAt(samples, t, m);
    forall v ensures v in l <==> IsLast(samples, v) { TableHoldsLast(m, samples, v); }
    RisingRows(m, l);
    var have, want := FundingRows(m, l), OwnedFunding(t, m);
    forall k | k in have ensures k in want && want[k] == have[k] { assert have[k] in l; }
    forall k | k in want ensures k in have { assert want[k] in l; }
  }

  lemma {:induction false} RisingUnique(x: seq<Sample>, y: seq<Sample>)
    requires Rising(x) && Rising(y) && forall v :: v in x <==> v in y
    ensures x == y
    decreases |x|
  {
    EmptyTogether(x, y);
    if x != [] {
      var m, n := |x| - 1, |y| - 1;
      SameLatest(x, y);
      RisingInit(x);
      RisingInit(y);
      RisingUnique(x[..m], y[..n]);
      assert x == x[..m] + [x[m]] && y == y[..n] + [y[n]];
    }
  }

  lemma EmptyTogether(x: seq<Sample>, y: seq<Sample>)
    ensures (forall v :: v in x <==> v in y) ==> (x == [] <==> y == [])
  {
    if x != [] { assert x[0] in x; }
    if y != [] { assert y[0] in y; }
  }

  lemma Latest(x: seq<Sample>, v: Sample)
    requires Rising(x) && v in x
    ensures var last := x[|x| - 1]; v.ts <= last.ts && (v.ts == last.ts ==> v == last)
  {}

  lemma SameLatest(x: seq<Sample>, y: seq<Sample>)
    requires Rising(x) && Rising(y) && x != [] && y != [] && forall v :: v in x <==> v in y
    ensures x[|x| - 1] == y[|y| - 1]
  {
    hide Rising;
    var m, n := |x| - 1, |y| - 1;
    assert x[m] in x && y[n] in y;
    Latest(x, y[n]);
    Latest(y, x[m]);
  }

  /** All but the latest sample are those at other times. */
  lemma RisingInit(x: seq<Sample>)
    requires Rising(x) && x != []
    ensures var m := |x| - 1; Rising(x[..m]) && forall v :: v in x[..m] <==> v in x && v != x[m]
  {
    var m := |x| - 1;
    assert x == x[..m] + [x[m]];
    forall v | v in x[..m] ensures v != x[m] {
      var i :| 0 <= i < m && x[..m][i] == v;
      assert x[i].ts < x[m].ts;
    }
  }

  /** A market's funding history survives a restart exactly when no two samples share a time and
      they were recorded in order. */
  lemma FundingSurvivesIff(samples: seq<Sample>, loaded: seq<Sample>)
    requires FundingRestored(samples, loaded)
    ensures loaded == samples <==> Rising(samples)
  {
    if Rising(samples) {
      forall v ensures IsLast(samples, v) <==> v in samples {
        if v in samples {
          var i :| 0 <= i < |samples| && samples[i] == v;
          assert forall j | i < j < |samples| :: samples[j].ts != v.ts;
        }
      }
      RisingUnique(loaded, samples);
    }
  }

  /** A history that does not survive: of two samples at one time the earlier is lost. */
  lemma FundingIsLost()
    ensures var samples := [Sample(1, 5.0), Sample(1, 6.0)];
            !Rising(samples) && !IsLast(samples, samples[0]) && forall loaded | FundingRestored(samples, loaded) :: loaded == [samples[1]]
  {
    var samples := [Sample(1, 5.0), Sample(1, 6.0)];
    assert samples[0].ts == samples[1].ts;
    forall loaded | FundingRestored(samples, loaded) ensures loaded == [samples[1]] {
      forall v ensures IsLast(samples, v) <==> v == samples[1] {
        if v == samples[1] { assert samples[1] == v; }
      }
      RisingUnique(loaded, [samples[1]]);
    }
  }

  // ---- One restart ---------------------------------------------------------------------

  /** The state to which the edge comes back. */
  ghost predicate Restores(e: Edge, s: Snapshot) {
    && s.vaults == e.vaults
    && (forall a :: At(s.fills, a) == FillsOf(e, a))
    && (forall m :: At(s.trades, m) == TradesOf(e, m))
    && (forall a :: multiset(At(s.orders, a)) == multiset(ListOf(e.orders, a)))
    && (forall a :: multiset(At(s.positions, a)) == multiset(PositionsOf(e, a)))
    && (forall m :: FundingRestored(FundingOf(e, m), At(s.funding, m)))
  }

  lemma VaultsComeBack(t: map<Address, int>, rows: seq<(Address, int)>)
    requires FetchedVaults(t, rows)
    ensures Balances(rows) == t
  {
    BalancesHold(rows, t);
    forall a | a in t ensures a in Balances(rows) { assert (a, t[a]) in rows; }
  }

  lemma ReloadBy(
    e: Edge, t: Store, s: Snapshot, orderKeys: seq<OrderId>, orderRows: seq<Row<OpenOrder>>,
    positionKeys: seq<PositionKey>, positionRows: seq<Row<EdgePosition>>, vaultRows: seq<(Address, int)>,
    fundingKeys: seq<FundingKey>, fundingRows: seq<Row<Sample>>, next: nat)
    requires Mirrors(e, t) && LoadsBy(t, s, orderKeys, orderRows, positionKeys, positionRows, vaultRows, fundingKeys, fundingRows)
    ensures Restores(e, s) && Mirrors(Reopen(s, next), t)
  {
    hide Grouped, Tape, Balances, Fetched, FetchedVaults, Ascending, RowsOf, TradeRowsOf, OrdersAt, PositionsAt, FundingAt, FundingRestored, OwnKeys;
    forall a ensures multiset(At(s.orders, a)) == multiset(ListOf(e.orders, a)) && OrdersAt(ListOf(s.orders, a), t.orders, a) {
      OrdersComeBack(e.orders, t.orders, orderKeys, orderRows, a);
      assert At(s.orders, a) == ListOf(s.orders, a);
    }
    forall a ensures multiset(At(s.positions, a)) == multiset(PositionsOf(e, a)) && PositionsAt(PositionList(s.positions, a), t.positions, a) {
      PositionsComeBack(e.positions, t.positions, positionKeys, positionRows, a);
      assert At(s.positions, a) == PositionList(s.positions, a);
    }
    forall m ensures FundingRestored(FundingOf(e, m), At(s.funding, m)) && FundingAt(SampleList(s.funding, m), t.funding, m) {
      FundingComesBack(e.funding, t.funding, fundingKeys, fundingRows, m);
      assert At(s.funding, m) == SampleList(s.funding, m);
    }
    forall a ensures At(s.fills, a) == RowsOf(t.fills, a) { GroupedAt(t.fills, a); }
    forall m ensures At(s.trades, m) == TradeRowsOf(t.trades, m) { TapeAt(t.trades, m); }
    VaultsComeBack(t.vaults, vaultRows);
  }

  /** Loading from tables that mirror the edge restores it, and the new edge is in step with them. */
  lemma ReloadInStep(base: Store, e: Edge, s: Snapshot)
    requires InStep(base, e, e.nextId, e.nextId) && Loads(ReplayFrom(base, e.log), s)
    ensures Restores(e, s) && InStep(ReplayFrom(base, e.log), Reopen(s, e.nextId), e.nextId, e.nextId)
  {
    hide Mirrors, LoadsBy, Restores;
    var t := ReplayFrom(base, e.log);
    var ok, or, pk, pr, vr, fk, fr :| LoadsBy(t, s, ok, or, pk, pr, vr, fk, fr);
    ReloadBy(e, t, s, ok, or, pk, pr, vr, fk, fr, e.nextId);
    assert ReplayFrom(t, []) == t;
  }

  // ---- Any number of restarts ----------------------------------------------------------

  /** Session `i` starts with `edges[i]` and the tables `stores[i]`, serves `sessions[i]`, writes
      its events, and ends; `snaps[i]` is then loaded and the next session starts from it. */
  datatype History = History(sessions: seq<seq<Op>>, edges: seq<Edge>, stores: seq<Store>, snaps: seq<Snapshot>)

  /** The history starts with nothing, and every session leads to the next. */
  ghost predicate Life(h: History) {
    && |h.edges| == |h.stores| == |h.sessions| + 1 && |h.snaps| == |h.sessions| && h.edges[0] == NEW && h.stores[0] == NO_ROWS
    && forall i | 0 <= i < |h.sessions| ::
         Session(h.sessions[i], h.edges[i], h.stores[i], h.snaps[i], h.edges[i + 1], h.stores[i + 1])
  }

  ghost predicate Session(ops: seq<Op>, e: Edge, t: Store, s: Snapshot, e': Edge, t': Store) {
    && t' == ReplayFrom(t, RunFrom(e, ops).log) && Loads(t', s)
    && e' == Reopen(s, RunFrom(e, ops).nextId)
  }

  lemma SessionInStep(ops: seq<Op>, e: Edge, t: Store, s: Snapshot, e': Edge, t': Store)
    requires InStep(t, e, e.nextId, e.nextId) && Session(ops, e, t, s, e', t')
    ensures Restores(RunFrom(e, ops), s) && InStep(t', e', e'.nextId, e'.nextId)
  {
    hide InStep, RunFrom, ReplayFrom, Loads, Restores;
    RunInStep(t, e, ops);
    ReloadInStep(t, RunFrom(e, ops), s);
  }

  lemma {:induction false} LifeInStep(h: History, i: nat)
    requires Life(h) && i <= |h.sessions|
    ensures InStep(h.stores[i], h.edges[i], h.edges[i].nextId, h.edges[i].nextId)
  {
    hide InStep, Session;
    if i == 0 {
      StartsInStep();
    } else {
      LifeInStep(h, i - 1);
      SessionInStep(h.sessions[i - 1], h.edges[i - 1], h.stores[i - 1], h.snaps[i - 1], h.edges[i], h.stores[i]);
    }
  }

  /** Every state of a life, in the middle of a session too, is in step with its tables. */
  lemma ReachedInStep(h: History, i: nat, ops: seq<Op>)
    requires Life(h) && i <= |h.sessions|
    ensures var e := RunFrom(h.edges[i], ops); InStep(h.stores[i], e, e.nextId, e.nextId) && AllOne(e)
  {
    hide InStep, Session, RunFrom, AllOne;
    LifeInStep(h, i);
    RunInStep(h.stores[i], h.edges[i], ops);
    InStepOne(h.stores[i], RunFrom(h.edges[i], ops));
  }

  /** Main result: at every restart of every life, whatever each session did and in whatever order
      the tables returned their rows, the edge comes back as it was. */
  lemma RestartEquivalence(h: History, i: nat)
    requires Life(h) && i < |h.sessions|
    ensures Restores(RunFrom(h.edges[i], h.sessions[i]), h.snaps[i])
    ensures h.edges[i + 1] == Reopen(h.snaps[i], RunFrom(h.edges[i], h.sessions[i]).nextId)
  {
    hide InStep, Restores;
    LifeInStep(h, i);
    SessionInStep(h.sessions[i], h.edges[i], h.stores[i], h.snaps[i], h.edges[i + 1], h.stores[i + 1]);
  }

  /** The first restart. */
  lemma FirstRestart(ops: seq<Op>, s: Snapshot)
    requires Loads(ReplayFrom(NO_ROWS, Run(ops).log), s)
    ensures Restores(Run(ops), s)
  {
    hide InStep, RunFrom, ReplayFrom, Loads, Restores;
    FirstRunInStep(ops);
    ReloadInStep(NO_ROWS, Run(ops), s);
  }

  // ---- In place ------------------------------------------------------------------------

  method Execute(state: AppState, op: Op)
    requires op.Seed? ==> op.optedIn == state.devSeedVault
    modifies state
    ensures state.View() == Do(old(state.View()), op)
  {
    hide PlaceOrder, CancelOrder, LiquidatePosition, SetVault, SeedVault, AdjustVault, RecordFunding;
    match op
    case Place(users, ticket, fees) => state.Place(users, ticket, fees);
    case Cancel(a, id) => var _ := state.Cancel(a, id);
    case Liquidate(a, market, prices, ts) => var _ := state.Liquidate(a, market, prices, ts);
    case SetBalance(a, amount) => state.StoreVault(a, amount);
    case Seed(a, _) => state.SeedDevVault(a);
    case Adjust(a, delta) => state.MoveVault(a, delta);
    case RecordSample(m, s) => state.AppendFunding(m, s);
  }

  /** Serve, write everything out, stop, and start again from the tables. */
  method ServeAndRestart(db: Db, state: AppState, ops: seq<Op>) returns (next: AppState, ghost snap: Snapshot)
    requires InStep(db.View(), state.View(), state.nextId, state.nextId)
    requires forall op | op in ops && op.Seed? :: op.optedIn == state.devSeedVault
    modifies db, state
    ensures fresh(next) && next.devSeedVault == state.devSeedVault
    ensures state.View() == RunFrom(old(state.View()), ops) && next.View() == Reopen(snap, state.nextId)
    ensures Restores(state.View(), snap)
    ensures InStep(db.View(), next.View(), next.nextId, next.nextId)
  {
    hide InStep, Do, Restores, Loads, ReplayFrom;
    ghost var start, base := state.View(), db.View();
    for i := 0 to |ops|
      invariant state.View() == RunFrom(start, ops[..i]) && db.View() == base
    {
      assert ops[..i + 1][..i] == ops[..i];
      Execute(state, ops[i]);
    }
    assert ops[..|ops|] == ops;
    db.Drain(state.log);
    var loaded := db.LoadSnapshot();
    snap := loaded;
    next := new AppState.FromSnapshot(loaded, state.nextId, state.devSeedVault);
    RunInStep(base, start, ops);
    ReloadInStep(base, state.View(), loaded);
  }

  /** A whole life, session after session, from empty tables. */
  method Live(sessions: seq<seq<Op>>, devSeedVault: bool) returns (db: Db, state: AppState)
    requires forall i, op | 0 <= i < |sessions| && op in sessions[i] && op.Seed? :: op.optedIn == devSeedVault
    ensures InStep(db.View(), state.View(), state.nextId, state.nextId)
  {
    hide InStep, Restores, RunFrom;
    db := new Db();
    state := new AppState(devSeedVault);
    StartsInStep();
    for i := 0 to |sessions|
      invariant fresh(db) && fresh(state) && state.devSeedVault == devSeedVault
      invariant InStep(db.View(), state.View(), state.nextId, state.nextId)
    {
      ghost var s;
      state, s := ServeAndRestart(db, state, sessions[i]);
    }
  }
}
