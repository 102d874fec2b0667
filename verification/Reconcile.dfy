/**
 The edge's books reconcile. In every state, restarts included, each account's position in each
 market is the net of its recorded fills, the matched fills of all accounts together net to zero,
 and so longs and shorts differ by exactly what was liquidated. What a match charges is what its
 fill records.
 */
module Reconcile {
  import opened OrderTypes
  import opened EdgeMatch
  import EdgeTotals
  import opened EdgePositions
  import opened EdgeState
  import opened Persistence
  import opened Restart
  import opened Reload

  // ---- Net sizes -----------------------------------------------------------------------

  /** Signed size of the position in this market; zero if there is none. */
  function Held(list: seq<EdgePosition>, m: MarketId): real {
    var i := IndexOf(list, m);
    if i == |list| then 0.0 else Signed(list[i].side, list[i].size)
  }

  function FillSize(f: FillInfo, m: MarketId): real {
    if f.market == m then Signed(f.side, f.qty) else 0.0
  }

  function NetFills(fills: seq<FillInfo>, m: MarketId): real {
    if fills == [] then 0.0 else NetFills(fills[..|fills| - 1], m) + FillSize(fills[|fills| - 1], m)
  }

  lemma NetSnoc(fills: seq<FillInfo>, f: FillInfo, m: MarketId)
    ensures NetFills(fills + [f], m) == NetFills(fills, m) + FillSize(f, m)
  {
    assert (fills + [f])[..|fills|] == fills;
  }

  /** Opening, adding, reducing, closing and flipping all move the signed size by the fill. */
  lemma HeldMoves(list: seq<EdgePosition>, f: PositionFill, m: MarketId)
    requires OnePerMarket(list)
    ensures Held(FillList(list, f.market, f.side, f.qty, f.price), m) ==
            Held(list, m) + if f.market == m then Signed(f.side, f.qty) else 0.0
  {
    hide IndexOf, FillList, Average, ScaleX18, Notional6, Unscale;
    if m == f.market {
      SameMarket(list, f);
    } else {
      OtherMarket(list, f, m);
    }
  }

  /** Taking a market's position out. */
  lemma HeldWithout(list: seq<EdgePosition>, market: MarketId, m: MarketId)
    requires OnePerMarket(list)
    ensures Held(Others(list, market), m) == if m == market then 0.0 else Held(list, m)
  {
    hide IndexOf, Others;
    OthersHas(list, market);
    OthersOne(list, market);
    var rest := Others(list, market);
    var i, j := IndexOf(list, m), IndexOf(rest, m);
    if i < |list| && m != market {
      assert list[i] in list;
      assert list[i] in rest;
    }
    if j < |rest| {
      assert rest[j] in rest;
      assert rest[j] in list;
    }
  }

  // ---- Single changes ------------------------------------------------------------------

  /** What an account holds and what its fills add up to. */
  datatype Books = Books(held: real, net: real)

  function BooksOf(e: Edge, a: Address, m: MarketId): Books {
    Books(Held(PositionsOf(e, a), m), NetFills(FillsOf(e, a), m))
  }

  function If(c: bool, x: real): real {
    if c then x else 0.0
  }

  lemma FillBooks(e: Edge, a: Address, f: FillInfo, b: Address, m: MarketId)
    ensures var e' := RecordFill(e, a, f);
            && BooksOf(e', b, m) == Books(BooksOf(e, b, m).held, BooksOf(e, b, m).net + If(a == b, FillSize(f, m)))
            && (AllOne(e) ==> AllOne(e'))
  {
    hide Held, NetFills, OnePerMarket;
    NetSnoc(FillsOf(e, a), f, m);
    forall c ensures PositionsOf(RecordFill(e, a, f), c) == PositionsOf(e, c) {}
  }

  lemma PositionBooks(e: Edge, a: Address, f: PositionFill, b: Address, m: MarketId)
    requires AllOne(e)
    ensures var e' := UpsertPosition(e, a, f.market, f.side, f.qty, f.price);
            && BooksOf(e', b, m) == Books(BooksOf(e, b, m).held + If(a == b && f.market == m, Signed(f.side, f.qty)), BooksOf(e, b, m).net)
            && AllOne(e')
  {
    hide Held, NetFills, OnePerMarket, FillList;
    assert OnePerMarket(PositionsOf(e, a));
    HeldMoves(PositionsOf(e, a), f, m);
    FillKeepsOne(PositionsOf(e, a), f);
    var e' := UpsertPosition(e, a, f.market, f.side, f.qty, f.price);
    forall c ensures OnePerMarket(PositionsOf(e', c)) { assert OnePerMarket(PositionsOf(e, c)); }
  }

  /** Same positions and fills: same books. */
  lemma SameBooks(e: Edge, e': Edge, b: Address, m: MarketId)
    requires e'.positions == e.positions && e'.fills == e.fills
    ensures BooksOf(e', b, m) == BooksOf(e, b, m) && (AllOne(e) ==> AllOne(e'))
  {
    hide Held, NetFills, OnePerMarket;
    forall c ensures PositionsOf(e', c) == PositionsOf(e, c) {}
  }

  lemma AdjustSame(e: Edge, a: Address, delta: real)
    ensures AdjustVault(e, a, delta).positions == e.positions && AdjustVault(e, a, delta).fills == e.fills
  {
    hide ScaleUsdc;
  }

  // ---- One match -----------------------------------------------------------------------

  lemma Opposed(side: Side, qty: real)
    ensures Signed(side.Opposite(), qty) == -Signed(side, qty)
  {}

  /** Both sides of a match are booked alike in positions and fills, with opposite signs. */
  lemma SettleBooks(e: Edge, t: Ticket, order: OrderId, x: Matched, fees: Fees, b: Address, m: MarketId)
    requires AllOne(e)
    ensures var e' := SettleMatch(e, t, order, x, fees);
            var d := If(t.market == m, Signed(t.side, x.qty));
            var moved := If(b == t.user, d) - If(b == x.maker, d);
            && BooksOf(e', b, m) == Books(BooksOf(e, b, m).held + moved, BooksOf(e, b, m).net + moved)
            && AllOne(e')
  {
    hide BooksOf, AllOne, RecordFill, RecordTrade, AdjustVault, UpsertPosition, TakerFill, MakerFill, Share;
    var n := e.nextId;
    var tf, mf := TakerFill(t, n, order, x, fees), MakerFill(t, n + 1, x, fees);
    FillSides(t, n, order, x, fees);
    Opposed(t.side, x.qty);
    var e0 := e.(nextId := n + 3);
    SameBooks(e, e0, b, m);
    FillBooks(e0, t.user, tf, b, m);
    var e1 := RecordFill(e0, t.user, tf);
    FillBooks(e1, x.maker, mf, b, m);
    var e2 := RecordFill(e1, x.maker, mf);
    AdjustSame(e2, t.user, -Share(x, fees.takerBps));
    var e3 := AdjustVault(e2, t.user, -Share(x, fees.takerBps));
    SameBooks(e2, e3, b, m);
    AdjustSame(e3, x.maker, Share(x, fees.rebateBps));
    var e4 := AdjustVault(e3, x.maker, Share(x, fees.rebateBps));
    SameBooks(e3, e4, b, m);
    var trade := PublicTrade(n + 2, t.market, x.price, x.qty, t.side, t.ts);
    var e5 := RecordTrade(e4, trade);
    TradeSame(e4, trade);
    SameBooks(e4, e5, b, m);
    PositionBooks(e5, t.user, PositionFill(t.market, t.side, x.qty, x.price), b, m);
    var e6 := UpsertPosition(e5, t.user, t.market, t.side, x.qty, x.price);
    PositionBooks(e6, x.maker, PositionFill(t.market, t.side.Opposite(), x.qty, x.price), b, m);
  }

  lemma FillSides(t: Ticket, n: nat, order: OrderId, x: Matched, fees: Fees)
    ensures var tf, mf := TakerFill(t, n, order, x, fees), MakerFill(t, n + 1, x, fees);
            && tf.market == mf.market == t.market && tf.side == t.side && mf.side == t.side.Opposite()
            && tf.qty == mf.qty == x.qty && tf.role == Taker && mf.role == Maker
  {}

  lemma TradeSame(e: Edge, x: PublicTrade)
    ensures RecordTrade(e, x).positions == e.positions && RecordTrade(e, x).fills == e.fills
  {}

  // ---- Operations ----------------------------------------------------------------------

  predicate Even(e: Edge, a: Address, m: MarketId) {
    BooksOf(e, a, m).held == BooksOf(e, a, m).net
  }

  lemma {:induction false} SettleAllEven(e: Edge, t: Ticket, order: OrderId, xs: seq<Matched>, fees: Fees, b: Address, m: MarketId)
    requires AllOne(e) && Even(e, b, m)
    ensures Even(SettleAll(e, t, order, xs, fees), b, m)
    decreases |xs|
  {
    hide BooksOf, AllOne, SettleMatch;
    if xs != [] {
      SettleBooks(e, t, order, xs[0], fees, b, m);
      SettleAllEven(SettleMatch(e, t, order, xs[0], fees), t, order, xs[1..], fees, b, m);
    }
  }

  lemma PlaceEven(e: Edge, users: seq<Address>, t: Ticket, fees: Fees, b: Address, m: MarketId)
    requires AllOne(e) && Even(e, b, m)
    ensures Even(PlaceOrder(e, users, t, fees), b, m)
  {
    hide BooksOf, AllOne, Match, SettleAll, Collect, ProbeFrom, TotalQty, SyncAll, Makers;
    var id := e.nextId;
    var e1 := e.(nextId := id + 1);
    SameBooks(e, e1, b, m);
    var r := MatchTaker(e1, users, RequestOf(t));
    SameBooks(e1, r.edge, b, m);
    SettleAllEven(r.edge, t, id, r.fills, fees, b, m);
    var e2 := SettleAll(r.edge, t, id, r.fills, fees);
    SameBooks(e2, RestRemainder(e2, t, id, t.qty - TotalQty(r.fills)), b, m);
  }

  lemma CloseEven(e: Edge, a: Address, p: EdgePosition, mark: real, ts: nat, b: Address, m: MarketId)
    requires AllOne(e) && Even(e, b, m) && p in PositionsOf(e, a)
    ensures Even(CloseOut(e, a, p, mark, ts), b, m)
  {
    hide Held, NetFills, OnePerMarket, Others, ClosePnl, Collateral, ScaleUsdc, IndexOf;
    var e' := CloseOut(e, a, p, mark, ts);
    var f := FillInfo(e.nextId, None, p.market, p.side.Opposite(), mark, p.size, 0, Liquidation, ts);
    assert OnePerMarket(PositionsOf(e, a));
    HeldWithout(PositionsOf(e, a), p.market, m);
    HeldIs(PositionsOf(e, a), p);
    NetSnoc(FillsOf(e, a), f, m);
    Opposed(p.side, p.size);
    assert PositionsOf(e', b) == if a == b then Others(PositionsOf(e, a), p.market) else PositionsOf(e, b);
    assert FillsOf(e', b) == if a == b then FillsOf(e, a) + [f] else FillsOf(e, b);
  }

  lemma HeldIs(list: seq<EdgePosition>, p: EdgePosition)
    requires OnePerMarket(list) && p in list
    ensures Held(list, p.market) == Signed(p.side, p.size)
  {
    hide IndexOf;
  }

  lemma LiquidateEven(e: Edge, a: Address, market: MarketId, prices: Prices, ts: nat, b: Address, m: MarketId)
    requires AllOne(e) && Even(e, b, m)
    ensures Even(LiquidatePosition(e, a, market, prices, ts), b, m)
  {
    hide Even, AllOne, Underwater, CloseOut, IndexOf;
    var list := PositionsOf(e, a);
    var i := IndexOf(list, market);
    if i < |list| && Underwater(e, a, list[i], prices) {
      UnderwaterPriced(e, a, list[i], prices);
      assert list[i] in list;
      CloseEven(e, a, list[i], prices[market].mark, ts, b, m);
    }
  }

  lemma DoEven(e: Edge, op: Op, b: Address, m: MarketId)
    requires AllOne(e) && Even(e, b, m)
    ensures Even(Do(e, op), b, m)
  {
    hide BooksOf, AllOne, PlaceOrder, LiquidatePosition, ScaleUsdc, Without, Find;
    match op
    case Place(users, ticket, fees) => PlaceEven(e, users, ticket, fees, b, m);
    case Cancel(a, id) => SameBooks(e, CancelOrder(e, a, id), b, m);
    case Liquidate(a, market, prices, ts) => LiquidateEven(e, a, market, prices, ts, b, m);
    case SetBalance(a, amount) => SameBooks(e, SetVault(e, a, amount), b, m);
    case Seed(a, optedIn) => SameBooks(e, SeedVault(e, optedIn, a), b, m);
    case Adjust(a, delta) => SameBooks(e, AdjustVault(e, a, delta), b, m);
    case RecordSample(n, s) => SameBooks(e, RecordFunding(e, n, s), b, m);
  }

  /** Every account's position in every market is the net of its recorded fills. */
  ghost predicate AllEven(e: Edge) {
    forall a, m :: Even(e, a, m)
  }

  lemma {:induction false} RunEven(base: Store, start: Edge, ops: seq<Op>)
    requires InStep(base, start, start.nextId, start.nextId) && AllEven(start)
    ensures AllEven(RunFrom(start, ops))
  {
    hide InStep, Do, AllOne, Even;
    if ops != [] {
      var n := |ops| - 1;
      var e := RunFrom(start, ops[..n]);
      RunEven(base, start, ops[..n]);
      RunInStep(base, start, ops[..n]);
      InStepOne(base, e);
      forall a, m ensures Even(Do(e, ops[n]), a, m) {
        assert Even(e, a, m);
        DoEven(e, ops[n], a, m);
      }
    }
  }

  /** Permuting an account's positions does not change what it holds. */
  lemma HeldPermutes(x: seq<EdgePosition>, y: seq<EdgePosition>, m: MarketId)
    requires OnePerMarket(x) && OnePerMarket(y) && multiset(x) == multiset(y)
    ensures Held(x, m) == Held(y, m)
  {
    hide IndexOf;
    var i, j := IndexOf(x, m), IndexOf(y, m);
    if i < |x| {
      assert x[i] in multiset(x);
      assert x[i] in y;
      HeldIs(y, x[i]);
    }
    if j < |y| {
      assert y[j] in multiset(y);
      assert y[j] in x;
      HeldIs(x, y[j]);
    }
  }

  lemma ReopenEven(e: Edge, s: Snapshot, next: nat)
    requires Restores(e, s) && AllOne(e) && AllOne(Reopen(s, next)) && AllEven(e)
    ensures AllEven(Reopen(s, next))
  {
    hide Held, NetFills, OnePerMarket, FundingRestored;
    var e' := Reopen(s, next);
    forall a, m ensures Even(e', a, m) {
      assert Even(e, a, m);
      assert FillsOf(e', a) == At(s.fills, a) && PositionsOf(e', a) == At(s.positions, a);
      assert OnePerMarket(PositionsOf(e, a)) && OnePerMarket(PositionsOf(e', a));
      HeldPermutes(PositionsOf(e', a), PositionsOf(e, a), m);
    }
  }

  lemma {:induction false} LifeEven(h: History, i: nat)
    requires Life(h) && i <= |h.sessions|
    ensures AllEven(h.edges[i])
  {
    hide InStep, Session, Even, AllOne, Restores, Reopen, RunFrom;
    if i == 0 {
      NewEven();
    } else {
      LifeEven(h, i - 1);
      LifeInStep(h, i - 1);
      RunEven(h.stores[i - 1], h.edges[i - 1], h.sessions[i - 1]);
      ReachedInStep(h, i - 1, h.sessions[i - 1]);
      RestartEquivalence(h, i - 1);
      LifeInStep(h, i);
      InStepOne(h.stores[i], h.edges[i]);
      var e := RunFrom(h.edges[i - 1], h.sessions[i - 1]);
      ReopenEven(e, h.snaps[i - 1], e.nextId);
    }
  }

  lemma NewEven()
    ensures AllEven(NEW)
  {
    forall a, m ensures Even(NEW, a, m) {}
  }

  /** Main result: in every state of every life, for every account and market, the position is the
      net of the account's recorded fills. */
  lemma PositionsReconcile(h: History, i: nat, ops: seq<Op>, a: Address, m: MarketId)
    requires Life(h) && i <= |h.sessions|
    ensures var e := RunFrom(h.edges[i], ops); Held(PositionsOf(e, a), m) == NetFills(FillsOf(e, a), m)
  {
    hide InStep, Session, RunFrom, Held, NetFills;
    LifeEven(h, i);
    LifeInStep(h, i);
    RunEven(h.stores[i], h.edges[i], ops);
    assert Even(RunFrom(h.edges[i], ops), a, m);
  }

  // ---- Open interest -------------------------------------------------------------------

  /** Net size of an account's matched fills, and of its liquidations. */
  function NetOf(fills: seq<FillInfo>, forced: bool, m: MarketId): real {
    if fills == [] then 0.0 else
    var f := fills[|fills| - 1];
    NetOf(fills[..|fills| - 1], forced, m) + if (f.role == Liquidation) == forced then FillSize(f, m) else 0.0
  }

  lemma {:induction false} NetSplits(fills: seq<FillInfo>, m: MarketId)
    ensures NetFills(fills, m) == NetOf(fills, false, m) + NetOf(fills, true, m)
  {
    if fills != [] { NetSplits(fills[..|fills| - 1], m); }
  }

  lemma NetOfSnoc(fills: seq<FillInfo>, f: FillInfo, forced: bool, m: MarketId)
    ensures NetOf(fills + [f], forced, m) == NetOf(fills, forced, m) + if (f.role == Liquidation) == forced then FillSize(f, m) else 0.0
  {
    assert (fills + [f])[..|fills|] == fills;
  }

  function SumNet(e: Edge, accounts: seq<Address>, forced: bool, m: MarketId): real {
    if accounts == [] then 0.0 else NetOf(FillsOf(e, accounts[0]), forced, m) + SumNet(e, accounts[1..], forced, m)
  }

  function SumHeld(e: Edge, accounts: seq<Address>, m: MarketId): real {
    if accounts == [] then 0.0 else Held(PositionsOf(e, accounts[0]), m) + SumHeld(e, accounts[1..], m)
  }

  /** Everyone with a fill is on the list. */
  ghost predicate Covers(accounts: seq<Address>, e: Edge) {
    forall a | FillsOf(e, a) != [] :: a in accounts
  }

  lemma {:induction false} SumSame(e: Edge, e': Edge, accounts: seq<Address>, forced: bool, m: MarketId)
    requires forall a | a in accounts :: FillsOf(e', a) == FillsOf(e, a)
    ensures SumNet(e', accounts, forced, m) == SumNet(e, accounts, forced, m)
  {
    hide NetOf, FillsOf;
    if accounts != [] {
      assert accounts[0] in accounts;
      SumSame(e, e', accounts[1..], forced, m);
    }
  }

  /** A recorded fill moves the sum by its size, wherever its account is on the list. */
  lemma {:induction false} SumRecorded(e: Edge, a: Address, f: FillInfo, accounts: seq<Address>, forced: bool, m: MarketId)
    requires EdgeTotals.NoRepeats(accounts) && a in accounts
    ensures SumNet(RecordFill(e, a, f), accounts, forced, m) ==
            SumNet(e, accounts, forced, m) + if (f.role == Liquidation) == forced then FillSize(f, m) else 0.0
  {
    hide NetOf;
    var e' := RecordFill(e, a, f);
    var rest := accounts[1..];
    assert accounts == [accounts[0]] + rest;
    if accounts[0] == a {
      forall b | b in rest ensures b != a && FillsOf(e', b) == FillsOf(e, b) {
        var k :| 0 <= k < |rest| && rest[k] == b;
        assert accounts[k + 1] == b && accounts[0] != accounts[k + 1];
      }
      SumSame(e, e', rest, forced, m);
      NetOfSnoc(FillsOf(e, a), f, forced, m);
    } else {
      RepeatsTail(accounts);
      SumRecorded(e, a, f, rest, forced, m);
    }
  }

  lemma RepeatsTail(accounts: seq<Address>)
    requires EdgeTotals.NoRepeats(accounts) && accounts != []
    ensures EdgeTotals.NoRepeats(accounts[1..])
  {
    forall i, j | 0 <= i < j < |accounts| - 1 ensures accounts[1..][i] != accounts[1..][j] { assert accounts[i + 1] != accounts[j + 1]; }
  }

  lemma SettleSum(e: Edge, t: Ticket, order: OrderId, x: Matched, fees: Fees, accounts: seq<Address>, m: MarketId)
    requires EdgeTotals.NoRepeats(accounts) && Covers(accounts, SettleMatch(e, t, order, x, fees))
    ensures SumNet(SettleMatch(e, t, order, x, fees), accounts, false, m) == SumNet(e, accounts, false, m) && Covers(accounts, e)
  {
    hide NetOf, SumNet, TakerFill, MakerFill, RecordFill, EdgeTotals.NoRepeats, SettleMatch;
    var n := e.nextId;
    var e0 := e.(nextId := n + 3);
    var tf, mf := TakerFill(t, n, order, x, fees), MakerFill(t, n + 1, x, fees);
    var e2 := RecordFill(RecordFill(e0, t.user, tf), x.maker, mf);
    var e' := SettleMatch(e, t, order, x, fees);
    SettleFills(e, t, order, x, fees);
    FillSides(t, n, order, x, fees);
    Opposed(t.side, x.qty);
    BothOnList(e0, t.user, tf, x.maker, mf, accounts);
    SumRecorded(e0, t.user, tf, accounts, false, m);
    SumRecorded(RecordFill(e0, t.user, tf), x.maker, mf, accounts, false, m);
    SumSame(e, e0, accounts, false, m);
    SumSame(e2, e', accounts, false, m);
  }

  lemma SettleFills(e: Edge, t: Ticket, order: OrderId, x: Matched, fees: Fees)
    ensures var tf, mf := TakerFill(t, e.nextId, order, x, fees), MakerFill(t, e.nextId + 1, x, fees);
            SettleMatch(e, t, order, x, fees).fills == RecordFill(RecordFill(e.(nextId := e.nextId + 3), t.user, tf), x.maker, mf).fills
  {
    hide AdjustVault, TakerFill, MakerFill, Share, FillList;
    var tf, mf := TakerFill(t, e.nextId, order, x, fees), MakerFill(t, e.nextId + 1, x, fees);
    var e2 := RecordFill(RecordFill(e.(nextId := e.nextId + 3), t.user, tf), x.maker, mf);
    AdjustSame(e2, t.user, -Share(x, fees.takerBps));
    AdjustSame(AdjustVault(e2, t.user, -Share(x, fees.takerBps)), x.maker, Share(x, fees.rebateBps));
  }

  lemma BothOnList(e: Edge, a: Address, f: FillInfo, b: Address, g: FillInfo, accounts: seq<Address>)
    requires Covers(accounts, RecordFill(RecordFill(e, a, f), b, g))
    ensures a in accounts && b in accounts && Covers(accounts, e)
  {
    var e2 := RecordFill(RecordFill(e, a, f), b, g);
    assert FillsOf(e2, a) != [] && FillsOf(e2, b) != [];
    forall c | FillsOf(e, c) != [] ensures c in accounts { assert FillsOf(e2, c) != []; }
  }

  lemma {:induction false} SettleAllSum(e: Edge, t: Ticket, order: OrderId, xs: seq<Matched>, fees: Fees, accounts: seq<Address>, m: MarketId)
    requires EdgeTotals.NoRepeats(accounts) && Covers(accounts, SettleAll(e, t, order, xs, fees))
    ensures SumNet(SettleAll(e, t, order, xs, fees), accounts, false, m) == SumNet(e, accounts, false, m) && Covers(accounts, e)
    decreases |xs|
  {
    hide SettleMatch, SumNet, EdgeTotals.NoRepeats, Covers;
    if xs != [] {
      SettleAllSum(SettleMatch(e, t, order, xs[0], fees), t, order, xs[1..], fees, accounts, m);
      SettleSum(e, t, order, xs[0], fees, accounts, m);
    }
  }

  lemma SameFillsSum(e: Edge, e': Edge, accounts: seq<Address>, m: MarketId)
    requires e'.fills == e.fills && Covers(accounts, e')
    ensures SumNet(e', accounts, false, m) == SumNet(e, accounts, false, m) && Covers(accounts, e)
  {
    hide SumNet;
    forall a ensures FillsOf(e', a) == FillsOf(e, a) {}
    SumSame(e, e', accounts, false, m);
  }

  lemma PlaceSum(e: Edge, users: seq<Address>, t: Ticket, fees: Fees, accounts: seq<Address>, m: MarketId)
    requires EdgeTotals.NoRepeats(accounts) && Covers(accounts, PlaceOrder(e, users, t, fees))
    ensures SumNet(PlaceOrder(e, users, t, fees), accounts, false, m) == SumNet(e, accounts, false, m) && Covers(accounts, e)
  {
    hide EdgeTotals.NoRepeats, Covers, SumNet, Match, SettleAll, Collect, ProbeFrom, TotalQty, SyncAll, Makers;
    var e', id := PlaceOrder(e, users, t, fees), e.nextId;
    var e1 := e.(nextId := id + 1);
    if e' == e || e' == e1 {
      SameFillsSum(e, e', accounts, m);
    } else {
      var r := MatchTaker(e1, users, RequestOf(t));
      var e2 := SettleAll(r.edge, t, id, r.fills, fees);
      SameFillsSum(e2, e', accounts, m);
      SettleAllSum(r.edge, t, id, r.fills, fees, accounts, m);
      SameFillsSum(e, r.edge, accounts, m);
    }
  }

  lemma CloseSum(e: Edge, a: Address, p: EdgePosition, mark: real, ts: nat, accounts: seq<Address>, m: MarketId)
    requires EdgeTotals.NoRepeats(accounts) && Covers(accounts, CloseOut(e, a, p, mark, ts))
    ensures SumNet(CloseOut(e, a, p, mark, ts), accounts, false, m) == SumNet(e, accounts, false, m) && Covers(accounts, e)
  {
    hide SumNet, EdgeTotals.NoRepeats, Others, ClosePnl, Collateral, ScaleUsdc;
    var e' := CloseOut(e, a, p, mark, ts);
    var f := FillInfo(e.nextId, None, p.market, p.side.Opposite(), mark, p.size, 0, Liquidation, ts);
    assert e'.fills == RecordFill(e, a, f).fills;
    assert FillsOf(e', a) != [];
    forall c | FillsOf(e, c) != [] ensures c in accounts { assert FillsOf(e', c) != []; }
    SumRecorded(e, a, f, accounts, false, m);
    forall c ensures FillsOf(e', c) == FillsOf(RecordFill(e, a, f), c) {}
    SumSame(RecordFill(e, a, f), e', accounts, false, m);
  }

  lemma DoSum(e: Edge, op: Op, accounts: seq<Address>, m: MarketId)
    requires EdgeTotals.NoRepeats(accounts) && Covers(accounts, Do(e, op))
    ensures SumNet(Do(e, op), accounts, false, m) == SumNet(e, accounts, false, m) && Covers(accounts, e)
  {
    hide EdgeTotals.NoRepeats, Covers, SumNet, PlaceOrder, CloseOut, Underwater, ScaleUsdc, Without, Find, IndexOf;
    match op
    case Place(users, ticket, fees) => PlaceSum(e, users, ticket, fees, accounts, m);
    case Liquidate(a, market, prices, ts) =>
      var list := PositionsOf(e, a);
      var i := IndexOf(list, market);
      if i < |list| && Underwater(e, a, list[i], prices) {
        UnderwaterPriced(e, a, list[i], prices);
        CloseSum(e, a, list[i], prices[market].mark, ts, accounts, m);
      }
    case Cancel(_, _) => SameFillsSum(e, Do(e, op), accounts, m);
    case SetBalance(_, _) => SameFillsSum(e, Do(e, op), accounts, m);
    case Seed(_, _) => SameFillsSum(e, Do(e, op), accounts, m);
    case Adjust(_, _) => SameFillsSum(e, Do(e, op), accounts, m);
    case RecordSample(_, _) => SameFillsSum(e, Do(e, op), accounts, m);
  }

  lemma {:induction false} RunSum(start: Edge, ops: seq<Op>, accounts: seq<Address>, m: MarketId)
    requires EdgeTotals.NoRepeats(accounts) && Covers(accounts, RunFrom(start, ops))
    ensures SumNet(RunFrom(start, ops), accounts, false, m) == SumNet(start, accounts, false, m) && Covers(accounts, start)
  {
    hide EdgeTotals.NoRepeats, Covers, SumNet, Do;
    if ops != [] {
      var n := |ops| - 1;
      DoSum(RunFrom(start, ops[..n]), ops[n], accounts, m);
      RunSum(start, ops[..n], accounts, m);
    }
  }

  lemma ReopenSum(e: Edge, s: Snapshot, next: nat, accounts: seq<Address>, m: MarketId)
    requires Restores(e, s) && Covers(accounts, Reopen(s, next))
    ensures SumNet(Reopen(s, next), accounts, false, m) == SumNet(e, accounts, false, m) && Covers(accounts, e)
  {
    hide SumNet, FundingRestored;
    var e' := Reopen(s, next);
    forall a ensures FillsOf(e', a) == FillsOf(e, a) { assert FillsOf(e', a) == At(s.fills, a); }
    SumSame(e, e', accounts, false, m);
  }

  lemma {:induction false} LifeSum(h: History, i: nat, accounts: seq<Address>, m: MarketId)
    requires Life(h) && i <= |h.sessions| && EdgeTotals.NoRepeats(accounts) && Covers(accounts, h.edges[i])
    ensures SumNet(h.edges[i], accounts, false, m) == 0.0
  {
    hide Session, EdgeTotals.NoRepeats, Covers, SumNet, Restores, Reopen, RunFrom;
    if i == 0 {
      NewSum(accounts, m);
    } else {
      RestartEquivalence(h, i - 1);
      var e := RunFrom(h.edges[i - 1], h.sessions[i - 1]);
      ReopenSum(e, h.snaps[i - 1], e.nextId, accounts, m);
      RunSum(h.edges[i - 1], h.sessions[i - 1], accounts, m);
      LifeSum(h, i - 1, accounts, m);
    }
  }

  lemma {:induction false} NewSum(accounts: seq<Address>, m: MarketId)
    ensures SumNet(NEW, accounts, false, m) == 0.0
  {
    if accounts != [] { NewSum(accounts[1..], m); }
  }

  /** Main result: in every state of every life and every market, longs and shorts over all accounts
      differ by exactly what was liquidated, which has no counterparty. */
  lemma OpenInterest(h: History, i: nat, ops: seq<Op>, accounts: seq<Address>, m: MarketId)
    requires Life(h) && i <= |h.sessions| && EdgeTotals.NoRepeats(accounts) && Covers(accounts, RunFrom(h.edges[i], ops))
    ensures var e := RunFrom(h.edges[i], ops);
            SumNet(e, accounts, false, m) == 0.0 && SumHeld(e, accounts, m) == SumNet(e, accounts, true, m)
  {
    hide Session, InStep, EdgeTotals.NoRepeats, Covers, SumNet, RunFrom;
    var e := RunFrom(h.edges[i], ops);
    RunSum(h.edges[i], ops, accounts, m);
    LifeSum(h, i, accounts, m);
    LifeEven(h, i);
    LifeInStep(h, i);
    RunEven(h.stores[i], h.edges[i], ops);
    HeldIsNet(e, accounts, m);
  }

  lemma {:induction false} HeldIsNet(e: Edge, accounts: seq<Address>, m: MarketId)
    requires AllEven(e)
    ensures SumHeld(e, accounts, m) == SumNet(e, accounts, false, m) + SumNet(e, accounts, true, m)
  {
    hide Held, NetOf, NetFills;
    if accounts != [] {
      assert Even(e, accounts[0], m);
      NetSplits(FillsOf(e, accounts[0]), m);
      HeldIsNet(e, accounts[1..], m);
    }
  }

  // ---- The log -------------------------------------------------------------------------

  /** Net size of the matched fills on the log, over all accounts. */
  function NetMatched(log: seq<Event>, m: MarketId): real {
    if log == [] then 0.0 else
    var ev := log[|log| - 1];
    NetMatched(log[..|log| - 1], m) +
    if ev.InsertFill? && ev.fill.role != Liquidation then FillSize(ev.fill, m) else 0.0
  }

  lemma LogSnoc(log: seq<Event>, ev: Event, m: MarketId)
    ensures NetMatched(log + [ev], m) == NetMatched(log, m) + if ev.InsertFill? && ev.fill.role != Liquidation then FillSize(ev.fill, m) else 0.0
  {
    assert (log + [ev])[..|log|] == log;
  }

  lemma {:induction false} LogSync(log: seq<Event>, orders: Orders, makers: seq<Address>, m: MarketId)
    ensures NetMatched(log + SyncAll(orders, makers), m) == NetMatched(log, m)
  {
    if makers == [] {
      assert log + SyncAll(orders, makers) == log;
    } else {
      var n := |makers| - 1;
      LogSync(log, orders, makers[..n], m);
      var before, ev := log + SyncAll(orders, makers[..n]), SyncOrders(makers[n], ListOf(orders, makers[n]));
      assert log + SyncAll(orders, makers) == before + [ev];
      LogSnoc(before, ev, m);
    }
  }

  lemma AdjustLog(e: Edge, a: Address, delta: real, m: MarketId)
    ensures NetMatched(AdjustVault(e, a, delta).log, m) == NetMatched(e.log, m)
  {
    hide NetMatched, ScaleUsdc;
    var next := VaultOf(e, a) + ScaleUsdc(delta);
    LogSnoc(e.log, UpsertVault(a, if next < 0 then 0 else next), m);
  }

  lemma UpsertLog(e: Edge, a: Address, market: MarketId, side: Side, qty: real, price: real, m: MarketId)
    ensures NetMatched(UpsertPosition(e, a, market, side, qty, price).log, m) == NetMatched(e.log, m)
  {
    hide NetMatched, FillList;
    LogSnoc(e.log, SyncPositions(a, FillList(PositionsOf(e, a), market, side, qty, price)), m);
  }

  lemma SettleLog(e: Edge, t: Ticket, order: OrderId, x: Matched, fees: Fees, m: MarketId)
    ensures NetMatched(SettleMatch(e, t, order, x, fees).log, m) == NetMatched(e.log, m)
  {
    hide NetMatched, AdjustVault, UpsertPosition, TakerFill, MakerFill, Share;
    var n := e.nextId;
    var tf, mf := TakerFill(t, n, order, x, fees), MakerFill(t, n + 1, x, fees);
    FillSides(t, n, order, x, fees);
    Opposed(t.side, x.qty);
    var e1 := RecordFill(e.(nextId := n + 3), t.user, tf);
    LogSnoc(e.log, InsertFill(t.user, tf), m);
    var e2 := RecordFill(e1, x.maker, mf);
    LogSnoc(e1.log, InsertFill(x.maker, mf), m);
    AdjustLog(e2, t.user, -Share(x, fees.takerBps), m);
    var e3 := AdjustVault(e2, t.user, -Share(x, fees.takerBps));
    AdjustLog(e3, x.maker, Share(x, fees.rebateBps), m);
    var e4 := AdjustVault(e3, x.maker, Share(x, fees.rebateBps));
    var trade := PublicTrade(n + 2, t.market, x.price, x.qty, t.side, t.ts);
    LogSnoc(e4.log, InsertTrade(trade), m);
    var e5 := RecordTrade(e4, trade);
    UpsertLog(e5, t.user, t.market, t.side, x.qty, x.price, m);
    var e6 := UpsertPosition(e5, t.user, t.market, t.side, x.qty, x.price);
    UpsertLog(e6, x.maker, t.market, t.side.Opposite(), x.qty, x.price, m);
  }

  lemma {:induction false} SettleAllLog(e: Edge, t: Ticket, order: OrderId, xs: seq<Matched>, fees: Fees, m: MarketId)
    ensures NetMatched(SettleAll(e, t, order, xs, fees).log, m) == NetMatched(e.log, m)
    decreases |xs|
  {
    hide NetMatched, SettleMatch;
    if xs != [] {
      SettleLog(e, t, order, xs[0], fees, m);
      SettleAllLog(SettleMatch(e, t, order, xs[0], fees), t, order, xs[1..], fees, m);
    }
  }

  lemma PlaceLog(e: Edge, users: seq<Address>, t: Ticket, fees: Fees, m: MarketId)
    ensures NetMatched(PlaceOrder(e, users, t, fees).log, m) == NetMatched(e.log, m)
  {
    hide NetMatched, Match, SettleAll, Collect, ProbeFrom, TotalQty, SyncAll, Makers;
    var id := e.nextId;
    var e1 := e.(nextId := id + 1);
    var r := MatchTaker(e1, users, RequestOf(t));
    LogSync(e.log, r.edge.orders, Makers([], r.fills), m);
    SettleAllLog(r.edge, t, id, r.fills, fees, m);
    var e2 := SettleAll(r.edge, t, id, r.fills, fees);
    var remaining := t.qty - TotalQty(r.fills);
    if remaining != 0.0 && t.limit.Some? { LogSnoc(e2.log, UpsertOrder(t.user, RestingOrder(t, id, remaining)), m); }
  }

  lemma CloseLog(e: Edge, a: Address, p: EdgePosition, mark: real, ts: nat, m: MarketId)
    ensures NetMatched(CloseOut(e, a, p, mark, ts).log, m) == NetMatched(e.log, m)
  {
    hide NetMatched, Others, ClosePnl, Collateral, ScaleUsdc;
    var raw := Collateral(e, a) + ClosePnl(p, mark);
    var v := UpsertVault(a, ScaleUsdc(if raw < 0.0 then 0.0 else raw));
    var s := SyncPositions(a, Others(PositionsOf(e, a), p.market));
    var f := InsertFill(a, FillInfo(e.nextId, None, p.market, p.side.Opposite(), mark, p.size, 0, Liquidation, ts));
    var x := InsertTrade(PublicTrade(e.nextId + 1, p.market, mark, p.size, p.side.Opposite(), ts));
    LogSnoc(e.log, v, m);
    LogSnoc(e.log + [v], s, m);
    LogSnoc(e.log + [v] + [s], f, m);
    LogSnoc(e.log + [v] + [s] + [f], x, m);
  }

  lemma DoLog(e: Edge, op: Op, m: MarketId)
    ensures NetMatched(Do(e, op).log, m) == NetMatched(e.log, m)
  {
    hide NetMatched, PlaceOrder, CloseOut, Underwater, AdjustVault, Without, Find, IndexOf;
    match op
    case Place(users, ticket, fees) => PlaceLog(e, users, ticket, fees, m);
    case Cancel(a, id) => LogSnoc(e.log, DeleteOrder(id), m);
    case Liquidate(a, market, prices, ts) =>
      var list := PositionsOf(e, a);
      var i := IndexOf(list, market);
      if i < |list| && Underwater(e, a, list[i], prices) {
        UnderwaterPriced(e, a, list[i], prices);
        CloseLog(e, a, list[i], prices[market].mark, ts, m);
      }
    case SetBalance(a, amount) => LogSnoc(e.log, UpsertVault(a, amount), m);
    case Seed(a, _) => LogSnoc(e.log, UpsertVault(a, DEV_SEED), m);
    case Adjust(a, delta) => AdjustLog(e, a, delta, m);
    case RecordSample(n, s) => LogSnoc(e.log, InsertFunding(n, s), m);
  }

  /** Main result: whatever a run puts on the log, the matched fills among it net to zero in every
      market. */
  lemma {:induction false} MatchedNetToZero(start: Edge, ops: seq<Op>, m: MarketId)
    ensures NetMatched(RunFrom(start, ops).log, m) == NetMatched(start.log, m)
    ensures start.log == [] ==> NetMatched(RunFrom(start, ops).log, m) == 0.0
  {
    hide Do;
    if ops != [] {
      MatchedNetToZero(start, ops[..|ops| - 1], m);
      DoLog(RunFrom(start, ops[..|ops| - 1]), ops[|ops| - 1], m);
    }
  }

  // ---- Fees ----------------------------------------------------------------------------

  function Charged(vault: int, fee6: int): int {
    if vault - fee6 < 0 then 0 else vault - fee6
  }

  lemma TruncNegated(x: real)
    ensures Trunc(-x) == -Trunc(x)
  {}

  lemma AdjustCharges(e: Edge, a: Address, delta: real, b: Address)
    requires VaultOf(e, a) >= 0
    ensures VaultOf(AdjustVault(e, a, delta), b) == if a == b then Charged(VaultOf(e, a), -ScaleUsdc(delta)) else VaultOf(e, b)
  {
    hide ScaleUsdc;
    if delta == 0.0 { NothingScaled(); }
  }

  lemma NothingScaled()
    ensures ScaleUsdc(0.0) == 0
  {}

  lemma Negated(d: real)
    ensures ScaleUsdc(-d) == -ScaleUsdc(d)
  {
    TruncNegated(d * USDC);
    assert -d * USDC == -(d * USDC);
  }

  /** What a match takes from or adds to a vault is the fee its fill records, down to zero. */
  lemma FeesAsRecorded(e: Edge, t: Ticket, order: OrderId, x: Matched, fees: Fees)
    requires VaultOf(e, t.user) >= 0 && VaultOf(e, x.maker) >= 0 && t.user != x.maker
    ensures var e' := SettleMatch(e, t, order, x, fees);
            var tf, mf := TakerFill(t, e.nextId, order, x, fees), MakerFill(t, e.nextId + 1, x, fees);
            && FillsOf(e', t.user) == FillsOf(e, t.user) + [tf] && FillsOf(e', x.maker) == FillsOf(e, x.maker) + [mf]
            && VaultOf(e', t.user) == Charged(VaultOf(e, t.user), tf.fee6)
            && VaultOf(e', x.maker) == Charged(VaultOf(e, x.maker), mf.fee6)
  {
    hide AdjustVault, FillList, ScaleUsdc, Share, Charged, TakerFill, MakerFill;
    var tf, mf := TakerFill(t, e.nextId, order, x, fees), MakerFill(t, e.nextId + 1, x, fees);
    var e2 := RecordFill(RecordFill(e.(nextId := e.nextId + 3), t.user, tf), x.maker, mf);
    BothCharged(e2, t.user, x.maker, Share(x, fees.takerBps), Share(x, fees.rebateBps));
    FeesRecorded(t, e.nextId, order, x, fees);
  }

  lemma FeesRecorded(t: Ticket, n: nat, order: OrderId, x: Matched, fees: Fees)
    ensures TakerFill(t, n, order, x, fees).fee6 == ScaleUsdc(Share(x, fees.takerBps))
    ensures MakerFill(t, n + 1, x, fees).fee6 == -ScaleUsdc(Share(x, fees.rebateBps))
  {
    hide Share, ScaleUsdc;
    Negated(Share(x, fees.rebateBps));
  }

  lemma BothCharged(e: Edge, taker: Address, maker: Address, fee: real, rebate: real)
    requires VaultOf(e, taker) >= 0 && VaultOf(e, maker) >= 0 && taker != maker
    ensures var e' := AdjustVault(AdjustVault(e, taker, -fee), maker, rebate);
            && e'.fills == e.fills && VaultOf(e', taker) == Charged(VaultOf(e, taker), ScaleUsdc(fee))
            && VaultOf(e', maker) == Charged(VaultOf(e, maker), -ScaleUsdc(rebate))
  {
    hide AdjustVault, ScaleUsdc, Charged;
    var e1 := AdjustVault(e, taker, -fee);
    AdjustCharges(e, taker, -fee, taker);
    AdjustCharges(e, taker, -fee, maker);
    AdjustSame(e, taker, -fee);
    AdjustCharges(e1, maker, rebate, maker);
    AdjustCharges(e1, maker, rebate, taker);
    AdjustSame(e1, maker, rebate);
    Negated(fee);
  }
}
