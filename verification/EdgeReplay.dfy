/**
 Positions are what the recorded fills make of them. In every state of every life, restarts and
 liquidations included, replaying an account's fill history gives its positions, entry prices and
 notionals included; and so each is the margin engine's position for that history.
 */
module EdgeReplay {
  import opened OrderTypes
  import opened EdgeMatch
  import opened EdgePositions
  import opened EdgeState
  import opened Persistence
  import opened Restart
  import opened Reload
  import Margin

  // ---- Replaying fills -----------------------------------------------------------------

  /** A recorded fill as it moves a position. */
  function AsMove(f: FillInfo): PositionFill {
    PositionFill(f.market, f.side, f.qty, f.price)
  }

  function AsMoves(fills: seq<FillInfo>): seq<PositionFill> {
    if fills == [] then [] else AsMoves(fills[..|fills| - 1]) + [AsMove(fills[|fills| - 1])]
  }

  /** The position in this market, if there is one. */
  function Entry(list: seq<EdgePosition>, m: MarketId): Option<EdgePosition> {
    var i := IndexOf(list, m);
    if i == |list| then None else Some(list[i])
  }

  /** One fill on the position of market `m`. */
  function Fold(p: Option<EdgePosition>, f: PositionFill, m: MarketId): Option<EdgePosition> {
    if f.market != m then p
    else if p.None? then Some(Opened(f.market, f.side, f.qty, f.price))
    else Moved(p.value, f.side, f.qty, f.price)
  }

  function FoldIf(c: bool, p: Option<EdgePosition>, f: PositionFill, m: MarketId): Option<EdgePosition> {
    if c then Fold(p, f, m) else p
  }

  lemma EntryFolds(list: seq<EdgePosition>, f: PositionFill, m: MarketId)
    requires OnePerMarket(list)
    ensures Entry(FillList(list, f.market, f.side, f.qty, f.price), m) == Fold(Entry(list, m), f, m)
  {
    hide IndexOf, FillList, Opened, Moved;
    if m == f.market {
      SameMarket(list, f);
    } else {
      OtherMarket(list, f, m);
    }
  }

  lemma {:induction false} BookOne(fills: seq<PositionFill>)
    ensures OnePerMarket(Book(fills))
  {
    hide FillList;
    if fills != [] {
      BookOne(fills[..|fills| - 1]);
      FillKeepsOne(Book(fills[..|fills| - 1]), fills[|fills| - 1]);
    }
  }

  /** What the account's fill history makes of market `m`. */
  function Replayed(e: Edge, a: Address, m: MarketId): Option<EdgePosition> {
    Entry(Book(AsMoves(FillsOf(e, a))), m)
  }

  function Stored(e: Edge, a: Address, m: MarketId): Option<EdgePosition> {
    Entry(PositionsOf(e, a), m)
  }

  lemma BookSnoc(fills: seq<FillInfo>, f: FillInfo, m: MarketId)
    ensures Entry(Book(AsMoves(fills + [f])), m) == Fold(Entry(Book(AsMoves(fills)), m), AsMove(f), m)
  {
    hide Entry, Fold, FillList;
    assert (fills + [f])[..|fills|] == fills;
    var before, x := AsMoves(fills), AsMove(f);
    assert (before + [x])[..|before|] == before;
    BookOne(before);
    EntryFolds(Book(before), x, m);
  }

  // ---- Single changes ------------------------------------------------------------------

  lemma FillReplays(e: Edge, a: Address, f: FillInfo, b: Address, m: MarketId)
    ensures var e' := RecordFill(e, a, f);
            && Replayed(e', b, m) == FoldIf(a == b, Replayed(e, b, m), AsMove(f), m) && e'.positions == e.positions
  {
    hide Entry, Book, AsMoves, Fold;
    BookSnoc(FillsOf(e, a), f, m);
  }

  lemma PositionFolds(e: Edge, a: Address, f: PositionFill, b: Address, m: MarketId)
    requires AllOne(e)
    ensures var e' := UpsertPosition(e, a, f.market, f.side, f.qty, f.price);
            && Stored(e', b, m) == FoldIf(a == b, Stored(e, b, m), f, m) && e'.fills == e.fills && AllOne(e')
  {
    hide Entry, OnePerMarket, FillList, Fold;
    assert OnePerMarket(PositionsOf(e, a));
    EntryFolds(PositionsOf(e, a), f, m);
    FillKeepsOne(PositionsOf(e, a), f);
    var e' := UpsertPosition(e, a, f.market, f.side, f.qty, f.price);
    forall c ensures OnePerMarket(PositionsOf(e', c)) { assert OnePerMarket(PositionsOf(e, c)); }
  }

  lemma SamePositions(e: Edge, e': Edge)
    requires e'.positions == e.positions && AllOne(e)
    ensures AllOne(e')
  {
    hide OnePerMarket;
    forall a ensures OnePerMarket(PositionsOf(e', a)) { assert OnePerMarket(PositionsOf(e, a)); }
  }

  predicate Faithful(e: Edge, a: Address, m: MarketId) {
    Stored(e, a, m) == Replayed(e, a, m)
  }

  lemma SameFaithful(e: Edge, e': Edge, b: Address, m: MarketId)
    requires e'.positions == e.positions && e'.fills == e.fills
    ensures Faithful(e, b, m) ==> Faithful(e', b, m)
    ensures AllOne(e) ==> AllOne(e')
  {
    hide Entry, Book, AsMoves, OnePerMarket;
    if AllOne(e) { SamePositions(e, e'); }
  }

  // ---- Matches -------------------------------------------------------------------------

  lemma AdjustKeepsBoth(e: Edge, a: Address, delta: real)
    ensures AdjustVault(e, a, delta).positions == e.positions && AdjustVault(e, a, delta).fills == e.fills
  {
    hide ScaleUsdc;
  }

  /** The match as both books see it: the taker's move, then the maker's. */
  lemma SettleFaithful(e: Edge, t: Ticket, order: OrderId, x: Matched, fees: Fees, b: Address, m: MarketId)
    requires AllOne(e) && Faithful(e, b, m)
    ensures Faithful(SettleMatch(e, t, order, x, fees), b, m) && AllOne(SettleMatch(e, t, order, x, fees))
  {
    hide Stored, Replayed, AllOne, RecordFill, RecordTrade, AdjustVault, UpsertPosition, TakerFill, MakerFill, Share, FoldIf;
    var n := e.nextId;
    var tf, mf := TakerFill(t, n, order, x, fees), MakerFill(t, n + 1, x, fees);
    var tm, mm := PositionFill(t.market, t.side, x.qty, x.price), PositionFill(t.market, t.side.Opposite(), x.qty, x.price);
    MovesOf(t, n, order, x, fees);
    var e0 := e.(nextId := n + 3);
    SameBoth(e, e0, b, m);
    FillReplays(e0, t.user, tf, b, m);
    var e1 := RecordFill(e0, t.user, tf);
    FillReplays(e1, x.maker, mf, b, m);
    var e2 := RecordFill(e1, x.maker, mf);
    AdjustKeepsBoth(e2, t.user, -Share(x, fees.takerBps));
    var e3 := AdjustVault(e2, t.user, -Share(x, fees.takerBps));
    AdjustKeepsBoth(e3, x.maker, Share(x, fees.rebateBps));
    var e4 := AdjustVault(e3, x.maker, Share(x, fees.rebateBps));
    var trade := PublicTrade(n + 2, t.market, x.price, x.qty, t.side, t.ts);
    var e5 := RecordTrade(e4, trade);
    TradeKeepsBoth(e4, trade);
    SameBoth(e2, e5, b, m);
    SamePositions(e, e5);
    SameStored(e, e5, b, m);
    PositionFolds(e5, t.user, tm, b, m);
    var e6 := UpsertPosition(e5, t.user, t.market, t.side, x.qty, x.price);
    SameReplayed(e5, e6, b, m);
    PositionFolds(e6, x.maker, mm, b, m);
    SameReplayed(e6, UpsertPosition(e6, x.maker, t.market, t.side.Opposite(), x.qty, x.price), b, m);
  }

  lemma MovesOf(t: Ticket, n: nat, order: OrderId, x: Matched, fees: Fees)
    ensures AsMove(TakerFill(t, n, order, x, fees)) == PositionFill(t.market, t.side, x.qty, x.price)
    ensures AsMove(MakerFill(t, n + 1, x, fees)) == PositionFill(t.market, t.side.Opposite(), x.qty, x.price)
  {}

  lemma TradeKeepsBoth(e: Edge, x: PublicTrade)
    ensures RecordTrade(e, x).positions == e.positions && RecordTrade(e, x).fills == e.fills
  {}

  lemma SameBoth(e: Edge, e': Edge, b: Address, m: MarketId)
    requires e'.positions == e.positions && e'.fills == e.fills
    ensures Stored(e', b, m) == Stored(e, b, m) && Replayed(e', b, m) == Replayed(e, b, m)
  {
    hide Entry, Book, AsMoves;
  }

  lemma SameStored(e: Edge, e': Edge, b: Address, m: MarketId)
    requires e'.positions == e.positions
    ensures Stored(e', b, m) == Stored(e, b, m)
  {
    hide Entry;
  }

  lemma SameReplayed(e: Edge, e': Edge, b: Address, m: MarketId)
    requires e'.fills == e.fills
    ensures Replayed(e', b, m) == Replayed(e, b, m)
  {
    hide Entry, Book, AsMoves;
  }

  lemma {:induction false} SettleAllFaithful(e: Edge, t: Ticket, order: OrderId, xs: seq<Matched>, fees: Fees, b: Address, m: MarketId)
    requires AllOne(e) && Faithful(e, b, m)
    ensures Faithful(SettleAll(e, t, order, xs, fees), b, m)
    decreases |xs|
  {
    hide Faithful, AllOne, SettleMatch;
    if xs != [] {
      SettleFaithful(e, t, order, xs[0], fees, b, m);
      SettleAllFaithful(SettleMatch(e, t, order, xs[0], fees), t, order, xs[1..], fees, b, m);
    }
  }

  // ---- Operations ----------------------------------------------------------------------

  lemma PlaceFaithful(e: Edge, users: seq<Address>, t: Ticket, fees: Fees, b: Address, m: MarketId)
    requires AllOne(e) && Faithful(e, b, m)
    ensures Faithful(PlaceOrder(e, users, t, fees), b, m)
  {
    hide Faithful, AllOne, Match, SettleAll, Collect, ProbeFrom, TotalQty, SyncAll, Makers;
    var id := e.nextId;
    var e1 := e.(nextId := id + 1);
    SameFaithful(e, e1, b, m);
    var r := MatchTaker(e1, users, RequestOf(t));
    SameFaithful(e1, r.edge, b, m);
    SettleAllFaithful(r.edge, t, id, r.fills, fees, b, m);
    var e2 := SettleAll(r.edge, t, id, r.fills, fees);
    SameFaithful(e2, RestRemainder(e2, t, id, t.qty - TotalQty(r.fills)), b, m);
  }

  /** A position closed by force is closed by its fill as well. */
  lemma ClosingFill(p: EdgePosition, mark: real)
    ensures Moved(p, p.side.Opposite(), p.size, mark) == None
  {}

  lemma EntryWithout(list: seq<EdgePosition>, market: MarketId, m: MarketId)
    requires OnePerMarket(list)
    ensures Entry(Others(list, market), m) == if m == market then None else Entry(list, m)
  {
    hide IndexOf, Others;
    OthersHas(list, market);
    OthersOne(list, market);
    var rest := Others(list, market);
    var i, j := IndexOf(list, m), IndexOf(rest, m);
    if i < |list| && m != market {
      assert list[i] in list;
      assert list[i] in rest;
    }
    if j < |rest| {
      assert rest[j] in rest;
      assert rest[j] in list;
    }
  }

  lemma CloseFaithful(e: Edge, a: Address, p: EdgePosition, mark: real, ts: nat, b: Address, m: MarketId)
    requires AllOne(e) && Faithful(e, b, m) && p in PositionsOf(e, a)
    ensures Faithful(CloseOut(e, a, p, mark, ts), b, m)
  {
    hide Entry, Book, AsMoves, Moved, Opened, OnePerMarket, Others, ClosePnl, Collateral, ScaleUsdc;
    var e' := CloseOut(e, a, p, mark, ts);
    var f := FillInfo(e.nextId, None, p.market, p.side.Opposite(), mark, p.size, 0, Liquidation, ts);
    assert OnePerMarket(PositionsOf(e, a));
    EntryWithout(PositionsOf(e, a), p.market, m);
    EntryIs(PositionsOf(e, a), p);
    BookSnoc(FillsOf(e, a), f, m);
    ClosingFill(p, mark);
    assert PositionsOf(e', b) == if a == b then Others(PositionsOf(e, a), p.market) else PositionsOf(e, b);
    assert FillsOf(e', b) == if a == b then FillsOf(e, a) + [f] else FillsOf(e, b);
  }

  lemma EntryIs(list: seq<EdgePosition>, p: EdgePosition)
    requires OnePerMarket(list) && p in list
    ensures Entry(list, p.market) == Some(p)
  {
    hide IndexOf;
  }

  lemma LiquidateFaithful(e: Edge, a: Address, market: MarketId, prices: Prices, ts: nat, b: Address, m: MarketId)
    requires AllOne(e) && Faithful(e, b, m)
    ensures Faithful(LiquidatePosition(e, a, market, prices, ts), b, m)
  {
    hide Faithful, AllOne, Underwater, CloseOut, IndexOf;
    var list := PositionsOf(e, a);
    var i := IndexOf(list, market);
    if i < |list| && Underwater(e, a, list[i], prices) {
      UnderwaterPriced(e, a, list[i], prices);
      assert list[i] in list;
      CloseFaithful(e, a, list[i], prices[market].mark, ts, b, m);
    }
  }

  lemma DoFaithful(e: Edge, op: Op, b: Address, m: MarketId)
    requires AllOne(e) && Faithful(e, b, m)
    ensures Faithful(Do(e, op), b, m)
  {
    hide Faithful, AllOne, PlaceOrder, LiquidatePosition, ScaleUsdc, Without, Find;
    match op
    case Place(users, ticket, fees) => PlaceFaithful(e, users, ticket, fees, b, m);
    case Liquidate(a, market, prices, ts) => LiquidateFaithful(e, a, market, prices, ts, b, m);
    case Cancel(_, _) => SameFaithful(e, Do(e, op), b, m);
    case SetBalance(_, _) => SameFaithful(e, Do(e, op), b, m);
    case Seed(_, _) => SameFaithful(e, Do(e, op), b, m);
    case Adjust(_, _) => SameFaithful(e, Do(e, op), b, m);
    case RecordSample(_, _) => SameFaithful(e, Do(e, op), b, m);
  }

  // ---- Runs and lives ------------------------------------------------------------------

  ghost predicate AllFaithful(e: Edge) {
    forall a, m :: Faithful(e, a, m)
  }

  lemma {:induction false} RunFaithful(base: Store, start: Edge, ops: seq<Op>)
    requires InStep(base, start, start.nextId, start.nextId) && AllFaithful(start)
    ensures AllFaithful(RunFrom(start, ops))
  {
    hide InStep, Do, AllOne, Faithful;
    if ops != [] {
      var n := |ops| - 1;
      var e := RunFrom(start, ops[..n]);
      RunFaithful(base, start, ops[..n]);
      RunInStep(base, start, ops[..n]);
      InStepOne(base, e);
      forall a, m ensures Faithful(Do(e, ops[n]), a, m) {
        assert Faithful(e, a, m);
        DoFaithful(e, ops[n], a, m);
      }
    }
  }

  lemma EntryPermutes(x: seq<EdgePosition>, y: seq<EdgePosition>, m: MarketId)
    requires OnePerMarket(x) && OnePerMarket(y) && multiset(x) == multiset(y)
    ensures Entry(x, m) == Entry(y, m)
  {
    hide IndexOf;
    var i, j := IndexOf(x, m), IndexOf(y, m);
    if i < |x| {
      assert x[i] in multiset(x);
      assert x[i] in y;
      EntryIs(y, x[i]);
    }
    if j < |y| {
      assert y[j] in multiset(y);
      assert y[j] in x;
      EntryIs(x, y[j]);
    }
  }

  lemma ReopenFaithful(e: Edge, s: Snapshot, next: nat)
    requires Restores(e, s) && AllOne(e) && AllOne(Reopen(s, next)) && AllFaithful(e)
    ensures AllFaithful(Reopen(s, next))
  {
    hide Entry, Book, AsMoves, OnePerMarket, FundingRestored;
    var e' := Reopen(s, next);
    forall a, m ensures Faithful(e', a, m) {
      assert Faithful(e, a, m);
      assert FillsOf(e', a) == At(s.fills, a) && PositionsOf(e', a) == At(s.positions, a);
      assert OnePerMarket(PositionsOf(e, a)) && OnePerMarket(PositionsOf(e', a));
      EntryPermutes(PositionsOf(e', a), PositionsOf(e, a), m);
    }
  }

  lemma {:induction false} LifeFaithful(h: History, i: nat)
    requires Life(h) && i <= |h.sessions|
    ensures AllFaithful(h.edges[i])
  {
    hide InStep, Session, Faithful, AllOne, Restores, Reopen, RunFrom;
    if i == 0 {
      NewFaithful();
    } else {
      LifeFaithful(h, i - 1);
      LifeInStep(h, i - 1);
      RunFaithful(h.stores[i - 1], h.edges[i - 1], h.sessions[i - 1]);
      ReachedInStep(h, i - 1, h.sessions[i - 1]);
      RestartEquivalence(h, i - 1);
      LifeInStep(h, i);
      InStepOne(h.stores[i], h.edges[i]);
      var e := RunFrom(h.edges[i - 1], h.sessions[i - 1]);
      ReopenFaithful(e, h.snaps[i - 1], e.nextId);
    }
  }

  lemma NewFaithful()
    ensures AllFaithful(NEW)
  {
    forall a, m ensures Faithful(NEW, a, m) {}
  }

  /** Main result: in every state of every life, for every account and market, the stored position,
      entry price and notional included, is what replaying the account's recorded fills gives. */
  lemma PositionsReplay(h: History, i: nat, ops: seq<Op>, a: Address, m: MarketId)
    requires Life(h) && i <= |h.sessions|
    ensures var e := RunFrom(h.edges[i], ops);
            Entry(PositionsOf(e, a), m) == Entry(Book(AsMoves(FillsOf(e, a))), m)
  {
    hide InStep, Session, RunFrom, Entry, Book, AsMoves;
    LifeFaithful(h, i);
    LifeInStep(h, i);
    RunFaithful(h.stores[i], h.edges[i], ops);
    assert Faithful(RunFrom(h.edges[i], ops), a, m);
  }

  /** And so, for an account whose recorded fills all have positive quantities, it is the margin
      engine's position for those fills, the entry price off by at most one unit per fill. */
  lemma PositionsFollowCore(h: History, i: nat, ops: seq<Op>, a: Address, m: MarketId)
    requires Life(h) && i <= |h.sessions| && QuantitiesPositive(AsMoves(FillsOf(RunFrom(h.edges[i], ops), a)))
    ensures var e := RunFrom(h.edges[i], ops);
            var moves := AsMoves(FillsOf(e, a));
            var trades := TradesIn(moves, m);
            Tracks(PositionsOf(e, a), m, Margin.Play(trades).position, |trades|, NeverNegative(moves))
  {
    hide InStep, Session, RunFrom, Book, AsMoves, IndexOf, TradesIn, Matches, Below, QuantitiesPositive, NeverNegative, Margin.Play;
    PositionsReplay(h, i, ops, a, m);
    EdgeFollowsCore(AsMoves(FillsOf(RunFrom(h.edges[i], ops), a)), m);
  }
}
