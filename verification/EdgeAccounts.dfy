/**
 The remaining entries of an account, over whole lives: the notional stored with a position is its
 size at its stored entry price up to the units cut off, the funding history is the samples recorded,
 a development vault is seeded once, and a cancel takes out one order.
 */
module EdgeAccounts {
  import opened OrderTypes
  import opened EdgeMatch
  import opened EdgePositions
  import opened EdgeState
  import opened Persistence
  import opened Restart
  import opened Reload
  import Margin

  // ---- Notionals -----------------------------------------------------------------------

  /** The stored notional is off by less than its own last unit and that of the entry price. */
  predicate NotionalOk(p: EdgePosition) {
    var exact, slack := p.size * (p.entryX18 as real / X18) * USDC, 1.0 + Margin.Abs(p.size) * USDC / X18;
    -slack <= p.notional6 as real - exact <= slack
  }

  lemma Product(s: real, d: real, u: real)
    requires -u <= d <= u
    ensures -Margin.Abs(s) * u <= s * d <= Margin.Abs(s) * u
  {
    if s >= 0.0 {
      assert s * (u - d) >= 0.0 && s * (d + u) >= 0.0;
    } else {
      assert (-s) * (u - d) >= 0.0 && (-s) * (d + u) >= 0.0;
    }
  }

  lemma CutNotional(size: real, price: real, stored: int)
    requires -Units(1) <= price - Unscale(stored) <= Units(1)
    ensures var exact, slack := size * Unscale(stored) * USDC, 1.0 + Margin.Abs(size) * USDC / X18;
            -slack <= Notional6(size, price) as real - exact <= slack
  {
    var d, x := price - Unscale(stored), size * price * USDC;
    Product(size, d, Units(1));
    assert x - size * Unscale(stored) * USDC == size * d * USDC;
    assert Margin.Abs(size) * Units(1) * USDC == Margin.Abs(size) * USDC / X18;
    Truncated(x);
  }

  lemma Truncated(x: real)
    ensures -1.0 < Trunc(x) as real - x < 1.0
  {}

  lemma OpenedOk(market: MarketId, side: Side, qty: real, price: real)
    ensures NotionalOk(Opened(market, side, qty, price))
  {
    hide Notional6, ScaleX18;
    ScaleLoses(price);
    CutNotional(qty, price, ScaleX18(price));
  }

  lemma AddedOk(p: EdgePosition, qty: real, price: real)
    ensures NotionalOk(Added(p, qty, price))
  {
    hide Notional6, ScaleX18, Average, Unscale;
    var size := p.size + qty;
    var entry := if size != 0.0 then Average(p.size, Unscale(p.entryX18), qty, price) else price;
    OpenedOk(p.market, p.side, size, entry);
  }

  lemma ReducedOk(p: EdgePosition, qty: real)
    ensures NotionalOk(Reduced(p, qty))
  {
    hide Notional6;
    CutNotional(p.size - qty, Unscale(p.entryX18), p.entryX18);
  }

  predicate NotionalsOk(list: seq<EdgePosition>) {
    forall p | p in list :: NotionalOk(p)
  }

  lemma FillNotionals(list: seq<EdgePosition>, market: MarketId, side: Side, qty: real, price: real)
    requires NotionalsOk(list)
    ensures NotionalsOk(FillList(list, market, side, qty, price))
  {
    hide NotionalOk, Opened, Added, Reduced, IndexOf;
    OpenedOk(market, side, qty, price);
    var i := IndexOf(list, market);
    if i < |list| {
      OpenedOk(market, side, qty - list[i].size, price);
      AddedOk(list[i], qty, price);
      ReducedOk(list[i], qty);
    }
  }

  ghost predicate AllNotionals(e: Edge) {
    forall a :: NotionalsOk(PositionsOf(e, a))
  }

  lemma UpsertNotionals(e: Edge, a: Address, market: MarketId, side: Side, qty: real, price: real)
    requires AllNotionals(e)
    ensures AllNotionals(UpsertPosition(e, a, market, side, qty, price))
  {
    hide NotionalsOk, FillList;
    assert NotionalsOk(PositionsOf(e, a));
    FillNotionals(PositionsOf(e, a), market, side, qty, price);
    var e' := UpsertPosition(e, a, market, side, qty, price);
    forall b ensures NotionalsOk(PositionsOf(e', b)) { assert NotionalsOk(PositionsOf(e, b)); }
  }

  lemma SameNotionals(e: Edge, e': Edge)
    requires e'.positions == e.positions && AllNotionals(e)
    ensures AllNotionals(e')
  {
    hide NotionalsOk;
    forall a ensures NotionalsOk(PositionsOf(e', a)) { assert NotionalsOk(PositionsOf(e, a)); }
  }

  /** What comes before the positions are moved. */
  function BeforePositions(e: Edge, t: Ticket, order: OrderId, x: Matched, fees: Fees): Edge {
    var n := e.nextId;
    var e2 := RecordFill(RecordFill(e.(nextId := n + 3), t.user, TakerFill(t, n, order, x, fees)), x.maker, MakerFill(t, n + 1, x, fees));
    var e4 := AdjustVault(AdjustVault(e2, t.user, -Share(x, fees.takerBps)), x.maker, Share(x, fees.rebateBps));
    RecordTrade(e4, PublicTrade(n + 2, t.market, x.price, x.qty, t.side, t.ts))
  }

  lemma AdjustKeeps(e: Edge, a: Address, delta: real)
    ensures AdjustVault(e, a, delta).positions == e.positions && AdjustVault(e, a, delta).funding == e.funding
  {
    hide ScaleUsdc;
  }

  lemma BeforeKeeps(e: Edge, t: Ticket, order: OrderId, x: Matched, fees: Fees)
    ensures var e' := BeforePositions(e, t, order, x, fees); e'.positions == e.positions && e'.funding == e.funding
  {
    hide AdjustVault, TakerFill, MakerFill, Share;
    var n := e.nextId;
    var e2 := RecordFill(RecordFill(e.(nextId := n + 3), t.user, TakerFill(t, n, order, x, fees)), x.maker, MakerFill(t, n + 1, x, fees));
    AdjustKeeps(e2, t.user, -Share(x, fees.takerBps));
    AdjustKeeps(AdjustVault(e2, t.user, -Share(x, fees.takerBps)), x.maker, Share(x, fees.rebateBps));
  }

  lemma SettleNotionals(e: Edge, t: Ticket, order: OrderId, x: Matched, fees: Fees)
    requires AllNotionals(e)
    ensures AllNotionals(SettleMatch(e, t, order, x, fees)) && SettleMatch(e, t, order, x, fees).funding == e.funding
  {
    hide AllNotionals, RecordFill, RecordTrade, AdjustVault, TakerFill, MakerFill, Share, FillList;
    BeforeKeeps(e, t, order, x, fees);
    var e5 := BeforePositions(e, t, order, x, fees);
    SameNotionals(e, e5);
    UpsertNotionals(e5, t.user, t.market, t.side, x.qty, x.price);
    var e6 := UpsertPosition(e5, t.user, t.market, t.side, x.qty, x.price);
    UpsertNotionals(e6, x.maker, t.market, t.side.Opposite(), x.qty, x.price);
  }

  lemma {:induction false} SettleAllNotionals(e: Edge, t: Ticket, order: OrderId, xs: seq<Matched>, fees: Fees)
    requires AllNotionals(e)
    ensures AllNotionals(SettleAll(e, t, order, xs, fees)) && SettleAll(e, t, order, xs, fees).funding == e.funding
    decreases |xs|
  {
    hide AllNotionals, SettleMatch;
    if xs != [] {
      SettleNotionals(e, t, order, xs[0], fees);
      SettleAllNotionals(SettleMatch(e, t, order, xs[0], fees), t, order, xs[1..], fees);
    }
  }

  lemma PlaceNotionals(e: Edge, users: seq<Address>, t: Ticket, fees: Fees)
    requires AllNotionals(e)
    ensures AllNotionals(PlaceOrder(e, users, t, fees)) && PlaceOrder(e, users, t, fees).funding == e.funding
  {
    hide AllNotionals, Match, SettleAll, Collect, ProbeFrom, TotalQty, SyncAll, Makers;
    var id := e.nextId;
    var e1 := e.(nextId := id + 1);
    SameNotionals(e, e1);
    var r := MatchTaker(e1, users, RequestOf(t));
    SameNotionals(e, r.edge);
    SettleAllNotionals(r.edge, t, id, r.fills, fees);
    var e2 := SettleAll(r.edge, t, id, r.fills, fees);
    SameNotionals(e2, RestRemainder(e2, t, id, t.qty - TotalQty(r.fills)));
  }

  lemma CloseNotionals(e: Edge, a: Address, p: EdgePosition, mark: real, ts: nat)
    requires AllNotionals(e)
    ensures AllNotionals(CloseOut(e, a, p, mark, ts)) && CloseOut(e, a, p, mark, ts).funding == e.funding
  {
    hide NotionalOk, Others, ClosePnl, Collateral, ScaleUsdc;
    var e' := CloseOut(e, a, p, mark, ts);
    OthersHas(PositionsOf(e, a), p.market);
    forall b ensures NotionalsOk(PositionsOf(e', b)) { assert NotionalsOk(PositionsOf(e, b)); }
  }

  // ---- Operations, runs and lives ------------------------------------------------------

  function SampleOf(op: Op, m: MarketId): seq<Sample> {
    if op.RecordSample? && op.market == m then [op.sample] else []
  }

  function SamplesIn(ops: seq<Op>, m: MarketId): seq<Sample> {
    if ops == [] then [] else SamplesIn(ops[..|ops| - 1], m) + SampleOf(ops[|ops| - 1], m)
  }

  lemma DoAccounts(e: Edge, op: Op, m: MarketId)
    requires AllNotionals(e)
    ensures AllNotionals(Do(e, op)) && FundingOf(Do(e, op), m) == FundingOf(e, m) + SampleOf(op, m)
  {
    hide AllNotionals, PlaceOrder, CloseOut, Underwater, AdjustVault, Without, Find, IndexOf;
    assert FundingOf(e, m) + [] == FundingOf(e, m);
    match op
    case Place(users, ticket, fees) => PlaceNotionals(e, users, ticket, fees);
    case Liquidate(a, market, prices, ts) =>
      var list := PositionsOf(e, a);
      var i := IndexOf(list, market);
      if i < |list| && Underwater(e, a, list[i], prices) {
        UnderwaterPriced(e, a, list[i], prices);
        CloseNotionals(e, a, list[i], prices[market].mark, ts);
      }
    case Cancel(_, _) => SameNotionals(e, Do(e, op));
    case SetBalance(_, _) => SameNotionals(e, Do(e, op));
    case Seed(_, _) => SameNotionals(e, Do(e, op));
    case Adjust(a, delta) =>
      AdjustKeeps(e, a, delta);
      SameNotionals(e, Do(e, op));
    case RecordSample(_, _) => SameNotionals(e, Do(e, op));
  }

  /** A market's funding history grows by the samples recorded, in order, and by nothing else; and
      notionals stay right. */
  lemma {:induction false} FundingIsRecorded(start: Edge, ops: seq<Op>, m: MarketId)
    requires AllNotionals(start)
    ensures FundingOf(RunFrom(start, ops), m) == FundingOf(start, m) + SamplesIn(ops, m)
    ensures AllNotionals(RunFrom(start, ops))
  {
    hide Do, AllNotionals, FundingOf;
    if ops != [] {
      var n := |ops| - 1;
      FundingIsRecorded(start, ops[..n], m);
      DoAccounts(RunFrom(start, ops[..n]), ops[n], m);
    }
  }

  lemma ReopenNotionals(e: Edge, s: Snapshot, next: nat)
    requires Restores(e, s) && AllNotionals(e)
    ensures AllNotionals(Reopen(s, next))
  {
    hide NotionalOk, FundingRestored;
    var e' := Reopen(s, next);
    forall a, p | p in PositionsOf(e', a) ensures NotionalOk(p) {
      assert NotionalsOk(PositionsOf(e, a)) && PositionsOf(e', a) == At(s.positions, a);
      assert p in multiset(At(s.positions, a));
    }
  }

  lemma {:induction false} LifeNotionals(h: History, i: nat)
    requires Life(h) && i <= |h.sessions|
    ensures AllNotionals(h.edges[i])
  {
    hide Session, RunFrom, AllNotionals, Restores, Reopen;
    if i == 0 {
      NewNotionals();
    } else {
      LifeNotionals(h, i - 1);
      FundingIsRecorded(h.edges[i - 1], h.sessions[i - 1], 0);
      RestartEquivalence(h, i - 1);
      var e := RunFrom(h.edges[i - 1], h.sessions[i - 1]);
      ReopenNotionals(e, h.snaps[i - 1], e.nextId);
    }
  }

  lemma NewNotionals()
    ensures AllNotionals(NEW)
  {}

  /** Main result: in every state of every life the notional stored with a position is its size at its
      stored entry price, to within one unit of either. */
  lemma NotionalsFollow(h: History, i: nat, ops: seq<Op>, a: Address, p: EdgePosition)
    requires Life(h) && i <= |h.sessions| && p in PositionsOf(RunFrom(h.edges[i], ops), a)
    ensures NotionalOk(p)
  {
    hide Session, RunFrom, NotionalOk;
    LifeNotionals(h, i);
    FundingIsRecorded(h.edges[i], ops, 0);
    assert NotionalsOk(PositionsOf(RunFrom(h.edges[i], ops), a));
  }

  // ---- Single operations ---------------------------------------------------------------

  /** Seeding gives an account without a vault a hundred thousand dollars, if opted in, and changes no
      other balance; so a second seeding changes nothing. */
  lemma SeedsOnce(e: Edge, optedIn: bool, a: Address, b: Address)
    ensures var e' := SeedVault(e, optedIn, a);
            && VaultOf(e', b) == (if optedIn && a == b && a !in e.vaults then 100_000_000_000 else VaultOf(e, b))
            && SeedVault(e', optedIn, a) == e'
            && e' == e.(vaults := e'.vaults, log := e'.log)
  {}

  /** A cancel takes the one order of that id out of its user's list, and leaves everything else. */
  lemma CancelsOne(base: Store, e: Edge, a: Address, id: OrderId, b: Address)
    requires InStep(base, e, e.nextId, e.nextId)
    ensures var e', list := CancelOrder(e, a, id), ListOf(e.orders, a);
            var k := Find(list, id);
            && e' == e.(orders := e'.orders, log := e'.log)
            && (b != a ==> ListOf(e'.orders, b) == ListOf(e.orders, b))
            && ListOf(e'.orders, a) == (if k < |list| then list[..k] + list[k + 1..] else list)
            && e'.log == (if k < |list| then e.log + [DeleteOrder(id)] else e.log)
  {
    hide ReplayFrom, Without, Find, DistinctIds;
    assert OrdersAt(ListOf(e.orders, a), ReplayFrom(base, e.log).orders, a);
    WithoutOne(ListOf(e.orders, a), id);
  }

  lemma {:induction false} WithoutOne(list: seq<OpenOrder>, id: OrderId)
    requires DistinctIds(list)
    ensures var k := Find(list, id); Without(list, id) == if k < |list| then list[..k] + list[k + 1..] else list
  {
    hide DistinctIds;
    if list != [] {
      DistinctTail(list);
      if list[0].id == id {
        WithoutNone(list[1..], id);
        assert [] + Without(list[1..], id) == Without(list[1..], id);
      } else {
        WithoutOne(list[1..], id);
        FindCons(list, id);
      }
    }
  }

  lemma DistinctTail(list: seq<OpenOrder>)
    requires DistinctIds(list) && list != []
    ensures DistinctIds(list[1..]) && forall i | 0 <= i < |list| - 1 :: list[1..][i].id != list[0].id
  {
    forall i, j | 0 <= i < j < |list| - 1 ensures list[1..][i].id != list[1..][j].id { assert list[i + 1].id != list[j + 1].id; }
  }

  lemma FindCons(list: seq<OpenOrder>, id: OrderId)
    requires list != [] && list[0].id != id
    ensures var k, j := Find(list, id), Find(list[1..], id);
            k == j + 1 && (j < |list| - 1 ==> list[..k] + list[k + 1..] == [list[0]] + (list[1..][..j] + list[1..][j + 1..]))
  {}

  lemma {:induction false} WithoutNone(list: seq<OpenOrder>, id: OrderId)
    requires forall i | 0 <= i < |list| :: list[i].id != id
    ensures Without(list, id) == list
  {
    if list != [] { WithoutNone(list[1..], id); }
  }
}
