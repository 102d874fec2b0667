/**
 The public tape and the fill histories tell the same trades. Over every run, the lines put on the
 tape are, in order, the taker's and the liquidated accounts' fills, and the makers' fills are, in
 order, the other halves of the takers'.
 */
module EdgeTape {
  import opened OrderTypes
  import opened EdgeMatch
  import opened EdgePositions
  import opened EdgeState
  import opened Restart

  /** What was traded, seen from the side that took. */
  datatype Line = Line(market: MarketId, side: Side, price: real, qty: real, ts: nat)

  /** Which events to read: the tape, the fills that took or were forced, those that took, or those
      that made. */
  datatype Reading = OnTape | Active | Takers | Makers

  function LineOf(ev: Event, r: Reading): seq<Line> {
    match ev
    case InsertTrade(x) => if r == OnTape then [Line(x.market, x.side, x.price, x.qty, x.ts)] else []
    case InsertFill(_, f) =>
      if (r == Active && f.role != Maker) || (r == Takers && f.role == Taker) then [Line(f.market, f.side, f.price, f.qty, f.ts)]
      else if r == Makers && f.role == Maker then [Line(f.market, f.side.Opposite(), f.price, f.qty, f.ts)]
      else []
    case _ => []
  }

  /** The lines on the log, in order. */
  function Lines(log: seq<Event>, r: Reading): seq<Line> {
    if log == [] then [] else Lines(log[..|log| - 1], r) + LineOf(log[|log| - 1], r)
  }

  lemma LinesSnoc(log: seq<Event>, ev: Event, r: Reading)
    ensures Lines(log + [ev], r) == Lines(log, r) + LineOf(ev, r)
  {
    assert (log + [ev])[..|log|] == log;
  }

  lemma {:induction false} LinesSync(log: seq<Event>, orders: Orders, makers: seq<Address>, r: Reading)
    ensures Lines(log + SyncAll(orders, makers), r) == Lines(log, r)
  {
    hide Lines;
    if makers == [] {
      assert log + SyncAll(orders, makers) == log;
    } else {
      var n := |makers| - 1;
      LinesSync(log, orders, makers[..n], r);
      var before, ev := log + SyncAll(orders, makers[..n]), SyncOrders(makers[n], ListOf(orders, makers[n]));
      assert log + SyncAll(orders, makers) == before + [ev];
      LinesSnoc(before, ev, r);
    }
  }

  lemma AdjustLines(e: Edge, a: Address, delta: real, r: Reading)
    ensures Lines(AdjustVault(e, a, delta).log, r) == Lines(e.log, r)
  {
    hide Lines, ScaleUsdc;
    var next := VaultOf(e, a) + ScaleUsdc(delta);
    LinesSnoc(e.log, UpsertVault(a, if next < 0 then 0 else next), r);
  }

  lemma UpsertLines(e: Edge, a: Address, market: MarketId, side: Side, qty: real, price: real, r: Reading)
    ensures Lines(UpsertPosition(e, a, market, side, qty, price).log, r) == Lines(e.log, r)
  {
    hide Lines, FillList;
    LinesSnoc(e.log, SyncPositions(a, FillList(PositionsOf(e, a), market, side, qty, price)), r);
  }

  lemma FillLines(e: Edge, a: Address, f: FillInfo, r: Reading)
    ensures Lines(RecordFill(e, a, f).log, r) == Lines(e.log, r) + LineOf(InsertFill(a, f), r)
  {
    hide Lines, LineOf;
    LinesSnoc(e.log, InsertFill(a, f), r);
  }

  lemma TradeLines(e: Edge, x: PublicTrade, r: Reading)
    ensures Lines(RecordTrade(e, x).log, r) == Lines(e.log, r) + LineOf(InsertTrade(x), r)
  {
    hide Lines, LineOf;
    LinesSnoc(e.log, InsertTrade(x), r);
  }

  /** Each reading finds one line among the two fills and the trade of a match. */
  lemma OneLine(t: Ticket, n: nat, order: OrderId, x: Matched, fees: Fees, lines: seq<Line>, r: Reading)
    ensures lines + LineOf(InsertFill(t.user, TakerFill(t, n, order, x, fees)), r) + LineOf(InsertFill(x.maker, MakerFill(t, n + 1, x, fees)), r)
            + LineOf(InsertTrade(PublicTrade(n + 2, t.market, x.price, x.qty, t.side, t.ts)), r)
            == lines + [Line(t.market, t.side, x.price, x.qty, t.ts)]
  {
    hide Share, ScaleUsdc;
  }

  /** Every reading of the log gains the same one line from a match. */
  lemma SettleLines(e: Edge, t: Ticket, order: OrderId, x: Matched, fees: Fees, r: Reading)
    ensures Lines(SettleMatch(e, t, order, x, fees).log, r) == Lines(e.log, r) + [Line(t.market, t.side, x.price, x.qty, t.ts)]
  {
    hide Lines, LineOf, RecordFill, RecordTrade, AdjustVault, UpsertPosition, TakerFill, MakerFill, Share;
    var n := e.nextId;
    var tf, mf := TakerFill(t, n, order, x, fees), MakerFill(t, n + 1, x, fees);
    OneLine(t, n, order, x, fees, Lines(e.log, r), r);
    var e0 := e.(nextId := n + 3);
    FillLines(e0, t.user, tf, r);
    var e1 := RecordFill(e0, t.user, tf);
    FillLines(e1, x.maker, mf, r);
    var e2 := RecordFill(e1, x.maker, mf);
    AdjustLines(e2, t.user, -Share(x, fees.takerBps), r);
    var e3 := AdjustVault(e2, t.user, -Share(x, fees.takerBps));
    AdjustLines(e3, x.maker, Share(x, fees.rebateBps), r);
    var e4 := AdjustVault(e3, x.maker, Share(x, fees.rebateBps));
    var trade := PublicTrade(n + 2, t.market, x.price, x.qty, t.side, t.ts);
    TradeLines(e4, trade, r);
    var e5 := RecordTrade(e4, trade);
    UpsertLines(e5, t.user, t.market, t.side, x.qty, x.price, r);
    var e6 := UpsertPosition(e5, t.user, t.market, t.side, x.qty, x.price);
    UpsertLines(e6, x.maker, t.market, t.side.Opposite(), x.qty, x.price, r);
  }

  /** The tape agrees with the fills, and the makers' fills with the takers'. */
  predicate Agree(log: seq<Event>) {
    Lines(log, OnTape) == Lines(log, Active) && Lines(log, Takers) == Lines(log, Makers)
  }

  lemma {:induction false} SettleAllAgree(e: Edge, t: Ticket, order: OrderId, xs: seq<Matched>, fees: Fees)
    requires Agree(e.log)
    ensures Agree(SettleAll(e, t, order, xs, fees).log)
    decreases |xs|
  {
    hide SettleMatch, Lines;
    if xs != [] {
      forall r: Reading ensures Lines(SettleMatch(e, t, order, xs[0], fees).log, r) == Lines(e.log, r) + [Line(t.market, t.side, xs[0].price, xs[0].qty, t.ts)] {
        SettleLines(e, t, order, xs[0], fees, r);
      }
      SettleAllAgree(SettleMatch(e, t, order, xs[0], fees), t, order, xs[1..], fees);
    }
  }

  /** An event that carries no line. */
  lemma QuietEvent(log: seq<Event>, ev: Event)
    requires !ev.InsertTrade? && !ev.InsertFill?
    ensures Agree(log) ==> Agree(log + [ev])
  {
    hide Lines;
    forall r: Reading ensures Lines(log + [ev], r) == Lines(log, r) {
      LinesSnoc(log, ev, r);
      assert Lines(log, r) + [] == Lines(log, r);
    }
  }

  lemma PlaceAgree(e: Edge, users: seq<Address>, t: Ticket, fees: Fees)
    requires Agree(e.log)
    ensures Agree(PlaceOrder(e, users, t, fees).log)
  {
    hide Lines, Match, SettleAll, Collect, ProbeFrom, TotalQty, SyncAll, EdgeState.Makers;
    var id := e.nextId;
    var r := MatchTaker(e.(nextId := id + 1), users, RequestOf(t));
    forall k: Reading ensures Lines(r.edge.log, k) == Lines(e.log, k) { LinesSync(e.log, r.edge.orders, EdgeState.Makers([], r.fills), k); }
    SettleAllAgree(r.edge, t, id, r.fills, fees);
    var e2, remaining := SettleAll(r.edge, t, id, r.fills, fees), t.qty - TotalQty(r.fills);
    if remaining != 0.0 && t.limit.Some? { QuietEvent(e2.log, UpsertOrder(t.user, RestingOrder(t, id, remaining))); }
  }

  lemma CloseAgree(e: Edge, a: Address, p: EdgePosition, mark: real, ts: nat)
    requires Agree(e.log)
    ensures Agree(CloseOut(e, a, p, mark, ts).log)
  {
    hide Lines, Agree, Others, ClosePnl, Collateral, ScaleUsdc;
    var raw := Collateral(e, a) + ClosePnl(p, mark);
    var v := UpsertVault(a, ScaleUsdc(if raw < 0.0 then 0.0 else raw));
    var s := SyncPositions(a, Others(PositionsOf(e, a), p.market));
    QuietEvent(e.log, v);
    QuietEvent(e.log + [v], s);
    var f := FillInfo(e.nextId, None, p.market, p.side.Opposite(), mark, p.size, 0, Liquidation, ts);
    ForcedAgree(e.log + [v] + [s], a, f, PublicTrade(e.nextId + 1, p.market, mark, p.size, p.side.Opposite(), ts));
  }

  lemma ForcedAgree(log: seq<Event>, a: Address, f: FillInfo, x: PublicTrade)
    requires Agree(log) && f.role == Liquidation && Line(f.market, f.side, f.price, f.qty, f.ts) == Line(x.market, x.side, x.price, x.qty, x.ts)
    ensures Agree(log + [InsertFill(a, f)] + [InsertTrade(x)])
  {
    hide Lines;
    forall r: Reading
      ensures Lines(log + [InsertFill(a, f)] + [InsertTrade(x)], r) ==
              Lines(log, r) + if r == OnTape || r == Active then [Line(f.market, f.side, f.price, f.qty, f.ts)] else []
    {
      LinesSnoc(log, InsertFill(a, f), r);
      LinesSnoc(log + [InsertFill(a, f)], InsertTrade(x), r);
    }
  }

  lemma DoAgree(e: Edge, op: Op)
    requires Agree(e.log)
    ensures Agree(Do(e, op).log)
  {
    hide Agree, PlaceOrder, CloseOut, Underwater, ScaleUsdc, Without, Find, IndexOf;
    match op
    case Place(users, ticket, fees) => PlaceAgree(e, users, ticket, fees);
    case Cancel(a, id) => QuietEvent(e.log, DeleteOrder(id));
    case Liquidate(a, market, prices, ts) =>
      var list := PositionsOf(e, a);
      var i := IndexOf(list, market);
      if i < |list| && Underwater(e, a, list[i], prices) {
        UnderwaterPriced(e, a, list[i], prices);
        CloseAgree(e, a, list[i], prices[market].mark, ts);
      }
    case SetBalance(a, amount) => QuietEvent(e.log, UpsertVault(a, amount));
    case Seed(a, _) => QuietEvent(e.log, UpsertVault(a, DEV_SEED));
    case Adjust(a, delta) =>
      var next := VaultOf(e, a) + ScaleUsdc(delta);
      QuietEvent(e.log, UpsertVault(a, if next < 0 then 0 else next));
    case RecordSample(n, s) => QuietEvent(e.log, InsertFunding(n, s));
  }

  /** Main result: whatever a run does, the lines of the tape are in order the fills that took or were
      forced, and the makers' fills are in order those of the takers: same market, price, quantity
      and time, and the opposite side. */
  lemma {:induction false} TapeTellsFills(start: Edge, ops: seq<Op>)
    requires start.log == []
    ensures var log := RunFrom(start, ops).log;
            Lines(log, OnTape) == Lines(log, Active) && Lines(log, Takers) == Lines(log, Makers)
  {
    hide Do, Lines;
    if ops == [] {
      NoLines();
    } else {
      TapeTellsFills(start, ops[..|ops| - 1]);
      DoAgree(RunFrom(start, ops[..|ops| - 1]), ops[|ops| - 1]);
    }
  }

  lemma NoLines()
    ensures forall r :: Lines([], r) == []
  {}
}
