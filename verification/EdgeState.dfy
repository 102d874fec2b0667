/**
 The edge's state and everything that changes it: resting orders, positions, fill histories,
 vault balances and the public tape. Every change also puts an event on the persistence log.

 Each operation is a function on the value `Edge`; class `AppState` performs it in place.
 */
module EdgeState {
  import opened OrderTypes
  import opened EdgeMatch
  import opened EdgePositions
  import Margin

  datatype Role = Taker | Maker | Liquidation

  /** A forced close has no order behind it. */
  datatype FillInfo = FillInfo(
    id: nat,
    orderId: Option<OrderId>,
    market: MarketId,
    side: Side,
    price: real,
    qty: real,
    fee6: int,
    role: Role,
    ts: nat)

  datatype PublicTrade = PublicTrade(id: nat, market: MarketId, price: real, qty: real, side: Side, ts: nat)

  /** A funding rate and when it was sampled. */
  datatype Sample = Sample(ts: nat, rate: real)

  datatype Event =
    | UpsertOrder(address: Address, order: OpenOrder)
    | DeleteOrder(id: OrderId)
    | SyncOrders(address: Address, orders: seq<OpenOrder>)
    | InsertFill(address: Address, fill: FillInfo)
    | SyncPositions(address: Address, positions: seq<EdgePosition>)
    | UpsertVault(address: Address, amount: int)
    | InsertTrade(trade: PublicTrade)
    | InsertFunding(market: MarketId, sample: Sample)

  /** `nextId` stands for the source of never-repeating ids; amounts are in millionths. */
  datatype Edge = Edge(
    orders: Orders,
    positions: map<Address, seq<EdgePosition>>,
    fills: map<Address, seq<FillInfo>>,
    vaults: map<Address, int>,
    trades: map<MarketId, seq<PublicTrade>>,
    funding: map<MarketId, seq<Sample>>,
    nextId: nat,
    log: seq<Event>)

  const NEW := Edge(map[], map[], map[], map[], map[], map[], 0, [])

  function PositionsOf(e: Edge, a: Address): seq<EdgePosition> {
    if a in e.positions then e.positions[a] else []
  }

  function FillsOf(e: Edge, a: Address): seq<FillInfo> {
    if a in e.fills then e.fills[a] else []
  }

  function TradesOf(e: Edge, m: MarketId): seq<PublicTrade> {
    if m in e.trades then e.trades[m] else []
  }

  function FundingOf(e: Edge, m: MarketId): seq<Sample> {
    if m in e.funding then e.funding[m] else []
  }

  function VaultOf(e: Edge, a: Address): int {
    if a in e.vaults then e.vaults[a] else 0
  }

  // ---- Single changes ------------------------------------------------------------------

  function RecordFill(e: Edge, a: Address, fill: FillInfo): Edge {
    e.(fills := e.fills[a := FillsOf(e, a) + [fill]], log := e.log + [InsertFill(a, fill)])
  }

  function RecordTrade(e: Edge, t: PublicTrade): Edge {
    e.(trades := e.trades[t.market := TradesOf(e, t.market) + [t]], log := e.log + [InsertTrade(t)])
  }

  function RecordFunding(e: Edge, m: MarketId, s: Sample): Edge {
    e.(funding := e.funding[m := FundingOf(e, m) + [s]], log := e.log + [InsertFunding(m, s)])
  }

  function SetVault(e: Edge, a: Address, amount: int): Edge {
    e.(vaults := e.vaults[a := amount], log := e.log + [UpsertVault(a, amount)])
  }

  const DEV_SEED: int := 100_000_000_000

  /** Only where development seeding was opted into, and once per address. */
  function SeedVault(e: Edge, optedIn: bool, a: Address): Edge {
    if !optedIn || a in e.vaults then e else SetVault(e, a, DEV_SEED)
  }

  /** A fee may empty a vault but not overdraw it. */
  function AdjustVault(e: Edge, a: Address, delta: real): Edge {
    if delta == 0.0 then e else
    var next := VaultOf(e, a) + ScaleUsdc(delta);
    SetVault(e, a, if next < 0 then 0 else next)
  }

  function SetPositions(e: Edge, a: Address, list: seq<EdgePosition>): Edge {
    e.(positions := e.positions[a := list], log := e.log + [SyncPositions(a, list)])
  }

  function UpsertPosition(e: Edge, a: Address, market: MarketId, side: Side, qty: real, price: real): Edge {
    SetPositions(e, a, FillList(PositionsOf(e, a), market, side, qty, price))
  }

  function AddOpenOrder(e: Edge, a: Address, o: OpenOrder): Edge {
    e.(orders := e.orders[a := ListOf(e.orders, a) + [o]], log := e.log + [UpsertOrder(a, o)])
  }

  function CancelOrder(e: Edge, a: Address, id: OrderId): Edge {
    if Find(ListOf(e.orders, a), id) == |ListOf(e.orders, a)| then e
    else e.(orders := e.orders[a := Without(e.orders[a], id)], log := e.log + [DeleteOrder(id)])
  }

  // ---- Matching ------------------------------------------------------------------------

  /** Makers in order of first appearance. */
  function Makers(seen: seq<Address>, fills: seq<Matched>): seq<Address>
    decreases |fills|
  {
    if fills == [] then seen
    else Makers(if fills[0].maker in seen then seen else seen + [fills[0].maker], fills[1..])
  }

  function SyncAll(orders: Orders, makers: seq<Address>): seq<Event> {
    if makers == [] then [] else
    var n := |makers| - 1;
    SyncAll(orders, makers[..n]) + [SyncOrders(makers[n], ListOf(orders, makers[n]))]
  }

  datatype MatchResult = MatchResult(edge: Edge, fills: seq<Matched>)

  function MatchTaker(e: Edge, users: seq<Address>, req: Request): MatchResult {
    var r := Match(e.orders, users, req);
    MatchResult(e.(orders := r.orders, log := e.log + SyncAll(r.orders, Makers([], r.fills))), r.fills)
  }

  // ---- Placing an order ----------------------------------------------------------------

  /** `admitted` is the verdict of request validation and of the margin gate. */
  datatype Ticket = Ticket(
    user: Address,
    market: MarketId,
    side: Side,
    limit: Option<real>,
    qty: real,
    postOnly: bool,
    admitted: bool,
    ts: nat)

  datatype Fees = Fees(takerBps: int, rebateBps: int)

  function RequestOf(t: Ticket): Request {
    Request(t.market, t.side, t.limit, t.qty, t.user)
  }

  function Share(m: Matched, bps: int): real {
    m.qty * m.price * bps as real / 10000.0
  }

  function TakerFill(t: Ticket, id: nat, order: OrderId, m: Matched, fees: Fees): FillInfo {
    FillInfo(id, Some(order), t.market, t.side, m.price, m.qty, ScaleUsdc(Share(m, fees.takerBps)), Taker, t.ts)
  }

  function MakerFill(t: Ticket, id: nat, m: Matched, fees: Fees): FillInfo {
    FillInfo(id, Some(m.id), t.market, t.side.Opposite(), m.price, m.qty, ScaleUsdc(-Share(m, fees.rebateBps)), Maker, t.ts)
  }

  /** Book one match: a fill for either side, the fee and the rebate, the tape, both positions. */
  function SettleMatch(e: Edge, t: Ticket, order: OrderId, m: Matched, fees: Fees): Edge {
    var e1 := RecordFill(e.(nextId := e.nextId + 3), t.user, TakerFill(t, e.nextId, order, m, fees));
    var e2 := RecordFill(e1, m.maker, MakerFill(t, e.nextId + 1, m, fees));
    var e3 := AdjustVault(e2, t.user, -Share(m, fees.takerBps));
    var e4 := AdjustVault(e3, m.maker, Share(m, fees.rebateBps));
    var e5 := RecordTrade(e4, PublicTrade(e.nextId + 2, t.market, m.price, m.qty, t.side, t.ts));
    var e6 := UpsertPosition(e5, t.user, t.market, t.side, m.qty, m.price);
    UpsertPosition(e6, m.maker, t.market, t.side.Opposite(), m.qty, m.price)
  }

  function SettleAll(e: Edge, t: Ticket, order: OrderId, matches: seq<Matched>, fees: Fees): Edge
    decreases |matches|
  {
    if matches == [] then e else SettleAll(SettleMatch(e, t, order, matches[0], fees), t, order, matches[1..], fees)
  }

  function RestingOrder(t: Ticket, id: OrderId, remaining: real): OpenOrder
    requires t.limit.Some?
  {
    OpenOrder(id, t.market, t.side, Limit, t.limit.value, t.qty, remaining, t.ts)
  }

  /** Whatever the time in force, an unfilled limit remainder rests. */
  function RestRemainder(e: Edge, t: Ticket, id: OrderId, remaining: real): Edge {
    if remaining == 0.0 || t.limit == None then e else AddOpenOrder(e, t.user, RestingOrder(t, id, remaining))
  }

  function PlaceOrder(e: Edge, users: seq<Address>, t: Ticket, fees: Fees): Edge {
    if !t.admitted || t.qty == 0.0 then e else
    var id, req := e.nextId, RequestOf(t);
    var e1 := e.(nextId := id + 1);
    if t.postOnly && ProbeFrom(Collect(e.orders, users, req), t.qty) > 0.0 then e1 else
    var r := MatchTaker(e1, users, req);
    var e2 := SettleAll(r.edge, t, id, r.fills, fees);
    RestRemainder(e2, t, id, t.qty - TotalQty(r.fills))
  }

  // ---- Liquidation ---------------------------------------------------------------------

  /** What is known about a market: the mark price and the maintenance ratio. */
  datatype MarketView = MarketView(mark: real, mmBps: nat)

  type Prices = map<MarketId, MarketView>

  function Core(p: EdgePosition): Margin.Position {
    Margin.Position(Signed(p.side, p.size), Unscale(p.entryX18))
  }

  function Collateral(e: Edge, a: Address): real {
    VaultOf(e, a) as real / USDC
  }

  /** `None` when the position cannot be priced. */
  function PositionHealth(e: Edge, a: Address, p: EdgePosition, prices: Prices): Option<real> {
    if p.size == 0.0 || p.market !in prices then None
    else Margin.Health(Core(p), prices[p.market].mark, Collateral(e, a), prices[p.market].mmBps)
  }

  predicate Underwater(e: Edge, a: Address, p: EdgePosition, prices: Prices) {
    var h := PositionHealth(e, a, p, prices);
    h.Some? && h.value < 1.0
  }

  function ClosePnl(p: EdgePosition, mark: real): real {
    if p.side == Buy then p.size * (mark - Unscale(p.entryX18)) else p.size * (Unscale(p.entryX18) - mark)
  }

  function Others(list: seq<EdgePosition>, market: MarketId): seq<EdgePosition> {
    if list == [] then [] else (if list[0].market == market then [] else [list[0]]) + Others(list[1..], market)
  }

  /** Close at mark, settle into the vault (never below zero), and record it. */
  function CloseOut(e: Edge, a: Address, p: EdgePosition, mark: real, ts: nat): Edge {
    var raw := Collateral(e, a) + ClosePnl(p, mark);
    var e1 := SetVault(e.(nextId := e.nextId + 2), a, ScaleUsdc(if raw < 0.0 then 0.0 else raw));
    var e2 := SetPositions(e1, a, Others(PositionsOf(e, a), p.market));
    var e3 := RecordFill(e2, a, FillInfo(e.nextId, None, p.market, p.side.Opposite(), mark, p.size, 0, Liquidation, ts));
    RecordTrade(e3, PublicTrade(e.nextId + 1, p.market, mark, p.size, p.side.Opposite(), ts))
  }

  function LiquidatePosition(e: Edge, a: Address, market: MarketId, prices: Prices, ts: nat): Edge {
    var list := PositionsOf(e, a);
    var i := IndexOf(list, market);
    if i == |list| || !Underwater(e, a, list[i], prices) then e
    else CloseOut(e, a, list[i], prices[market].mark, ts)
  }

  // ---- Starting from stored state ------------------------------------------------------

  datatype Snapshot = Snapshot(
    orders: Orders,
    positions: map<Address, seq<EdgePosition>>,
    fills: map<Address, seq<FillInfo>>,
    vaults: map<Address, int>,
    trades: map<MarketId, seq<PublicTrade>>,
    funding: map<MarketId, seq<Sample>>)

  /** Ids never repeat, not even across a restart. */
  function Reopen(s: Snapshot, nextId: nat): Edge {
    Edge(s.orders, s.positions, s.fills, s.vaults, s.trades, s.funding, nextId, [])
  }

  // ---- In place ------------------------------------------------------------------------

  class AppState {
    var orders: Orders
    var positions: map<Address, seq<EdgePosition>>
    var fills: map<Address, seq<FillInfo>>
    var vaults: map<Address, int>
    var trades: map<MarketId, seq<PublicTrade>>
    var funding: map<MarketId, seq<Sample>>
    var nextId: nat
    var log: seq<Event>
    const devSeedVault: bool

    ghost function View(): Edge
      reads this
    {
      Edge(orders, positions, fills, vaults, trades, funding, nextId, log)
    }

    constructor (devSeedVault: bool)
      ensures View() == NEW && this.devSeedVault == devSeedVault
    {
      orders, positions, fills, vaults, trades, funding := map[], map[], map[], map[], map[], map[];
      nextId, log := 0, [];
      this.devSeedVault := devSeedVault;
    }

    /** Start from what was loaded at boot; nothing is on the channel yet. */
    constructor FromSnapshot(snap: Snapshot, nextId: nat, devSeedVault: bool)
      ensures View() == Reopen(snap, nextId) && this.devSeedVault == devSeedVault
    {
      orders, positions, fills, vaults := snap.orders, snap.positions, snap.fills, snap.vaults;
      trades, funding := snap.trades, snap.funding;
      this.nextId, log := nextId, [];
      this.devSeedVault := devSeedVault;
    }

    method AppendFill(a: Address, fill: FillInfo)
      modifies this
      ensures View() == RecordFill(old(View()), a, fill)
    {
      log := log + [InsertFill(a, fill)];
      if a !in fills {
        fills := fills[a := []];
      }
      fills := fills[a := fills[a] + [fill]];
    }

    method AppendTrade(t: PublicTrade)
      modifies this
      ensures View() == RecordTrade(old(View()), t)
    {
      log := log + [InsertTrade(t)];
      if t.market !in trades {
        trades := trades[t.market := []];
      }
      trades := trades[t.market := trades[t.market] + [t]];
    }

    method AppendFunding(m: MarketId, s: Sample)
      modifies this
      ensures View() == RecordFunding(old(View()), m, s)
    {
      log := log + [InsertFunding(m, s)];
      if m !in funding {
        funding := funding[m := []];
      }
      funding := funding[m := funding[m] + [s]];
    }

    method StoreVault(a: Address, amount: int)
      modifies this
      ensures View() == SetVault(old(View()), a, amount)
    {
      log := log + [UpsertVault(a, amount)];
      vaults := vaults[a := amount];
    }

    method SeedDevVault(a: Address)
      modifies this
      ensures View() == SeedVault(old(View()), devSeedVault, a)
    {
      if !devSeedVault {
        return;
      }
      if a !in vaults {
        vaults := vaults[a := DEV_SEED];
        log := log + [UpsertVault(a, DEV_SEED)];
      }
    }

    method MoveVault(a: Address, delta: real)
      modifies this
      ensures View() == AdjustVault(old(View()), a, delta)
    {
      hide ScaleUsdc;
      if delta == 0.0 {
        return;
      }
      var current := if a in vaults then vaults[a] else 0;
      var next := current + ScaleUsdc(delta);
      if next < 0 {
        next := 0;
      }
      StoreVault(a, next);
    }

    /** Find the position and open, add, reduce, close or flip it. */
    method ApplyPositionFill(a: Address, market: MarketId, side: Side, qty: real, price: real)
      modifies this`positions
      ensures positions == old(positions)[a := FillList(PositionsOf(old(View()), a), market, side, qty, price)]
    {
      hide ScaleX18, Notional6, Unscale, Average;
      var list := if a in positions then positions[a] else [];
      var i := IndexOf(list, market);
      if i == |list| {
        positions := positions[a := list + [EdgePosition(market, side, qty, ScaleX18(price), Notional6(qty, price))]];
        return;
      }
      var p := list[i];
      var entry := Unscale(p.entryX18);
      if p.side == side {
        var size := p.size + qty;
        var entry' := price;
        if size != 0.0 {
          entry' := Average(p.size, entry, qty, price);
        }
        p := p.(size := size, entryX18 := ScaleX18(entry'), notional6 := Notional6(size, entry'));
        assert p == Added(list[i], qty, price);
        positions := positions[a := list[i := p]];
        return;
      }
      if qty < p.size {
        var size := p.size - qty;
        p := p.(size := size, notional6 := Notional6(size, entry));
        positions := positions[a := list[i := p]];
        return;
      }
      if qty == p.size {
        positions := positions[a := list[..i] + list[i + 1..]];
        return;
      }
      var overflow := qty - p.size;
      p := p.(side := side, size := overflow, entryX18 := ScaleX18(price), notional6 := Notional6(overflow, price));
      positions := positions[a := list[i := p]];
    }

    method MovePosition(a: Address, market: MarketId, side: Side, qty: real, price: real)
      modifies this
      ensures View() == UpsertPosition(old(View()), a, market, side, qty, price)
    {
      hide FillList;
      ApplyPositionFill(a, market, side, qty, price);
      log := log + [SyncPositions(a, positions[a])];
    }

    method StorePositions(a: Address, list: seq<EdgePosition>)
      modifies this
      ensures View() == SetPositions(old(View()), a, list)
    {
      log := log + [SyncPositions(a, list)];
      positions := positions[a := list];
    }

    method Rest(a: Address, o: OpenOrder)
      modifies this
      ensures View() == AddOpenOrder(old(View()), a, o)
    {
      log := log + [UpsertOrder(a, o)];
      if a !in orders {
        orders := orders[a := []];
      }
      orders := orders[a := orders[a] + [o]];
    }

    method Cancel(a: Address, id: OrderId) returns (changed: bool)
      modifies this
      ensures View() == CancelOrder(old(View()), a, id)
      ensures changed == (Find(ListOf(old(orders), a), id) < |ListOf(old(orders), a)|)
    {
      if a !in orders {
        return false;
      }
      WithoutFound(orders[a], id);
      var kept := Without(orders[a], id);
      changed := |kept| != |orders[a]|;
      if changed {
        orders := orders[a := kept];
        log := log + [DeleteOrder(id)];
      }
    }

    method CrossTaker(users: seq<Address>, req: Request) returns (matches: seq<Matched>)
      modifies this
      ensures MatchResult(View(), matches) == MatchTaker(old(View()), users, req)
    {
      hide Collect, Sort, Commit, Reap, SyncAll, Makers;
      var candidates := CollectCandidates(orders, users, req);
      var after, fills', left := CommitMatches(orders, Sort(req.side.Opposite(), candidates), req.qty);
      orders := Reap(after, req.market);
      matches := fills';
      var seen := SeenMakers(matches);
      var events := SyncEvents(orders, seen);
      log := log + events;
    }

    method SettleOne(t: Ticket, order: OrderId, m: Matched, fees: Fees)
      modifies this
      ensures View() == SettleMatch(old(View()), t, order, m, fees)
    {
      hide RecordFill, RecordTrade, AdjustVault, UpsertPosition, TakerFill, MakerFill, Share;
      var id := nextId;
      nextId := nextId + 3;
      AppendFill(t.user, TakerFill(t, id, order, m, fees));
      AppendFill(m.maker, MakerFill(t, id + 1, m, fees));
      MoveVault(t.user, -Share(m, fees.takerBps));
      MoveVault(m.maker, Share(m, fees.rebateBps));
      AppendTrade(PublicTrade(id + 2, t.market, m.price, m.qty, t.side, t.ts));
      MovePosition(t.user, t.market, t.side, m.qty, m.price);
      MovePosition(m.maker, t.market, t.side.Opposite(), m.qty, m.price);
    }

    method Place(users: seq<Address>, t: Ticket, fees: Fees)
      modifies this
      ensures View() == PlaceOrder(old(View()), users, t, fees)
    {
      hide Collect, ProbeFrom, MatchTaker, SettleMatch, AddOpenOrder, TotalQty;
      if !t.admitted || t.qty == 0.0 {
        return;
      }
      var id, req := nextId, RequestOf(t);
      nextId := nextId + 1;
      if t.postOnly {
        var probe := Probe(orders, users, req);
        if probe > 0.0 {
          return;
        }
      }
      var matches := CrossTaker(users, req);
      ghost var crossed := View();
      var i := 0;
      assert matches[0..] == matches;
      while i < |matches|
        invariant i <= |matches|
        invariant SettleAll(View(), t, id, matches[i..], fees) == SettleAll(crossed, t, id, matches, fees)
      {
        assert matches[i..][0] == matches[i] && matches[i..][1..] == matches[i + 1..];
        SettleOne(t, id, matches[i], fees);
        i := i + 1;
      }
      assert matches[i..] == [];
      var remaining := t.qty - TotalQty(matches);
      if remaining != 0.0 && t.limit.Some? {
        Rest(t.user, RestingOrder(t, id, remaining));
      }
    }

    method HealthOf(a: Address, p: EdgePosition, prices: Prices) returns (health: Option<real>)
      ensures health == PositionHealth(View(), a, p, prices)
    {
      hide Margin.Health;
      if p.size == 0.0 || p.market !in prices {
        return None;
      }
      var m := prices[p.market];
      var collateral := (if a in vaults then vaults[a] else 0) as real / USDC;
      health := Margin.Health(Core(p), m.mark, collateral, m.mmBps);
    }

    method Liquidate(a: Address, market: MarketId, prices: Prices, ts: nat) returns (closed: bool)
      modifies this
      ensures View() == LiquidatePosition(old(View()), a, market, prices, ts)
      ensures var list := PositionsOf(old(View()), a);
              closed == (IndexOf(list, market) < |list| && Underwater(old(View()), a, list[IndexOf(list, market)], prices))
    {
      hide PositionHealth, ScaleUsdc, ClosePnl, Others, RecordFill, RecordTrade, SetVault, SetPositions;
      var list := if a in positions then positions[a] else [];
      var i := IndexOf(list, market);
      if i == |list| {
        return false;
      }
      var p := list[i];
      var health := HealthOf(a, p, prices);
      if health == None || health.value >= 1.0 {
        return false;
      }
      PricedMarket(View(), a, p, prices);
      var mark := prices[market].mark;
      var collateral := (if a in vaults then vaults[a] else 0) as real / USDC;
      var raw := collateral + ClosePnl(p, mark);
      var id := nextId;
      nextId := nextId + 2;
      StoreVault(a, ScaleUsdc(if raw < 0.0 then 0.0 else raw));
      StorePositions(a, Others(list, market));
      AppendFill(a, FillInfo(id, None, market, p.side.Opposite(), mark, p.size, 0, Liquidation, ts));
      AppendTrade(PublicTrade(id + 1, market, mark, p.size, p.side.Opposite(), ts));
      closed := true;
    }
  }

  lemma PricedMarket(e: Edge, a: Address, p: EdgePosition, prices: Prices)
    requires PositionHealth(e, a, p, prices).Some?
    ensures p.market in prices
  {}

  lemma {:induction false} WithoutFound(list: seq<OpenOrder>, id: OrderId)
    ensures |Without(list, id)| <= |list| && (|Without(list, id)| == |list|) == (Find(list, id) == |list|)
  {
    if list != [] { WithoutFound(list[1..], id); }
  }

  method SeenMakers(matches: seq<Matched>) returns (seen: seq<Address>)
    ensures seen == Makers([], matches)
  {
    seen := [];
    var i := 0;
    assert matches[0..] == matches;
    while i < |matches|
      invariant i <= |matches| && Makers(seen, matches[i..]) == Makers([], matches)
    {
      assert matches[i..][0] == matches[i] && matches[i..][1..] == matches[i + 1..];
      if matches[i].maker !in seen {
        seen := seen + [matches[i].maker];
      }
      i := i + 1;
    }
    assert matches[i..] == [];
  }

  method SyncEvents(orders: Orders, makers: seq<Address>) returns (events: seq<Event>)
    ensures events == SyncAll(orders, makers)
  {
    events := [];
    for i := 0 to |makers|
      invariant events == SyncAll(orders, makers[..i])
    {
      assert makers[..i + 1][..i] == makers[..i];
      events := events + [SyncOrders(makers[i], ListOf(orders, makers[i]))];
    }
    assert makers[..|makers|] == makers;
  }
}
