/**
 Where the edge's open orders come from. What one request leaves resting is told from its own
 fields, and in every state of every life each open order is some admitted request of its owner,
 less exactly the fills recorded under its id.
 */
module EdgeOrders {
  import opened OrderTypes
  import opened EdgeMatch
  import opened EdgePositions
  import opened EdgeState
  import opened Persistence
  import opened Restart
  import opened Reload
  import MatchFrame
  import TidyRuns

  // ---- One request ---------------------------------------------------------------------

  /** The request goes on to be matched. */
  predicate Matches(e: Edge, users: seq<Address>, t: Ticket) {
    t.admitted && t.qty != 0.0 && !(t.postOnly && ProbeFrom(Collect(e.orders, users, RequestOf(t)), t.qty) > 0.0)
  }

  /** What a request does to the open orders. One that is not matched leaves them alone. One that is
      leaves whatever its limit has not filled at the end of its user's list, with the request's own
      market, side, price, quantity and time; without a limit, or filled, it leaves nothing more. */
  lemma RestsAtEdge(e: Edge, users: seq<Address>, t: Ticket, fees: Fees, a: Address)
    ensures var e' := PlaceOrder(e, users, t, fees);
            var r := Match(e.orders, users, Request(t.market, t.side, t.limit, t.qty, t.user));
            var left := t.qty - TotalQty(r.fills);
            if !Matches(e, users, t) then e' == e.(nextId := e'.nextId)
            else ListOf(e'.orders, a) == ListOf(r.orders, a) +
                 if a == t.user && t.limit.Some? && left != 0.0
                 then [OpenOrder(e.nextId, t.market, t.side, Limit, t.limit.value, t.qty, left, t.ts)] else []
  {
    hide Match, SettleAll, Collect, ProbeFrom, TotalQty, SyncAll, Makers;
    if Matches(e, users, t) {
      var r := MatchTaker(e.(nextId := e.nextId + 1), users, RequestOf(t));
      TidyRuns.SettleKeepsOrders(r.edge, t, e.nextId, r.fills, fees);
    }
  }

  // ---- Quantities taken and booked -----------------------------------------------------

  /** Quantity of the fills recorded under order `id`. */
  function FilledFor(fills: seq<FillInfo>, id: OrderId): real {
    if fills == [] then 0.0 else
    var f := fills[|fills| - 1];
    FilledFor(fills[..|fills| - 1], id) + if f.orderId == Some(id) then f.qty else 0.0
  }

  /** Quantity matched against order `id` of `a`. */
  function TakenFrom(ms: seq<Matched>, a: Address, id: OrderId): real {
    if ms == [] then 0.0 else
    var m := ms[|ms| - 1];
    TakenFrom(ms[..|ms| - 1], a, id) + if m.maker == a && m.id == id then m.qty else 0.0
  }

  lemma FilledSnoc(fills: seq<FillInfo>, f: FillInfo, id: OrderId)
    ensures FilledFor(fills + [f], id) == FilledFor(fills, id) + if f.orderId == Some(id) then f.qty else 0.0
  {
    assert (fills + [f])[..|fills|] == fills;
  }

  lemma TakenSnoc(ms: seq<Matched>, m: Matched, a: Address, id: OrderId)
    ensures TakenFrom(ms + [m], a, id) == TakenFrom(ms, a, id) + if m.maker == a && m.id == id then m.qty else 0.0
  {
    assert (ms + [m])[..|ms|] == ms;
  }

  // ---- Matching takes what it reports --------------------------------------------------

  /** `o'` is `o` less what is matched against it in `ms` beyond `before`. */
  predicate Lowered(o: OpenOrder, o': OpenOrder, a: Address, before: seq<Matched>, ms: seq<Matched>) {
    o' == o.(remaining := o.remaining + TakenFrom(before, a, o.id) - TakenFrom(ms, a, o.id))
  }

  predicate AllLowered(x: seq<OpenOrder>, y: seq<OpenOrder>, a: Address, before: seq<Matched>, ms: seq<Matched>) {
    |x| == |y| && forall i | 0 <= i < |x| :: Lowered(x[i], y[i], a, before, ms)
  }

  lemma ReduceLowers(orders: Orders, c: Candidate, qty: real, a: Address, fills: seq<Matched>)
    requires Find(ListOf(orders, c.maker), c.id) < |ListOf(orders, c.maker)| && DistinctIds(ListOf(orders, a))
    ensures AllLowered(ListOf(orders, a), ListOf(Reduce(orders, c.maker, c.id, qty), a), a, fills, fills + [Matched(c.maker, c.id, c.price, qty)])
    ensures DistinctIds(ListOf(Reduce(orders, c.maker, c.id, qty), a))
  {
    hide Find, TakenFrom;
    var x, y, m := ListOf(orders, a), ListOf(Reduce(orders, c.maker, c.id, qty), a), Matched(c.maker, c.id, c.price, qty);
    forall i | 0 <= i < |x| ensures Lowered(x[i], y[i], a, fills, fills + [m]) { TakenSnoc(fills, m, a, x[i].id); }
  }

  lemma LoweredTrans(x: seq<OpenOrder>, y: seq<OpenOrder>, z: seq<OpenOrder>, a: Address, f: seq<Matched>, g: seq<Matched>, h: seq<Matched>)
    requires AllLowered(x, y, a, f, g) && AllLowered(y, z, a, g, h)
    ensures AllLowered(x, z, a, f, h)
  {
    hide TakenFrom;
    forall i | 0 <= i < |x| ensures Lowered(x[i], z[i], a, f, h) { assert Lowered(x[i], y[i], a, f, g) && Lowered(y[i], z[i], a, g, h); }
  }

  lemma LoweredSelf(x: seq<OpenOrder>, a: Address, f: seq<Matched>)
    ensures AllLowered(x, x, a, f, f)
  {}

  lemma {:induction false} CommitLowers(orders: Orders, cs: seq<Candidate>, left: real, fills: seq<Matched>, a: Address)
    requires DistinctIds(ListOf(orders, a))
    ensures var r := Commit(orders, cs, left, fills); AllLowered(ListOf(orders, a), ListOf(r.orders, a), a, fills, r.fills)
    decreases |cs|
  {
    hide ListOf, Reduce, Remains, AllLowered, DistinctIds;
    if cs == [] || left == 0.0 {
      LoweredSelf(ListOf(orders, a), a, fills);
    } else {
      var c := cs[0];
      var there := Remains(orders, c.maker, c.id);
      if there == 0.0 {
        CommitLowers(orders, cs[1..], left, fills, a);
      } else {
        var qty := Min(left, there);
        MatchFrame.IsThere(orders, c);
        var orders', fills' := Reduce(orders, c.maker, c.id, qty), fills + [Matched(c.maker, c.id, c.price, qty)];
        ReduceLowers(orders, c, qty, a, fills);
        CommitLowers(orders', cs[1..], left - qty, fills', a);
        var r := Commit(orders', cs[1..], left - qty, fills');
        LoweredTrans(ListOf(orders, a), ListOf(orders', a), ListOf(r.orders, a), a, fills, fills', r.fills);
      }
    }
  }

  /** All ids of open orders are below `k`. */
  ghost predicate IdsBelow(orders: Orders, k: nat) {
    forall a :: ListBelow(ListOf(orders, a), k)
  }

  predicate ListBelow(list: seq<OpenOrder>, k: nat) {
    forall i | 0 <= i < |list| :: list[i].id < k
  }

  lemma ReduceBelow(orders: Orders, c: Candidate, qty: real, k: nat)
    requires Find(ListOf(orders, c.maker), c.id) < |ListOf(orders, c.maker)| && IdsBelow(orders, k)
    ensures IdsBelow(Reduce(orders, c.maker, c.id, qty), k) && c.id < k
  {
    hide Find;
    var orders' := Reduce(orders, c.maker, c.id, qty);
    assert ListBelow(ListOf(orders, c.maker), k);
    forall a ensures ListBelow(ListOf(orders', a), k) { assert ListBelow(ListOf(orders, a), k); }
  }

  predicate NamedBelow(ms: seq<Matched>, k: nat) {
    forall i | 0 <= i < |ms| :: ms[i].id < k
  }

  lemma NamedSnoc(ms: seq<Matched>, m: Matched, k: nat)
    requires NamedBelow(ms, k) && m.id < k
    ensures NamedBelow(ms + [m], k)
  {}

  lemma {:induction false} CommitNames(orders: Orders, cs: seq<Candidate>, left: real, fills: seq<Matched>, k: nat)
    requires IdsBelow(orders, k) && NamedBelow(fills, k)
    ensures NamedBelow(Commit(orders, cs, left, fills).fills, k)
    decreases |cs|
  {
    hide ListOf, Reduce, Remains, IdsBelow, NamedBelow;
    if cs != [] && left != 0.0 {
      var c := cs[0];
      var there := Remains(orders, c.maker, c.id);
      if there == 0.0 {
        CommitNames(orders, cs[1..], left, fills, k);
      } else {
        var qty := Min(left, there);
        MatchFrame.IsThere(orders, c);
        ReduceBelow(orders, c, qty, k);
        NamedSnoc(fills, Matched(c.maker, c.id, c.price, qty), k);
        CommitNames(Reduce(orders, c.maker, c.id, qty), cs[1..], left - qty, fills + [Matched(c.maker, c.id, c.price, qty)], k);
      }
    }
  }

  lemma {:induction false} TakenNone(ms: seq<Matched>, a: Address, id: OrderId)
    requires NamedBelow(ms, id)
    ensures TakenFrom(ms, a, id) == 0.0
  {
    if ms != [] { TakenNone(ms[..|ms| - 1], a, id); }
  }

  /** Every order left by a match is one that was there, less what the match reports against it. */
  lemma MatchLowers(orders: Orders, users: seq<Address>, req: Request, a: Address, o': OpenOrder) returns (o: OpenOrder)
    requires DistinctIds(ListOf(orders, a)) && o' in ListOf(Match(orders, users, req).orders, a)
    ensures o in ListOf(orders, a) && o' == o.(remaining := o.remaining - TakenFrom(Match(orders, users, req).fills, a, o.id))
  {
    hide Commit, Sort, Collect, DistinctIds, TakenFrom, ReapList;
    var cs := Sort(req.side.Opposite(), Collect(orders, users, req));
    CommitLowers(orders, cs, req.qty, [], a);
    var r := Commit(orders, cs, req.qty, []);
    var list, mid := ListOf(orders, a), ListOf(r.orders, a);
    MatchFrame.ReapKeepsOnly(mid, req.market);
    assert o' in mid;
    var i :| 0 <= i < |mid| && mid[i] == o';
    o := list[i];
    assert Lowered(list[i], mid[i], a, [], r.fills);
    NothingTaken(a, o.id);
  }

  lemma NothingTaken(a: Address, id: OrderId)
    ensures TakenFrom([], a, id) == 0.0
  {}

  // ---- Settling books what was matched -------------------------------------------------

  /** The fee of a match in millionths: quantity times price at `bps` basis points, cut to a whole number. */
  function Fee6(qty: real, price: real, bps: int): int {
    Trunc(qty * price * bps as real / 10000.0 * 1000000.0)
  }

  /** What settling one match records: a fill for the taker under its order, one for the maker under
      the order it matched, at that order's price, and one line on the tape. */
  lemma SettleRecords(e: Edge, t: Ticket, order: OrderId, x: Matched, fees: Fees, a: Address, m: MarketId)
    ensures var e' := SettleMatch(e, t, order, x, fees);
            && FillsOf(e', a) == FillsOf(e, a)
               + (if a == t.user then [FillInfo(e.nextId, Some(order), t.market, t.side, x.price, x.qty, Fee6(x.qty, x.price, fees.takerBps), Taker, t.ts)] else [])
               + (if a == x.maker then [FillInfo(e.nextId + 1, Some(x.id), t.market, t.side.Opposite(), x.price, x.qty, -Fee6(x.qty, x.price, fees.rebateBps), Maker, t.ts)] else [])
            && TradesOf(e', m) == TradesOf(e, m)
               + (if m == t.market then [PublicTrade(e.nextId + 2, t.market, x.price, x.qty, t.side, t.ts)] else [])
  {
    hide AdjustVault, FillList, TakerFill, MakerFill, Share, Fee6;
    FillFields(t, e.nextId, order, x, fees);
    BookBoth(e.(nextId := e.nextId + 3), t.user, TakerFill(t, e.nextId, order, x, fees), -Share(x, fees.takerBps),
             x.maker, MakerFill(t, e.nextId + 1, x, fees), Share(x, fees.rebateBps), a);
  }

  lemma BookBoth(e: Edge, taker: Address, tf: FillInfo, charge: real, maker: Address, mf: FillInfo, rebate: real, a: Address)
    ensures var e' := AdjustVault(AdjustVault(RecordFill(RecordFill(e, taker, tf), maker, mf), taker, charge), maker, rebate);
            && FillsOf(e', a) == FillsOf(e, a) + (if a == taker then [tf] else []) + (if a == maker then [mf] else [])
            && e'.trades == e.trades
  {
    hide AdjustVault;
    var e2 := RecordFill(RecordFill(e, taker, tf), maker, mf);
    AdjustFrame(e2, taker, charge);
    AdjustFrame(AdjustVault(e2, taker, charge), maker, rebate);
  }

  lemma AdjustFrame(e: Edge, a: Address, delta: real)
    ensures var e' := AdjustVault(e, a, delta); e'.fills == e.fills && e'.trades == e.trades && e'.orders == e.orders && e'.nextId == e.nextId
  {
    hide ScaleUsdc;
  }

  lemma FillFields(t: Ticket, n: nat, order: OrderId, x: Matched, fees: Fees)
    ensures TakerFill(t, n, order, x, fees) ==
            FillInfo(n, Some(order), t.market, t.side, x.price, x.qty, Fee6(x.qty, x.price, fees.takerBps), Taker, t.ts)
    ensures MakerFill(t, n + 1, x, fees) ==
            FillInfo(n + 1, Some(x.id), t.market, t.side.Opposite(), x.price, x.qty, -Fee6(x.qty, x.price, fees.rebateBps), Maker, t.ts)
  {
    ShareScaled(x, fees.takerBps);
    ShareScaled(x, fees.rebateBps);
  }

  lemma ShareScaled(x: Matched, bps: int)
    ensures ScaleUsdc(Share(x, bps)) == Fee6(x.qty, x.price, bps) && ScaleUsdc(-Share(x, bps)) == -Fee6(x.qty, x.price, bps)
  {
    var s := Share(x, bps);
    assert -s * USDC == -(s * USDC);
  }

  lemma {:induction false} SettleSnoc(e: Edge, t: Ticket, order: OrderId, ms: seq<Matched>, m: Matched, fees: Fees)
    ensures SettleAll(e, t, order, ms + [m], fees) == SettleMatch(SettleAll(e, t, order, ms, fees), t, order, m, fees)
    decreases |ms|
  {
    hide SettleMatch;
    if ms == [] {
      assert ms + [m] == [m] && [m][1..] == [];
    } else {
      assert (ms + [m])[1..] == ms[1..] + [m];
      SettleSnoc(SettleMatch(e, t, order, ms[0], fees), t, order, ms[1..], m, fees);
    }
  }

  lemma SettleFills(e: Edge, t: Ticket, order: OrderId, x: Matched, fees: Fees, a: Address, id: OrderId)
    ensures FilledFor(FillsOf(SettleMatch(e, t, order, x, fees), a), id) == FilledFor(FillsOf(e, a), id)
            + (if a == t.user && id == order then x.qty else 0.0) + (if a == x.maker && id == x.id then x.qty else 0.0)
  {
    hide SettleMatch, FilledFor, FillsOf, Fee6;
    SettleRecords(e, t, order, x, fees, a, t.market);
    var fills := FillsOf(e, a);
    var tf := FillInfo(e.nextId, Some(order), t.market, t.side, x.price, x.qty, Fee6(x.qty, x.price, fees.takerBps), Taker, t.ts);
    var mf := FillInfo(e.nextId + 1, Some(x.id), t.market, t.side.Opposite(), x.price, x.qty, -Fee6(x.qty, x.price, fees.rebateBps), Maker, t.ts);
    FilledSnoc(fills, tf, id);
    FilledSnoc(fills, mf, id);
    FilledSnoc(fills + [tf], mf, id);
    assert fills + [] == fills && fills + [tf] + [] == fills + [tf] && fills + [] + [mf] == fills + [mf];
  }

  /** The fills recorded under an order grow by what was matched for it or against it. */
  lemma {:induction false} SettleAllFills(e: Edge, t: Ticket, order: OrderId, ms: seq<Matched>, fees: Fees, a: Address, id: OrderId)
    ensures FilledFor(FillsOf(SettleAll(e, t, order, ms, fees), a), id) == FilledFor(FillsOf(e, a), id)
            + (if a == t.user && id == order then TotalQty(ms) else 0.0) + TakenFrom(ms, a, id)
  {
    hide SettleMatch, FilledFor, FillsOf;
    if ms != [] {
      var n := |ms| - 1;
      assert ms == ms[..n] + [ms[n]];
      SettleAllFills(e, t, order, ms[..n], fees, a, id);
      SettleSnoc(e, t, order, ms[..n], ms[n], fees);
      SettleFills(SettleAll(e, t, order, ms[..n], fees), t, order, ms[n], fees, a, id);
    }
  }

  // ---- Open orders stand for requests --------------------------------------------------

  /** `o` is what the fills recorded under it have left of the admitted limit request `t` of `a`. */
  predicate StandsFor(t: Ticket, a: Address, fills: seq<FillInfo>, o: OpenOrder) {
    && t.admitted && t.user == a && t.limit.Some?
    && o == OpenOrder(o.id, t.market, t.side, Limit, t.limit.value, t.qty, t.qty - FilledFor(fills, o.id), t.ts)
  }

  predicate Backed(ts: set<Ticket>, a: Address, fills: seq<FillInfo>, o: OpenOrder) {
    exists t :: t in ts && StandsFor(t, a, fills, o)
  }

  predicate ListBacked(ts: set<Ticket>, a: Address, fills: seq<FillInfo>, list: seq<OpenOrder>) {
    forall o | o in list :: Backed(ts, a, fills, o)
  }

  ghost predicate AllBacked(ts: set<Ticket>, e: Edge) {
    forall a :: ListBacked(ts, a, FillsOf(e, a), ListOf(e.orders, a))
  }

  /** No fill is recorded under an id not yet given out. */
  predicate FillsKnown(fills: seq<FillInfo>, k: nat) {
    forall i | 0 <= i < |fills| && fills[i].orderId.Some? :: fills[i].orderId.value < k
  }

  ghost predicate AllFillsKnown(e: Edge) {
    forall a :: FillsKnown(FillsOf(e, a), e.nextId)
  }

  lemma {:induction false} FilledNone(fills: seq<FillInfo>, id: OrderId)
    requires FillsKnown(fills, id)
    ensures FilledFor(fills, id) == 0.0
  {
    if fills != [] { FilledNone(fills[..|fills| - 1], id); }
  }

  lemma {:induction false} SettleAllKnown(e: Edge, t: Ticket, order: OrderId, ms: seq<Matched>, fees: Fees, a: Address, k: nat)
    requires FillsKnown(FillsOf(e, a), k) && order < k && NamedBelow(ms, k)
    ensures FillsKnown(FillsOf(SettleAll(e, t, order, ms, fees), a), k)
  {
    hide SettleMatch, FillsOf, Fee6;
    if ms != [] {
      var n := |ms| - 1;
      assert ms == ms[..n] + [ms[n]];
      SettleAllKnown(e, t, order, ms[..n], fees, a, k);
      SettleSnoc(e, t, order, ms[..n], ms[n], fees);
      SettleRecords(SettleAll(e, t, order, ms[..n], fees), t, order, ms[n], fees, a, t.market);
    }
  }

  /** What being in step with the tables says about the open orders. */
  lemma OrdersKnown(base: Store, e: Edge, a: Address)
    requires InStep(base, e, e.nextId, e.nextId)
    ensures DistinctIds(ListOf(e.orders, a)) && MatchFrame.NonZero(ListOf(e.orders, a)) && ListBelow(ListOf(e.orders, a), e.nextId)
  {
    hide ReplayFrom, DistinctIds, OrderRows;
    var list, rows := ListOf(e.orders, a), ReplayFrom(base, e.log).orders;
    assert OrdersAt(list, rows, a);
    RowsHold(list);
    forall i | 0 <= i < |list| ensures list[i].id < e.nextId {
      assert list[i] in list;
      assert list[i].id in OwnedOrders(rows, a);
    }
  }

  /** An order left by a match still stands for its request, once the match is booked. */
  lemma SurvivorBacked(e: Edge, e2: Edge, users: seq<Address>, t: Ticket, order: OrderId, fees: Fees, a: Address, ts: set<Ticket>, o': OpenOrder)
    requires DistinctIds(ListOf(e.orders, a)) && ListBelow(ListOf(e.orders, a), order)
    requires ListBacked(ts, a, FillsOf(e, a), ListOf(e.orders, a))
    requires var r := Match(e.orders, users, RequestOf(t));
             && o' in ListOf(r.orders, a)
             && forall id :: FilledFor(FillsOf(e2, a), id) == FilledFor(FillsOf(e, a), id)
                             + (if a == t.user && id == order then TotalQty(r.fills) else 0.0) + TakenFrom(r.fills, a, id)
    ensures Backed(ts, a, FillsOf(e2, a), o')
  {
    hide Match, FilledFor, TakenFrom, TotalQty, FillsOf, DistinctIds;
    var o := MatchLowers(e.orders, users, RequestOf(t), a, o');
    assert Backed(ts, a, FillsOf(e, a), o);
    var t0 :| t0 in ts && StandsFor(t0, a, FillsOf(e, a), o);
    assert o.id < order;
    assert StandsFor(t0, a, FillsOf(e2, a), o');
  }

  lemma MatchNames(orders: Orders, users: seq<Address>, req: Request, k: nat)
    requires IdsBelow(orders, k)
    ensures NamedBelow(Match(orders, users, req).fills, k)
  {
    hide Commit, Sort, Collect, IdsBelow;
    CommitNames(orders, Sort(req.side.Opposite(), Collect(orders, users, req)), req.qty, [], k);
  }

  lemma MatchedBacked(base: Store, e: Edge, users: seq<Address>, t: Ticket, fees: Fees, ts: set<Ticket>, a: Address)
    requires InStep(base, e, e.nextId, e.nextId) && AllBacked(ts, e) && AllFillsKnown(e) && Matches(e, users, t)
    ensures var e' := PlaceOrder(e, users, t, fees);
            ListBacked(ts + {t}, a, FillsOf(e', a), ListOf(e'.orders, a)) && FillsKnown(FillsOf(e', a), e.nextId + 1)
  {
    hide InStep, Match, SettleAll, Collect, ProbeFrom, TotalQty, SyncAll, Makers, FilledFor, TakenFrom, FillsKnown, Backed, DistinctIds, MatchFrame.NonZero;
    var id, req, e' := e.nextId, RequestOf(t), PlaceOrder(e, users, t, fees);
    var r := MatchTaker(e.(nextId := id + 1), users, req);
    forall b ensures ListBelow(ListOf(e.orders, b), id) { OrdersKnown(base, e, b); }
    MatchNames(e.orders, users, req, id);
    var e2 := SettleAll(r.edge, t, id, r.fills, fees);
    forall x ensures FilledFor(FillsOf(e2, a), x) == FilledFor(FillsOf(e, a), x)
                     + (if a == t.user && x == id then TotalQty(r.fills) else 0.0) + TakenFrom(r.fills, a, x)
    {
      assert FillsOf(r.edge, a) == FillsOf(e, a);
      SettleAllFills(r.edge, t, id, r.fills, fees, a, x);
    }
    assert FillsOf(e', a) == FillsOf(e2, a);
    KnownLater(FillsOf(e, a), id);
    SettleAllKnown(r.edge, t, id, r.fills, fees, a, id + 1);
    RestsAtEdge(e, users, t, fees, a);
    OrdersKnown(base, e, a);
    var kept := ListOf(r.edge.orders, a);
    forall o | o in kept ensures Backed(ts + {t}, a, FillsOf(e2, a), o) {
      SurvivorBacked(e, e2, users, t, id, fees, a, ts, o);
      MoreBacked(ts, t, a, FillsOf(e2, a), o);
    }
    if a == t.user && t.limit.Some? && t.qty - TotalQty(r.fills) != 0.0 {
      FilledNone(FillsOf(e, a), id);
      TakenNone(r.fills, a, id);
      NewBacked(ts, t, FillsOf(e2, a), id, TotalQty(r.fills));
    }
  }

  lemma KnownLater(fills: seq<FillInfo>, k: nat)
    ensures FillsKnown(fills, k) ==> FillsKnown(fills, k + 1)
  {}

  lemma MoreBacked(ts: set<Ticket>, t: Ticket, a: Address, fills: seq<FillInfo>, o: OpenOrder)
    requires Backed(ts, a, fills, o)
    ensures Backed(ts + {t}, a, fills, o)
  {
    hide FilledFor;
    var t0 :| t0 in ts && StandsFor(t0, a, fills, o);
    assert t0 in ts + {t};
  }

  lemma NewBacked(ts: set<Ticket>, t: Ticket, fills: seq<FillInfo>, id: OrderId, traded: real)
    requires t.admitted && t.limit.Some? && FilledFor(fills, id) == traded
    ensures Backed(ts + {t}, t.user, fills, OpenOrder(id, t.market, t.side, Limit, t.limit.value, t.qty, t.qty - traded, t.ts))
  {
    hide FilledFor;
    assert t in ts + {t};
  }

  // ---- Every operation -----------------------------------------------------------------

  function Asked(op: Op): set<Ticket> {
    if op.Place? then {op.ticket} else {}
  }

  /** Ids are only ever given out upwards. */
  lemma {:induction false} SettleAllCounts(e: Edge, t: Ticket, order: OrderId, ms: seq<Matched>, fees: Fees)
    ensures SettleAll(e, t, order, ms, fees).nextId == e.nextId + 3 * |ms|
    decreases |ms|
  {
    hide SettleMatch;
    if ms != [] {
      SettleCounts(e, t, order, ms[0], fees);
      SettleAllCounts(SettleMatch(e, t, order, ms[0], fees), t, order, ms[1..], fees);
    }
  }

  lemma PlaceBacked(base: Store, e: Edge, users: seq<Address>, t: Ticket, fees: Fees, ts: set<Ticket>)
    requires InStep(base, e, e.nextId, e.nextId) && AllBacked(ts, e) && AllFillsKnown(e)
    ensures var e' := PlaceOrder(e, users, t, fees); AllBacked(ts + {t}, e') && AllFillsKnown(e')
  {
    hide InStep, PlaceOrder, Matches, FillsKnown, ListBacked, RequestOf;
    var e' := PlaceOrder(e, users, t, fees);
    PlaceCounts(e, users, t, fees);
    forall a ensures ListBacked(ts + {t}, a, FillsOf(e', a), ListOf(e'.orders, a)) && FillsKnown(FillsOf(e', a), e'.nextId) {
      if Matches(e, users, t) {
        MatchedBacked(base, e, users, t, fees, ts, a);
        KnownUpTo(FillsOf(e', a), e.nextId + 1, e'.nextId);
      } else {
        RestsAtEdge(e, users, t, fees, a);
        StillBacked(ts, {t}, e, e', a);
      }
    }
  }

  lemma PlaceCounts(e: Edge, users: seq<Address>, t: Ticket, fees: Fees)
    ensures var e' := PlaceOrder(e, users, t, fees); e'.nextId >= e.nextId && (Matches(e, users, t) ==> e'.nextId > e.nextId)
  {
    hide Match, SettleAll, Collect, ProbeFrom, TotalQty, SyncAll, Makers;
    var r := MatchTaker(e.(nextId := e.nextId + 1), users, RequestOf(t));
    SettleAllCounts(r.edge, t, e.nextId, r.fills, fees);
  }

  lemma KnownUpTo(fills: seq<FillInfo>, k: nat, n: nat)
    requires FillsKnown(fills, k) && k <= n
    ensures FillsKnown(fills, n)
  {}

  /** An account whose fills did not change and whose orders are some of those it had. */
  lemma StillBacked(ts: set<Ticket>, more: set<Ticket>, e: Edge, e': Edge, a: Address)
    requires AllBacked(ts, e) && AllFillsKnown(e) && e'.nextId >= e.nextId
    requires FillsOf(e', a) == FillsOf(e, a) && forall o | o in ListOf(e'.orders, a) :: o in ListOf(e.orders, a)
    ensures ListBacked(ts + more, a, FillsOf(e', a), ListOf(e'.orders, a)) && FillsKnown(FillsOf(e', a), e'.nextId)
  {
    hide StandsFor, FillsOf, ListOf;
    assert ListBacked(ts, a, FillsOf(e, a), ListOf(e.orders, a)) && FillsKnown(FillsOf(e, a), e.nextId);
    forall o | o in ListOf(e'.orders, a) ensures Backed(ts + more, a, FillsOf(e', a), o) {
      var t0 :| t0 in ts && StandsFor(t0, a, FillsOf(e, a), o);
      assert t0 in ts + more;
    }
  }

  lemma CloseBacked(e: Edge, a: Address, p: EdgePosition, mark: real, ts: nat, asked: set<Ticket>)
    requires AllBacked(asked, e) && AllFillsKnown(e)
    ensures var e' := CloseOut(e, a, p, mark, ts); AllBacked(asked, e') && AllFillsKnown(e')
  {
    hide ListBacked, FillsKnown, CloseOut, FillsOf;
    var e' := CloseOut(e, a, p, mark, ts);
    forall b ensures ListBacked(asked, b, FillsOf(e', b), ListOf(e'.orders, b)) && FillsKnown(FillsOf(e', b), e'.nextId) {
      CloseRecords(e, a, p, mark, ts, b, p.market);
      assert ListBacked(asked, b, FillsOf(e, b), ListOf(e.orders, b)) && FillsKnown(FillsOf(e, b), e.nextId);
      var f := FillInfo(e.nextId, None, p.market, p.side.Opposite(), mark, p.size, 0, Liquidation, ts);
      assert FillsOf(e, b) + [] == FillsOf(e, b);
      Unattributed(asked, b, FillsOf(e, b), f, ListOf(e.orders, b), e.nextId, e'.nextId);
    }
  }

  /** A fill without an order changes nothing for any order. */
  lemma Unattributed(ts: set<Ticket>, a: Address, fills: seq<FillInfo>, f: FillInfo, list: seq<OpenOrder>, k: nat, n: nat)
    requires ListBacked(ts, a, fills, list) && FillsKnown(fills, k) && k <= n && f.orderId == None
    ensures ListBacked(ts, a, fills + [f], list) && FillsKnown(fills + [f], n) && FillsKnown(fills, n)
  {
    hide FilledFor;
    forall o | o in list ensures Backed(ts, a, fills + [f], o) {
      assert Backed(ts, a, fills, o);
      var t0 :| t0 in ts && StandsFor(t0, a, fills, o);
      FilledSnoc(fills, f, o.id);
      assert StandsFor(t0, a, fills + [f], o);
    }
  }

  /** What a forced close records: a fill without an order and a line on the tape, both at the mark
      price, for the whole size, on the side that closes it, and free of charge. */
  lemma CloseRecords(e: Edge, a: Address, p: EdgePosition, mark: real, ts: nat, b: Address, m: MarketId)
    ensures var e' := CloseOut(e, a, p, mark, ts);
            && FillsOf(e', b) == FillsOf(e, b)
               + (if a == b then [FillInfo(e.nextId, None, p.market, p.side.Opposite(), mark, p.size, 0, Liquidation, ts)] else [])
            && TradesOf(e', m) == TradesOf(e, m)
               + (if m == p.market then [PublicTrade(e.nextId + 1, p.market, mark, p.size, p.side.Opposite(), ts)] else [])
            && e'.orders == e.orders && e'.nextId == e.nextId + 2
  {
    hide Others, ClosePnl, Collateral, ScaleUsdc;
  }

  lemma DoBacked(base: Store, e: Edge, op: Op, ts: set<Ticket>)
    requires InStep(base, e, e.nextId, e.nextId) && AllBacked(ts, e) && AllFillsKnown(e)
    ensures AllBacked(ts + Asked(op), Do(e, op)) && AllFillsKnown(Do(e, op))
  {
    hide InStep, PlaceOrder, LiquidatePosition, AllBacked, AllFillsKnown, AdjustVault, CancelOrder;
    assert !op.Place? ==> ts + Asked(op) == ts;
    match op
    case Place(users, ticket, fees) => PlaceBacked(base, e, users, ticket, fees, ts);
    case Cancel(a, id) => CancelBacked(e, a, id, ts);
    case Liquidate(a, market, prices, now) => LiquidateBacked(e, a, market, prices, now, ts);
    case SetBalance(_, _) => QuietBacked(e, Do(e, op), ts);
    case Seed(_, _) => QuietBacked(e, Do(e, op), ts);
    case Adjust(a, delta) =>
      AdjustFrame(e, a, delta);
      QuietBacked(e, Do(e, op), ts);
    case RecordSample(_, _) => QuietBacked(e, Do(e, op), ts);
  }

  lemma QuietBacked(e: Edge, e': Edge, ts: set<Ticket>)
    requires AllBacked(ts, e) && AllFillsKnown(e) && e'.orders == e.orders && e'.fills == e.fills && e'.nextId == e.nextId
    ensures AllBacked(ts, e') && AllFillsKnown(e')
  {
    hide ListBacked, FillsKnown;
    forall a ensures ListBacked(ts, a, FillsOf(e', a), ListOf(e'.orders, a)) && FillsKnown(FillsOf(e', a), e'.nextId) {
      assert ListBacked(ts, a, FillsOf(e, a), ListOf(e.orders, a)) && FillsKnown(FillsOf(e, a), e.nextId);
    }
  }

  lemma CancelBacked(e: Edge, b: Address, id: OrderId, ts: set<Ticket>)
    requires AllBacked(ts, e) && AllFillsKnown(e)
    ensures AllBacked(ts, CancelOrder(e, b, id)) && AllFillsKnown(CancelOrder(e, b, id))
  {
    hide ListBacked, FillsKnown, Without, Find;
    var e' := CancelOrder(e, b, id);
    forall a ensures ListBacked(ts, a, FillsOf(e', a), ListOf(e'.orders, a)) && FillsKnown(FillsOf(e', a), e'.nextId) {
      WithoutHas(ListOf(e.orders, a), id);
      StillBacked(ts, {}, e, e', a);
      assert ts + {} == ts;
    }
  }

  lemma LiquidateBacked(e: Edge, a: Address, market: MarketId, prices: Prices, now: nat, ts: set<Ticket>)
    requires AllBacked(ts, e) && AllFillsKnown(e)
    ensures var e' := LiquidatePosition(e, a, market, prices, now); AllBacked(ts, e') && AllFillsKnown(e')
  {
    hide AllBacked, AllFillsKnown, Underwater, CloseOut, IndexOf;
    var list := PositionsOf(e, a);
    var i := IndexOf(list, market);
    if i < |list| && Underwater(e, a, list[i], prices) {
      UnderwaterPriced(e, a, list[i], prices);
      CloseBacked(e, a, list[i], prices[market].mark, now, ts);
    }
  }

  // ---- Runs and lives ------------------------------------------------------------------

  function AskedIn(ops: seq<Op>): set<Ticket> {
    set k | 0 <= k < |ops| && ops[k].Place? :: ops[k].ticket
  }

  lemma {:induction false} RunBacked(base: Store, start: Edge, ops: seq<Op>, ts: set<Ticket>)
    requires InStep(base, start, start.nextId, start.nextId) && AllBacked(ts, start) && AllFillsKnown(start)
    ensures AllBacked(ts + AskedIn(ops), RunFrom(start, ops)) && AllFillsKnown(RunFrom(start, ops))
  {
    hide InStep, Do, AllBacked, AllFillsKnown;
    if ops == [] {
      assert ts + AskedIn(ops) == ts;
    } else {
      var n := |ops| - 1;
      RunBacked(base, start, ops[..n], ts);
      RunInStep(base, start, ops[..n]);
      DoBacked(base, RunFrom(start, ops[..n]), ops[n], ts + AskedIn(ops[..n]));
      AskedSnoc(ops);
      assert ts + AskedIn(ops[..n]) + Asked(ops[n]) == ts + AskedIn(ops);
    }
  }

  lemma AskedSnoc(ops: seq<Op>)
    requires ops != []
    ensures AskedIn(ops) == AskedIn(ops[..|ops| - 1]) + Asked(ops[|ops| - 1])
  {
    var n := |ops| - 1;
    assert forall k | 0 <= k < n :: ops[..n][k] == ops[k];
  }

  lemma ReopenBacked(e: Edge, s: Snapshot, ts: set<Ticket>)
    requires Restores(e, s) && AllBacked(ts, e) && AllFillsKnown(e)
    ensures AllBacked(ts, Reopen(s, e.nextId)) && AllFillsKnown(Reopen(s, e.nextId))
  {
    hide ListBacked, FillsKnown, FundingRestored;
    var e' := Reopen(s, e.nextId);
    forall a ensures ListBacked(ts, a, FillsOf(e', a), ListOf(e'.orders, a)) && FillsKnown(FillsOf(e', a), e'.nextId) {
      assert FillsOf(e', a) == At(s.fills, a) && ListOf(e'.orders, a) == At(s.orders, a);
      SameElements(ListOf(e'.orders, a), ListOf(e.orders, a));
      StillBacked(ts, {}, e, e', a);
      assert ts + {} == ts;
    }
  }

  lemma SameElements(x: seq<OpenOrder>, y: seq<OpenOrder>)
    requires multiset(x) == multiset(y)
    ensures forall o | o in x :: o in y
  {
    forall o | o in x ensures o in y { assert o in multiset(x); }
  }

  /** All requests of the first `i` sessions. */
  function AskedBefore(h: History, i: nat): set<Ticket>
    requires i <= |h.sessions|
  {
    if i == 0 then {} else AskedBefore(h, i - 1) + AskedIn(h.sessions[i - 1])
  }

  lemma {:induction false} LifeBacked(h: History, i: nat)
    requires Life(h) && i <= |h.sessions|
    ensures AllBacked(AskedBefore(h, i), h.edges[i]) && AllFillsKnown(h.edges[i])
  {
    hide InStep, Session, RunFrom, AllBacked, AllFillsKnown, Restores, Reopen;
    if i == 0 {
      NewBackedAll();
    } else {
      LifeBacked(h, i - 1);
      LifeInStep(h, i - 1);
      RunBacked(h.stores[i - 1], h.edges[i - 1], h.sessions[i - 1], AskedBefore(h, i - 1));
      RestartEquivalence(h, i - 1);
      ReopenBacked(RunFrom(h.edges[i - 1], h.sessions[i - 1]), h.snaps[i - 1], AskedBefore(h, i));
    }
  }

  lemma NewBackedAll()
    ensures AllBacked({}, NEW) && AllFillsKnown(NEW)
  {}

  /** Main result: in every state of every life, restarts included, each open order of an account is
      an admitted limit request of that account, with its own market, side, price and time, and what
      remains of it is the quantity asked for less all fills recorded under its id. */
  lemma OrdersReconcile(h: History, i: nat, ops: seq<Op>, a: Address, k: nat)
    requires Life(h) && i <= |h.sessions| && k < |ListOf(RunFrom(h.edges[i], ops).orders, a)|
    ensures var e := RunFrom(h.edges[i], ops);
            Backed(AskedBefore(h, i) + AskedIn(ops), a, FillsOf(e, a), ListOf(e.orders, a)[k])
  {
    hide InStep, Session, RunFrom, Backed;
    LifeBacked(h, i);
    LifeInStep(h, i);
    RunBacked(h.stores[i], h.edges[i], ops, AskedBefore(h, i));
    var e := RunFrom(h.edges[i], ops);
    assert ListBacked(AskedBefore(h, i) + AskedIn(ops), a, FillsOf(e, a), ListOf(e.orders, a));
    assert ListOf(e.orders, a)[k] in ListOf(e.orders, a);
  }
}
