/**
 Which orders keep the resting quantities sound. The edge refuses a quantity of zero but not a
 negative one; such an order is booked whole against the first candidate, or, if there is none,
 may come to rest. Everything else keeps all lists tidy, over any number of sessions, and a
 restarted edge then serves every taker as it did before.
 */
module TidyRuns {
  import opened OrderTypes
  import opened EdgeMatch
  import opened EdgeTotals
  import opened EdgeState
  import opened Persistence
  import opened Preview
  import opened Restart
  import opened Reload
  import MatchFrame
  import Reopened

  // ---- Quantities that are not negative ------------------------------------------------

  predicate NonNegativeList(list: seq<OpenOrder>) {
    forall i | 0 <= i < |list| :: list[i].remaining >= 0.0
  }

  lemma {:induction false} ReapWithin(list: seq<OpenOrder>, market: MarketId)
    requires NonNegativeList(list)
    ensures NonNegativeList(ReapList(list, market))
  {
    if list != [] { ReapWithin(list[1..], market); }
  }

  lemma MatchNonNegative(orders: Orders, users: seq<Address>, req: Request, a: Address)
    requires NonNegativeList(ListOf(orders, a)) && req.qty >= 0.0
    ensures NonNegativeList(ListOf(Match(orders, users, req).orders, a))
  {
    hide Commit, Sort, Collect, NonNegativeList;
    var cs := Sort(req.side.Opposite(), Collect(orders, users, req));
    MatchFrame.CommitEases(orders, cs, req.qty, [], a);
    EasedNonNegative(ListOf(orders, a), ListOf(Commit(orders, cs, req.qty, []).orders, a));
    ReapWithin(ListOf(Commit(orders, cs, req.qty, []).orders, a), req.market);
    NoneNegative();
  }

  lemma EasedNonNegative(x: seq<OpenOrder>, y: seq<OpenOrder>)
    requires NonNegativeList(x) && MatchFrame.AllEased(x, y)
    ensures NonNegativeList(y)
  {
    forall i | 0 <= i < |y| ensures y[i].remaining >= 0.0 { assert MatchFrame.Eased(x[i].remaining, y[i].remaining); }
  }

  lemma NoneNegative()
    ensures NonNegativeList([])
  {}

  lemma {:induction false} SettleKeepsOrders(e: Edge, t: Ticket, order: OrderId, matches: seq<Matched>, fees: Fees)
    ensures SettleAll(e, t, order, matches, fees).orders == e.orders
    decreases |matches|
  {
    if matches != [] {
      SettleOneKeepsOrders(e, t, order, matches[0], fees);
      SettleKeepsOrders(SettleMatch(e, t, order, matches[0], fees), t, order, matches[1..], fees);
    }
  }

  lemma SettleOneKeepsOrders(e: Edge, t: Ticket, order: OrderId, m: Matched, fees: Fees)
    ensures SettleMatch(e, t, order, m, fees).orders == e.orders
  {
    hide Share, TakerFill, MakerFill, AdjustVault;
    var n := e.nextId;
    var e2 := RecordFill(RecordFill(e.(nextId := n + 3), t.user, TakerFill(t, n, order, m, fees)), m.maker, MakerFill(t, n + 1, m, fees));
    AdjustKeepsOrders(e2, t.user, -Share(m, fees.takerBps));
    AdjustKeepsOrders(AdjustVault(e2, t.user, -Share(m, fees.takerBps)), m.maker, Share(m, fees.rebateBps));
  }

  lemma AdjustKeepsOrders(e: Edge, a: Address, delta: real)
    ensures AdjustVault(e, a, delta).orders == e.orders
  {}

  /** Placing a quantity that is not negative leaves no order with less than nothing. */
  lemma PlaceNonNegative(e: Edge, users: seq<Address>, t: Ticket, fees: Fees, a: Address)
    requires Tidy(e.orders) && NoRepeats(users) && t.qty >= 0.0
    ensures NonNegativeList(ListOf(PlaceOrder(e, users, t, fees).orders, a))
  {
    hide Match, SettleAll, Collect, ProbeFrom, TotalQty, Offered, Notional, SweepNotional, SyncAll, Makers;
    var id, req := e.nextId, RequestOf(t);
    assert TidyList(ListOf(e.orders, a)) by { Reopened.EmptyTidy(); }
    MatchNonNegative(e.orders, users, req, a);
    MatchTotals(e.orders, users, req);
    var e1 := e.(nextId := id + 1);
    var r := MatchTaker(e1, users, req);
    SettleKeepsOrders(r.edge, t, id, r.fills, fees);
    assert TotalQty(r.fills) <= t.qty;
  }

  // ---- Negative quantities -------------------------------------------------------------

  lemma NegativeCommit(orders: Orders, cs: seq<Candidate>, left: real)
    requires cs != [] && left < 0.0 && Current(orders, cs[0])
    ensures Find(ListOf(orders, cs[0].maker), cs[0].id) < |ListOf(orders, cs[0].maker)|
    ensures Commit(orders, cs, left, []) ==
            Committed(Reduce(orders, cs[0].maker, cs[0].id, left), [Matched(cs[0].maker, cs[0].id, cs[0].price, left)], 0.0)
  {
    hide Reduce, Find;
    Found(orders, cs[0]);
    var c := cs[0];
    var m := Matched(c.maker, c.id, c.price, left);
    assert Min(left, c.remaining) == left;
    assert Commit(Reduce(orders, c.maker, c.id, left), cs[1..], 0.0, [] + [m]) ==
           Committed(Reduce(orders, c.maker, c.id, left), [] + [m], 0.0);
    assert [] + [m] == [m];
  }

  lemma SortedCurrent(orders: Orders, users: seq<Address>, req: Request)
    requires Tidy(orders) && NoRepeats(users)
    ensures var cs := Collect(orders, users, req);
            var sorted := Sort(req.side.Opposite(), cs);
            |sorted| == |cs| && AllCurrent(orders, sorted)
  {
    hide Sort, Collect, AllCurrent;
    var cs := Collect(orders, users, req);
    SortFacts(req.side.Opposite(), cs);
    CollectDistinct(orders, users, req);
    CollectViews(orders, users, req);
    PermutedCurrent(orders, cs, Sort(req.side.Opposite(), cs));
    assert |multiset(Sort(req.side.Opposite(), cs))| == |multiset(cs)|;
  }

  /** A negative quantity is booked whole against the best candidate, if there is one. */
  lemma NegativeMatch(orders: Orders, users: seq<Address>, req: Request)
    requires Tidy(orders) && NoRepeats(users) && req.qty < 0.0
    ensures TotalQty(Match(orders, users, req).fills) == if Collect(orders, users, req) == [] then 0.0 else req.qty
    ensures forall a | NonNegativeList(ListOf(orders, a)) :: NonNegativeList(ListOf(Match(orders, users, req).orders, a))
  {
    hide Sort, Collect, AllCurrent, Reap, Reduce, Find;
    var cs := Collect(orders, users, req);
    var sorted := Sort(req.side.Opposite(), cs);
    SortedCurrent(orders, users, req);
    if cs == [] {
      forall a | NonNegativeList(ListOf(orders, a)) ensures NonNegativeList(ListOf(Reap(orders, req.market), a)) { ReapKeeps(orders, req.market, a); }
    } else {
      CurrentFirst(orders, sorted);
      NegativeCommit(orders, sorted, req.qty);
      var c := sorted[0];
      OneTotal(Matched(c.maker, c.id, c.price, req.qty));
      var mid := Reduce(orders, c.maker, c.id, req.qty);
      forall a | NonNegativeList(ListOf(orders, a)) ensures NonNegativeList(ListOf(Reap(mid, req.market), a)) {
        RaisedNonNegative(orders, c, req.qty, a);
        ReapKeeps(mid, req.market, a);
      }
    }
  }

  lemma CurrentFirst(orders: Orders, cs: seq<Candidate>)
    requires AllCurrent(orders, cs) && cs != []
    ensures Current(orders, cs[0])
  {}

  lemma OneTotal(m: Matched)
    ensures TotalQty([m]) == m.qty
  {
    assert [m][..0] == [];
  }

  lemma ReapKeeps(orders: Orders, market: MarketId, a: Address)
    requires NonNegativeList(ListOf(orders, a))
    ensures NonNegativeList(ListOf(Reap(orders, market), a))
  {
    hide ReapList, NonNegativeList;
    ReapWithin(ListOf(orders, a), market);
    NoneNegative();
  }

  lemma RaisedNonNegative(orders: Orders, c: Candidate, qty: real, a: Address)
    requires Find(ListOf(orders, c.maker), c.id) < |ListOf(orders, c.maker)| && qty < 0.0 && NonNegativeList(ListOf(orders, a))
    ensures NonNegativeList(ListOf(Reduce(orders, c.maker, c.id, qty), a))
  {
    hide Find;
  }

  /** The post-only probe never stops a negative quantity. */
  lemma NegativeProbe(orders: Orders, users: seq<Address>, req: Request)
    requires Tidy(orders) && req.qty < 0.0
    ensures ProbeFrom(Collect(orders, users, req), req.qty) <= 0.0
  {
    hide Collect;
    var cs := Collect(orders, users, req);
    CollectPositive(orders, users, req);
    if cs != [] { assert Min(req.qty, cs[0].remaining) == req.qty && ProbeFrom(cs[1..], 0.0) == 0.0; }
  }

  /** The one kind of order that may leave a negative quantity resting: a limit order for a negative
      quantity that finds no candidate. */
  predicate Sound(e: Edge, users: seq<Address>, t: Ticket) {
    t.admitted && t.qty < 0.0 ==> t.limit == None || Collect(e.orders, users, RequestOf(t)) != []
  }

  ghost predicate AllNonNegative(orders: Orders) {
    forall a :: NonNegativeList(ListOf(orders, a))
  }

  lemma TidyNonNegative(orders: Orders)
    requires Tidy(orders)
    ensures AllNonNegative(orders)
  {
    Reopened.EmptyTidy();
    forall a ensures NonNegativeList(ListOf(orders, a)) { assert TidyList(ListOf(orders, a)); }
  }

  lemma NegativePlaceIff(e: Edge, users: seq<Address>, t: Ticket, fees: Fees)
    requires Tidy(e.orders) && NoRepeats(users) && t.admitted && t.qty < 0.0
    ensures AllNonNegative(PlaceOrder(e, users, t, fees).orders) <==> Sound(e, users, t)
  {
    hide Match, SettleAll, Collect, ProbeFrom, TotalQty, SyncAll, Makers, NonNegativeList;
    var id, req := e.nextId, RequestOf(t);
    TidyNonNegative(e.orders);
    NegativeMatch(e.orders, users, req);
    NegativeProbe(e.orders, users, req);
    var r := MatchTaker(e.(nextId := id + 1), users, req);
    SettleKeepsOrders(r.edge, t, id, r.fills, fees);
    var e2, e' := SettleAll(r.edge, t, id, r.fills, fees), PlaceOrder(e, users, t, fees);
    var remaining := t.qty - TotalQty(r.fills);
    forall a ensures NonNegativeList(ListOf(r.edge.orders, a)) { assert NonNegativeList(ListOf(e.orders, a)); }
    if remaining != 0.0 && t.limit.Some? {
      NegativeRests(r.edge.orders, t.user, RestingOrder(t, id, remaining));
      assert !NonNegativeList(ListOf(e'.orders, t.user));
    }
  }

  lemma NegativeRests(orders: Orders, a: Address, o: OpenOrder)
    requires o.remaining < 0.0
    ensures !NonNegativeList(ListOf(orders[a := ListOf(orders, a) + [o]], a))
  {
    var list := ListOf(orders, a) + [o];
    assert list[|list| - 1].remaining < 0.0;
  }

  /** For every order: all quantities stay sound exactly when it is. */
  lemma PlaceNonNegativeIff(e: Edge, users: seq<Address>, t: Ticket, fees: Fees)
    requires Tidy(e.orders) && NoRepeats(users)
    ensures AllNonNegative(PlaceOrder(e, users, t, fees).orders) <==> Sound(e, users, t)
  {
    hide PlaceOrder, NonNegativeList, Tidy, Collect;
    if t.qty >= 0.0 {
      forall a ensures NonNegativeList(ListOf(PlaceOrder(e, users, t, fees).orders, a)) { PlaceNonNegative(e, users, t, fees, a); }
    } else if t.admitted {
      NegativePlaceIff(e, users, t, fees);
    } else {
      TidyNonNegative(e.orders);
      NotAdmitted(e, users, t, fees);
    }
  }

  lemma NotAdmitted(e: Edge, users: seq<Address>, t: Ticket, fees: Fees)
    requires !t.admitted
    ensures PlaceOrder(e, users, t, fees) == e
  {}

  // ---- Every operation -----------------------------------------------------------------

  predicate SoundOp(e: Edge, op: Op) {
    op.Place? ==> Sound(e, op.users, op.ticket)
  }

  lemma LiquidateKeepsOrders(e: Edge, a: Address, market: MarketId, prices: Prices, ts: nat)
    ensures LiquidatePosition(e, a, market, prices, ts).orders == e.orders
  {
    hide PositionHealth, Others, ClosePnl;
  }

  lemma CancelNonNegative(list: seq<OpenOrder>, id: OrderId)
    requires NonNegativeList(list)
    ensures NonNegativeList(Without(list, id))
  {
    WithoutHas(list, id);
    var r := Without(list, id);
    forall i | 0 <= i < |r| ensures r[i].remaining >= 0.0 { assert r[i] in r; }
  }

  lemma TidyFrom(list: seq<OpenOrder>)
    requires NonNegativeList(list) && DistinctIds(list)
    ensures TidyList(list)
  {}

  lemma DoNonNegativeIff(e: Edge, op: Op)
    requires Tidy(e.orders) && (op.Place? ==> NoRepeats(op.users))
    ensures AllNonNegative(Do(e, op).orders) <==> SoundOp(e, op)
  {
    hide PlaceOrder, NonNegativeList, Sound;
    TidyNonNegative(e.orders);
    match op
    case Place(users, ticket, fees) => PlaceNonNegativeIff(e, users, ticket, fees);
    case Cancel(b, id) =>
      forall a ensures NonNegativeList(ListOf(CancelOrder(e, b, id).orders, a)) {
        assert NonNegativeList(ListOf(e.orders, a));
        CancelNonNegative(ListOf(e.orders, a), id);
      }
    case Liquidate(b, market, prices, ts) => LiquidateKeepsOrders(e, b, market, prices, ts);
    case SetBalance(b, amount) =>
    case Seed(b, _) =>
    case Adjust(b, delta) =>
    case RecordSample(m, s) =>
  }

  lemma KnownDistinct(base: Store, e: Edge, a: Address)
    requires InStep(base, e, e.nextId, e.nextId)
    ensures DistinctIds(ListOf(e.orders, a))
  {
    hide ReplayFrom, DistinctIds;
    assert OrdersAt(ListOf(e.orders, a), ReplayFrom(base, e.log).orders, a);
  }

  lemma TidyIff(base: Store, e: Edge)
    requires InStep(base, e, e.nextId, e.nextId)
    ensures Tidy(e.orders) <==> AllNonNegative(e.orders)
  {
    hide InStep, TidyList, NonNegativeList, DistinctIds;
    if Tidy(e.orders) { TidyNonNegative(e.orders); }
    if AllNonNegative(e.orders) {
      forall a | a in e.orders ensures TidyList(e.orders[a]) {
        assert NonNegativeList(ListOf(e.orders, a));
        KnownDistinct(base, e, a);
        TidyFrom(e.orders[a]);
      }
    }
  }

  /** From a tidy state in step with its tables, an operation leads to a tidy one exactly when it is
      sound. */
  lemma DoTidyIff(base: Store, e: Edge, op: Op)
    requires InStep(base, e, e.nextId, e.nextId) && Tidy(e.orders) && (op.Place? ==> NoRepeats(op.users))
    ensures Tidy(Do(e, op).orders) <==> SoundOp(e, op)
  {
    hide InStep, Do, Tidy, AllNonNegative, SoundOp;
    DoInStep(base, e, op);
    TidyIff(base, Do(e, op));
    DoNonNegativeIff(e, op);
  }

  // ---- Runs and lives ------------------------------------------------------------------

  /** Every order placed along the way is sound where it is placed, and visits nobody twice. */
  ghost predicate AllSound(start: Edge, ops: seq<Op>) {
    forall k | 0 <= k < |ops| :: SoundOp(RunFrom(start, ops[..k]), ops[k]) && (ops[k].Place? ==> NoRepeats(ops[k].users))
  }

  lemma {:induction false} RunTidy(base: Store, start: Edge, ops: seq<Op>)
    requires InStep(base, start, start.nextId, start.nextId) && Tidy(start.orders) && AllSound(start, ops)
    ensures Tidy(RunFrom(start, ops).orders)
  {
    hide InStep, Do, Tidy, SoundOp, NoRepeats;
    if ops != [] {
      var n := |ops| - 1;
      assert AllSound(start, ops[..n]) by {
        forall k | 0 <= k < n ensures SoundOp(RunFrom(start, ops[..n][..k]), ops[..n][k]) && (ops[..n][k].Place? ==> NoRepeats(ops[..n][k].users)) {
          assert ops[..n][..k] == ops[..k];
        }
      }
      RunTidy(base, start, ops[..n]);
      RunInStep(base, start, ops[..n]);
      DoTidyIff(base, RunFrom(start, ops[..n]), ops[n]);
    }
  }

  /** Orders for positive quantities are always sound. */
  lemma PositiveIsSound(start: Edge, ops: seq<Op>)
    requires forall k | 0 <= k < |ops| && ops[k].Place? :: ops[k].ticket.qty >= 0.0 && NoRepeats(ops[k].users)
    ensures AllSound(start, ops)
  {
    hide RunFrom, NoRepeats;
  }

  lemma {:induction false} LifeTidy(h: History, i: nat)
    requires Life(h) && i <= |h.sessions| && forall j | 0 <= j < i :: AllSound(h.edges[j], h.sessions[j])
    ensures Tidy(h.edges[i].orders)
  {
    hide InStep, Session, Tidy, RunFrom, AllSound, FundingRestored;
    if i == 0 {
      NewTidy();
    } else {
      LifeTidy(h, i - 1);
      LifeInStep(h, i - 1);
      RunTidy(h.stores[i - 1], h.edges[i - 1], h.sessions[i - 1]);
      RestartEquivalence(h, i - 1);
      var e := RunFrom(h.edges[i - 1], h.sessions[i - 1]);
      RestoredLists(e, h.snaps[i - 1]);
      Reopened.TidySame(e.orders, h.snaps[i - 1].orders);
    }
  }

  lemma NewTidy()
    ensures Tidy(NEW.orders)
  {}

  lemma RestoredLists(e: Edge, s: Snapshot)
    requires Restores(e, s)
    ensures Reopened.SameLists(e.orders, s.orders)
  {
    hide FundingRestored;
    forall a ensures multiset(ListOf(e.orders, a)) == multiset(ListOf(s.orders, a)) { assert At(s.orders, a) == ListOf(s.orders, a); }
  }

  /** Main result: at every restart of every life of sound orders, the book published anew is the
      same, and every taker gets the quantity and the notional it would have got before. */
  lemma RestartServesSame(h: History, i: nat, users: seq<Address>, req: Request)
    requires Life(h) && i < |h.sessions| && NoRepeats(users) && req.qty >= 0.0
    requires forall j | 0 <= j <= i :: AllSound(h.edges[j], h.sessions[j])
    ensures var before, after := RunFrom(h.edges[i], h.sessions[i]).orders, h.edges[i + 1].orders;
            && (forall side :: Published(after, users, req.market, side) == Published(before, users, req.market, side))
            && TotalQty(Match(after, users, req).fills) == TotalQty(Match(before, users, req).fills)
            && Notional(Match(after, users, req).fills) == Notional(Match(before, users, req).fills)
  {
    hide InStep, Session, Tidy, RunFrom, AllSound, Match, Published, TotalQty, Notional, NoRepeats, Restores;
    LifeTidy(h, i);
    LifeInStep(h, i);
    RunTidy(h.stores[i], h.edges[i], h.sessions[i]);
    RestartEquivalence(h, i);
    var e := RunFrom(h.edges[i], h.sessions[i]);
    RestoredLists(e, h.snaps[i]);
    Reopened.PermutedServesSame(e.orders, h.snaps[i].orders, users, req);
  }
}
