/**
 Takers whose collect and commit phases are separate steps, interleaved with each other and with
 added and cancelled orders. The ledger remembers how every order started out; what it started
 with is always what remains, what was cancelled and what was filled.
 */
module EdgeConcurrent {
  import opened OrderTypes
  import opened EdgeMatch

  datatype Origin = Origin(owner: Address, market: MarketId, side: Side, price: real, start: real)

  type Ledger = map<OrderId, Origin>

  datatype Taker = Collected(req: Request, candidates: seq<Candidate>) | Finished(req: Request, fills: seq<Matched>)

  datatype World = World(
    orders: Orders,
    takers: seq<Taker>,
    ledger: Ledger,
    cancelled: map<OrderId, real>,
    fills: seq<Matched>)

  datatype Step =
    | Add(user: Address, order: OpenOrder)
    | CancelOrder(user: Address, id: OrderId)
    | CollectPhase(req: Request, users: seq<Address>)
    | CommitPhase(taker: nat)

  const NOTHING := World(map[], [], map[], map[], [])

  predicate Enabled(w: World, s: Step) {
    match s
    case Add(_, order) => order.id !in w.ledger && order.remaining > 0.0
    case CancelOrder(_, _) => true
    case CollectPhase(req, _) => req.qty > 0.0
    case CommitPhase(t) => t < |w.takers| && w.takers[t].Collected?
  }

  function CancelledOf(cancelled: map<OrderId, real>, id: OrderId): real {
    if id in cancelled then cancelled[id] else 0.0
  }

  function Next(w: World, s: Step): World
    requires Enabled(w, s)
  {
    match s
    case Add(a, o) =>
      w.(orders := w.orders[a := ListOf(w.orders, a) + [o]],
         ledger := w.ledger[o.id := Origin(a, o.market, o.side, o.price, o.remaining)])
    case CancelOrder(a, id) =>
      if a !in w.orders then w else
      w.(orders := w.orders[a := Without(w.orders[a], id)],
         cancelled := w.cancelled[id := CancelledOf(w.cancelled, id) + Remains(w.orders, a, id)])
    case CollectPhase(req, users) =>
      w.(takers := w.takers + [Collected(req, Sort(req.side.Opposite(), Collect(w.orders, users, req)))])
    case CommitPhase(t) =>
      var req, cs := w.takers[t].req, w.takers[t].candidates;
      var r := Commit(w.orders, cs, req.qty, []);
      w.(orders := Reap(r.orders, req.market),
         takers := w.takers[t := Finished(req, r.fills)],
         fills := w.fills + r.fills)
  }

  ghost predicate IsRun(trace: seq<Step>, worlds: seq<World>) {
    && |worlds| == |trace| + 1 && worlds[0] == NOTHING
    && forall k | 0 <= k < |trace| :: Enabled(worlds[k], trace[k]) && worlds[k + 1] == Next(worlds[k], trace[k])
  }

  // ---- What is kept --------------------------------------------------------------------

  predicate EntryOk(a: Address, o: OpenOrder, ledger: Ledger) {
    && o.id in ledger && ledger[o.id].owner == a && ledger[o.id].market == o.market
    && ledger[o.id].side == o.side && ledger[o.id].price == o.price && o.remaining >= 0.0
  }

  predicate ListOk(a: Address, list: seq<OpenOrder>, ledger: Ledger) {
    && (forall i | 0 <= i < |list| :: EntryOk(a, list[i], ledger))
    && (forall i, j | 0 <= i < j < |list| :: list[i].id != list[j].id)
  }

  predicate OrdersOk(orders: Orders, ledger: Ledger) {
    forall a | a in orders :: ListOk(a, orders[a], ledger)
  }

  /** Used-up orders occur in this market only. */
  predicate PositiveOutside(list: seq<OpenOrder>, market: Option<MarketId>) {
    forall i | 0 <= i < |list| && Some(list[i].market) != market :: list[i].remaining > 0.0
  }

  predicate AllPositiveOutside(orders: Orders, market: Option<MarketId>) {
    forall a | a in orders :: PositiveOutside(orders[a], market)
  }

  /** This maker suits the request: not the taker's own, right market and side, price within limit,
      and the price is the one the order was placed at. */
  predicate Suits(req: Request, maker: Address, id: OrderId, price: real, ledger: Ledger) {
    && id in ledger && ledger[id].owner == maker && maker != req.taker
    && ledger[id].market == req.market && ledger[id].side == req.side.Opposite() && ledger[id].price == price
    && WithinLimit(req, price)
  }

  predicate CandidatesOk(req: Request, cs: seq<Candidate>, ledger: Ledger) {
    forall i | 0 <= i < |cs| :: Suits(req, cs[i].maker, cs[i].id, cs[i].price, ledger)
  }

  predicate FillsOk(req: Request, fills: seq<Matched>, ledger: Ledger) {
    forall i | 0 <= i < |fills| :: Suits(req, fills[i].maker, fills[i].id, fills[i].price, ledger) && fills[i].qty > 0.0
  }

  function FilledOf(fills: seq<Matched>, id: OrderId): real {
    if fills == [] then 0.0 else
    var f := fills[|fills| - 1];
    FilledOf(fills[..|fills| - 1], id) + (if f.id == id then f.qty else 0.0)
  }

  predicate TakerOk(t: Taker, ledger: Ledger) {
    match t
    case Collected(req, cs) => req.qty > 0.0 && CandidatesOk(req, cs, ledger)
    case Finished(req, fills) => FillsOk(req, fills, ledger) && TotalQty(fills) <= req.qty
  }

  /** The conservation law for one order. */
  predicate Conserved(w: World, id: OrderId)
    requires id in w.ledger
  {
    w.ledger[id].start == Remains(w.orders, w.ledger[id].owner, id) + CancelledOf(w.cancelled, id) + FilledOf(w.fills, id)
  }

  predicate Inv(w: World) {
    && OrdersOk(w.orders, w.ledger) && AllPositiveOutside(w.orders, None)
    && (forall t | 0 <= t < |w.takers| :: TakerOk(w.takers[t], w.ledger))
    && (forall id | id in w.ledger :: Conserved(w, id))
    && (forall id | id in w.cancelled :: w.cancelled[id] >= 0.0 && (id in w.ledger || w.cancelled[id] == 0.0))
    && (forall i | 0 <= i < |w.fills| :: w.fills[i].id in w.ledger && w.fills[i].qty > 0.0)
  }

  // ---- Reducing one order --------------------------------------------------------------

  lemma ReduceRemains(orders: Orders, a: Address, id: OrderId, qty: real, b: Address, x: OrderId)
    requires Find(ListOf(orders, a), id) < |ListOf(orders, a)|
    ensures Remains(Reduce(orders, a, id, qty), b, x) == Remains(orders, b, x) - (if b == a && x == id then qty else 0.0)
  {
    hide Find;
    var list := orders[a];
    var k := Find(list, id);
    if b == a { FindUnchanged(list, k, list[k].remaining - qty, x); }
    if x != id && Find(list, x) < |list| { assert list[Find(list, x)].id == x; }
  }

  lemma ReduceOk(orders: Orders, a: Address, id: OrderId, qty: real, ledger: Ledger, market: MarketId)
    requires OrdersOk(orders, ledger) && AllPositiveOutside(orders, Some(market))
    requires Find(ListOf(orders, a), id) < |ListOf(orders, a)| && qty <= Remains(orders, a, id)
    requires id in ledger && ledger[id].market == market
    ensures OrdersOk(Reduce(orders, a, id, qty), ledger) && AllPositiveOutside(Reduce(orders, a, id, qty), Some(market))
  {
    hide Find, EntryOk, ListOk, PositiveOutside;
    assert ListOk(a, orders[a], ledger) && PositiveOutside(orders[a], Some(market));
    ReduceListOk(a, orders[a], Find(orders[a], id), qty, ledger, market);
  }

  lemma ReduceListOk(a: Address, list: seq<OpenOrder>, k: nat, qty: real, ledger: Ledger, market: MarketId)
    requires ListOk(a, list, ledger) && PositiveOutside(list, Some(market))
    requires k < |list| && qty <= list[k].remaining && list[k].id in ledger && ledger[list[k].id].market == market
    ensures var list' := list[k := list[k].(remaining := list[k].remaining - qty)];
            ListOk(a, list', ledger) && PositiveOutside(list', Some(market))
  {
    var list' := list[k := list[k].(remaining := list[k].remaining - qty)];
    forall i | 0 <= i < |list'| ensures EntryOk(a, list'[i], ledger) { assert EntryOk(a, list[i], ledger); }
  }

  lemma TotalSnoc(fills: seq<Matched>, f: Matched)
    ensures TotalQty(fills + [f]) == TotalQty(fills) + f.qty
    ensures forall id :: FilledOf(fills + [f], id) == FilledOf(fills, id) + (if f.id == id then f.qty else 0.0)
  {
    assert (fills + [f])[..|fills|] == fills;
  }

  /** What a whole commit keeps, whatever has happened since the candidates were collected. */
  lemma {:induction false} CommitKeeps(orders: Orders, cs: seq<Candidate>, left: real, fills: seq<Matched>, req: Request, ledger: Ledger)
    requires OrdersOk(orders, ledger) && AllPositiveOutside(orders, Some(req.market))
    requires CandidatesOk(req, cs, ledger) && FillsOk(req, fills, ledger) && left >= 0.0
    ensures var r := Commit(orders, cs, left, fills);
            && OrdersOk(r.orders, ledger) && AllPositiveOutside(r.orders, Some(req.market))
            && FillsOk(req, r.fills, ledger) && r.left >= 0.0 && TotalQty(r.fills) + r.left == TotalQty(fills) + left
    ensures var r := Commit(orders, cs, left, fills);
            forall id | id in ledger ::
              Remains(r.orders, ledger[id].owner, id) + FilledOf(r.fills, id) ==
              Remains(orders, ledger[id].owner, id) + FilledOf(fills, id)
    decreases |cs|
  {
    hide Remains, Reduce, FilledOf, TotalQty, OrdersOk, AllPositiveOutside, Suits;
    if cs != [] && left != 0.0 {
      var c := cs[0];
      assert Suits(req, c.maker, c.id, c.price, ledger);
      assert CandidatesOk(req, cs[1..], ledger);
      var there := Remains(orders, c.maker, c.id);
      if there == 0.0 {
        CommitKeeps(orders, cs[1..], left, fills, req, ledger);
      } else {
        var qty, f := Min(left, there), Matched(c.maker, c.id, c.price, Min(left, there));
        RemainsThere(orders, c.maker, c.id, ledger);
        SuitsMeans(req, c.maker, c.id, c.price, ledger);
        ReduceOk(orders, c.maker, c.id, qty, ledger, req.market);
        TotalSnoc(fills, f);
        forall id | id in ledger
          ensures Remains(Reduce(orders, c.maker, c.id, qty), ledger[id].owner, id) ==
                  Remains(orders, ledger[id].owner, id) - (if id == c.id then qty else 0.0)
        {
          ReduceRemains(orders, c.maker, c.id, qty, ledger[id].owner, id);
        }
        CommitKeeps(Reduce(orders, c.maker, c.id, qty), cs[1..], left - qty, fills + [f], req, ledger);
      }
    }
  }

  lemma SuitsMeans(req: Request, maker: Address, id: OrderId, price: real, ledger: Ledger)
    requires Suits(req, maker, id, price, ledger)
    ensures id in ledger && ledger[id].owner == maker && ledger[id].market == req.market
  {}

  lemma RemainsThere(orders: Orders, a: Address, id: OrderId, ledger: Ledger)
    requires OrdersOk(orders, ledger)
    ensures Remains(orders, a, id) >= 0.0
    ensures Remains(orders, a, id) != 0.0 ==> Find(ListOf(orders, a), id) < |ListOf(orders, a)|
  {
    var list := ListOf(orders, a);
    if Find(list, id) < |list| { assert ListOk(a, list, ledger) && EntryOk(a, list[Find(list, id)], ledger); }
  }

  // ---- Reaping, adding, cancelling, collecting -----------------------------------------

  lemma ListTail(a: Address, list: seq<OpenOrder>, ledger: Ledger)
    requires ListOk(a, list, ledger) && list != []
    ensures ListOk(a, list[1..], ledger) && EntryOk(a, list[0], ledger) && list[0].remaining >= 0.0
    ensures forall i | 0 <= i < |list[1..]| :: list[1..][i].id != list[0].id
  {
    var rest := list[1..];
    forall i | 0 <= i < |rest| ensures EntryOk(a, rest[i], ledger) { assert EntryOk(a, list[i + 1], ledger); }
  }

  lemma ListCons(a: Address, o: OpenOrder, r: seq<OpenOrder>, ledger: Ledger)
    requires ListOk(a, r, ledger) && EntryOk(a, o, ledger) && forall i | 0 <= i < |r| :: r[i].id != o.id
    ensures ListOk(a, [o] + r, ledger)
  {
    var l := [o] + r;
    forall i | 0 <= i < |l| ensures EntryOk(a, l[i], ledger) { if i > 0 { assert EntryOk(a, r[i - 1], ledger); } }
  }

  lemma LeftCons(list: seq<OpenOrder>, id: OrderId)
    requires list != []
    ensures LeftIn(list, id) == if list[0].id == id then list[0].remaining else LeftIn(list[1..], id)
  {}

  lemma {:induction false} NotFound(list: seq<OpenOrder>, id: OrderId)
    requires forall i | 0 <= i < |list| :: list[i].id != id
    ensures Find(list, id) == |list| && LeftIn(list, id) == 0.0
  {
    if list != [] { NotFound(list[1..], id); }
  }

  lemma {:induction false} ReapListFacts(a: Address, list: seq<OpenOrder>, market: MarketId, ledger: Ledger)
    requires ListOk(a, list, ledger) && PositiveOutside(list, Some(market))
    ensures var r := ReapList(list, market);
            ListOk(a, r, ledger) && PositiveOutside(r, None) && forall i | 0 <= i < |r| :: r[i] in list
  {
    hide EntryOk, ListOk, PositiveOutside;
    if list == [] {
      NoOrders(a, ledger);
    } else {
      var o, r := list[0], ReapList(list[1..], market);
      ListTail(a, list, ledger);
      PositiveTail(list, Some(market));
      ReapListFacts(a, list[1..], market, ledger);
      if o.market == market && o.remaining == 0.0 {
        assert [] + r == r;
      } else {
        forall i | 0 <= i < |r| ensures r[i].id != o.id { assert r[i] in list[1..]; }
        ListCons(a, o, r, ledger);
        PositiveCons(o, r, None);
      }
    }
  }

  lemma NoOrders(a: Address, ledger: Ledger)
    ensures ListOk(a, [], ledger) && PositiveOutside([], None)
  {}

  lemma PositiveTail(list: seq<OpenOrder>, market: Option<MarketId>)
    requires PositiveOutside(list, market) && list != []
    ensures PositiveOutside(list[1..], market)
    ensures Some(list[0].market) != market ==> list[0].remaining > 0.0
  {}

  lemma PositiveCons(o: OpenOrder, r: seq<OpenOrder>, market: Option<MarketId>)
    requires PositiveOutside(r, market) && o.remaining > 0.0
    ensures PositiveOutside([o] + r, market)
  {}

  lemma {:induction false} ReapListLeft(list: seq<OpenOrder>, market: MarketId, id: OrderId)
    requires forall i, j | 0 <= i < j < |list| :: list[i].id != list[j].id
    ensures LeftIn(ReapList(list, market), id) == LeftIn(list, id)
    ensures forall i | 0 <= i < |ReapList(list, market)| :: ReapList(list, market)[i] in list
  {
    hide LeftIn;
    if list == [] {
    } else {
      var r := ReapList(list[1..], market);
      ReapListLeft(list[1..], market, id);
      LeftCons(list, id);
      assert [] + r == r;
      if list[0].market == market && list[0].remaining == 0.0 {
        if list[0].id == id {
          forall i | 0 <= i < |r| ensures r[i].id != id { assert r[i] in list[1..]; }
          NotFound(r, id);
        }
      } else {
        LeftCons([list[0]] + r, id);
        assert ([list[0]] + r)[1..] == r;
      }
    }
  }

  lemma ReapKeeps(orders: Orders, market: MarketId, ledger: Ledger)
    requires OrdersOk(orders, ledger) && AllPositiveOutside(orders, Some(market))
    ensures OrdersOk(Reap(orders, market), ledger) && AllPositiveOutside(Reap(orders, market), None)
    ensures forall a, id :: Remains(Reap(orders, market), a, id) == Remains(orders, a, id)
  {
    hide ReapList, LeftIn;
    forall a | a in orders
      ensures ListOk(a, ReapList(orders[a], market), ledger) && PositiveOutside(ReapList(orders[a], market), None)
    {
      assert ListOk(a, orders[a], ledger) && PositiveOutside(orders[a], Some(market));
      ReapListFacts(a, orders[a], market, ledger);
    }
    forall a, id | a in orders ensures Remains(Reap(orders, market), a, id) == Remains(orders, a, id) {
      assert ListOk(a, orders[a], ledger);
      ReapListLeft(orders[a], market, id);
    }
  }

  lemma {:induction false} WithoutFacts(a: Address, list: seq<OpenOrder>, gone: OrderId, ledger: Ledger)
    requires ListOk(a, list, ledger) && PositiveOutside(list, None)
    ensures var r := Without(list, gone);
            ListOk(a, r, ledger) && PositiveOutside(r, None) && forall i | 0 <= i < |r| :: r[i] in list
  {
    hide EntryOk, ListOk, PositiveOutside;
    if list == [] {
      NoOrders(a, ledger);
    } else {
      var r := Without(list[1..], gone);
      ListTail(a, list, ledger);
      PositiveTail(list, None);
      WithoutFacts(a, list[1..], gone, ledger);
      if list[0].id == gone {
        assert [] + r == r;
      } else {
        forall i | 0 <= i < |r| ensures r[i].id != list[0].id { assert r[i] in list[1..]; }
        ListCons(a, list[0], r, ledger);
        PositiveCons(list[0], r, None);
      }
    }
  }

  lemma {:induction false} WithoutLeft(list: seq<OpenOrder>, gone: OrderId, id: OrderId)
    ensures LeftIn(Without(list, gone), id) == if id == gone then 0.0 else LeftIn(list, id)
  {
    if list != [] {
      hide LeftIn;
      var r := Without(list[1..], gone);
      WithoutLeft(list[1..], gone, id);
      LeftCons(list, id);
      assert [] + r == r;
      if list[0].id != gone {
        LeftCons([list[0]] + r, id);
        assert ([list[0]] + r)[1..] == r;
      }
    }
  }

  lemma {:induction false} FindSnoc(list: seq<OpenOrder>, o: OpenOrder, id: OrderId)
    ensures Find(list + [o], id) == if Find(list, id) < |list| then Find(list, id) else if o.id == id then |list| else |list| + 1
  {
    if list != [] {
      assert (list + [o])[1..] == list[1..] + [o];
      FindSnoc(list[1..], o, id);
    }
  }

  lemma {:induction false} FromListSuits(req: Request, a: Address, list: seq<OpenOrder>, ledger: Ledger)
    requires ListOk(a, list, ledger) && a != req.taker
    ensures CandidatesOk(req, FromList(req, a, list), ledger)
  {
    if list != [] {
      var rest := list[1..];
      assert ListOk(a, rest, ledger) by { forall i | 0 <= i < |rest| ensures EntryOk(a, rest[i], ledger) { assert EntryOk(a, list[i + 1], ledger); } }
      FromListSuits(req, a, rest, ledger);
      assert EntryOk(a, list[0], ledger);
    }
  }

  lemma {:induction false} CollectSuits(orders: Orders, users: seq<Address>, req: Request, ledger: Ledger)
    requires OrdersOk(orders, ledger)
    ensures CandidatesOk(req, Collect(orders, users, req), ledger)
  {
    if users != [] {
      hide Suits, FromList;
      CollectSuits(orders, users[1..], req, ledger);
      var list := ListOf(orders, users[0]);
      if users[0] != req.taker {
        assert ListOk(users[0], list, ledger);
        FromListSuits(req, users[0], list, ledger);
      }
    }
  }

  lemma SortedSuits(side: Side, req: Request, cs: seq<Candidate>, ledger: Ledger)
    requires CandidatesOk(req, cs, ledger)
    ensures CandidatesOk(req, Sort(side, cs), ledger)
  {
    var s := Sort(side, cs);
    SortFacts(side, cs);
    forall i | 0 <= i < |s| ensures Suits(req, s[i].maker, s[i].id, s[i].price, ledger) {
      assert s[i] in multiset(s);
      assert s[i] in cs;
    }
  }

  lemma {:induction false} FilledConcat(a: seq<Matched>, b: seq<Matched>, id: OrderId)
    ensures FilledOf(a + b, id) == FilledOf(a, id) + FilledOf(b, id)
  {
    if b == [] {
      assert a + b == a;
    } else {
      var n := |b| - 1;
      FilledConcat(a, b[..n], id);
      assert (a + b)[..|a + b| - 1] == a + b[..n];
    }
  }

  lemma {:induction false} NeverFilled(fills: seq<Matched>, id: OrderId)
    requires forall i | 0 <= i < |fills| :: fills[i].id != id
    ensures FilledOf(fills, id) == 0.0
  {
    if fills != [] { NeverFilled(fills[..|fills| - 1], id); }
  }

  // ---- Every step ----------------------------------------------------------------------

  lemma AddKeepsOrders(w: World, a: Address, o: OpenOrder)
    requires Inv(w) && Enabled(w, Add(a, o))
    ensures var w' := Next(w, Add(a, o)); OrdersOk(w'.orders, w'.ledger) && AllPositiveOutside(w'.orders, None)
  {
    var w' := Next(w, Add(a, o));
    forall b | b in w'.orders ensures ListOk(b, w'.orders[b], w'.ledger) && PositiveOutside(w'.orders[b], None) {
      var l := ListOf(w.orders, b);
      assert ListOk(b, l, w.ledger) && PositiveOutside(l, None);
      LedgerGrew(b, l, w.ledger, o.id, w'.ledger[o.id]);
      if b == a { AppendOk(a, l, o, w'.ledger); }
    }
  }

  lemma LedgerGrew(b: Address, l: seq<OpenOrder>, ledger: Ledger, id: OrderId, entry: Origin)
    requires ListOk(b, l, ledger) && id !in ledger
    ensures ListOk(b, l, ledger[id := entry]) && forall i | 0 <= i < |l| :: l[i].id != id
  {
    forall i | 0 <= i < |l| ensures EntryOk(b, l[i], ledger[id := entry]) && l[i].id != id { assert EntryOk(b, l[i], ledger); }
  }

  lemma AppendOk(a: Address, l: seq<OpenOrder>, o: OpenOrder, ledger: Ledger)
    requires ListOk(a, l, ledger) && EntryOk(a, o, ledger) && PositiveOutside(l, None) && o.remaining > 0.0
    requires forall i | 0 <= i < |l| :: l[i].id != o.id
    ensures ListOk(a, l + [o], ledger) && PositiveOutside(l + [o], None)
  {}

  lemma AddConserves(w: World, a: Address, o: OpenOrder, id: OrderId)
    requires Inv(w) && Enabled(w, Add(a, o)) && id in Next(w, Add(a, o)).ledger
    ensures Conserved(Next(w, Add(a, o)), id)
  {
    var list := ListOf(w.orders, a);
    FindSnoc(list, o, id);
    if id == o.id {
      NeverFilled(w.fills, id);
      assert ListOk(a, list, w.ledger);
      OnlyAtOwner(a, list, id, w.ledger);
    } else {
      assert Conserved(w, id);
    }
  }

  lemma AddKeeps(w: World, a: Address, o: OpenOrder)
    requires Inv(w) && Enabled(w, Add(a, o))
    ensures Inv(Next(w, Add(a, o)))
  {
    hide OrdersOk, AllPositiveOutside, Conserved, TakerOk;
    var w' := Next(w, Add(a, o));
    AddKeepsOrders(w, a, o);
    forall id | id in w'.ledger ensures Conserved(w', id) { AddConserves(w, a, o, id); }
    forall t | 0 <= t < |w.takers| ensures TakerOk(w.takers[t], w'.ledger) { LedgerGrows(w.takers[t], w.ledger, w'.ledger); }
  }

  lemma LedgerGrows(t: Taker, ledger: Ledger, ledger': Ledger)
    requires TakerOk(t, ledger) && forall id | id in ledger :: id in ledger' && ledger'[id] == ledger[id]
    ensures TakerOk(t, ledger')
  {
    if t.Collected? {
      var cs := t.candidates;
      forall i | 0 <= i < |cs| ensures Suits(t.req, cs[i].maker, cs[i].id, cs[i].price, ledger') {
        assert Suits(t.req, cs[i].maker, cs[i].id, cs[i].price, ledger);
      }
    } else {
      var fs := t.fills;
      forall i | 0 <= i < |fs| ensures Suits(t.req, fs[i].maker, fs[i].id, fs[i].price, ledger') {
        assert Suits(t.req, fs[i].maker, fs[i].id, fs[i].price, ledger);
      }
    }
  }

  lemma CancelConserves(w: World, a: Address, id: OrderId, x: OrderId)
    requires Inv(w) && a in w.orders && x in w.ledger
    ensures Conserved(Next(w, CancelOrder(a, id)), x)
  {
    hide LeftIn, FilledOf;
    assert Conserved(w, x) && ListOk(a, w.orders[a], w.ledger);
    WithoutLeft(w.orders[a], id, x);
    if x == id && w.ledger[x].owner != a { OnlyAtOwner(a, w.orders[a], x, w.ledger); }
  }

  lemma CancelKeeps(w: World, a: Address, id: OrderId)
    requires Inv(w)
    ensures Inv(Next(w, CancelOrder(a, id)))
  {
    hide Conserved, TakerOk, Without;
    if a in w.orders {
      var w' := Next(w, CancelOrder(a, id));
      assert ListOk(a, w.orders[a], w.ledger) && PositiveOutside(w.orders[a], None);
      WithoutFacts(a, w.orders[a], id, w.ledger);
      forall x | x in w'.ledger ensures Conserved(w', x) { CancelConserves(w, a, id, x); }
      RemainsThere(w.orders, a, id, w.ledger);
      if id !in w.ledger { OnlyAtOwner(a, w.orders[a], id, w.ledger); }
    }
  }

  lemma OnlyAtOwner(a: Address, list: seq<OpenOrder>, id: OrderId, ledger: Ledger)
    requires ListOk(a, list, ledger) && (id !in ledger || ledger[id].owner != a)
    ensures Find(list, id) == |list| && LeftIn(list, id) == 0.0
  {
    forall i | 0 <= i < |list| ensures list[i].id != id { assert EntryOk(a, list[i], ledger); }
    NotFound(list, id);
  }

  lemma CollectKeeps(w: World, req: Request, users: seq<Address>)
    requires Inv(w) && req.qty > 0.0
    ensures Inv(Next(w, CollectPhase(req, users)))
  {
    hide Suits, Collect, Sort;
    CollectSuits(w.orders, users, req, w.ledger);
    SortedSuits(req.side.Opposite(), req, Collect(w.orders, users, req), w.ledger);
    var w' := Next(w, CollectPhase(req, users));
    forall id | id in w'.ledger ensures Conserved(w', id) { assert Conserved(w, id); }
  }

  lemma Weaken(orders: Orders, market: MarketId)
    requires AllPositiveOutside(orders, None)
    ensures AllPositiveOutside(orders, Some(market))
  {
    forall a | a in orders ensures PositiveOutside(orders[a], Some(market)) { assert PositiveOutside(orders[a], None); }
  }

  lemma CommitStepKeeps(w: World, t: nat)
    requires Inv(w) && Enabled(w, CommitPhase(t))
    ensures Inv(Next(w, CommitPhase(t)))
  {
    hide Commit, Reap, Remains, LeftIn, Suits, OrdersOk, AllPositiveOutside, FilledOf, TotalQty;
    var req, cs := w.takers[t].req, w.takers[t].candidates;
    var r, w' := Commit(w.orders, cs, req.qty, []), Next(w, CommitPhase(t));
    assert TakerOk(w.takers[t], w.ledger);
    Weaken(w.orders, req.market);
    CommitKeeps(w.orders, cs, req.qty, [], req, w.ledger);
    ReapKeeps(r.orders, req.market, w.ledger);
    assert TotalQty([]) == 0.0 by { TotalOfNone(); }
    forall id | id in w'.ledger ensures Conserved(w', id) {
      assert Conserved(w, id);
      FilledConcat(w.fills, r.fills, id);
      NeverFilled([], id);
    }
    forall i | 0 <= i < |w'.fills| ensures w'.fills[i].id in w'.ledger && w'.fills[i].qty > 0.0 {
      if i >= |w.fills| {
        var f := r.fills[i - |w.fills|];
        assert Suits(req, f.maker, f.id, f.price, w.ledger);
        SuitsMeans(req, f.maker, f.id, f.price, w.ledger);
      }
    }
  }

  lemma TotalOfNone()
    ensures TotalQty([]) == 0.0
  {}

  lemma NextKeeps(w: World, s: Step)
    requires Inv(w) && Enabled(w, s)
    ensures Inv(Next(w, s))
  {
    hide Inv, Next;
    match s
    case Add(a, o) => AddKeeps(w, a, o);
    case CancelOrder(a, id) => CancelKeeps(w, a, id);
    case CollectPhase(req, users) => CollectKeeps(w, req, users);
    case CommitPhase(t) => CommitStepKeeps(w, t);
  }

  /** Main result: the invariant holds in every reachable world, for every interleaving. */
  lemma {:induction false} RunKeeps(trace: seq<Step>, worlds: seq<World>, k: nat)
    requires IsRun(trace, worlds) && k < |worlds|
    ensures Inv(worlds[k])
  {
    hide Next;
    if k > 0 {
      hide Inv;
      RunKeeps(trace, worlds, k - 1);
      NextKeeps(worlds[k - 1], trace[k - 1]);
    }
  }

  lemma {:induction false} FilledNonNegative(fills: seq<Matched>, id: OrderId)
    requires forall i | 0 <= i < |fills| :: fills[i].qty > 0.0
    ensures FilledOf(fills, id) >= 0.0
  {
    if fills != [] { FilledNonNegative(fills[..|fills| - 1], id); }
  }

  /** Spelled out for an order: nothing of it is ever negative, nothing is lost, and it is never
      filled beyond what it started with. */
  lemma NoOverfill(trace: seq<Step>, worlds: seq<World>, k: nat, id: OrderId)
    requires IsRun(trace, worlds) && k < |worlds| && id in worlds[k].ledger
    ensures var w := worlds[k];
            var remaining, cancelled, filled := Remains(w.orders, w.ledger[id].owner, id), CancelledOf(w.cancelled, id), FilledOf(w.fills, id);
            && remaining >= 0.0 && cancelled >= 0.0 && 0.0 <= filled <= w.ledger[id].start
            && w.ledger[id].start == remaining + cancelled + filled
  {
    hide Remains, FilledOf, TakerOk, OrdersOk, AllPositiveOutside;
    RunKeeps(trace, worlds, k);
    var w := worlds[k];
    assert Conserved(w, id);
    RemainsThere(w.orders, w.ledger[id].owner, id, w.ledger);
    FilledNonNegative(w.fills, id);
  }

  /** And for a taker: it gets at most what it asked for, never from itself, always from the right
      market and side, within its limit and at the maker's price. */
  lemma TakerWithinRequest(trace: seq<Step>, worlds: seq<World>, k: nat, t: nat)
    requires IsRun(trace, worlds) && k < |worlds| && t < |worlds[k].takers| && worlds[k].takers[t].Finished?
    ensures var w := worlds[k];
            && TotalQty(w.takers[t].fills) <= w.takers[t].req.qty
            && FillsOk(w.takers[t].req, w.takers[t].fills, w.ledger)
  {
    RunKeeps(trace, worlds, k);
    assert TakerOk(worlds[k].takers[t], worlds[k].ledger);
  }
}
