/**
 What a submit answers and what it leaves behind, told from the order, the book and the history
 of commands: which checks reject, which error is reported, what rests, and that every resting
 order is some submitted order less what the fills of the run took off it.
 */
module Outcomes {
  import opened OrderTypes
  import opened FlatBook
  import opened BookRuns
  import opened Greedy

  // ---- The checks before crossing ------------------------------------------------------

  /** The limit `price` reaches the resting `maker`, whatever the order type. */
  predicate Touches(side: Side, price: real, maker: Order) {
    if side == Buy then maker.price <= price else price <= maker.price
  }

  /** Quantity of all the entries of `s` the taker's price reaches. */
  function Offered(taker: Order, s: seq<Order>): real {
    if s == [] then 0.0
    else (if taker.Crosses(s[0].price) then s[0].remaining else 0.0) + Offered(taker, s[1..])
  }

  lemma {:induction false} NoneOffered(taker: Order, s: seq<Order>)
    requires NoneCross(taker, s)
    ensures Offered(taker, s) == 0.0
  {
    if s != [] { NoneOffered(taker, s[1..]); }
  }

  /** On a sorted list the front part within reach is everything within reach. */
  lemma {:induction false} CrossableIsOffered(taker: Order, s: seq<Order>)
    requires Sorted(taker.side.Opposite(), s)
    ensures Crossable(taker, s) == Offered(taker, s)
  {
    if s != [] {
      if taker.Crosses(s[0].price) {
        SortedTail(taker.side.Opposite(), s);
        CrossableIsOffered(taker, s[1..]);
        assert s[..Reach(taker, s)][1..] == s[1..][..Reach(taker, s[1..])];
      } else {
        NoneOffered(taker, s);
      }
    }
  }

  /** Whether error `e` is justified by order, flag and the other side of the book. */
  predicate Justified(mode: SelfTradeMode, o: Order, reduces: bool, opp: seq<Order>, e: SubmitError) {
    match e
    case ZeroQty => o.qty <= 0.0
    case ZeroPrice => o.orderType == Limit && o.price <= 0.0
    case PostOnlyWouldCross => o.postOnly && exists i :: 0 <= i < |opp| && Touches(o.side, o.price, opp[i])
    case ReduceOnlyWouldIncrease => o.reduceOnly && !reduces
    case FokUnfillable => o.tif == Fok && Offered(o, opp) < o.qty
    case SelfTradeRejected => mode == CancelNewest && MeetsOwn(o, o.qty, opp)
    case MarketNoLiquidity => o.orderType == Market && Tradable(mode, o, opp) < o.qty
  }

  /** The best price is reached as soon as any is. */
  lemma BestTouched(side: Side, price: real, s: seq<Order>)
    requires Sorted(side.Opposite(), s)
    ensures (exists i :: 0 <= i < |s| && Touches(side, price, s[i])) <==> s != [] && Touches(side, price, s[0])
  {}

  /** A submit passes the checks exactly when none of the first five errors is justified, and an
      error they report is justified. */
  lemma CheckIff(mode: SelfTradeMode, f: Flat, o: Order, reduces: bool)
    requires Good(mode, f)
    ensures var opp, pre := f.At(o.side.Opposite()), PreCheck(f, o, reduces);
            && (pre == None <==>
                && o.qty > 0.0
                && (o.orderType == Limit ==> o.price > 0.0)
                && (o.postOnly ==> forall i | 0 <= i < |opp| :: !Touches(o.side, o.price, opp[i]))
                && (o.reduceOnly ==> reduces)
                && (o.tif == Fok ==> Offered(o, opp) >= o.qty))
            && (pre.Some? ==> Justified(mode, o, reduces, opp, pre.value))
  {
    var opp := f.At(o.side.Opposite());
    GoodParts(mode, f, o.side.Opposite());
    BestTouched(o.side, o.price, opp);
    CrossableIsOffered(o, opp);
  }

  /** Every error a submit answers with is justified by the book it met. */
  lemma ErrorIsJustified(mode: SelfTradeMode, f: Flat, o: Order, reduces: bool)
    requires Good(mode, f) && Submit(mode, f, o, reduces).1.Err?
    ensures Justified(mode, o, reduces, f.At(o.side.Opposite()), Submit(mode, f, o, reduces).1.error)
  {
    hide Walk, MeetsOwn, Tradable, Good;
    var opp := f.At(o.side.Opposite());
    CheckIff(mode, f, o, reduces);
    GoodIsNonNegative(mode, f, o.side.Opposite());
    if PreCheck(f, o, reduces) == None {
      RejectedIff(mode, o, o.qty, opp, f.nextFillId);
      WalkTotal(mode, o, o.qty, opp, f.nextFillId);
    }
  }

  // ---- What an accepted submit leaves --------------------------------------------------

  /** What of an accepted order rests: its id is reported exactly for a good-till-cancelled limit
      order with quantity over, and the order then stands on its own side, at its own price. */
  lemma RestsIff(mode: SelfTradeMode, f: Flat, o: Order, reduces: bool)
    requires Good(mode, f) && Submit(mode, f, o, reduces).1.Ok?
    ensures var (f', r) := Submit(mode, f, o, reduces);
            && (r.outcome.resting.Some? <==> o.orderType == Limit && o.tif == Gtc && r.outcome.remaining > 0.0)
            && (r.outcome.resting.Some? ==>
                && r.outcome.resting.value == o.id && o.id in f'.byId && f'.byId[o.id] == o.side
                && o.(remaining := r.outcome.remaining) in f'.At(o.side))
            && (r.outcome.resting == None ==> f'.At(o.side) == f.At(o.side))
  {
    hide Walk, Settle;
    var w := WalkOf(mode, f, o);
    if w.left > 0.0 && o.orderType == Limit && o.tif == Gtc {
      var s, o' := f.At(o.side), o.(remaining := w.left);
      GoodParts(mode, f, o.side);
      var k := InsertAt(o.side, s, o');
      assert Insert(o.side, s, o')[k] == o';
    }
  }

  /** A post-only limit order that is accepted has traded nothing. */
  lemma PostOnlyNeverTakes(mode: SelfTradeMode, f: Flat, o: Order, reduces: bool)
    requires Good(mode, f) && o.postOnly && o.orderType == Limit && Submit(mode, f, o, reduces).1.Ok?
    ensures var out := Submit(mode, f, o, reduces).1.outcome; out.fills == [] && out.remaining == o.qty
  {
    hide Walk, Good;
    AcceptedWalk(mode, f, o, reduces);
    CheckIff(mode, f, o, reduces);
    WalkStep(mode, o, o.qty, f.At(o.side.Opposite()), f.nextFillId);
  }

  /** `f'` is `f` without the order at `k` of `side`. */
  predicate TakenOut(f: Flat, f': Flat, side: Side, k: nat) {
    && k < |f.At(side)| && f'.At(side) == f.At(side)[..k] + f.At(side)[k + 1..]
    && f'.At(side.Opposite()) == f.At(side.Opposite())
  }

  /** A cancel of an order with quantity left takes out exactly the order of that id; any other
      cancel changes nothing. */
  lemma CancelExact(mode: SelfTradeMode, f: Flat, id: OrderId) returns (k: nat)
    requires Good(mode, f)
    ensures var (f', found) := Cancel(f, id);
            && (found <==> Live(f.bids, id) || Live(f.asks, id))
            && (!found ==> f' == f)
            && (found ==> id in f.byId && TakenOut(f, f', f.byId[id], k) && f.At(f.byId[id])[k].id == id)
  {
    hide Remove;
    k := 0;
    LiveIsIndexed(mode, f, id);
    if id in f.byId {
      var side := f.byId[id];
      k := RemoveAt(f.At(side), id);
      SplicedIsCut(f.At(side), Remove(f.At(side), id), k);
    }
  }

  lemma LiveIsIndexed(mode: SelfTradeMode, f: Flat, id: OrderId)
    requires Good(mode, f)
    ensures id in f.byId <==> Live(f.bids, id) || Live(f.asks, id)
    ensures id in f.byId ==> Live(f.At(f.byId[id]), id)
  {}

  lemma SplicedIsCut(s: seq<Order>, s': seq<Order>, k: nat)
    requires k < |s| && Spliced(s', s, k, s[k])
    ensures s' == s[..k] + s[k + 1..]
  {}

  // ---- The fills of a run --------------------------------------------------------------

  /** Quantity of the fills that name `id`, as maker or as taker. */
  function TradedBy(fills: seq<Fill>, id: OrderId): real {
    if fills == [] then 0.0
    else (if fills[0].makerOrderId == id || fills[0].takerOrderId == id then fills[0].qty else 0.0) + TradedBy(fills[1..], id)
  }

  /** The fills name only orders of `ids`. */
  predicate Naming(fills: seq<Fill>, ids: set<OrderId>) {
    forall k | 0 <= k < |fills| :: fills[k].makerOrderId in ids && fills[k].takerOrderId in ids
  }

  lemma {:induction false} TradedByJoin(a: seq<Fill>, b: seq<Fill>, id: OrderId)
    ensures TradedBy(a + b, id) == TradedBy(a, id) + TradedBy(b, id)
  {
    if a == [] {
      assert a + b == b;
    } else {
      assert (a + b)[1..] == a[1..] + b;
      TradedByJoin(a[1..], b, id);
    }
  }

  lemma {:induction false} TradedByNobody(fills: seq<Fill>, ids: set<OrderId>, id: OrderId)
    requires Naming(fills, ids) && id !in ids
    ensures TradedBy(fills, id) == 0.0
  {
    if fills != [] { TradedByNobody(fills[1..], ids, id); }
  }

  lemma {:induction false} TradedByTaker(taker: Order, left: real, book: seq<Order>, next: nat, mode: SelfTradeMode)
    ensures var w := Walk(mode, taker, left, book, next); TradedBy(w.fills, taker.id) == left - w.left
    decreases |book|
  {
    hide Walk, TradedBy;
    WalkStep(mode, taker, left, book, next);
    TradedByNone(taker.id);
    if book != [] {
      match Meet(mode, taker, left, book[0])
      case Stop =>
      case Reject =>
      case Withdraw => TradedByTaker(taker, left, book[1..], next, mode);
      case Take(qty) =>
        TradedByTaker(taker, left - qty, book[1..], next + 1, mode);
        TradedByCons(FillOf(taker, book[0], qty, next + 1), Walk(mode, taker, left - qty, book[1..], next + 1).fills, taker.id);
    }
  }

  lemma TradedByNone(id: OrderId)
    ensures TradedBy([], id) == 0.0
  {}

  lemma TradedByCons(f: Fill, fs: seq<Fill>, id: OrderId)
    ensures var q := if f.makerOrderId == id || f.takerOrderId == id then f.qty else 0.0;
            TradedBy([f] + fs, id) == q + TradedBy(fs, id) && TradedBy([f], id) == q
  {
    assert ([f] + fs)[1..] == fs && [f][1..] == [];
  }

  /** A walk takes off each entry what its fills say, and its fills name the taker and entries. */
  lemma {:induction false} TradedByMaker(mode: SelfTradeMode, taker: Order, left: real, book: seq<Order>, next: nat, id: OrderId)
    requires UniqueIds(book) && taker.id != id
    ensures var w := Walk(mode, taker, left, book, next);
            && (forall i | 0 <= i < |book| && book[i].id == id :: w.raw[i] == Reduced(book[i], TradedBy(w.fills, id)))
            && (id !in Ids(book) ==> TradedBy(w.fills, id) == 0.0)
    decreases |book|
  {
    hide Walk, TradedBy;
    WalkStep(mode, taker, left, book, next);
    TradedByNone(id);
    if book != [] {
      var w, rest := Walk(mode, taker, left, book, next), book[1..];
      assert Ids(book) == {book[0].id} + Ids(rest) by { IdsCons(book); }
      match Meet(mode, taker, left, book[0])
      case Stop =>
      case Reject =>
      case Withdraw =>
        TradedByMaker(mode, taker, left, rest, next, id);
        FirstApart(book);
      case Take(qty) =>
        TradedByMaker(mode, taker, left - qty, rest, next + 1, id);
        FirstApart(book);
        TradedByCons(FillOf(taker, book[0], qty, next + 1), Walk(mode, taker, left - qty, rest, next + 1).fills, id);
    }
  }

  lemma IdsCons(s: seq<Order>)
    requires s != []
    ensures Ids(s) == {s[0].id} + Ids(s[1..])
  {
    forall id | id in Ids(s) ensures id in {s[0].id} + Ids(s[1..]) {
      var i :| 0 <= i < |s| && s[i].id == id;
      if i > 0 { assert s[1..][i - 1].id == id; }
    }
  }

  lemma FirstApart(s: seq<Order>)
    requires UniqueIds(s) && s != []
    ensures UniqueIds(s[1..]) && s[0].id !in Ids(s[1..])
  {}

  lemma WalkNames(mode: SelfTradeMode, taker: Order, left: real, book: seq<Order>, next: nat, ids: set<OrderId>)
    requires NonNegative(book) && left >= 0.0 && forall i | 0 <= i < |book| :: book[i].id in ids
    ensures Naming(Walk(mode, taker, left, book, next).fills, ids + {taker.id})
  {
    hide Walk;
    WalkTakesInOrder(mode, taker, left, book, next);
    OthersAmong(taker, book);
    var makers := Partners(mode, taker, book);
    forall k | 0 <= k < |makers| ensures makers[k].id in ids { assert makers[k] in book; }
  }

  lemma {:induction false} OthersAmong(taker: Order, s: seq<Order>)
    ensures forall o | o in Others(taker, s) :: o in s
  {
    if s != [] { OthersAmong(taker, s[1..]); }
  }

  // ---- Where resting orders come from --------------------------------------------------

  /** All that a command trades, whether or not its submit is accepted in the end. */
  function CommandFills(mode: SelfTradeMode, f: Flat, c: Command): seq<Fill> {
    if c.Place? && PreCheck(f, c.order, c.reduces) == None then WalkOf(mode, f, c.order).fills else []
  }

  function RunFills(mode: SelfTradeMode, cs: seq<Command>): seq<Fill> {
    if cs == [] then [] else
    var before := cs[..|cs| - 1];
    RunFills(mode, before) + CommandFills(mode, Run(mode, before), cs[|cs| - 1])
  }

  /** `r` is what the fills have left of `o`, a limit order that is good till cancelled. */
  predicate LeftOf(o: Order, fills: seq<Fill>, r: Order) {
    && o.orderType == Limit && o.tif == Gtc
    && r == o.(remaining := o.qty - TradedBy(fills, o.id))
  }

  predicate Descends(cs: seq<Command>, fills: seq<Fill>, r: Order) {
    exists i :: 0 <= i < |cs| && cs[i].Place? && LeftOf(cs[i].order, fills, r)
  }

  predicate AllDescend(cs: seq<Command>, fills: seq<Fill>, s: seq<Order>) {
    forall i | 0 <= i < |s| :: Descends(cs, fills, s[i])
  }

  predicate BothDescend(cs: seq<Command>, fills: seq<Fill>, f: Flat) {
    AllDescend(cs, fills, f.bids) && AllDescend(cs, fills, f.asks)
  }

  lemma DescendsOn(cs: seq<Command>, c: Command, fills: seq<Fill>, more: seq<Fill>, r: Order)
    requires Descends(cs, fills, r)
    ensures Descends(cs + [c], fills + more, Reduced(r, TradedBy(more, r.id)))
  {
    var i :| 0 <= i < |cs| && cs[i].Place? && LeftOf(cs[i].order, fills, r);
    var all := cs + [c];
    TradedByJoin(fills, more, r.id);
    assert all[i] == cs[i] && LeftOf(all[i].order, fills + more, Reduced(r, TradedBy(more, r.id)));
  }

  /** Orders that a command does not trade with. */
  lemma UntradedDescend(cs: seq<Command>, c: Command, fills: seq<Fill>, more: seq<Fill>, s: seq<Order>, s': seq<Order>)
    requires AllDescend(cs, fills, s) && forall o | o in s' :: o in s && TradedBy(more, o.id) == 0.0
    ensures AllDescend(cs + [c], fills + more, s')
  {
    hide Descends, TradedBy;
    forall i | 0 <= i < |s'| ensures Descends(cs + [c], fills + more, s'[i]) {
      assert s'[i] in s';
      DescendsOn(cs, c, fills, more, s'[i]);
      assert Reduced(s'[i], 0.0) == s'[i];
    }
  }

  /** What a walk leaves of the side it crosses. */
  lemma WalkedDescend(mode: SelfTradeMode, f: Flat, o: Order, cs: seq<Command>, c: Command, fills: seq<Fill>)
    requires Good(mode, f) && o.qty > 0.0 && o.id !in Ids(f.At(o.side.Opposite()))
    requires AllDescend(cs, fills, f.At(o.side.Opposite()))
    ensures var w := WalkOf(mode, f, o); AllDescend(cs + [c], fills + w.fills, Settle(w))
  {
    hide Good, Walk, Descends, TradedBy, Settle;
    var s, w := f.At(o.side.Opposite()), WalkOf(mode, f, o);
    SideFacts(mode, f, o.side.Opposite());
    WalkShape(mode, o, o.qty, s, f.nextFillId);
    forall i | 0 <= i < |s| ensures Same(w.raw[i], s[i]) { assert Touched(mode, o, w, s, i); }
    SettleIsSuffix(o.side.Opposite(), w);
    var k := |s| - |Settle(w)|;
    forall i | 0 <= i < |Settle(w)| ensures Descends(cs + [c], fills + w.fills, Settle(w)[i]) {
      TradedByMaker(mode, o, o.qty, s, f.nextFillId, s[k + i].id);
      DescendsOn(cs, c, fills, w.fills, s[k + i]);
    }
  }

  lemma SideFacts(mode: SelfTradeMode, f: Flat, side: Side)
    requires Good(mode, f)
    ensures NonNegative(f.At(side)) && Sorted(side, f.At(side)) && UniqueIds(f.At(side))
    ensures DisjointIds(f.At(side), f.At(side.Opposite()))
  {
    GoodIsNonNegative(mode, f, side);
  }

  /** The order itself, when what is left of it comes to rest. */
  lemma NewDescends(mode: SelfTradeMode, f: Flat, o: Order, reduces: bool, cs: seq<Command>, fills: seq<Fill>)
    requires o.orderType == Limit && o.tif == Gtc && Naming(fills, PlacedIds(cs)) && o.id !in PlacedIds(cs)
    ensures var w := WalkOf(mode, f, o);
            Descends(cs + [Place(o, reduces)], fills + w.fills, o.(remaining := w.left))
  {
    hide Walk, TradedBy;
    var w, all := WalkOf(mode, f, o), cs + [Place(o, reduces)];
    TradedByTaker(o, o.qty, f.At(o.side.Opposite()), f.nextFillId, mode);
    TradedByNobody(fills, PlacedIds(cs), o.id);
    TradedByJoin(fills, w.fills, o.id);
    assert LeftOf(all[|cs|].order, fills + w.fills, o.(remaining := w.left));
  }

  lemma CrossedDescend(mode: SelfTradeMode, f: Flat, o: Order, cs: seq<Command>, c: Command, fills: seq<Fill>)
    requires Good(mode, f) && o.qty > 0.0 && Fresh(f, o.id) && BothDescend(cs, fills, f)
    ensures BothDescend(cs + [c], fills + WalkOf(mode, f, o).fills, Crossed(mode, f, o))
  {
    hide Good, Walk, AllDescend, TradedBy, Settle;
    var s, t, w := f.At(o.side.Opposite()), f.At(o.side), WalkOf(mode, f, o);
    WalkedDescend(mode, f, o, cs, c, fills);
    SideFacts(mode, f, o.side.Opposite());
    forall r | r in t ensures TradedBy(w.fills, r.id) == 0.0 {
      TradedByMaker(mode, o, o.qty, s, f.nextFillId, r.id);
    }
    UntradedDescend(cs, c, fills, w.fills, t, t);
  }

  lemma PlaceDescends(mode: SelfTradeMode, f: Flat, o: Order, reduces: bool, cs: seq<Command>, fills: seq<Fill>)
    requires Good(mode, f) && Within(f, PlacedIds(cs)) && o.id !in PlacedIds(cs) && Naming(fills, PlacedIds(cs))
    requires BothDescend(cs, fills, f)
    ensures var c := Place(o, reduces);
            BothDescend(cs + [c], fills + CommandFills(mode, f, c), Submit(mode, f, o, reduces).0)
  {
    hide Good, Walk, AllDescend, Descends, TradedBy, Settle, Insert, Naming, PlacedIds;
    var c := Place(o, reduces);
    if PreCheck(f, o, reduces) == None {
      var w, f1, f' := WalkOf(mode, f, o), Crossed(mode, f, o), Submit(mode, f, o, reduces).0;
      CrossedDescend(mode, f, o, cs, c, fills);
      if f' != f1 {
        CrossedKeepsGood(mode, f, o);
        SideFacts(mode, f1, o.side);
        NewDescends(mode, f, o, reduces, cs, fills);
        InsertDescends(cs + [c], fills + w.fills, o.side, f1.At(o.side), o.(remaining := w.left));
      }
    } else {
      NoTrades(f);
      UntradedDescend(cs, c, fills, [], f.bids, f.bids);
      UntradedDescend(cs, c, fills, [], f.asks, f.asks);
    }
  }

  lemma NoTrades(f: Flat)
    ensures forall o | o in f.bids :: TradedBy([], o.id) == 0.0
    ensures forall o | o in f.asks :: TradedBy([], o.id) == 0.0
  {}

  lemma InsertDescends(cs: seq<Command>, fills: seq<Fill>, side: Side, s: seq<Order>, o: Order)
    requires AllDescend(cs, fills, s) && Descends(cs, fills, o) && Sorted(side, s)
    ensures AllDescend(cs, fills, Insert(side, s, o))
  {
    hide Descends;
    var k := InsertAt(side, s, o);
    SplicedMembers(s, Insert(side, s, o), k, o);
  }

  lemma {:induction false} RemoveAmong(s: seq<Order>, id: OrderId)
    ensures forall o | o in Remove(s, id) :: o in s
  {
    if s != [] && s[0].id != id { RemoveAmong(s[1..], id); }
  }

  lemma CancelDescends(f: Flat, id: OrderId, cs: seq<Command>, fills: seq<Fill>)
    requires BothDescend(cs, fills, f)
    ensures BothDescend(cs + [Withdrawal(id)], fills + [], Cancel(f, id).0)
  {
    hide AllDescend, Remove;
    NoTrades(f);
    RemoveAmong(f.bids, id);
    RemoveAmong(f.asks, id);
    var c, f' := Withdrawal(id), Cancel(f, id).0;
    UntradedDescend(cs, c, fills, [], f.bids, f'.bids);
    UntradedDescend(cs, c, fills, [], f.asks, f'.asks);
  }

  lemma NamesOn(mode: SelfTradeMode, f: Flat, cs: seq<Command>, c: Command, fills: seq<Fill>)
    requires Good(mode, f) && Within(f, PlacedIds(cs)) && Naming(fills, PlacedIds(cs))
    ensures Naming(fills + CommandFills(mode, f, c), PlacedIds(cs + [c]))
  {
    hide Walk, Good;
    var all := cs + [c];
    assert forall i | 0 <= i < |cs| :: all[i] == cs[i];
    assert PlacedIds(cs) <= PlacedIds(all);
    if c.Place? && PreCheck(f, c.order, c.reduces) == None {
      assert all[|cs|] == c && c.order.id in PlacedIds(all);
      GoodIsNonNegative(mode, f, c.order.side.Opposite());
      WalkNames(mode, c.order, c.order.qty, f.At(c.order.side.Opposite()), f.nextFillId, PlacedIds(cs));
    }
  }

  /** Main result: after every run with fresh ids, in every mode and counting rejected submits,
      each resting order is a limit order, good till cancelled, of some submit of the run, with
      its own owner, side, price and time, and what remains of it is its quantity less all fills
      of the run that name it. */
  lemma {:induction false} RestingIsSubmitted(mode: SelfTradeMode, cs: seq<Command>)
    requires FreshIds(cs)
    ensures BothDescend(cs, RunFills(mode, cs), Run(mode, cs)) && Naming(RunFills(mode, cs), PlacedIds(cs))
  {
    hide Good, Submit, AllDescend, Cancel, PreCheck;
    if cs == [] {
      NothingDescends();
    } else {
      var n := |cs| - 1;
      var before, c := cs[..n], cs[n];
      assert cs == before + [c];
      RestingIsSubmitted(mode, before);
      RunIsGood(mode, before);
      var f, fills := Run(mode, before), RunFills(mode, before);
      NamesOn(mode, f, before, c, fills);
      match c
      case Place(o, reduces) =>
        NotYetPlaced(cs);
        PlaceDescends(mode, f, o, reduces, before, fills);
      case Withdrawal(id) =>
        CancelDescends(f, id, before, fills);
    }
  }

  lemma NotYetPlaced(cs: seq<Command>)
    requires FreshIds(cs) && cs != [] && cs[|cs| - 1].Place?
    ensures cs[|cs| - 1].order.id !in PlacedIds(cs[..|cs| - 1])
  {}

  lemma NothingDescends()
    ensures AllDescend([], [], [])
  {}

  // ---- Fill numbers --------------------------------------------------------------------

  predicate Numbered(fills: seq<Fill>, first: nat) {
    forall k | 0 <= k < |fills| :: fills[k].id == first + k
  }

  lemma CommandNumbers(mode: SelfTradeMode, f: Flat, c: Command)
    requires Good(mode, f)
    ensures Numbered(CommandFills(mode, f, c), f.nextFillId + 1)
    ensures Step(mode, f, c).nextFillId == f.nextFillId + |CommandFills(mode, f, c)|
  {
    hide Walk, Good, Settle;
    if c.Place? && PreCheck(f, c.order, c.reduces) == None {
      GoodIsNonNegative(mode, f, c.order.side.Opposite());
      WalkTakesInOrder(mode, c.order, c.order.qty, f.At(c.order.side.Opposite()), f.nextFillId);
    }
  }

  /** Over every run the fills are numbered 1, 2, 3 and so on, none twice. */
  lemma {:induction false} FillsNumbered(mode: SelfTradeMode, cs: seq<Command>)
    requires FreshIds(cs)
    ensures Numbered(RunFills(mode, cs), 1) && Run(mode, cs).nextFillId == |RunFills(mode, cs)|
  {
    hide Good, Step, CommandFills;
    if cs != [] {
      var before := cs[..|cs| - 1];
      FillsNumbered(mode, before);
      RunIsGood(mode, before);
      CommandNumbers(mode, Run(mode, before), cs[|cs| - 1]);
    }
  }
}
