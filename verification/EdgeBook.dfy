/**
 The open orders of the edge as a book. A request that is not filled has used up everything it
 could trade with, so over every life of sound requests no account's bid reaches another's ask;
 a post-only request comes to rest exactly when there is nothing to trade with.
 */
module EdgeBook {
  import opened OrderTypes
  import opened EdgeMatch
  import opened EdgeTotals
  import opened EdgeState
  import opened Persistence
  import opened Restart
  import opened Reload
  import opened MatchFrame
  import opened TidyRuns
  import opened EdgeOrders

  // ---- What a request could trade with -------------------------------------------------

  /** Open order `o` is one the request `t` could trade with. */
  predicate Opposes(t: Ticket, o: OpenOrder) {
    && o.market == t.market && o.side != t.side && o.orderType == Limit && o.price != 0.0 && o.remaining != 0.0
    && (t.limit == None || (if t.side == Buy then o.price <= t.limit.value else t.limit.value <= o.price))
  }

  /** Some visited account other than the request's own has an order it could trade with. */
  predicate Opposed(orders: Orders, users: seq<Address>, t: Ticket) {
    exists i, k :: 0 <= i < |users| && users[i] != t.user && 0 <= k < |ListOf(orders, users[i])| && Opposes(t, ListOf(orders, users[i])[k])
  }

  lemma {:induction false} FromListHas(req: Request, a: Address, list: seq<OpenOrder>, k: nat)
    requires k < |list| && Wanted(req, list[k])
    ensures CandidateOf(a, list[k]) in FromList(req, a, list)
  {
    hide Wanted;
    if k > 0 { FromListHas(req, a, list[1..], k - 1); }
  }

  lemma {:induction false} CollectHas(orders: Orders, users: seq<Address>, req: Request, i: nat, k: nat)
    requires i < |users| && users[i] != req.taker && k < |ListOf(orders, users[i])| && Wanted(req, ListOf(orders, users[i])[k])
    ensures CandidateOf(users[i], ListOf(orders, users[i])[k]) in Collect(orders, users, req)
  {
    hide Wanted, FromList;
    if i == 0 {
      FromListHas(req, users[0], ListOf(orders, users[0]), k);
    } else {
      CollectHas(orders, users[1..], req, i - 1, k);
    }
  }

  lemma {:induction false} FromListNone(req: Request, a: Address, list: seq<OpenOrder>)
    requires forall k | 0 <= k < |list| :: !Wanted(req, list[k])
    ensures FromList(req, a, list) == []
  {
    hide Wanted;
    if list != [] { FromListNone(req, a, list[1..]); }
  }

  lemma {:induction false} CollectNone(orders: Orders, users: seq<Address>, req: Request)
    requires forall i, k | 0 <= i < |users| && users[i] != req.taker && 0 <= k < |ListOf(orders, users[i])| :: !Wanted(req, ListOf(orders, users[i])[k])
    ensures Collect(orders, users, req) == []
  {
    hide Wanted, FromList;
    if users != [] {
      CollectNone(orders, users[1..], req);
      if users[0] != req.taker { FromListNone(req, users[0], ListOf(orders, users[0])); }
    }
  }

  lemma WantedOpposes(t: Ticket, o: OpenOrder)
    ensures Wanted(RequestOf(t), o) <==> Opposes(t, o)
  {}

  /** There are candidates exactly when some visited account has an order to trade with. */
  lemma CollectsIff(orders: Orders, users: seq<Address>, t: Ticket)
    ensures Collect(orders, users, RequestOf(t)) != [] <==> Opposed(orders, users, t)
  {
    hide Collect, Wanted, Opposes;
    forall o ensures Wanted(RequestOf(t), o) <==> Opposes(t, o) { WantedOpposes(t, o); }
    if Opposed(orders, users, t) {
      var i, k :| 0 <= i < |users| && users[i] != t.user && 0 <= k < |ListOf(orders, users[i])| && Opposes(t, ListOf(orders, users[i])[k]);
      CollectHas(orders, users, RequestOf(t), i, k);
    } else {
      CollectNone(orders, users, RequestOf(t));
    }
  }

  /** A post-only request for a positive quantity is turned away exactly when there is an order to
      trade with; otherwise it trades nothing and rests whole, if it has a limit. */
  lemma PostOnlyAtEdge(e: Edge, users: seq<Address>, t: Ticket, fees: Fees)
    requires Tidy(e.orders) && NoRepeats(users) && t.admitted && t.postOnly && t.qty > 0.0
    ensures var e' := PlaceOrder(e, users, t, fees);
            if Opposed(e.orders, users, t) then e' == e.(nextId := e'.nextId)
            else && Match(e.orders, users, RequestOf(t)).fills == []
                 && (t.limit.Some? ==> ListOf(e'.orders, t.user) == ListOf(Match(e.orders, users, RequestOf(t)).orders, t.user)
                                       + [OpenOrder(e.nextId, t.market, t.side, Limit, t.limit.value, t.qty, t.qty, t.ts)])
  {
    hide Collect, PlaceOrder, Opposed, Sort, Tidy, Reap, ProbeFrom;
    var req := RequestOf(t);
    var cs := Collect(e.orders, users, req);
    CollectsIff(e.orders, users, t);
    ProbePositiveIff(e.orders, users, req);
    RestsAtEdge(e, users, t, fees, t.user);
    if cs == [] {
      assert Sort(req.side.Opposite(), cs) == [] by { SortFacts(req.side.Opposite(), cs); assert |multiset(Sort(req.side.Opposite(), cs))| == 0; }
      NoFills();
    }
  }

  lemma ProbePositiveIff(orders: Orders, users: seq<Address>, req: Request)
    requires Tidy(orders) && req.qty > 0.0
    ensures ProbeFrom(Collect(orders, users, req), req.qty) > 0.0 <==> Collect(orders, users, req) != []
  {
    hide Collect;
    var cs := Collect(orders, users, req);
    CollectNonNegative(orders, users, req);
    if cs != [] {
      CollectViews(orders, users, req);
      assert ViewOf(cs[0].maker, ListOf(orders, cs[0].maker), cs[0]);
      ProbeIsMin(cs[1..], req.qty - Min(req.qty, cs[0].remaining));
    }
  }

  // ---- What is left over has nothing to trade with -------------------------------------

  lemma {:induction false} CommitElsewhere(orders: Orders, cs: seq<Candidate>, left: real, fills: seq<Matched>, a: Address, id: OrderId)
    requires forall i | 0 <= i < |cs| :: cs[i].maker != a || cs[i].id != id
    ensures Remains(Commit(orders, cs, left, fills).orders, a, id) == Remains(orders, a, id)
    decreases |cs|
  {
    hide Remains, Reduce;
    if cs != [] && left != 0.0 {
      var c := cs[0];
      var there := Remains(orders, c.maker, c.id);
      if there == 0.0 {
        CommitElsewhere(orders, cs[1..], left, fills, a, id);
      } else {
        var qty := Min(left, there);
        IsThere(orders, c);
        ReduceElsewhere(orders, c.maker, c.id, qty, a, id);
        CommitElsewhere(Reduce(orders, c.maker, c.id, qty), cs[1..], left - qty, fills + [Matched(c.maker, c.id, c.price, qty)], a, id);
      }
    }
  }

  /** A commit that is not filled has used up every candidate. */
  lemma {:induction false} CommitExhausts(orders: Orders, cs: seq<Candidate>, left: real, fills: seq<Matched>, i: nat)
    requires AllCurrent(orders, cs) && left >= 0.0 && i < |cs| && Commit(orders, cs, left, fills).left > 0.0
    ensures Remains(Commit(orders, cs, left, fills).orders, cs[i].maker, cs[i].id) == 0.0
    decreases |cs|
  {
    hide Remains, Reduce, AllCurrent;
    FirstIsCurrent(orders, cs);
    var c := cs[0];
    Found(orders, c);
    var qty, m := Min(left, c.remaining), Matched(c.maker, c.id, c.price, Min(left, c.remaining));
    var orders' := Reduce(orders, c.maker, c.id, qty);
    assert Commit(orders, cs, left, fills) == Commit(orders', cs[1..], left - qty, fills + [m]);
    assert qty == c.remaining;
    StillCurrent(orders, cs, qty);
    if i > 0 {
      CommitExhausts(orders', cs[1..], left - qty, fills + [m], i - 1);
    } else {
      ReducedRemains(orders, c);
      CommitElsewhere(orders', cs[1..], left - qty, fills + [m], c.maker, c.id);
    }
  }

  lemma FirstIsCurrent(orders: Orders, cs: seq<Candidate>)
    requires AllCurrent(orders, cs) && cs != []
    ensures Current(orders, cs[0]) && forall i | 0 < i < |cs| :: !SamePlace(cs[0], cs[i])
  {}

  lemma ReducedRemains(orders: Orders, c: Candidate)
    requires Current(orders, c) && Find(ListOf(orders, c.maker), c.id) < |ListOf(orders, c.maker)|
    ensures Remains(Reduce(orders, c.maker, c.id, c.remaining), c.maker, c.id) == 0.0
  {
    hide Find;
    var list := orders[c.maker];
    var k := Find(list, c.id);
    FindUnchanged(list, k, list[k].remaining - c.remaining, c.id);
  }

  lemma MatchLeft(orders: Orders, users: seq<Address>, req: Request)
    requires Tidy(orders) && NoRepeats(users) && req.qty >= 0.0
    ensures var r := Match(orders, users, req); r.left == req.qty - TotalQty(r.fills) && r.left >= 0.0
  {
    hide Commit, Collect, Sort, AllCurrent, Notional, TotalQty, SweepNotional;
    var sorted := Sort(req.side.Opposite(), Collect(orders, users, req));
    SortedCurrent(orders, users, req);
    CommitSweeps(orders, sorted, req.qty, []);
    NoFills();
    MatchTotals(orders, users, req);
  }

  /** After a match that is not filled, no visited account has an order left to trade with. */
  lemma NoneLeft(orders: Orders, users: seq<Address>, t: Ticket, i: nat, y: OpenOrder)
    requires Tidy(orders) && NoRepeats(users) && t.qty >= 0.0
    requires forall b :: DistinctIds(ListOf(orders, b)) && NonZero(ListOf(orders, b))
    requires i < |users| && users[i] != t.user
    requires var r := Match(orders, users, RequestOf(t)); r.left > 0.0 && y in ListOf(r.orders, users[i])
    ensures !Opposes(t, y)
  {
    hide Commit, Collect, Sort, AllCurrent, Remains, Tidy, Wanted, Find, AllSurvive, HasMaker, IdsWithin;
    var req, a := RequestOf(t), users[i];
    if Opposes(t, y) {
      MatchChanges(orders, users, req, a);
      var list' := ListOf(Match(orders, users, req).orders, a);
      var k :| 0 <= k < |list'| && list'[k] == y;
      var x := Origin(ListOf(orders, a), list', t.qty >= 0.0, k);
      assert ListOf(orders, a)[x].remaining != 0.0;
      var cs := Collect(orders, users, req);
      var sorted := Sort(req.side.Opposite(), cs);
      var c := CandidateOf(a, ListOf(orders, a)[x]);
      WantedOpposes(t, ListOf(orders, a)[x]);
      CollectHas(orders, users, req, i, x);
      SortFacts(req.side.Opposite(), cs);
      assert c in multiset(sorted);
      var j :| 0 <= j < |sorted| && sorted[j] == c;
      SortedCurrent(orders, users, req);
      Listed(orders, sorted, req, a, y);
      CommitExhausts(orders, sorted, req.qty, [], j);
    }
  }

  lemma Origin(list: seq<OpenOrder>, list': seq<OpenOrder>, lower: bool, k: nat) returns (j: nat)
    requires AllSurvive(list', list, lower) && k < |list'|
    ensures j < |list| && list'[k] == list[j].(remaining := list'[k].remaining)
  {
    assert Survivor(list, list'[k], lower);
    j :| 0 <= j < |list| && Survives(list[j], list'[k], lower);
  }

  /** An order still listed after the reaping has something left, and that is what its id finds. */
  lemma Listed(orders: Orders, cs: seq<Candidate>, req: Request, a: Address, y: OpenOrder)
    requires DistinctIds(ListOf(orders, a)) && y.market == req.market
    requires y in ListOf(Reap(Commit(orders, cs, req.qty, []).orders, req.market), a)
    ensures y.remaining != 0.0 && Remains(Commit(orders, cs, req.qty, []).orders, a, y.id) == y.remaining
  {
    hide Commit, Find, ReapList;
    var r := Commit(orders, cs, req.qty, []);
    var mid := ListOf(r.orders, a);
    CommitLowers(orders, cs, req.qty, [], a);
    ReapKeepsOnly(mid, req.market);
    ReapDrops(mid, req.market);
    var k :| 0 <= k < |mid| && mid[k] == y;
    var list := ListOf(orders, a);
    forall i, j | 0 <= i < j < |mid| ensures mid[i].id != mid[j].id {
      assert Lowered(list[i], mid[i], a, [], r.fills) && Lowered(list[j], mid[j], a, [], r.fills);
    }
    assert Find(mid, y.id) == k;
  }

  lemma {:induction false} ReapDrops(list: seq<OpenOrder>, market: MarketId)
    ensures forall o | o in ReapList(list, market) && o.market == market :: o.remaining != 0.0
  {
    if list != [] { ReapDrops(list[1..], market); }
  }

  // ---- The book is never crossed -------------------------------------------------------

  /** A priced bid at or above a priced ask of the same market. */
  predicate Crossing(bid: OpenOrder, ask: OpenOrder) {
    && bid.market == ask.market && bid.side == Buy && ask.side == Sell
    && bid.price != 0.0 && ask.price != 0.0 && bid.price >= ask.price
  }

  predicate ListsApart(x: seq<OpenOrder>, y: seq<OpenOrder>) {
    forall p, q | p in x && q in y :: !Crossing(p, q) && !Crossing(q, p)
  }

  /** No bid of one account reaches an ask of another. */
  ghost predicate Uncrossed(orders: Orders) {
    forall a, b | a != b :: ListsApart(ListOf(orders, a), ListOf(orders, b))
  }

  ghost predicate AllLimits(orders: Orders) {
    forall a, o | o in ListOf(orders, a) :: o.orderType == Limit
  }

  /** Each order of `x'` is one of `x` but for its quantity. */
  predicate Descend(x': seq<OpenOrder>, x: seq<OpenOrder>) {
    forall p' | p' in x' :: exists p :: p in x && p' == p.(remaining := p'.remaining)
  }

  lemma StillApart(x: seq<OpenOrder>, y: seq<OpenOrder>, x': seq<OpenOrder>, y': seq<OpenOrder>)
    requires ListsApart(x, y) && Descend(x', x) && Descend(y', y)
    ensures ListsApart(x', y')
  {
    forall p', q' | p' in x' && q' in y' ensures !Crossing(p', q') && !Crossing(q', p') {
      var p :| p in x && p' == p.(remaining := p'.remaining);
      var q :| q in y && q' == q.(remaining := q'.remaining);
      assert !Crossing(p, q) && !Crossing(q, p);
    }
  }

  /** Orders that only shrink or go stay uncrossed. */
  lemma ShrinkUncrossed(orders: Orders, orders': Orders)
    requires Uncrossed(orders) && forall a :: Descend(ListOf(orders', a), ListOf(orders, a))
    ensures Uncrossed(orders')
  {
    hide ListsApart, Descend, ListOf;
    forall a, b | a != b ensures ListsApart(ListOf(orders', a), ListOf(orders', b)) {
      StillApart(ListOf(orders, a), ListOf(orders, b), ListOf(orders', a), ListOf(orders', b));
    }
  }

  lemma SurviveDescend(list': seq<OpenOrder>, list: seq<OpenOrder>, lower: bool)
    requires AllSurvive(list', list, lower)
    ensures Descend(list', list)
  {
    forall p' | p' in list' ensures exists p :: p in list && p' == p.(remaining := p'.remaining) {
      var k :| 0 <= k < |list'| && list'[k] == p';
      var j := Origin(list, list', lower, k);
      assert list[j] in list;
    }
  }

  lemma MatchUncrossed(orders: Orders, users: seq<Address>, req: Request)
    requires Uncrossed(orders) && forall b :: DistinctIds(ListOf(orders, b)) && NonZero(ListOf(orders, b))
    ensures Uncrossed(Match(orders, users, req).orders)
  {
    hide Match, Uncrossed, Descend, AllSurvive, HasMaker, IdsWithin, DistinctIds, NonZero, ListOf;
    var orders' := Match(orders, users, req).orders;
    forall a ensures Descend(ListOf(orders', a), ListOf(orders, a)) {
      MatchChanges(orders, users, req, a);
      SurviveDescend(ListOf(orders', a), ListOf(orders, a), req.qty >= 0.0);
    }
    ShrinkUncrossed(orders, orders');
  }

  /** A request all of whose possible partners are gone may join the book. */
  lemma JoinUncrossed(orders: Orders, orders': Orders, t: Ticket, o: OpenOrder)
    requires Uncrossed(orders) && o.market == t.market && o.side == t.side && t.limit == Some(o.price)
    requires forall b, y | b != t.user && y in ListOf(orders, b) :: !Opposes(t, y) && y.orderType == Limit && y.remaining != 0.0
    requires forall a :: ListOf(orders', a) == ListOf(orders, a) + if a == t.user then [o] else []
    ensures Uncrossed(orders')
  {
    hide ListOf;
    forall a, b | a != b ensures ListsApart(ListOf(orders', a), ListOf(orders', b)) {
      assert ListsApart(ListOf(orders, a), ListOf(orders, b));
      assert ListOf(orders, a) + [] == ListOf(orders, a) && ListOf(orders, b) + [] == ListOf(orders, b);
      forall p, q | p in ListOf(orders', a) && q in ListOf(orders', b) ensures !Crossing(p, q) && !Crossing(q, p) {
        assert p in ListOf(orders, a) || (a == t.user && p == o);
        assert q in ListOf(orders, b) || (b == t.user && q == o);
      }
    }
  }

  /** Everybody with open orders is visited, nobody twice. */
  predicate VisitsAll(e: Edge, users: seq<Address>) {
    NoRepeats(users) && forall a | a in e.orders :: a in users
  }

  lemma PlaceUncrossed(base: Store, e: Edge, users: seq<Address>, t: Ticket, fees: Fees)
    requires InStep(base, e, e.nextId, e.nextId) && Tidy(e.orders) && AllLimits(e.orders) && Uncrossed(e.orders)
    requires VisitsAll(e, users) && Sound(e, users, t)
    ensures Uncrossed(PlaceOrder(e, users, t, fees).orders)
  {
    hide InStep, PlaceOrder, Match, Tidy, NonZero, DistinctIds, Uncrossed, AllLimits, NoRepeats, TotalQty, Opposes, ListBelow, Matches, Sound, ListOf;
    var e', r := PlaceOrder(e, users, t, fees), Match(e.orders, users, RequestOf(t));
    forall b ensures DistinctIds(ListOf(e.orders, b)) && NonZero(ListOf(e.orders, b)) { OrdersKnown(base, e, b); }
    MatchUncrossed(e.orders, users, RequestOf(t));
    if !Matches(e, users, t) {
      RestsAtEdge(e, users, t, fees, t.user);
    } else if t.limit.Some? && t.qty - TotalQty(r.fills) != 0.0 {
      var o := OpenOrder(e.nextId, t.market, t.side, Limit, t.limit.value, t.qty, t.qty - TotalQty(r.fills), t.ts);
      forall a ensures ListOf(e'.orders, a) == ListOf(r.orders, a) + if a == t.user then [o] else [] { RestsAtEdge(e, users, t, fees, a); }
      MatchesAdmitted(e, users, t);
      forall b, y | b != t.user && y in ListOf(r.orders, b) ensures !Opposes(t, y) && y.orderType == Limit && y.remaining != 0.0 {
        Unopposed(e, users, t, b, y);
      }
      JoinUncrossed(r.orders, e'.orders, t, o);
    } else {
      forall a ensures ListOf(e'.orders, a) == ListOf(r.orders, a) { RestsAtEdge(e, users, t, fees, a); }
      SameListsUncrossed(r.orders, e'.orders);
    }
  }

  lemma MatchesAdmitted(e: Edge, users: seq<Address>, t: Ticket)
    requires Matches(e, users, t)
    ensures t.admitted
  {}

  lemma SameListsUncrossed(orders: Orders, orders': Orders)
    requires Uncrossed(orders) && forall a :: ListOf(orders', a) == ListOf(orders, a)
    ensures Uncrossed(orders')
  {
    hide ListsApart;
    forall a, b | a != b ensures ListsApart(ListOf(orders', a), ListOf(orders', b)) {
      assert ListsApart(ListOf(orders, a), ListOf(orders, b));
    }
  }

  /** Nobody else's order can be traded with by what is left of an admitted, sound request. */
  lemma Unopposed(e: Edge, users: seq<Address>, t: Ticket, b: Address, y: OpenOrder)
    requires Tidy(e.orders) && AllLimits(e.orders) && VisitsAll(e, users) && Sound(e, users, t)
    requires forall c :: DistinctIds(ListOf(e.orders, c)) && NonZero(ListOf(e.orders, c))
    requires t.admitted && t.limit.Some? && b != t.user
    requires var r := Match(e.orders, users, RequestOf(t)); t.qty - TotalQty(r.fills) != 0.0 && y in ListOf(r.orders, b)
    ensures !Opposes(t, y) && y.orderType == Limit && y.remaining != 0.0
  {
    hide Match, Tidy, NonZero, DistinctIds, NoRepeats, TotalQty, Opposes, Collect, HasMaker, IdsWithin, AllSurvive;
    var orders, r := e.orders, Match(e.orders, users, RequestOf(t));
    MatchChanges(orders, users, RequestOf(t), b);
    var list' := ListOf(r.orders, b);
    var k :| 0 <= k < |list'| && list'[k] == y;
    var x := Origin(ListOf(orders, b), list', t.qty >= 0.0, k);
    assert ListOf(orders, b)[x] in ListOf(orders, b);
    NonZeroAt(list', k);
    var i :| 0 <= i < |users| && users[i] == b;
    if t.qty >= 0.0 {
      MatchLeft(orders, users, RequestOf(t));
      NoneLeft(orders, users, t, i, y);
    } else {
      NegativeMatch(orders, users, RequestOf(t));
    }
  }

  lemma NonZeroAt(list: seq<OpenOrder>, k: nat)
    requires NonZero(list) && k < |list|
    ensures list[k].remaining != 0.0
  {}

  // ---- Runs and lives ------------------------------------------------------------------

  /** Every request along the way is sound where it is placed and looks at every account. */
  ghost predicate AllVisit(start: Edge, ops: seq<Op>) {
    AllSound(start, ops) && forall k | 0 <= k < |ops| && ops[k].Place? :: VisitsAll(RunFrom(start, ops[..k]), ops[k].users)
  }

  lemma DescendAll(x': seq<OpenOrder>, x: seq<OpenOrder>)
    requires forall p | p in x' :: p in x
    ensures Descend(x', x)
  {
    forall p' | p' in x' ensures exists p :: p in x && p' == p.(remaining := p'.remaining) { assert p' == p'.(remaining := p'.remaining); }
  }

  lemma DoUncrossed(base: Store, e: Edge, op: Op)
    requires InStep(base, e, e.nextId, e.nextId) && Tidy(e.orders) && AllLimits(e.orders) && Uncrossed(e.orders)
    requires SoundOp(e, op) && (op.Place? ==> VisitsAll(e, op.users))
    ensures Uncrossed(Do(e, op).orders)
  {
    hide InStep, PlaceOrder, LiquidatePosition, Tidy, AllLimits, Uncrossed, Sound, VisitsAll, Without, Find, Descend, AdjustVault;
    match op
    case Place(users, ticket, fees) => PlaceUncrossed(base, e, users, ticket, fees);
    case Cancel(b, id) =>
      forall a ensures Descend(ListOf(CancelOrder(e, b, id).orders, a), ListOf(e.orders, a)) {
        WithoutHas(ListOf(e.orders, a), id);
        DescendAll(ListOf(CancelOrder(e, b, id).orders, a), ListOf(e.orders, a));
      }
      ShrinkUncrossed(e.orders, CancelOrder(e, b, id).orders);
    case Liquidate(b, market, prices, ts) => LiquidateKeepsOrders(e, b, market, prices, ts);
    case SetBalance(b, amount) =>
    case Seed(b, _) =>
    case Adjust(b, delta) => AdjustFrame(e, b, delta);
    case RecordSample(m, s) =>
  }

  lemma BackedLimits(ts: set<Ticket>, e: Edge)
    requires AllBacked(ts, e)
    ensures AllLimits(e.orders)
  {
    hide FilledFor;
    forall a, o | o in ListOf(e.orders, a) ensures o.orderType == Limit {
      assert ListBacked(ts, a, FillsOf(e, a), ListOf(e.orders, a));
      assert Backed(ts, a, FillsOf(e, a), o);
    }
  }

  lemma VisitPrefix(start: Edge, ops: seq<Op>)
    requires AllVisit(start, ops) && ops != []
    ensures var n := |ops| - 1;
            && AllVisit(start, ops[..n]) && SoundOp(RunFrom(start, ops[..n]), ops[n])
            && (ops[n].Place? ==> VisitsAll(RunFrom(start, ops[..n]), ops[n].users))
  {
    hide RunFrom, SoundOp, VisitsAll, NoRepeats;
    var n := |ops| - 1;
    forall k | 0 <= k < n
      ensures SoundOp(RunFrom(start, ops[..n][..k]), ops[..n][k])
      ensures ops[..n][k].Place? ==> NoRepeats(ops[..n][k].users) && VisitsAll(RunFrom(start, ops[..n][..k]), ops[..n][k].users)
    {
      assert ops[..n][..k] == ops[..k];
    }
  }

  lemma VisitSound(start: Edge, ops: seq<Op>)
    requires AllVisit(start, ops)
    ensures AllSound(start, ops)
  {}

  lemma {:induction false} RunUncrossed(base: Store, start: Edge, ops: seq<Op>, ts: set<Ticket>)
    requires InStep(base, start, start.nextId, start.nextId) && Tidy(start.orders) && Uncrossed(start.orders)
    requires AllBacked(ts, start) && AllFillsKnown(start) && AllVisit(start, ops)
    ensures Uncrossed(RunFrom(start, ops).orders)
  {
    hide InStep, Do, Tidy, Uncrossed, AllBacked, AllFillsKnown, AllVisit, AllSound, SoundOp, VisitsAll, AllLimits;
    if ops != [] {
      var n := |ops| - 1;
      var e := RunFrom(start, ops[..n]);
      VisitPrefix(start, ops);
      RunUncrossed(base, start, ops[..n], ts);
      VisitSound(start, ops[..n]);
      RunTidy(base, start, ops[..n]);
      RunInStep(base, start, ops[..n]);
      RunBacked(base, start, ops[..n], ts);
      BackedLimits(ts + AskedIn(ops[..n]), e);
      DoUncrossed(base, e, ops[n]);
    }
  }

  lemma {:induction false} LifeUncrossed(h: History, i: nat)
    requires Life(h) && i <= |h.sessions| && forall j | 0 <= j < i :: AllVisit(h.edges[j], h.sessions[j])
    ensures Uncrossed(h.edges[i].orders) && Tidy(h.edges[i].orders)
  {
    hide InStep, Session, Tidy, RunFrom, AllVisit, AllSound, Uncrossed, AllBacked, AllFillsKnown, Restores, Reopen;
    forall j | 0 <= j < i ensures AllSound(h.edges[j], h.sessions[j]) { VisitSound(h.edges[j], h.sessions[j]); }
    LifeTidy(h, i);
    if i == 0 {
      NewUncrossed();
    } else {
      LifeUncrossed(h, i - 1);
      LifeInStep(h, i - 1);
      LifeBacked(h, i - 1);
      RunUncrossed(h.stores[i - 1], h.edges[i - 1], h.sessions[i - 1], AskedBefore(h, i - 1));
      RestartEquivalence(h, i - 1);
      var e := RunFrom(h.edges[i - 1], h.sessions[i - 1]);
      ReopenUncrossed(e, h.snaps[i - 1], e.nextId);
    }
  }

  lemma NewUncrossed()
    ensures Uncrossed(NEW.orders)
  {}

  lemma ReopenUncrossed(e: Edge, s: Snapshot, next: nat)
    requires Restores(e, s) && Uncrossed(e.orders)
    ensures Uncrossed(Reopen(s, next).orders)
  {
    hide Restores, Uncrossed, Descend;
    RestoredLists(e, s);
    forall a ensures Descend(ListOf(s.orders, a), ListOf(e.orders, a)) {
      SameElements(ListOf(s.orders, a), ListOf(e.orders, a));
      DescendAll(ListOf(s.orders, a), ListOf(e.orders, a));
    }
    ShrinkUncrossed(e.orders, s.orders);
  }

  /** Main result: in every state of every life of sound requests that look at every account, no bid
      of one account is at or above an ask of another in the same market. */
  lemma EdgeNeverCrossed(h: History, i: nat, ops: seq<Op>, a: Address, b: Address, j: nat, k: nat)
    requires Life(h) && i <= |h.sessions| && AllVisit(h.edges[i], ops)
    requires forall n | 0 <= n < i :: AllVisit(h.edges[n], h.sessions[n])
    requires var orders := RunFrom(h.edges[i], ops).orders; a != b && j < |ListOf(orders, a)| && k < |ListOf(orders, b)|
    ensures var orders := RunFrom(h.edges[i], ops).orders;
            var bid, ask := ListOf(orders, a)[j], ListOf(orders, b)[k];
            bid.market == ask.market && bid.side == Buy && ask.side == Sell && bid.price != 0.0 && ask.price != 0.0 ==> bid.price < ask.price
  {
    hide InStep, Session, Tidy, RunFrom, AllVisit, AllBacked, AllFillsKnown;
    LifeUncrossed(h, i);
    LifeInStep(h, i);
    LifeBacked(h, i);
    RunUncrossed(h.stores[i], h.edges[i], ops, AskedBefore(h, i));
    var orders := RunFrom(h.edges[i], ops).orders;
    assert ListsApart(ListOf(orders, a), ListOf(orders, b));
    assert ListOf(orders, a)[j] in ListOf(orders, a) && ListOf(orders, b)[k] in ListOf(orders, b);
  }
}
