/**
 Rows come back from the tables in any order, so the lists of a restarted edge may be permuted.
 It does not show: the order book published at start-up is the same, and every taker gets the
 quantity at the notional that it would have got before.
 */
module Reopened {
  import opened OrderTypes
  import opened EdgeMatch
  import opened EdgeTotals
  import opened Preview
  import Reload

  /** The same orders for every address, in whatever order. */
  ghost predicate SameLists(orders: Orders, orders': Orders) {
    forall a :: multiset(ListOf(orders, a)) == multiset(ListOf(orders', a))
  }

  // ---- Candidates ----------------------------------------------------------------------

  lemma {:induction false} FromListConcat(req: Request, a: Address, x: seq<OpenOrder>, y: seq<OpenOrder>)
    ensures FromList(req, a, x + y) == FromList(req, a, x) + FromList(req, a, y)
  {
    hide Wanted;
    if x == [] {
      assert x + y == y;
    } else {
      assert (x + y)[1..] == x[1..] + y;
      FromListConcat(req, a, x[1..], y);
    }
  }

  lemma {:induction false} FromListPermutes(req: Request, a: Address, x: seq<OpenOrder>, y: seq<OpenOrder>)
    requires multiset(x) == multiset(y)
    ensures multiset(FromList(req, a, x)) == multiset(FromList(req, a, y))
    decreases |x|
  {
    hide Wanted;
    if x == [] {
      assert |multiset(y)| == 0;
    } else {
      var i := TakeOut(x, y);
      FromListPermutes(req, a, x[1..], y[..i] + y[i + 1..]);
      FromListConcat(req, a, y[..i], y[i + 1..]);
      FromListConcat(req, a, y[..i], y[i..]);
      assert y == y[..i] + y[i..] && y[i..][0] == x[0] && y[i..][1..] == y[i + 1..];
    }
  }

  lemma {:induction false} CollectSame(orders: Orders, orders': Orders, users: seq<Address>, req: Request)
    requires SameLists(orders, orders')
    ensures multiset(Collect(orders, users, req)) == multiset(Collect(orders', users, req))
  {
    hide FromList, ListOf;
    if users != [] {
      CollectSame(orders, orders', users[1..], req);
      FromListPermutes(req, users[0], ListOf(orders, users[0]), ListOf(orders', users[0]));
    }
  }

  // ---- Lists stay tidy -----------------------------------------------------------------

  lemma TidyPermutes(x: seq<OpenOrder>, y: seq<OpenOrder>)
    requires TidyList(x) && multiset(x) == multiset(y)
    ensures TidyList(y)
  {
    forall i | 0 <= i < |y| ensures y[i] in x { assert y[i] in multiset(y); }
    forall i, j | 0 <= i < j < |y| ensures y[i].id != y[j].id {
      if y[i].id == y[j].id {
        OneOfEach(x, y[i], y[j]);
        CountTwice(y, i, j);
        forall m, n | 0 <= m < n < |x| ensures x[m] != x[n] { assert x[m].id != x[n].id; }
        Reload.CountOnce(x, y[i]);
      }
    }
  }

  lemma OneOfEach(x: seq<OpenOrder>, o: OpenOrder, o': OpenOrder)
    requires TidyList(x) && o in x && o' in x && o.id == o'.id
    ensures o == o'
  {}

  lemma TidySame(orders: Orders, orders': Orders)
    requires Tidy(orders) && SameLists(orders, orders')
    ensures Tidy(orders')
  {
    hide TidyList;
    EmptyTidy();
    forall a | a in orders' ensures TidyList(orders'[a]) {
      assert TidyList(ListOf(orders, a));
      TidyPermutes(ListOf(orders, a), ListOf(orders', a));
    }
  }

  lemma EmptyTidy()
    ensures TidyList([])
  {}

  // ---- What is published and what is matched -------------------------------------------

  lemma AddOrdersSame(market: MarketId, side: Side, ls: seq<Level>, x: seq<OpenOrder>, y: seq<OpenOrder>)
    requires multiset(x) == multiset(y)
    ensures AddOrders(market, side, ls, x) == AddOrders(market, side, ls, y)
  {
    hide AddOrders, AddAll, FromList;
    var req := Request(market, side.Opposite(), None, 0.0, 0);
    assert req.side.Opposite() == side;
    OrdersAreCandidates(req, 0, x, ls);
    OrdersAreCandidates(req, 0, y, ls);
    FromListPermutes(Unlimited(req), 0, x, y);
    AddAllPermutes(side, ls, FromList(Unlimited(req), 0, x), FromList(Unlimited(req), 0, y));
  }

  lemma {:induction false} AddUsersSame(orders: Orders, orders': Orders, users: seq<Address>, market: MarketId, side: Side, ls: seq<Level>)
    requires SameLists(orders, orders')
    ensures AddUsers(orders, users, market, side, ls) == AddUsers(orders', users, market, side, ls)
    decreases |users|
  {
    hide AddOrders, ListOf;
    if users != [] {
      AddOrdersSame(market, side, ls, ListOf(orders, users[0]), ListOf(orders', users[0]));
      AddUsersSame(orders, orders', users[1..], market, side, AddOrders(market, side, ls, ListOf(orders, users[0])));
    }
  }

  /** Sorting permuted candidates may reorder equals, but a sweep comes to the same. */
  lemma SweepSame(side: Side, cs: seq<Candidate>, cs': seq<Candidate>, qty: real)
    requires multiset(cs) == multiset(cs') && Positive(cs) && qty >= 0.0
    ensures Offered(cs) == Offered(cs') && SweepNotional(Sort(side, cs), qty) == SweepNotional(Sort(side, cs'), qty)
  {
    hide Sort, SweepNotional, Offered, AddAll, Sweep;
    forall i | 0 <= i < |cs'| ensures cs'[i].remaining > 0.0 { assert cs'[i] in multiset(cs'); assert cs'[i] in cs; }
    OfferedPermutes(cs, cs');
    AddAllPermutes(side, [], cs, cs');
    SweepLevels(side, cs, qty);
    SweepLevels(side, cs', qty);
  }

  /** Main result: permuting the lists changes neither the published book nor what any taker gets. */
  lemma PermutedServesSame(orders: Orders, orders': Orders, users: seq<Address>, req: Request)
    requires Tidy(orders) && SameLists(orders, orders') && NoRepeats(users) && req.qty >= 0.0
    ensures forall side :: Published(orders', users, req.market, side) == Published(orders, users, req.market, side)
    ensures var fills, fills' := Match(orders, users, req).fills, Match(orders', users, req).fills;
            TotalQty(fills') == TotalQty(fills) && Notional(fills') == Notional(fills)
  {
    hide AddUsers, Match, Collect, Sort, SweepNotional, Offered, TotalQty, Notional, Tidy;
    forall side ensures Published(orders', users, req.market, side) == Published(orders, users, req.market, side) {
      AddUsersSame(orders, orders', users, req.market, side, []);
    }
    TidySame(orders, orders');
    MatchTotals(orders, users, req);
    MatchTotals(orders', users, req);
    CollectSame(orders, orders', users, req);
    CollectPositive(orders, users, req);
    SweepSame(req.side.Opposite(), Collect(orders, users, req), Collect(orders', users, req), req.qty);
  }
}
