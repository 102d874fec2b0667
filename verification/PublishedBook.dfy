/**
 The published book, level by level: strictly ordered with the best price first, no price twice, and
 at each price exactly the quantity of the open orders resting there.
 */
module PublishedBook {
  import opened OrderTypes
  import opened FlatBook
  import opened EdgeMatch
  import opened Preview

  predicate Strict(side: Side, ls: seq<Level>) {
    forall i, j | 0 <= i < j < |ls| :: Key(side, ls[i].price) < Key(side, ls[j].price)
  }

  predicate Lists(ls: seq<Level>, price: real) {
    exists i :: 0 <= i < |ls| && ls[i].price == price
  }

  function QtyAt(ls: seq<Level>, price: real): real {
    if ls == [] then 0.0 else (if ls[0].price == price then ls[0].qty else 0.0) + QtyAt(ls[1..], price)
  }

  /** Quantity one account has resting at a price, and how many orders. */
  function RestingIn(market: MarketId, side: Side, list: seq<OpenOrder>, price: real): (real, nat) {
    if list == [] then (0.0, 0) else
    var (qty, n), o := RestingIn(market, side, list[1..], price), list[0];
    if o.market == market && o.side == side && o.orderType == Limit && o.price != 0.0 && o.remaining != 0.0 && o.price == price
    then (qty + o.remaining, n + 1) else (qty, n)
  }

  function RestingOf(orders: Orders, users: seq<Address>, market: MarketId, side: Side, price: real): (real, nat) {
    if users == [] then (0.0, 0) else
    var (qty, n) := RestingOf(orders, users[1..], market, side, price);
    var (more, k) := RestingIn(market, side, ListOf(orders, users[0]), price);
    (qty + more, n + k)
  }

  lemma ListsCons(l: Level, ls: seq<Level>, price: real)
    ensures Lists([l] + ls, price) <==> l.price == price || Lists(ls, price)
    ensures QtyAt([l] + ls, price) == (if l.price == price then l.qty else 0.0) + QtyAt(ls, price)
  {
    var all := [l] + ls;
    assert all[1..] == ls && all[0] == l;
    if Lists(ls, price) {
      var i :| 0 <= i < |ls| && ls[i].price == price;
      assert all[i + 1].price == price;
    }
    if Lists(all, price) && l.price != price {
      var i :| 0 <= i < |all| && all[i].price == price;
      assert ls[i - 1].price == price;
    }
  }

  lemma StrictCons(side: Side, l: Level, ls: seq<Level>)
    requires Strict(side, ls) && (ls == [] || Key(side, l.price) < Key(side, ls[0].price))
    ensures Strict(side, [l] + ls)
  {
    var all := [l] + ls;
    forall i, j | 0 <= i < j < |all| ensures Key(side, all[i].price) < Key(side, all[j].price) {
      if i == 0 && j > 1 { assert Key(side, ls[0].price) < Key(side, ls[j - 1].price); }
    }
  }

  /** Adding an order to the levels adds its quantity at its price and nowhere else. */
  lemma {:induction false} AddLevelAt(side: Side, ls: seq<Level>, l: Level, price: real)
    requires Strict(side, ls)
    ensures var r := AddLevel(side, ls, l);
            && Strict(side, r) && r != []
            && Key(side, r[0].price) == (if ls == [] || Key(side, l.price) < Key(side, ls[0].price) then Key(side, l.price) else Key(side, ls[0].price))
            && QtyAt(r, price) == QtyAt(ls, price) + (if l.price == price then l.qty else 0.0)
            && (Lists(r, price) <==> l.price == price || Lists(ls, price))
  {
    hide Strict, QtyAt, Lists;
    if ls == [] || Key(side, l.price) < Key(side, ls[0].price) {
      StrictCons(side, l, ls);
      ListsCons(l, ls, price);
    } else {
      var t := ls[1..];
      assert ls == [ls[0]] + t;
      StrictTail(side, ls);
      ListsCons(ls[0], t, price);
      if ls[0].price == l.price {
        StrictCons(side, Level(l.price, ls[0].qty + l.qty), t);
        ListsCons(Level(l.price, ls[0].qty + l.qty), t, price);
      } else {
        AddLevelAt(side, t, l, price);
        StrictCons(side, ls[0], AddLevel(side, t, l));
        ListsCons(ls[0], AddLevel(side, t, l), price);
      }
    }
  }

  lemma StrictTail(side: Side, ls: seq<Level>)
    requires Strict(side, ls) && ls != []
    ensures Strict(side, ls[1..]) && (|ls| > 1 ==> Key(side, ls[0].price) < Key(side, ls[1..][0].price))
  {}

  lemma {:induction false} AddOrdersAt(market: MarketId, side: Side, ls: seq<Level>, list: seq<OpenOrder>, price: real)
    requires Strict(side, ls)
    ensures var r, (qty, n) := AddOrders(market, side, ls, list), RestingIn(market, side, list, price);
            && Strict(side, r) && QtyAt(r, price) == QtyAt(ls, price) + qty
            && (Lists(r, price) <==> n > 0 || Lists(ls, price))
    decreases |list|
  {
    hide Strict, QtyAt, Lists, AddLevel;
    if list != [] {
      if Resting(market, side, list[0]) {
        var l := Level(list[0].price, list[0].remaining);
        AddLevelAt(side, ls, l, price);
        AddOrdersAt(market, side, AddLevel(side, ls, l), list[1..], price);
      } else {
        AddOrdersAt(market, side, ls, list[1..], price);
      }
    }
  }

  lemma {:induction false} AddUsersAt(orders: Orders, users: seq<Address>, market: MarketId, side: Side, ls: seq<Level>, price: real)
    requires Strict(side, ls)
    ensures var r, (qty, n) := AddUsers(orders, users, market, side, ls), RestingOf(orders, users, market, side, price);
            && Strict(side, r) && QtyAt(r, price) == QtyAt(ls, price) + qty
            && (Lists(r, price) <==> n > 0 || Lists(ls, price))
    decreases |users|
  {
    hide Strict, QtyAt, Lists, AddOrders;
    if users != [] {
      AddOrdersAt(market, side, ls, ListOf(orders, users[0]), price);
      AddUsersAt(orders, users[1..], market, side, AddOrders(market, side, ls, ListOf(orders, users[0])), price);
    }
  }

  /** Main result: each side of the published book is in strict order of price, lists a price exactly
      when some order of a visited account rests there, and shows at it the sum of what remains. */
  lemma PublishedExact(orders: Orders, users: seq<Address>, market: MarketId, side: Side, price: real)
    ensures var ls, (qty, n) := Published(orders, users, market, side), RestingOf(orders, users, market, side, price);
            && (forall i, j | 0 <= i < j < |ls| :: if side == Sell then ls[i].price < ls[j].price else ls[i].price > ls[j].price)
            && ((exists i :: 0 <= i < |ls| && ls[i].price == price) <==> n > 0)
            && (forall i | 0 <= i < |ls| && ls[i].price == price :: ls[i].qty == qty)
  {
    hide AddUsers, RestingOf;
    var ls := Published(orders, users, market, side);
    AddUsersAt(orders, users, market, side, [], price);
    forall i | 0 <= i < |ls| && ls[i].price == price ensures ls[i].qty == QtyAt(ls, price) { QtyOfLevel(side, ls, i); }
  }

  /** In strict order a price occurs once, so its quantity is the level's. */
  lemma {:induction false} QtyOfLevel(side: Side, ls: seq<Level>, i: nat)
    requires Strict(side, ls) && i < |ls|
    ensures QtyAt(ls, ls[i].price) == ls[i].qty
  {
    if i == 0 {
      NotAfter(side, ls, ls[0].price);
    } else {
      assert ls[0].price != ls[i].price;
      QtyOfLevel(side, ls[1..], i - 1);
    }
  }

  lemma NotAfter(side: Side, ls: seq<Level>, price: real)
    requires Strict(side, ls) && ls != [] && ls[0].price == price
    ensures QtyAt(ls[1..], price) == 0.0
  {
    forall i | 0 <= i < |ls[1..]| ensures ls[1..][i].price != price { assert Key(side, ls[0].price) < Key(side, ls[i + 1].price); }
    QtyOfNone(ls[1..], price);
  }

  lemma {:induction false} QtyOfNone(ls: seq<Level>, price: real)
    requires forall i | 0 <= i < |ls| :: ls[i].price != price
    ensures QtyAt(ls, price) == 0.0
  {
    if ls != [] { QtyOfNone(ls[1..], price); }
  }
}
