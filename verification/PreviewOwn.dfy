/**
 The published book also shows the taker's own orders, which matching skips. Exactly when the
 preview is right all the same: others must offer enough at or better than the price of every own
 order within the limit.
 */
module PreviewOwn {
  import opened OrderTypes
  import opened FlatBook
  import opened EdgeMatch
  import opened EdgeTotals
  import opened Preview

  // ---- Comparing sweeps ----------------------------------------------------------------

  /** Notional as a cost: what a buyer pays, or what a seller gets, negated. */
  function CostOf(side: Side, notional: real): real {
    if side == Sell then notional else -notional
  }

  /** `y` is better for the taker than `x`: more is filled, or the same at less cost. */
  predicate Better(side: Side, x: Swept, y: Swept) {
    y.filled > x.filled || (y.filled == x.filled && CostOf(side, y.notional) < CostOf(side, x.notional))
  }

  lemma PlusBetter(side: Side, qty: real, price: real, x: Swept, y: Swept)
    ensures Better(side, Plus(qty, price, x), Plus(qty, price, y)) <==> Better(side, x, y)
  {
    hide Amount;
  }

  /** Best price first, no price twice. */
  predicate Ranked(side: Side, ls: seq<Level>) {
    forall i, j | 0 <= i < j < |ls| :: Key(side, ls[i].price) < Key(side, ls[j].price)
  }

  /** Every level is worse than `price`. */
  predicate AllWorse(side: Side, price: real, ls: seq<Level>) {
    forall i | 0 <= i < |ls| :: Key(side, price) < Key(side, ls[i].price)
  }

  function Total(ls: seq<Level>): real {
    if ls == [] then 0.0 else ls[0].qty + Total(ls[1..])
  }

  lemma {:induction false} SweepFills(ls: seq<Level>, q: real)
    requires AllPositive(ls) && q >= 0.0
    ensures Total(ls) >= 0.0 && Sweep(ls, q).filled == Min(q, Total(ls))
    decreases |ls|
  {
    hide Amount;
    if ls != [] {
      assert AllPositive(ls[1..]);
      SweepFills(ls[1..], q - Min(q, ls[0].qty));
    }
  }

  lemma AmountWorse(side: Side, qty: real, p: real, w: real)
    requires qty >= 0.0 && Key(side, p) < Key(side, w)
    ensures CostOf(side, Amount(qty, p)) <= CostOf(side, Amount(qty, w))
    ensures qty > 0.0 ==> CostOf(side, Amount(qty, p)) < CostOf(side, Amount(qty, w))
  {
    if side == Sell {
      TimesMore(qty, p, w);
    } else {
      TimesMore(qty, w, p);
    }
  }

  lemma TimesMore(qty: real, a: real, b: real)
    requires qty >= 0.0 && a < b
    ensures Amount(qty, a) <= Amount(qty, b) && (qty > 0.0 ==> Amount(qty, a) < Amount(qty, b))
  {
    hide Amount;
    PriceAdds(qty, a, b - a);
    AmountSign(qty, b - a);
  }

  lemma PriceAdds(qty: real, a: real, d: real)
    ensures Amount(qty, a + d) == Amount(qty, a) + Amount(qty, d)
  {}

  lemma AmountSign(qty: real, d: real)
    requires qty >= 0.0 && d > 0.0
    ensures Amount(qty, d) >= 0.0 && (qty > 0.0 ==> Amount(qty, d) > 0.0)
  {}

  function SweepCost(side: Side, ls: seq<Level>, q: real): real {
    CostOf(side, Sweep(ls, q).notional)
  }

  lemma CostStep(side: Side, l: Level, ls: seq<Level>, q: real)
    requires q >= 0.0 && l.qty > 0.0
    ensures SweepCost(side, [l] + ls, q) == CostOf(side, Amount(Min(q, l.qty), l.price)) + SweepCost(side, ls, q - Min(q, l.qty))
  {
    hide Amount, Sweep;
    if q == 0.0 {
      SweepNothing([l] + ls);
      SweepNothing(ls);
      AmountAdds(0.0, 0.0, l.price);
    } else {
      SweepHead(l, ls, q);
    }
  }

  /** Going on from `x` to `y` down levels worse than `price` costs more than it would at `price`. */
  lemma {:induction false} WorseCostsMore(side: Side, price: real, ls: seq<Level>, x: real, y: real)
    requires AllPositive(ls) && AllWorse(side, price, ls) && 0.0 <= x <= y <= Total(ls)
    ensures SweepCost(side, ls, y) - SweepCost(side, ls, x) >= CostOf(side, Amount(y - x, price))
    ensures x < y ==> SweepCost(side, ls, y) - SweepCost(side, ls, x) > CostOf(side, Amount(y - x, price))
    decreases |ls|
  {
    hide Amount, Sweep, SweepCost;
    if x == y {
      AmountAdds(0.0, 0.0, price);
    } else {
      var h, rest := ls[0], ls[1..];
      assert ls == [h] + rest;
      CostStep(side, h, rest, x);
      CostStep(side, h, rest, y);
      var tx, ty := Min(x, h.qty), Min(y, h.qty);
      AmountAdds(tx, ty - tx, h.price);
      AmountWorse(side, ty - tx, price, h.price);
      assert AllPositive(rest) && AllWorse(side, price, rest);
      SweepFills(rest, 0.0);
      WorseCostsMore(side, price, rest, x - tx, y - ty);
      AmountAdds(ty - tx, (y - ty) - (x - tx), price);
      assert (ty - tx) + ((y - ty) - (x - tx)) == y - x;
    }
  }

  /** A level better than all others improves every sweep. */
  lemma FrontImproves(side: Side, l: Level, ls: seq<Level>, q: real)
    requires AllPositive(ls) && l.qty > 0.0 && AllWorse(side, l.price, ls) && q > 0.0
    ensures Better(side, Sweep(ls, q), Sweep([l] + ls, q))
  {
    hide Amount, Sweep, Total;
    var t := Min(q, l.qty);
    SweepHead(l, ls, q);
    SweepFills(ls, q);
    SweepFills(ls, q - t);
    if Total(ls) >= q {
      CostStep(side, l, ls, q);
      WorseCostsMore(side, l.price, ls, q - t, q);
      assert q - (q - t) == t;
    }
  }

  // ---- One more order ------------------------------------------------------------------

  /** Quantity at this price or better. */
  function Up(side: Side, ls: seq<Level>, price: real): real {
    if ls == [] then 0.0 else (if Key(side, ls[0].price) <= Key(side, price) then ls[0].qty else 0.0) + Up(side, ls[1..], price)
  }

  lemma {:induction false} UpNonNegative(side: Side, ls: seq<Level>, price: real)
    requires AllPositive(ls)
    ensures Up(side, ls, price) >= 0.0
  {
    if ls != [] { UpNonNegative(side, ls[1..], price); }
  }

  lemma {:induction false} UpNothing(side: Side, ls: seq<Level>, price: real)
    requires AllWorse(side, price, ls)
    ensures Up(side, ls, price) == 0.0
  {
    if ls != [] { UpNothing(side, ls[1..], price); }
  }

  lemma {:induction false} UpAdded(side: Side, ls: seq<Level>, l: Level, price: real)
    ensures Up(side, AddLevel(side, ls, l), price) == Up(side, ls, price) + if Key(side, l.price) <= Key(side, price) then l.qty else 0.0
  {
    hide AddLevel;
    if ls == [] || Key(side, l.price) < Key(side, ls[0].price) {
      AddLow(side, ls, l);
      assert ([l] + ls)[1..] == ls;
    } else {
      var h, t := ls[0], ls[1..];
      assert ls == [h] + t;
      if h.price == l.price {
        AddSame(side, h, t, l);
        assert ([Level(l.price, h.qty + l.qty)] + t)[1..] == t;
      } else {
        AddHigh(side, h, t, l);
        assert ([h] + AddLevel(side, t, l))[1..] == AddLevel(side, t, l);
        UpAdded(side, t, l, price);
      }
    }
  }

  lemma RankedTail(side: Side, ls: seq<Level>)
    requires Ranked(side, ls) && ls != []
    ensures Ranked(side, ls[1..]) && AllWorse(side, ls[0].price, ls[1..])
  {}

  lemma RankedCons(side: Side, h: Level, t: seq<Level>)
    requires Ranked(side, t) && AllWorse(side, h.price, t)
    ensures Ranked(side, [h] + t)
  {}

  lemma {:induction false} AddKeepsRank(side: Side, ls: seq<Level>, l: Level, better: real)
    requires Ranked(side, ls)
    ensures Ranked(side, AddLevel(side, ls, l))
    ensures AllWorse(side, better, ls) && Key(side, better) < Key(side, l.price) ==> AllWorse(side, better, AddLevel(side, ls, l))
  {
    hide AddLevel, Ranked;
    if ls == [] || Key(side, l.price) < Key(side, ls[0].price) {
      AddLow(side, ls, l);
      LowIsWorse(side, ls, l.price);
      RankedCons(side, l, ls);
    } else {
      var h, t := ls[0], ls[1..];
      assert ls == [h] + t;
      RankedTail(side, ls);
      if h.price == l.price {
        AddSame(side, h, t, l);
        RankedCons(side, Level(l.price, h.qty + l.qty), t);
      } else {
        AddHigh(side, h, t, l);
        AddKeepsRank(side, t, l, h.price);
        AddKeepsRank(side, t, l, better);
        RankedCons(side, h, AddLevel(side, t, l));
      }
    }
  }

  lemma LowIsWorse(side: Side, ls: seq<Level>, price: real)
    requires Ranked(side, ls) && (ls == [] || Key(side, price) < Key(side, ls[0].price))
    ensures AllWorse(side, price, ls)
  {}

  /** One more order leaves a sweep alone exactly when there is enough at its price or better;
      otherwise it improves it. */
  lemma {:induction false} AddedImproves(side: Side, ls: seq<Level>, l: Level, q: real)
    requires Ranked(side, ls) && AllPositive(ls) && l.qty > 0.0 && q >= 0.0
    ensures Up(side, ls, l.price) >= q ==> Sweep(AddLevel(side, ls, l), q) == Sweep(ls, q)
    ensures Up(side, ls, l.price) < q ==> Better(side, Sweep(ls, q), Sweep(AddLevel(side, ls, l), q))
    decreases |ls|
  {
    hide AddLevel, Sweep, Ranked, Better, Amount;
    if q == 0.0 {
      SweepNothing(AddLevel(side, ls, l));
      SweepNothing(ls);
      UpNonNegative(side, ls, l.price);
    } else if ls == [] || Key(side, l.price) < Key(side, ls[0].price) {
      AddLow(side, ls, l);
      LowIsWorse(side, ls, l.price);
      UpNothing(side, ls, l.price);
      FrontImproves(side, l, ls, q);
    } else {
      var h, t := ls[0], ls[1..];
      var take := Min(q, h.qty);
      assert ls == [h] + t;
      RankedTail(side, ls);
      assert AllPositive(t);
      SweepHead(h, t, q);
      if h.price == l.price {
        AddSame(side, h, t, l);
        UpNothing(side, t, l.price);
        assert AddFront(h, [l] + t) == [Level(l.price, h.qty + l.qty)] + t by { assert ([l] + t)[1..] == t; }
        SweepJoined(h, [l] + t, q);
        SweepHead(h, [l] + t, q);
        if q <= h.qty {
          SweepNothing([l] + t);
          SweepNothing(t);
        } else {
          FrontImproves(side, l, t, q - take);
          PlusBetter(side, take, h.price, Sweep(t, q - take), Sweep([l] + t, q - take));
        }
      } else {
        AddHigh(side, h, t, l);
        SweepHead(h, AddLevel(side, t, l), q);
        AddedImproves(side, t, l, q - take);
        UpNonNegative(side, t, l.price);
        PlusBetter(side, take, h.price, Sweep(t, q - take), Sweep(AddLevel(side, t, l), q - take));
      }
    }
  }

  // ---- Several more orders -------------------------------------------------------------

  predicate AllServed(side: Side, ls: seq<Level>, cs: seq<Candidate>, q: real) {
    forall i | 0 <= i < |cs| :: Up(side, ls, cs[i].price) >= q
  }

  lemma AddedKeeps(side: Side, ls: seq<Level>, c: Candidate)
    requires Ranked(side, ls) && AllPositive(ls) && c.remaining > 0.0
    ensures Ranked(side, AddLevel(side, ls, LevelOf(c))) && AllPositive(AddLevel(side, ls, LevelOf(c)))
    ensures forall p :: Up(side, AddLevel(side, ls, LevelOf(c)), p) >= Up(side, ls, p)
  {
    hide AddLevel, Ranked, Up;
    AddKeepsRank(side, ls, LevelOf(c), 0.0);
    AddLevelPositive(side, ls, LevelOf(c));
    forall p ensures Up(side, AddLevel(side, ls, LevelOf(c)), p) >= Up(side, ls, p) { UpAdded(side, ls, LevelOf(c), p); }
  }

  /** More orders never make a sweep worse, and leave it alone if each of them does. */
  lemma {:induction false} MoreIsNoWorse(side: Side, ls: seq<Level>, cs: seq<Candidate>, q: real)
    requires Ranked(side, ls) && AllPositive(ls) && Positive(cs) && q >= 0.0
    ensures Sweep(AddAll(side, ls, cs), q) == Sweep(ls, q) || Better(side, Sweep(ls, q), Sweep(AddAll(side, ls, cs), q))
    ensures AllServed(side, ls, cs, q) ==> Sweep(AddAll(side, ls, cs), q) == Sweep(ls, q)
    decreases |cs|
  {
    hide AddLevel, Sweep, Ranked, Up;
    if cs != [] {
      var ls' := AddLevel(side, ls, LevelOf(cs[0]));
      AddedKeeps(side, ls, cs[0]);
      AddedImproves(side, ls, LevelOf(cs[0]), q);
      assert Positive(cs[1..]);
      MoreIsNoWorse(side, ls', cs[1..], q);
      assert AllServed(side, ls, cs, q) ==> AllServed(side, ls', cs[1..], q);
    }
  }

  /** Further orders change a sweep exactly when one of them is not served already. */
  lemma SweepSameIff(side: Side, ls: seq<Level>, cs: seq<Candidate>, q: real)
    requires Ranked(side, ls) && AllPositive(ls) && Positive(cs) && q >= 0.0
    ensures Sweep(AddAll(side, ls, cs), q) == Sweep(ls, q) <==> AllServed(side, ls, cs, q)
  {
    hide AddLevel, AddAll, Sweep, Ranked, Up;
    MoreIsNoWorse(side, ls, cs, q);
    if !AllServed(side, ls, cs, q) {
      var i :| 0 <= i < |cs| && Up(side, ls, cs[i].price) < q;
      var c, rest := cs[i], cs[..i] + cs[i + 1..];
      MovedFirst(side, ls, cs, i);
      AddedKeeps(side, ls, c);
      AddedImproves(side, ls, LevelOf(c), q);
      MoreIsNoWorse(side, AddLevel(side, ls, LevelOf(c)), rest, q);
    }
  }

  lemma MovedFirst(side: Side, ls: seq<Level>, cs: seq<Candidate>, i: nat)
    requires i < |cs|
    ensures AddAll(side, ls, cs) == AddAll(side, AddLevel(side, ls, LevelOf(cs[i])), cs[..i] + cs[i + 1..])
  {
    hide AddLevel;
    var c, rest := cs[i], cs[..i] + cs[i + 1..];
    assert cs == cs[..i] + [c] + cs[i + 1..];
    assert multiset(cs) == multiset([c] + rest);
    AddAllPermutes(side, ls, cs, [c] + rest);
    assert ([c] + rest)[1..] == rest;
  }

  // ---- The published book --------------------------------------------------------------

  /** Quantity of these orders at this price or better. */
  function UpOf(side: Side, cs: seq<Candidate>, price: real): real {
    if cs == [] then 0.0 else
    var c := cs[|cs| - 1];
    UpOf(side, cs[..|cs| - 1], price) + if Key(side, c.price) <= Key(side, price) then c.remaining else 0.0
  }

  lemma {:induction false} LevelsUp(side: Side, cs: seq<Candidate>, price: real)
    requires Positive(cs)
    ensures var ls := AddAll(side, [], cs); Up(side, ls, price) == UpOf(side, cs, price) && Ranked(side, ls) && AllPositive(ls)
  {
    hide AddLevel, Up, Ranked;
    if cs == [] {
      NoLevels(side, price);
    } else {
      var n := |cs| - 1;
      LevelsUp(side, cs[..n], price);
      assert cs == cs[..n] + [cs[n]];
      AddAllConcat(side, [], cs[..n], [cs[n]]);
      AddAllOne(side, AddAll(side, [], cs[..n]), cs[n]);
      AddedKeeps(side, AddAll(side, [], cs[..n]), cs[n]);
      UpAdded(side, AddAll(side, [], cs[..n]), LevelOf(cs[n]), price);
    }
  }

  lemma NoLevels(side: Side, price: real)
    ensures Up(side, [], price) == 0.0 && Ranked(side, [])
  {}

  lemma {:induction false} Nobody(users: seq<Address>) returns (x: Address)
    ensures x !in users && forall u | u in users :: u < x
  {
    x := 0;
    if users != [] {
      var n := |users| - 1;
      var y := Nobody(users[..n]);
      x := if users[n] < y then y else users[n] + 1;
      assert users == users[..n] + [users[n]];
    }
  }

  /** The same request by somebody who is not there. */
  function By(req: Request, x: Address): Request {
    req.(taker := x)
  }

  lemma {:induction false} SameTaker(req: Request, x: Address, a: Address, list: seq<OpenOrder>)
    ensures FromList(By(req, x), a, list) == FromList(req, a, list)
  {
    hide Resting;
    if list != [] { SameTaker(req, x, a, list[1..]); }
  }

  lemma {:induction false} SameCut(req: Request, x: Address, ls: seq<Level>)
    ensures TakeWithin(By(req, x), ls) == TakeWithin(req, ls)
  {
    if ls != [] { SameCut(req, x, ls[1..]); }
  }

  /** Everybody's candidates are those of others and the taker's own. */
  lemma {:induction false} Everybody(orders: Orders, users: seq<Address>, req: Request, x: Address)
    requires x !in users && NoRepeats(users)
    ensures multiset(Collect(orders, users, By(req, x))) ==
            multiset(Collect(orders, users, req)) + if req.taker in users then multiset(FromList(req, req.taker, ListOf(orders, req.taker))) else multiset{}
  {
    hide FromList, ListOf;
    if users != [] {
      var rest := users[1..];
      assert users == [users[0]] + rest;
      assert NoRepeats(rest) by {
        forall i, j | 0 <= i < j < |rest| ensures rest[i] != rest[j] { assert users[i + 1] != users[j + 1]; }
      }
      forall k | 0 <= k < |rest| ensures rest[k] != users[0] { assert users[k + 1] != users[0]; }
      Everybody(orders, rest, req, x);
      SameTaker(req, x, users[0], ListOf(orders, users[0]));
    }
  }

  /** What the preview sees: the levels of everybody's candidates. */
  lemma PreviewSees(orders: Orders, users: seq<Address>, users': seq<Address>, req: Request, x: Address)
    requires Tidy(orders) && NoRepeats(users) && multiset(users) == multiset(users') && req.qty >= 0.0 && x !in users
    ensures PreviewFrom(req, Published(orders, users', req.market, req.side.Opposite()), req.qty) ==
            Sweep(AddAll(req.side.Opposite(), [], Collect(orders, users, By(req, x))), req.qty)
  {
    hide AddAll, Collect, AddUsers, TakeWithin, Sweep, PreviewFrom, Published;
    var side := req.side.Opposite();
    var ls := Published(orders, users', req.market, side);
    Absent(users, users', x);
    PublishedPositive(orders, users', By(req, x));
    PreviewIsSweep(req, ls, req.qty);
    PublishedWithin(orders, users, users', By(req, x));
    SameCut(req, x, ls);
  }

  lemma Absent(users: seq<Address>, users': seq<Address>, x: Address)
    requires multiset(users) == multiset(users') && x !in users
    ensures x !in users'
  {
    assert x !in multiset(users);
    assert x !in multiset(users');
  }

  /** The quantity alone is right exactly when the taker has nothing within the limit or others
      offer enough. */
  lemma PreviewQtyIff(orders: Orders, users: seq<Address>, users': seq<Address>, req: Request)
    requires Tidy(orders) && NoRepeats(users) && multiset(users) == multiset(users') && req.qty >= 0.0
    requires ListOf(orders, req.taker) != [] ==> req.taker in users
    ensures var others, own := Collect(orders, users, req), FromList(req, req.taker, ListOf(orders, req.taker));
            var seen := PreviewFrom(req, Published(orders, users', req.market, req.side.Opposite()), req.qty);
            seen.filled == TotalQty(Match(orders, users, req).fills) <==> own == [] || Offered(others) >= req.qty
  {
    hide AddAll, Collect, FromList, Sweep, PreviewFrom, Match, Published, Sort, Offered, SweepNotional, TotalQty, Notional, Tidy, NoRepeats, ListOf;
    var side := req.side.Opposite();
    var others, own := Collect(orders, users, req), FromList(req, req.taker, ListOf(orders, req.taker));
    var x := Nobody(users);
    var all := Collect(orders, users, By(req, x));
    PreviewSees(orders, users, users', req, x);
    Everybody(orders, users, req, x);
    NoOwn(req, ListOf(orders, req.taker));
    assert multiset(all) == multiset(others + own);
    OfferedPermutes(all, others + own);
    OfferedConcat(others, own);
    CollectPositive(orders, users, By(req, x));
    SweepLevels(side, all, req.qty);
    MatchTotals(orders, users, req);
    OwnPositive(orders, users, req, x, own);
    OfferedPositive(own);
  }

  lemma {:induction false} OfferedPositive(cs: seq<Candidate>)
    requires Positive(cs)
    ensures Offered(cs) >= 0.0 && (Offered(cs) == 0.0 <==> cs == [])
  {
    if cs != [] { OfferedPositive(cs[1..]); }
  }

  /** Main result: for any taker, the preview announces exactly the quantity and the notional of the
      match if and only if, for each own order within the limit, others offer the whole quantity
      asked for at its price or better. */
  lemma PreviewRightIff(orders: Orders, users: seq<Address>, users': seq<Address>, req: Request)
    requires Tidy(orders) && NoRepeats(users) && multiset(users) == multiset(users') && req.qty >= 0.0
    requires ListOf(orders, req.taker) != [] ==> req.taker in users
    ensures var fills, side := Match(orders, users, req).fills, req.side.Opposite();
            var others, own := Collect(orders, users, req), FromList(req, req.taker, ListOf(orders, req.taker));
            PreviewFrom(req, Published(orders, users', req.market, side), req.qty) == Swept(TotalQty(fills), Notional(fills)) <==>
            forall i | 0 <= i < |own| :: UpOf(side, others, own[i].price) >= req.qty
  {
    hide AddAll, Collect, FromList, Sweep, PreviewFrom, Match, Published, Sort, Offered, SweepNotional, TotalQty, Notional, Up, UpOf, Ranked, Tidy, NoRepeats, ListOf;
    var side := req.side.Opposite();
    var others, own := Collect(orders, users, req), FromList(req, req.taker, ListOf(orders, req.taker));
    var x := Nobody(users);
    var all, ls := Collect(orders, users, By(req, x)), AddAll(side, [], others);
    PreviewSees(orders, users, users', req, x);
    Everybody(orders, users, req, x);
    NoOwn(req, ListOf(orders, req.taker));
    assert multiset(all) == multiset(others + own);
    AddAllPermutes(side, [], all, others + own);
    AddAllConcat(side, [], others, own);
    CollectPositive(orders, users, req);
    OwnPositive(orders, users, req, x, own);
    SweepLevels(side, others, req.qty);
    MatchTotals(orders, users, req);
    LevelsUp(side, others, 0.0);
    forall i | 0 <= i < |own| ensures Up(side, ls, own[i].price) == UpOf(side, others, own[i].price) { LevelsUp(side, others, own[i].price); }
    SweepSameIff(side, ls, own, req.qty);
  }

  lemma NoOwn(req: Request, list: seq<OpenOrder>)
    ensures list == [] ==> FromList(req, req.taker, list) == []
  {}

  lemma OwnPositive(orders: Orders, users: seq<Address>, req: Request, x: Address, own: seq<Candidate>)
    requires Tidy(orders) && multiset(Collect(orders, users, By(req, x))) == multiset(Collect(orders, users, req)) + multiset(own)
    ensures Positive(own)
  {
    hide Collect;
    var all := Collect(orders, users, By(req, x));
    CollectPositive(orders, users, By(req, x));
    forall i | 0 <= i < |own| ensures own[i].remaining > 0.0 {
      assert own[i] in multiset(own);
      assert own[i] in multiset(all);
      assert own[i] in all;
    }
  }
}
