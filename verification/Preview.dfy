/**
 The order form's fill preview works on the published book, where orders are summed per price.
 It nevertheless announces exactly the quantity and the notional that matching the individual
 orders then produces.
 */
module Preview {
  import opened OrderTypes
  import opened FlatBook
  import opened EdgeMatch
  import opened EdgeTotals

  datatype Level = Level(price: real, qty: real)

  // ---- Publishing the book -------------------------------------------------------------

  /** Add to the level at this price, or open it. */
  function AddLevel(side: Side, ls: seq<Level>, l: Level): seq<Level> {
    if ls == [] || Key(side, l.price) < Key(side, ls[0].price) then [l] + ls
    else if ls[0].price == l.price then [Level(l.price, ls[0].qty + l.qty)] + ls[1..]
    else [ls[0]] + AddLevel(side, ls[1..], l)
  }

  function AddOrders(market: MarketId, side: Side, ls: seq<Level>, list: seq<OpenOrder>): seq<Level>
    decreases |list|
  {
    if list == [] then ls else
    AddOrders(market, side, if Resting(market, side, list[0]) then AddLevel(side, ls, Level(list[0].price, list[0].remaining)) else ls, list[1..])
  }

  function AddUsers(orders: Orders, users: seq<Address>, market: MarketId, side: Side, ls: seq<Level>): seq<Level>
    decreases |users|
  {
    if users == [] then ls else AddUsers(orders, users[1..], market, side, AddOrders(market, side, ls, ListOf(orders, users[0])))
  }

  /** One side of the published snapshot. */
  function Published(orders: Orders, users: seq<Address>, market: MarketId, side: Side): seq<Level> {
    AddUsers(orders, users, market, side, [])
  }

  method RebuildOrderbook(orders: Orders, users: seq<Address>, market: MarketId) returns (bids: seq<Level>, asks: seq<Level>)
    ensures bids == Published(orders, users, market, Buy) && asks == Published(orders, users, market, Sell)
  {
    bids, asks := [], [];
    var i := 0;
    assert users[0..] == users;
    while i < |users|
      invariant i <= |users|
      invariant AddUsers(orders, users[i..], market, Buy, bids) == Published(orders, users, market, Buy)
      invariant AddUsers(orders, users[i..], market, Sell, asks) == Published(orders, users, market, Sell)
    {
      hide AddLevel, AddOrders;
      assert users[i..][1..] == users[i + 1..];
      bids, asks := AddListTo(market, ListOf(orders, users[i]), bids, asks);
      i := i + 1;
    }
    assert users[i..] == [];
  }

  method AddListTo(market: MarketId, list: seq<OpenOrder>, bids0: seq<Level>, asks0: seq<Level>)
    returns (bids: seq<Level>, asks: seq<Level>)
    ensures bids == AddOrders(market, Buy, bids0, list) && asks == AddOrders(market, Sell, asks0, list)
  {
    bids, asks := bids0, asks0;
    var j := 0;
    assert list[0..] == list;
    while j < |list|
      invariant j <= |list|
      invariant AddOrders(market, Buy, bids, list[j..]) == AddOrders(market, Buy, bids0, list)
      invariant AddOrders(market, Sell, asks, list[j..]) == AddOrders(market, Sell, asks0, list)
    {
      hide AddLevel;
      var o := list[j];
      assert list[j..][0] == o && list[j..][1..] == list[j + 1..];
      j := j + 1;
      if o.market != market || o.orderType != Limit || o.price == 0.0 || o.remaining == 0.0 {
        continue;
      }
      if o.side == Buy {
        bids := AddLevel(Buy, bids, Level(o.price, o.remaining));
      } else {
        asks := AddLevel(Sell, asks, Level(o.price, o.remaining));
      }
    }
    assert list[j..] == [];
  }

  // ---- The preview ---------------------------------------------------------------------

  datatype Swept = Swept(filled: real, notional: real)

  function Plus(qty: real, price: real, s: Swept): Swept {
    Swept(qty + s.filled, Amount(qty, price) + s.notional)
  }

  /** Walk the published levels until the quantity is used up or the limit stops it. */
  function PreviewFrom(req: Request, ls: seq<Level>, remaining: real): Swept
    decreases |ls|
  {
    if ls == [] || remaining <= 0.0 then Swept(0.0, 0.0)
    else if ls[0].qty <= 0.0 then PreviewFrom(req, ls[1..], remaining)
    else if !WithinLimit(req, ls[0].price) then Swept(0.0, 0.0)
    else
      var take := Min(remaining, ls[0].qty);
      Plus(take, ls[0].price, PreviewFrom(req, ls[1..], remaining - take))
  }

  datatype FillPreview = FillPreview(effPrice: real, filledQty: real, remaining: real, worstPrice: Option<real>, wouldCross: bool)

  /** Quantity of the levels, those without any left out of account. */
  function Depth(ls: seq<Level>): real {
    if ls == [] then 0.0 else
    var l := ls[|ls| - 1];
    Depth(ls[..|ls| - 1]) + if l.qty > 0.0 then l.qty else 0.0
  }

  /** The preview gets to level `i`: it has quantity, the levels before it do not suffice, and
      neither they nor it are beyond the limit. */
  predicate Touches(req: Request, ls: seq<Level>, i: nat) {
    && i < |ls| && ls[i].qty > 0.0 && Depth(ls[..i]) < req.qty
    && forall j | 0 <= j <= i && ls[j].qty > 0.0 :: WithinLimit(req, ls[j].price)
  }

  /** The price of the last level touched. */
  ghost predicate IsWorst(req: Request, ls: seq<Level>, worst: Option<real>) {
    if worst == None then forall i: nat :: !Touches(req, ls, i)
    else exists i: nat :: Touches(req, ls, i) && worst == Some(ls[i].price) && forall j: nat | j > i :: !Touches(req, ls, j)
  }

  lemma DepthSnoc(ls: seq<Level>, i: nat)
    requires i < |ls|
    ensures Depth(ls[..i + 1]) == Depth(ls[..i]) + if ls[i].qty > 0.0 then ls[i].qty else 0.0
  {
    assert ls[..i + 1][..i] == ls[..i];
  }

  lemma {:induction false} DepthGrows(ls: seq<Level>, i: nat, j: nat)
    requires i <= j <= |ls|
    ensures 0.0 <= Depth(ls[..i]) <= Depth(ls[..j])
    decreases j
  {
    if j > i {
      DepthGrows(ls, i, j - 1);
      DepthSnoc(ls, j - 1);
    } else if i > 0 {
      DepthGrows(ls, i - 1, i - 1);
      DepthSnoc(ls, i - 1);
    }
  }

  /** Once the quantity is used up, or the limit has stopped it, no later level is touched. */
  lemma NoneBeyond(req: Request, ls: seq<Level>, i: nat)
    requires i <= |ls|
    requires Depth(ls[..i]) >= req.qty || (i < |ls| && ls[i].qty > 0.0 && !WithinLimit(req, ls[i].price))
    ensures forall j | j >= i :: !Touches(req, ls, j)
  {
    hide Depth;
    forall j | i <= j < |ls| ensures !Touches(req, ls, j) { DepthGrows(ls, i, j); }
  }

  /** `last` is the last of the first `i` levels that was touched, if any was. */
  ghost predicate Tracks(req: Request, ls: seq<Level>, i: nat, worst: Option<real>, last: nat) {
    && i <= |ls|
    && (forall j | 0 <= j < i && ls[j].qty > 0.0 :: WithinLimit(req, ls[j].price))
    && (forall j | 0 <= j < i && (worst == None || j > last) :: !Touches(req, ls, j))
    && (worst.Some? ==> last < i && Touches(req, ls, last) && worst == Some(ls[last].price))
  }

  lemma TrackStart(req: Request, ls: seq<Level>)
    ensures Tracks(req, ls, 0, None, 0)
    ensures req.qty <= 0.0 || ls == [] ==> IsWorst(req, ls, None)
  {
    NoDepth(req, ls);
  }

  lemma TrackStep(req: Request, ls: seq<Level>, i: nat, worst: Option<real>, last: nat)
    requires Tracks(req, ls, i, worst, last) && i < |ls|
    ensures ls[i].qty <= 0.0 ==> Tracks(req, ls, i + 1, worst, last)
    ensures ls[i].qty > 0.0 && WithinLimit(req, ls[i].price) && Depth(ls[..i]) < req.qty ==> Tracks(req, ls, i + 1, Some(ls[i].price), i)
  {
    hide Depth, WithinLimit;
  }

  lemma TrackEnd(req: Request, ls: seq<Level>, i: nat, worst: Option<real>, last: nat)
    requires Tracks(req, ls, i, worst, last)
    requires i == |ls| || Depth(ls[..i]) >= req.qty || (ls[i].qty > 0.0 && !WithinLimit(req, ls[i].price))
    ensures IsWorst(req, ls, worst)
  {
    hide Depth, WithinLimit;
    if i < |ls| { NoneBeyond(req, ls, i); }
  }

  /** `mark` stands in for the price when nothing would fill. */
  method PreviewFill(req: Request, ls: seq<Level>, mark: real) returns (p: FillPreview)
    ensures var s := PreviewFrom(req, ls, req.qty);
            && p.filledQty == s.filled && p.remaining == req.qty - s.filled
            && (p.filledQty > 0.0 ==> Amount(p.filledQty, p.effPrice) == s.notional)
            && (p.filledQty == 0.0 ==> p.effPrice == if req.limit.Some? then req.limit.value else mark)
            && p.worstPrice.Some? == (p.filledQty > 0.0) && p.wouldCross == (p.filledQty > 0.0 && req.limit.Some?)
    ensures IsWorst(req, ls, p.worstPrice)
  {
    hide Amount, PreviewFrom, Depth, Tracks, IsWorst;
    PreviewNothing(req, ls);
    NoDepth(req, ls);
    TrackStart(req, ls);
    var fallback := FillPreview(if req.limit.Some? then req.limit.value else mark, 0.0, req.qty, None, false);
    if req.qty <= 0.0 || ls == [] {
      return fallback;
    }
    var remaining, notional, filled, worst, crossedAny := req.qty, 0.0, 0.0, None, false;
    var i := 0;
    assert ls[0..] == ls;
    ghost var last := 0;
    while i < |ls|
      invariant i <= |ls| && filled >= 0.0 && remaining == req.qty - filled
      invariant filled == Min(req.qty, Depth(ls[..i]))
      invariant Tracks(req, ls, i, worst, last)
      invariant PreviewFrom(req, ls, req.qty) ==
                Swept(filled + PreviewFrom(req, ls[i..], remaining).filled, notional + PreviewFrom(req, ls[i..], remaining).notional)
      invariant crossedAny == (filled > 0.0 && req.limit.Some?) && worst.Some? == (filled > 0.0)
    {
      var l := ls[i];
      assert ls[i..] == [l] + ls[i + 1..];
      PreviewStep(req, l, ls[i + 1..], remaining);
      DepthSnoc(ls, i);
      if remaining <= 0.0 {
        TrackEnd(req, ls, i, worst, last);
        break;
      }
      TrackStep(req, ls, i, worst, last);
      i := i + 1;
      if l.qty <= 0.0 {
        continue;
      }
      if req.limit.Some? {
        if (req.side == Buy && l.price > req.limit.value) || (req.side == Sell && l.price < req.limit.value) {
          i := i - 1;
          TrackEnd(req, ls, i, worst, last);
          break;
        }
        crossedAny := true;
      }
      var take := Min(remaining, l.qty);
      notional := notional + Amount(take, l.price);
      filled := filled + take;
      remaining := remaining - take;
      worst := Some(l.price);
      last := i - 1;
    }
    assert i == |ls| ==> ls[i..] == [];
    if i == |ls| { TrackEnd(req, ls, i, worst, last); }
    if req.limit.Some? && !crossedAny {
      return fallback;
    }
    if filled <= 0.0 {
      return fallback.(wouldCross := crossedAny);
    }
    p := FillPreview(Average(notional, filled), filled, remaining, worst, crossedAny);
  }

  lemma NoDepth(req: Request, ls: seq<Level>)
    ensures Depth([]) == 0.0 && (req.qty <= 0.0 || ls == [] ==> forall i :: !Touches(req, ls, i))
  {
    forall i | 0 <= i < |ls| ensures Depth(ls[..i]) >= 0.0 { DepthGrows(ls, i, i); }
  }

  function Average(notional: real, filled: real): (p: real)
    requires filled > 0.0
    ensures Amount(filled, p) == notional
  {
    notional / filled
  }

  lemma PreviewNothing(req: Request, ls: seq<Level>)
    ensures req.qty <= 0.0 ==> PreviewFrom(req, ls, req.qty) == Swept(0.0, 0.0)
    ensures forall q :: PreviewFrom(req, [], q) == Swept(0.0, 0.0)
  {}

  lemma PreviewStep(req: Request, l: Level, ls: seq<Level>, remaining: real)
    ensures PreviewFrom(req, [l] + ls, remaining) ==
            if remaining <= 0.0 then Swept(0.0, 0.0)
            else if l.qty <= 0.0 then PreviewFrom(req, ls, remaining)
            else if !WithinLimit(req, l.price) then Swept(0.0, 0.0)
            else Plus(Min(remaining, l.qty), l.price, PreviewFrom(req, ls, remaining - Min(remaining, l.qty)))
  {
    assert ([l] + ls)[1..] == ls;
  }

  // ---- Sweeping ------------------------------------------------------------------------

  function Sweep(ls: seq<Level>, left: real): Swept
    decreases |ls|
  {
    if ls == [] || left == 0.0 then Swept(0.0, 0.0) else
    var take := Min(left, ls[0].qty);
    Plus(take, ls[0].price, Sweep(ls[1..], left - take))
  }

  function LevelOf(c: Candidate): Level {
    Level(c.price, c.remaining)
  }

  function LevelsOf(cs: seq<Candidate>): seq<Level> {
    if cs == [] then [] else [LevelOf(cs[0])] + LevelsOf(cs[1..])
  }

  lemma {:induction false} SweepIsMatch(cs: seq<Candidate>, left: real)
    ensures Sweep(LevelsOf(cs), left) == Swept(ProbeFrom(cs, left), SweepNotional(cs, left))
    decreases |cs|
  {
    hide Amount;
    if cs != [] {
      assert LevelsOf(cs)[1..] == LevelsOf(cs[1..]);
      SweepIsMatch(cs[1..], left - Min(left, cs[0].remaining));
    }
  }

  /** Put a level in front, joining it with a first level of the same price. */
  function AddFront(l: Level, ls: seq<Level>): seq<Level> {
    if ls != [] && ls[0].price == l.price then [Level(l.price, l.qty + ls[0].qty)] + ls[1..] else [l] + ls
  }

  /** Join neighbours of equal price. */
  function Merge(ls: seq<Level>): seq<Level> {
    if ls == [] then [] else AddFront(ls[0], Merge(ls[1..]))
  }

  lemma AmountAdds(a: real, b: real, p: real)
    ensures Amount(a + b, p) == Amount(a, p) + Amount(b, p) && Amount(0.0, p) == 0.0
  {}

  predicate AllPositive(ls: seq<Level>) {
    forall i | 0 <= i < |ls| :: ls[i].qty > 0.0
  }

  lemma SweepHead(l: Level, ls: seq<Level>, left: real)
    requires left != 0.0
    ensures Sweep([l] + ls, left) == Plus(Min(left, l.qty), l.price, Sweep(ls, left - Min(left, l.qty)))
  {
    assert ([l] + ls)[1..] == ls;
  }

  /** Joining two levels of one price changes nothing for a sweep. */
  lemma SweepJoined(l: Level, ls: seq<Level>, left: real)
    requires AllPositive(ls) && l.qty > 0.0 && left >= 0.0
    ensures Sweep(AddFront(l, ls), left) == Sweep([l] + ls, left)
  {
    hide Amount, Sweep;
    if ls != [] && ls[0].price == l.price {
      var m, rest := ls[0], ls[1..];
      if left == 0.0 {
        SweepNothing(AddFront(l, ls));
        SweepNothing([l] + ls);
      } else {
        var t1 := Min(left, l.qty);
        var t2 := Min(left - t1, m.qty);
        SweepHead(l, ls, left);
        SweepHead(Level(l.price, l.qty + m.qty), rest, left);
        AmountAdds(t1, t2, l.price);
        assert ls == [m] + rest;
        if left - t1 == 0.0 {
          SweepNothing(ls);
          SweepNothing(rest);
        } else {
          SweepHead(m, rest, left - t1);
        }
      }
    }
  }

  lemma SweepNothing(ls: seq<Level>)
    ensures Sweep(ls, 0.0) == Swept(0.0, 0.0)
  {}

  lemma {:induction false} MergePositive(ls: seq<Level>)
    requires AllPositive(ls)
    ensures AllPositive(Merge(ls)) && (ls != [] ==> Merge(ls) != [] && Merge(ls)[0].price == ls[0].price)
  {
    if ls != [] { MergePositive(ls[1..]); }
  }

  lemma {:induction false} SweepMerged(ls: seq<Level>, left: real)
    requires AllPositive(ls) && left >= 0.0
    ensures Sweep(Merge(ls), left) == Sweep(ls, left)
    decreases |ls|
  {
    hide Sweep, Min;
    if ls != [] {
      MergePositive(ls[1..]);
      SweepJoined(ls[0], Merge(ls[1..]), left);
      assert ls == [ls[0]] + ls[1..];
      if left == 0.0 {
        SweepNothing(ls);
        SweepNothing(Merge(ls));
      } else {
        SweepHead(ls[0], ls[1..], left);
        SweepHead(ls[0], Merge(ls[1..]), left);
        MinBelow(left, ls[0].qty);
        SweepMerged(ls[1..], left - Min(left, ls[0].qty));
      }
    }
  }

  lemma MinBelow(x: real, y: real)
    ensures Min(x, y) <= x
  {}

  // ---- The published book is the merged sort of the candidates -------------------------

  function AddAll(side: Side, ls: seq<Level>, cs: seq<Candidate>): seq<Level>
    decreases |cs|
  {
    if cs == [] then ls else AddAll(side, AddLevel(side, ls, LevelOf(cs[0])), cs[1..])
  }

  lemma {:induction false} AddAllConcat(side: Side, ls: seq<Level>, a: seq<Candidate>, b: seq<Candidate>)
    ensures AddAll(side, ls, a + b) == AddAll(side, AddAll(side, ls, a), b)
    decreases |a|
  {
    hide AddLevel;
    if a == [] {
      assert a + b == b;
    } else {
      assert (a + b)[1..] == a[1..] + b;
      AddAllConcat(side, AddLevel(side, ls, LevelOf(a[0])), a[1..], b);
    }
  }

  lemma AddAllOne(side: Side, ls: seq<Level>, c: Candidate)
    ensures AddAll(side, ls, [c]) == AddLevel(side, ls, LevelOf(c))
  {
    hide AddLevel;
    assert [c][1..] == [];
  }

  lemma AddLow(side: Side, ls: seq<Level>, l: Level)
    requires ls != [] ==> Key(side, l.price) < Key(side, ls[0].price)
    ensures AddLevel(side, ls, l) == [l] + ls
  {}

  lemma AddSame(side: Side, h: Level, ls: seq<Level>, l: Level)
    requires h.price == l.price
    ensures AddLevel(side, [h] + ls, l) == [Level(l.price, h.qty + l.qty)] + ls
  {
    assert ([h] + ls)[1..] == ls;
  }

  lemma AddHigh(side: Side, h: Level, ls: seq<Level>, l: Level)
    requires Key(side, h.price) < Key(side, l.price)
    ensures AddLevel(side, [h] + ls, l) == [h] + AddLevel(side, ls, l)
  {
    assert ([h] + ls)[1..] == ls;
  }

  /** The order of two insertions does not matter. */
  lemma {:induction false} AddLevelCommutes(side: Side, ls: seq<Level>, a: Level, b: Level)
    ensures AddLevel(side, AddLevel(side, ls, a), b) == AddLevel(side, AddLevel(side, ls, b), a)
  {
    hide AddLevel;
    if ls == [] || Key(side, a.price) < Key(side, ls[0].price) {
      LowCommutes(side, ls, a, b);
    } else if Key(side, b.price) < Key(side, ls[0].price) {
      LowCommutes(side, ls, b, a);
    } else {
      var h, t := ls[0], ls[1..];
      assert ls == [h] + t;
      if h.price == a.price {
        SameCommutes(side, h, t, a, b);
      } else if h.price == b.price {
        SameCommutes(side, h, t, b, a);
      } else {
        AddHigh(side, h, t, a);
        AddHigh(side, h, t, b);
        AddHigh(side, h, AddLevel(side, t, a), b);
        AddHigh(side, h, AddLevel(side, t, b), a);
        AddLevelCommutes(side, t, a, b);
      }
    }
  }

  lemma LowCommutes(side: Side, ls: seq<Level>, a: Level, b: Level)
    requires ls != [] ==> Key(side, a.price) < Key(side, ls[0].price)
    ensures AddLevel(side, AddLevel(side, ls, a), b) == AddLevel(side, AddLevel(side, ls, b), a)
  {
    hide AddLevel;
    AddLow(side, ls, a);
    if Key(side, a.price) < Key(side, b.price) {
      AddHigh(side, a, ls, b);
      AddFirst(side, ls, b);
      AddLow(side, AddLevel(side, ls, b), a);
    } else {
      AddLow(side, ls, b);
      if a.price == b.price {
        AddSame(side, a, ls, b);
        AddSame(side, b, ls, a);
      } else {
        AddLow(side, [a] + ls, b);
        AddHigh(side, b, ls, a);
      }
    }
  }

  lemma AddFirst(side: Side, ls: seq<Level>, l: Level)
    ensures AddLevel(side, ls, l) != []
    ensures AddLevel(side, ls, l)[0].price == l.price || (ls != [] && AddLevel(side, ls, l)[0].price == ls[0].price)
  {}

  lemma SameCommutes(side: Side, h: Level, t: seq<Level>, a: Level, b: Level)
    requires h.price == a.price && Key(side, h.price) <= Key(side, b.price)
    ensures AddLevel(side, AddLevel(side, [h] + t, a), b) == AddLevel(side, AddLevel(side, [h] + t, b), a)
  {
    hide AddLevel;
    AddSame(side, h, t, a);
    var ha, hb := Level(a.price, h.qty + a.qty), Level(b.price, h.qty + b.qty);
    if h.price == b.price {
      AddSame(side, h, t, b);
      AddSame(side, ha, t, b);
      AddSame(side, hb, t, a);
    } else {
      AddHigh(side, h, t, b);
      AddHigh(side, ha, t, b);
      AddSame(side, h, AddLevel(side, t, b), a);
    }
  }

  lemma {:induction false} AddAllThenOne(side: Side, ls: seq<Level>, cs: seq<Candidate>, c: Candidate)
    ensures AddLevel(side, AddAll(side, ls, cs), LevelOf(c)) == AddAll(side, AddLevel(side, ls, LevelOf(c)), cs)
    decreases |cs|
  {
    hide AddLevel;
    if cs != [] {
      AddLevelCommutes(side, ls, LevelOf(cs[0]), LevelOf(c));
      AddAllThenOne(side, AddLevel(side, ls, LevelOf(cs[0])), cs[1..], c);
    }
  }

  lemma {:induction false} AddAllPermutes(side: Side, ls: seq<Level>, a: seq<Candidate>, b: seq<Candidate>)
    requires multiset(a) == multiset(b)
    ensures AddAll(side, ls, a) == AddAll(side, ls, b)
    decreases |a|
  {
    hide AddLevel;
    if a == [] {
      assert |multiset(b)| == 0;
    } else {
      var i := TakeOut(a, b);
      var c := a[0];
      AddAllPermutes(side, AddLevel(side, ls, LevelOf(c)), a[1..], b[..i] + b[i + 1..]);
      AddAllConcat(side, AddLevel(side, ls, LevelOf(c)), b[..i], b[i + 1..]);
      AddAllThenOne(side, ls, b[..i], c);
      AddAllConcat(side, ls, b[..i], b[i..]);
      assert b == b[..i] + b[i..] && b[i..][0] == c && b[i..][1..] == b[i + 1..];
    }
  }

  /** A level in front and one further back can be added in either order. */
  lemma FrontCommutes(side: Side, a: Level, ls: seq<Level>, c: Level)
    requires Key(side, a.price) <= Key(side, c.price)
    requires ls != [] ==> Key(side, a.price) <= Key(side, ls[0].price)
    ensures AddFront(a, AddLevel(side, ls, c)) == AddLevel(side, AddFront(a, ls), c)
  {
    hide AddLevel, AddFront;
    if ls == [] || ls[0].price != a.price {
      FrontNew(a, ls);
      FrontAlone(side, a, ls, c);
    } else {
      var h, t := ls[0], ls[1..];
      assert ls == [h] + t;
      FrontSame(a, h, t);
      if c.price == a.price {
        AddSame(side, h, t, c);
        AddSame(side, Level(a.price, a.qty + h.qty), t, c);
        FrontSame(a, Level(c.price, h.qty + c.qty), t);
      } else {
        AddHigh(side, h, t, c);
        AddHigh(side, Level(a.price, a.qty + h.qty), t, c);
        FrontSame(a, h, AddLevel(side, t, c));
      }
    }
  }

  lemma FrontSame(a: Level, h: Level, t: seq<Level>)
    requires h.price == a.price
    ensures AddFront(a, [h] + t) == [Level(a.price, a.qty + h.qty)] + t
  {
    assert ([h] + t)[1..] == t;
  }

  lemma FrontNew(a: Level, ls: seq<Level>)
    requires ls == [] || ls[0].price != a.price
    ensures AddFront(a, ls) == [a] + ls
  {}

  lemma FrontAlone(side: Side, a: Level, ls: seq<Level>, c: Level)
    requires Key(side, a.price) <= Key(side, c.price)
    requires ls != [] ==> Key(side, a.price) < Key(side, ls[0].price)
    ensures AddFront(a, AddLevel(side, ls, c)) == AddLevel(side, [a] + ls, c)
  {
    hide AddLevel;
    if c.price == a.price {
      AddLow(side, ls, c);
      AddSame(side, a, ls, c);
    } else {
      AddHigh(side, a, ls, c);
      AddFirst(side, ls, c);
    }
  }

  lemma {:induction false} MergeInsert(side: Side, s: seq<Candidate>, c: Candidate)
    requires IsSorted(side, s) && c.remaining > 0.0 && forall i | 0 <= i < |s| :: s[i].remaining > 0.0
    ensures Merge(LevelsOf(InsertSorted(side, s, c))) == AddLevel(side, Merge(LevelsOf(s)), LevelOf(c))
  {
    if s == [] {
      LevelsCons(c, []);
    } else {
      LevelsCons(s[0], s[1..]);
      LevelsCons(c, s);
      MergeHead(s);
      if Before(side, s[0], c) {
        MergeInsert(side, s[1..], c);
        MergeHead(s[1..]);
        assert s[1..] != [] ==> Before(side, s[0], s[1]);
        LevelsCons(s[0], InsertSorted(side, s[1..], c));
        assert s == [s[0]] + s[1..];
        FrontCommutes(side, LevelOf(s[0]), Merge(LevelsOf(s[1..])), LevelOf(c));
      }
    }
  }

  lemma LevelsCons(c: Candidate, cs: seq<Candidate>)
    ensures Merge(LevelsOf([c] + cs)) == AddFront(LevelOf(c), Merge(LevelsOf(cs)))
  {
    assert ([c] + cs)[1..] == cs;
    assert LevelsOf([c] + cs) == [LevelOf(c)] + LevelsOf(cs);
    assert LevelsOf([c] + cs)[1..] == LevelsOf(cs);
  }

  lemma MergeHead(s: seq<Candidate>)
    ensures Merge(LevelsOf(s)) == [] ==> s == []
    ensures s != [] ==> Merge(LevelsOf(s)) != [] && Merge(LevelsOf(s))[0].price == s[0].price
    ensures s == [] ==> Merge(LevelsOf(s)) == []
  {
    if s != [] { LevelsCons(s[0], s[1..]); assert s == [s[0]] + s[1..]; }
  }

  predicate Positive(cs: seq<Candidate>) {
    forall i | 0 <= i < |cs| :: cs[i].remaining > 0.0
  }

  /** Sorting the candidates and joining equal prices is the same as adding them level by level. */
  lemma {:induction false} MergeSort(side: Side, cs: seq<Candidate>)
    requires Positive(cs)
    ensures Merge(LevelsOf(Sort(side, cs))) == AddAll(side, [], cs)
  {
    hide AddLevel, Merge, InsertSorted;
    if cs == [] {
      MergeHead([]);
    } else {
      var n := |cs| - 1;
      var before := Sort(side, cs[..n]);
      MergeSort(side, cs[..n]);
      SortFacts(side, cs[..n]);
      forall i | 0 <= i < |before| ensures before[i].remaining > 0.0 {
        assert before[i] in multiset(before);
        assert before[i] in cs[..n];
      }
      MergeInsert(side, before, cs[n]);
      AddAllConcat(side, [], cs[..n], [cs[n]]);
      AddAllOne(side, AddAll(side, [], cs[..n]), cs[n]);
      assert cs == cs[..n] + [cs[n]];
    }
  }

  // ---- The limit cuts the published book where it filters the candidates ---------------

  /** The levels up to the first one beyond the limit. */
  function TakeWithin(req: Request, ls: seq<Level>): seq<Level> {
    if ls == [] || !WithinLimit(req, ls[0].price) then [] else [ls[0]] + TakeWithin(req, ls[1..])
  }

  function KeepWithin(req: Request, cs: seq<Candidate>): seq<Candidate> {
    if cs == [] then [] else (if WithinLimit(req, cs[0].price) then [cs[0]] else []) + KeepWithin(req, cs[1..])
  }

  lemma {:induction false} TakeWithinAdded(req: Request, ls: seq<Level>, l: Level)
    ensures var side := req.side.Opposite();
            TakeWithin(req, AddLevel(side, ls, l)) ==
            if WithinLimit(req, l.price) then AddLevel(side, TakeWithin(req, ls), l) else TakeWithin(req, ls)
  {
    var side := req.side.Opposite();
    assert ([l] + ls)[1..] == ls;
    if ls != [] {
      TakeWithinAdded(req, ls[1..], l);
      var t := AddLevel(side, ls[1..], l);
      assert ([ls[0]] + t)[1..] == t;
      var u := TakeWithin(req, ls[1..]);
      assert ([ls[0]] + u)[1..] == u;
    }
  }

  lemma {:induction false} TakeWithinAddAll(req: Request, ls: seq<Level>, cs: seq<Candidate>)
    ensures var side := req.side.Opposite();
            TakeWithin(req, AddAll(side, ls, cs)) == AddAll(side, TakeWithin(req, ls), KeepWithin(req, cs))
    decreases |cs|
  {
    hide AddLevel, TakeWithin, WithinLimit;
    if cs != [] {
      var side := req.side.Opposite();
      TakeWithinAdded(req, ls, LevelOf(cs[0]));
      TakeWithinAddAll(req, AddLevel(side, ls, LevelOf(cs[0])), cs[1..]);
      var rest := KeepWithin(req, cs[1..]);
      assert ([cs[0]] + rest)[1..] == rest;
      assert [] + rest == rest;
    }
  }

  /** The same request at any price. */
  function Unlimited(req: Request): Request {
    req.(limit := None)
  }

  lemma {:induction false} KeepConcat(req: Request, a: seq<Candidate>, b: seq<Candidate>)
    ensures KeepWithin(req, a + b) == KeepWithin(req, a) + KeepWithin(req, b)
  {
    hide WithinLimit;
    if a == [] {
      assert a + b == b;
    } else {
      assert (a + b)[1..] == a[1..] + b;
      KeepConcat(req, a[1..], b);
    }
  }

  lemma {:induction false} FromListWithin(req: Request, a: Address, list: seq<OpenOrder>)
    ensures FromList(req, a, list) == KeepWithin(req, FromList(Unlimited(req), a, list))
  {
    hide Resting;
    if list != [] {
      FromListWithin(req, a, list[1..]);
      var rest := FromList(Unlimited(req), a, list[1..]);
      assert ([CandidateOf(a, list[0])] + rest)[1..] == rest;
      assert [] + rest == rest;
    }
  }

  lemma {:induction false} CollectWithin(orders: Orders, users: seq<Address>, req: Request)
    ensures Collect(orders, users, req) == KeepWithin(req, Collect(orders, users, Unlimited(req)))
  {
    hide FromList;
    if users != [] {
      CollectWithin(orders, users[1..], req);
      var rest := Collect(orders, users[1..], Unlimited(req));
      FromListWithin(req, users[0], ListOf(orders, users[0]));
      KeepConcat(req, FromList(Unlimited(req), users[0], ListOf(orders, users[0])), rest);
      assert [] + rest == rest;
    }
  }

  // ---- Publishing adds exactly the candidates ------------------------------------------

  predicate HasNone(market: MarketId, side: Side, list: seq<OpenOrder>) {
    forall i | 0 <= i < |list| :: !Resting(market, side, list[i])
  }

  lemma {:induction false} OrdersAreCandidates(req: Request, a: Address, list: seq<OpenOrder>, ls: seq<Level>)
    ensures AddOrders(req.market, req.side.Opposite(), ls, list) ==
            AddAll(req.side.Opposite(), ls, FromList(Unlimited(req), a, list))
    decreases |list|
  {
    hide AddLevel, Resting;
    if list != [] {
      var side := req.side.Opposite();
      var rest := FromList(Unlimited(req), a, list[1..]);
      assert ([CandidateOf(a, list[0])] + rest)[1..] == rest;
      assert [] + rest == rest;
      assert Wanted(Unlimited(req), list[0]) == Resting(req.market, side, list[0]);
      OrdersAreCandidates(req, a, list[1..], if Resting(req.market, side, list[0]) then AddLevel(side, ls, LevelOf(CandidateOf(a, list[0]))) else ls);
    }
  }

  lemma {:induction false} NothingToAdd(market: MarketId, side: Side, ls: seq<Level>, list: seq<OpenOrder>)
    requires HasNone(market, side, list)
    ensures AddOrders(market, side, ls, list) == ls
    decreases |list|
  {
    hide AddLevel, Resting;
    if list != [] { NothingToAdd(market, side, ls, list[1..]); }
  }

  lemma {:induction false} UsersAreCandidates(orders: Orders, users: seq<Address>, req: Request, ls: seq<Level>)
    requires req.taker in users ==> HasNone(req.market, req.side.Opposite(), ListOf(orders, req.taker))
    ensures AddUsers(orders, users, req.market, req.side.Opposite(), ls) ==
            AddAll(req.side.Opposite(), ls, Collect(orders, users, Unlimited(req)))
    decreases |users|
  {
    hide AddOrders, AddAll, FromList, HasNone;
    var side := req.side.Opposite();
    if users == [] {
      AddNone(side, ls);
    } else {
      var list := ListOf(orders, users[0]);
      var rest := Collect(orders, users[1..], Unlimited(req));
      UsersAreCandidates(orders, users[1..], req, AddOrders(req.market, side, ls, list));
      if users[0] == req.taker {
        NothingToAdd(req.market, side, ls, list);
        assert [] + rest == rest;
      } else {
        OrdersAreCandidates(req, users[0], list, ls);
        AddAllConcat(side, ls, FromList(Unlimited(req), users[0], list), rest);
      }
    }
  }

  lemma AddNone(side: Side, ls: seq<Level>)
    ensures AddAll(side, ls, []) == ls
  {}

  // ---- The preview is a sweep ----------------------------------------------------------

  lemma {:induction false} PreviewIsSweep(req: Request, ls: seq<Level>, remaining: real)
    requires AllPositive(ls) && remaining >= 0.0
    ensures PreviewFrom(req, ls, remaining) == Sweep(TakeWithin(req, ls), remaining)
    decreases |ls|
  {
    hide Amount, WithinLimit;
    if ls != [] && WithinLimit(req, ls[0].price) {
      var rest := TakeWithin(req, ls[1..]);
      assert ([ls[0]] + rest)[1..] == rest;
      if remaining > 0.0 {
        PreviewIsSweep(req, ls[1..], remaining - Min(remaining, ls[0].qty));
      }
    }
  }

  lemma {:induction false} AddLevelPositive(side: Side, ls: seq<Level>, l: Level)
    requires AllPositive(ls) && l.qty > 0.0
    ensures AllPositive(AddLevel(side, ls, l))
  {
    if ls != [] { AddLevelPositive(side, ls[1..], l); }
  }

  lemma {:induction false} AddAllPositive(side: Side, ls: seq<Level>, cs: seq<Candidate>)
    requires AllPositive(ls) && Positive(cs)
    ensures AllPositive(AddAll(side, ls, cs))
    decreases |cs|
  {
    hide AddLevel;
    if cs != [] {
      AddLevelPositive(side, ls, LevelOf(cs[0]));
      AddAllPositive(side, AddLevel(side, ls, LevelOf(cs[0])), cs[1..]);
    }
  }

  lemma CollectPositive(orders: Orders, users: seq<Address>, req: Request)
    requires Tidy(orders)
    ensures Positive(Collect(orders, users, req))
  {
    var cs := Collect(orders, users, req);
    CollectViews(orders, users, req);
    ViewsCurrent(orders, cs);
    forall i | 0 <= i < |cs| ensures cs[i].remaining > 0.0 { assert Current(orders, cs[i]); }
  }

  /** Sweeping the levels made of some candidates is matching those candidates. */
  lemma SweepLevels(side: Side, cs: seq<Candidate>, qty: real)
    requires Positive(cs) && qty >= 0.0
    ensures Sweep(AddAll(side, [], cs), qty) == Swept(Min(qty, Offered(cs)), SweepNotional(Sort(side, cs), qty))
  {
    hide AddAll, Sweep, Merge, LevelsOf, Sort, Offered, SweepNotional, ProbeFrom;
    var sorted := Sort(side, cs);
    SortFacts(side, cs);
    forall i | 0 <= i < |sorted| ensures sorted[i].remaining > 0.0 { assert sorted[i] in multiset(sorted); assert sorted[i] in cs; }
    MergeSort(side, cs);
    LevelsPositive(sorted);
    SweepMerged(LevelsOf(sorted), qty);
    SweepIsMatch(sorted, qty);
    ProbeIsMin(sorted, qty);
    OfferedPermutes(sorted, cs);
  }

  lemma {:induction false} LevelsPositive(cs: seq<Candidate>)
    requires Positive(cs)
    ensures AllPositive(LevelsOf(cs))
  {
    if cs != [] { LevelsPositive(cs[1..]); }
  }

  /** The published levels within the limit are the levels of the taker's candidates, however
      either side visited the users. */
  lemma PublishedWithin(orders: Orders, users: seq<Address>, users': seq<Address>, req: Request)
    requires multiset(users) == multiset(users')
    requires req.taker in users' ==> HasNone(req.market, req.side.Opposite(), ListOf(orders, req.taker))
    ensures TakeWithin(req, Published(orders, users', req.market, req.side.Opposite())) ==
            AddAll(req.side.Opposite(), [], Collect(orders, users, req))
  {
    hide AddAll, Collect, AddUsers, TakeWithin, KeepWithin, HasNone;
    UsersAreCandidates(orders, users', req, []);
    TakeWithinAddAll(req, [], Collect(orders, users', Unlimited(req)));
    TakeNone(req);
    CollectWithin(orders, users', req);
    CollectPermutes(orders, users, users', req);
    AddAllPermutes(req.side.Opposite(), [], Collect(orders, users, req), Collect(orders, users', req));
  }

  lemma TakeNone(req: Request)
    ensures TakeWithin(req, []) == []
  {}

  // ---- Main result ---------------------------------------------------------------------

  /** The preview on the published levels announces the quantity and the notional of the match. */
  lemma PreviewAgrees(orders: Orders, users: seq<Address>, users': seq<Address>, req: Request)
    requires Tidy(orders) && NoRepeats(users) && multiset(users) == multiset(users') && req.qty >= 0.0
    requires HasNone(req.market, req.side.Opposite(), ListOf(orders, req.taker))
    ensures var fills := Match(orders, users, req).fills;
            PreviewFrom(req, Published(orders, users', req.market, req.side.Opposite()), req.qty) ==
            Swept(TotalQty(fills), Notional(fills))
  {
    hide AddAll, Collect, AddUsers, TakeWithin, HasNone, Sweep, PreviewFrom, Match, Published, Sort, Offered, SweepNotional, TotalQty, Notional;
    var side := req.side.Opposite();
    var ls := Published(orders, users', req.market, side);
    var cs := Collect(orders, users, req);
    PublishedPositive(orders, users', req);
    PreviewIsSweep(req, ls, req.qty);
    PublishedWithin(orders, users, users', req);
    CollectPositive(orders, users, req);
    SweepLevels(side, cs, req.qty);
    MatchTotals(orders, users, req);
  }

  lemma PublishedPositive(orders: Orders, users: seq<Address>, req: Request)
    requires Tidy(orders) && (req.taker in users ==> HasNone(req.market, req.side.Opposite(), ListOf(orders, req.taker)))
    ensures AllPositive(Published(orders, users, req.market, req.side.Opposite()))
  {
    hide HasNone, AddAll, AddUsers;
    UsersAreCandidates(orders, users, req, []);
    CollectPositive(orders, users, Unlimited(req));
    AddAllPositive(req.side.Opposite(), [], Collect(orders, users, Unlimited(req)));
  }
}
