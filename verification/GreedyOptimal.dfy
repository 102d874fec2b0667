/**
 Greedy matching is optimal: in `Allow` mode no other way of spreading the traded quantity over
 the makers within the taker's price costs a buyer less or earns a seller more.
 */
module GreedyOptimal {
  import opened OrderTypes
  import opened FlatBook
  import opened BookRuns
  import opened Greedy

  function SumReals(a: seq<real>): real {
    if a == [] then 0.0 else a[0] + SumReals(a[1..])
  }

  /** What the allocation `a` over the makers `s` costs, counted in keys: the cost of a buy, or
      the negated proceeds of a sell. */
  function Cost(side: Side, a: seq<real>, s: seq<Order>): real
    requires |a| == |s|
  {
    if s == [] then 0.0 else a[0] * Key(side, s[0].price) + Cost(side, a[1..], s[1..])
  }

  predicate Allocation(a: seq<real>, s: seq<Order>) {
    |a| == |s| && forall i | 0 <= i < |s| :: 0.0 <= a[i] <= s[i].remaining
  }

  function FillCost(side: Side, fills: seq<Fill>): real {
    if fills == [] then 0.0 else fills[0].qty * Key(side, fills[0].price) + FillCost(side, fills[1..])
  }

  /** Filling `total` from the front of `s`. */
  function Cheapest(side: Side, total: real, s: seq<Order>): real
    decreases |s|
  {
    if s == [] then 0.0
    else var q := Min(total, s[0].remaining); q * Key(side, s[0].price) + Cheapest(side, total - q, s[1..])
  }

  lemma Exchange(k: real, lo: real, q: real, a0: real, excess: real, excess': real, tail: real, tailCost: real)
    requires lo <= k && excess >= 0.0 && excess' == excess - a0 + q && tail + k * excess' <= tailCost
    ensures q * k + tail + lo * excess <= a0 * k + tailCost
  {
    assert lo * excess <= k * excess;
    assert k * (excess - a0 + q) == k * excess - a0 * k + q * k;
  }

  /** The exchange argument: no allocation of at least `total` beats filling from the front, even
      when the excess is credited at the best price `lo`. */
  lemma {:induction false} FrontIsCheapest(side: Side, total: real, excess: real, s: seq<Order>, a: seq<real>, lo: real)
    requires Sorted(side, s) && Allocation(a, s) && total >= 0.0 && excess >= 0.0 && SumReals(a) == total + excess
    requires forall i | 0 <= i < |s| :: lo <= Key(side, s[i].price)
    ensures Cheapest(side, total, s) + lo * excess <= Cost(side, a, s)
    decreases |s|
  {
    hide Cost, Cheapest;
    if s == [] {
      NothingCosts(side, total, a, s);
      assert excess == 0.0 && lo * 0.0 == 0.0;
    } else {
      var k, q := Key(side, s[0].price), Min(total, s[0].remaining);
      AllocationTail(a, s);
      SumRealsNonNegative(a[1..], s[1..]);
      FrontIsCheapest(side, total - q, excess - a[0] + q, s[1..], a[1..], k);
      FrontExchange(side, total, excess, excess - a[0] + q, s, a, lo);
    }
  }

  lemma NothingCosts(side: Side, total: real, a: seq<real>, s: seq<Order>)
    requires s == [] && a == []
    ensures Cheapest(side, total, s) == 0.0 && Cost(side, a, s) == 0.0
  {}

  lemma FrontExchange(side: Side, total: real, excess: real, excess': real, s: seq<Order>, a: seq<real>, lo: real)
    requires s != [] && |a| == |s| && excess >= 0.0 && lo <= Key(side, s[0].price)
    requires excess' == excess - a[0] + Min(total, s[0].remaining)
    requires Cheapest(side, total - Min(total, s[0].remaining), s[1..]) + Key(side, s[0].price) * excess' <= Cost(side, a[1..], s[1..])
    ensures Cheapest(side, total, s) + lo * excess <= Cost(side, a, s)
  {
    var k, q := Key(side, s[0].price), Min(total, s[0].remaining);
    Exchange(k, lo, q, a[0], excess, excess', Cheapest(side, total - q, s[1..]), Cost(side, a[1..], s[1..]));
  }

  lemma FrontBeatsAll(side: Side, s: seq<Order>, a: seq<real>)
    requires Sorted(side, s) && Allocation(a, s)
    ensures Cheapest(side, SumReals(a), s) <= Cost(side, a, s)
  {
    SumRealsNonNegative(a, s);
    var lo := if s == [] then 0.0 else Key(side, s[0].price);
    FrontIsCheapest(side, SumReals(a), 0.0, s, a, lo);
    assert lo * 0.0 == 0.0;
  }

  lemma AllocationTail(a: seq<real>, s: seq<Order>)
    requires Allocation(a, s) && s != []
    ensures Allocation(a[1..], s[1..])
  {
    forall i | 0 <= i < |s| - 1 ensures 0.0 <= a[1..][i] <= s[1..][i].remaining { assert a[i + 1] <= s[i + 1].remaining; }
  }

  lemma {:induction false} SumRealsNonNegative(a: seq<real>, s: seq<Order>)
    requires Allocation(a, s)
    ensures SumReals(a) >= 0.0
  {
    if a != [] {
      AllocationTail(a, s);
      SumRealsNonNegative(a[1..], s[1..]);
    }
  }

  /** The makers within the taker's price, in order. */
  function Near(taker: Order, s: seq<Order>): seq<Order> {
    if s == [] || !taker.Crosses(s[0].price) then [] else [s[0]] + Near(taker, s[1..])
  }

  lemma {:induction false} NearIsPrefix(taker: Order, s: seq<Order>)
    ensures Near(taker, s) == s[..Reach(taker, s)]
  {
    if s != [] && taker.Crosses(s[0].price) { NearIsPrefix(taker, s[1..]); }
  }

  /** In `Allow` mode the fills are the front filling of the makers within reach. */
  lemma {:induction false} FillsAreFront(taker: Order, left: real, s: seq<Order>, next: nat)
    requires NonNegative(s) && left >= 0.0
    ensures var w, side := Walk(Allow, taker, left, s, next), taker.side.Opposite();
            FillCost(side, w.fills) == Cheapest(side, left - w.left, Near(taker, s))
    decreases |s|
  {
    var side := taker.side.Opposite();
    if s == [] || Meet(Allow, taker, left, s[0]) == Stop {
      NearIsPrefix(taker, s);
      CheapestOfNothing(side, Near(taker, s));
    } else {
      var qty := Min(left, s[0].remaining);
      if qty == s[0].remaining {
        FillsAreFront(taker, left - qty, s[1..], next + 1);
        FrontWhole(taker, left, s, next);
      } else {
        FrontPart(taker, left, s, next);
      }
    }
  }

  lemma FrontWhole(taker: Order, left: real, s: seq<Order>, next: nat)
    requires NonNegative(s) && s != [] && Meet(Allow, taker, left, s[0]).Take? && s[0].remaining <= left
    requires var v, side := Walk(Allow, taker, left - s[0].remaining, s[1..], next + 1), taker.side.Opposite();
             FillCost(side, v.fills) == Cheapest(side, left - s[0].remaining - v.left, Near(taker, s[1..]))
    ensures var w, side := Walk(Allow, taker, left, s, next), taker.side.Opposite();
            FillCost(side, w.fills) == Cheapest(side, left - w.left, Near(taker, s))
  {
    hide Walk, FillCost, Cheapest;
    var qty := s[0].remaining;
    var v := Walk(Allow, taker, left - qty, s[1..], next + 1);
    TakeFirst(Allow, taker, left, s, next);
    LeftBelow(taker, left - qty, s[1..], next + 1);
    var total, fill := left - v.left, FillOf(taker, s[0], qty, next + 1);
    assert total - qty == left - qty - v.left && qty == Min(total, qty);
    FrontStep(taker.side.Opposite(), fill, v.fills, total, s[0], Near(taker, s[1..]), qty);
    assert Near(taker, s) == [s[0]] + Near(taker, s[1..]);
  }

  lemma FrontPart(taker: Order, left: real, s: seq<Order>, next: nat)
    requires NonNegative(s) && s != [] && Meet(Allow, taker, left, s[0]).Take? && left < s[0].remaining
    ensures var w, side := Walk(Allow, taker, left, s, next), taker.side.Opposite();
            FillCost(side, w.fills) == Cheapest(side, left - w.left, Near(taker, s))
  {
    var side, fill := taker.side.Opposite(), FillOf(taker, s[0], left, next + 1);
    TakeFirst(Allow, taker, left, s, next);
    NearIsPrefix(taker, s[1..]);
    CheapestOfNothing(side, Near(taker, s[1..]));
    FrontStep(side, fill, [], left, s[0], Near(taker, s[1..]), left);
    assert [fill] + [] == [fill];
  }

  lemma FrontStep(side: Side, f: Fill, fs: seq<Fill>, total: real, o: Order, near: seq<Order>, qty: real)
    requires f.qty == qty && f.price == o.price && qty == Min(total, o.remaining)
    requires FillCost(side, fs) == Cheapest(side, total - qty, near)
    ensures FillCost(side, [f] + fs) == Cheapest(side, total, [o] + near)
  {
    FillCostCons(side, f, fs);
    CheapestCons(side, total, o, near, qty);
  }

  lemma CheapestCons(side: Side, total: real, o: Order, s: seq<Order>, q: real)
    requires q == Min(total, o.remaining)
    ensures Cheapest(side, total, [o] + s) == q * Key(side, o.price) + Cheapest(side, total - q, s)
  {
    assert ([o] + s)[1..] == s;
  }

  lemma FillCostCons(side: Side, f: Fill, fs: seq<Fill>)
    ensures FillCost(side, [f] + fs) == f.qty * Key(side, f.price) + FillCost(side, fs)
  {
    assert ([f] + fs)[1..] == fs;
  }

  lemma {:induction false} CheapestOfNothing(side: Side, s: seq<Order>)
    requires NonNegative(s)
    ensures Cheapest(side, 0.0, s) == 0.0
  {
    if s != [] { CheapestOfNothing(side, s[1..]); }
  }

  lemma {:induction false} LeftBelow(taker: Order, left: real, s: seq<Order>, next: nat)
    requires NonNegative(s) && left >= 0.0
    ensures Walk(Allow, taker, left, s, next).left <= left
    decreases |s|
  {
    if s != [] && Meet(Allow, taker, left, s[0]).Take? {
      TakeFirst(Allow, taker, left, s, next);
      LeftBelow(taker, left - Min(left, s[0].remaining), s[1..], next + 1);
    }
  }

  /** Main result: no other allocation of the traded quantity over the makers within reach costs
      a buyer less, or earns a seller more. */
  lemma GreedyIsOptimal(f: Flat, o: Order, reduces: bool, a: seq<real>)
    requires Good(Allow, f) && Submit(Allow, f, o, reduces).1.Ok?
    requires var opp := f.At(o.side.Opposite()); Allocation(a, opp[..Reach(o, opp)])
    requires SumReals(a) == SumFills(Submit(Allow, f, o, reduces).1.outcome.fills)
    ensures var opp, side := f.At(o.side.Opposite()), o.side.Opposite();
            FillCost(side, Submit(Allow, f, o, reduces).1.outcome.fills) <= Cost(side, a, opp[..Reach(o, opp)])
  {
    var side := o.side.Opposite();
    GoodIsNonNegative(Allow, f, side);
    GoodParts(Allow, f, side);
    AcceptedWalk(Allow, f, o, reduces);
    WalkIsOptimal(o, o.qty, f.At(side), f.nextFillId, a);
  }

  lemma WalkIsOptimal(taker: Order, left: real, s: seq<Order>, next: nat, a: seq<real>)
    requires NonNegative(s) && left >= 0.0 && Sorted(taker.side.Opposite(), s)
    requires Allocation(a, s[..Reach(taker, s)]) && SumReals(a) == SumFills(Walk(Allow, taker, left, s, next).fills)
    ensures var side := taker.side.Opposite();
            FillCost(side, Walk(Allow, taker, left, s, next).fills) <= Cost(side, a, s[..Reach(taker, s)])
  {
    var side, near := taker.side.Opposite(), s[..Reach(taker, s)];
    NearIsPrefix(taker, s);
    FillsAreFront(taker, left, s, next);
    WalkConserves(Allow, taker, left, s, next);
    FrontBeatsAll(side, near, a);
  }
}
