/**
 The exchange has two matchers. On the same resting orders they make the same trades: the edge's
 collect, sort and commit over per-user lists is the matching engine's walk down one list in
 price and time order. What is proved about that walk therefore holds for the edge as well.
 */
module MatchersAgree {
  import opened OrderTypes
  import opened FlatBook
  import BookRuns
  import Greedy
  import GreedyOptimal
  import opened EdgeMatch
  import opened EdgeTotals

  /** The request as an order of the matching engine. */
  function TakerOf(req: Request): Order {
    Order(0, req.taker, req.side, if req.limit.Some? then Limit else Market, if req.limit.Some? then req.limit.value else 0.0,
          req.qty, req.qty, Ioc, false, false, 0)
  }

  function MakerOf(side: Side, c: Candidate): Order {
    Order(c.id, c.maker, side, Limit, c.price, c.remaining, c.remaining, Gtc, false, false, c.ts)
  }

  function MakersOf(side: Side, cs: seq<Candidate>): seq<Order> {
    if cs == [] then [] else [MakerOf(side, cs[0])] + MakersOf(side, cs[1..])
  }

  /** A fill of the engine as the edge reports it. */
  function MatchedOf(fills: seq<Fill>): seq<Matched> {
    if fills == [] then []
    else [Matched(fills[0].makerUser, fills[0].makerOrderId, fills[0].price, fills[0].qty)] + MatchedOf(fills[1..])
  }

  lemma TakerCrosses(req: Request, price: real)
    ensures TakerOf(req).Crosses(price) <==> WithinLimit(req, price)
  {}

  /** Within the limit, of another owner, and with something left. */
  predicate Eligible(req: Request, c: Candidate) {
    WithinLimit(req, c.price) && c.maker != req.taker && c.remaining > 0.0
  }

  predicate AllEligible(req: Request, cs: seq<Candidate>) {
    forall i | 0 <= i < |cs| :: Eligible(req, cs[i])
  }

  lemma {:induction false} MakersAt(side: Side, cs: seq<Candidate>)
    ensures |MakersOf(side, cs)| == |cs| && forall i | 0 <= i < |cs| :: MakersOf(side, cs)[i] == MakerOf(side, cs[i])
  {
    if cs != [] { MakersAt(side, cs[1..]); }
  }

  lemma MatchedCons(f: Fill, fs: seq<Fill>)
    ensures MatchedOf([f] + fs) == [Matched(f.makerUser, f.makerOrderId, f.price, f.qty)] + MatchedOf(fs)
  {
    assert ([f] + fs)[1..] == fs;
  }

  /** Step by step, committing is walking. */
  lemma {:induction false} CommitWalks(orders: Orders, cs: seq<Candidate>, left: real, fills: seq<Matched>, req: Request, next: nat)
    requires AllCurrent(orders, cs) && AllEligible(req, cs) && left >= 0.0
    ensures var r, w := Commit(orders, cs, left, fills), Walk(Allow, TakerOf(req), left, MakersOf(req.side.Opposite(), cs), next);
            r.fills == fills + MatchedOf(w.fills) && r.left == w.left && !w.rejected
    decreases |cs|
  {
    hide Remains, Reduce, Walk, MatchedOf, Current;
    var side, taker := req.side.Opposite(), TakerOf(req);
    WalkStep(Allow, taker, left, MakersOf(side, cs), next);
    NoneMatched(fills);
    if cs != [] && left > 0.0 {
      var c := cs[0];
      assert Current(orders, c) && Eligible(req, c);
      Showing(orders, c);
      Found(orders, c);
      TakerCrosses(req, c.price);
      var qty := Min(left, c.remaining);
      var m, f := Matched(c.maker, c.id, c.price, qty), FillOf(taker, MakerOf(side, c), qty, next + 1);
      assert MakersOf(side, cs)[0] == MakerOf(side, c) && MakersOf(side, cs)[1..] == MakersOf(side, cs[1..]);
      StillCurrent(orders, cs, qty);
      var orders' := Reduce(orders, c.maker, c.id, qty);
      CommitWalks(orders', cs[1..], left - qty, fills + [m], req, next + 1);
      var v := Walk(Allow, taker, left - qty, MakersOf(side, cs[1..]), next + 1);
      MatchedCons(f, v.fills);
      MatchedCons(f, []);
      assert [f] + [] == [f];
      if qty < c.remaining {
        WalkStep(Allow, taker, left - qty, MakersOf(side, cs[1..]), next + 1);
        Nothing(cs[1..], fills + [m], orders');
      }
      assert (fills + [m]) + MatchedOf(v.fills) == fills + ([m] + MatchedOf(v.fills));
    }
  }

  lemma Showing(orders: Orders, c: Candidate)
    requires Current(orders, c)
    ensures Remains(orders, c.maker, c.id) == c.remaining && c.remaining > 0.0
  {}

  lemma NoneMatched(fills: seq<Matched>)
    ensures MatchedOf([]) == [] && fills + [] == fills
  {}

  lemma Nothing(cs: seq<Candidate>, fills: seq<Matched>, orders: Orders)
    ensures Commit(orders, cs, 0.0, fills) == Committed(orders, fills, 0.0)
  {}

  // ---- The candidates are a sorted book ------------------------------------------------

  lemma SortedMakers(side: Side, cs: seq<Candidate>)
    requires IsSorted(side, cs)
    ensures BookRuns.Sorted(side, MakersOf(side, cs))
  {
    MakersAt(side, cs);
    var s := MakersOf(side, cs);
    forall i, j | 0 <= i < j < |s| ensures Key(side, s[i].price) <= Key(side, s[j].price) { assert Before(side, cs[i], cs[j]); }
  }

  lemma {:induction false} FromListEligible(req: Request, a: Address, list: seq<OpenOrder>)
    requires a != req.taker && forall i | 0 <= i < |list| :: list[i].remaining >= 0.0
    ensures AllEligible(req, FromList(req, a, list))
  {
    if list != [] {
      FromListEligible(req, a, list[1..]);
      var rest := FromList(req, a, list[1..]);
      assert [] + rest == rest;
    }
  }

  lemma {:induction false} CollectEligible(orders: Orders, users: seq<Address>, req: Request)
    requires Tidy(orders)
    ensures AllEligible(req, Collect(orders, users, req))
  {
    hide FromList, Eligible;
    if users != [] {
      CollectEligible(orders, users[1..], req);
      var rest := Collect(orders, users[1..], req);
      assert [] + rest == rest;
      if users[0] != req.taker {
        assert TidyList(ListOf(orders, users[0]));
        FromListEligible(req, users[0], ListOf(orders, users[0]));
      }
    }
  }

  /** The book the engine would hold: the makers within the limit, best price first, oldest first. */
  function Book(orders: Orders, users: seq<Address>, req: Request): seq<Order> {
    MakersOf(req.side.Opposite(), Sort(req.side.Opposite(), Collect(orders, users, req)))
  }

  /** Main result: the edge's fills are those of the engine's walk down that book. */
  lemma MatchIsWalk(orders: Orders, users: seq<Address>, req: Request)
    requires Tidy(orders) && NoRepeats(users) && req.qty >= 0.0
    ensures var book := Book(orders, users, req);
            var r, w := Match(orders, users, req), Walk(Allow, TakerOf(req), req.qty, book, 0);
            && r.fills == MatchedOf(w.fills) && r.left == w.left && !w.rejected
            && BookRuns.Sorted(req.side.Opposite(), book) && BookRuns.NonNegative(book)
  {
    hide Commit, Collect, Sort, AllCurrent, Walk, MatchedOf, IsSorted, MakersOf, Eligible;
    var side, cs := req.side.Opposite(), Collect(orders, users, req);
    var sorted := Sort(side, cs);
    SortFacts(side, cs);
    CollectDistinct(orders, users, req);
    CollectViews(orders, users, req);
    PermutedCurrent(orders, cs, sorted);
    CollectEligible(orders, users, req);
    forall i | 0 <= i < |sorted| ensures Eligible(req, sorted[i]) { assert sorted[i] in multiset(sorted); assert sorted[i] in cs; }
    CommitWalks(orders, sorted, req.qty, [], req, 0);
    assert [] + MatchedOf(Walk(Allow, TakerOf(req), req.qty, Book(orders, users, req), 0).fills) ==
           MatchedOf(Walk(Allow, TakerOf(req), req.qty, Book(orders, users, req), 0).fills);
    SortedMakers(side, sorted);
    MakersAt(side, sorted);
    forall i | 0 <= i < |sorted| ensures sorted[i].remaining >= 0.0 { Remaining(req, sorted[i]); }
  }

  lemma Remaining(req: Request, c: Candidate)
    requires Eligible(req, c)
    ensures c.remaining > 0.0
  {}

  lemma {:induction false} MatchedAt(fills: seq<Fill>)
    ensures |MatchedOf(fills)| == |fills|
    ensures forall k | 0 <= k < |fills| :: MatchedOf(fills)[k] == Matched(fills[k].makerUser, fills[k].makerOrderId, fills[k].price, fills[k].qty)
  {
    if fills != [] { MatchedAt(fills[1..]); }
  }

  /** `x` is the open order that match `m` takes from. */
  predicate Sources(orders: Orders, m: Matched, x: OpenOrder) {
    x in ListOf(orders, m.maker) && x.id == m.id && x.price == m.price && 0.0 < m.qty <= x.remaining
  }

  /** The edge fills in price-time order: of two matches the earlier takes from an order at a better
      price, or at the same price from one that is not younger; and it takes that order whole. */
  lemma MatchInPriceTime(orders: Orders, users: seq<Address>, req: Request, i: nat, j: nat) returns (x: OpenOrder, y: OpenOrder)
    requires Tidy(orders) && NoRepeats(users) && req.qty >= 0.0
    requires i < j < |Match(orders, users, req).fills|
    ensures var fills := Match(orders, users, req).fills;
            && Sources(orders, fills[i], x) && Sources(orders, fills[j], y) && fills[i].qty == x.remaining
            && ((if req.side == Buy then x.price < y.price else x.price > y.price) || (x.price == y.price && x.ts <= y.ts))
  {
    hide Match, Collect, Sort, AllCurrent, Walk, MatchedOf, MakersOf;
    var side, cs := req.side.Opposite(), Collect(orders, users, req);
    var sorted, book := Sort(side, cs), Book(orders, users, req);
    MatchIsWalk(orders, users, req);
    var w := Walk(Allow, TakerOf(req), req.qty, book, 0);
    Greedy.WalkTakesInOrder(Allow, TakerOf(req), req.qty, book, 0);
    MatchedAt(w.fills);
    SortFacts(side, cs);
    MakersAt(side, sorted);
    assert Before(side, sorted[i], sorted[j]);
    x := SourceOf(orders, users, req, i);
    y := SourceOf(orders, users, req, j);
  }

  /** The order behind a sorted candidate. */
  lemma SourceOf(orders: Orders, users: seq<Address>, req: Request, k: nat) returns (x: OpenOrder)
    requires k < |Sort(req.side.Opposite(), Collect(orders, users, req))| && Tidy(orders)
    ensures var c := Sort(req.side.Opposite(), Collect(orders, users, req))[k];
            c.remaining > 0.0 && x in ListOf(orders, c.maker) && c == Candidate(c.maker, x.id, x.price, x.remaining, x.ts)
  {
    hide Collect, Sort;
    var cs := Collect(orders, users, req);
    var sorted := Sort(req.side.Opposite(), cs);
    SortFacts(req.side.Opposite(), cs);
    assert sorted[k] in multiset(sorted);
    var n :| 0 <= n < |cs| && cs[n] == sorted[k];
    CollectViews(orders, users, req);
    var list := ListOf(orders, cs[n].maker);
    assert ViewOf(cs[n].maker, list, cs[n]);
    ViewIsCurrent(orders, cs[n].maker, cs[n]);
    var q :| 0 <= q < |list| && cs[n] == CandidateOf(cs[n].maker, list[q]);
    x := list[q];
  }

  lemma {:induction false} AllReached(req: Request, cs: seq<Candidate>)
    requires AllEligible(req, cs)
    ensures var book := MakersOf(req.side.Opposite(), cs); Reach(TakerOf(req), book) == |book|
  {
    if cs != [] {
      assert Eligible(req, cs[0]);
      TakerCrosses(req, cs[0].price);
      assert MakersOf(req.side.Opposite(), cs)[1..] == MakersOf(req.side.Opposite(), cs[1..]);
      AllReached(req, cs[1..]);
    }
  }

  lemma BookReached(orders: Orders, users: seq<Address>, req: Request)
    requires Tidy(orders)
    ensures var book := Book(orders, users, req); book[..Reach(TakerOf(req), book)] == book
  {
    hide Sort, Collect, Eligible;
    var cs := Collect(orders, users, req);
    var sorted := Sort(req.side.Opposite(), cs);
    SortFacts(req.side.Opposite(), cs);
    CollectEligible(orders, users, req);
    forall i | 0 <= i < |sorted| ensures Eligible(req, sorted[i]) { assert sorted[i] in multiset(sorted); assert sorted[i] in cs; }
    AllReached(req, sorted);
  }

  lemma {:induction false} SameTotal(fills: seq<Fill>)
    ensures TotalQty(MatchedOf(fills)) == SumFills(fills)
  {
    if fills != [] {
      var n := |fills| - 1;
      SameTotal(fills[..n]);
      MatchedSnoc(fills[..n], fills[n]);
      SumSnoc(fills[..n], fills[n]);
      assert fills == fills[..n] + [fills[n]];
      FillsSnoc(MatchedOf(fills[..n]), Matched(fills[n].makerUser, fills[n].makerOrderId, fills[n].price, fills[n].qty));
    }
  }

  lemma {:induction false} MatchedSnoc(fills: seq<Fill>, f: Fill)
    ensures MatchedOf(fills + [f]) == MatchedOf(fills) + [Matched(f.makerUser, f.makerOrderId, f.price, f.qty)]
  {
    if fills != [] {
      MatchedSnoc(fills[1..], f);
      assert (fills + [f])[1..] == fills[1..] + [f];
    }
  }

  lemma {:induction false} SumSnoc(fills: seq<Fill>, f: Fill)
    ensures SumFills(fills + [f]) == SumFills(fills) + f.qty
  {
    if fills != [] {
      SumSnoc(fills[1..], f);
      assert (fills + [f])[1..] == fills[1..] + [f];
    }
  }

  /** So the edge's match is optimal too: no other allocation of the quantity it trades over the
      makers within the limit costs a buyer less or earns a seller more. */
  lemma EdgeIsOptimal(orders: Orders, users: seq<Address>, req: Request, a: seq<real>)
    requires Tidy(orders) && NoRepeats(users) && req.qty >= 0.0
    requires GreedyOptimal.Allocation(a, Book(orders, users, req))
    requires GreedyOptimal.SumReals(a) == TotalQty(Match(orders, users, req).fills)
    ensures KeyCost(req.side.Opposite(), Match(orders, users, req).fills) <=
            GreedyOptimal.Cost(req.side.Opposite(), a, Book(orders, users, req))
  {
    hide Match, Book, Walk, Reach;
    var book := Book(orders, users, req);
    var fills := Walk(Allow, TakerOf(req), req.qty, book, 0).fills;
    MatchIsWalk(orders, users, req);
    BookReached(orders, users, req);
    SameTotal(fills);
    GreedyOptimal.WalkIsOptimal(TakerOf(req), req.qty, book, 0, a);
    SameCost(req.side.Opposite(), fills);
  }

  /** Cost of a buy, or negated proceeds of a sell. */
  function KeyCost(side: Side, ms: seq<Matched>): real {
    if ms == [] then 0.0 else ms[0].qty * Key(side, ms[0].price) + KeyCost(side, ms[1..])
  }

  lemma {:induction false} SameCost(side: Side, fills: seq<Fill>)
    ensures KeyCost(side, MatchedOf(fills)) == GreedyOptimal.FillCost(side, fills)
  {
    if fills != [] {
      SameCost(side, fills[1..]);
      assert MatchedOf(fills)[1..] == MatchedOf(fills[1..]);
    }
  }
}
