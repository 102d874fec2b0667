/**
 What one submit trades: the walk takes makers in priority order and exhausts all but the
 last, the crossable-quantity probe is exact, and it is known exactly when own orders are
 withdrawn, when a submit is rejected half way and when a rejection leaves its mark.
 */
module Greedy {
  import opened OrderTypes
  import opened FlatBook
  import opened BookRuns

  // ---- The fills of a walk -------------------------------------------------------------

  function Others(taker: Order, s: seq<Order>): seq<Order> {
    if s == [] then [] else
    if s[0].owner == taker.owner then Others(taker, s[1..]) else [s[0]] + Others(taker, s[1..])
  }

  /** The entries the taker trades with: under `CancelBoth` those of other owners. */
  function Partners(mode: SelfTradeMode, taker: Order, s: seq<Order>): seq<Order> {
    if mode == CancelBoth then Others(taker, s) else s
  }

  /** Fill `k` takes maker `k` of the list; the first `n` makers are taken whole, and one taken in
      part ends the walk. */
  predicate TakesInOrder(taker: Order, fills: seq<Fill>, n: nat, left: real, makers: seq<Order>, next: nat) {
    && n <= |fills| <= n + 1 && |fills| <= |makers|
    && (forall k | 0 <= k < |fills| ::
          && fills[k] == Fill(next + 1 + k, makers[k].id, taker.id, makers[k].owner, taker.owner, makers[k].price, fills[k].qty, taker.side, taker.ts)
          && taker.Crosses(fills[k].price))
    && (forall k | 0 <= k < n :: fills[k].qty == makers[k].remaining)
    && (|fills| == n + 1 ==> left == 0.0 && 0.0 < fills[n].qty < makers[n].remaining)
  }

  /** In every mode, and for rejected walks too. */
  lemma {:induction false} WalkTakesInOrder(mode: SelfTradeMode, taker: Order, left: real, book: seq<Order>, next: nat)
    requires NonNegative(book) && left >= 0.0
    ensures var w := Walk(mode, taker, left, book, next);
            TakesInOrder(taker, w.fills, |Partners(mode, taker, book[..w.n])|, w.left, Partners(mode, taker, book), next)
    decreases |book|
  {
    hide Walk, TakesInOrder;
    WalkStep(mode, taker, left, book, next);
    var w := Walk(mode, taker, left, book, next);
    TakesNothing(taker, left, Partners(mode, taker, book), next);
    if book == [] || w.n == 0 {
      assert book[..w.n] == [];
    }
    if book != [] {
      match Meet(mode, taker, left, book[0])
      case Stop =>
      case Reject =>
      case Withdraw =>
        WalkTakesInOrder(mode, taker, left, book[1..], next);
        assert book[..w.n][1..] == book[1..][..w.n - 1];
      case Take(qty) =>
        var rest := Partners(mode, taker, book[1..]);
        assert Partners(mode, taker, book) == [book[0]] + rest;
        var fill := FillOf(taker, book[0], qty, next + 1);
        if qty == book[0].remaining {
          WalkTakesInOrder(mode, taker, left - qty, book[1..], next + 1);
          assert book[..w.n] == [book[0]] + book[1..][..w.n - 1];
          PartnersCons(mode, taker, book[0], book[1..][..w.n - 1]);
          var v := Walk(mode, taker, left - qty, book[1..], next + 1);
          TakesOne(taker, fill, v.fills, |Partners(mode, taker, book[1..][..v.n])|, v.left, book[0], rest, next);
        } else {
          TakesPart(taker, fill, book[0], rest, next);
        }
    }
  }

  lemma PartnersCons(mode: SelfTradeMode, taker: Order, o: Order, s: seq<Order>)
    requires mode == CancelBoth ==> o.owner != taker.owner
    ensures Partners(mode, taker, [o] + s) == [o] + Partners(mode, taker, s)
  {
    assert ([o] + s)[1..] == s;
  }

  lemma TakesNothing(taker: Order, left: real, makers: seq<Order>, next: nat)
    ensures TakesInOrder(taker, [], 0, left, makers, next)
  {}

  lemma TakesOne(taker: Order, f: Fill, fs: seq<Fill>, n: nat, left: real, o: Order, makers: seq<Order>, next: nat)
    requires TakesInOrder(taker, fs, n, left, makers, next + 1)
    requires f == Fill(next + 1, o.id, taker.id, o.owner, taker.owner, o.price, o.remaining, taker.side, taker.ts) && taker.Crosses(o.price)
    ensures TakesInOrder(taker, [f] + fs, n + 1, left, [o] + makers, next)
  {
    var fills, all := [f] + fs, [o] + makers;
    forall k | 1 <= k < |fills| ensures fills[k] == fs[k - 1] && all[k] == makers[k - 1] {}
  }

  lemma TakesPart(taker: Order, f: Fill, o: Order, makers: seq<Order>, next: nat)
    requires f == Fill(next + 1, o.id, taker.id, o.owner, taker.owner, o.price, f.qty, taker.side, taker.ts)
    requires 0.0 < f.qty < o.remaining && taker.Crosses(o.price)
    ensures TakesInOrder(taker, [f], 0, 0.0, [o] + makers, next)
  {}

  /** Along the fills, prices only worsen, in every mode. */
  lemma PricesWorsen(mode: SelfTradeMode, taker: Order, left: real, book: seq<Order>, next: nat)
    requires NonNegative(book) && left >= 0.0 && Sorted(taker.side.Opposite(), book)
    ensures var fills, side := Walk(mode, taker, left, book, next).fills, taker.side.Opposite();
            forall i, j | 0 <= i < j < |fills| :: Key(side, fills[i].price) <= Key(side, fills[j].price)
  {
    hide Walk;
    WalkTakesInOrder(mode, taker, left, book, next);
    OthersSorted(taker.side.Opposite(), taker, book);
  }

  lemma {:induction false} OthersSorted(side: Side, taker: Order, s: seq<Order>)
    requires Sorted(side, s)
    ensures Sorted(side, Others(taker, s)) && forall o | o in Others(taker, s) :: o in s
  {
    if s != [] {
      OthersSorted(side, taker, s[1..]);
      var rest := Others(taker, s[1..]);
      forall k | 0 <= k < |rest| ensures Key(side, s[0].price) <= Key(side, rest[k].price) {
        assert rest[k] in rest;
        assert rest[k] in s[1..];
      }
    }
  }

  /** Under `CancelBoth` the taker trades as if its own orders were not there. */
  lemma {:induction false} CancelBothSkipsOwn(taker: Order, left: real, book: seq<Order>, next: nat)
    requires Sorted(taker.side.Opposite(), book)
    ensures var w, v := Walk(CancelBoth, taker, left, book, next), Walk(Allow, taker, left, Others(taker, book), next);
            w.fills == v.fills && w.left == v.left && w.rejected == v.rejected
    decreases |book|
  {
    hide Walk, Sorted;
    WalkStep(CancelBoth, taker, left, book, next);
    WalkStep(Allow, taker, left, Others(taker, book), next);
    if book != [] {
      SortedTail(taker.side.Opposite(), book);
      var m, rest := book[0], Others(taker, book[1..]);
      if Meet(CancelBoth, taker, left, m) == Stop {
        StopsAtOnce(taker, left, book, next);
      } else if m.owner == taker.owner {
        CancelBothSkipsOwn(taker, left, book[1..], next);
      } else {
        var qty := Min(left, m.remaining);
        CancelBothSkipsOwn(taker, left - qty, book[1..], next + 1);
        assert Others(taker, book)[0] == m && Others(taker, book)[1..] == rest;
      }
    }
  }

  lemma SortedTail(side: Side, s: seq<Order>)
    requires Sorted(side, s) && s != []
    ensures Sorted(side, s[1..])
  {}

  /** The walk after its first trade. */
  lemma TakeFirst(mode: SelfTradeMode, taker: Order, left: real, book: seq<Order>, next: nat)
    requires book != [] && Meet(mode, taker, left, book[0]).Take?
    ensures var qty := Min(left, book[0].remaining);
            var fill := FillOf(taker, book[0], qty, next + 1);
            var w, v := Walk(mode, taker, left, book, next), Walk(mode, taker, left - qty, book[1..], next + 1);
            if qty == book[0].remaining then
              w.fills == [fill] + v.fills && w.n == v.n + 1 && w.left == v.left && w.rejected == v.rejected
            else
              w.fills == [fill] && w.n == 0 && w.left == 0.0 && !w.rejected
  {
    hide Walk;
    WalkStep(mode, taker, left, book, next);
  }

  /** If the first entry stops the taker, so does every later one. */
  lemma {:induction false} StopsAtOnce(taker: Order, left: real, book: seq<Order>, next: nat)
    requires Sorted(taker.side.Opposite(), book) && book != []
    requires left <= 0.0 || !taker.Crosses(book[0].price)
    ensures var v := Walk(Allow, taker, left, Others(taker, book), next); v.fills == [] && v.left == left && !v.rejected
  {
    if book[0].owner != taker.owner {
      assert Others(taker, book)[0] == book[0];
    } else if |book| > 1 {
      StopsAtOnce(taker, left, book[1..], next);
    } else {
      assert Others(taker, book) == [];
    }
  }

  predicate NoneSelf(fills: seq<Fill>) {
    forall k | 0 <= k < |fills| :: fills[k].makerUser != fills[k].takerUser
  }

  /** Outside `Allow`, nobody trades with themselves. */
  lemma {:induction false} NoSelfTrade(mode: SelfTradeMode, taker: Order, left: real, book: seq<Order>, next: nat)
    requires mode != Allow
    ensures NoneSelf(Walk(mode, taker, left, book, next).fills)
    decreases |book|
  {
    if book != [] {
      match Meet(mode, taker, left, book[0])
      case Stop =>
      case Reject =>
      case Withdraw => NoSelfTrade(mode, taker, left, book[1..], next);
      case Take(qty) =>
        NoSelfTrade(mode, taker, left - qty, book[1..], next + 1);
        TakeFirst(mode, taker, left, book, next);
    }
  }

  // ---- How much is traded --------------------------------------------------------------

  /** Quantity of `s` within the taker's reach that it may trade with. */
  function Tradable(mode: SelfTradeMode, taker: Order, s: seq<Order>): real {
    if s == [] || !taker.Crosses(s[0].price) then 0.0
    else (if mode == CancelBoth && s[0].owner == taker.owner then 0.0 else s[0].remaining) + Tradable(mode, taker, s[1..])
  }

  lemma {:induction false} TradableFacts(mode: SelfTradeMode, taker: Order, s: seq<Order>)
    requires NonNegative(s)
    ensures 0.0 <= Tradable(mode, taker, s) <= Crossable(taker, s)
    ensures mode != CancelBoth ==> Tradable(mode, taker, s) == Crossable(taker, s)
  {
    if s != [] && taker.Crosses(s[0].price) {
      TradableFacts(mode, taker, s[1..]);
      assert s[..Reach(taker, s)][1..] == s[1..][..Reach(taker, s[1..])];
    }
  }

  /** What the taker gains in fills it loses in quantity. */
  lemma {:induction false} WalkConserves(mode: SelfTradeMode, taker: Order, left: real, book: seq<Order>, next: nat)
    ensures var w := Walk(mode, taker, left, book, next); SumFills(w.fills) == left - w.left
    decreases |book|
  {
    hide Walk, SumFills;
    WalkStep(mode, taker, left, book, next);
    SumOfNone();
    if book != [] {
      match Meet(mode, taker, left, book[0])
      case Stop =>
      case Reject =>
      case Withdraw => WalkConserves(mode, taker, left, book[1..], next);
      case Take(qty) =>
        WalkConserves(mode, taker, left - qty, book[1..], next + 1);
        SumFillsCons(FillOf(taker, book[0], qty, next + 1), Walk(mode, taker, left - qty, book[1..], next + 1).fills);
        SumFillsCons(FillOf(taker, book[0], qty, next + 1), []);
        assert [FillOf(taker, book[0], qty, next + 1)] + [] == [FillOf(taker, book[0], qty, next + 1)];
    }
  }

  lemma SumOfNone()
    ensures SumFills([]) == 0.0
  {}

  lemma {:induction false} WalkLeft(mode: SelfTradeMode, taker: Order, left: real, book: seq<Order>, next: nat)
    requires NonNegative(book) && left >= 0.0
    ensures var w := Walk(mode, taker, left, book, next);
            !w.rejected ==> w.left == left - Min(left, Tradable(mode, taker, book))
    decreases |book|
  {
    hide Walk;
    WalkStep(mode, taker, left, book, next);
    if book != [] && taker.Crosses(book[0].price) {
      TradableFacts(mode, taker, book[1..]);
      match Meet(mode, taker, left, book[0])
      case Stop =>
      case Reject =>
      case Withdraw => WalkLeft(mode, taker, left, book[1..], next);
      case Take(qty) =>
        TakeFirst(mode, taker, left, book, next);
        WalkLeft(mode, taker, left - qty, book[1..], next + 1);
    }
  }

  /** An accepted walk trades all that its quantity and price allow. */
  lemma WalkTotal(mode: SelfTradeMode, taker: Order, left: real, book: seq<Order>, next: nat)
    requires NonNegative(book) && left >= 0.0
    ensures var w := Walk(mode, taker, left, book, next);
            && SumFills(w.fills) + w.left == left
            && (!w.rejected ==> SumFills(w.fills) == Min(left, Tradable(mode, taker, book)))
  {
    WalkConserves(mode, taker, left, book, next);
    WalkLeft(mode, taker, left, book, next);
  }

  lemma SumFillsCons(f: Fill, fs: seq<Fill>)
    ensures SumFills([f] + fs) == f.qty + SumFills(fs)
  {
    assert ([f] + fs)[1..] == fs;
  }

  /** What an accepted submit reports is what its walk did. */
  lemma AcceptedWalk(mode: SelfTradeMode, f: Flat, o: Order, reduces: bool)
    requires Submit(mode, f, o, reduces).1.Ok?
    ensures var w, out := WalkOf(mode, f, o), Submit(mode, f, o, reduces).1.outcome;
            && PreCheck(f, o, reduces) == None && o.qty > 0.0 && !w.rejected
            && out.fills == w.fills && out.remaining == w.left
  {}

  /** The probe is exact: outside `CancelBoth`, an accepted submit trades the smaller of its
      quantity and `Crossable`. */
  lemma ProbeExact(mode: SelfTradeMode, f: Flat, o: Order, reduces: bool)
    requires Good(mode, f) && mode != CancelBoth
    ensures var r := Submit(mode, f, o, reduces).1;
            r.Ok? ==> && SumFills(r.outcome.fills) == Min(o.qty, Crossable(o, f.At(o.side.Opposite())))
                      && r.outcome.remaining == o.qty - SumFills(r.outcome.fills)
  {
    var s := f.At(o.side.Opposite());
    GoodIsNonNegative(mode, f, o.side.Opposite());
    if Submit(mode, f, o, reduces).1.Ok? {
      AcceptedWalk(mode, f, o, reduces);
      WalkTotal(mode, o, o.qty, s, f.nextFillId);
      TradableFacts(mode, o, s);
    }
  }

  lemma GoodIsNonNegative(mode: SelfTradeMode, f: Flat, side: Side)
    requires Good(mode, f)
    ensures NonNegative(f.At(side))
  {
    var s := f.At(side);
    forall i | 0 <= i < |s| ensures s[i].remaining >= 0.0 { assert OrderOk(mode, side, s[i]); }
  }

  /** When a fill-or-kill order is accepted and yet not filled: only under `CancelBoth`, and then
      exactly when the quantity of other owners within reach falls short. */
  lemma FokFilledIff(mode: SelfTradeMode, f: Flat, o: Order, reduces: bool)
    requires Good(mode, f) && o.tif == Fok && Submit(mode, f, o, reduces).1.Ok?
    ensures var s := f.At(o.side.Opposite());
            Submit(mode, f, o, reduces).1.outcome.remaining == 0.0 <==>
            (mode == CancelBoth ==> Tradable(CancelBoth, o, s) >= o.qty)
  {
    var s := f.At(o.side.Opposite());
    GoodIsNonNegative(mode, f, o.side.Opposite());
    AcceptedWalk(mode, f, o, reduces);
    WalkTotal(mode, o, o.qty, s, f.nextFillId);
    TradableFacts(mode, o, s);
  }

  // ---- Rejection half way --------------------------------------------------------------

  /** Walking `s`, the taker still has quantity when it meets an order of its own. */
  predicate MeetsOwn(taker: Order, left: real, s: seq<Order>) {
    exists i :: 0 <= i < Reach(taker, s) && s[i].owner == taker.owner && SumRemaining(s[..i]) < left
  }

  lemma {:induction false} RejectedIff(mode: SelfTradeMode, taker: Order, left: real, book: seq<Order>, next: nat)
    requires NonNegative(book)
    ensures Walk(mode, taker, left, book, next).rejected <==> mode == CancelNewest && MeetsOwn(taker, left, book)
    decreases |book|
  {
    hide Walk;
    WalkStep(mode, taker, left, book, next);
    if mode != CancelNewest {
      assert !Walk(mode, taker, left, book, next).rejected;
    } else if book != [] && taker.Crosses(book[0].price) {
      if left <= 0.0 {
        forall i | 0 <= i < Reach(taker, book) ensures SumRemaining(book[..i]) >= left { SumNonNegative(book[..i]); }
      } else if book[0].owner == taker.owner {
        assert SumRemaining(book[..0]) == 0.0;
      } else {
        var qty := Min(left, book[0].remaining);
        RejectedIff(mode, taker, left - qty, book[1..], next + 1);
        MeetsOwnStep(taker, left, book);
      }
    }
  }

  lemma {:induction false} SumNonNegative(s: seq<Order>)
    requires NonNegative(s)
    ensures SumRemaining(s) >= 0.0
  {
    if s != [] { SumNonNegative(s[1..]); }
  }

  lemma MeetsOwnStep(taker: Order, left: real, s: seq<Order>)
    requires NonNegative(s) && s != [] && taker.Crosses(s[0].price) && s[0].owner != taker.owner && left > 0.0
    ensures MeetsOwn(taker, left, s) <==> MeetsOwn(taker, left - s[0].remaining, s[1..])
    ensures left <= s[0].remaining ==> !MeetsOwn(taker, left, s)
  {
    forall i | 0 < i <= |s| ensures SumRemaining(s[..i]) == s[0].remaining + SumRemaining(s[1..][..i - 1]) {
      assert s[..i][1..] == s[1..][..i - 1];
    }
    if MeetsOwn(taker, left, s) {
      var i :| 0 <= i < Reach(taker, s) && s[i].owner == taker.owner && SumRemaining(s[..i]) < left;
      SumNonNegative(s[1..][..i - 1]);
      assert s[1..][i - 1] == s[i];
    }
    if MeetsOwn(taker, left - s[0].remaining, s[1..]) {
      var i :| 0 <= i < Reach(taker, s[1..]) && s[1..][i].owner == taker.owner && SumRemaining(s[1..][..i]) < left - s[0].remaining;
      assert s[i + 1].owner == taker.owner && SumRemaining(s[..i + 1]) < left;
    }
  }

  /** Whether a submit will be accepted, decided on book and order before anything happens. */
  predicate Accepts(mode: SelfTradeMode, f: Flat, o: Order, reduces: bool) {
    var opp := f.At(o.side.Opposite());
    && PreCheck(f, o, reduces) == None
    && !(mode == CancelNewest && MeetsOwn(o, o.qty, opp))
    && (o.orderType == Market ==> Tradable(mode, o, opp) >= o.qty)
  }

  lemma AcceptedIff(mode: SelfTradeMode, f: Flat, o: Order, reduces: bool)
    requires Good(mode, f)
    ensures Submit(mode, f, o, reduces).1.Ok? <==> Accepts(mode, f, o, reduces)
  {
    hide Walk, MeetsOwn, Tradable, Good;
    var opp := f.At(o.side.Opposite());
    GoodIsNonNegative(mode, f, o.side.Opposite());
    if PreCheck(f, o, reduces) == None {
      RejectedIff(mode, o, o.qty, opp, f.nextFillId);
      WalkTotal(mode, o, o.qty, opp, f.nextFillId);
    }
  }

  /** What other owners offer ahead of the taker's first own order. */
  function Ahead(taker: Order, s: seq<Order>): real {
    if s == [] || s[0].owner == taker.owner then 0.0 else s[0].remaining + Ahead(taker, s[1..])
  }

  /** A walk broken off by an own order has traded all that stood before it. */
  lemma {:induction false} RejectedTrades(taker: Order, left: real, book: seq<Order>, next: nat)
    requires Walk(CancelNewest, taker, left, book, next).rejected
    ensures SumFills(Walk(CancelNewest, taker, left, book, next).fills) == Ahead(taker, book)
    decreases |book|
  {
    hide Walk, SumFills;
    WalkStep(CancelNewest, taker, left, book, next);
    SumOfNone();
    if Meet(CancelNewest, taker, left, book[0]).Take? {
      var qty := Min(left, book[0].remaining);
      RejectedTrades(taker, left - qty, book[1..], next + 1);
      SumFillsCons(FillOf(taker, book[0], qty, next + 1), Walk(CancelNewest, taker, left - qty, book[1..], next + 1).fills);
    }
  }

  /** When a rejected submit leaves the book as it was: only if it failed a check up front, or
      the other side was empty, or the very first maker it met was its own. Anything else has
      already consumed makers, and that is not rolled back. */
  lemma RejectionIsCleanIff(mode: SelfTradeMode, f: Flat, o: Order, reduces: bool)
    requires Good(mode, f) && Submit(mode, f, o, reduces).1.Err?
    ensures var opp := f.At(o.side.Opposite());
            Submit(mode, f, o, reduces).0 == f <==>
            (PreCheck(f, o, reduces).Some? || opp == [] || (mode == CancelNewest && opp[0].owner == o.owner))
  {
    var opp := f.At(o.side.Opposite());
    if PreCheck(f, o, reduces) == None {
      RejectedEffect(mode, f, o, reduces);
      if opp == [] || Meet(mode, o, o.qty, opp[0]) == Reject {
        NothingReached(mode, f, o);
      } else {
        FirstGoes(mode, f, o);
        if opp[0].remaining > 0.0 {
          FirstIsIndexed(mode, f, o.side.Opposite());
          assert opp[0].id !in Crossed(mode, f, o).byId;
        } else {
          UsedUpIsFilled(mode, f, o);
        }
      }
    }
  }

  /** Meeting a used-up maker produces a fill of nothing, so the fill counter moves. */
  lemma UsedUpIsFilled(mode: SelfTradeMode, f: Flat, o: Order)
    requires Good(mode, f) && o.qty > 0.0 && f.At(o.side.Opposite()) != [] && f.At(o.side.Opposite())[0].remaining == 0.0
    requires Meet(mode, o, o.qty, f.At(o.side.Opposite())[0]).Take?
    ensures Crossed(mode, f, o).nextFillId > f.nextFillId
  {
    hide Walk;
    TakeFirst(mode, o, o.qty, f.At(o.side.Opposite()), f.nextFillId);
  }

  lemma RejectedEffect(mode: SelfTradeMode, f: Flat, o: Order, reduces: bool)
    requires Submit(mode, f, o, reduces).1.Err? && PreCheck(f, o, reduces) == None
    ensures Submit(mode, f, o, reduces).0 == Crossed(mode, f, o) && o.qty > 0.0
    ensures WalkOf(mode, f, o).rejected || (o.orderType == Market && WalkOf(mode, f, o).left > 0.0)
  {}

  lemma NothingReached(mode: SelfTradeMode, f: Flat, o: Order)
    requires var opp := f.At(o.side.Opposite()); opp == [] || Meet(mode, o, o.qty, opp[0]) == Reject
    ensures Crossed(mode, f, o) == f
  {
    var w := WalkOf(mode, f, o);
    assert w.n == 0 && w.raw == f.At(o.side.Opposite()) && w.fills == [];
    assert w.raw[..0] == [] && Ids([]) == {};
    assert Settle(w) == w.raw;
    assert f.byId - {} == f.byId;
  }

  lemma FirstIsIndexed(mode: SelfTradeMode, f: Flat, side: Side)
    requires Good(mode, f) && f.At(side) != [] && f.At(side)[0].remaining > 0.0
    ensures f.At(side)[0].id in f.byId
  {
    GoodParts(mode, f, side);
  }

  /** A walk that goes on to fail has used up the first maker, unless that one stopped it. */
  lemma FirstGoes(mode: SelfTradeMode, f: Flat, o: Order)
    requires Good(mode, f) && o.qty > 0.0 && f.At(o.side.Opposite()) != []
    requires Meet(mode, o, o.qty, f.At(o.side.Opposite())[0]) != Reject
    requires WalkOf(mode, f, o).rejected || (o.orderType == Market && WalkOf(mode, f, o).left > 0.0)
    ensures var w := WalkOf(mode, f, o); f.At(o.side.Opposite())[0].id in Ids(w.raw[..w.n])
  {
    var opp := f.At(o.side.Opposite());
    if Meet(mode, o, o.qty, opp[0]).Take? {
      TakeFirst(mode, o, o.qty, opp, f.nextFillId);
    }
    GoodIsNonNegative(mode, f, o.side.Opposite());
    WalkShape(mode, o, o.qty, opp, f.nextFillId);
    var w := WalkOf(mode, f, o);
    assert Touched(mode, o, w, opp, 0);
    assert w.n > 0 && w.raw[..w.n][0].id == opp[0].id;
  }

  // ---- Own orders under CancelBoth -----------------------------------------------------

  /** Under `CancelBoth` the taker reaches entry `i` with quantity left, counting only what other
      owners offer before it. */
  predicate Reached(taker: Order, left: real, s: seq<Order>, i: nat) {
    i < Reach(taker, s) && SumRemaining(Others(taker, s[..i])) < left
  }

  /** How `Reached` moves past the first entry. */
  lemma ReachedTail(taker: Order, left: real, s: seq<Order>, i: nat)
    requires NonNegative(s) && 0 < i < |s|
    ensures var rest := if s[0].owner == taker.owner then left else left - s[0].remaining;
            Reached(taker, left, s, i) <==> taker.Crosses(s[0].price) && Reached(taker, rest, s[1..], i - 1)
    ensures Reached(taker, left, s, i) ==> left > 0.0 && (s[0].owner != taker.owner ==> s[0].remaining < left)
  {
    var more := Others(taker, s[1..][..i - 1]);
    assert s[..i][1..] == s[1..][..i - 1];
    assert ([s[0]] + more)[1..] == more;
    OthersNonNegative(taker, s[1..][..i - 1]);
    SumNonNegative(more);
  }

  /** An own order is withdrawn exactly when it is reached. */
  lemma {:induction false} OwnWithdrawnIff(taker: Order, left: real, book: seq<Order>, next: nat, i: nat)
    requires NonNegative(book) && i < |book| && book[i].owner == taker.owner
    ensures i < Walk(CancelBoth, taker, left, book, next).n <==> Reached(taker, left, book, i)
    decreases |book|
  {
    hide Walk;
    WalkStep(CancelBoth, taker, left, book, next);
    if i == 0 {
      assert SumRemaining(Others(taker, book[..0])) == 0.0;
    } else {
      ReachedTail(taker, left, book, i);
      if book[0].owner == taker.owner {
        OwnWithdrawnIff(taker, left, book[1..], next, i - 1);
      } else {
        OwnWithdrawnIff(taker, left - Min(left, book[0].remaining), book[1..], next + 1, i - 1);
      }
    }
  }

  lemma {:induction false} OthersNonNegative(taker: Order, s: seq<Order>)
    requires NonNegative(s)
    ensures NonNegative(Others(taker, s))
  {
    if s != [] { OthersNonNegative(taker, s[1..]); }
  }

  // ---- What the engine does not promise ------------------------------------------------

  function Quote(id: OrderId, owner: Address, side: Side, qty: real): Order {
    Order(id, owner, side, Limit, 10.0, qty, qty, Gtc, false, false, 0)
  }

  /** Two asks at one price: another owner's and one of owner 7. */
  function TwoAsks(first: Address, second: Address): Flat {
    Flat([], [Quote(1, first, Sell, 1.0), Quote(2, second, Sell, 1.0)], map[1 := Sell, 2 := Sell], 0)
  }

  /** A fill-or-kill order that is accepted with half of it unfilled: the probe counted the
      taker's own ask, the walk then withdrew it. */
  lemma FokPartFilled()
    ensures var o := Quote(3, 7, Buy, 2.0).(tif := Fok);
            && Good(CancelBoth, TwoAsks(7, 8))
            && Submit(CancelBoth, TwoAsks(7, 8), o, true).1.Ok?
            && Submit(CancelBoth, TwoAsks(7, 8), o, true).1.outcome.remaining == 1.0
  {
    hide Good, Walk, Settle, Ids;
    var f, o := TwoAsks(7, 8), Quote(3, 7, Buy, 2.0).(tif := Fok);
    TwoAsksGood(CancelBoth, 7, 8);
    var a, b := f.asks[0], f.asks[1];
    assert f.asks[1..] == [b] && [b][1..] == [];
    assert Reach(o, [b]) == 1 && Reach(o, f.asks) == 2;
    assert f.asks[..2] == f.asks;
    assert SumRemaining([b]) == 1.0 && SumRemaining(f.asks) == 2.0;
    WalkStep(CancelBoth, o, 2.0, f.asks, 0);
    WalkStep(CancelBoth, o, 2.0, [b], 0);
    WalkStep(CancelBoth, o, 1.0, [], 1);
  }

  lemma TwoAsksGood(mode: SelfTradeMode, first: Address, second: Address)
    ensures Good(mode, TwoAsks(first, second))
  {
    var f := TwoAsks(first, second);
    assert f.asks[0].id == 1 && f.asks[1].id == 2;
  }

  /** A rejected order that nevertheless consumed a maker: the maker stays listed with nothing
      remaining, is no longer indexed, and outlives the cancel of its neighbour. */
  lemma GhostMaker()
    ensures var f, o := TwoAsks(8, 7), Quote(3, 7, Buy, 2.0);
            var f1 := Submit(CancelNewest, f, o, true).0;
            var f2 := Cancel(f1, 2).0;
            && Good(CancelNewest, f) && Submit(CancelNewest, f, o, true).1 == Err(SelfTradeRejected)
            && f1.asks == [Quote(1, 8, Sell, 1.0).(remaining := 0.0), Quote(2, 7, Sell, 1.0)] && 1 !in f1.byId
            && |f2.asks| == 1 && LevelQty(f2.asks, 10.0) == 0.0 && f2.byId == map[]
  {
    hide Good, WalkOf, Remove, AtPrice, Ids;
    var f, o := TwoAsks(8, 7), Quote(3, 7, Buy, 2.0);
    TwoAsksGood(CancelNewest, 8, 7);
    GhostWalk();
    var hit, b := f.asks[0].(remaining := 0.0), f.asks[1];
    var w := WalkOf(CancelNewest, f, o);
    assert w.raw[..1] == [hit] && w.raw[1..] == [b];
    OneEntry(hit);
    RemoveSecond(hit, b);
    assert map[1 := Sell, 2 := Sell] - {1} == map[2 := Sell];
    var f1 := Submit(CancelNewest, f, o, true).0;
    assert f1.asks == [hit, b] && f1.byId == map[2 := Sell];
  }

  lemma GhostWalk()
    ensures var f, o := TwoAsks(8, 7), Quote(3, 7, Buy, 2.0);
            var w := WalkOf(CancelNewest, f, o);
            w.raw == [f.asks[0].(remaining := 0.0), f.asks[1]] && w.n == 1 && w.rejected
  {
    hide Walk;
    var f, o := TwoAsks(8, 7), Quote(3, 7, Buy, 2.0);
    assert f.asks[1..] == [f.asks[1]];
    WalkStep(CancelNewest, o, 2.0, f.asks, 0);
    WalkStep(CancelNewest, o, 1.0, [f.asks[1]], 1);
  }

  lemma OneEntry(o: Order)
    ensures AtPrice([o], o.price) == [o] && Ids([o]) == {o.id} && LevelQty([o], o.price) == o.remaining
  {
    assert [o][1..] == [];
  }

  lemma RemoveSecond(a: Order, b: Order)
    requires a.id != b.id
    ensures Remove([a, b], b.id) == [a]
  {
    assert [a, b][1..] == [b] && [b][1..] == [];
    assert Remove([b], b.id) == [];
  }
}
