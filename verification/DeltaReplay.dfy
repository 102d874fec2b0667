/**
 The delta stream of a market worker, and a subscriber that folds it into a map from side and
 price to quantity. `StepInStep` says exactly which commands keep the two in agreement, and
 `ReplayAgrees` that whole runs of such commands do.
 */
module DeltaReplay {
  import opened OrderTypes
  import opened FlatBook
  import opened BookRuns
  import opened Greedy

  /** The new quantity of one level; zero means the level is gone. */
  datatype Delta = Delta(sequence: nat, side: Side, price: real, qty: real)

  type Mirror = map<(Side, real), real>

  function Apply(m: Mirror, d: Delta): Mirror {
    if d.qty == 0.0 then m - {(d.side, d.price)} else m[(d.side, d.price) := d.qty]
  }

  function ApplyAll(m: Mirror, ds: seq<Delta>): Mirror
    decreases |ds|
  {
    if ds == [] then m else ApplyAll(Apply(m, ds[0]), ds[1..])
  }

  /** The mirror shows the level as the book has it: its quantity, or no entry if that is zero. */
  predicate AgreesAt(m: Mirror, f: Flat, side: Side, price: real) {
    var q := LevelQty(f.At(side), price);
    if q == 0.0 then (side, price) !in m else (side, price) in m && m[(side, price)] == q
  }

  ghost predicate Agrees(m: Mirror, f: Flat) {
    forall side, price :: AgreesAt(m, f, side, price)
  }

  // ---- What a command emits ------------------------------------------------------------

  function LevelDelta(f: Flat, sequence: nat, side: Side, price: real): Delta {
    Delta(sequence, side, price, LevelQty(f.At(side), price))
  }

  /** One delta per fill, for the maker's level, each showing the book after the whole submit. */
  function FillDeltas(f: Flat, side: Side, fills: seq<Fill>, sequence: nat): (ds: seq<Delta>)
    ensures |ds| == |fills|
  {
    if fills == [] then []
    else [LevelDelta(f, sequence + 1, side, fills[0].price)] + FillDeltas(f, side, fills[1..], sequence + 1)
  }

  function SubmitDeltas(f: Flat, o: Order, r: SubmitResult, sequence: nat): seq<Delta> {
    if r.Err? then [] else
    var ds := FillDeltas(f, o.side.Opposite(), r.outcome.fills, sequence);
    if r.outcome.resting.Some? then ds + [LevelDelta(f, sequence + |ds| + 1, o.side, o.price)] else ds
  }

  function Emitted(mode: SelfTradeMode, f: Flat, c: Command, sequence: nat): seq<Delta> {
    match c
    case Place(o, reduces) =>
      var r := Submit(mode, f, o, reduces);
      SubmitDeltas(r.0, o, r.1, sequence)
    case Withdrawal(_) => []
  }

  /** Everything a worker has emitted after the commands `cs`. */
  function Stream(mode: SelfTradeMode, cs: seq<Command>): seq<Delta> {
    if cs == [] then [] else
    var before := cs[..|cs| - 1];
    Stream(mode, before) + Emitted(mode, Run(mode, before), cs[|cs| - 1], |Stream(mode, before)|)
  }

  // ---- How a walk moves level quantities -----------------------------------------------

  function FilledAt(fills: seq<Fill>, price: real): real {
    if fills == [] then 0.0 else (if fills[0].price == price then fills[0].qty else 0.0) + FilledAt(fills[1..], price)
  }

  /** Quantity of the taker's own orders at `price` that the walk withdraws. */
  function WithdrawnAt(mode: SelfTradeMode, taker: Order, gone: seq<Order>, price: real): real {
    if gone == [] then 0.0 else
    (if mode == CancelBoth && gone[0].owner == taker.owner && gone[0].price == price then gone[0].remaining else 0.0)
    + WithdrawnAt(mode, taker, gone[1..], price)
  }

  lemma LevelQtyCons(o: Order, s: seq<Order>, price: real)
    ensures LevelQty([o] + s, price) == (if o.price == price then o.remaining else 0.0) + LevelQty(s, price)
  {
    assert ([o] + s)[1..] == s;
  }

  lemma FilledCons(f: Fill, fs: seq<Fill>, price: real)
    ensures FilledAt([f] + fs, price) == (if f.price == price then f.qty else 0.0) + FilledAt(fs, price)
  {
    assert ([f] + fs)[1..] == fs;
  }

  lemma TailAfterTake(mode: SelfTradeMode, taker: Order, left: real, book: seq<Order>, next: nat)
    requires book != [] && Meet(mode, taker, left, book[0]).Take?
    ensures var qty := Min(left, book[0].remaining);
            var w, v := Walk(mode, taker, left, book, next), Walk(mode, taker, left - qty, book[1..], next + 1);
            w.raw[w.n..] == if qty == book[0].remaining then v.raw[v.n..] else [Reduced(book[0], qty)] + book[1..]
  {}

  lemma WithdrawnHead(mode: SelfTradeMode, taker: Order, book: seq<Order>, n: nat, price: real)
    requires n < |book|
    ensures WithdrawnAt(mode, taker, book[..n + 1], price) ==
            (if mode == CancelBoth && book[0].owner == taker.owner && book[0].price == price then book[0].remaining else 0.0)
            + WithdrawnAt(mode, taker, book[1..][..n], price)
  {
    assert book[..n + 1][1..] == book[1..][..n];
  }

  /** Level by level, what leaves the book was filled or withdrawn. */
  predicate Flows(mode: SelfTradeMode, taker: Order, w: Walked, book: seq<Order>, price: real) {
    && w.n <= |w.raw| == |book|
    && LevelQty(w.raw[w.n..], price) ==
       LevelQty(book, price) - FilledAt(w.fills, price) - WithdrawnAt(mode, taker, book[..w.n], price)
  }

  lemma FlowsOne(mode: SelfTradeMode, taker: Order, w: Walked, v: Walked, book: seq<Order>, price: real)
    requires book != [] && |w.raw| == |book| && w.n == v.n + 1 && Flows(mode, taker, v, book[1..], price)
    requires w.raw[w.n..] == v.raw[v.n..]
    requires if mode == CancelBoth && book[0].owner == taker.owner then w.fills == v.fills
             else exists f :: w.fills == [f] + v.fills && f.price == book[0].price && f.qty == book[0].remaining
    ensures Flows(mode, taker, w, book, price)
  {
    WithdrawnHead(mode, taker, book, v.n, price);
    if !(mode == CancelBoth && book[0].owner == taker.owner) {
      var f :| w.fills == [f] + v.fills && f.price == book[0].price && f.qty == book[0].remaining;
      FilledCons(f, v.fills, price);
    }
  }

  lemma FlowsPart(mode: SelfTradeMode, taker: Order, w: Walked, f: Fill, book: seq<Order>, price: real)
    requires book != [] && |w.raw| == |book| && w.n == 0 && w.fills == [f] && f.price == book[0].price
    requires w.raw == [Reduced(book[0], f.qty)] + book[1..]
    ensures Flows(mode, taker, w, book, price)
  {
    FilledCons(f, [], price);
    assert [f] + [] == [f] && book[..0] == [] && w.raw[0..] == w.raw;
    LevelQtyCons(Reduced(book[0], f.qty), book[1..], price);
  }

  lemma NoFlow(mode: SelfTradeMode, taker: Order, price: real)
    ensures FilledAt([], price) == 0.0 && WithdrawnAt(mode, taker, [], price) == 0.0
  {}

  lemma {:induction false} LevelFlow(mode: SelfTradeMode, taker: Order, left: real, book: seq<Order>, next: nat, price: real)
    ensures Flows(mode, taker, Walk(mode, taker, left, book, next), book, price)
    decreases |book|
  {
    hide Walk, LevelQty, FilledAt, WithdrawnAt;
    WalkStep(mode, taker, left, book, next);
    NoFlow(mode, taker, price);
    var w := Walk(mode, taker, left, book, next);
    if book == [] || Meet(mode, taker, left, book[0]) == Stop || Meet(mode, taker, left, book[0]) == Reject {
      assert w.raw[0..] == book && book[..0] == [];
    } else if Meet(mode, taker, left, book[0]) == Withdraw {
      LevelFlow(mode, taker, left, book[1..], next, price);
      FlowsOne(mode, taker, w, Walk(mode, taker, left, book[1..], next), book, price);
    } else {
      var qty := Min(left, book[0].remaining);
      var f := FillOf(taker, book[0], qty, next + 1);
      if qty == book[0].remaining {
        LevelFlow(mode, taker, left - qty, book[1..], next + 1, price);
        TailAfterTake(mode, taker, left, book, next);
        assert w.fills == [f] + Walk(mode, taker, left - qty, book[1..], next + 1).fills;
        FlowsOne(mode, taker, w, Walk(mode, taker, left - qty, book[1..], next + 1), book, price);
      } else {
        TailAfterTake(mode, taker, left, book, next);
        assert w.raw[0..] == w.raw;
        FlowsPart(mode, taker, w, f, book, price);
      }
    }
  }

  lemma {:induction false} LevelQtyConcat(a: seq<Order>, b: seq<Order>, price: real)
    ensures LevelQty(a + b, price) == LevelQty(a, price) + LevelQty(b, price)
  {
    if a == [] {
      assert a + b == b;
    } else {
      LevelQtyConcat(a[1..], b, price);
      assert (a + b)[1..] == a[1..] + b;
    }
  }

  lemma {:induction false} LevelQtyOfNothing(s: seq<Order>, p: real, price: real)
    requires forall i | 0 <= i < |s| :: s[i].remaining == 0.0
    ensures LevelQty(AtPrice(s, p), price) == 0.0
  {
    if s != [] {
      LevelQtyOfNothing(s[1..], p, price);
      LevelQtyCons(s[0], AtPrice(s[1..], p), price);
      assert [] + AtPrice(s[1..], p) == AtPrice(s[1..], p);
    }
  }

  /** The same for the list left resting, also after a rejection. */
  lemma CrossedLevel(mode: SelfTradeMode, taker: Order, left: real, book: seq<Order>, next: nat, price: real)
    requires NonNegative(book) && left >= 0.0
    ensures var w := Walk(mode, taker, left, book, next);
            LevelQty(Settle(w), price) ==
            LevelQty(book, price) - FilledAt(w.fills, price) - WithdrawnAt(mode, taker, book[..w.n], price)
  {
    var w := Walk(mode, taker, left, book, next);
    LevelFlow(mode, taker, left, book, next, price);
    if w.rejected {
      WalkShape(mode, taker, left, book, next);
      forall i | 0 <= i < w.n ensures w.raw[i].remaining == 0.0 { assert Touched(mode, taker, w, book, i); }
      LevelQtyOfNothing(w.raw[..w.n], w.raw[w.n].price, price);
      LevelQtyConcat(AtPrice(w.raw[..w.n], w.raw[w.n].price), w.raw[w.n..], price);
    }
  }

  lemma {:induction false} InsertLevel(side: Side, s: seq<Order>, o: Order, price: real)
    ensures LevelQty(Insert(side, s, o), price) == LevelQty(s, price) + (if o.price == price then o.remaining else 0.0)
  {
    if s == [] || Key(side, o.price) < Key(side, s[0].price) {
      LevelQtyCons(o, s, price);
    } else {
      InsertLevel(side, s[1..], o, price);
      LevelQtyCons(s[0], Insert(side, s[1..], o), price);
    }
  }

  lemma {:induction false} RemoveLevel(s: seq<Order>, k: nat, id: OrderId)
    requires k < |s| && s[k].id == id && forall i | 0 <= i < k :: s[i].id != id
    ensures LevelQty(Remove(s, id), s[k].price) == LevelQty(s, s[k].price) - s[k].remaining
  {
    if k > 0 {
      RemoveLevel(s[1..], k - 1, id);
      LevelQtyCons(s[0], Remove(s[1..], id), s[k].price);
    }
  }

  // ---- Folding the deltas of one submit ------------------------------------------------

  predicate HasFillAt(fills: seq<Fill>, price: real) {
    exists k :: 0 <= k < |fills| && fills[k].price == price
  }

  predicate SameAt(m: Mirror, m': Mirror, side: Side, price: real) {
    if (side, price) in m then (side, price) in m' && m'[(side, price)] == m[(side, price)] else (side, price) !in m'
  }

  lemma {:induction false} AfterFills(m: Mirror, f: Flat, maker: Side, fills: seq<Fill>, sequence: nat, side: Side, price: real)
    ensures var m' := ApplyAll(m, FillDeltas(f, maker, fills, sequence));
            if side == maker && HasFillAt(fills, price) then AgreesAt(m', f, side, price) else SameAt(m, m', side, price)
    decreases |fills|
  {
    if fills != [] {
      var ds := FillDeltas(f, maker, fills, sequence);
      var m1 := Apply(m, ds[0]);
      AfterFills(m1, f, maker, fills[1..], sequence + 1, side, price);
      assert ds[1..] == FillDeltas(f, maker, fills[1..], sequence + 1);
      if side == maker && fills[0].price == price {
        assert AgreesAt(m1, f, side, price) && HasFillAt(fills, price);
      } else {
        assert SameAt(m, m1, side, price);
        if side == maker { HasFillTail(fills, price); }
      }
    }
  }

  lemma HasFillTail(fills: seq<Fill>, price: real)
    requires fills != [] && fills[0].price != price
    ensures HasFillAt(fills, price) <==> HasFillAt(fills[1..], price)
  {
    if HasFillAt(fills, price) {
      var k :| 0 <= k < |fills| && fills[k].price == price;
      assert fills[1..][k - 1] == fills[k];
    }
    if HasFillAt(fills[1..], price) {
      var k :| 0 <= k < |fills[1..]| && fills[1..][k].price == price;
      assert fills[k + 1].price == price;
    }
  }

  lemma {:induction false} ApplyAllConcat(m: Mirror, a: seq<Delta>, b: seq<Delta>)
    ensures ApplyAll(m, a + b) == ApplyAll(ApplyAll(m, a), b)
    decreases |a|
  {
    if a == [] {
      assert a + b == b;
    } else {
      assert (a + b)[1..] == a[1..] + b;
      ApplyAllConcat(Apply(m, a[0]), a[1..], b);
    }
  }

  /** After the deltas of an accepted submit the mirror is right wherever one was emitted, and
      unchanged elsewhere. */
  lemma AfterSubmit(m: Mirror, f': Flat, o: Order, out: Outcome, sequence: nat, side: Side, price: real)
    ensures var m' := ApplyAll(m, SubmitDeltas(f', o, Ok(out), sequence));
            if (side == o.side.Opposite() && HasFillAt(out.fills, price))
               || (out.resting.Some? && side == o.side && price == o.price)
            then AgreesAt(m', f', side, price) else SameAt(m, m', side, price)
  {
    var ds := FillDeltas(f', o.side.Opposite(), out.fills, sequence);
    AfterFills(m, f', o.side.Opposite(), out.fills, sequence, side, price);
    if out.resting.Some? {
      var d := LevelDelta(f', sequence + |ds| + 1, o.side, o.price);
      ApplyAllConcat(m, ds, [d]);
      assert ApplyAll(ApplyAll(m, ds), [d]) == Apply(ApplyAll(m, ds), d);
    }
  }

  // ---- Which commands stay in step -----------------------------------------------------

  lemma {:induction false} FilledAtNone(fills: seq<Fill>, price: real)
    requires !HasFillAt(fills, price)
    ensures FilledAt(fills, price) == 0.0
  {
    if fills != [] {
      assert fills[0].price != price;
      HasFillTail(fills, price);
      FilledAtNone(fills[1..], price);
    }
  }

  lemma {:induction false} NoneWithdrawn(mode: SelfTradeMode, taker: Order, gone: seq<Order>, price: real)
    requires mode != CancelBoth
    ensures WithdrawnAt(mode, taker, gone, price) == 0.0
  {
    if gone != [] { NoneWithdrawn(mode, taker, gone[1..], price); }
  }

  /** The two lists after a submit that got as far as crossing. */
  lemma SubmitLists(mode: SelfTradeMode, f: Flat, o: Order, reduces: bool)
    requires PreCheck(f, o, reduces) == None
    ensures var r, w := Submit(mode, f, o, reduces), WalkOf(mode, f, o);
            && o.qty > 0.0 && r.0.At(o.side.Opposite()) == Settle(w)
            && r.0.At(o.side) == if r.1.Ok? && r.1.outcome.resting.Some?
                                 then Insert(o.side, f.At(o.side), o.(remaining := w.left)) else f.At(o.side)
  {
    hide Walk, Settle, Insert, Ids;
  }

  /** Quantities at `side` and `price` before and after a submit. */
  lemma SubmitLevel(mode: SelfTradeMode, f: Flat, o: Order, reduces: bool, side: Side, price: real)
    requires Good(mode, f) && PreCheck(f, o, reduces) == None
    ensures var r, w := Submit(mode, f, o, reduces), WalkOf(mode, f, o);
            LevelQty(r.0.At(side), price) ==
            if side == o.side.Opposite() then
              LevelQty(f.At(side), price) - FilledAt(w.fills, price) - WithdrawnAt(mode, o, f.At(side)[..w.n], price)
            else
              LevelQty(f.At(side), price) + (if r.1.Ok? && r.1.outcome.resting.Some? && price == o.price then w.left else 0.0)
  {
    hide Walk, Settle, Insert, Good, Submit, LevelQty, FilledAt, WithdrawnAt;
    SubmitLists(mode, f, o, reduces);
    if side == o.side.Opposite() {
      GoodIsNonNegative(mode, f, side);
      CrossedLevel(mode, o, o.qty, f.At(side), f.nextFillId, price);
    } else {
      InsertLevel(o.side, f.At(o.side), o.(remaining := WalkOf(mode, f, o).left), price);
    }
  }

  lemma SameStillAgrees(m: Mirror, m': Mirror, f: Flat, f': Flat, side: Side, price: real)
    requires AgreesAt(m, f, side, price) && SameAt(m, m', side, price)
    ensures AgreesAt(m', f', side, price) <==> LevelQty(f'.At(side), price) == LevelQty(f.At(side), price)
  {}

  /** Somebody else's order at this price is reached. */
  predicate Trades(taker: Order, left: real, s: seq<Order>, price: real) {
    exists j :: 0 <= j < |s| && s[j].owner != taker.owner && s[j].price == price && Reached(taker, left, s, j)
  }

  /** Every price at which `CancelBoth` withdraws an own order also sees a trade. */
  predicate Reported(taker: Order, left: real, s: seq<Order>) {
    forall i | 0 <= i < |s| && s[i].owner == taker.owner && Reached(taker, left, s, i) :: Trades(taker, left, s, s[i].price)
  }

  predicate AllPositive(s: seq<Order>) {
    forall i | 0 <= i < |s| :: s[i].remaining > 0.0
  }

  lemma TradesStep(taker: Order, left: real, s: seq<Order>, price: real)
    requires AllPositive(s) && s != [] && taker.Crosses(s[0].price) && left > 0.0
    ensures var own := s[0].owner == taker.owner;
            Trades(taker, left, s, price) <==>
            (!own && s[0].price == price) || Trades(taker, if own then left else left - s[0].remaining, s[1..], price)
  {
    hide Reached;
    var own := s[0].owner == taker.owner;
    var rest := if own then left else left - s[0].remaining;
    FirstReached(taker, left, s);
    if Trades(taker, left, s, price) {
      var j :| 0 <= j < |s| && s[j].owner != taker.owner && s[j].price == price && Reached(taker, left, s, j);
      if j > 0 {
        ReachedTail(taker, left, s, j);
        assert s[1..][j - 1] == s[j];
      }
    }
    if Trades(taker, rest, s[1..], price) {
      var j :| 0 <= j < |s[1..]| && s[1..][j].owner != taker.owner && s[1..][j].price == price && Reached(taker, rest, s[1..], j);
      ReachedTail(taker, left, s, j + 1);
      assert s[j + 1] == s[1..][j];
    }
  }

  lemma FirstReached(taker: Order, left: real, s: seq<Order>)
    requires s != [] && taker.Crosses(s[0].price) && left > 0.0
    ensures Reached(taker, left, s, 0)
  {
    assert SumRemaining(Others(taker, s[..0])) == 0.0;
  }

  lemma NoTrades(taker: Order, left: real, s: seq<Order>, price: real)
    requires AllPositive(s) && (s == [] || left <= 0.0 || !taker.Crosses(s[0].price))
    ensures !Trades(taker, left, s, price)
  {
    forall j | 0 <= j < |s| ensures !Reached(taker, left, s, j) {
      OthersNonNegative(taker, s[..j]);
      SumNonNegative(Others(taker, s[..j]));
    }
  }

  /** Under `CancelBoth` there is a fill at a price exactly when somebody else's order there is reached. */
  lemma {:induction false} FilledIffReached(taker: Order, left: real, book: seq<Order>, next: nat, price: real)
    requires AllPositive(book)
    ensures HasFillAt(Walk(CancelBoth, taker, left, book, next).fills, price) <==> Trades(taker, left, book, price)
    decreases |book|
  {
    hide Walk, Trades;
    WalkStep(CancelBoth, taker, left, book, next);
    if book == [] || Meet(CancelBoth, taker, left, book[0]) == Stop {
      NoTrades(taker, left, book, price);
    } else {
      TradesStep(taker, left, book, price);
      if book[0].owner == taker.owner {
        FilledIffReached(taker, left, book[1..], next, price);
      } else {
        var qty := Min(left, book[0].remaining);
        var fill, v := FillOf(taker, book[0], qty, next + 1), Walk(CancelBoth, taker, left - qty, book[1..], next + 1);
        FilledIffReached(taker, left - qty, book[1..], next + 1, price);
        HasFillCons(fill, v.fills, price);
        if qty < book[0].remaining {
          HasFillCons(fill, [], price);
          assert [fill] + [] == [fill];
          NoTrades(taker, left - book[0].remaining, book[1..], price);
        }
      }
    }
  }

  lemma HasFillCons(f: Fill, fs: seq<Fill>, price: real)
    ensures HasFillAt([f] + fs, price) <==> f.price == price || HasFillAt(fs, price)
  {
    var all := [f] + fs;
    assert all[0] == f && all[1..] == fs;
    if f.price != price { HasFillTail(all, price); }
  }

  /** Something is withdrawn at a price exactly when an own order there is among the entries. */
  lemma {:induction false} WithdrawnIff(taker: Order, gone: seq<Order>, price: real)
    requires AllPositive(gone)
    ensures WithdrawnAt(CancelBoth, taker, gone, price) >= 0.0
    ensures WithdrawnAt(CancelBoth, taker, gone, price) == 0.0 <==>
            forall i | 0 <= i < |gone| && gone[i].owner == taker.owner :: gone[i].price != price
  {
    if gone != [] {
      WithdrawnIff(taker, gone[1..], price);
      assert forall i | 0 < i < |gone| :: gone[i] == gone[1..][i - 1];
    }
  }

  /** No level loses quantity without a delta for it. */
  ghost predicate Shown(mode: SelfTradeMode, f: Flat, o: Order) {
    var w := WalkOf(mode, f, o);
    forall price | !HasFillAt(w.fills, price) :: WithdrawnAt(mode, o, f.At(o.side.Opposite())[..w.n], price) == 0.0
  }

  lemma ShownIff(mode: SelfTradeMode, f: Flat, o: Order)
    requires Good(mode, f)
    ensures Shown(mode, f, o) <==> (mode == CancelBoth ==> Reported(o, o.qty, f.At(o.side.Opposite())))
  {
    hide Walk, Reached, WithdrawnAt, HasFillAt, Trades;
    var side, w := o.side.Opposite(), WalkOf(mode, f, o);
    var s := f.At(side);
    if mode != CancelBoth {
      forall price ensures WithdrawnAt(mode, o, s[..w.n], price) == 0.0 { NoneWithdrawn(mode, o, s[..w.n], price); }
    } else {
      forall i | 0 <= i < |s| ensures s[i].remaining > 0.0 { assert OrderOk(mode, side, s[i]); }
      forall i | 0 <= i < |s| && s[i].owner == o.owner ensures i < w.n <==> Reached(o, o.qty, s, i) {
        OwnWithdrawnIff(o, o.qty, s, f.nextFillId, i);
      }
      forall price ensures HasFillAt(w.fills, price) <==> Trades(o, o.qty, s, price) { FilledIffReached(o, o.qty, s, f.nextFillId, price); }
      forall price
        ensures WithdrawnAt(mode, o, s[..w.n], price) == 0.0 <==> forall i | 0 <= i < w.n && s[i].owner == o.owner :: s[i].price != price
      {
        WithdrawnIff(o, s[..w.n], price);
        assert forall i | 0 <= i < w.n :: s[..w.n][i] == s[i];
      }
    }
  }

  /** After an accepted submit the mirror is right again exactly when every price at which an own
      order was withdrawn also saw a trade. That can only fail under `CancelBoth`. */
  lemma AcceptedInStep(mode: SelfTradeMode, f: Flat, o: Order, reduces: bool, m: Mirror, sequence: nat)
    requires Good(mode, f) && Agrees(m, f) && Submit(mode, f, o, reduces).1.Ok?
    ensures var r := Submit(mode, f, o, reduces);
            Agrees(ApplyAll(m, SubmitDeltas(r.0, o, r.1, sequence)), r.0) <==>
            (mode == CancelBoth ==> Reported(o, o.qty, f.At(o.side.Opposite())))
  {
    hide Reported;
    ShownIff(mode, f, o);
    AcceptedWalk(mode, f, o, reduces);
    var r, w := Submit(mode, f, o, reduces), WalkOf(mode, f, o);
    var m', opp := ApplyAll(m, SubmitDeltas(r.0, o, r.1, sequence)), o.side.Opposite();
    forall side, price
      ensures AgreesAt(m', r.0, side, price) <==>
              (side == opp && !HasFillAt(w.fills, price) ==> WithdrawnAt(mode, o, f.At(opp)[..w.n], price) == 0.0)
    {
      assert AgreesAt(m, f, side, price);
      AfterSubmit(m, r.0, o, r.1.outcome, sequence, side, price);
      SubmitLevel(mode, f, o, reduces, side, price);
      if SameAt(m, m', side, price) { SameStillAgrees(m, m', f, r.0, side, price); }
      if !HasFillAt(w.fills, price) { FilledAtNone(w.fills, price); }
    }
    if Agrees(m', r.0) {
      forall price | !HasFillAt(w.fills, price) ensures WithdrawnAt(mode, o, f.At(opp)[..w.n], price) == 0.0 {
        assert AgreesAt(m', r.0, opp, price);
      }
    }
  }

  lemma {:induction false} FillsNonNegative(mode: SelfTradeMode, taker: Order, left: real, book: seq<Order>, next: nat)
    requires NonNegative(book)
    ensures AllFillsNonNegative(Walk(mode, taker, left, book, next).fills)
    decreases |book|
  {
    hide Walk;
    WalkStep(mode, taker, left, book, next);
    if book != [] {
      match Meet(mode, taker, left, book[0])
      case Stop =>
      case Reject =>
      case Withdraw => FillsNonNegative(mode, taker, left, book[1..], next);
      case Take(qty) =>
        FillsNonNegative(mode, taker, left - qty, book[1..], next + 1);
    }
  }

  predicate AllFillsNonNegative(fills: seq<Fill>) {
    forall k | 0 <= k < |fills| :: fills[k].qty >= 0.0
  }

  /** Nothing is filled in total exactly when nothing is filled at any price. */
  lemma {:induction false} NothingFilled(fills: seq<Fill>) returns (price: real)
    requires AllFillsNonNegative(fills)
    ensures SumFills(fills) >= 0.0 && forall p :: 0.0 <= FilledAt(fills, p) <= SumFills(fills)
    ensures SumFills(fills) > 0.0 ==> FilledAt(fills, price) > 0.0
  {
    price := 0.0;
    if fills != [] {
      var p := NothingFilled(fills[1..]);
      price := if fills[0].qty > 0.0 then fills[0].price else p;
    }
  }

  /** Broken off by an own order under `CancelNewest`: in step exactly when nothing stood before it. */
  lemma BrokenOffInStep(f: Flat, o: Order, reduces: bool, m: Mirror)
    requires Good(CancelNewest, f) && Agrees(m, f) && PreCheck(f, o, reduces) == None && WalkOf(CancelNewest, f, o).rejected
    ensures Agrees(m, Submit(CancelNewest, f, o, reduces).0) <==> Ahead(o, f.At(o.side.Opposite())) == 0.0
  {
    var mode, opp := CancelNewest, o.side.Opposite();
    var f', w := Submit(mode, f, o, reduces).0, WalkOf(mode, f, o);
    GoodIsNonNegative(mode, f, opp);
    FillsNonNegative(mode, o, o.qty, f.At(opp), f.nextFillId);
    RejectedTrades(o, o.qty, f.At(opp), f.nextFillId);
    var q := NothingFilled(w.fills);
    forall side, price
      ensures AgreesAt(m, f', side, price) <==> (side == opp ==> FilledAt(w.fills, price) == 0.0)
    {
      assert AgreesAt(m, f, side, price);
      SubmitLevel(mode, f, o, reduces, side, price);
      NoneWithdrawn(mode, o, f.At(opp)[..w.n], price);
      SameStillAgrees(m, m, f, f', side, price);
    }
    assert SumFills(w.fills) > 0.0 ==> !AgreesAt(m, f', opp, q);
  }

  /** Nothing rests in total exactly when nothing rests at any price. */
  lemma {:induction false} NothingResting(s: seq<Order>) returns (price: real)
    requires NonNegative(s)
    ensures SumRemaining(s) >= 0.0 && forall p :: 0.0 <= LevelQty(s, p) <= SumRemaining(s)
    ensures SumRemaining(s) > 0.0 ==> LevelQty(s, price) > 0.0
  {
    price := 0.0;
    if s != [] {
      var p := NothingResting(s[1..]);
      price := if s[0].remaining > 0.0 then s[0].price else p;
    }
  }

  lemma MarketEmpties(mode: SelfTradeMode, f: Flat, o: Order)
    requires Good(mode, f) && o.qty > 0.0 && o.orderType == Market && !WalkOf(mode, f, o).rejected && WalkOf(mode, f, o).left > 0.0
    ensures Settle(WalkOf(mode, f, o)) == []
  {
    hide Walk;
    CrossedClears(mode, f, o);
    var s := Settle(WalkOf(mode, f, o));
    assert |s| > 0 ==> !o.Crosses(s[0].price);
  }

  /** A market order that runs out of liquidity has emptied the other side, its own orders
      included: in step exactly when there was nothing on it. */
  lemma RanDryInStep(mode: SelfTradeMode, f: Flat, o: Order, reduces: bool, m: Mirror)
    requires Good(mode, f) && Agrees(m, f) && PreCheck(f, o, reduces) == None
    requires o.orderType == Market && !WalkOf(mode, f, o).rejected && WalkOf(mode, f, o).left > 0.0
    ensures Agrees(m, Submit(mode, f, o, reduces).0) <==> SumRemaining(f.At(o.side.Opposite())) == 0.0
  {
    hide Walk, Good, LevelQty, SumRemaining;
    var opp := o.side.Opposite();
    var f', s := Submit(mode, f, o, reduces).0, f.At(opp);
    SubmitLists(mode, f, o, reduces);
    MarketEmpties(mode, f, o);
    GoodIsNonNegative(mode, f, opp);
    var q := NothingResting(s);
    forall side, price
      ensures AgreesAt(m, f', side, price) <==> (side == opp ==> LevelQty(s, price) == 0.0)
    {
      assert AgreesAt(m, f, side, price);
      NothingAt(price);
      SameStillAgrees(m, m, f, f', side, price);
    }
    assert SumRemaining(s) > 0.0 ==> !AgreesAt(m, f', opp, q);
  }

  lemma NothingAt(price: real)
    ensures LevelQty([], price) == 0.0
  {}

  /** A submit that gets as far as crossing and is then rejected has taken nothing off the book. */
  predicate Untouched(mode: SelfTradeMode, o: Order, opp: seq<Order>) {
    if mode == CancelNewest && MeetsOwn(o, o.qty, opp) then Ahead(o, opp) == 0.0 else SumRemaining(opp) == 0.0
  }

  /** A rejected submit emits nothing. In every mode it stays in step exactly when it failed up
      front, or there was nothing for it to take. */
  lemma RejectedInStep(mode: SelfTradeMode, f: Flat, o: Order, reduces: bool, m: Mirror)
    requires Good(mode, f) && Agrees(m, f) && Submit(mode, f, o, reduces).1.Err?
    ensures Agrees(m, Submit(mode, f, o, reduces).0) <==>
            (PreCheck(f, o, reduces).Some? || Untouched(mode, o, f.At(o.side.Opposite())))
  {
    hide Walk, Good, Agrees, MeetsOwn, Ahead, SumRemaining;
    if PreCheck(f, o, reduces) == None {
      var opp := o.side.Opposite();
      RejectedEffect(mode, f, o, reduces);
      GoodIsNonNegative(mode, f, opp);
      RejectedIff(mode, o, o.qty, f.At(opp), f.nextFillId);
      if WalkOf(mode, f, o).rejected {
        BrokenOffInStep(f, o, reduces, m);
      } else {
        RanDryInStep(mode, f, o, reduces, m);
      }
    }
  }

  /** A successful cancel emits nothing, so it always puts the mirror out of step. */
  lemma CancelOutOfStep(mode: SelfTradeMode, f: Flat, id: OrderId, m: Mirror)
    requires Good(mode, f) && Agrees(m, f)
    ensures Agrees(m, Cancel(f, id).0) <==> id !in f.byId
  {
    if id in f.byId {
      var side, f' := f.byId[id], Cancel(f, id).0;
      var s := f.At(side);
      GoodParts(mode, f, side);
      assert Live(s, id);
      var k :| 0 <= k < |s| && s[k].id == id && s[k].remaining > 0.0;
      RemoveLevel(s, k, id);
      assert AgreesAt(m, f, side, s[k].price);
      SameStillAgrees(m, m, f, f', side, s[k].price);
      assert !AgreesAt(m, f', side, s[k].price);
    }
  }

  /** The commands that keep a subscriber in step, decided on book and command alone: accepted
      submits that report every withdrawal, rejected submits that take nothing, and cancels of
      orders that are not there. */
  predicate InStep(mode: SelfTradeMode, f: Flat, c: Command) {
    match c
    case Place(o, reduces) =>
      var opp := f.At(o.side.Opposite());
      if Accepts(mode, f, o, reduces) then mode == CancelBoth ==> Reported(o, o.qty, opp)
      else PreCheck(f, o, reduces).Some? || Untouched(mode, o, opp)
    case Withdrawal(id) => id !in f.byId
  }

  /** In every mode, a subscriber in agreement stays so exactly after these. */
  lemma StepInStep(mode: SelfTradeMode, f: Flat, c: Command, m: Mirror, sequence: nat)
    requires Good(mode, f) && Agrees(m, f)
    ensures Agrees(ApplyAll(m, Emitted(mode, f, c, sequence)), Step(mode, f, c)) <==> InStep(mode, f, c)
  {
    hide Walk, Good, Agrees, Accepts, Reported, Untouched;
    match c
    case Place(o, reduces) =>
      AcceptedIff(mode, f, o, reduces);
      if Submit(mode, f, o, reduces).1.Ok? {
        AcceptedInStep(mode, f, o, reduces, m, sequence);
      } else {
        RejectedInStep(mode, f, o, reduces, m);
      }
    case Withdrawal(id) => CancelOutOfStep(mode, f, id, m);
  }

  // ---- Whole runs ----------------------------------------------------------------------

  /** Numbers run on without a gap. */
  predicate Numbered(ds: seq<Delta>, first: nat) {
    forall i | 0 <= i < |ds| :: ds[i].sequence == first + i
  }

  lemma {:induction false} FillDeltasNumbered(f: Flat, side: Side, fills: seq<Fill>, sequence: nat)
    ensures Numbered(FillDeltas(f, side, fills, sequence), sequence + 1)
  {
    if fills != [] { FillDeltasNumbered(f, side, fills[1..], sequence + 1); }
  }

  lemma EmittedNumbered(mode: SelfTradeMode, f: Flat, c: Command, sequence: nat)
    ensures Numbered(Emitted(mode, f, c, sequence), sequence + 1)
  {
    if c.Place? {
      var r := Submit(mode, f, c.order, c.reduces);
      if r.1.Ok? { FillDeltasNumbered(r.0, c.order.side.Opposite(), r.1.outcome.fills, sequence); }
    }
  }

  lemma {:induction false} FillDeltasAt(f: Flat, side: Side, fills: seq<Fill>, sequence: nat, k: nat)
    requires k < |fills|
    ensures FillDeltas(f, side, fills, sequence)[k] == Delta(sequence + 1 + k, side, fills[k].price, LevelQty(f.At(side), fills[k].price))
  {
    if k > 0 { FillDeltasAt(f, side, fills[1..], sequence + 1, k - 1); }
  }

  /** What a submit emits: rejected, nothing; accepted, one delta per fill with the maker's level as the
      submit leaves it, and one more for the order's own level if it rests. */
  lemma EmittedExact(mode: SelfTradeMode, f: Flat, o: Order, reduces: bool, sequence: nat)
    ensures var (f', r) := Submit(mode, f, o, reduces);
            var ds := Emitted(mode, f, Place(o, reduces), sequence);
            if r.Err? then ds == [] else
            var fills, maker := r.outcome.fills, o.side.Opposite();
            && |ds| == |fills| + (if r.outcome.resting.Some? then 1 else 0)
            && (forall k | 0 <= k < |fills| :: ds[k] == Delta(sequence + 1 + k, maker, fills[k].price, LevelQty(f'.At(maker), fills[k].price)))
            && (r.outcome.resting.Some? ==> ds[|fills|] == Delta(sequence + 1 + |fills|, o.side, o.price, LevelQty(f'.At(o.side), o.price)))
  {
    hide Submit, LevelQty, FillDeltas;
    var r := Submit(mode, f, o, reduces);
    if r.1.Ok? {
      forall k | 0 <= k < |r.1.outcome.fills|
        ensures FillDeltas(r.0, o.side.Opposite(), r.1.outcome.fills, sequence)[k] ==
                Delta(sequence + 1 + k, o.side.Opposite(), r.1.outcome.fills[k].price, LevelQty(r.0.At(o.side.Opposite()), r.1.outcome.fills[k].price))
      {
        FillDeltasAt(r.0, o.side.Opposite(), r.1.outcome.fills, sequence, k);
      }
    }
  }

  /** In every run, whatever it does, the emitted deltas are numbered 1, 2, 3 and so on. */
  lemma {:induction false} StreamNumbered(mode: SelfTradeMode, cs: seq<Command>)
    ensures Numbered(Stream(mode, cs), 1)
  {
    if cs != [] {
      var before := cs[..|cs| - 1];
      StreamNumbered(mode, before);
      EmittedNumbered(mode, Run(mode, before), cs[|cs| - 1], |Stream(mode, before)|);
    }
  }

  ghost predicate AllInStep(mode: SelfTradeMode, cs: seq<Command>) {
    forall k | 0 <= k < |cs| :: InStep(mode, Run(mode, cs[..k]), cs[k])
  }

  /** Main result: after a run of such commands, folding the stream into an empty map gives the
      quantity of every level on both sides. */
  lemma {:induction false} ReplayAgrees(mode: SelfTradeMode, cs: seq<Command>)
    requires FreshIds(cs) && AllInStep(mode, cs)
    ensures Agrees(ApplyAll(map[], Stream(mode, cs)), Run(mode, cs))
  {
    if cs != [] {
      var n := |cs| - 1;
      var before := cs[..n];
      assert AllInStep(mode, before) by {
        forall k | 0 <= k < n ensures InStep(mode, Run(mode, before[..k]), before[k]) { assert before[..k] == cs[..k]; }
      }
      ReplayAgrees(mode, before);
      RunIsGood(mode, before);
      var f, sent := Run(mode, before), Stream(mode, before);
      StepInStep(mode, f, cs[n], ApplyAll(map[], sent), |sent|);
      ApplyAllConcat(map[], sent, Emitted(mode, f, cs[n], |sent|));
    }
  }
}
