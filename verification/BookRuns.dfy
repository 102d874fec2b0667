/**
 What every run of submits and cancels keeps. `Good` is the invariant; `RunIsGood` shows that
 it holds after every run with fresh ids, in all three self-trade modes and counting rejected
 submits, whose partial effects stay in the book.
 */
module BookRuns {
  import opened OrderTypes
  import opened FlatBook

  // ---- The invariant -------------------------------------------------------------------

  predicate OrderOk(mode: SelfTradeMode, side: Side, o: Order) {
    && o.side == side && o.orderType == Limit && o.price > 0.0
    && o.remaining >= 0.0 && (mode != CancelNewest ==> o.remaining > 0.0)
  }

  predicate SideOk(mode: SelfTradeMode, side: Side, s: seq<Order>) {
    forall i | 0 <= i < |s| :: OrderOk(mode, side, s[i])
  }

  predicate Sorted(side: Side, s: seq<Order>) {
    forall i, j | 0 <= i < j < |s| :: Key(side, s[i].price) <= Key(side, s[j].price)
  }

  predicate UniqueIds(s: seq<Order>) {
    forall i, j | 0 <= i < j < |s| :: s[i].id != s[j].id
  }

  predicate DisjointIds(s: seq<Order>, t: seq<Order>) {
    forall i, j | 0 <= i < |s| && 0 <= j < |t| :: s[i].id != t[j].id
  }

  predicate Uncrossed(bids: seq<Order>, asks: seq<Order>) {
    forall i, j | 0 <= i < |bids| && 0 <= j < |asks| :: bids[i].price < asks[j].price
  }

  /** Some order of `s` with quantity left has this id. */
  predicate Live(s: seq<Order>, id: OrderId) {
    exists i :: 0 <= i < |s| && s[i].id == id && s[i].remaining > 0.0
  }

  /** Every order of `s` with quantity left is indexed, on its own side. */
  predicate Covered(side: Side, s: seq<Order>, byId: map<OrderId, Side>) {
    forall i | 0 <= i < |s| && s[i].remaining > 0.0 :: s[i].id in byId && byId[s[i].id] == side
  }

  predicate SideGood(mode: SelfTradeMode, side: Side, s: seq<Order>, byId: map<OrderId, Side>) {
    SideOk(mode, side, s) && Sorted(side, s) && UniqueIds(s) && Covered(side, s, byId)
  }

  predicate Good(mode: SelfTradeMode, f: Flat) {
    && SideGood(mode, Buy, f.bids, f.byId) && SideGood(mode, Sell, f.asks, f.byId)
    && DisjointIds(f.bids, f.asks) && Uncrossed(f.bids, f.asks)
    && forall id | id in f.byId :: Live(f.At(f.byId[id]), id)
  }

  /** `s` rests on `side` and `t` opposite, and they do not cross. */
  predicate Apart(side: Side, s: seq<Order>, t: seq<Order>) {
    if side == Buy then Uncrossed(s, t) else Uncrossed(t, s)
  }

  predicate Indexed(side: Side, s: seq<Order>, t: seq<Order>, byId: map<OrderId, Side>) {
    forall id | id in byId :: if byId[id] == side then Live(s, id) else Live(t, id)
  }

  /** The invariant seen from one side, whichever it is. */
  predicate GoodPair(mode: SelfTradeMode, side: Side, s: seq<Order>, t: seq<Order>, byId: map<OrderId, Side>) {
    && SideGood(mode, side, s, byId) && SideGood(mode, side.Opposite(), t, byId)
    && DisjointIds(s, t) && Apart(side, s, t) && Indexed(side, s, t, byId)
  }

  lemma GoodParts(mode: SelfTradeMode, f: Flat, side: Side)
    requires Good(mode, f)
    ensures GoodPair(mode, side, f.At(side), f.At(side.Opposite()), f.byId)
  {}

  lemma GoodMade(mode: SelfTradeMode, f: Flat, side: Side)
    requires GoodPair(mode, side, f.At(side), f.At(side.Opposite()), f.byId)
    ensures Good(mode, f)
  {}

  predicate Fresh(f: Flat, id: OrderId) {
    (forall i | 0 <= i < |f.bids| :: f.bids[i].id != id) && (forall i | 0 <= i < |f.asks| :: f.asks[i].id != id)
  }

  // ---- The shape of a walk -------------------------------------------------------------

  /** The same order, up to what remains of it. */
  predicate Same(a: Order, b: Order) {
    a == b.(remaining := a.remaining)
  }

  predicate NonNegative(s: seq<Order>) {
    forall i | 0 <= i < |s| :: s[i].remaining >= 0.0
  }

  /** What a walk may do to entry `i` of the list. */
  predicate Touched(mode: SelfTradeMode, taker: Order, w: Walked, book: seq<Order>, i: nat)
    requires |w.raw| == |book| && i < |book|
  {
    && Same(w.raw[i], book[i])
    && (i < w.n ==> if w.raw[i].owner == taker.owner && mode == CancelBoth then w.raw[i] == book[i] else w.raw[i].remaining == 0.0)
    && (i == w.n ==> 0.0 <= w.raw[i].remaining <= book[i].remaining && (book[i].remaining > 0.0 ==> w.raw[i].remaining > 0.0))
    && (i > w.n ==> w.raw[i] == book[i])
  }

  lemma {:induction false} WalkShape(mode: SelfTradeMode, taker: Order, left: real, book: seq<Order>, next: nat)
    requires NonNegative(book) && left >= 0.0
    ensures var w := Walk(mode, taker, left, book, next);
            w.left >= 0.0 && forall i | 0 <= i < |book| :: Touched(mode, taker, w, book, i)
    decreases |book|
  {
    hide Walk;
    WalkStep(mode, taker, left, book, next);
    if book != [] {
      var w := Walk(mode, taker, left, book, next);
      match Meet(mode, taker, left, book[0])
      case Stop =>
      case Reject =>
      case Withdraw =>
        assert w.raw[0] == book[0];
        WalkShape(mode, taker, left, book[1..], next);
        ShapeStep(mode, taker, w, Walk(mode, taker, left, book[1..], next), book);
      case Take(qty) =>
        assert w.raw[0] == Reduced(book[0], qty);
        if Reduced(book[0], qty).remaining == 0.0 {
          WalkShape(mode, taker, left - qty, book[1..], next + 1);
          ShapeStep(mode, taker, w, Walk(mode, taker, left - qty, book[1..], next + 1), book);
        }
    }
  }

  lemma ShapeStep(mode: SelfTradeMode, taker: Order, w: Walked, v: Walked, book: seq<Order>)
    requires book != [] && |w.raw| == |book| && |v.raw| == |book| - 1
    requires w.raw[1..] == v.raw && w.n == v.n + 1
    requires forall i | 0 <= i < |book| - 1 :: Touched(mode, taker, v, book[1..], i)
    ensures forall i | 1 <= i < |book| :: Touched(mode, taker, w, book, i)
  {
    forall i | 1 <= i < |book| ensures Touched(mode, taker, w, book, i) {
      assert Touched(mode, taker, v, book[1..], i - 1);
      assert w.raw[i] == v.raw[i - 1];
    }
  }

  lemma {:induction false} WalkStops(mode: SelfTradeMode, taker: Order, left: real, book: seq<Order>, next: nat)
    ensures var w := Walk(mode, taker, left, book, next);
            !w.rejected && w.n < |book| && w.left > 0.0 ==> !taker.Crosses(book[w.n].price)
    decreases |book|
  {
    hide Walk;
    WalkStep(mode, taker, left, book, next);
    if book != [] {
      match Meet(mode, taker, left, book[0])
      case Stop =>
      case Reject =>
      case Withdraw => WalkStops(mode, taker, left, book[1..], next);
      case Take(qty) => WalkStops(mode, taker, left - qty, book[1..], next + 1);
    }
  }

  /** In a sorted list whose prices are no worse than `price`, the entries at `price` come last. */
  lemma {:induction false} AtPriceIsLast(side: Side, s: seq<Order>, price: real)
    requires Sorted(side, s) && forall i | 0 <= i < |s| :: Key(side, s[i].price) <= Key(side, price)
    ensures var k := |s| - |AtPrice(s, price)|; 0 <= k && AtPrice(s, price) == s[k..]
  {
    if s != [] {
      if s[0].price == price {
        assert AllAt(s, price);
        AtPriceUniform(s, price);
      } else {
        AtPriceIsLast(side, s[1..], price);
      }
    }
  }

  lemma SettleIsSuffix(side: Side, w: Walked)
    requires w.n <= |w.raw| && (w.rejected ==> w.n < |w.raw|) && Sorted(side, w.raw)
    ensures var k := |w.raw| - |Settle(w)|;
            0 <= k <= w.n && Settle(w) == w.raw[k..] && (!w.rejected ==> k == w.n)
  {
    if w.rejected {
      var a, p := w.raw[..w.n], w.raw[w.n].price;
      AtPriceIsLast(side, a, p);
      var k := |a| - |AtPrice(a, p)|;
      assert a[k..] + w.raw[w.n..] == w.raw[k..];
    }
  }

  // ---- Crossing keeps the invariant ----------------------------------------------------

  /** What is left of one side after a walk: a suffix of the old list, entry for entry the same
      orders, those before the stopping point with nothing remaining. */
  predicate Suffix(mode: SelfTradeMode, w: Walked, s: seq<Order>, s': seq<Order>) {
    && |w.raw| == |s| && w.n <= |s| && |s| - w.n <= |s'| <= |s|
    && forall i | 0 <= i < |s'| :: SuffixAt(mode, w, s, s', i)
  }

  predicate SuffixAt(mode: SelfTradeMode, w: Walked, s: seq<Order>, s': seq<Order>, i: nat)
    requires i < |s'| <= |s|
  {
    var k := |s| - |s'|;
    && Same(s'[i], s[k + i])
    && 0.0 <= s'[i].remaining <= s[k + i].remaining
    && (k + i < w.n ==> mode == CancelNewest && s'[i].remaining == 0.0)
    && (k + i >= w.n ==> (s'[i].remaining > 0.0 <==> s[k + i].remaining > 0.0))
  }

  lemma CrossedSide(mode: SelfTradeMode, taker: Order, left: real, s: seq<Order>, next: nat)
    requires NonNegative(s) && left >= 0.0 && Sorted(taker.side.Opposite(), s)
    ensures var w := Walk(mode, taker, left, s, next);
            Suffix(mode, w, s, Settle(w)) && (forall i | 0 <= i < w.n :: w.raw[i].id == s[i].id)
  {
    WalkShape(mode, taker, left, s, next);
    TouchedToSuffix(mode, taker, Walk(mode, taker, left, s, next), s);
  }

  lemma TouchedToSuffix(mode: SelfTradeMode, taker: Order, w: Walked, s: seq<Order>)
    requires |w.raw| == |s| && w.n <= |s| && (w.rejected ==> w.n < |s| && mode == CancelNewest)
    requires Sorted(taker.side.Opposite(), s) && NonNegative(s)
    requires forall i | 0 <= i < |s| :: Touched(mode, taker, w, s, i)
    ensures Suffix(mode, w, s, Settle(w)) && (forall i | 0 <= i < w.n :: w.raw[i].id == s[i].id)
  {
    forall i | 0 <= i < |s| ensures Same(w.raw[i], s[i]) { assert Touched(mode, taker, w, s, i); }
    SettleIsSuffix(taker.side.Opposite(), w);
    var s' := Settle(w);
    forall i | 0 <= i < |s'| ensures SuffixAt(mode, w, s, s', i) {
      assert Touched(mode, taker, w, s, |s| - |s'| + i);
    }
  }

  /** The index after a walk has dropped the ids of the first `w.n` entries of the other side. */
  lemma SideKept(mode: SelfTradeMode, side: Side, w: Walked, s: seq<Order>, s': seq<Order>,
                 byId: map<OrderId, Side>, byId': map<OrderId, Side>)
    requires SideGood(mode, side, s, byId) && Suffix(mode, w, s, s')
    requires forall i | 0 <= i < w.n :: w.raw[i].id == s[i].id
    requires byId' == byId - Ids(w.raw[..w.n])
    ensures SideGood(mode, side, s', byId')
    ensures forall i | 0 <= i < |s'| :: Same(s'[i], s[|s| - |s'| + i])
    ensures forall id | id in byId' && Live(s, id) :: Live(s', id)
  {
    var k := |s| - |s'|;
    forall i | 0 <= i < |s'|
      ensures OrderOk(mode, side, s'[i]) && Same(s'[i], s[k + i])
      ensures s'[i].remaining > 0.0 ==> s'[i].id in byId' && byId'[s'[i].id] == side
    {
      assert SuffixAt(mode, w, s, s', i) && OrderOk(mode, side, s[k + i]);
    }
    forall id | id in byId' && Live(s, id) ensures Live(s', id) {
      var i :| 0 <= i < |s| && s[i].id == id && s[i].remaining > 0.0;
      assert SuffixAt(mode, w, s, s', i - k) && s'[i - k].id == id;
    }
  }

  lemma OtherSideKept(mode: SelfTradeMode, side: Side, t: seq<Order>, s: seq<Order>, w: Walked,
                      byId: map<OrderId, Side>, byId': map<OrderId, Side>)
    requires SideGood(mode, side, t, byId) && w.n <= |w.raw| == |s|
    requires DisjointIds(s, t) && forall i | 0 <= i < w.n :: w.raw[i].id == s[i].id
    requires byId' == byId - Ids(w.raw[..w.n])
    ensures SideGood(mode, side, t, byId')
  {
    forall i | 0 <= i < |t| ensures t[i].id !in Ids(w.raw[..w.n]) {}
  }

  /** The two lists keep their distance: `s'` holds only orders of `s`. */
  lemma ApartKept(side: Side, s: seq<Order>, s': seq<Order>, t: seq<Order>)
    requires |s'| <= |s| && forall i | 0 <= i < |s'| :: Same(s'[i], s[|s| - |s'| + i])
    requires DisjointIds(s, t) && Apart(side, s, t)
    ensures DisjointIds(s', t) && Apart(side, s', t)
  {}

  /** Taking a walk's effect on one side into the book keeps it good. */
  lemma PairAfter(mode: SelfTradeMode, side: Side, s: seq<Order>, t: seq<Order>, byId: map<OrderId, Side>, w: Walked, s': seq<Order>)
    requires GoodPair(mode, side, s, t, byId) && Suffix(mode, w, s, s')
    requires forall i | 0 <= i < w.n :: w.raw[i].id == s[i].id
    ensures GoodPair(mode, side, s', t, byId - Ids(w.raw[..w.n]))
  {
    var byId' := byId - Ids(w.raw[..w.n]);
    SideKept(mode, side, w, s, s', byId, byId');
    OtherSideKept(mode, side.Opposite(), t, s, w, byId, byId');
    ApartKept(side, s, s', t);
  }

  lemma CrossedKeepsGood(mode: SelfTradeMode, f: Flat, o: Order)
    requires Good(mode, f) && o.qty > 0.0
    ensures Suffix(mode, WalkOf(mode, f, o), f.At(o.side.Opposite()), Settle(WalkOf(mode, f, o)))
    ensures Good(mode, Crossed(mode, f, o))
  {
    hide Walk, Settle, Suffix, SideGood, Indexed, Apart, DisjointIds;
    var side, w := o.side.Opposite(), WalkOf(mode, f, o);
    var s := f.At(side);
    GoodParts(mode, f, side);
    SideNonNegative(mode, side, s, f.byId);
    CrossedSide(mode, o, o.qty, s, f.nextFillId);
    PairAfter(mode, side, s, f.At(o.side), f.byId, w, Settle(w));
    GoodMade(mode, Crossed(mode, f, o), side);
  }

  lemma SideNonNegative(mode: SelfTradeMode, side: Side, s: seq<Order>, byId: map<OrderId, Side>)
    requires SideGood(mode, side, s, byId)
    ensures NonNegative(s) && Sorted(side, s)
  {
    forall i | 0 <= i < |s| ensures s[i].remaining >= 0.0 { assert OrderOk(mode, side, s[i]); }
  }

  /** After an accepted walk that leaves some quantity over, nothing on the other side crosses. */
  lemma CrossedClears(mode: SelfTradeMode, f: Flat, o: Order)
    requires Good(mode, f) && o.qty > 0.0
    requires !WalkOf(mode, f, o).rejected && WalkOf(mode, f, o).left > 0.0
    ensures NoneCross(o, Settle(WalkOf(mode, f, o)))
  {
    var side := o.side.Opposite();
    var s, w := f.At(side), WalkOf(mode, f, o);
    WalkStops(mode, o, o.qty, s, f.nextFillId);
    CrossedKeepsGood(mode, f, o);
    TailNotCrossed(mode, o, w, s, Settle(w));
  }

  predicate NoneCross(o: Order, s: seq<Order>) {
    forall i | 0 <= i < |s| :: !o.Crosses(s[i].price)
  }

  lemma TailNotCrossed(mode: SelfTradeMode, o: Order, w: Walked, s: seq<Order>, s': seq<Order>)
    requires Suffix(mode, w, s, s') && |s'| == |s| - w.n && Sorted(o.side.Opposite(), s)
    requires w.n < |s| ==> !o.Crosses(s[w.n].price)
    ensures NoneCross(o, s')
  {
    forall i | 0 <= i < |s'| ensures !o.Crosses(s'[i].price) {
      assert SuffixAt(mode, w, s, s', i);
    }
  }

  // ---- Resting and cancelling keep the invariant ---------------------------------------

  /** `s'` is `s` with `o` put in at `k`. */
  predicate Spliced(s: seq<Order>, s': seq<Order>, k: nat, o: Order) {
    && k <= |s| && |s'| == |s| + 1 && s'[k] == o
    && (forall i | 0 <= i < k :: s'[i] == s[i]) && (forall i | k < i < |s'| :: s'[i] == s[i - 1])
  }

  lemma SplicedCons(x: Order, s: seq<Order>, s': seq<Order>, k: nat, o: Order)
    requires Spliced(s, s', k, o)
    ensures Spliced([x] + s, [x] + s', k + 1, o)
  {}

  lemma SplicedFront(s: seq<Order>, o: Order)
    ensures Spliced(s, [o] + s, 0, o)
  {}

  lemma {:induction false} InsertAt(side: Side, s: seq<Order>, o: Order) returns (k: nat)
    requires Sorted(side, s)
    ensures Spliced(s, Insert(side, s, o), k, o)
    ensures forall i | 0 <= i < k :: Key(side, s[i].price) <= Key(side, o.price)
    ensures forall i | k <= i < |s| :: Key(side, o.price) < Key(side, s[i].price)
  {
    hide Spliced;
    if s == [] || Key(side, o.price) < Key(side, s[0].price) {
      k := 0;
      SplicedFront(s, o);
    } else {
      var j := InsertAt(side, s[1..], o);
      k := j + 1;
      SplicedCons(s[0], s[1..], Insert(side, s[1..], o), j, o);
      assert s == [s[0]] + s[1..];
      SplicedLength(s[1..], Insert(side, s[1..], o), j, o);
    }
  }

  lemma SplicedLength(s: seq<Order>, s': seq<Order>, k: nat, o: Order)
    requires Spliced(s, s', k, o)
    ensures k <= |s|
  {}

  lemma {:induction false} RemoveAt(s: seq<Order>, id: OrderId) returns (k: nat)
    requires Live(s, id)
    ensures k < |s| && s[k].id == id && Spliced(Remove(s, id), s, k, s[k])
  {
    hide Spliced;
    assert s == [s[0]] + s[1..];
    if s[0].id == id {
      k := 0;
      SplicedFront(s[1..], s[0]);
    } else {
      LiveTail(s, id);
      var j := RemoveAt(s[1..], id);
      k := j + 1;
      SplicedCons(s[0], Remove(s[1..], id), s[1..], j, s[k]);
    }
  }

  lemma LiveTail(s: seq<Order>, id: OrderId)
    requires Live(s, id) && s[0].id != id
    ensures Live(s[1..], id)
  {
    var i :| 0 <= i < |s| && s[i].id == id && s[i].remaining > 0.0;
    assert s[1..][i - 1] == s[i];
  }

  lemma SplicedGood(mode: SelfTradeMode, side: Side, s: seq<Order>, s': seq<Order>, k: nat, o: Order, byId: map<OrderId, Side>)
    requires Spliced(s, s', k, o) && SideGood(mode, side, s, byId) && OrderOk(mode, side, o)
    requires forall i | 0 <= i < |s| :: s[i].id != o.id
    requires forall i | 0 <= i < k :: Key(side, s[i].price) <= Key(side, o.price)
    requires forall i | k <= i < |s| :: Key(side, o.price) < Key(side, s[i].price)
    ensures SideGood(mode, side, s', byId[o.id := side])
  {
    forall i | 0 <= i < |s'| ensures OrderOk(mode, side, s'[i]) {}
    forall i, j | 0 <= i < j < |s'|
      ensures Key(side, s'[i].price) <= Key(side, s'[j].price) && s'[i].id != s'[j].id
    {
      if j < k {
      } else if j == k {
      } else if i == k {
      } else {
        assert s'[j] == s[j - 1] && (i < k ==> s'[i] == s[i]);
      }
    }
  }

  lemma SplicedMembers(s: seq<Order>, s': seq<Order>, k: nat, o: Order)
    requires Spliced(s, s', k, o)
    ensures forall i | 0 <= i < |s'| :: s'[i] == o || s'[i] in s
    ensures forall i | 0 <= i < |s| :: s[i] in s'
    ensures forall id | Live(s, id) :: Live(s', id)
    ensures o.remaining > 0.0 ==> Live(s', o.id)
    ensures forall id | Live(s', id) && id != o.id :: Live(s, id)
  {
    forall i | 0 <= i < |s| ensures s'[if i < k then i else i + 1] == s[i] {}
    forall id | Live(s, id) ensures Live(s', id) {
      var i :| 0 <= i < |s| && s[i].id == id && s[i].remaining > 0.0;
      assert s'[if i < k then i else i + 1] == s[i];
    }
    forall id | Live(s', id) && id != o.id ensures Live(s, id) {
      var i :| 0 <= i < |s'| && s'[i].id == id && s'[i].remaining > 0.0;
      assert s'[i] == s[if i < k then i else i - 1];
    }
  }

  lemma InsertGood(mode: SelfTradeMode, side: Side, s: seq<Order>, o: Order, byId: map<OrderId, Side>)
    requires SideGood(mode, side, s, byId) && OrderOk(mode, side, o) && o.remaining > 0.0
    requires forall i | 0 <= i < |s| :: s[i].id != o.id
    ensures SideGood(mode, side, Insert(side, s, o), byId[o.id := side])
    ensures forall i | 0 <= i < |Insert(side, s, o)| :: Insert(side, s, o)[i] == o || Insert(side, s, o)[i] in s
    ensures forall id | Live(s, id) || id == o.id :: Live(Insert(side, s, o), id)
  {
    var k := InsertAt(side, s, o);
    SplicedGood(mode, side, s, Insert(side, s, o), k, o, byId);
    SplicedMembers(s, Insert(side, s, o), k, o);
  }

  lemma RestedKeepsGood(mode: SelfTradeMode, f: Flat, o: Order)
    requires Good(mode, f) && Fresh(f, o.id) && OrderOk(mode, o.side, o) && o.remaining > 0.0
    requires NoneCross(o, f.At(o.side.Opposite()))
    ensures Good(mode, Rested(f, o))
  {
    var s, t := f.At(o.side), f.At(o.side.Opposite());
    GoodParts(mode, f, o.side);
    InsertGood(mode, o.side, s, o, f.byId);
    PairWith(mode, s, t, f.byId, o, Insert(o.side, s, o));
    GoodMade(mode, Rested(f, o), o.side);
  }

  lemma PairWith(mode: SelfTradeMode, s: seq<Order>, t: seq<Order>, byId: map<OrderId, Side>, o: Order, s': seq<Order>)
    requires GoodPair(mode, o.side, s, t, byId) && o.orderType == Limit && NoneCross(o, t)
    requires forall i | 0 <= i < |t| :: t[i].id != o.id
    requires SideGood(mode, o.side, s', byId[o.id := o.side])
    requires forall i | 0 <= i < |s'| :: s'[i] == o || s'[i] in s
    requires forall id | Live(s, id) || id == o.id :: Live(s', id)
    ensures GoodPair(mode, o.side, s', t, byId[o.id := o.side])
  {
    InsertApart(s, s', t, o);
  }

  lemma InsertApart(s: seq<Order>, s': seq<Order>, t: seq<Order>, o: Order)
    requires forall i | 0 <= i < |s'| :: s'[i] == o || s'[i] in s
    requires forall j | 0 <= j < |t| :: t[j].id != o.id
    requires NoneCross(o, t) && o.orderType == Limit
    requires DisjointIds(s, t) && Apart(o.side, s, t)
    ensures DisjointIds(s', t) && Apart(o.side, s', t)
  {}

  lemma CutGood(mode: SelfTradeMode, side: Side, s: seq<Order>, s': seq<Order>, k: nat, o: Order, byId: map<OrderId, Side>)
    requires Spliced(s', s, k, o) && SideGood(mode, side, s, byId)
    ensures SideGood(mode, side, s', byId - {o.id})
  {
    forall i | 0 <= i < |s'| ensures s'[i] == s[if i < k then i else i + 1] {}
    forall i | 0 <= i < |s'| ensures OrderOk(mode, side, s'[i]) {}
    forall i, j | 0 <= i < j < |s'|
      ensures Key(side, s'[i].price) <= Key(side, s'[j].price) && s'[i].id != s'[j].id
    {}
  }

  lemma RemoveGood(mode: SelfTradeMode, side: Side, s: seq<Order>, id: OrderId, byId: map<OrderId, Side>)
    requires SideGood(mode, side, s, byId) && Live(s, id)
    ensures SideGood(mode, side, Remove(s, id), byId - {id})
    ensures forall i | 0 <= i < |Remove(s, id)| :: Remove(s, id)[i] in s
    ensures forall x | x != id && Live(s, x) :: Live(Remove(s, id), x)
  {
    var k := RemoveAt(s, id);
    CutGood(mode, side, s, Remove(s, id), k, s[k], byId);
    SplicedMembers(Remove(s, id), s, k, s[k]);
  }

  lemma RemoveApart(side: Side, s: seq<Order>, s': seq<Order>, t: seq<Order>)
    requires forall i | 0 <= i < |s'| :: s'[i] in s
    requires DisjointIds(s, t) && Apart(side, s, t)
    ensures DisjointIds(s', t) && Apart(side, s', t)
  {}

  lemma OtherStillGood(mode: SelfTradeMode, side: Side, s: seq<Order>, t: seq<Order>, byId: map<OrderId, Side>, id: OrderId)
    requires SideGood(mode, side, t, byId) && Live(s, id) && DisjointIds(s, t)
    ensures SideGood(mode, side, t, byId - {id})
  {
    var k :| 0 <= k < |s| && s[k].id == id && s[k].remaining > 0.0;
  }

  lemma CancelKeepsGood(mode: SelfTradeMode, f: Flat, id: OrderId)
    requires Good(mode, f)
    ensures Good(mode, Cancel(f, id).0)
  {
    if id in f.byId {
      var side := f.byId[id];
      GoodParts(mode, f, side);
      CancelPair(mode, side, f.At(side), f.At(side.Opposite()), f.byId, id);
      GoodMade(mode, Cancel(f, id).0, side);
    }
  }

  lemma CancelPair(mode: SelfTradeMode, side: Side, s: seq<Order>, t: seq<Order>, byId: map<OrderId, Side>, id: OrderId)
    requires GoodPair(mode, side, s, t, byId) && id in byId && byId[id] == side
    ensures GoodPair(mode, side, Remove(s, id), t, byId - {id})
  {
    assert Live(s, id);
    RemoveGood(mode, side, s, id, byId);
    PairWithout(mode, side, s, t, byId, id, Remove(s, id));
  }

  lemma PairWithout(mode: SelfTradeMode, side: Side, s: seq<Order>, t: seq<Order>, byId: map<OrderId, Side>, id: OrderId, s': seq<Order>)
    requires GoodPair(mode, side, s, t, byId) && Live(s, id)
    requires SideGood(mode, side, s', byId - {id})
    requires forall i | 0 <= i < |s'| :: s'[i] in s
    requires forall x | x != id && Live(s, x) :: Live(s', x)
    ensures GoodPair(mode, side, s', t, byId - {id})
  {
    RemoveApart(side, s, s', t);
    OtherStillGood(mode, side.Opposite(), s, t, byId, id);
  }

  // ---- Every run -----------------------------------------------------------------------

  datatype Command = Place(order: Order, reduces: bool) | Withdrawal(id: OrderId)

  function Step(mode: SelfTradeMode, f: Flat, c: Command): Flat {
    match c
    case Place(order, reduces) => Submit(mode, f, order, reduces).0
    case Withdrawal(id) => Cancel(f, id).0
  }

  function Run(mode: SelfTradeMode, cs: seq<Command>): Flat {
    if cs == [] then EMPTY else Step(mode, Run(mode, cs[..|cs| - 1]), cs[|cs| - 1])
  }

  /** No two submits use the same order id. */
  predicate FreshIds(cs: seq<Command>) {
    forall i, j | 0 <= i < j < |cs| && cs[i].Place? && cs[j].Place? :: cs[i].order.id != cs[j].order.id
  }

  function PlacedIds(cs: seq<Command>): set<OrderId> {
    set i | 0 <= i < |cs| && cs[i].Place? :: cs[i].order.id
  }

  predicate Within(f: Flat, ids: set<OrderId>) {
    (forall i | 0 <= i < |f.bids| :: f.bids[i].id in ids) && (forall i | 0 <= i < |f.asks| :: f.asks[i].id in ids)
  }

  lemma CrossedWithin(mode: SelfTradeMode, f: Flat, o: Order, ids: set<OrderId>)
    requires Good(mode, f) && o.qty > 0.0 && Within(f, ids)
    ensures Within(Crossed(mode, f, o), ids)
  {
    CrossedKeepsGood(mode, f, o);
    var s, w := f.At(o.side.Opposite()), WalkOf(mode, f, o);
    forall i | 0 <= i < |Settle(w)| ensures Settle(w)[i].id in ids {
      assert SuffixAt(mode, w, s, Settle(w), i);
    }
  }

  lemma RestedWithin(f: Flat, o: Order, ids: set<OrderId>)
    requires Within(f, ids) && Sorted(o.side, f.At(o.side))
    ensures Within(Rested(f, o), ids + {o.id})
  {
    var k := InsertAt(o.side, f.At(o.side), o);
    SplicedMembers(f.At(o.side), Insert(o.side, f.At(o.side), o), k, o);
  }

  lemma RestingKeepsGood(mode: SelfTradeMode, f: Flat, o: Order, ids: set<OrderId>)
    requires Good(mode, f) && Within(f, ids) && o.id !in ids
    requires o.qty > 0.0 && o.orderType == Limit && o.price > 0.0
    requires !WalkOf(mode, f, o).rejected && WalkOf(mode, f, o).left > 0.0
    ensures var f' := Rested(Crossed(mode, f, o), o.(remaining := WalkOf(mode, f, o).left));
            Good(mode, f') && Within(f', ids + {o.id})
  {
    var f1, o' := Crossed(mode, f, o), o.(remaining := WalkOf(mode, f, o).left);
    CrossedKeepsGood(mode, f, o);
    CrossedWithin(mode, f, o, ids);
    CrossedClears(mode, f, o);
    var t := f1.At(o.side.Opposite());
    forall i | 0 <= i < |t| ensures !o'.Crosses(t[i].price) { assert !o.Crosses(t[i].price); }
    RestedKeepsGood(mode, f1, o');
    RestedWithin(f1, o', ids);
  }

  lemma {:induction false} RemoveWithin(s: seq<Order>, id: OrderId, ids: set<OrderId>)
    requires forall i | 0 <= i < |s| :: s[i].id in ids
    ensures forall i | 0 <= i < |Remove(s, id)| :: Remove(s, id)[i].id in ids
  {
    if s != [] && s[0].id != id { RemoveWithin(s[1..], id, ids); }
  }

  lemma SubmitKeepsGood(mode: SelfTradeMode, f: Flat, o: Order, reduces: bool, ids: set<OrderId>)
    requires Good(mode, f) && Within(f, ids) && o.id !in ids
    ensures Good(mode, Submit(mode, f, o, reduces).0)
    ensures Within(Submit(mode, f, o, reduces).0, ids + {o.id})
  {
    var w, f1, f' := WalkOf(mode, f, o), Crossed(mode, f, o), Submit(mode, f, o, reduces).0;
    assert f' == f || (o.qty > 0.0 && f' == f1)
           || (o.qty > 0.0 && o.orderType == Limit && o.price > 0.0 && !w.rejected && w.left > 0.0
               && f' == Rested(f1, o.(remaining := w.left)));
    if f' == f {
    } else if f' == f1 {
      CrossedKeepsGood(mode, f, o);
      CrossedWithin(mode, f, o, ids);
    } else {
      RestingKeepsGood(mode, f, o, ids);
    }
  }

  lemma StepKeepsGood(mode: SelfTradeMode, f: Flat, c: Command, ids: set<OrderId>)
    requires Good(mode, f) && Within(f, ids) && (c.Place? ==> c.order.id !in ids)
    ensures Good(mode, Step(mode, f, c))
    ensures Within(Step(mode, f, c), if c.Place? then ids + {c.order.id} else ids)
  {
    match c
    case Place(o, reduces) => SubmitKeepsGood(mode, f, o, reduces, ids);
    case Withdrawal(id) =>
      CancelKeepsGood(mode, f, id);
      RemoveWithin(f.bids, id, ids);
      RemoveWithin(f.asks, id, ids);
  }

  /** Main result: the invariant holds after every run. */
  lemma {:induction false} RunIsGood(mode: SelfTradeMode, cs: seq<Command>)
    requires FreshIds(cs)
    ensures Good(mode, Run(mode, cs)) && Within(Run(mode, cs), PlacedIds(cs))
  {
    if cs != [] {
      var n := |cs| - 1;
      RunIsGood(mode, cs[..n]);
      var ids := PlacedIds(cs[..n]);
      assert PlacedIds(cs) == if cs[n].Place? then ids + {cs[n].order.id} else ids by {
        forall i | 0 <= i < n ensures cs[..n][i] == cs[i] {}
      }
      StepKeepsGood(mode, Run(mode, cs[..n]), cs[n], ids);
    }
  }
}
