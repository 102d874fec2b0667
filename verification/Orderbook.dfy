/**
 The matching engine's book as it is stored: per side a ladder of price levels, best price
 first, each holding a queue of orders; beside them an index from order id to side.
 Every operation is proved to act on the flattened book as the simple form does.
 */
module Orderbook {
  import opened OrderTypes
  import opened FlatBook

  datatype Level = Level(price: real, queue: seq<Order>)

  function Flatten(levels: seq<Level>): seq<Order> {
    if levels == [] then [] else levels[0].queue + Flatten(levels[1..])
  }

  predicate LevelOk(l: Level) {
    l.queue != [] && AllAt(l.queue, l.price)
  }

  /** No level is empty, every order sits at the level of its own price, and the levels
      strictly worsen. */
  ghost predicate Ladder(side: Side, levels: seq<Level>) {
    && (forall i | 0 <= i < |levels| :: LevelOk(levels[i]))
    && (forall i, j | 0 <= i < j < |levels| :: Key(side, levels[i].price) < Key(side, levels[j].price))
  }

  lemma LadderTail(side: Side, levels: seq<Level>)
    requires Ladder(side, levels) && levels != []
    ensures Ladder(side, levels[1..])
    ensures forall k | 0 <= k < |levels| - 1 :: levels[1..][k].price != levels[0].price
    ensures forall q | LevelOk(Level(levels[0].price, q)) :: Ladder(side, [Level(levels[0].price, q)] + levels[1..])
  {}

  // ---- The walk in the form the loops run it -------------------------------------------

  /** The walk with the fills and the used-up entries so far carried along. */
  function Drive(mode: SelfTradeMode, taker: Order, next: nat,
                 fills: seq<Fill>, done: seq<Order>, left: real, rest: seq<Order>): Walked
    decreases |rest|
  {
    if rest == [] then Walked(fills, done, |done|, left, false) else
    match Meet(mode, taker, left, rest[0])
    case Stop => Walked(fills, done + rest, |done|, left, false)
    case Reject => Walked(fills, done + rest, |done|, left, true)
    case Withdraw => Drive(mode, taker, next, fills, done + [rest[0]], left, rest[1..])
    case Take(qty) =>
      var hit, fill := Reduced(rest[0], qty), FillOf(taker, rest[0], qty, next + |fills| + 1);
      if hit.remaining == 0.0 then Drive(mode, taker, next, fills + [fill], done + [hit], left - qty, rest[1..])
      else Walked(fills + [fill], done + [hit] + rest[1..], |done|, left - qty, false)
  }

  lemma {:induction false} DriveIsWalk(mode: SelfTradeMode, taker: Order, next: nat,
                                       fills: seq<Fill>, done: seq<Order>, left: real, rest: seq<Order>)
    ensures Drive(mode, taker, next, fills, done, left, rest) ==
            Extend(fills, done, Walk(mode, taker, left, rest, next + |fills|))
    decreases |rest|
  {
    hide Walk, Extend;
    WalkStep(mode, taker, left, rest, next + |fills|);
    if rest == [] || Meet(mode, taker, left, rest[0]) == Stop || Meet(mode, taker, left, rest[0]) == Reject {
      ExtendStopped(fills, done, rest, left, rest != [] && Meet(mode, taker, left, rest[0]) == Reject);
    } else {
      match Meet(mode, taker, left, rest[0])
      case Withdraw =>
        DriveIsWalk(mode, taker, next, fills, done + [rest[0]], left, rest[1..]);
        ExtendPast(fills, done, [], rest[0], Walk(mode, taker, left, rest[1..], next + |fills|));
      case Take(qty) =>
        var hit, fill := Reduced(rest[0], qty), FillOf(taker, rest[0], qty, next + |fills| + 1);
        if hit.remaining == 0.0 {
          DriveIsWalk(mode, taker, next, fills + [fill], done + [hit], left - qty, rest[1..]);
          ExtendPast(fills, done, [fill], hit, Walk(mode, taker, left - qty, rest[1..], next + |fills| + 1));
        } else {
          ExtendPart(fills, done, fill, hit, rest[1..], left - qty);
        }
    }
  }

  lemma ExtendStopped(fills: seq<Fill>, done: seq<Order>, rest: seq<Order>, left: real, rejected: bool)
    ensures Extend(fills, done, Walked([], rest, 0, left, rejected)) == Walked(fills, done + rest, |done|, left, rejected)
    ensures rest == [] ==> done + rest == done
  {}

  lemma ExtendPast(fills: seq<Fill>, done: seq<Order>, more: seq<Fill>, o: Order, v: Walked)
    ensures Extend(fills, done, Walked(more + v.fills, [o] + v.raw, v.n + 1, v.left, v.rejected)) == Extend(fills + more, done + [o], v)
    ensures more == [] ==> fills + more == fills && more + v.fills == v.fills
  {
    ExtendTwice(fills, done, more, [o], v);
  }

  lemma ExtendPart(fills: seq<Fill>, done: seq<Order>, fill: Fill, hit: Order, rest: seq<Order>, left: real)
    ensures Extend(fills, done, Walked([fill], [hit] + rest, 0, left, false)) == Walked(fills + [fill], done + [hit] + rest, |done|, left, false)
  {
    assert done + ([hit] + rest) == done + [hit] + rest;
  }

  lemma ExtendTwice(f1: seq<Fill>, d1: seq<Order>, f2: seq<Fill>, d2: seq<Order>, w: Walked)
    ensures Extend(f1, d1, Extend(f2, d2, w)) == Extend(f1 + f2, d1 + d2, w)
  {
    assert f1 + (f2 + w.fills) == (f1 + f2) + w.fills;
    assert d1 + (d2 + w.raw) == (d1 + d2) + w.raw;
  }

  /** A drive over `a + b` is the drive over `a`, carried on into `b` exactly when `a` is used up. */
  lemma {:induction false} DriveAppend(mode: SelfTradeMode, taker: Order, next: nat,
                                       fills: seq<Fill>, done: seq<Order>, left: real, a: seq<Order>, b: seq<Order>)
    ensures var w := Drive(mode, taker, next, fills, done, left, a);
            Drive(mode, taker, next, fills, done, left, a + b) ==
            if !w.rejected && w.n == |w.raw| then Drive(mode, taker, next, w.fills, w.raw, w.left, b)
            else w.(raw := w.raw + b)
    decreases |a|
  {
    if a == [] {
      assert a + b == b;
    } else {
      assert (a + b)[1..] == a[1..] + b;
      match Meet(mode, taker, left, a[0])
      case Stop => assert done + (a + b) == (done + a) + b;
      case Reject => assert done + (a + b) == (done + a) + b;
      case Withdraw => DriveAppend(mode, taker, next, fills, done + [a[0]], left, a[1..], b);
      case Take(qty) =>
        var hit, fill := Reduced(a[0], qty), FillOf(taker, a[0], qty, next + |fills| + 1);
        if hit.remaining == 0.0 {
          DriveAppend(mode, taker, next, fills + [fill], done + [hit], left - qty, a[1..], b);
        } else {
          assert done + [hit] + (a[1..] + b) == (done + [hit] + a[1..]) + b;
        }
    }
  }

  lemma {:induction false} DriveShift(mode: SelfTradeMode, taker: Order, next: nat,
                                      fills: seq<Fill>, p: seq<Order>, done: seq<Order>, left: real, rest: seq<Order>)
    ensures var w := Drive(mode, taker, next, fills, done, left, rest);
            Drive(mode, taker, next, fills, p + done, left, rest) == w.(raw := p + w.raw, n := |p| + w.n)
    decreases |rest|
  {
    if rest != [] {
      match Meet(mode, taker, left, rest[0])
      case Stop => assert (p + done) + rest == p + (done + rest);
      case Reject => assert (p + done) + rest == p + (done + rest);
      case Withdraw =>
        assert (p + done) + [rest[0]] == p + (done + [rest[0]]);
        DriveShift(mode, taker, next, fills, p, done + [rest[0]], left, rest[1..]);
      case Take(qty) =>
        var hit, fill := Reduced(rest[0], qty), FillOf(taker, rest[0], qty, next + |fills| + 1);
        assert (p + done) + [hit] == p + (done + [hit]);
        if hit.remaining == 0.0 {
          DriveShift(mode, taker, next, fills + [fill], p, done + [hit], left - qty, rest[1..]);
        } else {
          assert (p + (done + [hit])) + rest[1..] == p + ((done + [hit]) + rest[1..]);
        }
    }
  }

  /** What a drive does to a list of makers that all sit within the taker's price. */
  lemma {:induction false} DriveFacts(mode: SelfTradeMode, taker: Order, next: nat, price: real,
                                      fills: seq<Fill>, done: seq<Order>, left: real, rest: seq<Order>)
    requires taker.Crosses(price) && AllAt(rest, price) && AllAt(done, price)
    ensures var w := Drive(mode, taker, next, fills, done, left, rest);
            && |w.raw| == |done| + |rest| && w.n <= |w.raw|
            && AllAt(w.raw, price)
            && (w.rejected ==> w.n < |w.raw|)
            && (!w.rejected && w.n < |w.raw| ==> w.left <= 0.0)
    decreases |rest|
  {
    if rest != [] {
      match Meet(mode, taker, left, rest[0])
      case Stop =>
      case Reject =>
      case Withdraw => DriveFacts(mode, taker, next, price, fills, done + [rest[0]], left, rest[1..]);
      case Take(qty) =>
        var hit, fill := Reduced(rest[0], qty), FillOf(taker, rest[0], qty, next + |fills| + 1);
        if hit.remaining == 0.0 {
          DriveFacts(mode, taker, next, price, fills + [fill], done + [hit], left - qty, rest[1..]);
        }
    }
  }

  lemma DropId(byId: map<OrderId, Side>, s: seq<Order>, o: Order)
    ensures byId - Ids(s) - {o.id} == byId - Ids(s + [o])
  {
    assert Ids(s + [o]) == Ids(s) + {o.id} by {
      forall i | 0 <= i < |s| ensures s[i].id in Ids(s + [o]) { assert (s + [o])[i] == s[i]; }
      assert (s + [o])[|s|] == o;
    }
  }

  // ---- Crossing ------------------------------------------------------------------------

  /** Delete the entries at `0, 1, .., n - 1`, from the back. */
  method Compact(queue0: seq<Order>, consumed: seq<nat>) returns (queue: seq<Order>)
    requires |consumed| <= |queue0| && forall k | 0 <= k < |consumed| :: consumed[k] == k
    ensures queue == queue0[|consumed|..]
  {
    queue := queue0;
    var k := |consumed|;
    while k > 0
      invariant 0 <= k <= |consumed|
      invariant queue == queue0[..k] + queue0[|consumed|..]
    {
      k := k - 1;
      queue := queue[..consumed[k]] + queue[consumed[k] + 1..];
    }
  }

  lemma HitAt(done: seq<Order>, rest: seq<Order>, hit: Order)
    requires rest != []
    ensures (done + rest)[|done| := hit] == done + [hit] + rest[1..]
  {}

  /** Trade the taker down the queue of one level, then compact the queue. */
  method CrossOneLevel(mode: SelfTradeMode, taker: Order, left0: real, price: real, queue0: seq<Order>,
                       byId0: map<OrderId, Side>, fills0: seq<Fill>, next: nat)
    returns (fills: seq<Fill>, queue: seq<Order>, left: real, byId: map<OrderId, Side>, rejected: bool)
    requires taker.Crosses(price) && AllAt(queue0, price)
    ensures var w := Drive(mode, taker, next, fills0, [], left0, queue0);
            && fills == w.fills && left == w.left && rejected == w.rejected && w.n <= |w.raw|
            && queue == (if w.rejected then w.raw else w.raw[w.n..])
            && byId == byId0 - Ids(w.raw[..w.n])
  {
    fills, queue, left, byId, rejected := fills0, queue0, left0, byId0, false;
    var consumed: seq<nat> := [];
    ghost var w := Drive(mode, taker, next, fills0, [], left0, queue0);
    ghost var done, rest := [], queue0;
    while left > 0.0 && |consumed| < |queue|
      invariant queue == done + rest && |done| == |consumed| && AllAt(rest, price)
      invariant forall k | 0 <= k < |consumed| :: consumed[k] == k
      invariant w == Drive(mode, taker, next, fills, done, left, rest)
      invariant byId == byId0 - Ids(done)
      decreases |rest|
    {
      var i := |consumed|;
      var maker := queue[i];
      assert maker == rest[0];
      if maker.owner == taker.owner && mode == CancelNewest {
        assert queue[..i] == done;
        rejected := true;
        return;
      }
      if maker.owner == taker.owner && mode == CancelBoth {
        DropId(byId0, done, maker);
        done, rest := done + [maker], rest[1..];
        consumed := consumed + [i];
        byId := byId - {maker.id};
        continue;
      }
      var traded := Min(left, maker.remaining);
      var hit := Reduced(maker, traded);
      HitAt(done, rest, hit);
      queue := queue[i := hit];
      left := left - traded;
      fills := fills + [FillOf(taker, maker, traded, next + |fills| + 1)];
      if hit.remaining == 0.0 {
        DropId(byId0, done, hit);
        done, rest := done + [hit], rest[1..];
        byId := byId - {maker.id};
        consumed := consumed + [i];
      } else {
        break;
      }
    }
    assert w == Walked(fills, queue, |consumed|, left, false) && queue[..|consumed|] == done;
    queue := Compact(queue, consumed);
  }

  lemma AtPriceSplit(a: seq<Order>, b: seq<Order>, price: real)
    requires NoneAt(a, price) && AllAt(b, price)
    ensures AtPrice(a + b, price) == b
  {
    AtPriceConcat(a, b, price);
    AtPriceUniform(a, price);
    AtPriceUniform(b, price);
  }

  lemma SettleRejected(done: seq<Order>, v: Walked, rest: seq<Order>, price: real)
    requires v.rejected && v.n < |v.raw| && AllAt(v.raw, price) && NoneAt(done, price)
    ensures Settle(Walked(v.fills, done + v.raw + rest, |done| + v.n, v.left, true)) == v.raw + rest
  {
    var l, r := v.raw[..v.n], v.raw[v.n..];
    assert v.raw == l + r;
    AtPriceSplit(done, l, price);
    Pieces(done, l, r, rest);
  }

  lemma Pieces(d: seq<Order>, l: seq<Order>, r: seq<Order>, b: seq<Order>)
    ensures var all, n := d + (l + r) + b, |d| + |l|;
            all[..n] == d + l && all[n..] == r + b && l + (r + b) == (l + r) + b && all == (d + l) + (r + b) && (r != [] ==> all[n] == r[0])
  {}

  lemma DropMore(byId: map<OrderId, Side>, s: seq<Order>, t: seq<Order>)
    ensures byId - Ids(s) - Ids(t) == byId - Ids(s + t)
  {
    assert Ids(s + t) == Ids(s) + Ids(t) by {
      forall i | 0 <= i < |s| ensures s[i].id in Ids(s + t) { assert (s + t)[i] == s[i]; }
      forall i | 0 <= i < |t| ensures t[i].id in Ids(s + t) { assert (s + t)[|s| + i] == t[i]; }
    }
  }

  /** One level of the ladder: how the drive over all of it continues from the drive over the
      first level's queue. */
  lemma LevelStep(mode: SelfTradeMode, taker: Order, next: nat, fills: seq<Fill>, done: seq<Order>, left: real,
                  price: real, q: seq<Order>, rest: seq<Order>)
    requires taker.Crosses(price) && AllAt(q, price)
    requires left > 0.0 ==> NoneAt(done, price)
    ensures var v := Drive(mode, taker, next, fills, [], left, q);
            var w := Drive(mode, taker, next, fills, done, left, q + rest);
            && v.n <= |v.raw| == |q| && (v.rejected ==> v.n < |q|) && AllAt(v.raw, price)
            && (if v.rejected then
                  && w == Walked(v.fills, done + v.raw + rest, |done| + v.n, v.left, true)
                  && (left > 0.0 ==> Settle(w) == v.raw + rest)
                  && w.raw[..w.n] == done + v.raw[..v.n]
                else if v.n < |q| then
                  && v.left <= 0.0
                  && w == Drive(mode, taker, next, v.fills, done + v.raw[..v.n], v.left, v.raw[v.n..] + rest)
                else
                  w == Drive(mode, taker, next, v.fills, done + v.raw, v.left, rest))
  {
    var v := Drive(mode, taker, next, fills, [], left, q);
    DriveFacts(mode, taker, next, price, fills, [], left, q);
    DriveAppend(mode, taker, next, fills, done, left, q, rest);
    DriveShift(mode, taker, next, fills, done, [], left, q);
    assert done + [] == done;
    var l, r := v.raw[..v.n], v.raw[v.n..];
    assert v.raw == l + r;
    Pieces(done, l, r, rest);
    if v.rejected && left > 0.0 { SettleRejected(done, v, rest, price); }
  }

  /** Trade the taker down the ladder of the other side, dropping the levels it empties. */
  method Cross(mode: SelfTradeMode, taker: Order, levels0: seq<Level>, byId0: map<OrderId, Side>, next: nat)
    returns (fills: seq<Fill>, levels: seq<Level>, left: real, byId: map<OrderId, Side>, rejected: bool)
    requires Ladder(taker.side.Opposite(), levels0)
    ensures Ladder(taker.side.Opposite(), levels)
    ensures var w := Walk(mode, taker, taker.qty, Flatten(levels0), next);
            && fills == w.fills && left == w.left && rejected == w.rejected
            && Flatten(levels) == Settle(w)
            && byId == byId0 - Ids(w.raw[..w.n])
  {
    fills, levels, left, byId, rejected := [], levels0, taker.qty, byId0, false;
    ghost var done: seq<Order> := [];
    ghost var w := Drive(mode, taker, next, [], [], taker.qty, Flatten(levels0));
    assert w == Walk(mode, taker, taker.qty, Flatten(levels0), next) by {
      DriveIsWalk(mode, taker, next, [], [], taker.qty, Flatten(levels0));
    }
    while left > 0.0 && levels != [] && taker.Crosses(levels[0].price)
      invariant Ladder(taker.side.Opposite(), levels)
      invariant w == Drive(mode, taker, next, fills, done, left, Flatten(levels))
      invariant byId == byId0 - Ids(done)
      invariant left > 0.0 ==> forall k | 0 <= k < |levels| :: NoneAt(done, levels[k].price)
      decreases |levels|, if left > 0.0 then 1 else 0
    {
      hide Drive, Walk, Settle, Ids;
      var price := levels[0].price;
      assert LevelOk(levels[0]);
      ghost var v := Drive(mode, taker, next, fills, [], left, levels[0].queue);
      LevelStep(mode, taker, next, fills, done, left, price, levels[0].queue, Flatten(levels[1..]));
      DropMore(byId0, done, v.raw[..v.n]);
      LadderTail(taker.side.Opposite(), levels);
      var queue;
      fills, queue, left, byId, rejected := CrossOneLevel(mode, taker, left, price, levels[0].queue, byId, fills, next);
      if rejected {
        levels := [Level(price, queue)] + levels[1..];
        return;
      }
      if queue == [] {
        assert v.raw[..v.n] == v.raw;
        levels := levels[1..];
      } else {
        levels := [Level(price, queue)] + levels[1..];
      }
      done := done + v.raw[..v.n];
    }
    assert Flatten(levels) == [] || left <= 0.0 || !taker.Crosses(levels[0].price);
    assert w.raw[..w.n] == done;
  }

  // ---- Resting, removing and summing ---------------------------------------------------

  lemma {:induction false} FlattenConcat(a: seq<Level>, b: seq<Level>)
    ensures Flatten(a + b) == Flatten(a) + Flatten(b)
  {
    if a == [] {
      assert a + b == b;
    } else {
      assert (a + b)[1..] == a[1..] + b;
      FlattenConcat(a[1..], b);
    }
  }

  lemma FlattenSplit(levels: seq<Level>, i: nat)
    requires i < |levels|
    ensures Flatten(levels) == Flatten(levels[..i]) + (levels[i].queue + Flatten(levels[i + 1..]))
    ensures Flatten(levels[i..]) == levels[i].queue + Flatten(levels[i + 1..])
  {
    assert levels == levels[..i] + levels[i..] && levels[i..][1..] == levels[i + 1..];
    FlattenConcat(levels[..i], levels[i..]);
  }

  lemma FlattenReplace(levels: seq<Level>, i: nat, mid: seq<Level>, j: nat)
    requires i <= j <= |levels|
    ensures Flatten(levels[..i] + mid + levels[j..]) == Flatten(levels[..i]) + Flatten(mid) + Flatten(levels[j..])
  {
    FlattenConcat(levels[..i] + mid, levels[j..]);
    FlattenConcat(levels[..i], mid);
  }

  lemma {:induction false} FlattenMembers(levels: seq<Level>, o: Order)
    requires o in Flatten(levels)
    ensures exists k :: 0 <= k < |levels| && o in levels[k].queue
  {
    if o in levels[0].queue {
    } else {
      FlattenMembers(levels[1..], o);
      var k :| 0 <= k < |levels[1..]| && o in levels[1..][k].queue;
      assert o in levels[k + 1].queue;
    }
  }

  lemma {:induction false} InsertBehind(side: Side, a: seq<Order>, b: seq<Order>, o: Order)
    requires forall x | x in a :: Key(side, x.price) <= Key(side, o.price)
    requires b == [] || Key(side, o.price) < Key(side, b[0].price)
    ensures Insert(side, a + b, o) == a + [o] + b
  {
    if a == [] {
      assert a + b == b && a + [o] + b == [o] + b;
    } else {
      assert (a + b)[1..] == a[1..] + b;
      InsertBehind(side, a[1..], b, o);
    }
  }

  /** Replacing `levels[i..j]` by at most one level that fits the gap keeps the ladder. */
  lemma LadderSplice(side: Side, levels: seq<Level>, i: nat, mid: seq<Level>, j: nat)
    requires Ladder(side, levels) && i <= j <= |levels| && |mid| <= 1
    requires forall m | m in mid ::
               && LevelOk(m)
               && (forall k | 0 <= k < i :: Key(side, levels[k].price) < Key(side, m.price))
               && (forall k | j <= k < |levels| :: Key(side, m.price) < Key(side, levels[k].price))
    ensures Ladder(side, levels[..i] + mid + levels[j..])
  {
    hide Ladder, Below, LevelOk;
    var a, b := levels[..i], levels[j..];
    LadderSlices(side, levels, i, j);
    if mid == [] {
      LadderJoin(side, a, b);
      assert a + mid + b == a + b;
    } else {
      var l := mid[0];
      assert l in mid && mid == [l];
      BelowOne(side, a, l, b);
      LadderOne(side, l);
      LadderJoin(side, a, mid);
      LadderJoin(side, a + mid, b);
    }
  }

  /** Every level of `a` is better than every level of `b`. */
  predicate Below(side: Side, a: seq<Level>, b: seq<Level>) {
    forall x, y | 0 <= x < |a| && 0 <= y < |b| :: Key(side, a[x].price) < Key(side, b[y].price)
  }

  lemma LadderSlices(side: Side, levels: seq<Level>, i: nat, j: nat)
    requires Ladder(side, levels) && i <= j <= |levels|
    ensures Ladder(side, levels[..i]) && Ladder(side, levels[j..]) && Below(side, levels[..i], levels[j..])
  {}

  lemma BelowOne(side: Side, a: seq<Level>, l: Level, b: seq<Level>)
    requires Below(side, a, b)
    requires forall k | 0 <= k < |a| :: Key(side, a[k].price) < Key(side, l.price)
    requires forall k | 0 <= k < |b| :: Key(side, l.price) < Key(side, b[k].price)
    ensures Below(side, a, [l]) && Below(side, a + [l], b)
  {}

  lemma LadderOne(side: Side, l: Level)
    requires LevelOk(l)
    ensures Ladder(side, [l])
  {}

  lemma LadderJoin(side: Side, a: seq<Level>, b: seq<Level>)
    requires Ladder(side, a) && Ladder(side, b) && Below(side, a, b)
    ensures Ladder(side, a + b)
  {
    var r := a + b;
    forall k | 0 <= k < |r| ensures r[k] == if k < |a| then a[k] else b[k - |a|] {}
  }

  lemma KeysBelow(side: Side, levels: seq<Level>, key: real)
    requires forall k | 0 <= k < |levels| :: LevelOk(levels[k]) && Key(side, levels[k].price) <= key
    ensures forall o | o in Flatten(levels) :: Key(side, o.price) <= key
  {
    forall o | o in Flatten(levels) ensures Key(side, o.price) <= key {
      FlattenMembers(levels, o);
    }
  }

  lemma FlattenOne(l: Level)
    ensures Flatten([l]) == l.queue
  {}

  lemma FlattenNone()
    ensures Flatten([]) == []
  {}

  lemma RestFlat(side: Side, levels: seq<Level>, i: nat, queue: seq<Order>, j: nat, o: Order)
    requires Ladder(side, levels) && i <= j <= |levels| && j <= i + 1
    requires queue == if i < j then levels[i].queue else []
    requires i < j ==> levels[i].price == o.price
    requires forall k | 0 <= k < i :: Key(side, levels[k].price) < Key(side, o.price)
    requires j < |levels| ==> Key(side, o.price) < Key(side, levels[j].price)
    ensures Flatten(levels[..i] + [Level(o.price, queue + [o])] + levels[j..]) == Insert(side, Flatten(levels), o)
  {
    hide Insert, Flatten, Ladder;
    var front, b := Flatten(levels[..i]), Flatten(levels[j..]);
    RestBehind(side, levels, j, o);
    RestFront(levels, i, queue, j);
    FlattenReplace(levels, i, [Level(o.price, queue + [o])], j);
    FlattenOne(Level(o.price, queue + [o]));
    Regroup(front, queue, o);
  }

  /** The levels at least as good as `o` make up the part of the list in front of it. */
  lemma RestBehind(side: Side, levels: seq<Level>, j: nat, o: Order)
    requires Ladder(side, levels) && j <= |levels|
    requires forall k | 0 <= k < j :: Key(side, levels[k].price) <= Key(side, o.price)
    requires j < |levels| ==> Key(side, o.price) < Key(side, levels[j].price)
    ensures Insert(side, Flatten(levels), o) == Flatten(levels[..j]) + [o] + Flatten(levels[j..])
  {
    hide Insert, Flatten;
    var a, b := Flatten(levels[..j]), Flatten(levels[j..]);
    FlattenConcat(levels[..j], levels[j..]);
    assert levels == levels[..j] + levels[j..];
    KeysBelow(side, levels[..j], Key(side, o.price));
    if j < |levels| {
      FlattenSplit(levels, j);
      assert LevelOk(levels[j]);
      assert b[0] == levels[j].queue[0];
    } else {
      assert levels[j..] == [];
      FlattenNone();
    }
    InsertBehind(side, a, b, o);
  }

  lemma RestFront(levels: seq<Level>, i: nat, queue: seq<Order>, j: nat)
    requires i <= j <= |levels| && j <= i + 1 && queue == if i < j then levels[i].queue else []
    ensures Flatten(levels[..j]) == Flatten(levels[..i]) + queue
  {
    hide Flatten;
    if i < j {
      FlattenConcat(levels[..i], [levels[i]]);
      FlattenOne(levels[i]);
      assert levels[..j] == levels[..i] + [levels[i]];
    }
  }

  lemma Regroup(a: seq<Order>, b: seq<Order>, o: Order)
    ensures a + (b + [o]) == (a + b) + [o]
  {}

  /** Put `o` at the back of the queue at its price, opening the level if there is none. */
  method RestOn(side: Side, levels: seq<Level>, o: Order) returns (levels': seq<Level>)
    requires Ladder(side, levels)
    ensures Ladder(side, levels')
    ensures Flatten(levels') == Insert(side, Flatten(levels), o)
  {
    var i := 0;
    while i < |levels| && Key(side, levels[i].price) < Key(side, o.price)
      invariant i <= |levels|
      invariant forall k | 0 <= k < i :: Key(side, levels[k].price) < Key(side, o.price)
    {
      i := i + 1;
    }
    var found := i < |levels| && levels[i].price == o.price;
    var j := if found then i + 1 else i;
    var queue := if found then levels[i].queue else [];
    assert found ==> LevelOk(levels[i]);
    LadderSplice(side, levels, i, [Level(o.price, queue + [o])], j);
    RestFlat(side, levels, i, queue, j, o);
    levels' := levels[..i] + [Level(o.price, queue + [o])] + levels[j..];
  }

  method Position(queue: seq<Order>, id: OrderId) returns (i: nat)
    ensures i <= |queue| && (i < |queue| ==> queue[i].id == id)
    ensures forall k | 0 <= k < i :: queue[k].id != id
  {
    i := 0;
    while i < |queue| && queue[i].id != id
      invariant i <= |queue| && forall k | 0 <= k < i :: queue[k].id != id
    {
      i := i + 1;
    }
  }

  lemma {:induction false} RemoveFirst(a: seq<Order>, b: seq<Order>, id: OrderId)
    requires forall o | o in a :: o.id != id
    ensures b != [] && b[0].id == id ==> Remove(a + b, id) == a + b[1..]
    ensures b == [] ==> Remove(a + b, id) == a + b
  {
    if a == [] {
      assert a + b == b;
    } else {
      assert (a + b)[1..] == a[1..] + b;
      RemoveFirst(a[1..], b, id);
    }
  }

  lemma RemoveFlat(levels: seq<Level>, i: nat, pos: nat, mid: seq<Level>, id: OrderId)
    requires i < |levels| && pos < |levels[i].queue| && levels[i].queue[pos].id == id
    requires forall k | 0 <= k < pos :: levels[i].queue[k].id != id
    requires forall o | o in Flatten(levels[..i]) :: o.id != id
    requires Flatten(mid) == levels[i].queue[..pos] + levels[i].queue[pos + 1..]
    ensures Flatten(levels[..i] + mid + levels[i + 1..]) == Remove(Flatten(levels), id)
  {
    var queue, a, b := levels[i].queue, Flatten(levels[..i]), Flatten(levels[i + 1..]);
    var l, r := queue[..pos], queue[pos + 1..];
    FlattenReplace(levels, i, mid, i + 1);
    FlattenSplit(levels, i);
    assert queue == l + [queue[pos]] + r;
    SpliceOut(a, l, queue[pos], r, b);
    RemoveFirst(a + l, [queue[pos]] + (r + b), id);
  }

  lemma SpliceOut(a: seq<Order>, l: seq<Order>, m: Order, r: seq<Order>, b: seq<Order>)
    ensures a + ((l + [m] + r) + b) == (a + l) + ([m] + (r + b))
    ensures (a + l) + ([m] + (r + b))[1..] == a + (l + r) + b
  {
    assert ([m] + (r + b))[1..] == r + b;
  }

  /** Take the order `id` out of its queue, and the level out of the ladder if that empties it. */
  method RemoveFromSide(side: Side, levels: seq<Level>, id: OrderId) returns (levels': seq<Level>)
    requires Ladder(side, levels)
    ensures Ladder(side, levels')
    ensures Flatten(levels') == Remove(Flatten(levels), id)
  {
    var i := 0;
    while i < |levels|
      invariant i <= |levels|
      invariant forall o | o in Flatten(levels[..i]) :: o.id != id
    {
      var queue := levels[i].queue;
      var pos := Position(queue, id);
      if pos < |queue| {
        var queue' := queue[..pos] + queue[pos + 1..];
        var mid := if queue' == [] then [] else [Level(levels[i].price, queue')];
        assert LevelOk(levels[i]);
        LadderSplice(side, levels, i, mid, i + 1);
        RemoveFlat(levels, i, pos, mid, id);
        return levels[..i] + mid + levels[i + 1..];
      }
      FlattenConcat(levels[..i], [levels[i]]);
      assert levels[..i + 1] == levels[..i] + [levels[i]] && Flatten([levels[i]]) == queue;
      i := i + 1;
    }
    assert levels[..i] == levels;
    RemoveFirst(Flatten(levels), [], id);
    assert Flatten(levels) + [] == Flatten(levels);
    levels' := levels;
  }

  method SumQueue(queue: seq<Order>) returns (total: real)
    ensures total == SumRemaining(queue)
  {
    total := 0.0;
    for i := 0 to |queue|
      invariant total + SumRemaining(queue[i..]) == SumRemaining(queue)
    {
      assert queue[i..][1..] == queue[i + 1..];
      total := total + queue[i].remaining;
    }
  }

  lemma NoneAtPrice(levels: seq<Level>, price: real)
    requires forall k | 0 <= k < |levels| :: LevelOk(levels[k]) && levels[k].price != price
    ensures NoneAt(Flatten(levels), price)
  {
    forall i | 0 <= i < |Flatten(levels)| ensures Flatten(levels)[i].price != price {
      FlattenMembers(levels, Flatten(levels)[i]);
    }
  }

  lemma LevelOnly(side: Side, levels: seq<Level>, price: real, i: nat)
    requires Ladder(side, levels) && i <= |levels|
    requires forall k | 0 <= k < |levels| && k != i :: levels[k].price != price
    requires i < |levels| ==> levels[i].price == price
    ensures AtPrice(Flatten(levels), price) == if i < |levels| then levels[i].queue else []
  {
    NoneAtPrice(levels[..i], price);
    AtPriceUniform(Flatten(levels[..i]), price);
    if i < |levels| {
      FlattenSplit(levels, i);
      var q, b := levels[i].queue, Flatten(levels[i + 1..]);
      NoneAtPrice(levels[i + 1..], price);
      assert LevelOk(levels[i]);
      assert Flatten(levels) == (Flatten(levels[..i]) + q) + b;
      AtPriceConcat(Flatten(levels[..i]) + q, b, price);
      AtPriceSplit(Flatten(levels[..i]), q, price);
      AtPriceUniform(b, price);
    } else {
      assert levels[..i] == levels;
    }
  }

  /** Quantity resting at `price`; zero if the ladder has no such level. */
  method QtyAt(side: Side, levels: seq<Level>, price: real) returns (total: real)
    requires Ladder(side, levels)
    ensures total == LevelQty(Flatten(levels), price)
  {
    var i := 0;
    while i < |levels| && levels[i].price != price
      invariant i <= |levels| && forall k | 0 <= k < i :: levels[k].price != price
    {
      i := i + 1;
    }
    LevelOnly(side, levels, price, i);
    LevelQtyIsSum(Flatten(levels), price);
    if i == |levels| {
      return 0.0;
    }
    total := SumQueue(levels[i].queue);
  }

  lemma {:induction false} CrossableLevel(taker: Order, q: seq<Order>, rest: seq<Order>)
    requires forall o | o in q :: taker.Crosses(o.price)
    ensures Crossable(taker, q + rest) == SumRemaining(q) + Crossable(taker, rest)
  {
    if q == [] {
      assert q + rest == rest;
    } else {
      CrossableLevel(taker, q[1..], rest);
      var k := Reach(taker, q[1..] + rest);
      assert (q + rest)[1..] == q[1..] + rest;
      assert (q + rest)[..k + 1][1..] == (q[1..] + rest)[..k];
    }
  }

  method CrossableQty(taker: Order, levels: seq<Level>) returns (total: real)
    requires Ladder(taker.side.Opposite(), levels)
    ensures total == Crossable(taker, Flatten(levels))
  {
    total := 0.0;
    var i := 0;
    assert levels[0..] == levels;
    while i < |levels|
      invariant i <= |levels|
      invariant total + Crossable(taker, Flatten(levels[i..])) == Crossable(taker, Flatten(levels))
    {
      assert LevelOk(levels[i]);
      FlattenSplit(levels, i);
      if !taker.Crosses(levels[i].price) {
        assert Flatten(levels[i..])[0].price == levels[i].price;
        break;
      }
      CrossableLevel(taker, levels[i].queue, Flatten(levels[i + 1..]));
      var q := SumQueue(levels[i].queue);
      total := total + q;
      i := i + 1;
    }
  }

  // ---- The book ------------------------------------------------------------------------

  class Book {
    var bids: seq<Level>
    var asks: seq<Level>
    var byId: map<OrderId, Side>
    var nextFillId: nat
    const mode: SelfTradeMode

    ghost predicate Valid()
      reads this
    {
      Ladder(Buy, bids) && Ladder(Sell, asks)
    }

    /** The book as the simple form sees it. */
    ghost function View(): Flat
      reads this
    {
      Flat(Flatten(bids), Flatten(asks), byId, nextFillId)
    }

    constructor (mode: SelfTradeMode)
      ensures Valid() && View() == EMPTY && this.mode == mode
    {
      bids, asks, byId, nextFillId := [], [], map[], 0;
      this.mode := mode;
    }

    /** Best price on `side`, if any order rests there. */
    method Best(side: Side) returns (price: Option<real>)
      requires Valid()
      ensures var s := View().At(side); price == if s == [] then None else Some(s[0].price)
    {
      var levels := if side == Buy then bids else asks;
      if levels == [] {
        return None;
      }
      assert LevelOk(levels[0]) && Flatten(levels)[0] == levels[0].queue[0];
      return Some(levels[0].price);
    }

    method LevelQuantity(side: Side, price: real) returns (total: real)
      requires Valid()
      ensures total == LevelQty(View().At(side), price)
    {
      total := QtyAt(side, if side == Buy then bids else asks, price);
    }

    /** The checks made before any crossing starts. */
    method Check(order: Order, reduces: bool) returns (e: Option<SubmitError>)
      requires Valid()
      ensures e == PreCheck(View(), order, reduces)
    {
      if order.qty <= 0.0 {
        return Some(ZeroQty);
      }
      if order.orderType == Limit && order.price <= 0.0 {
        return Some(ZeroPrice);
      }
      if order.postOnly {
        var best := Best(order.side.Opposite());
        if best.Some? && (if order.side == Buy then order.price >= best.value else order.price <= best.value) {
          return Some(PostOnlyWouldCross);
        }
      }
      if order.reduceOnly && !reduces {
        return Some(ReduceOnlyWouldIncrease);
      }
      if order.tif == Fok {
        var available := CrossableQty(order, if order.side == Buy then asks else bids);
        if available < order.qty {
          return Some(FokUnfillable);
        }
      }
      return None;
    }

    method Submit(order: Order, reduces: bool) returns (r: SubmitResult)
      requires Valid()
      modifies this
      ensures Valid()
      ensures (View(), r) == FlatBook.Submit(mode, old(View()), order, reduces)
    {
      var e := Check(order, reduces);
      if e.Some? {
        return Err(e.value);
      }
      var fills, levels, left, ids, rejected :=
        Cross(mode, order, if order.side == Buy then asks else bids, byId, nextFillId);
      if order.side == Buy { asks := levels; } else { bids := levels; }
      byId, nextFillId := ids, nextFillId + |fills|;
      assert View() == Crossed(mode, old(View()), order);
      if rejected {
        return Err(SelfTradeRejected);
      }
      if order.orderType == Market && left > 0.0 {
        return Err(MarketNoLiquidity);
      }
      var resting := None;
      if left > 0.0 && order.orderType == Limit && order.tif == Gtc {
        Rest(order.(remaining := left));
        resting := Some(order.id);
      }
      r := Ok(Outcome(fills, resting, left));
    }

    method Rest(order: Order)
      requires Valid()
      modifies this
      ensures Valid() && View() == Rested(old(View()), order)
    {
      byId := byId[order.id := order.side];
      var levels := RestOn(order.side, if order.side == Buy then bids else asks, order);
      if order.side == Buy { bids := levels; } else { asks := levels; }
    }

    method Cancel(id: OrderId) returns (removed: bool)
      requires Valid()
      modifies this
      ensures Valid() && (View(), removed) == FlatBook.Cancel(old(View()), id)
    {
      if id !in byId {
        return false;
      }
      var side := byId[id];
      byId := byId - {id};
      var levels := RemoveFromSide(side, if side == Buy then bids else asks, id);
      if side == Buy { bids := levels; } else { asks := levels; }
      return true;
    }
  }
}
