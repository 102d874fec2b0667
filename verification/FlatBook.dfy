/**
 The simple form of the order book: each side is one list of resting orders, best price
 first and oldest first within a price. A taker is matched by one walk down the opposite
 list. `Orderbook.dfy` shows that the two-level book of price levels and queues computes
 exactly this; the properties of the engine are then proved here and in `BookRuns.dfy`.
 */
module FlatBook {
  import opened OrderTypes

  /** Price priority as a number: on either side the smaller key trades first. */
  function Key(side: Side, price: real): real {
    if side == Sell then price else -price
  }

  /** The outcome of walking a taker down the list `book`. `raw` is `book` with the traded
      amounts taken off and nothing removed; its first `n` entries were used up or, for the
      taker's own orders under `CancelBoth`, withdrawn. */
  datatype Walked = Walked(fills: seq<Fill>, raw: seq<Order>, n: nat, left: real, rejected: bool)

  function FillOf(taker: Order, maker: Order, qty: real, id: nat): Fill {
    Fill(id, maker.id, taker.id, maker.owner, taker.owner, maker.price, qty, taker.side, taker.ts)
  }

  /** What happens when a taker with `left` to trade meets the next maker. */
  datatype Meeting = Stop | Reject | Withdraw | Take(qty: real)

  function Meet(mode: SelfTradeMode, taker: Order, left: real, maker: Order): Meeting {
    if left <= 0.0 || !taker.Crosses(maker.price) then Stop
    else if maker.owner == taker.owner && mode == CancelNewest then Reject
    else if maker.owner == taker.owner && mode == CancelBoth then Withdraw
    else Take(Min(left, maker.remaining))
  }

  function Reduced(maker: Order, qty: real): Order {
    maker.(remaining := maker.remaining - qty)
  }

  /** A walk that has already produced `fills` and used up the entries `done`, continued by `w`. */
  function Extend(fills: seq<Fill>, done: seq<Order>, w: Walked): Walked {
    Walked(fills + w.fills, done + w.raw, |done| + w.n, w.left, w.rejected)
  }

  function Walk(mode: SelfTradeMode, taker: Order, left: real, book: seq<Order>, next: nat): (w: Walked)
    ensures |w.raw| == |book| && w.n <= |book|
    ensures w.rejected ==> w.n < |book| && mode == CancelNewest
    decreases |book|
  {
    if book == [] then Walked([], [], 0, left, false) else
    match Meet(mode, taker, left, book[0])
    case Stop => Walked([], book, 0, left, false)
    case Reject => Walked([], book, 0, left, true)
    case Withdraw =>
      var w := Walk(mode, taker, left, book[1..], next);
      Walked(w.fills, [book[0]] + w.raw, w.n + 1, w.left, w.rejected)
    case Take(qty) =>
      var hit, fill := Reduced(book[0], qty), FillOf(taker, book[0], qty, next + 1);
      if hit.remaining == 0.0 then
        Extend([fill], [hit], Walk(mode, taker, left - qty, book[1..], next + 1))
      else
        Walked([fill], [hit] + book[1..], 0, left - qty, false)
  }

  /** One unfolding of `Walk`. */
  lemma WalkStep(mode: SelfTradeMode, taker: Order, left: real, book: seq<Order>, next: nat)
    ensures var w := Walk(mode, taker, left, book, next);
            if book == [] then w == Walked([], [], 0, left, false) else
            match Meet(mode, taker, left, book[0])
            case Stop => w == Walked([], book, 0, left, false)
            case Reject => w == Walked([], book, 0, left, true)
            case Withdraw =>
              var v := Walk(mode, taker, left, book[1..], next);
              w == Walked(v.fills, [book[0]] + v.raw, v.n + 1, v.left, v.rejected)
            case Take(qty) =>
              var hit, fill := Reduced(book[0], qty), FillOf(taker, book[0], qty, next + 1);
              if hit.remaining == 0.0 then
                var v := Walk(mode, taker, left - qty, book[1..], next + 1);
                w == Walked([fill] + v.fills, [hit] + v.raw, v.n + 1, v.left, v.rejected)
              else w == Walked([fill], [hit] + book[1..], 0, left - qty, false)
  {}

  /** The entries of `s` priced at `price`, in order. */
  function AtPrice(s: seq<Order>, price: real): seq<Order> {
    if s == [] then []
    else (if s[0].price == price then [s[0]] else []) + AtPrice(s[1..], price)
  }

  /** The list left resting after a walk. An accepted walk leaves out the first `n` entries.
      A rejected one stops inside a price level before that level is compacted, so the used-up
      makers of that level stay listed, with nothing remaining. */
  function Settle(w: Walked): seq<Order>
    requires w.n <= |w.raw|
    requires w.rejected ==> w.n < |w.raw|
  {
    if w.rejected then AtPrice(w.raw[..w.n], w.raw[w.n].price) + w.raw[w.n..] else w.raw[w.n..]
  }

  function Ids(s: seq<Order>): set<OrderId> {
    set i | 0 <= i < |s| :: s[i].id
  }

  function SumRemaining(s: seq<Order>): real {
    if s == [] then 0.0 else s[0].remaining + SumRemaining(s[1..])
  }

  /** Quantity resting at `price`. */
  function LevelQty(s: seq<Order>, price: real): real {
    if s == [] then 0.0 else (if s[0].price == price then s[0].remaining else 0.0) + LevelQty(s[1..], price)
  }

  /** How many entries at the front of `s` the taker's price reaches. */
  function Reach(taker: Order, s: seq<Order>): (k: nat)
    ensures k <= |s|
  {
    if s == [] || !taker.Crosses(s[0].price) then 0 else 1 + Reach(taker, s[1..])
  }

  /** Quantity the taker's price reaches, its owner's orders included. */
  function Crossable(taker: Order, s: seq<Order>): real {
    SumRemaining(s[..Reach(taker, s)])
  }

  function SumFills(fills: seq<Fill>): real {
    if fills == [] then 0.0 else fills[0].qty + SumFills(fills[1..])
  }

  datatype Flat = Flat(bids: seq<Order>, asks: seq<Order>, byId: map<OrderId, Side>, nextFillId: nat) {
    function At(side: Side): seq<Order> {
      if side == Buy then bids else asks
    }

    function With(side: Side, s: seq<Order>): Flat {
      if side == Buy then this.(bids := s) else this.(asks := s)
    }
  }

  const EMPTY := Flat([], [], map[], 0)

  /** `o` goes behind every order at least as good. */
  function Insert(side: Side, s: seq<Order>, o: Order): seq<Order> {
    if s == [] || Key(side, o.price) < Key(side, s[0].price) then [o] + s
    else [s[0]] + Insert(side, s[1..], o)
  }

  function Remove(s: seq<Order>, id: OrderId): seq<Order> {
    if s == [] then [] else if s[0].id == id then s[1..] else [s[0]] + Remove(s[1..], id)
  }

  /** The checks that run before any crossing starts. `reduces` answers the reduce-only question. */
  function PreCheck(f: Flat, o: Order, reduces: bool): Option<SubmitError> {
    var opp := f.At(o.side.Opposite());
    if o.qty <= 0.0 then Some(ZeroQty)
    else if o.orderType == Limit && o.price <= 0.0 then Some(ZeroPrice)
    else if o.postOnly && opp != [] && (if o.side == Buy then o.price >= opp[0].price else o.price <= opp[0].price) then
      Some(PostOnlyWouldCross)
    else if o.reduceOnly && !reduces then Some(ReduceOnlyWouldIncrease)
    else if o.tif == Fok && Crossable(o, opp) < o.qty then Some(FokUnfillable)
    else None
  }

  function WalkOf(mode: SelfTradeMode, f: Flat, o: Order): Walked {
    Walk(mode, o, o.qty, f.At(o.side.Opposite()), f.nextFillId)
  }

  /** The book once the crossing of `o` has ended, whether or not the submit is then accepted. */
  function Crossed(mode: SelfTradeMode, f: Flat, o: Order): Flat {
    var w := WalkOf(mode, f, o);
    f.With(o.side.Opposite(), Settle(w))
     .(byId := f.byId - Ids(w.raw[..w.n]), nextFillId := f.nextFillId + |w.fills|)
  }

  function Rested(f: Flat, o: Order): Flat {
    f.With(o.side, Insert(o.side, f.At(o.side), o)).(byId := f.byId[o.id := o.side])
  }

  function Submit(mode: SelfTradeMode, f: Flat, o: Order, reduces: bool): (Flat, SubmitResult) {
    var pre := PreCheck(f, o, reduces);
    if pre.Some? then (f, Err(pre.value)) else
    var w := WalkOf(mode, f, o);
    var f1 := Crossed(mode, f, o);
    if w.rejected then (f1, Err(SelfTradeRejected))
    else if o.orderType == Market && w.left > 0.0 then (f1, Err(MarketNoLiquidity))
    else if w.left > 0.0 && o.orderType == Limit && o.tif == Gtc then
      (Rested(f1, o.(remaining := w.left)), Ok(Outcome(w.fills, Some(o.id), w.left)))
    else (f1, Ok(Outcome(w.fills, None, w.left)))
  }

  function Cancel(f: Flat, id: OrderId): (Flat, bool) {
    if id !in f.byId then (f, false) else
    var side := f.byId[id];
    (f.With(side, Remove(f.At(side), id)).(byId := f.byId - {id}), true)
  }

  // ---- Entries at one price -------------------------------------------------------------

  predicate AllAt(s: seq<Order>, price: real) {
    forall i | 0 <= i < |s| :: s[i].price == price
  }

  predicate NoneAt(s: seq<Order>, price: real) {
    forall i | 0 <= i < |s| :: s[i].price != price
  }

  lemma {:induction false} AtPriceConcat(a: seq<Order>, b: seq<Order>, price: real)
    ensures AtPrice(a + b, price) == AtPrice(a, price) + AtPrice(b, price)
  {
    if a == [] {
      assert a + b == b;
    } else {
      assert (a + b)[1..] == a[1..] + b;
      AtPriceConcat(a[1..], b, price);
      var head := if a[0].price == price then [a[0]] else [];
      assert head + (AtPrice(a[1..], price) + AtPrice(b, price)) == (head + AtPrice(a[1..], price)) + AtPrice(b, price);
    }
  }

  lemma {:induction false} AtPriceUniform(s: seq<Order>, price: real)
    ensures AllAt(s, price) ==> AtPrice(s, price) == s
    ensures NoneAt(s, price) ==> AtPrice(s, price) == []
  {
    if s != [] {
      AtPriceUniform(s[1..], price);
    }
  }

  lemma {:induction false} LevelQtyIsSum(s: seq<Order>, price: real)
    ensures LevelQty(s, price) == SumRemaining(AtPrice(s, price))
  {
    if s != [] {
      LevelQtyIsSum(s[1..], price);
      var t := AtPrice(s[1..], price);
      assert ([s[0]] + t)[1..] == t && [] + t == t;
    }
  }
}
