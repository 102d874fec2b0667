/**
 Position arithmetic of the margin engine: how one fill moves a position, and what that means
 for profit and loss over whole fill histories and over all users together.
 */
module Margin {
  import opened OrderTypes

  datatype Position = Position(size: real, entry: real)

  const FLAT := Position(0.0, 0.0)

  function Signum(x: real): real {
    if x > 0.0 then 1.0 else if x < 0.0 then -1.0 else 0.0
  }

  function Abs(x: real): real {
    if x < 0.0 then -x else x
  }

  datatype Applied = Applied(position: Position, realised: real)

  /** Close, add, flip or reduce, in the order the branches are tried. */
  function ApplyFill(p: Position, delta: real, price: real): Applied {
    var size := p.size + delta;
    if size == 0.0 then Applied(FLAT, p.size * (price - p.entry))
    else if Signum(p.size) == Signum(delta) then
      Applied(Position(size, (Abs(p.size) * p.entry + Abs(delta) * price) / Abs(size)), 0.0)
    else if Signum(p.size) != Signum(size) then
      Applied(Position(size, price), p.size * (price - p.entry))
    else
      Applied(Position(size, p.entry), Signum(p.size) * Abs(delta) * (price - p.entry))
  }

  /** The same, on a position updated in place. */
  class PositionCell {
    var size: real
    var entryPrice: real

    ghost function View(): Position
      reads this
    {
      Position(size, entryPrice)
    }

    constructor ()
      ensures View() == FLAT
    {
      size, entryPrice := 0.0, 0.0;
    }

    method Fill(delta: real, price: real) returns (realised: real)
      modifies this
      ensures Applied(View(), realised) == ApplyFill(old(View()), delta, price)
    {
      var oldSize, entry := size, entryPrice;
      var newSize := oldSize + delta;
      assert View() == Position(oldSize, entry);
      if newSize == 0.0 {
        assert ApplyFill(View(), delta, price) == Applied(FLAT, oldSize * (price - entry));
        realised := oldSize * (price - entry);
        size, entryPrice := 0.0, 0.0;
        return;
      }
      if Signum(oldSize) == Signum(delta) {
        entryPrice := (Abs(oldSize) * entry + Abs(delta) * price) / Abs(newSize);
        size := newSize;
        return 0.0;
      }
      if Signum(oldSize) != Signum(newSize) {
        realised := oldSize * (price - entry);
        size, entryPrice := newSize, price;
        return;
      }
      realised := Signum(oldSize) * Abs(delta) * (price - entry);
      size := newSize;
    }
  }

  function Unrealised(p: Position, mark: real): real {
    if p.size == 0.0 then 0.0 else p.size * (mark - p.entry)
  }

  // ---- One fill ------------------------------------------------------------------------

  lemma SizeMoves(p: Position, delta: real, price: real)
    ensures ApplyFill(p, delta, price).position.size == p.size + delta
  {}

  lemma Weighted(a: real, b: real, n: real, x: real, y: real, m: real)
    requires n > 0.0 && n == a + b
    ensures n * (m - (a * x + b * y) / n) == a * (m - x) + b * (m - y)
  {
    var e := (a * x + b * y) / n;
    assert n * e == a * x + b * y;
    assert n * (m - e) == n * m - n * e;
    assert n * m == a * m + b * m;
  }

  lemma Distribute(s: real, d: real, m: real, e: real, x: real)
    ensures s * (x - e) + (s + d) * (m - x) == s * (m - e) + d * (m - x)
    ensures -d * (x - e) + (s + d) * (m - e) == s * (m - e) + d * (m - x)
  {
    assert s * (x - e) + s * (m - x) == s * (m - e);
    assert -d * (x - e) + d * (m - e) == d * (m - x);
  }

  /** Whatever branch is taken, realised plus unrealised profit moves by exactly what the fill is
      worth at the mark. */
  lemma FillIdentity(p: Position, delta: real, price: real, mark: real)
    ensures var a := ApplyFill(p, delta, price);
            a.realised + Unrealised(a.position, mark) == Unrealised(p, mark) + delta * (mark - price)
  {
    var size := p.size + delta;
    Distribute(p.size, delta, mark, p.entry, price);
    if size == 0.0 {
      assert delta == -p.size;
    } else if Signum(p.size) == Signum(delta) {
      Weighted(Abs(p.size), Abs(delta), Abs(size), p.entry, price, mark);
    }
  }

  /** A weighted mean lies between what it is the mean of. */
  lemma Between(a: real, b: real, x: real, y: real, e: real)
    requires a > 0.0 && b > 0.0 && e * (a + b) == a * x + b * y
    ensures x <= e <= y || y <= e <= x
  {
    assert a * (e - x) == b * (y - e);
    if e > x { assert a * (e - x) > 0.0; }
    if e < x { assert a * (e - x) < 0.0; }
  }

  predicate SameSide(x: real, y: real) {
    (x > 0.0 && y > 0.0) || (x < 0.0 && y < 0.0)
  }

  /** Adding realises nothing, and the new entry lies between the old one and the fill price. */
  lemma AddingLaw(p: Position, delta: real, price: real)
    requires SameSide(p.size, delta)
    ensures var a := ApplyFill(p, delta, price);
            a.realised == 0.0 && (p.entry <= a.position.entry <= price || price <= a.position.entry <= p.entry)
  {
    var a, b, e := Abs(p.size), Abs(delta), ApplyFill(p, delta, price).position.entry;
    assert e == (a * p.entry + b * price) / Abs(p.size + delta);
    Between(a, b, p.entry, price, e);
  }

  /** Opening takes the fill price and realises nothing; closing leaves nothing; reducing keeps the
      entry and realises the part closed; flipping realises all and enters at the fill price. */
  lemma ClosingLaws(p: Position, delta: real, price: real)
    requires !SameSide(p.size, delta)
    ensures var a, size := ApplyFill(p, delta, price), p.size + delta;
            && (p.size == 0.0 && delta != 0.0 ==> a == Applied(Position(delta, price), 0.0))
            && (size == 0.0 ==> a == Applied(Position(0.0, 0.0), p.size * (price - p.entry)))
            && (SameSide(p.size, size) && delta != 0.0 ==> a == Applied(Position(size, p.entry), -delta * (price - p.entry)))
            && (SameSide(p.size, -size) ==> a == Applied(Position(size, price), p.size * (price - p.entry)))
  {
    Swapped(p.size, delta, price - p.entry);
  }

  lemma Swapped(s: real, d: real, gain: real)
    requires !SameSide(s, d)
    ensures s != 0.0 && d != 0.0 ==> Signum(s) * Abs(d) * gain == -d * gain
    ensures s == 0.0 ==> s * gain == 0.0
  {}

  // ---- Whole histories -----------------------------------------------------------------

  datatype Trade = Trade(delta: real, price: real)

  function Play(trades: seq<Trade>): Applied {
    if trades == [] then Applied(FLAT, 0.0) else
    var before, t := Play(trades[..|trades| - 1]), trades[|trades| - 1];
    var a := ApplyFill(before.position, t.delta, t.price);
    Applied(a.position, before.realised + a.realised)
  }

  /** What a trade is worth at `mark`. */
  function Worth(t: Trade, mark: real): real {
    t.delta * (mark - t.price)
  }

  function Value(trades: seq<Trade>, mark: real): real {
    if trades == [] then 0.0 else Value(trades[..|trades| - 1], mark) + Worth(trades[|trades| - 1], mark)
  }

  function Net(trades: seq<Trade>): real {
    if trades == [] then 0.0 else Net(trades[..|trades| - 1]) + trades[|trades| - 1].delta
  }

  lemma NothingHeld(mark: real)
    ensures Unrealised(FLAT, mark) == 0.0
  {}

  /** Main result: for every fill history and every mark. */
  lemma {:induction false} PnlIdentity(trades: seq<Trade>, mark: real)
    ensures Play(trades).position.size == Net(trades)
    ensures Play(trades).realised + Unrealised(Play(trades).position, mark) == Value(trades, mark)
  {
    hide ApplyFill, Unrealised;
    if trades == [] {
      NothingHeld(mark);
    } else {
      var before, t := trades[..|trades| - 1], trades[|trades| - 1];
      PnlIdentity(before, mark);
      SizeMoves(Play(before).position, t.delta, t.price);
      FillIdentity(Play(before).position, t.delta, t.price, mark);
    }
  }

  /** The object, given any fills one after another. */
  method PlayOut(trades: seq<Trade>) returns (cell: PositionCell, realised: real)
    ensures fresh(cell) && Applied(cell.View(), realised) == Play(trades)
    ensures forall mark :: realised + Unrealised(cell.View(), mark) == Value(trades, mark)
  {
    hide ApplyFill, Unrealised;
    cell := new PositionCell();
    realised := 0.0;
    for i := 0 to |trades|
      invariant fresh(cell) && Applied(cell.View(), realised) == Play(trades[..i])
    {
      assert trades[..i + 1][..i] == trades[..i];
      var more := cell.Fill(trades[i].delta, trades[i].price);
      realised := realised + more;
    }
    assert trades[..|trades|] == trades;
    forall mark ensures realised + Unrealised(cell.View(), mark) == Value(trades, mark) { PnlIdentity(trades, mark); }
  }

  // ---- All users together --------------------------------------------------------------

  /** A trade between two of the users `0 .. n`; a user may trade with itself. */
  datatype Match = Match(taker: nat, maker: nat, takerDelta: real, price: real)

  type Accounts = seq<Applied>

  function Opened(n: nat): Accounts {
    seq(n, _ => Applied(FLAT, 0.0))
  }

  function Credit(accounts: Accounts, user: nat, delta: real, price: real): (after: Accounts)
    requires user < |accounts|
    ensures |after| == |accounts|
  {
    var a := ApplyFill(accounts[user].position, delta, price);
    accounts[user := Applied(a.position, accounts[user].realised + a.realised)]
  }

  predicate Known(matches: seq<Match>, n: nat) {
    forall i | 0 <= i < |matches| :: matches[i].taker < n && matches[i].maker < n
  }

  function Settle(n: nat, matches: seq<Match>): (accounts: Accounts)
    requires Known(matches, n)
    ensures |accounts| == n
  {
    if matches == [] then Opened(n) else
    var m := matches[|matches| - 1];
    Credit(Credit(Settle(n, matches[..|matches| - 1]), m.taker, m.takerDelta, m.price), m.maker, -m.takerDelta, m.price)
  }

  function TotalSize(accounts: Accounts): real {
    if accounts == [] then 0.0 else accounts[0].position.size + TotalSize(accounts[1..])
  }

  function TotalPnl(accounts: Accounts, mark: real): real {
    if accounts == [] then 0.0
    else accounts[0].realised + Unrealised(accounts[0].position, mark) + TotalPnl(accounts[1..], mark)
  }

  lemma {:induction false} OneChanges(accounts: Accounts, user: nat, a: Applied, mark: real)
    requires user < |accounts|
    ensures TotalSize(accounts[user := a]) == TotalSize(accounts) + a.position.size - accounts[user].position.size
    ensures TotalPnl(accounts[user := a], mark) ==
            TotalPnl(accounts, mark) + a.realised + Unrealised(a.position, mark)
            - accounts[user].realised - Unrealised(accounts[user].position, mark)
  {
    if user == 0 {
      assert accounts[user := a][1..] == accounts[1..];
    } else {
      assert accounts[user := a][1..] == accounts[1..][user - 1 := a];
      OneChanges(accounts[1..], user - 1, a, mark);
    }
  }

  lemma CreditMoves(accounts: Accounts, user: nat, delta: real, price: real, mark: real)
    requires user < |accounts|
    ensures var after := Credit(accounts, user, delta, price);
            && TotalSize(after) == TotalSize(accounts) + delta
            && TotalPnl(after, mark) == TotalPnl(accounts, mark) + delta * (mark - price)
  {
    var p := accounts[user];
    var a := ApplyFill(p.position, delta, price);
    OneChanges(accounts, user, Applied(a.position, p.realised + a.realised), mark);
    FillIdentity(p.position, delta, price, mark);
  }

  lemma {:induction false} OpenedIsFlat(n: nat, mark: real)
    ensures TotalSize(Opened(n)) == 0.0 && TotalPnl(Opened(n), mark) == 0.0
  {
    if n > 0 {
      assert Opened(n)[1..] == Opened(n - 1);
      OpenedIsFlat(n - 1, mark);
    }
  }

  /** Main result: sizes and profits over all users always sum to zero. */
  lemma {:induction false} ZeroSum(n: nat, matches: seq<Match>, mark: real)
    requires Known(matches, n)
    ensures TotalSize(Settle(n, matches)) == 0.0
    ensures TotalPnl(Settle(n, matches), mark) == 0.0
  {
    hide Credit, TotalSize, TotalPnl;
    if matches == [] {
      OpenedIsFlat(n, mark);
    } else {
      var before, m := matches[..|matches| - 1], matches[|matches| - 1];
      ZeroSum(n, before, mark);
      var s0 := Settle(n, before);
      var s1 := Credit(s0, m.taker, m.takerDelta, m.price);
      CreditMoves(s0, m.taker, m.takerDelta, m.price, mark);
      CreditMoves(s1, m.maker, -m.takerDelta, m.price, mark);
      assert m.takerDelta * (mark - m.price) + -m.takerDelta * (mark - m.price) == 0.0;
    }
  }

  // ---- Health and liquidation price ----------------------------------------------------

  function MaintenanceMargin(p: Position, mark: real, mmBps: nat): real {
    Abs(p.size) * mark * mmBps as real / 10000.0
  }

  function Health(p: Position, mark: real, collateral: real, mmBps: nat): Option<real> {
    var mm := MaintenanceMargin(p, mark, mmBps);
    if mm == 0.0 then None else Some((collateral + Unrealised(p, mark)) / mm)
  }

  function LiquidationPrice(p: Position, collateral: real, mmBps: nat): Option<real> {
    if p.size == 0.0 then None else
    var ratio, size := mmBps as real / 10000.0, Abs(p.size);
    if p.size > 0.0 then
      var den := size * (1.0 - ratio);
      if den == 0.0 then None else Some((size * p.entry - collateral) / den)
    else
      var den := size * (1.0 + ratio);
      if den == 0.0 then None else Some((size * p.entry + collateral) / den)
  }

  predicate Liquidatable(p: Position, mark: real, collateral: real, mmBps: nat) {
    var h := Health(p, mark, collateral, mmBps);
    h.Some? && h.value < 1.0
  }

  /** The price as shown to the user, never negative. */
  function Shown(price: real): real {
    if price < 0.0 then 0.0 else price
  }

  lemma Quotient(num: real, den: real, x: real)
    requires den > 0.0
    ensures num / den < x <==> num < x * den
    ensures x < num / den <==> x * den < num
  {
    var q := num / den;
    assert q * den == num;
    if q < x { assert q * den < x * den; }
    if x < q { assert x * den < q * den; }
  }

  /** Health below one means equity below the maintenance margin. */
  lemma HealthMeans(p: Position, mark: real, collateral: real, mmBps: nat)
    requires MaintenanceMargin(p, mark, mmBps) > 0.0
    ensures Liquidatable(p, mark, collateral, mmBps) <==>
            collateral + Unrealised(p, mark) < MaintenanceMargin(p, mark, mmBps)
  {
    hide Unrealised, MaintenanceMargin;
    Quotient(collateral + Unrealised(p, mark), MaintenanceMargin(p, mark, mmBps), 1.0);
  }

  /** Health times the maintenance margin is the equity; without a margin there is no health. */
  lemma HealthExact(p: Position, mark: real, collateral: real, mmBps: nat)
    ensures var mm := (if p.size < 0.0 then -p.size else p.size) * mark * mmBps as real / 10000.0;
            var h := Health(p, mark, collateral, mmBps);
            && (h == None <==> mm == 0.0)
            && (h.Some? ==> h.value * mm == collateral + p.size * (mark - p.entry))
  {}

  lemma MarginIs(p: Position, mark: real, mmBps: nat)
    requires mark > 0.0 && p.size != 0.0 && mmBps > 0
    ensures MaintenanceMargin(p, mark, mmBps) == Abs(p.size) * mark * (mmBps as real / 10000.0) > 0.0
  {
    assert Abs(p.size) * mark > 0.0;
    assert Abs(p.size) * mark * mmBps as real > 0.0;
  }

  /** For a long, `k == 1 - ratio`; for a short, `k == 1 + ratio` and `c` counts the other way. A
      negative `k` turns the comparison round. */
  lemma ThresholdAlgebra(s: real, e: real, c: real, m: real, k: real, den: real)
    requires s > 0.0 && k != 0.0 && den == s * k
    ensures den != 0.0
    ensures var liq := (s * e - c) / den;
            && (c + s * (m - e) < s * m * (1.0 - k) <==> if k > 0.0 then m < liq else m > liq)
            && (c + s * (m - e) > s * m * (1.0 - k) <==> if k > 0.0 then m > liq else m < liq)
  {
    Scales(s, k);
    if k > 0.0 {
      Quotient(s * e - c, den, m);
    } else {
      Quotient(c - s * e, -den, m);
      SameQuotient(s * e - c, den);
    }
    assert m * den == s * m - s * m * (1.0 - k);
    assert s * (m - e) == s * m - s * e;
  }

  lemma Scales(s: real, k: real)
    requires s > 0.0 && k != 0.0
    ensures if k > 0.0 then s * k > 0.0 else s * k < 0.0
  {}

  lemma SameQuotient(num: real, den: real)
    requires den != 0.0
    ensures (-num) / (-den) == num / den
  {
    var q := num / den;
    assert q * den == num;
    assert q * (-den) == -num;
  }

  lemma LongPrice(p: Position, mark: real, collateral: real, mmBps: nat)
    requires p.size > 0.0 && mmBps != 10000
    ensures var liq, ratio := LiquidationPrice(p, collateral, mmBps), mmBps as real / 10000.0;
            liq.Some? && (collateral + p.size * (mark - p.entry) < p.size * mark * ratio <==>
                          if mmBps < 10000 then mark < liq.value else mark > liq.value)
  {
    var ratio := mmBps as real / 10000.0;
    ThresholdAlgebra(p.size, p.entry, collateral, mark, 1.0 - ratio, p.size * (1.0 - ratio));
  }

  lemma ShortPrice(p: Position, mark: real, collateral: real, mmBps: nat)
    requires p.size < 0.0
    ensures var liq, ratio := LiquidationPrice(p, collateral, mmBps), mmBps as real / 10000.0;
            liq.Some? && (collateral + p.size * (mark - p.entry) < -p.size * mark * ratio <==> mark > liq.value)
  {
    var ratio, s := mmBps as real / 10000.0, -p.size;
    ThresholdAlgebra(s, p.entry, -collateral, mark, 1.0 + ratio, s * (1.0 + ratio));
    Negated(s, mark, p.entry, ratio);
  }

  lemma Negated(s: real, m: real, e: real, r: real)
    ensures -s * (m - e) == -(s * (m - e))
    ensures s * m * (1.0 - (1.0 + r)) == -(s * m * r)
  {}

  /** The side of the liquidation price on which a position can be liquidated. */
  predicate Beyond(p: Position, mark: real, liq: real) {
    if p.size > 0.0 then mark < liq else mark > liq
  }

  /** For every maintenance ratio: what health below one means for the mark. Longs are liquidated
      below their price while the ratio is below one, but above it once the ratio exceeds one; at
      exactly one there is no price, and the mark does not matter. Clamping negative prices to
      zero for display changes nothing. */
  lemma LiquidationThreshold(p: Position, mark: real, collateral: real, mmBps: nat)
    requires mark > 0.0 && p.size != 0.0 && mmBps > 0
    ensures LiquidationPrice(p, collateral, mmBps).None? <==> p.size > 0.0 && mmBps == 10000
    ensures LiquidationPrice(p, collateral, mmBps).Some? ==>
              var liq := LiquidationPrice(p, collateral, mmBps).value;
              if p.size < 0.0 || mmBps < 10000 then
                && (Liquidatable(p, mark, collateral, mmBps) <==> Beyond(p, mark, liq))
                && (Liquidatable(p, mark, collateral, mmBps) <==> Beyond(p, mark, Shown(liq)))
              else
                && (Liquidatable(p, mark, collateral, mmBps) <==> mark > liq)
                && (Liquidatable(p, mark, collateral, mmBps) <==> mark > Shown(liq))
    ensures p.size > 0.0 && mmBps == 10000 ==> (Liquidatable(p, mark, collateral, mmBps) <==> collateral < p.size * p.entry)
  {
    hide Liquidatable, MaintenanceMargin, LiquidationPrice;
    MarginIs(p, mark, mmBps);
    HealthMeans(p, mark, collateral, mmBps);
    if p.size < 0.0 {
      ShortPrice(p, mark, collateral, mmBps);
    } else if mmBps != 10000 {
      LongPrice(p, mark, collateral, mmBps);
    } else {
      NoPrice(p, collateral);
      assert p.size * (mark - p.entry) == p.size * mark - p.size * p.entry;
    }
  }

  lemma NoPrice(p: Position, collateral: real)
    requires p.size > 0.0
    ensures LiquidationPrice(p, collateral, 10000).None?
  {}

  /** Health and liquidation price tell the same story at every mark. */
  ghost predicate ThresholdHolds(p: Position, collateral: real, mmBps: nat) {
    var liq := LiquidationPrice(p, collateral, mmBps);
    liq.Some? && forall mark | mark > 0.0 :: Liquidatable(p, mark, collateral, mmBps) <==> Beyond(p, mark, liq.value)
  }

  /** They do exactly for shorts, and for longs with a maintenance ratio below one. */
  lemma ThresholdIff(p: Position, collateral: real, mmBps: nat)
    requires p.size != 0.0 && mmBps > 0
    ensures ThresholdHolds(p, collateral, mmBps) <==> p.size < 0.0 || mmBps < 10000
  {
    hide Liquidatable, LiquidationPrice;
    var liq := LiquidationPrice(p, collateral, mmBps);
    LiquidationThreshold(p, 1.0, collateral, mmBps);
    forall mark | mark > 0.0 && liq.Some?
      ensures Liquidatable(p, mark, collateral, mmBps) <==>
              if p.size < 0.0 || mmBps < 10000 then Beyond(p, mark, liq.value) else mark > liq.value
    {
      LiquidationThreshold(p, mark, collateral, mmBps);
    }
    if p.size > 0.0 && mmBps > 10000 {
      var mark := Abs(liq.value) + 1.0;
      assert Liquidatable(p, mark, collateral, mmBps) && !Beyond(p, mark, liq.value);
    }
  }

  /** Such a long, in numbers: at a ratio of two it is liquidatable at 10 with a price of -50. */
  lemma ThresholdFailsAboveOne()
    ensures var p, liq := Position(1.0, 100.0), LiquidationPrice(Position(1.0, 100.0), 50.0, 20000);
            liq == Some(-50.0) && Liquidatable(p, 10.0, 50.0, 20000) && !Beyond(p, 10.0, liq.value)
  {}

  /** Without a maintenance margin there is no health, and nothing is ever liquidated. */
  lemma NoMaintenance(p: Position, mark: real, collateral: real)
    ensures !Liquidatable(p, mark, collateral, 0)
  {
    assert MaintenanceMargin(p, mark, 0) == 0.0;
  }
}
