/**
 The edge's position book: one list of positions per address, each with a side, a magnitude and an
 entry price kept as a whole number of 1e-18 units. It follows the margin engine's signed
 positions exactly in side and size, and in entry price up to one unit per fill.
 */
module EdgePositions {
  import opened OrderTypes
  import opened EdgeMatch
  import Margin

  /** `Buy` is long, `Sell` is short. */
  datatype EdgePosition = EdgePosition(market: MarketId, side: Side, size: real, entryX18: int, notional6: int)

  const X18: real := 1000000000000000000.0
  const USDC: real := 1000000.0

  /** Drop the fraction, towards zero. */
  function Trunc(x: real): (n: int)
    ensures x >= 0.0 ==> 0 <= n && n as real <= x < n as real + 1.0
    ensures x <= 0.0 ==> n <= 0 && n as real - 1.0 < x <= n as real
  {
    if x >= 0.0 then x.Floor else -((-x).Floor)
  }

  function ScaleX18(d: real): int {
    Trunc(d * X18)
  }

  function ScaleUsdc(d: real): int {
    Trunc(d * USDC)
  }

  /** Notional in millionths. */
  function Notional6(size: real, price: real): int {
    ScaleUsdc(size * price)
  }

  function Unscale(n: int): real {
    n as real / X18
  }

  /** Volume-weighted average of two prices. */
  function Average(s: real, e: real, q: real, p: real): real
    requires s + q != 0.0
  {
    (s * e + q * p) / (s + q)
  }

  // ---- One fill ------------------------------------------------------------------------

  /** Index of the first position in the market, or the length of the list. */
  function IndexOf(list: seq<EdgePosition>, market: MarketId): (i: nat)
    ensures i <= |list| && (i < |list| ==> list[i].market == market)
    ensures forall j | 0 <= j < i :: list[j].market != market
  {
    if list == [] || list[0].market == market then 0 else 1 + IndexOf(list[1..], market)
  }

  function Opened(market: MarketId, side: Side, qty: real, price: real): EdgePosition {
    EdgePosition(market, side, qty, ScaleX18(price), Notional6(qty, price))
  }

  function Added(p: EdgePosition, qty: real, price: real): EdgePosition {
    var size := p.size + qty;
    var entry := if size != 0.0 then Average(p.size, Unscale(p.entryX18), qty, price) else price;
    p.(size := size, entryX18 := ScaleX18(entry), notional6 := Notional6(size, entry))
  }

  function Reduced(p: EdgePosition, qty: real): EdgePosition {
    p.(size := p.size - qty, notional6 := Notional6(p.size - qty, Unscale(p.entryX18)))
  }

  /** Add, reduce, close (`None`) or flip. */
  function Moved(p: EdgePosition, side: Side, qty: real, price: real): Option<EdgePosition> {
    if p.side == side then Some(Added(p, qty, price))
    else if qty < p.size then Some(Reduced(p, qty))
    else if qty == p.size then None
    else Some(Opened(p.market, side, qty - p.size, price))
  }

  function FillList(list: seq<EdgePosition>, market: MarketId, side: Side, qty: real, price: real): seq<EdgePosition> {
    var i := IndexOf(list, market);
    if i == |list| then list + [Opened(market, side, qty, price)] else
    match Moved(list[i], side, qty, price)
    case None => list[..i] + list[i + 1..]
    case Some(p) => list[i := p]
  }

  // ---- Against the margin engine, one fill ---------------------------------------------

  function Signed(side: Side, qty: real): real {
    if side == Buy then qty else -qty
  }

  /** `k` units of 1e-18. */
  function Units(k: nat): real {
    k as real / X18
  }

  predicate Near(stored: int, exact: real, k: nat) {
    -Units(k) <= exact - Unscale(stored) <= Units(k)
  }

  /** Truncation has only ever lost. */
  predicate Below(stored: int, exact: real) {
    0 <= stored && Unscale(stored) <= exact
  }

  /** The stored position is the exact one but for `k` truncations. */
  predicate Matches(p: EdgePosition, core: Margin.Position, k: nat) {
    p.size > 0.0 && core.size == Signed(p.side, p.size) && Near(p.entryX18, core.entry, k)
  }

  lemma ScaleLoses(d: real)
    ensures -Units(1) <= d - Unscale(ScaleX18(d)) <= Units(1)
    ensures d >= 0.0 ==> Below(ScaleX18(d), d)
  {
    var n := ScaleX18(d);
    assert Unscale(n) * X18 == n as real;
    if d >= 0.0 { assert d * X18 >= 0.0; } else { assert d * X18 <= 0.0; }
  }

  lemma UnitsAdd(k: nat)
    ensures Units(k + 1) == Units(k) + Units(1) && Units(k) >= 0.0
  {}

  /** Averaging with an exact price does not widen a gap. */
  lemma AverageNarrows(s: real, e: real, e': real, q: real, p: real, gap: real)
    requires s > 0.0 && q > 0.0 && -gap <= e - e' <= gap
    ensures -gap <= Average(s, e, q, p) - Average(s, e', q, p) <= gap
    ensures e' <= e ==> Average(s, e', q, p) <= Average(s, e, q, p)
    ensures e' >= 0.0 && p >= 0.0 ==> Average(s, e', q, p) >= 0.0
  {
    var d := Average(s, e, q, p) - Average(s, e', q, p);
    AverageTimes(s, e, q, p);
    AverageTimes(s, e', q, p);
    Spread(s, q, e - e', d, gap);
    if e' >= 0.0 && p >= 0.0 {
      NonNegativeSum(s, e', q, p);
      Sign(s + q, Average(s, e', q, p), s * e' + q * p);
    }
  }

  lemma AverageTimes(s: real, e: real, q: real, p: real)
    requires s + q != 0.0
    ensures Average(s, e, q, p) * (s + q) == s * e + q * p
  {}

  lemma NonNegativeSum(s: real, e: real, q: real, p: real)
    requires s >= 0.0 && q >= 0.0 && e >= 0.0 && p >= 0.0
    ensures s * e + q * p >= 0.0
  {}

  lemma Sign(n: real, a: real, t: real)
    requires n > 0.0 && a * n == t && t >= 0.0
    ensures a >= 0.0
  {}

  lemma Spread(s: real, q: real, x: real, d: real, gap: real)
    requires s > 0.0 && q > 0.0 && -gap <= x <= gap
    requires d * (s + q) == s * x
    ensures -gap <= d <= gap && (x >= 0.0 ==> d >= 0.0)
  {
    AtMost(s, q, x, d, gap);
    Mirrored(s, q, x, d);
    AtMost(s, q, -x, -d, gap);
    if x >= 0.0 { AtMost(s, q, -x, -d, 0.0); }
  }

  lemma Mirrored(s: real, q: real, x: real, d: real)
    requires d * (s + q) == s * x
    ensures -d * (s + q) == s * -x
  {}

  lemma AtMost(s: real, q: real, x: real, d: real, gap: real)
    requires s > 0.0 && q > 0.0 && x <= gap && gap >= 0.0
    requires d * (s + q) == s * x
    ensures d <= gap
  {
    Product(gap, q);
    Product(gap - x, s);
    assert (d - gap) * (s + q) == d * (s + q) - gap * s - gap * q;
    assert (gap - x) * s == gap * s - s * x;
    assert (d - gap) * (s + q) <= 0.0;
    if d > gap { Strict(d - gap, s + q); }
  }

  lemma Product(a: real, b: real)
    requires a >= 0.0 && b >= 0.0
    ensures a * b >= 0.0
  {}

  lemma Strict(a: real, b: real)
    requires a > 0.0 && b > 0.0
    ensures a * b > 0.0
  {}

  lemma CoreAdds(core: Margin.Position, side: Side, size: real, qty: real, price: real)
    requires size > 0.0 && qty > 0.0 && core.size == Signed(side, size)
    ensures Margin.ApplyFill(core, Signed(side, qty), price).position ==
            Margin.Position(Signed(side, size + qty), Average(size, core.entry, qty, price))
  {}

  lemma CoreReduces(core: Margin.Position, side: Side, size: real, qty: real, price: real)
    requires size > 0.0 && qty > 0.0 && core.size == Signed(side, size)
    ensures var a := Margin.ApplyFill(core, Signed(side.Opposite(), qty), price).position;
            if qty < size then a == Margin.Position(Signed(side, size - qty), core.entry)
            else if qty == size then a == Margin.FLAT
            else a == Margin.Position(Signed(side.Opposite(), qty - size), price)
  {}

  lemma AddMatches(p: EdgePosition, core: Margin.Position, k: nat, qty: real, price: real)
    requires Matches(p, core, k) && qty > 0.0
    ensures Matches(Added(p, qty, price), Margin.ApplyFill(core, Signed(p.side, qty), price).position, k + 1)
    ensures Below(p.entryX18, core.entry) && price >= 0.0 ==>
            Below(Added(p, qty, price).entryX18, Margin.ApplyFill(core, Signed(p.side, qty), price).position.entry)
  {
    hide Average, Margin.ApplyFill, ScaleX18, Unscale, Units, Notional6;
    var stored := Unscale(p.entryX18);
    CoreAdds(core, p.side, p.size, qty, price);
    AverageNarrows(p.size, core.entry, stored, qty, price, Units(k));
    ScaleLoses(Average(p.size, stored, qty, price));
    UnitsAdd(k);
    UnscaleSign(p.entryX18);
  }

  lemma UnscaleSign(n: int)
    ensures 0 <= n ==> Unscale(n) >= 0.0
  {}

  /** Whichever branch a fill takes, the two books stay together. */
  lemma MoveMatches(p: EdgePosition, core: Margin.Position, k: nat, side: Side, qty: real, price: real)
    requires Matches(p, core, k) && qty > 0.0
    ensures var a := Margin.ApplyFill(core, Signed(side, qty), price).position;
            match Moved(p, side, qty, price)
            case None => a == Margin.FLAT
            case Some(q) => && Matches(q, a, k + 1) && q.market == p.market
                            && (Below(p.entryX18, core.entry) && price >= 0.0 ==> Below(q.entryX18, a.entry))
  {
    hide Average, Margin.ApplyFill, ScaleX18, Unscale, Units, Notional6;
    UnitsAdd(k);
    if p.side == side {
      AddMatches(p, core, k, qty, price);
    } else {
      assert side == p.side.Opposite();
      CoreReduces(core, p.side, p.size, qty, price);
      ScaleLoses(price);
    }
  }

  lemma OpenMatches(market: MarketId, side: Side, qty: real, price: real)
    requires qty > 0.0
    ensures Matches(Opened(market, side, qty, price), Margin.ApplyFill(Margin.FLAT, Signed(side, qty), price).position, 1)
    ensures price >= 0.0 ==>
            Below(Opened(market, side, qty, price).entryX18, Margin.ApplyFill(Margin.FLAT, Signed(side, qty), price).position.entry)
  {
    ScaleLoses(price);
  }

  // ---- Whole histories -----------------------------------------------------------------

  datatype PositionFill = PositionFill(market: MarketId, side: Side, qty: real, price: real)

  /** The list of one address after its fills. */
  function Book(fills: seq<PositionFill>): seq<EdgePosition> {
    if fills == [] then [] else
    var f := fills[|fills| - 1];
    FillList(Book(fills[..|fills| - 1]), f.market, f.side, f.qty, f.price)
  }

  /** The fills of one market as the margin engine sees them. */
  function TradesIn(fills: seq<PositionFill>, market: MarketId): seq<Margin.Trade> {
    if fills == [] then [] else
    var f, before := fills[|fills| - 1], TradesIn(fills[..|fills| - 1], market);
    if f.market == market then before + [Margin.Trade(Signed(f.side, f.qty), f.price)] else before
  }

  predicate OnePerMarket(list: seq<EdgePosition>) {
    forall i, j | 0 <= i < j < |list| :: list[i].market != list[j].market
  }

  /** What the list holds for one market is the exact position after `k` fills; `neverNegative`
      tells whether all prices were at least zero. */
  predicate Tracks(list: seq<EdgePosition>, market: MarketId, core: Margin.Position, k: nat, neverNegative: bool) {
    var i := IndexOf(list, market);
    if i == |list| then core == Margin.FLAT
    else Matches(list[i], core, k) && (neverNegative ==> Below(list[i].entryX18, core.entry))
  }

  lemma {:induction false} IndexUnique(list: seq<EdgePosition>, market: MarketId, i: nat)
    requires i <= |list| && (i < |list| ==> list[i].market == market) && forall j | 0 <= j < i :: list[j].market != market
    ensures IndexOf(list, market) == i
  {}

  /** Where a market's position is after a fill of another market. */
  lemma OtherMarket(list: seq<EdgePosition>, f: PositionFill, market: MarketId)
    requires market != f.market
    ensures var list' := FillList(list, f.market, f.side, f.qty, f.price);
            var i, i' := IndexOf(list, market), IndexOf(list', market);
            (i == |list|) == (i' == |list'|) && (i < |list| ==> list'[i'] == list[i])
  {
    hide IndexOf, Opened, Added, Reduced;
    var list' := FillList(list, f.market, f.side, f.qty, f.price);
    var i, n := IndexOf(list, market), IndexOf(list, f.market);
    MovedStays(list, f);
    if n == |list| {
      IndexUnique(list', market, if i == |list| then |list'| else i);
    } else if Moved(list[n], f.side, f.qty, f.price) == None {
      IndexUnique(list', market, if i > n then i - 1 else i);
    } else {
      IndexUnique(list', market, i);
    }
  }

  /** The same for the market of the fill. */
  lemma SameMarket(list: seq<EdgePosition>, f: PositionFill)
    requires OnePerMarket(list)
    ensures var list' := FillList(list, f.market, f.side, f.qty, f.price);
            var i, i' := IndexOf(list, f.market), IndexOf(list', f.market);
            if i == |list| then i' < |list'| && list'[i'] == Opened(f.market, f.side, f.qty, f.price)
            else match Moved(list[i], f.side, f.qty, f.price)
                 case None => i' == |list'|
                 case Some(p) => i' < |list'| && list'[i'] == p
  {
    hide IndexOf, Opened, Added, Reduced;
    var list' := FillList(list, f.market, f.side, f.qty, f.price);
    var i := IndexOf(list, f.market);
    MovedStays(list, f);
    if i == |list| {
      IndexUnique(list', f.market, i);
    } else if Moved(list[i], f.side, f.qty, f.price) == None {
      IndexUnique(list', f.market, |list'|);
    } else {
      IndexUnique(list', f.market, i);
    }
  }

  lemma MovedStays(list: seq<EdgePosition>, f: PositionFill)
    ensures Opened(f.market, f.side, f.qty, f.price).market == f.market
    ensures forall p | p in list && Moved(p, f.side, f.qty, f.price).Some? :: Moved(p, f.side, f.qty, f.price).value.market == p.market
  {}

  lemma FillKeepsOne(list: seq<EdgePosition>, f: PositionFill)
    requires OnePerMarket(list)
    ensures OnePerMarket(FillList(list, f.market, f.side, f.qty, f.price))
  {
    hide IndexOf, Opened, Added, Reduced;
    MovedStays(list, f);
  }

  lemma TradeAppended(trades: seq<Margin.Trade>, t: Margin.Trade)
    ensures Margin.Play(trades + [t]).position == Margin.ApplyFill(Margin.Play(trades).position, t.delta, t.price).position
  {
    hide Margin.ApplyFill;
    assert (trades + [t])[..|trades|] == trades;
  }

  lemma StepTracks(list: seq<EdgePosition>, f: PositionFill, core: Margin.Position, k: nat, before: bool)
    requires OnePerMarket(list) && f.qty > 0.0 && Tracks(list, f.market, core, k, before)
    ensures Tracks(FillList(list, f.market, f.side, f.qty, f.price), f.market,
                   Margin.ApplyFill(core, Signed(f.side, f.qty), f.price).position, k + 1, before && f.price >= 0.0)
  {
    hide Margin.ApplyFill, FillList, IndexOf, Near, Below, Opened, Moved;
    SameMarket(list, f);
    var i := IndexOf(list, f.market);
    if i == |list| {
      OpenMatches(f.market, f.side, f.qty, f.price);
      NearGrows(Opened(f.market, f.side, f.qty, f.price).entryX18, Margin.ApplyFill(core, Signed(f.side, f.qty), f.price).position.entry, k);
    } else {
      MoveMatches(list[i], core, k, f.side, f.qty, f.price);
    }
  }

  lemma NearGrows(stored: int, exact: real, k: nat)
    requires Near(stored, exact, 1)
    ensures Near(stored, exact, k + 1)
  {}

  predicate QuantitiesPositive(fills: seq<PositionFill>) {
    forall i | 0 <= i < |fills| :: fills[i].qty > 0.0
  }

  predicate NeverNegative(fills: seq<PositionFill>) {
    forall i | 0 <= i < |fills| :: fills[i].price >= 0.0
  }

  lemma LastFill(fills: seq<PositionFill>)
    requires fills != []
    ensures var n := |fills| - 1;
            && NeverNegative(fills) == (NeverNegative(fills[..n]) && fills[n].price >= 0.0)
            && (QuantitiesPositive(fills) ==> QuantitiesPositive(fills[..n]) && fills[n].qty > 0.0)
  {
    var n := |fills| - 1;
    assert forall i | 0 <= i < n :: fills[..n][i] == fills[i];
  }

  /** For any fills, in any markets: never two positions in one market, all sizes positive, and
      each market's position is the margin engine's, the entry price short by at most one unit of
      1e-18 per fill of that market. */
  lemma {:induction false} EdgeFollowsCore(fills: seq<PositionFill>, market: MarketId)
    requires QuantitiesPositive(fills)
    ensures OnePerMarket(Book(fills))
    ensures var trades := TradesIn(fills, market);
            Tracks(Book(fills), market, Margin.Play(trades).position, |trades|, NeverNegative(fills))
  {
    hide Margin.ApplyFill, FillList, Margin.Play, Tracks, OnePerMarket, Signed, QuantitiesPositive, NeverNegative;
    if fills == [] {
      NothingTracked(market);
    } else {
      var n := |fills| - 1;
      var f, before := fills[n], fills[..n];
      LastFill(fills);
      EdgeFollowsCore(before, market);
      var trades := TradesIn(before, market);
      FillKeepsOne(Book(before), f);
      if f.market == market {
        StepTracks(Book(before), f, Margin.Play(trades).position, |trades|, NeverNegative(before));
        TradeAppended(trades, Margin.Trade(Signed(f.side, f.qty), f.price));
      } else {
        OtherTracks(Book(before), f, market, Margin.Play(trades).position, |trades|, NeverNegative(before));
      }
    }
  }

  lemma NothingTracked(market: MarketId)
    ensures Tracks([], market, Margin.Play([]).position, 0, NeverNegative([])) && Book([]) == [] && OnePerMarket([])
  {}

  lemma OtherTracks(list: seq<EdgePosition>, f: PositionFill, market: MarketId, core: Margin.Position, k: nat, good: bool)
    requires Tracks(list, market, core, k, good) && market != f.market
    ensures Tracks(FillList(list, f.market, f.side, f.qty, f.price), market, core, k, good && f.price >= 0.0)
  {
    hide FillList, IndexOf, Matches, Below;
    OtherMarket(list, f, market);
  }

  /** The bound is not idle: one contract bought at 1 and two at 2 have an entry of 5/3. */
  lemma EntryIsRounded()
    ensures var core := Margin.ApplyFill(Margin.Position(1.0, 1.0), 2.0, 2.0).position;
            var p := Opened(0, Buy, 1.0, 1.0);
            Matches(p, Margin.Position(1.0, 1.0), 0) && Unscale(Added(p, 2.0, 2.0).entryX18) < core.entry
  {
    assert ScaleX18(1.0) as real == X18;
    assert Average(1.0, 1.0, 2.0, 2.0) == 5.0 / 3.0;
  }
}
