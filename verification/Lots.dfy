/**
 The simulator's first-in-first-out accounting, and its agreement with the average-cost
 accounting of the margin engine.
 */
module Lots {
  import OrderTypes
  import Margin

  datatype Side = Long | Short

  datatype Lot = Lot(side: Side, size: real, price: real)

  /** A remainder this small is dropped when its lot is being closed. */
  const DUST := 0.000000000001

  function Sign(side: Side): real {
    if side == Long then 1.0 else -1.0
  }

  function ClosePnl(head: Lot, closed: real, price: real): real {
    if head.side == Long then (price - head.price) * closed else (head.price - price) * closed
  }

  datatype Filled = Filled(lots: seq<Lot>, realised: real)

  /** Close opposite lots from the front, then open a lot with what remains. */
  function Fill(lots: seq<Lot>, side: Side, remaining: real, price: real, realised: real): Filled
    decreases |lots|, if remaining > 0.0 then 1 else 0
  {
    if remaining > 0.0 && lots != [] && lots[0].side != side then
      var head := lots[0];
      var closed := OrderTypes.Min(head.size, remaining);
      var left, rest, pnl := head.size - closed, remaining - closed, realised + ClosePnl(head, closed, price);
      if left <= DUST then Fill(lots[1..], side, rest, price, pnl)
      else Fill([head.(size := left)] + lots[1..], side, rest, price, pnl)
    else if remaining > 0.0 then Filled(lots + [Lot(side, remaining, price)], realised)
    else Filled(lots, realised)
  }

  class Simulator {
    var lots: seq<Lot>
    var inventory: real
    var realisedPnl: real

    constructor ()
      ensures lots == [] && inventory == 0.0 && realisedPnl == 0.0
    {
      lots, inventory, realisedPnl := [], 0.0, 0.0;
    }

    method ApplyFill(side: Side, size: real, price: real) returns (realised: real)
      modifies this`lots
      ensures Filled(lots, realised) == Fill(old(lots), side, size, price, 0.0)
    {
      var remaining := size;
      realised := 0.0;
      while remaining > 0.0 && lots != [] && lots[0].side != side
        invariant Fill(lots, side, remaining, price, realised) == Fill(old(lots), side, size, price, 0.0)
        decreases |lots|, if remaining > 0.0 then 1 else 0
      {
        var head := lots[0];
        var closed := OrderTypes.Min(head.size, remaining);
        realised := realised + ClosePnl(head, closed, price);
        remaining := remaining - closed;
        if head.size - closed <= DUST {
          lots := lots[1..];
        } else {
          lots := [head.(size := head.size - closed)] + lots[1..];
        }
      }
      if remaining > 0.0 {
        lots := lots + [Lot(side, remaining, price)];
      }
    }

    /** One quote that got filled. */
    method OnFill(side: Side, size: real, price: real)
      modifies this
      ensures lots == Fill(old(lots), side, size, price, 0.0).lots
      ensures realisedPnl == old(realisedPnl) + Fill(old(lots), side, size, price, 0.0).realised
      ensures inventory == old(inventory) + Sign(side) * size
    {
      var realised := ApplyFill(side, size, price);
      realisedPnl := realisedPnl + realised;
      if side == Long {
        inventory := inventory + size;
      } else {
        inventory := inventory - size;
      }
    }
  }

  // ---- One fill ------------------------------------------------------------------------

  predicate OneSided(lots: seq<Lot>) {
    forall i | 0 <= i < |lots| :: lots[i].size > 0.0 && lots[i].side == lots[0].side
  }

  function Signed(side: Side, size: real): real {
    Sign(side) * size
  }

  /** Profit at `mark` on `size` taken at `price`. */
  function Worth(side: Side, size: real, price: real, mark: real): real {
    Sign(side) * size * (mark - price)
  }

  /** Signed size of all lots. */
  function Held(lots: seq<Lot>): real {
    if lots == [] then 0.0 else Signed(lots[0].side, lots[0].size) + Held(lots[1..])
  }

  function MarkToMarket(lots: seq<Lot>, mark: real): real {
    if lots == [] then 0.0 else Worth(lots[0].side, lots[0].size, lots[0].price, mark) + MarkToMarket(lots[1..], mark)
  }

  /** Closing `size` from the front never leaves a remainder small enough to be dropped. */
  predicate NoDust(lots: seq<Lot>, size: real)
    decreases |lots|
  {
    lots != [] && size > 0.0 ==>
      var left := lots[0].size - size;
      if left > 0.0 then left > DUST else NoDust(lots[1..], -left)
  }

  predicate Clean(lots: seq<Lot>, side: Side, size: real) {
    lots != [] && lots[0].side != side ==> NoDust(lots, size)
  }

  lemma {:induction false} HeldSnoc(lots: seq<Lot>, l: Lot, mark: real)
    ensures Held(lots + [l]) == Held(lots) + Signed(l.side, l.size)
    ensures MarkToMarket(lots + [l], mark) == MarkToMarket(lots, mark) + Worth(l.side, l.size, l.price, mark)
  {
    hide Worth, Signed;
    if lots != [] {
      assert (lots + [l])[1..] == lots[1..] + [l];
      HeldSnoc(lots[1..], l, mark);
    } else {
      assert [l][1..] == [];
    }
  }

  /** Closing `c` of a lot realises what the lot and the fill are worth together. */
  lemma CloseWorth(head: Lot, side: Side, c: real, price: real, mark: real)
    requires head.side != side
    ensures ClosePnl(head, c, price) == Worth(head.side, c, head.price, mark) + Worth(side, c, price, mark)
    ensures Signed(head.side, c) + Signed(side, c) == 0.0
  {}

  lemma WorthSplit(side: Side, a: real, b: real, price: real, mark: real)
    ensures Worth(side, a + b, price, mark) == Worth(side, a, price, mark) + Worth(side, b, price, mark)
    ensures Signed(side, a + b) == Signed(side, a) + Signed(side, b)
    ensures Worth(side, 0.0, price, mark) == 0.0 && Signed(side, 0.0) == 0.0
  {}

  lemma HeadOf(head: Lot, rest: seq<Lot>, mark: real)
    ensures Held([head] + rest) == Signed(head.side, head.size) + Held(rest)
    ensures MarkToMarket([head] + rest, mark) == Worth(head.side, head.size, head.price, mark) + MarkToMarket(rest, mark)
  {
    hide Worth, Signed;
    assert ([head] + rest)[1..] == rest;
  }

  /** The fill moved the signed sum by its own size, and profit by what it is worth at the mark. */
  predicate Moved(lots: seq<Lot>, realised: real, f: Filled, side: Side, size: real, price: real, mark: real) {
    && Held(f.lots) == Held(lots) + Signed(side, size)
    && f.realised + MarkToMarket(f.lots, mark) == realised + MarkToMarket(lots, mark) + Worth(side, size, price, mark)
  }

  lemma MovedClose(lots: seq<Lot>, realised: real, f: Filled, side: Side, size: real, price: real, mark: real)
    requires lots != [] && lots[0].side != side
    requires Moved(lots[1..], realised + ClosePnl(lots[0], lots[0].size, price), f, side, size - lots[0].size, price, mark)
    ensures Moved(lots, realised, f, side, size, price, mark)
  {
    hide Worth, Signed, ClosePnl;
    CloseWorth(lots[0], side, lots[0].size, price, mark);
    WorthSplit(side, lots[0].size, size - lots[0].size, price, mark);
    assert lots[0].size + (size - lots[0].size) == size;
  }

  lemma MovedPart(lots: seq<Lot>, realised: real, side: Side, size: real, price: real, mark: real)
    requires lots != [] && lots[0].side != side
    ensures Moved(lots, realised, Filled([lots[0].(size := lots[0].size - size)] + lots[1..], realised + ClosePnl(lots[0], size, price)),
                  side, size, price, mark)
  {
    hide Worth, Signed, ClosePnl;
    CloseWorth(lots[0], side, size, price, mark);
    WorthSplit(lots[0].side, size, lots[0].size - size, lots[0].price, mark);
    assert size + (lots[0].size - size) == lots[0].size;
    HeadOf(lots[0].(size := lots[0].size - size), lots[1..], mark);
  }

  /** A fill that drops nothing keeps the lots on one side and moves sum and profit exactly. */
  lemma {:induction false} FillKeeps(lots: seq<Lot>, side: Side, size: real, price: real, realised: real, mark: real)
    requires OneSided(lots) && size >= 0.0 && Clean(lots, side, size)
    ensures OneSided(Fill(lots, side, size, price, realised).lots)
    ensures Moved(lots, realised, Fill(lots, side, size, price, realised), side, size, price, mark)
    decreases |lots|
  {
    hide Worth, Signed, ClosePnl, Moved;
    if size > 0.0 && lots != [] && lots[0].side != side {
      if lots[0].size <= size {
        FillKeeps(lots[1..], side, size - lots[0].size, price, realised + ClosePnl(lots[0], lots[0].size, price), mark);
        MovedClose(lots, realised, Fill(lots, side, size, price, realised), side, size, price, mark);
      } else {
        MovedPart(lots, realised, side, size, price, mark);
      }
    } else {
      MovedOpen(lots, realised, side, size, price, mark);
    }
  }

  lemma MovedOpen(lots: seq<Lot>, realised: real, side: Side, size: real, price: real, mark: real)
    ensures Moved(lots, realised, Filled(lots + [Lot(side, size, price)], realised), side, size, price, mark)
    ensures size == 0.0 ==> Moved(lots, realised, Filled(lots, realised), side, size, price, mark)
  {
    HeldSnoc(lots, Lot(side, size, price), mark);
    WorthSplit(side, 0.0, 0.0, price, mark);
  }

  // ---- Oldest first --------------------------------------------------------------------

  function PnlOf(lots: seq<Lot>, price: real): real {
    if lots == [] then 0.0 else ClosePnl(lots[0], lots[0].size, price) + PnlOf(lots[1..], price)
  }

  /** What is left of `lots` once the `k` oldest are gone: the next one, possibly reduced, and all
      younger ones as they were; or, if none are left, at most one lot of the fill itself. */
  predicate OldestGone(lots: seq<Lot>, k: nat, side: Side, price: real, left: seq<Lot>) {
    if k < |lots| then
      && left != [] && left == [lots[k].(size := left[0].size)] + lots[k + 1..] && 0.0 < left[0].size <= lots[k].size
    else
      k == |lots| && (left == [] || left == [Lot(side, left[0].size, price)])
  }

  /** First in, first out: a fill closes opposite lots from the oldest on, and if it drops nothing
      realises each at its own price; on its own side it adds the youngest lot and realises nothing. */
  lemma {:induction false} FirstInFirstOut(lots: seq<Lot>, side: Side, size: real, price: real, realised: real) returns (k: nat)
    requires OneSided(lots) && size > 0.0
    ensures var f := Fill(lots, side, size, price, realised);
            if lots != [] && lots[0].side != side then
              && OldestGone(lots, k, side, price, f.lots)
              && (NoDust(lots, size) ==> f.realised == realised + PnlOf(lots[..k], price)
                                         + if k < |lots| then ClosePnl(lots[k], lots[k].size - f.lots[0].size, price) else 0.0)
            else f == Filled(lots + [Lot(side, size, price)], realised)
    decreases |lots|
  {
    hide ClosePnl;
    k := 0;
    if lots != [] && lots[0].side != side {
      var head, rest := lots[0], lots[1..];
      var closed := OrderTypes.Min(head.size, size);
      var left, more, pnl := head.size - closed, size - closed, realised + ClosePnl(head, closed, price);
      assert lots[..0] == [];
      ClosedNothing(head, price);
      if left <= DUST {
        k := 1;
        assert lots[..1] == [head] && [head][1..] == [];
        if more > 0.0 {
          var j := FirstInFirstOut(rest, side, more, price, pnl);
          if rest != [] {
            k := j + 1;
            assert lots[..k][1..] == rest[..j] && lots[..k][0] == head;
          }
        } else if rest != [] {
          assert rest == [rest[0].(size := rest[0].size)] + rest[1..];
          ClosedNothing(rest[0], price);
        }
      } else {
        assert Fill(lots, side, size, price, realised) == Filled([head.(size := left)] + rest, pnl);
      }
    }
  }

  lemma ClosedNothing(head: Lot, price: real)
    ensures ClosePnl(head, 0.0, price) == 0.0
  {}

  // ---- Whole histories -----------------------------------------------------------------

  datatype Quote = Quote(side: Side, size: real, price: real)

  function Play(quotes: seq<Quote>): Filled {
    if quotes == [] then Filled([], 0.0) else
    var before, q := Play(quotes[..|quotes| - 1]), quotes[|quotes| - 1];
    Fill(before.lots, q.side, q.size, q.price, before.realised)
  }

  /** The same fills as the margin engine books them. */
  function Trades(quotes: seq<Quote>): (ts: seq<Margin.Trade>)
    ensures |ts| == |quotes|
  {
    if quotes == [] then [] else
    var q := quotes[|quotes| - 1];
    Trades(quotes[..|quotes| - 1]) + [Margin.Trade(Signed(q.side, q.size), q.price)]
  }

  /** Every fill of the history drops nothing. */
  predicate AllClean(quotes: seq<Quote>) {
    forall k | 0 <= k < |quotes| :: quotes[k].size >= 0.0 && Clean(Play(quotes[..k]).lots, quotes[k].side, quotes[k].size)
  }

  lemma {:induction false} HistoryKeeps(quotes: seq<Quote>, mark: real)
    requires AllClean(quotes)
    ensures OneSided(Play(quotes).lots)
    ensures Held(Play(quotes).lots) == Margin.Net(Trades(quotes))
    ensures Play(quotes).realised + MarkToMarket(Play(quotes).lots, mark) == Margin.Value(Trades(quotes), mark)
  {
    hide Fill, Clean, Signed, Worth;
    if quotes != [] {
      var n := |quotes| - 1;
      var before, q := quotes[..n], quotes[n];
      assert AllClean(before) by {
        forall k | 0 <= k < n ensures before[k] == quotes[k] && before[..k] == quotes[..k] {}
      }
      HistoryKeeps(before, mark);
      FillKeeps(Play(before).lots, q.side, q.size, q.price, Play(before).realised, mark);
      TradesSnoc(quotes, mark);
    }
  }

  lemma TradesSnoc(quotes: seq<Quote>, mark: real)
    requires quotes != []
    ensures var before, q := quotes[..|quotes| - 1], quotes[|quotes| - 1];
            && Margin.Net(Trades(quotes)) == Margin.Net(Trades(before)) + Signed(q.side, q.size)
            && Margin.Value(Trades(quotes), mark) == Margin.Value(Trades(before), mark) + Worth(q.side, q.size, q.price, mark)
  {
    hide Signed, Worth, Margin.Worth;
    var ts, q := Trades(quotes), quotes[|quotes| - 1];
    assert ts[..|ts| - 1] == Trades(quotes[..|quotes| - 1]);
    assert ts[|ts| - 1] == Margin.Trade(Signed(q.side, q.size), q.price);
    WorthIs(q.side, q.size, q.price, mark);
  }

  lemma WorthIs(side: Side, size: real, price: real, mark: real)
    ensures Worth(side, size, price, mark) == Margin.Worth(Margin.Trade(Signed(side, size), price), mark)
  {}

  lemma {:induction false} OneSidedSum(lots: seq<Lot>)
    requires OneSided(lots)
    ensures lots != [] ==> (if lots[0].side == Long then Held(lots) > 0.0 else Held(lots) < 0.0)
  {
    if |lots| > 1 { OneSidedSum(lots[1..]); }
  }

  /** Main result: both accountings agree. Equity is equal at every mark, and realised profit is
      equal whenever the inventory is back at zero. */
  lemma AccountingsAgree(quotes: seq<Quote>, mark: real)
    requires AllClean(quotes)
    ensures var fifo, core := Play(quotes), Margin.Play(Trades(quotes));
            && OneSided(fifo.lots) && Held(fifo.lots) == core.position.size
            && fifo.realised + MarkToMarket(fifo.lots, mark) == core.realised + Margin.Unrealised(core.position, mark)
            && (core.position.size == 0.0 ==> fifo.lots == [] && fifo.realised == core.realised)
  {
    HistoryKeeps(quotes, mark);
    Margin.PnlIdentity(Trades(quotes), mark);
    OneSidedSum(Play(quotes).lots);
  }

  // ---- When nothing is dropped ---------------------------------------------------------

  predicate AllOfSize(lots: seq<Lot>, size: real) {
    forall i | 0 <= i < |lots| :: lots[i].size == size
  }

  lemma EqualSizesClean(lots: seq<Lot>, side: Side, size: real, price: real, realised: real)
    requires AllOfSize(lots, size) && size > 0.0
    ensures Clean(lots, side, size) && AllOfSize(Fill(lots, side, size, price, realised).lots, size)
  {}

  /** Fills that all have one size, as the simulator's do, never drop anything. */
  lemma {:induction false} EqualSizes(quotes: seq<Quote>, size: real)
    requires size > 0.0 && forall k | 0 <= k < |quotes| :: quotes[k].size == size
    ensures AllClean(quotes) && AllOfSize(Play(quotes).lots, size)
  {
    hide Fill, Clean;
    if quotes != [] {
      var n := |quotes| - 1;
      var before, q := quotes[..n], quotes[n];
      EqualSizes(before, size);
      EqualSizesClean(Play(before).lots, q.side, size, q.price, Play(before).realised);
      forall k | 0 <= k < |quotes| ensures Clean(Play(quotes[..k]).lots, quotes[k].side, quotes[k].size) {
        if k < n { assert before[k] == quotes[k] && before[..k] == quotes[..k]; }
      }
    }
  }

  /** A dropped remainder is a real loss of inventory: the signed sum follows the fill exactly when
      the fill is clean. */
  lemma {:induction false} SumFollowsIff(lots: seq<Lot>, side: Side, size: real, price: real, realised: real)
    requires OneSided(lots) && size >= 0.0
    ensures Held(Fill(lots, side, size, price, realised).lots) == Held(lots) + Signed(side, size) <==> Clean(lots, side, size)
    decreases |lots|
  {
    if Clean(lots, side, size) {
      FillKeeps(lots, side, size, price, realised, 0.0);
    } else if lots[0].size <= size {
      var rest := size - lots[0].size;
      assert -(lots[0].size - size) == rest;
      assert !NoDust(lots[1..], rest) && lots[1..] != [] && lots[1..][0] == lots[1];
      SumFollowsIff(lots[1..], side, size - lots[0].size, price, realised + ClosePnl(lots[0], lots[0].size, price));
      CloseWorth(lots[0], side, lots[0].size, price, 0.0);
      WorthSplit(side, lots[0].size, size - lots[0].size, price, 0.0);
    } else {
      assert Fill(lots, side, size, price, realised).lots == lots[1..];
      WorthSplit(lots[0].side, size, lots[0].size - size, price, 0.0);
      CloseWorth(lots[0], side, size, price, 0.0);
    }
  }

  // ---- In place ------------------------------------------------------------------------

  lemma {:induction false} FillShift(lots: seq<Lot>, side: Side, size: real, price: real, realised: real)
    ensures var f, g := Fill(lots, side, size, price, 0.0), Fill(lots, side, size, price, realised);
            g.lots == f.lots && g.realised == realised + f.realised
    decreases |lots|, if size > 0.0 then 1 else 0
  {
    hide ClosePnl;
    if size > 0.0 && lots != [] && lots[0].side != side {
      var head := lots[0];
      var closed := OrderTypes.Min(head.size, size);
      var pnl := ClosePnl(head, closed, price);
      var rest := if head.size - closed <= DUST then lots[1..] else [head.(size := head.size - closed)] + lots[1..];
      FillShift(rest, side, size - closed, price, 0.0 + pnl);
      FillShift(rest, side, size - closed, price, realised + pnl);
    }
  }

  /** The simulator, given any filled quotes that drop nothing: its inventory is the sum of its lots,
      and its equity is the margin engine's at every mark. */
  method Simulate(quotes: seq<Quote>) returns (sim: Simulator)
    requires AllClean(quotes)
    ensures Filled(sim.lots, sim.realisedPnl) == Play(quotes) && sim.inventory == Held(sim.lots)
    ensures var core := Margin.Play(Trades(quotes));
            && (forall mark :: sim.realisedPnl + MarkToMarket(sim.lots, mark) == core.realised + Margin.Unrealised(core.position, mark))
            && (sim.inventory == 0.0 ==> sim.realisedPnl == core.realised)
  {
    hide Fill, Held, MarkToMarket, AllClean, Margin.Play, Margin.Net, Margin.Unrealised, Trades;
    sim := new Simulator();
    NothingPlayed();
    for i := 0 to |quotes|
      invariant fresh(sim) && Filled(sim.lots, sim.realisedPnl) == Play(quotes[..i]) && sim.inventory == Margin.Net(Trades(quotes[..i]))
    {
      var q := quotes[i];
      assert quotes[..i + 1][..i] == quotes[..i];
      FillShift(sim.lots, q.side, q.size, q.price, sim.realisedPnl);
      TradesSnoc(quotes[..i + 1], 0.0);
      sim.OnFill(q.side, q.size, q.price);
    }
    assert quotes[..|quotes|] == quotes;
    AgreesEverywhere(quotes);
  }

  lemma AgreesEverywhere(quotes: seq<Quote>)
    requires AllClean(quotes)
    ensures var fifo, core := Play(quotes), Margin.Play(Trades(quotes));
            && Held(fifo.lots) == Margin.Net(Trades(quotes))
            && (forall mark :: fifo.realised + MarkToMarket(fifo.lots, mark) == core.realised + Margin.Unrealised(core.position, mark))
            && (Held(fifo.lots) == 0.0 ==> fifo.realised == core.realised)
  {
    hide Play, Held, MarkToMarket, AllClean, Margin.Play, Margin.Net, Margin.Unrealised, Trades;
    HistoryKeeps(quotes, 0.0);
    AccountingsAgree(quotes, 0.0);
    forall mark ensures Play(quotes).realised + MarkToMarket(Play(quotes).lots, mark) ==
                        Margin.Play(Trades(quotes)).realised + Margin.Unrealised(Margin.Play(Trades(quotes)).position, mark) {
      AccountingsAgree(quotes, mark);
    }
  }

  lemma NothingPlayed()
    ensures Margin.Net(Trades([])) == 0.0 && Play([]) == Filled([], 0.0)
  {}
}
