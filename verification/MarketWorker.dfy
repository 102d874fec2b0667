/**
 The per-market worker: it owns one book and a sequence counter, handles commands one at a time
 and appends fills and level deltas to its streams.
 */
module MarketWorker {
  import opened OrderTypes
  import opened FlatBook
  import opened BookRuns
  import opened DeltaReplay
  import opened TimePriority
  import opened Outcomes
  import opened Orderbook

  /** The fills reported over a run: those of every accepted submit, in order. */
  function Reported(mode: SelfTradeMode, cs: seq<Command>): seq<Fill> {
    if cs == [] then [] else
    var before, c := cs[..|cs| - 1], cs[|cs| - 1];
    var f := Run(mode, before);
    if c.Place? && Submit(mode, f, c.order, c.reduces).1.Ok?
    then Reported(mode, before) + Submit(mode, f, c.order, c.reduces).1.outcome.fills else Reported(mode, before)
  }

  class Worker {
    const book: Book
    var sequence: nat
    var deltas: seq<Delta>
    var fills: seq<Fill>

    ghost predicate Valid()
      reads this, book
    {
      book.Valid() && sequence == |deltas|
    }

    constructor (mode: SelfTradeMode)
      ensures Valid() && fresh(book) && book.mode == mode
      ensures book.View() == EMPTY && deltas == [] && fills == []
    {
      book := new Book(mode);
      sequence, deltas, fills := 0, [], [];
    }

    method HandleSubmit(order: Order, reduces: bool) returns (r: SubmitResult)
      requires Valid()
      modifies this, book
      ensures Valid()
      ensures (book.View(), r) == Submit(book.mode, old(book.View()), order, reduces)
      ensures deltas == old(deltas) + Emitted(book.mode, old(book.View()), Place(order, reduces), old(sequence))
      ensures fills == old(fills) + if r.Ok? then r.outcome.fills else []
    {
      r := book.Submit(order, reduces);
      if r.Ok? {
        Publish(order, r.outcome);
      }
    }

    /** Append a fill and the level it leaves behind for each trade, then the level the order rests on. */
    method Publish(order: Order, out: Outcome)
      requires Valid()
      modifies this
      ensures Valid()
      ensures deltas == old(deltas) + SubmitDeltas(book.View(), order, Ok(out), old(sequence))
      ensures fills == old(fills) + out.fills
    {
      hide FillDeltas, SubmitDeltas;
      ghost var view, sent, maker := book.View(), deltas, order.side.Opposite();
      ghost var all := FillDeltas(view, maker, out.fills, sequence);
      var i := 0;
      while i < |out.fills|
        invariant i <= |out.fills| && sequence == |deltas|
        invariant deltas + FillDeltas(view, maker, out.fills[i..], sequence) == sent + all
        invariant fills == old(fills) + out.fills[..i]
      {
        var f := out.fills[i];
        ghost var ds := FillDeltas(view, maker, out.fills[i + 1..], sequence + 1);
        FirstDelta(view, maker, out.fills, i, sequence);
        sequence := sequence + 1;
        fills := fills + [f];
        var residual := book.LevelQuantity(order.side.Opposite(), f.price);
        var d := Delta(sequence, order.side.Opposite(), f.price, residual);
        Shift(deltas, d, ds);
        deltas := deltas + [d];
        i := i + 1;
      }
      assert out.fills[i..] == [] && deltas == sent + all;
      LastDelta(view, order, out, old(sequence));
      if out.resting.Some? {
        sequence := sequence + 1;
        var residual := book.LevelQuantity(order.side, order.price);
        deltas := deltas + [Delta(sequence, order.side, order.price, residual)];
      }
    }

    static lemma FirstDelta(view: Flat, side: Side, fills: seq<Fill>, i: nat, sequence: nat)
      requires i < |fills|
      ensures FillDeltas(view, side, fills[i..], sequence) ==
              [Delta(sequence + 1, side, fills[i].price, LevelQty(view.At(side), fills[i].price))]
              + FillDeltas(view, side, fills[i + 1..], sequence + 1)
    {
      assert fills[i..][1..] == fills[i + 1..];
    }

    static lemma LastDelta(view: Flat, o: Order, out: Outcome, sequence: nat)
      ensures var ds := FillDeltas(view, o.side.Opposite(), out.fills, sequence);
              SubmitDeltas(view, o, Ok(out), sequence) ==
              if out.resting.Some? then ds + [Delta(sequence + |ds| + 1, o.side, o.price, LevelQty(view.At(o.side), o.price))] else ds
    {}

    static lemma Shift(a: seq<Delta>, d: Delta, b: seq<Delta>)
      ensures a + ([d] + b) == (a + [d]) + b
    {}

    method HandleCancel(id: OrderId) returns (removed: bool)
      requires Valid()
      modifies book
      ensures Valid()
      ensures (book.View(), removed) == Cancel(old(book.View()), id)
    {
      removed := book.Cancel(id);
    }

    method Handle(c: Command)
      requires Valid()
      modifies this, book
      ensures Valid()
      ensures book.View() == Step(book.mode, old(book.View()), c)
      ensures deltas == old(deltas) + Emitted(book.mode, old(book.View()), c, old(sequence))
      ensures var f := old(book.View());
              fills == old(fills) + if c.Place? && Submit(book.mode, f, c.order, c.reduces).1.Ok?
                                    then Submit(book.mode, f, c.order, c.reduces).1.outcome.fills else []
    {
      match c {
        case Place(order, reduces) => var _ := HandleSubmit(order, reduces);
        case Withdrawal(id) => var _ := HandleCancel(id);
      }
    }
  }

  /** Whatever is not reported was traded by a submit that was rejected half way: where there is none,
      the fills reported are all the fills of the run. */
  lemma {:induction false} ReportsAll(mode: SelfTradeMode, cs: seq<Command>)
    requires forall k | 0 <= k < |cs| && cs[k].Place? ::
               var f := Run(mode, cs[..k]);
               PreCheck(f, cs[k].order, cs[k].reduces).Some? || Submit(mode, f, cs[k].order, cs[k].reduces).1.Ok?
    ensures Reported(mode, cs) == RunFills(mode, cs)
  {
    hide PreCheck, WalkOf, Crossed;
    if cs != [] {
      var before := cs[..|cs| - 1];
      forall k | 0 <= k < |before| ensures before[k] == cs[k] && before[..k] == cs[..k] {}
      ReportsAll(mode, before);
    }
  }

  /** A worker that has served `cs` has the book and the stream the run prescribes. Its two-level
      book therefore satisfies the invariant, and its stream replays to it when in step. */
  method Serve(mode: SelfTradeMode, cs: seq<Command>) returns (w: Worker)
    ensures fresh(w) && w.Valid() && w.book.mode == mode
    ensures w.book.View() == Run(mode, cs) && w.deltas == Stream(mode, cs) && w.fills == Reported(mode, cs)
    ensures FreshIds(cs) ==> Good(mode, w.book.View()) && BothInTime(cs, w.book.View())
    ensures FreshIds(cs) ==> BothDescend(cs, RunFills(mode, cs), w.book.View())
    ensures FreshIds(cs) && AllInStep(mode, cs) ==> Agrees(ApplyAll(map[], w.deltas), w.book.View())
  {
    w := new Worker(mode);
    assert cs[..0] == [];
    for i := 0 to |cs|
      invariant fresh(w) && fresh(w.book) && w.Valid() && w.book.mode == mode
      invariant w.book.View() == Run(mode, cs[..i]) && w.deltas == Stream(mode, cs[..i]) && w.fills == Reported(mode, cs[..i])
    {
      assert cs[..i + 1][..i] == cs[..i] && cs[..i + 1][i] == cs[i];
      w.Handle(cs[i]);
    }
    assert cs[..|cs|] == cs;
    if FreshIds(cs) {
      RunIsGood(mode, cs);
      RunInTime(mode, cs);
      RestingIsSubmitted(mode, cs);
      if AllInStep(mode, cs) { ReplayAgrees(mode, cs); }
    }
  }
}
