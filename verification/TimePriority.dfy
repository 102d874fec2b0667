/**
 The time half of price-time priority. Within a price, orders rest in the order in which their
 submits arrived, after every run; and they are filled in that order.
 */
module TimePriority {
  import opened OrderTypes
  import opened FlatBook
  import opened BookRuns
  import opened Greedy

  predicate Places(c: Command, id: OrderId) {
    c.Place? && c.order.id == id
  }

  /** The submit of `a` came before that of `b`. */
  predicate Earlier(cs: seq<Command>, a: OrderId, b: OrderId) {
    exists i, j :: 0 <= i < j < |cs| && Places(cs[i], a) && Places(cs[j], b)
  }

  /** At each price the older order comes first. */
  predicate InTime(cs: seq<Command>, s: seq<Order>) {
    forall i, j | 0 <= i < j < |s| && s[i].price == s[j].price :: Earlier(cs, s[i].id, s[j].id)
  }

  predicate BothInTime(cs: seq<Command>, f: Flat) {
    InTime(cs, f.bids) && InTime(cs, f.asks)
  }

  // ---- What lists keep it --------------------------------------------------------------

  lemma EarlierLater(cs: seq<Command>, c: Command, a: OrderId, b: OrderId)
    requires Earlier(cs, a, b)
    ensures Earlier(cs + [c], a, b)
  {
    var i, j :| 0 <= i < j < |cs| && Places(cs[i], a) && Places(cs[j], b);
    var all := cs + [c];
    assert all[i] == cs[i] && all[j] == cs[j];
  }

  lemma InTimeLater(cs: seq<Command>, c: Command, s: seq<Order>)
    requires InTime(cs, s)
    ensures InTime(cs + [c], s)
  {
    hide Earlier;
    forall i, j | 0 <= i < j < |s| && s[i].price == s[j].price ensures Earlier(cs + [c], s[i].id, s[j].id) {
      EarlierLater(cs, c, s[i].id, s[j].id);
    }
  }

  lemma NewestLast(cs: seq<Command>, c: Command, a: OrderId)
    requires c.Place? && a in PlacedIds(cs)
    ensures Earlier(cs + [c], a, c.order.id)
  {
    var i :| 0 <= i < |cs| && cs[i].Place? && cs[i].order.id == a;
    var all := cs + [c];
    assert Places(all[i], a) && Places(all[|cs|], c.order.id);
  }

  /** What is left after crossing is the end of the list, as far as ids and prices go. */
  lemma CrossedInTime(mode: SelfTradeMode, f: Flat, o: Order, cs: seq<Command>)
    requires Good(mode, f) && o.qty > 0.0 && BothInTime(cs, f)
    ensures BothInTime(cs, Crossed(mode, f, o))
  {
    hide Good, Walk, Earlier;
    CrossedKeepsGood(mode, f, o);
    var s, w := f.At(o.side.Opposite()), WalkOf(mode, f, o);
    var s' := Settle(w);
    var k := |s| - |s'|;
    forall i, j | 0 <= i < j < |s'| && s'[i].price == s'[j].price ensures Earlier(cs, s'[i].id, s'[j].id) {
      assert SuffixAt(mode, w, s, s', i) && SuffixAt(mode, w, s, s', j);
      assert Earlier(cs, s[k + i].id, s[k + j].id);
    }
  }

  /** A new order goes behind all others at its price. */
  lemma RestedInTime(f: Flat, o: Order, cs: seq<Command>, c: Command)
    requires Sorted(o.side, f.At(o.side)) && BothInTime(cs + [c], f) && Within(f, PlacedIds(cs)) && Places(c, o.id)
    ensures BothInTime(cs + [c], Rested(f, o))
  {
    hide Earlier, Insert;
    var s := f.At(o.side);
    var s' := Insert(o.side, s, o);
    var k := InsertAt(o.side, s, o);
    forall i, j | 0 <= i < j < |s'| && s'[i].price == s'[j].price ensures Earlier(cs + [c], s'[i].id, s'[j].id) {
      if j < k {
        assert Earlier(cs + [c], s[i].id, s[j].id);
      } else if j == k {
        assert s'[i] == s[i] && s[i].id in PlacedIds(cs);
        NewestLast(cs, c, s[i].id);
      } else if i > k {
        assert s'[i] == s[i - 1] && s'[j] == s[j - 1];
        assert Earlier(cs + [c], s[i - 1].id, s[j - 1].id);
      }
    }
  }

  lemma {:induction false} RemoveInTime(cs: seq<Command>, s: seq<Order>, id: OrderId)
    requires InTime(cs, s)
    ensures InTime(cs, Remove(s, id)) && forall o | o in Remove(s, id) :: o in s
  {
    hide Earlier;
    if s != [] {
      InTimeTail(cs, s);
      if s[0].id != id {
        RemoveInTime(cs, s[1..], id);
        InTimeCons(cs, s, Remove(s[1..], id));
      }
    }
  }

  lemma InTimeTail(cs: seq<Command>, s: seq<Order>)
    requires InTime(cs, s) && s != []
    ensures InTime(cs, s[1..])
  {
    hide Earlier;
    forall i, j | 0 <= i < j < |s| - 1 && s[1..][i].price == s[1..][j].price ensures Earlier(cs, s[1..][i].id, s[1..][j].id) {
      assert Earlier(cs, s[i + 1].id, s[j + 1].id);
    }
  }

  /** The first order in front of any of the later ones that are in time themselves. */
  lemma InTimeCons(cs: seq<Command>, s: seq<Order>, r: seq<Order>)
    requires s != [] && InTime(cs, s) && InTime(cs, r) && forall o | o in r :: o in s[1..]
    ensures InTime(cs, [s[0]] + r)
  {
    hide Earlier;
    var all := [s[0]] + r;
    forall i, j | 0 <= i < j < |all| && all[i].price == all[j].price ensures Earlier(cs, all[i].id, all[j].id) {
      if i == 0 {
        assert r[j - 1] in r;
        var k :| 0 <= k < |s[1..]| && s[1..][k] == r[j - 1];
        assert Earlier(cs, s[0].id, s[k + 1].id);
      } else {
        assert Earlier(cs, r[i - 1].id, r[j - 1].id);
      }
    }
  }

  // ---- Every run -----------------------------------------------------------------------

  lemma SubmitInTime(mode: SelfTradeMode, f: Flat, o: Order, reduces: bool, cs: seq<Command>)
    requires Good(mode, f) && Within(f, PlacedIds(cs)) && BothInTime(cs, f)
    ensures BothInTime(cs + [Place(o, reduces)], Submit(mode, f, o, reduces).0)
  {
    hide Good, Walk, InTime, Insert, Sorted;
    var c := Place(o, reduces);
    var w, f1, f' := WalkOf(mode, f, o), Crossed(mode, f, o), Submit(mode, f, o, reduces).0;
    BothLater(cs, c, f);
    if f' != f {
      CrossedInTime(mode, f, o, cs);
      BothLater(cs, c, f1);
      if f' != f1 {
        CrossedKeepsGood(mode, f, o);
        CrossedWithin(mode, f, o, PlacedIds(cs));
        SideSorted(mode, f1, o.side);
        RestedInTime(f1, o.(remaining := w.left), cs, c);
      }
    }
  }

  lemma SideSorted(mode: SelfTradeMode, f: Flat, side: Side)
    requires Good(mode, f)
    ensures Sorted(side, f.At(side))
  {}

  lemma BothLater(cs: seq<Command>, c: Command, f: Flat)
    requires BothInTime(cs, f)
    ensures BothInTime(cs + [c], f)
  {
    hide InTime;
    InTimeLater(cs, c, f.bids);
    InTimeLater(cs, c, f.asks);
  }

  /** Main result: after every run with fresh ids, in every mode and counting rejected submits,
      both sides hold equal prices in order of arrival. */
  lemma {:induction false} RunInTime(mode: SelfTradeMode, cs: seq<Command>)
    requires FreshIds(cs)
    ensures BothInTime(cs, Run(mode, cs))
  {
    hide Good, InTime, Submit;
    if cs == [] {
      NothingInTime();
    } else {
      var n := |cs| - 1;
      var before, c := cs[..n], cs[n];
      assert cs == before + [c];
      RunInTime(mode, before);
      RunIsGood(mode, before);
      var f := Run(mode, before);
      match c
      case Place(o, reduces) => SubmitInTime(mode, f, o, reduces, before);
      case Withdrawal(id) =>
        RemoveInTime(before, f.bids, id);
        RemoveInTime(before, f.asks, id);
        BothLater(before, c, Step(mode, f, c));
    }
  }

  lemma NothingInTime()
    ensures InTime([], [])
  {}

  lemma {:induction false} OthersInTime(cs: seq<Command>, taker: Order, s: seq<Order>)
    requires InTime(cs, s)
    ensures InTime(cs, Others(taker, s)) && forall o | o in Others(taker, s) :: o in s
  {
    hide Earlier;
    if s != [] {
      InTimeTail(cs, s);
      OthersInTime(cs, taker, s[1..]);
      InTimeCons(cs, s, Others(taker, s[1..]));
    }
  }

  /** And so a submit after any run fills, at each price, the older maker first. */
  lemma FilledInTime(mode: SelfTradeMode, cs: seq<Command>, o: Order, i: nat, j: nat)
    requires FreshIds(cs) && o.qty > 0.0
    requires var fills := WalkOf(mode, Run(mode, cs), o).fills; i < j < |fills| && fills[i].price == fills[j].price
    ensures var fills := WalkOf(mode, Run(mode, cs), o).fills; Earlier(cs, fills[i].makerOrderId, fills[j].makerOrderId)
  {
    hide Run, Walk, Good, Earlier, Others;
    var f, side := Run(mode, cs), o.side.Opposite();
    RunIsGood(mode, cs);
    RunInTime(mode, cs);
    GoodIsNonNegative(mode, f, side);
    WalkTakesInOrder(mode, o, o.qty, f.At(side), f.nextFillId);
    OthersInTime(cs, o, f.At(side));
    var makers := Partners(mode, o, f.At(side));
    assert InTime(cs, makers);
    assert makers[i].price == makers[j].price;
  }
}
