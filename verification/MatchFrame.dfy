/**
 What a match leaves alone. Only the lists of the makers it filled change, and there only
 remaining quantities move and used-up orders disappear; every order still resting afterwards has
 something left.
 */
module MatchFrame {
  import opened OrderTypes
  import opened EdgeMatch
  import opened Persistence

  predicate HasMaker(fills: seq<Matched>, a: Address) {
    exists i :: 0 <= i < |fills| && fills[i].maker == a
  }

  /** Only remaining quantities differ. */
  predicate SameOrders(list: seq<OpenOrder>, list': seq<OpenOrder>) {
    |list| == |list'| && forall i | 0 <= i < |list| :: list'[i] == list[i].(remaining := list'[i].remaining)
  }

  /** How far a remaining quantity `x` may have moved to `y`: down, not below zero; an order that
      was already negative is left alone or ends at zero. */
  predicate Eased(x: real, y: real) {
    if x >= 0.0 then 0.0 <= y <= x else y == x || y == 0.0
  }

  predicate AllEased(list: seq<OpenOrder>, list': seq<OpenOrder>) {
    |list| == |list'| && forall i | 0 <= i < |list| :: Eased(list[i].remaining, list'[i].remaining)
  }

  /** `o'` is `o` but for its remaining quantity, which, if `lower`, has not grown. */
  predicate Survives(o: OpenOrder, o': OpenOrder, lower: bool) {
    o' == o.(remaining := o'.remaining) && (lower ==> o'.remaining <= o.remaining)
  }

  predicate Survivor(list: seq<OpenOrder>, o': OpenOrder, lower: bool) {
    exists j :: 0 <= j < |list| && Survives(list[j], o', lower)
  }

  /** Every order of `list'` is one of `list`, up to what remains of it. */
  predicate AllSurvive(list': seq<OpenOrder>, list: seq<OpenOrder>, lower: bool) {
    forall i | 0 <= i < |list'| :: Survivor(list, list'[i], lower)
  }

  predicate ZerosIn(list: seq<OpenOrder>, market: MarketId) {
    forall i | 0 <= i < |list| :: list[i].remaining == 0.0 ==> list[i].market == market
  }

  predicate NonZero(list: seq<OpenOrder>) {
    forall i | 0 <= i < |list| :: list[i].remaining != 0.0
  }

  predicate HasId(list: seq<OpenOrder>, id: OrderId) {
    exists i :: 0 <= i < |list| && list[i].id == id
  }

  predicate IdsWithin(list': seq<OpenOrder>, list: seq<OpenOrder>) {
    forall i | 0 <= i < |list'| :: HasId(list, list'[i].id)
  }

  /** The order the candidate names, if it is still there, is one of this market. */
  predicate Aims(orders: Orders, c: Candidate, market: MarketId) {
    var list := ListOf(orders, c.maker);
    var k := Find(list, c.id);
    k < |list| ==> list[k].market == market
  }

  predicate AllAim(orders: Orders, cs: seq<Candidate>, market: MarketId) {
    forall i | 0 <= i < |cs| :: Aims(orders, cs[i], market)
  }

  // ---- Committing ----------------------------------------------------------------------

  lemma ReduceFrame(orders: Orders, c: Candidate, qty: real, market: MarketId, a: Address)
    requires Find(ListOf(orders, c.maker), c.id) < |ListOf(orders, c.maker)| && Aims(orders, c, market)
    requires ZerosIn(ListOf(orders, a), market)
    ensures var orders' := Reduce(orders, c.maker, c.id, qty);
            && SameOrders(ListOf(orders, a), ListOf(orders', a)) && ZerosIn(ListOf(orders', a), market)
            && (a != c.maker ==> ListOf(orders', a) == ListOf(orders, a))
  {
    hide Find;
  }

  lemma ReduceEases(orders: Orders, c: Candidate, left: real, a: Address)
    requires Find(ListOf(orders, c.maker), c.id) < |ListOf(orders, c.maker)| && left >= 0.0
    ensures AllEased(ListOf(orders, a), ListOf(Reduce(orders, c.maker, c.id, Min(left, Remains(orders, c.maker, c.id))), a))
  {
    hide Find;
  }

  lemma EasedTrans(x: seq<OpenOrder>, y: seq<OpenOrder>, z: seq<OpenOrder>)
    requires AllEased(x, y) && AllEased(y, z)
    ensures AllEased(x, z)
  {
    forall i | 0 <= i < |x| ensures Eased(x[i].remaining, z[i].remaining) {
      assert Eased(x[i].remaining, y[i].remaining) && Eased(y[i].remaining, z[i].remaining);
    }
  }

  lemma EasedSelf(x: seq<OpenOrder>)
    ensures AllEased(x, x)
  {}

  /** A commit of a quantity that is not negative only ever takes from orders. */
  lemma {:induction false} CommitEases(orders: Orders, cs: seq<Candidate>, left: real, fills: seq<Matched>, a: Address)
    requires left >= 0.0
    ensures AllEased(ListOf(orders, a), ListOf(Commit(orders, cs, left, fills).orders, a))
    decreases |cs|
  {
    hide ListOf, Reduce, Remains, AllEased;
    if cs == [] || left == 0.0 {
      EasedSelf(ListOf(orders, a));
    } else {
      var c := cs[0];
      var there := Remains(orders, c.maker, c.id);
      if there == 0.0 {
        CommitEases(orders, cs[1..], left, fills, a);
      } else {
        var qty := Min(left, there);
        IsThere(orders, c);
        var orders', fills' := Reduce(orders, c.maker, c.id, qty), fills + [Matched(c.maker, c.id, c.price, qty)];
        ReduceEases(orders, c, left, a);
        CommitEases(orders', cs[1..], left - qty, fills', a);
        EasedTrans(ListOf(orders, a), ListOf(orders', a), ListOf(Commit(orders', cs[1..], left - qty, fills').orders, a));
      }
    }
  }

  lemma ReduceAims(orders: Orders, c: Candidate, qty: real, d: Candidate, market: MarketId)
    requires Find(ListOf(orders, c.maker), c.id) < |ListOf(orders, c.maker)| && Aims(orders, d, market)
    ensures Aims(Reduce(orders, c.maker, c.id, qty), d, market)
  {
    hide Find;
    if c.maker == d.maker {
      var list := orders[c.maker];
      var k := Find(list, c.id);
      FindUnchanged(list, k, list[k].remaining - qty, d.id);
    }
  }

  lemma SameTrans(x: seq<OpenOrder>, y: seq<OpenOrder>, z: seq<OpenOrder>)
    requires SameOrders(x, y) && SameOrders(y, z)
    ensures SameOrders(x, z)
  {}

  lemma {:induction false} CommitFrame(orders: Orders, cs: seq<Candidate>, left: real, fills: seq<Matched>, market: MarketId, a: Address)
    requires AllAim(orders, cs, market) && ZerosIn(ListOf(orders, a), market)
    ensures var r := Commit(orders, cs, left, fills);
            && SameOrders(ListOf(orders, a), ListOf(r.orders, a)) && ZerosIn(ListOf(r.orders, a), market)
            && (HasMaker(r.fills, a) || ListOf(r.orders, a) == ListOf(orders, a))
            && (HasMaker(fills, a) ==> HasMaker(r.fills, a))
    decreases |cs|
  {
    hide ListOf, Reduce, Aims, ZerosIn, Remains, HasMaker;
    if cs != [] && left != 0.0 {
      var c := cs[0];
      assert Aims(orders, c, market);
      var there := Remains(orders, c.maker, c.id);
      if there == 0.0 {
        CommitFrame(orders, cs[1..], left, fills, market, a);
      } else {
        var qty := Min(left, there);
        var fills' := fills + [Matched(c.maker, c.id, c.price, qty)];
        IsThere(orders, c);
        ReduceFrame(orders, c, qty, market, a);
        var orders' := Reduce(orders, c.maker, c.id, qty);
        forall i | 0 <= i < |cs| - 1 ensures Aims(orders', cs[1..][i], market) { ReduceAims(orders, c, qty, cs[i + 1], market); }
        MakerAppended(fills, Matched(c.maker, c.id, c.price, qty), a);
        CommitFrame(orders', cs[1..], left - qty, fills', market, a);
        SameTrans(ListOf(orders, a), ListOf(orders', a), ListOf(Commit(orders', cs[1..], left - qty, fills').orders, a));
      }
    }
  }

  lemma IsThere(orders: Orders, c: Candidate)
    requires Remains(orders, c.maker, c.id) != 0.0
    ensures Find(ListOf(orders, c.maker), c.id) < |ListOf(orders, c.maker)|
  {}

  lemma MakerAppended(fills: seq<Matched>, f: Matched, a: Address)
    ensures f.maker == a || HasMaker(fills, a) ==> HasMaker(fills + [f], a)
  {
    var s := fills + [f];
    assert s[|fills|] == f;
    if HasMaker(fills, a) {
      var i :| 0 <= i < |fills| && fills[i].maker == a;
      assert s[i].maker == a;
    }
  }

  // ---- Collecting ----------------------------------------------------------------------

  predicate FromMarket(c: Candidate, a: Address, list: seq<OpenOrder>, market: MarketId) {
    c.maker == a && exists k :: 0 <= k < |list| && list[k].id == c.id && list[k].market == market
  }

  lemma {:induction false} FromListMarket(req: Request, a: Address, list: seq<OpenOrder>)
    ensures forall i | 0 <= i < |FromList(req, a, list)| :: FromMarket(FromList(req, a, list)[i], a, list, req.market)
  {
    if list != [] {
      FromListMarket(req, a, list[1..]);
      var cs, rest := FromList(req, a, list), FromList(req, a, list[1..]);
      var n := |cs| - |rest|;
      forall i | 0 <= i < |cs| ensures FromMarket(cs[i], a, list, req.market) {
        if i >= n {
          assert cs[i] == rest[i - n];
          assert FromMarket(rest[i - n], a, list[1..], req.market);
          var k :| 0 <= k < |list[1..]| && list[1..][k].id == cs[i].id && list[1..][k].market == req.market;
          assert list[k + 1].id == cs[i].id;
        } else {
          assert cs[i] == CandidateOf(a, list[0]);
        }
      }
    }
  }

  lemma {:induction false} CollectMarket(orders: Orders, users: seq<Address>, req: Request)
    ensures forall i | 0 <= i < |Collect(orders, users, req)| ::
              var c := Collect(orders, users, req)[i]; FromMarket(c, c.maker, ListOf(orders, c.maker), req.market)
  {
    hide FromList;
    if users != [] {
      CollectMarket(orders, users[1..], req);
      FromListMarket(req, users[0], ListOf(orders, users[0]));
      var mine := FromList(req, users[0], ListOf(orders, users[0]));
      forall i | 0 <= i < |mine| ensures mine[i].maker == users[0] { assert FromMarket(mine[i], users[0], ListOf(orders, users[0]), req.market); }
    }
  }

  lemma SortedAim(orders: Orders, users: seq<Address>, req: Request)
    requires forall a :: DistinctIds(ListOf(orders, a))
    ensures AllAim(orders, Sort(req.side.Opposite(), Collect(orders, users, req)), req.market)
  {
    hide Sort, Collect, Find;
    var cs := Collect(orders, users, req);
    var sorted := Sort(req.side.Opposite(), cs);
    SortFacts(req.side.Opposite(), cs);
    CollectMarket(orders, users, req);
    forall i | 0 <= i < |sorted| ensures Aims(orders, sorted[i], req.market) {
      var c := sorted[i];
      assert c in multiset(sorted);
      assert c in cs;
      assert FromMarket(c, c.maker, ListOf(orders, c.maker), req.market);
      assert DistinctIds(ListOf(orders, c.maker));
    }
  }

  // ---- Reaping -------------------------------------------------------------------------

  lemma {:induction false} ReapNothing(list: seq<OpenOrder>, market: MarketId)
    requires NonZero(list)
    ensures ReapList(list, market) == list
  {
    if list != [] { ReapNothing(list[1..], market); }
  }

  lemma TailFacts(list: seq<OpenOrder>, market: MarketId)
    requires list != [] && DistinctIds(list) && ZerosIn(list, market)
    ensures DistinctIds(list[1..]) && ZerosIn(list[1..], market) && !HasId(list[1..], list[0].id)
  {
    forall i, j | 0 <= i < j < |list| - 1 ensures list[1..][i].id != list[1..][j].id { assert list[i + 1].id != list[j + 1].id; }
    forall i | 0 <= i < |list| - 1 ensures list[1..][i].id != list[0].id { assert list[i + 1].id != list[0].id; }
  }

  lemma Grow(list': seq<OpenOrder>, list: seq<OpenOrder>)
    requires list != [] && IdsWithin(list', list[1..])
    ensures IdsWithin(list', list)
  {
    forall i | 0 <= i < |list'| ensures HasId(list, list'[i].id) {
      assert HasId(list[1..], list'[i].id);
      var j :| 0 <= j < |list[1..]| && list[1..][j].id == list'[i].id;
      assert list[j + 1].id == list'[i].id;
    }
  }

  lemma Prepend(o: OpenOrder, r: seq<OpenOrder>, list: seq<OpenOrder>)
    requires list != [] && list[0] == o && DistinctIds(r) && NonZero(r) && o.remaining != 0.0
    requires IdsWithin(r, list) && !HasId(r, o.id)
    ensures DistinctIds([o] + r) && NonZero([o] + r) && IdsWithin([o] + r, list)
  {
    var s := [o] + r;
    forall i, j | 0 <= i < j < |s| ensures s[i].id != s[j].id { if i == 0 { assert r[j - 1].id != o.id; } else { assert r[i - 1].id != r[j - 1].id; } }
    forall i | 0 <= i < |s| ensures HasId(list, s[i].id) { if i == 0 { assert list[0].id == s[0].id; } else { assert HasId(list, r[i - 1].id); } }
  }

  lemma {:induction false} ReapFacts(list: seq<OpenOrder>, market: MarketId)
    requires DistinctIds(list) && ZerosIn(list, market)
    ensures var r := ReapList(list, market); DistinctIds(r) && NonZero(r) && IdsWithin(r, list)
  {
    hide DistinctIds, ZerosIn, NonZero, IdsWithin, HasId;
    if list == [] {
      NothingReaped();
    } else {
      TailFacts(list, market);
      ReapFacts(list[1..], market);
      var r := ReapList(list[1..], market);
      Grow(r, list);
      assert [] + r == r;
      if list[0].market != market || list[0].remaining != 0.0 {
        HeadStays(list, market);
        Missing(r, list[1..], list[0].id);
        Prepend(list[0], r, list);
      }
    }
  }

  lemma NothingReaped()
    ensures DistinctIds([]) && NonZero([]) && IdsWithin([], [])
  {}

  lemma HeadStays(list: seq<OpenOrder>, market: MarketId)
    requires list != [] && ZerosIn(list, market) && (list[0].market != market || list[0].remaining != 0.0)
    ensures list[0].remaining != 0.0
  {}

  lemma Missing(r: seq<OpenOrder>, list: seq<OpenOrder>, id: OrderId)
    requires IdsWithin(r, list) && !HasId(list, id)
    ensures !HasId(r, id)
  {
    forall i | 0 <= i < |r| ensures r[i].id != id { assert HasId(list, r[i].id); }
  }

  // ---- The whole match -----------------------------------------------------------------

  /** Effect of a match on the list of any one address. */
  lemma MatchChanges(orders: Orders, users: seq<Address>, req: Request, a: Address)
    requires forall b :: DistinctIds(ListOf(orders, b))
    requires NonZero(ListOf(orders, a))
    ensures var r := Match(orders, users, req);
            var list, list' := ListOf(orders, a), ListOf(r.orders, a);
            && DistinctIds(list') && NonZero(list') && AllSurvive(list', list, req.qty >= 0.0)
            && (HasMaker(r.fills, a) || list' == list)
    ensures IdsWithin(ListOf(Match(orders, users, req).orders, a), ListOf(orders, a))
  {
    hide Commit, Sort, Collect, HasMaker, ReapList;
    var cs := Sort(req.side.Opposite(), Collect(orders, users, req));
    SortedAim(orders, users, req);
    CommitFrame(orders, cs, req.qty, [], req.market, a);
    var list, mid := ListOf(orders, a), ListOf(Commit(orders, cs, req.qty, []).orders, a);
    SameIds(list, mid);
    ReapFacts(mid, req.market);
    if mid == list { ReapNothing(mid, req.market); }
    ReapKeepsOnly(mid, req.market);
    if req.qty >= 0.0 { CommitEases(orders, cs, req.qty, [], a); }
    SurvivorsFrom(list, mid, ReapList(mid, req.market), req.qty >= 0.0);
    SurvivorIds(ReapList(mid, req.market), list, req.qty >= 0.0);
    ReapedEmpty(req.market);
  }

  lemma {:induction false} ReapKeepsOnly(list: seq<OpenOrder>, market: MarketId)
    ensures forall o | o in ReapList(list, market) :: o in list
  {
    if list != [] { ReapKeepsOnly(list[1..], market); }
  }

  lemma SurvivorsFrom(list: seq<OpenOrder>, mid: seq<OpenOrder>, list': seq<OpenOrder>, lower: bool)
    requires SameOrders(list, mid) && (lower ==> AllEased(list, mid)) && NonZero(list')
    requires forall o | o in list' :: o in mid
    ensures AllSurvive(list', list, lower)
  {
    forall i | 0 <= i < |list'| ensures Survivor(list, list'[i], lower) {
      assert list'[i] in list';
      var j :| 0 <= j < |mid| && mid[j] == list'[i];
      assert lower ==> Eased(list[j].remaining, mid[j].remaining);
      assert Survives(list[j], list'[i], lower);
    }
  }

  lemma SurvivorIds(list': seq<OpenOrder>, list: seq<OpenOrder>, lower: bool)
    requires AllSurvive(list', list, lower)
    ensures IdsWithin(list', list)
  {
    forall i | 0 <= i < |list'| ensures HasId(list, list'[i].id) {
      assert Survivor(list, list'[i], lower);
      var j :| 0 <= j < |list| && Survives(list[j], list'[i], lower);
      assert list[j].id == list'[i].id;
    }
  }

  lemma ReapedEmpty(market: MarketId)
    ensures ReapList([], market) == []
  {}

  lemma SameIds(list: seq<OpenOrder>, list': seq<OpenOrder>)
    requires SameOrders(list, list') && DistinctIds(list)
    ensures DistinctIds(list') && IdsWithin(list', list)
  {
    forall i | 0 <= i < |list'| ensures HasId(list, list'[i].id) { assert list[i].id == list'[i].id; }
  }
}
