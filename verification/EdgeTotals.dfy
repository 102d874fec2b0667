/**
 How much a taker gets when nothing happens between its two phases: the probe is exact for every
 order in which the users may be visited, and both equal the smaller of the quantity asked for
 and the quantity on offer.
 */
module EdgeTotals {
  import opened OrderTypes
  import opened EdgeMatch

  // ---- Permutations --------------------------------------------------------------------

  function Offered(cs: seq<Candidate>): real {
    if cs == [] then 0.0 else cs[0].remaining + Offered(cs[1..])
  }

  predicate NonNegative(cs: seq<Candidate>) {
    forall i | 0 <= i < |cs| :: cs[i].remaining >= 0.0
  }

  lemma {:induction false} OfferedConcat(a: seq<Candidate>, b: seq<Candidate>)
    ensures Offered(a + b) == Offered(a) + Offered(b)
  {
    if a == [] {
      assert a + b == b;
    } else {
      assert (a + b)[1..] == a[1..] + b;
      OfferedConcat(a[1..], b);
    }
  }

  /** Taking an element out of the middle of a permutation. */
  lemma TakeOut<T>(a: seq<T>, b: seq<T>) returns (i: nat)
    requires a != [] && multiset(a) == multiset(b)
    ensures i < |b| && b[i] == a[0] && multiset(b[..i] + b[i + 1..]) == multiset(a[1..])
  {
    assert a[0] in multiset(a);
    assert a[0] in b;
    i :| 0 <= i < |b| && b[i] == a[0];
    assert a == [a[0]] + a[1..];
    assert b == b[..i] + [b[i]] + b[i + 1..];
    assert multiset(b[..i] + b[i + 1..]) == multiset(b) - multiset{b[i]};
    assert multiset(a[1..]) == multiset(a) - multiset{a[0]};
  }

  lemma {:induction false} OfferedPermutes(a: seq<Candidate>, b: seq<Candidate>)
    requires multiset(a) == multiset(b)
    ensures Offered(a) == Offered(b)
    decreases |a|
  {
    if a == [] {
      assert |multiset(b)| == 0;
    } else {
      var i := TakeOut(a, b);
      OfferedPermutes(a[1..], b[..i] + b[i + 1..]);
      OfferedConcat(b[..i], b[i + 1..]);
      OfferedConcat(b[..i], b[i..]);
      assert b == b[..i] + b[i..] && b[i..][1..] == b[i + 1..];
    }
  }

  lemma {:induction false} CollectPermutes(orders: Orders, us: seq<Address>, vs: seq<Address>, req: Request)
    requires multiset(us) == multiset(vs)
    ensures multiset(Collect(orders, us, req)) == multiset(Collect(orders, vs, req))
    decreases |us|
  {
    hide Collect;
    if us == [] {
      assert |multiset(vs)| == 0;
    } else {
      var i := TakeOut(us, vs);
      var a, b := vs[..i], vs[i + 1..];
      CollectPermutes(orders, us[1..], a + b, req);
      CollectConcat(orders, a, b, req);
      CollectConcat(orders, a, [vs[i]] + b, req);
      CollectConcat(orders, [vs[i]], b, req);
      CollectConcat(orders, [us[0]], us[1..], req);
      assert vs == a + ([vs[i]] + b) && us == [us[0]] + us[1..];
    }
  }

  lemma {:induction false} CollectConcat(orders: Orders, us: seq<Address>, vs: seq<Address>, req: Request)
    ensures Collect(orders, us + vs, req) == Collect(orders, us, req) + Collect(orders, vs, req)
  {
    if us == [] {
      assert us + vs == vs;
    } else {
      assert (us + vs)[1..] == us[1..] + vs;
      CollectConcat(orders, us[1..], vs, req);
    }
  }

  // ---- The probe -----------------------------------------------------------------------

  lemma {:induction false} ProbeIsMin(cs: seq<Candidate>, remaining: real)
    requires NonNegative(cs) && remaining >= 0.0
    ensures ProbeFrom(cs, remaining) == Min(remaining, Offered(cs)) && Offered(cs) >= 0.0
    decreases |cs|
  {
    if cs != [] {
      ProbeIsMin(cs[1..], remaining - Min(remaining, cs[0].remaining));
      ProbeIsMin(cs[1..], remaining);
    }
  }

  // ---- The match -----------------------------------------------------------------------

  /** Quantities of all orders are nonnegative and ids do not repeat within a list. */
  predicate Tidy(orders: Orders) {
    forall a | a in orders :: TidyList(orders[a])
  }

  predicate TidyList(list: seq<OpenOrder>) {
    && (forall i | 0 <= i < |list| :: list[i].remaining >= 0.0)
    && (forall i, j | 0 <= i < j < |list| :: list[i].id != list[j].id)
  }

  /** The candidate shows its order as it is now. */
  predicate Current(orders: Orders, c: Candidate) {
    c.remaining > 0.0 && Remains(orders, c.maker, c.id) == c.remaining
  }

  predicate SamePlace(a: Candidate, b: Candidate) {
    a.maker == b.maker && a.id == b.id
  }

  predicate Distinct(cs: seq<Candidate>) {
    forall i, j | 0 <= i < j < |cs| :: !SamePlace(cs[i], cs[j])
  }

  /** Every candidate is current and no two stand for the same order. */
  predicate AllCurrent(orders: Orders, cs: seq<Candidate>) {
    (forall i | 0 <= i < |cs| :: Current(orders, cs[i])) && Distinct(cs)
  }

  function Notional(fills: seq<Matched>): real {
    if fills == [] then 0.0 else
    var f := fills[|fills| - 1];
    Notional(fills[..|fills| - 1]) + Amount(f.qty, f.price)
  }

  function Amount(qty: real, price: real): real {
    qty * price
  }

  /** Notional of sweeping the candidates in order. */
  function SweepNotional(cs: seq<Candidate>, left: real): real
    decreases |cs|
  {
    if cs == [] || left == 0.0 then 0.0 else
    var take := Min(left, cs[0].remaining);
    Amount(take, cs[0].price) + SweepNotional(cs[1..], left - take)
  }

  lemma FillsSnoc(fills: seq<Matched>, f: Matched)
    ensures TotalQty(fills + [f]) == TotalQty(fills) + f.qty
    ensures Notional(fills + [f]) == Notional(fills) + Amount(f.qty, f.price)
  {
    assert (fills + [f])[..|fills|] == fills;
  }

  lemma StillCurrent(orders: Orders, cs: seq<Candidate>, qty: real)
    requires AllCurrent(orders, cs) && cs != []
    requires Find(ListOf(orders, cs[0].maker), cs[0].id) < |ListOf(orders, cs[0].maker)|
    ensures AllCurrent(Reduce(orders, cs[0].maker, cs[0].id, qty), cs[1..])
  {
    hide Remains, Reduce;
    var orders' := Reduce(orders, cs[0].maker, cs[0].id, qty);
    forall i | 0 <= i < |cs| - 1 ensures Current(orders', cs[1..][i]) {
      var c := cs[i + 1];
      assert Current(orders, c) && !SamePlace(cs[0], c);
      ReduceElsewhere(orders, cs[0].maker, cs[0].id, qty, c.maker, c.id);
    }
    forall i, j | 0 <= i < j < |cs| - 1 ensures !SamePlace(cs[1..][i], cs[1..][j]) { assert !SamePlace(cs[i + 1], cs[j + 1]); }
  }

  lemma ReduceElsewhere(orders: Orders, a: Address, id: OrderId, qty: real, b: Address, x: OrderId)
    requires Find(ListOf(orders, a), id) < |ListOf(orders, a)| && (a != b || id != x)
    ensures Remains(Reduce(orders, a, id, qty), b, x) == Remains(orders, b, x)
  {
    hide Find;
    if a == b {
      var list := orders[a];
      var k := Find(list, id);
      FindUnchanged(list, k, list[k].remaining - qty, x);
      if Find(list, x) < |list| { assert list[Find(list, x)].id == x; }
    }
  }

  lemma Found(orders: Orders, c: Candidate)
    requires Current(orders, c)
    ensures Find(ListOf(orders, c.maker), c.id) < |ListOf(orders, c.maker)|
  {}

  /** With current candidates, committing is one sweep down the list. */
  lemma {:induction false} CommitSweeps(orders: Orders, cs: seq<Candidate>, left: real, fills: seq<Matched>)
    requires AllCurrent(orders, cs) && left >= 0.0
    ensures var r := Commit(orders, cs, left, fills);
            && TotalQty(r.fills) == TotalQty(fills) + ProbeFrom(cs, left)
            && Notional(r.fills) == Notional(fills) + SweepNotional(cs, left)
            && r.left == left - ProbeFrom(cs, left)
    decreases |cs|
  {
    hide Remains, Reduce, Notional, TotalQty, Amount;
    if cs != [] && left != 0.0 {
      var c := cs[0];
      assert Current(orders, c);
      Found(orders, c);
      var qty := Min(left, c.remaining);
      StillCurrent(orders, cs, qty);
      FillsSnoc(fills, Matched(c.maker, c.id, c.price, qty));
      CommitSweeps(Reduce(orders, c.maker, c.id, qty), cs[1..], left - qty, fills + [Matched(c.maker, c.id, c.price, qty)]);
    }
  }

  // ---- Collected candidates are current ------------------------------------------------

  predicate NoRepeats(users: seq<Address>) {
    forall i, j | 0 <= i < j < |users| :: users[i] != users[j]
  }

  /** A candidate of `a` is the view of one of its orders. */
  predicate ViewOf(a: Address, list: seq<OpenOrder>, c: Candidate) {
    c.remaining != 0.0 && exists k :: 0 <= k < |list| && c == CandidateOf(a, list[k])
  }

  lemma {:induction false} FromListViews(req: Request, a: Address, list: seq<OpenOrder>)
    ensures forall i | 0 <= i < |FromList(req, a, list)| :: ViewOf(a, list, FromList(req, a, list)[i])
  {
    if list != [] {
      FromListViews(req, a, list[1..]);
      var cs, rest := FromList(req, a, list), FromList(req, a, list[1..]);
      var n := |cs| - |rest|;
      forall i | 0 <= i < |cs| ensures ViewOf(a, list, cs[i]) {
        if i >= n {
          assert cs[i] == rest[i - n];
          var k :| 0 <= k < |list[1..]| && cs[i] == CandidateOf(a, list[1..][k]);
          assert cs[i] == CandidateOf(a, list[k + 1]);
        } else {
          assert cs[i] == CandidateOf(a, list[0]);
        }
      }
    }
  }

  lemma DistinctCons(c: Candidate, cs: seq<Candidate>)
    requires Distinct(cs) && forall i | 0 <= i < |cs| :: !SamePlace(c, cs[i])
    ensures Distinct([c] + cs)
  {}

  lemma {:induction false} FromListDistinct(req: Request, a: Address, list: seq<OpenOrder>)
    requires TidyList(list)
    ensures Distinct(FromList(req, a, list))
  {
    hide Distinct, Wanted;
    if list == [] {
      NoneDistinct();
    } else {
      assert TidyList(list[1..]) by {
        forall i, j | 0 <= i < j < |list| - 1 ensures list[1..][i].id != list[1..][j].id { assert list[i + 1].id != list[j + 1].id; }
      }
      FromListDistinct(req, a, list[1..]);
      FromListViews(req, a, list[1..]);
      var rest := FromList(req, a, list[1..]);
      assert [] + rest == rest;
      forall j | 0 <= j < |rest| ensures !SamePlace(CandidateOf(a, list[0]), rest[j]) {
        assert ViewOf(a, list[1..], rest[j]);
        var k :| 0 <= k < |list[1..]| && rest[j] == CandidateOf(a, list[1..][k]);
        assert list[1..][k] == list[k + 1];
      }
      DistinctCons(CandidateOf(a, list[0]), rest);
    }
  }

  lemma NoneDistinct()
    ensures Distinct([])
  {}

  lemma ViewIsCurrent(orders: Orders, a: Address, c: Candidate)
    requires Tidy(orders) && ViewOf(a, ListOf(orders, a), c)
    ensures Current(orders, c) && c.maker == a
  {
    var list := ListOf(orders, a);
    var k :| 0 <= k < |list| && c == CandidateOf(a, list[k]);
    assert TidyList(list);
    var j := Find(list, c.id);
    assert j == k;
  }

  predicate MakersIn(cs: seq<Candidate>, users: seq<Address>) {
    forall i | 0 <= i < |cs| :: cs[i].maker in users
  }

  lemma {:induction false} CollectDistinct(orders: Orders, users: seq<Address>, req: Request)
    requires Tidy(orders) && NoRepeats(users)
    ensures Distinct(Collect(orders, users, req)) && MakersIn(Collect(orders, users, req), users)
  {
    hide FromList, Distinct, ViewOf;
    if users == [] {
      NoneDistinct();
    } else {
      var a, rest := users[0], Collect(orders, users[1..], req);
      CollectDistinct(orders, users[1..], req);
      var mine := FromList(req, a, ListOf(orders, a));
      FromListViews(req, a, ListOf(orders, a));
      assert TidyList(ListOf(orders, a));
      FromListDistinct(req, a, ListOf(orders, a));
      forall i | 0 <= i < |mine| ensures mine[i].maker == a { ViewIsCurrent(orders, a, mine[i]); }
      assert [] + rest == rest;
      DistinctConcat(mine, rest);
    }
  }

  lemma DistinctConcat(a: seq<Candidate>, b: seq<Candidate>)
    requires Distinct(a) && Distinct(b)
    requires forall i, j | 0 <= i < |a| && 0 <= j < |b| :: a[i].maker != b[j].maker
    ensures Distinct(a + b)
  {
    var s := a + b;
    forall i, j | 0 <= i < j < |s| ensures !SamePlace(s[i], s[j]) {
      if j < |a| {
        assert !SamePlace(a[i], a[j]);
      } else if i >= |a| {
        assert !SamePlace(b[i - |a|], b[j - |a|]);
      } else {
        assert s[i] == a[i] && s[j] == b[j - |a|];
      }
    }
  }

  /** All candidates are views of their makers' orders. */
  predicate AllViews(orders: Orders, cs: seq<Candidate>) {
    forall i | 0 <= i < |cs| :: ViewOf(cs[i].maker, ListOf(orders, cs[i].maker), cs[i])
  }

  lemma {:induction false} CollectViews(orders: Orders, users: seq<Address>, req: Request)
    ensures AllViews(orders, Collect(orders, users, req))
  {
    if users != [] {
      hide FromList;
      var a := users[0];
      CollectViews(orders, users[1..], req);
      FromListViews(req, a, ListOf(orders, a));
      var mine := FromList(req, a, ListOf(orders, a));
      forall i | 0 <= i < |mine| ensures mine[i].maker == a { assert ViewOf(a, ListOf(orders, a), mine[i]); }
    }
  }

  lemma ViewsCurrent(orders: Orders, cs: seq<Candidate>)
    requires Tidy(orders) && AllViews(orders, cs)
    ensures forall i | 0 <= i < |cs| :: Current(orders, cs[i])
  {
    hide Current, ViewOf;
    forall i | 0 <= i < |cs| ensures Current(orders, cs[i]) { ViewIsCurrent(orders, cs[i].maker, cs[i]); }
  }

  lemma {:induction false} CountOnce(cs: seq<Candidate>, c: Candidate)
    requires Distinct(cs)
    ensures multiset(cs)[c] <= 1
  {
    if cs != [] {
      assert cs == [cs[0]] + cs[1..];
      assert Distinct(cs[1..]) by {
        forall i, j | 0 <= i < j < |cs| - 1 ensures !SamePlace(cs[1..][i], cs[1..][j]) { assert !SamePlace(cs[i + 1], cs[j + 1]); }
      }
      CountOnce(cs[1..], c);
      if cs[0] == c {
        forall j | 0 <= j < |cs[1..]| ensures cs[1..][j] != c { assert !SamePlace(cs[0], cs[j + 1]); }
        assert c !in multiset(cs[1..]);
      }
    }
  }

  /** Sorting keeps all of this. */
  lemma PermutedCurrent(orders: Orders, a: seq<Candidate>, b: seq<Candidate>)
    requires Tidy(orders) && Distinct(a) && AllViews(orders, a) && multiset(a) == multiset(b)
    ensures AllCurrent(orders, b)
  {
    hide Current, ViewOf, Tidy;
    forall i | 0 <= i < |b| ensures ViewOf(b[i].maker, ListOf(orders, b[i].maker), b[i]) {
      assert b[i] in multiset(b);
      assert b[i] in a;
    }
    ViewsCurrent(orders, b);
    forall i, j | 0 <= i < j < |b| ensures !SamePlace(b[i], b[j]) {
      if SamePlace(b[i], b[j]) {
        SamePlaceSame(orders, b[i], b[j]);
        CountTwice(b, i, j);
        CountOnce(a, b[i]);
      }
    }
  }

  lemma CountTwice<T>(b: seq<T>, i: nat, j: nat)
    requires i < j < |b| && b[i] == b[j]
    ensures multiset(b)[b[i]] >= 2
  {
    assert b == b[..j] + b[j..];
    assert b[..j][i] == b[i] && b[i] in multiset(b[..j]);
    assert b[j..][0] == b[i] && b[i] in multiset(b[j..]);
  }

  lemma SamePlaceSame(orders: Orders, a: Candidate, b: Candidate)
    requires Tidy(orders) && SamePlace(a, b)
    requires ViewOf(a.maker, ListOf(orders, a.maker), a) && ViewOf(b.maker, ListOf(orders, b.maker), b)
    ensures a == b
  {
    var list := ListOf(orders, a.maker);
    assert TidyList(list);
    var i :| 0 <= i < |list| && a == CandidateOf(a.maker, list[i]);
    var j :| 0 <= j < |list| && b == CandidateOf(b.maker, list[j]);
    assert i == j;
  }

  // ---- Main results --------------------------------------------------------------------

  lemma CollectNonNegative(orders: Orders, users: seq<Address>, req: Request)
    requires Tidy(orders)
    ensures NonNegative(Collect(orders, users, req))
  {
    var cs := Collect(orders, users, req);
    CollectViews(orders, users, req);
    ViewsCurrent(orders, cs);
    forall i | 0 <= i < |cs| ensures cs[i].remaining >= 0.0 { assert Current(orders, cs[i]); }
  }

  /** A taker undisturbed between its phases gets the smaller of what it asks for and what is
      offered; the notional is that of sweeping the sorted candidates. */
  lemma MatchTotals(orders: Orders, users: seq<Address>, req: Request)
    requires Tidy(orders) && NoRepeats(users) && req.qty >= 0.0
    ensures var cs := Collect(orders, users, req);
            && TotalQty(Match(orders, users, req).fills) == Min(req.qty, Offered(cs))
            && Notional(Match(orders, users, req).fills) == SweepNotional(Sort(req.side.Opposite(), cs), req.qty)
  {
    hide Commit, Collect, Sort, AllCurrent, Notional, TotalQty;
    var cs := Collect(orders, users, req);
    var sorted := Sort(req.side.Opposite(), cs);
    SortFacts(req.side.Opposite(), cs);
    CollectDistinct(orders, users, req);
    CollectViews(orders, users, req);
    PermutedCurrent(orders, cs, sorted);
    CommitSweeps(orders, sorted, req.qty, []);
    CollectNonNegative(orders, users, req);
    forall i | 0 <= i < |sorted| ensures sorted[i].remaining >= 0.0 { assert sorted[i] in multiset(sorted); assert sorted[i] in cs; }
    ProbeIsMin(sorted, req.qty);
    OfferedPermutes(sorted, cs);
    NoFills();
  }

  lemma NoFills()
    ensures TotalQty([]) == 0.0 && Notional([]) == 0.0
  {}

  /** The probe is exact: whatever order either of them visits the users in, probing and matching
      come to the same total. */
  lemma ProbeExact(orders: Orders, users: seq<Address>, users': seq<Address>, req: Request)
    requires Tidy(orders) && NoRepeats(users) && multiset(users) == multiset(users') && req.qty >= 0.0
    ensures ProbeFrom(Collect(orders, users', req), req.qty) == TotalQty(Match(orders, users, req).fills)
  {
    hide Match, Collect, TotalQty;
    MatchTotals(orders, users, req);
    CollectPermutes(orders, users, users', req);
    OfferedPermutes(Collect(orders, users, req), Collect(orders, users', req));
    CollectNonNegative(orders, users', req);
    ProbeIsMin(Collect(orders, users', req), req.qty);
  }
}
