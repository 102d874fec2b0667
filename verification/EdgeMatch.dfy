/**
 The edge's own matcher. Orders rest in one list per user. A taker first collects candidates
 under a read lock, sorts them, and then, under a separate write lock, takes from each what is
 still there and drops the orders it has used up.
 */
module EdgeMatch {
  import opened OrderTypes
  import opened FlatBook

  type MarketId = nat

  datatype OpenOrder = OpenOrder(
    id: OrderId,
    market: MarketId,
    side: Side,
    orderType: OrderType,
    price: real,
    qty: real,
    remaining: real,
    ts: nat)

  type Orders = map<Address, seq<OpenOrder>>

  /** A taker's wish; no limit price means a market order. */
  datatype Request = Request(market: MarketId, side: Side, limit: Option<real>, qty: real, taker: Address)

  datatype Candidate = Candidate(maker: Address, id: OrderId, price: real, remaining: real, ts: nat)

  datatype Matched = Matched(maker: Address, id: OrderId, price: real, qty: real)

  function ListOf(orders: Orders, a: Address): seq<OpenOrder> {
    if a in orders then orders[a] else []
  }

  // ---- Collecting ----------------------------------------------------------------------

  predicate WithinLimit(req: Request, price: real) {
    req.limit.Some? ==> if req.side == Buy then price <= req.limit.value else price >= req.limit.value
  }

  /** Resting limit orders of one market and side that still have quantity. */
  predicate Resting(market: MarketId, side: Side, o: OpenOrder) {
    o.market == market && o.side == side && o.orderType == Limit && o.price != 0.0 && o.remaining != 0.0
  }

  predicate Wanted(req: Request, o: OpenOrder) {
    Resting(req.market, req.side.Opposite(), o) && WithinLimit(req, o.price)
  }

  function CandidateOf(a: Address, o: OpenOrder): Candidate {
    Candidate(a, o.id, o.price, o.remaining, o.ts)
  }

  function FromList(req: Request, a: Address, list: seq<OpenOrder>): seq<Candidate> {
    if list == [] then []
    else (if Wanted(req, list[0]) then [CandidateOf(a, list[0])] else []) + FromList(req, a, list[1..])
  }

  /** All candidates, visiting the users in the order `users`. */
  function Collect(orders: Orders, users: seq<Address>, req: Request): seq<Candidate> {
    if users == [] then []
    else (if users[0] == req.taker then [] else FromList(req, users[0], ListOf(orders, users[0])))
         + Collect(orders, users[1..], req)
  }

  // ---- Sorting -------------------------------------------------------------------------

  /** Best price first, oldest first within a price. */
  predicate Before(side: Side, a: Candidate, b: Candidate) {
    Key(side, a.price) < Key(side, b.price) || (a.price == b.price && a.ts <= b.ts)
  }

  function InsertSorted(side: Side, s: seq<Candidate>, c: Candidate): seq<Candidate> {
    if s == [] || !Before(side, s[0], c) then [c] + s else [s[0]] + InsertSorted(side, s[1..], c)
  }

  /** The stable sort by price and time. */
  function Sort(side: Side, s: seq<Candidate>): seq<Candidate> {
    if s == [] then [] else InsertSorted(side, Sort(side, s[..|s| - 1]), s[|s| - 1])
  }

  predicate IsSorted(side: Side, s: seq<Candidate>) {
    forall i, j | 0 <= i < j < |s| :: Before(side, s[i], s[j])
  }

  lemma {:induction false} InsertKeepsAll(side: Side, s: seq<Candidate>, c: Candidate)
    ensures multiset(InsertSorted(side, s, c)) == multiset(s) + multiset{c}
  {
    if s == [] || !Before(side, s[0], c) {
      assert multiset([c] + s) == multiset{c} + multiset(s);
    } else {
      InsertKeepsAll(side, s[1..], c);
      var t := InsertSorted(side, s[1..], c);
      assert s == [s[0]] + s[1..];
      assert multiset([s[0]] + t) == multiset{s[0]} + multiset(t);
    }
  }

  lemma {:induction false} InsertKeepsSorted(side: Side, s: seq<Candidate>, c: Candidate)
    requires IsSorted(side, s)
    ensures IsSorted(side, InsertSorted(side, s, c))
    ensures forall k | 0 <= k < |InsertSorted(side, s, c)| :: InsertSorted(side, s, c)[k] == c || InsertSorted(side, s, c)[k] in s
  {
    if s == [] || !Before(side, s[0], c) {
      SortedCons(side, c, s);
    } else {
      InsertKeepsSorted(side, s[1..], c);
      var t := InsertSorted(side, s[1..], c);
      forall k | 0 <= k < |t| ensures Before(side, s[0], t[k]) {}
      SortedCons(side, s[0], t);
    }
  }

  lemma SortedCons(side: Side, c: Candidate, s: seq<Candidate>)
    requires IsSorted(side, s)
    requires forall k | 0 <= k < |s| :: Before(side, c, s[k])
    ensures IsSorted(side, [c] + s)
  {}

  lemma NothingSorted(side: Side)
    ensures IsSorted(side, [])
  {}

  lemma {:induction false} SortFacts(side: Side, s: seq<Candidate>)
    ensures multiset(Sort(side, s)) == multiset(s) && IsSorted(side, Sort(side, s))
  {
    hide InsertSorted, IsSorted;
    if s == [] {
      NothingSorted(side);
    } else {
      var n := |s| - 1;
      SortFacts(side, s[..n]);
      InsertKeepsAll(side, Sort(side, s[..n]), s[n]);
      InsertKeepsSorted(side, Sort(side, s[..n]), s[n]);
      assert s == s[..n] + [s[n]];
    }
  }

  // ---- Committing ----------------------------------------------------------------------

  /** Index of the first order with this id, or the length of the list. */
  function Find(list: seq<OpenOrder>, id: OrderId): (k: nat)
    ensures k <= |list| && (k < |list| ==> list[k].id == id)
    ensures forall i | 0 <= i < k :: list[i].id != id
  {
    if list == [] || list[0].id == id then 0 else 1 + Find(list[1..], id)
  }

  /** What the order still has; zero if it is gone. */
  function LeftIn(list: seq<OpenOrder>, id: OrderId): real {
    var k := Find(list, id);
    if k < |list| then list[k].remaining else 0.0
  }

  function Remains(orders: Orders, a: Address, id: OrderId): real {
    LeftIn(ListOf(orders, a), id)
  }

  function Reduce(orders: Orders, a: Address, id: OrderId, qty: real): Orders
    requires Find(ListOf(orders, a), id) < |ListOf(orders, a)|
  {
    var list := orders[a];
    var k := Find(list, id);
    orders[a := list[k := list[k].(remaining := list[k].remaining - qty)]]
  }

  datatype Committed = Committed(orders: Orders, fills: seq<Matched>, left: real)

  function Commit(orders: Orders, cs: seq<Candidate>, left: real, fills: seq<Matched>): Committed
    decreases |cs|
  {
    if cs == [] || left == 0.0 then Committed(orders, fills, left) else
    var c := cs[0];
    var there := Remains(orders, c.maker, c.id);
    if there == 0.0 then Commit(orders, cs[1..], left, fills) else
    var qty := Min(left, there);
    Commit(Reduce(orders, c.maker, c.id, qty), cs[1..], left - qty, fills + [Matched(c.maker, c.id, c.price, qty)])
  }

  /** Drop the used-up orders of one market. */
  function ReapList(list: seq<OpenOrder>, market: MarketId): seq<OpenOrder> {
    if list == [] then []
    else (if list[0].market == market && list[0].remaining == 0.0 then [] else [list[0]]) + ReapList(list[1..], market)
  }

  function Reap(orders: Orders, market: MarketId): Orders {
    map a | a in orders :: ReapList(orders[a], market)
  }

  /** Both phases, one after the other. */
  function Match(orders: Orders, users: seq<Address>, req: Request): Committed {
    var r := Commit(orders, Sort(req.side.Opposite(), Collect(orders, users, req)), req.qty, []);
    r.(orders := Reap(r.orders, req.market))
  }

  /** The list with the order of this id taken out. */
  function Without(list: seq<OpenOrder>, id: OrderId): seq<OpenOrder> {
    if list == [] then [] else (if list[0].id == id then [] else [list[0]]) + Without(list[1..], id)
  }

  function TotalQty(fills: seq<Matched>): real {
    if fills == [] then 0.0 else TotalQty(fills[..|fills| - 1]) + fills[|fills| - 1].qty
  }

  lemma FindUnchanged(list: seq<OpenOrder>, k: nat, r: real, id: OrderId)
    requires k < |list|
    ensures Find(list[k := list[k].(remaining := r)], id) == Find(list, id)
  {
    var list', i, j := list[k := list[k].(remaining := r)], Find(list, id), Find(list[k := list[k].(remaining := r)], id);
    forall n | 0 <= n < |list| ensures list'[n].id == list[n].id {}
  }

  // ---- The loops -----------------------------------------------------------------------

  method CollectFrom(req: Request, a: Address, list: seq<OpenOrder>) returns (out: seq<Candidate>)
    ensures out == FromList(req, a, list)
  {
    out := [];
    for j := 0 to |list|
      invariant out + FromList(req, a, list[j..]) == FromList(req, a, list)
    {
      hide Wanted;
      assert list[j..][1..] == list[j + 1..];
      if Wanted(req, list[j]) {
        Shift(out, CandidateOf(a, list[j]), FromList(req, a, list[j + 1..]));
        out := out + [CandidateOf(a, list[j])];
      } else {
        assert [] + FromList(req, a, list[j + 1..]) == FromList(req, a, list[j + 1..]);
      }
    }
  }

  lemma Shift(a: seq<Candidate>, c: Candidate, b: seq<Candidate>)
    ensures a + ([c] + b) == (a + [c]) + b
  {}

  lemma CollectStep(orders: Orders, users: seq<Address>, req: Request, i: nat)
    requires i < |users|
    ensures var rest := Collect(orders, users[i + 1..], req);
            Collect(orders, users[i..], req) ==
            if users[i] == req.taker then rest else FromList(req, users[i], ListOf(orders, users[i])) + rest
  {
    hide FromList;
    assert users[i..][1..] == users[i + 1..];
  }

  lemma Regroup(a: seq<Candidate>, b: seq<Candidate>, c: seq<Candidate>)
    ensures a + (b + c) == (a + b) + c
  {}

  method CollectCandidates(orders: Orders, users: seq<Address>, req: Request) returns (out: seq<Candidate>)
    ensures out == Collect(orders, users, req)
  {
    out := [];
    for i := 0 to |users|
      invariant out + Collect(orders, users[i..], req) == Collect(orders, users, req)
    {
      hide FromList, Collect, ListOf;
      ghost var rest := Collect(orders, users[i + 1..], req);
      CollectStep(orders, users, req, i);
      if users[i] != req.taker {
        var mine := CollectFrom(req, users[i], ListOf(orders, users[i]));
        Regroup(out, mine, rest);
        out := out + mine;
      }
    }
  }

  method CommitMatches(orders0: Orders, cs: seq<Candidate>, qty: real) returns (orders: Orders, fills: seq<Matched>, left: real)
    ensures Committed(orders, fills, left) == Commit(orders0, cs, qty, [])
  {
    orders, fills, left := orders0, [], qty;
    var i := 0;
    while i < |cs|
      invariant i <= |cs| && Commit(orders, cs[i..], left, fills) == Commit(orders0, cs, qty, [])
    {
      if left == 0.0 {
        break;
      }
      var c := cs[i];
      assert cs[i..][0] == c && cs[i..][1..] == cs[i + 1..];
      i := i + 1;
      if c.maker !in orders {
        continue;
      }
      var list := orders[c.maker];
      var k := Find(list, c.id);
      if k == |list| || list[k].remaining == 0.0 {
        continue;
      }
      var take := Min(left, list[k].remaining);
      orders := orders[c.maker := list[k := list[k].(remaining := list[k].remaining - take)]];
      fills := fills + [Matched(c.maker, c.id, c.price, take)];
      left := left - take;
    }
  }

  /** Taking from the candidates as they come, best or not. */
  function ProbeFrom(cs: seq<Candidate>, remaining: real): real
    decreases |cs|
  {
    if cs == [] || remaining == 0.0 then 0.0 else
    var take := Min(remaining, cs[0].remaining);
    take + ProbeFrom(cs[1..], remaining - take)
  }

  lemma {:induction false} ProbeConcat(a: seq<Candidate>, b: seq<Candidate>, remaining: real)
    ensures ProbeFrom(a + b, remaining) == ProbeFrom(a, remaining) + ProbeFrom(b, remaining - ProbeFrom(a, remaining))
    decreases |a|
  {
    if a == [] {
      assert a + b == b;
    } else {
      assert (a + b)[1..] == a[1..] + b;
      ProbeConcat(a[1..], b, remaining - Min(remaining, a[0].remaining));
    }
  }

  method ProbeList(req: Request, a: Address, list: seq<OpenOrder>, remaining0: real) returns (filled: real)
    ensures filled == ProbeFrom(FromList(req, a, list), remaining0)
  {
    filled := 0.0;
    var remaining := remaining0;
    for j := 0 to |list|
      invariant filled + remaining == remaining0
      invariant filled + ProbeFrom(FromList(req, a, list[j..]), remaining) == ProbeFrom(FromList(req, a, list), remaining0)
    {
      hide Wanted;
      if remaining == 0.0 {
        return;
      }
      assert list[j..][1..] == list[j + 1..];
      ghost var rest := FromList(req, a, list[j + 1..]);
      if Wanted(req, list[j]) {
        assert ([CandidateOf(a, list[j])] + rest)[1..] == rest;
        var take := Min(remaining, list[j].remaining);
        filled := filled + take;
        remaining := remaining - take;
      } else {
        assert [] + rest == rest;
      }
    }
  }

  /** What one user's orders add to the probe. */
  lemma ProbeUser(orders: Orders, users: seq<Address>, req: Request, remaining: real)
    requires users != []
    ensures var rest := Collect(orders, users[1..], req);
            var more := if users[0] == req.taker then 0.0 else ProbeFrom(FromList(req, users[0], ListOf(orders, users[0])), remaining);
            ProbeFrom(Collect(orders, users, req), remaining) == more + ProbeFrom(rest, remaining - more)
  {
    hide FromList, ProbeFrom;
    var rest := Collect(orders, users[1..], req);
    if users[0] == req.taker {
      assert [] + rest == rest;
    } else {
      ProbeConcat(FromList(req, users[0], ListOf(orders, users[0])), rest, remaining);
    }
  }

  /** The read-only probe: how much would match, in whatever order the users come. */
  method Probe(orders: Orders, users: seq<Address>, req: Request) returns (filled: real)
    ensures filled == ProbeFrom(Collect(orders, users, req), req.qty)
  {
    hide FromList, ProbeFrom, Collect;
    filled := 0.0;
    var i := 0;
    assert users[0..] == users;
    while i < |users|
      invariant i <= |users|
      invariant filled + ProbeFrom(Collect(orders, users[i..], req), req.qty - filled) == ProbeFrom(Collect(orders, users, req), req.qty)
    {
      ProbeUser(orders, users[i..], req, req.qty - filled);
      assert users[i..][0] == users[i] && users[i..][1..] == users[i + 1..];
      if users[i] != req.taker {
        var more := ProbeList(req, users[i], ListOf(orders, users[i]), req.qty - filled);
        filled := filled + more;
      }
      i := i + 1;
    }
    assert users[i..] == [];
    ProbeNobody(orders, req, req.qty - filled);
  }

  lemma ProbeNobody(orders: Orders, req: Request, remaining: real)
    ensures ProbeFrom(Collect(orders, [], req), remaining) == 0.0
  {}
}
