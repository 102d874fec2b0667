/**
 The liquidation keeper: scan for positions with a health below one, close each, repeat. A close
 changes the collateral behind the account's other positions and so may push more of them under
 water, or lift them out of it. At frozen prices the rounds nevertheless come to an end.
 */
module Keeper {
  import opened OrderTypes
  import opened EdgeMatch
  import opened EdgePositions
  import opened EdgeState
  import Margin
  import opened Restart
  import opened Reload

  datatype Target = Target(address: Address, market: MarketId)

  // ---- Scanning ------------------------------------------------------------------------

  function ScanList(e: Edge, a: Address, list: seq<EdgePosition>, prices: Prices): seq<Target> {
    if list == [] then []
    else (if Underwater(e, a, list[0], prices) then [Target(a, list[0].market)] else []) + ScanList(e, a, list[1..], prices)
  }

  /** Visiting the accounts in the order `users`. */
  function Scan(e: Edge, users: seq<Address>, prices: Prices): seq<Target> {
    if users == [] then []
    else ScanList(e, users[0], PositionsOf(e, users[0]), prices) + Scan(e, users[1..], prices)
  }

  function CloseAll(e: Edge, targets: seq<Target>, prices: Prices, ts: nat): Edge {
    if targets == [] then e else
    var n := |targets| - 1;
    LiquidatePosition(CloseAll(e, targets[..n], prices, ts), targets[n].address, targets[n].market, prices, ts)
  }

  /** One round; the accounts come in the order `users`. */
  function Round(e: Edge, users: seq<Address>, prices: Prices, ts: nat): Edge {
    CloseAll(e, Scan(e, users, prices), prices, ts)
  }

  function Rounds(e: Edge, visits: seq<seq<Address>>, prices: Prices, ts: nat): Edge
    decreases |visits|
  {
    if visits == [] then e else Rounds(Round(e, visits[0], prices, ts), visits[1..], prices, ts)
  }

  // ---- The loops -----------------------------------------------------------------------

  method ScanLiquidatable(state: AppState, users: seq<Address>, prices: Prices) returns (out: seq<Target>)
    ensures out == Scan(state.View(), users, prices)
  {
    hide ScanList;
    out := [];
    for i := 0 to |users|
      invariant out + Scan(state.View(), users[i..], prices) == Scan(state.View(), users, prices)
    {
      assert users[i..][1..] == users[i + 1..];
      var list := if users[i] in state.positions then state.positions[users[i]] else [];
      var mine := ScanAccount(state, users[i], list, prices);
      Regroup(out, mine, Scan(state.View(), users[i + 1..], prices));
      out := out + mine;
    }
  }

  lemma Regroup(a: seq<Target>, b: seq<Target>, c: seq<Target>)
    ensures (a + b) + c == a + (b + c)
  {}

  method ScanAccount(state: AppState, a: Address, list: seq<EdgePosition>, prices: Prices) returns (out: seq<Target>)
    ensures out == ScanList(state.View(), a, list, prices)
  {
    hide PositionHealth;
    out := [];
    for i := 0 to |list|
      invariant out + ScanList(state.View(), a, list[i..], prices) == ScanList(state.View(), a, list, prices)
    {
      assert list[i..][1..] == list[i + 1..];
      ghost var rest := ScanList(state.View(), a, list[i + 1..], prices);
      var h := state.HealthOf(a, list[i], prices);
      if h.Some? && h.value < 1.0 {
        assert (out + [Target(a, list[i].market)]) + rest == out + ([Target(a, list[i].market)] + rest);
        out := out + [Target(a, list[i].market)];
      } else {
        assert [] + rest == rest;
      }
    }
  }

  /** One tick of the keeper. */
  method Tick(state: AppState, users: seq<Address>, prices: Prices, ts: nat)
    modifies state
    ensures state.View() == Round(old(state.View()), users, prices, ts)
  {
    hide LiquidatePosition, Scan;
    var targets := ScanLiquidatable(state, users, prices);
    for i := 0 to |targets|
      invariant state.View() == CloseAll(old(state.View()), targets[..i], prices, ts)
    {
      assert targets[..i + 1][..i] == targets[..i];
      var _ := state.Liquidate(targets[i].address, targets[i].market, prices, ts);
    }
    assert targets[..|targets|] == targets;
  }

  // ---- What a scan means ---------------------------------------------------------------

  /** No position that can be priced has a health below one. */
  ghost predicate AllHealthy(e: Edge, prices: Prices) {
    forall a, p | p in PositionsOf(e, a) :: !Underwater(e, a, p, prices)
  }

  predicate Covers(users: seq<Address>, e: Edge) {
    forall a | a in e.positions :: a in users
  }

  /** What it is to be under water, from the raw fields: the margin engine would liquidate the signed
      position at its stored entry price with the whole vault as collateral. */
  lemma UnderwaterIff(e: Edge, a: Address, p: EdgePosition, prices: Prices)
    ensures Underwater(e, a, p, prices) <==>
            && p.size != 0.0 && p.market in prices
            && Margin.Liquidatable(Margin.Position(if p.side == Buy then p.size else -p.size, p.entryX18 as real / 1000000000000000000.0),
                                   prices[p.market].mark, (if a in e.vaults then e.vaults[a] else 0) as real / 1000000.0, prices[p.market].mmBps)
  {
    hide Margin.Health;
  }

  /** In dollars: the vault and the profit at the mark fall short of the maintenance margin. */
  lemma ShortfallIff(e: Edge, a: Address, p: EdgePosition, prices: Prices)
    requires p.size > 0.0 && p.market in prices && prices[p.market].mark > 0.0 && prices[p.market].mmBps > 0
    ensures var mark, entry := prices[p.market].mark, p.entryX18 as real / 1000000000000000000.0;
            var vault := (if a in e.vaults then e.vaults[a] else 0) as real / 1000000.0;
            var profit := if p.side == Buy then p.size * (mark - entry) else p.size * (entry - mark);
            Underwater(e, a, p, prices) <==> vault + profit < p.size * mark * (prices[p.market].mmBps as real / 10000.0)
  {
    hide Margin.Liquidatable, Margin.MaintenanceMargin, Underwater;
    UnderwaterIff(e, a, p, prices);
    var mark, entry := prices[p.market].mark, p.entryX18 as real / 1000000000000000000.0;
    var core := Margin.Position(if p.side == Buy then p.size else -p.size, entry);
    Margin.MarginIs(core, mark, prices[p.market].mmBps);
    Margin.HealthMeans(core, mark, (if a in e.vaults then e.vaults[a] else 0) as real / 1000000.0, prices[p.market].mmBps);
    Mirrored(p.size, mark, entry);
  }

  lemma Mirrored(size: real, mark: real, entry: real)
    ensures -size * (mark - entry) == size * (entry - mark)
  {}

  /** In prices: the mark is below a long's liquidation price, or above a short's, as the margin
      engine computes it from position and vault. */
  lemma BeyondPriceIff(e: Edge, a: Address, p: EdgePosition, prices: Prices)
    requires p.size > 0.0 && p.market in prices && prices[p.market].mark > 0.0 && prices[p.market].mmBps > 0
    requires p.side == Sell || prices[p.market].mmBps < 10000
    ensures var mark, entry := prices[p.market].mark, p.entryX18 as real / 1000000000000000000.0;
            var vault := (if a in e.vaults then e.vaults[a] else 0) as real / 1000000.0;
            var liq := Margin.LiquidationPrice(Margin.Position(if p.side == Buy then p.size else -p.size, entry), vault, prices[p.market].mmBps);
            liq.Some? && (Underwater(e, a, p, prices) <==> if p.side == Buy then mark < liq.value else mark > liq.value)
  {
    hide Margin.Liquidatable, Margin.LiquidationPrice, Underwater;
    UnderwaterIff(e, a, p, prices);
    var core := Margin.Position(if p.side == Buy then p.size else -p.size, p.entryX18 as real / 1000000000000000000.0);
    Margin.LiquidationThreshold(core, prices[p.market].mark, (if a in e.vaults then e.vaults[a] else 0) as real / 1000000.0, prices[p.market].mmBps);
  }

  lemma {:induction false} ScanListFinds(e: Edge, a: Address, list: seq<EdgePosition>, prices: Prices)
    ensures forall t | t in ScanList(e, a, list, prices) ::
              t.address == a && exists p :: p in list && p.market == t.market && Underwater(e, a, p, prices)
    ensures forall p | p in list && Underwater(e, a, p, prices) :: Target(a, p.market) in ScanList(e, a, list, prices)
  {
    hide Underwater;
    if list != [] {
      ScanListFinds(e, a, list[1..], prices);
      assert list == [list[0]] + list[1..];
    }
  }

  predicate IsUnderwater(e: Edge, t: Target, prices: Prices) {
    exists p :: p in PositionsOf(e, t.address) && p.market == t.market && Underwater(e, t.address, p, prices)
  }

  /** A scan lists exactly the positions under water. */
  lemma {:induction false} ScanFinds(e: Edge, users: seq<Address>, prices: Prices)
    ensures forall t | t in Scan(e, users, prices) :: IsUnderwater(e, t, prices)
    ensures forall t: Target | t.address in users && IsUnderwater(e, t, prices) :: t in Scan(e, users, prices)
  {
    hide Underwater, ScanList, PositionsOf;
    if users != [] {
      var a := users[0];
      ScanFinds(e, users[1..], prices);
      ScanListFinds(e, a, PositionsOf(e, a), prices);
      assert users == [a] + users[1..];
      forall t | t in Scan(e, users, prices) ensures IsUnderwater(e, t, prices) {
        if t in ScanList(e, a, PositionsOf(e, a), prices) {
          assert t.address == a;
        }
      }
      forall t: Target | t.address in users && IsUnderwater(e, t, prices) ensures t in Scan(e, users, prices) {
        if t.address == a {
          var p :| p in PositionsOf(e, a) && p.market == t.market && Underwater(e, a, p, prices);
          assert Target(a, p.market) in ScanList(e, a, PositionsOf(e, a), prices);
        }
      }
    }
  }

  lemma EmptyScan(e: Edge, users: seq<Address>, prices: Prices)
    requires Covers(users, e)
    ensures Scan(e, users, prices) == [] <==> AllHealthy(e, prices)
  {
    hide Underwater, Scan;
    ScanFinds(e, users, prices);
    var s := Scan(e, users, prices);
    if s != [] {
      assert s[0] in s;
      assert IsUnderwater(e, s[0], prices);
      var p :| p in PositionsOf(e, s[0].address) && p.market == s[0].market && Underwater(e, s[0].address, p, prices);
    }
    if !AllHealthy(e, prices) {
      var a, p :| p in PositionsOf(e, a) && Underwater(e, a, p, prices);
      assert a in e.positions;
      assert IsUnderwater(e, Target(a, p.market), prices);
      assert Target(a, p.market) in s;
    }
  }

  // ---- One close -----------------------------------------------------------------------

  /** Open positions, by account and market. */
  function Open(e: Edge): set<Target> {
    set a, i | a in e.positions && 0 <= i < |e.positions[a]| :: Target(a, e.positions[a][i].market)
  }

  /** Positions only go away, and no account appears. */
  ghost predicate Fewer(e: Edge, e': Edge) {
    && e'.positions.Keys == e.positions.Keys
    && (forall a, p | p in PositionsOf(e', a) :: p in PositionsOf(e, a))
  }

  lemma FewerOpen(e: Edge, e': Edge)
    requires Fewer(e, e')
    ensures Open(e') <= Open(e)
  {
    forall t | t in Open(e') ensures t in Open(e) {
      var i :| t.address in e'.positions && 0 <= i < |e'.positions[t.address]| && t.market == e'.positions[t.address][i].market;
      var p := e'.positions[t.address][i];
      assert p in PositionsOf(e', t.address);
      assert p in PositionsOf(e, t.address);
      var j :| 0 <= j < |e.positions[t.address]| && e.positions[t.address][j] == p;
      assert Target(t.address, e.positions[t.address][j].market) in Open(e);
    }
  }

  lemma CloseOutPositions(e: Edge, a: Address, p: EdgePosition, mark: real, ts: nat)
    ensures CloseOut(e, a, p, mark, ts).positions == e.positions[a := Others(PositionsOf(e, a), p.market)]
    ensures CloseOut(e, a, p, mark, ts).vaults.Keys == e.vaults.Keys + {a}
    ensures forall b | b in e.vaults && b != a :: CloseOut(e, a, p, mark, ts).vaults[b] == e.vaults[b]
    ensures VaultOf(CloseOut(e, a, p, mark, ts), a) >= 0
  {
    hide Others, ClosePnl, Collateral;
    var raw := Collateral(e, a) + ClosePnl(p, mark);
    UsdcSign(if raw < 0.0 then 0.0 else raw);
  }

  lemma UsdcSign(d: real)
    requires d >= 0.0
    ensures ScaleUsdc(d) >= 0
  {
    assert d * USDC >= 0.0;
  }

  /** A close removes one position, under water at that moment; anything else is left alone. */
  lemma LiquidateRemoves(e: Edge, t: Target, prices: Prices, ts: nat)
    requires AllOne(e)
    ensures var e' := LiquidatePosition(e, t.address, t.market, prices, ts);
            && AllOne(e') && Fewer(e, e')
            && (forall a, p | p in PositionsOf(e, a) && p !in PositionsOf(e', a) ::
                  Target(a, p.market) == t && Underwater(e, a, p, prices))
            && (IsUnderwater(e, t, prices) ==> t in Open(e) && t !in Open(e'))
  {
    hide Underwater, CloseOut, Others, OnePerMarket;
    var list := PositionsOf(e, t.address);
    var i := IndexOf(list, t.market);
    assert OnePerMarket(list);
    if i == |list| || !Underwater(e, t.address, list[i], prices) {
      OnlyOne(list, t.market);
    } else {
      UnderwaterPriced(e, t.address, list[i], prices);
      CloseOutPositions(e, t.address, list[i], prices[t.market].mark, ts);
      OthersOne(list, t.market);
      OthersHas(list, t.market);
      OnlyOne(list, t.market);
      var e' := LiquidatePosition(e, t.address, t.market, prices, ts);
      assert Target(t.address, e.positions[t.address][i].market) in Open(e);
      forall a ensures OnePerMarket(PositionsOf(e', a)) { assert OnePerMarket(PositionsOf(e, a)); }
      forall j | 0 <= j < |e'.positions[t.address]| ensures e'.positions[t.address][j].market != t.market {
        assert e'.positions[t.address][j] in Others(list, t.market);
      }
    }
  }

  lemma OnlyOne(list: seq<EdgePosition>, market: MarketId)
    requires OnePerMarket(list)
    ensures forall p | p in list && p.market == market :: IndexOf(list, market) < |list| && p == list[IndexOf(list, market)]
  {
    hide IndexOf;
  }

  // ---- Rounds --------------------------------------------------------------------------

  lemma FewerTrans(x: Edge, y: Edge, z: Edge)
    requires Fewer(x, y) && Fewer(y, z)
    ensures Fewer(x, z)
  {
    hide PositionsOf;
  }

  lemma {:induction false} CloseAllShrinks(e: Edge, targets: seq<Target>, prices: Prices, ts: nat)
    requires AllOne(e)
    ensures var e' := CloseAll(e, targets, prices, ts); AllOne(e') && Fewer(e, e')
    ensures targets != [] && IsUnderwater(e, targets[0], prices) ==>
              targets[0] in Open(e) && targets[0] !in Open(CloseAll(e, targets, prices, ts))
  {
    hide AllOne, Fewer, IsUnderwater, LiquidatePosition, Open;
    if targets == [] {
      FewerSelf(e);
    } else {
      var n := |targets| - 1;
      var mid, e' := CloseAll(e, targets[..n], prices, ts), CloseAll(e, targets, prices, ts);
      CloseAllShrinks(e, targets[..n], prices, ts);
      LiquidateRemoves(mid, targets[n], prices, ts);
      FewerTrans(e, mid, e');
      FewerOpen(mid, e');
      if n == 0 { assert targets[..n] == []; }
    }
  }

  lemma FewerSelf(e: Edge)
    ensures Fewer(e, e)
  {}

  lemma SmallerSet<T>(a: set<T>, b: set<T>, x: T)
    requires a <= b && x in b && x !in a
    ensures |a| < |b|
  {
    assert a <= b - {x};
    SubsetSize(a, b - {x});
  }

  lemma {:induction false} SubsetSize<T>(a: set<T>, b: set<T>)
    requires a <= b
    ensures |a| <= |b|
  {
    assert b == a + (b - a);
  }

  /** A round that finds something leaves fewer positions; one that finds nothing changes nothing. */
  lemma RoundShrinks(e: Edge, users: seq<Address>, prices: Prices, ts: nat)
    requires AllOne(e) && Covers(users, e)
    ensures var e' := Round(e, users, prices, ts);
            && AllOne(e') && Fewer(e, e')
            && (if AllHealthy(e, prices) then e' == e else |Open(e')| < |Open(e)|)
  {
    hide AllOne, Fewer, IsUnderwater, Open, Scan, AllHealthy;
    var targets := Scan(e, users, prices);
    EmptyScan(e, users, prices);
    CloseAllShrinks(e, targets, prices, ts);
    if targets != [] {
      ScanFinds(e, users, prices);
      assert targets[0] in targets;
      var e' := Round(e, users, prices, ts);
      FewerOpen(e, e');
      SmallerSet(Open(e'), Open(e), targets[0]);
    }
  }

  lemma CoversStill(users: seq<Address>, e: Edge, e': Edge)
    requires Covers(users, e) && Fewer(e, e')
    ensures Covers(users, e')
  {}

  lemma NothingOpen(e: Edge, prices: Prices)
    ensures Open(e) == {} ==> AllHealthy(e, prices)
  {
    hide Underwater;
    if !AllHealthy(e, prices) {
      var a, p :| p in PositionsOf(e, a) && Underwater(e, a, p, prices);
      var i :| 0 <= i < |e.positions[a]| && e.positions[a][i] == p;
      assert Target(a, e.positions[a][i].market) in Open(e);
    }
  }

  /** At frozen prices, as many rounds as there are open positions leave nothing to liquidate,
      whatever order each round visits the accounts in. */
  lemma {:induction false} KeeperFinishes(e: Edge, visits: seq<seq<Address>>, prices: Prices, ts: nat)
    requires AllOne(e) && |visits| >= |Open(e)| && forall i | 0 <= i < |visits| :: Covers(visits[i], e)
    ensures AllHealthy(Rounds(e, visits, prices, ts), prices)
    ensures Fewer(e, Rounds(e, visits, prices, ts))
    decreases |visits|
  {
    hide AllOne, Fewer, Open, AllHealthy, Round, Covers;
    if visits == [] {
      NothingOpen(e, prices);
      FewerSelf(e);
    } else {
      var e' := Round(e, visits[0], prices, ts);
      RoundShrinks(e, visits[0], prices, ts);
      forall i | 0 <= i < |visits| - 1 ensures Covers(visits[1..][i], e') { CoversStill(visits[i + 1], e, e'); }
      if AllHealthy(e, prices) {
        StaysHealthy(e, visits, prices, ts);
        FewerSelf(e);
      } else {
        KeeperFinishes(e', visits[1..], prices, ts);
        FewerTrans(e, e', Rounds(e, visits, prices, ts));
      }
    }
  }

  lemma {:induction false} StaysHealthy(e: Edge, visits: seq<seq<Address>>, prices: Prices, ts: nat)
    requires AllOne(e) && AllHealthy(e, prices) && forall i | 0 <= i < |visits| :: Covers(visits[i], e)
    ensures Rounds(e, visits, prices, ts) == e
    decreases |visits|
  {
    hide AllOne, AllHealthy, Round, Covers;
    if visits != [] {
      RoundShrinks(e, visits[0], prices, ts);
      StaysHealthy(e, visits[1..], prices, ts);
    }
  }

  /** A position closed somewhere along a list of targets was under water just before. */
  lemma {:induction false} ClosedUnderwater(e: Edge, targets: seq<Target>, prices: Prices, ts: nat, a: Address, p: EdgePosition)
    requires AllOne(e) && p in PositionsOf(e, a) && p !in PositionsOf(CloseAll(e, targets, prices, ts), a)
    ensures exists j :: 0 <= j < |targets| && targets[j] == Target(a, p.market)
              && p in PositionsOf(CloseAll(e, targets[..j], prices, ts), a)
              && Underwater(CloseAll(e, targets[..j], prices, ts), a, p, prices)
  {
    hide AllOne, LiquidatePosition, PositionsOf, Underwater, Fewer;
    if targets != [] {
      var n := |targets| - 1;
      var before := CloseAll(e, targets[..n], prices, ts);
      CloseAllShrinks(e, targets[..n], prices, ts);
      if p in PositionsOf(before, a) {
        LiquidateRemoves(before, targets[n], prices, ts);
      } else {
        ClosedUnderwater(e, targets[..n], prices, ts, a, p);
        var j :| 0 <= j < n && targets[..n][j] == Target(a, p.market)
          && p in PositionsOf(CloseAll(e, targets[..n][..j], prices, ts), a)
          && Underwater(CloseAll(e, targets[..n][..j], prices, ts), a, p, prices);
        assert targets[..n][..j] == targets[..j];
      }
    }
  }

  // ---- Money ---------------------------------------------------------------------------

  /** A forced close realises what the margin engine realises for a fill of the whole position. */
  lemma CloseIsFill(p: EdgePosition, mark: real)
    ensures Margin.ApplyFill(Core(p), -Core(p).size, mark) == Margin.Applied(Margin.FLAT, ClosePnl(p, mark))
  {
    Flipped(p.size, mark, Unscale(p.entryX18));
  }

  lemma Flipped(s: real, m: real, e: real)
    ensures -s * (m - e) == s * (e - m)
  {}

  /** The vault then holds collateral plus profit, or nothing if that is negative, to within a
      millionth. */
  lemma VaultAfterClose(e: Edge, a: Address, p: EdgePosition, mark: real, ts: nat)
    ensures var raw := Collateral(e, a) + ClosePnl(p, mark);
            var due := if raw < 0.0 then 0.0 else raw;
            Collateral(CloseOut(e, a, p, mark, ts), a) <= due < Collateral(CloseOut(e, a, p, mark, ts), a) + 1.0 / USDC
  {
    hide ClosePnl, Others, ScaleUsdc;
    var raw := Collateral(e, a) + ClosePnl(p, mark);
    var due := if raw < 0.0 then 0.0 else raw;
    assert VaultOf(CloseOut(e, a, p, mark, ts), a) == ScaleUsdc(due);
    UsdcLoses(due);
  }

  lemma UsdcLoses(d: real)
    requires d >= 0.0
    ensures ScaleUsdc(d) as real / USDC <= d < ScaleUsdc(d) as real / USDC + 1.0 / USDC
  {
    assert d * USDC >= 0.0;
  }

  predicate Solvent(e: Edge) {
    forall a | a in e.vaults :: e.vaults[a] >= 0
  }

  lemma LiquidateSolvent(e: Edge, a: Address, market: MarketId, prices: Prices, ts: nat)
    requires Solvent(e)
    ensures Solvent(LiquidatePosition(e, a, market, prices, ts))
  {
    hide Underwater, CloseOut;
    var list := PositionsOf(e, a);
    var i := IndexOf(list, market);
    if i < |list| && Underwater(e, a, list[i], prices) {
      UnderwaterPriced(e, a, list[i], prices);
      CloseOutPositions(e, a, list[i], prices[market].mark, ts);
    }
  }

  lemma AdjustSolvent(e: Edge, a: Address, delta: real)
    requires Solvent(e)
    ensures Solvent(AdjustVault(e, a, delta))
  {
    hide ScaleUsdc;
  }

  lemma SettleVaults(e: Edge, t: Ticket, order: OrderId, m: Matched, fees: Fees)
    requires Solvent(e)
    ensures Solvent(SettleMatch(e, t, order, m, fees))
  {
    hide Share, TakerFill, MakerFill, AdjustVault, FillList, Solvent;
    var n := e.nextId;
    var e1 := RecordFill(e.(nextId := n + 3), t.user, TakerFill(t, n, order, m, fees));
    var e2 := RecordFill(e1, m.maker, MakerFill(t, n + 1, m, fees));
    SameVaults(e, e2);
    AdjustSolvent(e2, t.user, -Share(m, fees.takerBps));
    var e3 := AdjustVault(e2, t.user, -Share(m, fees.takerBps));
    AdjustSolvent(e3, m.maker, Share(m, fees.rebateBps));
    SameVaults(AdjustVault(e3, m.maker, Share(m, fees.rebateBps)), SettleMatch(e, t, order, m, fees));
  }

  lemma SameVaults(e: Edge, e': Edge)
    requires Solvent(e) && e'.vaults == e.vaults
    ensures Solvent(e')
  {}

  lemma {:induction false} SettleAllSolvent(e: Edge, t: Ticket, order: OrderId, matches: seq<Matched>, fees: Fees)
    requires Solvent(e)
    ensures Solvent(SettleAll(e, t, order, matches, fees))
    decreases |matches|
  {
    hide Solvent, SettleMatch;
    if matches != [] {
      SettleVaults(e, t, order, matches[0], fees);
      SettleAllSolvent(SettleMatch(e, t, order, matches[0], fees), t, order, matches[1..], fees);
    }
  }

  lemma PlaceSolvent(e: Edge, users: seq<Address>, t: Ticket, fees: Fees)
    requires Solvent(e)
    ensures Solvent(PlaceOrder(e, users, t, fees))
  {
    hide Solvent, Match, SettleAll, Collect, ProbeFrom, TotalQty, SyncAll, Makers;
    var id := e.nextId;
    var e1 := e.(nextId := id + 1);
    SameVaults(e, e1);
    var r := MatchTaker(e1, users, RequestOf(t));
    SameVaults(e1, r.edge);
    SettleAllSolvent(r.edge, t, id, r.fills, fees);
    var e2 := SettleAll(r.edge, t, id, r.fills, fees);
    SameVaults(e2, RestRemainder(e2, t, id, t.qty - TotalQty(r.fills)));
  }

  /** Balances are never set below zero outright. */
  predicate SetsSolvent(ops: seq<Op>) {
    forall i | 0 <= i < |ops| && ops[i].SetBalance? :: ops[i].amount >= 0
  }

  lemma DoSolvent(e: Edge, op: Op)
    requires Solvent(e) && (op.SetBalance? ==> op.amount >= 0)
    ensures Solvent(Do(e, op))
  {
    hide PlaceOrder, LiquidatePosition, AdjustVault, CancelOrder, Solvent;
    match op
    case Place(users, ticket, fees) => PlaceSolvent(e, users, ticket, fees);
    case Cancel(a, id) => CancelSolvent(e, a, id);
    case Liquidate(a, market, prices, ts) => LiquidateSolvent(e, a, market, prices, ts);
    case SetBalance(a, amount) => SetSolvent(e, a, amount);
    case Seed(a, _) => SetSolvent(e, a, DEV_SEED);
    case Adjust(a, delta) => AdjustSolvent(e, a, delta);
    case RecordSample(m, s) => SameVaults(e, RecordFunding(e, m, s));
  }

  /** No run of orders, cancels, liquidations and vault changes overdraws a vault. */
  lemma {:induction false} RunSolvent(start: Edge, ops: seq<Op>)
    requires Solvent(start) && SetsSolvent(ops)
    ensures Solvent(RunFrom(start, ops))
  {
    hide Do, Solvent;
    if ops != [] {
      RunSolvent(start, ops[..|ops| - 1]);
      DoSolvent(RunFrom(start, ops[..|ops| - 1]), ops[|ops| - 1]);
    }
  }

  /** Nor does a whole life with any number of restarts. */
  lemma {:induction false} LifeSolvent(h: History, i: nat)
    requires Life(h) && i <= |h.sessions| && forall j | 0 <= j < i :: SetsSolvent(h.sessions[j])
    ensures Solvent(h.edges[i])
  {
    hide Session, Solvent, RunFrom, SetsSolvent, FundingRestored;
    if i == 0 {
      SameVaultsNew();
    } else {
      LifeSolvent(h, i - 1);
      RunSolvent(h.edges[i - 1], h.sessions[i - 1]);
      RestartEquivalence(h, i - 1);
      SameVaults(RunFrom(h.edges[i - 1], h.sessions[i - 1]), h.edges[i]);
    }
  }

  lemma SameVaultsNew()
    ensures Solvent(NEW)
  {}

  lemma CancelSolvent(e: Edge, a: Address, id: OrderId)
    requires Solvent(e)
    ensures Solvent(CancelOrder(e, a, id))
  {
    hide Without;
  }

  lemma SetSolvent(e: Edge, a: Address, amount: int)
    requires Solvent(e) && amount >= 0
    ensures Solvent(SetVault(e, a, amount))
  {}

  /** Every state the edge can reach, in any session of any life, holds at most one position per
      account and market, so the keeper's guarantee applies to it. */
  lemma KeeperFinishesAnywhere(h: History, i: nat, ops: seq<Op>, visits: seq<seq<Address>>, prices: Prices, ts: nat)
    requires Life(h) && i <= |h.sessions|
    requires var e := RunFrom(h.edges[i], ops); |visits| >= |Open(e)| && forall k | 0 <= k < |visits| :: Covers(visits[k], e)
    ensures AllHealthy(Rounds(RunFrom(h.edges[i], ops), visits, prices, ts), prices)
  {
    hide RunFrom, Session, InStep, Open, Covers, Rounds, AllHealthy, AllOne;
    ReachedInStep(h, i, ops);
    KeeperFinishes(RunFrom(h.edges[i], ops), visits, prices, ts);
  }

  /** The keeper's loop on the edge's own object, until a scan comes back empty. It ends within as
      many rounds as there were open positions. */
  method Work(state: AppState, users: seq<Address>, prices: Prices, ts: nat) returns (rounds: nat)
    requires AllOne(state.View()) && Covers(users, state.View())
    modifies state
    ensures rounds <= |Open(old(state.View()))| && AllHealthy(state.View(), prices) && Fewer(old(state.View()), state.View())
  {
    hide AllOne, Open, AllHealthy, Fewer, Round, Scan, Covers;
    ghost var start := state.View();
    rounds := 0;
    FewerSelf(start);
    while true
      invariant AllOne(state.View()) && Covers(users, state.View()) && Fewer(start, state.View())
      invariant rounds + |Open(state.View())| <= |Open(start)|
      decreases |Open(state.View())|
    {
      ghost var e := state.View();
      var targets := ScanLiquidatable(state, users, prices);
      EmptyScan(e, users, prices);
      if targets == [] {
        return;
      }
      RoundShrinks(e, users, prices, ts);
      Tick(state, users, prices, ts);
      CoversStill(users, e, state.View());
      FewerTrans(start, e, state.View());
      rounds := rounds + 1;
    }
  }
}
