/** Exact re-validation of a candidate basket: holdings per token, cash from
    limit prices, and the worst resolution over a list of worlds. */
module Revalidate {
  import opened Wrappers
  import opened Num
  import opened Instrument
  import opened Sums
  import opened Worlds

  type Holdings = map<TokenId, int>

  function At(h: Holdings, t: TokenId): int {
    if t in h then h[t] else 0
  }

  function Add(h: Holdings, t: TokenId, q: int): Holdings {
    h[t := At(h, t) + q]
  }

  function Price(f: LegFill): nat {
    MicroUsdc(f.limitPx, f.ts)
  }

  /** Cash of a fill recomputed from its limit price and its market's fee rate. */
  function RecomputedCash(markets: seq<Market>, f: LegFill): int
  {
    match TokenIndex(markets, f.token)
    case None => 0
    case Some(i) => FillCash(f.action, markets[i].feeBps, Price(f), f.qty)
  }

  function RecomputedFillsCash(markets: seq<Market>, fills: seq<LegFill>): int
  {
    if fills == [] then 0
    else RecomputedFillsCash(markets, fills[..|fills| - 1]) + RecomputedCash(markets, fills[|fills| - 1])
  }

  /** Cash out only: buys with fees. */
  function BuyOutlay(markets: seq<Market>, fills: seq<LegFill>): int
  {
    if fills == [] then 0
    else
      var f := fills[|fills| - 1];
      BuyOutlay(markets, fills[..|fills| - 1]) - if f.action == Buy then RecomputedCash(markets, f) else 0
  }

  /** Net in one world: cash from prices and fees, minus collateral, plus payoff, minus gas. */
  function NetIn(c: Component, splits: seq<Split>, fills: seq<LegFill>, gas: int, w: World): int
    requires |w| == |c.markets|
  {
    RecomputedFillsCash(c.markets, fills) - SplitCost(splits)
    + SplitPayoff(c.markets, w, splits) + FillPayoff(c.markets, w, fills) - gas
  }

  ghost predicate AllKnown(c: Component, splits: seq<Split>, fills: seq<LegFill>) {
    && (forall s :: s in splits ==> FindMarket(c.markets, s.0).Some?)
    && (forall f :: f in fills ==> TokenIndex(c.markets, f.token).Some?)
  }

  // ----- payoff by holdings equals payoff leg by leg -----

  ghost function WorthOf(markets: seq<Market>, w: World, h: Holdings): TokenId -> int {
    (t: TokenId) => if |w| == |markets| then At(h, t) * Pays(markets, w, t) else 0
  }

  /** Value in w of a holdings map, token by token in any order. */
  ghost function Worth(markets: seq<Market>, w: World, h: Holdings, tokens: set<TokenId>): int
    requires |w| == |markets|
  {
    Sum(tokens, WorthOf(markets, w, h))
  }

  lemma WorthAdd(markets: seq<Market>, w: World, h: Holdings, t: TokenId, q: int)
    requires |w| == |markets|
    ensures Worth(markets, w, Add(h, t, q), Add(h, t, q).Keys) ==
            Worth(markets, w, h, h.Keys) + q * Pays(markets, w, t)
  {
    var g := Add(h, t, q);
    assert g.Keys == h.Keys + {t};
    SumRemove(g.Keys, WorthOf(markets, w, g), t);
    assert g.Keys - {t} == h.Keys - {t};
    SumFrame(h.Keys - {t}, WorthOf(markets, w, h), WorthOf(markets, w, g));
    if t in h { SumRemove(h.Keys, WorthOf(markets, w, h), t); }
    assert (At(h, t) + q) * Pays(markets, w, t) == At(h, t) * Pays(markets, w, t) + q * Pays(markets, w, t);
  }

  /** The map the re-validation accumulates: splits first, then fills. */
  function AfterSplits(markets: seq<Market>, splits: seq<Split>): Holdings {
    if splits == [] then map[]
    else
      var s := splits[|splits| - 1];
      var h := AfterSplits(markets, splits[..|splits| - 1]);
      match FindMarket(markets, s.0)
      case None => h
      case Some(m) => Add(Add(h, m.yes, s.1), m.no, s.1)
  }

  function AfterFills(h0: Holdings, fills: seq<LegFill>): Holdings {
    if fills == [] then h0
    else
      var f := fills[|fills| - 1];
      Add(AfterFills(h0, fills[..|fills| - 1]), f.token, SignedQty(f))
  }

  lemma {:induction false} AfterSplitsHeld(markets: seq<Market>, splits: seq<Split>, t: TokenId)
    ensures At(AfterSplits(markets, splits), t) == SplitHeld(markets, splits, t)
  {
    if splits == [] {
    } else {
      AfterSplitsHeld(markets, splits[..|splits| - 1], t);
    }
  }

  lemma {:induction false} AfterFillsHeld(h0: Holdings, fills: seq<LegFill>, t: TokenId)
    ensures At(AfterFills(h0, fills), t) == At(h0, t) + Bought(fills, t) - Sold(fills, t)
  {
    if fills == [] {
    } else {
      AfterFillsHeld(h0, fills[..|fills| - 1], t);
    }
  }

  lemma {:induction false} AfterSplitsWorth(markets: seq<Market>, splits: seq<Split>, w: World)
    requires |w| == |markets|
    ensures Worth(markets, w, AfterSplits(markets, splits), AfterSplits(markets, splits).Keys) ==
        SplitPayoff(markets, w, splits)
  {
    if splits == [] {
    } else {
      var s := splits[|splits| - 1];
      var h := AfterSplits(markets, splits[..|splits| - 1]);
      AfterSplitsWorth(markets, splits[..|splits| - 1], w);
      match FindMarket(markets, s.0)
      case None =>
      case Some(m) =>
        WorthAdd(markets, w, h, m.yes, s.1);
        WorthAdd(markets, w, Add(h, m.yes, s.1), m.no, s.1);
    }
  }

  lemma {:induction false} AfterFillsWorth(markets: seq<Market>, h0: Holdings, fills: seq<LegFill>, w: World)
    requires |w| == |markets|
    ensures Worth(markets, w, AfterFills(h0, fills), AfterFills(h0, fills).Keys)
         == Worth(markets, w, h0, h0.Keys) + FillPayoff(markets, w, fills)
  {
    if fills == [] {
    } else {
      var f := fills[|fills| - 1];
      AfterFillsWorth(markets, h0, fills[..|fills| - 1], w);
      WorthAdd(markets, w, AfterFills(h0, fills[..|fills| - 1]), f.token, SignedQty(f));
    }
  }

  function FinalHoldings(markets: seq<Market>, splits: seq<Split>, fills: seq<LegFill>): Holdings {
    AfterFills(AfterSplits(markets, splits), fills)
  }

  /** Whatever order the holdings map is summed in, the payoff is the leg-by-leg payoff. */
  lemma HoldingsWorthIsPayoff(markets: seq<Market>, splits: seq<Split>, fills: seq<LegFill>, w: World)
    requires |w| == |markets|
    ensures var h := FinalHoldings(markets, splits, fills);
            Worth(markets, w, h, h.Keys) == SplitPayoff(markets, w, splits) + FillPayoff(markets, w, fills)
  {
    AfterSplitsWorth(markets, splits, w);
    AfterFillsWorth(markets, AfterSplits(markets, splits), fills, w);
  }

  /** The naked-short test on the map is the test on every token. */
  lemma NakedShortIsHeld(markets: seq<Market>, splits: seq<Split>, fills: seq<LegFill>)
    ensures var h := FinalHoldings(markets, splits, fills);
            (forall t :: t in h ==> h[t] >= 0) <==> NoShort(markets, splits, fills)
  {
    var h := FinalHoldings(markets, splits, fills);
    forall t: TokenId ensures At(h, t) == Held(markets, splits, fills, t) {
      AfterSplitsHeld(markets, splits, t);
      AfterFillsHeld(AfterSplits(markets, splits), fills, t);
    }
    assert forall t :: t in h ==> h[t] == Held(markets, splits, fills, t);
  }

  // ----- the re-validation loops -----

  method AccumulateSplits(c: Component, splits: seq<Split>) returns (r: Option<(Holdings, int)>)
    ensures r.Some? <==> forall s :: s in splits ==> FindMarket(c.markets, s.0).Some?
    ensures r.Some? ==> r.value == (AfterSplits(c.markets, splits), SplitCost(splits))
  {
    var positions: Holdings := map[];
    var collateral := 0;
    for i := 0 to |splits|
      invariant forall s :: s in splits[..i] ==> FindMarket(c.markets, s.0).Some?
      invariant positions == AfterSplits(c.markets, splits[..i]) && collateral == SplitCost(splits[..i])
    {
      var (id, qty) := splits[i];
      assert splits[..i + 1] == splits[..i] + [splits[i]];
      match FindMarket(c.markets, id)
      case None =>
        assert splits[i] in splits;
        return None;
      case Some(m) =>
        collateral := collateral + qty;
        positions := Add(positions, m.yes, qty);
        positions := Add(positions, m.no, qty);
    }
    assert splits[..|splits|] == splits;
    r := Some((positions, collateral));
  }

  /** Cash of one fill and the part of it that is outlay. */
  method FillFlows(markets: seq<Market>, k: nat, f: LegFill) returns (cash: int, outlay: int)
    requires TokenIndex(markets, f.token) == Some(k)
    ensures cash == RecomputedCash(markets, f)
    ensures outlay == if f.action == Buy then -cash else 0
  {
    var pm := Price(f);
    var fee := Fee(markets[k].feeBps, pm, f.qty);
    match f.action
    case Buy =>
      outlay := BuyCost(pm, f.qty) + fee;
      cash := -outlay;
    case Sell =>
      cash := SellProceeds(pm, f.qty) - fee;
      outlay := 0;
  }

  method AccumulateFills(c: Component, fills: seq<LegFill>, h0: Holdings) returns (r: Option<(Holdings, int, int)>)
    ensures r.Some? <==> forall f :: f in fills ==> TokenIndex(c.markets, f.token).Some?
    ensures r.Some? ==>
      r.value == (AfterFills(h0, fills), RecomputedFillsCash(c.markets, fills), BuyOutlay(c.markets, fills))
  {
    var positions, cash, outlay := h0, 0, 0;
    for i := 0 to |fills|
      invariant forall f :: f in fills[..i] ==> TokenIndex(c.markets, f.token).Some?
      invariant positions == AfterFills(h0, fills[..i])
      invariant cash == RecomputedFillsCash(c.markets, fills[..i])
      invariant outlay == BuyOutlay(c.markets, fills[..i])
    {
      var f := fills[i];
      assert fills[..i + 1] == fills[..i] + [f] && fills[..i + 1][..i] == fills[..i];
      var k := TokenIndex(c.markets, f.token);
      if k.None? { return None; }
      var dCash, dOutlay := FillFlows(c.markets, k.value, f);
      cash := cash + dCash;
      outlay := outlay + dOutlay;
      positions := Add(positions, f.token, SignedQty(f));
    }
    assert fills[..|fills|] == fills;
    r := Some((positions, cash, outlay));
  }

  method PayoffIn(c: Component, w: World, positions: Holdings) returns (payoff: int)
    requires |w| == |c.markets|
    ensures payoff == Worth(c.markets, w, positions, positions.Keys)
  {
    payoff := 0;
    var todo := positions.Keys;
    while todo != {}
      invariant todo <= positions.Keys
      invariant payoff + Worth(c.markets, w, positions, todo) == Worth(c.markets, w, positions, positions.Keys)
      decreases todo
    {
      var t :| t in todo;
      SumRemove(todo, WorthOf(c.markets, w, positions), t);
      if TokenPays(c.markets, w, t) == Some(true) {
        payoff := payoff + positions[t];
      }
      todo := todo - {t};
    }
  }

  method AnyShort(positions: Holdings) returns (short: bool)
    ensures short <==> exists t :: t in positions && positions[t] < 0
  {
    var todo := positions.Keys;
    while todo != {}
      invariant forall t :: t in positions && t !in todo ==> positions[t] >= 0
      invariant todo <= positions.Keys
      decreases todo
    {
      var t :| t in todo;
      if positions[t] < 0 { return true; }
      todo := todo - {t};
    }
    short := false;
  }

  ghost predicate IsWorst(c: Component, splits: seq<Split>, fills: seq<LegFill>, gas: int, worlds: seq<World>,
                          worst: int)
    requires forall w :: w in worlds ==> |w| == |c.markets|
  {
    && (forall w :: w in worlds ==> NetIn(c, splits, fills, gas, w) >= worst)
    && (exists w :: w in worlds && NetIn(c, splits, fills, gas, w) == worst)
  }

  method WorstOver(c: Component, worlds: seq<World>, splits: seq<Split>, fills: seq<LegFill>,
                   positions: Holdings, cash: int, gas: nat)
    returns (worst: Option<int>)
    requires forall w :: w in worlds ==> |w| == |c.markets|
    requires positions == FinalHoldings(c.markets, splits, fills)
    requires cash == RecomputedFillsCash(c.markets, fills) - SplitCost(splits)
    ensures worst.None? <==> worlds == []
    ensures worst.Some? ==> IsWorst(c, splits, fills, gas, worlds, worst.value)
  {
    worst := None;
    for i := 0 to |worlds|
      invariant worst.None? <==> i == 0
      invariant worst.Some? ==> IsWorst(c, splits, fills, gas, worlds[..i], worst.value)
    {
      HoldingsWorthIsPayoff(c.markets, splits, fills, worlds[i]);
      var payoff := PayoffIn(c, worlds[i], positions);
      var net := cash + payoff - gas;
      assert net == NetIn(c, splits, fills, gas, worlds[i]);
      assert worlds[..i + 1] == worlds[..i] + [worlds[i]];
      assert worlds[i] in worlds[..i + 1];
      worst := Some(if worst.None? then net else Min(worst.value, net));
    }
    assert worlds[..|worlds|] == worlds;
  }

  /** None exactly for an unknown market or token or a net-short token;
      otherwise the minimum over the worlds, attained, and the gross outflow. */
  method ExactWorstNet(c: Component, worlds: seq<World>, splits: seq<Split>, fills: seq<LegFill>, gas: nat)
    returns (r: Option<(int, int)>)
    requires forall w :: w in worlds ==> |w| == |c.markets|
    ensures r.Some? <==> AllKnown(c, splits, fills) && NoShort(c.markets, splits, fills)
    ensures r.Some? ==> r.value.1 == SplitCost(splits) + BuyOutlay(c.markets, fills)
    ensures r.Some? && worlds != [] ==> IsWorst(c, splits, fills, gas, worlds, r.value.0)
    ensures r.Some? && worlds == [] ==>
      r.value.0 == RecomputedFillsCash(c.markets, fills) - SplitCost(splits) - gas
  {
    var afterSplits := AccumulateSplits(c, splits);
    if afterSplits.None? { return None; }
    var (held, collateral) := afterSplits.value;
    var afterFills := AccumulateFills(c, fills, held);
    if afterFills.None? { return None; }
    var (positions, fillCash, outlay) := afterFills.value;
    var cash := fillCash - collateral;
    NakedShortIsHeld(c.markets, splits, fills);
    var short := AnyShort(positions);
    assert positions == FinalHoldings(c.markets, splits, fills);
    if short {
      assert !forall t :: t in positions ==> positions[t] >= 0;
      return None;
    }

    var worst := WorstOver(c, worlds, splits, fills, positions, cash, gas);
    r := Some((if worst.Some? then worst.value else cash - gas, collateral + outlay));
  }
}
