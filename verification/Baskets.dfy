/** Shared by the basket detectors: what a walked basket is worth in a world. */
module Baskets {
  import opened Wrappers
  import opened Num
  import opened Instrument
  import opened Walker

  /** How many of these tokens pay in w, with multiplicity. */
  function PayCount(markets: seq<Market>, w: World, tokens: seq<TokenId>): int
    requires |w| == |markets|
  {
    if tokens == [] then 0
    else PayCount(markets, w, tokens[..|tokens| - 1]) + Pays(markets, w, tokens[|tokens| - 1])
  }

  function Tokens(legs: seq<Leg>): seq<TokenId> {
    seq(|legs|, i requires 0 <= i < |legs| => legs[i].token)
  }

  predicate Uniform(legs: seq<Leg>, action: Action) {
    forall i :: 0 <= i < |legs| ==> legs[i].action == action
  }

  lemma FillsPrefix(legs: seq<Leg>, u: nat)
    requires legs != [] && u > 0 && forall i :: 0 <= i < |legs| ==> u <= Depth(legs[i].levels)
    ensures FillsAt(legs, u)[..|legs| - 1] == FillsAt(legs[..|legs| - 1], u)
  {
  }

  lemma {:induction false} FillsCashIsLegsCash(legs: seq<Leg>, u: nat)
    requires u > 0 && forall i :: 0 <= i < |legs| ==> u <= Depth(legs[i].levels)
    ensures FillsCash(FillsAt(legs, u)) == LegsCash(legs, u)
    decreases |legs|
  {
    if legs == [] {
    } else {
      FillsPrefix(legs, u);
      FillsCashIsLegsCash(legs[..|legs| - 1], u);
    }
  }

  function Signed(action: Action, u: nat): int {
    if action == Buy then u else 0 - u
  }

  function FillTokens(fills: seq<LegFill>): seq<TokenId> {
    seq(|fills|, i requires 0 <= i < |fills| => fills[i].token)
  }

  lemma {:induction false} EqualFillsPayoff(markets: seq<Market>, w: World, fills: seq<LegFill>, action: Action, u: nat)
    requires |w| == |markets| && forall i :: 0 <= i < |fills| ==> fills[i].action == action && fills[i].qty == u
    ensures FillPayoff(markets, w, fills) == Signed(action, u) * PayCount(markets, w, FillTokens(fills))
  {
    if fills == [] {
    } else {
      var n := |fills| - 1;
      EqualFillsPayoff(markets, w, fills[..n], action, u);
      assert FillTokens(fills)[..n] == FillTokens(fills[..n]);
      Distribute(Signed(action, u), PayCount(markets, w, FillTokens(fills[..n])), Pays(markets, w, fills[n].token));
    }
  }

  lemma UniformPayoff(markets: seq<Market>, w: World, legs: seq<Leg>, action: Action, u: nat)
    requires |w| == |markets| && Uniform(legs, action)
    requires u > 0 && forall i :: 0 <= i < |legs| ==> u <= Depth(legs[i].levels)
    ensures FillPayoff(markets, w, FillsAt(legs, u)) == Signed(action, u) * PayCount(markets, w, Tokens(legs))
  {
    EqualFillsPayoff(markets, w, FillsAt(legs, u), action, u);
    assert FillTokens(FillsAt(legs, u)) == Tokens(legs);
  }

  lemma Distribute(q: int, a: int, b: int)
    ensures q * (a + b) == q * a + q * b
  {
  }

  /** Every result of the walk clears both gates, and its legs all fill exactly the units within depth. */
  lemma WalkedFacts(b: Basket, maxBasis: int, minProfit: int, floor: int)
    requires WalkSpec(b, maxBasis, minProfit, floor).Some?
    ensures var r := WalkSpec(b, maxBasis, minProfit, floor).value;
            && r.units > 0 && r.net >= minProfit && r.edge >= floor
            && (forall i :: 0 <= i < |b.legs| ==> r.units <= Depth(b.legs[i].levels))
            && r.fills == FillsAt(b.legs, r.units)
            && r.net == NetAt(b, r.units) && r.basis == BasisAt(b, r.units)
            && EdgeBps(r.net, r.basis) == Some(r.edge)
  {
    MarchWithinDepth(b, maxBasis, 0, 0);
  }

  lemma WholeShares(k: nat, u: nat)
    ensures k * 1_000_000 * u / 1_000_000 == k * u
    ensures DivCeil(k * 1_000_000 * u, 1_000_000) == k * u
  {
    assert k * 1_000_000 * u == 1_000_000 * (k * u);
  }

  /** A pure-buy basket settles at its net plus whatever pays beyond the promised payout. */
  lemma BuyBasketSettles(markets: seq<Market>, w: World, b: Basket, k: nat, cls: ArbClass,
                         maxBasis: int, minProfit: int, floor: int)
    requires |w| == |markets| && Uniform(b.legs, Buy)
    requires b.payout == k * 1_000_000 && b.collateral == 0
    requires WalkSpec(b, maxBasis, minProfit, floor).Some?
    ensures var op := IntoOpportunity(WalkSpec(b, maxBasis, minProfit, floor).value, cls);
            && SettledNet(markets, w, op, b.gas) == op.net + op.units * (PayCount(markets, w, Tokens(b.legs)) - k)
            && NoShort(markets, op.splits, op.fills)
  {
    WalkedFacts(b, maxBasis, minProfit, floor);
    var op := IntoOpportunity(WalkSpec(b, maxBasis, minProfit, floor).value, cls);
    FillsCashIsLegsCash(b.legs, op.units);
    UniformPayoff(markets, w, b.legs, Buy, op.units);
    WholeShares(k, op.units);
    Distribute(op.units, PayCount(markets, w, Tokens(b.legs)) - k, k);
    forall t: TokenId ensures Held(markets, op.splits, op.fills, t) >= 0 {
      BuysNeverShort(op.fills, t);
    }
  }

  lemma {:induction false} BuysNeverShort(fills: seq<LegFill>, t: TokenId)
    requires forall f :: f in fills ==> f.action == Buy
    ensures Bought(fills, t) >= 0 && Sold(fills, t) == 0
  {
    if fills == [] {
    } else {
      assert fills[|fills| - 1] in fills;
      BuysNeverShort(fills[..|fills| - 1], t);
    }
  }

  /** The promise an emitted opportunity makes: gates cleared, nothing short. */
  ghost predicate Gated(op: Opportunity, p: EngineParams, floor: int) {
    op.net >= p.minProfit && op.edge >= floor && EdgeBps(op.net, op.basis) == Some(op.edge)
  }

  /** A bought basket of which exactly the promised tokens pay settles at its net. */
  lemma ExactBuySettles(markets: seq<Market>, w: World, b: Basket, k: nat, cls: ArbClass, p: EngineParams, floor: int)
    requires |w| == |markets| && Uniform(b.legs, Buy) && b.payout == k * 1_000_000 && b.collateral == 0
    requires PayCount(markets, w, Tokens(b.legs)) == k
    requires WalkSpec(b, p.maxBasis, p.minProfit, floor).Some?
    ensures var op := IntoOpportunity(WalkSpec(b, p.maxBasis, p.minProfit, floor).value, cls);
            && SettledNet(markets, w, op, b.gas) == op.net
            && Gated(op, p, floor) && NoShort(markets, op.splits, op.fills)
  {
    WalkedFacts(b, p.maxBasis, p.minProfit, floor);
    BuyBasketSettles(markets, w, b, k, cls, p.maxBasis, p.minProfit, floor);
    var units := WalkSpec(b, p.maxBasis, p.minProfit, floor).value.units;
    assert units * (PayCount(markets, w, Tokens(b.legs)) - k) == 0;
  }

  ghost predicate Emits(ops: seq<Opportunity>, cls: ArbClass) {
    exists k :: 0 <= k < |ops| && ops[k].cls == cls
  }

  /** ops holds one opportunity of each class that is due and nothing else. */
  ghost predicate EmitsJust(ops: seq<Opportunity>, first: ArbClass, due: bool, second: ArbClass, due2: bool) {
    && (Emits(ops, first) <==> due) && (Emits(ops, second) <==> due2)
    && |ops| == (if due then 1 else 0) + (if due2 then 1 else 0)
  }

  lemma EmitsTogether(a: seq<Opportunity>, b: seq<Opportunity>, first: ArbClass, due: bool, second: ArbClass,
                      due2: bool)
    requires first != second
    requires (forall k :: 0 <= k < |a| ==> a[k].cls == first) && |a| == if due then 1 else 0
    requires (forall k :: 0 <= k < |b| ==> b[k].cls == second) && |b| == if due2 then 1 else 0
    ensures EmitsJust(a + b, first, due, second, due2)
  {
    if a != [] { assert (a + b)[0].cls == first; }
    if b != [] { assert (a + b)[|a|].cls == second; }
  }
}
