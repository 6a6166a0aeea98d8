/** Exactly when a basket is reported, in terms of its ladders: the two gates are
    read at the stop, so an extent that clears both can be walked past. */
module Emission {
  import opened Num
  import opened Book
  import opened Walker
  import opened WalkerOptimal
  import opened WalkerCap
  import opened WalkerStop

  /** Both gates at an extent, edge as a ratio of exact net to exact basis. */
  predicate ClearsAt(b: Basket, minProfit: int, floor: int, e: nat) {
    && e > 0 && NetAt(b, e) >= minProfit
    && BasisAt(b, e) > 0 && (NetAt(b, e) * 10_000 >= floor * BasisAt(b, e) || floor == I32_MIN)
  }

  /** A basket is reported exactly when both gates clear where its ladders and the cap stop. */
  lemma ReportedExactly(b: Basket, maxBasis: int, minProfit: int, floor: int, e: nat)
    requires b.legs != [] && I32_MIN <= floor <= I32_MAX && IsStop(b, maxBasis, e)
    ensures WalkSpec(b, maxBasis, minProfit, floor).Some? <==> ClearsAt(b, minProfit, floor, e)
    ensures WalkSpec(b, maxBasis, minProfit, floor).Some? ==> WalkSpec(b, maxBasis, minProfit, floor).value.units == e
  {
    UnitsIsTheStop(b, maxBasis, e);
    EdgeGate(NetAt(b, e), BasisAt(b, e), floor);
  }

  /** Some extent within depth and cap clears both gates. */
  ghost predicate WorthTaking(b: Basket, maxBasis: int, minProfit: int, floor: int, v: nat) {
    Reachable(b.legs, v) && Spent(b, 0, v) <= Max(0, maxBasis) && ClearsAt(b, minProfit, floor, v)
  }

  // ----- the last share keeps the edge -----

  /** The last share before e earns the floor on what it costs. */
  predicate KeepsEdge(b: Basket, floor: int, e: nat) {
    && e > 0 && Open(b.legs, e - 1) && BasisPerShare(b, e - 1) > 0
    && 10_000 * Marginal(b, e - 1) >= floor * BasisPerShare(b, e - 1)
  }

  ghost function EdgeScaled(b: Basket, floor: int, u: nat): int {
    10_000 * ScaledNet(b, u) - floor * BasisScaled(b, u)
  }

  lemma {:induction false} BuysLeft(legs: seq<Leg>, v: nat, u: nat)
    requires Monotone(legs) && v <= u && u > 0 && Open(legs, u - 1)
    ensures BuyScaled(legs, u) - BuyScaled(legs, v) <= BuyCostSum(legs, u - 1) * (u - v)
  {
    if legs == [] {
    } else {
      var n := |legs| - 1;
      BuysLeft(legs[..n], v, u);
      if legs[n].action == Buy {
        ScaledLeft(legs[n], legs[n].levels, v, u);
        SumMul(BuyCostSum(legs[..n], u - 1), CostAt(legs[n], u - 1), u - v);
      }
    }
  }

  lemma {:induction false} BuysRight(legs: seq<Leg>, u: nat, v: nat)
    requires Monotone(legs) && Open(legs, u) && u <= v && Reachable(legs, v)
    ensures BuyScaled(legs, v) - BuyScaled(legs, u) >= BuyCostSum(legs, u) * (v - u)
  {
    if legs == [] {
    } else {
      var n := |legs| - 1;
      BuysRight(legs[..n], u, v);
      if legs[n].action == Buy {
        ScaledRight(legs[n], legs[n].levels, u, v);
        SumMul(BuyCostSum(legs[..n], u), CostAt(legs[n], u), v - u);
      }
    }
  }

  lemma BasisLeft(b: Basket, v: nat, u: nat)
    requires Monotone(b.legs) && v <= u && u > 0 && Open(b.legs, u - 1)
    ensures BasisScaled(b, u) - BasisScaled(b, v) <= BasisPerShare(b, u - 1) * (u - v)
  {
    BuysLeft(b.legs, v, u);
    MulSplit(b.collateral, v, u - v);
    SumMul(10_000 * b.collateral, BuyCostSum(b.legs, u - 1), u - v);
    FixedScaled(b.collateral, 0, u - v);
  }

  lemma BasisRight(b: Basket, u: nat, v: nat)
    requires Monotone(b.legs) && Open(b.legs, u) && u <= v && Reachable(b.legs, v)
    ensures BasisScaled(b, v) - BasisScaled(b, u) >= BasisPerShare(b, u) * (v - u)
    ensures BasisScaled(b, v) >= BasisScaled(b, u)
  {
    BuysRight(b.legs, u, v);
    MulSplit(b.collateral, u, v - u);
    SumMul(10_000 * b.collateral, BuyCostSum(b.legs, u), v - u);
    FixedScaled(b.collateral, 0, v - u);
    BasisPerShareNonNegative(b, u);
    MulLe(0, BasisPerShare(b, u), v - u);
  }

  lemma NetLeft(b: Basket, v: nat, u: nat)
    requires Monotone(b.legs) && v <= u && u > 0 && Open(b.legs, u - 1)
    ensures ScaledNet(b, u) - ScaledNet(b, v) >= Marginal(b, u - 1) * (u - v)
  {
    LegsLeft(b.legs, v, u);
    var f := 10_000 * (b.payout - b.collateral);
    MulSplit(f, v, u - v);
    SumMul(f, CostSum(b.legs, u - 1), u - v);
  }

  lemma Weigh(floor: nat, net: int, basis: int, marginal: int, bps: int, n: nat)
    requires net >= marginal * n && basis <= bps * n && 10_000 * marginal >= floor * bps
    ensures 10_000 * net >= floor * basis
  {
    MulLe(floor * bps, 10_000 * marginal, n);
    Times(floor, bps, n);
    Times(10_000, marginal, n);
    MulLe(basis, bps * n, floor);
  }

  lemma Times(a: int, b: int, n: int)
    ensures a * b * n == a * (b * n)
  {
  }

  // ----- no share costs more than the code can count -----

  /** What a 64-bit machine can hold: the collateral, and a vector of 24-byte legs. */
  predicate Addressable(b: Basket) {
    b.collateral <= U64_MAX && |b.legs| <= 400_000_000_000_000_000
  }

  /** A bought share costs at most a dollar and as much in fees. */
  lemma LegIsCheap(l: Leg, u: nat)
    requires ValidLeg(l) && l.feeBps <= 10_000 && At(l.levels, u).Some?
    ensures CostAt(l, u) <= 20_000_000_000
  {
    var px := At(l.levels, u).value.px;
    AtIsALevel(l.levels, u);
    MicroUsdcInterior(px, l.ts);
    FeeIsCheap(l.feeBps, MicroUsdc(px, l.ts));
  }

  lemma FeeIsCheap(rate: int, pm: nat)
    requires rate <= 10_000 && pm < 1_000_000
    ensures FeeBase(rate, pm) <= 10_000_000_000
  {
    var side := Max(0, Min(pm, 1_000_000 - pm));
    MulLe(Max(rate, 0), 10_000, side);
  }

  lemma {:induction false} AtIsALevel(levels: seq<Level>, u: nat)
    requires At(levels, u).Some?
    ensures exists k :: 0 <= k < |levels| && levels[k].px == At(levels, u).value.px
  {
    if u < levels[0].qty {
    } else {
      AtIsALevel(levels[1..], u - levels[0].qty);
      var k :| 0 <= k < |levels[1..]| && levels[1..][k].px == At(levels, u).value.px;
      assert levels[k + 1] == levels[1..][k];
    }
  }

  lemma {:induction false} BuysAreCheap(legs: seq<Leg>, u: nat)
    requires Open(legs, u)
    requires forall i :: 0 <= i < |legs| ==> ValidLeg(legs[i]) && legs[i].feeBps <= 10_000
    ensures BuyCostSum(legs, u) <= 20_000_000_000 * |legs|
  {
    if legs == [] {
    } else {
      var n := |legs| - 1;
      BuysAreCheap(legs[..n], u);
      LegIsCheap(legs[n], u);
    }
  }

  /** The clamp on the advisory charge is never reached. */
  lemma ShareIsCheap(b: Basket, u: nat)
    requires ValidBasket(b) && FeesWithin(b) && Addressable(b) && Open(b.legs, u)
    ensures BasisPerShare(b, u) <= CLAMP * 10_000_000_000
  {
    BuysAreCheap(b.legs, u);
  }

  // ----- what lies past the stop -----

  /** Past the stop nothing is gained. */
  lemma BeyondStop(b: Basket, maxBasis: int, e: nat, v: nat)
    requires IsStop(b, maxBasis, e) && e < v && Reachable(b.legs, v) && Spent(b, 0, v) <= Max(0, maxBasis)
    requires Open(b.legs, e) ==> BasisPerShare(b, e) <= CLAMP * 10_000_000_000
    ensures Open(b.legs, e) && Marginal(b, e) <= 0
  {
    forall i | 0 <= i < |b.legs| ensures At(b.legs[i].levels, e).Some? { AtWithinDepth(b.legs[i].levels, e); }
    SpentMonotone(b, 0, e + 1, v);
  }

  lemma DistributeFloor(floor: nat, a: int, b: int)
    ensures floor * (a - b) == floor * a - floor * b
  {
  }

  /** No extent has more scaled edge than the stop. */
  lemma NoEdgeLost(b: Basket, maxBasis: int, floor: nat, e: nat, v: nat)
    requires Monotone(b.legs) && IsStop(b, maxBasis, e) && KeepsEdge(b, floor, e)
    requires Reachable(b.legs, v) && Spent(b, 0, v) <= Max(0, maxBasis)
    requires Open(b.legs, e) ==> BasisPerShare(b, e) <= CLAMP * 10_000_000_000
    ensures ScaledNet(b, v) <= ScaledNet(b, e) && EdgeScaled(b, floor, v) <= EdgeScaled(b, floor, e)
  {
    assert Gains(b, e - 1);
    if v <= e {
      NetLeft(b, v, e);
      NoGainLeft(b, v, e);
      BasisLeft(b, v, e);
      Weigh(floor, ScaledNet(b, e) - ScaledNet(b, v), BasisScaled(b, e) - BasisScaled(b, v),
            Marginal(b, e - 1), BasisPerShare(b, e - 1), e - v);
    } else {
      BeyondStop(b, maxBasis, e, v);
      NoGainRight(b, e, v);
      BasisRight(b, e, v);
      MulLe(BasisScaled(b, e), BasisScaled(b, v), floor);
    }
    DistributeFloor(floor, BasisScaled(b, e), BasisScaled(b, v));
  }

  lemma {:induction false} BuyRoundingBelow(legs: seq<Leg>, u: nat)
    ensures 10_000_000_000 * BuyOutlayAt(legs, u) >= BuyScaled(legs, u)
  {
    if legs == [] {
    } else {
      BuyRoundingBelow(legs[..|legs| - 1], u);
      LadderRounding(legs[|legs| - 1], legs[|legs| - 1].levels, u);
    }
  }

  /** Exact basis is the unrounded one plus at most two micro-USDC a touched buy level and one. */
  lemma BasisRounding(b: Basket, u: nat)
    ensures BasisScaled(b, u) <= 10_000_000_000 * BasisAt(b, u)
    ensures 10_000_000_000 * BasisAt(b, u) <= BasisScaled(b, u) + 20_000_000_000 * BuyTouched(b.legs, u) +
        10_000_000_000
  {
    BuyRounding(b.legs, u);
    BuyRoundingBelow(b.legs, u);
    DivCeilBounds(b.collateral * u, 1_000_000);
  }

  /** Rounding slack of the edge at e. */
  function EdgeSlack(b: Basket, floor: int, e: nat): int {
    20_000 * (Touched(b.legs, e) + 1) + floor * (2 * BuyTouched(b.legs, e) + 1)
  }

  lemma EdgeWithRounding(floor: nat, netV: int, basisV: int, netE: int, basisE: int, gas: nat,
                         sv: int, bv: int, se: int, be: int, touched: nat, buys: nat)
    requires 10_000_000_000 * (netV + gas) <= sv && bv <= 10_000_000_000 * basisV
    requires 10_000_000_000 * (netE + gas) > se - 20_000_000_000 * (touched + 1)
    requires 10_000_000_000 * basisE <= be + 20_000_000_000 * buys + 10_000_000_000
    requires 10_000 * sv - floor * bv <= 10_000 * se - floor * be
    requires 10_000 * netV >= floor * basisV + 20_000 * (touched + 1) + floor * (2 * buys + 1)
    ensures 10_000 * netE >= floor * basisE
  {
    MulLe(bv, 10_000_000_000 * basisV, floor);
    MulLe(10_000_000_000 * basisE, be + 10_000_000_000 * (2 * buys + 1), floor);
    SumMul(be, 10_000_000_000 * (2 * buys + 1), floor);
    assert floor * (10_000_000_000 * basisV) == 10_000_000_000 * (floor * basisV);
    assert floor * (10_000_000_000 * basisE) == 10_000_000_000 * (floor * basisE);
    assert 10_000_000_000 * (2 * buys + 1) * floor == 10_000_000_000 * (floor * (2 * buys + 1));
  }

  lemma PositiveBasis(b: Basket, e: nat)
    requires e > 0 && Open(b.legs, e - 1) && BasisPerShare(b, e - 1) > 0
    ensures BasisAt(b, e) > 0
  {
    LevelRoomBounds(b.legs, e - 1);
    BasisWithinChunk(b, e - 1, 1);
    NonNegativeBasis(b.legs, e - 1);
    MulLe(0, b.collateral, e - 1);
    BasisRounding(b, e);
  }

  lemma {:induction false} NonNegativeLadder(l: Leg, levels: seq<Level>, u: nat)
    requires l.action == Buy
    ensures LadderScaled(l, levels, u) >= 0
  {
    if levels == [] || u == 0 {
    } else {
      var take := Min(u, levels[0].qty);
      NonNegativeLadder(l, levels[1..], u - take);
      MulLe(0, Cost(l, levels[0].px), take);
    }
  }

  lemma {:induction false} NonNegativeBasis(legs: seq<Leg>, u: nat)
    ensures BuyScaled(legs, u) >= 0
  {
    if legs == [] {
    } else {
      var n := |legs| - 1;
      NonNegativeBasis(legs[..n], u);
      if legs[n].action == Buy { NonNegativeLadder(legs[n], legs[n].levels, u); }
    }
  }

  lemma ValidLegsMonotone(b: Basket)
    requires ValidBasket(b) && FeesWithin(b)
    ensures Monotone(b.legs)
  {
    forall i | 0 <= i < |b.legs| ensures CostsRise(b.legs[i], b.legs[i].levels) {
      assert ValidLeg(b.legs[i]);
      ValidLegCostsRise(b.legs[i]);
    }
  }

  /** Net is never walked past: the stop nets what any affordable extent does, up to rounding. */
  lemma StopNetsMost(b: Basket, maxBasis: int, e: nat, v: nat)
    requires ValidBasket(b) && FeesWithin(b) && Addressable(b) && IsStop(b, maxBasis, e)
    requires Reachable(b.legs, v) && Spent(b, 0, v) <= Max(0, maxBasis)
    ensures NetAt(b, v) < NetAt(b, e) + 2 * Touched(b.legs, e) + 2
  {
    ValidLegsMonotone(b);
    if Open(b.legs, e) { ShareIsCheap(b, e); }
    if v < e {
      assert Gains(b, e - 1);
      NoGainLeft(b, v, e);
    } else if v > e {
      BeyondStop(b, maxBasis, e, v);
      NoGainRight(b, e, v);
    }
    NetRounding(b, v);
    NetRounding(b, e);
  }

  lemma CostlyBasis(b: Basket, e: nat)
    requires Monotone(b.legs) && Open(b.legs, 0) && BasisPerShare(b, 0) > 0 && e > 0 && Reachable(b.legs, e)
    ensures BasisAt(b, e) > 0
  {
    BasisRight(b, 0, e);
    NothingTaken(b.legs);
    MulLe(1, BasisPerShare(b, 0), e);
    BasisRounding(b, e);
  }

  lemma {:induction false} OpenReaches(legs: seq<Leg>, e: nat)
    requires e > 0 && Open(legs, e - 1)
    ensures Reachable(legs, e)
  {
    forall i | 0 <= i < |legs| ensures e <= Depth(legs[i].levels) { AtWithinDepth(legs[i].levels, e - 1); }
  }

  /** A basket that costs something and has an affordable extent worth its profit
      is missed exactly when the edge over everything up to the stop falls short. */
  lemma MissedExactly(b: Basket, maxBasis: int, minProfit: nat, floor: nat, e: nat, v: nat)
    requires ValidBasket(b) && FeesWithin(b) && Addressable(b) && b.legs != [] && floor <= I32_MAX
    requires Open(b.legs, 0) && BasisPerShare(b, 0) > 0 && IsStop(b, maxBasis, e)
    requires Reachable(b.legs, v) && Spent(b, 0, v) <= Max(0, maxBasis)
    requires NetAt(b, v) >= minProfit + 2 * Touched(b.legs, e) + 2
    ensures WalkSpec(b, maxBasis, minProfit, floor).None? <==> NetAt(b, e) * 10_000 < floor * BasisAt(b, e)
  {
    StopNetsMost(b, maxBasis, e, v);
    if e == 0 { NetAtNothing(b.legs); }
    assert Gains(b, e - 1);
    OpenReaches(b.legs, e);
    ValidLegsMonotone(b);
    CostlyBasis(b, e);
    ReportedExactly(b, maxBasis, minProfit, floor, e);
  }

  /** If some affordable extent clears both gates with rounding to spare, and the
      last share before the stop earns the floor on what it costs, the basket is
      reported. */
  lemma LastShareSuffices(b: Basket, maxBasis: int, minProfit: int, floor: nat, e: nat, v: nat)
    requires ValidBasket(b) && FeesWithin(b) && Addressable(b) && b.legs != [] && floor <= I32_MAX
    requires IsStop(b, maxBasis, e) && KeepsEdge(b, floor, e)
    requires Reachable(b.legs, v) && Spent(b, 0, v) <= Max(0, maxBasis)
    requires NetAt(b, v) >= minProfit + 2 * Touched(b.legs, e) + 2
    requires 10_000 * NetAt(b, v) >= floor * BasisAt(b, v) + EdgeSlack(b, floor, e)
    ensures WalkSpec(b, maxBasis, minProfit, floor).Some?
  {
    ValidLegsMonotone(b);
    if Open(b.legs, e) { ShareIsCheap(b, e); }
    NoEdgeLost(b, maxBasis, floor, e, v);
    NetRounding(b, v);
    NetRounding(b, e);
    BasisRounding(b, v);
    BasisRounding(b, e);
    EdgeWithRounding(floor, NetAt(b, v), BasisAt(b, v), NetAt(b, e), BasisAt(b, e), b.gas,
                     ScaledNet(b, v), BasisScaled(b, v), ScaledNet(b, e), BasisScaled(b, e),
                     Touched(b.legs, e), BuyTouched(b.legs, e));
    PositiveBasis(b, e);
    ReportedExactly(b, maxBasis, minProfit, floor, e);
  }

  // ----- said of the ladders and the cap alone -----

  /** Every share that gains costs something and earns the floor on what it costs. */
  ghost predicate EveryShareEarns(b: Basket, floor: int) {
    forall u: nat :: Gains(b, u) ==>
      BasisPerShare(b, u) > 0 && 10_000 * Marginal(b, u) >= floor * BasisPerShare(b, u)
  }

  /** How many levels the ladders have in all. */
  function LevelCount(legs: seq<Leg>): nat {
    if legs == [] then 0 else LevelCount(legs[..|legs| - 1]) + |legs[|legs| - 1].levels|
  }

  lemma {:induction false} TakenIsShort(levels: seq<Level>, u: nat)
    ensures |Taken(levels, u)| <= |levels|
  {
    if u == 0 || levels == [] || u <= levels[0].qty {
    } else {
      TakenIsShort(levels[1..], u - levels[0].qty);
    }
  }

  lemma {:induction false} TouchedIsFew(legs: seq<Leg>, u: nat)
    ensures BuyTouched(legs, u) <= Touched(legs, u) <= LevelCount(legs)
  {
    if legs == [] {
    } else {
      TouchedIsFew(legs[..|legs| - 1], u);
      TakenIsShort(legs[|legs| - 1].levels, u);
    }
  }

  /** What rounding can cost the edge, on ladders of this many levels. */
  function EdgeAllowance(levels: nat, floor: int): int {
    20_000 * (levels + 1) + floor * (2 * levels + 1)
  }

  lemma MoreLevelsMoreSlack(touched: nat, buys: nat, levels: nat, floor: nat)
    requires buys <= touched <= levels
    ensures 20_000 * (touched + 1) + floor * (2 * buys + 1) <= EdgeAllowance(levels, floor)
  {
    MulLe(2 * buys + 1, 2 * levels + 1, floor);
  }

  lemma AllowanceCovers(b: Basket, floor: nat, e: nat)
    ensures EdgeSlack(b, floor, e) <= EdgeAllowance(LevelCount(b.legs), floor)
  {
    TouchedIsFew(b.legs, e);
    MoreLevelsMoreSlack(Touched(b.legs, e), BuyTouched(b.legs, e), LevelCount(b.legs), floor);
  }

  /** If every share that gains earns the floor on its own cost, and some affordable
      extent clears both gates with rounding to spare, the basket is reported. */
  lemma EarningLaddersAreReported(b: Basket, maxBasis: int, minProfit: nat, floor: nat, v: nat)
    requires ValidBasket(b) && FeesWithin(b) && Addressable(b) && b.legs != [] && floor <= I32_MAX
    requires EveryShareEarns(b, floor)
    requires Reachable(b.legs, v) && Spent(b, 0, v) <= Max(0, maxBasis)
    requires NetAt(b, v) >= minProfit + 2 * LevelCount(b.legs) + 2
    requires 10_000 * NetAt(b, v) >= floor * BasisAt(b, v) + EdgeAllowance(LevelCount(b.legs), floor)
    ensures WalkSpec(b, maxBasis, minProfit, floor).Some?
  {
    var e := Units(b, maxBasis);
    UnitsIsTheStop(b, maxBasis, e);
    StopNetsMost(b, maxBasis, e, v);
    TouchedIsFew(b.legs, e);
    if e == 0 { NetAtNothing(b.legs); }
    assert Gains(b, e - 1);
    AllowanceCovers(b, floor, e);
    LastShareSuffices(b, maxBasis, minProfit, floor, e, v);
  }
}
