/** Why the march's extent is a good one: along monotone ladders the unrounded
    net is concave, the march stops at its top, and rounding costs at most two
    micro-USDC per touched level. */
module WalkerOptimal {
  import opened Wrappers
  import opened Num
  import opened Book
  import opened Walker

  function Cost(l: Leg, px: nat): int {
    ScaledLegCost(l.action, l.feeBps, MicroUsdc(px, l.ts))
  }

  /** Unrounded scaled cost of taking u shares from a ladder. */
  ghost function LadderScaled(l: Leg, levels: seq<Level>, u: nat): int {
    if levels == [] || u == 0 then 0
    else
      var take := Min(u, levels[0].qty);
      Cost(l, levels[0].px) * take + LadderScaled(l, levels[1..], u - take)
  }

  /** Costs never fall as a ladder is consumed. */
  ghost predicate CostsRise(l: Leg, levels: seq<Level>) {
    forall i, j :: 0 <= i < j < |levels| ==> Cost(l, levels[i].px) <= Cost(l, levels[j].px)
  }

  lemma ValidLegCostsRise(l: Leg)
    requires ValidLeg(l) && l.feeBps <= 10_000
    ensures CostsRise(l, l.levels)
  {
    forall i, j | 0 <= i < j < |l.levels| ensures Cost(l, l.levels[i].px) <= Cost(l, l.levels[j].px) {
      var p, q := l.levels[i].px, l.levels[j].px;
      assert Improves(SideOf(l.action), p, q);
      MicroUsdcInterior(p, l.ts);
      MicroUsdcInterior(q, l.ts);
      ScaledCostMonotone(l.action, l.feeBps, MicroUsdc(p, l.ts), MicroUsdc(q, l.ts));
    }
  }

  lemma MulSplit(c: int, a: int, b: int)
    ensures c * (a + b) == c * a + c * b
  {
  }

  lemma SumMul(a: int, b: int, n: int)
    ensures (a + b) * n == a * n + b * n
    ensures (a - b) * n == a * n - b * n
  {
  }

  lemma FixedScaled(p: int, c: int, u: int)
    ensures 10_000 * (p - c) * u == 10_000 * (p * u) - 10_000 * (c * u)
  {
    SumMul(10_000 * p, 10_000 * c, u);
  }

  /** Within one level the scaled cost grows linearly. */
  lemma {:induction false} ScaledWithinLevel(l: Leg, levels: seq<Level>, u: nat, n: nat)
    requires At(levels, u).Some? && n <= At(levels, u).value.qty
    ensures LadderScaled(l, levels, u + n) == LadderScaled(l, levels, u) + Cost(l, At(levels, u).value.px) * n
  {
    if u < levels[0].qty {
      MulSplit(Cost(l, levels[0].px), u, n);
    } else {
      ScaledWithinLevel(l, levels[1..], u - levels[0].qty, n);
    }
  }

  /** Taking more than u costs at least the level price at u. */
  lemma {:induction false} ScaledRight(l: Leg, levels: seq<Level>, u: nat, v: nat)
    requires CostsRise(l, levels) && At(levels, u).Some? && u <= v <= Depth(levels)
    ensures LadderScaled(l, levels, v) - LadderScaled(l, levels, u) >= Cost(l, At(levels, u).value.px) * (v - u)
  {
    var c, q := Cost(l, levels[0].px), levels[0].qty;
    if u < q {
      if v <= q {
        MulSplit(c, u, v - u);
      } else {
        ScaledAtLeast(l, levels[1..], c, v - q);
        MulSplit(c, u, q - u);
        MulSplit(c, q - u, v - q);
      }
    } else {
      ScaledRight(l, levels[1..], u - q, v - q);
    }
  }

  lemma {:induction false} ScaledAtLeast(l: Leg, levels: seq<Level>, c: int, x: nat)
    requires x <= Depth(levels) && forall i :: 0 <= i < |levels| ==> c <= Cost(l, levels[i].px)
    ensures LadderScaled(l, levels, x) >= c * x
  {
    if x == 0 {
    } else {
      var take := Min(x, levels[0].qty);
      ScaledAtLeast(l, levels[1..], c, x - take);
      MulLe(c, Cost(l, levels[0].px), take);
      MulSplit(c, take, x - take);
    }
  }

  /** The last shares up to u cost at most the price of the last level taken. */
  lemma {:induction false} ScaledLeft(l: Leg, levels: seq<Level>, v: nat, u: nat)
    requires CostsRise(l, levels) && v <= u && u > 0 && At(levels, u - 1).Some?
    ensures LadderScaled(l, levels, u) - LadderScaled(l, levels, v) <= Cost(l, At(levels, u - 1).value.px) * (u - v)
  {
    var c, q := Cost(l, levels[0].px), levels[0].qty;
    if u <= q {
      MulSplit(c, v, u - v);
    } else {
      var last := Cost(l, At(levels, u - 1).value.px);
      if v >= q {
        ScaledLeft(l, levels[1..], v - q, u - q);
      } else {
        ScaledLeft(l, levels[1..], 0, u - q);
        AtWithinDepth(levels[1..], u - 1 - q);
        MulLe(c, last, q - v);
        MulSplit(c, v, q - v);
        MulSplit(last, q - v, u - q);
      }
    }
  }

  // ----- all legs together -----

  ghost function LegsScaled(legs: seq<Leg>, u: nat): int {
    if legs == [] then 0
    else LegsScaled(legs[..|legs| - 1], u) + LadderScaled(legs[|legs| - 1], legs[|legs| - 1].levels, u)
  }

  /** Unrounded scaled net before gas. */
  ghost function ScaledNet(b: Basket, u: nat): int {
    10_000 * (b.payout - b.collateral) * u - LegsScaled(b.legs, u)
  }

  ghost predicate Monotone(legs: seq<Leg>) {
    forall i :: 0 <= i < |legs| ==> CostsRise(legs[i], legs[i].levels)
  }

  ghost predicate Reachable(legs: seq<Leg>, u: nat) {
    forall i :: 0 <= i < |legs| ==> u <= Depth(legs[i].levels)
  }

  lemma {:induction false} LegsRight(legs: seq<Leg>, u: nat, v: nat)
    requires Monotone(legs) && Open(legs, u) && u <= v && Reachable(legs, v)
    ensures LegsScaled(legs, v) - LegsScaled(legs, u) >= CostSum(legs, u) * (v - u)
  {
    if legs == [] {
    } else {
      var n := |legs| - 1;
      LegsRight(legs[..n], u, v);
      ScaledRight(legs[n], legs[n].levels, u, v);
      SumMul(CostSum(legs[..n], u), CostAt(legs[n], u), v - u);
    }
  }

  lemma {:induction false} LegsLeft(legs: seq<Leg>, v: nat, u: nat)
    requires Monotone(legs) && v <= u && u > 0 && Open(legs, u - 1)
    ensures LegsScaled(legs, u) - LegsScaled(legs, v) <= CostSum(legs, u - 1) * (u - v)
  {
    if legs == [] {
    } else {
      var n := |legs| - 1;
      LegsLeft(legs[..n], v, u);
      ScaledLeft(legs[n], legs[n].levels, v, u);
      SumMul(CostSum(legs[..n], u - 1), CostAt(legs[n], u - 1), u - v);
    }
  }

  /** Where the next share no longer pays, going further cannot help. */
  lemma NoGainRight(b: Basket, u: nat, v: nat)
    requires Monotone(b.legs) && Open(b.legs, u) && Marginal(b, u) <= 0 && u <= v && Reachable(b.legs, v)
    ensures ScaledNet(b, v) <= ScaledNet(b, u)
  {
    LegsRight(b.legs, u, v);
    var f := 10_000 * (b.payout - b.collateral);
    MulSplit(f, u, v - u);
    SumMul(f, CostSum(b.legs, u), v - u);
    MulLe(Marginal(b, u), 0, v - u);
  }

  /** While the last share taken still paid, stopping earlier cannot help. */
  lemma NoGainLeft(b: Basket, v: nat, u: nat)
    requires Monotone(b.legs) && v <= u && u > 0 && Open(b.legs, u - 1) && Marginal(b, u - 1) > 0
    ensures ScaledNet(b, v) <= ScaledNet(b, u)
  {
    LegsLeft(b.legs, v, u);
    var f := 10_000 * (b.payout - b.collateral);
    MulSplit(f, v, u - v);
    SumMul(f, CostSum(b.legs, u - 1), u - v);
    MulLe(0, Marginal(b, u - 1), u - v);
  }

  // ----- where the march stops -----

  lemma {:induction false} AtInsideLevel(levels: seq<Level>, u: nat, j: nat)
    requires At(levels, u).Some? && j < At(levels, u).value.qty
    ensures At(levels, u + j) == Some(Level(At(levels, u).value.px, At(levels, u).value.qty - j))
  {
    if u < levels[0].qty {
    } else {
      AtInsideLevel(levels[1..], u - levels[0].qty, j);
    }
  }

  lemma {:induction false} SumsInsideLevel(legs: seq<Leg>, u: nat, j: nat)
    requires Open(legs, u) && j < LevelRoom(legs, u)
    ensures Open(legs, u + j) && CostSum(legs, u + j) == CostSum(legs, u)
  {
    if legs == [] {
    } else {
      var n := |legs| - 1;
      SumsInsideLevel(legs[..n], u, j);
      AtInsideLevel(legs[n].levels, u, j);
      forall i | 0 <= i < |legs| ensures At(legs[i].levels, u + j).Some? {
        if i < n { assert legs[i] == legs[..n][i]; }
      }
      assert legs[..n] == legs[..n];
    }
  }

  lemma LastShareOfChunk(b: Basket, maxBasis: int, u: nat, used: int)
    requires Chunk(b, maxBasis, u, used).Some?
    ensures var last := u + Chunk(b, maxBasis, u, used).value - 1;
            last >= u && Open(b.legs, last) && Marginal(b, last) > 0
  {
    ChunkAdvances(b, maxBasis, u, used);
    SumsInsideLevel(b.legs, u, Chunk(b, maxBasis, u, used).value - 1);
  }

  /** The march ends where it can go no further. */
  lemma {:induction false} MarchStops(b: Basket, maxBasis: int, u: nat, used: int)
    ensures Chunk(b, maxBasis, March(b, maxBasis, u, used).0, March(b, maxBasis, u, used).1).None?
    decreases if b.legs == [] then 0 else Depth(b.legs[0].levels) - u
  {
    match Chunk(b, maxBasis, u, used)
    case None =>
    case Some(chunk) =>
      ChunkAdvances(b, maxBasis, u, used);
      MarchStops(b, maxBasis, u + chunk, used + Charge(BasisPerShare(b, u), chunk));
  }

  ghost predicate LastSharePaid(b: Basket, u: nat, end: nat) {
    end >= u && (end > u ==> Open(b.legs, end - 1) && Marginal(b, end - 1) > 0)
  }

  /** The last share the march took had a positive marginal. */
  lemma {:induction false} MarchPaid(b: Basket, maxBasis: int, u: nat, used: int)
    ensures LastSharePaid(b, u, March(b, maxBasis, u, used).0)
    decreases if b.legs == [] then 0 else Depth(b.legs[0].levels) - u
  {
    match Chunk(b, maxBasis, u, used)
    case None =>
    case Some(chunk) =>
      ChunkAdvances(b, maxBasis, u, used);
      LastShareOfChunk(b, maxBasis, u, used);
      MarchPaid(b, maxBasis, u + chunk, used + Charge(BasisPerShare(b, u), chunk));
  }

  lemma WhyStopped(b: Basket, maxBasis: int, u: nat, used: int)
    requires Chunk(b, maxBasis, u, used).None? && b.legs != [] && Open(b.legs, u)
    ensures Marginal(b, u) <= 0 || CapStops(b, maxBasis, u, used)
  {
    LevelRoomBounds(b.legs, u);
  }

  // ----- rounding -----

  /** Levels touched by an extent, over all legs. */
  function Touched(legs: seq<Leg>, u: nat): nat {
    if legs == [] then 0 else Touched(legs[..|legs| - 1], u) + |Taken(legs[|legs| - 1].levels, u)|
  }

  lemma {:induction false} LadderRounding(l: Leg, levels: seq<Level>, u: nat)
    ensures 10_000_000_000 * LadderCash(l, levels, u) <= -LadderScaled(l, levels, u)
    ensures 10_000_000_000 * LadderCash(l, levels, u) >= -LadderScaled(l, levels, u) -
        20_000_000_000 * |Taken(levels, u)|
  {
    if u == 0 || levels == [] {
    } else {
      var take := Min(u, levels[0].qty);
      LadderRounding(l, levels[1..], u - take);
      FillCashRounding(l.action, l.feeBps, MicroUsdc(levels[0].px, l.ts), take);
      assert -Cost(l, levels[0].px) * take == -(Cost(l, levels[0].px) * take);
    }
  }

  lemma {:induction false} LegsRounding(legs: seq<Leg>, u: nat)
    ensures 10_000_000_000 * LegsCash(legs, u) <= -LegsScaled(legs, u)
    ensures 10_000_000_000 * LegsCash(legs, u) >= -LegsScaled(legs, u) - 20_000_000_000 * Touched(legs, u)
  {
    if legs == [] {
    } else {
      LegsRounding(legs[..|legs| - 1], u);
      LadderRounding(legs[|legs| - 1], legs[|legs| - 1].levels, u);
    }
  }

  /** Exact net is the unrounded net less at most two micro-USDC per touched level and two more. */
  lemma NetRounding(b: Basket, u: nat)
    ensures 10_000_000_000 * (NetAt(b, u) + b.gas) <= ScaledNet(b, u)
    ensures 10_000_000_000 * (NetAt(b, u) + b.gas) > ScaledNet(b, u) - 20_000_000_000 * (Touched(b.legs, u) + 1)
  {
    LegsRounding(b.legs, u);
    FloorBounds(b.payout * u, 1_000_000);
    DivCeilBounds(b.collateral * u, 1_000_000);
    FixedScaled(b.payout, b.collateral, u);
  }

  // ----- the theorems -----

  ghost predicate FeesWithin(b: Basket) {
    forall i :: 0 <= i < |b.legs| ==> b.legs[i].feeBps <= 10_000
  }

  /** The basis cap is what stopped the march: the next share was there and still paid. */
  ghost predicate CapBinds(b: Basket, maxBasis: int) {
    var (end, spent) := March(b, maxBasis, 0, 0);
    Open(b.legs, end) && Marginal(b, end) > 0 && CapStops(b, maxBasis, end, spent)
  }

  /** Greedy is optimal up to rounding: no extent within the common depth (when
      the cap binds, no smaller extent) nets as much as two micro-USDC per
      touched level plus two more than the march's. */
  lemma MarchIsOptimal(b: Basket, maxBasis: int, v: nat)
    requires ValidBasket(b) && FeesWithin(b) && b.legs != []
    requires Reachable(b.legs, v)
    requires CapBinds(b, maxBasis) ==> v <= Units(b, maxBasis)
    ensures NetAt(b, v) < NetAt(b, Units(b, maxBasis)) + 2 * Touched(b.legs, Units(b, maxBasis)) + 2
  {
    var (end, spent) := March(b, maxBasis, 0, 0);
    forall i | 0 <= i < |b.legs| ensures CostsRise(b.legs[i], b.legs[i].levels) {
      assert ValidLeg(b.legs[i]);
      ValidLegCostsRise(b.legs[i]);
    }
    MarchStops(b, maxBasis, 0, 0);
    MarchPaid(b, maxBasis, 0, 0);
    if v < end {
      NoGainLeft(b, v, end);
    } else if v > end {
      forall i | 0 <= i < |b.legs| ensures At(b.legs[i].levels, end).Some? { AtWithinDepth(b.legs[i].levels, end); }
      WhyStopped(b, maxBasis, end, spent);
      NoGainRight(b, end, v);
    }
    NetRounding(b, v);
    NetRounding(b, end);
  }

  /** No missed profit: if any extent clears the profit gate by the rounding
      slack, the walk reports an opportunity unless the edge gate rejects its size. */
  lemma NoMissedProfit(b: Basket, maxBasis: int, minProfit: int, floor: int, v: nat)
    requires ValidBasket(b) && FeesWithin(b) && b.legs != []
    requires Reachable(b.legs, v) && (CapBinds(b, maxBasis) ==> v <= Units(b, maxBasis))
    requires minProfit >= 0 && NetAt(b, v) >= minProfit + 2 * Touched(b.legs, Units(b, maxBasis)) + 2
    ensures Units(b, maxBasis) > 0
    ensures var edge := EdgeBps(NetAt(b, Units(b, maxBasis)), BasisAt(b, Units(b, maxBasis)));
            WalkSpec(b, maxBasis, minProfit, floor).Some? <==> edge.Some? && edge.value >= floor
  {
    MarchIsOptimal(b, maxBasis, v);
    if Units(b, maxBasis) == 0 { NetAtNothing(b.legs); }
  }

  lemma {:induction false} NetAtNothing(legs: seq<Leg>)
    ensures LegsCash(legs, 0) == 0 && Touched(legs, 0) == 0
  {
    if legs == [] {
    } else {
      NetAtNothing(legs[..|legs| - 1]);
    }
  }
}
