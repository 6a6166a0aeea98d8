/** How far the exact outlay can exceed the cap the march works under. */
module WalkerCap {
  import opened Wrappers
  import opened Num
  import opened Walker
  import opened WalkerOptimal

  ghost function BuyScaled(legs: seq<Leg>, u: nat): int {
    if legs == [] then 0
    else
      var l := legs[|legs| - 1];
      BuyScaled(legs[..|legs| - 1], u) + if l.action == Buy then LadderScaled(l, l.levels, u) else 0
  }

  function BuyTouched(legs: seq<Leg>, u: nat): nat {
    if legs == [] then 0
    else
      var l := legs[|legs| - 1];
      BuyTouched(legs[..|legs| - 1], u) + if l.action == Buy then |Taken(l.levels, u)| else 0
  }

  lemma {:induction false} BuySumNonNegative(legs: seq<Leg>, u: nat)
    requires Open(legs, u)
    ensures BuyCostSum(legs, u) >= 0
  {
    if legs == [] {
    } else {
      BuySumNonNegative(legs[..|legs| - 1], u);
    }
  }

  lemma {:induction false} BuyScaledWithinLevel(legs: seq<Leg>, u: nat, n: nat)
    requires Open(legs, u) && n <= LevelRoom(legs, u)
    ensures BuyScaled(legs, u + n) == BuyScaled(legs, u) + BuyCostSum(legs, u) * n
  {
    if legs == [] {
    } else {
      var k := |legs| - 1;
      BuyScaledWithinLevel(legs[..k], u, n);
      if legs[k].action == Buy {
        ScaledWithinLevel(legs[k], legs[k].levels, u, n);
        SumMul(BuyCostSum(legs[..k], u), CostAt(legs[k], u), n);
      }
    }
  }

  ghost function BasisScaled(b: Basket, u: nat): int {
    10_000 * (b.collateral * u) + BuyScaled(b.legs, u)
  }

  lemma ChargeBounds(bps: nat, chunk: nat, remaining: int)
    requires bps * chunk <= remaining * 10_000_000_000
    ensures bps * chunk <= 10_000_000_000 * Charge(bps, chunk)
    ensures Charge(bps, chunk) <= remaining
  {
  }

  lemma BasisWithinChunk(b: Basket, u: nat, chunk: nat)
    requires Open(b.legs, u) && chunk <= LevelRoom(b.legs, u)
    ensures BasisScaled(b, u + chunk) - BasisScaled(b, u) == BasisPerShare(b, u) * chunk
    ensures BasisPerShare(b, u) >= 0
  {
    BuySumNonNegative(b.legs, u);
    BuyScaledWithinLevel(b.legs, u, chunk);
    MulSplit(b.collateral, u, chunk);
    SumMul(10_000 * b.collateral, BuyCostSum(b.legs, u), chunk);
    FixedScaled(b.collateral, 0, chunk);
  }

  /** What the cap leaves pays for the chunk. */
  lemma ChunkWithinRemaining(b: Basket, maxBasis: int, u: nat, used: int)
    requires Chunk(b, maxBasis, u, used).Some? && BasisPerShare(b, u) > 0
    ensures BasisPerShare(b, u) * Chunk(b, maxBasis, u, used).value <= (maxBasis - used) * 10_000_000_000
  {
    var cap := CapShares(maxBasis - used, BasisPerShare(b, u));
    CapIsPositive(maxBasis - used, BasisPerShare(b, u));
    MulLe(Chunk(b, maxBasis, u, used).value, cap, BasisPerShare(b, u));
  }

  /** One chunk: the advisory charge covers its unrounded basis and stays within what remains. */
  lemma ChunkCharge(b: Basket, maxBasis: int, u: nat, used: int)
    requires Chunk(b, maxBasis, u, used).Some? && used <= Max(0, maxBasis)
    ensures var chunk := Chunk(b, maxBasis, u, used).value;
            var spent := used + Charge(BasisPerShare(b, u), chunk);
            && BasisScaled(b, u + chunk) - BasisScaled(b, u) <= 10_000_000_000 * (spent - used)
            && spent <= Max(0, maxBasis)
  {
    ChunkAdvances(b, maxBasis, u, used);
    var chunk := Chunk(b, maxBasis, u, used).value;
    BasisWithinChunk(b, u, chunk);
    if BasisPerShare(b, u) > 0 {
      ChunkWithinRemaining(b, maxBasis, u, used);
      ChargeBounds(BasisPerShare(b, u), chunk, maxBasis - used);
    }
  }

  lemma {:induction false} MarchCharge(b: Basket, maxBasis: int, u: nat, used: int)
    requires used <= Max(0, maxBasis) && BasisScaled(b, u) <= 10_000_000_000 * used
    ensures var (end, spent) := March(b, maxBasis, u, used);
            spent <= Max(0, maxBasis) && BasisScaled(b, end) <= 10_000_000_000 * spent
    decreases if b.legs == [] then 0 else Depth(b.legs[0].levels) - u
  {
    match Chunk(b, maxBasis, u, used)
    case None =>
    case Some(chunk) =>
      ChunkAdvances(b, maxBasis, u, used);
      ChunkCharge(b, maxBasis, u, used);
      MarchCharge(b, maxBasis, u + chunk, used + Charge(BasisPerShare(b, u), chunk));
  }

  lemma {:induction false} BuyRounding(legs: seq<Leg>, u: nat)
    ensures 10_000_000_000 * BuyOutlayAt(legs, u) <= BuyScaled(legs, u) + 20_000_000_000 * BuyTouched(legs, u)
  {
    if legs == [] {
    } else {
      BuyRounding(legs[..|legs| - 1], u);
      LadderRounding(legs[|legs| - 1], legs[|legs| - 1].levels, u);
    }
  }

  lemma {:induction false} NothingTaken(legs: seq<Leg>)
    ensures BuyScaled(legs, 0) == 0
  {
    if legs == [] {
    } else {
      NothingTaken(legs[..|legs| - 1]);
    }
  }

  /** The exact basis overshoots the cap by at most two micro-USDC per buy level touched. */
  lemma BasisWithinCap(b: Basket, maxBasis: int)
    ensures BasisAt(b, Units(b, maxBasis)) <= Max(0, maxBasis) + 2 * BuyTouched(b.legs, Units(b, maxBasis))
  {
    var (end, spent) := March(b, maxBasis, 0, 0);
    NothingTaken(b.legs);
    MarchCharge(b, maxBasis, 0, 0);
    BuyRounding(b.legs, end);
    DivCeilBounds(b.collateral * end, 1_000_000);
  }
}
