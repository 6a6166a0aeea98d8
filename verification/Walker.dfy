/** Exact sizing of a multi-leg basket: several ladders are consumed in lock-step
    while the unrounded scaled marginal stays positive and the basis cap allows. */
module Walker {
  import opened Wrappers
  import opened Num
  import opened Instrument
  import opened Book

  datatype Leg = Leg(token: TokenId, action: Action, ts: TickSize, feeBps: int, levels: seq<Level>)

  datatype Basket = Basket(legs: seq<Leg>, payout: nat, collateral: nat, gas: nat)

  datatype WalkResult = WalkResult(units: nat, net: int, basis: int, edge: int, fills: seq<LegFill>)

  function SideOf(a: Action): Side {
    match a case Buy => Ask case Sell => Bid
  }

  /** We buy from asks and sell into bids; levels come best first. */
  ghost predicate ValidLeg(l: Leg) {
    BestFirst(SideOf(l.action), l.ts, l.levels)
  }

  ghost predicate ValidBasket(b: Basket) {
    forall i :: 0 <= i < |b.legs| ==> ValidLeg(b.legs[i])
  }

  // ----- one ladder at a depth -----

  function Depth(levels: seq<Level>): nat {
    if levels == [] then 0 else levels[0].qty + Depth(levels[1..])
  }

  /** Price and quantity left at the level holding the u-th micro-share. */
  function At(levels: seq<Level>, u: nat): Option<Level> {
    if levels == [] then None
    else if u < levels[0].qty then Some(Level(levels[0].px, levels[0].qty - u))
    else At(levels[1..], u - levels[0].qty)
  }

  /** The best-first prefix of total size u, level by level. */
  function Taken(levels: seq<Level>, u: nat): seq<Level> {
    if u == 0 || levels == [] then []
    else if u <= levels[0].qty then [Level(levels[0].px, u)]
    else [levels[0]] + Taken(levels[1..], u - levels[0].qty)
  }

  function Qty(segs: seq<Level>): nat {
    if segs == [] then 0 else Qty(segs[..|segs| - 1]) + segs[|segs| - 1].qty
  }

  lemma {:induction false} AtWithinDepth(levels: seq<Level>, u: nat)
    ensures At(levels, u).Some? <==> u < Depth(levels)
    ensures At(levels, u).Some? ==> 0 < At(levels, u).value.qty <= Depth(levels) - u
    ensures At(levels, u).Some? ==> exists i :: 0 <= i < |levels| && levels[i].px == At(levels, u).value.px
  {
    if levels == [] {
    } else {
      if u < levels[0].qty {
        assert levels[0].px == At(levels, u).value.px;
      } else {
        AtWithinDepth(levels[1..], u - levels[0].qty);
        if At(levels, u).Some? {
          var i :| 0 <= i < |levels[1..]| && levels[1..][i].px == At(levels, u).value.px;
          assert levels[i + 1].px == At(levels, u).value.px;
        }
      }
    }
  }

  lemma BestFirstTail(side: Side, ts: TickSize, levels: seq<Level>)
    requires BestFirst(side, ts, levels) && levels != []
    ensures BestFirst(side, ts, levels[1..])
    ensures forall i :: 0 <= i < |levels[1..]| ==> Improves(side, levels[0].px, levels[1..][i].px)
  {
  }

  lemma {:induction false} QtyConcat(a: seq<Level>, b: seq<Level>)
    ensures Qty(a + b) == Qty(a) + Qty(b)
  {
    if b == [] {
      assert a + b == a;
    } else {
      QtyConcat(a, b[..|b| - 1]);
      assert (a + b)[..|a + b| - 1] == a + b[..|b| - 1];
    }
  }

  lemma {:induction false} TakenFills(levels: seq<Level>, u: nat)
    requires u <= Depth(levels)
    ensures Qty(Taken(levels, u)) == u
    ensures u > 0 ==> Taken(levels, u) != []
  {
    if u == 0 {
    } else {
      if u > levels[0].qty {
        TakenFills(levels[1..], u - levels[0].qty);
        QtyConcat([levels[0]], Taken(levels[1..], u - levels[0].qty));
        assert Qty([levels[0]]) == levels[0].qty;
      }
    }
  }

  /** A prefix of the ladder: full levels, then at most one partial one. */
  lemma {:induction false} TakenIsPrefix(levels: seq<Level>, u: nat)
    requires forall i :: 0 <= i < |levels| ==> levels[i].qty > 0
    ensures var t := Taken(levels, u);
            && |t| <= |levels|
            && (forall i :: 0 <= i < |t| ==> t[i].px == levels[i].px && 0 < t[i].qty <= levels[i].qty)
            && (forall i :: 0 <= i < |t| - 1 ==> t[i] == levels[i])
  {
    if u == 0 || levels == [] || u <= levels[0].qty {
    } else {
      TakenIsPrefix(levels[1..], u - levels[0].qty);
    }
  }

  // ----- the per-share economics at a depth -----

  /** Scaled per-share cost of the next micro-share on one leg. */
  function CostAt(l: Leg, u: nat): int
    requires At(l.levels, u).Some?
  {
    ScaledLegCost(l.action, l.feeBps, MicroUsdc(At(l.levels, u).value.px, l.ts))
  }

  predicate Open(legs: seq<Leg>, u: nat) {
    forall i :: 0 <= i < |legs| ==> At(legs[i].levels, u).Some?
  }

  function CostSum(legs: seq<Leg>, u: nat): int
    requires Open(legs, u)
  {
    if legs == [] then 0
    else CostSum(legs[..|legs| - 1], u) + CostAt(legs[|legs| - 1], u)
  }

  function BuyCostSum(legs: seq<Leg>, u: nat): int
    requires Open(legs, u)
  {
    if legs == [] then 0
    else BuyCostSum(legs[..|legs| - 1], u) + if legs[|legs| - 1].action == Buy then CostAt(legs[|legs| - 1], u) else 0
  }

  /** Scaled net of the next micro-share of every leg together. */
  function Marginal(b: Basket, u: nat): int
    requires Open(b.legs, u)
  {
    10_000 * (b.payout - b.collateral) - CostSum(b.legs, u)
  }

  function BasisPerShare(b: Basket, u: nat): int
    requires Open(b.legs, u)
  {
    10_000 * b.collateral + BuyCostSum(b.legs, u)
  }

  /** Smallest remaining quantity over the legs' current levels. */
  function LevelRoom(legs: seq<Leg>, u: nat): nat
    requires Open(legs, u)
  {
    if legs == [] then U64_MAX
    else Min(LevelRoom(legs[..|legs| - 1], u), At(legs[|legs| - 1].levels, u).value.qty)
  }

  lemma {:induction false} LevelRoomBounds(legs: seq<Leg>, u: nat)
    requires Open(legs, u)
    ensures 0 < LevelRoom(legs, u)
    ensures forall i :: 0 <= i < |legs| ==> LevelRoom(legs, u) <= At(legs[i].levels, u).value.qty
  {
    if legs == [] {
    } else {
      LevelRoomBounds(legs[..|legs| - 1], u);
      AtWithinDepth(legs[|legs| - 1].levels, u);
    }
  }

  // ----- the march -----

  /** Shares the remaining basis still pays for. */
  function CapShares(remaining: int, basisPerShare: int): int
    requires basisPerShare > 0
  {
    Min(Min(remaining, 1_000_000_000_000_000_000) * 10_000_000_000 / basisPerShare, U64_MAX)
  }

  /** The room left after the basis cap, None when the cap allows nothing. */
  function Capped(room: nat, remaining: int, basisPerShare: int): Option<nat> {
    if basisPerShare <= 0 then Some(room)
    else if remaining <= 0 || CapShares(remaining, basisPerShare) == 0 then None
    else
      CapIsPositive(remaining, basisPerShare);
      Some(Min(room, CapShares(remaining, basisPerShare)))
  }

  /** The next chunk the march takes, None when it stops. */
  function Chunk(b: Basket, maxBasis: int, u: nat, used: int): (r: Option<nat>)
    ensures r.Some? ==> Open(b.legs, u)
  {
    if !Open(b.legs, u) || b.legs == [] || Marginal(b, u) <= 0 || LevelRoom(b.legs, u) == 0 then None
    else Capped(LevelRoom(b.legs, u), maxBasis - used, BasisPerShare(b, u))
  }

  /** The basis cap leaves no share to take here. */
  predicate CapStops(b: Basket, maxBasis: int, u: nat, used: int)
    requires Open(b.legs, u)
  {
    Capped(LevelRoom(b.legs, u), maxBasis - used, BasisPerShare(b, u)).None?
  }

  lemma CapIsPositive(remaining: int, bps: int)
    requires remaining > 0 && bps > 0
    ensures CapShares(remaining, bps) >= 0
    ensures CapShares(remaining, bps) * bps <= remaining * 10_000_000_000
  {
    var rem := Min(remaining, 1_000_000_000_000_000_000);
    var full := rem * 10_000_000_000 / bps;
    assert full * bps <= rem * 10_000_000_000;
    assert full >= 0;
    CapProduct(full, bps);
  }

  lemma CapProduct(full: nat, bps: nat)
    ensures Min(full, U64_MAX) * bps <= full * bps
  {
    if full > U64_MAX { assert (full - U64_MAX) * bps >= 0; }
  }

  /** Advisory basis charged for one chunk, rounded up. */
  function Charge(basisPerShare: int, chunk: nat): int {
    (basisPerShare * chunk + 9_999_999_999) / 10_000_000_000
  }

  lemma ChunkAdvances(b: Basket, maxBasis: int, u: nat, used: int)
    requires Chunk(b, maxBasis, u, used).Some?
    ensures 0 < Chunk(b, maxBasis, u, used).value <= LevelRoom(b.legs, u)
    ensures forall i :: 0 <= i < |b.legs| ==> u + Chunk(b, maxBasis, u, used).value <= Depth(b.legs[i].levels)
  {
    LevelRoomBounds(b.legs, u);
    if BasisPerShare(b, u) > 0 { CapIsPositive(maxBasis - used, BasisPerShare(b, u)); }
    forall i | 0 <= i < |b.legs| ensures u + Chunk(b, maxBasis, u, used).value <= Depth(b.legs[i].levels) {
      AtWithinDepth(b.legs[i].levels, u);
    }
  }

  /** Where the march ends: units taken and advisory basis charged. */
  function March(b: Basket, maxBasis: int, u: nat, used: int): (nat, int)
    decreases if b.legs == [] then 0 else Depth(b.legs[0].levels) - u
  {
    match Chunk(b, maxBasis, u, used)
    case None => (u, used)
    case Some(chunk) =>
      ChunkAdvances(b, maxBasis, u, used);
      March(b, maxBasis, u + chunk, used + Charge(BasisPerShare(b, u), chunk))
  }

  function Units(b: Basket, maxBasis: int): nat {
    March(b, maxBasis, 0, 0).0
  }

  // ----- exact accounting at an extent -----

  /** Exact signed cash of the segments taken on one leg. */
  function SegsCash(l: Leg, segs: seq<Level>): int {
    if segs == [] then 0
    else
      var s := segs[|segs| - 1];
      SegsCash(l, segs[..|segs| - 1]) + FillCash(l.action, l.feeBps, MicroUsdc(s.px, l.ts), s.qty)
  }

  /** The same cash recomputed level by level, as a taker of u shares would pay it. */
  function LadderCash(l: Leg, levels: seq<Level>, u: nat): int {
    if levels == [] || u == 0 then 0
    else
      var take := Min(u, levels[0].qty);
      FillCash(l.action, l.feeBps, MicroUsdc(levels[0].px, l.ts), take) + LadderCash(l, levels[1..], u - take)
  }

  function LegCash(l: Leg, u: nat): int {
    LadderCash(l, l.levels, u)
  }

  lemma {:induction false} SegsCashCons(l: Leg, s: Level, segs: seq<Level>)
    ensures SegsCash(l, [s] + segs) == FillCash(l.action, l.feeBps, MicroUsdc(s.px, l.ts), s.qty) + SegsCash(l, segs)
  {
    var all := [s] + segs;
    if segs == [] {
      assert all == [s] && all[..0] == [];
    } else {
      SegsCashCons(l, s, segs[..|segs| - 1]);
      assert all[..|all| - 1] == [s] + segs[..|segs| - 1];
    }
  }

  /** Recording segments and recomputing from the ladder give the same cash. */
  lemma {:induction false} SegsCashIsLadderCash(l: Leg, levels: seq<Level>, u: nat)
    ensures SegsCash(l, Taken(levels, u)) == LadderCash(l, levels, u)
  {
    if u == 0 || levels == [] {
    } else {
      var first := Level(levels[0].px, Min(u, levels[0].qty));
      if u <= levels[0].qty {
        assert [first] == [first] + [];
        SegsCashCons(l, first, []);
      } else {
        SegsCashIsLadderCash(l, levels[1..], u - levels[0].qty);
        SegsCashCons(l, first, Taken(levels[1..], u - levels[0].qty));
      }
    }
  }

  function LegsCash(legs: seq<Leg>, u: nat): int {
    if legs == [] then 0 else LegsCash(legs[..|legs| - 1], u) + LegCash(legs[|legs| - 1], u)
  }

  function BuyOutlayAt(legs: seq<Leg>, u: nat): int {
    if legs == [] then 0
    else BuyOutlayAt(legs[..|legs| - 1], u) - if legs[|legs| - 1].action == Buy then LegCash(legs[|legs| - 1], u) else 0
  }

  /** Exact net of the basket at an extent: leg cash, plus payout floored, minus collateral ceiled, minus gas. */
  function NetAt(b: Basket, u: nat): int {
    LegsCash(b.legs, u) + b.payout * u / 1_000_000 - DivCeil(b.collateral * u, 1_000_000) - b.gas
  }

  function BasisAt(b: Basket, u: nat): int {
    BuyOutlayAt(b.legs, u) + DivCeil(b.collateral * u, 1_000_000)
  }

  function FillAt(l: Leg, u: nat): LegFill
    requires 0 < u <= Depth(l.levels)
  {
    var t := Taken(l.levels, u);
    TakenFills(l.levels, u);
    LegFill(l.token, l.action, l.ts, t[|t| - 1].px, u, LegCash(l, u))
  }

  function FillsAt(legs: seq<Leg>, u: nat): seq<LegFill>
    requires u > 0 && forall i :: 0 <= i < |legs| ==> u <= Depth(legs[i].levels)
  {
    seq(|legs|, i requires 0 <= i < |legs| => FillAt(legs[i], u))
  }

  /** The march never leaves the common depth. */
  lemma {:induction false} MarchWithinDepth(b: Basket, maxBasis: int, u: nat, used: int)
    requires forall i :: 0 <= i < |b.legs| ==> u <= Depth(b.legs[i].levels)
    ensures March(b, maxBasis, u, used).0 >= u
    ensures forall i :: 0 <= i < |b.legs| ==> March(b, maxBasis, u, used).0 <= Depth(b.legs[i].levels)
    decreases if b.legs == [] then 0 else Depth(b.legs[0].levels) - u
  {
    match Chunk(b, maxBasis, u, used)
    case None =>
    case Some(chunk) =>
      ChunkAdvances(b, maxBasis, u, used);
      MarchWithinDepth(b, maxBasis, u + chunk, used + Charge(BasisPerShare(b, u), chunk));
  }

  // ----- the result -----

  /** An extent accounted exactly, if it clears both gates. */
  function Settle(b: Basket, units: nat, minProfit: int, floor: int): Option<WalkResult>
    requires units > 0 && forall i :: 0 <= i < |b.legs| ==> units <= Depth(b.legs[i].levels)
  {
    var net, basis := NetAt(b, units), BasisAt(b, units);
    var edge := EdgeBps(net, basis);
    if net < minProfit || edge.None? || edge.value < floor then None
    else Some(WalkResult(units, net, basis, edge.value, FillsAt(b.legs, units)))
  }

  /** What the walk returns: the march's extent, settled. */
  function WalkSpec(b: Basket, maxBasis: int, minProfit: int, floor: int): Option<WalkResult> {
    if b.legs == [] || Units(b, maxBasis) == 0 then None
    else
      MarchWithinDepth(b, maxBasis, 0, 0);
      Settle(b, Units(b, maxBasis), minProfit, floor)
  }

  /** Adapt to an opportunity of one of the uniform classes: every leg fills exactly the units. */
  function IntoOpportunity(w: WalkResult, cls: ArbClass): Opportunity {
    Opportunity(cls, w.fills, w.units, w.net, w.basis, w.edge, [])
  }
}
