/** What taking liquidity from a ladder costs or brings, said level by level and
    without the walk: the share of each level, the last price needed, the cash. The
    walk's own accounting is proved to agree with it. */
module Execution {
  import opened Num
  import opened Instrument
  import opened Book
  import opened Walker
  import opened Baskets

  // ----- one ladder -----

  /** What a taker of u leaves levels[..i] to get and finds at level i. */
  function ShareOf(levels: seq<Level>, i: nat, u: nat): nat
    requires i < |levels|
  {
    Max(0, Min(levels[i].qty, u - Depth(levels[..i])))
  }

  /** Cash of one purchase or sale at one price, fee included. */
  function CashFor(action: Action, rate: int, pm: nat, qty: nat): int {
    if action == Buy then 0 - BuyCost(pm, qty) - Fee(rate, pm, qty) else SellProceeds(pm, qty) - Fee(rate, pm, qty)
  }

  /** Cash of the best u on a ladder, each level's share rounded by itself. */
  function TakerCash(action: Action, rate: int, ts: TickSize, levels: seq<Level>, u: nat): int {
    if levels == [] then 0
    else
      var n := |levels| - 1;
      TakerCash(action, rate, ts, levels[..n], u)
      + CashFor(action, rate, MicroUsdc(levels[n].px, ts), ShareOf(levels, n, u))
  }

  /** Everything better than level k falls short of u, everything up to it suffices. */
  ghost predicate LastNeeded(levels: seq<Level>, u: nat, k: nat) {
    k < |levels| && Depth(levels[..k]) < u <= Depth(levels[..k + 1])
  }

  /** px is the worst price a taker of u has to accept. */
  ghost predicate IsLimit(levels: seq<Level>, u: nat, px: nat) {
    exists k: nat :: LastNeeded(levels, u, k) && levels[k].px == px
  }

  lemma ShareOfRest(levels: seq<Level>, i: nat, u: nat)
    requires 0 < i < |levels|
    ensures ShareOf(levels, i, u) == ShareOf(levels[1..], i - 1, u - Min(u, levels[0].qty))
  {
    assert levels[..i][0] == levels[0] && levels[..i][1..] == levels[1..][..i - 1];
  }

  lemma NoCash(action: Action, rate: int, pm: nat)
    ensures CashFor(action, rate, pm, 0) == 0
  {
    assert pm * 0 == 0 && FeeBase(rate, pm) * 0 == 0;
  }

  lemma {:induction false} NothingTakenNoCash(action: Action, rate: int, ts: TickSize, levels: seq<Level>)
    ensures TakerCash(action, rate, ts, levels, 0) == 0
  {
    if levels == [] {
    } else {
      var n := |levels| - 1;
      NothingTakenNoCash(action, rate, ts, levels[..n]);
      NoCash(action, rate, MicroUsdc(levels[n].px, ts));
    }
  }

  /** The first level's share, then the rest of the ladder. */
  lemma {:induction false} TakerCashFromFront(action: Action, rate: int, ts: TickSize, levels: seq<Level>, u: nat)
    requires levels != []
    ensures var first := Min(u, levels[0].qty);
            TakerCash(action, rate, ts, levels, u) ==
            CashFor(action, rate, MicroUsdc(levels[0].px, ts), first)
            + TakerCash(action, rate, ts, levels[1..], u - first)
  {
    var n, first := |levels| - 1, Min(u, levels[0].qty);
    if n == 0 {
      assert levels[..0] == [] && levels[1..] == [];
    } else {
      TakerCashFromFront(action, rate, ts, levels[..n], u);
      ShareOfRest(levels, n, u);
      assert levels[1..][..n - 1] == levels[..n][1..];
    }
  }

  /** The ladder's own accounting is the taker's cash. */
  lemma {:induction false} LadderCashIsTakerCash(l: Leg, levels: seq<Level>, u: nat)
    ensures LadderCash(l, levels, u) == TakerCash(l.action, l.feeBps, l.ts, levels, u)
  {
    if levels == [] {
    } else if u == 0 {
      NothingTakenNoCash(l.action, l.feeBps, l.ts, levels);
    } else {
      TakerCashFromFront(l.action, l.feeBps, l.ts, levels, u);
      LadderCashIsTakerCash(l, levels[1..], u - Min(u, levels[0].qty));
    }
  }

  /** The last price recorded by the walk is the limit a taker needs. */
  lemma {:induction false} LastTakenIsLimit(levels: seq<Level>, u: nat)
    requires 0 < u <= Depth(levels)
    ensures Taken(levels, u) != [] && IsLimit(levels, u, Taken(levels, u)[|Taken(levels, u)| - 1].px)
  {
    if u <= levels[0].qty {
      assert levels[..0] == [] && levels[..1] == [levels[0]] && levels[..1][1..] == [];
      assert LastNeeded(levels, u, 0);
    } else {
      var rest := u - levels[0].qty;
      LastTakenIsLimit(levels[1..], rest);
      var t := Taken(levels[1..], rest);
      var k: nat :| LastNeeded(levels[1..], rest, k) && levels[1..][k].px == t[|t| - 1].px;
      assert levels[..k + 1][0] == levels[0] && levels[..k + 1][1..] == levels[1..][..k];
      assert levels[..k + 2][0] == levels[0] && levels[..k + 2][1..] == levels[1..][..k + 1];
      assert LastNeeded(levels, u, k + 1) && levels[k + 1].px == levels[1..][k].px;
    }
  }

  // ----- a walked basket -----

  /** f takes exactly u of leg l, at the worst price needed and for a taker's cash. */
  ghost predicate FillsLeg(f: LegFill, l: Leg, u: nat) {
    && f.token == l.token && f.action == l.action && f.ts == l.ts && f.qty == u
    && IsLimit(l.levels, u, f.limitPx)
    && f.cash == TakerCash(l.action, l.feeBps, l.ts, l.levels, u)
  }

  /** Every fill of a walked basket takes the same size from its own ladder, its
      limit the worst price that size needs and its cash what a taker pays or gets. */
  lemma WalkedFills(b: Basket, maxBasis: int, minProfit: int, floor: int)
    requires WalkSpec(b, maxBasis, minProfit, floor).Some?
    ensures var r := WalkSpec(b, maxBasis, minProfit, floor).value;
            |r.fills| == |b.legs| && r.units > 0
            && forall i :: 0 <= i < |b.legs| ==> FillsLeg(r.fills[i], b.legs[i], r.units)
  {
    WalkedFacts(b, maxBasis, minProfit, floor);
    var r := WalkSpec(b, maxBasis, minProfit, floor).value;
    forall i | 0 <= i < |b.legs| ensures FillsLeg(r.fills[i], b.legs[i], r.units) {
      LastTakenIsLimit(b.legs[i].levels, r.units);
      LadderCashIsTakerCash(b.legs[i], b.legs[i].levels, r.units);
    }
  }

  /** Outlay of the basket's buys at one size. */
  function TakerOutlay(legs: seq<Leg>, u: nat): int {
    if legs == [] then 0
    else
      var l := legs[|legs| - 1];
      TakerOutlay(legs[..|legs| - 1], u)
      + if l.action == Buy then 0 - TakerCash(l.action, l.feeBps, l.ts, l.levels, u) else 0
  }

  lemma {:induction false} OutlayIsTakers(legs: seq<Leg>, u: nat)
    ensures BuyOutlayAt(legs, u) == TakerOutlay(legs, u)
  {
    if legs == [] {
    } else {
      var l := legs[|legs| - 1];
      OutlayIsTakers(legs[..|legs| - 1], u);
      LadderCashIsTakerCash(l, l.levels, u);
    }
  }
}
