/** Exact numeric core: ticks, micro-share sizes, signed micro-USDC cash and the
    venue fee. Every rounding goes against the trader; the lemmas below bound how
    far each rounded amount can be from the unrounded one. */
module Num {
  import opened Wrappers

  const U64_MAX: int := 0xffff_ffff_ffff_ffff
  const I32_MIN: int := -0x8000_0000
  const I32_MAX: int := 0x7fff_ffff

  datatype TickSize = Cent | Milli {
    function Levels(): nat {
      match this case Cent => 100 case Milli => 1000
    }

    function Unit(): nat {
      match this case Cent => 10_000 case Milli => 1_000
    }
  }

  datatype Action = Buy | Sell

  /** Interior ticks only. */
  predicate ValidPx(tick: int, ts: TickSize) {
    1 <= tick < ts.Levels()
  }

  /** Price in micro-USDC per share. */
  function MicroUsdc(tick: nat, ts: TickSize): nat {
    tick * ts.Unit()
  }

  lemma MicroUsdcInterior(tick: nat, ts: TickSize)
    requires ValidPx(tick, ts)
    ensures 0 < MicroUsdc(tick, ts) < 1_000_000
    ensures MicroUsdc(tick, ts) / ts.Unit() == tick
  {
  }

  /** Truncating division: the quotient is rounded toward zero, whatever the signs. */
  function TruncDiv(a: int, b: int): int
    requires b > 0
  {
    if a >= 0 then a / b else -(-a / b)
  }

  function Max(a: int, b: int): int { if a >= b then a else b }

  function Min(a: int, b: int): int { if a <= b then a else b }

  function DivCeil(n: int, d: int): int
    requires n >= 0 && d > 0
  {
    (n + d - 1) / d
  }

  function BuyCost(pm: nat, qty: nat): int {
    DivCeil(pm * qty, 1_000_000)
  }

  function SellProceeds(pm: nat, qty: nat): int {
    (pm * qty) / 1_000_000
  }

  /** Fee rate times distance to the nearer end of the price range; negative
      rates are free. Producers only pass prices inside the range; outside it
      the distance is taken as zero. */
  function FeeBase(rate: int, pm: nat): nat {
    Max(rate, 0) * Max(0, Min(pm, 1_000_000 - pm))
  }

  function Fee(rate: int, pm: nat, qty: nat): int {
    DivCeil(FeeBase(rate, pm) * qty, 10_000_000_000)
  }

  function EdgeBps(net: int, basis: int): Option<int> {
    if basis <= 0 then None
    else Some(Max(I32_MIN, Min(I32_MAX, net * 10_000 / basis)))
  }

  /** The edge gate is exact: flooring and clamping to 32 bits never change the verdict. */
  lemma EdgeGate(net: int, basis: int, floor: int)
    requires I32_MIN <= floor <= I32_MAX
    ensures EdgeBps(net, basis).Some? && EdgeBps(net, basis).value >= floor
       <==> basis > 0 && (net * 10_000 >= floor * basis || floor == I32_MIN)
  {
    if basis > 0 {
      var q := net * 10_000 / basis;
      assert q * basis <= net * 10_000 < q * basis + basis;
      if q >= floor {
        assert floor * basis <= q * basis;
      } else {
        assert (q + 1) * basis <= floor * basis;
      }
    }
  }

  /** Signed per-share drag on profit, scaled by 10^4 so the fee term stays integral. */
  function ScaledLegCost(action: Action, rate: int, pm: nat): int {
    match action
    case Buy => 10_000 * pm + FeeBase(rate, pm)
    case Sell => -(10_000 * pm - FeeBase(rate, pm))
  }

  lemma MulLe(a: int, b: int, n: nat)
    requires a <= b
    ensures a * n <= b * n
  {
  }

  lemma DivCeilBounds(n: int, d: int)
    requires n >= 0 && d > 0
    ensures n <= d * DivCeil(n, d) < n + d
  {
  }

  lemma FloorBounds(n: int, d: int)
    requires n >= 0 && d > 0
    ensures n - d < d * (n / d) <= n
  {
  }

  /** Exact cash of one fill, signed: what the trader receives. */
  function FillCash(action: Action, rate: int, pm: nat, qty: nat): int {
    match action
    case Buy => -(BuyCost(pm, qty) + Fee(rate, pm, qty))
    case Sell => SellProceeds(pm, qty) - Fee(rate, pm, qty)
  }

  // ----- what the amounts mean -----

  /** A tick is its share of a dollar, and only interior ticks are prices. */
  lemma TickIsShareOfDollar(tick: nat, ts: TickSize)
    ensures ts.Levels() == (match ts case Cent => 100 case Milli => 1000)
    ensures MicroUsdc(tick, ts) * ts.Levels() == tick * 1_000_000
    ensures ValidPx(tick, ts) <==> 0 < MicroUsdc(tick, ts) < 1_000_000
  {
  }

  lemma DivCeilIsLeast(n: nat, d: nat, c: int)
    requires d > 0
    ensures DivCeil(n, d) <= c <==> n <= c * d
  {
    DivCeilBounds(n, d);
    if DivCeil(n, d) <= c {
      MulLe(DivCeil(n, d), c, d);
    } else {
      MulLe(c + 1, DivCeil(n, d), d);
    }
  }

  /** A buyer pays the least whole amount that covers price times quantity. */
  lemma BuyCostIsLeast(pm: nat, qty: nat, c: int)
    ensures BuyCost(pm, qty) <= c <==> pm * qty <= c * 1_000_000
  {
    DivCeilIsLeast(pm * qty, 1_000_000, c);
  }

  /** A seller gets the most whole amount that price times quantity covers. */
  lemma ProceedsAreMost(pm: nat, qty: nat, c: int)
    ensures c <= SellProceeds(pm, qty) <==> c * 1_000_000 <= pm * qty
  {
    FloorBounds(pm * qty, 1_000_000);
  }

  /** The fee is the least whole amount covering rate times price times quantity
      up to half a dollar, the same from the other side, and nothing at a rate not above zero. */
  lemma FeeIsLeast(rate: int, pm: nat, qty: nat, c: int)
    requires pm <= 500_000
    ensures rate >= 0 ==> (Fee(rate, pm, qty) <= c <==> rate * pm * qty <= c * 10_000_000_000)
    ensures Fee(rate, 1_000_000 - pm, qty) == Fee(rate, pm, qty)
    ensures rate <= 0 ==> Fee(rate, pm, qty) == 0
  {
    FeeBelowHalf(rate, pm);
    DivCeilIsLeast(FeeBase(rate, pm) * qty, 10_000_000_000, c);
  }

  lemma FeeBelowHalf(rate: int, pm: nat)
    requires pm <= 500_000
    ensures FeeBase(rate, pm) == FeeBase(rate, 1_000_000 - pm) == if rate <= 0 then 0 else rate * pm
  {
  }

  lemma ScaledCostOf(action: Action, rate: int, pm: nat, qty: nat, notional: nat, fee: nat)
    requires notional == pm * qty && fee == FeeBase(rate, pm) * qty
    ensures ScaledLegCost(action, rate, pm) * qty ==
        (if action == Buy then 10_000 * notional else -10_000 * notional) + fee
  {
    var f := FeeBase(rate, pm);
    assert (10_000 * pm + f) * qty == 10_000 * (pm * qty) + f * qty;
    assert -(10_000 * pm - f) * qty == -10_000 * (pm * qty) + f * qty;
  }

  lemma RoundedCash(action: Action, notional: nat, fee: nat, cash: int)
    requires cash == if action == Buy then -(DivCeil(notional, 1_000_000) + DivCeil(fee, 10_000_000_000))
                     else notional / 1_000_000 - DivCeil(fee, 10_000_000_000)
    ensures var scaled := (if action == Buy then 10_000 * notional else -10_000 * notional) + fee;
            -scaled - 20_000_000_000 < 10_000_000_000 * cash <= -scaled
  {
    DivCeilBounds(fee, 10_000_000_000);
    DivCeilBounds(notional, 1_000_000);
    FloorBounds(notional, 1_000_000);
  }

  /** A fill's exact cash never exceeds the unrounded one and loses less than 2 micro-USDC to rounding. */
  lemma FillCashRounding(action: Action, rate: int, pm: nat, qty: nat)
    ensures -ScaledLegCost(action, rate, pm) * qty - 20_000_000_000 < 10_000_000_000 * FillCash(action, rate, pm, qty)
    ensures 10_000_000_000 * FillCash(action, rate, pm, qty) <= -ScaledLegCost(action, rate, pm) * qty
  {
    ScaledCostOf(action, rate, pm, qty, pm * qty, FeeBase(rate, pm) * qty);
    RoundedCash(action, pm * qty, FeeBase(rate, pm) * qty, FillCash(action, rate, pm, qty));
    NegTimes(ScaledLegCost(action, rate, pm), qty);
  }

  lemma NegTimes(a: int, b: int)
    ensures -a * b == -(a * b)
  {
  }

  /** A worse price never lowers the scaled cost while the fee stays within 100%. */
  lemma ScaledCostMonotone(action: Action, rate: int, better: nat, worse: nat)
    requires better <= 1_000_000 && worse <= 1_000_000 && rate <= 10_000
    requires match action case Buy => better <= worse case Sell => worse <= better
    ensures ScaledLegCost(action, rate, better) <= ScaledLegCost(action, rate, worse)
  {
    var r := Max(rate, 0);
    var mb, mw := Min(better, 1_000_000 - better), Min(worse, 1_000_000 - worse);
    ScaleDifference(r, mb, mw);
  }

  lemma ScaleDifference(r: nat, x: int, y: int)
    requires r <= 10_000
    ensures x <= y ==> 0 <= r * y - r * x <= 10_000 * (y - x)
    ensures y <= x ==> 0 <= r * x - r * y <= 10_000 * (x - y)
  {
    ScaleBound(r, y - x);
    ScaleBound(r, x - y);
    assert r * (y - x) == r * y - r * x;
  }

  lemma ScaleBound(r: nat, d: int)
    requires r <= 10_000
    ensures d >= 0 ==> 0 <= r * d <= 10_000 * d
  {
  }
}
