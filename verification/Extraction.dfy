/** The basket as an answer to the solver's numbers, said variable by variable: each
    buy keeps its floored number up to depth, each sell what is still on hand, each
    market splits its own number, and nothing else is in the basket. */
module Extraction {
  import opened Wrappers
  import opened Num
  import opened Instrument
  import opened Sequences
  import opened Worlds
  import opened Lp

  // ----- what the numbers ask for -----

  /** The variable's number, up to its level's depth. */
  function Wanted(vars: seq<TradeVar>, raw: seq<nat>, i: nat): nat
    requires i < |vars| <= |raw|
  {
    Min(raw[i], vars[i].level.qty)
  }

  /** What the first n variables want of t on one side. */
  function Asked(vars: seq<TradeVar>, raw: seq<nat>, action: Action, t: TokenId, n: nat): nat
    requires n <= |vars| <= |raw|
  {
    if n == 0 then 0
    else
      Asked(vars, raw, action, t, n - 1)
      + if vars[n - 1].action == action && vars[n - 1].token == t then Wanted(vars, raw, n - 1) else 0
  }

  ghost predicate Answer(c: Component, raw: seq<nat>) {
    ValidComponent(c) && |raw| == |Vars(c)| + |c.markets|
  }

  /** The split number of the market that owns t. */
  function SplitOf(c: Component, raw: seq<nat>, t: TokenId): nat
    requires |raw| == |Vars(c)| + |c.markets|
  {
    match TokenIndex(c.markets, t) case None => 0 case Some(k) => raw[|Vars(c)| + k]
  }

  /** Shares of t on hand before any sell. */
  function OnHand(c: Component, raw: seq<nat>, t: TokenId): nat
    requires |raw| == |Vars(c)| + |c.markets|
  {
    SplitOf(c, raw, t) + Asked(Vars(c), raw, Buy, t, |Vars(c)|)
  }

  /** What variable i ends up with: a sell takes what the sells before it leave on hand. */
  function Kept(c: Component, raw: seq<nat>, i: nat): nat
    requires |raw| == |Vars(c)| + |c.markets| && i < |Vars(c)|
  {
    var v := Vars(c)[i];
    match v.action
    case Buy => Wanted(Vars(c), raw, i)
    case Sell => Min(Wanted(Vars(c), raw, i), Max(0, OnHand(c, raw, v.token) - Asked(Vars(c), raw, Sell, v.token, i)))
  }

  /** qty at variable v's own level, cash without fees rounded against the trader. */
  function AtLevel(v: TradeVar, qty: nat): LegFill {
    LegFill(v.token, v.action, v.ts, v.level.px, qty,
            if v.action == Buy then 0 - BuyCost(MicroUsdc(v.level.px, v.ts), qty)
            else SellProceeds(MicroUsdc(v.level.px, v.ts), qty))
  }

  // ----- extraction -----

  lemma OneMore(fills: seq<LegFill>, f: LegFill, t: TokenId)
    ensures Bought(fills + [f], t) == Bought(fills, t) + if f.token == t && f.action == Buy then f.qty else 0
    ensures Sold(fills + [f], t) == Sold(fills, t) + if f.token == t && f.action == Sell then f.qty else 0
  {
    assert (fills + [f])[..|fills|] == fills;
  }

  lemma AskedNext(vars: seq<TradeVar>, raw: seq<nat>, action: Action, t: TokenId, n: nat)
    requires n < |vars| <= |raw|
    ensures Asked(vars, raw, action, t, n + 1) == Asked(vars, raw, action, t, n) +
            if vars[n].action == action && vars[n].token == t then Wanted(vars, raw, n) else 0
  {
  }

  lemma ExtractedTotal(vars: seq<TradeVar>, raw: seq<nat>, n: nat, t: TokenId, bought: int, sold: int)
    requires n < |vars| <= |raw|
    requires Bought(Extracted(vars[..n], raw), t) == bought && Sold(Extracted(vars[..n], raw), t) == sold
    ensures var (v, wanted) := (vars[n], Wanted(vars, raw, n));
            && Bought(Extracted(vars[..n + 1], raw), t) ==
               bought + (if v.action == Buy && v.token == t then wanted else 0)
            && Sold(Extracted(vars[..n + 1], raw), t) ==
               sold + (if v.action == Sell && v.token == t then wanted else 0)
  {
    var before, f := Extracted(vars[..n], raw), FillOf(vars[n], Wanted(vars, raw, n));
    ExtractedNext(vars, raw, n);
    OneMore(before, f, t);
    assert before + [] == before;
  }

  lemma {:induction false} ExtractedTotals(vars: seq<TradeVar>, raw: seq<nat>, n: nat, t: TokenId)
    requires n <= |vars| <= |raw|
    ensures Bought(Extracted(vars[..n], raw), t) == Asked(vars, raw, Buy, t, n)
    ensures Sold(Extracted(vars[..n], raw), t) == Asked(vars, raw, Sell, t, n)
    decreases n
  {
    if n == 0 {
    } else {
      ExtractedTotals(vars, raw, n - 1, t);
      ExtractedTotal(vars, raw, n - 1, t, Asked(vars, raw, Buy, t, n - 1), Asked(vars, raw, Sell, t, n - 1));
      AskedNext(vars, raw, Buy, t, n - 1);
      AskedNext(vars, raw, Sell, t, n - 1);
    }
  }

  lemma ExtractedNext(vars: seq<TradeVar>, raw: seq<nat>, n: nat)
    requires n < |vars| <= |raw|
    ensures Extracted(vars[..n + 1], raw) ==
            Extracted(vars[..n], raw) + if Wanted(vars, raw, n) > 0 then [FillOf(vars[n], Wanted(vars, raw, n))] else []
  {
    assert vars[..n + 1][..n] == vars[..n] && vars[..n + 1][n] == vars[n];
  }

  lemma {:induction false} ExtractedPrefix(vars: seq<TradeVar>, raw: seq<nat>, n: nat)
    requires n <= |vars| <= |raw|
    ensures Extracted(vars[..n], raw) <= Extracted(vars, raw)
    decreases |vars| - n
  {
    if n == |vars| {
      assert vars[..n] == vars;
    } else {
      ExtractedNext(vars, raw, n);
      ExtractedPrefix(vars, raw, n + 1);
    }
  }

  // ----- splits -----

  lemma {:induction false} SplitsListed(markets: seq<Market>, raw: seq<nat>, n: nat, s: Split)
    requires n <= |markets| <= |raw|
    ensures s in SplitsFrom(markets[..n], raw) <==>
            exists k :: 0 <= k < n && raw[k] > 0 && s == (markets[k].id, raw[k])
    decreases n
  {
    if n == 0 {
    } else {
      SplitsListed(markets, raw, n - 1, s);
      assert markets[..n][..n - 1] == markets[..n - 1] && markets[..n][n - 1] == markets[n - 1];
    }
  }

  /** How many of the first n numbers are positive. */
  function Positive(raw: seq<nat>, n: nat): nat
    requires n <= |raw|
  {
    if n == 0 then 0 else Positive(raw, n - 1) + if raw[n - 1] > 0 then 1 else 0
  }

  lemma {:induction false} SplitsCounted(markets: seq<Market>, raw: seq<nat>, n: nat)
    requires n <= |markets| <= |raw|
    ensures |SplitsFrom(markets[..n], raw)| == Positive(raw, n)
    decreases n
  {
    if n == 0 {
    } else {
      SplitsCounted(markets, raw, n - 1);
      assert markets[..n][..n - 1] == markets[..n - 1];
    }
  }

  lemma SplitHeldNext(markets: seq<Market>, splits: seq<Split>, s: Split, t: TokenId)
    ensures SplitHeld(markets, splits + [s], t) == SplitHeld(markets, splits, t) +
            match FindMarket(markets, s.0)
            case None => 0
            case Some(m) => (if m.yes == t then s.1 else 0) + (if m.no == t then s.1 else 0)
  {
    assert (splits + [s])[..|splits|] == splits;
  }

  lemma OwnerIs(markets: seq<Market>, k: nat, t: TokenId)
    requires k < |markets| && DistinctTokens(markets)
    ensures (markets[k].yes == t || markets[k].no == t) <==> TokenIndex(markets, t) == Some(k)
    ensures !(markets[k].yes == t && markets[k].no == t)
  {
  }

  /** What splitting market k gives of t. */
  function SplitShare(markets: seq<Market>, raw: seq<nat>, k: nat, t: TokenId): nat
    requires k < |markets| <= |raw|
  {
    if markets[k].yes == t || markets[k].no == t then raw[k] else 0
  }

  lemma SplitsHeldNext(markets: seq<Market>, raw: seq<nat>, k: nat, t: TokenId)
    requires k < |markets| <= |raw| && DistinctTokens(markets) && DistinctIds(markets)
    ensures SplitHeld(markets, SplitsFrom(markets[..k + 1], raw), t) ==
            SplitHeld(markets, SplitsFrom(markets[..k], raw), t) + SplitShare(markets, raw, k, t)
  {
    assert markets[..k + 1][..k] == markets[..k] && markets[..k + 1][k] == markets[k];
    var before := SplitsFrom(markets[..k], raw);
    assert before + [] == before;
    IndexOfId(markets, k);
    OwnerIs(markets, k, t);
    SplitHeldNext(markets, before, (markets[k].id, raw[k]), t);
  }

  lemma ShareOfOwner(markets: seq<Market>, raw: seq<nat>, k: nat, t: TokenId)
    requires k < |markets| <= |raw| && DistinctTokens(markets)
    ensures SplitShare(markets, raw, k, t) == if TokenIndex(markets, t) == Some(k) then raw[k] else 0
  {
    OwnerIs(markets, k, t);
  }

  /** What splitting the first n markets gives of t. */
  function SplitUpTo(markets: seq<Market>, raw: seq<nat>, n: nat, t: TokenId): nat
    requires n <= |markets| <= |raw|
  {
    var k := TokenIndex(markets, t);
    if k.Some? && k.value < n then raw[k.value] else 0
  }

  lemma SplitUpToNext(markets: seq<Market>, raw: seq<nat>, k: nat, t: TokenId)
    requires k < |markets| <= |raw| && DistinctTokens(markets)
    ensures SplitUpTo(markets, raw, k + 1, t) == SplitUpTo(markets, raw, k, t) + SplitShare(markets, raw, k, t)
  {
    ShareOfOwner(markets, raw, k, t);
  }

  /** A split gives its number of both tokens of its market and of no other. */
  lemma {:induction false} SplitsHeld(markets: seq<Market>, raw: seq<nat>, n: nat, t: TokenId)
    requires n <= |markets| <= |raw| && DistinctTokens(markets) && DistinctIds(markets)
    ensures SplitHeld(markets, SplitsFrom(markets[..n], raw), t) == SplitUpTo(markets, raw, n, t)
    decreases n
  {
    if n == 0 {
      assert SplitsFrom(markets[..0], raw) == [];
    } else {
      SplitsHeld(markets, raw, n - 1, t);
      SplitsHeldNext(markets, raw, n - 1, t);
      SplitUpToNext(markets, raw, n - 1, t);
    }
  }

  lemma BasketSplitsHeld(c: Component, raw: seq<nat>, t: TokenId)
    requires Answer(c, raw)
    ensures SplitHeld(c.markets, BasketSplits(c, raw), t) == SplitOf(c, raw, t)
  {
    SplitsHeld(c.markets, raw[|Vars(c)|..], |c.markets|, t);
    assert c.markets[..|c.markets|] == c.markets;
  }

  // ----- clamping -----

  /** The clamped fills after the first n variables. */
  ghost function After(c: Component, raw: seq<nat>, n: nat): seq<LegFill>
    requires |raw| == |Vars(c)| + |c.markets| && n <= |Vars(c)|
  {
    ExtractedPrefix(Vars(c), raw, n);
    ClampedSells(c.markets, BasketSplits(c, raw), Extracted(Vars(c), raw), |Extracted(Vars(c)[..n], raw)|)
  }

  /** Sells of t so far: all that was asked, or all on hand. */
  ghost predicate SoldSoFar(c: Component, raw: seq<nat>, n: nat, t: TokenId)
    requires |raw| == |Vars(c)| + |c.markets| && n <= |Vars(c)|
  {
    Sold(After(c, raw, n), t) == Min(Asked(Vars(c), raw, Sell, t, n), OnHand(c, raw, t))
  }

  lemma OnHandIsHeld(c: Component, raw: seq<nat>, t: TokenId)
    requires Answer(c, raw)
    ensures SplitHeld(c.markets, BasketSplits(c, raw), t) + Bought(Extracted(Vars(c), raw), t) == OnHand(c, raw, t)
  {
    BasketSplitsHeld(c, raw, t);
    ExtractedTotals(Vars(c), raw, |Vars(c)|, t);
    assert Vars(c)[..|Vars(c)|] == Vars(c);
  }

  lemma LeftOver(wanted: nat, asked: nat, hand: nat)
    ensures Min(wanted, Max(0, hand - Min(asked, hand))) == Min(wanted, Max(0, hand - asked))
    ensures Min(asked, hand) + Min(wanted, Max(0, hand - asked)) == Min(asked + wanted, hand)
  {
  }

  /** A clamped fill stands at its variable's own level. */
  lemma ClampedAtLevel(v: TradeVar, wanted: nat, avail: nat)
    requires ValidPx(v.level.px, v.ts)
    ensures ClampedTo(FillOf(v, wanted), avail) == AtLevel(v, if v.action == Buy then wanted else Min(wanted, avail))
  {
    MicroUsdcInterior(v.level.px, v.ts);
  }

  lemma ClampNext(markets: seq<Market>, splits: seq<Split>, all: seq<LegFill>, i: nat)
    requires i < |all|
    ensures var before := ClampedSells(markets, splits, all, i);
            var avail := Max(0, SplitHeld(markets, splits, all[i].token) + Bought(all, all[i].token)
                                - Sold(before, all[i].token));
            ClampedSells(markets, splits, all, i + 1) == before + [ClampedTo(all[i], avail)]
  {
  }

  /** The variable's fill comes next among those extracted. */
  lemma ExtractedAt(vars: seq<TradeVar>, raw: seq<nat>, n: nat)
    requires n < |vars| <= |raw| && Wanted(vars, raw, n) > 0
    ensures var i := |Extracted(vars[..n], raw)|;
            && |Extracted(vars[..n + 1], raw)| == i + 1
            && i < |Extracted(vars, raw)| && Extracted(vars, raw)[i] == FillOf(vars[n], Wanted(vars, raw, n))
  {
    ExtractedNext(vars, raw, n);
    ExtractedPrefix(vars, raw, n + 1);
    assert Extracted(vars[..n + 1], raw)[|Extracted(vars[..n], raw)|] == FillOf(vars[n], Wanted(vars, raw, n));
  }

  /** The next fill takes what is asked or what is left. */
  lemma ClampAt(markets: seq<Market>, splits: seq<Split>, all: seq<LegFill>, i: nat, v: TradeVar, wanted: nat,
                asked: nat, hand: nat)
    requires i < |all| && all[i] == FillOf(v, wanted) && ValidPx(v.level.px, v.ts)
    requires SplitHeld(markets, splits, v.token) + Bought(all, v.token) == hand
    requires Sold(ClampedSells(markets, splits, all, i), v.token) == Min(asked, hand)
    ensures ClampedSells(markets, splits, all, i + 1) ==
            ClampedSells(markets, splits, all, i)
            + [AtLevel(v, if v.action == Buy then wanted else Min(wanted, Max(0, hand - asked)))]
  {
    ClampNext(markets, splits, all, i);
    LeftOver(wanted, asked, hand);
    ClampedAtLevel(v, wanted, hand - Min(asked, hand));
  }

  /** Prices are prices, and what is on hand is what splits and buys bring. */
  ghost predicate Grounded(c: Component, raw: seq<nat>) {
    && |raw| == |Vars(c)| + |c.markets|
    && (forall i :: 0 <= i < |Vars(c)| ==> ValidPx(Vars(c)[i].level.px, Vars(c)[i].ts))
    && (forall t: TokenId ::
          SplitHeld(c.markets, BasketSplits(c, raw), t) + Bought(Extracted(Vars(c), raw), t) == OnHand(c, raw, t))
  }

  lemma AnswerIsGrounded(c: Component, raw: seq<nat>)
    requires Answer(c, raw)
    ensures Grounded(c, raw)
  {
    VarsQuoted(c, |c.markets|);
    forall i | 0 <= i < |Vars(c)| ensures ValidPx(Vars(c)[i].level.px, Vars(c)[i].ts) {
      assert Vars(c)[i] in Vars(c) && Quoted(c, Vars(c)[i]) && c.books[Vars(c)[i].token].Valid();
    }
    forall t: TokenId
      ensures SplitHeld(c.markets, BasketSplits(c, raw), t) + Bought(Extracted(Vars(c), raw), t) == OnHand(c, raw, t)
    {
      OnHandIsHeld(c, raw, t);
    }
  }

  /** Variable n adds its kept quantity at its own level, perhaps none, or no fill. */
  ghost predicate AddsKept(c: Component, raw: seq<nat>, n: nat)
    requires |raw| == |Vars(c)| + |c.markets| && n < |Vars(c)|
  {
    After(c, raw, n + 1) == After(c, raw, n) +
      if Wanted(Vars(c), raw, n) > 0 then [AtLevel(Vars(c)[n], Kept(c, raw, n))] else []
  }

  lemma AfterNext(c: Component, raw: seq<nat>, n: nat)
    requires Grounded(c, raw) && n < |Vars(c)| && SoldSoFar(c, raw, n, Vars(c)[n].token)
    ensures AddsKept(c, raw, n)
  {
    var vars, t := Vars(c), Vars(c)[n].token;
    ExtractedPrefix(vars, raw, n);
    if Wanted(vars, raw, n) > 0 {
      AfterKept(c, raw, n, Asked(vars, raw, Sell, t, n), OnHand(c, raw, t));
    } else {
      ExtractedNext(vars, raw, n);
      assert After(c, raw, n) + [] == After(c, raw, n);
    }
  }

  /** So many fills extracted, so many clamped. */
  lemma AfterIs(c: Component, raw: seq<nat>, n: nat, i: nat)
    requires |raw| == |Vars(c)| + |c.markets| && n <= |Vars(c)| && |Extracted(Vars(c)[..n], raw)| == i
    ensures i <= |Extracted(Vars(c), raw)|
    ensures After(c, raw, n) == ClampedSells(c.markets, BasketSplits(c, raw), Extracted(Vars(c), raw), i)
  {
    ExtractedPrefix(Vars(c), raw, n);
  }

  lemma KeptIs(c: Component, raw: seq<nat>, n: nat, wanted: nat, asked: nat, hand: nat)
    requires |raw| == |Vars(c)| + |c.markets| && n < |Vars(c)| && wanted == Wanted(Vars(c), raw, n)
    requires asked == Asked(Vars(c), raw, Sell, Vars(c)[n].token, n) && hand == OnHand(c, raw, Vars(c)[n].token)
    ensures Kept(c, raw, n) == if Vars(c)[n].action == Buy then wanted else Min(wanted, Max(0, hand - asked))
  {
  }

  lemma AfterKept(c: Component, raw: seq<nat>, n: nat, asked: nat, hand: nat)
    requires |raw| == |Vars(c)| + |c.markets| && n < |Vars(c)| && Wanted(Vars(c), raw, n) > 0
    requires ValidPx(Vars(c)[n].level.px, Vars(c)[n].ts)
    requires hand == SplitHeld(c.markets, BasketSplits(c, raw), Vars(c)[n].token)
                     + Bought(Extracted(Vars(c), raw), Vars(c)[n].token) == OnHand(c, raw, Vars(c)[n].token)
    requires asked == Asked(Vars(c), raw, Sell, Vars(c)[n].token, n)
    requires Sold(After(c, raw, n), Vars(c)[n].token) == Min(asked, hand)
    ensures After(c, raw, n + 1) == After(c, raw, n) + [AtLevel(Vars(c)[n], Kept(c, raw, n))]
  {
    var v, wanted, i := Vars(c)[n], Wanted(Vars(c), raw, n), |Extracted(Vars(c)[..n], raw)|;
    ExtractedAt(Vars(c), raw, n);
    AfterIs(c, raw, n, i);
    AfterIs(c, raw, n + 1, i + 1);
    ClampAt(c.markets, BasketSplits(c, raw), Extracted(Vars(c), raw), i, v, wanted, asked, hand);
    KeptIs(c, raw, n, wanted, asked, hand);
  }

  /** A kept variable brings the sells of its token up to what is asked or on hand. */
  lemma KeptSells(c: Component, raw: seq<nat>, n: nat, t: TokenId, before: seq<LegFill>)
    requires |raw| == |Vars(c)| + |c.markets| && n < |Vars(c)|
    requires Sold(before, t) == Min(Asked(Vars(c), raw, Sell, t, n), OnHand(c, raw, t))
    ensures Sold(before + [AtLevel(Vars(c)[n], Kept(c, raw, n))], t) ==
            Min(Asked(Vars(c), raw, Sell, t, n + 1), OnHand(c, raw, t))
  {
    OneMore(before, AtLevel(Vars(c)[n], Kept(c, raw, n)), t);
    AskedNext(Vars(c), raw, Sell, t, n);
    LeftOver(Wanted(Vars(c), raw, n), Asked(Vars(c), raw, Sell, t, n), OnHand(c, raw, t));
  }

  lemma SoldNext(c: Component, raw: seq<nat>, n: nat, t: TokenId)
    requires |raw| == |Vars(c)| + |c.markets| && n < |Vars(c)| && SoldSoFar(c, raw, n, t) && AddsKept(c, raw, n)
    ensures SoldSoFar(c, raw, n + 1, t)
  {
    var before := After(c, raw, n);
    if Wanted(Vars(c), raw, n) > 0 {
      KeptSells(c, raw, n, t, before);
    } else {
      AskedNext(Vars(c), raw, Sell, t, n);
      assert before + [] == before;
    }
  }

  lemma NothingAfterNothing(c: Component, raw: seq<nat>, t: TokenId)
    requires |raw| == |Vars(c)| + |c.markets|
    ensures After(c, raw, 0) == [] && SoldSoFar(c, raw, 0, t)
  {
    assert Vars(c)[..0] == [];
  }

  lemma {:induction false} SoldAlways(c: Component, raw: seq<nat>, n: nat, t: TokenId)
    requires Grounded(c, raw) && n <= |Vars(c)|
    ensures SoldSoFar(c, raw, n, t)
    decreases n
  {
    if n == 0 {
      NothingAfterNothing(c, raw, t);
    } else {
      var m := n - 1;
      SoldAlways(c, raw, m, t);
      SoldAlways(c, raw, m, Vars(c)[m].token);
      AfterNext(c, raw, m);
      SoldNext(c, raw, m, t);
      assert m + 1 == n;
    }
  }

  /** f is what variable i keeps, and not nothing. */
  ghost predicate KeptAt(c: Component, raw: seq<nat>, f: LegFill, i: nat) {
    && |raw| == |Vars(c)| + |c.markets| && i < |Vars(c)|
    && Kept(c, raw, i) > 0 && f == AtLevel(Vars(c)[i], Kept(c, raw, i))
  }

  ghost predicate KeptBelow(c: Component, raw: seq<nat>, f: LegFill, n: nat) {
    exists i: nat :: i < n && KeptAt(c, raw, f, i)
  }

  lemma KeptBelowNext(c: Component, raw: seq<nat>, f: LegFill, n: nat)
    ensures KeptBelow(c, raw, f, n + 1) <==> KeptBelow(c, raw, f, n) || KeptAt(c, raw, f, n)
  {
  }

  lemma {:induction false} FillsSoFar(c: Component, raw: seq<nat>, n: nat, f: LegFill)
    requires Grounded(c, raw) && n <= |Vars(c)|
    ensures (f in After(c, raw, n) && f.qty > 0) <==> KeptBelow(c, raw, f, n)
    decreases n
  {
    if n == 0 {
      NothingAfterNothing(c, raw, f.token);
    } else {
      var m := n - 1;
      FillsSoFar(c, raw, m, f);
      SoldAlways(c, raw, m, Vars(c)[m].token);
      AfterNext(c, raw, m);
      FillNext(c, raw, m, f);
      KeptBelowNext(c, raw, f, m);
      assert m + 1 == n;
    }
  }

  lemma FillNext(c: Component, raw: seq<nat>, n: nat, f: LegFill)
    requires |raw| == |Vars(c)| + |c.markets| && n < |Vars(c)| && AddsKept(c, raw, n)
    ensures (f in After(c, raw, n + 1) && f.qty > 0) <==>
            (f in After(c, raw, n) && f.qty > 0) || KeptAt(c, raw, f, n)
  {
    assert After(c, raw, n) + [] == After(c, raw, n);
  }

  // ----- the whole answer -----

  /** A fill is in the basket exactly when some variable keeps it. */
  lemma FillsAnswerSolver(c: Component, raw: seq<nat>, f: LegFill)
    requires Answer(c, raw)
    ensures f in BasketFills(c, raw) <==> exists i: nat :: KeptAt(c, raw, f, i)
  {
    var n, all := |Vars(c)|, Extracted(Vars(c), raw);
    assert Vars(c)[..n] == Vars(c);
    AnswerIsGrounded(c, raw);
    FillsSoFar(c, raw, n, f);
    FilterMembers(ClampedSells(c.markets, BasketSplits(c, raw), all, |all|), NON_ZERO, f);
  }

  /** Of every token the basket sells all that was asked, or all that splits and buys bring in. */
  lemma SoldIsAllOnHand(c: Component, raw: seq<nat>, t: TokenId)
    requires Answer(c, raw)
    ensures var n := |Vars(c)|;
            && Sold(BasketFills(c, raw), t) == Min(Asked(Vars(c), raw, Sell, t, n), OnHand(c, raw, t))
            && Bought(BasketFills(c, raw), t) == Asked(Vars(c), raw, Buy, t, n)
  {
    var n, all := |Vars(c)|, Extracted(Vars(c), raw);
    assert Vars(c)[..n] == Vars(c) && all[..|all|] == all;
    AnswerIsGrounded(c, raw);
    SoldAlways(c, raw, n, t);
    ExtractedTotals(Vars(c), raw, n, t);
    DroppingZerosKeepsHoldings(ClampedSells(c.markets, BasketSplits(c, raw), all, |all|), t);
  }

  /** Each market with a positive number is split by it, no other, and each is paid for once. */
  lemma SplitsAnswerSolver(c: Component, raw: seq<nat>, p: EngineParams)
    requires Answer(c, raw)
    ensures forall s: Split :: s in BasketSplits(c, raw) <==>
              exists k :: 0 <= k < |c.markets| && raw[|Vars(c)| + k] > 0 && s == (c.markets[k].id, raw[|Vars(c)| + k])
    ensures |BasketSplits(c, raw)| == Positive(raw[|Vars(c)|..], |c.markets|)
    ensures BasketGas(p, BasketSplits(c, raw)) ==
            Min(Positive(raw[|Vars(c)|..], |c.markets|) * p.gas.split, U64_MAX) + p.gas.redeem
  {
    var own, n := raw[|Vars(c)|..], |c.markets|;
    assert c.markets[..n] == c.markets;
    SplitsCounted(c.markets, own, n);
    forall s: Split
      ensures s in BasketSplits(c, raw) <==>
              exists k :: 0 <= k < n && raw[|Vars(c)| + k] > 0 && s == (c.markets[k].id, raw[|Vars(c)| + k])
    {
      SplitsListed(c.markets, own, n, s);
      forall k | 0 <= k < n ensures own[k] == raw[|Vars(c)| + k] {}
    }
  }

  /** Every quoted level of a component's token is a variable, on the side it is quoted. */
  lemma {:induction false} EveryLevelIsVariable(c: Component, n: nat, v: TradeVar)
    requires n <= |c.markets| && Quoted(c, v)
    requires exists i :: 0 <= i < n && v.token in {c.markets[i].yes, c.markets[i].no}
    ensures v in TradeVars(c, n)
    decreases n
  {
    var m := c.markets[n - 1];
    if v.token == m.yes || v.token == m.no {
      TokenVarListed(c, v);
    } else {
      EveryLevelIsVariable(c, n - 1, v);
    }
  }

  lemma TokenVarListed(c: Component, v: TradeVar)
    requires Quoted(c, v)
    ensures v in TokenVars(c.books, v.token)
  {
    var b := c.books[v.token];
    var buys, sells := SideVars(v.token, Buy, b.ts, b.asks), SideVars(v.token, Sell, b.ts, b.bids);
    if v.action == Buy {
      var i :| 0 <= i < |b.asks| && b.asks[i] == v.level;
      assert buys[i] == v;
    } else {
      var i :| 0 <= i < |b.bids| && b.bids[i] == v.level;
      assert sells[i] == v;
    }
  }
}
