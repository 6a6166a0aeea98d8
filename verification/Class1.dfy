/** Class 1: buy both sides of one market cheap, or split and sell both dear. */
module Class1 {
  import opened Wrappers
  import opened Num
  import opened Instrument
  import opened Book
  import opened Walker
  import opened Baskets
  import opened WalkerOptimal
  import opened WalkerStop
  import opened Emission
  import opened Quotes

  function LongGas(p: EngineParams): nat {
    match p.redeem case Merge => p.gas.merge case Hold => p.gas.redeem
  }

  function LongBasket(m: Market, yes: BookView, no: BookView, p: EngineParams): Basket {
    Basket([Leg(m.yes, Buy, yes.ts, m.feeBps, yes.asks), Leg(m.no, Buy, no.ts, m.feeBps, no.asks)],
           1_000_000, 0, LongGas(p))
  }

  function ShortBasket(m: Market, yes: BookView, no: BookView, p: EngineParams): Basket {
    Basket([Leg(m.yes, Sell, yes.ts, m.feeBps, yes.bids), Leg(m.no, Sell, no.ts, m.feeBps, no.bids)],
           0, 1_000_000, p.gas.split)
  }

  function Detect(m: Market, yes: BookView, no: BookView, p: EngineParams): seq<Opportunity> {
    LongOps(m, yes, no, p) + ShortOps(m, yes, no, p)
  }

  function LongOps(m: Market, yes: BookView, no: BookView, p: EngineParams): seq<Opportunity> {
    match WalkSpec(LongBasket(m, yes, no, p), p.maxBasis, p.minProfit, p.floorC12)
    case None => []
    case Some(w) => [IntoOpportunity(w, C1Long)]
  }

  /** Execution has to split before it can sell. */
  function ShortOps(m: Market, yes: BookView, no: BookView, p: EngineParams): seq<Opportunity> {
    match WalkSpec(ShortBasket(m, yes, no, p), p.maxBasis, p.minProfit, p.floorC12)
    case None => []
    case Some(w) => [IntoOpportunity(w, C1Short).(splits := [(m.id, w.units)])]
  }

  lemma OneSidePays(markets: seq<Market>, i: nat, w: World)
    requires |w| == |markets| && i < |markets| && DistinctTokens(markets)
    ensures PayCount(markets, w, [markets[i].yes, markets[i].no]) == 1
  {
    PaysOwnMarket(markets, w, i);
    var tokens := [markets[i].yes, markets[i].no];
    assert tokens[..1] == [markets[i].yes] && tokens[..1][..0] == [];
    assert PayCount(markets, w, tokens[..1]) == PayCount(markets, w, tokens[..1][..0]) +
        Pays(markets, w, markets[i].yes);
  }

  lemma SplitCovers(markets: seq<Market>, i: nat, w: World, u: nat, fills: seq<LegFill>)
    requires |w| == |markets| && i < |markets| && DistinctTokens(markets) && DistinctIds(markets)
    requires |fills| == 2 && fills[0].token == markets[i].yes && fills[1].token == markets[i].no
    requires forall k :: 0 <= k < 2 ==> fills[k].action == Sell && fills[k].qty == u
    ensures SplitCost([(markets[i].id, u)]) == u
    ensures SplitPayoff(markets, w, [(markets[i].id, u)]) == u
    ensures NoShort(markets, [(markets[i].id, u)], fills)
  {
    PaysOwnMarket(markets, w, i);
    IndexOfId(markets, i);
    var s := [(markets[i].id, u)];
    assert s[..0] == [];
    assert fills[..1][..0] == [];
    forall t: TokenId ensures Held(markets, s, fills, t) == 0 {
      assert Sold(fills[..1], t) == Sold(fills[..1][..0], t) + if fills[0].token == t then u else 0;
      assert Bought(fills[..1], t) == Bought(fills[..1][..0], t);
      assert SplitHeld(markets, s, t) == SplitHeld(markets, s[..0], t)
        + (if markets[i].yes == t then u else 0) + (if markets[i].no == t then u else 0);
    }
  }

  lemma LongSettles(markets: seq<Market>, i: nat, yes: BookView, no: BookView, p: EngineParams, w: World)
    requires i < |markets| && DistinctTokens(markets) && |w| == |markets|
    requires WalkSpec(LongBasket(markets[i], yes, no, p), p.maxBasis, p.minProfit, p.floorC12).Some?
    ensures var op := IntoOpportunity(
                    WalkSpec(LongBasket(markets[i], yes, no, p), p.maxBasis, p.minProfit, p.floorC12).value, C1Long);
            && SettledNet(markets, w, op, LongGas(p)) == op.net
            && Gated(op, p, p.floorC12) && NoShort(markets, op.splits, op.fills)
  {
    var b := LongBasket(markets[i], yes, no, p);
    OneSidePays(markets, i, w);
    assert Tokens(b.legs) == [markets[i].yes, markets[i].no];
    WalkedFacts(b, p.maxBasis, p.minProfit, p.floorC12);
    BuyBasketSettles(markets, w, b, 1, C1Long, p.maxBasis, p.minProfit, p.floorC12);
  }

  lemma ShortSettles(markets: seq<Market>, i: nat, yes: BookView, no: BookView, p: EngineParams, w: World)
    requires i < |markets| && DistinctTokens(markets) && DistinctIds(markets) && |w| == |markets|
    requires WalkSpec(ShortBasket(markets[i], yes, no, p), p.maxBasis, p.minProfit, p.floorC12).Some?
    ensures var r := WalkSpec(ShortBasket(markets[i], yes, no, p), p.maxBasis, p.minProfit, p.floorC12).value;
            var op := IntoOpportunity(r, C1Short).(splits := [(markets[i].id, r.units)]);
            && SettledNet(markets, w, op, p.gas.split) == op.net
            && Gated(op, p, p.floorC12) && NoShort(markets, op.splits, op.fills)
  {
    var b := ShortBasket(markets[i], yes, no, p);
    OneSidePays(markets, i, w);
    assert Tokens(b.legs) == [markets[i].yes, markets[i].no];
    WalkedFacts(b, p.maxBasis, p.minProfit, p.floorC12);
    var r := WalkSpec(b, p.maxBasis, p.minProfit, p.floorC12).value;
    FillsCashIsLegsCash(b.legs, r.units);
    UniformPayoff(markets, w, b.legs, Sell, r.units);
    WholeShares(1, r.units);
    SplitCovers(markets, i, w, r.units, r.fills);
  }

  /** Both books of the market are there, and both its tokens are its own. */
  ghost predicate Listed(markets: seq<Market>, i: nat, books: map<TokenId, BookView>) {
    && i < |markets| && DistinctTokens(markets) && DistinctIds(markets)
    && markets[i].yes in books && markets[i].no in books
  }

  function BothTokens(m: Market): seq<TokenId> {
    [m.yes, m.no]
  }

  /** The baskets walked are made of the market's own quotes. */
  lemma BasketsAreQuoted(markets: seq<Market>, i: nat, books: map<TokenId, BookView>, p: EngineParams)
    requires Listed(markets, i, books)
    ensures var m := markets[i];
            && QuotedLegs(markets, books, BothTokens(m), Buy, LongBasket(m, books[m.yes], books[m.no], p).legs)
            && QuotedLegs(markets, books, BothTokens(m), Sell, ShortBasket(m, books[m.yes], books[m.no], p).legs)
  {
    PaysOwnMarket(markets, seq(|markets|, _ => true), i);
  }

  /** Both class-1 shapes are sized on the market's own books, settle at exactly their
      stated net whichever way the market resolves, clear the gates, and sell nothing
      they do not hold. */
  lemma NoLoss(markets: seq<Market>, i: nat, books: map<TokenId, BookView>, p: EngineParams, op: Opportunity, w: World)
    requires Listed(markets, i, books) && |w| == |markets|
    requires op in Detect(markets[i], books[markets[i].yes], books[markets[i].no], p)
    ensures Honest(markets, books, op) && BookNet(markets, books, p, w, op) == op.net
    ensures Gated(op, p, p.floorC12) && NoShort(markets, op.splits, op.fills)
  {
    if op in LongOps(markets[i], books[markets[i].yes], books[markets[i].no], p) {
      LongHolds(markets, i, books, p, op, w);
    } else {
      ShortHolds(markets, i, books, p, op, w);
    }
  }

  lemma LongHolds(markets: seq<Market>, i: nat, books: map<TokenId, BookView>, p: EngineParams, op: Opportunity,
                  w: World)
    requires Listed(markets, i, books) && |w| == |markets|
    requires op in LongOps(markets[i], books[markets[i].yes], books[markets[i].no], p)
    ensures Honest(markets, books, op) && BookNet(markets, books, p, w, op) == op.net
    ensures Gated(op, p, p.floorC12) && NoShort(markets, op.splits, op.fills)
  {
    var m := markets[i];
    var yes, no := books[m.yes], books[m.no];
    BasketsAreQuoted(markets, i, books, p);
    LongSettles(markets, i, yes, no, p, w);
    WalkedIsHonest(markets, books, BothTokens(m), Buy, LongBasket(m, yes, no, p), p.maxBasis, p.minProfit, p.floorC12);
    HonestNet(markets, books, p, w, op, LongGas(p));
  }

  lemma ShortHolds(markets: seq<Market>, i: nat, books: map<TokenId, BookView>, p: EngineParams, op: Opportunity,
                   w: World)
    requires Listed(markets, i, books) && |w| == |markets|
    requires op in ShortOps(markets[i], books[markets[i].yes], books[markets[i].no], p)
    ensures Honest(markets, books, op) && BookNet(markets, books, p, w, op) == op.net
    ensures Gated(op, p, p.floorC12) && NoShort(markets, op.splits, op.fills)
  {
    var m := markets[i];
    var yes, no := books[m.yes], books[m.no];
    BasketsAreQuoted(markets, i, books, p);
    ShortSettles(markets, i, yes, no, p, w);
    WalkedIsHonest(markets, books, BothTokens(m), Sell, ShortBasket(m, yes, no, p), p.maxBasis, p.minProfit,
                   p.floorC12);
    WholeShares(1, op.units);
    OneSplitCost(m.id, op.units);
    HonestNet(markets, books, p, w, op, p.gas.split);
  }

  lemma OneSplitCost(id: MarketId, units: nat)
    ensures SplitCost([(id, units)]) == units
  {
    assert [(id, units)][..0] == [];
  }

  /** The long shape is reported exactly when buying both tokens for a dollar a set is
      worth it, the short one exactly when selling both against a dollar of collateral
      is; nothing else is reported. */
  lemma EmittedExactly(markets: seq<Market>, i: nat, books: map<TokenId, BookView>, p: EngineParams)
    requires Listed(markets, i, books) && I32_MIN <= p.floorC12 <= I32_MAX
    ensures var m := markets[i];
            var gas := match p.redeem case Merge => p.gas.merge case Hold => p.gas.redeem;
            EmitsJust(Detect(m, books[m.yes], books[m.no], p),
                      C1Long, Worthwhile(markets, books, [m.yes, m.no], Buy, 1_000_000, 0, gas, p, p.floorC12),
                      C1Short, Worthwhile(markets, books, [m.yes, m.no], Sell, 0, 1_000_000, p.gas.split, p,
                                          p.floorC12))
  {
    var m := markets[i];
    var long, short := LongBasket(m, books[m.yes], books[m.no], p), ShortBasket(m, books[m.yes], books[m.no], p);
    BasketsAreQuoted(markets, i, books, p);
    WalkedIffWorth(markets, books, BothTokens(m), Buy, long, p, p.floorC12);
    WalkedIffWorth(markets, books, BothTokens(m), Sell, short, p, p.floorC12);
    EmitsTogether(LongOps(m, books[m.yes], books[m.no], p), ShortOps(m, books[m.yes], books[m.no], p),
                  C1Long, WalkSpec(long, p.maxBasis, p.minProfit, p.floorC12).Some?,
                  C1Short, WalkSpec(short, p.maxBasis, p.minProfit, p.floorC12).Some?);
  }

  // ----- an edge walked past -----

  const THIN_YES: BookView := BookView(Milli, [], [Level(450, 21_000_000), Level(499, 1_000_000_000_000)])
  const THIN_NO: BookView := BookView(Milli, [], [Level(500, 10_000_000_000_000)])
  const THIN_MARKET: Market := Market(1, 10, 11, Milli, 0, false)

  lemma ThinCost(token: TokenId, u: nat, levels: seq<Level>, px: nat, left: nat)
    requires At(levels, u) == Some(Level(px, left))
    ensures CostAt(Leg(token, Buy, Milli, 0, levels), u) == 10_000_000 * px
  {
    assert FeeBase(0, px * 1000) == 0;
  }

  lemma ThinStep(b: Basket, u: nat, v: nat, px: nat, left: nat)
    requires b.legs == [Leg(10, Buy, Milli, 0, THIN_YES.asks), Leg(11, Buy, Milli, 0, THIN_NO.asks)]
    requires b.payout == 1_000_000 && b.collateral == 0
    requires At(THIN_YES.asks, u) == Some(Level(px, left)) && u < 10_000_000_000_000
    requires v == 10_000_000_000_000 - u && left <= v
    ensures Open(b.legs, u) && LevelRoom(b.legs, u) == left
    ensures BasisPerShare(b, u) == 10_000_000 * (px + 500) && Marginal(b, u) == 10_000_000_000 - 10_000_000 * (px + 500)
  {
    var legs := b.legs;
    assert At(THIN_NO.asks, u) == Some(Level(500, v));
    assert legs[..1][..0] == [] && legs[..1] == [legs[0]];
    ThinCost(10, u, THIN_YES.asks, px, left);
    ThinCost(11, u, THIN_NO.asks, 500, v);
    assert CostSum(legs[..1], u) == 10_000_000 * px;
    assert BuyCostSum(legs[..1], u) == 10_000_000 * px;
    assert LevelRoom(legs[..1][..0], u) == U64_MAX;
    assert LevelRoom(legs[..1], u) == Min(U64_MAX, left);
  }

  lemma ThinCash(legs: seq<Leg>, u: nat, yes: int, no: int)
    requires legs == [Leg(10, Buy, Milli, 0, THIN_YES.asks), Leg(11, Buy, Milli, 0, THIN_NO.asks)]
    requires LegCash(legs[0], u) == yes && LegCash(legs[1], u) == no
    ensures LegsCash(legs, u) == yes + no && BuyOutlayAt(legs, u) == -yes - no
  {
    assert legs[..1][..0] == [] && legs[..1] == [legs[0]];
    assert LegsCash(legs[..1], u) == yes && BuyOutlayAt(legs[..1], u) == -yes;
  }

  lemma ThinFirst(b: Basket)
    requires b.legs == [Leg(10, Buy, Milli, 0, THIN_YES.asks), Leg(11, Buy, Milli, 0, THIN_NO.asks)]
    requires b.payout == 1_000_000 && b.collateral == 0 && b.gas == 10_000
    ensures NetAt(b, 21_000_000) == 1_040_000 && BasisAt(b, 21_000_000) == 19_950_000
  {
    assert LegCash(b.legs[0], 21_000_000) == -9_450_000 && LegCash(b.legs[1], 21_000_000) == -10_500_000;
    ThinCash(b.legs, 21_000_000, -9_450_000, -10_500_000);
  }

  lemma ThinLast(b: Basket)
    requires b.legs == [Leg(10, Buy, Milli, 0, THIN_YES.asks), Leg(11, Buy, Milli, 0, THIN_NO.asks)]
    requires b.payout == 1_000_000 && b.collateral == 0 && b.gas == 10_000
    ensures NetAt(b, 1_002_031_031) == 2_021_030 && BasisAt(b, 1_002_031_031) == 1_000_000_001
  {
    var yes := THIN_YES.asks;
    assert LadderCash(b.legs[0], yes[1..], 981_031_031) == -489_534_485;
    assert LegCash(b.legs[0], 1_002_031_031) == -498_984_485 && LegCash(b.legs[1], 1_002_031_031) == -501_015_516;
    ThinCash(b.legs, 1_002_031_031, -498_984_485, -501_015_516);
  }

  ghost predicate Thin(b: Basket) {
    && b.legs == [Leg(10, Buy, Milli, 0, THIN_YES.asks), Leg(11, Buy, Milli, 0, THIN_NO.asks)]
    && b.payout == 1_000_000 && b.collateral == 0 && b.gas == 10_000
  }

  lemma ThinDepth(b: Basket)
    requires Thin(b)
    ensures Reachable(b.legs, 21_000_000)
  {
    assert Depth(THIN_YES.asks[1..]) == 1_000_000_000_000 by { assert THIN_YES.asks[1..][1..] == []; }
    assert Depth(THIN_NO.asks) == 10_000_000_000_000;
  }

  lemma ThinChunks(b: Basket)
    requires Thin(b)
    ensures Spent(b, 0, 21_000_000) == 19_950_000
    ensures Chunk(b, 1_000_000_000, 0, 0) == Some(21_000_000)
    ensures Chunk(b, 1_000_000_000, 21_000_000, 19_950_000) == Some(981_031_031)
    ensures Chunk(b, 1_000_000_000, 1_002_031_031, 1_000_000_000).None?
    ensures BasisPerShare(b, 0) == 9_500_000_000 && BasisPerShare(b, 21_000_000) == 9_990_000_000
  {
    ThinStep(b, 0, 10_000_000_000_000, 450, 21_000_000);
    assert At(THIN_YES.asks[1..], 0) == Some(Level(499, 1_000_000_000_000));
    ThinStep(b, 21_000_000, 9_999_979_000_000, 499, 1_000_000_000_000);
    assert At(THIN_YES.asks[1..], 981_031_031) == Some(Level(499, 999_018_968_969));
    ThinStep(b, 1_002_031_031, 9_998_997_968_969, 499, 999_018_968_969);
    assert Piece(b, 0) == 21_000_000 && Spent(b, 21_000_000, 21_000_000) == 0;
    assert Charge(9_500_000_000, 21_000_000) == 19_950_000;
    assert CapShares(980_050_000, 9_990_000_000) == 981_031_031;
  }

  lemma ThinUnits(b: Basket)
    requires Thin(b)
    ensures Units(b, 1_000_000_000) == 1_002_031_031
  {
    var cap := 1_000_000_000;
    ThinChunks(b);
    assert Charge(9_500_000_000, 21_000_000) == 19_950_000 && Charge(9_990_000_000, 981_031_031) == 980_050_000;
    assert March(b, cap, 1_002_031_031, 1_000_000_000) == (1_002_031_031, 1_000_000_000);
    assert March(b, cap, 21_000_000, 19_950_000) == March(b, cap, 1_002_031_031, 1_000_000_000);
    assert March(b, cap, 0, 0) == March(b, cap, 21_000_000, 19_950_000);
  }

  /** Both gates can clear at an extent the walk goes past: 21 shares net over a
      dollar at more than five per cent, yet with the default gates nothing is
      emitted, because 981 more sets at a tenth of a cent are taken with them. */
  lemma EdgeWalkedPast(p: EngineParams)
    requires p.redeem == Merge && p.gas.merge == 10_000 && p.maxBasis == 1_000_000_000
    requires p.minProfit == 1_000_000 && p.floorC12 == 30
    ensures WorthTaking(LongBasket(THIN_MARKET, THIN_YES, THIN_NO, p), p.maxBasis, p.minProfit, p.floorC12, 21_000_000)
    ensures !Emits(Detect(THIN_MARKET, THIN_YES, THIN_NO, p), C1Long)
  {
    var b := LongBasket(THIN_MARKET, THIN_YES, THIN_NO, p);
    assert Thin(b);
    ThinDepth(b);
    ThinChunks(b);
    ThinUnits(b);
    ThinFirst(b);
    ThinLast(b);
    EdgeGate(2_021_030, 1_000_000_001, 30);
    assert WalkSpec(b, p.maxBasis, p.minProfit, p.floorC12).None?;
  }

  // ----- a complete set at 46 and 52 cents -----

  const CHEAP_YES: BookView := BookView(Cent, [Level(44, 100_000_000)], [Level(46, 100_000_000)])
  const CHEAP_NO: BookView := BookView(Cent, [Level(50, 100_000_000)], [Level(52, 100_000_000)])
  const FEE_FREE: Market := Market(1, 10, 11, Cent, 0, false)

  lemma CheapSetMarginals(b: Basket)
    requires b.legs == [Leg(10, Buy, Cent, 0, CHEAP_YES.asks), Leg(11, Buy, Cent, 0, CHEAP_NO.asks)]
    requires b.payout == 1_000_000 && b.collateral == 0
    ensures Open(b.legs, 0) && Marginal(b, 0) == 200_000_000 && BasisPerShare(b, 0) == 9_800_000_000
    ensures LevelRoom(b.legs, 0) == 100_000_000 && !Open(b.legs, 100_000_000)
  {
    var legs := b.legs;
    assert At(legs[0].levels, 0) == Some(Level(46, 100_000_000)) &&
        At(legs[1].levels, 0) == Some(Level(52, 100_000_000));
    assert At(legs[0].levels[1..], 0).None?;
    assert legs[..1][..0] == [] && legs[..1] == [legs[0]];
    assert CostSum(legs[..1], 0) == 4_600_000_000;
    assert BuyCostSum(legs[..1], 0) == 4_600_000_000;
    assert LevelRoom(legs[..1], 0) == 100_000_000;
  }

  lemma CheapSetExact(b: Basket)
    requires b.legs == [Leg(10, Buy, Cent, 0, CHEAP_YES.asks), Leg(11, Buy, Cent, 0, CHEAP_NO.asks)]
    requires b.payout == 1_000_000 && b.collateral == 0 && b.gas == 0
    ensures NetAt(b, 100_000_000) == 2_000_000 && BasisAt(b, 100_000_000) == 98_000_000
  {
    var legs := b.legs;
    assert LegCash(legs[0], 100_000_000) == -46_000_000 && LegCash(legs[1], 100_000_000) == -52_000_000;
    assert legs[..1][..0] == [] && legs[..1] == [legs[0]];
    assert LegsCash(legs[..1], 100_000_000) == -46_000_000;
    assert BuyOutlayAt(legs[..1], 100_000_000) == 46_000_000;
  }

  /** A hundred sets at 98 cents: bought whole, for a net of two dollars. */
  lemma CheapSetIsBought(p: EngineParams)
    requires p.gas.merge == 0 && p.gas.redeem == 0 && p.maxBasis >= 98_000_000
    requires p.minProfit <= 2_000_000 && p.floorC12 <= 204
    ensures exists op :: op in Detect(FEE_FREE, CHEAP_YES, CHEAP_NO, p) && op.cls == C1Long
                         && op.units == 100_000_000 && op.net == 2_000_000
  {
    var b := LongBasket(FEE_FREE, CHEAP_YES, CHEAP_NO, p);
    CheapSetMarginals(b);
    CheapSetExact(b);
    assert CapShares(p.maxBasis, 9_800_000_000) >= 100_000_000;
    assert Chunk(b, p.maxBasis, 0, 0) == Some(100_000_000);
    assert Chunk(b, p.maxBasis, 100_000_000, 98_000_000).None?;
    assert Charge(9_800_000_000, 100_000_000) == 98_000_000;
    assert March(b, p.maxBasis, 100_000_000, 98_000_000) == (100_000_000, 98_000_000);
    assert March(b, p.maxBasis, 0, 0) == March(b, p.maxBasis, 100_000_000, 98_000_000);
    var w := WalkSpec(b, p.maxBasis, p.minProfit, p.floorC12).value;
    assert Detect(FEE_FREE, CHEAP_YES, CHEAP_NO, p)[0] == IntoOpportunity(w, C1Long);
  }
}
