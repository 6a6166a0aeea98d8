/** From the registry to the real outcome: what a basket found on one indexed
    component nets when the whole registry resolves. */
module Guarantee {
  import opened Wrappers
  import opened Num
  import opened Instrument
  import opened Book
  import opened Sequences
  import opened Worlds
  import opened Revalidate
  import opened Lp
  import opened Components
  import opened Execution
  import Quotes

  /** The registry read as one component. */
  function Whole(reg: Registry, books: map<TokenId, BookView>): Component {
    Component(reg.markets, reg.partitions, reg.approved, books)
  }

  function Own(reg: Registry, cid: ComponentId): seq<Market> {
    Filter(reg.markets, InComponent(reg, cid))
  }

  // ----- one component's view of markets and tokens -----

  lemma OwnMarketIs(reg: Registry, cid: ComponentId, k: nat)
    requires ValidRegistry(reg) && k < |Own(reg, cid)|
    ensures var id := Own(reg, cid)[k].id;
            id < |reg.markets| && reg.markets[id] == Own(reg, cid)[k] && MarketIndex(reg.markets, id) == Some(id)
  {
    FilteredMarkets(reg, cid);
    var m := Own(reg, cid)[k];
    assert m in Own(reg, cid);
    var i :| 0 <= i < |reg.markets| && reg.markets[i] == m;
    IndexOfId(reg.markets, i);
  }

  lemma SameMarket(reg: Registry, cid: ComponentId, id: MarketId)
    requires ValidRegistry(reg) && FindMarket(Own(reg, cid), id).Some?
    ensures FindMarket(reg.markets, id) == FindMarket(Own(reg, cid), id)
  {
    OwnMarketIs(reg, cid, MarketIndex(Own(reg, cid), id).value);
  }

  lemma SameToken(reg: Registry, cid: ComponentId, w: World, t: TokenId)
    requires ValidRegistry(reg) && |w| == |reg.markets| && TokenIndex(Own(reg, cid), t).Some?
    ensures var own := Own(reg, cid);
            && TokenIndex(reg.markets, t).Some?
            && reg.markets[TokenIndex(reg.markets, t).value] == own[TokenIndex(own, t).value]
            && Pays(own, Restrict(reg, own, w), t) == Pays(reg.markets, w, t)
  {
    var own := Own(reg, cid);
    var k := TokenIndex(own, t).value;
    OwnMarketIs(reg, cid, k);
    FilteredMarkets(reg, cid);
    PaysOwnMarket(own, Restrict(reg, own, w), k);
    PaysOwnMarket(reg.markets, w, own[k].id);
  }

  // ----- the net is the same seen from the component and from the registry -----

  lemma {:induction false} SameFills(reg: Registry, cid: ComponentId, w: World, fills: seq<LegFill>)
    requires ValidRegistry(reg) && |w| == |reg.markets|
    requires forall f :: f in fills ==> TokenIndex(Own(reg, cid), f.token).Some?
    ensures RecomputedFillsCash(Own(reg, cid), fills) == RecomputedFillsCash(reg.markets, fills)
    ensures FillPayoff(Own(reg, cid), Restrict(reg, Own(reg, cid), w), fills) == FillPayoff(reg.markets, w, fills)
  {
    if fills == [] {
    } else {
      var n := |fills| - 1;
      SameFills(reg, cid, w, fills[..n]);
      SameToken(reg, cid, w, fills[n].token);
    }
  }

  lemma {:induction false} SameSplits(reg: Registry, cid: ComponentId, w: World, splits: seq<Split>)
    requires ValidRegistry(reg) && |w| == |reg.markets|
    requires forall s :: s in splits ==> FindMarket(Own(reg, cid), s.0).Some?
    ensures SplitPayoff(Own(reg, cid), Restrict(reg, Own(reg, cid), w), splits) == SplitPayoff(reg.markets, w, splits)
  {
    if splits == [] {
    } else {
      var n := |splits| - 1;
      SameSplits(reg, cid, w, splits[..n]);
      var m := FindMarket(Own(reg, cid), splits[n].0).value;
      SameMarket(reg, cid, splits[n].0);
      SameToken(reg, cid, w, m.yes);
      SameToken(reg, cid, w, m.no);
    }
  }

  lemma SameNet(reg: Registry, c: Component, cid: ComponentId, splits: seq<Split>, fills: seq<LegFill>, gas: int,
                w: World)
    requires ValidRegistry(reg) && |w| == |reg.markets| && c.markets == Own(reg, cid) && AllKnown(c, splits, fills)
    ensures NetIn(c, splits, fills, gas, Restrict(reg, c.markets, w)) ==
        NetIn(Whole(reg, c.books), splits, fills, gas, w)
  {
    SameFills(reg, cid, w, fills);
    SameSplits(reg, cid, w, splits);
  }

  // ----- the promise -----

  /** What a fill costs or brings at its limit price and its market's fee rate. */
  function LimitCash(markets: seq<Market>, f: LegFill): int {
    match TokenIndex(markets, f.token)
    case None => 0
    case Some(k) => CashFor(f.action, markets[k].feeBps, MicroUsdc(f.limitPx, f.ts), f.qty)
  }

  function LimitsCash(markets: seq<Market>, fills: seq<LegFill>): int {
    if fills == [] then 0 else LimitsCash(markets, fills[..|fills| - 1]) + LimitCash(markets, fills[|fills| - 1])
  }

  function LimitsOutlay(markets: seq<Market>, fills: seq<LegFill>): int {
    if fills == [] then 0
    else
      var f := fills[|fills| - 1];
      LimitsOutlay(markets, fills[..|fills| - 1]) + if f.action == Buy then 0 - LimitCash(markets, f) else 0
  }

  /** Net of op in w when every leg executes at its limit. */
  function RealNet(markets: seq<Market>, p: EngineParams, w: World, op: Opportunity): int
    requires |w| == |markets|
  {
    LimitsCash(markets, op.fills) - SplitCost(op.splits)
    + SplitPayoff(markets, w, op.splits) + FillPayoff(markets, w, op.fills) - Quotes.GasDue(p, op)
  }

  lemma {:induction false} LimitsAreRecomputed(markets: seq<Market>, fills: seq<LegFill>)
    ensures LimitsCash(markets, fills) == RecomputedFillsCash(markets, fills)
    ensures LimitsOutlay(markets, fills) == BuyOutlay(markets, fills)
  {
    if fills == [] {
    } else {
      LimitsAreRecomputed(markets, fills[..|fills| - 1]);
    }
  }

  lemma {:induction false} SameOutlay(reg: Registry, cid: ComponentId, fills: seq<LegFill>)
    requires ValidRegistry(reg) && forall f :: f in fills ==> TokenIndex(Own(reg, cid), f.token).Some?
    ensures BuyOutlay(Own(reg, cid), fills) == BuyOutlay(reg.markets, fills)
  {
    if fills == [] {
    } else {
      var n := |fills| - 1;
      SameOutlay(reg, cid, fills[..n]);
      SameToken(reg, cid, seq(|reg.markets|, _ => true), fills[n].token);
    }
  }

  /** In every real outcome op nets at least what it states, which clears the minimum
      profit; its basis is what buying and splitting takes out of pocket. */
  ghost predicate PaysInReality(reg: Registry, p: EngineParams, op: Opportunity) {
    && op.net >= p.minProfit && op.basis == LimitsOutlay(reg.markets, op.fills) + SplitCost(op.splits)
    && forall w :: RealOutcome(reg, w) ==> RealNet(reg.markets, p, w, op) >= op.net
  }

  /** op was found on component cid of the index for these solver numbers. */
  ghost predicate FoundOn(reg: Registry, flag: bool, es: Entries, cid: ComponentId, books: map<TokenId, BookView>,
                          p: EngineParams, raw: seq<nat>, op: Opportunity) {
    && ValidRegistry(reg) && cid in es && (forall t :: t in books ==> books[t].Valid())
    && Indexed(reg, flag, |reg.markets|, |reg.partitions|, |reg.approved|, es)
    && |raw| == |Vars(Of(es[cid], books))| + |es[cid].markets|
    && Guaranteed(Of(es[cid], books), p, raw, op)
  }

  lemma FoundIsKnown(reg: Registry, flag: bool, es: Entries, cid: ComponentId, books: map<TokenId, BookView>,
                     p: EngineParams, raw: seq<nat>, op: Opportunity)
    requires FoundOn(reg, flag, es, cid, books, p, raw, op)
    ensures es[cid].markets == Own(reg, cid) && AllKnown(Of(es[cid], books), op.splits, op.fills)
  {
    WholeIndex(reg, flag, es, cid);
    EntryIsValidComponent(reg, flag, es, cid, books);
    BasketIsSound(Of(es[cid], books), raw);
  }

  lemma FoundInWorld(reg: Registry, flag: bool, es: Entries, cid: ComponentId, books: map<TokenId, BookView>,
                     p: EngineParams, raw: seq<nat>, op: Opportunity, w: World)
    requires FoundOn(reg, flag, es, cid, books, p, raw, op) && RealOutcome(reg, w)
    ensures NetIn(Whole(reg, books), op.splits, op.fills, BasketGas(p, op.splits), w) >= op.net
  {
    var c := Of(es[cid], books);
    FoundIsKnown(reg, flag, es, cid, books, p, raw, op);
    RealOutcomeIsLegal(reg, flag, es, cid, w);
    SameNet(reg, c, cid, op.splits, op.fills, BasketGas(p, op.splits), w);
    assert Legal(c, Restrict(reg, c.markets, w));
  }

  lemma RealNetIs(reg: Registry, books: map<TokenId, BookView>, p: EngineParams, w: World, op: Opportunity)
    requires |w| == |reg.markets| && op.cls == C4Lp
    ensures RealNet(reg.markets, p, w, op) ==
            NetIn(Whole(reg, books), op.splits, op.fills, BasketGas(p, op.splits), w)
  {
    LimitsAreRecomputed(reg.markets, op.fills);
  }

  /** A basket found on an indexed component pays in whatever really happens. */
  lemma FoundPaysInReality(reg: Registry, flag: bool, es: Entries, cid: ComponentId, books: map<TokenId, BookView>,
                           p: EngineParams, raw: seq<nat>, op: Opportunity)
    requires FoundOn(reg, flag, es, cid, books, p, raw, op)
    ensures PaysInReality(reg, p, op)
  {
    FoundIsKnown(reg, flag, es, cid, books, p, raw, op);
    LimitsAreRecomputed(reg.markets, op.fills);
    SameOutlay(reg, cid, op.fills);
    forall w | RealOutcome(reg, w) ensures RealNet(reg.markets, p, w, op) >= op.net {
      FoundInWorld(reg, flag, es, cid, books, p, raw, op, w);
      RealNetIs(reg, books, p, w, op);
    }
  }

  /** Index, solve, trade: whatever the solver says, what comes out pays in reality. */
  method SolveIndexed(reg: Registry, includeNonexhaustive: bool, cid: ComponentId, books: map<TokenId, BookView>,
                      p: EngineParams, solver: Component -> Option<seq<nat>>) returns (r: Option<LpResult>)
    requires ValidRegistry(reg) && p.maxWorlds <= U64_MAX && forall t :: t in books ==> books[t].Valid()
    requires forall c :: solver(c).Some? ==> |solver(c).value| == |Vars(c)| + |c.markets|
    ensures r.None? <==> forall m :: m in reg.markets ==> reg.componentOf(m.id) != cid
    ensures r.Some? && r.value.Found? ==> PaysInReality(reg, p, r.value.op)
  {
    var es, _ := BuildComponentIndex(reg, includeNonexhaustive);
    FilteredMarkets(reg, cid);
    assert reg.markets[..|reg.markets|] == reg.markets;
    if cid !in es {
      assert Own(reg, cid) == [];
      return None;
    }
    var c := Of(es[cid], books);
    EntryIsValidComponent(reg, includeNonexhaustive, es, cid, books);
    var result := SolveComponent(c, p, solver(c));
    if result.Found? {
      FoundPaysInReality(reg, includeNonexhaustive, es, cid, books, p, solver(c).value, result.op);
    }
    assert Own(reg, cid)[0] in Own(reg, cid);
    r := Some(result);
  }
}
