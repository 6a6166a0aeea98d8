/** Class 3: two-leg Dutch books across one approved relationship. */
module Class3 {
  import opened Wrappers
  import opened Num
  import opened Instrument
  import opened Book
  import opened Walker
  import opened Baskets
  import opened Quotes

  function LegFor(token: TokenId, m: Market, books: map<TokenId, BookView>): Option<Leg> {
    if token in books then Some(Leg(token, Buy, books[token].ts, m.feeBps, books[token].asks)) else None
  }

  /** Buy both legs for a guaranteed $1; nothing when a book is missing or the walk rejects. */
  function PairBasket(cls: ArbClass, first: Option<Leg>, second: Option<Leg>, p: EngineParams): seq<Opportunity> {
    if first.None? || second.None? then []
    else
      var basket := Basket([first.value, second.value], 1_000_000, 0, p.gas.redeem);
      match WalkSpec(basket, p.maxBasis, p.minProfit, p.floorC3)
      case None => []
      case Some(w) => [IntoOpportunity(w, cls)]
  }

  function Detect(rel: Relationship, markets: seq<Market>, books: map<TokenId, BookView>,
                  p: EngineParams): seq<Opportunity> {
    var fa, fb := FindMarket(markets, rel.a), FindMarket(markets, rel.b);
    if fa.None? || fb.None? then []
    else
      var ma, mb := fa.value, fb.value;
      match rel
      case Implies(_, _) =>
        PairBasket(C3Implies, LegFor(ma.no, ma, books), LegFor(mb.yes, mb, books), p)
      case MutuallyExclusive(_, _) =>
        PairBasket(C3MutEx, LegFor(ma.no, ma, books), LegFor(mb.no, mb, books), p)
      case Equivalent(_, _) =>
        PairBasket(C3Equiv, LegFor(ma.no, ma, books), LegFor(mb.yes, mb, books), p)
        + PairBasket(C3Equiv, LegFor(mb.no, mb, books), LegFor(ma.yes, ma, books), p)
  }

  /** The pair of legs is the pair of quotes of their tokens. */
  lemma PairIsQuoted(markets: seq<Market>, books: map<TokenId, BookView>, i: nat, j: nat, t: TokenId, u: TokenId)
    requires OwnTokens(markets, i, j, t, u) && t in books && u in books
    ensures var (first, second) := (LegFor(t, markets[i], books), LegFor(u, markets[j], books));
            QuotedLegs(markets, books, [t, u], Buy, [first.value, second.value])
  {
    PaysOwnMarket(markets, seq(|markets|, _ => true), i);
    PaysOwnMarket(markets, seq(|markets|, _ => true), j);
  }

  ghost predicate OwnTokens(markets: seq<Market>, i: nat, j: nat, t: TokenId, u: TokenId) {
    && i < |markets| && j < |markets| && DistinctTokens(markets)
    && (t == markets[i].yes || t == markets[i].no) && (u == markets[j].yes || u == markets[j].no)
  }

  lemma PairIsHonest(markets: seq<Market>, books: map<TokenId, BookView>, cls: ArbClass, i: nat, j: nat, t: TokenId,
                     u: TokenId, p: EngineParams, op: Opportunity)
    requires OwnTokens(markets, i, j, t, u)
    requires op in PairBasket(cls, LegFor(t, markets[i], books), LegFor(u, markets[j], books), p)
    ensures Honest(markets, books, op) && Gated(op, p, p.floorC3) && op.cls == cls
  {
    var first, second := LegFor(t, markets[i], books).value, LegFor(u, markets[j], books).value;
    var b := Basket([first, second], 1_000_000, 0, p.gas.redeem);
    PairIsQuoted(markets, books, i, j, t, u);
    WalkedFacts(b, p.maxBasis, p.minProfit, p.floorC3);
    WalkedIsHonest(markets, books, [t, u], Buy, b, p.maxBasis, p.minProfit, p.floorC3);
  }

  lemma PairSettles(markets: seq<Market>, w: World, cls: ArbClass, first: Leg, second: Leg, p: EngineParams,
                    op: Opportunity)
    requires |w| == |markets| && first.action == Buy && second.action == Buy
    requires op in PairBasket(cls, Some(first), Some(second), p)
    ensures SettledNet(markets, w, op, p.gas.redeem) ==
            op.net + op.units * (Pays(markets, w, first.token) + Pays(markets, w, second.token) - 1)
    ensures op.splits == [] && NoShort(markets, op.splits, op.fills)
  {
    var b := Basket([first, second], 1_000_000, 0, p.gas.redeem);
    BuyBasketSettles(markets, w, b, 1, cls, p.maxBasis, p.minProfit, p.floorC3);
    PairCount(markets, w, first, second);
  }

  /** One pair settles at its net plus what its two tokens pay beyond a dollar. */
  lemma PairHolds(markets: seq<Market>, books: map<TokenId, BookView>, w: World, cls: ArbClass, i: nat, j: nat,
                  t: TokenId, u: TokenId, p: EngineParams, op: Opportunity)
    requires |w| == |markets| && OwnTokens(markets, i, j, t, u) && cls in {C3Implies, C3MutEx, C3Equiv}
    requires op in PairBasket(cls, LegFor(t, markets[i], books), LegFor(u, markets[j], books), p)
    ensures Honest(markets, books, op) && Gated(op, p, p.floorC3) && NoShort(markets, op.splits, op.fills)
    ensures BookNet(markets, books, p, w, op) == op.net + op.units * (Pays(markets, w, t) + Pays(markets, w, u) - 1)
  {
    PairIsHonest(markets, books, cls, i, j, t, u, p, op);
    PairSettles(markets, w, cls, LegFor(t, markets[i], books).value, LegFor(u, markets[j], books).value, p, op);
    HonestNet(markets, books, p, w, op, p.gas.redeem);
  }

  lemma PairCount(markets: seq<Market>, w: World, first: Leg, second: Leg)
    requires |w| == |markets|
    ensures PayCount(markets, w, Tokens([first, second])) ==
            Pays(markets, w, first.token) + Pays(markets, w, second.token)
  {
    var tokens := Tokens([first, second]);
    assert tokens == [first.token, second.token] && tokens[..1] == [first.token] && tokens[..1][..0] == [];
    assert PayCount(markets, w, tokens[..1]) == PayCount(markets, w, tokens[..1][..0]) + Pays(markets, w, first.token);
  }

  lemma NonNegativeProduct(a: nat, b: nat)
    ensures a * b >= 0
  {
  }

  /** In every world the relationship allows, each pair is sized on the tokens' own
      books and pays at least $1 per unit, so the settled net is at least the stated one. */
  lemma NoLoss(rel: Relationship, markets: seq<Market>, books: map<TokenId, BookView>, p: EngineParams, op: Opportunity,
               w: World)
    requires |w| == |markets| && DistinctTokens(markets)
    requires Satisfies(markets, w, rel) && op in Detect(rel, markets, books, p)
    ensures Honest(markets, books, op) && BookNet(markets, books, p, w, op) >= op.net
    ensures Gated(op, p, p.floorC3) && NoShort(markets, op.splits, op.fills)
  {
    var i, j := MarketIndex(markets, rel.a).value, MarketIndex(markets, rel.b).value;
    var (t, u) := PairTraded(rel, markets[i], markets[j], books, p, op);
    PaysOwnMarket(markets, w, i);
    PaysOwnMarket(markets, w, j);
    match rel {
      case Implies(_, _) => PairHolds(markets, books, w, C3Implies, i, j, t, u, p, op);
      case MutuallyExclusive(_, _) => PairHolds(markets, books, w, C3MutEx, i, j, t, u, p, op);
      case Equivalent(_, _) =>
        if t == markets[i].no {
          PairHolds(markets, books, w, C3Equiv, i, j, t, u, p, op);
        } else {
          PairHolds(markets, books, w, C3Equiv, j, i, t, u, p, op);
        }
    }
    NonNegativeProduct(op.units, Pays(markets, w, t) + Pays(markets, w, u) - 1);
  }

  /** The two tokens op was found on. */
  ghost function PairTraded(rel: Relationship, ma: Market, mb: Market, books: map<TokenId, BookView>, p: EngineParams,
                            op: Opportunity): (TokenId, TokenId) {
    match rel
    case Implies(_, _) => (ma.no, mb.yes)
    case MutuallyExclusive(_, _) => (ma.no, mb.no)
    case Equivalent(_, _) =>
      if op in PairBasket(C3Equiv, LegFor(ma.no, ma, books), LegFor(mb.yes, mb, books), p) then (ma.no, mb.yes)
      else (mb.no, ma.yes)
  }

  /** The floor is sharp: a pair of which exactly one token pays settles at its stated net. */
  lemma FloorIsAttained(markets: seq<Market>, books: map<TokenId, BookView>, w: World, cls: ArbClass, i: nat, j: nat,
                        t: TokenId, u: TokenId, p: EngineParams, op: Opportunity)
    requires |w| == |markets| && OwnTokens(markets, i, j, t, u) && cls in {C3Implies, C3MutEx, C3Equiv}
    requires op in PairBasket(cls, LegFor(t, markets[i], books), LegFor(u, markets[j], books), p)
    requires Pays(markets, w, t) + Pays(markets, w, u) == 1
    ensures BookNet(markets, books, p, w, op) == op.net
  {
    PairHolds(markets, books, w, cls, i, j, t, u, p, op);
  }

  lemma PairReported(markets: seq<Market>, books: map<TokenId, BookView>, cls: ArbClass, i: nat, j: nat, t: TokenId,
                     u: TokenId, p: EngineParams)
    requires OwnTokens(markets, i, j, t, u) && I32_MIN <= p.floorC3 <= I32_MAX
    ensures var ops := PairBasket(cls, LegFor(t, markets[i], books), LegFor(u, markets[j], books), p);
            && |ops| <= 1 && (ops != [] ==> ops[0].cls == cls)
            && (ops != [] <==> Worthwhile(markets, books, [t, u], Buy, 1_000_000, 0, p.gas.redeem, p, p.floorC3))
  {
    if t in books && u in books {
      var first, second := LegFor(t, markets[i], books).value, LegFor(u, markets[j], books).value;
      PairIsQuoted(markets, books, i, j, t, u);
      WalkedIffWorth(markets, books, [t, u], Buy, Basket([first, second], 1_000_000, 0, p.gas.redeem), p, p.floorC3);
    } else {
      assert [t, u][0] in [t, u] && [t, u][1] in [t, u];
      if Worthwhile(markets, books, [t, u], Buy, 1_000_000, 0, p.gas.redeem, p, p.floorC3) {
        WorthwhileIsQuoted(markets, books, [t, u], Buy, 1_000_000, 0, p.gas.redeem, p, p.floorC3);
      }
    }
  }

  /** Worth buying these two tokens together for a dollar a pair. */
  ghost predicate PairWorth(markets: seq<Market>, books: map<TokenId, BookView>, t: TokenId, u: TokenId,
                            p: EngineParams) {
    Worthwhile(markets, books, [t, u], Buy, 1_000_000, 0, p.gas.redeem, p, p.floorC3)
  }

  /** Of one class the pair is reported exactly when it is worth it. */
  lemma PairEmitted(markets: seq<Market>, books: map<TokenId, BookView>, cls: ArbClass, i: nat, j: nat, t: TokenId,
                    u: TokenId, p: EngineParams)
    requires OwnTokens(markets, i, j, t, u) && I32_MIN <= p.floorC3 <= I32_MAX
    ensures var ops := PairBasket(cls, LegFor(t, markets[i], books), LegFor(u, markets[j], books), p);
            && (Emits(ops, cls) <==> PairWorth(markets, books, t, u, p))
            && (forall k :: 0 <= k < |ops| ==> ops[k].cls == cls)
            && |ops| == if PairWorth(markets, books, t, u, p) then 1 else 0
  {
    PairReported(markets, books, cls, i, j, t, u, p);
    var ops := PairBasket(cls, LegFor(t, markets[i], books), LegFor(u, markets[j], books), p);
    if ops != [] { assert ops[0].cls == cls; }
  }

  /** What a relationship between ma and mb has to report. */
  ghost predicate ReportsWorth(rel: Relationship, ops: seq<Opportunity>, markets: seq<Market>,
                               books: map<TokenId, BookView>, ma: Market, mb: Market, p: EngineParams) {
    match rel
    case Implies(_, _) => (Emits(ops, C3Implies) <==> PairWorth(markets, books, ma.no, mb.yes, p)) && |ops| <= 1
    case MutuallyExclusive(_, _) =>
      (Emits(ops, C3MutEx) <==> PairWorth(markets, books, ma.no, mb.no, p)) && |ops| <= 1
    case Equivalent(_, _) =>
      && (forall k :: 0 <= k < |ops| ==> ops[k].cls == C3Equiv)
      && |ops| == (if PairWorth(markets, books, ma.no, mb.yes, p) then 1 else 0)
                  + (if PairWorth(markets, books, mb.no, ma.yes, p) then 1 else 0)
  }

  /** An implication buys NO a with YES b, exclusives both NOs, equivalents either
      diagonal: each exactly when the pair is worth it. A relationship that names an
      unknown market reports nothing. */
  lemma EmittedExactly(rel: Relationship, markets: seq<Market>, books: map<TokenId, BookView>, p: EngineParams)
    requires DistinctTokens(markets) && I32_MIN <= p.floorC3 <= I32_MAX
    ensures var (i, j) := (MarketIndex(markets, rel.a), MarketIndex(markets, rel.b));
            if i.None? || j.None? then Detect(rel, markets, books, p) == []
            else ReportsWorth(rel, Detect(rel, markets, books, p), markets, books, markets[i.value], markets[j.value],
                              p)
  {
    var i, j := MarketIndex(markets, rel.a), MarketIndex(markets, rel.b);
    if i.Some? && j.Some? {
      var ma, mb := markets[i.value], markets[j.value];
      match rel
      case Implies(_, _) => PairEmitted(markets, books, C3Implies, i.value, j.value, ma.no, mb.yes, p);
      case MutuallyExclusive(_, _) => PairEmitted(markets, books, C3MutEx, i.value, j.value, ma.no, mb.no, p);
      case Equivalent(_, _) =>
        PairEmitted(markets, books, C3Equiv, i.value, j.value, ma.no, mb.yes, p);
        PairEmitted(markets, books, C3Equiv, j.value, i.value, mb.no, ma.yes, p);
    }
  }
}
