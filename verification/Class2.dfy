/** Class 2: the YES set, or the NO set, of a verified-exhaustive partition. */
module Class2 {
  import opened Wrappers
  import opened Num
  import opened Instrument
  import opened Book
  import opened Walker
  import opened Baskets
  import opened Quotes

  /** Fee table built market by market; a later entry for a token replaces an earlier one. */
  function FeeOf(markets: seq<Market>, t: TokenId): Option<int> {
    if markets == [] then None
    else
      var m := markets[|markets| - 1];
      if m.no == t || m.yes == t then Some(m.feeBps) else FeeOf(markets[..|markets| - 1], t)
  }

  /** One buy leg per token, or nothing if any token lacks a book or a fee. */
  function BuildLegs(tokens: seq<TokenId>, markets: seq<Market>, books: map<TokenId, BookView>): (r: Option<seq<Leg>>)
    ensures r.Some? ==> Tokens(r.value) == tokens && Uniform(r.value, Buy)
  {
    if tokens == [] then Some([])
    else
      var n := |tokens| - 1;
      var t := tokens[n];
      match BuildLegs(tokens[..n], markets, books)
      case None => None
      case Some(legs) =>
        if t !in books || FeeOf(markets, t).None? then None
        else Some(legs + [Leg(t, Buy, books[t].ts, FeeOf(markets, t).value, books[t].asks)])
  }

  function WalkSet(tokens: seq<TokenId>, markets: seq<Market>, books: map<TokenId, BookView>, p: EngineParams,
                   payout: nat, gas: nat, cls: ArbClass): seq<Opportunity> {
    match BuildLegs(tokens, markets, books)
    case None => []
    case Some(legs) =>
      match WalkSpec(Basket(legs, payout, 0, gas), p.maxBasis, p.minProfit, p.floorC12)
      case None => []
      case Some(w) => [IntoOpportunity(w, cls)]
  }

  function Detect(part: Partition, markets: seq<Market>, books: map<TokenId, BookView>,
                  p: EngineParams): seq<Opportunity> {
    if !part.verifiedExhaustive || !part.IsWellFormed() then []
    else YesOps(part, markets, books, p) + NoOps(part, markets, books, p)
  }

  function YesOps(part: Partition, markets: seq<Market>, books: map<TokenId, BookView>,
                  p: EngineParams): seq<Opportunity> {
    WalkSet(part.yesTokens, markets, books, p, 1_000_000, p.gas.redeem, C2Long)
  }

  /** A full NO set of n markets resolves to exactly n - 1 dollars. */
  function NoOps(part: Partition, markets: seq<Market>, books: map<TokenId, BookView>,
                 p: EngineParams): seq<Opportunity>
    requires part.IsWellFormed()
  {
    WalkSet(part.noTokens, markets, books, p, (|part.yesTokens| - 1) * 1_000_000, p.gas.negriskConvert, C2Short)
  }

  /** The lanes of a partition are its members' own tokens. */
  ghost predicate LanesMatch(markets: seq<Market>, part: Partition) {
    && |part.yesTokens| == |part.markets| == |part.noTokens|
    && forall j :: 0 <= j < |part.markets| ==>
         var k := MarketIndex(markets, part.markets[j]);
         k.Some? && markets[k.value].yes == part.yesTokens[j] && markets[k.value].no == part.noTokens[j]
  }

  lemma MemberPays(markets: seq<Market>, part: Partition, w: World, j: nat)
    requires |w| == |markets| && DistinctTokens(markets) && LanesMatch(markets, part) && j < |part.markets|
    ensures Pays(markets, w, part.yesTokens[j]) == if YesTrue(markets, w, part.markets[j]) then 1 else 0
    ensures Pays(markets, w, part.noTokens[j]) == if YesTrue(markets, w, part.markets[j]) then 0 else 1
  {
    PaysOwnMarket(markets, w, MarketIndex(markets, part.markets[j]).value);
  }

  lemma {:induction false} LanePays(markets: seq<Market>, w: World, tokens: seq<TokenId>, win: nat, hit: int)
    requires |w| == |markets| && 0 <= hit <= 1
    requires forall j :: 0 <= j < |tokens| ==> Pays(markets, w, tokens[j]) == if j == win then hit else 1 - hit
    ensures PayCount(markets, w, tokens) ==
        if win < |tokens| then hit + (|tokens| - 1) * (1 - hit) else |tokens| * (1 - hit)
  {
    if tokens == [] {
    } else {
      LanePays(markets, w, tokens[..|tokens| - 1], win, hit);
    }
  }

  lemma UniqueWinner(markets: seq<Market>, part: Partition, w: World) returns (win: nat)
    requires |w| == |markets| && part.verifiedExhaustive && Respects(markets, w, part)
    ensures win < |part.markets|
    ensures forall j :: 0 <= j < |part.markets| ==> (YesTrue(markets, w, part.markets[j]) <==> j == win)
  {
    win :| 0 <= win < |part.markets| && YesTrue(markets, w, part.markets[win]);
    forall j | 0 <= j < |part.markets| && YesTrue(markets, w, part.markets[j]) ensures j == win {
      OnlyWinner(markets, w, part, win, j);
    }
  }

  /** With exactly one winner the YES set pays $1 and the NO set n - 1. */
  lemma SetsPay(markets: seq<Market>, part: Partition, w: World)
    requires |w| == |markets| && DistinctTokens(markets) && LanesMatch(markets, part)
    requires part.verifiedExhaustive && Respects(markets, w, part)
    ensures PayCount(markets, w, part.yesTokens) == 1
    ensures PayCount(markets, w, part.noTokens) == |part.noTokens| - 1
  {
    var win := UniqueWinner(markets, part, w);
    forall j | 0 <= j < |part.markets|
      ensures Pays(markets, w, part.yesTokens[j]) == if j == win then 1 else 0
      ensures Pays(markets, w, part.noTokens[j]) == if j == win then 0 else 1
    {
      MemberPays(markets, part, w, j);
    }
    LanePays(markets, w, part.yesTokens, win, 1);
    LanePays(markets, w, part.noTokens, win, 0);
  }

  lemma SetSettles(tokens: seq<TokenId>, markets: seq<Market>, books: map<TokenId, BookView>, p: EngineParams,
                   k: nat, gas: nat, cls: ArbClass, op: Opportunity, w: World)
    requires |w| == |markets| && op in WalkSet(tokens, markets, books, p, k * 1_000_000, gas, cls)
    requires PayCount(markets, w, tokens) == k
    ensures op.cls == cls && SettledNet(markets, w, op, gas) == op.net
    ensures Gated(op, p, p.floorC12) && NoShort(markets, op.splits, op.fills)
  {
    var legs := BuildLegs(tokens, markets, books).value;
    var b := Basket(legs, k * 1_000_000, 0, gas);
    ExactBuySettles(markets, w, b, k, cls, p, p.floorC12);
    assert op == IntoOpportunity(WalkSpec(b, p.maxBasis, p.minProfit, p.floorC12).value, cls);
  }

  lemma {:induction false} FeeIsOwners(markets: seq<Market>, t: TokenId)
    requires DistinctTokens(markets)
    ensures FeeOf(markets, t) ==
            match TokenIndex(markets, t) case None => None case Some(k) => Some(markets[k].feeBps)
  {
    if markets == [] {
    } else {
      var n := |markets| - 1;
      FeeIsOwners(markets[..n], t);
      var k, before := TokenIndex(markets, t), TokenIndex(markets[..n], t);
      if markets[n].yes == t || markets[n].no == t {
        assert k.Some? && k.value == n;
      } else if before.Some? {
        assert k.Some? && k.value == before.value;
      } else {
        assert forall i :: 0 <= i < n ==> markets[..n][i] == markets[i];
      }
    }
  }

  ghost predicate AllQuoted(markets: seq<Market>, books: map<TokenId, BookView>, tokens: seq<TokenId>) {
    forall i :: 0 <= i < |tokens| ==> HasQuotes(markets, books, tokens[i])
  }

  lemma AllQuotedNext(markets: seq<Market>, books: map<TokenId, BookView>, tokens: seq<TokenId>)
    requires tokens != []
    ensures var n := |tokens| - 1;
            AllQuoted(markets, books, tokens) <==>
            AllQuoted(markets, books, tokens[..n]) && HasQuotes(markets, books, tokens[n])
  {
    var n := |tokens| - 1;
    if AllQuoted(markets, books, tokens) {
      forall i | 0 <= i < n ensures HasQuotes(markets, books, tokens[..n][i]) {
        assert HasQuotes(markets, books, tokens[i]);
      }
    } else {
      var i :| 0 <= i < |tokens| && !HasQuotes(markets, books, tokens[i]);
      assert i < n ==> tokens[..n][i] == tokens[i];
    }
  }

  lemma QuotedLegsNext(markets: seq<Market>, books: map<TokenId, BookView>, tokens: seq<TokenId>, legs: seq<Leg>,
                       l: Leg)
    requires tokens != [] && QuotedLegs(markets, books, tokens[..|tokens| - 1], Buy, legs)
    requires QuotedLeg(markets, books, tokens[|tokens| - 1], Buy, l)
    ensures QuotedLegs(markets, books, tokens, Buy, legs + [l])
  {
    var all, n := legs + [l], |tokens| - 1;
    forall i | 0 <= i < |tokens| ensures QuotedLeg(markets, books, tokens[i], Buy, all[i]) {
      if i < n { assert QuotedLeg(markets, books, tokens[..n][i], Buy, legs[i]); }
    }
  }

  /** The legs built are the tokens' own quotes, and are built exactly when all have them. */
  lemma {:induction false} LegsAreQuoted(tokens: seq<TokenId>, markets: seq<Market>, books: map<TokenId, BookView>)
    requires DistinctTokens(markets)
    ensures BuildLegs(tokens, markets, books).Some? <==> AllQuoted(markets, books, tokens)
    ensures BuildLegs(tokens, markets, books).Some? ==>
              QuotedLegs(markets, books, tokens, Buy, BuildLegs(tokens, markets, books).value)
  {
    if tokens == [] {
    } else {
      var n := |tokens| - 1;
      var before, all := BuildLegs(tokens[..n], markets, books), BuildLegs(tokens, markets, books);
      LegsAreQuoted(tokens[..n], markets, books);
      AllQuotedNext(markets, books, tokens);
      FeeIsOwners(markets, tokens[n]);
      if all.Some? { QuotedLegsNext(markets, books, tokens, before.value, all.value[n]); }
    }
  }

  /** One set: sized on the tokens' own books, settling at its net where as many
      tokens pay as it was promised. */
  lemma SetHolds(tokens: seq<TokenId>, markets: seq<Market>, books: map<TokenId, BookView>, p: EngineParams, k: nat,
                 gas: nat, cls: ArbClass, op: Opportunity, w: World)
    requires |w| == |markets| && DistinctTokens(markets) && PayCount(markets, w, tokens) == k
    requires op in WalkSet(tokens, markets, books, p, k * 1_000_000, gas, cls)
    requires (cls == C2Long && gas == p.gas.redeem) || (cls == C2Short && gas == p.gas.negriskConvert)
    ensures Honest(markets, books, op) && BookNet(markets, books, p, w, op) == op.net
    ensures Gated(op, p, p.floorC12) && NoShort(markets, op.splits, op.fills)
  {
    SetSettles(tokens, markets, books, p, k, gas, cls, op, w);
    LegsAreQuoted(tokens, markets, books);
    var b := Basket(BuildLegs(tokens, markets, books).value, k * 1_000_000, 0, gas);
    WalkedIsHonest(markets, books, tokens, Buy, b, p.maxBasis, p.minProfit, p.floorC12);
    HonestNet(markets, books, p, w, op, gas);
  }

  /** Both sets are sized on the tokens' own books and settle at exactly their stated
      net in every world with one winner. */
  lemma NoLoss(part: Partition, markets: seq<Market>, books: map<TokenId, BookView>, p: EngineParams, op: Opportunity,
               w: World)
    requires |w| == |markets| && DistinctTokens(markets) && (part.IsWellFormed() ==> LanesMatch(markets, part))
    requires Respects(markets, w, part) && op in Detect(part, markets, books, p)
    ensures Honest(markets, books, op) && BookNet(markets, books, p, w, op) == op.net
    ensures Gated(op, p, p.floorC12) && NoShort(markets, op.splits, op.fills)
  {
    SetsPay(markets, part, w);
    if op in YesOps(part, markets, books, p) {
      SetHolds(part.yesTokens, markets, books, p, 1, p.gas.redeem, C2Long, op, w);
    } else {
      SetHolds(part.noTokens, markets, books, p, |part.yesTokens| - 1, p.gas.negriskConvert, C2Short, op, w);
    }
  }

  /** Worth buying the whole set for this many dollars a share. */
  ghost predicate SetWorth(markets: seq<Market>, books: map<TokenId, BookView>, tokens: seq<TokenId>, dollars: nat,
                           gas: nat, p: EngineParams) {
    Worthwhile(markets, books, tokens, Buy, dollars * 1_000_000, 0, gas, p, p.floorC12)
  }

  lemma SetEmitted(tokens: seq<TokenId>, markets: seq<Market>, books: map<TokenId, BookView>, p: EngineParams,
                   dollars: nat, gas: nat, cls: ArbClass)
    requires tokens != [] && DistinctTokens(markets) && I32_MIN <= p.floorC12 <= I32_MAX
    ensures var ops := WalkSet(tokens, markets, books, p, dollars * 1_000_000, gas, cls);
            && (forall k :: 0 <= k < |ops| ==> ops[k].cls == cls)
            && |ops| == if SetWorth(markets, books, tokens, dollars, gas, p) then 1 else 0
  {
    SetReported(tokens, markets, books, p, dollars * 1_000_000, gas, cls);
  }

  /** A verified partition's YES set is reported exactly when buying it for a dollar is
      worth it, its NO set exactly when buying it for all but one dollar is; any other
      partition reports nothing. */
  lemma EmittedExactly(part: Partition, markets: seq<Market>, books: map<TokenId, BookView>, p: EngineParams)
    requires DistinctTokens(markets) && I32_MIN <= p.floorC12 <= I32_MAX
    ensures if !part.verifiedExhaustive || !part.IsWellFormed() then Detect(part, markets, books, p) == []
            else EmitsJust(Detect(part, markets, books, p),
                           C2Long, SetWorth(markets, books, part.yesTokens, 1, p.gas.redeem, p),
                           C2Short, SetWorth(markets, books, part.noTokens, |part.markets| - 1, p.gas.negriskConvert,
                                             p))
  {
    if part.verifiedExhaustive && part.IsWellFormed() {
      YesEmitted(part, markets, books, p);
      NoEmitted(part, markets, books, p);
      EmitsTogether(YesOps(part, markets, books, p), NoOps(part, markets, books, p),
                    C2Long, SetWorth(markets, books, part.yesTokens, 1, p.gas.redeem, p),
                    C2Short, SetWorth(markets, books, part.noTokens, |part.markets| - 1, p.gas.negriskConvert, p));
    }
  }

  lemma YesEmitted(part: Partition, markets: seq<Market>, books: map<TokenId, BookView>, p: EngineParams)
    requires part.IsWellFormed() && DistinctTokens(markets) && I32_MIN <= p.floorC12 <= I32_MAX
    ensures var ops := YesOps(part, markets, books, p);
            && (forall k :: 0 <= k < |ops| ==> ops[k].cls == C2Long)
            && |ops| == if SetWorth(markets, books, part.yesTokens, 1, p.gas.redeem, p) then 1 else 0
  {
    SetEmitted(part.yesTokens, markets, books, p, 1, p.gas.redeem, C2Long);
  }

  lemma NoEmitted(part: Partition, markets: seq<Market>, books: map<TokenId, BookView>, p: EngineParams)
    requires part.IsWellFormed() && DistinctTokens(markets) && I32_MIN <= p.floorC12 <= I32_MAX
    ensures var ops := NoOps(part, markets, books, p);
            && (forall k :: 0 <= k < |ops| ==> ops[k].cls == C2Short)
            && |ops| == if SetWorth(markets, books, part.noTokens, |part.markets| - 1, p.gas.negriskConvert, p) then 1
                        else 0
  {
    var k: nat := |part.markets| - 1;
    assert NoOps(part, markets, books, p) ==
           WalkSet(part.noTokens, markets, books, p, k * 1_000_000, p.gas.negriskConvert, C2Short);
    SetEmitted(part.noTokens, markets, books, p, k, p.gas.negriskConvert, C2Short);
  }

  lemma SetReported(tokens: seq<TokenId>, markets: seq<Market>, books: map<TokenId, BookView>, p: EngineParams,
                    payout: nat, gas: nat, cls: ArbClass)
    requires tokens != [] && DistinctTokens(markets) && I32_MIN <= p.floorC12 <= I32_MAX
    ensures var ops := WalkSet(tokens, markets, books, p, payout, gas, cls);
            && |ops| <= 1 && (ops != [] ==> ops[0].cls == cls)
            && (ops != [] <==> Worthwhile(markets, books, tokens, Buy, payout, 0, gas, p, p.floorC12))
  {
    LegsAreQuoted(tokens, markets, books);
    match BuildLegs(tokens, markets, books)
    case Some(legs) => WalkedIffWorth(markets, books, tokens, Buy, Basket(legs, payout, 0, gas), p, p.floorC12);
    case None =>
      if Worthwhile(markets, books, tokens, Buy, payout, 0, gas, p, p.floorC12) {
        WorthwhileIsQuoted(markets, books, tokens, Buy, payout, 0, gas, p, p.floorC12);
      }
  }
}
