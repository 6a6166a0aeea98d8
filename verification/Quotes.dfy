/** What an opportunity promises, read off the books and the markets alone: which
    quotes each fill takes, at what cash, what the whole is worth in a world. */
module Quotes {
  import opened Wrappers
  import opened Num
  import opened Instrument
  import opened Book
  import opened Walker
  import opened Baskets
  import opened Execution
  import opened WalkerStop
  import opened Emission

  // ----- one fill -----

  /** Buys take asks, sells hit bids. */
  function SideTaken(book: BookView, action: Action): seq<Level> {
    match action case Buy => book.asks case Sell => book.bids
  }

  ghost predicate HasQuotes(markets: seq<Market>, books: map<TokenId, BookView>, t: TokenId) {
    t in books && TokenIndex(markets, t).Some?
  }

  /** Cash of taking qty of t at its book, at the fee rate of the market that owns t. */
  function BookCash(markets: seq<Market>, books: map<TokenId, BookView>, t: TokenId, action: Action, qty: nat): int {
    if t !in books then 0
    else
      match TokenIndex(markets, t)
      case None => 0
      case Some(k) => TakerCash(action, markets[k].feeBps, books[t].ts, SideTaken(books[t], action), qty)
  }

  /** f takes the best of its token's book, for a taker's cash and no worse a limit than it needs. */
  ghost predicate AtBook(markets: seq<Market>, books: map<TokenId, BookView>, f: LegFill) {
    && HasQuotes(markets, books, f.token) && f.qty > 0 && f.ts == books[f.token].ts
    && IsLimit(SideTaken(books[f.token], f.action), f.qty, f.limitPx)
    && f.cash == BookCash(markets, books, f.token, f.action, f.qty)
  }

  // ----- a whole opportunity -----

  /** What settling an opportunity costs on chain. */
  function GasDue(p: EngineParams, op: Opportunity): nat {
    match op.cls
    case C1Long => (match p.redeem case Merge => p.gas.merge case Hold => p.gas.redeem)
    case C1Short => p.gas.split
    case C2Long => p.gas.redeem
    case C2Short => p.gas.negriskConvert
    case C3Implies | C3MutEx | C3Equiv => p.gas.redeem
    case C4Lp => Min(|op.splits| * p.gas.split, U64_MAX) + p.gas.redeem
  }

  function BooksCash(markets: seq<Market>, books: map<TokenId, BookView>, fills: seq<LegFill>): int {
    if fills == [] then 0
    else
      var f := fills[|fills| - 1];
      BooksCash(markets, books, fills[..|fills| - 1]) + BookCash(markets, books, f.token, f.action, f.qty)
  }

  function BooksOutlay(markets: seq<Market>, books: map<TokenId, BookView>, fills: seq<LegFill>): int {
    if fills == [] then 0
    else
      var f := fills[|fills| - 1];
      BooksOutlay(markets, books, fills[..|fills| - 1])
      + if f.action == Buy then 0 - BookCash(markets, books, f.token, f.action, f.qty) else 0
  }

  /** Net in w of executing op at these books: nothing of op's own accounting is used. */
  function BookNet(markets: seq<Market>, books: map<TokenId, BookView>, p: EngineParams, w: World, op: Opportunity): int
    requires |w| == |markets|
  {
    BooksCash(markets, books, op.fills) - SplitCost(op.splits)
    + SplitPayoff(markets, w, op.splits) + FillPayoff(markets, w, op.fills) - GasDue(p, op)
  }

  /** op states the truth about itself: every fill is at the books for the stated
      units, and the basis is what buying and splitting takes out of pocket. */
  ghost predicate Honest(markets: seq<Market>, books: map<TokenId, BookView>, op: Opportunity) {
    && op.units > 0 && (forall f :: f in op.fills ==> AtBook(markets, books, f) && f.qty == op.units)
    && op.basis == BooksOutlay(markets, books, op.fills) + SplitCost(op.splits)
  }

  lemma {:induction false} StatedCashIsBookCash(markets: seq<Market>, books: map<TokenId, BookView>,
                                                fills: seq<LegFill>)
    requires forall f :: f in fills ==> AtBook(markets, books, f)
    ensures FillsCash(fills) == BooksCash(markets, books, fills)
  {
    if fills == [] {
    } else {
      var n := |fills| - 1;
      assert fills[n] in fills && forall f :: f in fills[..n] ==> f in fills;
      StatedCashIsBookCash(markets, books, fills[..n]);
    }
  }

  /** An honest opportunity's stated cash settles it at what the books say. */
  lemma HonestNet(markets: seq<Market>, books: map<TokenId, BookView>, p: EngineParams, w: World, op: Opportunity,
                  gas: nat)
    requires |w| == |markets| && Honest(markets, books, op) && gas == GasDue(p, op)
    ensures BookNet(markets, books, p, w, op) == SettledNet(markets, w, op, gas)
  {
    StatedCashIsBookCash(markets, books, op.fills);
  }

  // ----- legs and baskets made of quotes -----

  ghost predicate QuotedLeg(markets: seq<Market>, books: map<TokenId, BookView>, t: TokenId, action: Action, l: Leg) {
    && HasQuotes(markets, books, t)
    && l == Leg(t, action, books[t].ts, markets[TokenIndex(markets, t).value].feeBps, SideTaken(books[t], action))
  }

  ghost predicate QuotedLegs(markets: seq<Market>, books: map<TokenId, BookView>, tokens: seq<TokenId>, action: Action,
                             legs: seq<Leg>) {
    && |legs| == |tokens|
    && forall i :: 0 <= i < |tokens| ==> QuotedLeg(markets, books, tokens[i], action, legs[i])
  }

  lemma LegFillsAtBook(markets: seq<Market>, books: map<TokenId, BookView>, t: TokenId, action: Action, l: Leg,
                       f: LegFill, u: nat)
    requires QuotedLeg(markets, books, t, action, l) && FillsLeg(f, l, u) && u > 0
    ensures AtBook(markets, books, f) && f.qty == u && f.token == t && f.action == action
  {
  }

  lemma {:induction false} LegsOutlay(markets: seq<Market>, books: map<TokenId, BookView>, tokens: seq<TokenId>,
                                      action: Action, legs: seq<Leg>, fills: seq<LegFill>, u: nat)
    requires QuotedLegs(markets, books, tokens, action, legs) && |fills| == |legs|
    requires forall i :: 0 <= i < |legs| ==> FillsLeg(fills[i], legs[i], u)
    ensures TakerOutlay(legs, u) == BooksOutlay(markets, books, fills)
  {
    if legs == [] {
    } else {
      var n := |legs| - 1;
      LegsOutlay(markets, books, tokens[..n], action, legs[..n], fills[..n], u);
      assert QuotedLeg(markets, books, tokens[n], action, legs[n]) && FillsLeg(fills[n], legs[n], u);
    }
  }

  /** r takes the quotes of these tokens, all at one size, and its basis is the
      outlay with that much collateral a share. */
  ghost predicate TakesQuotes(markets: seq<Market>, books: map<TokenId, BookView>, tokens: seq<TokenId>, action: Action,
                              collateral: nat, r: WalkResult) {
    && r.units > 0 && |r.fills| == |tokens|
    && (forall i :: 0 <= i < |tokens| ==> r.fills[i].token == tokens[i] && r.fills[i].action == action)
    && (forall f :: f in r.fills ==> AtBook(markets, books, f) && f.qty == r.units)
    && r.basis == BooksOutlay(markets, books, r.fills) + DivCeil(collateral * r.units, 1_000_000)
  }

  /** Whatever the walk returns for quoted legs takes those quotes. */
  lemma WalkedIsHonest(markets: seq<Market>, books: map<TokenId, BookView>, tokens: seq<TokenId>, action: Action,
                       b: Basket, maxBasis: int, minProfit: int, floor: int)
    requires QuotedLegs(markets, books, tokens, action, b.legs) && WalkSpec(b, maxBasis, minProfit, floor).Some?
    ensures TakesQuotes(markets, books, tokens, action, b.collateral, WalkSpec(b, maxBasis, minProfit, floor).value)
  {
    WalkedFills(b, maxBasis, minProfit, floor);
    WalkedFacts(b, maxBasis, minProfit, floor);
    var r := WalkSpec(b, maxBasis, minProfit, floor).value;
    forall i | 0 <= i < |tokens|
      ensures AtBook(markets, books, r.fills[i]) && r.fills[i].qty == r.units
      ensures r.fills[i].token == tokens[i] && r.fills[i].action == action
    {
      LegFillsAtBook(markets, books, tokens[i], action, b.legs[i], r.fills[i], r.units);
    }
    LegsOutlay(markets, books, tokens, action, b.legs, r.fills, r.units);
    OutlayIsTakers(b.legs, r.units);
  }

  // ----- when a basket is worth reporting -----

  /** Both gates clear where the basket's ladders and the cap stop. */
  ghost predicate ClearsAtStop(b: Basket, maxBasis: int, minProfit: int, floor: int) {
    exists e: nat :: IsStop(b, maxBasis, e) && ClearsAt(b, minProfit, floor, e)
  }

  lemma ReportedIffClears(b: Basket, maxBasis: int, minProfit: int, floor: int)
    requires b.legs != [] && I32_MIN <= floor <= I32_MAX
    ensures WalkSpec(b, maxBasis, minProfit, floor).Some? <==> ClearsAtStop(b, maxBasis, minProfit, floor)
  {
    var u := Units(b, maxBasis);
    UnitsIsTheStop(b, maxBasis, u);
    ReportedExactly(b, maxBasis, minProfit, floor, u);
    forall e: nat | IsStop(b, maxBasis, e) ensures e == u { UnitsIsTheStop(b, maxBasis, e); }
  }

  /** Taking the quotes of all these tokens, for this payout and collateral a share
      and this gas, clears both gates where ladders and cap stop. */
  ghost predicate Worthwhile(markets: seq<Market>, books: map<TokenId, BookView>, tokens: seq<TokenId>, action: Action,
                              payout: nat, collateral: nat, gas: nat, p: EngineParams, floor: int) {
    exists legs :: QuotedLegs(markets, books, tokens, action, legs)
                   && ClearsAtStop(Basket(legs, payout, collateral, gas), p.maxBasis, p.minProfit, floor)
  }

  lemma QuotedLegsUnique(markets: seq<Market>, books: map<TokenId, BookView>, tokens: seq<TokenId>, action: Action,
                         a: seq<Leg>, b: seq<Leg>)
    requires QuotedLegs(markets, books, tokens, action, a) && QuotedLegs(markets, books, tokens, action, b)
    ensures a == b
  {
    forall i | 0 <= i < |tokens| ensures a[i] == b[i] {
      assert QuotedLeg(markets, books, tokens[i], action, a[i]) && QuotedLeg(markets, books, tokens[i], action, b[i]);
    }
  }

  lemma WorthwhileIsQuoted(markets: seq<Market>, books: map<TokenId, BookView>, tokens: seq<TokenId>, action: Action,
                           payout: nat, collateral: nat, gas: nat, p: EngineParams, floor: int)
    requires Worthwhile(markets, books, tokens, action, payout, collateral, gas, p, floor)
    ensures forall t :: t in tokens ==> HasQuotes(markets, books, t)
  {
    var legs :| QuotedLegs(markets, books, tokens, action, legs);
    forall i | 0 <= i < |tokens| ensures HasQuotes(markets, books, tokens[i]) {
      assert QuotedLeg(markets, books, tokens[i], action, legs[i]);
    }
  }

  /** The walk of the quoted legs reports exactly what is worth taking. */
  lemma WalkedIffWorth(markets: seq<Market>, books: map<TokenId, BookView>, tokens: seq<TokenId>, action: Action,
                       b: Basket, p: EngineParams, floor: int)
    requires tokens != [] && QuotedLegs(markets, books, tokens, action, b.legs) && I32_MIN <= floor <= I32_MAX
    ensures WalkSpec(b, p.maxBasis, p.minProfit, floor).Some? <==>
            Worthwhile(markets, books, tokens, action, b.payout, b.collateral, b.gas, p, floor)
  {
    ReportedIffClears(b, p.maxBasis, p.minProfit, floor);
    assert b == Basket(b.legs, b.payout, b.collateral, b.gas);
    forall legs | QuotedLegs(markets, books, tokens, action, legs) ensures legs == b.legs {
      QuotedLegsUnique(markets, books, tokens, action, legs, b.legs);
    }
  }
}
