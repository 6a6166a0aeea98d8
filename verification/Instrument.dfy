/** Markets, partitions, relationships and sized opportunities, with the meaning
    of a resolution world: which token pays, and what a basket is worth in it. */
module Instrument {
  import opened Wrappers
  import opened Num

  type TokenId = nat
  type MarketId = nat

  datatype ComponentId = ComponentId(raw: nat)

  datatype Market = Market(id: MarketId, yes: TokenId, no: TokenId, tick: TickSize, feeBps: int, negRisk: bool)

  datatype Partition = Partition(event: nat, markets: seq<MarketId>, yesTokens: seq<TokenId>,
                                 noTokens: seq<TokenId>, verifiedExhaustive: bool, negRisk: bool)
  {
    predicate IsWellFormed() {
      |markets| >= 2 && |yesTokens| == |markets| && |noTokens| == |markets|
    }
  }

  datatype Relationship =
    | Implies(a: MarketId, b: MarketId)
    | MutuallyExclusive(a: MarketId, b: MarketId)
    | Equivalent(a: MarketId, b: MarketId)

  datatype ArbClass = C1Long | C1Short | C2Long | C2Short | C3Implies | C3MutEx | C3Equiv | C4Lp

  datatype LegFill = LegFill(token: TokenId, action: Action, ts: TickSize, limitPx: nat, qty: nat, cash: int)

  type Split = (MarketId, nat)

  datatype Opportunity = Opportunity(cls: ArbClass, fills: seq<LegFill>, units: nat, net: int,
                                     basis: int, edge: int, splits: seq<Split>)

  datatype GasTable = GasTable(split: nat, merge: nat, redeem: nat, negriskConvert: nat)

  datatype RedeemStrategy = Merge | Hold

  datatype EngineParams = EngineParams(floorC12: int, floorC3: int, minProfit: int, gas: GasTable,
                                       redeem: RedeemStrategy, maxBasis: int, maxWorlds: nat)

  // ----- lookup -----

  /** Position of the first market with this id. */
  function MarketIndex(markets: seq<Market>, id: MarketId): (r: Option<nat>)
    ensures r.Some? ==> r.value < |markets| && markets[r.value].id == id
    ensures r.None? <==> forall i :: 0 <= i < |markets| ==> markets[i].id != id
  {
    if markets == [] then None
    else if markets[0].id == id then Some(0)
    else match MarketIndex(markets[1..], id)
         case Some(i) => assert markets[1..][i] == markets[i + 1]; Some(i + 1)
         case None => assert forall i :: 1 <= i < |markets| ==> markets[i] == markets[1..][i - 1]; None
  }

  function FindMarket(markets: seq<Market>, id: MarketId): (r: Option<Market>)
    ensures r.Some? ==> r.value in markets && r.value.id == id
  {
    match MarketIndex(markets, id)
    case Some(i) => Some(markets[i])
    case None => None
  }

  /** Position of the first market that owns this token on either side. */
  function TokenIndex(markets: seq<Market>, token: TokenId): (r: Option<nat>)
    ensures r.Some? ==> r.value < |markets| && (markets[r.value].yes == token || markets[r.value].no == token)
    ensures r.None? <==> forall i :: 0 <= i < |markets| ==> markets[i].yes != token && markets[i].no != token
  {
    if markets == [] then None
    else if markets[0].yes == token || markets[0].no == token then Some(0)
    else match TokenIndex(markets[1..], token)
         case Some(i) => assert markets[1..][i] == markets[i + 1]; Some(i + 1)
         case None => assert forall i :: 1 <= i < |markets| ==> markets[i] == markets[1..][i - 1]; None
  }

  ghost predicate DistinctIds(markets: seq<Market>) {
    forall i, j :: 0 <= i < j < |markets| ==> markets[i].id != markets[j].id
  }

  ghost predicate DistinctTokens(markets: seq<Market>) {
    && (forall i :: 0 <= i < |markets| ==> markets[i].yes != markets[i].no)
    && (forall i, j :: 0 <= i < j < |markets| ==>
          && markets[i].yes != markets[j].yes && markets[i].yes != markets[j].no
          && markets[i].no != markets[j].yes && markets[i].no != markets[j].no)
  }

  lemma IndexOfId(markets: seq<Market>, i: nat)
    requires i < |markets| && DistinctIds(markets)
    ensures MarketIndex(markets, markets[i].id) == Some(i)
  {
    var r := MarketIndex(markets, markets[i].id);
    assert r.Some?;
    assert r.value == i;
  }

  // ----- resolution worlds -----

  /** Truth value of every market's YES outcome, in market order. */
  type World = seq<bool>

  function TokenPays(markets: seq<Market>, w: World, token: TokenId): Option<bool>
    requires |w| == |markets|
  {
    match TokenIndex(markets, token)
    case None => None
    case Some(i) => Some(if markets[i].yes == token then w[i] else !w[i])
  }

  function Pays(markets: seq<Market>, w: World, token: TokenId): int
    requires |w| == |markets|
  {
    if TokenPays(markets, w, token) == Some(true) then 1 else 0
  }

  lemma PaysOwnMarket(markets: seq<Market>, w: World, i: nat)
    requires |w| == |markets| && i < |markets| && DistinctTokens(markets)
    ensures Pays(markets, w, markets[i].yes) == (if w[i] then 1 else 0)
    ensures Pays(markets, w, markets[i].no) == (if w[i] then 0 else 1)
    ensures TokenIndex(markets, markets[i].yes) == TokenIndex(markets, markets[i].no) == Some(i)
  {
    var y, n := TokenIndex(markets, markets[i].yes), TokenIndex(markets, markets[i].no);
    assert y.Some? && n.Some?;
    assert y.value == i && n.value == i;
  }

  predicate YesTrue(markets: seq<Market>, w: World, id: MarketId)
    requires |w| == |markets|
  {
    var i := MarketIndex(markets, id);
    i.Some? && w[i.value]
  }

  /** A relationship that names a market outside the component constrains nothing. */
  predicate Satisfies(markets: seq<Market>, w: World, rel: Relationship)
    requires |w| == |markets|
  {
    (MarketIndex(markets, rel.a).Some? && MarketIndex(markets, rel.b).Some?) ==>
      var ta, tb := YesTrue(markets, w, rel.a), YesTrue(markets, w, rel.b);
      match rel
      case Implies(_, _) => ta ==> tb
      case MutuallyExclusive(_, _) => !(ta && tb)
      case Equivalent(_, _) => ta == tb
  }

  ghost predicate AtMostOneWinner(markets: seq<Market>, w: World, p: Partition)
    requires |w| == |markets|
  {
    forall i, j :: 0 <= i < j < |p.markets| ==>
      !(YesTrue(markets, w, p.markets[i]) && YesTrue(markets, w, p.markets[j]))
  }

  lemma OnlyWinner(markets: seq<Market>, w: World, p: Partition, i: nat, j: nat)
    requires |w| == |markets| && AtMostOneWinner(markets, w, p)
    requires i < |p.markets| && j < |p.markets|
    requires YesTrue(markets, w, p.markets[i]) && YesTrue(markets, w, p.markets[j])
    ensures i == j
  {
  }

  ghost predicate SomeWinner(markets: seq<Market>, w: World, p: Partition)
    requires |w| == |markets|
  {
    exists i :: 0 <= i < |p.markets| && YesTrue(markets, w, p.markets[i])
  }

  /** Exactly one YES in a verified-exhaustive partition, at most one otherwise. */
  ghost predicate Respects(markets: seq<Market>, w: World, p: Partition)
    requires |w| == |markets|
  {
    AtMostOneWinner(markets, w, p) && (p.verifiedExhaustive ==> SomeWinner(markets, w, p))
  }

  ghost predicate LegalWorld(markets: seq<Market>, partitions: seq<Partition>, relationships: seq<Relationship>,
                             w: World) {
    && |w| == |markets|
    && (forall p :: p in partitions ==> Respects(markets, w, p))
    && (forall rel :: rel in relationships ==> Satisfies(markets, w, rel))
  }

  // ----- what a basket holds and what it is worth -----

  /** Signed holding of one token after the splits. */
  function SplitHeld(markets: seq<Market>, splits: seq<Split>, token: TokenId): int {
    if splits == [] then 0
    else
      var s := splits[|splits| - 1];
      SplitHeld(markets, splits[..|splits| - 1], token)
      + match FindMarket(markets, s.0)
        case None => 0
        case Some(m) => (if m.yes == token then s.1 else 0) + (if m.no == token then s.1 else 0)
  }

  function Bought(fills: seq<LegFill>, token: TokenId): int {
    if fills == [] then 0
    else
      var f := fills[|fills| - 1];
      Bought(fills[..|fills| - 1], token) + if f.token == token && f.action == Buy then f.qty else 0
  }

  function Sold(fills: seq<LegFill>, token: TokenId): int {
    if fills == [] then 0
    else
      var f := fills[|fills| - 1];
      Sold(fills[..|fills| - 1], token) + if f.token == token && f.action == Sell then f.qty else 0
  }

  function Held(markets: seq<Market>, splits: seq<Split>, fills: seq<LegFill>, token: TokenId): int {
    SplitHeld(markets, splits, token) + Bought(fills, token) - Sold(fills, token)
  }

  /** No token ends net short. */
  ghost predicate NoShort(markets: seq<Market>, splits: seq<Split>, fills: seq<LegFill>) {
    forall t: TokenId :: Held(markets, splits, fills, t) >= 0
  }

  /** One micro-USDC per micro-share of every paying token, holding by holding. */
  function SplitPayoff(markets: seq<Market>, w: World, splits: seq<Split>): int
    requires |w| == |markets|
  {
    if splits == [] then 0
    else
      var s := splits[|splits| - 1];
      SplitPayoff(markets, w, splits[..|splits| - 1])
      + match FindMarket(markets, s.0)
        case None => 0
        case Some(m) => s.1 * Pays(markets, w, m.yes) + s.1 * Pays(markets, w, m.no)
  }

  function SignedQty(f: LegFill): int {
    if f.action == Buy then f.qty else 0 - f.qty
  }

  function FillPayoff(markets: seq<Market>, w: World, fills: seq<LegFill>): int
    requires |w| == |markets|
  {
    if fills == [] then 0
    else
      var f := fills[|fills| - 1];
      FillPayoff(markets, w, fills[..|fills| - 1])
      + SignedQty(f) * Pays(markets, w, f.token)
  }

  function SplitCost(splits: seq<Split>): nat {
    if splits == [] then 0 else SplitCost(splits[..|splits| - 1]) + splits[|splits| - 1].1
  }

  function FillsCash(fills: seq<LegFill>): int {
    if fills == [] then 0 else FillsCash(fills[..|fills| - 1]) + fills[|fills| - 1].cash
  }

  /** What an opportunity nets when the world turns out to be w: cash of its
      legs, minus split collateral, plus resolution payoff, minus gas. */
  function SettledNet(markets: seq<Market>, w: World, op: Opportunity, gas: int): int
    requires |w| == |markets|
  {
    FillsCash(op.fills) - SplitCost(op.splits)
    + SplitPayoff(markets, w, op.splits) + FillPayoff(markets, w, op.fills) - gas
  }
}
