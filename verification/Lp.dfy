/** The component solver around the linear program: whatever numbers the solver
    returns, they are floored, clamped to depth and to holdings, and re-validated
    exactly over every legal world. */
module Lp {
  import opened Wrappers
  import opened Num
  import opened Instrument
  import opened Book
  import opened Sequences
  import opened Worlds
  import opened Enumerate
  import opened Revalidate

  datatype SkipReason = TooManyWorlds | SolverFailed

  datatype LpResult = Found(op: Opportunity) | NoEdge | Skipped(reason: SkipReason)

  /** One trade variable of the program: a book level seen from one action. */
  datatype TradeVar = TradeVar(token: TokenId, action: Action, ts: TickSize, level: Level)

  // ----- variables -----

  function SideVars(token: TokenId, action: Action, ts: TickSize, levels: seq<Level>): seq<TradeVar> {
    seq(|levels|, i requires 0 <= i < |levels| => TradeVar(token, action, ts, levels[i]))
  }

  function TokenVars(books: map<TokenId, BookView>, token: TokenId): seq<TradeVar> {
    if token !in books then []
    else
      var b := books[token];
      SideVars(token, Buy, b.ts, b.asks) + SideVars(token, Sell, b.ts, b.bids)
  }

  /** Variables of the first n markets, in market order, YES token before NO. */
  function TradeVars(c: Component, n: nat): seq<TradeVar>
    requires n <= |c.markets|
  {
    if n == 0 then []
    else
      var m := c.markets[n - 1];
      TradeVars(c, n - 1) + TokenVars(c.books, m.yes) + TokenVars(c.books, m.no)
  }

  function Vars(c: Component): seq<TradeVar> {
    TradeVars(c, |c.markets|)
  }

  ghost predicate Quoted(c: Component, v: TradeVar) {
    && v.token in c.books && v.ts == c.books[v.token].ts
    && v.level in (if v.action == Buy then c.books[v.token].asks else c.books[v.token].bids)
  }

  /** Two variables never name the same price level of the same book side. */
  ghost predicate DistinctLevels(vars: seq<TradeVar>) {
    forall i, j :: 0 <= i < j < |vars| ==>
      vars[i].token != vars[j].token || vars[i].action != vars[j].action || vars[i].level.px != vars[j].level.px
  }

  lemma TokenVarsQuoted(c: Component, token: TokenId)
    requires ValidComponent(c)
    ensures forall v :: v in TokenVars(c.books, token) ==> v.token == token && Quoted(c, v)
    ensures DistinctLevels(TokenVars(c.books, token))
  {
    if token in c.books {
      var b := c.books[token];
      assert b.Valid();
      var buys, sells := SideVars(token, Buy, b.ts, b.asks), SideVars(token, Sell, b.ts, b.bids);
      assert TokenVars(c.books, token) == buys + sells;
      assert forall v :: v in buys ==> v.token == token && Quoted(c, v);
      assert forall v :: v in sells ==> v.token == token && Quoted(c, v);
      DistinctConcat(buys, sells);
    }
  }

  lemma DistinctConcat(a: seq<TradeVar>, b: seq<TradeVar>)
    requires DistinctLevels(a) && DistinctLevels(b)
    requires forall u, v :: u in a && v in b ==> u.token != v.token || u.action != v.action
    ensures DistinctLevels(a + b)
  {
    var s := a + b;
    forall i, j | 0 <= i < j < |s|
      ensures s[i].token != s[j].token || s[i].action != s[j].action || s[i].level.px != s[j].level.px
    {
      if i < |a| <= j { assert a[i] in a && b[j - |a|] in b; }
    }
  }

  lemma {:induction false} VarsQuoted(c: Component, n: nat)
    requires ValidComponent(c) && n <= |c.markets|
    ensures forall v :: v in TradeVars(c, n) ==>
        Quoted(c, v) && exists i :: 0 <= i < n && v.token in {c.markets[i].yes, c.markets[i].no}
    ensures DistinctLevels(TradeVars(c, n))
  {
    if n == 0 {
    } else {
      var m := c.markets[n - 1];
      var before, yes, no := TradeVars(c, n - 1), TokenVars(c.books, m.yes), TokenVars(c.books, m.no);
      VarsQuoted(c, n - 1);
      TokenVarsQuoted(c, m.yes);
      TokenVarsQuoted(c, m.no);
      DistinctConcat(before, yes);
      DistinctConcat(before + yes, no);
    }
  }

  // ----- from solver output to a basket -----

  function CashAtPrice(action: Action, pm: nat, qty: nat): int {
    if action == Buy then 0 - BuyCost(pm, qty) else SellProceeds(pm, qty)
  }

  function FillOf(v: TradeVar, qty: nat): LegFill {
    var px := MicroUsdc(v.level.px, v.ts) / v.ts.Unit();
    LegFill(v.token, v.action, v.ts, px, qty, CashAtPrice(v.action, MicroUsdc(v.level.px, v.ts), qty))
  }

  /** Fills for the floored solver values, each clamped to its level's depth. */
  function Extracted(vars: seq<TradeVar>, raw: seq<nat>): seq<LegFill>
    requires |vars| <= |raw|
  {
    if vars == [] then []
    else
      var n := |vars| - 1;
      var qty := Min(raw[n], vars[n].level.qty);
      Extracted(vars[..n], raw) + if qty > 0 then [FillOf(vars[n], qty)] else []
  }

  function SplitsFrom(markets: seq<Market>, raw: seq<nat>): seq<Split>
    requires |markets| <= |raw|
  {
    if markets == [] then []
    else
      var n := |markets| - 1;
      SplitsFrom(markets[..n], raw) + if raw[n] > 0 then [(markets[n].id, raw[n])] else []
  }

  /** The first i fills with every sell clamped to what splits and buys leave
      after the sells before it. */
  function ClampedSells(markets: seq<Market>, splits: seq<Split>, fills: seq<LegFill>, i: nat): (r: seq<LegFill>)
    requires i <= |fills|
    ensures |r| == i
    ensures forall k :: 0 <= k < i ==> SameLeg(r[k], fills[k])
    ensures forall t: TokenId :: Bought(r, t) == Bought(fills[..i], t)
    ensures forall t: TokenId :: Sold(r, t) <= Max(0, SplitHeld(markets, splits, t) + Bought(fills, t))
  {
    if i == 0 then []
    else
      var before := ClampedSells(markets, splits, fills, i - 1);
      var f := fills[i - 1];
      assert fills[..i][..i - 1] == fills[..i - 1];
      if f.action == Buy then before + [f]
      else
        var avail := Max(0, SplitHeld(markets, splits, f.token) + Bought(fills, f.token) - Sold(before, f.token));
        before + [Clamped(f, avail)]
  }

  function Clamped(f: LegFill, avail: nat): LegFill {
    var qty := Min(f.qty, avail);
    f.(qty := qty, cash := SellProceeds(MicroUsdc(f.limitPx, f.ts), qty))
  }

  /** Same leg, at most the quantity. */
  predicate SameLeg(f: LegFill, g: LegFill) {
    && f.token == g.token && f.action == g.action && f.ts == g.ts && f.limitPx == g.limitPx
    && f.qty <= g.qty && (f.action == Buy ==> f == g)
  }

  const NON_ZERO: LegFill -> bool := (f: LegFill) => f.qty > 0

  function BasketFills(c: Component, raw: seq<nat>): seq<LegFill>
    requires |raw| == |Vars(c)| + |c.markets|
  {
    var fills := Extracted(Vars(c), raw);
    Filter(ClampedSells(c.markets, BasketSplits(c, raw), fills, |fills|), NON_ZERO)
  }

  function BasketSplits(c: Component, raw: seq<nat>): seq<Split>
    requires |raw| == |Vars(c)| + |c.markets|
  {
    SplitsFrom(c.markets, raw[|Vars(c)|..])
  }

  function BasketGas(p: EngineParams, splits: seq<Split>): nat {
    Min(|splits| * p.gas.split, U64_MAX) + p.gas.redeem
  }

  // ----- what clamping guarantees -----

  /** A fill rests within the quoted depth at its own price. */
  ghost predicate InDepth(c: Component, f: LegFill) {
    && f.token in c.books && f.ts == c.books[f.token].ts && ValidPx(f.limitPx, f.ts)
    && TokenIndex(c.markets, f.token).Some?
    && exists l :: l in (if f.action == Buy then c.books[f.token].asks else c.books[f.token].bids)
                   && l.px == f.limitPx && f.qty <= l.qty
  }

  /** At most one fill per level, so the fills together stay within depth. */
  ghost predicate OneFillPerLevel(fills: seq<LegFill>) {
    forall i, j :: 0 <= i < j < |fills| ==>
      fills[i].token != fills[j].token || fills[i].action != fills[j].action || fills[i].limitPx != fills[j].limitPx
  }

  ghost predicate WithinDepth(c: Component, fills: seq<LegFill>) {
    (forall f :: f in fills ==> InDepth(c, f)) && OneFillPerLevel(fills)
  }

  ghost predicate FromVar(f: LegFill, v: TradeVar) {
    && f.token == v.token && f.action == v.action && f.ts == v.ts
    && f.limitPx == v.level.px && f.qty <= v.level.qty
  }

  ghost predicate VarsValid(vars: seq<TradeVar>) {
    forall v :: v in vars ==> ValidPx(v.level.px, v.ts)
  }

  lemma {:induction false} ExtractedFromVars(vars: seq<TradeVar>, raw: seq<nat>)
    requires |vars| <= |raw| && VarsValid(vars) && DistinctLevels(vars)
    ensures forall f :: f in Extracted(vars, raw) ==> exists v :: v in vars && FromVar(f, v)
    ensures OneFillPerLevel(Extracted(vars, raw))
  {
    if vars == [] {
    } else {
      var n := |vars| - 1;
      assert vars[n] in vars && forall v :: v in vars[..n] ==> v in vars;
      ExtractedFromVars(vars[..n], raw);
      MicroUsdcInterior(vars[n].level.px, vars[n].ts);
      var before := Extracted(vars[..n], raw);
      forall k | 0 <= k < |before|
        ensures before[k].token != vars[n].token || before[k].action != vars[n].action ||
            before[k].limitPx != vars[n].level.px
      {
        assert before[k] in before;
        var v :| v in vars[..n] && FromVar(before[k], v);
      }
    }
  }

  lemma ExtractedInDepth(c: Component, raw: seq<nat>)
    requires ValidComponent(c) && |Vars(c)| <= |raw|
    ensures WithinDepth(c, Extracted(Vars(c), raw))
  {
    VarsQuoted(c, |c.markets|);
    forall v | v in Vars(c) ensures ValidPx(v.level.px, v.ts) {
      assert Quoted(c, v) && c.books[v.token].Valid();
    }
    ExtractedFromVars(Vars(c), raw);
    forall f | f in Extracted(Vars(c), raw) ensures InDepth(c, f) {
      var v :| v in Vars(c) && FromVar(f, v);
      assert Quoted(c, v) && c.books[v.token].Valid();
    }
  }

  lemma ClampedInDepth(c: Component, splits: seq<Split>, fills: seq<LegFill>)
    requires WithinDepth(c, fills)
    ensures WithinDepth(c, ClampedSells(c.markets, splits, fills, |fills|))
  {
    var r := ClampedSells(c.markets, splits, fills, |fills|);
    forall k | 0 <= k < |r| ensures InDepth(c, r[k]) {
      assert SameLeg(r[k], fills[k]) && fills[k] in fills;
    }
    forall i, j | 0 <= i < j < |r|
      ensures r[i].token != r[j].token || r[i].action != r[j].action || r[i].limitPx != r[j].limitPx
    {
      assert SameLeg(r[i], fills[i]) && SameLeg(r[j], fills[j]);
    }
  }

  lemma Appended(fills: seq<LegFill>, f: LegFill)
    ensures forall t: TokenId ::
        Bought(fills + [f], t) == Bought(fills, t) + if f.token == t && f.action == Buy then f.qty else 0
    ensures forall t: TokenId ::
        Sold(fills + [f], t) == Sold(fills, t) + if f.token == t && f.action == Sell then f.qty else 0
  {
    assert (fills + [f])[..|fills|] == fills;
  }

  lemma {:induction false} DroppingZerosKeepsHoldings(fills: seq<LegFill>, t: TokenId)
    ensures Bought(Filter(fills, NON_ZERO), t) == Bought(fills, t)
    ensures Sold(Filter(fills, NON_ZERO), t) == Sold(fills, t)
  {
    if fills == [] {
    } else {
      var n := |fills| - 1;
      DroppingZerosKeepsHoldings(fills[..n], t);
      var before := Filter(fills[..n], NON_ZERO);
      Appended(before, fills[n]);
      assert before + [] == before;
    }
  }

  lemma {:induction false} DroppingZerosKeepsDepth(fills: seq<LegFill>)
    requires OneFillPerLevel(fills)
    ensures forall f :: f in Filter(fills, NON_ZERO) ==> f in fills && f.qty > 0
    ensures OneFillPerLevel(Filter(fills, NON_ZERO))
  {
    if fills == [] {
    } else {
      var n := |fills| - 1;
      DroppingZerosKeepsDepth(fills[..n]);
      var before := Filter(fills[..n], NON_ZERO);
      forall k | 0 <= k < |before|
        ensures before[k].token != fills[n].token || before[k].action != fills[n].action ||
            before[k].limitPx != fills[n].limitPx
      {
        assert before[k] in before;
        var i :| 0 <= i < n && fills[i] == before[k];
      }
    }
  }

  lemma {:induction false} SplitsFromMarkets(c: Component, markets: seq<Market>, raw: seq<nat>)
    requires |markets| <= |raw| && forall m :: m in markets ==> FindMarket(c.markets, m.id).Some?
    ensures forall s :: s in SplitsFrom(markets, raw) ==> FindMarket(c.markets, s.0).Some?
  {
    if markets == [] {
    } else {
      assert markets[|markets| - 1] in markets;
      SplitsFromMarkets(c, markets[..|markets| - 1], raw);
    }
  }

  lemma {:induction false} SplitHeldNonNegative(markets: seq<Market>, splits: seq<Split>, t: TokenId)
    ensures SplitHeld(markets, splits, t) >= 0
  {
    if splits == [] {
    } else {
      SplitHeldNonNegative(markets, splits[..|splits| - 1], t);
    }
  }

  lemma {:induction false} BoughtNonNegative(fills: seq<LegFill>, t: TokenId)
    ensures Bought(fills, t) >= 0
  {
    if fills == [] {
    } else {
      BoughtNonNegative(fills[..|fills| - 1], t);
    }
  }

  /** For every solver output the clamped basket is within depth, fully known and never net short. */
  lemma BasketIsSound(c: Component, raw: seq<nat>)
    requires ValidComponent(c) && |raw| == |Vars(c)| + |c.markets|
    ensures WithinDepth(c, BasketFills(c, raw))
    ensures AllKnown(c, BasketSplits(c, raw), BasketFills(c, raw))
    ensures NoShort(c.markets, BasketSplits(c, raw), BasketFills(c, raw))
  {
    var extracted, splits := Extracted(Vars(c), raw), BasketSplits(c, raw);
    var clamped := ClampedSells(c.markets, splits, extracted, |extracted|);
    ExtractedInDepth(c, raw);
    ClampedInDepth(c, splits, extracted);
    SplitsFromMarkets(c, c.markets, raw[|Vars(c)|..]);
    assert extracted[..|extracted|] == extracted;
    forall t: TokenId ensures Held(c.markets, splits, BasketFills(c, raw), t) >= 0 {
      DroppingZerosKeepsHoldings(clamped, t);
      SplitHeldNonNegative(c.markets, splits, t);
      BoughtNonNegative(extracted, t);
    }
    DroppingZerosKeepsDepth(clamped);
  }

  // ----- the extraction and clamping loops -----

  method ExtractFills(vars: seq<TradeVar>, raw: seq<nat>) returns (fills: seq<LegFill>)
    requires |vars| <= |raw|
    ensures fills == Extracted(vars, raw)
  {
    fills := [];
    for i := 0 to |vars|
      invariant fills == Extracted(vars[..i], raw)
    {
      assert vars[..i + 1][..i] == vars[..i];
      var qty := Min(raw[i], vars[i].level.qty);
      if qty > 0 {
        fills := fills + [FillOf(vars[i], qty)];
      }
    }
    assert vars[..|vars|] == vars;
  }

  method GatherSplits(markets: seq<Market>, raw: seq<nat>) returns (splits: seq<Split>)
    requires |markets| <= |raw|
    ensures splits == SplitsFrom(markets, raw)
  {
    splits := [];
    for i := 0 to |markets|
      invariant splits == SplitsFrom(markets[..i], raw)
    {
      assert markets[..i + 1][..i] == markets[..i];
      if raw[i] > 0 {
        splits := splits + [(markets[i].id, raw[i])];
      }
    }
    assert markets[..|markets|] == markets;
  }

  /** Shares on hand before any sell: splits plus buys, token by token. */
  method InitialHoldings(markets: seq<Market>, splits: seq<Split>, fills: seq<LegFill>) returns (holdings: Holdings)
    ensures forall t: TokenId :: At(holdings, t) == SplitHeld(markets, splits, t) + Bought(fills, t)
  {
    holdings := map[];
    for i := 0 to |splits|
      invariant forall t: TokenId :: At(holdings, t) == SplitHeld(markets, splits[..i], t)
    {
      assert splits[..i + 1][..i] == splits[..i];
      match FindMarket(markets, splits[i].0) {
        case None =>
        case Some(m) =>
          holdings := Add(Add(holdings, m.yes, splits[i].1), m.no, splits[i].1);
      }
    }
    assert splits[..|splits|] == splits;
    for i := 0 to |fills|
      invariant forall t: TokenId :: At(holdings, t) == SplitHeld(markets, splits, t) + Bought(fills[..i], t)
    {
      assert fills[..i + 1][..i] == fills[..i];
      if fills[i].action == Buy {
        holdings := Add(holdings, fills[i].token, fills[i].qty);
      }
    }
    assert fills[..|fills|] == fills;
  }

  /** One clamp: the sell takes at most what is on hand, and what it takes is gone. */
  method ClampOne(f: LegFill, holdings: Holdings) returns (g: LegFill, left: Holdings)
    requires At(holdings, f.token) >= 0
    ensures g == ClampedTo(f, At(holdings, f.token))
    ensures forall t: TokenId :: At(left, t) == At(holdings, t) - if g.token == t && g.action == Sell then g.qty else 0
  {
    g, left := f, holdings;
    if f.action == Sell {
      var avail := At(holdings, f.token);
      g := Clamped(f, avail);
      left := Add(holdings, f.token, 0 - g.qty);
    }
  }

  /** What splits and buys leave after the sells done so far. */
  ghost predicate Remains(holdings: Holdings, markets: seq<Market>, splits: seq<Split>, extracted: seq<LegFill>,
                          done: seq<LegFill>) {
    forall t: TokenId :: At(holdings, t) == SplitHeld(markets, splits, t) + Bought(extracted, t) - Sold(done, t)
  }

  function ClampedTo(f: LegFill, avail: nat): LegFill {
    if f.action == Buy then f else Clamped(f, avail)
  }

  lemma ClampedNext(holdings: Holdings, markets: seq<Market>, splits: seq<Split>, extracted: seq<LegFill>, i: nat)
    requires i < |extracted| && Remains(holdings, markets, splits, extracted,
        ClampedSells(markets, splits, extracted, i))
    ensures At(holdings, extracted[i].token) >= 0
    ensures ClampedSells(markets, splits, extracted, i + 1) ==
            ClampedSells(markets, splits, extracted, i) + [ClampedTo(extracted[i], At(holdings, extracted[i].token))]
  {
    SplitHeldNonNegative(markets, splits, extracted[i].token);
    BoughtNonNegative(extracted, extracted[i].token);
  }

  lemma RemainsNext(holdings: Holdings, left: Holdings, markets: seq<Market>, splits: seq<Split>,
                    extracted: seq<LegFill>, done: seq<LegFill>, g: LegFill)
    requires Remains(holdings, markets, splits, extracted, done)
    requires forall t: TokenId :: At(left, t) == At(holdings, t) - if g.token == t && g.action == Sell then g.qty else 0
    ensures Remains(left, markets, splits, extracted, done + [g])
  {
    Appended(done, g);
  }

  method ClampSells(markets: seq<Market>, splits: seq<Split>, extracted: seq<LegFill>) returns (fills: seq<LegFill>)
    ensures fills == ClampedSells(markets, splits, extracted, |extracted|)
  {
    fills := extracted;
    var holdings := InitialHoldings(markets, splits, extracted);
    for i := 0 to |fills|
      invariant |fills| == |extracted| && fills[i..] == extracted[i..]
      invariant fills[..i] == ClampedSells(markets, splits, extracted, i)
      invariant Remains(holdings, markets, splits, extracted, fills[..i])
    {
      ghost var before := fills[..i];
      assert fills[i] == extracted[i];
      ClampedNext(holdings, markets, splits, extracted, i);
      var g, left := ClampOne(fills[i], holdings);
      RemainsNext(holdings, left, markets, splits, extracted, before, g);
      fills := fills[i := g];
      holdings := left;
      assert fills[..i + 1] == before + [g];
    }
    assert fills[..|fills|] == fills;
  }

  method BuildBasket(c: Component, raw: seq<nat>) returns (fills: seq<LegFill>, splits: seq<Split>)
    requires |raw| == |Vars(c)| + |c.markets|
    ensures fills == BasketFills(c, raw) && splits == BasketSplits(c, raw)
  {
    var extracted := ExtractFills(Vars(c), raw);
    splits := GatherSplits(c.markets, raw[|Vars(c)|..]);
    var clamped := ClampSells(c.markets, splits, extracted);
    fills := Filter(clamped, NON_ZERO);
  }

  // ----- the whole solve -----

  /** net is the least net over every legal world, and some legal world attains it. */
  ghost predicate WorstLegal(c: Component, splits: seq<Split>, fills: seq<LegFill>, gas: int, net: int)
  {
    && (forall w :: Legal(c, w) ==> NetIn(c, splits, fills, gas, w) >= net)
    && (exists w :: Legal(c, w) && NetIn(c, splits, fills, gas, w) == net)
  }

  function Floor(c: Component, p: EngineParams): int {
    if c.relationships == [] then p.floorC12 else p.floorC3
  }

  ghost predicate Clears(c: Component, p: EngineParams, net: int, basis: int) {
    && net >= p.minProfit && EdgeBps(net, basis).Some?
    && (c.relationships == [] ==> EdgeBps(net, basis).value >= p.floorC12)
    && (c.relationships != [] ==> EdgeBps(net, basis).value >= p.floorC3)
  }

  /** op trades exactly these legs, priced at their worst net over every legal world. */
  ghost predicate PricedAtWorst(c: Component, p: EngineParams, splits: seq<Split>, fills: seq<LegFill>, op: Opportunity)
  {
    && op.cls == C4Lp && op.units == 0 && op.fills == fills && op.splits == splits
    && WorstLegal(c, splits, fills, BasketGas(p, splits), op.net)
    && op.basis == SplitCost(splits) + BuyOutlay(c.markets, fills)
    && EdgeBps(op.net, op.basis) == Some(op.edge)
    && Clears(c, p, op.net, op.basis)
  }

  ghost predicate SomeWorstClears(c: Component, p: EngineParams, splits: seq<Split>, fills: seq<LegFill>)
  {
    exists net :: WorstLegal(c, splits, fills, BasketGas(p, splits), net)
                  && Clears(c, p, net, SplitCost(splits) + BuyOutlay(c.markets, fills))
  }

  ghost predicate Guaranteed(c: Component, p: EngineParams, raw: seq<nat>, op: Opportunity)
    requires |raw| == |Vars(c)| + |c.markets|
  {
    var fills, splits := BasketFills(c, raw), BasketSplits(c, raw);
    && WithinDepth(c, fills) && NoShort(c.markets, splits, fills)
    && PricedAtWorst(c, p, splits, fills, op)
  }

  ghost predicate Tradable(c: Component, p: EngineParams, raw: seq<nat>)
    requires |raw| == |Vars(c)| + |c.markets|
  {
    var fills, splits := BasketFills(c, raw), BasketSplits(c, raw);
    (fills != [] || splits != []) && SomeWorstClears(c, p, splits, fills)
  }

  lemma WorstLegalUnique(c: Component, splits: seq<Split>, fills: seq<LegFill>, gas: int, a: int, b: int)
    requires WorstLegal(c, splits, fills, gas, a) && WorstLegal(c, splits, fills, gas, b)
    ensures a == b
  {
  }

  /** solver: the program's columns for trades then splits, floored to micro-shares;
      None when the solver did not reach an optimum. No property of the numbers is used. */
  method SolveComponent(c: Component, p: EngineParams, solver: Option<seq<nat>>) returns (r: LpResult)
    requires ValidComponent(c) && p.maxWorlds <= U64_MAX
    requires solver.Some? ==> |solver.value| == |Vars(c)| + |c.markets|
    ensures r == Skipped(TooManyWorlds) <==> Total(c) > p.maxWorlds
    ensures r == Skipped(SolverFailed) <==> Total(c) <= p.maxWorlds && (exists w :: Legal(c, w)) && solver.None?
    ensures r.Found? <==> Total(c) <= p.maxWorlds && solver.Some? && Tradable(c, p, solver.value)
    ensures r.Found? ==> Guaranteed(c, p, solver.value, r.op)
  {
    if solver.Some? { BasketIsSound(c, solver.value); }
    var enumerated := EnumerateWorlds(c, p.maxWorlds);
    if enumerated.None? { return Skipped(TooManyWorlds); }
    var worlds := enumerated.value;
    if worlds == [] {
      assert forall w :: Legal(c, w) ==> w in worlds;
      return NoEdge;
    }
    assert Legal(c, worlds[0]) by { assert worlds[0] in worlds; }
    if solver.None? { return Skipped(SolverFailed); }
    var raw := solver.value;
    r := Validate(c, p, raw, worlds);
  }

  method Validate(c: Component, p: EngineParams, raw: seq<nat>, worlds: seq<World>) returns (r: LpResult)
    requires ValidComponent(c) && |raw| == |Vars(c)| + |c.markets|
    requires worlds != [] && forall w :: w in worlds <==> Legal(c, w)
    ensures !r.Skipped?
    ensures r.Found? <==> Tradable(c, p, raw)
    ensures r.Found? ==> Guaranteed(c, p, raw, r.op)
  {
    BasketIsSound(c, raw);
    var fills, splits := BuildBasket(c, raw);
    if fills == [] && splits == [] { return NoEdge; }
    r := PriceAndGate(c, p, splits, fills, worlds);
  }

  method PriceAndGate(c: Component, p: EngineParams, splits: seq<Split>, fills: seq<LegFill>, worlds: seq<World>)
    returns (r: LpResult)
    requires AllKnown(c, splits, fills) && NoShort(c.markets, splits, fills)
    requires worlds != [] && forall w :: w in worlds <==> Legal(c, w)
    ensures !r.Skipped?
    ensures r.Found? <==> SomeWorstClears(c, p, splits, fills)
    ensures r.Found? ==> PricedAtWorst(c, p, splits, fills, r.op)
  {
    assert forall w :: Legal(c, w) ==> |w| == |c.markets|;
    var exact := ExactWorstNet(c, worlds, splits, fills, BasketGas(p, splits));
    if exact.None? { return Skipped(SolverFailed); }
    var (worst, basis) := exact.value;
    WorstOverWorldsIsWorstLegal(c, splits, fills, BasketGas(p, splits), worlds, worst);
    forall net | WorstLegal(c, splits, fills, BasketGas(p, splits), net) ensures net == worst {
      WorstLegalUnique(c, splits, fills, BasketGas(p, splits), net, worst);
    }
    if worst < p.minProfit { return NoEdge; }
    var edge := EdgeBps(worst, basis);
    if edge.None? { return NoEdge; }
    if edge.value < Floor(c, p) { return NoEdge; }
    r := Found(Opportunity(C4Lp, fills, 0, worst, basis, edge.value, splits));
  }

  lemma WorstOverWorldsIsWorstLegal(c: Component, splits: seq<Split>, fills: seq<LegFill>, gas: int,
                                    worlds: seq<World>, worst: int)
    requires forall w :: w in worlds <==> Legal(c, w)
    requires forall w :: w in worlds ==> |w| == |c.markets|
    requires IsWorst(c, splits, fills, gas, worlds, worst)
    ensures WorstLegal(c, splits, fills, gas, worst)
  {
    var w :| w in worlds && NetIn(c, splits, fills, gas, w) == worst;
    assert Legal(c, w);
  }
}
