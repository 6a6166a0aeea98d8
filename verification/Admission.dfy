/** When an opportunity goes out, said without the gates' own code: of its age, its
    legs, what was admitted before it, and what risk has room for. */
module Admission {
  import opened Wrappers
  import opened Num
  import opened Instrument
  import opened Risk
  import opened Dispatch
  import Dedup
  import Fingerprint

  // ----- what a basket ties up, market by market -----

  /** Cash of the buys of market m's tokens. */
  function BoughtOn(fills: seq<LegFill>, tokenMarket: map<TokenId, MarketId>, m: MarketId): nat {
    if fills == [] then 0
    else
      var f := fills[|fills| - 1];
      BoughtOn(fills[..|fills| - 1], tokenMarket, m)
      + if f.action == Buy && f.token in tokenMarket && tokenMarket[f.token] == m then Abs(f.cash) else 0
  }

  /** Collateral of the splits of m. */
  function SplitOn(splits: seq<Split>, m: MarketId): nat {
    if splits == [] then 0
    else
      var s := splits[|splits| - 1];
      SplitOn(splits[..|splits| - 1], m) + if s.0 == m then s.1 else 0
  }

  /** Some known buy or some split of op is on m. */
  ghost predicate TradedOn(op: Opportunity, tokenMarket: map<TokenId, MarketId>, m: MarketId) {
    || (exists f :: f in op.fills && f.action == Buy && f.token in tokenMarket && tokenMarket[f.token] == m)
    || (exists s: Split :: s in op.splits && s.0 == m)
  }

  ghost predicate HasEntry(b: Amounts, m: MarketId) {
    exists i :: 0 <= i < |b| && b[i].0 == m
  }

  lemma {:induction false} BumpEntries(s: Amounts, m: MarketId, c: int, k: MarketId)
    ensures HasEntry(Bump(s, m, c), k) <==> HasEntry(s, k) || k == m
  {
    if s == [] || m < s[0].0 {
      assert Bump(s, m, c) == [(m, c)] + s;
      assert Bump(s, m, c)[0].0 == m;
      forall i | 0 <= i < |s| ensures Bump(s, m, c)[i + 1] == s[i] {}
    } else if m == s[0].0 {
      forall i | 0 <= i < |s| ensures Bump(s, m, c)[i].0 == s[i].0 {}
      assert s[0].0 == m;
    } else {
      BumpEntries(s[1..], m, c, k);
      var rest := Bump(s[1..], m, c);
      assert Bump(s, m, c) == [s[0]] + rest;
      EntryCons(s[0], rest, k);
      EntryCons(s[0], s[1..], k);
      assert s == [s[0]] + s[1..];
    }
  }

  lemma EntryCons(x: (MarketId, int), rest: Amounts, k: MarketId)
    ensures HasEntry([x] + rest, k) <==> x.0 == k || HasEntry(rest, k)
  {
    var all := [x] + rest;
    assert all[0] == x;
    forall i | 0 <= i < |rest| ensures all[i + 1] == rest[i] {}
    if HasEntry(rest, k) {
      var i :| 0 <= i < |rest| && rest[i].0 == k;
      assert all[i + 1].0 == k;
    }
  }

  lemma {:induction false} BuyEntries(fills: seq<LegFill>, tokenMarket: map<TokenId, MarketId>, m: MarketId)
    ensures AmountFor(BuyCosts(fills, tokenMarket), m) == BoughtOn(fills, tokenMarket, m)
    ensures HasEntry(BuyCosts(fills, tokenMarket), m) <==>
            exists f :: f in fills && f.action == Buy && f.token in tokenMarket && tokenMarket[f.token] == m
  {
    if fills == [] {
    } else {
      var n := |fills| - 1;
      var f, before := fills[n], BuyCosts(fills[..n], tokenMarket);
      BuyEntries(fills[..n], tokenMarket, m);
      assert f in fills && forall g :: g in fills <==> g in fills[..n] || g == f;
      if f.action == Buy && f.token in tokenMarket {
        BumpAdds(before, tokenMarket[f.token], Abs(f.cash), m);
        BumpEntries(before, tokenMarket[f.token], Abs(f.cash), m);
      }
    }
  }

  lemma {:induction false} SplitEntries(costs: Amounts, splits: seq<Split>, m: MarketId)
    ensures AmountFor(WithSplits(costs, splits), m) == AmountFor(costs, m) + SplitOn(splits, m)
    ensures HasEntry(WithSplits(costs, splits), m) <==> HasEntry(costs, m) || exists s: Split :: s in splits && s.0 == m
  {
    if splits == [] {
    } else {
      var n := |splits| - 1;
      SplitEntries(costs, splits[..n], m);
      assert splits[n] in splits && forall s: Split :: s in splits <==> s in splits[..n] || s == splits[n];
      BumpAdds(WithSplits(costs, splits[..n]), splits[n].0, splits[n].1, m);
      BumpEntries(WithSplits(costs, splits[..n]), splits[n].0, splits[n].1, m);
    }
  }

  lemma {:induction false} LargestLegBounds(fills: seq<LegFill>, x: int)
    ensures LargestLeg(fills) <= x <==> 0 <= x && forall f :: f in fills ==> Abs(f.cash) <= x
  {
    if fills == [] {
    } else {
      var n := |fills| - 1;
      LargestLegBounds(fills[..n], x);
      assert fills[n] in fills && forall f :: f in fills <==> f in fills[..n] || f == fills[n];
    }
  }

  /** The risk view of a basket: how many legs, the largest, the total, and what each market ties up. */
  lemma CheckMeans(op: Opportunity, tokenMarket: map<TokenId, MarketId>, m: MarketId, x: int)
    ensures var check := CheckOf(op, tokenMarket);
            && check.legs == |op.fills|
            && (check.maxLegCost <= x <==> 0 <= x && forall f :: f in op.fills ==> Abs(f.cash) <= x)
            && check.totalCost == BuyTotal(op.fills, tokenMarket) + SplitCost(op.splits)
            && AmountFor(check.perMarket, m) == BoughtOn(op.fills, tokenMarket, m) + SplitOn(op.splits, m)
            && (HasEntry(check.perMarket, m) <==> TradedOn(op, tokenMarket, m)) && OneEach(check.perMarket)
  {
    LargestLegBounds(op.fills, x);
    CheckTotals(op, tokenMarket);
    BuyEntries(op.fills, tokenMarket, m);
    SplitEntries(BuyCosts(op.fills, tokenMarket), op.splits, m);
  }

  // ----- what risk has room for -----

  lemma {:induction false} EntryAmount(b: Amounts, i: nat)
    requires OneEach(b) && i < |b|
    ensures AmountFor(b, b[i].0) == b[i].1
  {
    var n := |b| - 1;
    if i < n {
      EntryAmount(b[..n], i);
    } else {
      NoEntryFor(b[..n], b[n].0);
    }
  }

  /** Every cap holds with the basket on top of what is out already. */
  ghost predicate HasRoomFor(cfg: RiskConfig, s: RiskState, b: BasketCheck) {
    && b.legs <= cfg.maxBasketLegs && s.openOrders + b.legs <= cfg.maxOpenOrders
    && b.maxLegCost <= cfg.maxUnhedged && s.exposure + b.totalCost <= cfg.bankroll
    && forall m :: HasEntry(b.perMarket, m) ==> Exposure(s.perMarket, m) + AmountFor(b.perMarket, m) <= cfg.perMarketCap
  }

  lemma OverCapMeans(cfg: RiskConfig, m: map<MarketId, int>, b: Amounts)
    requires OneEach(b)
    ensures OverCap(cfg, m, b) <==> exists k :: HasEntry(b, k) && Exposure(m, k) + AmountFor(b, k) > cfg.perMarketCap
  {
    if OverCap(cfg, m, b) {
      var i :| 0 <= i < |b| && Exposure(m, b[i].0) + b[i].1 > cfg.perMarketCap;
      EntryAmount(b, i);
      assert HasEntry(b, b[i].0);
    }
    if k :| HasEntry(b, k) && Exposure(m, k) + AmountFor(b, k) > cfg.perMarketCap {
      var i :| 0 <= i < |b| && b[i].0 == k;
      EntryAmount(b, i);
    }
  }

  /** A basket is approved exactly when nothing is stopped and every cap has room for it. */
  lemma ApprovedExactly(cfg: RiskConfig, s: RiskState, b: BasketCheck)
    requires OneEach(b.perMarket)
    ensures PreCheck(cfg, s, b) == Approved <==>
            !s.killed && s.halted.None? && !s.paused && HasRoomFor(cfg, s, b)
  {
    OverCapMeans(cfg, s.perMarket, b.perMarket);
  }

  // ----- the whole decision -----

  /** The same shape went out recently and this one is not better by more than the percentage. */
  ghost predicate Repeats(cfg: Config, seen: Dedup.Seen, d: Detected, now: int) {
    var fp := Fingerprint.Fingerprint(d.op);
    && fp in seen && Max(0, now - seen[fp].0) < cfg.window
    && d.op.net <= seen[fp].1 + TruncDiv(seen[fp].1 * cfg.improvementPct, 100)
  }

  /** What live mode lets through: released, buys only, and every leg big enough for the venue. */
  ghost predicate LiveFit(cfg: Config, c: Coord, op: Opportunity) {
    && c.liveReleased && op.splits == []
    && BuyTotal(op.fills, cfg.tokenMarket) <= cfg.basketCap
    && forall f :: f in op.fills ==>
         && f.action == Buy && f.qty >= cfg.minLeg
         && BuyCost(MicroUsdc(f.limitPx, f.ts), f.qty) >= cfg.minLegValue
  }

  /** Every risk limit has room for op's legs and for what it ties up in each market. */
  ghost predicate Affordable(cfg: Config, r: RiskState, op: Opportunity) {
    && |op.fills| <= cfg.risk.maxBasketLegs && r.openOrders + |op.fills| <= cfg.risk.maxOpenOrders
    && 0 <= cfg.risk.maxUnhedged && (forall f :: f in op.fills ==> Abs(f.cash) <= cfg.risk.maxUnhedged)
    && r.exposure + BuyTotal(op.fills, cfg.tokenMarket) + SplitCost(op.splits) <= cfg.risk.bankroll
    && forall m :: TradedOn(op, cfg.tokenMarket, m) ==>
         Exposure(r.perMarket, m) + BoughtOn(op.fills, cfg.tokenMarket, m) + SplitOn(op.splits, m)
         <= cfg.risk.perMarketCap
  }

  lemma AffordableIsRoom(cfg: Config, r: RiskState, op: Opportunity)
    ensures Affordable(cfg, r, op) <==> HasRoomFor(cfg.risk, r, CheckOf(op, cfg.tokenMarket))
  {
    CheckMeans(op, cfg.tokenMarket, 0, cfg.risk.maxUnhedged);
    forall m
      ensures HasEntry(CheckOf(op, cfg.tokenMarket).perMarket, m) <==> TradedOn(op, cfg.tokenMarket, m)
      ensures AmountFor(CheckOf(op, cfg.tokenMarket).perMarket, m) ==
              BoughtOn(op.fills, cfg.tokenMarket, m) + SplitOn(op.splits, m)
    {
      CheckMeans(op, cfg.tokenMarket, m, 0);
    }
  }

  lemma LiveFitIsGate(cfg: Config, c: Coord, op: Opportunity)
    ensures LiveFit(cfg, c, op) <==> c.liveReleased && PassesLiveGates(cfg, op, CheckOf(op, cfg.tokenMarket))
  {
    CheckTotals(op, cfg.tokenMarket);
    if c.liveReleased && PassesLiveGates(cfg, op, CheckOf(op, cfg.tokenMarket)) {
      forall f | f in op.fills
        ensures f.action == Buy && f.qty >= cfg.minLeg
        ensures BuyCost(MicroUsdc(f.limitPx, f.ts), f.qty) >= cfg.minLegValue
      {
        var i :| 0 <= i < |op.fills| && op.fills[i] == f;
      }
    }
    if LiveFit(cfg, c, op) {
      forall i | 0 <= i < |op.fills| ensures op.fills[i] in op.fills {}
    }
  }

  lemma AdmitsMeans(cfg: Config, c: Coord, d: Detected, now: int)
    ensures Admits(cfg, c, d, now) <==> !Repeats(cfg, c.seen, d, now)
  {
  }

  /** A fresh, new, plausible opportunity that live mode and risk have room for goes
      out when nothing is stopped and nothing is in flight, and no other does. */
  lemma DispatchedExactly(cfg: Config, c: Coord, d: Detected, now: int, kill: bool)
    ensures Disposed(cfg, c, d, now, kill).Dispatch? <==>
            && d.age <= cfg.maxAge && !Repeats(cfg, c.seen, d, now) && d.op.edge <= cfg.maxEdgeBps
            && (cfg.live ==> LiveFit(cfg, c, d.op))
            && !c.risk.killed && c.risk.halted.None? && !c.risk.paused && Affordable(cfg, c.risk, d.op)
            && !c.busy && !kill
  {
    AdmitsMeans(cfg, c, d, now);
    LiveFitIsGate(cfg, c, d.op);
    CheckTotals(d.op, cfg.tokenMarket);
    ApprovedExactly(cfg.risk, c.risk, CheckOf(d.op, cfg.tokenMarket));
    AffordableIsRoom(cfg, c.risk, d.op);
  }

  /** Room in every risk limit, and nothing stopped. */
  ghost predicate RiskAllows(cfg: Config, r: RiskState, op: Opportunity) {
    !r.killed && r.halted.None? && !r.paused && Affordable(cfg, r, op)
  }

  /** Each opportunity meets the first obstacle in its way: age, repetition, an edge too
      good to be true, the live latch, a live gate, risk, the slot or the kill. */
  lemma VerdictIsFirstObstacle(cfg: Config, c: Coord, d: Detected, now: int, kill: bool)
    ensures var v := Disposed(cfg, c, d, now, kill);
            && (v.Expired? <==> d.age > cfg.maxAge)
            && (v.Cooled? <==> d.age <= cfg.maxAge && Repeats(cfg, c.seen, d, now))
            && (v.Implausible? <==>
                  d.age <= cfg.maxAge && !Repeats(cfg, c.seen, d, now) && d.op.edge > cfg.maxEdgeBps)
            && (Plausible(cfg, c, d, now) ==>
                  && (v.HeldBack? <==> cfg.live && !c.liveReleased)
                  && (v.LiveRejected? <==> cfg.live && c.liveReleased && !LiveFit(cfg, c, d.op))
                  && (v.RiskRejected? <==> (cfg.live ==> LiveFit(cfg, c, d.op)) && !RiskAllows(cfg, c.risk, d.op))
                  && (v.Busy? <==>
                        (cfg.live ==> LiveFit(cfg, c, d.op)) && RiskAllows(cfg, c.risk, d.op) && (c.busy || kill)))
  {
    AdmitsMeans(cfg, c, d, now);
    LiveFitIsGate(cfg, c, d.op);
    CheckTotals(d.op, cfg.tokenMarket);
    ApprovedExactly(cfg.risk, c.risk, CheckOf(d.op, cfg.tokenMarket));
    AffordableIsRoom(cfg, c.risk, d.op);
  }

  ghost predicate Plausible(cfg: Config, c: Coord, d: Detected, now: int) {
    d.age <= cfg.maxAge && !Repeats(cfg, c.seen, d, now) && d.op.edge <= cfg.maxEdgeBps
  }

  /** Whatever stops it later, an opportunity that is neither stale nor a repeat takes its
      shape's cooldown slot; a stale one or a repeat takes none, and no other shape's
      entry changes except by being forgotten. */
  lemma SlotTaken(cfg: Config, c: Coord, d: Detected, now: int)
    ensures var (after, fp) := (SeenAfter(cfg, c, d, now), Fingerprint.Fingerprint(d.op));
            && (d.age <= cfg.maxAge && !Repeats(cfg, c.seen, d, now) ==> fp in after && after[fp] == (now, d.op.net))
            && (d.age > cfg.maxAge ==> after == c.seen)
            && (Repeats(cfg, c.seen, d, now) ==> fp in after && after[fp] == c.seen[fp])
            && (forall other :: other in after && other != fp ==> other in c.seen && after[other] == c.seen[other])
  {
  }

  // ----- which gate a rejection names -----

  /** The gates in the order they are tried, each with whether it fails. */
  ghost function Gates(cfg: RiskConfig, s: RiskState, b: BasketCheck): seq<(RejectReason, bool)> {
    [(KillSwitch, s.killed),
     (Halted(if s.halted.Some? then s.halted.value else DailyDrawdown), s.halted.Some?),
     (Paused, s.paused),
     (MaxBasketLegs, b.legs > cfg.maxBasketLegs),
     (MaxOpenOrders, s.openOrders + b.legs > cfg.maxOpenOrders),
     (Unhedged, b.maxLegCost > cfg.maxUnhedged),
     (Bankroll, s.exposure + b.totalCost > cfg.bankroll),
     (PerMarketCap, exists m :: HasEntry(b.perMarket, m)
                                && Exposure(s.perMarket, m) + AmountFor(b.perMarket, m) > cfg.perMarketCap)]
  }

  /** A rejection names a gate that fails, and every gate before it passes. */
  lemma RejectionNamesFirstGate(cfg: RiskConfig, s: RiskState, b: BasketCheck)
    requires OneEach(b.perMarket) && PreCheck(cfg, s, b).Rejected?
    ensures exists i :: 0 <= i < 8 && Gates(cfg, s, b)[i] == (PreCheck(cfg, s, b).reason, true)
                        && forall j :: 0 <= j < i ==> !Gates(cfg, s, b)[j].1
  {
    OverCapMeans(cfg, s.perMarket, b.perMarket);
    var gates := Gates(cfg, s, b);
    var i := if gates[0].1 then 0 else if gates[1].1 then 1 else if gates[2].1 then 2 else if gates[3].1 then 3
             else if gates[4].1 then 4 else if gates[5].1 then 5 else if gates[6].1 then 6 else 7;
    assert gates[i] == (PreCheck(cfg, s, b).reason, true);
  }
}
