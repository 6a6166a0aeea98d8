/** The coordinator's handlers as functions on its state. */
module Dispatch {
  import opened Wrappers
  import opened Num
  import opened Instrument
  import opened Risk
  import opened Positions
  import Dedup
  import Fingerprint

  datatype Config = Config(live: bool, basketCap: int, minLeg: nat, minLegValue: int, maxEdgeBps: int, maxAge: nat,
                           window: nat, improvementPct: nat, tokenMarket: map<TokenId, MarketId>, risk: RiskConfig)

  datatype Detected = Detected(op: Opportunity, age: nat)

  datatype Request = Request(op: Opportunity, check: BasketCheck)

  datatype Outcome = FilledClean | Repaired | Unwound | NoFill | RejectedUnhedged

  datatype BasketReport = BasketReport(outcome: Outcome, cashDelta: int, positions: seq<Leftover>, orderErrors: nat)

  datatype Report = Report(check: BasketCheck, result: Option<BasketReport>)

  datatype Command = SetPaused(p: bool) | ReleaseLive

  datatype Stats = Stats(expired: nat, cooldown: nat, implausible: nat, admitted: nat, held: nat, liveRejected: nat,
                         riskRejected: nat, busy: nat, dispatched: nat, clean: nat, repaired: nat, unwound: nat,
                         noFill: nat, execErrors: nat)

  datatype Coord = Coord(risk: RiskState, seen: Dedup.Seen, pos: Pos, cash: int, busy: bool,
                         inFlight: Option<BasketCheck>, reportClosed: bool, killLogged: bool, haltLogged: bool,
                         paused: bool, liveReleased: bool, stats: Stats)

  // ----- the risk view of a basket -----

  function Abs(x: int): nat { if x >= 0 then x else -x }

  function LargestLeg(fills: seq<LegFill>): nat {
    if fills == [] then 0 else Max(LargestLeg(fills[..|fills| - 1]), Abs(fills[|fills| - 1].cash))
  }

  /** Buy cash per market, tokens without a market left out. */
  function BuyCosts(fills: seq<LegFill>, tokenMarket: map<TokenId, MarketId>): Amounts {
    if fills == [] then []
    else
      var before, f := BuyCosts(fills[..|fills| - 1], tokenMarket), fills[|fills| - 1];
      if f.action == Buy && f.token in tokenMarket then Bump(before, tokenMarket[f.token], Abs(f.cash)) else before
  }

  function WithSplits(costs: Amounts, splits: seq<Split>): Amounts {
    if splits == [] then costs
    else Bump(WithSplits(costs, splits[..|splits| - 1]), splits[|splits| - 1].0, splits[|splits| - 1].1)
  }

  function CheckOf(op: Opportunity, tokenMarket: map<TokenId, MarketId>): BasketCheck {
    var perMarket := WithSplits(BuyCosts(op.fills, tokenMarket), op.splits);
    BasketCheck(Total(perMarket), LargestLeg(op.fills), |op.fills|, perMarket)
  }

  // ----- live gates -----

  predicate PureBuy(op: Opportunity) {
    (forall i :: 0 <= i < |op.fills| ==> op.fills[i].action == Buy) && op.splits == []
  }

  predicate PassesLiveGates(cfg: Config, op: Opportunity, check: BasketCheck) {
    && PureBuy(op) && check.totalCost <= cfg.basketCap
    && (forall i :: 0 <= i < |op.fills| ==> op.fills[i].qty >= cfg.minLeg)
    && (forall i :: 0 <= i < |op.fills| ==>
          BuyCost(MicroUsdc(op.fills[i].limitPx, op.fills[i].ts), op.fills[i].qty) >= cfg.minLegValue)
  }

  // ----- handlers -----

  function LogHalt(c: Coord): Coord {
    if c.risk.halted.Some? then c.(haltLogged := true) else c
  }

  /** What becomes of one opportunity, in the order the gates are tried. */
  datatype Disposition =
    | Expired | Cooled | Implausible | HeldBack | LiveRejected | RiskRejected | Busy
    | Dispatch(req: Request)

  predicate Admits(cfg: Config, c: Coord, d: Detected, now: int) {
    Dedup.AdmitSeen(cfg.window, cfg.improvementPct, c.seen, now, Fingerprint.Fingerprint(d.op), d.op.net).0
  }

  function Disposed(cfg: Config, c: Coord, d: Detected, now: int, kill: bool): Disposition {
    var check := CheckOf(d.op, cfg.tokenMarket);
    if d.age > cfg.maxAge then Expired
    else if !Admits(cfg, c, d, now) then Cooled
    else if d.op.edge > cfg.maxEdgeBps then Implausible
    else if cfg.live && !c.liveReleased then HeldBack
    else if cfg.live && !PassesLiveGates(cfg, d.op, check) then LiveRejected
    else if PreCheck(cfg.risk, c.risk, check) != Approved then RiskRejected
    else if c.busy || kill then Busy
    else Dispatch(Request(d.op, check))
  }

  /** Everything past the plausibility ceiling counts as admitted. */
  function Counted(st: Stats, d: Disposition): Stats {
    match d
    case Expired => st.(expired := st.expired + 1)
    case Cooled => st.(cooldown := st.cooldown + 1)
    case Implausible => st.(implausible := st.implausible + 1)
    case HeldBack => st.(admitted := st.admitted + 1, held := st.held + 1)
    case LiveRejected => st.(admitted := st.admitted + 1, liveRejected := st.liveRejected + 1)
    case RiskRejected => st.(admitted := st.admitted + 1, riskRejected := st.riskRejected + 1)
    case Busy => st.(admitted := st.admitted + 1, busy := st.busy + 1)
    case Dispatch(_) => st.(admitted := st.admitted + 1, dispatched := st.dispatched + 1)
  }

  /** The cooldown is consulted, and refreshed, by everything that is not expired. */
  function SeenAfter(cfg: Config, c: Coord, d: Detected, now: int): Dedup.Seen {
    if d.age > cfg.maxAge then c.seen
    else Dedup.AdmitSeen(cfg.window, cfg.improvementPct, c.seen, now, Fingerprint.Fingerprint(d.op), d.op.net).1
  }

  function ProcessOpp(cfg: Config, c: Coord, d: Detected, now: int, kill: bool, execAlive: bool)
      : (Coord, Option<Request>)
  {
    Settle(c, Disposed(cfg, c, d, now, kill), SeenAfter(cfg, c, d, now), execAlive)
  }

  function Settle(c: Coord, disposed: Disposition, seen: Dedup.Seen, execAlive: bool): (Coord, Option<Request>) {
    var c1 := c.(seen := seen, stats := Counted(c.stats, disposed));
    match disposed
    case Dispatch(req) => Send(c1, req, execAlive)
    case RiskRejected => (LogHalt(c1), None)
    case _ => (c1, None)
  }

  /** Reserve, then send; a dead execution task gives the reservation back. */
  function Send(c: Coord, req: Request, execAlive: bool): (Coord, Option<Request>) {
    var c1 := c.(risk := Reserve(c.risk, req.check), busy := true, inFlight := Some(req.check));
    if execAlive then (c1, Some(req))
    else (c1.(risk := Release(c1.risk, req.check), busy := false, inFlight := None), None)
  }

  function CountOutcome(s: Stats, o: Outcome): Stats {
    match o
    case FilledClean => s.(clean := s.clean + 1)
    case Repaired => s.(repaired := s.repaired + 1)
    case Unwound => s.(unwound := s.unwound + 1)
    case NoFill | RejectedUnhedged => s.(noFill := s.noFill + 1)
  }

  function AfterOutcome(cfg: Config, r: RiskState, o: Outcome, now: int): RiskState {
    match o
    case FilledClean | Repaired => r.(errors := [])
    case Unwound => RecordError(cfg.risk, r, now)
    case NoFill | RejectedUnhedged => r
  }

  /** Risk after a report: actual costs committed, then the error chain updated. */
  function RiskAfter(cfg: Config, r: RiskState, result: Option<BasketReport>, now: int): RiskState {
    match result
    case None => RecordError(cfg.risk, r, now)
    case Some(b) =>
      var committed := CommitAll(r, MarketDeltas(b.positions, cfg.tokenMarket));
      RecordErrors(cfg.risk, AfterOutcome(cfg, committed, b.outcome, now), now, b.orderErrors)
  }

  function StatsAfter(st: Stats, result: Option<BasketReport>): Stats {
    match result
    case None => st.(execErrors := st.execErrors + 1)
    case Some(b) => CountOutcome(st, b.outcome)
  }

  /** The slot freed, the reservation released, the result booked. */
  function Booked(cfg: Config, c: Coord, rep: Report, now: int): Coord {
    c.(busy := false, inFlight := None,
       risk := RiskAfter(cfg, Release(c.risk, rep.check), rep.result, now),
       pos := match rep.result case None => c.pos case Some(b) => AddLeftovers(c.pos, b.positions),
       cash := match rep.result case None => c.cash case Some(b) => c.cash + b.cashDelta,
       stats := StatsAfter(c.stats, rep.result))
  }

  function HandleReport(cfg: Config, c: Coord, rep: Report, now: int): Coord {
    LogHalt(Booked(cfg, c, rep, now))
  }

  function CheckKill(c: Coord, kill: bool): Coord {
    if kill && !c.killLogged then c.(risk := c.risk.(killed := true), killLogged := true) else c
  }

  function HandleCtl(cfg: Config, c: Coord, cmd: Command): Coord {
    match cmd
    case SetPaused(p) => c.(paused := p, risk := c.risk.(paused := p))
    case ReleaseLive => if cfg.live then c.(liveReleased := true) else c
  }

  /** A risk update that may have tripped a halt, logged once. */
  function WithRisk(c: Coord, r: RiskState): Coord {
    LogHalt(c.(risk := r))
  }

  /** The periodic snapshot feeds the halts; midEquity and bidEquity come from the marked book. */
  function Snapshot(cfg: Config, c: Coord, midEquity: int, bidEquity: int): Coord {
    var c1 := WithRisk(c, UpdateEquity(cfg.risk, c.risk, midEquity));
    WithRisk(c1, UpdateSessionPnl(cfg.risk, c1.risk, bidEquity))
  }

  /** Shutdown: a reservation whose task died is given back. */
  function Shutdown(c: Coord): Coord {
    match c.inFlight
    case None => c
    case Some(check) => c.(risk := Release(c.risk, check), inFlight := None, busy := false)
  }

  // ----- the check adds up -----

  function BuyTotal(fills: seq<LegFill>, tokenMarket: map<TokenId, MarketId>): nat {
    if fills == [] then 0
    else
      var f := fills[|fills| - 1];
      BuyTotal(fills[..|fills| - 1], tokenMarket) + if f.action == Buy && f.token in tokenMarket then Abs(f.cash) else 0
  }

  lemma {:induction false} BuyCostsTotal(fills: seq<LegFill>, tokenMarket: map<TokenId, MarketId>)
    ensures Total(BuyCosts(fills, tokenMarket)) == BuyTotal(fills, tokenMarket) && OneEach(BuyCosts(fills, tokenMarket))
  {
    if fills == [] {
    } else {
      var n := |fills| - 1;
      var f, before := fills[n], BuyCosts(fills[..n], tokenMarket);
      BuyCostsTotal(fills[..n], tokenMarket);
      if f.action == Buy && f.token in tokenMarket {
        BumpAdds(before, tokenMarket[f.token], Abs(f.cash), 0);
        BumpOneEach(before, tokenMarket[f.token], Abs(f.cash));
      }
    }
  }

  lemma {:induction false} WithSplitsTotal(costs: Amounts, splits: seq<Split>)
    requires OneEach(costs)
    ensures Total(WithSplits(costs, splits)) == Total(costs) + SplitCost(splits) && OneEach(WithSplits(costs, splits))
  {
    if splits == [] {
    } else {
      var n := |splits| - 1;
      WithSplitsTotal(costs, splits[..n]);
      BumpAdds(WithSplits(costs, splits[..n]), splits[n].0, splits[n].1, 0);
      BumpOneEach(WithSplits(costs, splits[..n]), splits[n].0, splits[n].1);
    }
  }

  /** The reserved total is every buy leg's cash plus all split collateral, spread over markets once each. */
  lemma CheckTotals(op: Opportunity, tokenMarket: map<TokenId, MarketId>)
    ensures CheckOf(op, tokenMarket).totalCost == BuyTotal(op.fills, tokenMarket) + SplitCost(op.splits)
    ensures Total(CheckOf(op, tokenMarket).perMarket) == CheckOf(op, tokenMarket).totalCost
    ensures OneEach(CheckOf(op, tokenMarket).perMarket)
  {
    BuyCostsTotal(op.fills, tokenMarket);
    WithSplitsTotal(BuyCosts(op.fills, tokenMarket), op.splits);
  }
}
