/** Coordinator and execution task joined by two channels, with death, kill and
    shutdown: everything that can happen, step by step, and what holds throughout. */
module Protocol {
  import opened Wrappers
  import opened Instrument
  import opened Risk
  import opened Positions
  import opened Sums
  import opened Dispatch
  import Dedup

  /** Running, draining after the opportunity channel closed, about to release, or returned. */
  datatype Phase = Running | Draining | Releasing | Returned

  /** The rest of the system beside the coordinator, and what history the laws speak of. */
  datatype Sys = Sys(c: Coord, phase: Phase, requests: seq<Request>, executing: Option<Request>, reports: seq<Report>,
                     execAlive: bool, kill: bool, log: History)

  /** Sent requests, committed exposure, reported cash and cost, sends that failed, reservations stranded. */
  datatype History = History(sent: seq<Request>, commits: Amounts, cash: int, cost: int, undelivered: nat,
                             stranded: nat)

  datatype Event =
    | Opp(d: Detected, now: int)
    | Take
    | Finish(result: Option<BasketReport>)
    | Die
    | Receive(now: int)
    | SeeClosed
    | SetKill
    | NoticeKill
    | Ctl(cmd: Command)
    | Tick(midEquity: int, bidEquity: int)
    | Close
    | DrainDone
    | GiveBack(midEquity: int, bidEquity: int)

  predicate Enabled(s: Sys, e: Event) {
    match e
    case Opp(_, _) | SeeClosed | NoticeKill | Ctl(_) | Tick(_, _) | Close =>
      s.phase == Running && (e.SeeClosed? ==> !s.c.reportClosed && s.reports == [] && !s.execAlive)
    case Take => s.execAlive && s.executing.None? && s.requests != []
    case Finish(_) => s.execAlive && s.executing.Some?
    case Die => s.execAlive
    case Receive(_) =>
      s.reports != [] && !s.c.reportClosed && (s.phase == Running || (s.phase == Draining && s.c.busy))
    case SetKill => true
    case DrainDone =>
      s.phase == Draining && (!s.c.busy || s.c.reportClosed || (s.reports == [] && !s.execAlive))
    case GiveBack(_, _) => s.phase == Releasing
  }

  function Costs(result: Option<BasketReport>): int {
    match result case None => 0 case Some(r) => TotalCost(r.positions)
  }

  function CashOf(result: Option<BasketReport>): int {
    match result case None => 0 case Some(r) => r.cashDelta
  }

  /** An opportunity settled one way or another; a request that is sent is queued. */
  function SettleStep(s: Sys, disposed: Disposition, seen: Dedup.Seen): Sys {
    var (c, sent) := Settle(s.c, disposed, seen, s.execAlive);
    match sent
    case Some(req) => s.(c := c, requests := s.requests + [req], log := s.log.(sent := s.log.sent + [req]))
    case None => s.(c := c, log := s.log.(undelivered := s.log.undelivered + if disposed.Dispatch? then 1 else 0))
  }

  function OppStep(cfg: Config, s: Sys, d: Detected, now: int): Sys {
    SettleStep(s, Disposed(cfg, s.c, d, now, s.kill), SeenAfter(cfg, s.c, d, now))
  }

  /** The execution task's own moves, its death included. */
  function TaskStep(s: Sys, e: Event): Sys
    requires Enabled(s, e) && (e.Take? || e.Finish? || e.Die?)
  {
    match e
    case Take => s.(executing := Some(s.requests[0]), requests := s.requests[1..])
    case Finish(result) => s.(executing := None, reports := s.reports + [Report(s.executing.value.check, result)])
    case Die => s.(execAlive := false, executing := None, requests := [])
  }

  function ReceiveStep(cfg: Config, s: Sys, now: int): Sys
    requires s.reports != []
  {
    var rep := s.reports[0];
    s.(c := HandleReport(cfg, s.c, rep, now), reports := s.reports[1..],
       phase := if s.phase == Draining then Releasing else s.phase,
       log := s.log.(commits := s.log.commits + CommitsOf(cfg, rep.result),
                     cash := s.log.cash + CashOf(rep.result), cost := s.log.cost + Costs(rep.result)))
  }

  /** The last step: release what is stranded, then the final snapshot. */
  function GiveBackStep(cfg: Config, s: Sys, midEquity: int, bidEquity: int): Sys {
    s.(c := Snapshot(cfg, Shutdown(s.c), midEquity, bidEquity), phase := Returned,
       log := s.log.(stranded := s.log.stranded + Outstanding(s.c)))
  }

  /** Steps that only touch flags, halts and the phase. */
  function QuietStep(cfg: Config, s: Sys, e: Event): Sys {
    match e
    case SeeClosed => s.(c := s.c.(reportClosed := true))
    case SetKill => s.(kill := true)
    case NoticeKill => s.(c := CheckKill(s.c, s.kill))
    case Ctl(cmd) => s.(c := HandleCtl(cfg, s.c, cmd))
    case Tick(mid, bid) => s.(c := Snapshot(cfg, s.c, mid, bid))
    case Close => s.(phase := Draining)
    case DrainDone => s.(phase := Releasing)
    case _ => s
  }

  function Step(cfg: Config, s: Sys, e: Event): Sys
    requires Enabled(s, e)
  {
    match e
    case Opp(d, now) => OppStep(cfg, s, d, now)
    case Take | Finish(_) | Die => TaskStep(s, e)
    case Receive(now) => ReceiveStep(cfg, s, now)
    case GiveBack(mid, bid) => GiveBackStep(cfg, s, mid, bid)
    case _ => QuietStep(cfg, s, e)
  }

  const NO_STATS := Stats(0, 0, 0, 0, 0, 0, 0, 0, 0, 0, 0, 0, 0, 0)

  /** Too many recent session starts halt the engine before the first opportunity. */
  function Start(releasedAtStart: bool, storm: bool): Sys {
    Sys(Coord(FRESH.(halted := if storm then Some(RestartStorm) else None), map[], map[], 0, false, None, false, false,
              storm, false, releasedAtStart, NO_STATS),
        Running, [], None, [], true, false, History([], [], 0, 0, 0, 0))
  }

  /** s leads to t by the events, each enabled when it happens. */
  ghost predicate Run(cfg: Config, s: Sys, events: seq<Event>, t: Sys)
    decreases |events|
  {
    if events == [] then s == t
    else
      var n := |events| - 1;
      exists m :: Run(cfg, s, events[..n], m) && Enabled(m, events[n]) && Step(cfg, m, events[n]) == t
  }

  // ----- single flight -----

  function Pending(s: Sys): nat {
    |s.requests| + (if s.executing.Some? then 1 else 0) + |s.reports|
  }

  /** Whatever is queued, executing or reported is the one basket in flight. */
  ghost predicate SameCheck(s: Sys, check: BasketCheck) {
    && (forall i :: 0 <= i < |s.requests| ==> s.requests[i].check == check)
    && (s.executing.Some? ==> s.executing.value.check == check)
    && (forall i :: 0 <= i < |s.reports| ==> s.reports[i].check == check)
  }

  ghost predicate SingleFlight(s: Sys) {
    && (s.c.busy <==> s.c.inFlight.Some?)
    && Pending(s) <= (if s.c.busy then 1 else 0)
    && (s.c.busy && s.execAlive ==> Pending(s) == 1)
    && (s.c.inFlight.Some? ==> SameCheck(s, s.c.inFlight.value))
    && (!s.execAlive ==> s.requests == [] && s.executing.None?)
    && (s.c.reportClosed ==> !s.execAlive && s.reports == [])
    && (s.phase == Releasing && s.c.busy ==> !s.execAlive && Pending(s) == 0)
    && (s.phase == Returned ==> !s.c.busy)
  }

  // ----- exposure -----

  function InFlightAmounts(c: Coord): Amounts {
    match c.inFlight case None => [] case Some(b) => b.perMarket
  }

  /** Exposure is exactly what was committed plus the one basket in flight. */
  ghost predicate Balances(c: Coord, commits: Amounts) {
    && c.risk.exposure == Total(commits) + (match c.inFlight case None => 0 case Some(b) => b.totalCost)
    && c.risk.openOrders == (match c.inFlight case None => 0 case Some(b) => b.legs)
    && forall m: MarketId ::
         Exposure(c.risk.perMarket, m) == AmountFor(commits, m) + AmountFor(InFlightAmounts(c), m)
  }

  ghost predicate ExposureBalanced(s: Sys) {
    Balances(s.c, s.log.commits)
  }

  // ----- counters -----

  function Reported(st: Stats): nat {
    st.clean + st.repaired + st.unwound + st.noFill + st.execErrors
  }

  function Outstanding(c: Coord): nat {
    if c.busy then 1 else 0
  }

  /** Every admitted opportunity has one fate. */
  ghost predicate FatesAddUp(st: Stats) {
    st.admitted == st.held + st.liveRejected + st.riskRejected + st.busy + st.dispatched
  }

  /** Every dispatched basket has one end, or is still out. */
  ghost predicate DispatchesAddUp(c: Coord, log: History) {
    && c.stats.dispatched == Reported(c.stats) + Outstanding(c) + log.undelivered + log.stranded
    && c.stats.dispatched == |log.sent| + log.undelivered
  }

  // ----- money -----

  /** Cash is what was reported, and so is the cost booked over all tokens. */
  ghost predicate MoneyAddsUp(c: Coord, log: History) {
    c.cash == log.cash && Sum(c.pos.Keys, CostIn(c.pos)) == log.cost
  }

  ghost predicate Inv(s: Sys) {
    && SingleFlight(s) && ExposureBalanced(s)
    && FatesAddUp(s.c.stats) && DispatchesAddUp(s.c, s.log) && MoneyAddsUp(s.c, s.log)
  }

  lemma StartFlight(released: bool, storm: bool)
    ensures SingleFlight(Start(released, storm))
  {
  }

  lemma StartExposure(released: bool, storm: bool)
    ensures ExposureBalanced(Start(released, storm))
  {
  }

  lemma StartCounts(released: bool, storm: bool)
    ensures FatesAddUp(Start(released, storm).c.stats)
  {
  }

  lemma StartDispatches(released: bool, storm: bool)
    ensures DispatchesAddUp(Start(released, storm).c, Start(released, storm).log)
  {
  }

  lemma StartMoney(released: bool, storm: bool)
    ensures MoneyAddsUp(Start(released, storm).c, Start(released, storm).log)
  {
  }

  lemma StartHolds(released: bool, storm: bool)
    ensures Inv(Start(released, storm))
  {
    StartFlight(released, storm);
    StartExposure(released, storm);
    StartCounts(released, storm);
    StartDispatches(released, storm);
    StartMoney(released, storm);
  }

  // ----- opportunities -----

  /** What a dispatch needed, and what it did. */
  lemma DispatchNeeds(cfg: Config, c: Coord, d: Detected, now: int, kill: bool)
    requires Disposed(cfg, c, d, now, kill).Dispatch?
    ensures var req := Disposed(cfg, c, d, now, kill).req;
            && !c.busy && !kill && !c.risk.killed && c.risk.halted.None? && !c.risk.paused
            && PreCheck(cfg.risk, c.risk, req.check) == Approved && req.check == CheckOf(req.op, cfg.tokenMarket)
            && (cfg.live ==> c.liveReleased && PassesLiveGates(cfg, req.op, req.check))
  {
  }

  lemma ReserveBalances(c: Coord, commits: Amounts, b: BasketCheck, t: Coord)
    requires Balances(c, commits) && c.inFlight.None?
    requires t.risk == Reserve(c.risk, b) && t.inFlight == Some(b)
    ensures Balances(t, commits)
  {
    forall m: MarketId ensures Exposure(t.risk.perMarket, m) == AmountFor(commits, m) + AmountFor(b.perMarket, m) {
      AddAllAdds(c.risk.perMarket, b.perMarket, 1, m);
    }
  }

  /** A failed send leaves exposure as it was. */
  lemma FailedSendBalances(c: Coord, commits: Amounts, b: BasketCheck, t: Coord)
    requires Balances(c, commits) && c.inFlight.None?
    requires t.risk == Release(Reserve(c.risk, b), b) && t.inFlight.None?
    ensures Balances(t, commits)
  {
    ReleaseUndoesReserve(c.risk, b);
  }

  /** Halts, flags, counters and queues are no part of the balance. */
  lemma SameBalance(c: Coord, t: Coord, commits: Amounts)
    requires Balances(c, commits) && t.inFlight == c.inFlight && t.risk.exposure == c.risk.exposure
    requires t.risk.openOrders == c.risk.openOrders && t.risk.perMarket == c.risk.perMarket
    ensures Balances(t, commits)
  {
  }

  /** Nothing dispatched: only counters, the cooldown and the halt log change. */
  lemma NotDispatched(s: Sys, disposed: Disposition, seen: Dedup.Seen)
    requires !disposed.Dispatch?
    ensures var t := SettleStep(s, disposed, seen);
            && t == s.(c := t.c)
            && t.c == s.c.(seen := seen, haltLogged := t.c.haltLogged, stats := Counted(s.c.stats, disposed))
  {
  }

  /** Dispatched to a live task: the check is reserved and the request queued. */
  lemma Delivered(s: Sys, req: Request, seen: Dedup.Seen)
    requires s.execAlive
    ensures var t := SettleStep(s, Dispatch(req), seen);
            && t == s.(c := t.c, requests := s.requests + [req], log := s.log.(sent := s.log.sent + [req]))
            && t.c == s.c.(seen := seen, stats := Counted(s.c.stats, Dispatch(req)), busy := true,
                           inFlight := Some(req.check), risk := Reserve(s.c.risk, req.check))
  {
  }

  /** Dispatched to a dead task: reserved and given back in one step. */
  lemma Undeliverable(s: Sys, req: Request, seen: Dedup.Seen)
    requires !s.execAlive
    ensures var t := SettleStep(s, Dispatch(req), seen);
            && t == s.(c := t.c, log := s.log.(undelivered := s.log.undelivered + 1))
            && t.c == s.c.(seen := seen, stats := Counted(s.c.stats, Dispatch(req)), busy := false, inFlight := None,
                           risk := Release(Reserve(s.c.risk, req.check), req.check))
  {
  }

  /** Whatever the verdict, exposure stays committed cost plus the basket in flight. */
  lemma SettleBalances(c: Coord, disposed: Disposition, seen: Dedup.Seen, execAlive: bool, commits: Amounts)
    requires Balances(c, commits) && (disposed.Dispatch? ==> c.inFlight.None?)
    ensures Balances(Settle(c, disposed, seen, execAlive).0, commits)
  {
    var t := Settle(c, disposed, seen, execAlive).0;
    match disposed
    case Dispatch(req) =>
      if execAlive {
        ReserveBalances(c, commits, req.check, t);
      } else {
        FailedSendBalances(c, commits, req.check, t);
      }
    case _ => SameBalance(c, t, commits);
  }

  lemma SettleKeepsInv(s: Sys, disposed: Disposition, seen: Dedup.Seen)
    requires Inv(s) && s.phase == Running && (disposed.Dispatch? ==> !s.c.busy)
    ensures Inv(SettleStep(s, disposed, seen))
  {
    SettleBalances(s.c, disposed, seen, s.execAlive, s.log.commits);
    if !disposed.Dispatch? {
      NotDispatched(s, disposed, seen);
    } else if s.execAlive {
      Delivered(s, disposed.req, seen);
    } else {
      Undeliverable(s, disposed.req, seen);
    }
  }

  lemma OppKeepsInv(cfg: Config, s: Sys, d: Detected, now: int)
    requires Inv(s) && s.phase == Running
    ensures Inv(OppStep(cfg, s, d, now))
  {
    var disposed := Disposed(cfg, s.c, d, now, s.kill);
    if disposed.Dispatch? { DispatchNeeds(cfg, s.c, d, now, s.kill); }
    SettleKeepsInv(s, disposed, SeenAfter(cfg, s.c, d, now));
  }

  // ----- the execution task -----

  lemma TaskKeepsInv(s: Sys, e: Event)
    requires Inv(s) && Enabled(s, e) && (e.Take? || e.Finish? || e.Die?)
    ensures Inv(TaskStep(s, e))
  {
  }

  // ----- reports -----

  function CommitsOf(cfg: Config, result: Option<BasketReport>): Amounts {
    match result case None => [] case Some(r) => MarketDeltas(r.positions, cfg.tokenMarket)
  }

  /** A report commits its costs and can trip halts, never clear them. */
  lemma RiskAfterEffect(cfg: Config, r: RiskState, result: Option<BasketReport>, now: int, m: MarketId)
    ensures var (t, deltas) := (RiskAfter(cfg, r, result, now), CommitsOf(cfg, result));
            && t.exposure == r.exposure + Total(deltas) && t.openOrders == r.openOrders
            && Exposure(t.perMarket, m) == Exposure(r.perMarket, m) + AmountFor(deltas, m)
            && (r.halted.Some? ==> t.halted.Some?) && t.killed == r.killed && t.paused == r.paused
  {
    match result
    case None =>
    case Some(b) =>
      var deltas := MarketDeltas(b.positions, cfg.tokenMarket);
      CommitAllAdds(r, deltas, m);
      RecordErrorsKeeps(cfg.risk, AfterOutcome(cfg, CommitAll(r, deltas), b.outcome, now), now, b.orderErrors);
  }

  /** Receiving a report releases exactly what was reserved and commits what it says. */
  lemma ReceiveBalances(cfg: Config, c: Coord, commits: Amounts, rep: Report, now: int)
    requires Balances(c, commits) && c.inFlight == Some(rep.check)
    ensures Balances(HandleReport(cfg, c, rep, now), commits + CommitsOf(cfg, rep.result))
    ensures HandleReport(cfg, c, rep, now).inFlight.None?
  {
    var t, after := HandleReport(cfg, c, rep, now), commits + CommitsOf(cfg, rep.result);
    var released := Release(c.risk, rep.check);
    assert t.risk == RiskAfter(cfg, released, rep.result, now) && t.inFlight.None?;
    forall m: MarketId
      ensures Exposure(t.risk.perMarket, m) == AmountFor(after, m)
      ensures t.risk.exposure == Total(after) && t.risk.openOrders == 0
    {
      AddAllAdds(c.risk.perMarket, rep.check.perMarket, -1, m);
      RiskAfterEffect(cfg, released, rep.result, now, m);
      AmountsConcat(commits, CommitsOf(cfg, rep.result), m);
    }
    assert Exposure(t.risk.perMarket, 0) == AmountFor(after, 0);
  }

  lemma ReceiveCounts(cfg: Config, s: Sys, now: int)
    requires s.reports != [] && s.c.busy && FatesAddUp(s.c.stats) && DispatchesAddUp(s.c, s.log)
    ensures FatesAddUp(ReceiveStep(cfg, s, now).c.stats)
    ensures DispatchesAddUp(ReceiveStep(cfg, s, now).c, ReceiveStep(cfg, s, now).log)
  {
    var t := ReceiveStep(cfg, s, now);
    assert t.c.stats == StatsAfter(s.c.stats, s.reports[0].result) && !t.c.busy;
  }

  function PosAfter(p: Pos, result: Option<BasketReport>): Pos {
    match result case None => p case Some(b) => AddLeftovers(p, b.positions)
  }

  lemma ReportMoney(cfg: Config, c: Coord, rep: Report, now: int)
    ensures HandleReport(cfg, c, rep, now).cash == c.cash + CashOf(rep.result)
    ensures HandleReport(cfg, c, rep, now).pos == PosAfter(c.pos, rep.result)
  {
  }

  lemma ReceiveBooks(cfg: Config, s: Sys, now: int)
    requires s.reports != [] && MoneyAddsUp(s.c, s.log)
    ensures MoneyAddsUp(ReceiveStep(cfg, s, now).c, ReceiveStep(cfg, s, now).log)
  {
    var rep := s.reports[0];
    ReportMoney(cfg, s.c, rep, now);
    if rep.result.Some? { LeftoversAddToCost(s.c.pos, rep.result.value.positions); }
    assert ReceiveStep(cfg, s, now).c == HandleReport(cfg, s.c, rep, now);
  }

  lemma ReceiveKeepsInv(cfg: Config, s: Sys, now: int)
    requires Inv(s) && Enabled(s, Receive(now))
    ensures Inv(ReceiveStep(cfg, s, now))
  {
    ReceiveBalances(cfg, s.c, s.log.commits, s.reports[0], now);
    ReceiveCounts(cfg, s, now);
    ReceiveBooks(cfg, s, now);
  }

  // ----- flags, halts and shutdown -----

  /** t is r with, at most, a new peak and a first halt. */
  ghost predicate OnlyHalts(r: RiskState, t: RiskState) {
    && t == r.(peakEquity := t.peakEquity, halted := t.halted)
    && (r.halted.Some? ==> t.halted == r.halted)
  }

  lemma EquityOnlyHalts(cfg: Config, r: RiskState, x: int)
    ensures OnlyHalts(r, UpdateEquity(cfg.risk, r, x))
  {
  }

  lemma SessionOnlyHalts(cfg: Config, r: RiskState, x: int)
    ensures OnlyHalts(r, UpdateSessionPnl(cfg.risk, r, x))
  {
  }

  ghost predicate OnlyHaltsIn(c: Coord, t: Coord) {
    t == c.(risk := t.risk, haltLogged := t.haltLogged) && OnlyHalts(c.risk, t.risk)
  }

  lemma WithRiskOnlyHalts(c: Coord, r: RiskState)
    requires OnlyHalts(c.risk, r)
    ensures OnlyHaltsIn(c, WithRisk(c, r)) && WithRisk(c, r).risk == r
  {
  }

  lemma OnlyHaltsChain(c: Coord, d: Coord, e: Coord)
    requires OnlyHaltsIn(c, d) && OnlyHaltsIn(d, e)
    ensures OnlyHaltsIn(c, e)
  {
  }

  /** A snapshot can trip a halt and never rewrites one. */
  lemma SnapshotKeeps(cfg: Config, c: Coord, mid: int, bid: int)
    ensures OnlyHaltsIn(c, Snapshot(cfg, c, mid, bid))
  {
    var r := UpdateEquity(cfg.risk, c.risk, mid);
    EquityOnlyHalts(cfg, c.risk, mid);
    WithRiskOnlyHalts(c, r);
    SessionOnlyHalts(cfg, r, bid);
    WithRiskOnlyHalts(WithRisk(c, r), UpdateSessionPnl(cfg.risk, r, bid));
    OnlyHaltsChain(c, WithRisk(c, r), Snapshot(cfg, c, mid, bid));
  }

  lemma QuietKeepsInv(cfg: Config, s: Sys, e: Event)
    requires Inv(s) && Enabled(s, e) && !e.Opp? && !e.Receive? && !e.GiveBack?
    ensures Inv(QuietStep(cfg, s, e))
  {
    if e.Tick? { SnapshotKeeps(cfg, s.c, e.midEquity, e.bidEquity); }
    SameBalance(s.c, QuietStep(cfg, s, e).c, s.log.commits);
  }

  /** Giving a stranded basket back leaves only what was committed. */
  lemma ShutdownBalances(c: Coord, commits: Amounts)
    requires Balances(c, commits)
    ensures Balances(Shutdown(c), commits)
  {
    if c.inFlight.Some? {
      var b := c.inFlight.value;
      forall m: MarketId ensures Exposure(Release(c.risk, b).perMarket, m) == AmountFor(commits, m) {
        AddAllAdds(c.risk.perMarket, b.perMarket, -1, m);
      }
    }
  }

  lemma GiveBackKeepsInv(cfg: Config, s: Sys, mid: int, bid: int)
    requires Inv(s) && s.phase == Releasing
    ensures Inv(GiveBackStep(cfg, s, mid, bid))
  {
    ShutdownBalances(s.c, s.log.commits);
    SnapshotKeeps(cfg, Shutdown(s.c), mid, bid);
    SameBalance(Shutdown(s.c), GiveBackStep(cfg, s, mid, bid).c, s.log.commits);
  }

  lemma StepKeepsInv(cfg: Config, s: Sys, e: Event)
    requires Inv(s) && Enabled(s, e)
    ensures Inv(Step(cfg, s, e))
  {
    match e
    case Opp(d, now) => OppKeepsInv(cfg, s, d, now);
    case Take | Finish(_) | Die => TaskKeepsInv(s, e);
    case Receive(now) => ReceiveKeepsInv(cfg, s, now);
    case GiveBack(mid, bid) => GiveBackKeepsInv(cfg, s, mid, bid);
    case _ => QuietKeepsInv(cfg, s, e);
  }

  // ----- the laws over every run -----

  lemma {:induction false} RunKeepsInv(cfg: Config, s: Sys, events: seq<Event>, t: Sys)
    requires Inv(s) && Run(cfg, s, events, t)
    ensures Inv(t)
    decreases |events|
  {
    if events == [] {
    } else {
      var n := |events| - 1;
      var m :| Run(cfg, s, events[..n], m) && Enabled(m, events[n]) && Step(cfg, m, events[n]) == t;
      RunKeepsInv(cfg, s, events[..n], m);
      StepKeepsInv(cfg, m, events[n]);
    }
  }

  /** In every interleaving: busy, in flight and outstanding reservation are the
      same thing; exposure is committed cost plus that one reservation; every
      admitted opportunity and every dispatched basket is accounted for. */
  lemma EveryRunHolds(cfg: Config, released: bool, storm: bool, events: seq<Event>, t: Sys)
    requires Run(cfg, Start(released, storm), events, t)
    ensures Inv(t)
  {
    StartHolds(released, storm);
    RunKeepsInv(cfg, Start(released, storm), events, t);
  }

  /** When the coordinator returns nothing is reserved: exposure is what was committed, no order is open. */
  lemma NothingReservedAfterReturn(cfg: Config, released: bool, storm: bool, events: seq<Event>, t: Sys)
    requires Run(cfg, Start(released, storm), events, t) && t.phase == Returned
    ensures t.c.inFlight.None? && !t.c.busy && Pending(t) == 0
    ensures t.c.risk.exposure == Total(t.log.commits) && t.c.risk.openOrders == 0
    ensures forall m: MarketId :: Exposure(t.c.risk.perMarket, m) == AmountFor(t.log.commits, m)
  {
    EveryRunHolds(cfg, released, storm, events, t);
  }
}
