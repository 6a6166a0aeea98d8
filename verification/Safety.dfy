/** What the dispatch protocol never does, whatever happens in whatever order. */
module Safety {
  import opened Wrappers
  import opened Instrument
  import opened Risk
  import opened Positions
  import opened Dispatch
  import opened Protocol

  // ----- what a step can do to dispatches -----

  ghost predicate SentNothing(s: Sys, t: Sys) {
    t.log.sent == s.log.sent && t.c.stats.dispatched == s.c.stats.dispatched
  }

  /** Halts and the kill are only ever added. */
  ghost predicate KeepsStops(s: Sys, t: Sys) {
    && (s.kill ==> t.kill) && (s.c.risk.killed ==> t.c.risk.killed)
    && (s.c.risk.halted.Some? ==> t.c.risk.halted.Some?)
  }

  lemma OppKeepsStops(cfg: Config, s: Sys, d: Detected, now: int)
    ensures var t := OppStep(cfg, s, d, now);
            KeepsStops(s, t) && t.c.risk.paused == s.c.risk.paused && t.c.liveReleased == s.c.liveReleased
  {
    var disposed, seen := Disposed(cfg, s.c, d, now, s.kill), SeenAfter(cfg, s.c, d, now);
    if !disposed.Dispatch? {
      NotDispatched(s, disposed, seen);
    } else if s.execAlive {
      Delivered(s, disposed.req, seen);
    } else {
      Undeliverable(s, disposed.req, seen);
    }
  }

  /** Only an opportunity that passes every gate is dispatched, and then it is the one request added. */
  lemma OppSends(cfg: Config, s: Sys, d: Detected, now: int)
    ensures var (t, disposed) := (OppStep(cfg, s, d, now), Disposed(cfg, s.c, d, now, s.kill));
            || SentNothing(s, t)
            || (disposed.Dispatch? && t.log.sent == s.log.sent + (if s.execAlive then [disposed.req] else []))
  {
    var disposed, seen := Disposed(cfg, s.c, d, now, s.kill), SeenAfter(cfg, s.c, d, now);
    if !disposed.Dispatch? {
      NotDispatched(s, disposed, seen);
    } else if s.execAlive {
      Delivered(s, disposed.req, seen);
    } else {
      Undeliverable(s, disposed.req, seen);
      assert s.log.sent == s.log.sent + [];
    }
  }

  lemma ReceiveSendsNothing(cfg: Config, s: Sys, now: int)
    requires s.reports != []
    ensures var t := ReceiveStep(cfg, s, now);
            SentNothing(s, t) && KeepsStops(s, t) && t.c.risk.paused == s.c.risk.paused &&
                t.c.liveReleased == s.c.liveReleased
  {
    var rep := s.reports[0];
    RiskAfterEffect(cfg, Release(s.c.risk, rep.check), rep.result, now, 0);
    assert ReceiveStep(cfg, s, now).c.stats == StatsAfter(s.c.stats, rep.result);
  }

  lemma QuietSendsNothing(cfg: Config, s: Sys, e: Event)
    requires !e.Opp? && !e.Receive? && !e.GiveBack?
    ensures var t := QuietStep(cfg, s, e);
            && SentNothing(s, t) && KeepsStops(s, t)
            && (e != Ctl(SetPaused(false)) && s.c.risk.paused ==> t.c.risk.paused)
            && (s.c.liveReleased ==> t.c.liveReleased)
  {
    if e.Tick? { SnapshotKeeps(cfg, s.c, e.midEquity, e.bidEquity); }
  }

  lemma GiveBackSendsNothing(cfg: Config, s: Sys, mid: int, bid: int)
    ensures var t := GiveBackStep(cfg, s, mid, bid);
            SentNothing(s, t) && KeepsStops(s, t) && t.c.risk.paused == s.c.risk.paused &&
                t.c.liveReleased == s.c.liveReleased
  {
    SnapshotKeeps(cfg, Shutdown(s.c), mid, bid);
  }

  lemma StepKeepsStops(cfg: Config, s: Sys, e: Event)
    requires Enabled(s, e)
    ensures var t := Step(cfg, s, e);
            && (!e.Opp? ==> SentNothing(s, t)) && KeepsStops(s, t)
            && (e != Ctl(SetPaused(false)) && s.c.risk.paused ==> t.c.risk.paused)
            && (s.c.liveReleased ==> t.c.liveReleased)
  {
    match e
    case Opp(d, now) => OppKeepsStops(cfg, s, d, now);
    case Take | Finish(_) | Die =>
    case Receive(now) => ReceiveSendsNothing(cfg, s, now);
    case GiveBack(mid, bid) => GiveBackSendsNothing(cfg, s, mid, bid);
    case _ => QuietSendsNothing(cfg, s, e);
  }

  // ----- stops are final -----

  ghost predicate Stopped(s: Sys) {
    s.kill || s.c.risk.killed || s.c.risk.halted.Some?
  }

  lemma StoppedStep(cfg: Config, s: Sys, e: Event)
    requires Enabled(s, e) && (Stopped(s) || s.c.risk.paused)
    ensures SentNothing(s, Step(cfg, s, e))
  {
    StepKeepsStops(cfg, s, e);
    if e.Opp? {
      OppSends(cfg, s, e.d, e.now);
      if Disposed(cfg, s.c, e.d, e.now, s.kill).Dispatch? { DispatchNeeds(cfg, s.c, e.d, e.now, s.kill); }
    }
  }

  /** Once the kill flag is up or a halt has tripped, nothing is dispatched for the rest of the run. */
  lemma {:induction false} StopIsFinal(cfg: Config, s: Sys, events: seq<Event>, t: Sys)
    requires Stopped(s) && Run(cfg, s, events, t)
    ensures Stopped(t) && SentNothing(s, t)
    decreases |events|
  {
    if events == [] {
    } else {
      var n := |events| - 1;
      var m :| Run(cfg, s, events[..n], m) && Enabled(m, events[n]) && Step(cfg, m, events[n]) == t;
      StopIsFinal(cfg, s, events[..n], m);
      StoppedStep(cfg, m, events[n]);
      StepKeepsStops(cfg, m, events[n]);
    }
  }

  /** Nothing is dispatched between a pause and the next resume. */
  lemma {:induction false} PauseHolds(cfg: Config, s: Sys, events: seq<Event>, t: Sys)
    requires s.c.risk.paused && Run(cfg, s, events, t)
    requires forall i :: 0 <= i < |events| ==> events[i] != Ctl(SetPaused(false))
    ensures t.c.risk.paused && SentNothing(s, t)
    decreases |events|
  {
    if events == [] {
    } else {
      var n := |events| - 1;
      var m :| Run(cfg, s, events[..n], m) && Enabled(m, events[n]) && Step(cfg, m, events[n]) == t;
      assert forall i :: 0 <= i < n ==> events[..n][i] == events[i];
      PauseHolds(cfg, s, events[..n], m);
      StoppedStep(cfg, m, events[n]);
      StepKeepsStops(cfg, m, events[n]);
    }
  }

  // ----- the commands -----

  /** From a pause command on, and until a resume command, nothing is sent or counted as dispatched. */
  lemma PauseCommandHolds(cfg: Config, s: Sys, events: seq<Event>, t: Sys)
    requires Enabled(s, Ctl(SetPaused(true))) && Run(cfg, Step(cfg, s, Ctl(SetPaused(true))), events, t)
    requires forall i :: 0 <= i < |events| ==> events[i] != Ctl(SetPaused(false))
    ensures t.log.sent == s.log.sent && t.c.stats.dispatched == s.c.stats.dispatched
  {
    PauseHolds(cfg, Step(cfg, s, Ctl(SetPaused(true))), events, t);
  }

  /** The coordinator's flag and the risk engine's are one. */
  ghost predicate PausedAgree(s: Sys) {
    s.c.paused == s.c.risk.paused
  }

  function PausedNext(e: Event, before: bool): bool {
    match e
    case Ctl(SetPaused(p)) => p
    case _ => before
  }

  function ReleasedNext(cfg: Config, e: Event, before: bool): bool {
    before || (cfg.live && e == Ctl(ReleaseLive))
  }

  /** Both flags of t follow those of s by e. */
  ghost predicate FlagsFollow(cfg: Config, s: Sys, e: Event, t: Sys) {
    && PausedAgree(t) && t.c.paused == PausedNext(e, s.c.paused)
    && t.c.liveReleased == ReleasedNext(cfg, e, s.c.liveReleased)
  }

  lemma CtlFlags(cfg: Config, c: Coord, cmd: Command)
    requires c.paused == c.risk.paused
    ensures var t := HandleCtl(cfg, c, cmd);
            && t.paused == t.risk.paused == PausedNext(Ctl(cmd), c.paused)
            && t.liveReleased == ReleasedNext(cfg, Ctl(cmd), c.liveReleased)
  {
  }

  lemma QuietFlags(cfg: Config, s: Sys, e: Event)
    requires PausedAgree(s) && !e.Opp? && !e.Receive? && !e.GiveBack?
    ensures FlagsFollow(cfg, s, e, QuietStep(cfg, s, e))
  {
    match e
    case Ctl(cmd) => CtlFlags(cfg, s.c, cmd);
    case Tick(mid, bid) => SnapshotKeeps(cfg, s.c, mid, bid);
    case NoticeKill => assert QuietStep(cfg, s, e).c.liveReleased == s.c.liveReleased;
    case _ =>
  }

  lemma GiveBackFlags(cfg: Config, s: Sys, mid: int, bid: int)
    requires PausedAgree(s)
    ensures FlagsFollow(cfg, s, GiveBack(mid, bid), GiveBackStep(cfg, s, mid, bid))
  {
    SnapshotKeeps(cfg, Shutdown(s.c), mid, bid);
  }

  lemma TaskFlags(cfg: Config, s: Sys, e: Event)
    requires Enabled(s, e) && PausedAgree(s) && (e.Take? || e.Finish? || e.Die?)
    ensures FlagsFollow(cfg, s, e, TaskStep(s, e))
  {
  }

  lemma ReceiveFlags(cfg: Config, s: Sys, now: int)
    requires s.reports != [] && PausedAgree(s)
    ensures FlagsFollow(cfg, s, Receive(now), ReceiveStep(cfg, s, now))
  {
    ReceiveSendsNothing(cfg, s, now);
  }

  /** Only a command moves a flag. */
  lemma StepFlags(cfg: Config, s: Sys, e: Event)
    requires Enabled(s, e) && PausedAgree(s)
    ensures FlagsFollow(cfg, s, e, Step(cfg, s, e))
  {
    match e
    case Opp(d, now) => OppKeepsFlags(cfg, s, d, now);
    case Take | Finish(_) | Die => TaskFlags(cfg, s, e);
    case Receive(now) => ReceiveFlags(cfg, s, now);
    case GiveBack(mid, bid) => GiveBackFlags(cfg, s, mid, bid);
    case _ => QuietFlags(cfg, s, e);
  }

  lemma OppKeepsFlags(cfg: Config, s: Sys, d: Detected, now: int)
    ensures var t := OppStep(cfg, s, d, now);
            t.c.paused == s.c.paused && t.c.risk.paused == s.c.risk.paused && t.c.liveReleased == s.c.liveReleased
  {
    var disposed, seen := Disposed(cfg, s.c, d, now, s.kill), SeenAfter(cfg, s.c, d, now);
    if !disposed.Dispatch? {
      NotDispatched(s, disposed, seen);
    } else if s.execAlive {
      Delivered(s, disposed.req, seen);
    } else {
      Undeliverable(s, disposed.req, seen);
    }
  }

  /** Whether the last pause or resume command of a run was a pause. */
  function PausedBy(events: seq<Event>): bool {
    if events == [] then false else PausedNext(events[|events| - 1], PausedBy(events[..|events| - 1]))
  }

  /** Whether live dispatch was released at the start, or in live mode by a command since. */
  ghost predicate ReleasedBy(cfg: Config, atStart: bool, events: seq<Event>) {
    atStart || (cfg.live && Ctl(ReleaseLive) in events)
  }

  lemma ReleasedByNext(cfg: Config, atStart: bool, events: seq<Event>, e: Event)
    ensures ReleasedBy(cfg, atStart, events + [e]) <==> ReleasedNext(cfg, e, ReleasedBy(cfg, atStart, events))
  {
  }

  lemma StartFlags(released: bool, storm: bool)
    ensures var c := Start(released, storm).c; !c.paused && !c.risk.paused && c.liveReleased == released
  {
  }

  /** In every run both flags say what the last pause or resume said, and live
      dispatch is released exactly by its command, in live mode only. */
  lemma {:induction false} CommandsDecide(cfg: Config, released: bool, storm: bool, events: seq<Event>, t: Sys)
    requires Run(cfg, Start(released, storm), events, t)
    ensures PausedAgree(t) && t.c.paused == PausedBy(events)
    ensures t.c.liveReleased == ReleasedBy(cfg, released, events)
    decreases |events|
  {
    if events == [] {
      StartFlags(released, storm);
    } else {
      var n := |events| - 1;
      var m :| Run(cfg, Start(released, storm), events[..n], m) && Enabled(m, events[n]) &&
          Step(cfg, m, events[n]) == t;
      CommandsDecide(cfg, released, storm, events[..n], m);
      StepFlags(cfg, m, events[n]);
      ReleasedByNext(cfg, released, events[..n], events[n]);
      assert events == events[..n] + [events[n]];
    }
  }

  /** A resume undoes exactly a pause; a release changes one flag in live mode and nothing on paper. */
  lemma CommandsUndo(cfg: Config, s: Sys)
    requires s.phase == Running
    ensures PausedAgree(s) && !s.c.paused ==>
              Step(cfg, Step(cfg, s, Ctl(SetPaused(true))), Ctl(SetPaused(false))) == s
    ensures Step(cfg, s, Ctl(ReleaseLive)) == if cfg.live then s.(c := s.c.(liveReleased := true)) else s
  {
  }

  // ----- every request that ever goes out -----

  /** What is true of a basket that reached the execution task. */
  ghost predicate Cleared(cfg: Config, req: Request) {
    && req.check == CheckOf(req.op, cfg.tokenMarket) && req.op.edge <= cfg.maxEdgeBps
    && req.check.legs <= cfg.risk.maxBasketLegs && req.check.maxLegCost <= cfg.risk.maxUnhedged
    && (cfg.live ==> PassesLiveGates(cfg, req.op, req.check))
  }

  ghost predicate SentCleared(cfg: Config, s: Sys) {
    && (forall i :: 0 <= i < |s.log.sent| ==> Cleared(cfg, s.log.sent[i]))
    && (cfg.live && !s.c.liveReleased ==> s.log.sent == [])
  }

  lemma DispatchIsCleared(cfg: Config, c: Coord, d: Detected, now: int, kill: bool)
    requires Disposed(cfg, c, d, now, kill).Dispatch?
    ensures Cleared(cfg, Disposed(cfg, c, d, now, kill).req) && (cfg.live ==> c.liveReleased)
  {
  }

  lemma StepClears(cfg: Config, s: Sys, e: Event)
    requires Enabled(s, e) && SentCleared(cfg, s)
    ensures SentCleared(cfg, Step(cfg, s, e))
  {
    StepKeepsStops(cfg, s, e);
    if e.Opp? {
      OppKeepsStops(cfg, s, e.d, e.now);
      OppSends(cfg, s, e.d, e.now);
      if Disposed(cfg, s.c, e.d, e.now, s.kill).Dispatch? { DispatchIsCleared(cfg, s.c, e.d, e.now, s.kill); }
    }
  }

  /** No basket ever goes out above the edge ceiling or the leg limits; in live
      mode none goes out before release or past a live gate. */
  lemma {:induction false} EveryRequestIsCleared(cfg: Config, released: bool, storm: bool, events: seq<Event>, t: Sys)
    requires Run(cfg, Start(released, storm), events, t)
    ensures SentCleared(cfg, t)
    decreases |events|
  {
    if events == [] {
    } else {
      var n := |events| - 1;
      var m :| Run(cfg, Start(released, storm), events[..n], m) && Enabled(m, events[n]) &&
          Step(cfg, m, events[n]) == t;
      EveryRequestIsCleared(cfg, released, storm, events[..n], m);
      StepClears(cfg, m, events[n]);
    }
  }

  ghost predicate SendEffect(cfg: Config, s: Sys, t: Sys, req: Request) {
    && PreCheck(cfg.risk, s.c.risk, req.check) == Approved && !s.c.busy
    && t.requests == s.requests + [req] && t.c.risk == Reserve(s.c.risk, req.check)
  }

  lemma SendReserves(cfg: Config, s: Sys, d: Detected, now: int)
    requires s.execAlive && !SentNothing(s, OppStep(cfg, s, d, now))
    ensures SendEffect(cfg, s, OppStep(cfg, s, d, now), Request(d.op, CheckOf(d.op, cfg.tokenMarket)))
  {
    var disposed := Disposed(cfg, s.c, d, now, s.kill);
    OppSends(cfg, s, d, now);
    DispatchNeeds(cfg, s.c, d, now, s.kill);
    Delivered(s, disposed.req, SeenAfter(cfg, s.c, d, now));
  }

  /** A basket goes out alone, into empty queues. */
  lemma SendIsAlone(cfg: Config, s: Sys, d: Detected, now: int)
    requires SingleFlight(s) && s.execAlive && !SentNothing(s, OppStep(cfg, s, d, now))
    ensures Pending(s) == 0 && OppStep(cfg, s, d, now).requests == [Request(d.op, CheckOf(d.op, cfg.tokenMarket))]
  {
    SendReserves(cfg, s, d, now);
  }

  /** Its reservation leaves every cap respected. */
  lemma SendIsWithinCaps(cfg: Config, s: Sys, d: Detected, now: int)
    requires s.execAlive && !SentNothing(s, OppStep(cfg, s, d, now))
    ensures var (r, check) := (OppStep(cfg, s, d, now).c.risk, CheckOf(d.op, cfg.tokenMarket));
            && r.exposure <= cfg.risk.bankroll && r.openOrders <= cfg.risk.maxOpenOrders
            && forall m: MarketId :: AmountFor(check.perMarket, m) != 0 ==>
                Exposure(r.perMarket, m) <= cfg.risk.perMarketCap
  {
    SendReserves(cfg, s, d, now);
    CheckTotals(d.op, cfg.tokenMarket);
    ApprovedStaysWithinCaps(cfg.risk, s.c.risk, CheckOf(d.op, cfg.tokenMarket));
  }

  // ----- money over a run -----

  /** Realized P&L never depends on marks: reported cash plus reported cost,
      short of whatever cost was reported against nothing held. */
  lemma RealizedIsReported(cfg: Config, released: bool, storm: bool, events: seq<Event>, t: Sys,
                           marks: map<TokenId, int>)
    requires Run(cfg, Start(released, storm), events, t)
    ensures PnlOf(t.c.pos, t.c.cash, marks).realized == t.log.cash + t.log.cost - FlatCost(t.c.pos)
  {
    EveryRunHolds(cfg, released, storm, events, t);
    CostIsHeldOrFlat(t.c.pos);
  }

  predicate SoundResult(result: Option<BasketReport>) {
    result.Some? ==> CostsHaveQuantity(result.value.positions)
  }

  ghost predicate SoundBooks(s: Sys) {
    NoPhantomCost(s.c.pos) && forall i :: 0 <= i < |s.reports| ==> SoundResult(s.reports[i].result)
  }

  lemma OppKeepsBooks(cfg: Config, s: Sys, d: Detected, now: int)
    requires SoundBooks(s)
    ensures SoundBooks(OppStep(cfg, s, d, now))
  {
    var disposed := Disposed(cfg, s.c, d, now, s.kill);
    if !disposed.Dispatch? { NotDispatched(s, disposed, SeenAfter(cfg, s.c, d, now)); }
  }

  lemma QuietKeepsBooks(cfg: Config, s: Sys, e: Event)
    requires SoundBooks(s) && !e.Opp? && !e.Receive? && !e.GiveBack?
    ensures SoundBooks(QuietStep(cfg, s, e))
  {
    if e.Tick? { SnapshotKeeps(cfg, s.c, e.midEquity, e.bidEquity); }
  }

  lemma ReceiveKeepsBooks(cfg: Config, s: Sys, now: int)
    requires s.reports != [] && SoundBooks(s)
    ensures SoundBooks(ReceiveStep(cfg, s, now))
  {
    var result := s.reports[0].result;
    if result.Some? { NoPhantomKept(s.c.pos, result.value.positions); }
  }

  lemma StepKeepsBooks(cfg: Config, s: Sys, e: Event)
    requires Enabled(s, e) && SoundBooks(s) && (e.Finish? ==> SoundResult(e.result))
    ensures SoundBooks(Step(cfg, s, e))
  {
    if e.Opp? {
      OppKeepsBooks(cfg, s, e.d, e.now);
    } else if e.Receive? {
      ReceiveKeepsBooks(cfg, s, e.now);
    } else if e.GiveBack? {
      SnapshotKeeps(cfg, Shutdown(s.c), e.midEquity, e.bidEquity);
    } else if e.Take? || e.Finish? || e.Die? {
      assert Step(cfg, s, e) == TaskStep(s, e);
    } else {
      QuietKeepsBooks(cfg, s, e);
    }
  }

  lemma {:induction false} BooksStaySound(cfg: Config, released: bool, storm: bool, events: seq<Event>, t: Sys)
    requires Run(cfg, Start(released, storm), events, t)
    requires forall i :: 0 <= i < |events| ==> events[i].Finish? ==> SoundResult(events[i].result)
    ensures SoundBooks(t)
    decreases |events|
  {
    if events == [] {
    } else {
      var n := |events| - 1;
      var m :| Run(cfg, Start(released, storm), events[..n], m) && Enabled(m, events[n]) &&
          Step(cfg, m, events[n]) == t;
      assert forall i :: 0 <= i < n ==> events[..n][i] == events[i];
      BooksStaySound(cfg, released, storm, events[..n], m);
      StepKeepsBooks(cfg, m, events[n]);
    }
  }

  /** When every reported position with a cost has a quantity, realized P&L is
      reported cash plus reported cost, whatever the marks. */
  lemma RealizedIsCashPlusCost(cfg: Config, released: bool, storm: bool, events: seq<Event>, t: Sys,
                               marks: map<TokenId, int>)
    requires Run(cfg, Start(released, storm), events, t)
    requires forall i :: 0 <= i < |events| ==> events[i].Finish? ==> SoundResult(events[i].result)
    ensures PnlOf(t.c.pos, t.c.cash, marks).realized == t.log.cash + t.log.cost
  {
    RealizedIsReported(cfg, released, storm, events, t, marks);
    BooksStaySound(cfg, released, storm, events, t);
    NoPhantomNoFlatCost(t.c.pos);
  }

  // ----- shutdown ends -----

  function PhaseRank(p: Phase): nat {
    match p case Running => 3 case Draining => 2 case Releasing => 1 case Returned => 0
  }

  function Remaining(s: Sys): nat {
    3 * |s.requests| + (if s.executing.Some? then 2 else 0) + |s.reports| + (if s.execAlive then 1 else 0) +
        PhaseRank(s.phase)
  }

  /** Some step other than raising the kill flag is always possible until the coordinator returns. */
  lemma DrainGoesOn(s: Sys)
    requires Inv(s) && (s.phase == Draining || s.phase == Releasing)
    ensures Enabled(s, Take) || Enabled(s, Finish(None)) || Enabled(s, Receive(0)) || Enabled(s, DrainDone) ||
        Enabled(s, GiveBack(0, 0))
  {
  }

  lemma DrainAdvances(cfg: Config, s: Sys, e: Event)
    requires s.phase != Running && Enabled(s, e) && e != SetKill
    ensures Remaining(Step(cfg, s, e)) < Remaining(s) && Step(cfg, s, e).phase != Running
  {
  }

  lemma {:induction false} DrainShrinks(cfg: Config, s: Sys, events: seq<Event>, t: Sys)
    requires s.phase != Running && Run(cfg, s, events, t)
    requires forall i :: 0 <= i < |events| ==> events[i] != SetKill
    ensures |events| + Remaining(t) <= Remaining(s) && t.phase != Running
    decreases |events|
  {
    if events == [] {
    } else {
      var n := |events| - 1;
      var m :| Run(cfg, s, events[..n], m) && Enabled(m, events[n]) && Step(cfg, m, events[n]) == t;
      assert forall i :: 0 <= i < n ==> events[..n][i] == events[i];
      DrainShrinks(cfg, s, events[..n], m);
      DrainAdvances(cfg, m, events[n]);
    }
  }

  /** After the opportunity channel closes at most six more steps are possible,
      and one stays possible until the coordinator has returned: shutdown ends. */
  lemma ShutdownEnds(cfg: Config, s: Sys, events: seq<Event>, t: Sys)
    requires Inv(s) && s.phase != Running && Run(cfg, s, events, t)
    requires forall i :: 0 <= i < |events| ==> events[i] != SetKill
    ensures |events| <= 6
    ensures t.phase == Returned || exists e :: e != SetKill && Enabled(t, e)
  {
    DrainShrinks(cfg, s, events, t);
    RunKeepsInv(cfg, s, events, t);
    if t.phase != Returned { DrainGoesOn(t); }
  }
}
