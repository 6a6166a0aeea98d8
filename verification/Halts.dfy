/** When the risk engine halts, over whole runs of errors, successes and snapshots:
    each halt's own condition, said of the run alone. */
module Halts {
  import opened Wrappers
  import opened Num
  import opened Risk
  import opened Positions
  import opened Dispatch

  /** Equity y was the starting peak or was marked at some point of the run. */
  ghost predicate Reached(s: RiskState, run: seq<Change>, y: int) {
    y == s.peakEquity || MidMarked(y) in run
  }

  lemma ReachedNext(s: RiskState, run: seq<Change>, c: Change, y: int)
    ensures Reached(s, run + [c], y) <==> Reached(s, run, y) || c == MidMarked(y)
  {
  }

  /** The peak is the highest equity ever marked, or where it started. */
  lemma {:induction false} PeakIsHighest(cfg: RiskConfig, s: RiskState, run: seq<Change>)
    ensures Reached(s, run, Changed(cfg, s, run).peakEquity)
    ensures forall y :: Reached(s, run, y) ==> y <= Changed(cfg, s, run).peakEquity
  {
    if run == [] {
    } else {
      var n := |run| - 1;
      PeakIsHighest(cfg, s, run[..n]);
      assert run == run[..n] + [run[n]];
      forall y ensures Reached(s, run, y) <==> Reached(s, run[..n], y) || run[n] == MidMarked(y) {
        ReachedNext(s, run[..n], run[n], y);
      }
      NextPeak(cfg, Changed(cfg, s, run[..n]), run[n]);
    }
  }

  lemma NextPeak(cfg: RiskConfig, s: RiskState, c: Change)
    ensures Applied(cfg, s, c).peakEquity == match c case MidMarked(x) => Max(s.peakEquity, x) case _ => s.peakEquity
  {
  }

  /** The last change of a run is one that halts: an error that finds its window full,
      an equity too far below one reached, a session loss at the cap. */
  ghost predicate Trips(cfg: RiskConfig, s: RiskState, run: seq<Change>) {
    run != [] &&
    match run[|run| - 1]
    case Erred(_) => |Trailing(cfg, OpenErrors(run))| >= cfg.errorHaltCount
    case Succeeded => false
    case MidMarked(x) =>
      exists y :: Reached(s, run, y) && y - x >= TruncDiv(cfg.bankroll * cfg.dailyDrawdownBps, 10_000)
    case BidMarked(x) => cfg.sessionLossCap.Some? && x + cfg.sessionLossCap.value <= 0
  }

  /** What a halt tripped by this change is called. */
  function ReasonOf(c: Change): HaltReason {
    match c
    case Erred(_) => ConsecutiveErrors
    case MidMarked(_) => DailyDrawdown
    case BidMarked(_) => SessionLoss
    case Succeeded => ConsecutiveErrors
  }

  /** From an engine that has not halted, one more change halts exactly when it trips, by its own name. */
  lemma NextTrip(cfg: RiskConfig, s: RiskState, run: seq<Change>)
    requires run != [] && s.errors == [] && TimesRise(ErrorTimes(run))
    requires Changed(cfg, s, run[..|run| - 1]).halted.None?
    ensures Changed(cfg, s, run).halted == if Trips(cfg, s, run) then Some(ReasonOf(run[|run| - 1])) else None
  {
    var n := |run| - 1;
    QueueIsWindow(cfg, s, run);
    if run[n].MidMarked? {
      PeakIsHighest(cfg, s, run);
      NextPeak(cfg, Changed(cfg, s, run[..n]), run[n]);
      assert Reached(s, run, Changed(cfg, s, run).peakEquity);
    }
  }

  ghost predicate NeverTrips(cfg: RiskConfig, s: RiskState, run: seq<Change>) {
    forall n :: 0 < n <= |run| ==> !Trips(cfg, s, run[..n])
  }

  lemma NeverTripsNext(cfg: RiskConfig, s: RiskState, run: seq<Change>)
    requires run != []
    ensures NeverTrips(cfg, s, run) <==> NeverTrips(cfg, s, run[..|run| - 1]) && !Trips(cfg, s, run)
  {
    var m := |run| - 1;
    assert run[..|run|] == run;
    forall n | 0 < n <= m ensures run[..m][..n] == run[..n] {}
    if NeverTrips(cfg, s, run) {
      assert !Trips(cfg, s, run[..|run|]);
      forall n | 0 < n <= m ensures !Trips(cfg, s, run[..m][..n]) { assert !Trips(cfg, s, run[..n]); }
    } else {
      var n :| 0 < n <= |run| && Trips(cfg, s, run[..n]);
      assert n == |run| || Trips(cfg, s, run[..m][..n]);
    }
  }

  /** Halts stay. */
  lemma HaltStays(cfg: RiskConfig, s: RiskState, c: Change)
    requires s.halted.Some?
    ensures Applied(cfg, s, c).halted.Some?
  {
  }

  /** Over any run an engine that was not halted is halted at the end exactly when some change tripped. */
  lemma {:induction false} HaltedExactly(cfg: RiskConfig, s: RiskState, run: seq<Change>)
    requires s.errors == [] && s.halted.None? && TimesRise(ErrorTimes(run))
    ensures Changed(cfg, s, run).halted.None? <==> NeverTrips(cfg, s, run)
  {
    if run == [] {
    } else {
      var n := |run| - 1;
      ErrorTimesPrefix(run);
      HaltedExactly(cfg, s, run[..n]);
      NeverTripsNext(cfg, s, run);
      if Changed(cfg, s, run[..n]).halted.None? {
        NextTrip(cfg, s, run);
      } else {
        HaltStays(cfg, Changed(cfg, s, run[..n]), run[n]);
      }
    }
  }

  /** The first change to trip names the halt. */
  lemma FirstTripNames(cfg: RiskConfig, s: RiskState, run: seq<Change>)
    requires s.errors == [] && s.halted.None? && TimesRise(ErrorTimes(run)) && Trips(cfg, s, run)
    requires NeverTrips(cfg, s, run[..|run| - 1])
    ensures Changed(cfg, s, run).halted == Some(ReasonOf(run[|run| - 1]))
  {
    ErrorTimesPrefix(run);
    HaltedExactly(cfg, s, run[..|run| - 1]);
    NextTrip(cfg, s, run);
  }

  // ----- the coordinator's reports and snapshots as changes -----

  /** n order errors at one instant. */
  function Errors(now: int, n: nat): seq<Change> {
    if n == 0 then [] else Errors(now, n - 1) + [Erred(now)]
  }

  /** What a report does to the error chain: a failed execution and an unwound basket
      are an error, a clean or repaired one a success, and order errors come after. */
  function ChangesOf(result: Option<BasketReport>, now: int): seq<Change> {
    match result
    case None => [Erred(now)]
    case Some(b) =>
      (match b.outcome
       case FilledClean | Repaired => [Succeeded]
       case Unwound => [Erred(now)]
       case NoFill | RejectedUnhedged => []) + Errors(now, b.orderErrors)
  }

  ghost predicate SameHalts(a: RiskState, b: RiskState) {
    a.errors == b.errors && a.halted == b.halted && a.peakEquity == b.peakEquity
  }

  lemma ErrorKeepsSame(cfg: RiskConfig, a: RiskState, b: RiskState, now: int)
    requires SameHalts(a, b)
    ensures SameHalts(RecordError(cfg, a, now), RecordError(cfg, b, now))
  {
  }

  lemma {:induction false} ErrorsAreChanges(cfg: RiskConfig, s: RiskState, a: RiskState, run: seq<Change>, now: int,
                                            n: nat)
    requires SameHalts(a, Changed(cfg, s, run))
    ensures SameHalts(RecordErrors(cfg, a, now, n), Changed(cfg, s, run + Errors(now, n)))
  {
    if n == 0 {
      assert run + [] == run;
    } else {
      ErrorsAreChanges(cfg, s, a, run, now, n - 1);
      var before := run + Errors(now, n - 1);
      assert run + Errors(now, n) == before + [Erred(now)];
      ChangedNext(cfg, s, before, Erred(now));
      ErrorKeepsSame(cfg, RecordErrors(cfg, a, now, n - 1), Changed(cfg, s, before), now);
    }
  }

  lemma {:induction false} CommitsKeepHalts(s: RiskState, deltas: Amounts)
    ensures SameHalts(CommitAll(s, deltas), s)
  {
    if deltas == [] {
    } else {
      CommitsKeepHalts(s, deltas[..|deltas| - 1]);
    }
  }

  lemma OneChange(cfg: RiskConfig, s: RiskState, c: Change)
    ensures Changed(cfg, s, [c]) == Applied(cfg, s, c)
  {
    assert [c][..0] == [];
  }

  /** A report moves errors and halts as its changes do, whatever it commits. */
  lemma ReportIsChanges(cfg: Config, r: RiskState, result: Option<BasketReport>, now: int)
    ensures SameHalts(RiskAfter(cfg, r, result, now), Changed(cfg.risk, r, ChangesOf(result, now)))
  {
    OneChange(cfg.risk, r, Erred(now));
    OneChange(cfg.risk, r, Succeeded);
    match result
    case None =>
    case Some(b) =>
      var committed := CommitAll(r, MarketDeltas(b.positions, cfg.tokenMarket));
      CommitsKeepHalts(r, MarketDeltas(b.positions, cfg.tokenMarket));
      var first := match b.outcome
                   case FilledClean | Repaired => [Succeeded]
                   case Unwound => [Erred(now)]
                   case NoFill | RejectedUnhedged => [];
      assert SameHalts(AfterOutcome(cfg, committed, b.outcome, now), Changed(cfg.risk, r, first));
      ErrorsAreChanges(cfg.risk, r, AfterOutcome(cfg, committed, b.outcome, now), first, now, b.orderErrors);
  }

  /** A snapshot marks the mid equity, then the bid equity. */
  lemma SnapshotIsChanges(cfg: Config, c: Coord, mid: int, bid: int)
    ensures Snapshot(cfg, c, mid, bid).risk == Changed(cfg.risk, c.risk, [MidMarked(mid), BidMarked(bid)])
  {
    OneChange(cfg.risk, c.risk, MidMarked(mid));
    ChangedNext(cfg.risk, c.risk, [MidMarked(mid)], BidMarked(bid));
    assert [MidMarked(mid)] + [BidMarked(bid)] == [MidMarked(mid), BidMarked(bid)];
  }
}
