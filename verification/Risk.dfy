/** Exposure accounting with caps and sticky halts, in the form the dispatch
    path uses it: check, reserve, release, commit. */
module Risk {
  import opened Wrappers
  import opened Num
  import opened Instrument
  import opened Sequences

  datatype RiskConfig = RiskConfig(bankroll: int, perMarketCap: int, maxUnhedged: int, maxOpenOrders: nat,
                                   maxBasketLegs: nat, dailyDrawdownBps: int, errorHaltCount: nat,
                                   errorHaltWindow: nat, restartStormCount: nat, sessionLossCap: Option<int>)

  datatype HaltReason = DailyDrawdown | ConsecutiveErrors | RestartStorm | SessionLoss

  datatype RejectReason = Bankroll | PerMarketCap | MaxOpenOrders | MaxBasketLegs | Unhedged | Paused
                        | Halted(h: HaltReason) | KillSwitch

  datatype Verdict = Approved | Rejected(reason: RejectReason)

  // ----- amounts per market, sorted by market -----

  type Amounts = seq<(MarketId, int)>

  /** Adds c to market m's amount, keeping the entries sorted. */
  function Bump(s: Amounts, m: MarketId, c: int): Amounts {
    if s == [] || m < s[0].0 then [(m, c)] + s
    else if m == s[0].0 then [(m, s[0].1 + c)] + s[1..]
    else [s[0]] + Bump(s[1..], m, c)
  }

  function AmountFor(s: Amounts, m: MarketId): int {
    if s == [] then 0 else AmountFor(s[..|s| - 1], m) + if s[|s| - 1].0 == m then s[|s| - 1].1 else 0
  }

  function Total(s: Amounts): int {
    if s == [] then 0 else Total(s[..|s| - 1]) + s[|s| - 1].1
  }

  lemma {:induction false} AmountsConcat(a: Amounts, b: Amounts, m: MarketId)
    ensures AmountFor(a + b, m) == AmountFor(a, m) + AmountFor(b, m)
    ensures Total(a + b) == Total(a) + Total(b)
  {
    if b == [] {
      assert a + b == a;
    } else {
      AmountsConcat(a, b[..|b| - 1], m);
      assert (a + b)[..|a + b| - 1] == a + b[..|b| - 1];
    }
  }

  lemma OneAmount(x: (MarketId, int), m: MarketId)
    ensures AmountFor([x], m) == (if x.0 == m then x.1 else 0) && Total([x]) == x.1
  {
    assert [x][..0] == [];
  }

  lemma {:induction false} BumpAdds(s: Amounts, m: MarketId, c: int, k: MarketId)
    ensures AmountFor(Bump(s, m, c), k) == AmountFor(s, k) + (if k == m then c else 0)
    ensures Total(Bump(s, m, c)) == Total(s) + c
  {
    if s == [] || m < s[0].0 {
      OneAmount((m, c), k);
      AmountsConcat([(m, c)], s, k);
    } else {
      assert s == [s[0]] + s[1..];
      AmountsConcat([s[0]], s[1..], k);
      OneAmount(s[0], k);
      if m == s[0].0 {
        OneAmount((m, s[0].1 + c), k);
        AmountsConcat([(m, s[0].1 + c)], s[1..], k);
      } else {
        BumpAdds(s[1..], m, c, k);
        AmountsConcat([s[0]], Bump(s[1..], m, c), k);
      }
    }
  }

  // ----- state -----

  datatype BasketCheck = BasketCheck(totalCost: int, maxLegCost: int, legs: nat, perMarket: Amounts)

  datatype RiskState = RiskState(exposure: int, perMarket: map<MarketId, int>, openOrders: nat, paused: bool,
                                 halted: Option<HaltReason>, killed: bool, peakEquity: int, errors: seq<int>)

  const FRESH := RiskState(0, map[], 0, false, None, false, 0, [])

  function Exposure(m: map<MarketId, int>, k: MarketId): int {
    if k in m then m[k] else 0
  }

  /** Adds every amount of b, times sign, to the per-market exposures. */
  function AddAll(m: map<MarketId, int>, b: Amounts, sign: int): map<MarketId, int> {
    if b == [] then m
    else
      var x := b[|b| - 1];
      var before := AddAll(m, b[..|b| - 1], sign);
      before[x.0 := Exposure(before, x.0) + sign * x.1]
  }

  lemma {:induction false} AddAllAdds(m: map<MarketId, int>, b: Amounts, sign: int, k: MarketId)
    requires sign == 1 || sign == -1
    ensures Exposure(AddAll(m, b, sign), k) == Exposure(m, k) + sign * AmountFor(b, k)
  {
    if b == [] {
    } else {
      AddAllAdds(m, b[..|b| - 1], sign, k);
    }
  }

  function OverCap(cfg: RiskConfig, m: map<MarketId, int>, b: Amounts): bool {
    exists i :: 0 <= i < |b| && Exposure(m, b[i].0) + b[i].1 > cfg.perMarketCap
  }

  function PreCheck(cfg: RiskConfig, s: RiskState, b: BasketCheck): Verdict {
    if s.killed then Rejected(KillSwitch)
    else if s.halted.Some? then Rejected(Halted(s.halted.value))
    else if s.paused then Rejected(Paused)
    else if b.legs > cfg.maxBasketLegs then Rejected(MaxBasketLegs)
    else if s.openOrders + b.legs > cfg.maxOpenOrders then Rejected(MaxOpenOrders)
    else if b.maxLegCost > cfg.maxUnhedged then Rejected(Unhedged)
    else if s.exposure + b.totalCost > cfg.bankroll then Rejected(Bankroll)
    else if OverCap(cfg, s.perMarket, b.perMarket) then Rejected(PerMarketCap)
    else Approved
  }

  function Reserve(s: RiskState, b: BasketCheck): RiskState {
    s.(exposure := s.exposure + b.totalCost, perMarket := AddAll(s.perMarket, b.perMarket, 1),
       openOrders := s.openOrders + b.legs)
  }

  function Release(s: RiskState, b: BasketCheck): RiskState {
    s.(exposure := s.exposure - b.totalCost, perMarket := AddAll(s.perMarket, b.perMarket, -1),
       openOrders := Max(0, s.openOrders - b.legs))
  }

  function Commit(s: RiskState, m: MarketId, delta: int): RiskState {
    s.(exposure := s.exposure + delta, perMarket := s.perMarket[m := Exposure(s.perMarket, m) + delta])
  }

  function CommitAll(s: RiskState, deltas: Amounts): RiskState {
    if deltas == [] then s
    else Commit(CommitAll(s, deltas[..|deltas| - 1]), deltas[|deltas| - 1].0, deltas[|deltas| - 1].1)
  }

  /** Errors that left the window fall off the front. */
  function DropOld(errors: seq<int>, now: int, window: nat): seq<int> {
    if errors != [] && Max(0, now - errors[0]) > window then DropOld(errors[1..], now, window) else errors
  }

  function RecordError(cfg: RiskConfig, s: RiskState, now: int): RiskState {
    var errors := DropOld(s.errors + [now], now, cfg.errorHaltWindow);
    s.(errors := errors, halted := if |errors| >= cfg.errorHaltCount then Some(ConsecutiveErrors) else s.halted)
  }

  function RecordErrors(cfg: RiskConfig, s: RiskState, now: int, n: nat): RiskState {
    if n == 0 then s else RecordError(cfg, RecordErrors(cfg, s, now, n - 1), now)
  }

  function UpdateEquity(cfg: RiskConfig, s: RiskState, equity: int): RiskState {
    var peak := Max(s.peakEquity, equity);
    s.(peakEquity := peak,
       halted := if s.halted.None? && peak - equity >= TruncDiv(cfg.bankroll * cfg.dailyDrawdownBps, 10_000)
                 then Some(DailyDrawdown) else s.halted)
  }

  function UpdateSessionPnl(cfg: RiskConfig, s: RiskState, pnl: int): RiskState {
    if cfg.sessionLossCap.Some? && s.halted.None? && pnl <= -cfg.sessionLossCap.value
    then s.(halted := Some(SessionLoss)) else s
  }

  // ----- reservation laws -----

  /** Same exposures market by market, whatever keys the maps happen to hold. */
  ghost predicate SameExposure(s: RiskState, t: RiskState) {
    && s.exposure == t.exposure && s.openOrders == t.openOrders
    && forall m: MarketId :: Exposure(s.perMarket, m) == Exposure(t.perMarket, m)
  }

  /** A release undoes its reservation exactly. */
  lemma ReleaseUndoesReserve(s: RiskState, b: BasketCheck)
    ensures SameExposure(Release(Reserve(s, b), b), s)
  {
    forall m: MarketId
      ensures Exposure(Release(Reserve(s, b), b).perMarket, m) == Exposure(s.perMarket, m)
    {
      AddAllAdds(s.perMarket, b.perMarket, 1, m);
      AddAllAdds(Reserve(s, b).perMarket, b.perMarket, -1, m);
    }
  }

  lemma {:induction false} CommitAllAdds(s: RiskState, deltas: Amounts, m: MarketId)
    ensures CommitAll(s, deltas).exposure == s.exposure + Total(deltas)
    ensures Exposure(CommitAll(s, deltas).perMarket, m) == Exposure(s.perMarket, m) + AmountFor(deltas, m)
    ensures CommitAll(s, deltas) == s.(exposure := CommitAll(s, deltas).exposure,
        perMarket := CommitAll(s, deltas).perMarket)
  {
    if deltas == [] {
    } else {
      CommitAllAdds(s, deltas[..|deltas| - 1], m);
    }
  }

  lemma {:induction false} RecordErrorsKeeps(cfg: RiskConfig, s: RiskState, now: int, n: nat)
    ensures var t := RecordErrors(cfg, s, now, n);
            && t == s.(errors := t.errors, halted := t.halted)
            && (s.halted.Some? ==> t.halted.Some?)
  {
    if n == 0 {
    } else {
      RecordErrorsKeeps(cfg, s, now, n - 1);
    }
  }

  /** What an approval promises about the state after the reservation. */
  lemma ApprovedStaysWithinCaps(cfg: RiskConfig, s: RiskState, b: BasketCheck)
    requires PreCheck(cfg, s, b) == Approved
    ensures Reserve(s, b).exposure <= cfg.bankroll && Reserve(s, b).openOrders <= cfg.maxOpenOrders
    ensures !s.killed && s.halted.None? && !s.paused
    ensures OneEach(b.perMarket) ==> forall m: MarketId :: AmountFor(b.perMarket, m) != 0 ==>
              Exposure(Reserve(s, b).perMarket, m) <= cfg.perMarketCap
  {
    if OneEach(b.perMarket) {
      forall m: MarketId | AmountFor(b.perMarket, m) != 0
        ensures Exposure(Reserve(s, b).perMarket, m) <= cfg.perMarketCap
      {
        AddAllAdds(s.perMarket, b.perMarket, 1, m);
        var i := EntryFor(b.perMarket, m);
      }
    }
  }

  ghost predicate OneEach(b: Amounts) {
    forall i, j :: 0 <= i < j < |b| ==> b[i].0 < b[j].0
  }

  lemma {:induction false} EntryFor(b: Amounts, m: MarketId) returns (i: nat)
    requires OneEach(b) && AmountFor(b, m) != 0
    ensures i < |b| && b[i].0 == m && b[i].1 == AmountFor(b, m)
  {
    var n := |b| - 1;
    if b[n].0 == m {
      i := n;
      NoEntryFor(b[..n], m);
    } else {
      i := EntryFor(b[..n], m);
    }
  }

  lemma {:induction false} NoEntryFor(b: Amounts, m: MarketId)
    requires forall i :: 0 <= i < |b| ==> b[i].0 != m
    ensures AmountFor(b, m) == 0
  {
    if b == [] {
    } else {
      NoEntryFor(b[..|b| - 1], m);
    }
  }

  lemma {:induction false} BumpOneEach(s: Amounts, m: MarketId, c: int)
    requires OneEach(s)
    ensures OneEach(Bump(s, m, c))
    ensures forall i :: 0 <= i < |Bump(s, m, c)| ==>
        Bump(s, m, c)[i].0 == m || exists j :: 0 <= j < |s| && s[j].0 == Bump(s, m, c)[i].0
  {
    if s != [] && m > s[0].0 {
      var rest := Bump(s[1..], m, c);
      BumpOneEach(s[1..], m, c);
      forall i | 0 <= i < |rest|
        ensures s[0].0 < rest[i].0 && (rest[i].0 == m || exists j :: 0 <= j < |s| && s[j].0 == rest[i].0)
      {
        if rest[i].0 != m {
          var j :| 0 <= j < |s[1..]| && s[1..][j].0 == rest[i].0;
          assert s[j + 1].0 == rest[i].0;
        }
      }
    } else if s != [] && m == s[0].0 {
      forall i | 0 <= i < |s| ensures Bump(s, m, c)[i].0 == s[i].0 {}
    } else {
      forall i | 1 <= i < |s| + 1 ensures Bump(s, m, c)[i] == s[i - 1] {}
    }
  }

  // ----- the error window -----

  function WithinWindow(now: int, window: nat): int -> bool {
    (t: int) => now - t <= window
  }

  ghost predicate TimesRise(ts: seq<int>) {
    forall i, j :: 0 <= i < j < |ts| ==> ts[i] <= ts[j]
  }

  lemma {:induction false} DropOldIsFilter(ts: seq<int>, now: int, window: nat)
    requires TimesRise(ts) && forall i :: 0 <= i < |ts| ==> ts[i] <= now
    ensures DropOld(ts, now, window) == Filter(ts, WithinWindow(now, window))
  {
    if ts == [] {
    } else {
      if now - ts[0] > window {
        DropOldIsFilter(ts[1..], now, window);
        FilterHead(ts, WithinWindow(now, window));
      } else {
        FilterAll(ts, WithinWindow(now, window));
      }
    }
  }

  lemma {:induction false} NarrowerFilter(ts: seq<int>, before: int, now: int, window: nat)
    requires before <= now
    ensures Filter(Filter(ts, WithinWindow(before, window)), WithinWindow(now, window)) ==
        Filter(ts, WithinWindow(now, window))
  {
    if ts == [] {
    } else {
      var n := |ts| - 1;
      NarrowerFilter(ts[..n], before, now, window);
      var kept := Filter(ts[..n], WithinWindow(before, window));
      assert kept + [] == kept;
      FilterSnoc(kept, ts[n], WithinWindow(now, window));
    }
  }

  lemma {:induction false} FilterRises(ts: seq<int>, keep: int -> bool)
    requires TimesRise(ts)
    ensures TimesRise(Filter(ts, keep))
  {
    if ts == [] {
    } else {
      var n := |ts| - 1;
      var kept := Filter(ts[..n], keep);
      FilterRises(ts[..n], keep);
      forall i | 0 <= i < |kept| ensures kept[i] <= ts[n] {
        FilterMembers(ts[..n], keep, kept[i]);
      }
    }
  }

  /** What can move the error queue or a halt: an order error, a clean basket, and
      the equity and session figures of a snapshot. */
  datatype Change = Erred(at: int) | Succeeded | MidMarked(equity: int) | BidMarked(pnl: int)

  function Applied(cfg: RiskConfig, s: RiskState, c: Change): RiskState {
    match c
    case Erred(at) => RecordError(cfg, s, at)
    case Succeeded => s.(errors := [])
    case MidMarked(equity) => UpdateEquity(cfg, s, equity)
    case BidMarked(pnl) => UpdateSessionPnl(cfg, s, pnl)
  }

  function Changed(cfg: RiskConfig, s: RiskState, run: seq<Change>): RiskState {
    if run == [] then s else Applied(cfg, Changed(cfg, s, run[..|run| - 1]), run[|run| - 1])
  }

  lemma ChangedNext(cfg: RiskConfig, s: RiskState, run: seq<Change>, c: Change)
    ensures Changed(cfg, s, run + [c]) == Applied(cfg, Changed(cfg, s, run), c)
  {
    assert (run + [c])[..|run|] == run;
  }

  /** The times of all errors of a run. */
  function ErrorTimes(run: seq<Change>): seq<int> {
    if run == [] then []
    else
      var n := |run| - 1;
      ErrorTimes(run[..n]) + if run[n].Erred? then [run[n].at] else []
  }

  /** The times of the errors after the last success. */
  function OpenErrors(run: seq<Change>): seq<int> {
    if run == [] then []
    else
      var n := |run| - 1;
      match run[n]
      case Erred(at) => OpenErrors(run[..n]) + [at]
      case Succeeded => []
      case _ => OpenErrors(run[..n])
  }

  lemma {:induction false} OpenErrorsAreLast(run: seq<Change>)
    ensures |OpenErrors(run)| <= |ErrorTimes(run)|
    ensures OpenErrors(run) == ErrorTimes(run)[|ErrorTimes(run)| - |OpenErrors(run)|..]
  {
    if run == [] {
    } else {
      OpenErrorsAreLast(run[..|run| - 1]);
    }
  }

  /** The errors of the window trailing the newest one. */
  function Trailing(cfg: RiskConfig, ts: seq<int>): seq<int> {
    if ts == [] then [] else Filter(ts, WithinWindow(ts[|ts| - 1], cfg.errorHaltWindow))
  }

  /** Popping what is old from yesterday's window and today's error leaves today's window. */
  lemma NextWindow(ts: seq<int>, window: nat)
    requires |ts| > 1 && TimesRise(ts)
    ensures var (n, now) := (|ts| - 1, ts[|ts| - 1]);
            DropOld(Filter(ts[..n], WithinWindow(ts[n - 1], window)) + [now], now, window) ==
                Filter(ts, WithinWindow(now, window))
  {
    var n, now := |ts| - 1, ts[|ts| - 1];
    var before := Filter(ts[..n], WithinWindow(ts[n - 1], window));
    FilterRises(ts[..n], WithinWindow(ts[n - 1], window));
    forall i | 0 <= i < |before| ensures before[i] <= now {
      FilterMembers(ts[..n], WithinWindow(ts[n - 1], window), before[i]);
    }
    DropOldIsFilter(before + [now], now, window);
    FilterSnoc(before, now, WithinWindow(now, window));
    NarrowerFilter(ts[..n], ts[n - 1], now, window);
  }

  lemma FirstWindow(now: int, window: nat)
    ensures DropOld([now], now, window) == Filter([now], WithinWindow(now, window))
  {
    FilterOne(now, WithinWindow(now, window));
  }

  lemma ErrorTimesPrefix(run: seq<Change>)
    requires run != [] && TimesRise(ErrorTimes(run))
    ensures TimesRise(ErrorTimes(run[..|run| - 1]))
  {
    var before := ErrorTimes(run[..|run| - 1]);
    forall i, j | 0 <= i < j < |before| ensures before[i] <= before[j] {
      assert before[i] == ErrorTimes(run)[i] && before[j] == ErrorTimes(run)[j];
    }
  }

  lemma NextTrailing(cfg: RiskConfig, ts: seq<int>)
    requires ts != [] && TimesRise(ts)
    ensures var (n, now) := (|ts| - 1, ts[|ts| - 1]);
            DropOld(Trailing(cfg, ts[..n]) + [now], now, cfg.errorHaltWindow) == Trailing(cfg, ts)
  {
    if |ts| == 1 {
      assert ts == [ts[0]] && ts[..0] == [];
      FirstWindow(ts[0], cfg.errorHaltWindow);
    } else {
      NextWindow(ts, cfg.errorHaltWindow);
    }
  }

  /** Over every run the queue holds exactly the errors since the last success that
      stand in the window trailing the newest, whatever was popped on the way. */
  lemma {:induction false} QueueIsWindow(cfg: RiskConfig, s: RiskState, run: seq<Change>)
    requires s.errors == [] && TimesRise(ErrorTimes(run))
    ensures Changed(cfg, s, run).errors == Trailing(cfg, OpenErrors(run))
  {
    if run == [] {
    } else {
      var n := |run| - 1;
      ErrorTimesPrefix(run);
      QueueIsWindow(cfg, s, run[..n]);
      if run[n].Erred? {
        OpenErrorsAreLast(run);
        NextTrailing(cfg, OpenErrors(run));
        assert OpenErrors(run)[..|OpenErrors(run)| - 1] == OpenErrors(run[..n]);
      }
    }
  }

  /** The newest error of a run, if that is its last change, finds fewer than the
      configured count in its window. */
  ghost predicate HasRoom(cfg: RiskConfig, run: seq<Change>) {
    run != [] && run[|run| - 1].Erred? ==> |Trailing(cfg, OpenErrors(run))| < cfg.errorHaltCount
  }

  /** The error halt trips exactly when an error finds enough errors in its window. */
  lemma ErrorHaltIsExact(cfg: RiskConfig, s: RiskState, run: seq<Change>, at: int)
    requires s.errors == [] && TimesRise(ErrorTimes(run + [Erred(at)])) && Changed(cfg, s, run).halted.None?
    ensures Changed(cfg, s, run + [Erred(at)]).halted.Some? <==>
            |Trailing(cfg, OpenErrors(run + [Erred(at)]))| >= cfg.errorHaltCount
  {
    assert (run + [Erred(at)])[..|run|] == run;
    QueueIsWindow(cfg, s, run + [Erred(at)]);
  }

  /** One more change leaves a halt alone unless it is an error that finds no room. */
  lemma NextChange(cfg: RiskConfig, s: RiskState, run: seq<Change>)
    requires s.errors == [] && run != [] && TimesRise(ErrorTimes(run))
    requires Changed(cfg, s, run[..|run| - 1]).halted.Some?
    ensures Changed(cfg, s, run).halted ==
            if HasRoom(cfg, run) then Changed(cfg, s, run[..|run| - 1]).halted else Some(ConsecutiveErrors)
  {
    QueueIsWindow(cfg, s, run);
  }

  /** Every change after the first k has room. */
  ghost predicate RoomSince(cfg: RiskConfig, k: nat, run: seq<Change>) {
    forall n :: k < n <= |run| ==> HasRoom(cfg, run[..n])
  }

  lemma RoomSinceNext(cfg: RiskConfig, k: nat, run: seq<Change>)
    requires k < |run|
    ensures RoomSince(cfg, k, run) <==> RoomSince(cfg, k, run[..|run| - 1]) && HasRoom(cfg, run)
  {
    var m := |run| - 1;
    assert run[..|run|] == run;
    forall n | k < n <= m ensures run[..m][..n] == run[..n] {}
    if RoomSince(cfg, k, run) {
      assert HasRoom(cfg, run[..|run|]);
      forall n | k < n <= m ensures HasRoom(cfg, run[..m][..n]) { assert HasRoom(cfg, run[..n]); }
    } else {
      var n :| k < n <= |run| && !HasRoom(cfg, run[..n]);
      assert n == |run| || !HasRoom(cfg, run[..m][..n]);
    }
  }

  lemma {:induction false} RenamedOnceFull(cfg: RiskConfig, s: RiskState, run: seq<Change>, k: nat)
    requires s.errors == [] && TimesRise(ErrorTimes(run)) && k <= |run|
    requires Changed(cfg, s, run[..k]).halted.Some?
    ensures Changed(cfg, s, run).halted ==
            if RoomSince(cfg, k, run) then Changed(cfg, s, run[..k]).halted else Some(ConsecutiveErrors)
  {
    if |run| == k {
      assert run[..k] == run;
    } else {
      var m := |run| - 1;
      ErrorTimesPrefix(run);
      assert run[..m][..k] == run[..k];
      RenamedOnceFull(cfg, s, run[..m], k);
      RoomSinceNext(cfg, k, run);
      NextChange(cfg, s, run);
    }
  }

  /** Another halt that stands after k changes keeps its reason over the rest of the
      run exactly when no later error fills its window. The errors that count are
      those since the last success, the ones before the halt included. */
  lemma ReasonSurvives(cfg: RiskConfig, s: RiskState, run: seq<Change>, k: nat)
    requires s.errors == [] && TimesRise(ErrorTimes(run)) && k <= |run|
    requires var halted := Changed(cfg, s, run[..k]).halted; halted.Some? && halted.value != ConsecutiveErrors
    ensures var (before, after) := (Changed(cfg, s, run[..k]).halted, Changed(cfg, s, run).halted);
            && (after == before <==> forall n :: k < n <= |run| ==> HasRoom(cfg, run[..n]))
            && (after == before || after == Some(ConsecutiveErrors))
  {
    RenamedOnceFull(cfg, s, run, k);
  }

  lemma {:induction false} NewestStays(errors: seq<int>, now: int, window: nat, n: nat)
    requires n <= |errors| && forall i :: |errors| - n <= i < |errors| ==> errors[i] == now
    ensures var left := DropOld(errors, now, window);
            n <= |left| && forall i :: |left| - n <= i < |left| ==> left[i] == now
  {
    if errors == [] || Max(0, now - errors[0]) <= window {
    } else {
      assert n < |errors|;
      NewestStays(errors[1..], now, window, n);
    }
  }

  /** Errors reported together all stand in one window: as many as the count rename
      whatever halt was in force, a drawdown's included. */
  lemma {:induction false} ErrorsTogetherRename(cfg: RiskConfig, s: RiskState, now: int, n: nat)
    ensures var errors := RecordErrors(cfg, s, now, n).errors;
            n <= |errors| && forall i :: |errors| - n <= i < |errors| ==> errors[i] == now
    ensures n > 0 && n >= cfg.errorHaltCount ==> RecordErrors(cfg, s, now, n).halted == Some(ConsecutiveErrors)
  {
    if n == 0 {
    } else {
      ErrorsTogetherRename(cfg, s, now, n - 1);
      NewestStays(RecordErrors(cfg, s, now, n - 1).errors + [now], now, cfg.errorHaltWindow, n);
    }
  }

  /** The documented promise fails on a drawdown halt followed by three errors at once. */
  lemma DrawdownIsRenamed(cfg: RiskConfig, s: RiskState, now: int)
    requires s.halted == Some(DailyDrawdown) && cfg.errorHaltCount == 3
    ensures RecordErrors(cfg, s, now, 3).halted == Some(ConsecutiveErrors) != s.halted
  {
    ErrorsTogetherRename(cfg, s, now, 3);
  }

  /** ... and on two errors, then the drawdown, then one more error: the errors
      queued before the halt count. */
  lemma QueuedErrorsRename(cfg: RiskConfig, now: int, equity: int)
    requires cfg.errorHaltCount == 3 && 0 - equity >= TruncDiv(cfg.bankroll * cfg.dailyDrawdownBps, 10_000)
    requires equity <= 0
    ensures var run := [Erred(now), Erred(now), MidMarked(equity), Erred(now)];
            && Changed(cfg, FRESH, run[..3]).halted == Some(DailyDrawdown)
            && Changed(cfg, FRESH, run).halted == Some(ConsecutiveErrors)
  {
    var (e, m) := (Erred(now), MidMarked(equity));
    ChangedNext(cfg, FRESH, [], e);
    ChangedNext(cfg, FRESH, [e], e);
    ChangedNext(cfg, FRESH, [e, e], m);
    ChangedNext(cfg, FRESH, [e, e, m], e);
    assert [e] + [e] == [e, e] && [e, e] + [m] == [e, e, m] == [e, e, m, e][..3] && [e, e, m] + [e] == [e, e, m, e];
    assert RecordError(cfg, FRESH, now).errors == [now];
  }

  // ----- the engine -----

  class RiskEngine {
    const cfg: RiskConfig
    var exposure: int
    var perMarket: map<MarketId, int>
    var openOrders: nat
    var paused: bool
    var halted: Option<HaltReason>
    var killed: bool
    var peakEquity: int
    var errors: seq<int>

    ghost function View(): RiskState
      reads this
    {
      RiskState(exposure, perMarket, openOrders, paused, halted, killed, peakEquity, errors)
    }

    constructor (cfg: RiskConfig)
      ensures this.cfg == cfg && View() == FRESH
    {
      this.cfg := cfg;
      exposure, perMarket, openOrders := 0, map[], 0;
      paused, halted, killed := false, None, false;
      peakEquity, errors := 0, [];
    }

    method Check(b: BasketCheck) returns (v: Verdict)
      ensures v == PreCheck(cfg, View(), b)
    {
      if killed { return Rejected(KillSwitch); }
      if halted.Some? { return Rejected(Halted(halted.value)); }
      if paused { return Rejected(Paused); }
      if b.legs > cfg.maxBasketLegs { return Rejected(MaxBasketLegs); }
      if openOrders + b.legs > cfg.maxOpenOrders { return Rejected(MaxOpenOrders); }
      if b.maxLegCost > cfg.maxUnhedged { return Rejected(Unhedged); }
      if exposure + b.totalCost > cfg.bankroll { return Rejected(Bankroll); }
      for i := 0 to |b.perMarket|
        invariant forall k :: 0 <= k < i ==>
            Exposure(perMarket, b.perMarket[k].0) + b.perMarket[k].1 <= cfg.perMarketCap
      {
        if Exposure(perMarket, b.perMarket[i].0) + b.perMarket[i].1 > cfg.perMarketCap {
          return Rejected(PerMarketCap);
        }
      }
      v := Approved;
    }

    method AddExposures(b: Amounts, sign: int)
      modifies this`perMarket
      ensures perMarket == AddAll(old(perMarket), b, sign)
    {
      for i := 0 to |b|
        invariant perMarket == AddAll(old(perMarket), b[..i], sign)
      {
        assert b[..i + 1][..i] == b[..i];
        perMarket := perMarket[b[i].0 := Exposure(perMarket, b[i].0) + sign * b[i].1];
      }
      assert b[..|b|] == b;
    }

    method Hold(b: BasketCheck)
      modifies this`exposure, this`perMarket, this`openOrders
      ensures View() == Reserve(old(View()), b)
    {
      exposure := exposure + b.totalCost;
      AddExposures(b.perMarket, 1);
      openOrders := openOrders + b.legs;
    }

    method LetGo(b: BasketCheck)
      modifies this`exposure, this`perMarket, this`openOrders
      ensures View() == Release(old(View()), b)
    {
      exposure := exposure - b.totalCost;
      AddExposures(b.perMarket, -1);
      openOrders := if openOrders >= b.legs then openOrders - b.legs else 0;
    }

    method CommitEach(deltas: Amounts)
      modifies this`exposure, this`perMarket
      ensures View() == CommitAll(old(View()), deltas)
    {
      for i := 0 to |deltas|
        invariant View() == CommitAll(old(View()), deltas[..i])
      {
        assert deltas[..i + 1][..i] == deltas[..i];
        exposure := exposure + deltas[i].1;
        perMarket := perMarket[deltas[i].0 := Exposure(perMarket, deltas[i].0) + deltas[i].1];
      }
      assert deltas[..|deltas|] == deltas;
    }

    method Error(now: int)
      modifies this`errors, this`halted
      ensures View() == RecordError(cfg, old(View()), now)
    {
      errors := errors + [now];
      ghost var all := errors;
      while errors != [] && Max(0, now - errors[0]) > cfg.errorHaltWindow
        invariant halted == old(halted)
        invariant DropOld(errors, now, cfg.errorHaltWindow) == DropOld(all, now, cfg.errorHaltWindow)
        decreases |errors|
      {
        errors := errors[1..];
      }
      if |errors| >= cfg.errorHaltCount { halted := Some(ConsecutiveErrors); }
    }

    method Errors(now: int, n: nat)
      modifies this`errors, this`halted
      ensures View() == RecordErrors(cfg, old(View()), now, n)
    {
      for i := 0 to n
        invariant View() == RecordErrors(cfg, old(View()), now, i)
      {
        Error(now);
      }
    }

    method Success()
      modifies this`errors
      ensures View() == old(View()).(errors := [])
    {
      errors := [];
    }

    method Equity(equity: int)
      modifies this`peakEquity, this`halted
      ensures View() == UpdateEquity(cfg, old(View()), equity)
    {
      peakEquity := Max(peakEquity, equity);
      if halted.None? && peakEquity - equity >= TruncDiv(cfg.bankroll * cfg.dailyDrawdownBps, 10_000) {
        halted := Some(DailyDrawdown);
      }
    }

    method SessionPnl(pnl: int)
      modifies this`halted
      ensures View() == UpdateSessionPnl(cfg, old(View()), pnl)
    {
      if cfg.sessionLossCap.Some? && halted.None? && pnl <= -cfg.sessionLossCap.value {
        halted := Some(SessionLoss);
      }
    }
  }
}
