/** The coordinator as an object: its handlers update the risk engine, the
    cooldown, the position book and its own flags in place, and each is proved to
    do what the corresponding function of Dispatch says. */
module CoordinatorTask {
  import opened Wrappers
  import opened Num
  import opened Instrument
  import opened Risk
  import opened Positions
  import opened Dispatch
  import opened Protocol
  import opened Halts
  import Dedup
  import Fingerprint

  // ----- the risk view of a basket -----

  method BuysAndLargest(fills: seq<LegFill>, tokenMarket: map<TokenId, MarketId>)
    returns (perMarket: Amounts, maxLeg: nat)
    ensures perMarket == BuyCosts(fills, tokenMarket) && maxLeg == LargestLeg(fills)
  {
    perMarket, maxLeg := [], 0;
    for i := 0 to |fills|
      invariant perMarket == BuyCosts(fills[..i], tokenMarket) && maxLeg == LargestLeg(fills[..i])
    {
      assert fills[..i + 1][..i] == fills[..i];
      var f := fills[i];
      maxLeg := Max(maxLeg, Abs(f.cash));
      if f.action == Buy && f.token in tokenMarket {
        perMarket := Bump(perMarket, tokenMarket[f.token], Abs(f.cash));
      }
    }
    assert fills[..|fills|] == fills;
  }

  method AddSplits(costs: Amounts, splits: seq<Split>) returns (perMarket: Amounts)
    ensures perMarket == WithSplits(costs, splits)
  {
    perMarket := costs;
    for i := 0 to |splits|
      invariant perMarket == WithSplits(costs, splits[..i])
    {
      assert splits[..i + 1][..i] == splits[..i];
      perMarket := Bump(perMarket, splits[i].0, splits[i].1);
    }
    assert splits[..|splits|] == splits;
  }

  method SumUp(amounts: Amounts) returns (total: int)
    ensures total == Total(amounts)
  {
    total := 0;
    for i := 0 to |amounts|
      invariant total == Total(amounts[..i])
    {
      assert amounts[..i + 1][..i] == amounts[..i];
      total := total + amounts[i].1;
    }
    assert amounts[..|amounts|] == amounts;
  }

  method BasketCheckOf(op: Opportunity, tokenMarket: map<TokenId, MarketId>) returns (check: BasketCheck)
    ensures check == CheckOf(op, tokenMarket)
  {
    var buys, maxLeg := BuysAndLargest(op.fills, tokenMarket);
    var perMarket := AddSplits(buys, op.splits);
    var total := SumUp(perMarket);
    check := BasketCheck(total, maxLeg, |op.fills|, perMarket);
  }

  // ----- coalescing -----

  function Print(d: Detected): nat {
    Fingerprint.Fingerprint(d.op)
  }

  function Coalesce(key: Detected -> nat, kept: map<nat, Detected>, d: Detected): map<nat, Detected> {
    if key(d) in kept && kept[key(d)].op.net >= d.op.net then kept else kept[key(d) := d]
  }

  function CoalesceAll(key: Detected -> nat, batch: seq<Detected>): map<nat, Detected> {
    if batch == [] then map[] else Coalesce(key, CoalesceAll(key, batch[..|batch| - 1]), batch[|batch| - 1])
  }

  /** batch[k] has the best net of its fingerprint and nothing earlier is as good. */
  ghost predicate FirstBest(key: Detected -> nat, batch: seq<Detected>, k: nat)
    requires k < |batch|
  {
    && (forall i :: 0 <= i < |batch| && key(batch[i]) == key(batch[k]) ==> batch[i].op.net <= batch[k].op.net)
    && (forall i :: 0 <= i < k && key(batch[i]) == key(batch[k]) ==> batch[i].op.net < batch[k].op.net)
  }

  ghost predicate KeptFrom(key: Detected -> nat, batch: seq<Detected>, fp: nat, d: Detected, k: nat) {
    k < |batch| && batch[k] == d && key(d) == fp && FirstBest(key, batch, k)
  }

  lemma {:induction false} CoalesceKeepsFirstBest(key: Detected -> nat, batch: seq<Detected>, fp: nat) returns (k: nat)
    requires fp in CoalesceAll(key, batch)
    ensures KeptFrom(key, batch, fp, CoalesceAll(key, batch)[fp], k)
  {
    var n := |batch| - 1;
    var before, d := CoalesceAll(key, batch[..n]), batch[n];
    if fp in before {
      k := CoalesceKeepsFirstBest(key, batch[..n], fp);
      if key(d) == fp && before[fp].op.net < d.op.net {
        BetterIsBest(key, batch, k);
        k := n;
      } else {
        FirstBestExtends(key, batch, k);
      }
    } else {
      k := n;
      CoalesceSees(key, batch[..n], fp);
      assert forall i :: 0 <= i < n ==> batch[..n][i] == batch[i];
    }
  }

  method CoalesceBatch(batch: seq<Detected>) returns (kept: map<nat, Detected>)
    ensures kept == CoalesceAll(Print, batch)
  {
    kept := map[];
    for i := 0 to |batch|
      invariant kept == CoalesceAll(Print, batch[..i])
    {
      assert batch[..i + 1][..i] == batch[..i];
      kept := Coalesce(Print, kept, batch[i]);
    }
    assert batch[..|batch|] == batch;
  }

  lemma {:induction false} CoalesceSees(key: Detected -> nat, batch: seq<Detected>, fp: nat)
    ensures fp in CoalesceAll(key, batch) <==> exists i :: 0 <= i < |batch| && key(batch[i]) == fp
  {
    if batch == [] {
    } else {
      var n := |batch| - 1;
      CoalesceSees(key, batch[..n], fp);
      assert forall i :: 0 <= i < n ==> batch[..n][i] == batch[i];
    }
  }

  lemma BetterIsBest(key: Detected -> nat, batch: seq<Detected>, k: nat)
    requires k < |batch| - 1 && FirstBest(key, batch[..|batch| - 1], k)
    requires key(batch[|batch| - 1]) == key(batch[k]) && batch[|batch| - 1].op.net > batch[k].op.net
    ensures FirstBest(key, batch, |batch| - 1)
  {
    var n := |batch| - 1;
    assert forall i :: 0 <= i < n ==> batch[..n][i] == batch[i];
  }

  lemma FirstBestExtends(key: Detected -> nat, batch: seq<Detected>, k: nat)
    requires k < |batch| - 1 && FirstBest(key, batch[..|batch| - 1], k)
    requires key(batch[|batch| - 1]) == key(batch[k]) ==> batch[|batch| - 1].op.net <= batch[k].op.net
    ensures FirstBest(key, batch, k)
  {
    var n := |batch| - 1;
    forall i | 0 <= i < |batch| && key(batch[i]) == key(batch[k])
      ensures batch[i].op.net <= batch[k].op.net && (i < k ==> batch[i].op.net < batch[k].op.net)
    {
      if i < n { assert batch[..n][i] == batch[i] && batch[..n][k] == batch[k]; }
    }
  }

  /** One candidate per fingerprint seen: the first with the best net. */
  lemma CoalesceKeepsBest(key: Detected -> nat, batch: seq<Detected>, fp: nat)
    ensures fp in CoalesceAll(key, batch) <==> exists i :: 0 <= i < |batch| && key(batch[i]) == fp
    ensures fp in CoalesceAll(key, batch) ==> exists k: nat :: KeptFrom(key, batch, fp, CoalesceAll(key, batch)[fp], k)
  {
    CoalesceSees(key, batch, fp);
    if fp in CoalesceAll(key, batch) { var k := CoalesceKeepsFirstBest(key, batch, fp); }
  }

  // ----- the object -----

  /** Opportunities that have met their first verdict. */
  function Handled(st: Stats): nat {
    st.expired + st.cooldown + st.implausible + st.admitted
  }

  /** Only the kill check touches the kill. */
  ghost predicate KeepsKill(c: Coord, t: Coord) {
    t.killLogged == c.killLogged && t.risk.killed == c.risk.killed
  }

  /** What a basket came to: what the execution task reports, or None when it failed. */
  type Result = Option<BasketReport>

  /** What wakes the loop: opportunities, the result of the basket in flight, the
      report channel's end, the timer with fresh marks, or a control command. */
  datatype Wake = Opps(batch: seq<Detected>) | Reported(result: Result) | ReportsEnded
                | Timer(midMarks: map<TokenId, int>, bidMarks: map<TokenId, int>) | Control(cmd: Command)

  /** Distinct opportunities a wake-up brings. */
  function ArrivalsOf(wake: Wake): nat {
    if wake.Opps? then |CoalesceAll(Print, wake.batch)| else 0
  }

  function Arrivals(wakes: seq<(bool, int, Wake)>): nat {
    if wakes == [] then 0 else Arrivals(wakes[..|wakes| - 1]) + ArrivalsOf(wakes[|wakes| - 1].2)
  }

  /** Some wake-up found the kill flag up. */
  ghost predicate KillSeen(wakes: seq<(bool, int, Wake)>) {
    exists i :: 0 <= i < |wakes| && wakes[i].0
  }

  // ----- the whole loop as a function -----

  /** One candidate's turn: its fingerprint, and the clock, the kill flag and the
      execution task as it met them. */
  datatype Try = Try(fp: nat, now: int, kill: bool, execAlive: bool)

  /** Every kept candidate is tried once, in some order. */
  ghost predicate EachOnce(kept: map<nat, Detected>, tries: seq<Try>) {
    && |tries| == |kept|
    && (forall i, j :: 0 <= i < j < |tries| ==> tries[i].fp != tries[j].fp)
    && (forall i :: 0 <= i < |tries| ==> tries[i].fp in kept)
    && (forall fp :: fp in kept ==> exists i :: 0 <= i < |tries| && tries[i].fp == fp)
  }

  /** Candidates processed in the order tried: the state left and what was sent. */
  function ProcessAll(cfg: Config, c: Coord, kept: map<nat, Detected>, tries: seq<Try>): (Coord, seq<Request>)
    requires forall i :: 0 <= i < |tries| ==> tries[i].fp in kept
  {
    if tries == [] then (c, [])
    else
      var n := |tries| - 1;
      var (before, sent) := ProcessAll(cfg, c, kept, tries[..n]);
      var t := tries[n];
      var (after, one) := Dispatch.ProcessOpp(cfg, before, kept[t.fp], t.now, t.kill, t.execAlive);
      (after, sent + if one.Some? then [one.value] else [])
  }

  ghost predicate Answers(wake: Wake, tries: seq<Try>) {
    if wake.Opps? then EachOnce(CoalesceAll(Print, wake.batch), tries) else tries == []
  }

  function Hear(cfg: Config, c: Coord, result: Result, now: int): Coord {
    if Awaits(c) then Dispatch.HandleReport(cfg, c, Report(c.inFlight.value, result), now) else c
  }

  ghost function Marked(cfg: Config, c: Coord, midMarks: map<TokenId, int>, bidMarks: map<TokenId, int>): Coord {
    Snapshot(cfg, c, PnlOf(c.pos, c.cash, midMarks).equity, PnlOf(c.pos, c.cash, bidMarks).equity)
  }

  /** One wake-up handled. */
  ghost function Woken(cfg: Config, c: Coord, wake: Wake, now: int, tries: seq<Try>): (Coord, seq<Request>)
    requires Answers(wake, tries)
  {
    match wake
    case Opps(batch) => ProcessAll(cfg, c, CoalesceAll(Print, batch), tries)
    case Reported(result) => (Hear(cfg, c, result, now), [])
    case ReportsEnded => (c.(reportClosed := true), [])
    case Timer(mid, bid) => (Marked(cfg, c, mid, bid), [])
    case Control(cmd) => (Dispatch.HandleCtl(cfg, c, cmd), [])
  }

  ghost predicate AllAnswered(wakes: seq<(bool, int, Wake)>, tries: seq<seq<Try>>) {
    |wakes| == |tries| && forall i :: 0 <= i < |wakes| ==> Answers(wakes[i].2, tries[i])
  }

  /** Every wake-up in turn, the kill flag looked at first. */
  ghost function Looped(cfg: Config, c: Coord, wakes: seq<(bool, int, Wake)>, tries: seq<seq<Try>>)
      : (Coord, seq<Request>)
    requires AllAnswered(wakes, tries)
  {
    if wakes == [] then (c, [])
    else
      var n := |wakes| - 1;
      var (before, sent) := Looped(cfg, c, wakes[..n], tries[..n]);
      var (after, more) := Woken(cfg, Dispatch.CheckKill(before, wakes[n].0), wakes[n].2, wakes[n].1, tries[n]);
      (after, sent + more)
  }

  /** The results heard: those that arrive while a basket is in flight and the channel is open. */
  ghost function HeardIn(cfg: Config, c: Coord, wakes: seq<(bool, int, Wake)>, tries: seq<seq<Try>>): seq<Result>
    requires AllAnswered(wakes, tries)
  {
    if wakes == [] then []
    else
      var n := |wakes| - 1;
      HeardIn(cfg, c, wakes[..n], tries[..n]) + Heard(Looped(cfg, c, wakes[..n], tries[..n]).0, wakes[n].2)
  }

  /** After the opportunity channel closed: one awaited report at most, a stranded
      basket given back, a last snapshot. */
  ghost function Finished(cfg: Config, c: Coord, last: Option<Result>, now: int, midMarks: map<TokenId, int>,
                          bidMarks: map<TokenId, int>): Coord
  {
    var heard := if last.Some? then Hear(cfg, c, last.value, now) else c;
    Marked(cfg, Shutdown(heard), midMarks, bidMarks)
  }

  /** All kept candidates but those still to do have been tried, each once. */
  ghost predicate TriedAllBut(kept: map<nat, Detected>, tries: seq<Try>, todo: set<nat>) {
    && |tries| + |todo| == |kept|
    && (forall i, j :: 0 <= i < j < |tries| ==> tries[i].fp != tries[j].fp)
    && (forall i :: 0 <= i < |tries| ==> tries[i].fp in kept && tries[i].fp !in todo)
    && (forall fp :: fp in kept && fp !in todo ==> exists i :: 0 <= i < |tries| && tries[i].fp == fp)
  }

  lemma OneMoreTry(cfg: Config, c: Coord, kept: map<nat, Detected>, tries: seq<Try>, todo: set<nat>, t: Try)
    requires TriedAllBut(kept, tries, todo) && t.fp in todo && t.fp in kept
    ensures TriedAllBut(kept, tries + [t], todo - {t.fp})
    ensures var (before, sent) := ProcessAll(cfg, c, kept, tries);
            var (after, one) := Dispatch.ProcessOpp(cfg, before, kept[t.fp], t.now, t.kill, t.execAlive);
            ProcessAll(cfg, c, kept, tries + [t]) == (after, sent + if one.Some? then [one.value] else [])
  {
    var all := tries + [t];
    assert all[..|tries|] == tries && all[|tries|] == t;
    forall fp | fp in kept && fp !in todo - {t.fp} ensures exists i :: 0 <= i < |all| && all[i].fp == fp {
      if fp != t.fp {
        var i :| 0 <= i < |tries| && tries[i].fp == fp;
        assert all[i].fp == fp;
      }
    }
  }

  lemma AnsweredNext(wakes: seq<(bool, int, Wake)>, i: nat, tries: seq<seq<Try>>, last: seq<Try>)
    requires i < |wakes| && AllAnswered(wakes[..i], tries) && Answers(wakes[i].2, last)
    ensures AllAnswered(wakes[..i + 1], tries + [last])
  {
    var (all, ts) := (wakes[..i + 1], tries + [last]);
    forall k | 0 <= k < |all| ensures Answers(all[k].2, ts[k]) {
      if k < i { assert wakes[..i][k] == all[k] && tries[k] == ts[k]; }
    }
  }

  lemma LoopedNext(cfg: Config, c: Coord, wakes: seq<(bool, int, Wake)>, i: nat, tries: seq<seq<Try>>, last: seq<Try>)
    requires i < |wakes| && AllAnswered(wakes[..i], tries) && Answers(wakes[i].2, last)
    requires AllAnswered(wakes[..i + 1], tries + [last])
    ensures var (before, sent) := Looped(cfg, c, wakes[..i], tries);
            var (after, more) := Woken(cfg, Dispatch.CheckKill(before, wakes[i].0), wakes[i].2, wakes[i].1, last);
            Looped(cfg, c, wakes[..i + 1], tries + [last]) == (after, sent + more)
  {
    var (all, ts) := (wakes[..i + 1], tries + [last]);
    assert all[..i] == wakes[..i] && ts[..i] == tries && all[i] == wakes[i] && ts[i] == last;
  }

  lemma HeardNext(cfg: Config, c: Coord, wakes: seq<(bool, int, Wake)>, i: nat, tries: seq<seq<Try>>, last: seq<Try>)
    requires i < |wakes| && AllAnswered(wakes[..i], tries) && AllAnswered(wakes[..i + 1], tries + [last])
    ensures HeardIn(cfg, c, wakes[..i + 1], tries + [last]) ==
            HeardIn(cfg, c, wakes[..i], tries) + Heard(Looped(cfg, c, wakes[..i], tries).0, wakes[i].2)
  {
    var (all, ts) := (wakes[..i + 1], tries + [last]);
    assert all[..i] == wakes[..i] && ts[..i] == tries && all[i] == wakes[i];
  }

  lemma HeardOne(s: seq<Result>, t: seq<Result>, heard: seq<Result>, wake: Wake)
    requires Subsequence(s, t) && (heard == [] || heard == ResultsOf(wake))
    ensures Subsequence(s + heard, t + ResultsOf(wake))
  {
    if wake.Reported? { SubsequenceGrows(s, t, wake.result); }
    assert s + [] == s && t + [] == t;
  }

  /** What is heard is part of what arrives, in order. */
  lemma {:induction false} HeardIsSubsequence(cfg: Config, c: Coord, wakes: seq<(bool, int, Wake)>,
                                              tries: seq<seq<Try>>)
    requires AllAnswered(wakes, tries)
    ensures Subsequence(HeardIn(cfg, c, wakes, tries), ResultsIn(wakes))
    decreases |wakes|
  {
    if wakes == [] {
    } else {
      var n := |wakes| - 1;
      HeardIsSubsequence(cfg, c, wakes[..n], tries[..n]);
      HeardOne(HeardIn(cfg, c, wakes[..n], tries[..n]), ResultsIn(wakes[..n]),
               Heard(Looped(cfg, c, wakes[..n], tries[..n]).0, wakes[n].2), wakes[n].2);
    }
  }

  // ----- the ledger -----

  function PosIn(results: seq<Result>): Pos {
    if results == [] then map[] else PosAfter(PosIn(results[..|results| - 1]), results[|results| - 1])
  }

  function CashIn(results: seq<Result>): int {
    if results == [] then 0 else CashIn(results[..|results| - 1]) + CashOf(results[|results| - 1])
  }

  function CommitsIn(cfg: Config, results: seq<Result>): Amounts {
    if results == [] then []
    else CommitsIn(cfg, results[..|results| - 1]) + CommitsOf(cfg, results[|results| - 1])
  }

  /** Positions, cash, counted reports and exposure are what these results make them. */
  ghost predicate Ledger(cfg: Config, c: Coord, results: seq<Result>) {
    && c.pos == PosIn(results) && c.cash == CashIn(results) && Protocol.Reported(c.stats) == |results|
    && Balances(c, CommitsIn(cfg, results))
  }

  /** The result a wake-up delivers, when one is awaited. */
  function Heard(c: Coord, wake: Wake): seq<Result> {
    if wake.Reported? && Awaits(c) then [wake.result] else []
  }

  predicate Awaits(c: Coord) {
    c.inFlight.Some? && !c.reportClosed
  }

  function LastHeard(c: Coord, last: Option<Result>): seq<Result> {
    if last.Some? && Awaits(c) then [last.value] else []
  }

  function ResultsOf(wake: Wake): seq<Result> {
    if wake.Reported? then [wake.result] else []
  }

  function ResultsIn(wakes: seq<(bool, int, Wake)>): seq<Result> {
    if wakes == [] then [] else ResultsIn(wakes[..|wakes| - 1]) + ResultsOf(wakes[|wakes| - 1].2)
  }

  /** s is t with some elements left out. */
  ghost predicate Subsequence(s: seq<Result>, t: seq<Result>) {
    if t == [] then s == []
    else
      var n := |t| - 1;
      || Subsequence(s, t[..n])
      || (s != [] && s[|s| - 1] == t[n] && Subsequence(s[..|s| - 1], t[..n]))
  }

  lemma SubsequenceGrows(s: seq<Result>, t: seq<Result>, x: Result)
    requires Subsequence(s, t)
    ensures Subsequence(s, t + [x]) && Subsequence(s + [x], t + [x])
  {
    assert (t + [x])[..|t|] == t && (s + [x])[..|s|] == s;
  }

  lemma EmptyLedger(cfg: Config, c: Coord)
    requires c.pos == map[] && c.cash == 0 && Protocol.Reported(c.stats) == 0 && Balances(c, [])
    ensures Ledger(cfg, c, [])
  {
    var none: seq<Result> := [];
    assert PosIn(none) == map[] && CashIn(none) == 0 && CommitsIn(cfg, none) == [];
  }

  lemma NothingCounted(st: Stats)
    requires st == NO_STATS
    ensures FatesAddUp(st) && Handled(st) == 0
  {
  }

  lemma NothingReported(st: Stats)
    requires st == NO_STATS
    ensures Protocol.Reported(st) == 0
  {
  }

  lemma StartFields(releasedAtStart: bool, c: Coord)
    requires c == Start(releasedAtStart, false).c
    ensures c.pos == map[] && c.cash == 0 && c.stats == NO_STATS && !c.killLogged
  {
  }

  lemma NothingYet(cfg: Config, releasedAtStart: bool, c: Coord)
    requires c == Start(releasedAtStart, false).c
    ensures Ledger(cfg, c, []) && FatesAddUp(c.stats) && !c.killLogged && Handled(c.stats) == 0
  {
    StartFields(releasedAtStart, c);
    StartExposure(releasedAtStart, false);
    NothingCounted(c.stats);
    NothingReported(c.stats);
    assert Balances(c, []);
    EmptyLedger(cfg, c);
  }

  /** Nothing reserved beyond what these results committed. */
  ghost predicate OnlyCommitted(r: RiskState, commits: Amounts) {
    && r.exposure == Total(commits) && r.openOrders == 0
    && forall m: MarketId :: Exposure(r.perMarket, m) == AmountFor(commits, m)
  }

  lemma NothingInFlight(cfg: Config, c: Coord, results: seq<Result>)
    requires Ledger(cfg, c, results) && c.inFlight.None?
    ensures OnlyCommitted(c.risk, CommitsIn(cfg, results))
    ensures c.pos == PosIn(results) && c.cash == CashIn(results) && Protocol.Reported(c.stats) == |results|
  {
  }

  /** What the coordinator returns. */
  datatype Summary = Summary(cash: int, equity: int, openPositions: nat)

  ghost function SummaryOf(pos: Pos, cash: int, marks: map<TokenId, int>): Summary {
    Summary(cash, PnlOf(pos, cash, marks).equity, |OpenTokens(pos)|)
  }

  lemma ReportKeepsLedger(cfg: Config, c: Coord, results: seq<Result>, rep: Report, now: int)
    requires Ledger(cfg, c, results) && c.inFlight == Some(rep.check)
    ensures Ledger(cfg, Dispatch.HandleReport(cfg, c, rep, now), results + [rep.result])
  {
    var n := |results|;
    assert (results + [rep.result])[..n] == results;
    ReportMoney(cfg, c, rep, now);
    ReceiveBalances(cfg, c, CommitsIn(cfg, results), rep, now);
    assert Dispatch.HandleReport(cfg, c, rep, now).stats == StatsAfter(c.stats, rep.result);
  }

  lemma ProcessKeepsLedger(cfg: Config, c: Coord, results: seq<Result>, d: Detected, now: int, kill: bool,
                           execAlive: bool)
    requires Ledger(cfg, c, results) && (c.busy <==> c.inFlight.Some?)
    ensures Ledger(cfg, Dispatch.ProcessOpp(cfg, c, d, now, kill, execAlive).0, results)
  {
    var disposed := Disposed(cfg, c, d, now, kill);
    if disposed.Dispatch? { DispatchNeeds(cfg, c, d, now, kill); }
    SettleBalances(c, disposed, SeenAfter(cfg, c, d, now), execAlive, CommitsIn(cfg, results));
    SettleKeepsBooks(c, disposed, SeenAfter(cfg, c, d, now), execAlive);
  }

  lemma SettleKeepsBooks(c: Coord, disposed: Disposition, seen: Dedup.Seen, execAlive: bool)
    ensures var t := Settle(c, disposed, seen, execAlive).0;
            t.pos == c.pos && t.cash == c.cash && Protocol.Reported(t.stats) == Protocol.Reported(c.stats)
  {
    SettleMoves(c, disposed, seen, execAlive);
    CountedMoves(c.stats, disposed);
  }

  lemma SettleMoves(c: Coord, disposed: Disposition, seen: Dedup.Seen, execAlive: bool)
    ensures var (t, sent) := Settle(c, disposed, seen, execAlive);
            && t.pos == c.pos && t.cash == c.cash && t.stats == Counted(c.stats, disposed)
            && sent.Some? == (disposed.Dispatch? && execAlive)
            && t.busy == if disposed.Dispatch? then execAlive else c.busy
  {
    var counted := c.(seen := seen, stats := Counted(c.stats, disposed));
    match disposed
    case Dispatch(req) => SendMoves(counted, req, execAlive);
    case _ =>
      var t := Settle(c, disposed, seen, execAlive).0;
      assert t == counted.(haltLogged := t.haltLogged);
  }

  lemma SendMoves(c: Coord, req: Request, execAlive: bool)
    ensures var (t, sent) := Send(c, req, execAlive);
            && t.pos == c.pos && t.cash == c.cash && t.stats == c.stats
            && sent.Some? == execAlive && t.busy == execAlive
  {
  }

  lemma CountedMoves(st: Stats, disposed: Disposition)
    ensures var after := Counted(st, disposed);
            && Protocol.Reported(after) == Protocol.Reported(st) && Handled(after) == Handled(st) + 1
            && (FatesAddUp(st) ==> FatesAddUp(after))
  {
  }

  /** Only flags and halts moved, or a stranded basket was given back. */
  lemma QuietKeepsLedger(cfg: Config, c: Coord, results: seq<Result>, t: Coord)
    requires Ledger(cfg, c, results) && t.pos == c.pos && t.cash == c.cash && t.stats == c.stats
    requires t.inFlight == c.inFlight && t.risk.exposure == c.risk.exposure
    requires t.risk.openOrders == c.risk.openOrders && t.risk.perMarket == c.risk.perMarket
    ensures Ledger(cfg, t, results)
  {
    SameBalance(c, t, CommitsIn(cfg, results));
  }

  class Coordinator {
    const cfg: Config
    const risk: RiskEngine
    const cooldown: Dedup.Cooldown
    const positions: PositionBook
    var busy: bool
    var inFlight: Option<BasketCheck>
    var reportClosed: bool
    var killLogged: bool
    var haltLogged: bool
    var paused: bool
    var liveReleased: bool
    var stats: Stats

    ghost function View(): Coord
      reads this, risk, cooldown, positions
    {
      Coord(risk.View(), cooldown.seen, positions.pos, positions.cash, busy, inFlight, reportClosed, killLogged,
            haltLogged, paused, liveReleased, stats)
    }

    ghost predicate Valid()
      reads this
    {
      && risk.cfg == cfg.risk && cooldown.window == cfg.window && cooldown.improvementPct == cfg.improvementPct
      && (busy <==> inFlight.Some?)
    }

    constructor (cfg: Config, releasedAtStart: bool)
      ensures Valid() && this.cfg == cfg && View() == Start(releasedAtStart, false).c
      ensures fresh(risk) && fresh(cooldown) && fresh(positions)
    {
      this.cfg := cfg;
      risk := new RiskEngine(cfg.risk);
      cooldown := new Dedup.Cooldown(cfg.window, cfg.improvementPct);
      positions := new PositionBook();
      busy, inFlight, reportClosed := false, None, false;
      killLogged, haltLogged, paused, liveReleased := false, false, false, releasedAtStart;
      stats := NO_STATS;
    }

    method NoteHalt()
      modifies this`haltLogged
      ensures View() == LogHalt(old(View()))
    {
      if risk.halted.Some? { haltLogged := true; }
    }

    method PassesGates(op: Opportunity, check: BasketCheck) returns (ok: bool)
      ensures ok == PassesLiveGates(cfg, op, check)
    {
      for i := 0 to |op.fills|
        invariant forall k :: 0 <= k < i ==> op.fills[k].action == Buy
      {
        if op.fills[i].action != Buy { return false; }
      }
      if op.splits != [] || check.totalCost > cfg.basketCap { return false; }
      for i := 0 to |op.fills|
        invariant forall k :: 0 <= k < i ==> op.fills[k].qty >= cfg.minLeg
      {
        if op.fills[i].qty < cfg.minLeg { return false; }
      }
      for i := 0 to |op.fills|
        invariant forall k :: 0 <= k < i ==>
            BuyCost(MicroUsdc(op.fills[k].limitPx, op.fills[k].ts), op.fills[k].qty) >= cfg.minLegValue
      {
        if BuyCost(MicroUsdc(op.fills[i].limitPx, op.fills[i].ts), op.fills[i].qty) < cfg.minLegValue { return false; }
      }
      ok := true;
    }

    /** Tries every gate in order; only the cooldown is touched. */
    method Judge(d: Detected, now: int, kill: bool) returns (disposed: Disposition)
      requires Valid()
      modifies cooldown
      ensures disposed == Disposed(cfg, old(View()), d, now, kill)
      ensures cooldown.seen == SeenAfter(cfg, old(View()), d, now)
    {
      if d.age > cfg.maxAge { return Expired; }
      var admit := cooldown.Admit(now, d.op);
      if !admit { return Cooled; }
      if d.op.edge > cfg.maxEdgeBps { return Implausible; }
      var check := BasketCheckOf(d.op, cfg.tokenMarket);
      if cfg.live {
        if !liveReleased { return HeldBack; }
        var ok := PassesGates(d.op, check);
        if !ok { return LiveRejected; }
      }
      var verdict := risk.Check(check);
      if verdict != Approved { return RiskRejected; }
      if busy || kill { return Busy; }
      return Dispatch(Request(d.op, check));
    }

    /** Counts the verdict and acts on it; what is sent to a live execution task comes back. */
    method Act(disposed: Disposition, execAlive: bool) returns (sent: Option<Request>)
      requires Valid() && (disposed.Dispatch? ==> !busy)
      modifies this, risk
      ensures Valid() && (View(), sent) == Settle(old(View()), disposed, cooldown.seen, execAlive)
    {
      sent := None;
      stats := Counted(stats, disposed);
      match disposed {
        case Dispatch(req) => sent := Launch(req, execAlive);
        case RiskRejected => NoteHalt();
        case _ =>
      }
    }

    method ProcessOpp(d: Detected, now: int, kill: bool, execAlive: bool) returns (sent: Option<Request>)
      requires Valid()
      modifies this, risk, cooldown
      ensures Valid() && (View(), sent) == Dispatch.ProcessOpp(cfg, old(View()), d, now, kill, execAlive)
    {
      var disposed := Judge(d, now, kill);
      if disposed.Dispatch? { DispatchNeeds(cfg, old(View()), d, now, kill); }
      ghost var judged := View();
      assert judged == old(View()).(seen := cooldown.seen);
      sent := Act(disposed, execAlive);
      SettleSeen(old(View()), disposed, judged.seen, execAlive);
    }

    method Launch(req: Request, execAlive: bool) returns (sent: Option<Request>)
      requires Valid() && !busy
      modifies this, risk
      ensures Valid()
      ensures (View(), sent) == Send(old(View()), req, execAlive)
    {
      risk.Hold(req.check);
      busy, inFlight := true, Some(req.check);
      if execAlive {
        sent := Some(req);
      } else {
        risk.LetGo(req.check);
        busy, inFlight, sent := false, None, None;
      }
    }

    method Book(rep: Report, now: int)
      requires Valid()
      modifies this`busy, this`inFlight, this`stats, risk, positions
      ensures Valid() && View() == Booked(cfg, old(View()), rep, now)
    {
      busy, inFlight := false, None;
      risk.LetGo(rep.check);
      Absorb(rep.result, now);
    }

    method HandleReport(rep: Report, now: int)
      requires Valid()
      modifies this, risk, positions
      ensures Valid() && View() == Dispatch.HandleReport(cfg, old(View()), rep, now)
    {
      Book(rep, now);
      NoteHalt();
    }

    /** The execution task answers for the basket it was sent. */
    method Receive(result: Result, now: int, ghost results: seq<Result>)
      requires Sound(results) && busy
      modifies this, risk, positions
      ensures Sound(results + [result]) && !busy
      ensures View() == Dispatch.HandleReport(cfg, old(View()), Report(old(inFlight.value), result), now)
      ensures Handled(stats) == old(Handled(stats)) && KeepsKill(old(View()), View())
    {
      ghost var rep := Report(inFlight.value, result);
      HandleReport(Report(inFlight.value, result), now);
      ReportKeepsFates(cfg, old(View()), rep, now);
      ReportKeepsLedger(cfg, old(View()), results, rep, now);
    }

    /** Books a result: positions and cash, committed cost, counters, the error chain. */
    method Absorb(result: Option<BasketReport>, now: int)
      requires Valid()
      modifies this`stats, risk, positions
      ensures risk.View() == RiskAfter(cfg, old(risk.View()), result, now) && stats == StatsAfter(old(stats), result)
      ensures positions.pos == PosAfter(old(positions.pos), result)
      ensures positions.cash == old(positions.cash) + CashOf(result)
    {
      match result {
        case None =>
          stats := stats.(execErrors := stats.execErrors + 1);
          risk.Error(now);
        case Some(b) =>
          var deltas := positions.Apply(b.positions, b.cashDelta, cfg.tokenMarket);
          risk.CommitEach(deltas);
          stats := CountOutcome(stats, b.outcome);
          match b.outcome {
            case FilledClean | Repaired => risk.Success();
            case Unwound => risk.Error(now);
            case NoFill | RejectedUnhedged =>
          }
          risk.Errors(now, b.orderErrors);
      }
    }

    method CheckKill(kill: bool)
      requires Valid()
      modifies this`killLogged, risk`killed
      ensures Valid() && View() == Dispatch.CheckKill(old(View()), kill)
    {
      if kill && !killLogged {
        risk.killed := true;
        killLogged := true;
      }
    }

    method HandleCtl(cmd: Command)
      requires Valid()
      modifies this`paused, this`liveReleased, risk`paused
      ensures Valid() && View() == Dispatch.HandleCtl(cfg, old(View()), cmd)
    {
      match cmd {
        case SetPaused(p) =>
          paused := p;
          risk.paused := p;
        case ReleaseLive =>
          if cfg.live && !liveReleased { liveReleased := true; }
      }
    }

    /** Bid marks feed the session-loss cap, mid marks the drawdown halt. */
    method SnapshotPnl(midMarks: map<TokenId, int>, bidMarks: map<TokenId, int>)
      requires Valid()
      modifies this`haltLogged, risk
      ensures Valid()
      ensures View() == Snapshot(cfg, old(View()), old(PnlOf(positions.pos, positions.cash, midMarks).equity),
                                 old(PnlOf(positions.pos, positions.cash, bidMarks).equity))
    {
      var pnl := positions.ComputePnl(bidMarks);
      var pnlMid := positions.ComputePnl(midMarks);
      FeedHalts(pnlMid.equity, pnl.equity);
    }

    method FeedHalts(midEquity: int, bidEquity: int)
      requires Valid()
      modifies this`haltLogged, risk
      ensures Valid() && View() == Snapshot(cfg, old(View()), midEquity, bidEquity)
    {
      risk.Equity(midEquity);
      NoteHalt();
      assert View() == WithRisk(old(View()), UpdateEquity(cfg.risk, old(View()).risk, midEquity));
      risk.SessionPnl(bidEquity);
      NoteHalt();
    }

    /** A snapshot moves nothing but the peak, the first halt and its log. */
    method Observe(midMarks: map<TokenId, int>, bidMarks: map<TokenId, int>, ghost results: seq<Result>)
      requires Sound(results)
      modifies this`haltLogged, risk
      ensures Sound(results) && OnlyHaltsIn(old(View()), View())
      ensures View() == Marked(cfg, old(View()), midMarks, bidMarks)
    {
      SnapshotPnl(midMarks, bidMarks);
      SnapshotKeeps(cfg, old(View()), old(PnlOf(positions.pos, positions.cash, midMarks).equity),
                    old(PnlOf(positions.pos, positions.cash, bidMarks).equity));
      QuietKeepsLedger(cfg, old(View()), results, View());
    }

    method ReleaseStranded(ghost results: seq<Result>)
      requires Sound(results)
      modifies this`busy, this`inFlight, risk
      ensures Sound(results) && !busy && View() == Shutdown(old(View()))
    {
      if inFlight.Some? {
        risk.LetGo(inFlight.value);
        busy, inFlight := false, None;
      }
      ShutdownBalances(old(View()), CommitsIn(cfg, results));
    }

    /** One candidate, with the clock, the kill flag and the execution task as they happen to be. */
    method TryOne(fp: nat, d: Detected, ghost results: seq<Result>) returns (one: Option<Request>, ghost t: Try)
      requires Sound(results)
      modifies this, risk, cooldown
      ensures Sound(results) && t.fp == fp
      ensures (View(), one) == Dispatch.ProcessOpp(cfg, old(View()), d, t.now, t.kill, t.execAlive)
    {
      var now: int, kill: bool, execAlive: bool := *, *, *;
      t := Try(fp, now, kill, execAlive);
      one := ProcessOpp(d, now, kill, execAlive);
      ProcessKeepsCounts(cfg, old(View()), d, now, kill, execAlive);
      ProcessKeepsLedger(cfg, old(View()), results, d, now, kill, execAlive);
    }

    /** The kept candidates, in whatever order the map yields them. */
    method ProcessKept(kept: map<nat, Detected>, ghost results: seq<Result>)
        returns (sent: seq<Request>, ghost tries: seq<Try>)
      requires Sound(results)
      modifies this, risk, cooldown
      ensures Sound(results) && EachOnce(kept, tries)
      ensures (View(), sent) == ProcessAll(cfg, old(View()), kept, tries)
    {
      sent, tries := [], [];
      var todo := kept.Keys;
      while todo != {}
        invariant todo <= kept.Keys && Sound(results) && TriedAllBut(kept, tries, todo)
        invariant (View(), sent) == ProcessAll(cfg, old(View()), kept, tries)
        decreases todo
      {
        var fp :| fp in todo;
        var one, t := TryOne(fp, kept[fp], results);
        OneMoreTry(cfg, old(View()), kept, tries, todo, t);
        tries := tries + [t];
        sent := sent + if one.Some? then [one.value] else [];
        todo := todo - {fp};
      }
    }

    /** A drained batch: coalesced, then processed in any order. The clock, the
        kill flag and the execution task may change between opportunities. */
    method HandleOpps(batch: seq<Detected>, ghost results: seq<Result>)
        returns (sent: seq<Request>, ghost tries: seq<Try>)
      requires Sound(results)
      modifies this, risk, cooldown
      ensures Sound(results) && Handled(stats) == old(Handled(stats)) + |CoalesceAll(Print, batch)|
      ensures EachOnce(CoalesceAll(Print, batch), tries)
      ensures (View(), sent) == ProcessAll(cfg, old(View()), CoalesceAll(Print, batch), tries)
      ensures |sent| + Outstanding(old(View())) == Outstanding(View()) && KeepsKill(old(View()), View())
    {
      var kept := CoalesceBatch(batch);
      sent, tries := ProcessKept(kept, results);
      ProcessAllKeepsCounts(cfg, old(View()), kept, tries);
    }

    /** A report is heard only while a basket is in flight and the channel is open. */
    method HearReport(result: Result, now: int, ghost results: seq<Result>)
      requires Sound(results)
      modifies this, risk, positions
      ensures Sound(if Awaits(old(View())) then results + [result] else results)
      ensures View() == Hear(cfg, old(View()), result, now) && KeepsKill(old(View()), View())
      ensures Handled(stats) == old(Handled(stats))
      ensures Outstanding(old(View())) == (if Awaits(old(View())) then 1 else 0) + Outstanding(View())
    {
      if busy && !reportClosed { Receive(result, now, results); }
    }

    method Handle(wake: Wake, now: int, ghost results: seq<Result>) returns (sent: seq<Request>, ghost tries: seq<Try>)
      requires Sound(results)
      modifies this, risk, cooldown, positions
      ensures Sound(results + Heard(old(View()), wake))
      ensures Answers(wake, tries) && (View(), sent) == Woken(cfg, old(View()), wake, now, tries)
    {
      sent, tries := [], [];
      assert results + [] == results;
      match wake {
        case Opps(batch) => sent, tries := HandleOpps(batch, results);
        case Reported(result) => HearReport(result, now, results);
        case ReportsEnded => EndReports(results);
        case Timer(mid, bid) => Observe(mid, bid, results);
        case Control(cmd) => Command(cmd, results);
      }
    }

    method EndReports(ghost results: seq<Result>)
      requires Sound(results)
      modifies this`reportClosed
      ensures Sound(results) && View() == old(View()).(reportClosed := true)
    {
      reportClosed := true;
      QuietKeepsLedger(cfg, old(View()), results, View());
    }

    method Command(cmd: Command, ghost results: seq<Result>)
      requires Sound(results)
      modifies this`paused, this`liveReleased, risk`paused
      ensures Sound(results) && View() == Dispatch.HandleCtl(cfg, old(View()), cmd)
    {
      HandleCtl(cmd);
      QuietKeepsLedger(cfg, old(View()), results, View());
    }

    /** The books are in order for the results received so far. */
    ghost predicate Sound(results: seq<Result>)
      reads this, risk, cooldown, positions
    {
      Valid() && FatesAddUp(stats) && (killLogged ==> risk.killed) && Ledger(cfg, View(), results)
    }

    /** One turn of the loop: the kill flag is looked at first. */
    method Turn(kill: bool, wake: Wake, now: int, ghost results: seq<Result>)
        returns (sent: seq<Request>, ghost tries: seq<Try>)
      requires Sound(results)
      modifies this, risk, cooldown, positions
      ensures Sound(results + Heard(old(View()), wake))
      ensures Answers(wake, tries)
      ensures (View(), sent) == Woken(cfg, Dispatch.CheckKill(old(View()), kill), wake, now, tries)
      ensures Handled(stats) == old(Handled(stats)) + ArrivalsOf(wake)
      ensures |sent| + Outstanding(old(View())) == |Heard(old(View()), wake)| + Outstanding(View())
      ensures killLogged == (old(killLogged) || kill)
    {
      CheckKill(kill);
      QuietKeepsLedger(cfg, old(View()), results, View());
      ghost var checked := View();
      sent, tries := Handle(wake, now, results);
      WokenKeepsCounts(cfg, checked, wake, now, tries);
    }

    /** One report is awaited if a basket is in flight; the channel may end instead. */
    method HearLast(last: Option<Result>, now: int, ghost results: seq<Result>) returns (ghost all: seq<Result>)
      requires Sound(results)
      modifies this, risk, positions
      ensures all == results + LastHeard(old(View()), last) && Sound(all)
      ensures View() == if last.Some? then Hear(cfg, old(View()), last.value, now) else old(View())
      ensures Handled(stats) == old(Handled(stats)) && killLogged == old(killLogged)
    {
      all := results + LastHeard(View(), last);
      assert results + [] == results;
      if last.Some? { HearReport(last.value, now, results); }
    }

    /** After the opportunity channel closed: at most one report is awaited, a
        stranded reservation is released, and a final snapshot taken. */
    method Finish(last: Option<Result>, now: int, midMarks: map<TokenId, int>, bidMarks: map<TokenId, int>,
                  ghost results: seq<Result>) returns (ghost all: seq<Result>)
      requires Sound(results)
      modifies this, risk, positions
      ensures Sound(all) && !busy && Handled(stats) == old(Handled(stats)) && killLogged == old(killLogged)
      ensures all == results + LastHeard(old(View()), last)
      ensures View() == Finished(cfg, old(View()), last, now, midMarks, bidMarks)
    {
      all := HearLast(last, now, results);
      ReleaseStranded(all);
      Observe(midMarks, bidMarks, all);
    }

    /** Cash, the book at its final marks, and how many tokens are held. */
    method Summarise(marks: map<TokenId, int>) returns (summary: Summary)
      ensures summary == SummaryOf(positions.pos, positions.cash, marks)
    {
      var pnl := positions.ComputePnl(marks);
      var open := positions.OpenPositions();
      summary := Summary(pnl.cash, pnl.equity, open);
    }

    /** Until the opportunity channel closes. */
    method Loop(wakes: seq<(bool, int, Wake)>) returns (sent: seq<Request>, ghost tries: seq<seq<Try>>)
      requires Sound([])
      modifies this, risk, cooldown, positions
      ensures AllAnswered(wakes, tries) && (View(), sent) == Looped(cfg, old(View()), wakes, tries)
      ensures Sound(HeardIn(cfg, old(View()), wakes, tries))
      ensures Handled(stats) == old(Handled(stats)) + Arrivals(wakes)
      ensures |sent| + Outstanding(old(View())) == |HeardIn(cfg, old(View()), wakes, tries)| + Outstanding(View())
      ensures killLogged == (old(killLogged) || KillSeen(wakes))
    {
      sent, tries := [], [];
      ghost var results: seq<Result> := [];
      for i := 0 to |wakes|
        invariant AllAnswered(wakes[..i], tries) && (View(), sent) == Looped(cfg, old(View()), wakes[..i], tries)
        invariant results == HeardIn(cfg, old(View()), wakes[..i], tries) && Sound(results)
        invariant Handled(stats) == old(Handled(stats)) + Arrivals(wakes[..i])
        invariant |sent| + Outstanding(old(View())) == |results| + Outstanding(View())
        invariant killLogged == (old(killLogged) || KillSeen(wakes[..i]))
      {
        ghost var heard := Heard(View(), wakes[i].2);
        var more, tried := Turn(wakes[i].0, wakes[i].2, wakes[i].1, results);
        AnsweredNext(wakes, i, tries, tried);
        LoopedNext(cfg, old(View()), wakes, i, tries, tried);
        HeardNext(cfg, old(View()), wakes, i, tries, tried);
        OneMore(wakes, i);
        results, sent, tries := results + heard, sent + more, tries + [tried];
      }
      assert wakes[..|wakes|] == wakes;
    }

    /** The whole task; each wake-up comes with the kill flag as read before it and
        the time. State, requests and results heard are those of the loop as a
        function; the results heard, in order and none twice, decide cash,
        positions, committed exposure and so the summary; each request sent is
        answered or given back, and nothing stays reserved. */
    method Run(wakes: seq<(bool, int, Wake)>, last: Option<Result>, now: int, midMarks: map<TokenId, int>,
               bidMarks: map<TokenId, int>, finalMarks: map<TokenId, int>)
        returns (summary: Summary, sent: seq<Request>, ghost tries: seq<seq<Try>>, ghost results: seq<Result>)
      requires Sound([])
      modifies this, risk, cooldown, positions
      ensures Valid() && FatesAddUp(stats) && !busy && inFlight.None?
      ensures AllAnswered(wakes, tries)
      ensures var (c, out) := Looped(cfg, old(View()), wakes, tries);
              && sent == out && View() == Finished(cfg, c, last, now, midMarks, bidMarks)
              && results == HeardIn(cfg, old(View()), wakes, tries) + LastHeard(c, last)
      ensures Subsequence(results, ResultsIn(wakes) + (if last.Some? then [last.value] else []))
      ensures |results| <= |sent| + Outstanding(old(View())) <= |results| + 1
      ensures Protocol.Reported(stats) == |results|
      ensures summary == SummaryOf(PosIn(results), CashIn(results), finalMarks)
      ensures OnlyCommitted(risk.View(), CommitsIn(cfg, results))
      ensures Handled(stats) == old(Handled(stats)) + Arrivals(wakes)
      ensures killLogged == (old(killLogged) || KillSeen(wakes))
    {
      sent, tries := Loop(wakes);
      ghost var heard := HeardIn(cfg, old(View()), wakes, tries);
      ghost var c := View();
      results := Finish(last, now, midMarks, bidMarks, heard);
      HeardIsSubsequence(cfg, old(View()), wakes, tries);
      LastIsSubsequence(heard, ResultsIn(wakes), last, results);
      NothingInFlight(cfg, View(), results);
      summary := Summarise(finalMarks);
    }
  }

  /** The timer marks the book at mid prices for the drawdown and at bid prices for the
      session loss, and moves nothing else but the log of a halt. */
  lemma TimerMarksBoth(cfg: Config, c: Coord, midMarks: map<TokenId, int>, bidMarks: map<TokenId, int>)
    ensures var t := Marked(cfg, c, midMarks, bidMarks);
            && t == c.(risk := t.risk, haltLogged := t.haltLogged)
            && t.risk == Changed(cfg.risk, c.risk, [MidMarked(PnlOf(c.pos, c.cash, midMarks).equity),
                                                    BidMarked(PnlOf(c.pos, c.cash, bidMarks).equity)])
  {
    var (mid, bid) := (PnlOf(c.pos, c.cash, midMarks).equity, PnlOf(c.pos, c.cash, bidMarks).equity);
    SnapshotKeeps(cfg, c, mid, bid);
    SnapshotIsChanges(cfg, c, mid, bid);
  }

  /** How many reports the coordinator still takes note of: one while a basket is in
      flight and the channel open. */
  function Awaited(c: Coord): nat {
    if c.inFlight.Some? && !c.reportClosed then 1 else 0
  }

  lemma HearCounts(cfg: Config, c: Coord, result: Result, now: int)
    ensures var t := Hear(cfg, c, result, now);
            && Protocol.Reported(t.stats) == Protocol.Reported(c.stats) + Awaited(c)
            && (Awaited(c) == 1 ==> t.inFlight.None?)
  {
    if Awaits(c) {
      assert Hear(cfg, c, result, now) == Dispatch.HandleReport(cfg, c, Report(c.inFlight.value, result), now);
      assert Hear(cfg, c, result, now).stats == StatsAfter(c.stats, result);
    }
  }

  lemma ShutdownKeepsStats(c: Coord)
    ensures Shutdown(c).stats == c.stats && Shutdown(c).inFlight.None?
  {
  }

  lemma MarkedKeepsFlight(cfg: Config, c: Coord, midMarks: map<TokenId, int>, bidMarks: map<TokenId, int>)
    ensures Marked(cfg, c, midMarks, bidMarks).stats == c.stats
    ensures Marked(cfg, c, midMarks, bidMarks).inFlight == c.inFlight
  {
    TimerMarksBoth(cfg, c, midMarks, bidMarks);
  }

  /** While a basket is in flight and the channel open its report is heard, in the loop
      and in the drain, and frees the slot. */
  lemma ReportsAreHeard(cfg: Config, c: Coord, result: Result, now: int, midMarks: map<TokenId, int>,
                        bidMarks: map<TokenId, int>)
    ensures var (heard, last) := (Woken(cfg, c, Reported(result), now, []).0,
                                  Finished(cfg, c, Some(result), now, midMarks, bidMarks));
            && Protocol.Reported(heard.stats) == Protocol.Reported(c.stats) + Awaited(c)
            && Protocol.Reported(last.stats) == Protocol.Reported(c.stats) + Awaited(c)
            && (Awaited(c) == 1 ==> heard.inFlight.None?) && last.inFlight.None?
  {
    HearCounts(cfg, c, result, now);
    ShutdownKeepsStats(Hear(cfg, c, result, now));
    MarkedKeepsFlight(cfg, Shutdown(Hear(cfg, c, result, now)), midMarks, bidMarks);
  }

  /** Once the channel has ended no report is heard, and nothing else changed with it. */
  lemma EndedHearsNothing(cfg: Config, c: Coord, result: Result, now: int)
    ensures var ended := Woken(cfg, c, ReportsEnded, now, []).0;
            && ended == c.(reportClosed := true)
            && Woken(cfg, ended, Reported(result), now, []).0 == ended
  {
  }

  /** A new coordinator has received nothing and its books are in order. */
  method Begin(cfg: Config, releasedAtStart: bool) returns (c: Coordinator)
    ensures fresh(c) && c.cfg == cfg && c.Sound([]) && !c.killLogged && Handled(c.stats) == 0
  {
    c := new Coordinator(cfg, releasedAtStart);
    ghost var v := c.View();
    NothingYet(cfg, releasedAtStart, v);
    assert Ledger(cfg, v, []);
  }

  /** One more wake-up adds its arrivals and its reading of the kill flag. */
  lemma OneMore(wakes: seq<(bool, int, Wake)>, i: nat)
    requires i < |wakes|
    ensures Arrivals(wakes[..i + 1]) == Arrivals(wakes[..i]) + ArrivalsOf(wakes[i].2)
    ensures KillSeen(wakes[..i + 1]) == (KillSeen(wakes[..i]) || wakes[i].0)
  {
    assert wakes[..i + 1] == wakes[..i] + [wakes[i]];
    assert (wakes[..i] + [wakes[i]])[..i] == wakes[..i];
    KillSeenExtends(wakes[..i], wakes[i]);
  }

  lemma KillSeenExtends(wakes: seq<(bool, int, Wake)>, last: (bool, int, Wake))
    ensures KillSeen(wakes + [last]) == (KillSeen(wakes) || last.0)
  {
    var all := wakes + [last];
    assert all[|wakes|] == last;
    assert forall k :: 0 <= k < |wakes| ==> all[k] == wakes[k];
  }

  lemma LastIsSubsequence(s: seq<Result>, t: seq<Result>, last: Option<Result>, all: seq<Result>)
    requires Subsequence(s, t) && (all == s || (last.Some? && all == s + [last.value]))
    ensures Subsequence(all, t + if last.Some? then [last.value] else [])
  {
    match last
    case Some(x) => SubsequenceGrows(s, t, x);
    case None => assert t + [] == t;
  }

  lemma ReportKeepsFates(cfg: Config, c: Coord, rep: Report, now: int)
    requires FatesAddUp(c.stats)
    ensures var t := Dispatch.HandleReport(cfg, c, rep, now);
            FatesAddUp(t.stats) && !t.busy && Handled(t.stats) == Handled(c.stats) && KeepsKill(c, t)
  {
    RiskAfterEffect(cfg, Release(c.risk, rep.check), rep.result, now, 0);
    assert Dispatch.HandleReport(cfg, c, rep, now).stats == StatsAfter(c.stats, rep.result);
  }

  /** The verdict was reached before the cooldown was refreshed; settling reads only the refreshed one. */
  lemma SettleSeen(c: Coord, disposed: Disposition, seen: Dedup.Seen, execAlive: bool)
    ensures Settle(c.(seen := seen), disposed, seen, execAlive) == Settle(c, disposed, seen, execAlive)
  {
  }

  lemma SettleKeepsCounts(c: Coord, disposed: Disposition, seen: Dedup.Seen, execAlive: bool)
    requires FatesAddUp(c.stats) && (disposed.Dispatch? ==> !c.busy)
    ensures var (t, sent) := Settle(c, disposed, seen, execAlive);
            && FatesAddUp(t.stats) && Outstanding(t) == Outstanding(c) + (if sent.Some? then 1 else 0)
            && Handled(t.stats) == Handled(c.stats) + 1
  {
    SettleMoves(c, disposed, seen, execAlive);
    CountedMoves(c.stats, disposed);
  }

  lemma SendKeepsKill(c: Coord, req: Request, execAlive: bool)
    ensures KeepsKill(c, Send(c, req, execAlive).0)
  {
  }

  lemma SettleKeepsKill(c: Coord, disposed: Disposition, seen: Dedup.Seen, execAlive: bool)
    ensures KeepsKill(c, Settle(c, disposed, seen, execAlive).0)
  {
    var c1 := c.(seen := seen, stats := Counted(c.stats, disposed));
    match disposed
    case Dispatch(req) => SendKeepsKill(c1, req, execAlive);
    case RiskRejected => assert Settle(c, disposed, seen, execAlive).0 == LogHalt(c1);
    case _ => assert Settle(c, disposed, seen, execAlive).0 == c1;
  }

  /** One opportunity takes the free slot exactly when it is sent. */
  lemma ProcessKeepsCounts(cfg: Config, c: Coord, d: Detected, now: int, kill: bool, execAlive: bool)
    requires FatesAddUp(c.stats)
    ensures var (t, sent) := Dispatch.ProcessOpp(cfg, c, d, now, kill, execAlive);
            && FatesAddUp(t.stats) && Outstanding(t) == Outstanding(c) + (if sent.Some? then 1 else 0)
            && Handled(t.stats) == Handled(c.stats) + 1 && KeepsKill(c, t)
  {
    var disposed := Disposed(cfg, c, d, now, kill);
    if disposed.Dispatch? { DispatchNeeds(cfg, c, d, now, kill); }
    SettleKeepsCounts(c, disposed, SeenAfter(cfg, c, d, now), execAlive);
    SettleKeepsKill(c, disposed, SeenAfter(cfg, c, d, now), execAlive);
  }

  /** Every candidate tried is counted once, and takes the free slot exactly when it is sent. */
  lemma {:induction false} ProcessAllKeepsCounts(cfg: Config, c: Coord, kept: map<nat, Detected>, tries: seq<Try>)
    requires FatesAddUp(c.stats) && forall i :: 0 <= i < |tries| ==> tries[i].fp in kept
    ensures var (t, sent) := ProcessAll(cfg, c, kept, tries);
            && FatesAddUp(t.stats) && Outstanding(t) == Outstanding(c) + |sent|
            && Handled(t.stats) == Handled(c.stats) + |tries| && KeepsKill(c, t)
  {
    if tries == [] {
    } else {
      var (n, t) := (|tries| - 1, tries[|tries| - 1]);
      ProcessAllKeepsCounts(cfg, c, kept, tries[..n]);
      ProcessKeepsCounts(cfg, ProcessAll(cfg, c, kept, tries[..n]).0, kept[t.fp], t.now, t.kill, t.execAlive);
    }
  }

  lemma HearKeepsCounts(cfg: Config, c: Coord, result: Result, now: int)
    requires FatesAddUp(c.stats) && (c.busy <==> c.inFlight.Some?)
    ensures var t := Hear(cfg, c, result, now);
            && Handled(t.stats) == Handled(c.stats) && KeepsKill(c, t)
            && Outstanding(c) == Outstanding(t) + if Awaits(c) then 1 else 0
  {
    if Awaits(c) { ReportKeepsFates(cfg, c, Report(c.inFlight.value, result), now); }
  }

  /** Counters, slot and kill as they were. */
  ghost predicate KeepsSlot(c: Coord, t: Coord) {
    t.stats == c.stats && t.busy == c.busy && KeepsKill(c, t)
  }

  lemma CommandKeepsSlot(cfg: Config, c: Coord, cmd: Command)
    ensures KeepsSlot(c, Dispatch.HandleCtl(cfg, c, cmd))
  {
  }

  lemma EndKeepsSlot(c: Coord)
    ensures KeepsSlot(c, c.(reportClosed := true))
  {
  }

  lemma MarkedKeepsSlot(cfg: Config, c: Coord, midMarks: map<TokenId, int>, bidMarks: map<TokenId, int>)
    ensures KeepsSlot(c, Marked(cfg, c, midMarks, bidMarks))
  {
    SnapshotKeeps(cfg, c, PnlOf(c.pos, c.cash, midMarks).equity, PnlOf(c.pos, c.cash, bidMarks).equity);
  }

  /** What neither brings, sends nor hears anything leaves counters, slot and kill alone. */
  lemma QuietWake(cfg: Config, c: Coord, wake: Wake, now: int)
    requires !wake.Opps? && !wake.Reported?
    ensures KeepsSlot(c, Woken(cfg, c, wake, now, []).0) && Woken(cfg, c, wake, now, []).1 == []
  {
    match wake
    case ReportsEnded => EndKeepsSlot(c);
    case Timer(mid, bid) => MarkedKeepsSlot(cfg, c, mid, bid);
    case Control(cmd) => CommandKeepsSlot(cfg, c, cmd);
  }

  /** A wake-up handles what it brings; each request sent takes the slot, each result heard frees it. */
  lemma WokenKeepsCounts(cfg: Config, c: Coord, wake: Wake, now: int, tries: seq<Try>)
    requires Answers(wake, tries) && FatesAddUp(c.stats) && (c.busy <==> c.inFlight.Some?)
    ensures var (t, sent) := Woken(cfg, c, wake, now, tries);
            && Handled(t.stats) == Handled(c.stats) + ArrivalsOf(wake) && KeepsKill(c, t)
            && |sent| + Outstanding(c) == |Heard(c, wake)| + Outstanding(t)
  {
    match wake
    case Opps(batch) => ProcessAllKeepsCounts(cfg, c, CoalesceAll(Print, batch), tries);
    case Reported(result) => HearKeepsCounts(cfg, c, result, now);
    case _ => QuietWake(cfg, c, wake, now);
  }
}
