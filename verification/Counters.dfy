/** What the coordinator's counters count: over any batch and any loop, each verdict's
    counter is the number of opportunities that met it, each outcome's the number of
    results heard with it. */
module Counters {
  import opened Dispatch
  import opened CoordinatorTask

  // ----- one verdict, one outcome -----

  /** The counters of the eight verdicts, in the order the gates are tried. */
  function VerdictCounters(st: Stats): seq<nat> {
    [st.expired, st.cooldown, st.implausible, st.held, st.liveRejected, st.riskRejected, st.busy, st.dispatched]
  }

  function VerdictNumber(v: Disposition): nat {
    match v
    case Expired => 0
    case Cooled => 1
    case Implausible => 2
    case HeldBack => 3
    case LiveRejected => 4
    case RiskRejected => 5
    case Busy => 6
    case Dispatch(_) => 7
  }

  /** A verdict raises its own counter by one and no other; from the plausibility gate on it counts as admitted. */
  lemma VerdictIsCounted(st: Stats, v: Disposition)
    ensures forall i :: 0 <= i < 8 ==>
              VerdictCounters(Counted(st, v))[i] == VerdictCounters(st)[i] + if i == VerdictNumber(v) then 1 else 0
    ensures Counted(st, v).admitted == st.admitted + if VerdictNumber(v) > 2 then 1 else 0
  {
  }

  /** The counters of what a basket can come to. */
  function OutcomeCounters(st: Stats): seq<nat> {
    [st.clean, st.repaired, st.unwound, st.noFill, st.execErrors]
  }

  function OutcomeNumber(result: Result): nat {
    match result
    case None => 4
    case Some(b) =>
      match b.outcome
      case FilledClean => 0
      case Repaired => 1
      case Unwound => 2
      case NoFill | RejectedUnhedged => 3
  }

  /** A report raises the counter of its outcome by one and no other. */
  lemma OutcomeIsCounted(st: Stats, result: Result)
    ensures forall i :: 0 <= i < 5 ==>
              OutcomeCounters(StatsAfter(st, result))[i] ==
              OutcomeCounters(st)[i] + if i == OutcomeNumber(result) then 1 else 0
    ensures VerdictCounters(StatsAfter(st, result)) == VerdictCounters(st)
  {
  }

  // ----- a batch -----

  /** How many of the tries, each judged in the state the ones before it left, met verdict i. */
  function VerdictTally(cfg: Config, c: Coord, kept: map<nat, Detected>, tries: seq<Try>, i: nat): nat
    requires forall k :: 0 <= k < |tries| ==> tries[k].fp in kept
  {
    if tries == [] then 0
    else
      VerdictTally(cfg, c, kept, tries[..|tries| - 1], i)
      + if VerdictNumber(LastVerdict(cfg, c, kept, tries)) == i then 1 else 0
  }

  lemma ProcessCounts(cfg: Config, c: Coord, d: Detected, now: int, kill: bool, execAlive: bool)
    ensures ProcessOpp(cfg, c, d, now, kill, execAlive).0.stats == Counted(c.stats, Disposed(cfg, c, d, now, kill))
  {
    SettleMoves(c, Disposed(cfg, c, d, now, kill), SeenAfter(cfg, c, d, now), execAlive);
  }

  /** The verdict the last try met, in the state the others left. */
  function LastVerdict(cfg: Config, c: Coord, kept: map<nat, Detected>, tries: seq<Try>): Disposition
    requires tries != [] && forall k :: 0 <= k < |tries| ==> tries[k].fp in kept
  {
    var (n, t) := (|tries| - 1, tries[|tries| - 1]);
    Disposed(cfg, ProcessAll(cfg, c, kept, tries[..n]).0, kept[t.fp], t.now, t.kill)
  }

  /** One more try counts its verdict. */
  lemma NextTry(cfg: Config, c: Coord, kept: map<nat, Detected>, tries: seq<Try>)
    requires tries != [] && forall k :: 0 <= k < |tries| ==> tries[k].fp in kept
    ensures ProcessAll(cfg, c, kept, tries).0.stats ==
            Counted(ProcessAll(cfg, c, kept, tries[..|tries| - 1]).0.stats, LastVerdict(cfg, c, kept, tries))
  {
    var n, t := |tries| - 1, tries[|tries| - 1];
    ProcessCounts(cfg, ProcessAll(cfg, c, kept, tries[..n]).0, kept[t.fp], t.now, t.kill, t.execAlive);
  }

  lemma VerdictAt(st: Stats, v: Disposition, i: nat)
    requires i < 8
    ensures VerdictCounters(Counted(st, v))[i] == VerdictCounters(st)[i] + if VerdictNumber(v) == i then 1 else 0
    ensures OutcomeCounters(Counted(st, v)) == OutcomeCounters(st)
  {
    VerdictIsCounted(st, v);
  }

  /** Each verdict's counter grows by the number of tries that met it. */
  lemma {:induction false} BatchIsTallied(cfg: Config, c: Coord, kept: map<nat, Detected>, tries: seq<Try>, i: nat)
    requires i < 8 && forall k :: 0 <= k < |tries| ==> tries[k].fp in kept
    ensures VerdictCounters(ProcessAll(cfg, c, kept, tries).0.stats)[i] ==
            VerdictCounters(c.stats)[i] + VerdictTally(cfg, c, kept, tries, i)
    decreases |tries|
  {
    if tries == [] {
    } else {
      var before := ProcessAll(cfg, c, kept, tries[..|tries| - 1]).0.stats;
      BatchIsTallied(cfg, c, kept, tries[..|tries| - 1], i);
      NextTry(cfg, c, kept, tries);
      VerdictAt(before, LastVerdict(cfg, c, kept, tries), i);
    }
  }

  /** A batch counts no outcome. */
  lemma {:induction false} BatchKeepsOutcomes(cfg: Config, c: Coord, kept: map<nat, Detected>, tries: seq<Try>)
    requires forall k :: 0 <= k < |tries| ==> tries[k].fp in kept
    ensures OutcomeCounters(ProcessAll(cfg, c, kept, tries).0.stats) == OutcomeCounters(c.stats)
    decreases |tries|
  {
    if tries == [] {
    } else {
      var before := ProcessAll(cfg, c, kept, tries[..|tries| - 1]).0.stats;
      BatchKeepsOutcomes(cfg, c, kept, tries[..|tries| - 1]);
      NextTry(cfg, c, kept, tries);
      VerdictAt(before, LastVerdict(cfg, c, kept, tries), 0);
    }
  }

  // ----- a loop -----

  /** How many of the results are counted under outcome i. */
  function OutcomeTally(results: seq<Result>, i: nat): nat {
    if results == [] then 0
    else
      var n := |results| - 1;
      OutcomeTally(results[..n], i) + if OutcomeNumber(results[n]) == i then 1 else 0
  }

  lemma {:induction false} TallyConcat(a: seq<Result>, b: seq<Result>, i: nat)
    ensures OutcomeTally(a + b, i) == OutcomeTally(a, i) + OutcomeTally(b, i)
  {
    if b == [] {
      assert a + b == a;
    } else {
      TallyConcat(a, b[..|b| - 1], i);
      assert (a + b)[..|a + b| - 1] == a + b[..|b| - 1];
    }
  }

  lemma HearIsTallied(cfg: Config, c: Coord, result: Result, now: int)
    ensures var heard := if c.inFlight.Some? && !c.reportClosed then [result] else [];
            forall i :: 0 <= i < 5 ==>
              OutcomeCounters(Hear(cfg, c, result, now).stats)[i] ==
              OutcomeCounters(c.stats)[i] + OutcomeTally(heard, i)
  {
    assert [result][..0] == [];
    OutcomeIsCounted(c.stats, result);
    if Awaits(c) { assert Hear(cfg, c, result, now).stats == StatsAfter(c.stats, result); }
  }

  /** One wake-up counts the outcome it makes the coordinator hear, if any. */
  lemma WakeIsTallied(cfg: Config, c: Coord, wake: Wake, now: int, tries: seq<Try>)
    requires Answers(wake, tries)
    ensures forall i :: 0 <= i < 5 ==>
              OutcomeCounters(Woken(cfg, c, wake, now, tries).0.stats)[i] ==
              OutcomeCounters(c.stats)[i] + OutcomeTally(Heard(c, wake), i)
  {
    match wake
    case Opps(batch) => BatchKeepsOutcomes(cfg, c, CoalesceAll(Print, batch), tries);
    case Reported(result) => HearIsTallied(cfg, c, result, now);
    case _ => QuietWake(cfg, c, wake, now);
  }

  lemma CheckKillCounts(c: Coord, kill: bool, wake: Wake)
    ensures Dispatch.CheckKill(c, kill).stats == c.stats && Heard(Dispatch.CheckKill(c, kill), wake) == Heard(c, wake)
  {
  }

  /** Over the whole loop each outcome's counter grows by the number of results heard with it. */
  lemma {:induction false} LoopIsTallied(cfg: Config, c: Coord, wakes: seq<(bool, int, Wake)>, tries: seq<seq<Try>>)
    requires AllAnswered(wakes, tries)
    ensures forall i :: 0 <= i < 5 ==>
              OutcomeCounters(Looped(cfg, c, wakes, tries).0.stats)[i] ==
              OutcomeCounters(c.stats)[i] + OutcomeTally(HeardIn(cfg, c, wakes, tries), i)
    decreases |wakes|
  {
    if wakes == [] {
    } else {
      var n := |wakes| - 1;
      var (before, wake) := (Looped(cfg, c, wakes[..n], tries[..n]).0, wakes[n].2);
      LoopIsTallied(cfg, c, wakes[..n], tries[..n]);
      CheckKillCounts(before, wakes[n].0, wake);
      WakeIsTallied(cfg, Dispatch.CheckKill(before, wakes[n].0), wake, wakes[n].1, tries[n]);
      forall i | 0 <= i < 5
        ensures OutcomeTally(HeardIn(cfg, c, wakes, tries), i) ==
                OutcomeTally(HeardIn(cfg, c, wakes[..n], tries[..n]), i) + OutcomeTally(Heard(before, wake), i)
      {
        TallyConcat(HeardIn(cfg, c, wakes[..n], tries[..n]), Heard(before, wake), i);
      }
    }
  }
}
