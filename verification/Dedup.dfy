/** Windowed suppression of repeats, with a purge of expired entries. */
module Dedup {
  import opened Num
  import opened Instrument
  import Fingerprint
  import Fnv

  type Print = nat

  /** When a shape was last admitted and at what net. */
  type Seen = map<Print, (int, int)>

  const PURGE_THRESHOLD := 1024

  /** Elapsed time, zero when the stamp lies in the future. */
  function Since(now: int, t: int): nat {
    if now >= t then now - t else 0
  }

  /** Net that must be exceeded to be admitted again inside the window. */
  function Bar(net: int, pct: nat): int {
    net + TruncDiv(net * pct, 100)
  }

  function Suppresses(window: nat, pct: nat, seen: Seen, now: int, fp: Print, net: int): bool {
    fp in seen && Since(now, seen[fp].0) < window && net <= Bar(seen[fp].1, pct)
  }

  function Purged(window: nat, seen: Seen, now: int): Seen {
    if |seen| > PURGE_THRESHOLD
    then map fp | fp in seen && Since(now, seen[fp].0) < window :: seen[fp]
    else seen
  }

  function AdmitSeen(window: nat, pct: nat, seen: Seen, now: int, fp: Print, net: int): (bool, Seen) {
    var s := Purged(window, seen, now);
    if Suppresses(window, pct, s, now, fp, net) then (false, s) else (true, s[fp := (now, net)])
  }

  class Cooldown {
    const window: nat
    const improvementPct: nat
    var seen: Seen

    constructor (window: nat, improvementPct: nat)
      ensures this.window == window && this.improvementPct == improvementPct && seen == map[]
    {
      this.window := window;
      this.improvementPct := improvementPct;
      seen := map[];
    }

    /** True: emit the opportunity and start or refresh its cooldown. */
    method Admit(now: int, op: Opportunity) returns (admit: bool)
      modifies this`seen
      ensures (admit, seen) == AdmitSeen(window, improvementPct, old(seen), now, Fingerprint.Fingerprint(op), op.net)
    {
      if |seen| > PURGE_THRESHOLD {
        seen := map fp | fp in seen && Since(now, seen[fp].0) < window :: seen[fp];
      }
      var bytes := Fingerprint.Canonical(op);
      var fp := Fnv.Fnv1a(bytes);
      admit := true;
      if fp in seen {
        var (t0, net0) := seen[fp];
        if Since(now, t0) < window {
          admit := op.net > Bar(net0, improvementPct);
        }
      }
      if admit {
        seen := seen[fp := (now, op.net)];
      }
    }
  }

  // ----- a whole session of calls -----

  datatype Call = Call(now: int, fp: Print, net: int)

  ghost predicate ClockRuns(calls: seq<Call>) {
    forall i, j :: 0 <= i < j < |calls| ==> calls[i].now <= calls[j].now
  }

  /** State after the calls, with the purge. */
  function After(window: nat, pct: nat, calls: seq<Call>): Seen {
    if calls == [] then map[]
    else
      var c := calls[|calls| - 1];
      AdmitSeen(window, pct, After(window, pct, calls[..|calls| - 1]), c.now, c.fp, c.net).1
  }

  function Decision(window: nat, pct: nat, calls: seq<Call>): bool
    requires calls != []
  {
    var c := calls[|calls| - 1];
    AdmitSeen(window, pct, After(window, pct, calls[..|calls| - 1]), c.now, c.fp, c.net).0
  }

  /** The cache that never forgets. */
  function UnboundedAfter(window: nat, pct: nat, calls: seq<Call>): Seen {
    if calls == [] then map[]
    else
      var c := calls[|calls| - 1];
      UnboundedStep(window, pct, UnboundedAfter(window, pct, calls[..|calls| - 1]), c)
  }

  function UnboundedDecision(window: nat, pct: nat, calls: seq<Call>): bool
    requires calls != []
  {
    var c := calls[|calls| - 1];
    !Suppresses(window, pct, UnboundedAfter(window, pct, calls[..|calls| - 1]), c.now, c.fp, c.net)
  }

  /** What the purge dropped had expired, and everything kept is unchanged. */
  ghost predicate ForgotOnlyExpired(window: nat, small: Seen, full: Seen, now: int) {
    && (forall fp :: fp in small ==> fp in full && full[fp] == small[fp])
    && (forall fp :: fp in full && fp !in small ==> Since(now, full[fp].0) >= window)
  }

  function UnboundedStep(window: nat, pct: nat, seen: Seen, c: Call): Seen {
    if Suppresses(window, pct, seen, c.now, c.fp, c.net) then seen else seen[c.fp := (c.now, c.net)]
  }

  lemma LaterStillExpired(window: nat, small: Seen, full: Seen, now: int, later: int)
    requires ForgotOnlyExpired(window, small, full, now) && now <= later
    ensures ForgotOnlyExpired(window, small, full, later)
  {
  }

  lemma PurgeForgets(window: nat, small: Seen, full: Seen, now: int)
    requires ForgotOnlyExpired(window, small, full, now)
    ensures ForgotOnlyExpired(window, Purged(window, small, now), full, now)
  {
  }

  lemma SameDecision(window: nat, pct: nat, small: Seen, full: Seen, now: int, fp: Print, net: int)
    requires ForgotOnlyExpired(window, small, full, now)
    ensures Suppresses(window, pct, small, now, fp, net) == Suppresses(window, pct, full, now, fp, net)
  {
  }

  lemma AdmitKeepsRelation(window: nat, pct: nat, small: Seen, full: Seen, c: Call)
    requires ForgotOnlyExpired(window, small, full, c.now)
    ensures AdmitSeen(window, pct, small, c.now, c.fp, c.net).0 == !Suppresses(window, pct, full, c.now, c.fp, c.net)
    ensures ForgotOnlyExpired(window, AdmitSeen(window, pct, small, c.now, c.fp, c.net).1,
        UnboundedStep(window, pct, full, c), c.now)
  {
    PurgeForgets(window, small, full, c.now);
    SameDecision(window, pct, Purged(window, small, c.now), full, c.now, c.fp, c.net);
  }

  lemma {:induction false} PurgeForgetsOnlyExpired(window: nat, pct: nat, calls: seq<Call>, now: int)
    requires ClockRuns(calls) && forall i :: 0 <= i < |calls| ==> calls[i].now <= now
    ensures ForgotOnlyExpired(window, After(window, pct, calls), UnboundedAfter(window, pct, calls), now)
  {
    if calls == [] {
    } else {
      var n := |calls| - 1;
      PurgeForgetsOnlyExpired(window, pct, calls[..n], calls[n].now);
      AdmitKeepsRelation(window, pct, After(window, pct, calls[..n]), UnboundedAfter(window, pct, calls[..n]),
          calls[n]);
      LaterStillExpired(window, After(window, pct, calls), UnboundedAfter(window, pct, calls), calls[n].now, now);
    }
  }

  /** With a clock that never runs back, purging changes no decision. */
  lemma PurgeIsInvisible(window: nat, pct: nat, calls: seq<Call>)
    requires ClockRuns(calls) && calls != []
    ensures Decision(window, pct, calls) == UnboundedDecision(window, pct, calls)
  {
    var n := |calls| - 1;
    PurgeForgetsOnlyExpired(window, pct, calls[..n], calls[n].now);
    AdmitKeepsRelation(window, pct, After(window, pct, calls[..n]), UnboundedAfter(window, pct, calls[..n]), calls[n]);
  }

  lemma BarMonotone(a: int, b: int, pct: nat)
    requires 0 <= a <= b
    ensures a <= Bar(a, pct) <= Bar(b, pct)
  {
    assert a * pct <= b * pct && 0 <= a * pct;
  }

  ghost predicate Admitted(window: nat, pct: nat, calls: seq<Call>, i: nat)
    requires i < |calls|
  {
    UnboundedDecision(window, pct, calls[..i + 1])
  }

  /** The remembered entry of an admitted shape lies between that admission and
      now, and inside the window it is that admission or beats it by the bar. */
  ghost predicate RememberedBeats(window: nat, pct: nat, c: Call, entry: (int, int), now: int) {
    && c.now <= entry.0 <= now
    && (entry.0 - c.now < window && c.net >= 0 ==> entry.1 == c.net || entry.1 > Bar(c.net, pct))
  }

  lemma StepKeepsBest(window: nat, pct: nat, c: Call, seen: Seen, now: int, d: Call)
    requires c.fp in seen && RememberedBeats(window, pct, c, seen[c.fp], now) && now <= d.now
    ensures c.fp in UnboundedStep(window, pct, seen, d)
    ensures RememberedBeats(window, pct, c, UnboundedStep(window, pct, seen, d)[c.fp], d.now)
    ensures d.fp == c.fp && d.now - c.now < window && c.net >= 0 && !Suppresses(window, pct, seen, d.now, d.fp, d.net)
            ==> d.net > Bar(c.net, pct)
  {
    if c.net >= 0 {
      BarMonotone(c.net, Max(c.net, seen[c.fp].1), pct);
    }
  }

  lemma {:induction false} RememberedIsBest(window: nat, pct: nat, calls: seq<Call>, i: nat)
    requires ClockRuns(calls) && i < |calls| && Admitted(window, pct, calls, i)
    ensures calls[i].fp in UnboundedAfter(window, pct, calls)
    ensures RememberedBeats(window, pct, calls[i], UnboundedAfter(window, pct, calls)[calls[i].fp],
        calls[|calls| - 1].now)
  {
    var n := |calls| - 1;
    if i < n {
      assert calls[..n][..i + 1] == calls[..i + 1];
      RememberedIsBest(window, pct, calls[..n], i);
      StepKeepsBest(window, pct, calls[i], UnboundedAfter(window, pct, calls[..n]), calls[n - 1].now, calls[n]);
    } else {
      assert calls[..n + 1] == calls;
    }
  }

  /** Two admissions of one shape less than a window apart: the later net beats
      the earlier by more than the improvement percentage. */
  lemma ReadmissionImproves(window: nat, pct: nat, calls: seq<Call>, i: nat, j: nat)
    requires ClockRuns(calls) && i < j < |calls| && calls[i].fp == calls[j].fp
    requires Decision(window, pct, calls[..i + 1]) && Decision(window, pct, calls[..j + 1])
    requires calls[j].now - calls[i].now < window && calls[i].net >= 0
    ensures calls[j].net > Bar(calls[i].net, pct)
  {
    var before := calls[..j];
    PurgeIsInvisible(window, pct, calls[..i + 1]);
    PurgeIsInvisible(window, pct, calls[..j + 1]);
    assert calls[..j + 1][..j] == before && before[..i + 1] == calls[..i + 1];
    RememberedIsBest(window, pct, before, i);
    StepKeepsBest(window, pct, calls[i], UnboundedAfter(window, pct, before), calls[j - 1].now, calls[j]);
  }

  /** A cache grown past 1024 shapes forgets every expired one at the next call. */
  lemma PurgeForgetsExpired(window: nat, pct: nat, seen: Seen, now: int, fp: Print, net: int, other: Print)
    requires |seen| > 1024 && other in AdmitSeen(window, pct, seen, now, fp, net).1 && other != fp
    ensures other in seen && now - seen[other].0 < window
  {
  }

  // ----- exactly when a shape is admitted -----

  /** The decision on every call of a session. */
  function Verdicts(window: nat, pct: nat, calls: seq<Call>): seq<bool> {
    seq(|calls|, i requires 0 <= i < |calls| => Decision(window, pct, calls[..i + 1]))
  }

  /** Call i is the latest admission of its shape before call j. */
  ghost predicate LatestAdmission(calls: seq<Call>, admitted: seq<bool>, i: int, j: int)
    requires |admitted| == |calls|
  {
    && 0 <= i < j <= |calls| && admitted[i]
    && forall k :: i < k < j && calls[k].fp == calls[i].fp ==> !admitted[k]
  }

  /** What a cache holds of a shape after j calls is its latest admission. */
  ghost predicate Remembers(calls: seq<Call>, admitted: seq<bool>, seen: Seen, j: nat, fp: Print)
    requires |admitted| == |calls| && j <= |calls|
  {
    && (fp in seen ==> exists i :: LatestAdmission(calls, admitted, i, j) && calls[i].fp == fp
                                   && seen[fp] == (calls[i].now, calls[i].net))
    && (fp !in seen ==> forall i :: 0 <= i < j && calls[i].fp == fp ==> !admitted[i])
  }

  /** One more call: its entry if it was admitted, nothing otherwise. */
  lemma RemembersNext(calls: seq<Call>, admitted: seq<bool>, seen: Seen, m: nat, fp: Print)
    requires |admitted| == |calls| && m < |calls| && Remembers(calls, admitted, seen, m, fp)
    ensures var c := calls[m];
            Remembers(calls, admitted, if admitted[m] then seen[c.fp := (c.now, c.net)] else seen, m + 1, fp)
  {
    if admitted[m] && calls[m].fp == fp {
      assert LatestAdmission(calls, admitted, m, m + 1);
    } else if fp in seen {
      var i :| LatestAdmission(calls, admitted, i, m) && calls[i].fp == fp && seen[fp] == (calls[i].now, calls[i].net);
      assert LatestAdmission(calls, admitted, i, m + 1);
    }
  }

  lemma NextSeen(window: nat, pct: nat, calls: seq<Call>, j: nat)
    requires ClockRuns(calls) && j < |calls|
    ensures var (before, c) := (UnboundedAfter(window, pct, calls[..j]), calls[j]);
            UnboundedAfter(window, pct, calls[..j + 1]) ==
            if Verdicts(window, pct, calls)[j] then before[c.fp := (c.now, c.net)] else before
  {
    assert calls[..j + 1][..j] == calls[..j] && calls[..j + 1][j] == calls[j];
    PurgeIsInvisible(window, pct, calls[..j + 1]);
  }

  lemma {:induction false} CacheRemembers(window: nat, pct: nat, calls: seq<Call>, j: nat, fp: Print)
    requires ClockRuns(calls) && j <= |calls|
    ensures Remembers(calls, Verdicts(window, pct, calls), UnboundedAfter(window, pct, calls[..j]), j, fp)
  {
    if j == 0 {
      assert calls[..0] == [];
    } else {
      var m := j - 1;
      CacheRemembers(window, pct, calls, m, fp);
      NextSeen(window, pct, calls, m);
      RemembersNext(calls, Verdicts(window, pct, calls), UnboundedAfter(window, pct, calls[..m]), m, fp);
      assert m + 1 == j;
    }
  }

  lemma OneLatest(calls: seq<Call>, admitted: seq<bool>, i: int, k: int, j: int)
    requires |admitted| == |calls| && LatestAdmission(calls, admitted, i, j) && LatestAdmission(calls, admitted, k, j)
    requires calls[i].fp == calls[k].fp
    ensures i == k
  {
  }

  /** The percentage is exact: a net that is not negative has to be beaten by strictly more than it. */
  lemma BarIsPercent(net: nat, pct: nat, better: int)
    ensures better > Bar(net, pct) <==> 100 * better > (100 + pct) * net
  {
    var x := net * pct;
    assert (100 + pct) * net == 100 * net + x;
    FloorBounds(x, 100);
  }

  /** b comes within the window after a and does not beat it by more than the percentage. */
  predicate Repeats(window: nat, pct: nat, a: Call, b: Call) {
    a.fp == b.fp && b.now - a.now < window && b.net <= a.net + TruncDiv(a.net * pct, 100)
  }

  lemma VerdictIs(window: nat, pct: nat, calls: seq<Call>, j: nat)
    requires ClockRuns(calls) && j < |calls|
    ensures Verdicts(window, pct, calls)[j] ==
            !Suppresses(window, pct, UnboundedAfter(window, pct, calls[..j]), calls[j].now, calls[j].fp, calls[j].net)
  {
    assert calls[..j + 1][..j] == calls[..j] && calls[..j + 1][j] == calls[j];
    PurgeIsInvisible(window, pct, calls[..j + 1]);
  }

  lemma SuppressesIs(window: nat, pct: nat, seen: Seen, a: Call, b: Call)
    requires a.fp in seen && seen[a.fp] == (a.now, a.net) && a.fp == b.fp && a.now <= b.now
    ensures Suppresses(window, pct, seen, b.now, b.fp, b.net) <==> Repeats(window, pct, a, b)
  {
  }

  /** A call is suppressed exactly when the latest admission of its shape lies within
      the window and its own net does not beat that one's by more than the percentage. */
  lemma SuppressedExactly(window: nat, pct: nat, calls: seq<Call>, j: nat)
    requires ClockRuns(calls) && j < |calls|
    ensures var admitted := Verdicts(window, pct, calls);
            !admitted[j] <==>
            exists i :: LatestAdmission(calls, admitted, i, j) && Repeats(window, pct, calls[i], calls[j])
  {
    var admitted, fp, seen := Verdicts(window, pct, calls), calls[j].fp, UnboundedAfter(window, pct, calls[..j]);
    VerdictIs(window, pct, calls, j);
    CacheRemembers(window, pct, calls, j, fp);
    if fp in seen {
      var i :| LatestAdmission(calls, admitted, i, j) && calls[i].fp == fp && seen[fp] == (calls[i].now, calls[i].net);
      SuppressesIs(window, pct, seen, calls[i], calls[j]);
      forall k | LatestAdmission(calls, admitted, k, j) && calls[k].fp == fp ensures k == i {
        OneLatest(calls, admitted, i, k, j);
      }
    } else {
      forall i | LatestAdmission(calls, admitted, i, j) ensures calls[i].fp != fp {}
    }
  }
}
