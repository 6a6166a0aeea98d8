/** Capped greedy choice of the markets to quote: ranked best first, at most
    maxPerEvent per connected component, at most maxMarkets in all. */
module Selection {
  import opened Wrappers
  import opened Num
  import opened Instrument
  import opened Sequences
  import opened Sorting
  import opened Sums

  // ----- ranking -----

  /** What the ranking reads of a market; a missing metric ranks as zero. */
  datatype Candidate = Candidate(id: MarketId, component: ComponentId, volume: Option<real>, liquidity: Option<real>,
                                 segmentAllowed: bool, feeBps: int)

  function Metric(m: Option<real>): real {
    match m case None => 0.0 case Some(v) => v
  }

  /** Volume descending, then liquidity descending, then id ascending. */
  predicate Before(a: Candidate, b: Candidate) {
    if Metric(a.volume) != Metric(b.volume) then Metric(a.volume) > Metric(b.volume)
    else if Metric(a.liquidity) != Metric(b.liquidity) then Metric(a.liquidity) > Metric(b.liquidity)
    else a.id <= b.id
  }

  predicate Kept(c: Candidate, excludeFeeFree: bool) {
    c.segmentAllowed && (!excludeFeeFree || c.feeBps != 0)
  }

  /** The markets worth quoting, best first. */
  function Ranked(all: seq<Candidate>, excludeFeeFree: bool): seq<Candidate> {
    Sort(Before, Filter(all, (c: Candidate) => Kept(c, excludeFeeFree)))
  }

  lemma BeforeIsTotal()
    ensures TotalOrder(Before)
  {
  }

  lemma {:induction false} FilterCounts(all: seq<Candidate>, keep: Candidate -> bool, c: Candidate)
    ensures multiset(Filter(all, keep))[c] == if keep(c) then multiset(all)[c] else 0
  {
    if all == [] {
    } else {
      var n := |all| - 1;
      FilterCounts(all[..n], keep, c);
      assert all == all[..n] + [all[n]];
    }
  }

  /** More volume, or as much and more liquidity, or both alike and the smaller id;
      a missing figure counts as zero. */
  ghost predicate RanksOver(a: Candidate, b: Candidate) {
    var (va, vb) := (if a.volume.Some? then a.volume.value else 0.0, if b.volume.Some? then b.volume.value else 0.0);
    var (la, lb) := (if a.liquidity.Some? then a.liquidity.value else 0.0,
                     if b.liquidity.Some? then b.liquidity.value else 0.0);
    va > vb || (va == vb && (la > lb || (la == lb && a.id <= b.id)))
  }

  /** The ranking holds exactly the markets of an allowed segment, fee-free ones left
      out on request, each as often as listed, and no market before one that ranks over it. */
  lemma RankingIsKept(all: seq<Candidate>, excludeFeeFree: bool)
    ensures var ranked := Ranked(all, excludeFeeFree);
            && (forall i, j :: 0 <= i < j < |ranked| ==> RanksOver(ranked[i], ranked[j]))
            && (forall c :: multiset(ranked)[c] ==
                  if c.segmentAllowed && !(excludeFeeFree && c.feeBps == 0) then multiset(all)[c] else 0)
  {
    var keep := (c: Candidate) => Kept(c, excludeFeeFree);
    var ranked := Ranked(all, excludeFeeFree);
    BeforeIsTotal();
    SortSorts(Before, Filter(all, keep));
    SortKeeps(Before, Filter(all, keep));
    forall i, j | 0 <= i < j < |ranked| ensures RanksOver(ranked[i], ranked[j]) {
      assert Before(ranked[i], ranked[j]);
    }
    forall c
      ensures multiset(ranked)[c] ==
              if c.segmentAllowed && !(excludeFeeFree && c.feeBps == 0) then multiset(all)[c] else 0
    {
      FilterCounts(all, keep, c);
    }
  }

  // ----- the greedy choice -----

  function CountIn(s: seq<Candidate>, c: ComponentId): nat {
    if s == [] then 0
    else CountIn(s[..|s| - 1], c) + if s[|s| - 1].component == c then 1 else 0
  }

  /** What is chosen out of the first ranks. */
  function Chosen(ranked: seq<Candidate>, maxMarkets: nat, maxPerEvent: nat): seq<Candidate> {
    if ranked == [] then []
    else
      var before := Chosen(ranked[..|ranked| - 1], maxMarkets, maxPerEvent);
      var x := ranked[|ranked| - 1];
      if |before| >= maxMarkets || (maxPerEvent != 0 && CountIn(before, x.component) >= maxPerEvent) then before
      else before + [x]
  }

  ghost predicate Tallied(perEvent: map<ComponentId, nat>, s: seq<Candidate>) {
    forall c: ComponentId :: (if c in perEvent then perEvent[c] else 0) == CountIn(s, c)
  }

  lemma TallyNext(perEvent: map<ComponentId, nat>, s: seq<Candidate>, x: Candidate)
    requires Tallied(perEvent, s)
    ensures Tallied(perEvent[x.component := CountIn(s, x.component) + 1], s + [x])
  {
    assert (s + [x])[..|s|] == s;
  }

  lemma ChosenNext(ranked: seq<Candidate>, i: nat, maxMarkets: nat, maxPerEvent: nat)
    requires i < |ranked|
    ensures var before := Chosen(ranked[..i], maxMarkets, maxPerEvent);
            Chosen(ranked[..i + 1], maxMarkets, maxPerEvent) ==
            if |before| >= maxMarkets || (maxPerEvent != 0 && CountIn(before, ranked[i].component) >= maxPerEvent)
                then before
            else before + [ranked[i]]
  {
    assert ranked[..i + 1][..i] == ranked[..i];
  }

  /** The walk: stop at maxMarkets, skip a component at its cap. */
  method MarketSelection(all: seq<Candidate>, excludeFeeFree: bool, maxMarkets: nat, maxPerEvent: nat)
    returns (selected: seq<Candidate>)
    ensures selected == Chosen(Ranked(all, excludeFeeFree), maxMarkets, maxPerEvent)
  {
    var kept := Ranked(all, excludeFeeFree);
    selected := SelectFrom(kept, maxMarkets, maxPerEvent);
  }

  method SelectFrom(kept: seq<Candidate>, maxMarkets: nat, maxPerEvent: nat) returns (selected: seq<Candidate>)
    ensures selected == Chosen(kept, maxMarkets, maxPerEvent)
  {
    selected := [];
    var perEvent: map<ComponentId, nat> := map[];
    var i := 0;
    while i < |kept|
      invariant 0 <= i <= |kept|
      invariant selected == Chosen(kept[..i], maxMarkets, maxPerEvent)
      invariant maxPerEvent != 0 ==> Tallied(perEvent, selected)
    {
      if |selected| >= maxMarkets {
        FullStaysFull(kept, i, maxMarkets, maxPerEvent);
        break;
      }
      var x := kept[i];
      ChosenNext(kept, i, maxMarkets, maxPerEvent);
      i := i + 1;
      if maxPerEvent != 0 {
        var count := if x.component in perEvent then perEvent[x.component] else 0;
        if count >= maxPerEvent { continue; }
        TallyNext(perEvent, selected, x);
        perEvent := perEvent[x.component := count + 1];
      }
      selected := selected + [x];
    }
    assert kept[..|kept|] == kept;
  }

  lemma {:induction false} FullStaysFull(ranked: seq<Candidate>, i: nat, maxMarkets: nat, maxPerEvent: nat)
    requires i <= |ranked| && |Chosen(ranked[..i], maxMarkets, maxPerEvent)| >= maxMarkets
    ensures Chosen(ranked, maxMarkets, maxPerEvent) == Chosen(ranked[..i], maxMarkets, maxPerEvent)
    decreases |ranked|
  {
    if i < |ranked| {
      assert ranked[..|ranked| - 1][..i] == ranked[..i];
      FullStaysFull(ranked[..|ranked| - 1], i, maxMarkets, maxPerEvent);
    } else {
      assert ranked[..i] == ranked;
    }
  }

  // ----- sums over components -----

  ghost function Components(s: seq<Candidate>): set<ComponentId> {
    set i | 0 <= i < |s| :: s[i].component
  }

  ghost function Counts(s: seq<Candidate>): ComponentId -> int {
    c => CountIn(s, c)
  }

  /** How many of s one component may contribute. */
  ghost function Share(s: seq<Candidate>, cap: nat): ComponentId -> int {
    c => Min(cap, CountIn(s, c))
  }

  // ----- optimality -----

  lemma {:induction false} ChosenCounts(ranked: seq<Candidate>, maxMarkets: nat, maxPerEvent: nat, c: ComponentId)
    requires maxPerEvent != 0
    ensures var sel := Chosen(ranked, maxMarkets, maxPerEvent);
            && |sel| <= maxMarkets
            && CountIn(sel, c) <= Min(maxPerEvent, CountIn(ranked, c))
            && (|sel| < maxMarkets ==> CountIn(sel, c) == Min(maxPerEvent, CountIn(ranked, c)))
  {
    if ranked == [] {
    } else {
      var before := Chosen(ranked[..|ranked| - 1], maxMarkets, maxPerEvent);
      ChosenCounts(ranked[..|ranked| - 1], maxMarkets, maxPerEvent, c);
      var x := ranked[|ranked| - 1];
      assert (before + [x])[..|before|] == before;
    }
  }

  lemma {:induction false} LengthIsSum(s: seq<Candidate>, cs: set<ComponentId>)
    requires Components(s) <= cs
    ensures |s| == Sum(cs, Counts(s))
  {
    var f := Counts(s);
    if s == [] {
      SumZero(cs, f);
    } else {
      var n := |s| - 1;
      var g := Counts(s[..n]);
      assert Components(s[..n]) <= Components(s);
      LengthIsSum(s[..n], cs);
      assert s[n].component in Components(s);
      SumChange(cs, g, f, s[n].component);
    }
  }

  /** On every prefix of the ranking the number chosen is the most the two caps
      allow: maxMarkets, or each component's members up to its cap. */
  lemma ChosenIsCapacity(ranked: seq<Candidate>, maxMarkets: nat, maxPerEvent: nat, n: nat, cs: set<ComponentId>)
    requires maxPerEvent != 0 && n <= |ranked| && Components(ranked) <= cs
    ensures |Chosen(ranked[..n], maxMarkets, maxPerEvent)| == Min(maxMarkets, Sum(cs, Share(ranked[..n], maxPerEvent)))
  {
    var prefix := ranked[..n];
    var sel := Chosen(prefix, maxMarkets, maxPerEvent);
    var f := Counts(sel);
    ChosenFromRanked(prefix, maxMarkets, maxPerEvent);
    assert Components(prefix) <= Components(ranked);
    LengthIsSum(sel, cs);
    forall c: ComponentId
      ensures |sel| <= maxMarkets && f(c) <= Share(prefix, maxPerEvent)(c)
      ensures |sel| < maxMarkets ==> f(c) == Share(prefix, maxPerEvent)(c)
    {
      ChosenCounts(prefix, maxMarkets, maxPerEvent, c);
    }
    ChosenCounts(prefix, maxMarkets, maxPerEvent, ComponentId(0));
    SumMonotone(cs, f, Share(prefix, maxPerEvent));
    if |sel| < maxMarkets { SumMonotone(cs, Share(prefix, maxPerEvent), f); }
  }

  lemma {:induction false} ChosenFromRanked(ranked: seq<Candidate>, maxMarkets: nat, maxPerEvent: nat)
    ensures Components(Chosen(ranked, maxMarkets, maxPerEvent)) <= Components(ranked)
  {
    if ranked == [] {
    } else {
      var n := |ranked| - 1;
      ChosenFromRanked(ranked[..n], maxMarkets, maxPerEvent);
      assert Components(ranked[..n]) <= Components(ranked);
      assert ranked[n].component in Components(ranked);
      var before := Chosen(ranked[..n], maxMarkets, maxPerEvent);
      assert Components(before + [ranked[n]]) <= Components(before) + {ranked[n].component};
    }
  }

  /** With the per-event cap disabled the choice is the first maxMarkets. */
  lemma {:induction false} UncappedIsPrefix(ranked: seq<Candidate>, maxMarkets: nat)
    ensures Chosen(ranked, maxMarkets, 0) == ranked[..Min(maxMarkets, |ranked|)]
  {
    if ranked == [] {
    } else {
      var n := |ranked| - 1;
      UncappedIsPrefix(ranked[..n], maxMarkets);
      if n < maxMarkets {
        assert ranked[..n][..n] + [ranked[n]] == ranked[..n + 1];
      } else {
        assert ranked[..n][..maxMarkets] == ranked[..maxMarkets];
      }
    }
  }

  // ----- dominance over every other choice -----

  /** Any set of ranks, as one flag per rank: how many it picks, in all and per component. */
  ghost function Picked(ranked: seq<Candidate>, pick: seq<bool>): seq<Candidate>
    requires |pick| == |ranked|
  {
    if ranked == [] then []
    else
      var n := |ranked| - 1;
      Picked(ranked[..n], pick[..n]) + if pick[n] then [ranked[n]] else []
  }

  ghost predicate Obeys(s: seq<Candidate>, maxMarkets: nat, maxPerEvent: nat) {
    |s| <= maxMarkets && (maxPerEvent != 0 ==> forall c: ComponentId :: CountIn(s, c) <= maxPerEvent)
  }

  lemma {:induction false} PickedAtMost(ranked: seq<Candidate>, pick: seq<bool>, c: ComponentId)
    requires |pick| == |ranked|
    ensures CountIn(Picked(ranked, pick), c) <= CountIn(ranked, c)
    ensures Components(Picked(ranked, pick)) <= Components(ranked) && |Picked(ranked, pick)| <= |ranked|
  {
    if ranked == [] {
    } else {
      var n := |ranked| - 1;
      PickedAtMost(ranked[..n], pick[..n], c);
      var before := Picked(ranked[..n], pick[..n]);
      assert (before + [ranked[n]])[..|before|] == before;
      assert Components(ranked[..n]) <= Components(ranked) && ranked[n].component in Components(ranked);
      assert Components(before + [ranked[n]]) <= Components(before) + {ranked[n].component};
      assert before + [] == before;
    }
  }

  lemma {:induction false} PickedPrefix(ranked: seq<Candidate>, pick: seq<bool>, n: nat)
    requires |pick| == |ranked| && n <= |ranked|
    ensures Picked(ranked[..n], pick[..n]) <= Picked(ranked, pick)
    decreases |ranked|
  {
    if n < |ranked| {
      var m := |ranked| - 1;
      assert ranked[..m][..n] == ranked[..n] && pick[..m][..n] == pick[..n];
      PickedPrefix(ranked[..m], pick[..m], n);
    } else {
      assert ranked[..n] == ranked && pick[..n] == pick;
    }
  }

  lemma {:induction false} CountPrefix(s: seq<Candidate>, t: seq<Candidate>, c: ComponentId)
    requires s <= t
    ensures CountIn(s, c) <= CountIn(t, c)
    decreases |t|
  {
    if |s| == |t| {
      assert s == t;
    } else {
      CountPrefix(s, t[..|t| - 1], c);
    }
  }

  /** No choice that obeys both caps holds more of any prefix of the ranking. */
  lemma NoChoiceDominates(ranked: seq<Candidate>, maxMarkets: nat, maxPerEvent: nat, pick: seq<bool>, n: nat)
    requires |pick| == |ranked| && n <= |ranked|
    requires Obeys(Picked(ranked, pick), maxMarkets, maxPerEvent)
    ensures |Picked(ranked[..n], pick[..n])| <= |Chosen(ranked[..n], maxMarkets, maxPerEvent)|
  {
    var other := Picked(ranked[..n], pick[..n]);
    PickedPrefix(ranked, pick, n);
    if maxPerEvent == 0 {
      UncappedIsPrefix(ranked[..n], maxMarkets);
      PickedAtMost(ranked[..n], pick[..n], ComponentId(0));
    } else {
      var cs := Components(ranked);
      var f := Counts(other);
      assert Components(ranked[..n]) <= cs;
      forall c: ComponentId
        ensures f(c) <= Share(ranked[..n], maxPerEvent)(c) && Components(other) <= Components(ranked[..n])
      {
        PickedAtMost(ranked[..n], pick[..n], c);
        CountPrefix(other, Picked(ranked, pick), c);
      }
      PickedAtMost(ranked[..n], pick[..n], ComponentId(0));
      LengthIsSum(other, cs);
      SumMonotone(cs, f, Share(ranked[..n], maxPerEvent));
      ChosenIsCapacity(ranked, maxMarkets, maxPerEvent, n, cs);
    }
  }

  /** ... and the greedy choice is itself one of the choices obeying both caps. */
  lemma ChosenObeys(ranked: seq<Candidate>, maxMarkets: nat, maxPerEvent: nat) returns (pick: seq<bool>)
    ensures |pick| == |ranked| && Picked(ranked, pick) == Chosen(ranked, maxMarkets, maxPerEvent)
    ensures Obeys(Chosen(ranked, maxMarkets, maxPerEvent), maxMarkets, maxPerEvent)
  {
    pick := ChosenIsPicked(ranked, maxMarkets, maxPerEvent);
    if maxPerEvent == 0 {
      UncappedIsPrefix(ranked, maxMarkets);
    } else {
      forall c: ComponentId
        ensures CountIn(Chosen(ranked, maxMarkets, maxPerEvent), c) <= maxPerEvent
      {
        ChosenCounts(ranked, maxMarkets, maxPerEvent, c);
      }
      ChosenCounts(ranked, maxMarkets, maxPerEvent, ComponentId(0));
    }
  }

  lemma {:induction false} ChosenIsPicked(ranked: seq<Candidate>, maxMarkets: nat,
                                          maxPerEvent: nat) returns (pick: seq<bool>)
    ensures |pick| == |ranked| && Picked(ranked, pick) == Chosen(ranked, maxMarkets, maxPerEvent)
  {
    if ranked == [] {
      pick := [];
    } else {
      var n := |ranked| - 1;
      var rest := ChosenIsPicked(ranked[..n], maxMarkets, maxPerEvent);
      var before := Chosen(ranked[..n], maxMarkets, maxPerEvent);
      var room := maxPerEvent == 0 || CountIn(before, ranked[n].component) < maxPerEvent;
      pick := rest + [|before| < maxMarkets && room];
      assert pick[..n] == rest;
    }
  }
}
