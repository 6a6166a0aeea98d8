/** Packing whole components into chunks of at most maxTokens tokens, first fit
    over components by decreasing size; an oversized component gets its own chunk. */
module Packing {
  import opened Wrappers
  import opened Instrument
  import opened Sorting
  import opened Sequences
  import opened Components

  type Tokens = seq<TokenId>

  // ----- decreasing order -----

  predicate NoSmaller(a: Tokens, b: Tokens) {
    |a| >= |b|
  }

  lemma NoSmallerIsTotal()
    ensures TotalOrder(NoSmaller)
  {
  }

  // ----- chunks and who is in them -----

  /** Tokens of the components assigned to chunk k, in packing order. */
  ghost function ChunkOf(comps: seq<Tokens>, assign: seq<nat>, k: nat): Tokens
    requires |assign| <= |comps|
  {
    if assign == [] then []
    else
      var n := |assign| - 1;
      ChunkOf(comps, assign[..n], k) + if assign[n] == k then comps[n] else []
  }

  /** Every packed component lies whole in one existing chunk, and chunks hold nothing else. */
  ghost predicate Packed(comps: seq<Tokens>, assign: seq<nat>, chunks: seq<Tokens>)
    requires |assign| <= |comps|
  {
    && (forall i :: 0 <= i < |assign| ==> assign[i] < |chunks|)
    && (forall k :: 0 <= k < |chunks| ==> chunks[k] == ChunkOf(comps, assign, k))
  }

  /** Within the limit, or one oversized component alone. */
  ghost predicate FitsOrAlone(comps: seq<Tokens>, assign: seq<nat>, chunks: seq<Tokens>, maxTokens: nat, k: nat)
    requires |assign| <= |comps| && k < |chunks|
  {
    || |chunks[k]| <= maxTokens
    || exists i :: 0 <= i < |assign| && assign[i] == k && chunks[k] == comps[i] && |comps[i]| > maxTokens
                   && forall j :: 0 <= j < |assign| && assign[j] == k ==> j == i
  }

  /** No two chunks could have been one. */
  ghost predicate Tight(chunks: seq<Tokens>, maxTokens: nat) {
    forall k, l :: 0 <= k < l < |chunks| ==> |chunks[k]| + |chunks[l]| > maxTokens
  }

  lemma ChunkOfSnoc(comps: seq<Tokens>, assign: seq<nat>, a: nat, k: nat)
    requires |assign| < |comps|
    ensures ChunkOf(comps, assign + [a], k) == ChunkOf(comps, assign, k) + if a == k then comps[|assign|] else []
  {
    assert (assign + [a])[..|assign|] == assign;
  }

  lemma {:induction false} ChunkBeyond(comps: seq<Tokens>, assign: seq<nat>, k: nat)
    requires |assign| <= |comps| && forall i :: 0 <= i < |assign| ==> assign[i] < k
    ensures ChunkOf(comps, assign, k) == []
  {
    if assign == [] {
    } else {
      ChunkBeyond(comps, assign[..|assign| - 1], k);
    }
  }

  ghost predicate Invariant(comps: seq<Tokens>, assign: seq<nat>, chunks: seq<Tokens>, maxTokens: nat)
    requires |assign| <= |comps|
  {
    && Packed(comps, assign, chunks) && Tight(chunks, maxTokens)
    && forall k :: 0 <= k < |chunks| ==> FitsOrAlone(comps, assign, chunks, maxTokens, k)
  }

  ghost predicate AssignedBy(comps: seq<Tokens>, assign: seq<nat>, chunks: seq<Tokens>, maxTokens: nat) {
    |assign| == |comps| && Invariant(comps, assign, chunks, maxTokens)
  }

  /** Some assignment of whole components to chunks explains the chunks. */
  ghost predicate WellPacked(comps: seq<Tokens>, chunks: seq<Tokens>, maxTokens: nat) {
    exists assign :: AssignedBy(comps, assign, chunks, maxTokens)
  }

  /** First chunk with room, if any. */
  method FindRoom(chunks: seq<Tokens>, size: nat, maxTokens: nat) returns (r: Option<nat>)
    ensures r.Some? ==> r.value < |chunks| && |chunks[r.value]| + size <= maxTokens
    ensures r.Some? ==> forall k :: 0 <= k < r.value ==> |chunks[k]| + size > maxTokens
    ensures r.None? ==> forall k :: 0 <= k < |chunks| ==> |chunks[k]| + size > maxTokens
  {
    for k := 0 to |chunks|
      invariant forall j :: 0 <= j < k ==> |chunks[j]| + size > maxTokens
    {
      if |chunks[k]| + size <= maxTokens { return Some(k); }
    }
    r := None;
  }

  lemma UntouchedStays(comps: seq<Tokens>, assign: seq<nat>, chunks: seq<Tokens>, after: seq<Tokens>, maxTokens: nat,
                       a: nat, j: nat)
    requires |assign| < |comps| && j < |chunks| && j < |after| && after[j] == chunks[j] && a != j
    requires FitsOrAlone(comps, assign, chunks, maxTokens, j)
    ensures FitsOrAlone(comps, assign + [a], after, maxTokens, j)
  {
    if |chunks[j]| > maxTokens {
      var i :| 0 <= i < |assign| && assign[i] == j && chunks[j] == comps[i] && |comps[i]| > maxTokens
               && forall m :: 0 <= m < |assign| && assign[m] == j ==> m == i;
      assert (assign + [a])[i] == j && after[j] == comps[i];
    }
  }

  lemma ExtendKeeps(comps: seq<Tokens>, assign: seq<nat>, chunks: seq<Tokens>, maxTokens: nat, k: nat)
    requires |assign| < |comps| && Invariant(comps, assign, chunks, maxTokens)
    requires k < |chunks| && |chunks[k]| + |comps[|assign|]| <= maxTokens
    ensures Invariant(comps, assign + [k], chunks[k := chunks[k] + comps[|assign|]], maxTokens)
  {
    var after := chunks[k := chunks[k] + comps[|assign|]];
    forall j | 0 <= j < |after|
      ensures after[j] == ChunkOf(comps, assign + [k], j) && FitsOrAlone(comps, assign + [k], after, maxTokens, j)
    {
      ChunkOfSnoc(comps, assign, k, j);
      assert chunks[j] == ChunkOf(comps, assign, j);
      if j != k { UntouchedStays(comps, assign, chunks, after, maxTokens, k, j); }
    }
  }

  lemma OpenKeeps(comps: seq<Tokens>, assign: seq<nat>, chunks: seq<Tokens>, maxTokens: nat)
    requires |assign| < |comps| && Invariant(comps, assign, chunks, maxTokens)
    requires forall k :: 0 <= k < |chunks| ==> |chunks[k]| + |comps[|assign|]| > maxTokens
    ensures Invariant(comps, assign + [|chunks|], chunks + [comps[|assign|]], maxTokens)
  {
    var n, added := |assign|, |chunks|;
    var after := chunks + [comps[n]];
    ChunkBeyond(comps, assign, added);
    forall j | 0 <= j < |after|
      ensures after[j] == ChunkOf(comps, assign + [added], j) &&
          FitsOrAlone(comps, assign + [added], after, maxTokens, j)
    {
      ChunkOfSnoc(comps, assign, added, j);
      if j < added {
        assert chunks[j] == ChunkOf(comps, assign, j);
        UntouchedStays(comps, assign, chunks, after, maxTokens, added, j);
      } else {
        assert (assign + [added])[n] == j && after[j] == comps[n];
      }
    }
  }

  /** First fit: no component is split, a chunk over the limit is one oversized
      component alone, and no two chunks could be merged within the limit. */
  method FirstFit(comps: seq<Tokens>, maxTokens: nat) returns (chunks: seq<Tokens>)
    ensures WellPacked(comps, chunks, maxTokens)
  {
    chunks := [];
    ghost var assign: seq<nat> := [];
    for i := 0 to |comps|
      invariant |assign| == i && Invariant(comps, assign, chunks, maxTokens)
    {
      var room := FindRoom(chunks, |comps[i]|, maxTokens);
      match room {
        case Some(k) =>
          ExtendKeeps(comps, assign, chunks, maxTokens, k);
          chunks := chunks[k := chunks[k] + comps[i]];
          assign := assign + [k];
        case None =>
          OpenKeeps(comps, assign, chunks, maxTokens);
          assign := assign + [|chunks|];
          chunks := chunks + [comps[i]];
      }
    }
    assert AssignedBy(comps, assign, chunks, maxTokens);
  }

  // ----- conservation of tokens -----

  function Concat(parts: seq<Tokens>): Tokens {
    if parts == [] then [] else Concat(parts[..|parts| - 1]) + parts[|parts| - 1]
  }

  ghost function Bag(parts: seq<Tokens>): multiset<TokenId> {
    multiset(Concat(parts))
  }

  lemma {:induction false} BagUpdate(parts: seq<Tokens>, k: nat, extra: Tokens)
    requires k < |parts|
    ensures Bag(parts[k := parts[k] + extra]) == Bag(parts) + multiset(extra)
  {
    var n := |parts| - 1;
    var after := parts[k := parts[k] + extra];
    if k < n {
      assert after[..n] == parts[..n][k := parts[..n][k] + extra];
      BagUpdate(parts[..n], k, extra);
    } else {
      assert after[..n] == parts[..n];
    }
  }

  /** What chunk holds what, rebuilt chunk by chunk, is every component once. */
  lemma {:induction false} ChunksHoldAll(comps: seq<Tokens>, assign: seq<nat>, chunks: seq<Tokens>)
    requires |assign| <= |comps| && Packed(comps, assign, chunks)
    ensures Bag(chunks) == Bag(comps[..|assign|])
  {
    if assign == [] {
      AllEmpty(chunks);
      assert comps[..0] == [];
    } else {
      var n, k := |assign| - 1, assign[|assign| - 1];
      var before := seq(|chunks|, j requires 0 <= j < |chunks| => ChunkOf(comps, assign[..n], j));
      ChunksHoldAll(comps, assign[..n], before);
      BagUpdate(before, k, comps[n]);
      forall j | 0 <= j < |chunks| ensures chunks[j] == before[k := before[k] + comps[n]][j] {
        assert chunks[j] == ChunkOf(comps, assign, j);
        assert before[j] + [] == before[j];
      }
      assert chunks == before[k := before[k] + comps[n]];
      assert comps[..n + 1][..n] == comps[..n];
    }
  }

  lemma {:induction false} AllEmpty(chunks: seq<Tokens>)
    requires forall k :: 0 <= k < |chunks| ==> chunks[k] == []
    ensures Bag(chunks) == multiset{}
  {
    if chunks == [] {
    } else {
      AllEmpty(chunks[..|chunks| - 1]);
    }
  }

  // ----- how many chunks -----

  /** Two chunks at a time hold more than the limit, so there are few of them. */
  lemma {:induction false} FewChunks(chunks: seq<Tokens>, maxTokens: nat)
    requires Tight(chunks, maxTokens)
    ensures (|chunks| - 1) * (maxTokens + 1) <= 2 * |Concat(chunks)|
  {
    if |chunks| >= 2 {
      var n := |chunks|;
      var front := chunks[..n - 2];
      FewChunks(front, maxTokens);
      assert chunks[..n - 1][..n - 2] == front;
      assert Concat(chunks) == Concat(chunks[..n - 1]) + chunks[n - 1];
      assert Concat(chunks[..n - 1]) == Concat(front) + chunks[n - 2];
      assert |chunks[n - 2]| + |chunks[n - 1]| >= maxTokens + 1;
      TwoMore(n, maxTokens + 1);
    } else if |chunks| == 0 {
      assert (|chunks| - 1) * (maxTokens + 1) <= 0;
    }
  }

  lemma TwoMore(n: nat, m: nat)
    requires n >= 2
    ensures (n - 1) * m == (n - 3) * m + 2 * m
  {
  }

  // ----- the whole packing -----

  lemma WithoutOne<T>(s: seq<T>, k: nat)
    requires k < |s|
    ensures multiset(s[..k] + s[k + 1..]) == multiset(s) - multiset{s[k]}
  {
    assert s == s[..k] + [s[k]] + s[k + 1..];
  }

  lemma {:induction false} SamePartsSameBag(a: seq<Tokens>, b: seq<Tokens>)
    requires multiset(a) == multiset(b)
    ensures Bag(a) == Bag(b)
  {
    assert |a| == |multiset(a)| == |multiset(b)| == |b|;
    if a == [] {
    } else {
      var n := |a| - 1;
      assert a[n] in multiset(a) && a[n] in multiset(b);
      var k :| 0 <= k < |b| && b[k] == a[n];
      WithoutOne(a, n);
      WithoutOne(b, k);
      assert a[..n] + a[n + 1..] == a[..n];
      SamePartsSameBag(a[..n], b[..k] + b[k + 1..]);
      BagRemove(b, k);
    }
  }

  lemma {:induction false} BagRemove(b: seq<Tokens>, k: nat)
    requires k < |b|
    ensures Bag(b) == Bag(b[..k] + b[k + 1..]) + multiset(b[k])
  {
    var n := |b| - 1;
    var rest := b[..k] + b[k + 1..];
    if k < n {
      BagRemove(b[..n], k);
      assert rest[..n - 1] == b[..n][..k] + b[..n][k + 1..];
      assert rest[n - 1] == b[n];
    } else {
      assert rest == b[..n];
    }
  }

  function EntryTokens(es: Entries, order: seq<ComponentId>): seq<Tokens>
    requires forall c :: c in order ==> c in es
  {
    seq(|order|, i requires 0 <= i < |order| => es[order[i]].tokens)
  }

  /** The token lists of the components of order, over the first n markets. */
  ghost function PartsUpTo(reg: Registry, order: seq<ComponentId>, n: nat): seq<Tokens>
    requires n <= |reg.markets|
  {
    seq(|order|, i requires 0 <= i < |order| => TokensOf(Filter(reg.markets[..n], InComponent(reg, order[i]))))
  }

  lemma PartsNext(reg: Registry, order: seq<ComponentId>, n: nat, k: nat)
    requires n < |reg.markets| && NoDup(order) && k < |order| && order[k] == reg.componentOf(reg.markets[n].id)
    ensures PartsUpTo(reg, order, n + 1) ==
            PartsUpTo(reg, order, n)[k := PartsUpTo(reg, order, n)[k] + [reg.markets[n].yes, reg.markets[n].no]]
  {
    var before, after, m := PartsUpTo(reg, order, n), PartsUpTo(reg, order, n + 1), reg.markets[n];
    forall i | 0 <= i < |order| ensures after[i] == if i == k then before[k] + [m.yes, m.no] else before[i] {
      FilterNext(reg.markets, n, InComponent(reg, order[i]));
      var own := Filter(reg.markets[..n], InComponent(reg, order[i]));
      assert (own + [m])[..|own|] == own;
    }
  }

  lemma PartsBagNext(reg: Registry, order: seq<ComponentId>, n: nat)
    requires n < |reg.markets| && NoDup(order) && reg.componentOf(reg.markets[n].id) in order
    ensures Bag(PartsUpTo(reg, order, n + 1)) == Bag(PartsUpTo(reg, order, n)) +
        multiset([reg.markets[n].yes, reg.markets[n].no])
  {
    var k :| 0 <= k < |order| && order[k] == reg.componentOf(reg.markets[n].id);
    PartsNext(reg, order, n, k);
    BagUpdate(PartsUpTo(reg, order, n), k, [reg.markets[n].yes, reg.markets[n].no]);
  }

  lemma TokensNext(markets: seq<Market>, n: nat)
    requires n < |markets|
    ensures TokensOf(markets[..n + 1]) == TokensOf(markets[..n]) + [markets[n].yes, markets[n].no]
  {
    assert markets[..n + 1][..n] == markets[..n];
  }

  lemma TokensBagNext(markets: seq<Market>, n: nat)
    requires n < |markets|
    ensures multiset(TokensOf(markets[..n + 1])) == multiset(TokensOf(markets[..n])) +
        multiset([markets[n].yes, markets[n].no])
  {
    TokensNext(markets, n);
  }

  lemma NoParts(reg: Registry, order: seq<ComponentId>)
    ensures Bag(PartsUpTo(reg, order, 0)) == multiset(TokensOf(reg.markets[..0]))
  {
    AllEmpty(PartsUpTo(reg, order, 0));
  }

  /** Over any order of all components, the parts hold every market's two tokens. */
  lemma {:induction false} PartsHoldAll(reg: Registry, order: seq<ComponentId>, n: nat)
    requires n <= |reg.markets| && NoDup(order)
    requires forall i :: 0 <= i < n ==> reg.componentOf(reg.markets[i].id) in order
    ensures Bag(PartsUpTo(reg, order, n)) == multiset(TokensOf(reg.markets[..n]))
  {
    if n == 0 {
      NoParts(reg, order);
    } else {
      PartsHoldAll(reg, order, n - 1);
      PartsBagNext(reg, order, n - 1);
      TokensBagNext(reg.markets, n - 1);
    }
  }

  lemma EveryMarketIndexed(reg: Registry, flag: bool, es: Entries, m: Market)
    requires Indexed(reg, flag, |reg.markets|, |reg.partitions|, |reg.approved|, es) && m in reg.markets
    ensures reg.componentOf(m.id) in es
  {
    var n := |reg.markets|;
    assert reg.markets[..n] == reg.markets;
    FilterMembers(reg.markets[..n], InComponent(reg, reg.componentOf(m.id)), m);
  }

  /** Every token of the registry is packed, exactly as often as it is listed there. */
  lemma AllTokensPacked(reg: Registry, flag: bool, es: Entries, order: seq<ComponentId>)
    requires Indexed(reg, flag, |reg.markets|, |reg.partitions|, |reg.approved|, es)
    requires NoDup(order) && forall c :: c in order <==> c in es
    ensures multiset(Concat(EntryTokens(es, order))) == multiset(TokensOf(reg.markets))
  {
    var n := |reg.markets|;
    forall i | 0 <= i < n ensures reg.componentOf(reg.markets[i].id) in order {
      EveryMarketIndexed(reg, flag, es, reg.markets[i]);
    }
    PartsHoldAll(reg, order, n);
    PartsAreEntries(reg, flag, es, order);
    assert reg.markets[..n] == reg.markets;
  }

  lemma PartsAreEntries(reg: Registry, flag: bool, es: Entries, order: seq<ComponentId>)
    requires Indexed(reg, flag, |reg.markets|, |reg.partitions|, |reg.approved|, es)
    requires forall c :: c in order ==> c in es
    ensures EntryTokens(es, order) == PartsUpTo(reg, order, |reg.markets|)
  {
    assert reg.markets[..|reg.markets|] == reg.markets;
    forall i | 0 <= i < |order| ensures EntryTokens(es, order)[i] == PartsUpTo(reg, order, |reg.markets|)[i] {
      WholeIndex(reg, flag, es, order[i]);
    }
  }

  lemma PackedHoldsAll(comps: seq<Tokens>, chunks: seq<Tokens>, maxTokens: nat)
    requires WellPacked(comps, chunks, maxTokens)
    ensures Bag(chunks) == Bag(comps)
    ensures (|chunks| - 1) * (maxTokens + 1) <= 2 * |Concat(comps)|
  {
    var assign :| AssignedBy(comps, assign, chunks, maxTokens);
    ChunksHoldAll(comps, assign, chunks);
    assert comps[..|assign|] == comps;
    FewChunks(chunks, maxTokens);
    assert |Concat(chunks)| == |Bag(chunks)| == |Bag(comps)|;
  }

  /** The components by decreasing size. */
  function Decreasing(es: Entries, order: seq<ComponentId>): seq<Tokens>
    requires forall c :: c in order ==> c in es
  {
    Sort(NoSmaller, EntryTokens(es, order))
  }

  lemma DecreasingIsSorted(es: Entries, order: seq<ComponentId>)
    requires forall c :: c in order ==> c in es
    ensures Sorted(NoSmaller, Decreasing(es, order))
    ensures multiset(Decreasing(es, order)) == multiset(EntryTokens(es, order))
    ensures Bag(Decreasing(es, order)) == Bag(EntryTokens(es, order))
  {
    NoSmallerIsTotal();
    SortSorts(NoSmaller, EntryTokens(es, order));
    SortKeeps(NoSmaller, EntryTokens(es, order));
    SamePartsSameBag(Decreasing(es, order), EntryTokens(es, order));
  }

  /** order: the index's components in whatever order the map yields them. */
  method PackComponents(es: Entries, order: seq<ComponentId>, maxTokens: nat) returns (chunks: seq<Tokens>)
    requires forall c :: c in order ==> c in es
    ensures WellPacked(Decreasing(es, order), chunks, maxTokens)
    ensures multiset(Concat(chunks)) == multiset(Concat(EntryTokens(es, order)))
    ensures (|chunks| - 1) * (maxTokens + 1) <= 2 * |Concat(EntryTokens(es, order))|
  {
    chunks := FirstFit(Decreasing(es, order), maxTokens);
    PackedHoldsAll(Decreasing(es, order), chunks, maxTokens);
    DecreasingIsSorted(es, order);
    assert |Concat(Decreasing(es, order))| == |Bag(Decreasing(es, order))| == |Bag(EntryTokens(es, order))|;
  }
}
