/** From the registry to the subscription chunks: indexing and packing together
    put every token in exactly one chunk and split no component. */
module Subscriptions {
  import opened Instrument
  import opened Sequences
  import opened Components
  import opened Packing

  // ----- each token once -----

  /** One chunk holds t, once, and no other chunk does. */
  ghost predicate InOneChunk(chunks: seq<Tokens>, t: TokenId) {
    exists k :: HoldsOnce(chunks, t, k)
  }

  ghost predicate HoldsOnce(chunks: seq<Tokens>, t: TokenId, k: nat) {
    && k < |chunks| && multiset(chunks[k])[t] == 1
    && forall j :: 0 <= j < |chunks| && j != k ==> t !in chunks[j]
  }

  lemma {:induction false} AbsentEverywhere(parts: seq<Tokens>, t: TokenId)
    requires t !in Concat(parts)
    ensures forall j :: 0 <= j < |parts| ==> t !in parts[j]
  {
    if parts == [] {
    } else {
      var n := |parts| - 1;
      AbsentEverywhere(parts[..n], t);
      forall j | 0 <= j < n ensures t !in parts[j] { assert parts[..n][j] == parts[j]; }
    }
  }

  lemma {:induction false} OnceInOneChunk(chunks: seq<Tokens>, t: TokenId) returns (k: nat)
    requires Bag(chunks)[t] == 1
    ensures HoldsOnce(chunks, t, k)
  {
    var n := |chunks| - 1;
    var front := chunks[..n];
    if t in chunks[n] {
      k := n;
      assert multiset(chunks[n])[t] > 0;
      assert t !in multiset(Concat(front));
      AbsentEverywhere(front, t);
      forall j | 0 <= j < n ensures t !in chunks[j] { assert front[j] == chunks[j]; }
    } else {
      assert multiset(chunks[n])[t] == 0;
      k := OnceInOneChunk(front, t);
      forall j | 0 <= j < n && j != k ensures t !in chunks[j] { assert front[j] == chunks[j]; }
    }
  }

  /** The chunk a component is assigned to holds all its tokens. */
  lemma {:induction false} ChunkHoldsWhole(comps: seq<Tokens>, assign: seq<nat>, i: nat, t: TokenId)
    requires i < |assign| <= |comps| && t in comps[i]
    ensures t in ChunkOf(comps, assign, assign[i])
  {
    var n := |assign| - 1;
    if i < n { ChunkHoldsWhole(comps, assign[..n], i, t); }
  }

  /** Whatever holds one token of a component holds the other. */
  lemma WholeTogether(comps: seq<Tokens>, chunks: seq<Tokens>, maxTokens: nat, part: Tokens, t: TokenId, u: TokenId,
                      k: nat)
    requires WellPacked(comps, chunks, maxTokens) && part in comps && t in part && u in part
    requires k < |chunks| && t in chunks[k] && InOneChunk(chunks, t)
    ensures u in chunks[k]
  {
    var assign :| AssignedBy(comps, assign, chunks, maxTokens);
    var i :| 0 <= i < |comps| && comps[i] == part;
    ChunkHoldsWhole(comps, assign, i, t);
    ChunkHoldsWhole(comps, assign, i, u);
    assert chunks[assign[i]] == ChunkOf(comps, assign, assign[i]);
  }

  /** How often t is one of m's two tokens. */
  function Share(m: Market, t: TokenId): nat {
    (if t == m.yes then 1 else 0) + (if t == m.no then 1 else 0)
  }

  lemma CountOfPair(s: Tokens, m: Market, t: TokenId)
    ensures multiset(s + [m.yes, m.no])[t] == multiset(s)[t] + Share(m, t)
  {
    assert multiset([m.yes, m.no])[t] == Share(m, t);
  }

  lemma ShareOfOwner(markets: seq<Market>, i: nat, j: nat, t: TokenId)
    requires i < |markets| && j < |markets| && DistinctTokens(markets)
    requires t == markets[i].yes || t == markets[i].no
    ensures Share(markets[j], t) == if i == j then 1 else 0
  {
  }

  ghost predicate OnlyOf(markets: seq<Market>, i: nat, t: TokenId) {
    forall j :: 0 <= j < |markets| ==> Share(markets[j], t) == if i == j then 1 else 0
  }

  /** Of the first n markets' tokens, one of market i's occurs once as soon as i is among them. */
  lemma {:induction false} TokenOnce(markets: seq<Market>, n: nat, i: nat, t: TokenId)
    requires n <= |markets| && OnlyOf(markets, i, t)
    ensures multiset(TokensOf(markets[..n]))[t] == if i < n then 1 else 0
  {
    if n == 0 {
    } else {
      TokenOnce(markets, n - 1, i, t);
      TokensNext(markets, n - 1);
      CountOfPair(TokensOf(markets[..n - 1]), markets[n - 1], t);
    }
  }

  lemma RegisteredOnce(markets: seq<Market>, i: nat, t: TokenId)
    requires i < |markets| && DistinctTokens(markets) && (t == markets[i].yes || t == markets[i].no)
    ensures multiset(TokensOf(markets))[t] == 1
  {
    forall j | 0 <= j < |markets| ensures Share(markets[j], t) == if i == j then 1 else 0 {
      ShareOfOwner(markets, i, j, t);
    }
    TokenOnce(markets, |markets|, i, t);
    assert markets[..|markets|] == markets;
  }

  // ----- whole components -----

  /** Token t belongs to a market of component cid. */
  ghost predicate Belongs(reg: Registry, cid: ComponentId, t: TokenId) {
    exists m :: m in reg.markets && reg.componentOf(m.id) == cid && (m.yes == t || m.no == t)
  }

  /** No component is split: a chunk with one of its tokens has them all. */
  ghost predicate NoSplit(reg: Registry, chunks: seq<Tokens>) {
    forall cid, t, u, k :: 0 <= k < |chunks| && Belongs(reg, cid, t) && Belongs(reg, cid, u) ==>
      (t in chunks[k] <==> u in chunks[k])
  }

  /** Every token of the registry, once, and nothing else. */
  ghost predicate EachTokenOnce(reg: Registry, chunks: seq<Tokens>) {
    && (forall cid, t :: Belongs(reg, cid, t) ==> InOneChunk(chunks, t))
    && (forall k, t :: 0 <= k < |chunks| && t in chunks[k] ==> exists cid :: Belongs(reg, cid, t))
  }

  lemma BelongsIsListed(reg: Registry, flag: bool, es: Entries, cid: ComponentId, t: TokenId)
    requires ValidRegistry(reg) && Indexed(reg, flag, |reg.markets|, |reg.partitions|, |reg.approved|, es)
    requires Belongs(reg, cid, t)
    ensures cid in es && t in es[cid].tokens
  {
    var m :| m in reg.markets && reg.componentOf(m.id) == cid && (m.yes == t || m.no == t);
    EveryMarketIndexed(reg, flag, es, m);
    WholeIndex(reg, flag, es, cid);
    FilterMembers(reg.markets, InComponent(reg, cid), m);
    TokensOfMembers(es[cid].markets, t);
  }

  lemma {:induction false} InSomePart(parts: seq<Tokens>, k: nat, t: TokenId)
    requires k < |parts| && t in parts[k]
    ensures t in Concat(parts)
  {
    var n := |parts| - 1;
    if k < n { InSomePart(parts[..n], k, t); }
  }

  lemma HasOwner(reg: Registry, t: TokenId)
    requires t in TokensOf(reg.markets)
    ensures exists cid :: Belongs(reg, cid, t)
  {
    TokensOfMembers(reg.markets, t);
    var m :| m in reg.markets && (m.yes == t || m.no == t);
    assert Belongs(reg, reg.componentOf(m.id), t);
  }

  lemma BagIsRegistry(reg: Registry, chunks: seq<Tokens>)
    requires ValidRegistry(reg) && Bag(chunks) == multiset(TokensOf(reg.markets))
    ensures EachTokenOnce(reg, chunks)
  {
    forall cid, t | Belongs(reg, cid, t) ensures InOneChunk(chunks, t) {
      var m :| m in reg.markets && reg.componentOf(m.id) == cid && (m.yes == t || m.no == t);
      var i :| 0 <= i < |reg.markets| && reg.markets[i] == m;
      RegisteredOnce(reg.markets, i, t);
      var k := OnceInOneChunk(chunks, t);
    }
    forall k, t | 0 <= k < |chunks| && t in chunks[k] ensures exists cid :: Belongs(reg, cid, t) {
      InSomePart(chunks, k, t);
      assert t in Bag(chunks);
      HasOwner(reg, t);
    }
  }

  lemma ComponentsStayWhole(reg: Registry, flag: bool, es: Entries, order: seq<ComponentId>, chunks: seq<Tokens>,
                            maxTokens: nat)
    requires ValidRegistry(reg) && Indexed(reg, flag, |reg.markets|, |reg.partitions|, |reg.approved|, es)
    requires forall c :: c in order <==> c in es
    requires WellPacked(Decreasing(es, order), chunks, maxTokens) && EachTokenOnce(reg, chunks)
    ensures NoSplit(reg, chunks)
  {
    forall cid, t, u, k | 0 <= k < |chunks| && Belongs(reg, cid, t) && Belongs(reg, cid, u) && t in chunks[k]
      ensures u in chunks[k]
    {
      BelongsIsListed(reg, flag, es, cid, t);
      BelongsIsListed(reg, flag, es, cid, u);
      var i :| 0 <= i < |order| && order[i] == cid;
      var part := EntryTokens(es, order)[i];
      DecreasingIsSorted(es, order);
      assert part in multiset(EntryTokens(es, order)) && part in multiset(Decreasing(es, order));
      WholeTogether(Decreasing(es, order), chunks, maxTokens, part, t, u, k);
    }
  }

  /** A chunk over the limit is one component alone. */
  ghost predicate FitsOrOneComponent(reg: Registry, chunks: seq<Tokens>, maxTokens: nat) {
    forall k :: 0 <= k < |chunks| ==> |chunks[k]| <= maxTokens || exists cid :: AllOf(reg, cid, chunks[k])
  }

  ghost predicate AllOf(reg: Registry, cid: ComponentId, chunk: Tokens) {
    forall t :: t in chunk ==> Belongs(reg, cid, t)
  }

  lemma ListedBelongs(reg: Registry, flag: bool, es: Entries, cid: ComponentId, t: TokenId)
    requires ValidRegistry(reg) && Indexed(reg, flag, |reg.markets|, |reg.partitions|, |reg.approved|, es)
    requires cid in es && t in es[cid].tokens
    ensures Belongs(reg, cid, t)
  {
    WholeIndex(reg, flag, es, cid);
    TokensOfMembers(es[cid].markets, t);
    var m :| m in es[cid].markets && (m.yes == t || m.no == t);
    FilterMembers(reg.markets, InComponent(reg, cid), m);
  }

  lemma OversizedIsAPart(comps: seq<Tokens>, chunks: seq<Tokens>, maxTokens: nat, k: nat)
    requires WellPacked(comps, chunks, maxTokens) && k < |chunks| && |chunks[k]| > maxTokens
    ensures chunks[k] in comps
  {
    var assign :| AssignedBy(comps, assign, chunks, maxTokens);
    assert FitsOrAlone(comps, assign, chunks, maxTokens, k);
  }

  lemma PartIsAComponent(es: Entries, order: seq<ComponentId>, part: Tokens) returns (cid: ComponentId)
    requires (forall c :: c in order ==> c in es) && part in Decreasing(es, order)
    ensures cid in es && es[cid].tokens == part
  {
    DecreasingIsSorted(es, order);
    assert part in multiset(Decreasing(es, order));
    assert part in multiset(EntryTokens(es, order));
    var i :| 0 <= i < |order| && EntryTokens(es, order)[i] == part;
    cid := order[i];
  }

  lemma OversizedIsOne(reg: Registry, flag: bool, es: Entries, order: seq<ComponentId>, chunks: seq<Tokens>,
                       maxTokens: nat)
    requires ValidRegistry(reg) && Indexed(reg, flag, |reg.markets|, |reg.partitions|, |reg.approved|, es)
    requires forall c :: c in order <==> c in es
    requires WellPacked(Decreasing(es, order), chunks, maxTokens)
    ensures FitsOrOneComponent(reg, chunks, maxTokens)
  {
    forall k | 0 <= k < |chunks| && |chunks[k]| > maxTokens
      ensures exists cid :: AllOf(reg, cid, chunks[k])
    {
      OversizedIsAPart(Decreasing(es, order), chunks, maxTokens, k);
      var cid := PartIsAComponent(es, order, chunks[k]);
      forall t | t in chunks[k] ensures Belongs(reg, cid, t) { ListedBelongs(reg, flag, es, cid, t); }
      assert AllOf(reg, cid, chunks[k]);
    }
  }

  /** Index the registry, pack its components: whatever order the map yields them
      in, every token is subscribed to exactly once, no component is split, and
      the chunks are few. */
  method PackRegistry(reg: Registry, includeNonexhaustive: bool, maxTokens: nat) returns (chunks: seq<Tokens>)
    requires ValidRegistry(reg)
    ensures EachTokenOnce(reg, chunks) && NoSplit(reg, chunks)
    ensures FitsOrOneComponent(reg, chunks, maxTokens) && Tight(chunks, maxTokens)
    ensures (|chunks| - 1) * (maxTokens + 1) <= 2 * |TokensOf(reg.markets)|
  {
    var es, _ := BuildComponentIndex(reg, includeNonexhaustive);
    var order := AnyOrder(es);
    chunks := PackComponents(es, order, maxTokens);
    AllTokensPacked(reg, includeNonexhaustive, es, order);
    assert |Concat(EntryTokens(es, order))| == |multiset(Concat(EntryTokens(es, order)))|
        == |multiset(TokensOf(reg.markets))| == |TokensOf(reg.markets)|;
    BagIsRegistry(reg, chunks);
    ComponentsStayWhole(reg, includeNonexhaustive, es, order, chunks, maxTokens);
    OversizedIsOne(reg, includeNonexhaustive, es, order, chunks, maxTokens);
    ghost var assign :| AssignedBy(Decreasing(es, order), assign, chunks, maxTokens);
  }

  /** The components of the map, each once, in no particular order. */
  method AnyOrder(es: Entries) returns (order: seq<ComponentId>)
    ensures NoDup(order) && forall c :: c in order <==> c in es
  {
    order := [];
    var todo := es.Keys;
    while todo != {}
      invariant NoDup(order) && forall c :: c in es <==> c in order || c in todo
      invariant forall c :: c in order ==> c !in todo
      decreases todo
    {
      var c :| c in todo;
      order, todo := order + [c], todo - {c};
    }
  }
}
