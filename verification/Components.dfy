/** Grouping the registry into connected components: each one's markets, admitted
    partitions, relationships and tokens, and why no real outcome is missed by it. */
module Components {
  import opened Wrappers
  import opened Instrument
  import opened Book
  import opened Sequences
  import opened UnionFind
  import opened Worlds

  datatype Registry = Registry(markets: seq<Market>, partitions: seq<Partition>, approved: seq<Relationship>,
                               componentOf: MarketId -> ComponentId)

  datatype Entry = Entry(markets: seq<Market>, partitions: seq<Partition>, relationships: seq<Relationship>,
                         tokens: seq<TokenId>)

  type Entries = map<ComponentId, Entry>

  // ----- the component index -----

  function AddMarket(reg: Registry, es: Entries, m: Market): Entries {
    var cid := reg.componentOf(m.id);
    var e := if cid in es then es[cid] else Entry([], [], [], []);
    es[cid := e.(markets := e.markets + [m], tokens := e.tokens + [m.yes, m.no])]
  }

  predicate Included(p: Partition, includeNonexhaustive: bool) {
    p.IsWellFormed() && (p.verifiedExhaustive || (includeNonexhaustive && p.negRisk))
  }

  function AddPartition(reg: Registry, includeNonexhaustive: bool, es: Entries, p: Partition): Entries {
    if !Included(p, includeNonexhaustive) then es
    else
      var cid := reg.componentOf(p.markets[0]);
      if cid in es then es[cid := es[cid].(partitions := es[cid].partitions + [p])] else es
  }

  function AddRelationship(reg: Registry, es: Entries, r: Relationship): Entries {
    var cid := reg.componentOf(r.a);
    if cid in es then es[cid := es[cid].(relationships := es[cid].relationships + [r])] else es
  }

  /** A component's share of the registry, stated directly. */
  function InComponent(reg: Registry, cid: ComponentId): Market -> bool {
    (m: Market) => reg.componentOf(m.id) == cid
  }

  function PartitionIn(reg: Registry, includeNonexhaustive: bool, cid: ComponentId): Partition -> bool {
    (p: Partition) => Included(p, includeNonexhaustive) && reg.componentOf(p.markets[0]) == cid
  }

  function RelationshipIn(reg: Registry, cid: ComponentId): Relationship -> bool {
    (r: Relationship) => reg.componentOf(r.a) == cid
  }

  function TokensOf(markets: seq<Market>): seq<TokenId> {
    if markets == [] then []
    else TokensOf(markets[..|markets| - 1]) + [markets[|markets| - 1].yes, markets[|markets| - 1].no]
  }

  /** Entries after the first nm markets, np partitions and nr relationships. */
  ghost predicate Indexed(reg: Registry, flag: bool, nm: nat, np: nat, nr: nat, es: Entries)
    requires nm <= |reg.markets| && np <= |reg.partitions| && nr <= |reg.approved|
  {
    forall cid: ComponentId ::
      var own := Filter(reg.markets[..nm], InComponent(reg, cid));
      && (cid in es <==> own != [])
      && (cid in es ==> es[cid] == Entry(own, Filter(reg.partitions[..np], PartitionIn(reg, flag, cid)),
                                         Filter(reg.approved[..nr], RelationshipIn(reg, cid)), TokensOf(own)))
  }

  lemma MarketStep(reg: Registry, flag: bool, i: nat, es: Entries)
    requires i < |reg.markets| && Indexed(reg, flag, i, 0, 0, es)
    ensures Indexed(reg, flag, i + 1, 0, 0, AddMarket(reg, es, reg.markets[i]))
  {
    var m, after := reg.markets[i], AddMarket(reg, es, reg.markets[i]);
    forall cid: ComponentId
      ensures var own := Filter(reg.markets[..i + 1], InComponent(reg, cid));
              (cid in after <==> own != []) && (cid in after ==> after[cid] == Entry(own, [], [], TokensOf(own)))
    {
      FilterNext(reg.markets, i, InComponent(reg, cid));
      var before := Filter(reg.markets[..i], InComponent(reg, cid));
      assert (before + [m])[..|before|] == before;
    }
  }

  lemma PartitionStep(reg: Registry, flag: bool, i: nat, es: Entries)
    requires i < |reg.partitions| && Indexed(reg, flag, |reg.markets|, i, 0, es)
    ensures Indexed(reg, flag, |reg.markets|, i + 1, 0, AddPartition(reg, flag, es, reg.partitions[i]))
  {
    forall cid: ComponentId
      ensures Filter(reg.partitions[..i + 1], PartitionIn(reg, flag, cid)) ==
              Filter(reg.partitions[..i], PartitionIn(reg, flag, cid))
              + if PartitionIn(reg, flag, cid)(reg.partitions[i]) then [reg.partitions[i]] else []
    {
      FilterNext(reg.partitions, i, PartitionIn(reg, flag, cid));
    }
  }

  lemma RelationshipStep(reg: Registry, flag: bool, i: nat, es: Entries)
    requires i < |reg.approved| && Indexed(reg, flag, |reg.markets|, |reg.partitions|, i, es)
    ensures Indexed(reg, flag, |reg.markets|, |reg.partitions|, i + 1, AddRelationship(reg, es, reg.approved[i]))
  {
    forall cid: ComponentId
      ensures Filter(reg.approved[..i + 1], RelationshipIn(reg, cid)) ==
              Filter(reg.approved[..i], RelationshipIn(reg, cid))
              + if RelationshipIn(reg, cid)(reg.approved[i]) then [reg.approved[i]] else []
    {
      FilterNext(reg.approved, i, RelationshipIn(reg, cid));
    }
  }

  /** Where each token is routed, a later market replacing an earlier one. */
  function RoutesOf(reg: Registry, n: nat): map<TokenId, ComponentId>
    requires n <= |reg.markets|
  {
    if n == 0 then map[]
    else
      var m := reg.markets[n - 1];
      RoutesOf(reg, n - 1)[m.yes := reg.componentOf(m.id)][m.no := reg.componentOf(m.id)]
  }

  /** Every component with a market gets exactly its own share of the registry. */
  method BuildComponentIndex(reg: Registry, includeNonexhaustive: bool)
    returns (es: Entries, byToken: map<TokenId, ComponentId>)
    ensures Indexed(reg, includeNonexhaustive, |reg.markets|, |reg.partitions|, |reg.approved|, es)
    ensures byToken == RoutesOf(reg, |reg.markets|)
  {
    es, byToken := map[], map[];
    for i := 0 to |reg.markets|
      invariant Indexed(reg, includeNonexhaustive, i, 0, 0, es) && byToken == RoutesOf(reg, i)
    {
      MarketStep(reg, includeNonexhaustive, i, es);
      var m := reg.markets[i];
      es := AddMarket(reg, es, m);
      byToken := byToken[m.yes := reg.componentOf(m.id)];
      byToken := byToken[m.no := reg.componentOf(m.id)];
    }
    for i := 0 to |reg.partitions|
      invariant Indexed(reg, includeNonexhaustive, |reg.markets|, i, 0, es)
    {
      PartitionStep(reg, includeNonexhaustive, i, es);
      es := AddPartition(reg, includeNonexhaustive, es, reg.partitions[i]);
    }
    for i := 0 to |reg.approved|
      invariant Indexed(reg, includeNonexhaustive, |reg.markets|, |reg.partitions|, i, es)
    {
      RelationshipStep(reg, includeNonexhaustive, i, es);
      es := AddRelationship(reg, es, reg.approved[i]);
    }
  }

  // ----- what the index hands to the solver -----

  /** What the registry's construction guarantees: ids are positions, partitions
      are disjoint lists of known markets, relationships join known markets, and
      components are those of the union-find. */
  ghost predicate ValidRegistry(reg: Registry) {
    && (forall i :: 0 <= i < |reg.markets| ==> reg.markets[i].id == i)
    && DistinctTokens(reg.markets)
    && (forall p :: p in reg.partitions ==> MembersKnown(reg, p))
    && Pairwise(reg.partitions, Disjoint)
    && ByConnection(reg)
  }

  ghost predicate MembersKnown(reg: Registry, p: Partition) {
    && (forall j, k :: 0 <= j < k < |p.markets| ==> p.markets[j] != p.markets[k])
    && (forall j :: 0 <= j < |p.markets| ==> p.markets[j] < |reg.markets|)
  }

  ghost predicate ByConnection(reg: Registry) {
    forall x, y :: 0 <= x < |reg.markets| && 0 <= y < |reg.markets| ==>
      (reg.componentOf(x) == reg.componentOf(y) <==> Connected(Edges(reg.partitions, reg.approved), x, y))
  }

  lemma MembersTogether(reg: Registry, p: Partition, j: nat)
    requires ValidRegistry(reg) && p in reg.partitions && j < |p.markets|
    ensures MarketIndex(reg.markets, p.markets[j]) == Some(p.markets[j])
    ensures reg.componentOf(p.markets[j]) == reg.componentOf(p.markets[0])
  {
    assert MembersKnown(reg, p);
    PartitionStaysTogether(reg.partitions, reg.approved, p, j);
    assert reg.markets[p.markets[j]].id == p.markets[j];
    IndexOfId(reg.markets, p.markets[j]);
  }

  function Of(e: Entry, books: map<TokenId, BookView>): Component {
    Component(e.markets, e.partitions, e.relationships, books)
  }

  lemma OwnTokensDiffer(reg: Registry, cid: ComponentId)
    requires ValidRegistry(reg)
    ensures DistinctTokens(Filter(reg.markets, InComponent(reg, cid)))
  {
    var own := Filter(reg.markets, InComponent(reg, cid));
    FilterPairwise(reg.markets, InComponent(reg, cid),
                   (a: Market, b: Market) => a.yes != b.yes && a.yes != b.no && a.no != b.yes && a.no != b.no);
    forall i | 0 <= i < |own| ensures own[i].yes != own[i].no {
      FilterMembers(reg.markets, InComponent(reg, cid), own[i]);
      var k :| 0 <= k < |reg.markets| && reg.markets[k] == own[i];
    }
  }

  lemma FilteredMarkets(reg: Registry, cid: ComponentId)
    requires ValidRegistry(reg)
    ensures var own := Filter(reg.markets, InComponent(reg, cid));
            && DistinctIds(own) && DistinctTokens(own)
            && (forall m :: m in own <==> m in reg.markets && reg.componentOf(m.id) == cid)
  {
    var own := Filter(reg.markets, InComponent(reg, cid));
    forall m ensures m in own <==> m in reg.markets && reg.componentOf(m.id) == cid {
      FilterMembers(reg.markets, InComponent(reg, cid), m);
    }
    FilterPairwise(reg.markets, InComponent(reg, cid), (a: Market, b: Market) => a.id != b.id);
    OwnTokensDiffer(reg, cid);
  }

  lemma IncludedIs(reg: Registry, flag: bool, cid: ComponentId, p: Partition)
    ensures PartitionIn(reg, flag, cid)(p) <==> Included(p, flag) && reg.componentOf(p.markets[0]) == cid
  {
  }

  lemma MemberIsIndexed(own: seq<Market>, m: Market)
    requires m in own
    ensures MarketIndex(own, m.id).Some?
  {
  }

  /** A partition of the component: well formed, members distinct and all present. */
  lemma OwnPartition(reg: Registry, flag: bool, cid: ComponentId, p: Partition)
    requires ValidRegistry(reg) && p in Filter(reg.partitions, PartitionIn(reg, flag, cid))
    ensures p in reg.partitions && p.IsWellFormed()
    ensures forall j, k :: 0 <= j < k < |p.markets| ==> p.markets[j] != p.markets[k]
    ensures forall j :: 0 <= j < |p.markets| ==>
              MarketIndex(Filter(reg.markets, InComponent(reg, cid)), p.markets[j]).Some?
  {
    FilterMembers(reg.partitions, PartitionIn(reg, flag, cid), p);
    IncludedIs(reg, flag, cid, p);
    assert MembersKnown(reg, p);
    FilteredMarkets(reg, cid);
    var own := Filter(reg.markets, InComponent(reg, cid));
    forall j | 0 <= j < |p.markets| ensures MarketIndex(own, p.markets[j]).Some? {
      MembersTogether(reg, p, j);
      MemberIsIndexed(own, reg.markets[p.markets[j]]);
    }
  }

  lemma WholeIndex(reg: Registry, flag: bool, es: Entries, cid: ComponentId)
    requires cid in es && Indexed(reg, flag, |reg.markets|, |reg.partitions|, |reg.approved|, es)
    ensures es[cid].markets == Filter(reg.markets, InComponent(reg, cid))
    ensures es[cid].partitions == Filter(reg.partitions, PartitionIn(reg, flag, cid))
    ensures es[cid].relationships == Filter(reg.approved, RelationshipIn(reg, cid))
    ensures es[cid].tokens == TokensOf(es[cid].markets)
  {
    assert reg.markets[..|reg.markets|] == reg.markets;
    assert reg.partitions[..|reg.partitions|] == reg.partitions;
    assert reg.approved[..|reg.approved|] == reg.approved;
  }

  /** A grouping of component cid that is well formed and either verified or, on
      request, mutually exclusive. */
  ghost predicate Groups(reg: Registry, flag: bool, cid: ComponentId, p: Partition) {
    && p in reg.partitions && |p.markets| >= 2 && |p.yesTokens| == |p.noTokens| == |p.markets|
    && (p.verifiedExhaustive || (flag && p.negRisk))
    && forall j :: 0 <= j < |p.markets| ==> reg.componentOf(p.markets[j]) == cid
  }

  lemma GroupsAreListed(reg: Registry, flag: bool, cid: ComponentId, p: Partition)
    requires ValidRegistry(reg)
    ensures p in Filter(reg.partitions, PartitionIn(reg, flag, cid)) <==> Groups(reg, flag, cid, p)
  {
    FilterMembers(reg.partitions, PartitionIn(reg, flag, cid), p);
    IncludedIs(reg, flag, cid, p);
    if p in reg.partitions && |p.markets| >= 2 {
      forall j | 0 <= j < |p.markets| ensures reg.componentOf(p.markets[j]) == reg.componentOf(p.markets[0]) {
        MembersTogether(reg, p, j);
      }
    }
  }

  /** An entry lists exactly the markets of its component, its groupings, and the
      relationships approved between its markets. */
  lemma EntryShares(reg: Registry, flag: bool, es: Entries, cid: ComponentId)
    requires ValidRegistry(reg) && cid in es
    requires Indexed(reg, flag, |reg.markets|, |reg.partitions|, |reg.approved|, es)
    ensures forall m :: m in es[cid].markets <==> m in reg.markets && reg.componentOf(m.id) == cid
    ensures forall p :: p in es[cid].partitions <==> Groups(reg, flag, cid, p)
    ensures forall r :: r in es[cid].relationships <==> r in reg.approved && reg.componentOf(r.a) == cid
  {
    WholeIndex(reg, flag, es, cid);
    forall m ensures m in es[cid].markets <==> m in reg.markets && reg.componentOf(m.id) == cid {
      FilterMembers(reg.markets, InComponent(reg, cid), m);
    }
    forall p ensures p in es[cid].partitions <==> Groups(reg, flag, cid, p) { GroupsAreListed(reg, flag, cid, p); }
    forall r ensures r in es[cid].relationships <==> r in reg.approved && reg.componentOf(r.a) == cid {
      FilterMembers(reg.approved, RelationshipIn(reg, cid), r);
    }
  }

  /** Every entry of the index is a component the world enumeration accepts. */
  lemma EntryIsValidComponent(reg: Registry, flag: bool, es: Entries, cid: ComponentId, books: map<TokenId, BookView>)
    requires ValidRegistry(reg) && cid in es
    requires Indexed(reg, flag, |reg.markets|, |reg.partitions|, |reg.approved|, es)
    requires forall t :: t in books ==> books[t].Valid()
    ensures ValidComponent(Of(es[cid], books))
  {
    var c := Of(es[cid], books);
    WholeIndex(reg, flag, es, cid);
    FilteredMarkets(reg, cid);
    FilterPairwise(reg.partitions, PartitionIn(reg, flag, cid), Disjoint);
    forall p | p in c.partitions ensures p.IsWellFormed() && MembersDistinctAndKnown(c, p) {
      OwnPartition(reg, flag, cid, p);
    }
  }

  /** A truth assignment over the whole registry, seen by one component. */
  function Restrict(reg: Registry, own: seq<Market>, w: World): World
    requires |w| == |reg.markets|
  {
    seq(|own|, i requires 0 <= i < |own| => YesTrue(reg.markets, w, own[i].id))
  }

  lemma RestrictAgrees(reg: Registry, cid: ComponentId, w: World, id: MarketId)
    requires ValidRegistry(reg) && |w| == |reg.markets|
    ensures var own := Filter(reg.markets, InComponent(reg, cid));
            MarketIndex(own, id).Some? ==>
              && MarketIndex(reg.markets, id).Some?
              && YesTrue(own, Restrict(reg, own, w), id) == YesTrue(reg.markets, w, id)
  {
    var own := Filter(reg.markets, InComponent(reg, cid));
    FilteredMarkets(reg, cid);
    var k := MarketIndex(own, id);
    if k.Some? {
      assert own[k.value] in own;
    }
  }

  /** What reality obeys. Only a NegRisk or verified grouping is mutually
      exclusive, and only a verified one has a winner for sure; any other grouping
      the registry keeps may end with two winners or none. */
  ghost predicate RealOutcome(reg: Registry, w: World) {
    && |w| == |reg.markets|
    && (forall p :: p in reg.partitions ==> Realistic(reg, w, p))
    && (forall rel :: rel in reg.approved ==> Satisfies(reg.markets, w, rel))
  }

  ghost predicate Realistic(reg: Registry, w: World, p: Partition)
    requires |w| == |reg.markets|
  {
    && (p.negRisk || p.verifiedExhaustive ==> AtMostOneWinner(reg.markets, w, p))
    && (p.verifiedExhaustive ==> SomeWinner(reg.markets, w, p))
  }

  /** Whatever really happens, each component sees one of its legal worlds: the
      inclusion gate lets in only groupings that are mutually exclusive. */
  lemma RealOutcomeIsLegal(reg: Registry, flag: bool, es: Entries, cid: ComponentId, w: World)
    requires ValidRegistry(reg) && cid in es
    requires Indexed(reg, flag, |reg.markets|, |reg.partitions|, |reg.approved|, es)
    requires RealOutcome(reg, w)
    ensures LegalWorld(es[cid].markets, es[cid].partitions, es[cid].relationships, Restrict(reg, es[cid].markets, w))
  {
    WholeIndex(reg, flag, es, cid);
    var own := es[cid].markets;
    var v := Restrict(reg, own, w);
    forall p | p in es[cid].partitions ensures Respects(own, v, p) {
      OwnPartition(reg, flag, cid, p);
      FilterMembers(reg.partitions, PartitionIn(reg, flag, cid), p);
      assert PartitionIn(reg, flag, cid)(p) && Realistic(reg, w, p);
      forall j | 0 <= j < |p.markets| ensures YesTrue(own, v, p.markets[j]) == YesTrue(reg.markets, w, p.markets[j]) {
        RestrictAgrees(reg, cid, w, p.markets[j]);
      }
    }
    forall rel | rel in es[cid].relationships ensures Satisfies(own, v, rel) {
      FilterMembers(reg.approved, RelationshipIn(reg, cid), rel);
      assert Satisfies(reg.markets, w, rel);
      RestrictAgrees(reg, cid, w, rel.a);
      RestrictAgrees(reg, cid, w, rel.b);
    }
  }

  /** Nothing is lost either: when every grouping is let in, an outcome that each
      component takes for legal is a real outcome of the whole registry. */
  lemma LegalEverywhereIsReal(reg: Registry, es: Entries, w: World)
    requires ValidRegistry(reg) && |w| == |reg.markets|
    requires Indexed(reg, true, |reg.markets|, |reg.partitions|, |reg.approved|, es)
    requires forall p :: p in reg.partitions ==> Included(p, true)
    requires forall r :: r in reg.approved ==> r.a < |reg.markets| && r.b < |reg.markets|
    requires forall cid :: cid in es ==>
               LegalWorld(es[cid].markets, es[cid].partitions, es[cid].relationships, Restrict(reg, es[cid].markets, w))
    ensures RealOutcome(reg, w)
  {
    forall p | p in reg.partitions ensures Realistic(reg, w, p) { GroupIsRealistic(reg, es, w, p); }
    forall r | r in reg.approved ensures Satisfies(reg.markets, w, r) { RelationshipIsMet(reg, es, w, r); }
  }

  lemma InIndex(reg: Registry, flag: bool, es: Entries, cid: ComponentId)
    requires Indexed(reg, flag, |reg.markets|, |reg.partitions|, |reg.approved|, es)
    ensures cid in es <==> Filter(reg.markets, InComponent(reg, cid)) != []
  {
    assert reg.markets[..|reg.markets|] == reg.markets;
  }

  lemma HasEntry(reg: Registry, es: Entries, m: MarketId)
    requires ValidRegistry(reg) && m < |reg.markets|
    requires Indexed(reg, true, |reg.markets|, |reg.partitions|, |reg.approved|, es)
    ensures reg.componentOf(m) in es && MarketIndex(Filter(reg.markets, InComponent(reg, reg.componentOf(m))), m).Some?
  {
    var own := Filter(reg.markets, InComponent(reg, reg.componentOf(m)));
    FilterMembers(reg.markets, InComponent(reg, reg.componentOf(m)), reg.markets[m]);
    MemberIsIndexed(own, reg.markets[m]);
    InIndex(reg, true, es, reg.componentOf(m));
  }

  lemma GroupIsRealistic(reg: Registry, es: Entries, w: World, p: Partition)
    requires ValidRegistry(reg) && |w| == |reg.markets| && p in reg.partitions && Included(p, true)
    requires Indexed(reg, true, |reg.markets|, |reg.partitions|, |reg.approved|, es)
    requires forall cid :: cid in es ==>
               LegalWorld(es[cid].markets, es[cid].partitions, es[cid].relationships, Restrict(reg, es[cid].markets, w))
    ensures Realistic(reg, w, p)
  {
    assert MembersKnown(reg, p);
    var cid := reg.componentOf(p.markets[0]);
    HasEntry(reg, es, p.markets[0]);
    WholeIndex(reg, true, es, cid);
    FilterMembers(reg.partitions, PartitionIn(reg, true, cid), p);
    var own, v := es[cid].markets, Restrict(reg, es[cid].markets, w);
    OwnPartition(reg, true, cid, p);
    assert Respects(own, v, p);
    forall j | 0 <= j < |p.markets| ensures YesTrue(own, v, p.markets[j]) == YesTrue(reg.markets, w, p.markets[j]) {
      RestrictAgrees(reg, cid, w, p.markets[j]);
    }
  }

  lemma RelationshipIsMet(reg: Registry, es: Entries, w: World, r: Relationship)
    requires ValidRegistry(reg) && |w| == |reg.markets| && r in reg.approved
    requires r.a < |reg.markets| && r.b < |reg.markets|
    requires Indexed(reg, true, |reg.markets|, |reg.partitions|, |reg.approved|, es)
    requires forall cid :: cid in es ==>
               LegalWorld(es[cid].markets, es[cid].partitions, es[cid].relationships, Restrict(reg, es[cid].markets, w))
    ensures Satisfies(reg.markets, w, r)
  {
    var cid := reg.componentOf(r.a);
    EndsTogether(reg, r);
    HasEntry(reg, es, r.a);
    HasEntry(reg, es, r.b);
    WholeIndex(reg, true, es, cid);
    FilterMembers(reg.approved, RelationshipIn(reg, cid), r);
    assert Satisfies(es[cid].markets, Restrict(reg, es[cid].markets, w), r);
    RestrictAgrees(reg, cid, w, r.a);
    RestrictAgrees(reg, cid, w, r.b);
  }

  /** The two ends of a relationship are in one component. */
  lemma EndsTogether(reg: Registry, r: Relationship)
    requires ValidRegistry(reg) && r in reg.approved && r.a < |reg.markets| && r.b < |reg.markets|
    ensures reg.componentOf(r.a) == reg.componentOf(r.b)
  {
    RelationshipStaysTogether(reg.partitions, reg.approved, r);
  }

  /** A grouping is let in exactly when reality is bound by it: every outcome the
      registry allows respects it. A plain grouping may see two winners. */
  lemma GateIsReality(reg: Registry, p: Partition)
    requires ValidRegistry(reg) && reg.partitions == [p] && reg.approved == [] && p.IsWellFormed()
    ensures Included(p, true) <==> forall w :: RealOutcome(reg, w) ==> Respects(reg.markets, w, p)
    ensures Included(p, false) <==>
            forall w :: RealOutcome(reg, w) ==> AtMostOneWinner(reg.markets, w, p) && SomeWinner(reg.markets, w, p)
  {
    assert p in reg.partitions;
    forall w | RealOutcome(reg, w) ensures Realistic(reg, w, p) {}
    if !p.negRisk && !p.verifiedExhaustive {
      AllWinIsReal(reg, p);
    } else if !p.verifiedExhaustive {
      NoneWinsIsReal(reg, p);
    }
  }

  lemma AllWinIsReal(reg: Registry, p: Partition)
    requires ValidRegistry(reg) && reg.partitions == [p] && reg.approved == [] && p.IsWellFormed()
    requires !p.negRisk && !p.verifiedExhaustive
    ensures var w := seq(|reg.markets|, _ => true); RealOutcome(reg, w) && !AtMostOneWinner(reg.markets, w, p)
  {
    var w := seq(|reg.markets|, _ => true);
    MembersTogether(reg, p, 0);
    MembersTogether(reg, p, 1);
    assert YesTrue(reg.markets, w, p.markets[0]) && YesTrue(reg.markets, w, p.markets[1]);
  }

  lemma NoneWinsIsReal(reg: Registry, p: Partition)
    requires ValidRegistry(reg) && reg.partitions == [p] && reg.approved == [] && !p.verifiedExhaustive
    ensures var w := seq(|reg.markets|, _ => false); RealOutcome(reg, w) && !SomeWinner(reg.markets, w, p)
  {
    var w := seq(|reg.markets|, _ => false);
    forall id: MarketId ensures !YesTrue(reg.markets, w, id) {}
  }

  // ----- routing -----

  lemma {:induction false} RouteOfToken(reg: Registry, n: nat, t: TokenId)
    requires n <= |reg.markets| && DistinctTokens(reg.markets)
    ensures t in RoutesOf(reg, n) <==> exists i :: 0 <= i < n && (reg.markets[i].yes == t || reg.markets[i].no == t)
    ensures forall i :: 0 <= i < n && (reg.markets[i].yes == t || reg.markets[i].no == t) ==>
              RoutesOf(reg, n)[t] == reg.componentOf(reg.markets[i].id)
  {
    if n == 0 {
    } else {
      RouteOfToken(reg, n - 1, t);
    }
  }

  lemma {:induction false} TokensOfMembers(markets: seq<Market>, t: TokenId)
    ensures t in TokensOf(markets) <==> exists m :: m in markets && (m.yes == t || m.no == t)
  {
    if markets == [] {
    } else {
      var n := |markets| - 1;
      TokensOfMembers(markets[..n], t);
      assert markets == markets[..n] + [markets[n]];
      assert t in TokensOf(markets) <==> t in TokensOf(markets[..n]) || t == markets[n].yes || t == markets[n].no;
    }
  }

  /** A token is routed to exactly the component that lists it. */
  lemma RoutedWhereListed(reg: Registry, flag: bool, es: Entries, cid: ComponentId, t: TokenId)
    requires ValidRegistry(reg) && Indexed(reg, flag, |reg.markets|, |reg.partitions|, |reg.approved|, es)
    ensures (t in RoutesOf(reg, |reg.markets|) && RoutesOf(reg, |reg.markets|)[t] == cid) <==>
            (cid in es && t in es[cid].tokens)
  {
    var own := Filter(reg.markets, InComponent(reg, cid));
    RouteOfToken(reg, |reg.markets|, t);
    FilteredMarkets(reg, cid);
    TokensOfMembers(own, t);
    if cid in es {
      WholeIndex(reg, flag, es, cid);
    } else {
      assert reg.markets[..|reg.markets|] == reg.markets;
      assert own == [];
    }
  }

  // ----- the registry's own components -----

  /** Assembling a registry: its component function answers what the union-find over
      its partitions and relationships answers. */
  method Assemble(markets: seq<Market>, partitions: seq<Partition>, approved: seq<Relationship>) returns (reg: Registry)
    requires forall i, j :: 0 <= i < |partitions| && 0 <= j < |partitions[i].markets| ==>
        partitions[i].markets[j] < |markets|
    requires forall i :: 0 <= i < |approved| ==> approved[i].a < |markets| && approved[i].b < |markets|
    ensures reg.markets == markets && reg.partitions == partitions && reg.approved == approved
    ensures ByConnection(reg)
  {
    var c := Build(|markets|, partitions, approved);
    var roots: seq<nat> := [];
    for m := 0 to |markets|
      invariant c.Valid() && c.parent.Length == |markets| && c.edges == Edges(partitions, approved)
      invariant roots == c.root[..m]
    {
      var root := c.ComponentOf(m);
      roots := roots + [root];
    }
    reg := Registry(markets, partitions, approved, (m: MarketId) => ComponentId(if m < |roots| then roots[m] else m));
    assert roots == c.root;
    assert RootsAreConnection(c.root, c.edges);
  }
}
