/** Connected components of markets, by union-find over a parent array: two
    markets share a component exactly when partitions and relationships link them. */
module UnionFind {
  import opened Instrument

  type Edge = (MarketId, MarketId)

  // ----- what is linked -----

  function PairsOf(ids: seq<MarketId>): seq<Edge> {
    if |ids| < 2 then [] else PairsOf(ids[..|ids| - 1]) + [(ids[|ids| - 2], ids[|ids| - 1])]
  }

  function PartitionEdges(partitions: seq<Partition>): seq<Edge> {
    if partitions == [] then []
    else PartitionEdges(partitions[..|partitions| - 1]) + PairsOf(partitions[|partitions| - 1].markets)
  }

  function RelationshipEdges(rels: seq<Relationship>): seq<Edge> {
    if rels == [] then []
    else RelationshipEdges(rels[..|rels| - 1]) + [(rels[|rels| - 1].a, rels[|rels| - 1].b)]
  }

  function Edges(partitions: seq<Partition>, rels: seq<Relationship>): seq<Edge> {
    PartitionEdges(partitions) + RelationshipEdges(rels)
  }

  ghost predicate Linked(es: seq<Edge>, x: MarketId, y: MarketId) {
    (x, y) in es || (y, x) in es
  }

  ghost predicate Path(es: seq<Edge>, p: seq<MarketId>) {
    p != [] && forall k :: 0 < k < |p| ==> Linked(es, p[k - 1], p[k])
  }

  ghost predicate Joins(es: seq<Edge>, p: seq<MarketId>, x: MarketId, y: MarketId) {
    Path(es, p) && p[0] == x && p[|p| - 1] == y
  }

  /** Some chain of links leads from x to y. */
  ghost predicate Connected(es: seq<Edge>, x: MarketId, y: MarketId) {
    exists p :: Joins(es, p, x, y)
  }

  lemma ConnectedRefl(es: seq<Edge>, x: MarketId)
    ensures Connected(es, x, x)
  {
    assert Joins(es, [x], x, x);
  }

  lemma ConnectedTrans(es: seq<Edge>, x: MarketId, y: MarketId, z: MarketId)
    requires Connected(es, x, y) && Connected(es, y, z)
    ensures Connected(es, x, z)
  {
    var p :| Joins(es, p, x, y);
    var q :| Joins(es, q, y, z);
    var r := p + q[1..];
    forall k | 0 < k < |r| ensures Linked(es, r[k - 1], r[k]) {
      if k < |p| {
        assert r[k - 1] == p[k - 1] && r[k] == p[k];
      } else {
        assert r[k] == q[k - |p| + 1] && r[k - 1] == q[k - |p|];
      }
    }
    assert Joins(es, r, x, z);
  }

  lemma ConnectedSym(es: seq<Edge>, x: MarketId, y: MarketId)
    requires Connected(es, x, y)
    ensures Connected(es, y, x)
  {
    var p :| Joins(es, p, x, y);
    var n := |p|;
    var r := seq(n, i requires 0 <= i < n => p[n - 1 - i]);
    forall k | 0 < k < n ensures Linked(es, r[k - 1], r[k]) {
      assert Linked(es, p[n - 1 - k], p[n - k]);
    }
    assert Joins(es, r, y, x);
  }

  lemma ConnectedMore(es: seq<Edge>, more: seq<Edge>, x: MarketId, y: MarketId)
    requires Connected(es, x, y) && forall e :: e in es ==> e in more
    ensures Connected(more, x, y)
  {
    var p :| Joins(es, p, x, y);
    assert Joins(more, p, x, y);
  }

  lemma ConnectedEdge(es: seq<Edge>, e: Edge)
    requires e in es
    ensures Connected(es, e.0, e.1)
  {
    assert Joins(es, [e.0, e.1], e.0, e.1);
  }

  /** A labelling that no edge breaks is constant along every path. */
  lemma {:induction false} PathKeepsLabel(es: seq<Edge>, mark: MarketId -> nat, p: seq<MarketId>)
    requires Path(es, p) && forall e :: e in es ==> mark(e.0) == mark(e.1)
    ensures mark(p[0]) == mark(p[|p| - 1])
  {
    if |p| <= 1 {
    } else {
      assert Linked(es, p[|p| - 2], p[|p| - 1]);
      PathKeepsLabel(es, mark, p[..|p| - 1]);
    }
  }

  // ----- the structure -----

  ghost predicate InRange(es: seq<Edge>, n: nat) {
    forall e :: e in es ==> e.0 < n && e.1 < n
  }

  /** Node i and its parent share a root, and a node that is not a root sits below its parent. */
  ghost predicate Climbs(parent: seq<nat>, root: seq<nat>, level: seq<nat>, top: nat, i: nat)
    requires |root| == |parent| == |level| && i < |parent|
  {
    && parent[i] < |parent| && root[i] < |parent|
    && root[parent[i]] == root[i] && parent[root[i]] == root[i] && (parent[i] == i ==> root[i] == i)
    && (parent[i] != i ==> level[i] < level[parent[i]]) && level[i] <= top
  }

  ghost predicate Forest(parent: seq<nat>, root: seq<nat>, level: seq<nat>, top: nat) {
    && |root| == |parent| == |level|
    && forall i: nat :: i < |parent| ==> Climbs(parent, root, level, top, i)
  }

  function Merged(root: seq<nat>, ra: nat, rb: nat): seq<nat> {
    seq(|root|, i requires 0 <= i < |root| => if root[i] == rb then ra else root[i])
  }

  lemma HangRoot(parent: seq<nat>, root: seq<nat>, level: seq<nat>, top: nat, ra: nat, rb: nat)
    requires Forest(parent, root, level, top) && ra < |parent| && rb < |parent| && ra != rb
    requires parent[ra] == ra && parent[rb] == rb
    ensures Forest(parent[rb := ra], Merged(root, ra, rb), level[ra := top + 1], top + 1)
  {
    assert Climbs(parent, root, level, top, ra) && Climbs(parent, root, level, top, rb);
    var p, r, l, t := parent[rb := ra], Merged(root, ra, rb), level[ra := top + 1], top + 1;
    forall i: nat | i < |parent| ensures Climbs(p, r, l, t, i) {
      assert Climbs(parent, root, level, top, i);
      assert Climbs(parent, root, level, top, parent[i]);
    }
  }

  ghost predicate RootsAreConnection(root: seq<nat>, es: seq<Edge>) {
    forall x, y :: 0 <= x < |root| && 0 <= y < |root| ==> (root[x] == root[y] <==> Connected(es, x, y))
  }

  lemma SameRootIsConnected(root: seq<nat>, es: seq<Edge>, a: MarketId, b: MarketId, x: MarketId, y: MarketId)
    requires RootsAreConnection(root, es) && a < |root| && b < |root| && x < |root| && y < |root|
    requires Merged(root, root[a], root[b])[x] == Merged(root, root[a], root[b])[y]
    ensures Connected(es + [(a, b)], x, y)
  {
    var more := es + [(a, b)];
    ConnectedEdge(more, (a, b));
    ConnectedSym(more, a, b);
    if root[x] == root[y] {
      ConnectedMore(es, more, x, y);
    } else if root[x] == root[b] {
      ConnectedMore(es, more, x, b);
      ConnectedMore(es, more, a, y);
      ConnectedTrans(more, x, b, a);
      ConnectedTrans(more, x, a, y);
    } else {
      ConnectedMore(es, more, x, a);
      ConnectedMore(es, more, b, y);
      ConnectedTrans(more, x, a, b);
      ConnectedTrans(more, x, b, y);
    }
  }

  lemma MergeConnects(root: seq<nat>, es: seq<Edge>, a: MarketId, b: MarketId)
    requires RootsAreConnection(root, es) && InRange(es, |root|) && a < |root| && b < |root|
    ensures RootsAreConnection(Merged(root, root[a], root[b]), es + [(a, b)])
  {
    var after, more := Merged(root, root[a], root[b]), es + [(a, b)];
    forall x, y | 0 <= x < |after| && 0 <= y < |after| ensures after[x] == after[y] <==> Connected(more, x, y) {
      if after[x] == after[y] { SameRootIsConnected(root, es, a, b, x, y); }
      if Connected(more, x, y) {
        var p :| Joins(more, p, x, y);
        var mark := (i: MarketId) => if i < |after| then after[i] else 0;
        forall e | e in more ensures mark(e.0) == mark(e.1) {
          if e in es { ConnectedEdge(es, e); }
        }
        PathKeepsLabel(more, mark, p);
      }
    }
  }

  class Components {
    const parent: array<nat>
    ghost var root: seq<nat>
    ghost var level: seq<nat>
    ghost var top: nat
    ghost var edges: seq<Edge>

    ghost predicate Valid()
      reads this, parent
    {
      && Forest(parent[..], root, level, top)
      && InRange(edges, parent.Length) && RootsAreConnection(root, edges)
    }

    constructor Singletons(n: nat)
      ensures Valid() && parent.Length == n && edges == [] && fresh(parent)
    {
      parent := new nat[n](i => i);
      root := seq(n, i => i);
      level := seq(n, _ => 0);
      top := 0;
      edges := [];
      new;
      forall x, y | 0 <= x < n && 0 <= y < n ensures root[x] == root[y] <==> Connected([], x, y) {
        NothingConnects(x, y);
      }
    }

    method Find(i: MarketId) returns (r: nat)
      requires Valid() && i < parent.Length
      ensures r == root[i] && r < parent.Length && parent[r] == r
    {
      r := i;
      while parent[r] != r
        invariant r < parent.Length && root[r] == root[i]
        decreases top - level[r]
      {
        assert Climbs(parent[..], root, level, top, r) && Climbs(parent[..], root, level, top, parent[r]);
        r := parent[r];
      }
      assert Climbs(parent[..], root, level, top, r);
    }

    method Union(a: MarketId, b: MarketId)
      requires Valid() && a < parent.Length && b < parent.Length
      modifies this, parent
      ensures Valid() && edges == old(edges) + [(a, b)]
    {
      var ra := Find(a);
      var rb := Find(b);
      MergeConnects(root, edges, a, b);
      if ra != rb {
        HangRoot(parent[..], root, level, top, ra, rb);
        parent[rb] := ra;
        level, top := level[ra := top + 1], top + 1;
      } else {
        assert Merged(root, ra, rb) == root;
      }
      root := Merged(root, ra, rb);
      edges := edges + [(a, b)];
    }

    /** Two markets have the same component exactly when they are connected. */
    method ComponentOf(m: MarketId) returns (c: nat)
      requires Valid() && m < parent.Length
      ensures c == root[m]
      ensures forall x :: 0 <= x < parent.Length ==> (root[x] == c <==> Connected(edges, x, m))
    {
      c := Find(m);
    }
  }

  lemma NothingConnects(x: MarketId, y: MarketId)
    ensures Connected([], x, y) <==> x == y
  {
    ConnectedRefl([], x);
    if Connected([], x, y) {
      var p :| Joins([], p, x, y);
      PathKeepsLabel([], (i: MarketId) => i, p);
    }
  }

  lemma PairsNext(ids: seq<MarketId>, k: nat)
    requires 0 < k < |ids|
    ensures PairsOf(ids[..k + 1]) == PairsOf(ids[..k]) + [(ids[k - 1], ids[k])]
  {
    assert ids[..k + 1][..k] == ids[..k];
  }

  method LinkMembers(c: Components, ids: seq<MarketId>)
    requires c.Valid() && forall i :: 0 <= i < |ids| ==> ids[i] < c.parent.Length
    modifies c, c.parent
    ensures c.Valid() && c.edges == old(c.edges) + PairsOf(ids)
  {
    var k := 1;
    assert c.edges + [] == c.edges;
    while k < |ids|
      invariant 1 <= k && (k <= |ids| || |ids| == 0)
      invariant c.Valid() && (|ids| > 0 ==> c.edges == old(c.edges) + PairsOf(ids[..k]))
      invariant |ids| == 0 ==> c.edges == old(c.edges)
    {
      c.Union(ids[k - 1], ids[k]);
      PairsNext(ids, k);
      k := k + 1;
    }
    if |ids| > 0 { assert ids[..k] == ids; }
  }

  /** Links every partition's neighbours, then every relationship's ends. */
  method Build(n: nat, partitions: seq<Partition>, rels: seq<Relationship>) returns (c: Components)
    requires forall i, j :: 0 <= i < |partitions| && 0 <= j < |partitions[i].markets| ==> partitions[i].markets[j] < n
    requires forall i :: 0 <= i < |rels| ==> rels[i].a < n && rels[i].b < n
    ensures fresh(c) && fresh(c.parent) && c.Valid() && c.parent.Length == n && c.edges == Edges(partitions, rels)
  {
    c := new Components.Singletons(n);
    for i := 0 to |partitions|
      invariant fresh(c) && fresh(c.parent) && c.Valid() && c.parent.Length == n
      invariant c.edges == PartitionEdges(partitions[..i])
    {
      assert partitions[..i + 1][..i] == partitions[..i];
      LinkMembers(c, partitions[i].markets);
    }
    assert partitions[..|partitions|] == partitions;
    assert c.edges == PartitionEdges(partitions) + RelationshipEdges(rels[..0]);
    for i := 0 to |rels|
      invariant fresh(c) && fresh(c.parent) && c.Valid() && c.parent.Length == n
      invariant c.edges == PartitionEdges(partitions) + RelationshipEdges(rels[..i])
    {
      assert rels[..i + 1][..i] == rels[..i];
      c.Union(rels[i].a, rels[i].b);
    }
    assert rels[..|rels|] == rels;
  }

  // ----- consequences -----

  lemma {:induction false} PairsConnect(ids: seq<MarketId>, es: seq<Edge>, j: nat)
    requires j < |ids| && forall e :: e in PairsOf(ids) ==> e in es
    ensures Connected(es, ids[0], ids[j])
  {
    if j == |ids| - 1 && j > 0 {
      PairsConnect(ids[..j], es, j - 1);
      assert (ids[j - 1], ids[j]) in PairsOf(ids);
      ConnectedEdge(es, (ids[j - 1], ids[j]));
      ConnectedTrans(es, ids[0], ids[j - 1], ids[j]);
    } else if j > 0 {
      PairsConnect(ids[..|ids| - 1], es, j);
    } else {
      ConnectedRefl(es, ids[0]);
    }
  }

  lemma {:induction false} PartitionEdgesHold(partitions: seq<Partition>, p: Partition, e: Edge)
    requires p in partitions && e in PairsOf(p.markets)
    ensures e in PartitionEdges(partitions)
  {
    var n := |partitions| - 1;
    assert partitions == partitions[..n] + [partitions[n]];
    if p == partitions[n] {
    } else {
      PartitionEdgesHold(partitions[..n], p, e);
    }
  }

  /** No partition is ever split between components. */
  lemma PartitionStaysTogether(partitions: seq<Partition>, rels: seq<Relationship>, p: Partition, j: nat)
    requires p in partitions && j < |p.markets|
    ensures Connected(Edges(partitions, rels), p.markets[0], p.markets[j])
  {
    forall e | e in PairsOf(p.markets) ensures e in Edges(partitions, rels) { PartitionEdgesHold(partitions, p, e); }
    PairsConnect(p.markets, Edges(partitions, rels), j);
  }

  lemma {:induction false} RelationshipEdgesHold(rels: seq<Relationship>, r: Relationship)
    requires r in rels
    ensures (r.a, r.b) in RelationshipEdges(rels)
  {
    var n := |rels| - 1;
    if r != rels[n] { RelationshipEdgesHold(rels[..n], r); }
  }

  /** The two ends of a relationship are never in different components. */
  lemma RelationshipStaysTogether(partitions: seq<Partition>, rels: seq<Relationship>, r: Relationship)
    requires r in rels
    ensures Connected(Edges(partitions, rels), r.a, r.b)
  {
    RelationshipEdgesHold(rels, r);
    assert Joins(Edges(partitions, rels), [r.a, r.b], r.a, r.b);
  }

  lemma {:induction false} PairsAreMembers(members: seq<MarketId>, e: Edge)
    requires e in PairsOf(members)
    ensures e.0 in members && e.1 in members
  {
    var n := |members| - 1;
    if e in PairsOf(members[..n]) { PairsAreMembers(members[..n], e); }
  }

  lemma {:induction false} PartitionEdgesJoin(partitions: seq<Partition>, e: Edge)
    requires e in PartitionEdges(partitions)
    ensures exists p :: p in partitions && e.0 in p.markets && e.1 in p.markets
  {
    var n := |partitions| - 1;
    if e in PartitionEdges(partitions[..n]) {
      PartitionEdgesJoin(partitions[..n], e);
      var p :| p in partitions[..n] && e.0 in p.markets && e.1 in p.markets;
      assert p in partitions;
    } else {
      PairsAreMembers(partitions[n].markets, e);
      assert partitions[n] in partitions;
    }
  }

  lemma {:induction false} RelationshipEdgesJoin(rels: seq<Relationship>, e: Edge)
    requires e in RelationshipEdges(rels)
    ensures exists r :: r in rels && e == (r.a, r.b)
  {
    var n := |rels| - 1;
    if e in RelationshipEdges(rels[..n]) {
      RelationshipEdgesJoin(rels[..n], e);
      var r :| r in rels[..n] && e == (r.a, r.b);
      assert r in rels;
    } else {
      assert rels[n] in rels;
    }
  }

  /** Nothing is linked that shares neither a partition nor a relationship. */
  lemma LinksAreRelated(partitions: seq<Partition>, rels: seq<Relationship>, e: Edge)
    requires e in Edges(partitions, rels)
    ensures || (exists p :: p in partitions && e.0 in p.markets && e.1 in p.markets)
            || (exists r :: r in rels && e == (r.a, r.b))
  {
    if e in PartitionEdges(partitions) {
      PartitionEdgesJoin(partitions, e);
    } else {
      RelationshipEdgesJoin(rels, e);
    }
  }
}
