/** Every resolution world of a component, enumerated by a mixed-radix odometer
    over partition winners times a bitmask over the free markets. */
module Worlds {
  import opened Wrappers
  import opened Num
  import opened Instrument
  import opened Book
  import opened Sequences
  import opened Bits

  const U128_MAX: int := 0xffff_ffff_ffff_ffff_ffff_ffff_ffff_ffff

  datatype Component = Component(markets: seq<Market>, partitions: seq<Partition>,
                                 relationships: seq<Relationship>, books: map<TokenId, BookView>)

  /** What the registry guarantees of a component: distinct ids and tokens;
      well-formed, pairwise disjoint partitions whose members it contains. */
  ghost predicate ValidComponent(c: Component) {
    && DistinctIds(c.markets) && DistinctTokens(c.markets)
    && (forall t :: t in c.books ==> c.books[t].Valid())
    && (forall p :: p in c.partitions ==> p.IsWellFormed())
    && (forall pi :: 0 <= pi < |c.partitions| ==> MembersDistinctAndKnown(c, c.partitions[pi]))
    && (forall pi, qi :: 0 <= pi < qi < |c.partitions| ==> Disjoint(c.partitions[pi], c.partitions[qi]))
  }

  ghost predicate MembersDistinctAndKnown(c: Component, p: Partition) {
    && (forall j :: 0 <= j < |p.markets| ==> MarketIndex(c.markets, p.markets[j]).Some?)
    && (forall j, k :: 0 <= j < k < |p.markets| ==> p.markets[j] != p.markets[k])
  }

  ghost predicate Disjoint(p: Partition, q: Partition) {
    forall id :: id in p.markets ==> id !in q.markets
  }

  ghost predicate Legal(c: Component, w: World) {
    LegalWorld(c.markets, c.partitions, c.relationships, w)
  }

  predicate Consistent(c: Component, w: World)
    requires |w| == |c.markets|
  {
    forall rel :: rel in c.relationships ==> Satisfies(c.markets, w, rel)
  }

  /** k choices for an exactly-one set, k + 1 when nobody may win. */
  function PartitionChoices(p: Partition): nat {
    |p.markets| + if p.verifiedExhaustive then 0 else 1
  }

  // ----- mixed-radix digits -----

  function Radices(partitions: seq<Partition>): seq<nat> {
    seq(|partitions|, i requires 0 <= i < |partitions| => PartitionChoices(partitions[i]))
  }

  function Product(rs: seq<nat>): nat {
    if rs == [] then 1 else Product(rs[..|rs| - 1]) * rs[|rs| - 1]
  }

  ghost predicate Positive(rs: seq<nat>) {
    forall i :: 0 <= i < |rs| ==> rs[i] > 0
  }

  ghost predicate ValidDigits(ds: seq<nat>, rs: seq<nat>) {
    |ds| == |rs| && forall i :: 0 <= i < |ds| ==> ds[i] < rs[i]
  }

  /** Last digit least significant. */
  ghost function Val(ds: seq<nat>, rs: seq<nat>): nat
    requires |ds| == |rs|
  {
    if ds == [] then 0
    else Val(ds[..|ds| - 1], rs[..|rs| - 1]) * rs[|rs| - 1] + ds[|ds| - 1]
  }

  ghost function Digits(v: nat, rs: seq<nat>): (ds: seq<nat>)
    requires Positive(rs)
    ensures |ds| == |rs|
    decreases |rs|
  {
    if rs == [] then []
    else
      var r := rs[|rs| - 1];
      Digits(v / r, rs[..|rs| - 1]) + [v % r]
  }

  lemma DivModUnique(q: nat, d: nat, r: nat)
    requires d < r
    ensures (q * r + d) / r == q && (q * r + d) % r == d
  {
    var v := q * r + d;
    assert (v / r) * r + v % r == v;
    assert (v / r - q) * r == (v / r) * r - q * r;
    MultipleBelow(v / r - q, r);
  }

  lemma MultipleBelow(e: int, r: nat)
    requires 0 - r < e * r < r
    ensures e == 0
  {
  }

  lemma DigitsStep(q: nat, d: nat, rs: seq<nat>)
    requires Positive(rs) && rs != [] && d < rs[|rs| - 1]
    ensures Digits(q * rs[|rs| - 1] + d, rs) == Digits(q, rs[..|rs| - 1]) + [d]
  {
    DivModUnique(q, d, rs[|rs| - 1]);
  }

  lemma {:induction false} DigitsOfVal(ds: seq<nat>, rs: seq<nat>)
    requires ValidDigits(ds, rs) && Positive(rs)
    ensures Digits(Val(ds, rs), rs) == ds
  {
    if ds == [] {
    } else {
      var n := |ds| - 1;
      DigitsOfVal(ds[..n], rs[..n]);
      DigitsStep(Val(ds[..n], rs[..n]), ds[n], rs);
    }
  }

  lemma DigitFits(q: nat, d: nat, p: nat, r: nat)
    requires q < p && d < r
    ensures q * r + d < p * r
  {
    MulLe(q + 1, p, r);
    assert (q + 1) * r == q * r + r;
  }

  lemma {:induction false} ValFits(ds: seq<nat>, rs: seq<nat>)
    requires ValidDigits(ds, rs)
    ensures Val(ds, rs) < Product(rs)
  {
    if ds == [] {
    } else {
      var n := |ds| - 1;
      ValFits(ds[..n], rs[..n]);
      DigitFits(Val(ds[..n], rs[..n]), ds[n], Product(rs[..n]), rs[n]);
    }
  }

  lemma QuotientBound(v: nat, p: nat, r: nat)
    requires r > 0 && v < p * r
    ensures v / r < p
  {
    if p <= v / r { MulLe(p, v / r, r); }
  }

  lemma {:induction false} ValOfDigits(v: nat, rs: seq<nat>)
    requires Positive(rs) && v < Product(rs)
    ensures ValidDigits(Digits(v, rs), rs)
    ensures Val(Digits(v, rs), rs) == v
    decreases |rs|
  {
    if rs == [] {
    } else {
      var n := |rs| - 1;
      var r := rs[n];
      QuotientBound(v, Product(rs[..n]), r);
      ValOfDigits(v / r, rs[..n]);
      var ds := Digits(v, rs);
      assert ds[..n] == Digits(v / r, rs[..n]);
      assert (v / r) * r + v % r == v;
    }
  }

  // ----- free markets and their bits -----

  /** Partition that owns market i, if any. */
  function Owner(c: Component, i: nat): (r: Option<nat>)
    requires i < |c.markets|
    ensures r.Some? ==> r.value < |c.partitions| && c.markets[i].id in c.partitions[r.value].markets
    ensures r.None? ==> forall pi :: 0 <= pi < |c.partitions| ==> c.markets[i].id !in c.partitions[pi].markets
  {
    OwnerAmong(c, i, |c.partitions|)
  }

  function OwnerAmong(c: Component, i: nat, n: nat): (r: Option<nat>)
    requires i < |c.markets| && n <= |c.partitions|
    ensures r.Some? ==> r.value < n && c.markets[i].id in c.partitions[r.value].markets
    ensures r.None? ==> forall pi :: 0 <= pi < n ==> c.markets[i].id !in c.partitions[pi].markets
  {
    if n == 0 then None
    else if c.markets[i].id in c.partitions[n - 1].markets then Some(n - 1)
    else OwnerAmong(c, i, n - 1)
  }

  /** Indices below n that no partition owns, ascending. */
  function FreeBelow(c: Component, n: nat): (r: seq<nat>)
    requires n <= |c.markets|
    ensures forall k :: 0 <= k < |r| ==> r[k] < n
  {
    if n == 0 then []
    else FreeBelow(c, n - 1) + if Owner(c, n - 1).None? then [n - 1] else []
  }

  function Free(c: Component): seq<nat> {
    FreeBelow(c, |c.markets|)
  }

  lemma {:induction false} FreeBelowGrows(c: Component, m: nat, n: nat)
    requires m <= n <= |c.markets|
    ensures FreeBelow(c, m) <= FreeBelow(c, n)
  {
    if m >= n {
    } else {
      FreeBelowGrows(c, m, n - 1);
    }
  }

  /** The market right after k free ones is, if free itself, the k-th. */
  lemma FreeRank(c: Component, i: nat)
    requires i < |c.markets| && Owner(c, i).None?
    ensures |FreeBelow(c, i)| < |Free(c)| && Free(c)[|FreeBelow(c, i)|] == i
  {
    FreeBelowGrows(c, i + 1, |c.markets|);
    assert FreeBelow(c, i + 1)[|FreeBelow(c, i)|] == i;
  }

  lemma {:induction false} FreeIsRanked(c: Component, n: nat, k: nat)
    requires n <= |c.markets| && k < |FreeBelow(c, n)|
    ensures Owner(c, FreeBelow(c, n)[k]).None? && |FreeBelow(c, FreeBelow(c, n)[k])| == k
  {
    if k >= |FreeBelow(c, n - 1)| {
    } else {
      FreeIsRanked(c, n - 1, k);
    }
  }

  ghost function MaskOf(bits: seq<bool>): nat {
    if bits == [] then 0 else (if bits[0] then 1 else 0) + 2 * MaskOf(bits[1..])
  }

  lemma {:induction false} MaskBits(bits: seq<bool>)
    ensures MaskOf(bits) < Pow2(|bits|)
    ensures forall k :: 0 <= k < |bits| ==> Bit(MaskOf(bits), k) == bits[k]
  {
    if bits == [] {
    } else {
      MaskBits(bits[1..]);
      forall k | 1 <= k < |bits| ensures Bit(MaskOf(bits), k) == bits[k] {
        assert MaskOf(bits) / 2 == MaskOf(bits[1..]);
        assert Bit(MaskOf(bits[1..]), k - 1) == bits[1..][k - 1];
      }
    }
  }

  lemma {:induction false} BitsDetermineMask(a: nat, b: nat, n: nat)
    requires a < Pow2(n) && b < Pow2(n)
    requires forall k :: 0 <= k < n ==> Bit(a, k) == Bit(b, k)
    ensures a == b
  {
    if n == 0 {
    } else {
      forall k | 0 <= k < n - 1 ensures Bit(a / 2, k) == Bit(b / 2, k) {
        assert Bit(a, k + 1) == Bit(b, k + 1);
      }
      BitsDetermineMask(a / 2, b / 2, n - 1);
      assert Bit(a, 0) == Bit(b, 0);
    }
  }

  // ----- the world a choice vector and a mask denote -----

  function WorldOf(c: Component, choice: seq<nat>, mask: nat): World
    requires |choice| == |c.partitions|
  {
    seq(|c.markets|, i requires 0 <= i < |c.markets| => TruthOf(c, choice, mask, i))
  }

  function TruthOf(c: Component, choice: seq<nat>, mask: nat, i: nat): bool
    requires |choice| == |c.partitions| && i < |c.markets|
  {
    match Owner(c, i)
    case Some(pi) => Wins(c.partitions[pi], choice[pi], c.markets[i].id)
    case None => Bit(mask, |FreeBelow(c, i)|)
  }

  /** Choice k of a k-member set is the world in which nobody wins. */
  predicate Wins(p: Partition, choice: nat, id: MarketId) {
    choice < |p.markets| && p.markets[choice] == id
  }

  lemma OwnerIs(c: Component, i: nat, pi: nat)
    requires ValidComponent(c) && i < |c.markets| && pi < |c.partitions|
    requires c.markets[i].id in c.partitions[pi].markets
    ensures Owner(c, i) == Some(pi)
  {
    forall qi | 0 <= qi < |c.partitions| && qi != pi
      ensures c.markets[i].id !in c.partitions[qi].markets
    {
      assert Disjoint(c.partitions[Min(pi, qi)], c.partitions[Max(pi, qi)]);
    }
  }

  lemma MemberTruth(c: Component, choice: seq<nat>, mask: nat, pi: nat, j: nat)
    requires ValidComponent(c) && |choice| == |c.partitions| && pi < |c.partitions|
    requires j < |c.partitions[pi].markets|
    ensures YesTrue(c.markets, WorldOf(c, choice, mask), c.partitions[pi].markets[j]) <==> choice[pi] == j
  {
    var p := c.partitions[pi];
    assert MembersDistinctAndKnown(c, p);
    var i := MarketIndex(c.markets, p.markets[j]).value;
    OwnerIs(c, i, pi);
    if choice[pi] < |p.markets| && choice[pi] != j {
      var lo, hi := Min(choice[pi], j), Max(choice[pi], j);
      assert p.markets[lo] != p.markets[hi];
    }
  }

  lemma WorldOfRespectsPartitions(c: Component, choice: seq<nat>, mask: nat)
    requires ValidComponent(c) && ValidDigits(choice, Radices(c.partitions))
    ensures forall p :: p in c.partitions ==> Respects(c.markets, WorldOf(c, choice, mask), p)
  {
    var w := WorldOf(c, choice, mask);
    forall p | p in c.partitions ensures Respects(c.markets, w, p) {
      var pi :| 0 <= pi < |c.partitions| && c.partitions[pi] == p;
      forall j | 0 <= j < |p.markets| ensures YesTrue(c.markets, w, p.markets[j]) <==> choice[pi] == j {
        MemberTruth(c, choice, mask, pi, j);
      }
      assert choice[pi] < Radices(c.partitions)[pi];
      if p.verifiedExhaustive {
        assert YesTrue(c.markets, w, p.markets[choice[pi]]);
      }
    }
  }

  lemma WorldOfInjective(c: Component, c1: seq<nat>, m1: nat, c2: seq<nat>, m2: nat)
    requires ValidComponent(c)
    requires ValidDigits(c1, Radices(c.partitions)) && ValidDigits(c2, Radices(c.partitions))
    requires m1 < Pow2(|Free(c)|) && m2 < Pow2(|Free(c)|)
    requires WorldOf(c, c1, m1) == WorldOf(c, c2, m2)
    ensures c1 == c2 && m1 == m2
  {
    forall pi | 0 <= pi < |c.partitions| ensures c1[pi] == c2[pi] {
      assert c1[pi] < Radices(c.partitions)[pi] && c2[pi] < Radices(c.partitions)[pi];
      if c1[pi] < |c.partitions[pi].markets| {
        MemberTruth(c, c1, m1, pi, c1[pi]);
        MemberTruth(c, c2, m2, pi, c1[pi]);
      } else if c2[pi] < |c.partitions[pi].markets| {
        MemberTruth(c, c1, m1, pi, c2[pi]);
        MemberTruth(c, c2, m2, pi, c2[pi]);
      }
    }
    forall k | 0 <= k < |Free(c)| ensures Bit(m1, k) == Bit(m2, k) {
      var i := Free(c)[k];
      FreeIsRanked(c, |c.markets|, k);
      assert WorldOf(c, c1, m1)[i] == WorldOf(c, c2, m2)[i];
    }
    BitsDetermineMask(m1, m2, |Free(c)|);
  }

  /** The winner a world gives a partition: its first true member, or k for nobody. */
  ghost function WinnerIn(c: Component, w: World, p: Partition): (r: nat)
    requires |w| == |c.markets|
    ensures r <= |p.markets|
    ensures r < |p.markets| ==> YesTrue(c.markets, w, p.markets[r])
    ensures r == |p.markets| ==> !SomeWinner(c.markets, w, p)
  {
    if i: nat :| i < |p.markets| && YesTrue(c.markets, w, p.markets[i]) then i else |p.markets|
  }

  lemma LegalWorldIsDenoted(c: Component, w: World) returns (choice: seq<nat>, mask: nat)
    requires ValidComponent(c) && |w| == |c.markets|
    requires forall p :: p in c.partitions ==> Respects(c.markets, w, p)
    ensures ValidDigits(choice, Radices(c.partitions)) && mask < Pow2(|Free(c)|)
    ensures w == WorldOf(c, choice, mask)
  {
    choice := seq(|c.partitions|, pi requires 0 <= pi < |c.partitions| => WinnerIn(c, w, c.partitions[pi]));
    var bits := seq(|Free(c)|, k requires 0 <= k < |Free(c)| => w[Free(c)[k]]);
    mask := MaskOf(bits);
    MaskBits(bits);
    forall pi | 0 <= pi < |c.partitions| ensures choice[pi] < Radices(c.partitions)[pi] {
      assert c.partitions[pi] in c.partitions;
    }
    forall i | 0 <= i < |c.markets| ensures w[i] == TruthOf(c, choice, mask, i) {
      match Owner(c, i)
      case None =>
        var k := |FreeBelow(c, i)|;
        FreeRank(c, i);
        assert Free(c)[k] == i && Bit(mask, k) == bits[k];
      case Some(pi) =>
        WinnerAgrees(c, w, i, pi);
    }
  }

  lemma WinnerAgrees(c: Component, w: World, i: nat, pi: nat)
    requires ValidComponent(c) && |w| == |c.markets| && i < |c.markets|
    requires forall p :: p in c.partitions ==> Respects(c.markets, w, p)
    requires pi < |c.partitions| && c.markets[i].id in c.partitions[pi].markets
    ensures w[i] == Wins(c.partitions[pi], WinnerIn(c, w, c.partitions[pi]), c.markets[i].id)
  {
    var p := c.partitions[pi];
    assert p in c.partitions && Respects(c.markets, w, p);
    var j :| 0 <= j < |p.markets| && p.markets[j] == c.markets[i].id;
    IndexOfId(c.markets, i);
    var win := WinnerIn(c, w, p);
    if w[i] {
      assert YesTrue(c.markets, w, p.markets[j]);
      OnlyWinner(c.markets, w, p, win, j);
    }
  }

  // ----- the list the enumeration builds -----

  function Keeps(c: Component): World -> bool {
    (w: World) => |w| == |c.markets| && Consistent(c, w)
  }

  /** The odometer's radices with the free-market mask as the least significant digit. */
  function AllRadices(c: Component): seq<nat> {
    Radices(c.partitions) + [Pow2(|Free(c)|)]
  }

  ghost function Total(c: Component): nat {
    Product(AllRadices(c))
  }

  lemma AllRadicesPositive(c: Component)
    requires ValidComponent(c)
    ensures Positive(AllRadices(c))
  {
    forall i | 0 <= i < |AllRadices(c)| ensures AllRadices(c)[i] > 0 {
      if i < |c.partitions| { assert c.partitions[i] in c.partitions; }
    }
  }

  ghost function Digit(c: Component, x: nat): (ds: seq<nat>)
    requires ValidComponent(c)
    ensures |ds| == |c.partitions| + 1
    ensures x < Total(c) ==> ValidDigits(ds, AllRadices(c)) && Val(ds, AllRadices(c)) == x
    ensures x < Total(c) ==> ValidDigits(ds[..|c.partitions|], Radices(c.partitions))
    ensures x < Total(c) ==> ds[|c.partitions|] < Pow2(|Free(c)|)
  {
    AllRadicesPositive(c);
    var ds := Digits(x, AllRadices(c));
    assert x < Total(c) ==> ValidDigits(ds, AllRadices(c)) && Val(ds, AllRadices(c)) == x by {
      if x < Total(c) { ValOfDigits(x, AllRadices(c)); }
    }
    assert AllRadices(c)[..|c.partitions|] == Radices(c.partitions);
    ds
  }

  /** The x-th candidate: the odometer's reading and the mask together count to x. */
  ghost function Candidate(c: Component, x: nat): World
    requires ValidComponent(c)
  {
    WorldOf(c, Digit(c, x)[..|c.partitions|], Digit(c, x)[|c.partitions|])
  }

  ghost function Candidates(c: Component, n: nat): (r: seq<World>)
    requires ValidComponent(c)
    ensures |r| == n
  {
    if n == 0 then [] else Candidates(c, n - 1) + [Candidate(c, n - 1)]
  }

  lemma {:induction false} CandidatesAt(c: Component, n: nat, x: nat)
    requires ValidComponent(c) && x < n
    ensures Candidates(c, n)[x] == Candidate(c, x)
  {
    if x >= n - 1 {
    } else {
      CandidatesAt(c, n - 1, x);
    }
  }

  lemma CandidateInjective(c: Component, x: nat, y: nat)
    requires ValidComponent(c) && x < Total(c) && y < Total(c)
    requires Candidate(c, x) == Candidate(c, y)
    ensures x == y
  {
    var n, dx, dy := |c.partitions|, Digit(c, x), Digit(c, y);
    WorldOfInjective(c, dx[..n], dx[n], dy[..n], dy[n]);
    assert dx == dx[..n] + [dx[n]] == dy;
  }

  lemma LegalIsCandidate(c: Component, w: World) returns (x: nat)
    requires ValidComponent(c) && Legal(c, w)
    ensures x < Total(c) && Candidate(c, x) == w
  {
    var choice, m := LegalWorldIsDenoted(c, w);
    AllRadicesPositive(c);
    var ds := choice + [m];
    DigitsOfVal(ds, AllRadices(c));
    ValFits(ds, AllRadices(c));
    x := Val(ds, AllRadices(c));
    assert Digit(c, x)[..|c.partitions|] == choice;
  }

  lemma CandidatesNoDup(c: Component)
    requires ValidComponent(c)
    ensures NoDup(Candidates(c, Total(c)))
  {
    var all := Candidates(c, Total(c));
    forall i, j | 0 <= i < j < |all| ensures all[i] != all[j] {
      CandidatesAt(c, Total(c), i);
      CandidatesAt(c, Total(c), j);
      if all[i] == all[j] { CandidateInjective(c, i, j); }
    }
  }

  lemma CandidateKeptIsLegal(c: Component, x: nat)
    requires ValidComponent(c) && x < Total(c) && Keeps(c)(Candidate(c, x))
    ensures Legal(c, Candidate(c, x))
  {
    WorldOfRespectsPartitions(c, Digit(c, x)[..|c.partitions|], Digit(c, x)[|c.partitions|]);
  }

  lemma ListedIffLegal(c: Component, w: World)
    requires ValidComponent(c)
    ensures w in Filter(Candidates(c, Total(c)), Keeps(c)) <==> Legal(c, w)
  {
    var all := Candidates(c, Total(c));
    FilterMembers(all, Keeps(c), w);
    if w in all && Keeps(c)(w) {
      var x :| 0 <= x < |all| && all[x] == w;
      CandidatesAt(c, Total(c), x);
      CandidateKeptIsLegal(c, x);
    }
    if Legal(c, w) {
      var x := LegalIsCandidate(c, w);
      CandidatesAt(c, Total(c), x);
      assert all[x] == w;
    }
  }

  /** Filtering the full candidate list leaves exactly the legal worlds, each once. */
  lemma ListingIsLegalWorlds(c: Component)
    requires ValidComponent(c)
    ensures forall w :: w in Filter(Candidates(c, Total(c)), Keeps(c)) <==> Legal(c, w)
    ensures NoDup(Filter(Candidates(c, Total(c)), Keeps(c)))
  {
    CandidatesNoDup(c);
    FilterNoDup(Candidates(c, Total(c)), Keeps(c));
    forall w ensures w in Filter(Candidates(c, Total(c)), Keeps(c)) <==> Legal(c, w) { ListedIffLegal(c, w); }
  }
}
