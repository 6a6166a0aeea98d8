/** The enumeration loop itself: size check, odometer and mask, against the
    candidate list of module Worlds. */
module Enumerate {
  import opened Wrappers
  import opened Num
  import opened Instrument
  import opened Sequences
  import opened Bits
  import opened Worlds

  // ----- size check -----

  function SatMul(a: nat, b: nat): nat {
    Min(a * b, U128_MAX)
  }

  lemma SatMulOfProduct(p: nat, b: nat)
    requires b > 0
    ensures SatMul(Min(p, U128_MAX), b) == Min(p * b, U128_MAX)
  {
    if p > U128_MAX {
      MulLe(U128_MAX, p, b);
      MulLe(1, b, U128_MAX);
    }
  }

  lemma {:induction false} ProductPositive(rs: seq<nat>)
    requires Positive(rs)
    ensures Product(rs) > 0
  {
    if rs == [] {
    } else {
      ProductPositive(rs[..|rs| - 1]);
      MulLe(1, Product(rs[..|rs| - 1]), rs[|rs| - 1]);
    }
  }

  lemma {:induction false} Pow2Adds(a: nat, b: nat)
    ensures Pow2(a + b) == Pow2(a) * Pow2(b)
  {
    if a == 0 {
    } else {
      Pow2Adds(a - 1, b);
      assert 2 * (Pow2(a - 1) * Pow2(b)) == (2 * Pow2(a - 1)) * Pow2(b);
    }
  }

  lemma {:induction false} Pow2Monotone(a: nat, b: nat)
    requires a <= b
    ensures Pow2(a) <= Pow2(b)
  {
    if a >= b {
    } else {
      Pow2Monotone(a, b - 1);
    }
  }

  lemma Pow2At16()
    ensures Pow2(16) == 65_536
  {
    assert Pow2(8) == 256;
    Pow2Adds(8, 8);
  }

  lemma Pow2At64()
    ensures Pow2(64) == 0x1_0000_0000_0000_0000
  {
    Pow2At16();
    Pow2Adds(16, 16);
    Pow2Adds(32, 32);
  }

  /** Saturating 128-bit arithmetic decides the unsaturated comparison exactly. */
  method ExceedsBudget(c: Component, nFree: nat, maxWorlds: nat) returns (over: bool)
    requires ValidComponent(c) && nFree == |Free(c)| && maxWorlds <= U64_MAX
    ensures over <==> Total(c) > maxWorlds
  {
    var preprune := 1;
    var rs := Radices(c.partitions);
    RadicesPositive(c);
    for i := 0 to |c.partitions|
      invariant preprune == Min(Product(rs[..i]), U128_MAX)
    {
      assert rs[..i + 1][..i] == rs[..i];
      SatMulOfProduct(Product(rs[..i]), rs[i]);
      preprune := SatMul(preprune, PartitionChoices(c.partitions[i]));
    }
    assert rs[..|rs|] == rs;
    ProductPositive(rs);
    var freeCombos := U128_MAX;
    if nFree < 64 {
      freeCombos := Pow2(nFree);
      SatMulOfProduct(Product(rs), Pow2(nFree));
    } else {
      Pow2At64();
      Pow2Monotone(64, nFree);
      MulLe(1, Product(rs), Pow2(nFree));
      MulLe(1, preprune, U128_MAX);
    }
    preprune := SatMul(preprune, freeCombos);
    over := preprune > maxWorlds;
  }

  // ----- owners and free markets -----

  ghost predicate OwnedBefore(c: Component, i: nat, pi: nat)
    requires i < |c.markets| && pi <= |c.partitions|
  {
    exists q :: 0 <= q < pi && c.markets[i].id in c.partitions[q].markets
  }

  lemma OwnedNext(c: Component, i: nat, pi: nat)
    requires i < |c.markets| && pi < |c.partitions|
    ensures OwnedBefore(c, i, pi + 1) <==> OwnedBefore(c, i, pi) || c.markets[i].id in c.partitions[pi].markets
  {
  }

  method OwnMembers(c: Component, pi: nat, partitionOwner: array<Option<nat>>)
    requires ValidComponent(c) && pi < |c.partitions| && partitionOwner.Length == |c.markets|
    modifies partitionOwner
    ensures forall i :: 0 <= i < |c.markets| ==>
      (partitionOwner[i].Some? <==> old(partitionOwner[i]).Some? || c.markets[i].id in c.partitions[pi].markets)
  {
    var ids := c.partitions[pi].markets;
    for j := 0 to |ids|
      invariant forall i :: 0 <= i < |c.markets| ==>
        (partitionOwner[i].Some? <==> old(partitionOwner[i]).Some? || c.markets[i].id in ids[..j])
    {
      var idx := MarketIndex(c.markets, ids[j]);
      IndexIsOnlyMatch(c, ids[j]);
      if idx.Some? {
        partitionOwner[idx.value] := Some(pi);
      }
      forall i | 0 <= i < |c.markets|
        ensures c.markets[i].id in ids[..j + 1] <==> c.markets[i].id in ids[..j] || c.markets[i].id == ids[j]
      {
        PrefixMember(ids, j, c.markets[i].id);
      }
    }
    assert ids[..|ids|] == ids;
  }

  method FreeIndices(c: Component) returns (free: seq<nat>)
    requires ValidComponent(c)
    ensures free == Free(c)
  {
    var n := |c.markets|;
    var partitionOwner := new Option<nat>[n](_ => None);
    for pi := 0 to |c.partitions|
      invariant forall i :: 0 <= i < n ==> (partitionOwner[i].Some? <==> OwnedBefore(c, i, pi))
    {
      OwnMembers(c, pi, partitionOwner);
      forall i | 0 <= i < n
        ensures OwnedBefore(c, i, pi + 1) <==> OwnedBefore(c, i, pi) || c.markets[i].id in c.partitions[pi].markets
      {
        OwnedNext(c, i, pi);
      }
    }
    free := Unowned(c, partitionOwner);
  }

  method Unowned(c: Component, partitionOwner: array<Option<nat>>) returns (free: seq<nat>)
    requires partitionOwner.Length == |c.markets|
    requires forall i :: 0 <= i < |c.markets| ==> (partitionOwner[i].Some? <==> OwnedBefore(c, i, |c.partitions|))
    ensures free == Free(c)
  {
    free := [];
    for i := 0 to |c.markets|
      invariant free == FreeBelow(c, i)
    {
      if partitionOwner[i].None? {
        free := free + [i];
      }
    }
  }

  lemma IndexIsOnlyMatch(c: Component, id: MarketId)
    requires ValidComponent(c)
    ensures forall i :: 0 <= i < |c.markets| ==> (c.markets[i].id == id <==> MarketIndex(c.markets, id) == Some(i))
  {
    forall i | 0 <= i < |c.markets| && c.markets[i].id == id ensures MarketIndex(c.markets, id) == Some(i) {
      IndexOfId(c.markets, i);
    }
  }

  // ----- one world -----

  /** Writes one partition's members: the chosen one true, the others false. */
  method ApplyPartition(c: Component, part: Partition, choice: nat, yesTrue: array<bool>)
    requires ValidComponent(c) && part in c.partitions && yesTrue.Length == |c.markets|
    modifies yesTrue
    ensures forall i :: 0 <= i < yesTrue.Length ==>
      yesTrue[i] == if c.markets[i].id in part.markets then Wins(part, choice, c.markets[i].id) else old(yesTrue[i])
  {
    for j := 0 to |part.markets|
      invariant forall i :: 0 <= i < yesTrue.Length ==>
        yesTrue[i] == if c.markets[i].id in part.markets[..j]
            then Wins(part, choice, c.markets[i].id) else old(yesTrue[i])
    {
      var mid := part.markets[j];
      IndexIsOnlyMatch(c, mid);
      var idx := MarketIndex(c.markets, mid);
      if idx.Some? {
        yesTrue[idx.value] := Wins(part, choice, mid);
      }
      forall i | 0 <= i < yesTrue.Length
        ensures c.markets[i].id in part.markets[..j + 1] <==>
            c.markets[i].id in part.markets[..j] || c.markets[i].id == mid
      {
        PrefixMember(part.markets, j, c.markets[i].id);
      }
    }
    assert part.markets[..|part.markets|] == part.markets;
  }

  /** Writes the free markets from the mask, leaving owned markets alone. */
  method ApplyMask(c: Component, free: seq<nat>, mask: nat, yesTrue: array<bool>)
    requires ValidComponent(c) && free == Free(c) && yesTrue.Length == |c.markets|
    modifies yesTrue
    ensures forall i :: 0 <= i < yesTrue.Length ==>
      yesTrue[i] == if Owner(c, i).None? then Bit(mask, |FreeBelow(c, i)|) else old(yesTrue[i])
  {
    for fi := 0 to |free|
      invariant forall i :: 0 <= i < yesTrue.Length ==>
        yesTrue[i] == if Owner(c, i).None? && |FreeBelow(c, i)| < fi
            then Bit(mask, |FreeBelow(c, i)|) else old(yesTrue[i])
    {
      FreeIsRanked(c, |c.markets|, fi);
      yesTrue[free[fi]] := Bit(mask, fi);
      forall i | 0 <= i < yesTrue.Length && Owner(c, i).None? && |FreeBelow(c, i)| == fi ensures i == free[fi] {
        FreeRank(c, i);
      }
    }
    forall i | 0 <= i < yesTrue.Length && Owner(c, i).None? ensures |FreeBelow(c, i)| < |free| {
      FreeRank(c, i);
    }
  }

  /** Every partition in turn: an owned market is left with its partition's verdict. */
  method ApplyPartitions(c: Component, choice: seq<nat>, yesTrue: array<bool>)
    requires ValidComponent(c) && |choice| == |c.partitions| && yesTrue.Length == |c.markets|
    modifies yesTrue
    ensures forall i :: 0 <= i < yesTrue.Length && Owner(c, i).Some? ==>
      yesTrue[i] == Wins(c.partitions[Owner(c, i).value], choice[Owner(c, i).value], c.markets[i].id)
  {
    for pi := 0 to |c.partitions|
      invariant forall i :: 0 <= i < yesTrue.Length && Owner(c, i).Some? && Owner(c, i).value < pi ==>
        yesTrue[i] == Wins(c.partitions[Owner(c, i).value], choice[Owner(c, i).value], c.markets[i].id)
    {
      forall i | 0 <= i < yesTrue.Length && c.markets[i].id in c.partitions[pi].markets
        ensures Owner(c, i) == Some(pi)
      {
        OwnerIs(c, i, pi);
      }
      ApplyPartition(c, c.partitions[pi], choice[pi], yesTrue);
    }
  }

  method BuildWorld(c: Component, free: seq<nat>, choice: seq<nat>, mask: nat) returns (w: World)
    requires ValidComponent(c) && free == Free(c) && |choice| == |c.partitions|
    ensures w == WorldOf(c, choice, mask)
  {
    var yesTrue := new bool[|c.markets|](_ => false);
    ApplyPartitions(c, choice, yesTrue);
    ApplyMask(c, free, mask, yesTrue);
    w := yesTrue[..];
  }

  // ----- the odometer -----

  /** One odometer step on values: increment the last digit, carrying left. */
  ghost function Advanced(ds: seq<nat>, rs: seq<nat>): (r: (seq<nat>, bool))
    requires |ds| == |rs|
    ensures |r.0| == |ds|
  {
    if ds == [] then ([], true)
    else
      var n := |ds| - 1;
      if ds[n] + 1 < rs[n] then (ds[..n] + [ds[n] + 1], false)
      else var (front, carry) := Advanced(ds[..n], rs[..n]); (front + [0], carry)
  }

  lemma CarryArithmetic(v: nat, p: nat, d: nat, r: nat)
    requires v < p && d < r
    ensures v * r + d < p * r
    ensures d + 1 < r ==> v * r + d + 1 < p * r
    ensures d + 1 == r ==> v * r + d + 1 == (v + 1) * r
    ensures v + 1 == p <==> (v + 1) * r == p * r
  {
    assert (v + 1) * r == v * r + r;
    MulLe(v + 1, p, r);
    if v + 1 < p {
      MulLe(v + 2, p, r);
      assert (v + 2) * r == (v + 1) * r + r;
    }
  }

  /** A step adds one to the reading, and wraps exactly from the last reading. */
  lemma {:induction false} AdvancedAddsOne(ds: seq<nat>, rs: seq<nat>)
    requires ValidDigits(ds, rs)
    ensures ValidDigits(Advanced(ds, rs).0, rs)
    ensures Val(ds, rs) < Product(rs)
    ensures Advanced(ds, rs).1 <==> Val(ds, rs) + 1 == Product(rs)
    ensures !Advanced(ds, rs).1 ==> Val(Advanced(ds, rs).0, rs) == Val(ds, rs) + 1
  {
    if ds == [] {
    } else {
      var n := |ds| - 1;
      AdvancedAddsOne(ds[..n], rs[..n]);
      var front := Advanced(ds[..n], rs[..n]).0;
      CarryArithmetic(Val(ds[..n], rs[..n]), Product(rs[..n]), ds[n], rs[n]);
      var next := Advanced(ds, rs).0;
      assert next[..n] == if ds[n] + 1 < rs[n] then ds[..n] else front;
    }
  }

  method Advance(digits: array<nat>, rs: seq<nat>) returns (carry: bool)
    requires digits.Length == |rs|
    modifies digits
    ensures (digits[..], carry) == Advanced(old(digits[..]), rs)
  {
    ghost var was := digits[..];
    ghost var zeros: seq<nat> := [];
    carry := true;
    var pi := |rs|;
    assert was[..pi] == was && rs[..pi] == rs;
    assert Advanced(was, rs).0 + zeros == Advanced(was, rs).0;
    while pi > 0
      invariant 0 <= pi <= |rs| && carry
      invariant |zeros| == |rs| - pi && forall k :: 0 <= k < |zeros| ==> zeros[k] == 0
      invariant digits[..] == was[..pi] + zeros
      invariant Advanced(was, rs) == (Advanced(was[..pi], rs[..pi]).0 + zeros, Advanced(was[..pi], rs[..pi]).1)
    {
      pi := pi - 1;
      assert was[..pi + 1][..pi] == was[..pi] && rs[..pi + 1][..pi] == rs[..pi];
      digits[pi] := digits[pi] + 1;
      if digits[pi] < rs[pi] {
        carry := false;
        assert digits[..] == was[..pi] + [was[pi] + 1] + zeros;
        break;
      }
      digits[pi] := 0;
      ghost var front := Advanced(was[..pi], rs[..pi]).0;
      assert (front + [0]) + zeros == front + ([0] + zeros);
      zeros := [0] + zeros;
      assert digits[..] == was[..pi] + zeros;
    }
  }

  // ----- the enumeration -----

  lemma CandidateAt(c: Component, choice: seq<nat>, mask: nat, x: nat)
    requires ValidComponent(c) && ValidDigits(choice, Radices(c.partitions)) && mask < Pow2(|Free(c)|)
    requires x == Val(choice, Radices(c.partitions)) * Pow2(|Free(c)|) + mask
    ensures x < Total(c) && Candidate(c, x) == WorldOf(c, choice, mask)
  {
    var ds := choice + [mask];
    AllRadicesPositive(c);
    assert AllRadices(c)[..|choice|] == Radices(c.partitions) && ds[..|choice|] == choice;
    assert Val(ds, AllRadices(c)) == x;
    DigitsOfVal(ds, AllRadices(c));
    ValFits(ds, AllRadices(c));
  }

  ghost function MaskWorlds(c: Component, choice: seq<nat>, n: nat): (r: seq<World>)
    requires |choice| == |c.partitions|
    ensures |r| == n
  {
    if n == 0 then [] else MaskWorlds(c, choice, n - 1) + [WorldOf(c, choice, n - 1)]
  }

  lemma {:induction false} MaskWorldsAt(c: Component, choice: seq<nat>, n: nat, m: nat)
    requires |choice| == |c.partitions| && m < n
    ensures MaskWorlds(c, choice, n)[m] == WorldOf(c, choice, m)
  {
    if m >= n - 1 {
    } else {
      MaskWorldsAt(c, choice, n - 1, m);
    }
  }

  ghost predicate AtReading(digits: seq<nat>, rs: seq<nat>, v: nat) {
    ValidDigits(digits, rs) && Val(digits, rs) == v && v < Product(rs)
  }

  /** Candidates before reading v, each reading covering n of them. */
  ghost function Start(v: nat, n: nat): nat {
    if v == 0 then 0 else Start(v - 1, n) + n
  }

  lemma {:induction false} StartIsMultiple(v: nat, n: nat)
    ensures Start(v, n) == v * n
  {
    if v == 0 {
    } else {
      StartIsMultiple(v - 1, n);
      assert v * n == (v - 1) * n + n;
    }
  }

  lemma BlockCandidate(c: Component, choice: seq<nat>, v: nat, m: nat)
    requires ValidComponent(c) && AtReading(choice, Radices(c.partitions), v) && m < Pow2(|Free(c)|)
    ensures Candidate(c, Start(v, Pow2(|Free(c)|)) + m) == WorldOf(c, choice, m)
  {
    StartIsMultiple(v, Pow2(|Free(c)|));
    CandidateAt(c, choice, m, Start(v, Pow2(|Free(c)|)) + m);
  }

  /** At reading v the candidate list continues with the block of its masks. */
  ghost predicate BlockMatches(c: Component, all: seq<World>, choice: seq<nat>, v: nat)
    requires |choice| == |c.partitions|
  {
    var n := Pow2(|Free(c)|);
    Start(v, n) + n <= |all| && all[Start(v, n)..Start(v, n) + n] == MaskWorlds(c, choice, n)
  }

  /** all is made of the blocks of all readings, in order. */
  ghost predicate MadeOfBlocks(c: Component, all: seq<World>) {
    forall choice: seq<nat>, v: nat :: AtReading(choice, Radices(c.partitions), v) && |choice| == |c.partitions| ==>
      BlockMatches(c, all, choice, v)
  }

  lemma StartNext(v: nat, n: nat)
    ensures Start(v + 1, n) == Start(v, n) + n
  {
  }

  lemma {:induction false} StartMonotone(v: nat, w: nat, n: nat)
    requires v <= w
    ensures Start(v, n) <= Start(w, n)
  {
    if v >= w {
    } else {
      StartMonotone(v, w - 1, n);
    }
  }

  lemma BlockFits(c: Component, v: nat)
    requires ValidComponent(c) && v < Product(Radices(c.partitions))
    ensures Start(v, Pow2(|Free(c)|)) + Pow2(|Free(c)|) <= Total(c)
  {
    var n, p := Pow2(|Free(c)|), Product(Radices(c.partitions));
    StartMonotone(v + 1, p, n);
    StartIsMultiple(p, n);
    RadicesPositive(c);
  }

  lemma BlockElement(c: Component, choice: seq<nat>, v: nat, m: nat)
    requires ValidComponent(c) && AtReading(choice, Radices(c.partitions), v) && m < Pow2(|Free(c)|)
    requires Start(v, Pow2(|Free(c)|)) + m < Total(c)
    ensures Candidates(c, Total(c))[Start(v, Pow2(|Free(c)|)) + m] == MaskWorlds(c, choice, Pow2(|Free(c)|))[m]
  {
    BlockCandidate(c, choice, v, m);
    CandidatesAt(c, Total(c), Start(v, Pow2(|Free(c)|)) + m);
    MaskWorldsAt(c, choice, Pow2(|Free(c)|), m);
  }

  /** World m of the block, in its place among all candidates. */
  lemma BlockAt(c: Component, choice: seq<nat>, v: nat, m: nat, k: nat, n: nat)
    requires ValidComponent(c) && AtReading(choice, Radices(c.partitions), v)
    requires n == Pow2(|Free(c)|) && k == Start(v, n) && m < n && k + n <= Total(c)
    ensures Candidates(c, Total(c))[k + m] == MaskWorlds(c, choice, n)[m]
  {
    BlockElement(c, choice, v, m);
  }

  lemma ReadingBlock(c: Component, choice: seq<nat>, v: nat)
    requires ValidComponent(c) && AtReading(choice, Radices(c.partitions), v)
    ensures BlockMatches(c, Candidates(c, Total(c)), choice, v)
  {
    var n := Pow2(|Free(c)|);
    var k := Start(v, n);
    var all, newer := Candidates(c, Total(c)), MaskWorlds(c, choice, n);
    BlockFits(c, v);
    forall m: nat | m < n ensures all[k + m] == newer[m] { BlockAt(c, choice, v, m, k, n); }
    SliceIs(all, k, newer);
  }

  lemma CandidatesAreBlocks(c: Component)
    requires ValidComponent(c)
    ensures MadeOfBlocks(c, Candidates(c, Total(c)))
  {
    forall choice: seq<nat>, v: nat | AtReading(choice, Radices(c.partitions), v) && |choice| == |c.partitions|
      ensures BlockMatches(c, Candidates(c, Total(c)), choice, v)
    {
      ReadingBlock(c, choice, v);
    }
  }

  /** The inner loop: every mask under one choice vector. */
  method SweepMasks(c: Component, free: seq<nat>, choice: seq<nat>) returns (block: seq<World>)
    requires ValidComponent(c) && free == Free(c) && |choice| == |c.partitions|
    ensures block == Filter(MaskWorlds(c, choice, Pow2(|free|)), Keeps(c))
  {
    block := [];
    for freeMask := 0 to Pow2(|free|)
      invariant block == Filter(MaskWorlds(c, choice, freeMask), Keeps(c))
    {
      var w := BuildWorld(c, free, choice, freeMask);
      if Consistent(c, w) {
        block := block + [w];
      }
      FilterSnoc(MaskWorlds(c, choice, freeMask), w, Keeps(c));
    }
  }

  method AdvanceReading(digits: array<nat>, rs: seq<nat>, ghost v: nat) returns (carry: bool)
    requires digits.Length == |rs| && AtReading(digits[..], rs, v)
    modifies digits
    ensures carry <==> v + 1 == Product(rs)
    ensures !carry ==> AtReading(digits[..], rs, v + 1)
  {
    AdvancedAddsOne(digits[..], rs);
    carry := Advance(digits, rs);
  }

  /** None exactly when the true number of candidates exceeds the budget;
      otherwise exactly the legal worlds, none repeated. */
  method EnumerateWorlds(c: Component, maxWorlds: nat) returns (r: Option<seq<World>>)
    requires ValidComponent(c) && maxWorlds <= U64_MAX
    ensures r.None? <==> Total(c) > maxWorlds
    ensures r.Some? ==> (forall w :: w in r.value <==> Legal(c, w)) && NoDup(r.value)
  {
    var free := FreeIndices(c);
    var over := ExceedsBudget(c, |free|, maxWorlds);
    if over { return None; }
    CandidatesAreBlocks(c);
    var worlds := RunOdometer(c, free, Candidates(c, Total(c)));
    ListingIsLegalWorlds(c);
    r := Some(worlds);
  }

  /** worlds lists the legal ones among the candidates of the first v readings. */
  ghost predicate ListedTo(c: Component, all: seq<World>, v: nat, worlds: seq<World>) {
    Start(v, Pow2(|Free(c)|)) <= |all| && worlds == Filter(all[..Start(v, Pow2(|Free(c)|))], Keeps(c))
  }

  lemma NextReading(c: Component, all: seq<World>, v: nat, worlds: seq<World>, choice: seq<nat>)
    requires ListedTo(c, all, v, worlds) && |choice| == |c.partitions| && BlockMatches(c, all, choice, v)
    ensures ListedTo(c, all, v + 1, worlds + Filter(MaskWorlds(c, choice, Pow2(|Free(c)|)), Keeps(c)))
  {
    var n := Pow2(|Free(c)|);
    StartNext(v, n);
    FilterSlice(all, Start(v, n), Start(v + 1, n), Keeps(c), worlds, MaskWorlds(c, choice, n));
  }

  method ListReading(c: Component, free: seq<nat>, choice: seq<nat>, worlds: seq<World>, ghost all: seq<World>,
                     ghost v: nat)
    returns (longer: seq<World>)
    requires ValidComponent(c) && free == Free(c) && |choice| == |c.partitions|
    requires ListedTo(c, all, v, worlds) && BlockMatches(c, all, choice, v)
    ensures ListedTo(c, all, v + 1, longer)
  {
    NextReading(c, all, v, worlds, choice);
    var block := SweepMasks(c, free, choice);
    longer := worlds + block;
  }

  lemma AllListed(c: Component, all: seq<World>, worlds: seq<World>)
    requires ValidComponent(c) && |all| == Total(c) && ListedTo(c, all, Product(Radices(c.partitions)), worlds)
    ensures worlds == Filter(all, Keeps(c))
  {
    RadicesPositive(c);
    StartIsMultiple(Product(Radices(c.partitions)), Pow2(|Free(c)|));
    assert all[..|all|] == all;
  }

  lemma NothingListed(c: Component, all: seq<World>)
    ensures ListedTo(c, all, 0, [])
  {
    assert all[..0] == [];
  }

  /** The two loops list the legal ones of all candidates, block by block. */
  method RunOdometer(c: Component, free: seq<nat>, ghost all: seq<World>) returns (worlds: seq<World>)
    requires ValidComponent(c) && free == Free(c)
    requires |all| == Total(c) && MadeOfBlocks(c, all)
    ensures worlds == Filter(all, Keeps(c))
  {
    var rs := Radices(c.partitions);
    RadicesPositive(c);
    var partChoice := new nat[|c.partitions|](_ => 0);
    ZeroReading(partChoice[..], rs);
    worlds := [];
    NothingListed(c, all);
    ghost var v := 0;
    while true
      invariant AtReading(partChoice[..], rs, v) && ListedTo(c, all, v, worlds)
      decreases Product(rs) - v
    {
      assert BlockMatches(c, all, partChoice[..], v);
      worlds := ListReading(c, free, partChoice[..], worlds, all, v);
      var carry := AdvanceReading(partChoice, rs, v);
      v := v + 1;
      if carry { break; }
    }
    AllListed(c, all, worlds);
  }

  lemma RadicesPositive(c: Component)
    requires ValidComponent(c)
    ensures Positive(Radices(c.partitions))
    ensures Total(c) == Product(Radices(c.partitions)) * Pow2(|Free(c)|)
  {
    AllRadicesPositive(c);
    var rs := Radices(c.partitions);
    assert AllRadices(c)[..|rs|] == rs;
    forall i | 0 <= i < |rs| ensures rs[i] > 0 { assert rs[i] == AllRadices(c)[i]; }
  }

  lemma {:induction false} ZeroReading(ds: seq<nat>, rs: seq<nat>)
    requires |ds| == |rs| && Positive(rs) && forall i :: 0 <= i < |ds| ==> ds[i] == 0
    ensures ValidDigits(ds, rs) && Val(ds, rs) == 0 && Product(rs) > 0
  {
    ProductPositive(rs);
    if ds == [] {
    } else {
      ZeroReading(ds[..|ds| - 1], rs[..|rs| - 1]);
    }
  }
}
