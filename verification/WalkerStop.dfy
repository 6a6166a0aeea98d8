/** Where the march stops, said of the ladders and the cap alone: every share
    before pays, the advisory charge fits the cap, and the next share is not there,
    does not pay, or does not fit. From it, exactly when a basket is reported. */
module WalkerStop {
  import opened Num
  import opened Walker
  import opened WalkerOptimal
  import opened WalkerCap

  /** What the code cuts the remaining cap to before multiplying. */
  const CLAMP: int := 1_000_000_000_000_000_000

  /** Shares at one combination of levels that are charged in one rounding. */
  function Piece(b: Basket, u: nat): (n: nat)
    requires Open(b.legs, u)
    ensures 1 <= n <= LevelRoom(b.legs, u)
  {
    LevelRoomBounds(b.legs, u);
    var room, bps := LevelRoom(b.legs, u), BasisPerShare(b, u);
    if bps <= 0 then room else Min(room, Max(1, Min(CLAMP * 10_000_000_000 / bps, U64_MAX)))
  }

  /** Advisory charge of the shares from u to v, each piece rounded up. */
  function Spent(b: Basket, u: nat, v: nat): int
    decreases if u < v then v - u else 0
  {
    if u >= v || !Open(b.legs, u) then 0
    else
      var n := Min(Piece(b, u), v - u);
      Charge(BasisPerShare(b, u), n) + Spent(b, u + n, v)
  }

  /** The share after u is on every ladder, gains, and costs no more than the code can count. */
  ghost predicate Gains(b: Basket, u: nat) {
    Open(b.legs, u) && Marginal(b, u) > 0 && BasisPerShare(b, u) <= CLAMP * 10_000_000_000
  }

  /** The ladders and the cap stop a buyer of this basket at e. */
  ghost predicate IsStop(b: Basket, maxBasis: int, e: nat) {
    && (forall u :: 0 <= u < e ==> Gains(b, u))
    && Spent(b, 0, e) <= Max(0, maxBasis)
    && (Gains(b, e) ==> Spent(b, 0, e + 1) > Max(0, maxBasis))
  }

  // ----- charges -----

  lemma ChargeMonotone(bps: nat, m: nat, n: nat)
    requires m <= n
    ensures 0 <= Charge(bps, m) <= Charge(bps, n)
  {
    MulLe(m, n, bps);
  }

  lemma BasisPerShareNonNegative(b: Basket, u: nat)
    requires Open(b.legs, u)
    ensures BasisPerShare(b, u) >= 0
  {
    BuySumNonNegative(b.legs, u);
  }

  lemma {:induction false} SpentMonotone(b: Basket, u: nat, v: nat, w: nat)
    requires v <= w
    ensures 0 <= Spent(b, u, v) <= Spent(b, u, w)
    decreases if u < w then w - u else 0
  {
    if u >= w || !Open(b.legs, u) {
    } else {
      var bps, piece := BasisPerShare(b, u), Piece(b, u);
      BasisPerShareNonNegative(b, u);
      var n := Min(piece, w - u);
      ChargeMonotone(bps, 0, n);
      SpentMonotone(b, u + n, u + n, w);
      if u < v {
        var m := Min(piece, v - u);
        ChargeMonotone(bps, m, n);
        if m == piece {
          SpentMonotone(b, u + piece, v, w);
        }
      }
    }
  }

  /** What the cap pays for, and that one more share does not fit. */
  lemma CapCharges(bps: nat, rem: nat, cap: nat)
    requires bps > 0 && rem > 0 && cap == rem * 10_000_000_000 / bps
    ensures Charge(bps, cap) <= rem < Charge(bps, cap + 1)
    ensures (rem - Charge(bps, cap)) * 10_000_000_000 < bps
  {
    var all := rem * 10_000_000_000;
    assert cap * bps <= all < cap * bps + bps;
    MulSplit(bps, cap, 1);
  }

  lemma SmallQuotient(a: nat, b: nat)
    requires a < b
    ensures a / b == 0
  {
  }

  /** With less left than one share costs the cap allows nothing and one share does not fit. */
  lemma SmallCap(bps: nat, rem: int)
    requires bps > 0 && rem * 10_000_000_000 < bps
    ensures rem <= 0 || CapShares(rem, bps) == 0
    ensures rem < Charge(bps, 1)
  {
    if rem > 0 { SmallQuotient(Min(rem, CLAMP) * 10_000_000_000, bps); }
    FloorBounds(bps + 9_999_999_999, 10_000_000_000);
  }

  /** When the cap allows nothing, one share does not fit. */
  lemma NoCapShares(bps: nat, rem: nat)
    requires 0 < bps <= CLAMP * 10_000_000_000 && 0 < rem && CapShares(rem, bps) == 0
    ensures rem * 10_000_000_000 < bps
  {
    if rem > CLAMP {
      QuotientAtLeastOne(CLAMP * 10_000_000_000, bps);
    } else if bps <= rem * 10_000_000_000 {
      QuotientAtLeastOne(rem * 10_000_000_000, bps);
    }
  }

  lemma QuotientAtLeastOne(a: nat, b: nat)
    requires 0 < b <= a
    ensures a / b >= 1
  {
  }

  lemma QuotientMonotone(a: nat, c: nat, b: nat)
    requires b > 0 && a <= c
    ensures a / b <= c / b
  {
    var q := a / b;
    if q > c / b {
      MulLe(c / b + 1, q, b);
      SumMul(c / b, 1, b);
    }
  }

  // ----- one chunk -----

  lemma {:induction false} RoomFitsWord(legs: seq<Leg>, u: nat)
    requires Open(legs, u)
    ensures LevelRoom(legs, u) <= U64_MAX
  {
    if legs == [] {
    } else {
      RoomFitsWord(legs[..|legs| - 1], u);
    }
  }

  /** A chunk is the whole piece, or what the remaining cap pays for. */
  lemma ChunkIsPiece(b: Basket, maxBasis: int, u: nat, used: int)
    requires Chunk(b, maxBasis, u, used).Some?
    ensures var (n, bps, rem) := (Chunk(b, maxBasis, u, used).value, BasisPerShare(b, u), maxBasis - used);
            n == Piece(b, u) || (n < Piece(b, u) && bps > 0 && rem > 0 && n == rem * 10_000_000_000 / bps)
  {
    var bps, rem := BasisPerShare(b, u), maxBasis - used;
    LevelRoomBounds(b.legs, u);
    RoomFitsWord(b.legs, u);
    if bps > 0 {
      var whole := CLAMP * 10_000_000_000;
      if rem > CLAMP {
      } else {
        QuotientMonotone(rem * 10_000_000_000, whole, bps);
      }
    }
  }

  lemma {:induction false} BasisInsideLevel(legs: seq<Leg>, u: nat, j: nat)
    requires Open(legs, u) && j < LevelRoom(legs, u)
    ensures Open(legs, u + j) && BuyCostSum(legs, u + j) == BuyCostSum(legs, u)
  {
    SumsInsideLevel(legs, u, j);
    if legs == [] {
    } else {
      var n := |legs| - 1;
      BasisInsideLevel(legs[..n], u, j);
      AtInsideLevel(legs[n].levels, u, j);
    }
  }

  lemma GainsInside(b: Basket, u: nat, n: nat)
    requires Gains(b, u) && n <= LevelRoom(b.legs, u)
    ensures forall x :: u <= x < u + n ==> Gains(b, x)
  {
    forall x | u <= x < u + n ensures Gains(b, x) {
      SumsInsideLevel(b.legs, u, x - u);
      BasisInsideLevel(b.legs, u, x - u);
    }
  }

  /** From (u, used) the march stops where the ladders and the cap say. */
  ghost predicate StopsFrom(b: Basket, maxBasis: int, u: nat, used: int, end: nat, spent: int) {
    && end >= u && (forall x :: u <= x < end ==> Gains(b, x))
    && spent == used + Spent(b, u, end) && spent <= Max(0, maxBasis)
    && (Gains(b, end) ==> used + Spent(b, u, end + 1) > Max(0, maxBasis))
  }

  lemma SpentOne(b: Basket, u: nat)
    requires Open(b.legs, u)
    ensures Spent(b, u, u + 1) == Charge(BasisPerShare(b, u), 1)
  {
    assert Spent(b, u + 1, u + 1) == 0;
  }

  /** No chunk: nothing there, nothing gained, or nothing left to spend. */
  lemma StopsHere(b: Basket, maxBasis: int, u: nat, used: int)
    requires b.legs != [] && Chunk(b, maxBasis, u, used).None? && 0 <= used <= Max(0, maxBasis)
    ensures StopsFrom(b, maxBasis, u, used, u, used)
  {
    if Gains(b, u) {
      WhyStopped(b, maxBasis, u, used);
      SpentOne(b, u);
      var bps, rem := BasisPerShare(b, u), maxBasis - used;
      assert bps > 0;
      if rem <= 0 {
        SmallCap(bps, 0);
      } else {
        NoCapShares(bps, rem);
        SmallCap(bps, rem);
      }
    }
  }

  lemma PieceThenStop(b: Basket, maxBasis: int, u: nat, used: int, end: nat, spent: int)
    requires Gains(b, u)
    requires StopsFrom(b, maxBasis, u + Piece(b, u), used + Charge(BasisPerShare(b, u), Piece(b, u)), end, spent)
    ensures StopsFrom(b, maxBasis, u, used, end, spent)
  {
    GainsInside(b, u, Piece(b, u));
  }

  /** A chunk cut short by the cap is the last one. */
  lemma CutIsLast(b: Basket, maxBasis: int, u: nat, used: int)
    requires 0 <= used <= Max(0, maxBasis) && Chunk(b, maxBasis, u, used).Some? && Gains(b, u)
    requires Chunk(b, maxBasis, u, used).value < Piece(b, u)
    ensures var n := Chunk(b, maxBasis, u, used).value;
            var spent := used + Charge(BasisPerShare(b, u), n);
            Chunk(b, maxBasis, u + n, spent).None? && StopsFrom(b, maxBasis, u, used, u + n, spent)
  {
    var n, bps, rem := Chunk(b, maxBasis, u, used).value, BasisPerShare(b, u), maxBasis - used;
    ChunkIsPiece(b, maxBasis, u, used);
    ChunkAdvances(b, maxBasis, u, used);
    CapCharges(bps, rem, n);
    BasisInsideLevel(b.legs, u, n);
    GainsInside(b, u, n);
    SmallCap(bps, rem - Charge(bps, n));
    assert Spent(b, u + n, u + n) == 0 && Spent(b, u + n + 1, u + n + 1) == 0;
    assert Spent(b, u, u + n + 1) == Charge(bps, n + 1);
  }

  lemma ChunkGains(b: Basket, maxBasis: int, u: nat, used: int)
    requires b.legs != [] && Chunk(b, maxBasis, u, used).Some?
    ensures Gains(b, u)
  {
    var bps, rem := BasisPerShare(b, u), maxBasis - used;
    if bps > CLAMP * 10_000_000_000 { SmallQuotient(Min(rem, CLAMP) * 10_000_000_000, bps); }
  }

  lemma AfterPiece(b: Basket, maxBasis: int, u: nat, used: int)
    requires 0 <= used <= Max(0, maxBasis) && Chunk(b, maxBasis, u, used).Some?
    ensures 0 <= used + Charge(BasisPerShare(b, u), Chunk(b, maxBasis, u, used).value) <= Max(0, maxBasis)
  {
    ChunkCharge(b, maxBasis, u, used);
    BasisPerShareNonNegative(b, u);
    ChargeMonotone(BasisPerShare(b, u), 0, Chunk(b, maxBasis, u, used).value);
  }

  lemma {:induction false} MarchStopsFrom(b: Basket, maxBasis: int, u: nat, used: int)
    requires b.legs != [] && 0 <= used <= Max(0, maxBasis)
    ensures StopsFrom(b, maxBasis, u, used, March(b, maxBasis, u, used).0, March(b, maxBasis, u, used).1)
    decreases Depth(b.legs[0].levels) - u
  {
    var chunk := Chunk(b, maxBasis, u, used);
    if chunk.None? {
      StopsHere(b, maxBasis, u, used);
    } else {
      var after := used + Charge(BasisPerShare(b, u), chunk.value);
      ChunkGains(b, maxBasis, u, used);
      ChunkAdvances(b, maxBasis, u, used);
      ChunkIsPiece(b, maxBasis, u, used);
      if chunk.value < Piece(b, u) {
        CutIsLast(b, maxBasis, u, used);
      } else {
        AfterPiece(b, maxBasis, u, used);
        MarchStopsFrom(b, maxBasis, u + chunk.value, after);
        PieceThenStop(b, maxBasis, u, used, March(b, maxBasis, u, used).0, March(b, maxBasis, u, used).1);
      }
    }
  }

  // ----- the stop is the walk's extent, and the only one -----

  lemma OneStop(b: Basket, maxBasis: int, e: nat, f: nat)
    requires IsStop(b, maxBasis, e) && IsStop(b, maxBasis, f)
    ensures e <= f
  {
    if f < e {
      assert Gains(b, f);
      SpentMonotone(b, 0, f + 1, e);
    }
  }

  /** The walk takes exactly the extent at which the ladders and the cap stop. */
  lemma UnitsIsTheStop(b: Basket, maxBasis: int, e: nat)
    requires b.legs != []
    ensures IsStop(b, maxBasis, e) <==> e == Units(b, maxBasis)
  {
    MarchStopsFrom(b, maxBasis, 0, 0);
    assert IsStop(b, maxBasis, Units(b, maxBasis));
    if IsStop(b, maxBasis, e) {
      OneStop(b, maxBasis, e, Units(b, maxBasis));
      OneStop(b, maxBasis, Units(b, maxBasis), e);
    }
  }
}
