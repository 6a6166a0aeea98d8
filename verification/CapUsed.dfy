/** The cap is used up: when it is what stops the march, one more share would put the
    exact basis over it, up to one micro-USDC a charge, and charges are few. */
module CapUsed {
  import opened Num
  import opened Book
  import opened Walker
  import opened WalkerOptimal
  import opened WalkerCap
  import opened WalkerStop
  import opened Emission

  /** How many charges the shares from u to v are rounded in. */
  function Charges(b: Basket, u: nat, v: nat): nat
    decreases if u < v then v - u else 0
  {
    if u >= v || !Open(b.legs, u) then 0 else 1 + Charges(b, u + Min(Piece(b, u), v - u), v)
  }

  lemma OneCharge(bps: nat, n: nat)
    ensures bps * n <= 10_000_000_000 * Charge(bps, n) < bps * n + 10_000_000_000
  {
  }

  lemma OpenBelow(b: Basket, u: nat, v: nat)
    requires u < v && Reachable(b.legs, v)
    ensures Open(b.legs, u)
  {
    forall i | 0 <= i < |b.legs| ensures At(b.legs[i].levels, u).Some? { AtWithinDepth(b.legs[i].levels, u); }
  }

  /** What is charged covers the unrounded basis and exceeds it by less than one a charge. */
  lemma {:induction false} ChargedIsBasis(b: Basket, u: nat, v: nat)
    requires u <= v && Reachable(b.legs, v)
    ensures var basis := BasisScaled(b, v) - BasisScaled(b, u);
            basis <= 10_000_000_000 * Spent(b, u, v) <= basis + 10_000_000_000 * Charges(b, u, v)
    decreases v - u
  {
    if u == v {
    } else {
      OpenBelow(b, u, v);
      var n := Min(Piece(b, u), v - u);
      BasisWithinChunk(b, u, n);
      OneCharge(BasisPerShare(b, u), n);
      ChargedIsBasis(b, u + n, v);
    }
  }

  /** Where the next share gains and only the cap stands against it, the exact basis
      with that share is over the cap, up to one a charge. */
  lemma CapIsUsed(b: Basket, maxBasis: int, e: nat)
    requires IsStop(b, maxBasis, e) && Gains(b, e)
    ensures BasisAt(b, e + 1) + Charges(b, 0, e + 1) > Max(0, maxBasis)
  {
    OpenReaches(b.legs, e + 1);
    ChargedIsBasis(b, 0, e + 1);
    NothingTaken(b.legs);
    BasisRounding(b, e + 1);
  }

  // ----- charges are few -----

  /** Every combination of levels is charged at once. */
  ghost predicate ChargedWhole(b: Basket) {
    forall u: nat :: Open(b.legs, u) ==> Piece(b, u) == LevelRoom(b.legs, u)
  }

  /** What is worth no more than the clamp is charged at once. */
  lemma SmallRoomsAreWhole(b: Basket, u: nat)
    requires Open(b.legs, u) && BasisPerShare(b, u) * LevelRoom(b.legs, u) <= CLAMP * 10_000_000_000
    ensures Piece(b, u) == LevelRoom(b.legs, u)
  {
    LevelRoomBounds(b.legs, u);
    RoomFitsWord(b.legs, u);
    if BasisPerShare(b, u) > 0 { RoomIsQuotient(BasisPerShare(b, u), LevelRoom(b.legs, u), CLAMP * 10_000_000_000); }
  }

  lemma RoomIsQuotient(bps: nat, room: nat, all: nat)
    requires bps > 0 && bps * room <= all
    ensures room <= all / bps
  {
    if all / bps < room { MulLe(all / bps + 1, room, bps); }
  }

  lemma {:induction false} TakenGrows(levels: seq<Level>, u: nat, v: nat)
    requires u <= v
    ensures |Taken(levels, u)| <= |Taken(levels, v)|
  {
    if levels == [] || u == 0 || v <= levels[0].qty {
    } else {
      TakenGrows(levels[1..], if u <= levels[0].qty then 0 else u - levels[0].qty, v - levels[0].qty);
    }
  }

  /** The share after u opens a level no share before touched. */
  ghost predicate OpensLevel(levels: seq<Level>, u: nat) {
    |Taken(levels, u + 1)| > |Taken(levels, u)|
  }

  /** Levels are non-empty and no larger than a machine word. */
  ghost predicate WordLevels(levels: seq<Level>) {
    forall k :: 0 <= k < |levels| ==> 0 < levels[k].qty <= U64_MAX
  }

  /** Past the first level the count is one more than on the rest. */
  lemma TakenFront(levels: seq<Level>, u: nat)
    requires levels != [] && levels[0].qty > 0
    ensures |Taken(levels, levels[0].qty + u)| == 1 + |Taken(levels[1..], u)|
  {
  }

  /** Exhausting a level puts the next share on a new one. */
  lemma {:induction false} ExhaustedOpens(levels: seq<Level>, u: nat)
    requires WordLevels(levels) && At(levels, u).Some? && u + At(levels, u).value.qty < Depth(levels)
    ensures OpensLevel(levels, u + At(levels, u).value.qty)
  {
    if u < levels[0].qty {
      assert levels[1..] != [];
      TakenFront(levels, 0);
      TakenFront(levels, 1);
    } else {
      ExhaustedOpens(levels[1..], u - levels[0].qty);
      var v := u + At(levels, u).value.qty;
      TakenFront(levels, v - levels[0].qty);
      TakenFront(levels, v - levels[0].qty + 1);
    }
  }

  ghost predicate WordLegs(legs: seq<Leg>) {
    forall i :: 0 <= i < |legs| ==> WordLevels(legs[i].levels)
  }

  /** Some leg's next share is on a new level. */
  ghost predicate SomeOpens(legs: seq<Leg>, u: nat) {
    exists i :: 0 <= i < |legs| && OpensLevel(legs[i].levels, u)
  }

  lemma {:induction false} TouchedGrows(legs: seq<Leg>, u: nat, v: nat)
    requires u < v
    ensures Touched(legs, u) <= Touched(legs, v)
    ensures SomeOpens(legs, u) ==> Touched(legs, u) < Touched(legs, v)
  {
    if legs == [] {
    } else {
      var n := |legs| - 1;
      TouchedGrows(legs[..n], u, v);
      TakenGrows(legs[n].levels, u, u + 1);
      TakenGrows(legs[n].levels, u + 1, v);
      if i :| 0 <= i < |legs| && OpensLevel(legs[i].levels, u) {
        if i < n { assert OpensLevel(legs[..n][i].levels, u); }
      }
    }
  }

  /** The room is some leg's level, when levels fit a word. */
  lemma {:induction false} RoomIsSomeLevel(legs: seq<Leg>, u: nat) returns (i: nat)
    requires legs != [] && Open(legs, u) && WordLegs(legs)
    ensures i < |legs| && At(legs[i].levels, u).value.qty == LevelRoom(legs, u)
  {
    var n := |legs| - 1;
    LevelFitsWord(legs[n].levels, u);
    if n == 0 {
      i := 0;
      assert LevelRoom(legs[..n], u) == U64_MAX;
    } else {
      i := RoomIsSomeLevel(legs[..n], u);
      if LevelRoom(legs[..n], u) > At(legs[n].levels, u).value.qty { i := n; }
    }
  }

  lemma {:induction false} LevelFitsWord(levels: seq<Level>, u: nat)
    requires WordLevels(levels) && At(levels, u).Some?
    ensures At(levels, u).value.qty <= U64_MAX
  {
    if u < levels[0].qty {
    } else {
      LevelFitsWord(levels[1..], u - levels[0].qty);
    }
  }

  lemma NextOpens(legs: seq<Leg>, u: nat, v: nat)
    requires legs != [] && Open(legs, u) && WordLegs(legs) && Reachable(legs, v) && u + LevelRoom(legs, u) < v
    ensures SomeOpens(legs, u + LevelRoom(legs, u))
  {
    var i := RoomIsSomeLevel(legs, u);
    ExhaustedOpens(legs[i].levels, u);
  }

  /** One charge opens a level, and leaves some ladder about to open another. */
  lemma ChargeOpensLevel(b: Basket, u: nat, v: nat)
    requires b.legs != [] && u < v && Reachable(b.legs, v) && ChargedWhole(b) && WordLegs(b.legs)
    requires SomeOpens(b.legs, u) && Open(b.legs, u)
    ensures var next := u + Min(Piece(b, u), v - u);
            && u < next <= v && Touched(b.legs, u) < Touched(b.legs, next)
            && (next < v ==> SomeOpens(b.legs, next))
  {
    var next := u + Min(Piece(b, u), v - u);
    TouchedGrows(b.legs, u, next);
    if next < v { NextOpens(b.legs, u, v); }
  }

  lemma NextCharge(b: Basket, u: nat, v: nat)
    requires u < v && Open(b.legs, u)
    ensures Charges(b, u, v) == 1 + Charges(b, u + Min(Piece(b, u), v - u), v)
  {
  }

  /** One charge a level at most: each opens at least one level no share before touched. */
  lemma {:induction false} ChargesAreFew(b: Basket, u: nat, v: nat)
    requires b.legs != [] && u <= v && Reachable(b.legs, v) && ChargedWhole(b) && WordLegs(b.legs)
    requires u < v ==> SomeOpens(b.legs, u)
    ensures Charges(b, u, v) <= Touched(b.legs, v) - Touched(b.legs, u)
    decreases v - u
  {
    if u == v {
    } else {
      OpenBelow(b, u, v);
      var next := u + Min(Piece(b, u), v - u);
      ChargeOpensLevel(b, u, v);
      NextCharge(b, u, v);
      ChargesAreFew(b, next, v);
    }
  }

  /** No combination of levels is worth more than the clamp on what is charged at once. */
  ghost predicate WorthBelowClamp(b: Basket) {
    forall u: nat :: Open(b.legs, u) ==> BasisPerShare(b, u) * LevelRoom(b.legs, u) <= CLAMP * 10_000_000_000
  }

  /** When the cap is what stops the march, the outlay with one more share is over it
      by all but one micro-USDC a level touched. */
  lemma CapIsFilled(b: Basket, maxBasis: int, e: nat)
    requires b.legs != [] && WorthBelowClamp(b) && WordLegs(b.legs) && IsStop(b, maxBasis, e) && Gains(b, e)
    ensures BasisAt(b, e + 1) > Max(0, maxBasis) - Touched(b.legs, e + 1)
  {
    forall u: nat | Open(b.legs, u) ensures Piece(b, u) == LevelRoom(b.legs, u) { SmallRoomsAreWhole(b, u); }
    CapIsUsed(b, maxBasis, e);
    OpenReaches(b.legs, e + 1);
    OpenBelow(b, 0, e + 1);
    assert OpensLevel(b.legs[0].levels, 0);
    NetAtNothing(b.legs);
    ChargesAreFew(b, 0, e + 1);
  }
}
