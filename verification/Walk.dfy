/** The walk as it runs: one cursor per leg, advanced chunk by chunk, segments
    recorded as they are taken, then the exact accounting over the segments. */
module Walk {
  import opened Wrappers
  import opened Num
  import opened Instrument
  import opened Book
  import opened Walker

  /** next: index of the level the iterator yields next. */
  datatype Cursor = Cursor(next: nat, cur: Option<Level>, segs: seq<Level>)

  /** Extends the last segment when it is at the same price, else opens a new one. */
  function Push(segs: seq<Level>, px: nat, n: nat): seq<Level> {
    if segs != [] && segs[|segs| - 1].px == px
    then segs[..|segs| - 1] + [Level(px, segs[|segs| - 1].qty + n)]
    else segs + [Level(px, n)]
  }

  ghost predicate Located(levels: seq<Level>, u: nat, next: nat, cur: Option<Level>) {
    match cur
    case None => next == |levels| && u == Depth(levels)
    case Some(l) =>
      && 1 <= next <= |levels| && l.px == levels[next - 1].px
      && 0 < l.qty <= levels[next - 1].qty && u + l.qty == Depth(levels[..next])
  }

  ghost predicate CursorAt(l: Leg, u: nat, c: Cursor) {
    c.segs == Taken(l.levels, u) && Located(l.levels, u, c.next, c.cur)
  }

  lemma {:induction false} DepthSnoc(levels: seq<Level>, k: nat)
    requires k < |levels|
    ensures Depth(levels[..k + 1]) == Depth(levels[..k]) + levels[k].qty
  {
    if k == 0 {
    } else {
      DepthSnoc(levels[1..], k - 1);
      assert levels[..k + 1][1..] == levels[1..][..k] && levels[..k][1..] == levels[1..][..k - 1];
    }
  }

  lemma {:induction false} LocatedIsAt(levels: seq<Level>, u: nat, next: nat, cur: Option<Level>)
    requires Located(levels, u, next, cur)
    ensures At(levels, u) == cur
  {
    match cur
    case None => AtWithinDepth(levels, u);
    case Some(l) =>
      DepthSnoc(levels, next - 1);
      if next > 1 {
        assert levels[..next - 1][1..] == levels[1..][..next - 2] && levels[..next][1..] == levels[1..][..next - 1];
        LocatedIsAt(levels[1..], u - levels[0].qty, next - 1, cur);
      }
  }

  lemma {:induction false} TakenStep(side: Side, ts: TickSize, levels: seq<Level>, u: nat, n: nat)
    requires BestFirst(side, ts, levels) && At(levels, u).Some? && 0 < n <= At(levels, u).value.qty
    ensures Taken(levels, u + n) == Push(Taken(levels, u), At(levels, u).value.px, n)
  {
    var px := At(levels, u).value.px;
    if u < levels[0].qty {
    } else {
      BestFirstTail(side, ts, levels);
      var rest := Taken(levels[1..], u - levels[0].qty);
      TakenStep(side, ts, levels[1..], u - levels[0].qty, n);
      AtWithinDepth(levels[1..], u - levels[0].qty);
      assert px != levels[0].px;
      if rest == [] {
        assert u == levels[0].qty;
        assert Taken(levels, u) == [levels[0]];
        assert Push([levels[0]], px, n) == [levels[0]] + Push([], px, n);
      } else {
        assert Taken(levels, u) == [levels[0]] + rest;
        assert Push([levels[0]] + rest, px, n) == [levels[0]] + Push(rest, px, n);
      }
    }
  }

  // ----- one pass over the cursors -----

  /** The first n cursors stand at extent u. */
  ghost predicate FirstAt(b: Basket, u: nat, cs: seq<Cursor>, n: nat)
    requires n <= |cs| == |b.legs|
  {
    n == 0 || (CursorAt(b.legs[n - 1], u, cs[n - 1]) && FirstAt(b, u, cs, n - 1))
  }

  ghost predicate AllAt(b: Basket, u: nat, cs: seq<Cursor>) {
    |cs| == |b.legs| && FirstAt(b, u, cs, |cs|)
  }

  lemma {:induction false} FirstAtIsEach(b: Basket, u: nat, cs: seq<Cursor>, n: nat)
    requires n <= |cs| == |b.legs|
    ensures FirstAt(b, u, cs, n) <==> forall i :: 0 <= i < n ==> CursorAt(b.legs[i], u, cs[i])
  {
    if n == 0 {
    } else {
      FirstAtIsEach(b, u, cs, n - 1);
    }
  }

  method InitCursors(b: Basket) returns (cursors: seq<Cursor>)
    requires ValidBasket(b)
    ensures AllAt(b, 0, cursors)
  {
    cursors := [];
    for i := 0 to |b.legs|
      invariant |cursors| == i && forall k :: 0 <= k < i ==> CursorAt(b.legs[k], 0, cursors[k])
    {
      var levels := b.legs[i].levels;
      assert ValidLeg(b.legs[i]);
      if levels == [] {
        cursors := cursors + [Cursor(0, None, [])];
      } else {
        DepthSnoc(levels, 0);
        cursors := cursors + [Cursor(1, Some(levels[0]), [])];
      }
    }
    FirstAtIsEach(b, 0, cursors, |cursors|);
  }

  /** Marginal, room and basis per share at the current level combination. */
  method Scan(b: Basket, cursors: seq<Cursor>, ghost u: nat) returns (exhausted: bool, marginal: int, room: nat,
              bps: int)
    requires AllAt(b, u, cursors)
    ensures exhausted <==> !Open(b.legs, u)
    ensures !exhausted ==> marginal == Marginal(b, u) && room == LevelRoom(b.legs, u) && bps == BasisPerShare(b, u)
  {
    exhausted := false;
    marginal := 10_000 * (b.payout - b.collateral);
    room := U64_MAX;
    bps := 10_000 * b.collateral;
    for i := 0 to |cursors|
      invariant exhausted <==> !Open(b.legs[..i], u)
      invariant !exhausted ==>
        && marginal == 10_000 * (b.payout - b.collateral) - CostSum(b.legs[..i], u)
        && room == LevelRoom(b.legs[..i], u)
        && bps == 10_000 * b.collateral + BuyCostSum(b.legs[..i], u)
    {
      var leg := b.legs[i];
      CursorOf(b, u, cursors, i);
      LocatedIsAt(leg.levels, u, cursors[i].next, cursors[i].cur);
      assert b.legs[..i + 1] == b.legs[..i] + [leg] && b.legs[..i + 1][..i] == b.legs[..i];
      match cursors[i].cur {
        case None => exhausted := true;
          assert b.legs[..i + 1][i] == leg;
        case Some(l) =>
          var cost := ScaledLegCost(leg.action, leg.feeBps, MicroUsdc(l.px, leg.ts));
          marginal := marginal - cost;
          if leg.action == Buy { bps := bps + cost; }
          room := Min(room, l.qty);
          OpenSnoc(b.legs, i, u);
      }
    }
    assert b.legs[..|b.legs|] == b.legs;
  }

  lemma OpenSnoc(legs: seq<Leg>, i: nat, u: nat)
    requires i < |legs|
    ensures Open(legs[..i + 1], u) <==> Open(legs[..i], u) && At(legs[i].levels, u).Some?
  {
    if Open(legs[..i + 1], u) {
      assert legs[..i + 1][i] == legs[i];
      forall k | 0 <= k < i ensures At(legs[..i][k].levels, u).Some? { assert legs[..i][k] == legs[..i + 1][k]; }
    }
  }

  /** One leg takes a chunk: the segment grows, the iterator moves on when the level is used up. */
  method TakeOne(leg: Leg, c: Cursor, chunk: nat, ghost u: nat) returns (d: Cursor)
    requires ValidLeg(leg) && CursorAt(leg, u, c) && c.cur.Some? && 0 < chunk <= c.cur.value.qty
    ensures CursorAt(leg, u + chunk, d)
  {
    var Level(px, rem) := c.cur.value;
    LocatedIsAt(leg.levels, u, c.next, c.cur);
    TakenStep(SideOf(leg.action), leg.ts, leg.levels, u, chunk);
    var segs := Push(c.segs, px, chunk);
    if rem - chunk == 0 {
      if c.next < |leg.levels| {
        DepthSnoc(leg.levels, c.next);
        d := Cursor(c.next + 1, Some(leg.levels[c.next]), segs);
      } else {
        assert leg.levels[..c.next] == leg.levels;
        d := Cursor(c.next, None, segs);
      }
    } else {
      d := Cursor(c.next, Some(Level(px, rem - chunk)), segs);
    }
  }

  lemma CursorOf(b: Basket, u: nat, cs: seq<Cursor>, i: nat)
    requires AllAt(b, u, cs) && i < |cs|
    ensures CursorAt(b.legs[i], u, cs[i])
  {
    FirstAtIsEach(b, u, cs, |cs|);
  }

  lemma RoomOf(b: Basket, u: nat, cs: seq<Cursor>, i: nat)
    requires ValidBasket(b) && AllAt(b, u, cs) && Open(b.legs, u) && i < |cs|
    ensures ValidLeg(b.legs[i]) && CursorAt(b.legs[i], u, cs[i])
    ensures cs[i].cur.Some? && LevelRoom(b.legs, u) <= cs[i].cur.value.qty
  {
    CursorOf(b, u, cs, i);
    LevelRoomBounds(b.legs, u);
    LocatedIsAt(b.legs[i].levels, u, cs[i].next, cs[i].cur);
  }

  method TakeChunk(b: Basket, before: seq<Cursor>, chunk: nat, ghost u: nat) returns (cursors: seq<Cursor>)
    requires ValidBasket(b) && AllAt(b, u, before) && Open(b.legs, u) && 0 < chunk <= LevelRoom(b.legs, u)
    ensures AllAt(b, u + chunk, cursors)
  {
    cursors := before;
    for i := 0 to |cursors|
      invariant |cursors| == |before| && cursors[i..] == before[i..]
      invariant forall k :: 0 <= k < i ==> CursorAt(b.legs[k], u + chunk, cursors[k])
    {
      RoomOf(b, u, before, i);
      assert cursors[i] == before[i];
      var d := TakeOne(b.legs[i], cursors[i], chunk, u);
      cursors := cursors[i := d];
    }
    FirstAtIsEach(b, u + chunk, cursors, |cursors|);
  }

  // ----- the march and the accounting -----

  method CapChunk(room: nat, remaining: int, bps: int) returns (r: Option<nat>)
    ensures r == Capped(room, remaining, bps)
  {
    var chunk := room;
    if bps > 0 {
      if remaining <= 0 { return None; }
      var cap := CapShares(remaining, bps);
      if cap == 0 { return None; }
      CapIsPositive(remaining, bps);
      chunk := Min(chunk, cap);
    }
    r := Some(chunk);
  }

  /** Depth of the shallowest leg. */
  ghost function CommonDepth(legs: seq<Leg>): nat
    requires legs != []
  {
    var d := Depth(legs[|legs| - 1].levels);
    if |legs| == 1 then d else Min(d, CommonDepth(legs[..|legs| - 1]))
  }

  lemma {:induction false} WithinCommonDepth(legs: seq<Leg>, u: nat)
    requires legs != [] && forall i :: 0 <= i < |legs| ==> u <= Depth(legs[i].levels)
    ensures u <= CommonDepth(legs)
  {
    if |legs| <= 1 {
    } else {
      WithinCommonDepth(legs[..|legs| - 1], u);
    }
  }

  lemma AfterChunk(b: Basket, maxBasis: int, u: nat, used: int)
    requires b.legs != [] && Chunk(b, maxBasis, u, used).Some?
    ensures var n := Chunk(b, maxBasis, u, used).value;
            && 0 < n && u + n <= CommonDepth(b.legs)
            && March(b, maxBasis, u, used) == March(b, maxBasis, u + n, used + Charge(BasisPerShare(b, u), n))
  {
    ChunkAdvances(b, maxBasis, u, used);
    WithinCommonDepth(b.legs, u + Chunk(b, maxBasis, u, used).value);
  }

  method TakeNext(b: Basket, maxBasis: int, cursors: seq<Cursor>, ghost units: nat, basisUsed: int)
    returns (taken: Option<nat>, advanced: seq<Cursor>, spent: int)
    requires ValidBasket(b) && b.legs != [] && AllAt(b, units, cursors)
    ensures taken == Chunk(b, maxBasis, units, basisUsed)
    ensures taken.Some? ==> AllAt(b, units + taken.value, advanced)
    ensures taken.Some? ==> spent == basisUsed + Charge(BasisPerShare(b, units), taken.value)
  {
    taken, advanced, spent := None, cursors, basisUsed;
    var exhausted, marginal, room, bps := Scan(b, cursors, units);
    if exhausted || marginal <= 0 || room == 0 { return; }
    taken := CapChunk(room, maxBasis - basisUsed, bps);
    if taken.None? { return; }
    ChunkAdvances(b, maxBasis, units, basisUsed);
    advanced := TakeChunk(b, cursors, taken.value, units);
    spent := basisUsed + Charge(bps, taken.value);
  }

  /** One turn of the march: the end it heads for does not change. */
  method MarchStep(b: Basket, maxBasis: int, cursors: seq<Cursor>, ghost units: nat, basisUsed: int)
    returns (taken: Option<nat>, advanced: seq<Cursor>, spent: int)
    requires ValidBasket(b) && b.legs != [] && AllAt(b, units, cursors)
    ensures taken.Some? ==> AllAt(b, units + taken.value, advanced)
    ensures taken.Some? ==> March(b, maxBasis, units, basisUsed) == March(b, maxBasis, units + taken.value, spent)
    ensures taken.Some? ==> 0 < taken.value && units + taken.value <= CommonDepth(b.legs)
    ensures taken.None? ==> March(b, maxBasis, units, basisUsed).0 == units
  {
    taken, advanced, spent := TakeNext(b, maxBasis, cursors, units, basisUsed);
    if taken.Some? { AfterChunk(b, maxBasis, units, basisUsed); }
  }

  method RunMarch(b: Basket, maxBasis: int, start: seq<Cursor>) returns (units: nat, cursors: seq<Cursor>)
    requires ValidBasket(b) && b.legs != [] && AllAt(b, 0, start)
    ensures units == Units(b, maxBasis) && AllAt(b, units, cursors)
  {
    units, cursors := 0, start;
    var basisUsed := 0;
    while true
      invariant AllAt(b, units, cursors)
      invariant March(b, maxBasis, units, basisUsed) == March(b, maxBasis, 0, 0)
      decreases CommonDepth(b.legs) - units
    {
      var taken, advanced, spent := MarchStep(b, maxBasis, cursors, units, basisUsed);
      if taken.None? { break; }
      cursors, units, basisUsed := advanced, units + taken.value, spent;
    }
  }

  /** Cash, worst price and quantity of one leg's recorded segments. */
  method AccountLeg(leg: Leg, segs: seq<Level>) returns (cash: int, worst: Option<nat>, qty: nat)
    ensures cash == SegsCash(leg, segs) && qty == Qty(segs)
    ensures worst == if segs == [] then None else Some(segs[|segs| - 1].px)
  {
    cash, worst, qty := 0, None, 0;
    for i := 0 to |segs|
      invariant cash == SegsCash(leg, segs[..i]) && qty == Qty(segs[..i])
      invariant worst == if i == 0 then None else Some(segs[i - 1].px)
    {
      assert segs[..i + 1][..i] == segs[..i];
      var pm := MicroUsdc(segs[i].px, leg.ts);
      var fee := Fee(leg.feeBps, pm, segs[i].qty);
      match leg.action {
        case Buy => cash := cash - (BuyCost(pm, segs[i].qty) + fee);
        case Sell => cash := cash + (SellProceeds(pm, segs[i].qty) - fee);
      }
      worst := Some(segs[i].px);
      qty := qty + segs[i].qty;
    }
    assert segs[..|segs|] == segs;
  }

  /** One leg's fill from its recorded segments. */
  method LegFillOf(leg: Leg, segs: seq<Level>, ghost units: nat) returns (fill: LegFill)
    requires 0 < units <= Depth(leg.levels) && segs == Taken(leg.levels, units)
    ensures fill == FillAt(leg, units)
  {
    TakenFills(leg.levels, units);
    SegsCashIsLadderCash(leg, leg.levels, units);
    var legCash, worst, qty := AccountLeg(leg, segs);
    fill := LegFill(leg.token, leg.action, leg.ts, worst.value, qty, legCash);
  }

  method Account(b: Basket, cursors: seq<Cursor>, units: nat) returns (cash: int, buyOutlay: int, fills: seq<LegFill>)
    requires AllAt(b, units, cursors) && units > 0
    requires forall i :: 0 <= i < |b.legs| ==> units <= Depth(b.legs[i].levels)
    ensures cash == LegsCash(b.legs, units) && buyOutlay == BuyOutlayAt(b.legs, units)
    ensures fills == FillsAt(b.legs, units)
  {
    cash, buyOutlay, fills := 0, 0, [];
    for i := 0 to |cursors|
      invariant cash == LegsCash(b.legs[..i], units) && buyOutlay == BuyOutlayAt(b.legs[..i], units)
      invariant fills == FillsAt(b.legs, units)[..i]
    {
      assert b.legs[..i + 1][..i] == b.legs[..i];
      CursorOf(b, units, cursors, i);
      var fill := LegFillOf(b.legs[i], cursors[i].segs, units);
      cash := cash + fill.cash;
      if fill.action == Buy { buyOutlay := buyOutlay - fill.cash; }
      fills := fills + [fill];
    }
    assert b.legs[..|b.legs|] == b.legs;
  }

  method Finish(b: Basket, cursors: seq<Cursor>, units: nat, minProfit: int, floor: int) returns (r: Option<WalkResult>)
    requires AllAt(b, units, cursors) && units > 0
    requires forall i :: 0 <= i < |b.legs| ==> units <= Depth(b.legs[i].levels)
    ensures r == Settle(b, units, minProfit, floor)
  {
    var cash, buyOutlay, fills := Account(b, cursors, units);
    var payout := b.payout * units / 1_000_000;
    var collateral := DivCeil(b.collateral * units, 1_000_000);
    var net := cash + payout - collateral - b.gas;
    var basis := buyOutlay + collateral;
    if net < minProfit { return None; }
    var edge := EdgeBps(net, basis);
    if edge.None? || edge.value < floor { return None; }
    r := Some(WalkResult(units, net, basis, edge.value, fills));
  }

  /** The whole walk: exactly the specified result. */
  method Walk(b: Basket, maxBasis: int, minProfit: int, floor: int) returns (r: Option<WalkResult>)
    requires ValidBasket(b)
    ensures r == WalkSpec(b, maxBasis, minProfit, floor)
  {
    if b.legs == [] { return None; }
    var start := InitCursors(b);
    var units, cursors := RunMarch(b, maxBasis, start);
    if units == 0 { return None; }
    MarchWithinDepth(b, maxBasis, 0, 0);
    r := Finish(b, cursors, units, minProfit, floor);
  }
}
