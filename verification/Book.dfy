/** Dense per-tick ladders: an array indexed by tick with a cached best price.
    The abstract value of a ladder is the map from non-empty tick to quantity. */
module Book {
  import opened Wrappers
  import opened Num

  datatype Side = Bid | Ask

  datatype Level = Level(px: nat, qty: nat)

  /** Strictly closer to the front of the book on this side. */
  predicate Improves(side: Side, cand: nat, cur: nat) {
    match side case Bid => cand > cur case Ask => cand < cur
  }

  /** Non-empty valid levels, strictly from best to worse. */
  ghost predicate BestFirst(side: Side, ts: TickSize, levels: seq<Level>) {
    && (forall i :: 0 <= i < |levels| ==> ValidPx(levels[i].px, ts) && levels[i].qty > 0)
    && (forall i, j :: 0 <= i < j < |levels| ==> Improves(side, levels[i].px, levels[j].px))
  }

  /** What a reader sees of one token's book: both sides as iterated from best. */
  datatype BookView = BookView(ts: TickSize, bids: seq<Level>, asks: seq<Level>) {
    ghost predicate Valid() {
      BestFirst(Bid, ts, bids) && BestFirst(Ask, ts, asks)
    }
  }

  /** The non-empty ticks of a dense array, as a map. */
  ghost function Resting(lvls: seq<nat>): map<nat, nat> {
    map t: nat | t < |lvls| && lvls[t] > 0 :: lvls[t]
  }

  ghost predicate IsBest(side: Side, m: map<nat, nat>, best: Option<nat>) {
    match best
    case None => m == map[]
    case Some(b) => b in m && forall t :: t in m && t != b ==> Improves(side, b, t)
  }

  /** Next tick away from the best, if the price range has one. */
  function Worsen(side: Side, ts: TickSize, t: nat): Option<nat> {
    match side
    case Ask => if t + 1 < ts.Levels() then Some(t + 1) else None
    case Bid => if t > 1 then Some(t - 1) else None
  }

  function TicksLeft(side: Side, ts: TickSize, cur: Option<nat>): nat {
    match cur
    case None => 0
    case Some(t) => if side == Ask then Max(ts.Levels() - t, 0) + 1 else t + 1
  }

  /** The non-empty levels an iterator standing at cur has still to yield. */
  function Remaining(side: Side, ts: TickSize, lvls: seq<nat>, cur: Option<nat>): seq<Level>
    requires |lvls| == ts.Levels() + 1
    requires cur.Some? ==> ValidPx(cur.value, ts)
    decreases TicksLeft(side, ts, cur)
  {
    match cur
    case None => []
    case Some(t) =>
      (if lvls[t] > 0 then [Level(t, lvls[t])] else [])
      + Remaining(side, ts, lvls, Worsen(side, ts, t))
  }

  ghost predicate AtOrBeyond(side: Side, cur: Option<nat>, t: nat) {
    cur.Some? && (t == cur.value || Improves(side, cur.value, t))
  }

  /** An iterator yields exactly the non-empty ticks at or beyond its cursor. */
  lemma {:induction false} RemainingMembers(side: Side, ts: TickSize, lvls: seq<nat>, cur: Option<nat>, l: Level)
    requires |lvls| == ts.Levels() + 1
    requires cur.Some? ==> ValidPx(cur.value, ts)
    ensures l in Remaining(side, ts, lvls, cur) <==>
              ValidPx(l.px, ts) && lvls[l.px] > 0 && l.qty == lvls[l.px] && AtOrBeyond(side, cur, l.px)
    decreases TicksLeft(side, ts, cur)
  {
    if cur.None? {
    } else {
      RemainingMembers(side, ts, lvls, Worsen(side, ts, cur.value), l);
    }
  }

  /** ... once each, strictly from best to worse. */
  lemma {:induction false} RemainingBestFirst(side: Side, ts: TickSize, lvls: seq<nat>, cur: Option<nat>)
    requires |lvls| == ts.Levels() + 1
    requires cur.Some? ==> ValidPx(cur.value, ts)
    ensures BestFirst(side, ts, Remaining(side, ts, lvls, cur))
    decreases TicksLeft(side, ts, cur)
  {
    if cur.None? {
    } else {
      var next := Worsen(side, ts, cur.value);
      var rest := Remaining(side, ts, lvls, next);
      RemainingBestFirst(side, ts, lvls, next);
      forall i | 0 <= i < |rest| ensures Improves(side, cur.value, rest[i].px) {
        RemainingMembers(side, ts, lvls, next, rest[i]);
      }
    }
  }

  class Ladder {
    const ts: TickSize
    const side: Side
    const lvls: array<nat>
    var best: Option<nat>

    ghost predicate Valid()
      reads this, lvls
    {
      && lvls.Length == ts.Levels() + 1
      && lvls[0] == 0 && lvls[ts.Levels()] == 0
      && IsBest(side, Resting(lvls[..]), best)
    }

    ghost function Contents(): map<nat, nat>
      reads lvls
    {
      Resting(lvls[..])
    }

    constructor (ts: TickSize, side: Side)
      ensures Valid() && fresh(lvls) && this.ts == ts && this.side == side
      ensures Contents() == map[]
    {
      this.ts := ts;
      this.side := side;
      lvls := new nat[ts.Levels() + 1](_ => 0);
      best := None;
    }

    /** Replace the resting quantity at a price: the map changes at that tick
        only, and the cached best is again the extremal non-empty tick. */
    method Set(px: nat, qty: nat)
      requires Valid() && ValidPx(px, ts)
      modifies this`best, lvls
      ensures Valid()
      ensures Contents() == if qty > 0 then old(Contents())[px := qty] else old(Contents()) - {px}
    {
      ghost var before := Contents();
      lvls[px] := qty;
      assert Contents() == if qty > 0 then before[px := qty] else before - {px};
      if qty > 0 {
        if best.None? || Improves(side, px, best.value) {
          best := Some(px);
        }
      } else if best == Some(px) {
        best := RescanFrom(px);
      }
    }

    /** First non-empty level strictly worse than a price that was the best. */
    method RescanFrom(px: nat) returns (r: Option<nat>)
      requires lvls.Length == ts.Levels() + 1 && lvls[0] == 0 && lvls[ts.Levels()] == 0 && ValidPx(px, ts)
      requires forall t :: t in Contents() ==> Improves(side, px, t)
      ensures IsBest(side, Contents(), r)
    {
      assert forall t :: 0 <= t < lvls.Length && lvls[t] > 0 ==> t in Contents();
      match side
      case Bid =>
        var i := px - 1;
        while i >= 1
          invariant 0 <= i < px
          invariant forall t :: i < t < lvls.Length ==> lvls[t] == 0
        {
          if lvls[i] > 0 { return Some(i); }
          i := i - 1;
        }
        r := None;
      case Ask =>
        var i := px + 1;
        while i < ts.Levels()
          invariant px < i <= ts.Levels()
          invariant forall t :: 0 <= t < i ==> lvls[t] == 0
        {
          if lvls[i] > 0 { return Some(i); }
          i := i + 1;
        }
        r := None;
    }

    /** Everything the book reader walks: the levels from the cached best on. */
    ghost function Levels(): seq<Level>
      requires Valid()
      reads this, lvls
    {
      Remaining(side, ts, lvls[..], best)
    }

    /** The iteration from the cached best is the whole ladder, best first. */
    lemma LevelsIsContents()
      requires Valid()
      ensures BestFirst(side, ts, Levels())
      ensures forall l :: l in Levels() <==> l.px in Contents() && Contents()[l.px] == l.qty
      ensures best.Some? <==> Levels() != []
      ensures best.Some? ==> Levels()[0].px == best.value
    {
      RemainingBestFirst(side, ts, lvls[..], best);
      forall l: Level ensures l in Levels() <==> l.px in Contents() && Contents()[l.px] == l.qty {
        RemainingMembers(side, ts, lvls[..], best, l);
      }
    }
  }

  class LadderIter {
    const ladder: Ladder
    var cur: Option<nat>

    ghost predicate Valid()
      reads this, ladder, ladder.lvls
    {
      ladder.Valid() && (cur.Some? ==> ValidPx(cur.value, ladder.ts))
    }

    ghost function Todo(): seq<Level>
      requires Valid()
      reads this, ladder, ladder.lvls
    {
      Remaining(ladder.side, ladder.ts, ladder.lvls[..], cur)
    }

    constructor FromBest(ladder: Ladder)
      requires ladder.Valid()
      ensures Valid() && this.ladder == ladder && Todo() == ladder.Levels()
    {
      this.ladder := ladder;
      cur := ladder.best;
    }

    /** Yields the head of what is left, skipping empty ticks, and None once nothing is left. */
    method Next() returns (r: Option<Level>)
      requires Valid()
      modifies this
      ensures Valid()
      ensures old(Todo()) == [] ==> r == None && Todo() == []
      ensures old(Todo()) != [] ==> r == Some(old(Todo())[0]) && Todo() == old(Todo())[1..]
    {
      if cur.None? { return None; }
      var t := cur.value;
      while true
        invariant Valid() && cur.Some? && cur.value == t
        invariant Todo() == old(Todo())
        decreases TicksLeft(ladder.side, ladder.ts, cur)
      {
        var q := ladder.lvls[t];
        var item := if q > 0 then Some(Level(t, q)) else None;
        cur := Worsen(ladder.side, ladder.ts, t);
        if item.Some? { return item; }
        if cur.None? { return None; }
        t := cur.value;
      }
    }
  }

  /** Two sides of one token's book; an update touches only the side it names. */
  class TokenBook {
    const bids: Ladder
    const asks: Ladder

    ghost predicate Valid()
      reads this, bids, asks, bids.lvls, asks.lvls
    {
      && bids.Valid() && asks.Valid() && bids != asks && bids.lvls != asks.lvls
      && bids.side == Bid && asks.side == Ask && bids.ts == asks.ts
    }

    constructor (ts: TickSize)
      ensures Valid() && bids.ts == ts
      ensures fresh(bids) && fresh(asks) && fresh(bids.lvls) && fresh(asks.lvls)
      ensures bids.Contents() == asks.Contents() == map[]
    {
      bids := new Ladder(ts, Bid);
      asks := new Ladder(ts, Ask);
    }

    /** The book as its readers iterate it. */
    ghost function View(): BookView
      requires Valid()
      reads this, bids, asks, bids.lvls, asks.lvls
    {
      BookView(bids.ts, bids.Levels(), asks.Levels())
    }

    /** What readers see is well formed, holds exactly the two maps, and starts at the cached bests. */
    lemma ViewIsBook()
      requires Valid()
      ensures View().Valid()
      ensures forall l :: l in View().bids <==> l.px in bids.Contents() && bids.Contents()[l.px] == l.qty
      ensures forall l :: l in View().asks <==> l.px in asks.Contents() && asks.Contents()[l.px] == l.qty
      ensures bids.best == if View().bids == [] then None else Some(View().bids[0].px)
      ensures asks.best == if View().asks == [] then None else Some(View().asks[0].px)
    {
      bids.LevelsIsContents();
      asks.LevelsIsContents();
    }

    method Apply(side: Side, px: nat, qty: nat)
      requires Valid() && ValidPx(px, bids.ts)
      modifies bids`best, bids.lvls, asks`best, asks.lvls
      ensures Valid()
      ensures var named, other := if side == Bid then bids else asks, if side == Bid then asks else bids;
              && named.Contents() ==
                  (if qty > 0 then old(named.Contents())[px := qty] else old(named.Contents()) - {px})
              && other.Contents() == old(other.Contents()) && other.best == old(other.best)
    {
      match side
      case Bid => bids.Set(px, qty);
      case Ask => asks.Set(px, qty);
    }
  }
}
