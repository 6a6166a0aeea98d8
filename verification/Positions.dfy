/** Session position book: quantity and cost per token, cash, and the P&L split. */
module Positions {
  import opened Instrument
  import opened Risk
  import opened Sums

  type Pos = map<TokenId, (nat, int)>

  /** One reported leftover: token, quantity, cost basis. */
  type Leftover = (TokenId, nat, int)

  datatype Pnl = Pnl(cash: int, realized: int, unrealized: int, equity: int)

  function Entry(p: Pos, t: TokenId): (nat, int) {
    if t in p then p[t] else (0, 0)
  }

  function AddLeftover(p: Pos, l: Leftover): Pos {
    p[l.0 := (Entry(p, l.0).0 + l.1, Entry(p, l.0).1 + l.2)]
  }

  function AddLeftovers(p: Pos, ls: seq<Leftover>): Pos {
    if ls == [] then p else AddLeftover(AddLeftovers(p, ls[..|ls| - 1]), ls[|ls| - 1])
  }

  /** Cost added per market, for tokens whose market is known. */
  function MarketDeltas(ls: seq<Leftover>, tokenMarket: map<TokenId, MarketId>): Amounts {
    if ls == [] then []
    else
      var before := MarketDeltas(ls[..|ls| - 1], tokenMarket);
      var (t, _, c) := ls[|ls| - 1];
      if t in tokenMarket then Bump(before, tokenMarket[t], c) else before
  }

  function TotalCost(ls: seq<Leftover>): int {
    if ls == [] then 0 else TotalCost(ls[..|ls| - 1]) + ls[|ls| - 1].2
  }

  // ----- costs and marks -----

  ghost function CostIn(p: Pos): TokenId -> int {
    (t: TokenId) => Entry(p, t).1
  }

  ghost function HeldCostIn(p: Pos): TokenId -> int {
    (t: TokenId) => if Entry(p, t).0 == 0 then 0 else Entry(p, t).1
  }

  ghost function FlatCostIn(p: Pos): TokenId -> int {
    (t: TokenId) => if Entry(p, t).0 == 0 then Entry(p, t).1 else 0
  }

  ghost function MarkIn(p: Pos, marks: map<TokenId, int>): TokenId -> int {
    (t: TokenId) => if Entry(p, t).0 == 0 || t !in marks then 0 else marks[t]
  }

  /** Cost basis of what is held. */
  ghost function Basis(p: Pos): int {
    Sum(p.Keys, HeldCostIn(p))
  }

  /** Cost booked on tokens of which nothing is held. */
  ghost function FlatCost(p: Pos): int {
    Sum(p.Keys, FlatCostIn(p))
  }

  /** Cash, then held value and cost split: unmarked tokens are worth nothing. */
  ghost function PnlOf(p: Pos, cash: int, marks: map<TokenId, int>): Pnl {
    var markValue := Sum(p.Keys, MarkIn(p, marks));
    Pnl(cash, cash + Basis(p), markValue - Basis(p), cash + markValue)
  }

  lemma CostIsHeldOrFlat(p: Pos)
    ensures Sum(p.Keys, CostIn(p)) == Basis(p) + FlatCost(p)
  {
    SumSplits(p.Keys, HeldCostIn(p), FlatCostIn(p), CostIn(p));
  }

  lemma AddOneToCost(p: Pos, l: Leftover)
    ensures Sum(AddLeftover(p, l).Keys, CostIn(AddLeftover(p, l))) == Sum(p.Keys, CostIn(p)) + l.2
  {
    var t, after := l.0, AddLeftover(p, l);
    SumRemove(after.Keys, CostIn(after), t);
    assert after.Keys - {t} == p.Keys - {t};
    SumFrame(p.Keys - {t}, CostIn(p), CostIn(after));
    if t in p {
      SumRemove(p.Keys, CostIn(p), t);
    } else {
      assert p.Keys - {t} == p.Keys;
    }
  }

  /** Reported leftovers raise the booked cost by exactly their cost, held or flat. */
  lemma {:induction false} LeftoversAddToCost(p: Pos, ls: seq<Leftover>)
    ensures Sum(AddLeftovers(p, ls).Keys, CostIn(AddLeftovers(p, ls))) == Sum(p.Keys, CostIn(p)) + TotalCost(ls)
  {
    if ls == [] {
    } else {
      var n := |ls| - 1;
      LeftoversAddToCost(p, ls[..n]);
      AddOneToCost(AddLeftovers(p, ls[..n]), ls[n]);
    }
  }

  /** What the leftovers report of one token. */
  function LeftQty(ls: seq<Leftover>, t: TokenId): nat {
    if ls == [] then 0 else LeftQty(ls[..|ls| - 1], t) + if ls[|ls| - 1].0 == t then ls[|ls| - 1].1 else 0
  }

  function LeftCost(ls: seq<Leftover>, t: TokenId): int {
    if ls == [] then 0 else LeftCost(ls[..|ls| - 1], t) + if ls[|ls| - 1].0 == t then ls[|ls| - 1].2 else 0
  }

  /** Every token's entry grows by what is reported of it, and of no other. */
  lemma {:induction false} LeftoversByToken(p: Pos, ls: seq<Leftover>, t: TokenId)
    ensures Entry(AddLeftovers(p, ls), t) == (Entry(p, t).0 + LeftQty(ls, t), Entry(p, t).1 + LeftCost(ls, t))
  {
    if ls == [] {
    } else {
      LeftoversByToken(p, ls[..|ls| - 1], t);
    }
  }

  /** Cost reported of the tokens of one market. */
  function CostOn(ls: seq<Leftover>, tokenMarket: map<TokenId, MarketId>, m: MarketId): int {
    if ls == [] then 0
    else
      var l := ls[|ls| - 1];
      CostOn(ls[..|ls| - 1], tokenMarket, m) + if l.0 in tokenMarket && tokenMarket[l.0] == m then l.2 else 0
  }

  /** Each market's delta is the cost reported of its tokens. */
  lemma {:induction false} DeltasByMarket(ls: seq<Leftover>, tokenMarket: map<TokenId, MarketId>, m: MarketId)
    ensures AmountFor(MarketDeltas(ls, tokenMarket), m) == CostOn(ls, tokenMarket, m)
  {
    if ls == [] {
    } else {
      var n := |ls| - 1;
      DeltasByMarket(ls[..n], tokenMarket, m);
      if ls[n].0 in tokenMarket { BumpAdds(MarketDeltas(ls[..n], tokenMarket), tokenMarket[ls[n].0], ls[n].2, m); }
    }
  }

  /** A flat token carries no cost. */
  ghost predicate NoPhantomCost(p: Pos) {
    forall t :: t in p && p[t].0 == 0 ==> p[t].1 == 0
  }

  predicate CostsHaveQuantity(ls: seq<Leftover>) {
    forall i :: 0 <= i < |ls| ==> ls[i].2 != 0 ==> ls[i].1 > 0
  }

  lemma {:induction false} NoPhantomKept(p: Pos, ls: seq<Leftover>)
    requires NoPhantomCost(p) && CostsHaveQuantity(ls)
    ensures NoPhantomCost(AddLeftovers(p, ls))
  {
    if ls == [] {
    } else {
      NoPhantomKept(p, ls[..|ls| - 1]);
    }
  }

  lemma NoPhantomNoFlatCost(p: Pos)
    requires NoPhantomCost(p)
    ensures FlatCost(p) == 0
  {
    SumZero(p.Keys, FlatCostIn(p));
  }

  lemma {:induction false} MarketDeltasOneEach(ls: seq<Leftover>, tokenMarket: map<TokenId, MarketId>)
    ensures OneEach(MarketDeltas(ls, tokenMarket))
  {
    if ls == [] {
    } else {
      var n := |ls| - 1;
      MarketDeltasOneEach(ls[..n], tokenMarket);
      if ls[n].0 in tokenMarket { BumpOneEach(MarketDeltas(ls[..n], tokenMarket), tokenMarket[ls[n].0], ls[n].2); }
    }
  }

  /** A token's mark moves equity one for one while something is held of it, and never
      moves realized P&L; a token not held, or not marked, is worth nothing. */
  lemma MarkMovesEquity(p: Pos, cash: int, marks: map<TokenId, int>, t: TokenId, x: int)
    ensures var (before, after) := (PnlOf(p, cash, marks), PnlOf(p, cash, marks[t := x]));
            && after.realized == before.realized && after.cash == before.cash == cash
            && before.realized + before.unrealized == before.equity
            && after.equity == before.equity +
                 if Entry(p, t).0 > 0 then x - (if t in marks then marks[t] else 0) else 0
  {
    var f, g := MarkIn(p, marks), MarkIn(p, marks[t := x]);
    SumFrame(p.Keys - {t}, f, g);
    if t in p {
      SumRemove(p.Keys, f, t);
      SumRemove(p.Keys, g, t);
    } else {
      assert p.Keys - {t} == p.Keys;
    }
  }

  /** With nothing marked, equity is cash. */
  lemma UnmarkedIsCash(p: Pos, cash: int)
    ensures PnlOf(p, cash, map[]).equity == cash
  {
    SumZero(p.Keys, MarkIn(p, map[]));
  }

  // ----- the book -----

  /** Tokens of which something is held. */
  function OpenTokens(p: Pos): set<TokenId> {
    set t | t in p && p[t].0 > 0
  }

  class PositionBook {
    var pos: Pos
    var cash: int

    constructor ()
      ensures pos == map[] && cash == 0
    {
      pos, cash := map[], 0;
    }

    method Apply(ls: seq<Leftover>, cashDelta: int, tokenMarket: map<TokenId, MarketId>) returns (deltas: Amounts)
      modifies this
      ensures cash == old(cash) + cashDelta && pos == AddLeftovers(old(pos), ls)
      ensures deltas == MarketDeltas(ls, tokenMarket)
    {
      cash := cash + cashDelta;
      deltas := [];
      for i := 0 to |ls|
        invariant cash == old(cash) + cashDelta && pos == AddLeftovers(old(pos), ls[..i])
        invariant deltas == MarketDeltas(ls[..i], tokenMarket)
      {
        assert ls[..i + 1][..i] == ls[..i];
        var (t, q, c) := ls[i];
        var e := Entry(pos, t);
        pos := pos[t := (e.0 + q, e.1 + c)];
        if t in tokenMarket { deltas := Bump(deltas, tokenMarket[t], c); }
      }
      assert ls[..|ls|] == ls;
    }

    method OpenPositions() returns (n: nat)
      ensures n == |OpenTokens(pos)|
    {
      n := 0;
      ghost var seen: set<TokenId> := {};
      var todo := pos.Keys;
      while todo != {}
        invariant todo + seen == pos.Keys && todo !! seen
        invariant n == |OpenTokens(pos) * seen|
        decreases todo
      {
        var t :| t in todo;
        if pos[t].0 > 0 {
          assert OpenTokens(pos) * (seen + {t}) == OpenTokens(pos) * seen + {t};
          n := n + 1;
        } else {
          assert OpenTokens(pos) * (seen + {t}) == OpenTokens(pos) * seen;
        }
        seen, todo := seen + {t}, todo - {t};
      }
      assert OpenTokens(pos) * seen == OpenTokens(pos);
    }

    method ComputePnl(marks: map<TokenId, int>) returns (r: Pnl)
      ensures r == PnlOf(pos, cash, marks)
    {
      var markValue, basis := 0, 0;
      var todo := pos.Keys;
      while todo != {}
        invariant todo <= pos.Keys
        invariant basis + Sum(todo, HeldCostIn(pos)) == Basis(pos)
        invariant markValue + Sum(todo, MarkIn(pos, marks)) == Sum(pos.Keys, MarkIn(pos, marks))
        decreases todo
      {
        var t :| t in todo;
        SumRemove(todo, HeldCostIn(pos), t);
        SumRemove(todo, MarkIn(pos, marks), t);
        if pos[t].0 != 0 {
          basis := basis + pos[t].1;
          markValue := markValue + if t in marks then marks[t] else 0;
        }
        todo := todo - {t};
      }
      var equity := cash + markValue;
      var unrealized := markValue - basis;
      r := Pnl(cash, equity - unrealized, unrealized, equity);
    }
  }
}
