/** Convergence signals: the first moment enough distinct followed wallets bought
    one side of one market inside a trailing window. */
module Signals {
  import opened Wrappers
  import opened Sequences
  import opened Sorting

  type Wallet = nat

  /** Prices are carried along, never computed with. */
  type Price = real

  /** Market condition and outcome. */
  datatype Key = Key(condition: nat, outcome: int)

  datatype Trade = Trade(key: Key, buy: bool, timestamp: int, price: Price)

  datatype BuyEvent = BuyEvent(timestamp: int, wallet: Wallet, price: Price)

  datatype Convergence = Convergence(timestamp: int, wallets: seq<Wallet>, triggerPrice: Price)

  datatype FollowSignal = FollowSignal(key: Key, at: Convergence)

  // ----- one market side -----

  /** Wallets with a buy stamped within [lo, hi]. */
  ghost function WalletsIn(buys: seq<BuyEvent>, lo: int, hi: int): set<Wallet> {
    set i | 0 <= i < |buys| && lo <= buys[i].timestamp <= hi :: buys[i].wallet
  }

  /** The same wallets in order of first appearance. */
  function Distinct(buys: seq<BuyEvent>, lo: int, hi: int): seq<Wallet> {
    if buys == [] then []
    else
      var before, b := Distinct(buys[..|buys| - 1], lo, hi), buys[|buys| - 1];
      if lo <= b.timestamp <= hi && b.wallet !in before then before + [b.wallet] else before
  }

  ghost function SetOf(s: seq<Wallet>): set<Wallet> {
    set x | x in s
  }

  lemma {:induction false} NoDupSize(s: seq<Wallet>)
    requires NoDup(s)
    ensures |SetOf(s)| == |s|
  {
    if s == [] {
      assert SetOf(s) == {};
    } else {
      var n := |s| - 1;
      NoDupSize(s[..n]);
      assert SetOf(s) == SetOf(s[..n]) + {s[n]};
    }
  }

  lemma WalletsInSnoc(buys: seq<BuyEvent>, b: BuyEvent, lo: int, hi: int)
    ensures WalletsIn(buys + [b], lo, hi) == WalletsIn(buys, lo, hi) +
        if lo <= b.timestamp <= hi then {b.wallet} else {}
  {
    var all := buys + [b];
    forall i | 0 <= i < |buys| ensures all[i] == buys[i] {}
    assert all[|buys|] == b;
    forall x | x in WalletsIn(buys, lo, hi) ensures x in WalletsIn(all, lo, hi) {
      var i :| 0 <= i < |buys| && lo <= buys[i].timestamp <= hi && buys[i].wallet == x;
      assert all[i] == buys[i];
    }
  }

  lemma SetOfSnoc(s: seq<Wallet>, x: Wallet)
    ensures SetOf(s + [x]) == SetOf(s) + {x}
  {
  }

  lemma {:induction false} DistinctHasNoDup(buys: seq<BuyEvent>, lo: int, hi: int)
    ensures NoDup(Distinct(buys, lo, hi))
  {
    if buys == [] {
    } else {
      DistinctHasNoDup(buys[..|buys| - 1], lo, hi);
    }
  }

  lemma {:induction false} DistinctMembers(buys: seq<BuyEvent>, lo: int, hi: int)
    ensures SetOf(Distinct(buys, lo, hi)) == WalletsIn(buys, lo, hi)
  {
    if buys == [] {
      assert SetOf([]) == {};
    } else {
      var n := |buys| - 1;
      var before, w := Distinct(buys[..n], lo, hi), buys[n].wallet;
      DistinctMembers(buys[..n], lo, hi);
      WalletsInSnoc(buys[..n], buys[n], lo, hi);
      assert buys == buys[..n] + [buys[n]];
      SetOfSnoc(before, w);
      if w in before { assert SetOf(before) + {w} == SetOf(before); }
    }
  }

  /** Both ways of listing the wallets of a window agree, and count the same. */
  lemma DistinctIsWalletsIn(buys: seq<BuyEvent>, lo: int, hi: int)
    ensures NoDup(Distinct(buys, lo, hi)) && SetOf(Distinct(buys, lo, hi)) == WalletsIn(buys, lo, hi)
    ensures |Distinct(buys, lo, hi)| == |WalletsIn(buys, lo, hi)|
  {
    DistinctHasNoDup(buys, lo, hi);
    DistinctMembers(buys, lo, hi);
    NoDupSize(Distinct(buys, lo, hi));
  }

  /** Does buy i complete a convergence of k wallets? */
  predicate Triggers(buys: seq<BuyEvent>, k: nat, window: int, i: nat)
    requires i < |buys|
  {
    |Distinct(buys, buys[i].timestamp - window, buys[i].timestamp)| >= k
  }

  ghost predicate FirstTrigger(buys: seq<BuyEvent>, k: nat, window: int, i: nat) {
    i < |buys| && Triggers(buys, k, window, i) && forall j :: 0 <= j < i ==> !Triggers(buys, k, window, j)
  }

  function ConvergenceAt(buys: seq<BuyEvent>, window: int, i: nat): Convergence
    requires i < |buys|
  {
    Convergence(buys[i].timestamp, Distinct(buys, buys[i].timestamp - window, buys[i].timestamp), buys[i].price)
  }

  function ConvergenceFrom(buys: seq<BuyEvent>, k: nat, window: int, i: nat): Option<Convergence>
    requires i <= |buys|
    decreases |buys| - i
  {
    if i == |buys| then None
    else if Triggers(buys, k, window, i) then Some(ConvergenceAt(buys, window, i))
    else ConvergenceFrom(buys, k, window, i + 1)
  }

  method DistinctWallets(buys: seq<BuyEvent>, lo: int, hi: int) returns (distinct: seq<Wallet>)
    ensures distinct == Distinct(buys, lo, hi)
  {
    var seen: set<Wallet> := {};
    distinct := [];
    for j := 0 to |buys|
      invariant distinct == Distinct(buys[..j], lo, hi)
      invariant forall x :: x in seen <==> x in distinct
    {
      assert buys[..j + 1][..j] == buys[..j];
      if lo <= buys[j].timestamp <= hi && buys[j].wallet !in seen {
        seen := seen + {buys[j].wallet};
        distinct := distinct + [buys[j].wallet];
      }
    }
    assert buys[..|buys|] == buys;
  }

  lemma ConvergenceHere(buys: seq<BuyEvent>, k: nat, window: int, i: nat, distinct: seq<Wallet>)
    requires i < |buys| && distinct == Distinct(buys, buys[i].timestamp - window, buys[i].timestamp)
    ensures ConvergenceFrom(buys, k, window, i) ==
            if |distinct| >= k then Some(Convergence(buys[i].timestamp, distinct, buys[i].price))
            else ConvergenceFrom(buys, k, window, i + 1)
  {
  }

  method FirstConvergence(buys: seq<BuyEvent>, k: nat, window: int) returns (r: Option<Convergence>)
    ensures r == ConvergenceFrom(buys, k, window, 0)
  {
    for i := 0 to |buys|
      invariant ConvergenceFrom(buys, k, window, 0) == ConvergenceFrom(buys, k, window, i)
    {
      var t := buys[i].timestamp;
      var distinct := DistinctWallets(buys, t - window, t);
      ConvergenceHere(buys, k, window, i, distinct);
      if |distinct| >= k { return Some(Convergence(t, distinct, buys[i].price)); }
    }
    r := None;
  }

  lemma {:induction false} ConvergenceIsFirst(buys: seq<BuyEvent>, k: nat, window: int, i: nat)
    requires i <= |buys| && forall j :: 0 <= j < i ==> !Triggers(buys, k, window, j)
    ensures var r := ConvergenceFrom(buys, k, window, i);
            && (r.None? <==> forall j :: 0 <= j < |buys| ==> !Triggers(buys, k, window, j))
            && (r.Some? ==> exists j: nat ::
                FirstTrigger(buys, k, window, j) && r.value == ConvergenceAt(buys, window, j))
    decreases |buys| - i
  {
    if i >= |buys| {
    } else {
      if Triggers(buys, k, window, i) {
        assert FirstTrigger(buys, k, window, i);
      } else {
        ConvergenceIsFirst(buys, k, window, i + 1);
      }
    }
  }

  // ----- what the signal means -----

  predicate Earlier(a: BuyEvent, b: BuyEvent) {
    a.timestamp < b.timestamp || (a.timestamp == b.timestamp && a.wallet <= b.wallet)
  }

  lemma EarlierIsTotal()
    ensures TotalOrder(Earlier)
  {
  }

  /** At time t, at least k distinct wallets bought in the trailing window. */
  ghost predicate Converged(buys: seq<BuyEvent>, k: nat, window: int, t: int) {
    |WalletsIn(buys, t - window, t)| >= k
  }

  lemma TriggersIsConverged(buys: seq<BuyEvent>, k: nat, window: int, i: nat)
    requires i < |buys|
    ensures Triggers(buys, k, window, i) == Converged(buys, k, window, buys[i].timestamp)
  {
    DistinctIsWalletsIn(buys, buys[i].timestamp - window, buys[i].timestamp);
  }

  lemma SubsetSize(a: set<Wallet>, b: set<Wallet>)
    requires a <= b
    ensures |a| <= |b|
  {
    assert b == a + (b - a);
  }

  lemma {:induction false} LatestBuy(buys: seq<BuyEvent>, lo: int, hi: int) returns (i: nat)
    requires exists j :: 0 <= j < |buys| && lo <= buys[j].timestamp <= hi
    ensures i < |buys| && lo <= buys[i].timestamp <= hi
    ensures forall j :: 0 <= j < |buys| && lo <= buys[j].timestamp <= hi ==> buys[j].timestamp <= buys[i].timestamp
  {
    var n := |buys| - 1;
    if exists j :: 0 <= j < n && lo <= buys[..n][j].timestamp <= hi {
      i := LatestBuy(buys[..n], lo, hi);
      assert forall j :: 0 <= j < n ==> buys[..n][j] == buys[j];
      if lo <= buys[n].timestamp <= hi && buys[n].timestamp > buys[i].timestamp { i := n; }
    } else {
      i := n;
      assert forall j :: 0 <= j < n ==> buys[..n][j] == buys[j];
    }
  }

  /** Whenever the trailing window holds k wallets, some buy no later already completed it. */
  lemma SomeBuyCompletes(buys: seq<BuyEvent>, k: nat, window: int, t: int) returns (i: nat)
    requires k > 0 && Converged(buys, k, window, t)
    ensures i < |buys| && buys[i].timestamp <= t && Triggers(buys, k, window, i)
  {
    var x :| x in WalletsIn(buys, t - window, t);
    i := LatestBuy(buys, t - window, t);
    SubsetSize(WalletsIn(buys, t - window, t), WalletsIn(buys, buys[i].timestamp - window, buys[i].timestamp));
    TriggersIsConverged(buys, k, window, i);
  }

  /** The signal of a side: the earliest instant, among all instants, at which k
      distinct wallets had bought within the trailing window; its wallets are
      exactly those in the window, each once; its price is that of the first buy
      stamped at that instant. No signal exactly when no instant qualifies. */
  lemma SignalIsEarliest(buys: seq<BuyEvent>, k: nat, window: int)
    requires k > 0 && Sorted(Earlier, buys)
    ensures var r := ConvergenceFrom(buys, k, window, 0);
            && (r.None? <==> forall t :: !Converged(buys, k, window, t))
            && (r.Some? ==> IsEarliest(buys, k, window, r.value))
  {
    var r := ConvergenceFrom(buys, k, window, 0);
    ConvergenceIsFirst(buys, k, window, 0);
    if r.None? {
      forall t ensures !Converged(buys, k, window, t) {
        if Converged(buys, k, window, t) { var i := SomeBuyCompletes(buys, k, window, t); }
      }
    } else {
      var j: nat :| FirstTrigger(buys, k, window, j) && r.value == ConvergenceAt(buys, window, j);
      FirstTriggerIsEarliest(buys, k, window, j);
    }
  }

  ghost predicate IsEarliest(buys: seq<BuyEvent>, k: nat, window: int, c: Convergence) {
    && Converged(buys, k, window, c.timestamp)
    && (forall t :: Converged(buys, k, window, t) ==> c.timestamp <= t)
    && NoDup(c.wallets) && SetOf(c.wallets) == WalletsIn(buys, c.timestamp - window, c.timestamp)
    && exists j :: 0 <= j < |buys| && buys[j].timestamp == c.timestamp && buys[j].price == c.triggerPrice
                   && forall i :: 0 <= i < j ==> buys[i].timestamp < c.timestamp
  }

  lemma FirstTriggerIsEarliest(buys: seq<BuyEvent>, k: nat, window: int, j: nat)
    requires k > 0 && Sorted(Earlier, buys) && FirstTrigger(buys, k, window, j)
    ensures IsEarliest(buys, k, window, ConvergenceAt(buys, window, j))
  {
    var t0 := buys[j].timestamp;
    TriggersIsConverged(buys, k, window, j);
    DistinctIsWalletsIn(buys, t0 - window, t0);
    forall t | Converged(buys, k, window, t) ensures t0 <= t {
      var i := SomeBuyCompletes(buys, k, window, t);
      if i < j { assert false; }
      if i > j { assert Earlier(buys[j], buys[i]); }
    }
    forall i | 0 <= i < j ensures buys[i].timestamp < t0 {
      assert Earlier(buys[i], buys[j]);
      assert !Triggers(buys, k, window, i);
    }
  }

  /** With k at most one the signal is the first buy; with k zero the window does not matter. */
  lemma AtMostOneFiresFirst(buys: seq<BuyEvent>, k: nat, window: int)
    requires k == 0 || (k == 1 && window >= 0)
    ensures ConvergenceFrom(buys, k, window, 0) == if buys == [] then None else Some(ConvergenceAt(buys, window, 0))
  {
    if buys != [] {
      var t := buys[0].timestamp;
      DistinctIsWalletsIn(buys, t - window, t);
      if k == 1 {
        assert buys[0].wallet in WalletsIn(buys, t - window, t);
      }
    }
  }

  // ----- monotone in both parameters -----

  lemma WiderOrFewerConverges(buys: seq<BuyEvent>, k: nat, k2: nat, window: int, window2: int, t: int)
    requires k2 <= k && window <= window2 && Converged(buys, k, window, t)
    ensures Converged(buys, k2, window2, t)
  {
    SubsetSize(WalletsIn(buys, t - window, t), WalletsIn(buys, t - window2, t));
  }

  /** Asking for fewer wallets or a wider window never fires later. */
  lemma NeverLater(buys: seq<BuyEvent>, k: nat, k2: nat, window: int, window2: int)
    requires 0 < k2 <= k && window <= window2 && Sorted(Earlier, buys)
    requires ConvergenceFrom(buys, k, window, 0).Some?
    ensures ConvergenceFrom(buys, k2, window2, 0).Some?
    ensures ConvergenceFrom(buys, k2, window2, 0).value.timestamp <= ConvergenceFrom(buys, k, window, 0).value.timestamp
  {
    SignalIsEarliest(buys, k, window);
    SignalIsEarliest(buys, k2, window2);
    WiderOrFewerConverges(buys, k, k2, window, window2, ConvergenceFrom(buys, k, window, 0).value.timestamp);
  }

  // ----- which buy names the price -----

  lemma {:induction false} DistinctPrefix(buys: seq<BuyEvent>, lo: int, hi: int, a: nat)
    requires a <= |buys|
    ensures Distinct(buys[..a], lo, hi) <= Distinct(buys, lo, hi)
  {
    if a < |buys| {
      assert buys[..|buys| - 1][..a] == buys[..a];
      DistinctPrefix(buys[..|buys| - 1], lo, hi, a);
    } else {
      assert buys[..a] == buys;
    }
  }

  lemma {:induction false} DistinctBelow(buys: seq<BuyEvent>, lo: int, hi: int)
    requires forall i :: 0 <= i < |buys| ==> buys[i].timestamp < hi
    ensures Distinct(buys, lo, hi) == Distinct(buys, lo, hi - 1)
  {
    if buys == [] {
    } else {
      DistinctBelow(buys[..|buys| - 1], lo, hi);
    }
  }

  /** The price is the k-th wallet's exactly when the first buy stamped at the
      signal's instant is itself the one that brings the count from k - 1 to k. */
  lemma PriceIsKthWallets(buys: seq<BuyEvent>, k: nat, window: int, j: nat)
    requires k > 0 && Sorted(Earlier, buys) && FirstTrigger(buys, k, window, j)
    ensures var c := ConvergenceAt(buys, window, j);
            var before := Distinct(buys[..j], c.timestamp - window, c.timestamp - 1);
            |c.wallets| >= k && (c.wallets[k - 1] == buys[j].wallet <==> |before| == k - 1 && buys[j].wallet !in before)
  {
    var t0 := buys[j].timestamp;
    var lo := t0 - window;
    var before, all := Distinct(buys[..j], lo, t0 - 1), Distinct(buys, lo, t0);
    FirstTriggerIsEarliest(buys, k, window, j);
    EarlierThanTrigger(buys, k, window, j);
    DistinctBelow(buys[..j], lo, t0);
    DistinctPrefix(buys, lo, t0, j);
    DistinctPrefix(buys, lo, t0, j + 1);
    assert buys[..j + 1][..j] == buys[..j];
    FewerBefore(buys, k, window, j);
    if buys[j].wallet in before {
      var i :| 0 <= i < |before| && before[i] == buys[j].wallet;
      assert all[i] == buys[j].wallet && i != k - 1;
    } else if window >= 0 {
      assert all[|before|] == buys[j].wallet;
    }
  }

  lemma EarlierThanTrigger(buys: seq<BuyEvent>, k: nat, window: int, j: nat)
    requires k > 0 && Sorted(Earlier, buys) && FirstTrigger(buys, k, window, j)
    ensures window >= 0 && forall i :: 0 <= i < j ==> buys[i].timestamp < buys[j].timestamp
  {
    var t0 := buys[j].timestamp;
    TriggersIsConverged(buys, k, window, j);
    var x :| x in WalletsIn(buys, t0 - window, t0);
    forall i | 0 <= i < j ensures buys[i].timestamp < t0 {
      assert Earlier(buys[i], buys[j]) && !Triggers(buys, k, window, i);
    }
  }

  lemma FewerBefore(buys: seq<BuyEvent>, k: nat, window: int, j: nat)
    requires k > 0 && Sorted(Earlier, buys) && FirstTrigger(buys, k, window, j)
    ensures |Distinct(buys[..j], buys[j].timestamp - window, buys[j].timestamp - 1)| < k
  {
    var t0 := buys[j].timestamp;
    var before := WalletsIn(buys[..j], t0 - window, t0 - 1);
    DistinctIsWalletsIn(buys[..j], t0 - window, t0 - 1);
    FirstTriggerIsEarliest(buys, k, window, j);
    if |before| >= k {
      forall x | x in before ensures x in WalletsIn(buys, t0 - 1 - window, t0 - 1) {
        var i :| 0 <= i < j && t0 - window <= buys[..j][i].timestamp <= t0 - 1 && buys[..j][i].wallet == x;
        assert buys[i].wallet == x;
      }
      SubsetSize(before, WalletsIn(buys, t0 - 1 - window, t0 - 1));
      assert Converged(buys, k, window, t0 - 1);
      assert false;
    }
  }

  /** No two buys share an instant. */
  ghost predicate DistinctTimes(buys: seq<BuyEvent>) {
    forall i, j :: 0 <= i < j < |buys| ==> buys[i].timestamp != buys[j].timestamp
  }

  lemma {:induction false} LaterBuysDrop(buys: seq<BuyEvent>, lo: int, hi: int, a: nat)
    requires a <= |buys| && forall i :: a <= i < |buys| ==> buys[i].timestamp > hi
    ensures Distinct(buys, lo, hi) == Distinct(buys[..a], lo, hi)
  {
    if a == |buys| {
      assert buys[..a] == buys;
    } else {
      var n := |buys| - 1;
      LaterBuysDrop(buys[..n], lo, hi, a);
      assert buys[..n][..a] == buys[..a];
    }
  }

  lemma LoneTrigger(buys: seq<BuyEvent>, k: nat, window: int, j: nat)
    requires k > 0 && Sorted(Earlier, buys) && DistinctTimes(buys) && FirstTrigger(buys, k, window, j)
    ensures |ConvergenceAt(buys, window, j).wallets| == k &&
        ConvergenceAt(buys, window, j).wallets[k - 1] == buys[j].wallet
  {
    var t0 := buys[j].timestamp;
    var lo := t0 - window;
    EarlierThanTrigger(buys, k, window, j);
    FewerBefore(buys, k, window, j);
    DistinctBelow(buys[..j], lo, t0);
    forall i | j < i < |buys| ensures buys[i].timestamp > t0 { assert Earlier(buys[j], buys[i]); }
    LaterBuysDrop(buys, lo, t0, j + 1);
    assert buys[..j + 1][..j] == buys[..j];
  }

  /** When no two buys share an instant the documentation holds: exactly k wallets,
      and the price is that of the k-th wallet's own buy. */
  lemma PriceIsKthWhenTimesDiffer(buys: seq<BuyEvent>, k: nat, window: int)
    requires k > 0 && Sorted(Earlier, buys) && DistinctTimes(buys) && ConvergenceFrom(buys, k, window, 0).Some?
    ensures var c := ConvergenceFrom(buys, k, window, 0).value;
            && |c.wallets| == k
            && exists j :: 0 <= j < |buys| && buys[j] == BuyEvent(c.timestamp, c.wallets[k - 1], c.triggerPrice)
  {
    ConvergenceIsFirst(buys, k, window, 0);
    var j: nat :| FirstTrigger(buys, k, window, j) && ConvergenceFrom(buys, k, window, 0).value ==
        ConvergenceAt(buys, window, j);
    LoneTrigger(buys, k, window, j);
    assert buys[j] == BuyEvent(buys[j].timestamp, buys[j].wallet, buys[j].price);
  }

  /** Two wallets buying in the same second: the documentation speaks of the k-th
      buy's price, the code returns the first one's. */
  lemma TiedTriggerPrice(p: Price, q: Price)
    ensures ConvergenceFrom([BuyEvent(0, 1, p), BuyEvent(0, 2, q)], 2, 60, 0) == Some(Convergence(0, [1, 2], p))
  {
    var buys := [BuyEvent(0, 1, p), BuyEvent(0, 2, q)];
    assert buys[..1] == [BuyEvent(0, 1, p)];
    assert buys[..1][..0] == [];
    assert Distinct(buys[..1], -60, 0) == [1];
    assert Distinct(buys, -60, 0) == [1, 2];
  }

  // ----- all market sides -----

  function BuysOf(trades: seq<Trade>, wallet: Wallet, cutoff: int, key: Key): seq<BuyEvent> {
    if trades == [] then []
    else
      var before, t := BuysOf(trades[..|trades| - 1], wallet, cutoff, key), trades[|trades| - 1];
      if t.buy && t.timestamp >= cutoff && t.key == key
      then before + [BuyEvent(t.timestamp, wallet, t.price)] else before
  }

  function TradesOf(trades: map<Wallet, seq<Trade>>, wallet: Wallet): seq<Trade> {
    if wallet in trades then trades[wallet] else []
  }

  /** Eligible buys of one side, in whitelist order and then tape order. */
  function SideBuys(whitelist: seq<Wallet>, trades: map<Wallet, seq<Trade>>, cutoff: int, key: Key): seq<BuyEvent> {
    if whitelist == [] then []
    else
      var w := whitelist[|whitelist| - 1];
      SideBuys(whitelist[..|whitelist| - 1], trades, cutoff, key) + BuysOf(TradesOf(trades, w), w, cutoff, key)
  }

  function SignalFor(whitelist: seq<Wallet>, trades: map<Wallet, seq<Trade>>, k: nat, window: int, cutoff: int,
                     key: Key)
    : Option<Convergence>
  {
    ConvergenceFrom(Sort(Earlier, SideBuys(whitelist, trades, cutoff, key)), k, window, 0)
  }

  predicate SignalBefore(a: FollowSignal, b: FollowSignal) {
    if a.at.timestamp != b.at.timestamp then a.at.timestamp < b.at.timestamp
    else if a.key.condition != b.key.condition then a.key.condition < b.key.condition
    else a.key.outcome <= b.key.outcome
  }

  type Groups = map<Key, seq<BuyEvent>>

  function GroupOf(groups: Groups, key: Key): seq<BuyEvent> {
    if key in groups then groups[key] else []
  }

  ghost predicate Grouped(groups: Groups, whitelist: seq<Wallet>, trades: map<Wallet, seq<Trade>>, cutoff: int) {
    forall key :: GroupOf(groups, key) == SideBuys(whitelist, trades, cutoff, key)
  }

  lemma GroupNext(before: Groups, after: Groups, whitelist: seq<Wallet>, w: Wallet, trades: map<Wallet, seq<Trade>>,
                  cutoff: int)
    requires Grouped(before, whitelist, trades, cutoff)
    requires forall key :: GroupOf(after, key) == GroupOf(before, key) + BuysOf(TradesOf(trades, w), w, cutoff, key)
    ensures Grouped(after, whitelist + [w], trades, cutoff)
  {
    assert (whitelist + [w])[..|whitelist|] == whitelist;
    forall key ensures GroupOf(after, key) == SideBuys(whitelist + [w], trades, cutoff, key) {
      assert GroupOf(before, key) == SideBuys(whitelist, trades, cutoff, key);
    }
  }

  method GroupBuys(whitelist: seq<Wallet>, trades: map<Wallet, seq<Trade>>, cutoff: int) returns (groups: Groups)
    ensures Grouped(groups, whitelist, trades, cutoff)
  {
    groups := map[];
    for i := 0 to |whitelist|
      invariant Grouped(groups, whitelist[..i], trades, cutoff)
    {
      var w, next := whitelist[i], groups;
      if w in trades {
        next := AddTrades(groups, trades[w], w, cutoff);
      } else {
        assert forall key :: GroupOf(groups, key) + [] == GroupOf(groups, key);
      }
      GroupNext(groups, next, whitelist[..i], w, trades, cutoff);
      assert whitelist[..i + 1] == whitelist[..i] + [w];
      groups := next;
    }
    assert whitelist[..|whitelist|] == whitelist;
  }

  lemma BuysNext(tape: seq<Trade>, i: nat, wallet: Wallet, cutoff: int, key: Key)
    requires i < |tape|
    ensures var before, t := BuysOf(tape[..i], wallet, cutoff, key), tape[i];
            BuysOf(tape[..i + 1], wallet, cutoff, key) ==
            if t.buy && t.timestamp >= cutoff && t.key == key
                then before + [BuyEvent(t.timestamp, wallet, t.price)] else before
  {
    assert tape[..i + 1][..i] == tape[..i];
  }

  lemma AppendLast<T>(a: seq<T>, b: seq<T>, x: T)
    ensures a + (b + [x]) == a + b + [x]
  {
  }

  method AddTrades(start: Groups, tape: seq<Trade>, wallet: Wallet, cutoff: int) returns (groups: Groups)
    ensures forall key :: GroupOf(groups, key) == GroupOf(start, key) + BuysOf(tape, wallet, cutoff, key)
  {
    groups := start;
    for i := 0 to |tape|
      invariant forall key :: GroupOf(groups, key) == GroupOf(start, key) + BuysOf(tape[..i], wallet, cutoff, key)
    {
      var t, next := tape[i], groups;
      if t.buy && t.timestamp >= cutoff {
        next := groups[t.key := GroupOf(groups, t.key) + [BuyEvent(t.timestamp, wallet, t.price)]];
      }
      forall key ensures GroupOf(next, key) == GroupOf(start, key) + BuysOf(tape[..i + 1], wallet, cutoff, key) {
        BuysNext(tape, i, wallet, cutoff, key);
        AppendLast(GroupOf(start, key), BuysOf(tape[..i], wallet, cutoff, key), BuyEvent(t.timestamp, wallet, t.price));
      }
      groups := next;
    }
    assert tape[..|tape|] == tape;
  }

  // ----- no look-ahead -----

  function UpTo(last: int): BuyEvent -> bool {
    (b: BuyEvent) => b.timestamp <= last
  }

  function TradedBy(last: int): Trade -> bool {
    (t: Trade) => t.timestamp <= last
  }

  lemma {:induction false} BuysUpTo(trades: seq<Trade>, wallet: Wallet, cutoff: int, key: Key, last: int)
    ensures Filter(BuysOf(trades, wallet, cutoff, key), UpTo(last)) ==
        BuysOf(Filter(trades, TradedBy(last)), wallet, cutoff, key)
  {
    if trades == [] {
    } else {
      var n := |trades| - 1;
      BuysUpTo(trades[..n], wallet, cutoff, key, last);
      var kept := Filter(trades[..n], TradedBy(last));
      assert kept + [] == kept;
      assert (kept + [trades[n]])[..|kept|] == kept;
      FilterSnoc(BuysOf(trades[..n], wallet, cutoff, key), BuyEvent(trades[n].timestamp, wallet, trades[n].price),
          UpTo(last));
    }
  }

  /** Two tapes that agree on everything stamped at or before last. */
  ghost predicate AgreeUpTo(whitelist: seq<Wallet>, a: map<Wallet, seq<Trade>>, b: map<Wallet, seq<Trade>>, last: int) {
    forall w :: w in whitelist ==> Filter(TradesOf(a, w), TradedBy(last)) == Filter(TradesOf(b, w), TradedBy(last))
  }

  lemma {:induction false} SideBuysUpTo(whitelist: seq<Wallet>, a: map<Wallet, seq<Trade>>, b: map<Wallet, seq<Trade>>,
                                        cutoff: int, key: Key, last: int)
    requires AgreeUpTo(whitelist, a, b, last)
    ensures Filter(SideBuys(whitelist, a, cutoff, key), UpTo(last)) ==
        Filter(SideBuys(whitelist, b, cutoff, key), UpTo(last))
  {
    if whitelist == [] {
    } else {
      var n := |whitelist| - 1;
      var w := whitelist[n];
      SideBuysUpTo(whitelist[..n], a, b, cutoff, key, last);
      BuysUpTo(TradesOf(a, w), w, cutoff, key, last);
      BuysUpTo(TradesOf(b, w), w, cutoff, key, last);
      FilterConcat(SideBuys(whitelist[..n], a, cutoff, key), BuysOf(TradesOf(a, w), w, cutoff, key), UpTo(last));
      FilterConcat(SideBuys(whitelist[..n], b, cutoff, key), BuysOf(TradesOf(b, w), w, cutoff, key), UpTo(last));
    }
  }

  lemma {:induction false} DistinctUpTo(buys: seq<BuyEvent>, lo: int, hi: int, last: int)
    requires hi <= last
    ensures Distinct(Filter(buys, UpTo(last)), lo, hi) == Distinct(buys, lo, hi)
  {
    if buys == [] {
    } else {
      var n := |buys| - 1;
      DistinctUpTo(buys[..n], lo, hi, last);
      var kept := Filter(buys[..n], UpTo(last));
      assert kept + [] == kept;
      assert (kept + [buys[n]])[..|kept|] == kept;
    }
  }

  /** In time order, what is stamped by a time is a prefix. */
  lemma {:induction false} UpToIsPrefix(buys: seq<BuyEvent>, last: int)
    requires Sorted(Earlier, buys)
    ensures Filter(buys, UpTo(last)) <= buys
    ensures forall i :: |Filter(buys, UpTo(last))| <= i < |buys| ==> buys[i].timestamp > last
  {
    if buys == [] {
    } else {
      var n := |buys| - 1;
      if buys[n].timestamp <= last {
        forall i | 0 <= i < n ensures buys[i].timestamp <= last { assert Earlier(buys[i], buys[n]); }
        FilterAll(buys, UpTo(last));
      } else {
        UpToIsPrefix(buys[..n], last);
        assert Filter(buys[..n], UpTo(last)) + [] == Filter(buys[..n], UpTo(last));
      }
    }
  }

  lemma FirstTriggerDecides(buys: seq<BuyEvent>, k: nat, window: int, j: nat)
    requires FirstTrigger(buys, k, window, j)
    ensures ConvergenceFrom(buys, k, window, 0) == Some(ConvergenceAt(buys, window, j))
  {
    ConvergenceIsFirst(buys, k, window, 0);
    var i: nat :| FirstTrigger(buys, k, window, i) && ConvergenceFrom(buys, k, window, 0).value ==
        ConvergenceAt(buys, window, i);
    assert i == j;
  }

  lemma SameConvergence(a: seq<BuyEvent>, b: seq<BuyEvent>, window: int, last: int, i: nat)
    requires Filter(a, UpTo(last)) == Filter(b, UpTo(last)) && i < |Filter(a, UpTo(last))|
    requires Filter(a, UpTo(last)) <= a && Filter(b, UpTo(last)) <= b
    ensures i < |a| && i < |b| && ConvergenceAt(a, window, i) == ConvergenceAt(b, window, i)
  {
    var kept := Filter(a, UpTo(last));
    assert a[i] == kept[i] == b[i];
    FilterMembers(a, UpTo(last), kept[i]);
    var t := a[i].timestamp;
    DistinctUpTo(a, t - window, t, last);
    DistinctUpTo(b, t - window, t, last);
  }

  lemma SortedIsCausal(a: seq<BuyEvent>, b: seq<BuyEvent>, k: nat, window: int, last: int)
    requires Sorted(Earlier, a) && Sorted(Earlier, b) && Filter(a, UpTo(last)) == Filter(b, UpTo(last))
    requires ConvergenceFrom(a, k, window, 0).Some? && ConvergenceFrom(a, k, window, 0).value.timestamp <= last
    ensures ConvergenceFrom(b, k, window, 0) == ConvergenceFrom(a, k, window, 0)
  {
    UpToIsPrefix(a, last);
    UpToIsPrefix(b, last);
    var kept := Filter(a, UpTo(last));
    ConvergenceIsFirst(a, k, window, 0);
    var j: nat :| FirstTrigger(a, k, window, j) && ConvergenceFrom(a, k, window, 0).value ==
        ConvergenceAt(a, window, j);
    assert j < |kept|;
    forall i | 0 <= i <= j
      ensures i < |b| && ConvergenceAt(a, window, i) == ConvergenceAt(b, window, i)
      ensures Triggers(a, k, window, i) == Triggers(b, k, window, i)
    {
      SameConvergence(a, b, window, last, i);
    }
    assert FirstTrigger(b, k, window, j);
    FirstTriggerDecides(b, k, window, j);
  }

  /** Trades stamped after last change no signal stamped by then: not its time,
      its wallets or its price, and none appears or disappears. */
  lemma NoLookAhead(whitelist: seq<Wallet>, a: map<Wallet, seq<Trade>>, b: map<Wallet, seq<Trade>>, k: nat, window: int,
                    cutoff: int, last: int, key: Key, at: Convergence)
    requires AgreeUpTo(whitelist, a, b, last) && at.timestamp <= last
    ensures SignalFor(whitelist, a, k, window, cutoff, key) == Some(at) <==>
        SignalFor(whitelist, b, k, window, cutoff, key) == Some(at)
  {
    var x, y := SideBuys(whitelist, a, cutoff, key), SideBuys(whitelist, b, cutoff, key);
    SideBuysUpTo(whitelist, a, b, cutoff, key, last);
    EarlierIsTotal();
    SortFilter(Earlier, UpTo(last), x);
    SortFilter(Earlier, UpTo(last), y);
    SortSorts(Earlier, x);
    SortSorts(Earlier, y);
    if SignalFor(whitelist, a, k, window, cutoff, key) == Some(at) {
      SortedIsCausal(Sort(Earlier, x), Sort(Earlier, y), k, window, last);
    }
    if SignalFor(whitelist, b, k, window, cutoff, key) == Some(at) {
      SortedIsCausal(Sort(Earlier, y), Sort(Earlier, x), k, window, last);
    }
  }
}
