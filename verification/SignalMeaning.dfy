/** What a follow signal means, said of the whitelist and the tapes alone: no
    grouping, no sorting, no search. */
module SignalMeaning {
  import opened Wrappers
  import opened Sequences
  import opened Sorting
  import opened Signals

  /** Trade i of w is an eligible buy of this side stamped within [lo, hi]. */
  ghost predicate Eligible(trades: map<Wallet, seq<Trade>>, key: Key, cutoff: int, w: Wallet, i: int, lo: int,
                           hi: int) {
    && w in trades && 0 <= i < |trades[w]|
    && trades[w][i].buy && trades[w][i].key == key && trades[w][i].timestamp >= cutoff
    && lo <= trades[w][i].timestamp <= hi
  }

  ghost predicate BoughtWithin(trades: map<Wallet, seq<Trade>>, key: Key, cutoff: int, w: Wallet, lo: int, hi: int) {
    exists i :: Eligible(trades, key, cutoff, w, i, lo, hi)
  }

  /** Whitelisted wallets with an eligible buy in the window that ends at t. */
  ghost function Buyers(whitelist: seq<Wallet>, trades: map<Wallet, seq<Trade>>, key: Key, cutoff: int, window: int,
                        t: int): set<Wallet> {
    set w | w in whitelist && BoughtWithin(trades, key, cutoff, w, t - window, t)
  }

  // ----- eligible buys and the events made of them -----

  lemma {:induction false} TapeBuys(tape: seq<Trade>, wallet: Wallet, cutoff: int, key: Key, b: BuyEvent)
    ensures b in BuysOf(tape, wallet, cutoff, key) <==>
            exists i :: 0 <= i < |tape| && tape[i].buy && tape[i].key == key && tape[i].timestamp >= cutoff
                        && b == BuyEvent(tape[i].timestamp, wallet, tape[i].price)
  {
    if tape == [] {
    } else {
      var n := |tape| - 1;
      TapeBuys(tape[..n], wallet, cutoff, key, b);
      forall i | 0 <= i < n ensures tape[..n][i] == tape[i] {}
    }
  }

  /** b is trade i of w. */
  ghost predicate IsTrade(trades: map<Wallet, seq<Trade>>, key: Key, cutoff: int, b: BuyEvent, i: int) {
    && Eligible(trades, key, cutoff, b.wallet, i, b.timestamp, b.timestamp)
    && trades[b.wallet][i].price == b.price
  }

  lemma WalletBuys(trades: map<Wallet, seq<Trade>>, w: Wallet, cutoff: int, key: Key, b: BuyEvent)
    ensures b in BuysOf(TradesOf(trades, w), w, cutoff, key) <==>
            b.wallet == w && exists i :: IsTrade(trades, key, cutoff, b, i)
  {
    var tape := TradesOf(trades, w);
    TapeBuys(tape, w, cutoff, key, b);
    if b in BuysOf(tape, w, cutoff, key) {
      var i :| 0 <= i < |tape| && tape[i].buy && tape[i].key == key && tape[i].timestamp >= cutoff
               && b == BuyEvent(tape[i].timestamp, w, tape[i].price);
      assert IsTrade(trades, key, cutoff, b, i);
    }
    if b.wallet == w && exists i :: IsTrade(trades, key, cutoff, b, i) {
      var i :| IsTrade(trades, key, cutoff, b, i);
      assert tape[i].buy && b == BuyEvent(tape[i].timestamp, w, tape[i].price);
    }
  }

  lemma {:induction false} SideBuysAre(whitelist: seq<Wallet>, trades: map<Wallet, seq<Trade>>, cutoff: int, key: Key,
                                       b: BuyEvent)
    ensures b in SideBuys(whitelist, trades, cutoff, key) <==>
            b.wallet in whitelist && exists i :: IsTrade(trades, key, cutoff, b, i)
  {
    if whitelist == [] {
    } else {
      var n := |whitelist| - 1;
      SideBuysAre(whitelist[..n], trades, cutoff, key, b);
      WalletBuys(trades, whitelist[n], cutoff, key, b);
      assert b.wallet in whitelist <==> b.wallet in whitelist[..n] || b.wallet == whitelist[n];
    }
  }

  /** The events of one side in the order they are searched. */
  ghost function Searched(whitelist: seq<Wallet>, trades: map<Wallet, seq<Trade>>, cutoff: int, key: Key)
      : seq<BuyEvent>
  {
    Sort(Earlier, SideBuys(whitelist, trades, cutoff, key))
  }

  lemma SearchedAre(whitelist: seq<Wallet>, trades: map<Wallet, seq<Trade>>, cutoff: int, key: Key, b: BuyEvent)
    ensures b in Searched(whitelist, trades, cutoff, key) <==>
            b.wallet in whitelist && exists i :: IsTrade(trades, key, cutoff, b, i)
  {
    SortMembers(Earlier, SideBuys(whitelist, trades, cutoff, key), b);
    SideBuysAre(whitelist, trades, cutoff, key, b);
  }

  /** The wallets of a window of events are the buyers of that window of the tapes. */
  lemma SearchedWallets(whitelist: seq<Wallet>, trades: map<Wallet, seq<Trade>>, cutoff: int, key: Key, window: int,
                        t: int)
    ensures WalletsIn(Searched(whitelist, trades, cutoff, key), t - window, t) ==
            Buyers(whitelist, trades, key, cutoff, window, t)
  {
    var events, lo := Searched(whitelist, trades, cutoff, key), t - window;
    forall w | w in WalletsIn(events, lo, t) ensures w in Buyers(whitelist, trades, key, cutoff, window, t) {
      var j :| 0 <= j < |events| && lo <= events[j].timestamp <= t && events[j].wallet == w;
      SearchedAre(whitelist, trades, cutoff, key, events[j]);
      var i :| IsTrade(trades, key, cutoff, events[j], i);
      assert Eligible(trades, key, cutoff, w, i, lo, t);
    }
    forall w | w in Buyers(whitelist, trades, key, cutoff, window, t) ensures w in WalletsIn(events, lo, t) {
      var i :| Eligible(trades, key, cutoff, w, i, lo, t);
      var b := BuyEvent(trades[w][i].timestamp, w, trades[w][i].price);
      assert IsTrade(trades, key, cutoff, b, i);
      SearchedAre(whitelist, trades, cutoff, key, b);
      var j :| 0 <= j < |events| && events[j] == b;
    }
  }

  // ----- the meaning -----

  /** At t, at least k distinct whitelisted wallets had bought this side within the window. */
  ghost predicate DueBy(whitelist: seq<Wallet>, trades: map<Wallet, seq<Trade>>, k: nat, window: int, cutoff: int,
                        key: Key, t: int) {
    |Buyers(whitelist, trades, key, cutoff, window, t)| >= k
  }

  /** at is stamped at the earliest such instant, names exactly the wallets of that
      window, each once, and its price is the least such wallet's at that instant. */
  ghost predicate IsDue(whitelist: seq<Wallet>, trades: map<Wallet, seq<Trade>>, k: nat, window: int, cutoff: int,
                        key: Key, at: Convergence) {
    && DueBy(whitelist, trades, k, window, cutoff, key, at.timestamp)
    && (forall t :: t < at.timestamp ==> !DueBy(whitelist, trades, k, window, cutoff, key, t))
    && NoDup(at.wallets) && SetOf(at.wallets) == Buyers(whitelist, trades, key, cutoff, window, at.timestamp)
    && PricedAt(whitelist, trades, cutoff, key, at.timestamp, at.triggerPrice)
  }

  /** Some buy at t has this price, and its wallet is the least of those that bought at t. */
  ghost predicate PricedAt(whitelist: seq<Wallet>, trades: map<Wallet, seq<Trade>>, cutoff: int, key: Key, t: int,
                           price: Price) {
    exists w, i ::
      && w in whitelist && IsTrade(trades, key, cutoff, BuyEvent(t, w, price), i)
      && forall v :: v in whitelist && BoughtWithin(trades, key, cutoff, v, t, t) ==> w <= v
  }

  lemma PriceIsLeastWallets(whitelist: seq<Wallet>, trades: map<Wallet, seq<Trade>>, cutoff: int, key: Key, j: nat)
    requires var events := Searched(whitelist, trades, cutoff, key);
             && j < |events| && Sorted(Earlier, events)
             && forall i :: 0 <= i < j ==> events[i].timestamp < events[j].timestamp
    ensures var b := Searched(whitelist, trades, cutoff, key)[j];
            PricedAt(whitelist, trades, cutoff, key, b.timestamp, b.price)
  {
    var events := Searched(whitelist, trades, cutoff, key);
    var b := events[j];
    SearchedAre(whitelist, trades, cutoff, key, b);
    var i :| IsTrade(trades, key, cutoff, b, i);
    forall v | v in whitelist && BoughtWithin(trades, key, cutoff, v, b.timestamp, b.timestamp) ensures b.wallet <= v {
      var n :| Eligible(trades, key, cutoff, v, n, b.timestamp, b.timestamp);
      var other := BuyEvent(b.timestamp, v, trades[v][n].price);
      assert IsTrade(trades, key, cutoff, other, n);
      SearchedAre(whitelist, trades, cutoff, key, other);
      var m :| 0 <= m < |events| && events[m] == other;
      if j < m { assert Earlier(events[j], events[m]); }
    }
    assert b == BuyEvent(b.timestamp, b.wallet, b.price);
  }

  /** A side signals exactly when some instant is due, and then as it is due. */
  lemma SignalMeans(whitelist: seq<Wallet>, trades: map<Wallet, seq<Trade>>, k: nat, window: int, cutoff: int, key: Key)
    requires k > 0
    ensures var r := SignalFor(whitelist, trades, k, window, cutoff, key);
            && (r.None? <==> forall t :: !DueBy(whitelist, trades, k, window, cutoff, key, t))
            && (r.Some? ==> IsDue(whitelist, trades, k, window, cutoff, key, r.value))
  {
    var events := Searched(whitelist, trades, cutoff, key);
    EarlierIsTotal();
    SortSorts(Earlier, SideBuys(whitelist, trades, cutoff, key));
    SignalIsEarliest(events, k, window);
    forall t
      ensures Converged(events, k, window, t) <==> DueBy(whitelist, trades, k, window, cutoff, key, t)
    {
      SearchedWallets(whitelist, trades, cutoff, key, window, t);
    }
    var r := SignalFor(whitelist, trades, k, window, cutoff, key);
    if r.Some? {
      var c := r.value;
      assert IsEarliest(events, k, window, c);
      SearchedWallets(whitelist, trades, cutoff, key, window, c.timestamp);
      var j: nat :| j < |events| && events[j].timestamp == c.timestamp && events[j].price == c.triggerPrice
                    && forall i :: 0 <= i < j ==> events[i].timestamp < c.timestamp;
      PriceIsLeastWallets(whitelist, trades, cutoff, key, j);
    }
  }

  ghost predicate Signalled(signals: seq<FollowSignal>, key: Key) {
    exists at :: FollowSignal(key, at) in signals
  }

  ghost predicate EverDue(whitelist: seq<Wallet>, trades: map<Wallet, seq<Trade>>, k: nat, window: int, cutoff: int,
                          key: Key) {
    exists t :: DueBy(whitelist, trades, k, window, cutoff, key, t)
  }

  /** Exactly the due signals: each as it is due, one for every side that ever is and none for the others. */
  ghost predicate AllDue(whitelist: seq<Wallet>, trades: map<Wallet, seq<Trade>>, k: nat, window: int, cutoff: int,
                         signals: seq<FollowSignal>) {
    && (forall s :: s in signals ==> IsDue(whitelist, trades, k, window, cutoff, s.key, s.at))
    && (forall key :: Signalled(signals, key) <==> EverDue(whitelist, trades, k, window, cutoff, key))
    && (forall s, t :: s in signals && t in signals && s.key == t.key ==> s == t)
  }

  lemma ReturnedAreDue(whitelist: seq<Wallet>, trades: map<Wallet, seq<Trade>>, k: nat, window: int, cutoff: int,
                       signals: seq<FollowSignal>)
    requires k > 0
    requires forall key, at :: FollowSignal(key, at) in signals <==>
               SignalFor(whitelist, trades, k, window, cutoff, key) == Some(at)
    ensures AllDue(whitelist, trades, k, window, cutoff, signals)
  {
    forall s | s in signals ensures IsDue(whitelist, trades, k, window, cutoff, s.key, s.at) {
      assert FollowSignal(s.key, s.at) in signals;
      SignalMeans(whitelist, trades, k, window, cutoff, s.key);
    }
    forall key: Key ensures Signalled(signals, key) <==> EverDue(whitelist, trades, k, window, cutoff, key) {
      SignalMeans(whitelist, trades, k, window, cutoff, key);
      var r := SignalFor(whitelist, trades, k, window, cutoff, key);
      if r.Some? { assert FollowSignal(key, r.value) in signals; }
    }
    forall s, t | s in signals && t in signals && s.key == t.key ensures s == t {
      assert FollowSignal(s.key, s.at) in signals && FollowSignal(t.key, t.at) in signals;
    }
  }

  /** One signal per side that converges, in order of time, market and outcome. */
  method SignalsAfter(whitelist: seq<Wallet>, trades: map<Wallet, seq<Trade>>, k: nat, window: int, cutoff: int)
    returns (signals: seq<FollowSignal>)
    ensures forall key, at :: FollowSignal(key, at) in signals <==>
        SignalFor(whitelist, trades, k, window, cutoff, key) == Some(at)
    ensures k > 0 ==> AllDue(whitelist, trades, k, window, cutoff, signals)
    ensures NoDup(signals) && Sorted(SignalBefore, signals)
  {
    var groups := GroupBuys(whitelist, trades, cutoff);
    var found: seq<FollowSignal> := [];
    var todo := groups.Keys;
    while todo != {}
      invariant todo <= groups.Keys
      invariant forall key, at :: FollowSignal(key, at) in found <==>
        key in groups && key !in todo && SignalFor(whitelist, trades, k, window, cutoff, key) == Some(at)
      invariant NoDup(found)
      decreases todo
    {
      var key :| key in todo;
      assert GroupOf(groups, key) == groups[key];
      var at := FirstConvergence(Sort(Earlier, groups[key]), k, window);
      if at.Some? { found := found + [FollowSignal(key, at.value)]; }
      todo := todo - {key};
    }
    signals := Sort(SignalBefore, found);
    forall s ensures s in signals <==> s in found { SortMembers(SignalBefore, found, s); }
    SortNoDup(SignalBefore, found);
    SortSorts(SignalBefore, found);
    if k > 0 { ReturnedAreDue(whitelist, trades, k, window, cutoff, signals); }
  }
}
