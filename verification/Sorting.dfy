/** Stable sorting, as an insertion sort on values: what the standard library's
    stable sort returns for a total order. */
module Sorting {
  import opened Sequences

  ghost predicate TotalOrder<T(!new)>(leq: (T, T) -> bool) {
    && (forall x, y :: leq(x, y) || leq(y, x))
    && (forall x, y, z :: leq(x, y) && leq(y, z) ==> leq(x, z))
  }

  ghost predicate Sorted<T(!new)>(leq: (T, T) -> bool, s: seq<T>) {
    Pairwise(s, leq)
  }

  /** After everything that is no greater. */
  function Insert<T>(leq: (T, T) -> bool, s: seq<T>, x: T): seq<T> {
    if s == [] then [x]
    else if leq(s[0], x) then [s[0]] + Insert(leq, s[1..], x)
    else [x] + s
  }

  function Sort<T>(leq: (T, T) -> bool, s: seq<T>): seq<T> {
    if s == [] then [] else Insert(leq, Sort(leq, s[..|s| - 1]), s[|s| - 1])
  }

  lemma {:induction false} InsertKeeps<T>(leq: (T, T) -> bool, s: seq<T>, x: T)
    ensures multiset(Insert(leq, s, x)) == multiset(s) + multiset{x}
  {
    if s == [] {
    } else {
      assert s == [s[0]] + s[1..];
      if leq(s[0], x) { InsertKeeps(leq, s[1..], x); }
    }
  }

  lemma {:induction false} SortKeeps<T>(leq: (T, T) -> bool, s: seq<T>)
    ensures multiset(Sort(leq, s)) == multiset(s)
  {
    if s == [] {
    } else {
      var n := |s| - 1;
      assert s == s[..n] + [s[n]];
      SortKeeps(leq, s[..n]);
      InsertKeeps(leq, Sort(leq, s[..n]), s[n]);
    }
  }

  lemma SortMembers<T>(leq: (T, T) -> bool, s: seq<T>, x: T)
    ensures x in Sort(leq, s) <==> x in s
  {
    SortKeeps(leq, s);
    assert x in s <==> x in multiset(s);
    assert x in Sort(leq, s) <==> x in multiset(Sort(leq, s));
  }

  lemma {:induction false} InsertNoDup<T(!new)>(leq: (T, T) -> bool, s: seq<T>, x: T)
    requires NoDup(s) && x !in s
    ensures NoDup(Insert(leq, s, x))
  {
    if s == [] || !leq(s[0], x) {
    } else {
      InsertNoDup(leq, s[1..], x);
      InsertMembers(leq, s[1..], x, s[0]);
    }
  }

  lemma {:induction false} SortNoDup<T(!new)>(leq: (T, T) -> bool, s: seq<T>)
    requires NoDup(s)
    ensures NoDup(Sort(leq, s))
  {
    if s == [] {
    } else {
      var n := |s| - 1;
      SortNoDup(leq, s[..n]);
      SortMembers(leq, s[..n], s[n]);
      InsertNoDup(leq, Sort(leq, s[..n]), s[n]);
    }
  }

  lemma InsertMembers<T>(leq: (T, T) -> bool, s: seq<T>, x: T, y: T)
    ensures y in Insert(leq, s, x) <==> y == x || y in s
  {
    InsertKeeps(leq, s, x);
    assert y in s <==> y in multiset(s);
    assert y in Insert(leq, s, x) <==> y in multiset(Insert(leq, s, x));
  }

  lemma {:induction false} InsertSorted<T(!new)>(leq: (T, T) -> bool, s: seq<T>, x: T)
    requires TotalOrder(leq) && Sorted(leq, s)
    ensures Sorted(leq, Insert(leq, s, x))
  {
    if s == [] {
    } else {
      if leq(s[0], x) {
        var rest := Insert(leq, s[1..], x);
        InsertSorted(leq, s[1..], x);
        forall i | 0 <= i < |rest| ensures leq(s[0], rest[i]) { InsertMembers(leq, s[1..], x, rest[i]); }
      } else {
        forall i | 0 <= i < |s| ensures leq(x, s[i]) {
          if i > 0 { assert leq(s[0], s[i]); }
        }
      }
    }
  }

  lemma {:induction false} SortSorts<T(!new)>(leq: (T, T) -> bool, s: seq<T>)
    requires TotalOrder(leq)
    ensures Sorted(leq, Sort(leq, s))
  {
    if s == [] {
    } else {
      SortSorts(leq, s[..|s| - 1]);
      InsertSorted(leq, Sort(leq, s[..|s| - 1]), s[|s| - 1]);
    }
  }

  lemma HeadIsLeast<T(!new)>(leq: (T, T) -> bool, a: seq<T>, b: seq<T>)
    requires TotalOrder(leq) && Sorted(leq, a) && a != [] && b != [] && b[0] in multiset(a)
    ensures leq(a[0], b[0])
  {
    assert b[0] in a;
    assert leq(a[0], a[0]);
  }

  lemma TailMultiset<T>(a: seq<T>)
    requires a != []
    ensures multiset(a[1..]) == multiset(a) - multiset{a[0]}
  {
    assert a == [a[0]] + a[1..];
  }

  lemma SameHead<T(!new)>(leq: (T, T) -> bool, a: seq<T>, b: seq<T>)
    requires TotalOrder(leq) && Sorted(leq, a) && Sorted(leq, b) && multiset(a) == multiset(b) && a != []
    requires forall x, y :: leq(x, y) && leq(y, x) ==> x == y
    ensures b != [] && a[0] == b[0]
  {
    assert a[0] in multiset(b);
    assert b[0] in multiset(a);
    HeadIsLeast(leq, a, b);
    HeadIsLeast(leq, b, a);
  }

  lemma SameTails<T>(a: seq<T>, b: seq<T>)
    requires a != [] && b != [] && a[0] == b[0] && a[1..] == b[1..]
    ensures a == b
  {
    assert a == [a[0]] + a[1..] && b == [b[0]] + b[1..];
  }

  lemma NothingLeft<T>(b: seq<T>)
    requires multiset(b) == multiset{}
    ensures b == []
  {
    assert |multiset(b)| == |b|;
  }

  lemma TailSorted<T(!new)>(leq: (T, T) -> bool, a: seq<T>)
    requires Sorted(leq, a) && a != []
    ensures Sorted(leq, a[1..])
  {
  }

  /** Where no two elements tie, a sorted sequence is determined by its multiset. */
  lemma {:induction false} SortedUnique<T(!new)>(leq: (T, T) -> bool, a: seq<T>, b: seq<T>)
    requires TotalOrder(leq) && Sorted(leq, a) && Sorted(leq, b) && multiset(a) == multiset(b)
    requires forall x, y :: leq(x, y) && leq(y, x) ==> x == y
    ensures a == b
  {
    if a == [] {
      NothingLeft(b);
    } else {
      SameHead(leq, a, b);
      TailMultiset(a);
      TailMultiset(b);
      TailSorted(leq, a);
      TailSorted(leq, b);
      SortedUnique(leq, a[1..], b[1..]);
      SameTails(a, b);
    }
  }

  // ----- filtering -----

  lemma {:induction false} FilterInsert<T(!new)>(leq: (T, T) -> bool, keep: T -> bool, s: seq<T>, x: T)
    requires TotalOrder(leq) && Sorted(leq, s)
    ensures Filter(Insert(leq, s, x), keep) == if keep(x) then Insert(leq, Filter(s, keep), x) else Filter(s, keep)
  {
    if s == [] {
      FilterOne(x, keep);
    } else {
      FilterHead(s, keep);
      FilterHead(Insert(leq, s, x), keep);
      if leq(s[0], x) {
        FilterInsert(leq, keep, s[1..], x);
        assert Insert(leq, s, x)[1..] == Insert(leq, s[1..], x);
        var f, rest := Filter(s, keep), Filter(s[1..], keep);
        if keep(s[0]) {
          assert f == [s[0]] + rest && f[1..] == rest;
        } else {
          assert f == rest;
        }
      } else {
        assert Insert(leq, s, x)[1..] == s;
        InsertFirst(leq, keep, s, x);
      }
    }
  }

  lemma InsertFirst<T(!new)>(leq: (T, T) -> bool, keep: T -> bool, s: seq<T>, x: T)
    requires TotalOrder(leq) && Sorted(leq, s) && s != [] && !leq(s[0], x)
    ensures Insert(leq, Filter(s, keep), x) == [x] + Filter(s, keep)
  {
    var f := Filter(s, keep);
    if f != [] {
      FilterMembers(s, keep, f[0]);
      var i :| 0 <= i < |s| && s[i] == f[0];
      assert i == 0 || leq(s[0], s[i]);
    }
  }

  /** A stable sort commutes with dropping elements. */
  lemma {:induction false} SortFilter<T(!new)>(leq: (T, T) -> bool, keep: T -> bool, s: seq<T>)
    requires TotalOrder(leq)
    ensures Filter(Sort(leq, s), keep) == Sort(leq, Filter(s, keep))
  {
    if s == [] {
    } else {
      var n := |s| - 1;
      SortFilter(leq, keep, s[..n]);
      SortSorts(leq, s[..n]);
      FilterInsert(leq, keep, Sort(leq, s[..n]), s[n]);
      if keep(s[n]) {
        assert Filter(s, keep)[..|Filter(s, keep)| - 1] == Filter(s[..n], keep);
      } else {
        assert Filter(s, keep) == Filter(s[..n], keep);
      }
    }
  }
}
