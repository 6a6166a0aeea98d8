/** Filtering sequences, what filtering keeps, and a few facts about slices. */
module Sequences {
  function Filter<T>(s: seq<T>, keep: T -> bool): seq<T> {
    if s == [] then []
    else
      var last := s[|s| - 1];
      Filter(s[..|s| - 1], keep) + if keep(last) then [last] else []
  }

  ghost predicate NoDup<T(!new)>(s: seq<T>) {
    forall i, j :: 0 <= i < j < |s| ==> s[i] != s[j]
  }

  lemma {:induction false} FilterMembers<T>(s: seq<T>, keep: T -> bool, x: T)
    ensures x in Filter(s, keep) <==> x in s && keep(x)
  {
    if s == [] {
    } else {
      FilterMembers(s[..|s| - 1], keep, x);
      assert s == s[..|s| - 1] + [s[|s| - 1]];
    }
  }

  lemma {:induction false} FilterAll<T>(s: seq<T>, keep: T -> bool)
    requires forall i :: 0 <= i < |s| ==> keep(s[i])
    ensures Filter(s, keep) == s
  {
    if s == [] {
    } else {
      FilterAll(s[..|s| - 1], keep);
      assert s == s[..|s| - 1] + [s[|s| - 1]];
    }
  }

  lemma {:induction false} FilterNoDup<T(!new)>(s: seq<T>, keep: T -> bool)
    requires NoDup(s)
    ensures NoDup(Filter(s, keep))
  {
    if s == [] {
    } else {
      FilterNoDup(s[..|s| - 1], keep);
      FilterMembers(s[..|s| - 1], keep, s[|s| - 1]);
    }
  }

  lemma {:induction false} FilterConcat<T>(a: seq<T>, b: seq<T>, keep: T -> bool)
    ensures Filter(a + b, keep) == Filter(a, keep) + Filter(b, keep)
  {
    if b == [] {
      assert a + b == a;
    } else {
      var n := |b| - 1;
      FilterConcat(a, b[..n], keep);
      assert (a + b)[..|a + b| - 1] == a + b[..n];
    }
  }

  lemma FilterNext<T>(s: seq<T>, i: nat, keep: T -> bool)
    requires i < |s|
    ensures Filter(s[..i + 1], keep) == if keep(s[i]) then Filter(s[..i], keep) + [s[i]] else Filter(s[..i], keep)
  {
    assert s[..i + 1][..i] == s[..i];
    assert Filter(s[..i], keep) + [] == Filter(s[..i], keep);
  }

  ghost predicate Pairwise<T(!new)>(s: seq<T>, r: (T, T) -> bool) {
    forall i, j :: 0 <= i < j < |s| ==> r(s[i], s[j])
  }

  lemma {:induction false} FilterPairwise<T(!new)>(s: seq<T>, keep: T -> bool, r: (T, T) -> bool)
    requires Pairwise(s, r)
    ensures Pairwise(Filter(s, keep), r)
  {
    if s == [] {
    } else {
      var n := |s| - 1;
      var before := Filter(s[..n], keep);
      FilterPairwise(s[..n], keep, r);
      forall i | 0 <= i < |before| ensures r(before[i], s[n]) {
        FilterMembers(s[..n], keep, before[i]);
        var k :| 0 <= k < n && s[k] == before[i];
      }
    }
  }

  lemma FilterSnoc<T>(s: seq<T>, x: T, keep: T -> bool)
    ensures Filter(s + [x], keep) == Filter(s, keep) + if keep(x) then [x] else []
  {
    assert (s + [x])[..|s|] == s;
  }

  lemma FilterOne<T>(x: T, keep: T -> bool)
    ensures Filter([x], keep) == if keep(x) then [x] else []
  {
    assert [x][..0] == [];
  }

  lemma FilterHead<T>(s: seq<T>, keep: T -> bool)
    requires s != []
    ensures Filter(s, keep) == (if keep(s[0]) then [s[0]] else []) + Filter(s[1..], keep)
  {
    assert s == [s[0]] + s[1..];
    FilterConcat([s[0]], s[1..], keep);
    FilterOne(s[0], keep);
  }

  lemma PrefixMember<T>(s: seq<T>, j: nat, x: T)
    requires j < |s|
    ensures x in s[..j + 1] <==> x in s[..j] || x == s[j]
  {
    assert s[..j + 1] == s[..j] + [s[j]];
  }

  lemma SliceIs<T>(all: seq<T>, k: nat, block: seq<T>)
    requires k + |block| <= |all| && forall m :: 0 <= m < |block| ==> all[k + m] == block[m]
    ensures all[k..k + |block|] == block
  {
  }

  lemma FilterSlice<T>(all: seq<T>, k: nat, next: nat, keep: T -> bool, done: seq<T>, block: seq<T>)
    requires k <= next <= |all| && done == Filter(all[..k], keep) && block == all[k..next]
    ensures done + Filter(block, keep) == Filter(all[..next], keep)
  {
    FilterConcat(all[..k], block, keep);
    assert all[..next] == all[..k] + block;
  }
}
