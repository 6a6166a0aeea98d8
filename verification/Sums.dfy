/** Sums of an integer amount over the members of a finite set. */
module Sums {
  ghost function Sum<T>(members: set<T>, f: T -> int): int {
    if members == {} then 0 else var x :| x in members; f(x) + Sum(members - {x}, f)
  }

  /** Any member can be taken out first. */
  lemma {:induction false} SumRemove<T>(members: set<T>, f: T -> int, x: T)
    requires x in members
    ensures Sum(members, f) == f(x) + Sum(members - {x}, f)
    decreases members
  {
    var y :| y in members && Sum(members, f) == f(y) + Sum(members - {y}, f);
    if x == y {
    } else {
      SumRemove(members - {y}, f, x);
      SumRemove(members - {x}, f, y);
      assert members - {y} - {x} == members - {x} - {y};
    }
  }

  lemma {:induction false} SumMonotone<T>(members: set<T>, f: T -> int, g: T -> int)
    requires forall x :: x in members ==> f(x) <= g(x)
    ensures Sum(members, f) <= Sum(members, g)
    decreases members
  {
    if members == {} {
    } else {
      var x :| x in members;
      SumRemove(members, f, x);
      SumRemove(members, g, x);
      SumMonotone(members - {x}, f, g);
    }
  }

  lemma SumFrame<T>(members: set<T>, f: T -> int, g: T -> int)
    requires forall x :: x in members ==> f(x) == g(x)
    ensures Sum(members, f) == Sum(members, g)
  {
    SumMonotone(members, f, g);
    SumMonotone(members, g, f);
  }

  /** Changing one summand changes the sum by that much. */
  lemma SumChange<T>(members: set<T>, f: T -> int, g: T -> int, x: T)
    requires x in members && forall y :: y in members && y != x ==> f(y) == g(y)
    ensures Sum(members, g) == Sum(members, f) + g(x) - f(x)
  {
    SumRemove(members, f, x);
    SumRemove(members, g, x);
    SumFrame(members - {x}, f, g);
  }

  lemma {:induction false} SumZero<T>(members: set<T>, f: T -> int)
    requires forall x :: x in members ==> f(x) == 0
    ensures Sum(members, f) == 0
    decreases members
  {
    if members == {} {
    } else {
      var x :| x in members;
      SumRemove(members, f, x);
      SumZero(members - {x}, f);
    }
  }

  lemma {:induction false} SumSplits<T>(members: set<T>, f: T -> int, g: T -> int, h: T -> int)
    requires forall x :: x in members ==> h(x) == f(x) + g(x)
    ensures Sum(members, h) == Sum(members, f) + Sum(members, g)
    decreases members
  {
    if members == {} {
    } else {
      var x :| x in members;
      SumRemove(members, f, x);
      SumRemove(members, g, x);
      SumRemove(members, h, x);
      SumSplits(members - {x}, f, g, h);
    }
  }
}
