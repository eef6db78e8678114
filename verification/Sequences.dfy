/** Filtering and duplicate removal, as JavaScript's `filter` and `new Set(...)` do them. */
module Sequences {
  predicate Distinct<T(==)>(s: seq<T>) {
    forall i, j :: 0 <= i < j < |s| ==> s[i] != s[j]
  }

  function Filter<T(!new)>(s: seq<T>, keep: T -> bool): (r: seq<T>)
    ensures forall x :: x in r <==> x in s && keep(x)
  {
    if s == [] then []
    else
      assert forall x :: x in s <==> x in s[..|s| - 1] || x == s[|s| - 1];
      Filter(s[..|s| - 1], keep) + if keep(s[|s| - 1]) then [s[|s| - 1]] else []
  }

  lemma {:induction false} FilterCounts<T(!new)>(s: seq<T>, keep: T -> bool, x: T)
    ensures multiset(Filter(s, keep))[x] == if keep(x) then multiset(s)[x] else 0
  {
    if s != [] {
      FilterCounts(s[..|s| - 1], keep, x);
      assert s == s[..|s| - 1] + [s[|s| - 1]];
    }
  }

  lemma {:induction false} FilterConcat<T(!new)>(a: seq<T>, b: seq<T>, keep: T -> bool)
    ensures Filter(a + b, keep) == Filter(a, keep) + Filter(b, keep)
  {
    if b == [] {
      assert a + b == a;
    } else {
      FilterConcat(a, b[..|b| - 1], keep);
      assert (a + b)[..|a + b| - 1] == a + b[..|b| - 1];
    }
  }

  lemma {:induction false} FilterAll<T(!new)>(s: seq<T>, keep: T -> bool)
    ensures (forall x :: x in s ==> keep(x)) ==> Filter(s, keep) == s
    ensures (forall x :: x in s ==> !keep(x)) ==> Filter(s, keep) == []
  {
    if s != [] {
      FilterAll(s[..|s| - 1], keep);
      assert forall x :: x in s <==> x in s[..|s| - 1] || x == s[|s| - 1];
      assert s == s[..|s| - 1] + [s[|s| - 1]];
    }
  }

  lemma {:induction false} FilterAgrees<T(!new)>(s: seq<T>, p: T -> bool, q: T -> bool)
    requires forall x :: x in s ==> p(x) == q(x)
    ensures Filter(s, p) == Filter(s, q)
  {
    if s != [] {
      assert forall x :: x in s[..|s| - 1] ==> x in s;
      FilterAgrees(s[..|s| - 1], p, q);
    }
  }

  /** The first place of `x` comes before any of `y`. */
  ghost predicate Before<T>(s: seq<T>, x: T, y: T) {
    exists i :: 0 <= i < |s| && s[i] == x && y !in s[..i + 1]
  }

  lemma {:induction false} FilterKeepsBefore<T(!new)>(s: seq<T>, keep: T -> bool, x: T, y: T)
    requires Before(Filter(s, keep), x, y) && keep(y)
    ensures Before(s, x, y)
  {
    var kept := Filter(s, keep);
    var i :| 0 <= i < |kept| && kept[i] == x && y !in kept[..i + 1];
    var front := s[..|s| - 1];
    if i < |Filter(front, keep)| {
      assert Filter(front, keep)[..i + 1] == kept[..i + 1];
      FilterKeepsBefore(front, keep, x, y);
      var j :| 0 <= j < |front| && front[j] == x && y !in front[..j + 1];
      assert s[..j + 1] == front[..j + 1];
    } else {
      assert kept[..i + 1] == kept && s[..|s|] == s;
      assert y !in s;
    }
  }

  /** The first of each value stays, in place. */
  function Unique<T(==,!new)>(s: seq<T>): (r: seq<T>)
    ensures Distinct(r)
    ensures forall x :: x in r <==> x in s
  {
    if s == [] then []
    else
      var front := Unique(s[..|s| - 1]);
      var x := s[|s| - 1];
      assert forall y :: y in s <==> y in s[..|s| - 1] || y == x;
      if x in front then front else front + [x]
  }

  lemma {:induction false} UniqueOfDistinct<T(!new)>(s: seq<T>)
    requires Distinct(s)
    ensures Unique(s) == s
  {
    if s != [] {
      UniqueOfDistinct(s[..|s| - 1]);
      assert s == s[..|s| - 1] + [s[|s| - 1]];
    }
  }

  /** What comes earlier among the distinct values came earlier, the first time, in the original. */
  lemma {:induction false} UniqueKeepsFirsts<T(!new)>(s: seq<T>, i: nat, j: nat) returns (at: nat)
    requires i < j < |Unique(s)|
    ensures at < |s| && s[at] == Unique(s)[i] && Unique(s)[j] !in s[..at + 1]
  {
    var front, x := s[..|s| - 1], s[|s| - 1];
    if j < |Unique(front)| {
      at := UniqueKeepsFirsts(front, i, j);
      assert front[..at + 1] == s[..at + 1];
    } else {
      assert Unique(s) == Unique(front) + [x] && x !in Unique(front);
      assert Unique(front)[i] in front;
      at :| 0 <= at < |front| && front[at] == Unique(front)[i];
      assert forall y :: y in s[..at + 1] ==> y in front;
    }
  }
}
