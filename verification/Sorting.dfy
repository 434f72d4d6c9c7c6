/** Python's `sorted` on exact numbers, and why its result is the only ordered arrangement. */
module Sorting {

  ghost predicate Ordered(s: seq<real>) {
    forall i, j :: 0 <= i < j < |s| ==> s[i] <= s[j]
  }

  function Insert(x: real, s: seq<real>): seq<real> {
    if s == [] || x <= s[0] then [x] + s else [s[0]] + Insert(x, s[1..])
  }

  function Sorted(s: seq<real>): seq<real> {
    if s == [] then [] else Insert(s[|s| - 1], Sorted(s[..|s| - 1]))
  }

  lemma {:induction false} InsertMultiset(x: real, s: seq<real>)
    ensures multiset(Insert(x, s)) == multiset(s) + multiset{x}
  {
    if s != [] && x > s[0] {
      InsertMultiset(x, s[1..]);
      assert s == [s[0]] + s[1..];
    }
  }

  lemma ConsOrdered(x: real, s: seq<real>)
    requires Ordered(s) && (s != [] ==> x <= s[0])
    ensures Ordered([x] + s)
  {
  }

  lemma {:induction false} InsertOrdered(x: real, s: seq<real>)
    requires Ordered(s)
    ensures Ordered(Insert(x, s))
    ensures s != [] && x > s[0] ==> Insert(x, s)[0] == s[0]
  {
    if s == [] || x <= s[0] {
      ConsOrdered(x, s);
    } else {
      InsertOrdered(x, s[1..]);
      var rest := Insert(x, s[1..]);
      ConsOrdered(s[0], rest);
    }
  }

  lemma {:induction false} SortedIsOrderedPermutation(s: seq<real>)
    ensures Ordered(Sorted(s)) && multiset(Sorted(s)) == multiset(s)
    ensures |Sorted(s)| == |s|
  {
    if s != [] {
      var front, last := s[..|s| - 1], s[|s| - 1];
      SortedIsOrderedPermutation(front);
      InsertOrdered(last, Sorted(front));
      InsertMultiset(last, Sorted(front));
      assert s == front + [last];
    }
    assert |multiset(Sorted(s))| == |Sorted(s)|;
  }

  lemma SameElements(s: seq<real>, t: seq<real>, x: real)
    requires multiset(s) == multiset(t) && x in s
    ensures x in t
  {
    assert x in multiset(s);
  }

  lemma TailMultiset(s: seq<real>)
    requires s != []
    ensures multiset(s[1..]) == multiset(s) - multiset{s[0]}
  {
    assert s == [s[0]] + s[1..];
  }

  lemma SameFirst(s: seq<real>, t: seq<real>)
    requires Ordered(s) && Ordered(t) && multiset(s) == multiset(t) && s != [] && t != []
    ensures s[0] == t[0]
  {
    SameElements(s, t, s[0]);
    SameElements(t, s, t[0]);
  }

  /** A multiset has one ordered arrangement. */
  lemma {:induction false} OrderedUnique(s: seq<real>, t: seq<real>)
    requires Ordered(s) && Ordered(t) && multiset(s) == multiset(t)
    ensures s == t
  {
    assert |s| == |multiset(s)| == |multiset(t)| == |t|;
    if s != [] {
      SameFirst(s, t);
      TailMultiset(s);
      TailMultiset(t);
      OrderedUnique(s[1..], t[1..]);
      assert s == [s[0]] + s[1..] && t == [t[0]] + t[1..];
    }
  }

  // ---- Least, greatest, sum ----

  function Sum(s: seq<real>): real {
    if s == [] then 0.0 else Sum(s[..|s| - 1]) + s[|s| - 1]
  }

  function Min(s: seq<real>): real
    requires s != []
  {
    if |s| == 1 then s[0]
    else
      var rest := Min(s[..|s| - 1]);
      if s[|s| - 1] < rest then s[|s| - 1] else rest
  }

  function Max(s: seq<real>): real
    requires s != []
  {
    if |s| == 1 then s[0]
    else
      var rest := Max(s[..|s| - 1]);
      if s[|s| - 1] > rest then s[|s| - 1] else rest
  }

  lemma {:induction false} MinMaxBound(s: seq<real>)
    requires s != []
    ensures Min(s) in s && Max(s) in s
    ensures forall x :: x in s ==> Min(s) <= x <= Max(s)
  {
    if |s| > 1 {
      var front := s[..|s| - 1];
      MinMaxBound(front);
      assert s == front + [s[|s| - 1]];
    }
  }

  /** Sorting puts the least value first and the greatest last. */
  lemma SortedEnds(s: seq<real>)
    requires s != []
    ensures |Sorted(s)| == |s| && Sorted(s)[0] == Min(s) && Sorted(s)[|s| - 1] == Max(s)
  {
    var r := Sorted(s);
    SortedIsOrderedPermutation(s);
    MinMaxBound(s);
    SameElements(s, r, Min(s));
    SameElements(s, r, Max(s));
    SameElements(r, s, r[0]);
    SameElements(r, s, r[|s| - 1]);
  }

  lemma {:induction false} SumConcat(a: seq<real>, b: seq<real>)
    ensures Sum(a + b) == Sum(a) + Sum(b)
  {
    if b == [] {
      assert a + b == a;
    } else {
      assert (a + b)[..|a + b| - 1] == a + b[..|b| - 1];
      SumConcat(a, b[..|b| - 1]);
    }
  }

  // ---- The same, without naming the sort ----

  /** The list in order, in any way of sorting it. */
  ghost predicate Arrangement(s: seq<real>, of: seq<real>) {
    Ordered(s) && multiset(s) == multiset(of)
  }

  lemma ArrangementIsSorted(s: seq<real>, of: seq<real>)
    requires Arrangement(s, of)
    ensures s == Sorted(of) && |s| == |of|
  {
    SortedIsOrderedPermutation(of);
    OrderedUnique(s, Sorted(of));
    assert |s| == |multiset(s)| == |multiset(of)| == |of|;
  }

  /** Times the count it gives the total. */
  predicate IsAverage(x: real, s: seq<real>) {
    x * |s| as real == Sum(s)
  }

  lemma QuotientTimes(sum: real, n: real)
    requires n > 0.0
    ensures sum / n * n == sum
  {
  }
}
