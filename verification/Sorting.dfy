/** Sorting: a stable sort by a total preorder, and the strictly increasing list of
    the members of a list of integers. */
module Sorting {
  import opened Sequences

  // ----- sorted({...}) -----

  ghost predicate Increasing(xs: seq<int>)
  {
    forall i, j :: 0 <= i < j < |xs| ==> xs[i] < xs[j]
  }

  function InsertNew(x: int, xs: seq<int>): seq<int>
  {
    if xs == [] then [x]
    else if x < xs[0] then [x] + xs
    else if x == xs[0] then xs
    else [xs[0]] + InsertNew(x, xs[1..])
  }

  function SortedSet(xs: seq<int>): seq<int>
  {
    if xs == [] then [] else InsertNew(xs[0], SortedSet(xs[1..]))
  }

  lemma {:induction false} InsertNewIncreasing(x: int, xs: seq<int>)
    requires Increasing(xs)
    ensures Increasing(InsertNew(x, xs))
    ensures forall y :: y in InsertNew(x, xs) <==> y == x || y in xs
  {
    if xs != [] && xs[0] < x {
      InsertNewIncreasing(x, xs[1..]);
      var rest := InsertNew(x, xs[1..]);
      forall j | 0 <= j < |rest| ensures xs[0] < rest[j] {
        assert rest[j] in rest;
        assert rest[j] == x || rest[j] in xs[1..];
      }
      assert xs == [xs[0]] + xs[1..];
    }
  }

  lemma {:induction false} SortedSetIncreasing(xs: seq<int>)
    ensures Increasing(SortedSet(xs))
    ensures forall y :: y in SortedSet(xs) <==> y in xs
  {
    if xs != [] {
      SortedSetIncreasing(xs[1..]);
      InsertNewIncreasing(xs[0], SortedSet(xs[1..]));
    }
  }

  lemma IncreasingTail(a: seq<int>)
    requires Increasing(a) && a != []
    ensures Increasing(a[1..])
    ensures forall y :: y in a[1..] <==> y in a && y != a[0]
    ensures forall y :: y in a ==> a[0] <= y
  {
    assert a == [a[0]] + a[1..];
    forall y | y in a[1..] ensures y != a[0] {
      var i :| 0 <= i < |a[1..]| && a[1..][i] == y;
      assert a[0] < a[i + 1];
    }
    forall y | y in a ensures a[0] <= y {
      var i :| 0 <= i < |a| && a[i] == y;
    }
  }

  /** Two increasing lists with the same members are the same list. */
  lemma {:induction false} IncreasingIsUnique(a: seq<int>, b: seq<int>)
    requires Increasing(a) && Increasing(b)
    requires forall y :: y in a <==> y in b
    ensures a == b
  {
    assert b != [] ==> b[0] in b;
    if a != [] {
      var x := a[0];
      assert x in a && x in b;
      var y := b[0];
      assert y in b && y in a;
      IncreasingTail(a);
      IncreasingTail(b);
      assert a[0] == b[0];
      IncreasingIsUnique(a[1..], b[1..]);
      assert a == [a[0]] + a[1..] && b == [b[0]] + b[1..];
    }
  }

  // ----- sorted(..., key=...) -----

  /** `leq` compares the keys of two elements. */
  ghost predicate TotalPreorder<T(!new)>(leq: (T, T) -> bool)
  {
    && (forall x, y :: leq(x, y) || leq(y, x))
    && (forall x, y, z :: leq(x, y) && leq(y, z) ==> leq(x, z))
  }

  ghost predicate Ordered<T>(leq: (T, T) -> bool, xs: seq<T>)
  {
    forall i, j :: 0 <= i < j < |xs| ==> leq(xs[i], xs[j])
  }

  /** Puts `x` after every element that does not come strictly later. */
  function Insert<T>(leq: (T, T) -> bool, x: T, xs: seq<T>): seq<T>
  {
    if xs == [] then [x]
    else if leq(xs[|xs| - 1], x) then xs + [x]
    else Insert(leq, x, xs[..|xs| - 1]) + [xs[|xs| - 1]]
  }

  function SortBy<T>(leq: (T, T) -> bool, xs: seq<T>): seq<T>
  {
    if xs == [] then [] else Insert(leq, xs[|xs| - 1], SortBy(leq, xs[..|xs| - 1]))
  }

  lemma {:induction false} InsertPermutes<T>(leq: (T, T) -> bool, x: T, xs: seq<T>)
    ensures multiset(Insert(leq, x, xs)) == multiset(xs) + multiset{x}
    ensures |Insert(leq, x, xs)| == |xs| + 1
  {
    if xs != [] && !leq(xs[|xs| - 1], x) {
      InsertPermutes(leq, x, xs[..|xs| - 1]);
      assert xs == xs[..|xs| - 1] + [xs[|xs| - 1]];
    }
  }

  lemma SortPermutesStep<T>(leq: (T, T) -> bool, front: seq<T>, last: T)
    requires multiset(SortBy(leq, front)) == multiset(front) && |SortBy(leq, front)| == |front|
    ensures multiset(SortBy(leq, front + [last])) == multiset(front + [last])
    ensures |SortBy(leq, front + [last])| == |front| + 1
  {
    assert (front + [last])[..|front|] == front;
    InsertPermutes(leq, last, SortBy(leq, front));
  }

  lemma {:induction false} SortPermutes<T>(leq: (T, T) -> bool, xs: seq<T>)
    ensures multiset(SortBy(leq, xs)) == multiset(xs)
    ensures |SortBy(leq, xs)| == |xs|
  {
    if xs != [] {
      var front, last := xs[..|xs| - 1], xs[|xs| - 1];
      SortPermutes(leq, front);
      SortPermutesStep(leq, front, last);
      assert xs == front + [last];
    }
  }

  lemma SameMembers<T>(a: seq<T>, b: seq<T>)
    requires multiset(a) == multiset(b)
    ensures |a| == |b|
    ensures forall x :: x in a <==> x in b
  {
    assert |multiset(a)| == |a| && |multiset(b)| == |b|;
    forall x ensures x in a <==> x in b {
      assert x in a <==> x in multiset(a);
      assert x in b <==> x in multiset(b);
    }
  }

  lemma {:induction false} InsertMembers<T>(leq: (T, T) -> bool, x: T, xs: seq<T>)
    ensures forall y :: y in Insert(leq, x, xs) ==> y == x || y in xs
  {
    if xs != [] && !leq(xs[|xs| - 1], x) {
      InsertMembers(leq, x, xs[..|xs| - 1]);
    }
  }

  lemma {:induction false} InsertOrdered<T(!new)>(leq: (T, T) -> bool, x: T, xs: seq<T>)
    requires TotalPreorder(leq) && Ordered(leq, xs)
    ensures Ordered(leq, Insert(leq, x, xs))
  {
    if xs != [] {
      var n := |xs| - 1;
      if !leq(xs[n], x) {
        var front := Insert(leq, x, xs[..n]);
        InsertOrdered(leq, x, xs[..n]);
        InsertMembers(leq, x, xs[..n]);
        forall i | 0 <= i < |front| ensures leq(front[i], xs[n]) {
          assert front[i] in front;
          if front[i] != x {
            var k :| 0 <= k < n && xs[..n][k] == front[i];
            assert leq(xs[k], xs[n]);
          }
        }
      }
    }
  }

  lemma {:induction false} SortOrdered<T(!new)>(leq: (T, T) -> bool, xs: seq<T>)
    requires TotalPreorder(leq)
    ensures Ordered(leq, SortBy(leq, xs))
  {
    if xs != [] {
      SortOrdered(leq, xs[..|xs| - 1]);
      InsertOrdered(leq, xs[|xs| - 1], SortBy(leq, xs[..|xs| - 1]));
    }
  }

  /** No two different members of `xs` have keys that compare equal. */
  ghost predicate DistinctKeys<T(!new)>(leq: (T, T) -> bool, xs: seq<T>)
  {
    forall x, y :: x in xs && y in xs && leq(x, y) && leq(y, x) ==> x == y
  }

  lemma OrderedHeadsAgree<T(!new)>(leq: (T, T) -> bool, a: seq<T>, b: seq<T>)
    requires TotalPreorder(leq) && Ordered(leq, a) && Ordered(leq, b)
    requires DistinctKeys(leq, a) && a != [] && b != []
    requires forall x :: x in a <==> x in b
    ensures a[0] == b[0]
  {
    assert b[0] in a && a[0] in b;
    var i :| 0 <= i < |a| && a[i] == b[0];
    var j :| 0 <= j < |b| && b[j] == a[0];
    assert leq(a[0], a[0]) && leq(b[0], b[0]);
    assert leq(a[0], a[i]) && leq(b[0], b[j]);
  }

  lemma TailsAgree<T>(a: seq<T>, b: seq<T>)
    requires a != [] && b != [] && a[0] == b[0] && multiset(a) == multiset(b)
    ensures multiset(a[1..]) == multiset(b[1..])
  {
    assert a == [a[0]] + a[1..] && b == [b[0]] + b[1..];
    assert multiset(a[1..]) == multiset(a) - multiset{a[0]};
    assert multiset(b[1..]) == multiset(b) - multiset{b[0]};
  }

  /** With distinct keys, an ordered rearrangement is unique. */
  lemma {:induction false} OrderedIsUnique<T(!new)>(leq: (T, T) -> bool, a: seq<T>, b: seq<T>)
    requires TotalPreorder(leq) && Ordered(leq, a) && Ordered(leq, b)
    requires DistinctKeys(leq, a)
    requires multiset(a) == multiset(b)
    ensures a == b
  {
    SameMembers(a, b);
    if a != [] {
      OrderedHeadsAgree(leq, a, b);
      TailsAgree(a, b);
      OrderedIsUnique(leq, a[1..], b[1..]);
      assert a == [a[0]] + a[1..] && b == [b[0]] + b[1..];
    }
  }

  /** With distinct keys, the order of the input does not matter. */
  lemma SortIgnoresInputOrder<T(!new)>(leq: (T, T) -> bool, a: seq<T>, b: seq<T>)
    requires TotalPreorder(leq) && DistinctKeys(leq, a)
    requires multiset(a) == multiset(b)
    ensures SortBy(leq, a) == SortBy(leq, b)
  {
    SortOrdered(leq, a);
    SortOrdered(leq, b);
    SortPermutes(leq, a);
    SortPermutes(leq, b);
    SameMembers(a, SortBy(leq, a));
    OrderedIsUnique(leq, SortBy(leq, a), SortBy(leq, b));
  }

  /** Selecting from an ordered list keeps the order. */
  lemma {:induction false} FilterOrdered<T(!new)>(leq: (T, T) -> bool, p: T -> bool, xs: seq<T>)
    requires Ordered(leq, xs)
    ensures Ordered(leq, Filter(p, xs))
  {
    if xs != [] {
      var n := |xs| - 1;
      FilterOrdered(leq, p, xs[..n]);
      FilterMembers(p, xs[..n]);
      var front := Filter(p, xs[..n]);
      forall i | 0 <= i < |front| ensures leq(front[i], xs[n]) {
        assert front[i] in xs[..n];
      }
    }
  }

  // ----- what holds of every two elements -----

  /** `related` holds of every two elements that satisfy `p`, the earlier one first. */
  ghost predicate PairsRelated<T>(p: T -> bool, related: (T, T) -> bool, xs: seq<T>)
  {
    forall i, j :: 0 <= i < j < |xs| && p(xs[i]) && p(xs[j]) ==> related(xs[i], xs[j])
  }

  ghost function Any<T>(): T -> bool { (x: T) => true }

  /** Of two elements whose keys differ, either may come first. */
  ghost predicate SymmetricAcrossKeys<T(!new)>(leq: (T, T) -> bool, related: (T, T) -> bool)
  {
    forall x, y :: !leq(x, y) ==> (related(x, y) <==> related(y, x))
  }

  lemma PairsStep<T>(p: T -> bool, related: (T, T) -> bool, xs: seq<T>, x: T)
    ensures PairsRelated(p, related, xs + [x]) <==>
      PairsRelated(p, related, xs) && (p(x) ==> forall y :: y in xs && p(y) ==> related(y, x))
  {
    var all := xs + [x];
    if PairsRelated(p, related, all) {
      forall i, j | 0 <= i < j < |xs| && p(xs[i]) && p(xs[j]) ensures related(xs[i], xs[j]) {
        assert all[i] == xs[i] && all[j] == xs[j];
      }
      forall y | y in xs && p(y) && p(x) ensures related(y, x) {
        var i :| 0 <= i < |xs| && xs[i] == y;
        assert all[i] == y && all[|xs|] == x;
      }
    }
  }

  lemma FilterRelates<T>(p: T -> bool, related: (T, T) -> bool, xs: seq<T>, x: T)
    ensures (forall y :: y in Filter(p, xs) ==> related(y, x)) <==> forall y :: y in xs && p(y) ==> related(y, x)
  {
    FilterMembers(p, xs);
    forall y ensures y in Filter(p, xs) <==> y in xs && p(y) {}
  }

  lemma FilterPairsStep<T>(p: T -> bool, related: (T, T) -> bool, front: seq<T>, last: T)
    requires PairsRelated(Any(), related, Filter(p, front)) <==> PairsRelated(p, related, front)
    ensures PairsRelated(Any(), related, Filter(p, front + [last])) <==> PairsRelated(p, related, front + [last])
  {
    PairsStep(p, related, front, last);
    FilterStep(p, front, last);
    if p(last) {
      PairsStep(Any(), related, Filter(p, front), last);
      FilterRelates(p, related, front, last);
    } else {
      assert Filter(p, front) + [] == Filter(p, front);
    }
  }

  /** Selecting first and then looking at every two is the same. */
  lemma {:induction false} FilterPairs<T>(p: T -> bool, related: (T, T) -> bool, xs: seq<T>)
    ensures PairsRelated(Any(), related, Filter(p, xs)) <==> PairsRelated(p, related, xs)
  {
    if xs != [] {
      var n := |xs| - 1;
      FilterPairs(p, related, xs[..n]);
      FilterPairsStep(p, related, xs[..n], xs[n]);
      assert xs == xs[..n] + [xs[n]];
    }
  }

  lemma InsertHas<T>(leq: (T, T) -> bool, x: T, xs: seq<T>)
    ensures forall y :: y in Insert(leq, x, xs) <==> y == x || y in xs
  {
    InsertPermutes(leq, x, xs);
    SameMembers(Insert(leq, x, xs), xs + [x]);
  }

  lemma {:induction false} InsertPairs<T(!new)>(leq: (T, T) -> bool, related: (T, T) -> bool, x: T, xs: seq<T>)
    requires TotalPreorder(leq) && Ordered(leq, xs) && SymmetricAcrossKeys(leq, related)
    ensures PairsRelated(Any(), related, Insert(leq, x, xs)) <==>
      PairsRelated(Any(), related, xs) && forall y :: y in xs ==> related(y, x)
  {
    if xs == [] || leq(xs[|xs| - 1], x) {
      PairsStep(Any(), related, xs, x);
      assert xs == [] ==> xs + [x] == [x];
    } else {
      var n := |xs| - 1;
      var front, last := xs[..n], xs[n];
      InsertPairs(leq, related, x, front);
      assert xs == front + [last];
      PairsStep(Any(), related, front, last);
      PairsStep(Any(), related, Insert(leq, x, front), last);
      InsertHas(leq, x, front);
      assert related(x, last) <==> related(last, x);
    }
  }

  /** A stable sort keeps what holds of every two elements. */
  lemma {:induction false} SortPairs<T(!new)>(leq: (T, T) -> bool, related: (T, T) -> bool, xs: seq<T>)
    requires TotalPreorder(leq) && SymmetricAcrossKeys(leq, related)
    ensures PairsRelated(Any(), related, SortBy(leq, xs)) <==> PairsRelated(Any(), related, xs)
  {
    if xs != [] {
      var n := |xs| - 1;
      var front, last := xs[..n], xs[n];
      SortPairs(leq, related, front);
      SortOrdered(leq, front);
      InsertPairs(leq, related, last, SortBy(leq, front));
      SortPermutes(leq, front);
      SameMembers(SortBy(leq, front), front);
      assert xs == front + [last];
      PairsStep(Any(), related, front, last);
    }
  }

  // ----- rearranging -----

  lemma {:induction false} MultiplicityOfDistinct<T>(xs: seq<T>)
    ensures NoDuplicates(xs) <==> forall x :: multiset(xs)[x] <= 1
  {
    if xs != [] {
      var n := |xs| - 1;
      var last := xs[n];
      assert xs == xs[..n] + [last];
      MultiplicityOfDistinct(xs[..n]);
      assert multiset(xs)[last] == multiset(xs[..n])[last] + 1;
      if NoDuplicates(xs) {
        assert last !in xs[..n];
        assert multiset(xs[..n])[last] == 0;
      } else if NoDuplicates(xs[..n]) {
        assert last in xs[..n];
      } else {
        var x :| multiset(xs[..n])[x] > 1;
        assert multiset(xs)[x] > 1;
      }
    }
  }

  lemma RearrangedDistinct<T>(a: seq<T>, b: seq<T>)
    requires multiset(a) == multiset(b) && NoDuplicates(a)
    ensures NoDuplicates(b)
  {
    MultiplicityOfDistinct(a);
    MultiplicityOfDistinct(b);
  }

  lemma AroundOne<T>(xs: seq<T>, i: nat)
    requires i < |xs|
    ensures xs == (xs[..i] + [xs[i]]) + xs[i + 1..]
  {
  }

  lemma FilterWithout<T>(p: T -> bool, xs: seq<T>, i: nat)
    requires i < |xs|
    ensures multiset(Filter(p, xs))
      == multiset(Filter(p, xs[..i] + xs[i + 1..])) + if p(xs[i]) then multiset{xs[i]} else multiset{}
  {
    var front, rest := xs[..i], xs[i + 1..];
    AroundOne(xs, i);
    FilterConcat(p, front + [xs[i]], rest);
    FilterStep(p, front, xs[i]);
    FilterConcat(p, front, rest);
  }

  lemma {:induction false} FilterRearranged<T>(p: T -> bool, a: seq<T>, b: seq<T>)
    requires multiset(a) == multiset(b)
    ensures multiset(Filter(p, a)) == multiset(Filter(p, b))
  {
    SameMembers(a, b);
    if a != [] {
      var i := Without(a, b);
      FilterRearranged(p, a[..|a| - 1], b[..i] + b[i + 1..]);
      FilterWithout(p, b, i);
    }
  }

  /** Where `b` holds the last element of its rearrangement `a`. */
  lemma Without<T>(a: seq<T>, b: seq<T>) returns (i: nat)
    requires multiset(a) == multiset(b) && a != []
    ensures i < |b| && b[i] == a[|a| - 1]
    ensures multiset(a[..|a| - 1]) == multiset(b[..i] + b[i + 1..])
  {
    var n := |a| - 1;
    SameMembers(a, b);
    assert a == a[..n] + [a[n]];
    assert a[n] in b;
    i :| 0 <= i < |b| && b[i] == a[n];
    assert b == b[..i] + [b[i]] + b[i + 1..];
    assert multiset(b[..i] + b[i + 1..]) == multiset(b) - multiset{b[i]};
  }

  lemma SumWithout<T>(f: T -> int, xs: seq<T>, i: nat)
    requires i < |xs|
    ensures Sum(f, xs) == Sum(f, xs[..i] + xs[i + 1..]) + f(xs[i])
  {
    var front, x, rest := xs[..i], xs[i], xs[i + 1..];
    assert xs == (front + [x]) + rest;
    SumConcat(f, front + [x], rest);
    SumStep(f, front, x);
    SumConcat(f, front, rest);
  }

  lemma {:induction false} SumRearranged<T>(f: T -> int, a: seq<T>, b: seq<T>)
    requires multiset(a) == multiset(b)
    ensures Sum(f, a) == Sum(f, b)
  {
    SameMembers(a, b);
    if a != [] {
      var i := Without(a, b);
      SumRearranged(f, a[..|a| - 1], b[..i] + b[i + 1..]);
      SumWithout(f, b, i);
    }
  }

  lemma MapWithout<A, B>(f: A -> B, xs: seq<A>, i: nat)
    requires i < |xs|
    ensures multiset(Map(f, xs)) == multiset(Map(f, xs[..i] + xs[i + 1..])) + multiset{f(xs[i])}
  {
    var rest := Map(f, xs[..i] + xs[i + 1..]);
    assert Map(f, xs) == rest[..i] + [f(xs[i])] + rest[i..];
    assert rest == rest[..i] + rest[i..];
  }

  lemma {:induction false} MapRearranged<A, B>(f: A -> B, a: seq<A>, b: seq<A>)
    requires multiset(a) == multiset(b)
    ensures multiset(Map(f, a)) == multiset(Map(f, b))
  {
    SameMembers(a, b);
    if a != [] {
      var n := |a| - 1;
      var i := Without(a, b);
      MapRearranged(f, a[..n], b[..i] + b[i + 1..]);
      MapWithout(f, b, i);
      assert Map(f, a) == Map(f, a[..n]) + [f(a[n])];
    } else {
      assert Map(f, a) == Map(f, b);
    }
  }
}
