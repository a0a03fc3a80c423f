/** Finite sums, selections and counts over sequences, used by every other module. */
module Sequences {

  /** The elements of `xs` that satisfy `p`, in order. */
  ghost function Filter<A>(p: A -> bool, xs: seq<A>): seq<A>
  {
    if xs == [] then []
    else
      var n := |xs| - 1;
      if p(xs[n]) then Filter(p, xs[..n]) + [xs[n]] else Filter(p, xs[..n])
  }

  /** The image of `xs` under `f`, in order. */
  ghost function Map<A, B>(f: A -> B, xs: seq<A>): seq<B>
  {
    seq(|xs|, i requires 0 <= i < |xs| => f(xs[i]))
  }

  /** The distinct elements of `xs`, in order of first appearance. */
  ghost function Dedup<A>(xs: seq<A>): seq<A>
  {
    if xs == [] then []
    else
      var n := |xs| - 1;
      var front := Dedup(xs[..n]);
      if xs[n] in front then front else front + [xs[n]]
  }

  ghost function Sum<A>(f: A -> int, xs: seq<A>): int
  {
    if xs == [] then 0
    else
      var n := |xs| - 1;
      Sum(f, xs[..n]) + f(xs[n])
  }

  /** The integers from `lo` up to, but not including, `hi`. */
  function Interval(lo: int, hi: int): seq<int>
  {
    if hi <= lo then [] else seq(hi - lo, i => lo + i)
  }

  ghost predicate NoDuplicates<A>(xs: seq<A>)
  {
    forall i, j :: 0 <= i < j < |xs| ==> xs[i] != xs[j]
  }

  // ----- one more element -----

  lemma FilterStep<A>(p: A -> bool, xs: seq<A>, x: A)
    ensures Filter(p, xs + [x]) == Filter(p, xs) + (if p(x) then [x] else [])
  {
    assert (xs + [x])[..|xs|] == xs;
  }

  lemma DedupStep<A>(xs: seq<A>, x: A)
    ensures Dedup(xs + [x]) == if x in Dedup(xs) then Dedup(xs) else Dedup(xs) + [x]
  {
    assert (xs + [x])[..|xs|] == xs;
  }

  lemma SumStep<A>(f: A -> int, xs: seq<A>, x: A)
    ensures Sum(f, xs + [x]) == Sum(f, xs) + f(x)
  {
    assert (xs + [x])[..|xs|] == xs;
  }

  lemma MapStep<A, B>(f: A -> B, xs: seq<A>, x: A)
    ensures Map(f, xs + [x]) == Map(f, xs) + [f(x)]
  {
  }

  lemma TakeNext<T>(xs: seq<T>, i: nat)
    requires i < |xs|
    ensures xs[..i + 1] == xs[..i] + [xs[i]]
  {
  }

  lemma ConcatAssociative<T>(a: seq<T>, b: seq<T>, c: seq<T>)
    ensures (a + b) + c == a + (b + c)
  {
  }

  // ----- membership -----

  ghost function Elements<T>(xs: seq<T>): set<T> { set x | x in xs }

  lemma {:induction false} ElementsCount<T>(xs: seq<T>)
    requires NoDuplicates(xs)
    ensures |Elements(xs)| == |xs|
  {
    if xs != [] {
      var n := |xs| - 1;
      ElementsCount(xs[..n]);
      assert xs == xs[..n] + [xs[n]];
      assert Elements(xs) == Elements(xs[..n]) + {xs[n]};
    }
  }

  lemma {:induction false} FilterMembers<A>(p: A -> bool, xs: seq<A>)
    ensures forall x :: x in Filter(p, xs) <==> x in xs && p(x)
  {
    if xs != [] {
      var n := |xs| - 1;
      FilterMembers(p, xs[..n]);
      assert xs == xs[..n] + [xs[n]];
    }
  }

  lemma {:induction false} FilterNoDuplicates<A>(p: A -> bool, xs: seq<A>)
    requires NoDuplicates(xs)
    ensures NoDuplicates(Filter(p, xs))
  {
    if xs != [] {
      var n := |xs| - 1;
      FilterNoDuplicates(p, xs[..n]);
      FilterMembers(p, xs[..n]);
    }
  }

  lemma {:induction false} FilterAll<T>(p: T -> bool, xs: seq<T>)
    ensures (forall x :: x in xs ==> p(x)) ==> Filter(p, xs) == xs
    ensures (forall x :: x in xs ==> !p(x)) ==> Filter(p, xs) == []
  {
    if xs != [] {
      assert xs == xs[..|xs| - 1] + [xs[|xs| - 1]];
      FilterAll(p, xs[..|xs| - 1]);
    }
  }

  lemma {:induction false} FilterConcat<T>(p: T -> bool, a: seq<T>, b: seq<T>)
    ensures Filter(p, a + b) == Filter(p, a) + Filter(p, b)
  {
    if b == [] {
      assert a + b == a;
    } else {
      var n := |b| - 1;
      FilterConcat(p, a, b[..n]);
      assert a + b == (a + b[..n]) + [b[n]];
      FilterStep(p, a + b[..n], b[n]);
      FilterStep(p, b[..n], b[n]);
      assert b == b[..n] + [b[n]];
    }
  }

  lemma {:induction false} DedupMembers<A>(xs: seq<A>)
    ensures forall x :: x in Dedup(xs) <==> x in xs
    ensures NoDuplicates(Dedup(xs))
  {
    if xs != [] {
      var n := |xs| - 1;
      DedupMembers(xs[..n]);
      assert xs == xs[..n] + [xs[n]];
    }
  }

  lemma NoDuplicatesJoin<T>(a: seq<T>, b: seq<T>)
    requires NoDuplicates(a) && NoDuplicates(b) && forall x :: x in a ==> x !in b
    ensures NoDuplicates(a + b)
  {
    var c := a + b;
    forall i, j | 0 <= i < j < |c| ensures c[i] != c[j] {
      if i < |a| <= j {
        assert c[i] in a && c[j] in b;
      }
    }
  }

  lemma IntervalMembers(lo: int, hi: int)
    ensures forall i :: i in Interval(lo, hi) <==> lo <= i < hi
  {
    forall i | lo <= i < hi ensures i in Interval(lo, hi) {
      assert Interval(lo, hi)[i - lo] == i;
    }
  }

  lemma IntervalStep(lo: int, hi: int)
    requires lo <= hi
    ensures Interval(lo, hi + 1) == Interval(lo, hi) + [hi]
  {
  }

  // ----- sums -----

  lemma {:induction false} SumConcat<A>(f: A -> int, a: seq<A>, b: seq<A>)
    ensures Sum(f, a + b) == Sum(f, a) + Sum(f, b)
  {
    if b == [] {
      assert a + b == a;
    } else {
      var n := |b| - 1;
      SumConcat(f, a, b[..n]);
      assert a + b == (a + b[..n]) + [b[n]];
      SumStep(f, a + b[..n], b[n]);
    }
  }

  lemma {:induction false} SumMonotone<A>(f: A -> int, g: A -> int, xs: seq<A>)
    requires forall x :: x in xs ==> f(x) <= g(x)
    ensures Sum(f, xs) <= Sum(g, xs)
  {
    if xs != [] {
      var n := |xs| - 1;
      SumMonotone(f, g, xs[..n]);
    }
  }

  lemma {:induction false} SumAgrees<A>(f: A -> int, g: A -> int, xs: seq<A>)
    requires forall x :: x in xs ==> f(x) == g(x)
    ensures Sum(f, xs) == Sum(g, xs)
  {
    SumMonotone(f, g, xs);
    SumMonotone(g, f, xs);
  }

  lemma {:induction false} SumOfZeros<A>(f: A -> int, xs: seq<A>)
    requires forall x :: x in xs ==> f(x) == 0
    ensures Sum(f, xs) == 0
  {
    if xs != [] {
      SumOfZeros(f, xs[..|xs| - 1]);
    }
  }

  /** If `f` and `g` differ only at one element of a duplicate-free sequence,
      their sums differ by exactly that much. */
  lemma {:induction false} SumDiffersAt<A>(f: A -> int, g: A -> int, xs: seq<A>, y: A)
    requires NoDuplicates(xs)
    requires forall x :: x in xs && x != y ==> f(x) == g(x)
    ensures Sum(g, xs) - Sum(f, xs) == if y in xs then g(y) - f(y) else 0
  {
    if xs != [] {
      var n := |xs| - 1;
      SumDiffersAt(f, g, xs[..n], y);
      assert xs == xs[..n] + [xs[n]];
    }
  }

  /** The sum of `f` differs from that of `g` by at most the sum of the differences. */
  lemma {:induction false} SumDifference<A>(f: A -> int, g: A -> int, d: A -> int, xs: seq<A>)
    requires forall x :: x in xs ==> g(x) - f(x) <= d(x)
    ensures Sum(g, xs) - Sum(f, xs) <= Sum(d, xs)
  {
    if xs != [] {
      SumDifference(f, g, d, xs[..|xs| - 1]);
    }
  }

  // ----- counting -----

  /** 1 for a member of `s`, 0 otherwise. */
  ghost function Indicator<A>(s: set<A>): A -> int
  {
    (x: A) => if x in s then 1 else 0
  }

  /** Counting the members of `s` along a duplicate-free sequence gives the
      size of the part of `s` that the sequence covers. */
  lemma {:induction false} CountIsCardinality<A>(s: set<A>, xs: seq<A>)
    requires NoDuplicates(xs)
    ensures Sum(Indicator(s), xs) == |set x | x in s && x in xs|
  {
    var covered := set x | x in s && x in xs;
    if xs == [] {
      assert covered == {};
    } else {
      var n := |xs| - 1;
      CountIsCardinality(s, xs[..n]);
      var before := set x | x in s && x in xs[..n];
      assert xs == xs[..n] + [xs[n]];
      assert xs[n] !in before;
      if xs[n] in s {
        assert covered == before + {xs[n]};
      } else {
        assert covered == before;
      }
    }
  }

  lemma SubsetCardinality<A>(a: set<A>, b: set<A>)
    requires a <= b
    ensures |a| <= |b|
  {
    assert b == a + (b - a);
  }
}
