/** Facts about sequences, bags (multisets) and weighted sums that the models of the
    scheduler share: a sum depends only on the bag it ranges over, a sorted sequence is
    determined by its bag, and so is the choice of the k smallest elements. */
module Bags {

  // ----- sums over a GPU list ---------------------------------------------------------

  /** What one GPU with v milli left contributes to a sum over a node's GPU list. */
  datatype Measure =
    | Idle              // the milli left itself
    | Stranded(bar: int) // the milli left, on GPUs too small for a request of bar
    | Fits(bar: int)    // one, on every GPU that can take a request of bar
    | Equals(bar: int)  // one, on every GPU with exactly bar left

  function Weigh(g: Measure, v: int): int {
    match g
    case Idle => v
    case Stranded(bar) => if v < bar then v else 0
    case Fits(bar) => if bar <= v then 1 else 0
    case Equals(bar) => if v == bar then 1 else 0
  }

  function SumBy(g: Measure, s: seq<int>): int {
    if s == [] then 0 else SumBy(g, s[..|s| - 1]) + Weigh(g, s[|s| - 1])
  }

  lemma {:induction false} SumByAppend(g: Measure, a: seq<int>, b: seq<int>)
    ensures SumBy(g, a + b) == SumBy(g, a) + SumBy(g, b)
    decreases |b|
  {
    if b == [] {
      assert a + b == a;
    } else {
      var k := |b| - 1;
      SumByAppend(g, a, b[..k]);
      assert (a + b)[..|a + b| - 1] == a + b[..k];
    }
  }

  lemma {:induction false} SumByUpdate(g: Measure, s: seq<int>, i: nat, v: int)
    requires i < |s|
    ensures SumBy(g, s[i := v]) == SumBy(g, s) - Weigh(g, s[i]) + Weigh(g, v)
  {
    SumBySplit(g, s, i);
    SumBySplit(g, s[i := v], i);
    assert s[i := v][..i] == s[..i];
    assert s[i := v][i + 1..] == s[i + 1..];
  }

  lemma {:induction false} SumBySplit(g: Measure, s: seq<int>, i: nat)
    requires i < |s|
    ensures SumBy(g, s) == Weigh(g, s[i]) + SumBy(g, s[..i] + s[i + 1..])
  {
    SumByAppend(g, s[..i], s[i + 1..]);
    SumByAppend(g, s[..i], [s[i]]);
    SumByAppend(g, s[..i] + [s[i]], s[i + 1..]);
    assert s == s[..i] + [s[i]] + s[i + 1..];
    assert [s[i]][..0] == [];
  }

  lemma {:induction false} SumByEquals(s: seq<int>, v: int)
    ensures SumBy(Equals(v), s) == multiset(s)[v]
  {
    if s != [] {
      var k := |s| - 1;
      SumByEquals(s[..k], v);
      assert s == s[..k] + [s[k]];
    }
  }

  /** A bag of idle capacities with the fully used GPUs forgotten. */
  function NonZero(b: multiset<int>): multiset<int> {
    b[0 := 0]
  }

  lemma {:induction false} SumByWithout(g: Measure, s: seq<int>, x: int) returns (rest: seq<int>)
    requires x in s
    ensures |rest| == |s| - 1
    ensures multiset(rest) == multiset(s) - multiset{x}
    ensures SumBy(g, s) == Weigh(g, x) + SumBy(g, rest)
  {
    var j :| 0 <= j < |s| && s[j] == x;
    SumBySplit(g, s, j);
    rest := s[..j] + s[j + 1..];
    assert s == s[..j] + [s[j]] + s[j + 1..];
  }

  lemma {:induction false} SumByZeros(g: Measure, s: seq<int>)
    requires Weigh(g, 0) == 0
    requires forall i | 0 <= i < |s| :: s[i] == 0
    ensures SumBy(g, s) == 0
  {
    if s != [] {
      SumByZeros(g, s[..|s| - 1]);
    }
  }

  lemma NonZeroWithout(b: multiset<int>, x: int)
    requires x in b
    ensures NonZero(b - multiset{x}) == if x == 0 then NonZero(b) else NonZero(b) - multiset{x}
  {
  }

  lemma InBoth(a: multiset<int>, b: multiset<int>, x: int)
    requires NonZero(a) == NonZero(b) && x in a && x != 0
    ensures x in b
  {
    assert NonZero(a)[x] == a[x] && NonZero(b)[x] == b[x];
  }

  /** A sum in which a fully used GPU weighs nothing does not depend on GPU order nor on
      how many fully used GPUs the node has. */
  lemma {:induction false} SumByBag(g: Measure, a: seq<int>, b: seq<int>)
    requires NonZero(multiset(a)) == NonZero(multiset(b))
    requires Weigh(g, 0) == 0
    ensures SumBy(g, a) == SumBy(g, b)
    decreases |a|
  {
    if a == [] {
      forall i | 0 <= i < |b| ensures b[i] == 0 {
        assert b[i] in multiset(b);
        assert NonZero(multiset(b))[b[i]] == 0;
      }
      SumByZeros(g, b);
    } else {
      var x := a[0];
      assert x in multiset(a);
      var a' := SumByWithout(g, a, x);
      NonZeroWithout(multiset(a), x);
      if x == 0 {
        SumByBag(g, a', b);
      } else {
        InBoth(multiset(a), multiset(b), x);
        var b' := SumByWithout(g, b, x);
        NonZeroWithout(multiset(b), x);
        SumByBag(g, a', b');
      }
    }
  }

  lemma {:induction false} SumByBounds(s: seq<int>, bar: int)
    requires forall i | 0 <= i < |s| :: 0 <= s[i]
    ensures 0 <= SumBy(Stranded(bar), s) <= SumBy(Idle, s)
    ensures 0 <= SumBy(Fits(bar), s) <= |s|
  {
    if s != [] {
      SumByBounds(s[..|s| - 1], bar);
    }
  }

  // ----- sorted sequences are determined by their bag ---------------------------------

  ghost predicate SortedBy<T(!new)>(leq: (T, T) -> bool, s: seq<T>) {
    forall i, j | 0 <= i < j < |s| :: leq(s[i], s[j])
  }

  lemma SortedLeast<T(!new)>(leq: (T, T) -> bool, a: seq<T>, x: T)
    requires SortedBy(leq, a) && x in a
    ensures x == a[0] || leq(a[0], x)
  {
  }

  lemma TailBag<T>(s: seq<T>)
    requires s != []
    ensures multiset(s[1..]) == multiset(s) - multiset{s[0]}
  {
    assert s == [s[0]] + s[1..];
  }

  lemma SameSize<T>(a: seq<T>, b: seq<T>)
    requires multiset(a) == multiset(b)
    ensures |a| == |b|
  {
    assert |multiset(a)| == |a| && |multiset(b)| == |b|;
  }

  lemma SameFirst<T(!new)>(leq: (T, T) -> bool, a: seq<T>, b: seq<T>)
    requires SortedBy(leq, a) && SortedBy(leq, b) && multiset(a) == multiset(b) && a != [] && b != []
    requires forall x, y | x in a && y in a && leq(x, y) && leq(y, x) :: x == y
    ensures a[0] == b[0]
  {
    var x, y := a[0], b[0];
    assert x in multiset(b) && y in multiset(a);
    SortedLeast(leq, a, y);
    SortedLeast(leq, b, x);
  }

  lemma {:induction false} SortedUnique<T(!new)>(leq: (T, T) -> bool, a: seq<T>, b: seq<T>)
    requires SortedBy(leq, a) && SortedBy(leq, b)
    requires multiset(a) == multiset(b)
    requires forall x, y | x in a && y in a && leq(x, y) && leq(y, x) :: x == y
    ensures a == b
  {
    SameSize(a, b);
    if a != [] {
      SameFirst(leq, a, b);
      TailBag(a);
      TailBag(b);
      SortedUnique(leq, a[1..], b[1..]);
      assert a == [a[0]] + a[1..] && b == [b[0]] + b[1..];
    }
  }

  // ----- choosing the k smallest of a bag ---------------------------------------------

  /** chosen takes k elements of pool, and nothing it leaves is smaller than what it takes. */
  ghost predicate KSmallest(pool: multiset<int>, k: nat, chosen: multiset<int>) {
    && chosen <= pool
    && |chosen| == k
    && forall x, y | x in chosen && y in pool - chosen :: x <= y
  }

  lemma SubsetSize<T>(a: set<T>, b: set<T>)
    requires a <= b
    ensures |a| <= |b|
  {
    assert b == a + (b - a);
  }

  lemma SubBagOfEqualSize(a: multiset<int>, b: multiset<int>)
    requires |a| == |b| && a <= b
    ensures a == b
  {
    assert b == a + (b - a);
    assert |b - a| == 0;
  }

  lemma KSmallestOrder(pool: multiset<int>, k: nat, chosen: multiset<int>, x: int, y: int)
    requires KSmallest(pool, k, chosen)
    requires x in chosen && chosen[y] < pool[y]
    ensures x <= y
  {
    assert y in pool - chosen;
  }

  /** The k smallest are the same bag however the choice was made. */
  lemma KSmallestUnique(pool: multiset<int>, k: nat, a: multiset<int>, b: multiset<int>)
    requires KSmallest(pool, k, a) && KSmallest(pool, k, b)
    ensures a == b
  {
    if x :| a[x] > b[x] {
      if y :| b[y] > a[y] {
        assert b[x] < pool[x] && a[y] < pool[y];
        KSmallestOrder(pool, k, a, x, y);
        KSmallestOrder(pool, k, b, y, x);
        assert false;
      } else {
        assert forall y :: b[y] <= a[y];
        SubBagOfEqualSize(b, a);
      }
    } else {
      assert forall x :: a[x] <= b[x];
      SubBagOfEqualSize(a, b);
    }
  }
}
