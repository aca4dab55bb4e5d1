/** The stable index sort over a node's GPU list: the list keeps device order, and every
    ranking of devices goes through a sorted list of device indices. */
module IndexSort {
  import opened Bags

  /** Device i comes before device j: less milli left (more, when descending), and on a
      tie the lower device index. */
  predicate Before(list: seq<int>, ascending: bool, i: int, j: int)
    requires 0 <= i < |list| && 0 <= j < |list|
  {
    (if ascending then list[i] < list[j] else list[i] > list[j]) || (list[i] == list[j] && i < j)
  }

  predicate Indices(list: seq<int>, s: seq<int>) {
    forall k | 0 <= k < |s| :: 0 <= s[k] < |list|
  }

  predicate Ranked(list: seq<int>, ascending: bool, s: seq<int>)
    requires Indices(list, s)
  {
    forall a, b | 0 <= a < b < |s| :: Before(list, ascending, s[a], s[b])
  }

  /** order lists every device exactly once, in rank order. */
  predicate IsStableOrder(list: seq<int>, ascending: bool, order: seq<int>) {
    && |order| == |list|
    && Indices(list, order)
    && Ranked(list, ascending, order)
    && forall i | 0 <= i < |list| :: i in order
  }

  /** Puts x at its place in s, coming from the right: behind whatever ranks before it. */
  function Insert(list: seq<int>, ascending: bool, s: seq<int>, x: int): (r: seq<int>)
    requires Indices(list, s) && 0 <= x < |list|
    ensures |r| == |s| + 1 && Indices(list, r)
  {
    if s != [] && Before(list, ascending, x, s[|s| - 1]) then
      Insert(list, ascending, s[..|s| - 1], x) + [s[|s| - 1]]
    else
      s + [x]
  }

  lemma {:induction false} InsertMembers(list: seq<int>, ascending: bool, s: seq<int>, x: int)
    requires Indices(list, s) && 0 <= x < |list|
    ensures forall i :: i in Insert(list, ascending, s, x) <==> i == x || i in s
  {
    if s != [] && Before(list, ascending, x, s[|s| - 1]) {
      InsertMembers(list, ascending, s[..|s| - 1], x);
      assert s == s[..|s| - 1] + [s[|s| - 1]];
    }
  }

  predicate AllBefore(list: seq<int>, ascending: bool, s: seq<int>, x: int)
    requires Indices(list, s) && 0 <= x < |list|
  {
    forall a | 0 <= a < |s| :: Before(list, ascending, s[a], x)
  }

  lemma {:induction false} InsertAllBefore(list: seq<int>, ascending: bool, s: seq<int>, x: int, y: int)
    requires Indices(list, s) && 0 <= x < |list| && 0 <= y < |list|
    requires AllBefore(list, ascending, s, y) && Before(list, ascending, x, y)
    ensures AllBefore(list, ascending, Insert(list, ascending, s, x), y)
  {
    if s != [] && Before(list, ascending, x, s[|s| - 1]) {
      InsertAllBefore(list, ascending, s[..|s| - 1], x, y);
    }
  }

  lemma {:induction false} InsertRanked(list: seq<int>, ascending: bool, s: seq<int>, x: int)
    requires Indices(list, s) && 0 <= x < |list|
    requires Ranked(list, ascending, s) && x !in s
    ensures Ranked(list, ascending, Insert(list, ascending, s, x))
  {
    if s != [] {
      var front, last := s[..|s| - 1], s[|s| - 1];
      assert AllBefore(list, ascending, front, last);
      assert last in s;
      if Before(list, ascending, x, last) {
        InsertRanked(list, ascending, front, x);
        InsertAllBefore(list, ascending, front, x, last);
      } else {
        assert AllBefore(list, ascending, s, x);
      }
    }
  }

  /** The first n devices in rank order. */
  function OrderPrefix(list: seq<int>, ascending: bool, n: nat): (r: seq<int>)
    requires n <= |list|
    ensures |r| == n && Indices(list, r)
  {
    if n == 0 then [] else Insert(list, ascending, OrderPrefix(list, ascending, n - 1), n - 1)
  }

  lemma {:induction false} OrderPrefixRanked(list: seq<int>, ascending: bool, n: nat)
    requires n <= |list|
    ensures Ranked(list, ascending, OrderPrefix(list, ascending, n))
    ensures forall i :: i in OrderPrefix(list, ascending, n) <==> 0 <= i < n
  {
    if n > 0 {
      OrderPrefixRanked(list, ascending, n - 1);
      InsertRanked(list, ascending, OrderPrefix(list, ascending, n - 1), n - 1);
      InsertMembers(list, ascending, OrderPrefix(list, ascending, n - 1), n - 1);
    }
  }

  /** The one stable order of a list. */
  function StableOrder(list: seq<int>, ascending: bool): (r: seq<int>)
    ensures |r| == |list| && Indices(list, r)
  {
    OrderPrefix(list, ascending, |list|)
  }

  lemma StableOrderIsStable(list: seq<int>, ascending: bool)
    ensures IsStableOrder(list, ascending, StableOrder(list, ascending))
  {
    OrderPrefixRanked(list, ascending, |list|);
  }

  lemma {:induction false} RankedDistinct(list: seq<int>, ascending: bool, s: seq<int>, i: int)
    requires Indices(list, s) && Ranked(list, ascending, s)
    ensures multiset(s)[i] == if i in s then 1 else 0
  {
    if s != [] {
      var k := |s| - 1;
      assert s == s[..k] + [s[k]];
      RankedDistinct(list, ascending, s[..k], i);
      assert s[k] !in s[..k];
    }
  }

  /** Two ranked lists of the same devices are the same list. */
  lemma {:induction false} RankedUnique(list: seq<int>, ascending: bool, a: seq<int>, b: seq<int>)
    requires Indices(list, a) && Ranked(list, ascending, a)
    requires Indices(list, b) && Ranked(list, ascending, b)
    requires forall i :: i in a <==> i in b
    ensures a == b
  {
    forall i ensures multiset(a)[i] == multiset(b)[i] {
      RankedDistinct(list, ascending, a, i);
      RankedDistinct(list, ascending, b, i);
    }
    var leq := (i: int, j: int) =>
      0 <= i < |list| && 0 <= j < |list| && Before(list, ascending, i, j);
    SortedUnique(leq, a, b);
  }

  lemma {:induction false} StableOrderUnique(list: seq<int>, ascending: bool, order: seq<int>)
    requires IsStableOrder(list, ascending, order)
    ensures order == StableOrder(list, ascending)
  {
    var other := StableOrder(list, ascending);
    StableOrderIsStable(list, ascending);
    assert forall i | i in order :: 0 <= i < |list|;
    assert forall i | i in other :: 0 <= i < |list|;
    RankedUnique(list, ascending, order, other);
  }

  lemma {:induction false} InsertAt(list: seq<int>, ascending: bool, s: seq<int>, x: int, j: nat)
    requires Indices(list, s) && 0 <= x < |list|
    requires j <= |s|
    requires forall k | j <= k < |s| :: Before(list, ascending, x, s[k])
    requires j > 0 ==> !Before(list, ascending, x, s[j - 1])
    ensures s[..j] + [x] + s[j..] == Insert(list, ascending, s, x)
  {
    if j == |s| {
      assert s[..j] + [x] + s[j..] == s + [x];
    } else {
      var front := s[..|s| - 1];
      InsertAt(list, ascending, front, x, j);
      assert front[..j] == s[..j] && front[j..] + [s[|s| - 1]] == s[j..];
    }
  }

  /** Insertion by adjacent swaps, as the library's stable sort does on short slices. */
  method SortedMilliGpuLeftIndexList(list: seq<int>, ascending: bool) returns (indexList: seq<int>)
    ensures indexList == StableOrder(list, ascending)
  {
    indexList := [];
    for i := 0 to |list|
      invariant indexList == OrderPrefix(list, ascending, i)
    {
      indexList := SwapIntoPlace(list, ascending, indexList, i);
    }
  }

  /** Appends x to the ranked indices and swaps it down to its place. */
  method SwapIntoPlace(list: seq<int>, ascending: bool, ranked: seq<int>, x: nat) returns (index: seq<int>)
    requires Indices(list, ranked) && x < |list|
    ensures index == Insert(list, ascending, ranked, x)
  {
    index := ranked + [x];
    var j := |ranked|;
    while j > 0 && Before(list, ascending, x, ranked[j - 1])
      invariant 0 <= j <= |ranked|
      invariant index == ranked[..j] + [x] + ranked[j..]
      invariant forall k | j <= k < |ranked| :: Before(list, ascending, x, ranked[k])
    {
      assert index[j] == x && index[j - 1] == ranked[j - 1];
      index := index[j := index[j - 1]][j - 1 := index[j]];
      j := j - 1;
    }
    InsertAt(list, ascending, ranked, x, j);
  }
}
