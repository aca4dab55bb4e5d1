/** Sorting by a total preorder, and sorted sequences as chains of neighbours in order. */
module Sorting {

  ghost predicate TotalPreorder<T(!new)>(leq: (T, T) -> bool) {
    && (forall x, y :: leq(x, y) || leq(y, x))
    && forall x, y, z :: leq(x, y) && leq(y, z) ==> leq(x, z)
  }

  predicate Chain<T>(leq: (T, T) -> bool, s: seq<T>) {
    |s| <= 1 || (Chain(leq, s[..|s| - 1]) && leq(s[|s| - 2], s[|s| - 1]))
  }

  lemma {:induction false} ChainPair<T(!new)>(leq: (T, T) -> bool, s: seq<T>, i: nat, j: nat)
    requires TotalPreorder(leq) && Chain(leq, s) && i < j < |s|
    ensures leq(s[i], s[j])
  {
    if j < |s| - 1 {
      ChainPair(leq, s[..|s| - 1], i, j);
    } else if i < |s| - 2 {
      ChainPair(leq, s[..|s| - 1], i, |s| - 2);
    }
  }

  lemma ChainAppend<T>(leq: (T, T) -> bool, s: seq<T>, x: T)
    requires Chain(leq, s) && (s != [] ==> leq(s[|s| - 1], x))
    ensures Chain(leq, s + [x])
  {
    var t := s + [x];
    if s != [] {
      assert t[..|t| - 1] == s;
      assert t[|t| - 2] == s[|s| - 1];
    }
  }

  function InsertAt<T>(s: seq<T>, x: T, j: nat): seq<T>
    requires j <= |s|
  {
    s[..j] + ([x] + s[j..])
  }

  lemma InsertedBag<T>(s: seq<T>, x: T, j: nat)
    requires j <= |s|
    ensures multiset(InsertAt(s, x, j)) == multiset(s) + multiset{x}
  {
    assert s == s[..j] + s[j..];
  }

  lemma InsertedLast<T>(s: seq<T>, x: T, j: nat)
    requires j < |s|
    ensures var rest := InsertAt(s[..|s| - 1], x, j);
      InsertAt(s, x, j) == rest + [s[|s| - 1]] && rest[|rest| - 1] == if j == |s| - 1 then x else s[|s| - 2]
  {
  }

  lemma {:induction false} InsertedChain<T>(leq: (T, T) -> bool, s: seq<T>, x: T, j: nat)
    requires Chain(leq, s) && j <= |s|
    requires forall k | j <= k < |s| :: leq(x, s[k])
    requires j > 0 ==> leq(s[j - 1], x)
    ensures Chain(leq, InsertAt(s, x, j))
    decreases |s|
  {
    if j == |s| {
      ChainAppend(leq, s, x);
      assert InsertAt(s, x, j) == s + [x];
    } else {
      InsertedChain(leq, s[..|s| - 1], x, j);
      InsertedLast(s, x, j);
      ChainAppend(leq, InsertAt(s[..|s| - 1], x, j), s[|s| - 1]);
    }
  }

  method Insert<T(!new)>(leq: (T, T) -> bool, s: seq<T>, x: T) returns (r: seq<T>)
    requires TotalPreorder(leq) && Chain(leq, s)
    ensures Chain(leq, r) && multiset(r) == multiset(s) + multiset{x}
  {
    var j := |s|;
    while j > 0 && !leq(s[j - 1], x)
      invariant 0 <= j <= |s|
      invariant forall k | j <= k < |s| :: leq(x, s[k])
    {
      j := j - 1;
    }
    InsertedChain(leq, s, x, j);
    InsertedBag(s, x, j);
    r := InsertAt(s, x, j);
  }

  /** An insertion sort, as the library sorts short slices; elements that tie may land in any
      order as far as callers can tell. */
  method Sort<T(!new)>(leq: (T, T) -> bool, s: seq<T>) returns (r: seq<T>)
    requires TotalPreorder(leq)
    ensures Chain(leq, r) && multiset(r) == multiset(s)
  {
    r := [];
    for i := 0 to |s|
      invariant Chain(leq, r) && multiset(r) == multiset(s[..i])
    {
      assert s[..i + 1] == s[..i] + [s[i]];
      r := Insert(leq, r, s[i]);
    }
    assert s[..|s|] == s;
  }
}
