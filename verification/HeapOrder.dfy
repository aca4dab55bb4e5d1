/** The library heap over elements with a key: what one swap of sifting up or down keeps, and
    why the root is least. The pod traces and the victim queue both sift by these steps. */
module HeapOrder {

  /** Go's division truncates, so the parent of the root is the root. */
  function Parent(c: nat): nat {
    if c == 0 then 0 else (c - 1) / 2
  }

  predicate Link<T>(key: T -> real, h: seq<T>, c: nat)
    requires c < |h|
  {
    key(h[Parent(c)]) <= key(h[c])
  }

  /** The element at c is in order with its grandparent. */
  predicate Skips<T>(key: T -> real, h: seq<T>, c: nat)
    requires c < |h|
  {
    key(h[Parent(Parent(c))]) <= key(h[c])
  }

  /** Among the first n positions, every child whose parent is at lo or after is in order. */
  predicate HeapFrom<T>(key: T -> real, h: seq<T>, n: nat, lo: nat)
    requires n <= |h|
  {
    forall c {:trigger Link(key, h, c)} | 0 < c < n && lo <= Parent(c) :: Link(key, h, c)
  }

  predicate IsHeap<T>(key: T -> real, h: seq<T>) {
    HeapFrom(key, h, |h|, 0)
  }

  /** Only the links of position i may be out of order, and its parent is in order with its
      children: the state while the element at i is being sifted. */
  predicate Broken<T>(key: T -> real, h: seq<T>, n: nat, lo: nat, i: nat)
    requires n <= |h|
  {
    && (forall c {:trigger Link(key, h, c)} | 0 < c < n && lo <= Parent(c) && c != i && Parent(c) != i ::
          Link(key, h, c))
    && (0 < i && lo <= Parent(i) ==>
          forall c {:trigger Skips(key, h, c)} | 0 < c < n && Parent(c) == i :: Skips(key, h, c))
  }

  /** The element at i is in order with its parent. */
  predicate UpOk<T>(key: T -> real, h: seq<T>, lo: nat, i: nat)
    requires i < |h|
  {
    0 < i && lo <= Parent(i) ==> Link(key, h, i)
  }

  /** The element at i is in order with its children. */
  predicate DownOk<T>(key: T -> real, h: seq<T>, n: nat, i: nat)
    requires n <= |h|
  {
    forall c {:trigger Link(key, h, c)} | 0 < c < n && Parent(c) == i :: Link(key, h, c)
  }

  function Swapped<T>(h: seq<T>, i: nat, j: nat): (r: seq<T>)
    requires i < |h| && j < |h|
    ensures |r| == |h|
  {
    h[i := h[j]][j := h[i]]
  }

  lemma SwappedBag<T>(h: seq<T>, i: nat, j: nat)
    requires i < |h| && j < |h|
    ensures multiset(Swapped(h, i, j)) == multiset(h)
  {
  }

  /** The child that sifting down compares with: the left one unless the right one is less. */
  function SmallerChild<T>(key: T -> real, h: seq<T>, n: nat, i: nat): (j: nat)
    requires 2 * i + 1 < n <= |h|
    ensures i < j < n && Parent(j) == i
  {
    if 2 * i + 2 < n && key(h[2 * i + 2]) < key(h[2 * i + 1]) then 2 * i + 2 else 2 * i + 1
  }

  lemma DownStep<T>(key: T -> real, h: seq<T>, n: nat, lo: nat, i: nat)
    requires 2 * i + 1 < n <= |h| && lo <= i && Broken(key, h, n, lo, i)
    requires key(h[SmallerChild(key, h, n, i)]) < key(h[i])
    ensures var j := SmallerChild(key, h, n, i);
      Broken(key, Swapped(h, i, j), n, lo, j) && UpOk(key, Swapped(h, i, j), lo, j)
  {
    var j := SmallerChild(key, h, n, i);
    var s := Swapped(h, i, j);
    forall c | 0 < c < n && lo <= Parent(c) && c != j && Parent(c) != j ensures Link(key, s, c) {
      if c == i {
        assert Skips(key, h, j);
      } else if Parent(c) != i {
        assert Link(key, h, c);
      }
    }
    forall c | 0 < c < n && Parent(c) == j ensures Skips(key, s, c) {
      assert Link(key, h, c);
    }
  }

  lemma DownStop<T>(key: T -> real, h: seq<T>, n: nat, i: nat)
    requires i < n <= |h|
    requires 2 * i + 1 < n ==> key(h[i]) <= key(h[SmallerChild(key, h, n, i)])
    ensures DownOk(key, h, n, i)
  {
  }

  lemma UpStep<T>(key: T -> real, h: seq<T>, n: nat, j: nat)
    requires 0 < j < n <= |h| && Broken(key, h, n, 0, j) && DownOk(key, h, n, j)
    requires key(h[j]) < key(h[Parent(j)])
    ensures var i := Parent(j);
      Broken(key, Swapped(h, i, j), n, 0, i) && DownOk(key, Swapped(h, i, j), n, i)
  {
    var i := Parent(j);
    var s := Swapped(h, i, j);
    forall c | 0 < c < n && c != i && Parent(c) != i ensures Link(key, s, c) {
      if Parent(c) == j {
        assert Skips(key, h, c);
      } else {
        assert Link(key, h, c);
      }
    }
    forall c | 0 < c < n && Parent(c) == i
      ensures Link(key, s, c) && (0 < i ==> Skips(key, s, c))
    {
      assert 0 < i ==> Link(key, h, i);
      if c != j {
        assert Link(key, h, c);
      }
    }
  }

  /** Once the sifted element is in order both ways the whole heap is. */
  lemma Mended<T>(key: T -> real, h: seq<T>, n: nat, lo: nat, i: nat)
    requires i < n <= |h| && Broken(key, h, n, lo, i)
    requires UpOk(key, h, lo, i) && DownOk(key, h, n, i)
    ensures HeapFrom(key, h, n, lo)
  {
  }

  lemma {:induction false} RootLeast<T>(key: T -> real, h: seq<T>, n: nat, c: nat)
    requires c < n <= |h| && HeapFrom(key, h, n, 0)
    ensures key(h[0]) <= key(h[c])
  {
    if c > 0 {
      RootLeast(key, h, n, Parent(c));
      assert Link(key, h, c);
    }
  }

  /** Appending one element breaks at most its own link. */
  lemma AppendBreaksLast<T>(key: T -> real, h: seq<T>, x: T)
    requires IsHeap(key, h)
    ensures Broken(key, h + [x], |h| + 1, 0, |h|) && DownOk(key, h + [x], |h| + 1, |h|)
  {
    forall c | 0 < c < |h| ensures Link(key, h + [x], c) {
      assert Link(key, h, c);
    }
  }

  /** Swapping the root with the last element breaks at most the root's links among the rest. */
  lemma PopBreaksRoot<T>(key: T -> real, h: seq<T>)
    requires 0 < |h| && IsHeap(key, h)
    ensures Broken(key, Swapped(h, 0, |h| - 1), |h| - 1, 0, 0)
  {
    forall c | 0 < c < |h| - 1 && Parent(c) != 0 ensures Link(key, Swapped(h, 0, |h| - 1), c) {
      assert Link(key, h, c);
    }
  }

  /** Dropping positions behind n keeps the heap. */
  lemma HeapTake<T>(key: T -> real, h: seq<T>, n: nat)
    requires n <= |h| && HeapFrom(key, h, n, 0)
    ensures IsHeap(key, h[..n])
  {
    forall c | 0 < c < n ensures Link(key, h[..n], c) {
      assert Link(key, h, c);
    }
  }
}
