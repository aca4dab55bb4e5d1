/** The priority queue of the descheduler: a heap of items, largest priority first, whose items
    know their own positions. */
module VictimQueue {
  import opened Frag
  import opened HeapOrder

  class Item {
    var value: FragAmount
    var priority: real
    var index: int

    constructor (v: FragAmount, p: real, i: int)
      ensures value == v && priority == p && index == i
    {
      value, priority, index := v, p, i;
    }
  }

  /** What an item holds. */
  datatype Entry = Entry(value: FragAmount, priority: real)

  /** The largest priority is the root. */
  function Rank(e: Entry): real { -e.priority }

  class PriorityQueue {
    var items: seq<Item>
    ghost var entries: seq<Entry>
    ghost var repr: set<Item>

    /** Every item is at the position it knows. */
    ghost predicate Valid()
      reads this, repr
    {
      && |items| == |entries|
      && forall i | 0 <= i < |items| ::
           items[i] in repr && items[i].index == i && Entry(items[i].value, items[i].priority) == entries[i]
    }

    constructor (init: seq<Item>, ghost contents: seq<Entry>)
      requires |init| == |contents|
      requires forall i | 0 <= i < |init| :: init[i].index == i && Entry(init[i].value, init[i].priority) == contents[i]
      ensures Valid() && items == init && entries == contents && repr == set x | x in init
    {
      items, entries, repr := init, contents, set x | x in init;
    }

    method Swap(i: nat, j: nat)
      requires Valid() && i < |items| && j < |items|
      modifies this, repr
      ensures Valid() && repr == old(repr)
      ensures items == Swapped(old(items), i, j) && entries == Swapped(old(entries), i, j)
      ensures multiset(entries) == multiset(old(entries))
    {
      SwappedBag(entries, i, j);
      items := items[i := items[j]][j := items[i]];
      items[i].index := i;
      items[j].index := j;
      entries := Swapped(entries, i, j);
    }

    method LesserChild(n: nat, i: nat) returns (j: nat)
      requires Valid() && 2 * i + 1 < n <= |items|
      ensures j == SmallerChild(Rank, entries, n, i)
    {
      j := 2 * i + 1;
      if j + 1 < n && items[j + 1].priority > items[j].priority {
        j := j + 1;
      }
    }

    method Up(j0: nat)
      requires Valid() && j0 < |items|
      requires Broken(Rank, entries, |entries|, 0, j0) && DownOk(Rank, entries, |entries|, j0)
      modifies this, repr
      ensures Valid() && repr == old(repr)
      ensures IsHeap(Rank, entries) && multiset(entries) == multiset(old(entries))
    {
      var j: nat := j0;
      while true
        invariant Valid() && repr == old(repr)
        invariant j < |entries| == |old(entries)| && multiset(entries) == multiset(old(entries))
        invariant Broken(Rank, entries, |entries|, 0, j) && DownOk(Rank, entries, |entries|, j)
        decreases j
      {
        var i := Parent(j);
        if i == j || !(items[j].priority > items[i].priority) {
          Mended(Rank, entries, |entries|, 0, j);
          break;
        }
        UpStep(Rank, entries, |entries|, j);
        Swap(i, j);
        j := i;
      }
    }

    /** Swaps the element with its larger child, unless it is in order with both. */
    method SinkOnce(i: nat, n: nat, ghost lo: nat) returns (j: nat)
      requires Valid() && 2 * i + 1 < n <= |items| && lo <= i && Broken(Rank, entries, n, lo, i)
      modifies this, repr
      ensures Valid() && repr == old(repr)
      ensures |entries| == |old(entries)| && multiset(entries) == multiset(old(entries))
      ensures entries[n..] == old(entries)[n..]
      ensures j == i ==> entries == old(entries) && Rank(entries[i]) <= Rank(entries[SmallerChild(Rank, entries, n, i)])
      ensures j != i ==> i < j < n && Broken(Rank, entries, n, lo, j) && UpOk(Rank, entries, lo, j)
    {
      j := LesserChild(n, i);
      if items[j].priority > items[i].priority {
        DownStep(Rank, entries, n, lo, i);
        Swap(i, j);
      } else {
        j := i;
      }
    }

    method Down(i0: nat, n: nat, ghost lo: nat) returns (moved: bool)
      requires Valid() && n <= |items| && lo <= i0 && (i0 < n || i0 == n == 0)
      requires Broken(Rank, entries, n, lo, i0)
      modifies this, repr
      ensures Valid() && repr == old(repr)
      ensures |entries| == |old(entries)| && multiset(entries) == multiset(old(entries))
      ensures entries[n..] == old(entries)[n..]
      ensures moved || i0 == n || UpOk(Rank, old(entries), lo, i0) ==> HeapFrom(Rank, entries, n, lo)
      ensures !moved && i0 < n ==> entries == old(entries) && DownOk(Rank, entries, n, i0)
    {
      var i: nat := i0;
      while 2 * i + 1 < n
        invariant Valid() && repr == old(repr)
        invariant i0 <= i && (i < n || i == n == 0)
        invariant |entries| == |old(entries)| && multiset(entries) == multiset(old(entries))
        invariant entries[n..] == old(entries)[n..]
        invariant Broken(Rank, entries, n, lo, i)
        invariant if i == i0 then entries == old(entries) else UpOk(Rank, entries, lo, i)
        decreases n - i
      {
        var j := SinkOnce(i, n, lo);
        if j == i {
          break;
        }
        i := j;
      }
      moved := i > i0;
      SiftedDown(old(entries), entries, n, lo, i0, i);
    }

    /** Sifts every parent down, from the last one to the root. */
    method Init()
      requires Valid()
      modifies this, repr
      ensures Valid() && repr == old(repr)
      ensures IsHeap(Rank, entries) && multiset(entries) == multiset(old(entries))
    {
      var n := |items|;
      var i := n / 2;
      while i > 0
        invariant 0 <= i <= n / 2 && n == |entries|
        invariant Valid() && repr == old(repr)
        invariant HeapFrom(Rank, entries, n, i) && multiset(entries) == multiset(old(entries))
      {
        i := i - 1;
        var moved := Down(i, n, i);
      }
    }

    /** Restores the heap after the element at i has changed. */
    method Fix(i: nat)
      requires Valid() && i < |items| && Broken(Rank, entries, |entries|, 0, i)
      modifies this, repr
      ensures Valid() && repr == old(repr)
      ensures IsHeap(Rank, entries) && multiset(entries) == multiset(old(entries))
    {
      var moved := Down(i, |items|, 0);
      if !moved {
        Up(i);
      }
    }

    /** Appends the item and moves it to its place. */
    method Push(item: Item)
      requires Valid() && IsHeap(Rank, entries) && item !in repr
      modifies this, repr, item
      ensures Valid() && repr == old(repr) + {item}
      ensures IsHeap(Rank, entries)
      ensures multiset(entries) == multiset(old(entries)) + multiset{old(Entry(item.value, item.priority))}
    {
      var n := |items|;
      item.index := n;
      AppendBreaksLast(Rank, entries, Entry(item.value, item.priority));
      items := items + [item];
      entries := entries + [Entry(item.value, item.priority)];
      repr := repr + {item};
      Fix(n);
    }

    /** Takes the last item off and marks it as out of the queue. */
    method Pop() returns (item: Item)
      requires Valid() && 0 < |items|
      modifies this, repr
      ensures Valid() && item in old(repr) && repr == old(repr) - {item} && item.index == -1
      ensures entries == old(entries)[..|old(entries)| - 1]
      ensures Entry(item.value, item.priority) == old(entries)[|old(entries)| - 1]
    {
      var n := |items|;
      item := items[n - 1];
      item.index := -1;
      items := items[..n - 1];
      entries := entries[..n - 1];
      repr := repr - {item};
    }

    /** Takes the item of the largest priority. */
    method PopLargest() returns (item: Item)
      requires Valid() && 0 < |items| && IsHeap(Rank, entries)
      modifies this, repr
      ensures Valid() && item in old(repr) && repr == old(repr) - {item} && item.index == -1
      ensures IsHeap(Rank, entries)
      ensures multiset(old(entries)) == multiset(entries) + multiset{Entry(item.value, item.priority)}
      ensures forall e | e in old(entries) :: e.priority <= item.priority
    {
      var n := |items| - 1;
      LargestIsRoot(entries);
      PopBreaksRoot(Rank, entries);
      Swap(0, n);
      ghost var swapped := entries;
      var moved := Down(0, n, 0);
      ghost var after := entries;
      LeavesTheRest(old(entries), swapped, after, n);
      item := Pop();
      assert entries == after[..n] && Entry(item.value, item.priority) == after[n];
    }
  }

  /** Where sifting down stops the element is in order with its children; if it moved, or was in
      order with its parent, the heap is whole. */
  lemma SiftedDown(before: seq<Entry>, after: seq<Entry>, n: nat, lo: nat, i0: nat, i: nat)
    requires i0 <= i && n <= |after| == |before| && (i < n || i == n == 0)
    requires Broken(Rank, after, n, lo, i)
    requires if i == i0 then after == before else i < n && UpOk(Rank, after, lo, i)
    requires 2 * i + 1 < n ==> Rank(after[i]) <= Rank(after[SmallerChild(Rank, after, n, i)])
    ensures i0 < i || i0 == n || UpOk(Rank, before, lo, i0) ==> HeapFrom(Rank, after, n, lo)
    ensures i == i0 < n ==> DownOk(Rank, after, n, i0)
  {
    if i < n {
      DownStop(Rank, after, n, i);
      if UpOk(Rank, after, lo, i) {
        Mended(Rank, after, n, lo, i);
      }
    }
  }

  lemma LargestIsRoot(entries: seq<Entry>)
    requires IsHeap(Rank, entries) && 0 < |entries|
    ensures forall e | e in entries :: e.priority <= entries[0].priority
  {
    forall c | 0 <= c < |entries| ensures entries[c].priority <= entries[0].priority {
      RootLeast(Rank, entries, |entries|, c);
    }
  }

  /** The root went to the end, and the rest is a heap again. */
  lemma LeavesTheRest(before: seq<Entry>, swapped: seq<Entry>, after: seq<Entry>, n: nat)
    requires |before| == |after| == n + 1 && swapped == Swapped(before, 0, n)
    requires multiset(after) == multiset(before) && after[n..] == swapped[n..]
    requires HeapFrom(Rank, after, n, 0)
    ensures after[n] == before[0] && IsHeap(Rank, after[..n])
    ensures multiset(before) == multiset(after[..n]) + multiset{after[n]}
  {
    HeapTake(Rank, after, n);
    assert after[n] == after[n..][0] == swapped[n..][0];
    assert after == after[..n] + [after[n]];
  }
}
