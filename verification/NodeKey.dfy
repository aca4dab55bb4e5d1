/** The memo key of a node: CPU left, GPU type, and the idle GPU milli in descending order,
    padded with zeros to eight entries. The key forgets the node's name, its GPU order and
    its fully used GPUs, so everything stored under it has to forget them too. */
module NodeKey {
  import opened Bags
  import opened Decimal
  import opened IndexSort
  import opened Resource

  datatype NodeResourceFlat = NodeResourceFlat(milliCpu: int, milliGpu: string, gpuType: string, remark: string)

  function Zeros(n: nat): (s: seq<int>)
    ensures |s| == n && forall i | 0 <= i < n :: s[i] == 0
  {
    seq(n, _ => 0)
  }

  /** The eight entries that the key's text spells out. */
  function KeyList(list: seq<int>): (r: seq<int>)
    ensures |r| == MAX_NUM_GPU_PER_NODE
  {
    (Values(list, StableOrder(list, false)) + Zeros(MAX_NUM_GPU_PER_NODE))[..MAX_NUM_GPU_PER_NODE]
  }

  function FlattenSpec(node: NodeResource, remark: string): NodeResourceFlat {
    NodeResourceFlat(node.milliCpuLeft, Terminated(KeyList(node.milliGpuLeftList)), node.gpuType, remark)
  }

  lemma KeyListNext(list: seq<int>, i: nat)
    requires i < MAX_NUM_GPU_PER_NODE
    ensures var next := if i < |list| then list[StableOrder(list, false)[i]] else 0;
      Terminated(KeyList(list)[..i + 1]) == Terminated(KeyList(list)[..i]) + Itoa(next) + ","
  {
    var next := if i < |list| then list[StableOrder(list, false)[i]] else 0;
    assert KeyList(list)[..i + 1] == KeyList(list)[..i] + [next];
    TerminatedAppend(KeyList(list)[..i], [next]);
    assert Terminated([next]) == Itoa(next) + "," by {
      assert [next][1..] == [];
      assert Terminated([]) == "";
    }
  }

  method Flatten(node: NodeResource, remark: string) returns (nrf: NodeResourceFlat)
    ensures nrf == FlattenSpec(node, remark)
  {
    var list := node.milliGpuLeftList;
    var milliGpu := "";
    var sortedIndex := SortedMilliGpuLeftIndexList(list, false);
    for i := 0 to MAX_NUM_GPU_PER_NODE
      invariant milliGpu == Terminated(KeyList(list)[..i])
    {
      KeyListNext(list, i);
      if i < |sortedIndex| {
        milliGpu := milliGpu + Itoa(list[sortedIndex[i]]) + ",";
      } else {
        milliGpu := milliGpu + Itoa(0) + ",";
      }
    }
    assert KeyList(list)[..MAX_NUM_GPU_PER_NODE] == KeyList(list);
    nrf := NodeResourceFlat(node.milliCpuLeft, milliGpu, node.gpuType, remark);
  }

  // ----- sorting keeps the bag of idle milli -------------------------------------------

  /** The bag of milli left on the devices of s. */
  function Bag(list: seq<int>, s: seq<int>): (b: multiset<int>)
    requires Indices(list, s)
  {
    if s == [] then multiset{} else Bag(list, s[..|s| - 1]) + multiset{list[s[|s| - 1]]}
  }

  lemma {:induction false} BagSize(list: seq<int>, s: seq<int>)
    requires Indices(list, s)
    ensures |Bag(list, s)| == |s|
  {
    if s != [] {
      BagSize(list, s[..|s| - 1]);
    }
  }

  lemma {:induction false} BagOfValues(list: seq<int>, s: seq<int>)
    requires Indices(list, s)
    ensures multiset(Values(list, s)) == Bag(list, s)
  {
    if s != [] {
      BagOfValues(list, s[..|s| - 1]);
    }
  }

  lemma BagSnoc(list: seq<int>, s: seq<int>, x: int)
    requires Indices(list, s) && 0 <= x < |list|
    ensures Bag(list, s + [x]) == Bag(list, s) + multiset{list[x]}
  {
  }

  lemma AppendSnoc(a: seq<int>, b: seq<int>)
    requires b != []
    ensures a + b == (a + b[..|b| - 1]) + [b[|b| - 1]]
  {
  }

  lemma {:induction false} BagAppend(list: seq<int>, a: seq<int>, b: seq<int>)
    requires Indices(list, a) && Indices(list, b)
    ensures Bag(list, a + b) == Bag(list, a) + Bag(list, b)
  {
    if b == [] {
      assert a + b == a;
    } else {
      var k := |b| - 1;
      BagAppend(list, a, b[..k]);
      BagSnoc(list, a + b[..k], b[k]);
      AppendSnoc(a, b);
    }
  }

  lemma BagCons(list: seq<int>, c: int, s: seq<int>)
    requires Indices(list, s) && 0 <= c < |list|
    ensures Bag(list, [c] + s) == multiset{list[c]} + Bag(list, s)
  {
    BagAppend(list, [c], s);
    assert Bag(list, [c][..0]) == multiset{};
  }

  lemma {:induction false} InsertBag(list: seq<int>, ascending: bool, s: seq<int>, x: int)
    requires Indices(list, s) && 0 <= x < |list|
    ensures Bag(list, Insert(list, ascending, s, x)) == Bag(list, s) + multiset{list[x]}
  {
    if s != [] && Before(list, ascending, x, s[|s| - 1]) {
      var front := s[..|s| - 1];
      InsertBag(list, ascending, front, x);
      BagSnoc(list, Insert(list, ascending, front, x), s[|s| - 1]);
    } else {
      BagSnoc(list, s, x);
    }
  }

  lemma PrefixBag(list: seq<int>, n: nat)
    requires 0 < n <= |list|
    ensures multiset(list[..n]) == multiset(list[..n - 1]) + multiset{list[n - 1]}
  {
    assert list[..n] == list[..n - 1] + [list[n - 1]];
  }

  lemma {:induction false} OrderBag(list: seq<int>, ascending: bool, n: nat)
    requires n <= |list|
    ensures Bag(list, OrderPrefix(list, ascending, n)) == multiset(list[..n])
  {
    if n > 0 {
      OrderBag(list, ascending, n - 1);
      InsertBag(list, ascending, OrderPrefix(list, ascending, n - 1), n - 1);
      PrefixBag(list, n);
    }
  }

  lemma StableOrderBag(list: seq<int>, ascending: bool)
    ensures Bag(list, StableOrder(list, ascending)) == multiset(list)
  {
    OrderBag(list, ascending, |list|);
    assert list[..|list|] == list;
  }

  // ----- what the key identifies -------------------------------------------------------

  /** The same idle GPUs, up to order and fully used ones. */
  predicate SameIdle(a: seq<int>, b: seq<int>) {
    NonZero(multiset(a)) == NonZero(multiset(b))
  }

  /** How many GPUs are not fully used. */
  function IdleGpus(list: seq<int>): int {
    SumBy(Fits(1), list)
  }

  /** A node whose idle GPUs all find a place in the key. */
  predicate Small(node: NodeResource) {
    ValidNode(node) && IdleGpus(node.milliGpuLeftList) <= MAX_NUM_GPU_PER_NODE
  }

  predicate UpToEightGpus(node: NodeResource) {
    ValidNode(node) && |node.milliGpuLeftList| <= MAX_NUM_GPU_PER_NODE
  }

  lemma EightAreSmall(node: NodeResource)
    requires UpToEightGpus(node)
    ensures Small(node)
  {
    SumByBounds(node.milliGpuLeftList, 1);
  }

  predicate Natural(s: seq<int>) {
    forall i | 0 <= i < |s| :: 0 <= s[i]
  }

  predicate Descends(s: seq<int>) {
    forall i, j | 0 <= i < j < |s| :: s[j] <= s[i]
  }

  /** A node's idle milli in descending order. */
  function SortedIdle(list: seq<int>): (r: seq<int>)
    ensures |r| == |list|
  {
    Values(list, StableOrder(list, false))
  }

  lemma SortedIdleBag(list: seq<int>)
    requires Natural(list)
    ensures Natural(SortedIdle(list)) && Descends(SortedIdle(list))
    ensures multiset(SortedIdle(list)) == multiset(list)
    ensures IdleGpus(SortedIdle(list)) == IdleGpus(list)
  {
    StableOrderIsStable(list, false);
    StableOrderBag(list, false);
    BagOfValues(list, StableOrder(list, false));
    SumByBag(Fits(1), SortedIdle(list), list);
  }

  /** In descending order the idle GPUs come first. */
  lemma {:induction false} IdleComeFirst(s: seq<int>, i: nat)
    requires Natural(s) && Descends(s) && i < |s|
    ensures 1 <= s[i] <==> i < IdleGpus(s)
  {
    var k := |s| - 1;
    SumByBounds(s[..k], 1);
    if i < k {
      IdleComeFirst(s[..k], i);
    }
    if 1 <= s[k] && 0 < k {
      IdleComeFirst(s[..k], k - 1);
    }
  }

  /** An entry of the key is positive exactly when there are more idle GPUs than entries
      before it. */
  lemma KeyListAt(list: seq<int>, i: nat)
    requires Natural(list) && i < MAX_NUM_GPU_PER_NODE
    ensures 1 <= KeyList(list)[i] <==> i < IdleGpus(list)
  {
    SortedIdleBag(list);
    SumByBounds(list, 1);
    if i < |list| {
      IdleComeFirst(SortedIdle(list), i);
    }
  }

  lemma ZerosWeighNothing(s: seq<int>, v: int)
    requires (forall i | 0 <= i < |s| :: s[i] == 0) && v != 0
    ensures multiset(s)[v] == 0
  {
    assert v !in s;
  }

  /** What does not fit into the key is nothing. */
  lemma DroppedIsUsed(list: seq<int>, i: nat)
    requires Natural(list) && IdleGpus(list) <= MAX_NUM_GPU_PER_NODE <= i < |list|
    ensures SortedIdle(list)[i] == 0
  {
    SortedIdleBag(list);
    IdleComeFirst(SortedIdle(list), i);
  }

  lemma CutBag(s: seq<int>, padding: seq<int>, n: nat, v: int)
    requires n <= |s + padding| && v != 0
    requires (forall i | n <= i < |s| :: s[i] == 0) && forall i | 0 <= i < |padding| :: padding[i] == 0
    ensures multiset((s + padding)[..n])[v] == multiset(s)[v]
  {
    var padded := s + padding;
    ZerosWeighNothing(padded[n..], v);
    ZerosWeighNothing(padding, v);
    assert padded == padded[..n] + padded[n..];
    assert multiset(padded)[v] == multiset(padded[..n])[v] + multiset(padded[n..])[v];
    assert multiset(padded)[v] == multiset(s)[v] + multiset(padding)[v];
  }

  lemma KeyListBag(list: seq<int>)
    requires Natural(list) && IdleGpus(list) <= MAX_NUM_GPU_PER_NODE
    ensures SameIdle(KeyList(list), list)
  {
    SortedIdleBag(list);
    forall i | MAX_NUM_GPU_PER_NODE <= i < |list| ensures SortedIdle(list)[i] == 0 {
      DroppedIsUsed(list, i);
    }
    forall v ensures NonZero(multiset(KeyList(list)))[v] == NonZero(multiset(list))[v] {
      if v != 0 {
        CutBag(SortedIdle(list), Zeros(MAX_NUM_GPU_PER_NODE), MAX_NUM_GPU_PER_NODE, v);
      }
    }
  }

  lemma KeyListDescends(list: seq<int>)
    requires Natural(list)
    ensures Descends(KeyList(list))
  {
    SortedIdleBag(list);
    var key, s := KeyList(list), SortedIdle(list);
    forall i, j | 0 <= i < j < MAX_NUM_GPU_PER_NODE ensures key[j] <= key[i] {
      if j < |s| {
        assert key[i] == s[i] && key[j] == s[j];
      } else {
        assert key[j] == 0 && (key[i] == 0 || key[i] == s[i]);
      }
    }
  }

  lemma DescentUnique(a: seq<int>, b: seq<int>)
    requires Descends(a) && Descends(b) && multiset(a) == multiset(b)
    ensures a == b
  {
    SortedUnique((x: int, y: int) => x >= y, a, b);
  }

  lemma BagFromNonZero(a: seq<int>, b: seq<int>)
    requires |a| == |b| && SameIdle(a, b)
    ensures multiset(a) == multiset(b)
  {
    var x, y := multiset(a), multiset(b);
    assert x == NonZero(x)[0 := x[0]] && y == NonZero(y)[0 := y[0]];
    assert |x| == |NonZero(x)| + x[0] && |y| == |NonZero(y)| + y[0];
  }

  /** Two nodes of at most eight idle GPUs share a key exactly when they agree on CPU left, GPU
      type, remark and the bag of idle GPUs. */
  lemma KeyIdentifies(a: NodeResource, b: NodeResource, ra: string, rb: string)
    requires Small(a) && Small(b)
    ensures FlattenSpec(a, ra) == FlattenSpec(b, rb) <==>
      && a.milliCpuLeft == b.milliCpuLeft && a.gpuType == b.gpuType && ra == rb
      && SameIdle(a.milliGpuLeftList, b.milliGpuLeftList)
  {
    var x, y := KeyList(a.milliGpuLeftList), KeyList(b.milliGpuLeftList);
    KeyListBag(a.milliGpuLeftList);
    KeyListBag(b.milliGpuLeftList);
    if Terminated(x) == Terminated(y) {
      TerminatedInjective(x, y);
    }
    if SameIdle(x, y) {
      BagFromNonZero(x, y);
      KeyListDescends(a.milliGpuLeftList);
      KeyListDescends(b.milliGpuLeftList);
      SortedUnique((x: int, y: int) => x >= y, x, y);
    }
  }

  function FreeGpus(n: nat): (s: seq<int>)
    ensures |s| == n && forall i | 0 <= i < n :: s[i] == MILLI
  {
    seq(n, _ => MILLI)
  }

  lemma FreeKey(n: nat)
    requires MAX_NUM_GPU_PER_NODE <= n
    ensures KeyList(FreeGpus(n)) == FreeGpus(MAX_NUM_GPU_PER_NODE)
  {
  }

  lemma {:induction false} FreeIdle(n: nat)
    ensures SumBy(Idle, FreeGpus(n)) == MILLI * n
  {
    if n > 0 {
      FreeIdle(n - 1);
      assert FreeGpus(n)[..n - 1] == FreeGpus(n - 1);
    }
  }

  function FreeNode(n: nat): NodeResource {
    NodeResource("", 0, 0, FreeGpus(n), n, "", map[])
  }

  function Inserted(s: seq<int>, c: nat): (r: seq<int>)
    requires c <= |s|
    ensures |r| == |s| + 1
    ensures forall i | 0 <= i < |r| :: r[i] == if i < c then s[i] else if i == c then 1 else s[i - 1]
  {
    s[..c] + [1] + s[c..]
  }

  lemma InsertedDescends(s: seq<int>, c: nat)
    requires Descends(s) && c <= |s|
    requires (forall i | 0 <= i < c :: 1 <= s[i]) && forall i | c <= i < |s| :: s[i] <= 1
    ensures Descends(Inserted(s, c))
  {
    var r := Inserted(s, c);
    forall i, j | 0 <= i < j < |r| ensures r[j] <= r[i] {
      var p, q := if i < c then i else i - 1, if j < c then j else j - 1;
      if i == c {
        assert r[j] == s[q];
      } else if j == c {
        assert r[i] == s[p];
      } else {
        assert s[q] <= s[p];
      }
    }
  }

  lemma InsertedCounts(s: seq<int>, c: nat)
    requires c <= |s|
    ensures multiset(Inserted(s, c)) == multiset(s) + multiset{1}
  {
    assert s == s[..c] + s[c..];
  }

  lemma IdlePrefix(s: seq<int>)
    requires Natural(s) && Descends(s)
    ensures 0 <= IdleGpus(s) <= |s|
    ensures (forall i | 0 <= i < IdleGpus(s) :: 1 <= s[i]) && forall i | IdleGpus(s) <= i < |s| :: s[i] <= 1
  {
    SumByBounds(s, 1);
    forall i | 0 <= i < |s| ensures 1 <= s[i] <==> i < IdleGpus(s) {
      IdleComeFirst(s, i);
    }
  }

  lemma SortedWithSliver(list: seq<int>)
    requires Natural(list)
    ensures var s, c := SortedIdle(list), IdleGpus(list);
      0 <= c <= |s| && SortedIdle(list + [1]) == Inserted(s, c)
  {
    var s := SortedIdle(list);
    SortedIdleBag(list);
    SortedIdleBag(list + [1]);
    IdlePrefix(s);
    InsertedDescends(s, IdleGpus(s));
    InsertedCounts(s, IdleGpus(s));
    DescentUnique(SortedIdle(list + [1]), Inserted(s, IdleGpus(s)));
  }

  /** With eight idle GPUs or more, a further GPU with 1 milli left does not show in the key. */
  lemma KeyHidesOneMore(list: seq<int>)
    requires Natural(list) && MAX_NUM_GPU_PER_NODE <= IdleGpus(list)
    ensures KeyList(list + [1]) == KeyList(list)
  {
    SortedWithSliver(list);
  }

  /** The node with one more GPU, on which 1 milli is left. */
  function WithSliver(node: NodeResource): (r: NodeResource)
    ensures ValidNode(node) ==> ValidNode(r)
  {
    node.(milliGpuLeftList := node.milliGpuLeftList + [1], gpuNumber := node.gpuNumber + 1)
  }

  lemma SliverShows(node: NodeResource)
    ensures !SameIdle(node.milliGpuLeftList, WithSliver(node).milliGpuLeftList)
    ensures SumBy(Idle, WithSliver(node).milliGpuLeftList) == SumBy(Idle, node.milliGpuLeftList) + 1
  {
    var list := node.milliGpuLeftList;
    assert NonZero(multiset(list + [1]))[1] == NonZero(multiset(list))[1] + 1;
    assert (list + [1])[..|list|] == list;
  }

  /** The eighth entry tells how far the key can be trusted. */
  lemma SharedKeyIdentifies(a: NodeResource, b: NodeResource, remark: string)
    requires ValidNode(a) && ValidNode(b) && FlattenSpec(a, remark) == FlattenSpec(b, remark)
    requires IdleGpus(a.milliGpuLeftList) < MAX_NUM_GPU_PER_NODE
    ensures Small(b) && SameIdle(a.milliGpuLeftList, b.milliGpuLeftList)
  {
    var x, y := a.milliGpuLeftList, b.milliGpuLeftList;
    TerminatedInjective(KeyList(x), KeyList(y));
    KeyListAt(x, MAX_NUM_GPU_PER_NODE - 1);
    KeyListAt(y, MAX_NUM_GPU_PER_NODE - 1);
    KeyListBag(x);
    KeyListBag(y);
  }

  /** A node's key says which GPUs are idle, against every other node, exactly when fewer than
      eight of its GPUs are. */
  lemma KeyTellsApartIff(a: NodeResource, remark: string)
    requires ValidNode(a)
    ensures (forall b | ValidNode(b) && FlattenSpec(b, remark) == FlattenSpec(a, remark) ::
               SameIdle(a.milliGpuLeftList, b.milliGpuLeftList))
       <==> IdleGpus(a.milliGpuLeftList) < MAX_NUM_GPU_PER_NODE
  {
    if IdleGpus(a.milliGpuLeftList) < MAX_NUM_GPU_PER_NODE {
      forall b | ValidNode(b) && FlattenSpec(b, remark) == FlattenSpec(a, remark)
        ensures SameIdle(a.milliGpuLeftList, b.milliGpuLeftList)
      {
        SharedKeyIdentifies(a, b, remark);
      }
    } else {
      KeyHidesOneMore(a.milliGpuLeftList);
      SliverShows(a);
      assert FlattenSpec(WithSliver(a), remark) == FlattenSpec(a, remark);
    }
  }

  /** A free node of nine GPUs has the key of a free node of eight although it has a whole GPU
      more. */
  lemma KeyConfusesNineGpus(remark: string)
    ensures FlattenSpec(FreeNode(8), remark) == FlattenSpec(FreeNode(9), remark)
    ensures SumBy(Idle, FreeNode(9).milliGpuLeftList) == SumBy(Idle, FreeNode(8).milliGpuLeftList) + MILLI
  {
    FreeKey(8);
    FreeKey(9);
    FreeIdle(8);
    FreeIdle(9);
  }

  // ----- Sub respects the key ----------------------------------------------------------

  lemma {:induction false} KeepBag(list: seq<int>, s: seq<int>, m: int, v: int)
    requires Indices(list, s)
    ensures Bag(list, Keep(list, s, m))[v] == if m <= v then Bag(list, s)[v] else 0
  {
    if s != [] {
      var rest := s[1..];
      assert s == [s[0]] + rest;
      KeepBag(list, rest, m, v);
      BagCons(list, s[0], rest);
      if m <= list[s[0]] {
        BagCons(list, s[0], Keep(list, rest, m));
      } else {
        assert Keep(list, s, m) == Keep(list, rest, m);
      }
    }
  }

  lemma FitBag(list: seq<int>, m: int, v: int)
    ensures Bag(list, FitOrder(list, m))[v] == if m <= v then multiset(list)[v] else 0
  {
    StableOrderBag(list, true);
    KeepBag(list, StableOrder(list, true), m, v);
  }

  lemma {:induction false} BagMember(list: seq<int>, s: seq<int>, v: int) returns (k: nat)
    requires Indices(list, s) && v in Bag(list, s)
    ensures k < |s| && list[s[k]] == v
  {
    k := |s| - 1;
    if list[s[k]] != v {
      k := BagMember(list, s[..k], v);
    }
  }

  lemma FirstFitsAreSmallest(list: seq<int>, m: int, k: nat)
    requires k <= |FitOrder(list, m)|
    ensures KSmallest(Bag(list, FitOrder(list, m)), k, Bag(list, FitOrder(list, m)[..k]))
  {
    var fits := FitOrder(list, m);
    assert fits == fits[..k] + fits[k..];
    BagAppend(list, fits[..k], fits[k..]);
    var low, high := Bag(list, fits[..k]), Bag(list, fits[k..]);
    BagSize(list, fits[..k]);
    assert low + high - low == high;
    forall x, y | x in low && y in high ensures x <= y {
      var a := BagMember(list, fits[..k], x);
      var b := BagMember(list, fits[k..], y);
      assert Before(list, true, fits[a], fits[k + b]);
    }
  }

  /** How many devices of s have exactly v left. */
  function Tally(list: seq<int>, s: seq<int>, v: int): int
    requires Indices(list, s)
  {
    if s == [] then 0 else (if list[s[0]] == v then 1 else 0) + Tally(list, s[1..], v)
  }

  lemma {:induction false} TallyIsBag(list: seq<int>, s: seq<int>, v: int)
    requires Indices(list, s)
    ensures Tally(list, s, v) == Bag(list, s)[v]
  {
    if s != [] {
      TallyIsBag(list, s[1..], v);
      BagCons(list, s[0], s[1..]);
      assert s == [s[0]] + s[1..];
    }
  }

  lemma {:induction false} TallyUpdate(list: seq<int>, s: seq<int>, i: nat, w: int, v: int)
    requires Indices(list, s) && i < |list| && i !in s
    ensures Tally(list[i := w], s, v) == Tally(list, s, v)
  {
    if s != [] {
      TallyUpdate(list, s[1..], i, w, v);
    }
  }

  /** Taking m from the chosen devices moves their values down by m. */
  lemma {:induction false} LowerTally(list: seq<int>, chosen: seq<int>, m: int, v: int)
    requires Indices(list, chosen) && Distinct(chosen)
    ensures SumBy(Equals(v), Lower(list, chosen, m)) + Tally(list, chosen, v)
         == SumBy(Equals(v), list) + Tally(list, chosen, v + m)
    decreases chosen
  {
    if chosen != [] {
      var c, rest := chosen[0], chosen[1..];
      assert chosen == [c] + rest && c !in rest;
      LowerTally(list[c := list[c] - m], rest, m, v);
      TallyUpdate(list, rest, c, list[c] - m, v);
      TallyUpdate(list, rest, c, list[c] - m, v + m);
      SumByUpdate(Equals(v), list, c, list[c] - m);
    }
  }

  lemma LowerCount(list: seq<int>, chosen: seq<int>, m: int, v: int)
    requires Indices(list, chosen) && Distinct(chosen)
    ensures multiset(Lower(list, chosen, m))[v] + Bag(list, chosen)[v]
         == multiset(list)[v] + Bag(list, chosen)[v + m]
  {
    LowerTally(list, chosen, m, v);
    TallyIsBag(list, chosen, v);
    TallyIsBag(list, chosen, v + m);
    SumByEquals(list, v);
    SumByEquals(Lower(list, chosen, m), v);
  }

  lemma SameFits(a: seq<int>, b: seq<int>, m: int)
    requires SameIdle(a, b) && 0 < m
    ensures Bag(a, FitOrder(a, m)) == Bag(b, FitOrder(b, m))
    ensures |FitOrder(a, m)| == |FitOrder(b, m)|
  {
    var x, y := Bag(a, FitOrder(a, m)), Bag(b, FitOrder(b, m));
    BagSize(a, FitOrder(a, m));
    BagSize(b, FitOrder(b, m));
    forall v ensures x[v] == y[v] {
      FitBag(a, m, v);
      FitBag(b, m, v);
      assert NonZero(multiset(a))[v] == NonZero(multiset(b))[v];
    }
    assert x == y;
  }

  lemma SameFirstFits(a: seq<int>, b: seq<int>, m: int, k: nat)
    requires SameIdle(a, b) && 0 < m
    requires k <= |FitOrder(a, m)| && k <= |FitOrder(b, m)|
    ensures Bag(a, FitOrder(a, m)[..k]) == Bag(b, FitOrder(b, m)[..k])
  {
    SameFits(a, b, m);
    FirstFitsAreSmallest(a, m, k);
    FirstFitsAreSmallest(b, m, k);
    KSmallestUnique(Bag(a, FitOrder(a, m)), k, Bag(a, FitOrder(a, m)[..k]), Bag(b, FitOrder(b, m)[..k]));
  }

  lemma SameLower(a: seq<int>, b: seq<int>, p: seq<int>, q: seq<int>, m: int)
    requires SameIdle(a, b)
    requires Indices(a, p) && Distinct(p) && Indices(b, q) && Distinct(q)
    requires Bag(a, p) == Bag(b, q)
    ensures SameIdle(Lower(a, p, m), Lower(b, q, m))
  {
    var x, y := multiset(Lower(a, p, m)), multiset(Lower(b, q, m));
    forall v ensures NonZero(x)[v] == NonZero(y)[v] {
      LowerCount(a, p, m, v);
      LowerCount(b, q, m, v);
      assert NonZero(multiset(a))[v] == NonZero(multiset(b))[v];
    }
    assert NonZero(x) == NonZero(y);
  }

  lemma SameSubList(a: NodeResource, b: NodeResource, pod: PodResource)
    requires SubSpec(a, pod).ok && SubSpec(b, pod).ok && 0 < pod.gpuNumber && 0 < pod.milliGpu
    requires SameIdle(a.milliGpuLeftList, b.milliGpuLeftList)
    ensures SameIdle(SubSpec(a, pod).node.milliGpuLeftList, SubSpec(b, pod).node.milliGpuLeftList)
  {
    var m, k := pod.milliGpu, pod.gpuNumber;
    SubLowersFirstFits(a, pod);
    SubLowersFirstFits(b, pod);
    SameFirstFits(a.milliGpuLeftList, b.milliGpuLeftList, m, k);
    SameLower(a.milliGpuLeftList, b.milliGpuLeftList,
              FitOrder(a.milliGpuLeftList, m)[..k], FitOrder(b.milliGpuLeftList, m)[..k], m);
  }

  /** Sub treats nodes that share a key alike: it serves the same pods on both, and what it
      leaves shares a key again. */
  lemma SubRespectsKey(a: NodeResource, b: NodeResource, pod: PodResource)
    requires ValidNode(a) && ValidNode(b) && ValidPod(pod)
    requires a.milliCpuLeft == b.milliCpuLeft && SameIdle(a.milliGpuLeftList, b.milliGpuLeftList)
    ensures SubSpec(a, pod).ok == SubSpec(b, pod).ok
    ensures SubSpec(a, pod).ok ==>
      && SubSpec(a, pod).node.milliCpuLeft == SubSpec(b, pod).node.milliCpuLeft
      && SameIdle(SubSpec(a, pod).node.milliGpuLeftList, SubSpec(b, pod).node.milliGpuLeftList)
  {
    SubSucceeds(a, pod);
    SubSucceeds(b, pod);
    if pod.gpuNumber > 0 {
      SumByBag(Fits(pod.milliGpu), a.milliGpuLeftList, b.milliGpuLeftList);
      if SubSpec(a, pod).ok {
        SameSubList(a, b, pod);
      }
    }
  }
}
