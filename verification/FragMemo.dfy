/** The simulator's shared fragmentation memo: bucketed amounts and Bellman values live in one
    map, told apart by the key's remark. */
module FragMemo {
  import opened Bags
  import opened Frag
  import opened NodeKey
  import opened Resource
  import opened Seals
  import opened SpecLists

  // ----- the Bellman value without memo and without probability cut-off ------------------

  /** Every typical pod is valid and asks for some CPU or some GPU. */
  predicate Demanding(pods: seq<TargetPod>) {
    forall i | 0 <= i < |pods| ::
      ValidPod(pods[i].res) && (0 < pods[i].res.milliCpu || 0 < pods[i].res.gpuNumber)
  }

  predicate AtMostWhole(pods: seq<TargetPod>) {
    && (forall i | 0 <= i < |pods| :: 0.0 <= pods[i].percentage)
    && TotalPercentage(pods) <= 1.0
  }

  /** CPU and GPU milli that Sub can still take away: what makes the recursion end. */
  function Room(node: NodeResource): (r: int)
  {
    (if node.milliCpuLeft > 0 then node.milliCpuLeft else 0) + SumBy(Idle, node.milliGpuLeftList)
  }

  lemma RoomNonNegative(node: NodeResource)
    requires ValidNode(node)
    ensures 0 <= SumBy(Idle, node.milliGpuLeftList) <= Room(node)
  {
    SumByBounds(node.milliGpuLeftList, 0);
  }

  lemma DemandPositive(pod: PodResource)
    requires ValidPod(pod)
    ensures if pod.gpuNumber == 0 then pod.TotalMilliGpu() == 0 else 0 < pod.TotalMilliGpu()
  {
  }

  lemma SubLeaves(node: NodeResource, pod: PodResource)
    requires ValidNode(node) && ValidPod(pod) && SubSpec(node, pod).ok
    ensures var out := SubSpec(node, pod).node;
      && ValidNode(out)
      && 0 <= out.milliCpuLeft == node.milliCpuLeft - pod.milliCpu
      && SumBy(Idle, out.milliGpuLeftList) == SumBy(Idle, node.milliGpuLeftList) - pod.TotalMilliGpu()
  {
    SubTakesTightest(node, pod);
  }

  lemma {:induction false} FitsMonotone(a: seq<int>, b: seq<int>, m: int)
    requires |a| == |b| && forall i | 0 <= i < |a| :: a[i] <= b[i]
    ensures SumBy(Fits(m), a) <= SumBy(Fits(m), b)
  {
    if a != [] {
      FitsMonotone(a[..|a| - 1], b[..|b| - 1], m);
    }
  }

  lemma SubShrinks(node: NodeResource, pod: PodResource)
    requires ValidNode(node) && ValidPod(pod) && (0 < pod.milliCpu || 0 < pod.gpuNumber)
    requires SubSpec(node, pod).ok
    ensures ValidNode(SubSpec(node, pod).node)
    ensures 0 <= Room(SubSpec(node, pod).node) < Room(node)
    ensures SumBy(Idle, SubSpec(node, pod).node.milliGpuLeftList) <= SumBy(Idle, node.milliGpuLeftList)
    ensures IdleGpus(SubSpec(node, pod).node.milliGpuLeftList) <= IdleGpus(node.milliGpuLeftList)
  {
    SubLeaves(node, pod);
    SubTakesTightest(node, pod);
    FitsMonotone(SubSpec(node, pod).node.milliGpuLeftList, node.milliGpuLeftList, 1);
    DemandPositive(pod);
    RoomNonNegative(SubSpec(node, pod).node);
  }

  const DELTA := 0.999

  function Times(p: real, v: real): real { p * v }

  /** V(s): all idle milli once nothing fits any more, otherwise the mean over the pods of
      the value of what Sub leaves, or of all idle milli when Sub fails. */
  function Uncut(node: NodeResource, pods: seq<TargetPod>): real
    requires ValidNode(node) && Demanding(pods)
    decreases Room(node), 1, 0
  {
    var idle := SumBy(Idle, node.milliGpuLeftList);
    if idle == 0 then 0.0
    else if SumExceptQ3(RatioData(node, pods)) < DELTA then UncutSum(node, pods, |pods|)
    else idle as real
  }

  function UncutTerm(node: NodeResource, pods: seq<TargetPod>, i: nat): real
    requires ValidNode(node) && Demanding(pods) && i < |pods|
    decreases Room(node), 0, 0
  {
    var sub := SubSpec(node, pods[i].res);
    if !sub.ok then SumBy(Idle, node.milliGpuLeftList) as real
    else
      SubShrinks(node, pods[i].res);
      RoomNonNegative(node);
      Uncut(sub.node, pods)
  }

  function UncutSum(node: NodeResource, pods: seq<TargetPod>, n: nat): real
    requires ValidNode(node) && Demanding(pods) && n <= |pods|
    decreases Room(node), 0, n + 1
  {
    if n == 0 then 0.0
    else UncutSum(node, pods, n - 1) + Times(pods[n - 1].percentage, UncutTerm(node, pods, n - 1))
  }

  lemma TimesBounds(p: real, v: real, w: real)
    requires 0.0 <= p && 0.0 <= v <= w
    ensures 0.0 <= Times(p, v) <= Times(p, w)
  {
  }

  lemma PartOfWhole(p: real, v: real)
    requires p <= 1.0 && 0.0 <= v
    ensures Times(p, v) <= v
  {
  }

  lemma TimesSplits(p: real, q: real, v: real)
    ensures Times(p + q, v) == Times(p, v) + Times(q, v)
  {
  }

  /** The value of a node lies between nothing and all its idle GPU milli. */
  lemma {:induction false} UncutBounds(node: NodeResource, pods: seq<TargetPod>)
    requires ValidNode(node) && Demanding(pods) && AtMostWhole(pods)
    ensures 0.0 <= Uncut(node, pods) <= SumBy(Idle, node.milliGpuLeftList) as real
    decreases Room(node), 1, 0
  {
    RoomNonNegative(node);
    UncutSumBounds(node, pods, |pods|);
    assert pods[..|pods|] == pods;
    PartOfWhole(TotalPercentage(pods), SumBy(Idle, node.milliGpuLeftList) as real);
  }

  lemma {:induction false} UncutTermBounds(node: NodeResource, pods: seq<TargetPod>, i: nat)
    requires ValidNode(node) && Demanding(pods) && AtMostWhole(pods) && i < |pods|
    ensures 0.0 <= UncutTerm(node, pods, i) <= SumBy(Idle, node.milliGpuLeftList) as real
    decreases Room(node), 0, 0
  {
    RoomNonNegative(node);
    if SubSpec(node, pods[i].res).ok {
      SubShrinks(node, pods[i].res);
      UncutBounds(SubSpec(node, pods[i].res).node, pods);
    }
  }

  lemma {:induction false} UncutSumBounds(node: NodeResource, pods: seq<TargetPod>, n: nat)
    requires ValidNode(node) && Demanding(pods) && AtMostWhole(pods) && n <= |pods|
    ensures 0.0 <= UncutSum(node, pods, n) <=
      Times(TotalPercentage(pods[..n]), SumBy(Idle, node.milliGpuLeftList) as real)
    decreases Room(node), 0, n + 1
  {
    if n > 0 {
      var idle, p := SumBy(Idle, node.milliGpuLeftList) as real, pods[n - 1].percentage;
      UncutSumBounds(node, pods, n - 1);
      UncutTermBounds(node, pods, n - 1);
      TimesBounds(p, UncutTerm(node, pods, n - 1), idle);
      assert pods[..n][..n - 1] == pods[..n - 1];
      TimesSplits(TotalPercentage(pods[..n - 1]), p, idle);
    }
  }

  /** Nodes that share a key have the same value. */
  lemma {:induction false} UncutSameKey(a: NodeResource, b: NodeResource, pods: seq<TargetPod>)
    requires ValidNode(a) && ValidNode(b) && Demanding(pods) && SameKey(a, b)
    ensures Uncut(a, pods) == Uncut(b, pods)
    decreases Room(a), 1, 0
  {
    SumByBag(Idle, a.milliGpuLeftList, b.milliGpuLeftList);
    SameKeySameData(a, b, pods);
    RoomNonNegative(a);
    UncutSumSameKey(a, b, pods, |pods|);
  }

  lemma {:induction false} UncutSumSameKey(a: NodeResource, b: NodeResource, pods: seq<TargetPod>, n: nat)
    requires ValidNode(a) && ValidNode(b) && Demanding(pods) && SameKey(a, b) && n <= |pods|
    ensures UncutSum(a, pods, n) == UncutSum(b, pods, n)
    decreases Room(a), 0, n
  {
    if n > 0 {
      UncutSumSameKey(a, b, pods, n - 1);
      var pod := pods[n - 1].res;
      SumByBag(Idle, a.milliGpuLeftList, b.milliGpuLeftList);
      SubRespectsKey(a, b, pod);
      RoomNonNegative(a);
      if SubSpec(a, pod).ok {
        SubShrinks(a, pod);
        SubShrinks(b, pod);
        UncutSameKey(SubSpec(a, pod).node, SubSpec(b, pod).node, pods);
      }
    }
  }

  /** The probability cut-off is never reached below this node: at least one idle milli is
      left in expectation wherever the recursion goes. */
  ghost predicate NeverCut(node: NodeResource, pods: seq<TargetPod>, cumProb: real)
    requires ValidNode(node) && Demanding(pods)
    decreases Room(node), 1
  {
    var idle := SumBy(Idle, node.milliGpuLeftList);
    || idle == 0
    || (Times(idle as real, cumProb) >= 1.0 &&
        (SumExceptQ3(RatioData(node, pods)) < DELTA ==> NeverCutBelow(node, pods, cumProb)))
  }

  ghost predicate NeverCutBelow(node: NodeResource, pods: seq<TargetPod>, cumProb: real)
    requires ValidNode(node) && Demanding(pods)
    decreases Room(node), 0, 1
  {
    forall i | 0 <= i < |pods| :: NeverCutAfter(node, pods, cumProb, i)
  }

  ghost predicate NeverCutAfter(node: NodeResource, pods: seq<TargetPod>, cumProb: real, i: nat)
    requires ValidNode(node) && Demanding(pods) && i < |pods|
    decreases Room(node), 0, 0
  {
    var sub := SubSpec(node, pods[i].res);
    if !sub.ok then true
    else
      SubShrinks(node, pods[i].res);
      RoomNonNegative(node);
      NeverCut(sub.node, pods, Times(cumProb, pods[i].percentage))
  }

  // ----- the memo ----------------------------------------------------------------------

  const ORIGIN := "origin"
  const BELLMAN := "bellman"

  /** What the shared map holds: bucket data or a Bellman value. */
  datatype MemoEntry = Amounts(data: seq<real>) | Value(frag: real)

  /** entry is what the measure gives for node, which has this key. */
  ghost predicate AmountsOf(pods: seq<TargetPod>, key: NodeResourceFlat, entry: MemoEntry, node: NodeResource) {
    ValidNode(node) && FlattenSpec(node, ORIGIN) == key && entry == Amounts(FragData(node, pods))
  }

  ghost predicate SoundAmounts(pods: seq<TargetPod>, key: NodeResourceFlat, entry: MemoEntry) {
    exists n: NodeResource :: AmountsOf(pods, key, entry, n)
  }

  ghost predicate GoodAmounts(pods: seq<TargetPod>, key: NodeResourceFlat, entry: MemoEntry) {
    exists n: NodeResource :: Small(n) && AmountsOf(pods, key, entry, n)
  }

  ghost predicate GoodValue(pods: seq<TargetPod>, key: NodeResourceFlat, entry: MemoEntry) {
    && entry.Value?
    && 0.0 <= entry.frag
    && (Demanding(pods) ==>
        forall n: NodeResource | Small(n) && FlattenSpec(n, BELLMAN) == key :: entry.frag <= Uncut(n, pods))
  }

  /** Every entry is of its own kind: the measure of some node with its key, or a lower bound
      on the value of every small node with its key. */
  ghost predicate SoundMemo(pods: seq<TargetPod>, memo: map<NodeResourceFlat, MemoEntry>) {
    forall key | key in memo ::
      && (key.remark == ORIGIN ==> SoundAmounts(pods, key, memo[key]))
      && (key.remark == BELLMAN ==> GoodValue(pods, key, memo[key]))
  }

  /** And the measures are those of small nodes. */
  ghost predicate SmallMemo(pods: seq<TargetPod>, memo: map<NodeResourceFlat, MemoEntry>) {
    forall key | key in memo && key.remark == ORIGIN :: GoodAmounts(pods, key, memo[key])
  }

  ghost predicate ExactValue(pods: seq<TargetPod>, key: NodeResourceFlat, entry: MemoEntry)
    requires Demanding(pods)
  {
    && entry.Value?
    && forall n: NodeResource | Small(n) && FlattenSpec(n, BELLMAN) == key :: entry.frag == Uncut(n, pods)
  }

  /** Every stored Bellman value is the full value of the nodes it stands for. */
  ghost predicate ExactMemo(pods: seq<TargetPod>, memo: map<NodeResourceFlat, MemoEntry>)
    requires Demanding(pods)
  {
    forall key | key in memo && key.remark == BELLMAN :: ExactValue(pods, key, memo[key])
  }

  /** Among small nodes the key decides the measure. */
  lemma SmallAmounts(node: NodeResource, pods: seq<TargetPod>, entry: MemoEntry)
    requires Small(node) && NonNegative(pods) && GoodAmounts(pods, FlattenSpec(node, ORIGIN), entry)
    ensures entry == Amounts(FragData(node, pods))
  {
    var n: NodeResource :| Small(n) && AmountsOf(pods, FlattenSpec(node, ORIGIN), entry, n);
    KeyIdentifies(node, n, ORIGIN, ORIGIN);
    SameKeySameData(node, n, pods);
  }

  /** A node with fewer than eight idle GPUs finds its own measure even among others. */
  lemma OwnAmounts(node: NodeResource, pods: seq<TargetPod>, entry: MemoEntry)
    requires ValidNode(node) && IdleGpus(node.milliGpuLeftList) < MAX_NUM_GPU_PER_NODE && NonNegative(pods)
    requires SoundAmounts(pods, FlattenSpec(node, ORIGIN), entry)
    ensures entry == Amounts(FragData(node, pods))
  {
    var n: NodeResource :| AmountsOf(pods, FlattenSpec(node, ORIGIN), entry, n);
    SharedKeyIdentifies(node, n, ORIGIN);
    SameKeySameData(node, n, pods);
  }

  /** Some other node with the same key has other fragments exactly when eight GPUs or more are
      idle and some pod has weight: then what is found in the memo depends on which node was
      asked about first. */
  lemma MemoMisleadsIff(a: NodeResource, pods: seq<TargetPod>)
    requires ValidNode(a) && NonNegative(pods)
    ensures (exists b ::
               && ValidNode(b) && FlattenSpec(b, ORIGIN) == FlattenSpec(a, ORIGIN)
               && FragData(b, pods) != FragData(a, pods))
       <==> MAX_NUM_GPU_PER_NODE <= IdleGpus(a.milliGpuLeftList) && Weight(pods) != 0.0
  {
    if Weight(pods) == 0.0 {
      forall b ensures FragData(b, pods) == FragData(a, pods) {
        WeightlessData(a, pods);
        WeightlessData(b, pods);
      }
    } else if IdleGpus(a.milliGpuLeftList) < MAX_NUM_GPU_PER_NODE {
      forall b | ValidNode(b) && FlattenSpec(b, ORIGIN) == FlattenSpec(a, ORIGIN)
        ensures FragData(b, pods) == FragData(a, pods)
      {
        SharedKeyIdentifies(a, b, ORIGIN);
        SameKeySameData(a, b, pods);
      }
    } else {
      SliverMisleads(a, pods);
    }
  }

  lemma SliverAdds(a: NodeResource, pods: seq<TargetPod>)
    requires ValidNode(a)
    ensures SumAll(FragData(WithSliver(a), pods)) == SumAll(FragData(a, pods)) + Weight(pods)
  {
    SliverShows(a);
    FragConserved(a, pods);
    FragConserved(WithSliver(a), pods);
    ShareOneMore(Weight(pods), SumBy(Idle, a.milliGpuLeftList));
  }

  lemma SliverMisleads(a: NodeResource, pods: seq<TargetPod>)
    requires ValidNode(a) && MAX_NUM_GPU_PER_NODE <= IdleGpus(a.milliGpuLeftList) && Weight(pods) != 0.0
    ensures FlattenSpec(WithSliver(a), ORIGIN) == FlattenSpec(a, ORIGIN)
    ensures FragData(WithSliver(a), pods) != FragData(a, pods)
  {
    KeyHidesOneMore(a.milliGpuLeftList);
    SliverAdds(a, pods);
  }

  lemma ShareOneMore(freq: real, milli: int)
    ensures Share(freq, milli + 1) == Share(freq, milli) + freq
  {
  }

  lemma ValueForKey(node: NodeResource, pods: seq<TargetPod>, frag: real)
    requires Small(node) && Demanding(pods) && 0.0 <= frag <= Uncut(node, pods)
    ensures GoodValue(pods, FlattenSpec(node, BELLMAN), Value(frag))
    ensures frag == Uncut(node, pods) ==> ExactValue(pods, FlattenSpec(node, BELLMAN), Value(frag))
  {
    forall n: NodeResource | Small(n) && FlattenSpec(n, BELLMAN) == FlattenSpec(node, BELLMAN)
      ensures Uncut(node, pods) == Uncut(n, pods)
    {
      KeyIdentifies(node, n, BELLMAN, BELLMAN);
      UncutSameKey(node, n, pods);
    }
  }

  lemma MemoWithValue(pods: seq<TargetPod>, memo: map<NodeResourceFlat, MemoEntry>, key: NodeResourceFlat, frag: real)
    requires SoundMemo(pods, memo) && SmallMemo(pods, memo)
    requires key.remark == BELLMAN && GoodValue(pods, key, Value(frag))
    ensures SoundMemo(pods, memo[key := Value(frag)]) && SmallMemo(pods, memo[key := Value(frag)])
    ensures Demanding(pods) && ExactMemo(pods, memo) && ExactValue(pods, key, Value(frag)) ==>
      ExactMemo(pods, memo[key := Value(frag)])
  {
  }

  lemma MeanStep(node: NodeResource, pods: seq<TargetPod>, i: nat, pvSum: real, p: real, v: real)
    requires Demanding(pods) && AtMostWhole(pods) && ValidNode(node) && i < |pods| && p == pods[i].percentage
    requires 0.0 <= pvSum <= UncutSum(node, pods, i) && 0.0 <= v <= UncutTerm(node, pods, i)
    ensures 0.0 <= pvSum + Times(p, v) <= UncutSum(node, pods, i + 1)
    ensures pvSum == UncutSum(node, pods, i) && v == UncutTerm(node, pods, i) ==>
      pvSum + Times(p, v) == UncutSum(node, pods, i + 1)
  {
    var w := UncutTerm(node, pods, i);
    TimesBounds(p, v, w);
    assert UncutSum(node, pods, i + 1) == UncutSum(node, pods, i) + Times(p, w);
  }

  class Simulator {
    var typicalPods: seq<TargetPod>
    var fragMemo: map<NodeResourceFlat, MemoEntry>

    /** Valid, sealed. */
    ghost predicate Kept()
      reads this
    {
      forall key {:trigger Open(MemoSeal, key)} :: Open(MemoSeal, key) ==> Valid()
    }

    /** ExactMemo, sealed. */
    ghost predicate Exact()
      requires Demanding(typicalPods)
      reads this
    {
      forall key {:trigger Open(MemoSeal, key)} :: Open(MemoSeal, key) ==> ExactMemo(typicalPods, fragMemo)
    }

    lemma SealsMean()
      requires Demanding(typicalPods)
      ensures Kept() <==> Valid()
      ensures Exact() <==> ExactMemo(typicalPods, fragMemo)
    {
      assert Open(MemoSeal, 0);
    }

    /** What holds whatever nodes were asked about. */
    ghost predicate Sound()
      reads this
    {
      NonNegative(typicalPods) && SoundMemo(typicalPods, fragMemo)
    }

    /** What holds while only small nodes are asked about. */
    ghost predicate Valid()
      reads this
    {
      Sound() && SmallMemo(typicalPods, fragMemo)
    }

    constructor ()
      ensures Valid() && typicalPods == [] && fragMemo == map[]
    {
      typicalPods := [];
      fragMemo := map[];
    }

    /** New typical pods invalidate everything stored, so the memo starts over. */
    method SetTypicalPods(pods: seq<TargetPod>)
      requires NonNegative(pods)
      modifies this
      ensures Valid() && typicalPods == pods && fragMemo == map[]
    {
      typicalPods := pods;
      fragMemo := map[];
    }

    /** The memo is transparent: while only nodes of at most eight idle GPUs are asked about the
        answer is what computing the measure afresh would give; for fewer than eight it is that
        whatever was asked before. The entry of the wrong kind is never found. */
    method NodeGpuFragAmount(node: NodeResource) returns (fa: FragAmount)
      requires Sound() && ValidNode(node)
      modifies this`fragMemo
      ensures Sound()
      ensures old(Valid()) && Small(node) ==> Valid()
      ensures old(Demanding(typicalPods) && ExactMemo(typicalPods, fragMemo)) ==> ExactMemo(typicalPods, fragMemo)
      ensures typicalPods == [] ==> fa == FragAmount("", []) && fragMemo == old(fragMemo)
      ensures typicalPods != [] ==>
        var key, anew := FlattenSpec(node, ORIGIN), FragData(node, typicalPods);
        && fa.nodeName == node.nodeName
        && fragMemo == (if key in old(fragMemo) then old(fragMemo) else old(fragMemo)[key := Amounts(anew)])
        && fragMemo[key] == Amounts(fa.data)
        && (IdleGpus(node.milliGpuLeftList) < MAX_NUM_GPU_PER_NODE || (old(Valid()) && Small(node)) ==> fa.data == anew)
    {
      if |typicalPods| <= 0 {
        return FragAmount("", []);
      }
      var key := Flatten(node, ORIGIN);
      if key in fragMemo {
        assert SoundAmounts(typicalPods, key, fragMemo[key]);
        if Valid() && Small(node) {
          SmallAmounts(node, typicalPods, fragMemo[key]);
        } else if IdleGpus(node.milliGpuLeftList) < MAX_NUM_GPU_PER_NODE {
          OwnAmounts(node, typicalPods, fragMemo[key]);
        }
        match fragMemo[key] {
          case Amounts(data) => fa := FragAmount(node.nodeName, data);
          case Value(_) => assert false;
        }
      } else {
        fa := Frag.NodeGpuShareFragAmount(node, typicalPods);
        assert AmountsOf(typicalPods, key, Amounts(fa.data), node);
        fragMemo := fragMemo[key := Amounts(fa.data)];
      }
    }

    /** The memoised recursion, cut off where the path probability leaves less than one milli,
        ends and never exceeds the plain recursion, whatever the memo already holds. Where the
        cut-off is never reached, from a memo of full values, it is the plain recursion. */
    method NodeGpuFragBellman(node: NodeResource, cumProb: real) returns (frag: real)
      requires Valid() && Demanding(typicalPods) && AtMostWhole(typicalPods) && Small(node)
      modifies this`fragMemo
      ensures Valid()
      ensures 0.0 <= frag <= Uncut(node, typicalPods) <= SumBy(Idle, node.milliGpuLeftList) as real
      ensures old(ExactMemo(typicalPods, fragMemo)) && NeverCut(node, typicalPods, cumProb) ==>
        frag == Uncut(node, typicalPods) && ExactMemo(typicalPods, fragMemo)
      decreases Room(node), 1
    {
      UncutBounds(node, typicalPods);
      RoomNonNegative(node);
      SealsMean();
      var key := Flatten(node, BELLMAN);
      if key in fragMemo && fragMemo[key].Value? {
        StoredValue(node, key);
        return fragMemo[key].frag;
      }
      frag := 0.0;
      var gpuMilliLeftTotal := GetGpuMilliLeftTotal(node);
      if gpuMilliLeftTotal == 0 {
        return;
      }
      if Times(gpuMilliLeftTotal as real, cumProb) < 1.0 {
        return 0.0;
      }
      var fragRatio := NodeGpuFragRatio(node, typicalPods);
      if SumExceptQ3(fragRatio) < DELTA {
        var pvSum := BellmanMean(node, gpuMilliLeftTotal, cumProb);
        frag := frag + pvSum;
      } else {
        frag := gpuMilliLeftTotal as real;
      }
      StoreValue(node, key, frag);
      SealsMean();
    }

    /** A stored value is at most the full one, and the full one in an exact memo. */
    lemma StoredValue(node: NodeResource, key: NodeResourceFlat)
      requires Kept() && Demanding(typicalPods) && Small(node)
      requires key == FlattenSpec(node, BELLMAN) && key in fragMemo && fragMemo[key].Value?
      ensures 0.0 <= fragMemo[key].frag <= Uncut(node, typicalPods)
      ensures Exact() ==> fragMemo[key].frag == Uncut(node, typicalPods)
    {
      SealsMean();
      assert GoodValue(typicalPods, key, fragMemo[key]);
      assert ExactMemo(typicalPods, fragMemo) ==> ExactValue(typicalPods, key, fragMemo[key]);
    }

    method StoreValue(node: NodeResource, key: NodeResourceFlat, frag: real)
      requires Kept() && Demanding(typicalPods) && Small(node) && key == FlattenSpec(node, BELLMAN)
      requires 0.0 <= frag <= Uncut(node, typicalPods)
      modifies this`fragMemo
      ensures Kept() && fragMemo == old(fragMemo)[key := Value(frag)]
      ensures old(Exact()) && frag == Uncut(node, typicalPods) ==> Exact()
    {
      SealsMean();
      ValueForKey(node, typicalPods, frag);
      MemoWithValue(typicalPods, fragMemo, key, frag);
      fragMemo := fragMemo[key := Value(frag)];
      SealsMean();
    }

    /** The loop of the recursion: the mean over the typical pods. */
    method BellmanMean(node: NodeResource, gpuMilliLeftTotal: int, cumProb: real) returns (pvSum: real)
      requires Kept() && Demanding(typicalPods) && AtMostWhole(typicalPods) && Small(node)
      requires gpuMilliLeftTotal == SumBy(Idle, node.milliGpuLeftList)
      modifies this`fragMemo
      ensures Kept()
      ensures 0.0 <= pvSum <= UncutSum(node, typicalPods, |typicalPods|)
      ensures old(Exact()) && NeverCutBelow(node, typicalPods, cumProb) ==>
        pvSum == UncutSum(node, typicalPods, |typicalPods|) && Exact()
      decreases Room(node), 0, 2
    {
      ghost var exact := Exact() && NeverCutBelow(node, typicalPods, cumProb);
      pvSum := 0.0;
      for i := 0 to |typicalPods|
        invariant Kept()
        invariant 0.0 <= pvSum <= UncutSum(node, typicalPods, i)
        invariant exact ==> pvSum == UncutSum(node, typicalPods, i) && Exact()
      {
        assert exact ==> NeverCutAfter(node, typicalPods, cumProb, i);
        pvSum := MeanTurn(node, gpuMilliLeftTotal, cumProb, i, pvSum, exact);
      }
    }

    /** One turn of the loop. */
    method MeanTurn(node: NodeResource, gpuMilliLeftTotal: int, cumProb: real, i: nat, pvSum: real, ghost exact: bool)
      returns (sum: real)
      requires Kept() && Demanding(typicalPods) && AtMostWhole(typicalPods) && Small(node)
      requires gpuMilliLeftTotal == SumBy(Idle, node.milliGpuLeftList) && i < |typicalPods|
      requires 0.0 <= pvSum <= UncutSum(node, typicalPods, i)
      requires exact ==>
        pvSum == UncutSum(node, typicalPods, i) && Exact() && NeverCutAfter(node, typicalPods, cumProb, i)
      modifies this`fragMemo
      ensures Kept()
      ensures 0.0 <= sum <= UncutSum(node, typicalPods, i + 1)
      ensures exact ==> sum == UncutSum(node, typicalPods, i + 1) && Exact()
      decreases Room(node), 0, 1
    {
      var v := BellmanTerm(node, gpuMilliLeftTotal, cumProb, i);
      var p := typicalPods[i].percentage;
      MeanStep(node, typicalPods, i, pvSum, p, v);
      sum := pvSum + Times(p, v);
    }

    /** One pod of the loop: all idle milli when it does not fit, else the value of the rest. */
    method BellmanTerm(node: NodeResource, gpuMilliLeftTotal: int, cumProb: real, i: nat) returns (v: real)
      requires Kept() && Demanding(typicalPods) && AtMostWhole(typicalPods) && Small(node)
      requires gpuMilliLeftTotal == SumBy(Idle, node.milliGpuLeftList) && i < |typicalPods|
      modifies this`fragMemo
      ensures Kept()
      ensures 0.0 <= v <= UncutTerm(node, typicalPods, i)
      ensures old(Exact()) && NeverCutAfter(node, typicalPods, cumProb, i) ==>
        v == UncutTerm(node, typicalPods, i) && Exact()
      decreases Room(node), 0, 0
    {
      RoomNonNegative(node);
      var sub := Sub(node, typicalPods[i].res);
      if !sub.ok {
        return gpuMilliLeftTotal as real;
      }
      SubShrinks(node, typicalPods[i].res);
      v := BellmanSealed(sub.node, Times(cumProb, typicalPods[i].percentage));
    }

    /** The recursive call, with its contract sealed. */
    method BellmanSealed(node: NodeResource, cumProb: real) returns (frag: real)
      requires Kept() && Demanding(typicalPods) && AtMostWhole(typicalPods) && Small(node)
      modifies this`fragMemo
      ensures Kept()
      ensures 0.0 <= frag <= Uncut(node, typicalPods)
      ensures old(Exact()) && NeverCut(node, typicalPods, cumProb) ==> frag == Uncut(node, typicalPods) && Exact()
      decreases Room(node), 2
    {
      SealsMean();
      frag := NodeGpuFragBellman(node, cumProb);
      SealsMean();
    }
  }
}
