/** The fragmentation measures of a node against a workload of target pods: the seven-bucket
    amount, the ratio, and the single-number scores built from them. */
module Frag {
  import opened Bags
  import opened Decimal
  import opened NodeKey
  import opened Resource

  datatype FragType = Q1LackBoth | Q2LackGpu | Q3Satisfied | Q4LackCpu | XLSatisfied | XRLackCpu | NoAccess

  const BUCKETS := 7

  function Bucket(t: FragType): (i: nat)
    ensures i < BUCKETS
  {
    match t
    case Q1LackBoth => 0
    case Q2LackGpu => 1
    case Q3Satisfied => 2
    case Q4LackCpu => 3
    case XLSatisfied => 4
    case XRLackCpu => 5
    case NoAccess => 6
  }

  datatype TargetPod = TargetPod(res: PodResource, percentage: real)

  datatype FragAmount = FragAmount(nodeName: string, data: seq<real>)

  // ----- how a node stands towards one pod ---------------------------------------------

  /** A pod without a GPU type runs anywhere; otherwise its type is a "|"-separated list that
      must name the node's, unless every entry of the list is empty. */
  predicate Accessible(nodeGpuType: string, podGpuType: string) {
    || podGpuType == ""
    || (nodeGpuType != "" &&
        var types := Split(podGpuType, '|');
        nodeGpuType in types || forall j | 0 <= j < |types| :: types[j] == "")
  }

  /** Type names with a "|" between them. */
  function TypeList(types: seq<string>): string
    requires types != []
  {
    if |types| == 1 then types[0] else TypeList(types[..|types| - 1]) + ['|'] + types[|types| - 1]
  }

  lemma {:induction false} TypeListReadsBack(types: seq<string>)
    requires types != [] && forall j | 0 <= j < |types| :: '|' !in types[j]
    ensures Split(TypeList(types), '|') == types
  {
    if |types| == 1 {
      SplitNone(types[0], '|');
    } else {
      var k := |types| - 1;
      TypeListReadsBack(types[..k]);
      SplitLast(TypeList(types[..k]), types[k], '|');
      assert types == types[..k] + [types[k]];
    }
  }

  /** A pod that lists types, not all of them empty, runs on the nodes of these types and on no
      others. */
  lemma AccessibleIffListed(nodeGpuType: string, types: seq<string>)
    requires nodeGpuType != "" && forall j | 0 <= j < |types| :: '|' !in types[j]
    requires exists j | 0 <= j < |types| :: types[j] != ""
    ensures Accessible(nodeGpuType, TypeList(types)) <==> nodeGpuType in types
  {
    TypeListReadsBack(types);
    assert Split("", '|') == [""];
  }

  method IsNodeAccessibleToPodByType(nodeGpuType: string, podGpuType: string) returns (ok: bool)
    ensures ok <==> Accessible(nodeGpuType, podGpuType)
  {
    if |podGpuType| == 0 {
      return true;
    }
    if |nodeGpuType| == 0 {
      return false;
    }
    var podGpuTypeList := Split(podGpuType, '|');
    var cnt := 0;
    for k := 0 to |podGpuTypeList|
      invariant nodeGpuType !in podGpuTypeList[..k]
      invariant cnt >= 0 && (cnt == 0 <==> forall j | 0 <= j < k :: podGpuTypeList[j] == "")
    {
      var gpuType := podGpuTypeList[k];
      if |gpuType| == 0 {
        continue;
      }
      cnt := cnt + 1;
      if gpuType == nodeGpuType {
        return true;
      }
    }
    assert podGpuTypeList[..|podGpuTypeList|] == podGpuTypeList;
    ok := cnt == 0;
  }

  /** Enough GPUs with room; the source stops at the first hit even for a count below one. */
  predicate CanHost(list: seq<int>, pod: PodResource) {
    1 <= SumBy(Fits(pod.milliGpu), list) && pod.gpuNumber <= SumBy(Fits(pod.milliGpu), list)
  }

  lemma {:induction false} FitsPrefix(list: seq<int>, m: int, k: nat)
    requires k <= |list|
    ensures 0 <= SumBy(Fits(m), list[..k]) <= SumBy(Fits(m), list)
    decreases |list|
  {
    if k == |list| {
      assert list[..k] == list;
    }
    if list != [] {
      var front := list[..|list| - 1];
      FitsPrefix(front, m, if k < |list| then k else |front|);
      assert k < |list| ==> front[..k] == list[..k];
      assert front[..|front|] == front;
    }
  }

  method CanNodeHostPodOnGpuMemory(node: NodeResource, pod: PodResource) returns (ok: bool)
    ensures ok <==> CanHost(node.milliGpuLeftList, pod)
  {
    var list := node.milliGpuLeftList;
    var gpuRequest := pod.gpuNumber;
    for k := 0 to |list|
      invariant gpuRequest == pod.gpuNumber - SumBy(Fits(pod.milliGpu), list[..k])
      invariant SumBy(Fits(pod.milliGpu), list[..k]) >= 1 ==> gpuRequest > 0
    {
      FitsPrefix(list, pod.milliGpu, k);
      FitsPrefix(list, pod.milliGpu, k + 1);
      assert list[..k + 1][..k] == list[..k];
      if list[k] >= pod.milliGpu {
        gpuRequest := gpuRequest - 1;
        if gpuRequest <= 0 {
          return true;
        }
      }
    }
    assert list[..|list|] == list;
    ok := false;
  }

  function GetNodePodFrag(node: NodeResource, pod: PodResource): FragType {
    if pod.milliGpu == 0 then
      if node.milliCpuLeft >= pod.milliCpu then XLSatisfied else XRLackCpu
    else if !Accessible(node.gpuType, pod.gpuType) then NoAccess
    else if CanHost(node.milliGpuLeftList, pod) then
      if node.milliCpuLeft >= pod.milliCpu then Q3Satisfied else Q4LackCpu
    else
      if node.milliCpuLeft >= pod.milliCpu then Q2LackGpu else Q1LackBoth
  }

  /** On a node it may use, a GPU pod is satisfied exactly when Sub can serve it. */
  lemma SubServesSatisfied(node: NodeResource, pod: PodResource)
    requires ValidNode(node) && ValidPod(pod) && 0 < pod.gpuNumber && Accessible(node.gpuType, pod.gpuType)
    ensures SubSpec(node, pod).ok <==> GetNodePodFrag(node, pod) == Q3Satisfied
  {
    SubSucceeds(node, pod);
  }

  // ----- the bucketed amount -----------------------------------------------------------

  predicate GoodFreq(freq: real) { 0.0 <= freq <= 1.0 }

  /** A negative amount is refused and changes nothing. */
  function AddByFragType(data: seq<real>, t: FragType, amount: real): (r: seq<real>)
    requires |data| == BUCKETS
    ensures |r| == BUCKETS
  {
    if amount < 0.0 then data else data[Bucket(t) := data[Bucket(t)] + amount]
  }

  function Share(freq: real, milli: int): real {
    freq * milli as real
  }

  /** Puts one pod's share of the idle milli into the buckets: a satisfied pod cannot use the
      GPUs too small for it, any other pod cannot use the node at all. */
  function Spread(t: FragType, freq: real, total: int, stranded: int, data: seq<real>): (r: seq<real>)
    requires |data| == BUCKETS
    ensures |r| == BUCKETS
  {
    if t == Q3Satisfied then
      AddByFragType(AddByFragType(data, Q2LackGpu, Share(freq, stranded)), Q3Satisfied, Share(freq, total - stranded))
    else AddByFragType(data, t, Share(freq, total))
  }

  function FragStep(node: NodeResource, pod: TargetPod, data: seq<real>): (r: seq<real>)
    requires |data| == BUCKETS
    ensures |r| == BUCKETS
  {
    if !GoodFreq(pod.percentage) then data
    else Spread(GetNodePodFrag(node, pod.res), pod.percentage, SumBy(Idle, node.milliGpuLeftList),
                SumBy(Stranded(pod.res.milliGpu), node.milliGpuLeftList), data)
  }

  function EmptyBuckets(): (r: seq<real>)
    ensures |r| == BUCKETS
  {
    [0.0, 0.0, 0.0, 0.0, 0.0, 0.0, 0.0]
  }

  function FragData(node: NodeResource, pods: seq<TargetPod>): (r: seq<real>)
    ensures |r| == BUCKETS
  {
    if pods == [] then EmptyBuckets()
    else FragStep(node, pods[|pods| - 1], FragData(node, pods[..|pods| - 1]))
  }

  lemma FragDataSnoc(node: NodeResource, pods: seq<TargetPod>, k: nat)
    requires k < |pods|
    ensures FragData(node, pods[..k + 1]) == FragStep(node, pods[k], FragData(node, pods[..k]))
  {
    assert pods[..k + 1][..k] == pods[..k];
  }

  method GetGpuMilliLeftTotal(node: NodeResource) returns (total: int)
    ensures total == SumBy(Idle, node.milliGpuLeftList)
  {
    total := 0;
    var list := node.milliGpuLeftList;
    for k := 0 to |list|
      invariant total == SumBy(Idle, list[..k])
    {
      assert list[..k + 1][..k] == list[..k];
      total := total + list[k];
    }
    assert list[..|list|] == list;
  }

  method GetGpuFragMilliByNodeResAndPodRes(node: NodeResource, pod: PodResource) returns (gpuFragMilli: int)
    ensures gpuFragMilli == SumBy(Stranded(pod.milliGpu), node.milliGpuLeftList)
  {
    gpuFragMilli := 0;
    var list := node.milliGpuLeftList;
    for k := 0 to |list|
      invariant gpuFragMilli == SumBy(Stranded(pod.milliGpu), list[..k])
    {
      assert list[..k + 1][..k] == list[..k];
      if list[k] < pod.milliGpu {
        gpuFragMilli := gpuFragMilli + list[k];
      }
    }
    assert list[..|list|] == list;
  }

  method AddToBucket(data: array<real>, t: FragType, amount: real)
    requires data.Length == BUCKETS
    modifies data
    ensures data[..] == AddByFragType(old(data[..]), t, amount)
  {
    if amount < 0.0 {
      return;
    }
    data[Bucket(t)] := data[Bucket(t)] + amount;
  }

  method SpreadInPlace(data: array<real>, node: NodeResource, pod: TargetPod)
    requires data.Length == BUCKETS
    modifies data
    ensures data[..] == FragStep(node, pod, old(data[..]))
  {
    var freq := pod.percentage;
    if freq < 0.0 || freq > 1.0 {
      return;
    }
    var fragType := GetNodePodFrag(node, pod.res);
    var total := GetGpuMilliLeftTotal(node);
    if fragType == Q3Satisfied {
      var gpuFragMilli := GetGpuFragMilliByNodeResAndPodRes(node, pod.res);
      AddToBucket(data, Q2LackGpu, Share(freq, gpuFragMilli));
      AddToBucket(data, Q3Satisfied, Share(freq, total - gpuFragMilli));
    } else {
      AddToBucket(data, fragType, Share(freq, total));
    }
  }

  method NodeGpuShareFragAmount(node: NodeResource, pods: seq<TargetPod>) returns (fa: FragAmount)
    ensures fa == FragAmount(node.nodeName, FragData(node, pods))
  {
    var data := new real[BUCKETS](_ => 0.0);
    assert data[..] == EmptyBuckets();
    for k := 0 to |pods|
      invariant data[..] == FragData(node, pods[..k])
    {
      FragDataSnoc(node, pods, k);
      SpreadInPlace(data, node, pods[k]);
    }
    assert pods[..|pods|] == pods;
    fa := FragAmount(node.nodeName, data[..]);
  }

  // ----- sums of buckets ---------------------------------------------------------------

  function SumAll(data: seq<real>): real
    requires |data| == BUCKETS
  {
    data[0] + data[1] + data[2] + data[3] + data[4] + data[5] + data[6]
  }

  function SumExceptQ3(data: seq<real>): real
    requires |data| == BUCKETS
  {
    SumAll(data) - data[Bucket(Q3Satisfied)]
  }

  method FragAmountSumExceptQ3(fa: FragAmount) returns (out: real)
    requires |fa.data| == BUCKETS
    ensures out == SumExceptQ3(fa.data)
  {
    out := 0.0;
    var d := fa.data;
    for i := 0 to BUCKETS
      invariant out == (if i > 0 then d[0] else 0.0) + (if i > 1 then d[1] else 0.0) + (if i > 3 then d[3] else 0.0)
                     + (if i > 4 then d[4] else 0.0) + (if i > 5 then d[5] else 0.0) + (if i > 6 then d[6] else 0.0)
    {
      if i != Bucket(Q3Satisfied) {
        out := out + d[i];
      }
    }
  }

  /** The weight of the pods that count: entries outside 0..1 are skipped. */
  function Weight(pods: seq<TargetPod>): real {
    if pods == [] then 0.0
    else
      var p := pods[|pods| - 1].percentage;
      Weight(pods[..|pods| - 1]) + (if GoodFreq(p) then p else 0.0)
  }

  /** The score that adds up fragments directly, without buckets. */
  function DirectScore(node: NodeResource, pods: seq<TargetPod>): real {
    if pods == [] then 0.0
    else
      var pod := pods[|pods| - 1];
      var gpuScore := DirectScore(node, pods[..|pods| - 1]);
      if !GoodFreq(pod.percentage) then gpuScore
      else if GetNodePodFrag(node, pod.res) == Q3Satisfied then
        gpuScore + Share(pod.percentage, SumBy(Stranded(pod.res.milliGpu), node.milliGpuLeftList))
      else gpuScore + Share(pod.percentage, SumBy(Idle, node.milliGpuLeftList))
  }

  method NodeGpuShareFragAmountScoreBasedOnPredict6(node: NodeResource, pods: seq<TargetPod>) returns (gpuScore: real)
    ensures gpuScore == DirectScore(node, pods)
  {
    gpuScore := 0.0;
    for k := 0 to |pods|
      invariant gpuScore == DirectScore(node, pods[..k])
    {
      assert pods[..k + 1][..k] == pods[..k];
      var freq := pods[k].percentage;
      if freq < 0.0 || freq > 1.0 {
        continue;
      }
      var total := GetGpuMilliLeftTotal(node);
      if GetNodePodFrag(node, pods[k].res) == Q3Satisfied {
        var gpuFragMilli := GetGpuFragMilliByNodeResAndPodRes(node, pods[k].res);
        gpuScore := gpuScore + Share(freq, gpuFragMilli);
      } else {
        gpuScore := gpuScore + Share(freq, total);
      }
    }
    assert pods[..|pods|] == pods;
  }

  lemma WeightSplits(p: real, q: real, milli: int)
    ensures Share(p + q, milli) == Share(p, milli) + Share(q, milli)
  {
  }

  lemma SpreadSums(t: FragType, freq: real, total: int, stranded: int, data: seq<real>)
    requires |data| == BUCKETS && 0.0 <= freq && 0 <= stranded <= total
    ensures var lost := Share(freq, if t == Q3Satisfied then stranded else total);
      && SumAll(Spread(t, freq, total, stranded, data)) == SumAll(data) + Share(freq, total)
      && SumExceptQ3(Spread(t, freq, total, stranded, data)) == SumExceptQ3(data) + lost
      && 0.0 <= lost <= Share(freq, total)
  {
  }

  /** Conservation: the buckets share out exactly the weighted idle milli; what is not in Q3
      is between nothing and all of it, and is the score that Predict6 computes directly. */
  lemma {:induction false} FragConserved(node: NodeResource, pods: seq<TargetPod>)
    requires ValidNode(node)
    ensures var total := SumBy(Idle, node.milliGpuLeftList);
      && SumAll(FragData(node, pods)) == Share(Weight(pods), total)
      && 0.0 <= SumExceptQ3(FragData(node, pods)) <= Share(Weight(pods), total)
      && SumExceptQ3(FragData(node, pods)) == DirectScore(node, pods)
  {
    if pods != [] {
      var front, pod := pods[..|pods| - 1], pods[|pods| - 1];
      var list := node.milliGpuLeftList;
      FragConserved(node, front);
      SumByBounds(list, pod.res.milliGpu);
      if GoodFreq(pod.percentage) {
        WeightSplits(Weight(front), pod.percentage, SumBy(Idle, list));
        SpreadSums(GetNodePodFrag(node, pod.res), pod.percentage, SumBy(Idle, list),
                   SumBy(Stranded(pod.res.milliGpu), list), FragData(node, front));
      }
    }
  }

  lemma {:induction false} WeightNonNegative(pods: seq<TargetPod>)
    ensures 0.0 <= Weight(pods)
  {
    if pods != [] {
      WeightNonNegative(pods[..|pods| - 1]);
    }
  }

  lemma SpreadNothing(t: FragType, total: int, stranded: int, data: seq<real>)
    requires |data| == BUCKETS
    ensures Spread(t, 0.0, total, stranded, data) == data
  {
  }

  /** Pods without weight put nothing into any bucket. */
  lemma {:induction false} WeightlessData(node: NodeResource, pods: seq<TargetPod>)
    requires Weight(pods) == 0.0
    ensures FragData(node, pods) == EmptyBuckets()
  {
    if pods != [] {
      var front, pod := pods[..|pods| - 1], pods[|pods| - 1];
      WeightNonNegative(front);
      WeightlessData(node, front);
      if GoodFreq(pod.percentage) {
        SpreadNothing(GetNodePodFrag(node, pod.res), SumBy(Idle, node.milliGpuLeftList),
                      SumBy(Stranded(pod.res.milliGpu), node.milliGpuLeftList), EmptyBuckets());
      }
    }
  }

  // ----- the ratio ---------------------------------------------------------------------

  function RatioStep(node: NodeResource, pod: TargetPod, data: seq<real>): (r: seq<real>)
    requires |data| == BUCKETS
    ensures |r| == BUCKETS
  {
    if !GoodFreq(pod.percentage) then data
    else AddByFragType(data, GetNodePodFrag(node, pod.res), pod.percentage)
  }

  function RatioData(node: NodeResource, pods: seq<TargetPod>): (r: seq<real>)
    ensures |r| == BUCKETS
  {
    if pods == [] then EmptyBuckets()
    else RatioStep(node, pods[|pods| - 1], RatioData(node, pods[..|pods| - 1]))
  }

  method NodeGpuFragRatio(node: NodeResource, pods: seq<TargetPod>) returns (data: seq<real>)
    ensures data == RatioData(node, pods)
  {
    var buckets := new real[BUCKETS](_ => 0.0);
    assert buckets[..] == EmptyBuckets();
    for k := 0 to |pods|
      invariant buckets[..] == RatioData(node, pods[..k])
    {
      assert pods[..k + 1][..k] == pods[..k];
      var freq := pods[k].percentage;
      if freq < 0.0 || freq > 1.0 {
        continue;
      }
      AddToBucket(buckets, GetNodePodFrag(node, pods[k].res), freq);
    }
    assert pods[..|pods|] == pods;
    data := buckets[..];
  }

  /** The weight of the pods that count and that the node can serve. */
  function SatisfiedWeight(node: NodeResource, pods: seq<TargetPod>): real {
    if pods == [] then 0.0
    else
      var pod := pods[|pods| - 1];
      SatisfiedWeight(node, pods[..|pods| - 1]) +
        (if GoodFreq(pod.percentage) && GetNodePodFrag(node, pod.res) == Q3Satisfied then pod.percentage else 0.0)
  }

  /** Each pod that counts is in one bucket with its weight: the ratios share out the whole
      weight, and what is not in Q3 is the weight of the pods the node cannot serve. */
  lemma {:induction false} RatioConserved(node: NodeResource, pods: seq<TargetPod>)
    ensures SumAll(RatioData(node, pods)) == Weight(pods)
    ensures SumExceptQ3(RatioData(node, pods)) == Weight(pods) - SatisfiedWeight(node, pods)
  {
    if pods != [] {
      RatioConserved(node, pods[..|pods| - 1]);
    }
  }

  // ----- nodes that share a key --------------------------------------------------------

  /** The nodes that a memo key cannot tell apart. */
  predicate SameKey(a: NodeResource, b: NodeResource) {
    a.milliCpuLeft == b.milliCpuLeft && a.gpuType == b.gpuType && SameIdle(a.milliGpuLeftList, b.milliGpuLeftList)
  }

  predicate NonNegative(pods: seq<TargetPod>) {
    forall i | 0 <= i < |pods| :: 0 <= pods[i].res.milliGpu
  }

  lemma SameKeySameFrag(a: NodeResource, b: NodeResource, pod: PodResource)
    requires SameKey(a, b) && 0 <= pod.milliGpu
    ensures GetNodePodFrag(a, pod) == GetNodePodFrag(b, pod)
  {
    if pod.milliGpu > 0 {
      SumByBag(Fits(pod.milliGpu), a.milliGpuLeftList, b.milliGpuLeftList);
    }
  }

  lemma SameKeySameStep(a: NodeResource, b: NodeResource, pod: TargetPod, data: seq<real>)
    requires SameKey(a, b) && 0 <= pod.res.milliGpu && |data| == BUCKETS
    ensures FragStep(a, pod, data) == FragStep(b, pod, data)
    ensures RatioStep(a, pod, data) == RatioStep(b, pod, data)
  {
    SameKeySameFrag(a, b, pod.res);
    SumByBag(Idle, a.milliGpuLeftList, b.milliGpuLeftList);
    SumByBag(Stranded(pod.res.milliGpu), a.milliGpuLeftList, b.milliGpuLeftList);
  }

  /** GPU order, node name and fully used GPUs do not matter to the measures. */
  lemma {:induction false} SameKeySameData(a: NodeResource, b: NodeResource, pods: seq<TargetPod>)
    requires SameKey(a, b) && NonNegative(pods)
    ensures FragData(a, pods) == FragData(b, pods)
    ensures RatioData(a, pods) == RatioData(b, pods)
  {
    if pods != [] {
      var front, pod := pods[..|pods| - 1], pods[|pods| - 1];
      SameKeySameData(a, b, front);
      SameKeySameStep(a, b, pod, FragData(a, front));
      SameKeySameStep(a, b, pod, RatioData(a, front));
    }
  }
}
