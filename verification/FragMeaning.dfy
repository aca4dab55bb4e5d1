/** What the fragmentation buckets mean, told by what Sub can and cannot do: which pods fall into
    each of them, and what each of them adds up to. */
module FragMeaning {
  import opened Bags
  import opened Frag
  import opened Resource

  // ----- one pod -----------------------------------------------------------------------------

  predicate Serves(node: NodeResource, pod: PodResource) {
    SubSpec(node, pod).ok
  }

  /** The node with the CPU that the pod asks for. */
  function WithCpu(node: NodeResource, pod: PodResource): NodeResource {
    node.(milliCpuLeft := pod.milliCpu)
  }

  /** What the pod asks for besides GPUs. */
  function CpuPart(pod: PodResource): PodResource {
    pod.(milliGpu := 0, gpuNumber := 0)
  }

  /** A pod without GPUs is told apart by whether the node serves it. A GPU pod may not use the
      node at all, or is served, or would be served with more CPU, or lacks GPUs, with or without
      CPU for it. */
  predicate FallsInto(node: NodeResource, pod: PodResource, t: FragType) {
    var gpu, allowed := 0 < pod.gpuNumber, Accessible(node.gpuType, pod.gpuType);
    match t
    case XLSatisfied => !gpu && Serves(node, pod)
    case XRLackCpu => !gpu && !Serves(node, pod)
    case NoAccess => gpu && !allowed
    case Q3Satisfied => gpu && allowed && Serves(node, pod)
    case Q4LackCpu => gpu && allowed && !Serves(node, pod) && Serves(WithCpu(node, pod), pod)
    case Q2LackGpu => gpu && allowed && !Serves(WithCpu(node, pod), pod) && Serves(node, CpuPart(pod))
    case Q1LackBoth => gpu && allowed && !Serves(WithCpu(node, pod), pod) && !Serves(node, CpuPart(pod))
  }

  /** Every valid pod falls into exactly the bucket that the branching finds. */
  lemma FragTypeIff(node: NodeResource, pod: PodResource, t: FragType)
    requires ValidNode(node) && ValidPod(pod)
    ensures GetNodePodFrag(node, pod) == t <==> FallsInto(node, pod, t)
  {
    SubSucceeds(node, pod);
    SubSucceeds(WithCpu(node, pod), pod);
    SubSucceeds(node, CpuPart(pod));
  }

  // ----- the buckets -------------------------------------------------------------------------

  predicate AllValid(pods: seq<TargetPod>) {
    forall i | 0 <= i < |pods| :: ValidPod(pods[i].res)
  }

  /** The milli of the node that the pod puts into the bucket. Of a pod that is served, what lies
      on GPUs too small for it counts as lack of GPU. */
  function MilliInto(node: NodeResource, pod: PodResource, t: FragType): int {
    var idle, small := SumBy(Idle, node.milliGpuLeftList), SumBy(Stranded(pod.milliGpu), node.milliGpuLeftList);
    match t
    case Q3Satisfied => if FallsInto(node, pod, Q3Satisfied) then idle - small else 0
    case Q2LackGpu =>
      if FallsInto(node, pod, Q3Satisfied) then small else if FallsInto(node, pod, Q2LackGpu) then idle else 0
    case _ => if FallsInto(node, pod, t) then idle else 0
  }

  function Part(share: real, milli: int): real { share * milli as real }

  /** The sum over the pods, each by its share; shares outside 0..1 are left out. */
  function AmountInto(node: NodeResource, pods: seq<TargetPod>, t: FragType): real {
    if pods == [] then 0.0
    else
      var front, pod := pods[..|pods| - 1], pods[|pods| - 1];
      AmountInto(node, front, t) +
      if 0.0 <= pod.percentage <= 1.0 then Part(pod.percentage, MilliInto(node, pod.res, t)) else 0.0
  }

  /** The share of the pods that fall into the bucket. */
  function ShareInto(node: NodeResource, pods: seq<TargetPod>, t: FragType): real {
    if pods == [] then 0.0
    else
      var front, pod := pods[..|pods| - 1], pods[|pods| - 1];
      ShareInto(node, front, t) +
      if 0.0 <= pod.percentage <= 1.0 && FallsInto(node, pod.res, t) then pod.percentage else 0.0
  }

  lemma PartOf(share: real, milli: int)
    requires 0.0 <= share && 0 <= milli
    ensures 0.0 <= Part(share, milli) == Share(share, milli)
    ensures Part(share, 0) == 0.0
  {
  }

  lemma SpreadMeans(found: FragType, share: real, idle: int, small: int, data: seq<real>, t: FragType)
    requires |data| == BUCKETS && 0.0 <= share && 0 <= small <= idle
    ensures Spread(found, share, idle, small, data)[Bucket(t)] == data[Bucket(t)] +
      if found == Q3Satisfied && t == Q3Satisfied then Part(share, idle - small)
      else if found == Q3Satisfied && t == Q2LackGpu then Part(share, small)
      else if found == t then Part(share, idle) else 0.0
  {
    PartOf(share, idle);
    PartOf(share, small);
    PartOf(share, idle - small);
  }

  /** One pod's step adds to each bucket what the pod puts into it. */
  lemma AmountStep(node: NodeResource, pod: TargetPod, data: seq<real>, t: FragType)
    requires ValidNode(node) && ValidPod(pod.res) && |data| == BUCKETS && 0.0 <= pod.percentage <= 1.0
    ensures FragStep(node, pod, data)[Bucket(t)] ==
      data[Bucket(t)] + Part(pod.percentage, MilliInto(node, pod.res, t))
  {
    var idle, small := SumBy(Idle, node.milliGpuLeftList), SumBy(Stranded(pod.res.milliGpu), node.milliGpuLeftList);
    FragTypeIff(node, pod.res, t);
    FragTypeIff(node, pod.res, Q3Satisfied);
    SumByBounds(node.milliGpuLeftList, pod.res.milliGpu);
    SpreadMeans(GetNodePodFrag(node, pod.res), pod.percentage, idle, small, data, t);
    PartOf(pod.percentage, 0);
  }

  lemma RatioStepMeans(node: NodeResource, pod: TargetPod, data: seq<real>, t: FragType)
    requires ValidNode(node) && ValidPod(pod.res) && |data| == BUCKETS && 0.0 <= pod.percentage <= 1.0
    ensures RatioStep(node, pod, data)[Bucket(t)] ==
      data[Bucket(t)] + if FallsInto(node, pod.res, t) then pod.percentage else 0.0
  {
    FragTypeIff(node, pod.res, t);
  }

  /** Each entry of the bucketed amount is the sum of what the pods put into it. */
  lemma {:induction false} AmountsMean(node: NodeResource, pods: seq<TargetPod>, t: FragType)
    requires ValidNode(node) && AllValid(pods)
    ensures FragData(node, pods)[Bucket(t)] == AmountInto(node, pods, t)
  {
    if pods != [] {
      var front, pod := pods[..|pods| - 1], pods[|pods| - 1];
      AmountsMean(node, front, t);
      if 0.0 <= pod.percentage <= 1.0 {
        AmountStep(node, pod, FragData(node, front), t);
      }
    }
  }

  /** Each entry of the ratio is the share of the pods that fall into it. */
  lemma {:induction false} RatiosMean(node: NodeResource, pods: seq<TargetPod>, t: FragType)
    requires ValidNode(node) && AllValid(pods)
    ensures RatioData(node, pods)[Bucket(t)] == ShareInto(node, pods, t)
  {
    if pods != [] {
      var front, pod := pods[..|pods| - 1], pods[|pods| - 1];
      RatiosMean(node, front, t);
      if 0.0 <= pod.percentage <= 1.0 {
        RatioStepMeans(node, pod, RatioData(node, front), t);
      }
    }
  }
}
