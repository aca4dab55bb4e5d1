/** The skyline of a workload: the pods that no other pod undercuts in CPU and GPU, and the
    fragmentation measure that asks only whether one of them fits. */
module Skyline {
  import opened Bags
  import opened Frag
  import opened Resource
  import opened Sorting

  // ----- the stable sort -----------------------------------------------------------------------

  /** A pod with its place in the workload, which is what makes the sort stable. */
  datatype Tagged = Tagged(pos: nat, res: PodResource)

  predicate SortsBefore(a: Tagged, b: Tagged) {
    if a.res.milliCpu != b.res.milliCpu then a.res.milliCpu < b.res.milliCpu
    else if a.res.milliGpu != b.res.milliGpu then a.res.milliGpu < b.res.milliGpu
    else a.pos <= b.pos
  }

  function TagAll(pods: seq<PodResource>): (r: seq<Tagged>)
    ensures |r| == |pods| && forall i | 0 <= i < |pods| :: r[i] == Tagged(i, pods[i])
  {
    seq(|pods|, i requires 0 <= i < |pods| => Tagged(i, pods[i]))
  }

  /** Every place of the workload once, in sorting order. */
  ghost predicate SortedTags(tags: seq<Tagged>, pods: seq<PodResource>) {
    && (forall i, j | 0 <= i < j < |tags| :: SortsBefore(tags[i], tags[j]))
    && (forall k | 0 <= k < |tags| :: tags[k].pos < |pods| && tags[k].res == pods[tags[k].pos])
    && forall i | 0 <= i < |pods| :: Tagged(i, pods[i]) in tags
  }

  method SortPods(pods: seq<PodResource>) returns (tags: seq<Tagged>)
    ensures SortedTags(tags, pods)
  {
    var all := TagAll(pods);
    tags := Sort(SortsBefore, all);
    forall i, j | 0 <= i < j < |tags| ensures SortsBefore(tags[i], tags[j]) {
      ChainPair(SortsBefore, tags, i, j);
    }
    forall k | 0 <= k < |tags| ensures tags[k] in all {
      assert tags[k] in multiset(all);
    }
    forall i | 0 <= i < |pods| ensures Tagged(i, pods[i]) in tags {
      assert all[i] in multiset(tags);
    }
  }

  // ----- the staircase ---------------------------------------------------------------------------

  /** q asks for no more CPU and no more GPU milli than p. */
  predicate Below(q: PodResource, p: PodResource) {
    q.milliCpu <= p.milliCpu && q.milliGpu <= p.milliGpu
  }

  predicate Staircase(sky: seq<PodResource>) {
    forall i, j | 0 <= i < j < |sky| :: sky[i].milliCpu < sky[j].milliCpu && sky[j].milliGpu < sky[i].milliGpu
  }

  predicate Undercut(sky: seq<PodResource>, p: PodResource) {
    exists i | 0 <= i < |sky| :: Below(sky[i], p)
  }

  /** pods[at] is the first pod of the workload with its CPU and GPU milli. */
  predicate Earliest(pods: seq<PodResource>, at: nat)
    requires at < |pods|
  {
    forall j | 0 <= j < at :: pods[j].milliCpu != pods[at].milliCpu || pods[j].milliGpu != pods[at].milliGpu
  }

  lemma UndercutGrows(sky: seq<PodResource>, q: PodResource, p: PodResource)
    requires Undercut(sky, p)
    ensures Undercut(sky + [q], p)
  {
    var i :| 0 <= i < |sky| && Below(sky[i], p);
    assert Below((sky + [q])[i], p);
  }

  /** A pod of the next step was not undercut before, so it is the first of its kind. */
  lemma KeptIsEarliest(pods: seq<PodResource>, tags: seq<Tagged>, k: nat, sky: seq<PodResource>)
    requires SortedTags(tags, pods) && k < |tags| && Staircase(sky)
    requires forall j | 0 <= j < k :: Undercut(sky, tags[j].res)
    requires sky != [] ==> tags[k].res.milliGpu < sky[|sky| - 1].milliGpu
    ensures Earliest(pods, tags[k].pos)
  {
  }

  /** The pods of sky stand in the workload at the places at, each the first of its kind. */
  predicate Stands(pods: seq<PodResource>, sky: seq<PodResource>, at: seq<nat>) {
    |at| == |sky| && forall i | 0 <= i < |sky| :: at[i] < |pods| && sky[i] == pods[at[i]] && Earliest(pods, at[i])
  }

  predicate UndercutsFirst(tags: seq<Tagged>, k: nat, sky: seq<PodResource>)
    requires k <= |tags|
  {
    && (forall j | 0 <= j < k :: Undercut(sky, tags[j].res))
    && (k > 0 ==> sky != [])
    && (sky != [] ==> exists j | 0 <= j < k :: sky[|sky| - 1] == tags[j].res)
  }

  predicate NextStep(sky: seq<PodResource>, p: PodResource) {
    sky == [] || (p.milliCpu > sky[|sky| - 1].milliCpu && p.milliGpu < sky[|sky| - 1].milliGpu)
  }

  lemma StandsGrows(pods: seq<PodResource>, sky: seq<PodResource>, at: seq<nat>, pos: nat)
    requires Stands(pods, sky, at) && pos < |pods| && Earliest(pods, pos)
    ensures Stands(pods, sky + [pods[pos]], at + [pos])
  {
  }

  lemma StaircaseGrows(sky: seq<PodResource>, p: PodResource)
    requires Staircase(sky) && NextStep(sky, p)
    ensures Staircase(sky + [p])
  {
  }

  lemma UndercutsGrow(tags: seq<Tagged>, k: nat, sky: seq<PodResource>)
    requires k < |tags| && UndercutsFirst(tags, k, sky)
    ensures UndercutsFirst(tags, k + 1, sky + [tags[k].res])
  {
    var p := tags[k].res;
    forall j | 0 <= j < k + 1 ensures Undercut(sky + [p], tags[j].res) {
      if j < k {
        UndercutGrows(sky, p, tags[j].res);
      } else {
        assert Below((sky + [p])[|sky|], p);
      }
    }
  }

  lemma KeepPod(pods: seq<PodResource>, tags: seq<Tagged>, k: nat, sky: seq<PodResource>, at: seq<nat>)
    requires SortedTags(tags, pods) && k < |tags| && NextStep(sky, tags[k].res)
    requires Stands(pods, sky, at) && Staircase(sky) && UndercutsFirst(tags, k, sky)
    ensures Stands(pods, sky + [tags[k].res], at + [tags[k].pos])
    ensures Staircase(sky + [tags[k].res]) && UndercutsFirst(tags, k + 1, sky + [tags[k].res])
  {
    KeptIsEarliest(pods, tags, k, sky);
    StandsGrows(pods, sky, at, tags[k].pos);
    StaircaseGrows(sky, tags[k].res);
    UndercutsGrow(tags, k, sky);
  }

  lemma SkipPod(pods: seq<PodResource>, tags: seq<Tagged>, k: nat, sky: seq<PodResource>)
    requires SortedTags(tags, pods) && k < |tags| && !NextStep(sky, tags[k].res)
    requires UndercutsFirst(tags, k, sky)
    ensures UndercutsFirst(tags, k + 1, sky)
  {
  }

  lemma UndercutsAll(pods: seq<PodResource>, tags: seq<Tagged>, sky: seq<PodResource>)
    requires SortedTags(tags, pods) && UndercutsFirst(tags, |tags|, sky)
    ensures forall p | p in pods :: Undercut(sky, p)
  {
  }

  /** A strictly CPU-increasing, GPU-decreasing chain of workload pods, each the first of its
      kind, that undercuts every pod of the workload. */
  method GetSkylinePods(pods: seq<PodResource>) returns (sky: seq<PodResource>, ghost at: seq<nat>)
    ensures Stands(pods, sky, at) && Staircase(sky)
    ensures forall p | p in pods :: Undercut(sky, p)
  {
    var tags := SortPods(pods);
    sky, at := [], [];
    for k := 0 to |tags|
      invariant Stands(pods, sky, at) && Staircase(sky) && UndercutsFirst(tags, k, sky)
    {
      var num := |sky|;
      var p := tags[k].res;
      if num == 0 || (p.milliCpu > sky[num - 1].milliCpu && p.milliGpu < sky[num - 1].milliGpu) {
        KeepPod(pods, tags, k, sky, at);
        sky, at := sky + [p], at + [tags[k].pos];
      } else {
        SkipPod(pods, tags, k, sky);
      }
    }
    UndercutsAll(pods, tags, sky);
  }

  // ----- the measure -------------------------------------------------------------------------------

  predicate HasPlace(node: NodeResource, p: PodResource) {
    p.milliCpu <= node.milliCpuLeft && CanHost(node.milliGpuLeftList, p)
  }

  predicate SomePlace(node: NodeResource, pods: seq<PodResource>) {
    exists i | 0 <= i < |pods| :: HasPlace(node, pods[i])
  }

  method NodeGpuFragBasedOnSkyline(node: NodeResource, skylinePods: seq<PodResource>) returns (frag: int)
    ensures frag == if SomePlace(node, skylinePods) then 0 else SumBy(Idle, node.milliGpuLeftList)
  {
    var gpuMilliLeftTotal := GetGpuMilliLeftTotal(node);
    for k := 0 to |skylinePods|
      invariant forall i | 0 <= i < k :: !HasPlace(node, skylinePods[i])
    {
      var podRes := skylinePods[k];
      var hosts := CanNodeHostPodOnGpuMemory(node, podRes);
      if node.milliCpuLeft >= podRes.milliCpu && hosts {
        assert HasPlace(node, skylinePods[k]);
        return 0;
      }
    }
    frag := gpuMilliLeftTotal;
  }

  /** How many GPUs with room the hosting test asks for. */
  function Need(p: PodResource): int {
    if p.gpuNumber < 1 then 1 else p.gpuNumber
  }

  lemma {:induction false} FewerFit(list: seq<int>, m: int, n: int)
    requires m <= n
    ensures SumBy(Fits(n), list) <= SumBy(Fits(m), list)
  {
    if list != [] {
      FewerFit(list[..|list| - 1], m, n);
    }
  }

  lemma EasierFits(node: NodeResource, q: PodResource, p: PodResource)
    requires Below(q, p) && Need(q) <= Need(p) && HasPlace(node, p)
    ensures HasPlace(node, q)
  {
    FewerFit(node.milliGpuLeftList, q.milliGpu, p.milliGpu);
  }

  /** Some skyline pod is below p and needs no more GPUs. */
  predicate Covered(sky: seq<PodResource>, p: PodResource) {
    exists i | 0 <= i < |sky| :: Below(sky[i], p) && Need(sky[i]) <= Need(p)
  }

  /** Where the skyline covers every pod, asking it is asking the whole workload: the measure is
      nothing when some pod fits, and else all idle milli. */
  lemma CoveredIsExact(node: NodeResource, pods: seq<PodResource>, sky: seq<PodResource>)
    requires forall q | q in sky :: q in pods
    requires forall p | p in pods :: Covered(sky, p)
    ensures SomePlace(node, sky) <==> SomePlace(node, pods)
  {
    if SomePlace(node, pods) {
      var k :| 0 <= k < |pods| && HasPlace(node, pods[k]);
      assert Covered(sky, pods[k]);
      var i :| 0 <= i < |sky| && Below(sky[i], pods[k]) && Need(sky[i]) <= Need(pods[k]);
      EasierFits(node, sky[i], pods[k]);
    }
    if SomePlace(node, sky) {
      var i :| 0 <= i < |sky| && HasPlace(node, sky[i]);
      assert sky[i] in pods;
      var k :| 0 <= k < |pods| && pods[k] == sky[i];
    }
  }

  /** With at most one GPU for each pod the skyline covers the workload. */
  lemma OneGpuIsCovered(pods: seq<PodResource>, sky: seq<PodResource>)
    requires forall q | q in sky :: q in pods
    requires forall p | p in pods :: p.gpuNumber <= 1 && Undercut(sky, p)
    ensures forall p | p in pods :: Covered(sky, p)
  {
  }

  // ----- a pod that is not covered is misjudged ------------------------------------------------------

  function Same(n: nat, v: int): (s: seq<int>)
    ensures |s| == n && forall i | 0 <= i < n :: s[i] == v
  {
    if n == 0 then [] else Same(n - 1, v) + [v]
  }

  /** A node that has exactly what p asks for. */
  function TightNode(p: PodResource): NodeResource
    requires 0 <= p.gpuNumber
  {
    NodeResource("", p.milliCpu, p.milliCpu, Same(p.gpuNumber, p.milliGpu), p.gpuNumber, "", map[])
  }

  lemma {:induction false} SameFit(n: nat, v: int, m: int)
    ensures SumBy(Fits(m), Same(n, v)) == if m <= v then n else 0
    ensures 0 < v && 0 < n ==> 0 < SumBy(Idle, Same(n, v))
    ensures 0 <= v ==> 0 <= SumBy(Idle, Same(n, v))
  {
    if n > 0 {
      SameFit(n - 1, v, m);
      assert Same(n, v)[..n - 1] == Same(n - 1, v);
    }
  }

  lemma TightPlace(p: PodResource, q: PodResource)
    requires 0 < p.gpuNumber
    ensures HasPlace(TightNode(p), q) <==> Below(q, p) && Need(q) <= Need(p)
  {
    SameFit(p.gpuNumber, p.milliGpu, q.milliGpu);
  }

  /** Conversely, a GPU pod that is not covered is misjudged: on the node that has exactly what it
      asks for it fits, but the measure is all idle milli. So the measure is right on every node
      with idle milli exactly when the skyline covers every GPU pod. */
  lemma UncoveredIsMisjudged(pods: seq<PodResource>, sky: seq<PodResource>, p: PodResource)
    requires p in pods && ValidPod(p) && 0 < p.gpuNumber && !Covered(sky, p)
    ensures ValidNode(TightNode(p)) && 0 < SumBy(Idle, TightNode(p).milliGpuLeftList)
    ensures SomePlace(TightNode(p), pods) && !SomePlace(TightNode(p), sky)
  {
    SameFit(p.gpuNumber, p.milliGpu, p.milliGpu);
    TightPlace(p, p);
    var k :| 0 <= k < |pods| && pods[k] == p;
    assert HasPlace(TightNode(p), pods[k]);
    forall i | 0 <= i < |sky| ensures !HasPlace(TightNode(p), sky[i]) {
      TightPlace(p, sky[i]);
    }
  }

  /** A pod without GPU is always covered. */
  lemma CpuPodIsCovered(pods: seq<PodResource>, sky: seq<PodResource>, p: PodResource)
    requires forall q | q in sky :: q in pods
    requires forall q | q in pods :: ValidPod(q)
    requires p in pods && p.gpuNumber == 0 && Undercut(sky, p)
    ensures Covered(sky, p)
  {
    var i :| 0 <= i < |sky| && Below(sky[i], p);
    assert sky[i] in sky;
  }

  /** The measure asks the right question of every valid node exactly when each pod of the
      workload has a skyline pod below it that needs no more GPUs. */
  lemma SkylineRightIff(pods: seq<PodResource>, sky: seq<PodResource>, at: seq<nat>)
    requires Stands(pods, sky, at) && forall p | p in pods :: ValidPod(p) && Undercut(sky, p)
    ensures (forall node | ValidNode(node) :: SomePlace(node, sky) <==> SomePlace(node, pods)) <==>
            forall p | p in pods :: Covered(sky, p)
  {
    forall q | q in sky ensures q in pods {
      var i :| 0 <= i < |sky| && sky[i] == q;
      assert pods[at[i]] == q;
    }
    if forall p | p in pods :: Covered(sky, p) {
      forall node | ValidNode(node) ensures SomePlace(node, sky) <==> SomePlace(node, pods) {
        CoveredIsExact(node, pods, sky);
      }
    } else {
      var p :| p in pods && !Covered(sky, p);
      if p.gpuNumber == 0 {
        CpuPodIsCovered(pods, sky, p);
      }
      UncoveredIsMisjudged(pods, sky, p);
    }
  }

  /** So it does when no pod asks for more than one GPU. */
  lemma SkylineRightForOneGpu(pods: seq<PodResource>, sky: seq<PodResource>, at: seq<nat>, node: NodeResource)
    requires Stands(pods, sky, at) && forall p | p in pods :: p.gpuNumber <= 1 && Undercut(sky, p)
    ensures SomePlace(node, sky) <==> SomePlace(node, pods)
  {
    forall q | q in sky ensures q in pods {
      var i :| 0 <= i < |sky| && sky[i] == q;
      assert pods[at[i]] == q;
    }
    OneGpuIsCovered(pods, sky);
    CoveredIsExact(node, pods, sky);
  }

  const WHOLE := PodResource(0, MILLI, 1, "")
  const PAIR := PodResource(0, MILLI, 2, "")

  lemma SecondIsLater()
    ensures !Earliest([PAIR, WHOLE], 1)
  {
    assert [PAIR, WHOLE][0].milliCpu == [PAIR, WHOLE][1].milliCpu;
  }

  /** It does happen: of two pods that differ only in their number of GPUs the one listed first
      stays, and when that is the one of two GPUs the other is misjudged. */
  lemma PairHidesWhole(sky: seq<PodResource>, at: seq<nat>)
    requires Stands([PAIR, WHOLE], sky, at) && Staircase(sky)
    requires forall p | p in [PAIR, WHOLE] :: Undercut(sky, p)
    ensures SomePlace(TightNode(WHOLE), [PAIR, WHOLE]) && !SomePlace(TightNode(WHOLE), sky)
  {
    SecondIsLater();
    assert [PAIR, WHOLE][1] == WHOLE;
    UncoveredIsMisjudged([PAIR, WHOLE], sky, WHOLE);
  }
}
