/** The GPU share plugin over the cluster cache: Filter reads the cache, Reserve reads the node
    annotation, and every change of the cache is written back to the annotation. */
module GpuShare {
  import opened Allocators
  import opened Decimal
  import opened DeviceCache
  import opened Frag
  import opened GpuRuns
  import opened Ledger
  import opened Resource
  import opened Seals

  class SchedulerCache {
    /** What the node lookup answers. */
    const cluster: Cluster
    var nodes: map<string, GpuNodeInfo>
    var knownPods: PodMap
    /** The devices of every node of the cluster; a node not seen yet counts as empty. */
    ghost var view: View
    ghost var repr: set<DeviceInfo>

    ghost predicate Tracks(n: string)
      requires n in cluster && n in view
      reads `nodes, `view, `repr, repr
    {
      if n in nodes then
        && nodes[n].name == n && nodes[n].gpuCount == cluster[n].gpuCount
        && nodes[n].Valid() && nodes[n].repr <= repr && view[n] == nodes[n].Held()
      else view[n] == EmptyDevices(cluster[n].gpuCount)
    }

    ghost predicate Valid()
      reads `nodes, `view, `repr, repr
    {
      nodes.Keys <= cluster.Keys && forall n | n in cluster :: n in view && Tracks(n)
    }

    /** Valid, sealed. */
    ghost predicate Kept()
      reads `nodes, `view, `repr, repr
    {
      view.Keys == cluster.Keys && forall key {:trigger Open(StoreSeal, key)} :: Open(StoreSeal, key) ==> Valid()
    }

    lemma KeptMeans()
      ensures Kept() <==> view.Keys == cluster.Keys && Valid()
    {
      assert Open(StoreSeal, 0);
    }

    /** The node has been seen, and the view of it is what its devices hold. */
    ghost predicate Knows(name: string)
      reads `nodes, `view, `repr, repr
    {
      && name in cluster && name in nodes && name in view
      && nodes[name].gpuCount == cluster[name].gpuCount && nodes[name].repr <= repr
      && nodes[name].Valid() && view[name] == nodes[name].Held()
    }

    lemma KnowsSeen(name: string)
      requires Kept() && name in nodes
      ensures Knows(name)
    {
      KeptMeans();
      assert Tracks(name);
    }

    constructor (nodeSpecs: Cluster)
      ensures Kept() && cluster == nodeSpecs && knownPods == map[]
      ensures repr == {} && view == EmptyView(nodeSpecs)
    {
      cluster := nodeSpecs;
      nodes := map[];
      knownPods := map[];
      view := EmptyView(nodeSpecs);
      repr := {};
      new;
      KeptMeans();
    }

    /** A node not seen before, with empty devices, leaves the others as they are. */
    twostate lemma OneNodeMore(name: string)
      requires old(Kept()) && name in cluster && name !in old(nodes) && view == old(view)
      requires name in nodes && nodes == old(nodes)[name := nodes[name]] && repr == old(repr) + nodes[name].repr
      requires nodes[name].name == name && nodes[name].gpuCount == cluster[name].gpuCount
      requires nodes[name].Valid() && nodes[name].Held() == EmptyDevices(cluster[name].gpuCount)
      requires forall d | d in old(repr) :: unchanged(d)
      ensures Kept()
    {
      assert Open(StoreSeal, 0);
      assert old(Tracks(name));
      forall n | n in cluster ensures Tracks(n) {
        assert old(Tracks(n));
        if n in old(nodes) {
          assert nodes[n].Held() == old(nodes[n].Held());
        }
      }
    }

    method NewNode(name: string)
      requires Kept() && name in cluster && name !in nodes
      modifies `nodes, `repr
      ensures Kept() && name in nodes && fresh(repr - old(repr)) && old(repr) <= repr
    {
      var info := new GpuNodeInfo(name, cluster[name].gpuCount);
      nodes := nodes[name := info];
      repr := repr + info.repr;
      OneNodeMore(name);
    }

    /** Finds the node, building it with empty devices the first time; null for a node the
        cluster does not have. */
    method GetGpuNodeInfo(name: string) returns (info: GpuNodeInfo?)
      requires Kept()
      modifies `nodes, `repr
      ensures Kept() && fresh(repr - old(repr)) && old(repr) <= repr
      ensures info != null <==> name in cluster
      ensures if info != null then Knows(name) && nodes[name] == info else nodes == old(nodes) && repr == old(repr)
    {
      if name !in cluster {
        return null;
      }
      if name !in nodes {
        NewNode(name);
      }
      KnowsSeen(name);
      info := nodes[name];
    }

    /** Devices of different nodes are different, so a change of one node's devices shows on no
        other node. */
    twostate lemma OneNodeChanged(name: string)
      requires old(Kept()) && name in nodes && nodes == old(nodes) && repr == old(repr)
      requires nodes[name].Valid() && view == old(view)[name := nodes[name].Held()]
      requires forall d | d in repr && d !in nodes[name].repr :: unchanged(d)
      ensures Kept()
    {
      assert Open(StoreSeal, 0);
      assert old(Tracks(name));
      forall n | n in cluster && n != name ensures Tracks(n) {
        assert old(Tracks(n));
        if n in nodes {
          assert nodes[n].repr !! nodes[name].repr;
          assert nodes[n].Held() == old(nodes[n].Held());
        }
      }
      assert Tracks(name);
    }

    method EnterOn(pod: Pod, name: string) returns (added: bool)
      requires Kept() && name in nodes && name in cluster
      modifies `view, nodes[name].repr
      ensures Kept() && view == Entered(old(view), name, pod) && added == Enters(pod, cluster[name].gpuCount)
    {
      KnowsSeen(name);
      added := nodes[name].AddOrUpdatePod(pod);
      view := view[name := nodes[name].Held()];
      OneNodeChanged(name);
    }

    method LeaveFrom(pod: Pod, name: string)
      requires Kept() && name in nodes && name in cluster
      modifies `view, nodes[name].repr
      ensures Kept() && view == Left(old(view), name, pod)
    {
      KnowsSeen(name);
      nodes[name].RemovePod(pod);
      view := view[name := nodes[name].Held()];
      OneNodeChanged(name);
    }

    method AddOrUpdatePod(pod: Pod, nodeName: string) returns (ok: bool)
      requires Kept()
      modifies `nodes, `repr, `knownPods, `view, repr
      ensures Kept() && fresh(repr - old(repr)) && old(repr) <= repr
      ensures ok <==> nodeName in cluster
      ensures view == if !ok then old(view) else Entered(old(view), nodeName, pod)
      ensures knownPods ==
        if ok && Enters(pod, cluster[nodeName].gpuCount) then old(knownPods)[pod.uid := pod] else old(knownPods)
    {
      var info := GetGpuNodeInfo(nodeName);
      ok := info != null;
      if ok {
        var added := EnterOn(pod, nodeName);
        knownPods := if added then knownPods[pod.uid := pod] else knownPods;
      }
    }

    /** Takes the pod off the node's devices and forgets it, even when the node is unknown. */
    method RemovePod(pod: Pod, nodeName: string)
      requires Kept()
      modifies `nodes, `repr, `knownPods, `view, repr
      ensures Kept() && fresh(repr - old(repr)) && old(repr) <= repr
      ensures view == if nodeName in cluster then Left(old(view), nodeName, pod) else old(view)
      ensures knownPods == old(knownPods) - {pod.uid}
    {
      var info := GetGpuNodeInfo(nodeName);
      if info != null {
        LeaveFrom(pod, nodeName);
      }
      knownPods := knownPods - {pod.uid};
    }
  }

  function Entered(view: View, n: string, pod: Pod): View
    requires n in view
  {
    view[n := WithPod(view[n], pod)]
  }

  function Left(view: View, n: string, pod: Pod): View
    requires n in view
  {
    view[n := WithoutPod(view[n], pod)]
  }

  lemma NothingLeaves(view: View, n: string, pod: Pod)
    requires n in view
    ensures pod.gpuIndex == "" ==> Left(view, n, pod) == view
  {
    if pod.gpuIndex == "" {
      RemoveUnannotated(view[n], pod);
    }
  }

  /** Filter lets the pod through on a well-formed view; sealed. */
  ghost predicate Passes(cluster: Cluster, view: View, n: string, pod: Pod)
    requires n in cluster
  {
    forall key {:trigger Open(PassSeal, key)} ::
      Open(PassSeal, key) ==> WellFormed(cluster, view) && FilterPasses(cluster, view, n, pod)
  }

  lemma PassesMeans(cluster: Cluster, view: View, n: string, pod: Pod)
    requires n in cluster
    ensures Passes(cluster, view, n, pod) <==> WellFormed(cluster, view) && FilterPasses(cluster, view, n, pod)
  {
    assert Open(PassSeal, 0);
  }

  // ----- the plugin ------------------------------------------------------------------------

  /** used records what each of the first count devices is charged. */
  ghost predicate Records(used: UsedGpus, devs: Devices, count: nat) {
    && (forall i :: i in used <==> 0 <= i < count)
    && forall i | 0 <= i < count :: i in devs && used[i] == Charge(devs[i], i)
  }

  /** What Reserve's device choice returns, None where it panics: a pod that already names
      devices keeps them if each exists and has room; a share of several GPUs is a panic; any
      other pod gets the configured allocator's choice. */
  ghost predicate Chosen(sel: GpuSelMethod, score: int -> int, list: seq<int>, pod: Pod, gpuId: Option<string>,
                         choice: Option<seq<int>>) {
    if pod.gpuIndex != "" then
      gpuId ==
        if Preset(pod).Some? && PresetFitsOn(list, pod.gpuMilli, Preset(pod).value) then Some(pod.gpuIndex) else None
    else if pod.gpuMilli < MILLI && pod.gpuCount > 1 then gpuId == None
    else gpuId == TextOf(choice) && Selected(sel, score, list, pod.Res(), choice)
  }

  method ChooseDevices(pod: Pod, node: NodeResource, sel: GpuSelMethod, sigmoid: real -> real, pods: seq<TargetPod>)
    returns (gpuId: Option<string>, ghost choice: Option<seq<int>>)
    ensures Chosen(sel, ScoreOf(sigmoid, node, pod.Res(), pods), node.milliGpuLeftList, pod, gpuId, choice)
    ensures sel == FragAware && pod.gpuIndex == "" && pod.Res().IsGpuShare() && Increasing(sigmoid) &&
            FitsSome(node, pod.Res()) ==>
      gpuId.Some? && NamesLeastFrag(sigmoid, node, pod.Res(), pods, gpuId.value)
  {
    choice := None;
    if |pod.gpuIndex| > 0 {
      var preset := ReadPreset(pod);
      gpuId := None;
      if preset.Some? {
        var fits := PresetFitsList(node.milliGpuLeftList, pod.gpuMilli, preset.value);
        if fits {
          gpuId := Some(pod.gpuIndex);
        }
      }
      return;
    }
    if pod.gpuMilli < MILLI && pod.gpuCount > 1 {
      return None, None;
    }
    match sel {
      case BestFit =>
        gpuId := AllocateGpuIdBasedOnBestFit(node, pod.Res());
        choice := BestFitChoice(node.milliGpuLeftList, pod.Res());
      case WorstFit =>
        gpuId := AllocateGpuIdBasedOnWorstFit(node, pod.Res());
        choice := WorstFitChoice(node.milliGpuLeftList, pod.Res());
      case RandomFit =>
        gpuId, choice := AllocateGpuIdBasedOnRandomFit(node, pod.Res());
      case FragAware =>
        var score;
        score, gpuId, choice := CalculateGpuShareFragExtendScore(sigmoid, node, pod.Res(), pods);
    }
  }

  method PresetFitsList(list: seq<int>, m: int, idl: seq<int>) returns (ok: bool)
    ensures ok == PresetFitsOn(list, m, idl)
  {
    for k := 0 to |idl|
      invariant forall j | 0 <= j < k :: 0 <= idl[j] < |list| && m <= list[idl[j]]
    {
      if !(0 <= idl[k] < |list|) || list[idl[k]] < m {
        return false;
      }
    }
    ok := true;
  }

  /** A node's annotation tells what its devices are charged; without one they are charged
      nothing. */
  ghost predicate NodeRecorded(annotations: map<string, UsedGpus>, devs: Devices, count: nat, n: string) {
    if n in annotations then Records(annotations[n], devs, count)
    else forall i | 0 <= i < count :: i in devs && Charge(devs[i], i) == 0
  }

  ghost predicate Recorded(annotations: map<string, UsedGpus>, view: View, cluster: Cluster) {
    view.Keys == cluster.Keys &&
    forall n | n in cluster :: NodeRecorded(annotations, view[n], cluster[n].gpuCount, n)
  }

  lemma RecordedKeys(annotations: map<string, UsedGpus>, view: View, cluster: Cluster)
    requires Recorded(annotations, view, cluster)
    ensures WellFormed(cluster, view)
  {
  }

  lemma RecordedUpdate(annotations: map<string, UsedGpus>, view: View, cluster: Cluster, n: string, devs: Devices,
                       used: UsedGpus)
    requires Recorded(annotations, view, cluster) && n in cluster
    requires Records(used, devs, cluster[n].gpuCount)
    ensures Recorded(annotations[n := used], view[n := devs], cluster)
  {
  }

  method TakeFromFull(gpuNum: nat, used: UsedGpus) returns (list: seq<int>)
    requires forall i | 0 <= i < gpuNum :: i in used
    ensures |list| == gpuNum && forall i | 0 <= i < gpuNum :: list[i] == MILLI - used[i]
  {
    list := seq(gpuNum, _ => MILLI);
    for i := 0 to gpuNum
      invariant |list| == gpuNum
      invariant forall j | 0 <= j < i :: list[j] == MILLI - used[j]
      invariant forall j | i <= j < gpuNum :: list[j] == MILLI
    {
      list := list[i := list[i] - used[i]];
    }
  }

  lemma RecordsGiveLeft(used: UsedGpus, devs: Devices, count: nat, list: seq<int>)
    requires Records(used, devs, count)
    requires |list| == count && forall i | 0 <= i < count :: list[i] == MILLI - used[i]
    ensures list == LeftList(devs, count)
  {
    forall i | 0 <= i < count ensures list[i] == LeftList(devs, count)[i] {
      assert used[i] == Charge(devs[i], i);
    }
  }

  predicate NoGpuFor(spec: NodeSpec, pod: Pod) {
    spec.gpuCount == 0 || !Accessible(spec.gpuModel, pod.gpuModel)
  }

  method Rejected(spec: NodeSpec, pod: Pod) returns (r: bool)
    ensures r == NoGpuFor(spec, pod)
  {
    if spec.gpuCount == 0 {
      return true;
    }
    var accessible := IsNodeAccessibleToPodByType(spec.gpuModel, pod.gpuModel);
    r := !accessible;
  }

  /** Filter's answer: a pod without a GPU request passes; otherwise the node must have GPUs of
      an accepted type and the cache must be able to allocate. */
  ghost predicate FilterAnswer(spec: NodeSpec, left: seq<int>, pod: Pod, ok: bool) {
    if pod.gpuMilli <= 0 then ok
    else if NoGpuFor(spec, pod) then !ok
    else CanAllocate(left, pod, ok)
  }

  ghost predicate CanAllocate(left: seq<int>, pod: Pod, ok: bool) {
    exists id :: Allocation(left, pod, id, ok)
  }

  method Allocatable(info: GpuNodeInfo, pod: Pod, ghost left: seq<int>) returns (ok: bool)
    requires info.Valid() && left == LeftList(info.Held(), info.gpuCount)
    ensures CanAllocate(left, pod, ok)
  {
    var candDevId;
    candDevId, ok := info.AllocateGpuId(pod);
    assert Allocation(left, pod, candDevId, ok);
  }

  /** For a pod that has not been given devices this is the runs' Filter. */
  lemma FilterAnswerPasses(cluster: Cluster, view: View, n: string, pod: Pod, ok: bool)
    requires n in cluster && WellFormed(cluster, view)
    requires 0 < pod.gpuMilli && pod.gpuIndex == ""
    requires FilterAnswer(cluster[n], NodeLeft(cluster, view, n), pod, ok)
    ensures ok <==> FilterPasses(cluster, view, n, pod)
  {
  }

  /** What Reserve does with the chosen devices. */
  ghost predicate ReserveAnswer(cluster: Cluster, view: View, n: string, pod: Pod, gpuId: Option<string>, after: View,
                                status: ReserveStatus)
    requires n in view
  {
    if pod.gpuMilli <= 0 then status == Reserved && after == view
    else if gpuId == None then status == Panicked && after == view
    else if gpuId == Some("") then status == Refused && after == view
    else
      && after == Entered(view, n, pod.(gpuIndex := gpuId.value))
      && status == if pod.nodeName in cluster then Reserved else Refused
  }

  function AfterPlacing(s: State, n: string, pod: Pod, ids: seq<int>): State
    requires n in s.view
  {
    var placedPod := Annotated(pod, ids);
    s.(view := s.view[n := WithPod(s.view[n], placedPod)], placed := s.placed[pod.uid := Placement(placedPod, n)],
       unbound := s.unbound - {pod.uid})
  }

  /** What Reserve does after a Filter that passed is a step of a run. */
  lemma ReserveIsStep(cluster: Cluster, s: State, n: string, pod: Pod, sel: GpuSelMethod, score: int -> int,
                      gpuId: Option<string>, choice: Option<seq<int>>, after: View, status: ReserveStatus)
    requires Sound(cluster, s) && n in cluster && Fresh(pod) && pod.uid !in s.placed && pod.nodeName == n
    requires WellFormed(cluster, s.view) && FilterPasses(cluster, s.view, n, pod)
    requires Chosen(sel, score, NodeLeft(cluster, s.view, n), pod, gpuId, choice)
    requires ReserveAnswer(cluster, s.view, n, pod, gpuId, after, status)
    ensures choice.Some? && after == AfterPlacing(s, n, pod, choice.value).view && status == Reserved
    ensures gpuId == Some(JoinIds(choice.value))
    ensures var t := AfterPlacing(s, n, pod, choice.value);
      && WellFormed(cluster, t.view) && Sound(cluster, t)
      && IsStep(cluster, s, Schedule(n, pod, sel, score, choice), t)
  {
    SoundIsGood(cluster, s);
    BooksWellFormed(cluster, s.view, s.placed);
    ReserveAfterFilter(sel, score, NodeLeft(cluster, s.view, n), pod.Res(), choice);
    IdsRoundTrip(choice.value);
    var t := AfterPlacing(s, n, pod, choice.value);
    StepIsSound(cluster, s, Schedule(n, pod, sel, score, choice), t);
    SoundIsWellFormed(cluster, t);
  }

  lemma SoundIsWellFormed(cluster: Cluster, s: State)
    requires Sound(cluster, s)
    ensures WellFormed(cluster, s.view)
  {
    SoundIsGood(cluster, s);
    BooksWellFormed(cluster, s.view, s.placed);
  }

  lemma StartIsSound(cluster: Cluster)
    ensures WellFormed(cluster, EmptyView(cluster)) && Sound(cluster, Initially(cluster))
  {
  }

  /** The deletion of a placed pod is a step of a run. */
  lemma ReleaseIsStep(cluster: Cluster, s: State, u: string)
    requires Sound(cluster, s) && WellFormed(cluster, s.view) && u in s.placed
    ensures s.placed[u].node in cluster
    ensures var t := AfterRelease(s, u);
      WellFormed(cluster, t.view) && Sound(cluster, t) && IsStep(cluster, s, Step.Release(u), t)
  {
    SoundIsGood(cluster, s);
    assert WellPlaced(cluster, u, s.placed[u]);
    StepIsSound(cluster, s, Step.Release(u), AfterRelease(s, u));
    SoundIsWellFormed(cluster, AfterRelease(s, u));
  }

  /** A pod that has been released would fit its own devices again. */
  lemma ReleasedFitsAgain(cluster: Cluster, s: State, u: string)
    requires Good(cluster, s) && u in s.placed && u !in s.unbound
    ensures var p := s.placed[u];
      && p.node in cluster && WellFormed(cluster, AfterRelease(s, u).view)
      && PresetFitsOn(NodeLeft(cluster, AfterRelease(s, u).view, p.node), p.pod.gpuMilli, p.pod.Ids().idl)
  {
    var p := s.placed[u];
    assert WellPlaced(cluster, u, p);
    var devs, ids := s.view[p.node], p.pod.Ids().idl;
    assert NodeBooks(cluster[p.node].gpuCount, devs, s.placed, p.node);
    forall j | 0 <= j < |ids|
      ensures 0 <= ids[j] < cluster[p.node].gpuCount
      ensures p.pod.gpuMilli <= MILLI - Charge(WithoutPod(devs, p.pod)[ids[j]], ids[j])
    {
      var i := ids[j];
      assert i in ids && 0 <= i < cluster[p.node].gpuCount;
      assert u in Holding(s.placed, p.node, i);
      ChargeWithout(devs[i], i, u);
      LoadOnce(p.pod, i);
    }
  }

  lemma UnreserveIsStep(cluster: Cluster, s: State, n: string, pod: Pod)
    requires Sound(cluster, s) && WellFormed(cluster, s.view) && n in cluster && pod.gpuIndex == ""
    ensures var t := AfterUnreserve(s, n, pod);
      WellFormed(cluster, t.view) && Sound(cluster, t) && IsStep(cluster, s, Step.Unreserve(n, pod), t)
  {
    StepIsSound(cluster, s, Step.Unreserve(n, pod), AfterUnreserve(s, n, pod));
    SoundIsWellFormed(cluster, AfterUnreserve(s, n, pod));
  }

  /** So is leaving out a pod that Filter turns away. */
  lemma RejectedIsStep(cluster: Cluster, s: State, step: Step)
    requires step.Schedule? && step.node in cluster && Fresh(step.pod) && step.pod.uid !in s.placed
    requires WellFormed(cluster, s.view) && !FilterPasses(cluster, s.view, step.node, step.pod)
    ensures IsStep(cluster, s, step, s)
  {
  }

  datatype ReserveStatus = Reserved | Refused | Panicked

  class GpuSharePlugin {
    const cache: SchedulerCache
    var annotations: map<string, UsedGpus>

    ghost predicate Valid()
      reads this, cache, cache.repr
    {
      cache.Kept() && Recorded(annotations, cache.view, cache.cluster)
    }

    ghost predicate Holds(s: State)
      reads this, cache, cache.repr
    {
      Valid() && WellFormed(cache.cluster, s.view) && Sound(cache.cluster, s) && s.view == cache.view
    }

    /** The cache holds what the run has placed by s; sealed. */
    ghost predicate At(s: State)
      reads this, cache, cache.repr
    {
      forall key {:trigger Open(CacheSeal, key)} :: Open(CacheSeal, key) ==> Holds(s)
    }

    lemma AtMeans(s: State)
      ensures At(s) <==> Holds(s)
    {
      assert Open(CacheSeal, 0);
    }

    constructor (nodeSpecs: Cluster)
      ensures fresh(cache) && fresh(cache.repr)
      ensures cache.cluster == nodeSpecs && At(Initially(nodeSpecs))
    {
      cache := new SchedulerCache(nodeSpecs);
      annotations := map[];
      new;
      StartIsSound(nodeSpecs);
      AtMeans(Initially(nodeSpecs));
    }

    /** The GPU list that every score and Reserve's allocators see: the node's annotation taken
        from full GPUs. It is the cache's idle list. */
    method GetGpuMilliLeftListOnNode(n: string) returns (list: seq<int>)
      requires Valid() && n in cache.cluster
      ensures WellFormed(cache.cluster, cache.view)
      ensures list == NodeLeft(cache.cluster, cache.view, n)
    {
      RecordedKeys(annotations, cache.view, cache.cluster);
      var gpuNum := cache.cluster[n].gpuCount;
      assert NodeRecorded(annotations, cache.view[n], gpuNum, n);
      if n in annotations {
        list := TakeFromFull(gpuNum, annotations[n]);
        RecordsGiveLeft(annotations[n], cache.view[n], gpuNum, list);
      } else {
        list := seq(gpuNum, _ => MILLI);
      }
    }

    /** Writes the node's charges back to its annotation; an unknown node is an error. */
    method UpdateNode(n: string) returns (ok: bool)
      requires cache.Kept()
      modifies `annotations, cache`nodes, cache`repr
      ensures cache.Kept() && fresh(cache.repr - old(cache.repr)) && old(cache.repr) <= cache.repr
      ensures ok <==> n in cache.cluster
      ensures ok ==>
        && n in annotations && annotations == old(annotations)[n := annotations[n]]
        && Records(annotations[n], cache.view[n], cache.cluster[n].gpuCount)
      ensures !ok ==> annotations == old(annotations)
    {
      var info := cache.GetGpuNodeInfo(n);
      ok := info != null;
      if ok {
        var used := info.GetUsedGpus();
        annotations := annotations[n := used];
      }
    }

    method Filter(pod: Pod, n: string) returns (ok: bool)
      requires Valid() && n in cache.cluster
      modifies cache`nodes, cache`repr
      ensures Valid() && fresh(cache.repr - old(cache.repr)) && old(cache.repr) <= cache.repr
      ensures WellFormed(cache.cluster, cache.view)
      ensures FilterAnswer(cache.cluster[n], NodeLeft(cache.cluster, cache.view, n), pod, ok)
    {
      RecordedKeys(annotations, cache.view, cache.cluster);
      if pod.gpuMilli <= 0 {
        return true;
      }
      var rejected := Rejected(cache.cluster[n], pod);
      if rejected {
        return false;
      }
      ok := CacheAllocates(pod, n);
    }

    method CacheAllocates(pod: Pod, n: string) returns (ok: bool)
      requires Valid() && n in cache.cluster && WellFormed(cache.cluster, cache.view)
      modifies cache`nodes, cache`repr
      ensures Valid() && fresh(cache.repr - old(cache.repr)) && old(cache.repr) <= cache.repr
      ensures CanAllocate(NodeLeft(cache.cluster, cache.view, n), pod, ok)
    {
      var info := cache.GetGpuNodeInfo(n);
      ok := Allocatable(info, pod, NodeLeft(cache.cluster, cache.view, n));
    }

    /** Gives a GPU pod devices, enters it in the cache and writes the annotation back. A pod
        whose node name is not set yet is entered but reported as an error, and the annotation
        is left as it was; an unknown node is an error from the start. */
    method Reserve(pod: Pod, n: string, nodeRes: NodeResource, sel: GpuSelMethod, sigmoid: real -> real,
                   pods: seq<TargetPod>)
      returns (status: ReserveStatus, gpuId: Option<string>, ghost choice: Option<seq<int>>)
      requires Valid()
      modifies this, cache, cache.repr
      ensures fresh(cache.repr - old(cache.repr)) && old(cache.repr) <= cache.repr
      ensures old(WellFormed(cache.cluster, cache.view))
      ensures cache.Kept() && (n !in cache.cluster || pod.nodeName == n ==> Valid())
      ensures n in cache.cluster && pod.gpuMilli > 0 ==>
        var left := old(NodeLeft(cache.cluster, cache.view, n));
        Chosen(sel, ScoreOf(sigmoid, nodeRes.(milliGpuLeftList := left), pod.Res(), pods), left, pod, gpuId, choice)
      ensures n in cache.cluster ==> ReserveAnswer(cache.cluster, old(cache.view), n, pod, gpuId, cache.view, status)
      ensures n !in cache.cluster ==>
        cache.view == old(cache.view) && status == if pod.gpuMilli <= 0 then Reserved else Refused
    {
      RecordedKeys(annotations, cache.view, cache.cluster);
      gpuId, choice := None, None;
      if pod.gpuMilli <= 0 {
        return Reserved, gpuId, choice;
      }
      if n !in cache.cluster {
        return Refused, gpuId, choice;
      }
      var left := GetGpuMilliLeftListOnNode(n);
      gpuId, choice := ChooseDevices(pod, nodeRes.(milliGpuLeftList := left), sel, sigmoid, pods);
      if gpuId.None? {
        return Panicked, gpuId, choice;
      }
      if gpuId.value == "" {
        return Refused, gpuId, choice;
      }
      status := Enter(pod.(gpuIndex := gpuId.value), n);
    }

    /** Enters a pod that carries its devices: first the cache, then the annotation. An unknown
        node is an error and changes nothing. */
    method Enter(podCopy: Pod, n: string) returns (status: ReserveStatus)
      requires Valid()
      modifies this, cache, cache.repr
      ensures fresh(cache.repr - old(cache.repr)) && old(cache.repr) <= cache.repr
      ensures cache.Kept() && (n !in cache.cluster || podCopy.nodeName == n ==> Valid())
      ensures cache.view == if n in cache.cluster then Entered(old(cache.view), n, podCopy) else old(cache.view)
      ensures status == if n in cache.cluster && podCopy.nodeName in cache.cluster then Reserved else Refused
    {
      ghost var view := cache.view;
      var entered := cache.AddOrUpdatePod(podCopy, n);
      if !entered {
        return Refused;
      }
      var updated := UpdateNode(podCopy.nodeName);
      if podCopy.nodeName == n {
        RecordedUpdate(old(annotations), view, cache.cluster, n, cache.view[n], annotations[n]);
      }
      status := if updated then Reserved else Refused;
    }

    /** Takes the pod, as its own list names it, off the node and writes the annotation back. */
    method RemovePod(pod: Pod, n: string)
      requires Valid()
      modifies this, cache, cache.repr
      ensures Valid() && fresh(cache.repr - old(cache.repr)) && old(cache.repr) <= cache.repr
      ensures cache.view == if n in cache.cluster then Left(old(cache.view), n, pod) else old(cache.view)
    {
      if n !in cache.cluster {
        return;
      }
      cache.RemovePod(pod, n);
      var updated := UpdateNode(n);
      RecordedUpdate(old(annotations), old(cache.view), cache.cluster, n, cache.view[n], annotations[n]);
    }

    /** Takes the pod off by its own device list, as a deletion does. The scheduler hands over the
        pod without the devices that Reserve chose: then nothing is freed. */
    method Unreserve(pod: Pod, n: string)
      requires Valid()
      modifies this, cache, cache.repr
      ensures Valid() && fresh(cache.repr - old(cache.repr)) && old(cache.repr) <= cache.repr
      ensures cache.view == if n in cache.cluster then Left(old(cache.view), n, pod) else old(cache.view)
      ensures pod.gpuIndex == "" ==> cache.view == old(cache.view)
    {
      if n in cache.cluster {
        NothingLeaves(cache.view, n, pod);
      }
      RemovePod(pod, n);
    }

    /** After a Filter that passes, Reserve always succeeds and is a step of a run. podCopy is
        the pod with its devices, as it is patched back. */
    method Place(pod: Pod, n: string, nodeRes: NodeResource, sel: GpuSelMethod, sigmoid: real -> real,
                 pods: seq<TargetPod>, ghost s: State)
      returns (podCopy: Pod, ghost step: Step, ghost t: State)
      requires At(s) && WellFormed(cache.cluster, s.view) && n in cache.cluster && pod.nodeName == n
      requires Fresh(pod) && pod.uid !in s.placed && FilterPasses(cache.cluster, s.view, n, pod)
      modifies this, cache, cache.repr
      ensures fresh(cache.repr - old(cache.repr)) && old(cache.repr) <= cache.repr
      ensures At(t)
      ensures IsStep(cache.cluster, s, step, t) && step.Schedule? && step.pod == pod && step.node == n
      ensures step.choice.Some? && t == AfterPlacing(s, n, pod, step.choice.value)
      ensures podCopy == Annotated(pod, step.choice.value)
    {
      AtMeans(s);
      ghost var score := ScoreOf(sigmoid, nodeRes.(milliGpuLeftList := NodeLeft(cache.cluster, s.view, n)),
                                       pod.Res(), pods);
      var status, gpuId;
      ghost var choice;
      status, gpuId, choice := Reserve(pod, n, nodeRes, sel, sigmoid, pods);
      ReserveIsStep(cache.cluster, s, n, pod, sel, score, gpuId, choice, cache.view, status);
      step, t := Step.Schedule(n, pod, sel, score, choice), AfterPlacing(s, n, pod, choice.value);
      podCopy := pod.(gpuIndex := gpuId.value);
      AtMeans(t);
    }

    /** Filter on a pod that has not been given devices yet. */
    method Admit(pod: Pod, n: string, ghost s: State) returns (ok: bool)
      requires At(s) && WellFormed(cache.cluster, s.view) && n in cache.cluster && Fresh(pod)
      modifies cache`nodes, cache`repr
      ensures At(s) && fresh(cache.repr - old(cache.repr)) && old(cache.repr) <= cache.repr
      ensures ok == FilterPasses(cache.cluster, s.view, n, pod)
    {
      AtMeans(s);
      ok := Filter(pod, n);
      FilterAnswerPasses(cache.cluster, cache.view, n, pod, ok);
      AtMeans(s);
    }

    /** One scheduling attempt, Filter then Reserve, is one step of a run. */
    method Schedule(pod: Pod, n: string, nodeRes: NodeResource, sel: GpuSelMethod, sigmoid: real -> real,
                    pods: seq<TargetPod>, ghost s: State)
      returns (placed: bool, podCopy: Pod, ghost step: Step, ghost t: State)
      requires At(s) && WellFormed(cache.cluster, s.view) && n in cache.cluster && pod.nodeName == n
      requires Fresh(pod) && pod.uid !in s.placed
      modifies this, cache, cache.repr
      ensures fresh(cache.repr - old(cache.repr)) && old(cache.repr) <= cache.repr
      ensures At(t)
      ensures IsStep(cache.cluster, s, step, t) && step.Schedule? && step.pod == pod && step.node == n
      ensures placed == FilterPasses(cache.cluster, s.view, n, pod)
      ensures if placed then step.choice.Some? && t == AfterPlacing(s, n, pod, step.choice.value) &&
                podCopy == Annotated(pod, step.choice.value)
              else t == s && podCopy == pod
    {
      placed := Admit(pod, n, s);
      if placed {
        podCopy, step, t := Place(pod, n, nodeRes, sel, sigmoid, pods, s);
      } else {
        podCopy, step, t := pod, Step.Schedule(n, pod, sel, d => 0, None), s;
        RejectedIsStep(cache.cluster, s, step);
      }
    }

    /** Schedule, as the arrival loop sees it. */
    method TrySchedule(pod: Pod, n: string, nodeRes: NodeResource, sel: GpuSelMethod, sigmoid: real -> real,
                       pods: seq<TargetPod>, ghost s: State)
      returns (placed: bool, podCopy: Pod, ghost t: State)
      requires At(s) && n in cache.cluster && pod.nodeName == n
      requires Fresh(pod) && pod.uid !in s.placed
      modifies this, cache, cache.repr
      ensures fresh(cache.repr - old(cache.repr)) && old(cache.repr) <= cache.repr
      ensures At(t) && podCopy == pod.(gpuIndex := podCopy.gpuIndex)
      ensures t.placed == if placed then s.placed[pod.uid := Placement(podCopy, n)] else s.placed
      ensures t.unbound <= s.unbound
      ensures placed == Passes(cache.cluster, old(cache.view), n, pod)
    {
      AtMeans(s);
      PassesMeans(cache.cluster, cache.view, n, pod);
      ghost var step;
      placed, podCopy, step, t := Schedule(pod, n, nodeRes, sel, sigmoid, pods, s);
    }

    /** The deletion of a placed pod, with the node that the server has for it: a pod whose
        binding was undone has none, and nothing is freed. */
    method Release(u: string, pod: Pod, n: string, ghost s: State)
      requires At(s)
      requires u in s.placed && s.placed[u].pod == pod && s.placed[u].node in s.view
      requires if u in s.unbound then n !in cache.cluster else n == s.placed[u].node && n in cache.cluster
      modifies this, cache, cache.repr
      ensures fresh(cache.repr - old(cache.repr)) && old(cache.repr) <= cache.repr
      ensures At(AfterRelease(s, u))
    {
      AtMeans(s);
      ReleaseIsStep(cache.cluster, s, u);
      RemovePod(pod, n);
      AtMeans(AfterRelease(s, u));
    }

    /** Unreserve of the pod as the scheduler holds it. */
    method Undo(pod: Pod, n: string, ghost s: State)
      requires At(s) && n in cache.cluster && n in s.view && pod.gpuIndex == ""
      modifies this, cache, cache.repr
      ensures fresh(cache.repr - old(cache.repr)) && old(cache.repr) <= cache.repr
      ensures At(AfterUnreserve(s, n, pod)) &&
              IsStep(cache.cluster, s, Step.Unreserve(n, pod), AfterUnreserve(s, n, pod))
    {
      AtMeans(s);
      UnreserveIsStep(cache.cluster, s, n, pod);
      Unreserve(pod, n);
      AtMeans(AfterUnreserve(s, n, pod));
    }
  }
}
