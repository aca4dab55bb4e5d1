/** Whole runs of the GPU plugin on the ledger: Filter with the cache's allocator, then
    Reserve with whichever allocator is configured, and releases in any order. */
module GpuRuns {
  import opened Allocators
  import opened Decimal
  import opened Frag
  import opened Ledger
  import opened Resource
  import opened Seals

  datatype GpuSelMethod = BestFit | WorstFit | RandomFit | FragAware

  /** What each of Reserve's allocators may choose; None where it panics. score is the value
      the fragmentation-aware one gives to a device. */
  ghost predicate Selected(sel: GpuSelMethod, score: int -> int, list: seq<int>, pod: PodResource,
                           choice: Option<seq<int>>) {
    if pod.milliGpu >= MILLI then choice == ExclusiveChoice(list, pod)
    else match sel
      case BestFit => choice == BestFitChoice(list, pod)
      case WorstFit => choice == WorstFitChoice(list, pod)
      case RandomFit => choice.Some? && AnyShare(list, pod.milliGpu, choice.value)
      case FragAware =>
        if !pod.IsGpuShare() then choice == ExclusiveChoice(list, pod)
        else if NoRoom(list, pod.milliGpu, |list|) then choice == Some([])
        else choice.Some? && |choice.value| == 1 && BestScored(list, pod.milliGpu, score, |list|, choice.value[0])
  }

  predicate InRange(list: seq<int>) {
    forall i | 0 <= i < |list| :: 0 <= list[i] <= MILLI
  }

  lemma CacheOffersFit(list: seq<int>, pod: PodResource)
    requires InRange(list) && OneShare(pod)
    requires CacheChoice(list, pod.milliGpu, pod.gpuNumber).Some?
    ensures pod.gpuNumber <= |FitOrder(list, pod.milliGpu)|
  {
    if pod.milliGpu == MILLI {
      FullIsFitOrder(list);
      GreedyIsFull(list, 0, pod.gpuNumber);
    }
  }

  lemma FirstFitsAreGood(list: seq<int>, pod: PodResource)
    requires 0 <= pod.gpuNumber <= |FitOrder(list, pod.milliGpu)|
    ensures GoodIds(list, pod, FitOrder(list, pod.milliGpu)[..pod.gpuNumber])
  {
    FirstFitsAreTightest(list, pod.milliGpu, pod.gpuNumber);
  }

  lemma FitMeansRoom(list: seq<int>, m: int)
    requires FitOrder(list, m) != []
    ensures !NoRoom(list, m, |list|)
  {
    FitOrderMembers(list, m);
    assert FitOrder(list, m)[0] in FitOrder(list, m);
  }

  /** After Filter has let a pod through, Reserve gives it a non-empty list of good devices
      and never panics, whichever allocator is configured. */
  lemma ReserveAfterFilter(sel: GpuSelMethod, score: int -> int, list: seq<int>, pod: PodResource,
                           choice: Option<seq<int>>)
    requires InRange(list) && OneShare(pod)
    requires CacheChoice(list, pod.milliGpu, pod.gpuNumber).Some?
    requires Selected(sel, score, list, pod, choice)
    ensures choice.Some? && choice.value != [] && GoodIds(list, pod, choice.value)
  {
    CacheOffersFit(list, pod);
    FirstFitsAreGood(list, pod);
    FitMeansRoom(list, pod.milliGpu);
    if pod.milliGpu < MILLI {
      WorstFitIsRoomiest(list, pod);
    }
    if pod.milliGpu == MILLI {
      FullIsFitOrder(list);
      WholeGpusOf(pod.gpuNumber);
    }
  }

  // ----- runs ------------------------------------------------------------------------------

  /** placed are the pods that the cache has been given and has not freed; unbound are those among
      them that Unreserve has taken back from their node at the server. failed is set once a Reserve
      that follows a successful Filter panics or finds no device. */
  datatype State = State(view: View, placed: Placed, unbound: set<string>, failed: bool)

  /** Unreserve gets the pod as the scheduler holds it, without the devices that Reserve chose.
      Release is the deletion of a pod. */
  datatype Step =
    | Schedule(node: string, pod: Pod, sel: GpuSelMethod, score: int -> int, choice: Option<seq<int>>)
    | Release(uid: string)
    | Unreserve(node: string, pod: Pod)

  ghost function NodeLeft(cluster: Cluster, view: View, n: string): seq<int>
    requires n in cluster && n in view && forall i | 0 <= i < cluster[n].gpuCount :: i in view[n]
  {
    LeftList(view[n], cluster[n].gpuCount)
  }

  ghost predicate WellFormed(cluster: Cluster, view: View) {
    view.Keys == cluster.Keys && forall n, i | n in cluster && 0 <= i < cluster[n].gpuCount :: i in view[n]
  }

  /** Filter: the node has GPUs of a type the pod accepts, and the cache can allocate. */
  ghost predicate FilterPasses(cluster: Cluster, view: View, n: string, pod: Pod)
    requires n in cluster && WellFormed(cluster, view)
  {
    && 0 < cluster[n].gpuCount
    && Accessible(cluster[n].gpuModel, pod.gpuModel)
    && CacheChoice(NodeLeft(cluster, view, n), pod.gpuMilli, pod.gpuCount).Some?
  }

  /** A pod that has not been given devices yet. */
  predicate Fresh(pod: Pod) {
    pod.gpuIndex == "" && !pod.Terminal() && OneShare(pod.Res())
  }

  function Annotated(pod: Pod, ids: seq<int>): Pod {
    pod.(gpuIndex := JoinIds(ids))
  }

  ghost predicate Next(cluster: Cluster, s: State, step: Step, t: State)
    requires WellFormed(cluster, s.view)
  {
    match step
    case Schedule(n, pod, sel, score, choice) =>
      && n in cluster && Fresh(pod) && pod.uid !in s.placed
      && (if !FilterPasses(cluster, s.view, n, pod) then t == s
          else if !Selected(sel, score, NodeLeft(cluster, s.view, n), pod.Res(), choice) then false
          else if choice.None? || choice.value == [] then t == s.(failed := true)
          else
            var placedPod := Annotated(pod, choice.value);
            t == s.(view := s.view[n := WithPod(s.view[n], placedPod)],
                    placed := s.placed[pod.uid := Placement(placedPod, n)],
                    unbound := s.unbound - {pod.uid}))
    case Release(u) =>
      u in s.placed && s.placed[u].node in cluster && t == AfterRelease(s, u)
    case Unreserve(n, pod) =>
      n in cluster && pod.gpuIndex == "" && t == AfterUnreserve(s, n, pod)
  }

  /** A deleted pod leaves the node that the server has for it; an unbound one has none there. */
  function AfterRelease(s: State, u: string): State
    requires u in s.placed && s.placed[u].node in s.view
  {
    var p := s.placed[u];
    if u in s.unbound then s
    else s.(view := s.view[p.node := WithoutPod(s.view[p.node], p.pod)], placed := s.placed - {u})
  }

  function AfterUnreserve(s: State, n: string, pod: Pod): State
    requires n in s.view
  {
    s.(view := s.view[n := WithoutPod(s.view[n], pod)], unbound := s.unbound + {pod.uid})
  }

  ghost predicate Linked(cluster: Cluster, s: State, step: Step, t: State) {
    WellFormed(cluster, s.view) && Next(cluster, s, step, t)
  }

  ghost predicate Good(cluster: Cluster, s: State) {
    WellFormed(cluster, s.view) && Books(cluster, s.view, s.placed) && !s.failed
  }

  /** Good, sealed. */
  ghost predicate Sound(cluster: Cluster, s: State) {
    forall key {:trigger Open(RunSeal, key)} :: Open(RunSeal, key) ==> Good(cluster, s)
  }

  /** Linked, sealed. */
  ghost predicate IsStep(cluster: Cluster, s: State, step: Step, t: State) {
    forall key {:trigger Open(RunSeal, key)} :: Open(RunSeal, key) ==> Linked(cluster, s, step, t)
  }

  lemma SoundIsGood(cluster: Cluster, s: State)
    ensures Sound(cluster, s) <==> Good(cluster, s)
  {
    assert Open(RunSeal, 0);
  }

  lemma BooksWellFormed(cluster: Cluster, view: View, placed: Placed)
    requires Books(cluster, view, placed)
    ensures WellFormed(cluster, view)
    ensures forall n | n in cluster :: InRange(NodeLeft(cluster, view, n))
  {
  }

  lemma AnnotationReadsBack(list: seq<int>, pod: Pod, ids: seq<int>)
    requires GoodIds(list, pod.Res(), ids)
    ensures Annotated(pod, ids).Ids() == ParsedIds(ids, true)
  {
    IdsRoundTrip(ids);
  }

  lemma ScheduleKeepsGood(cluster: Cluster, s: State, n: string, pod: Pod, sel: GpuSelMethod, score: int -> int,
                          choice: Option<seq<int>>, t: State)
    requires Good(cluster, s) && Linked(cluster, s, Schedule(n, pod, sel, score, choice), t)
    ensures Good(cluster, t)
  {
    if FilterPasses(cluster, s.view, n, pod) {
      BooksWellFormed(cluster, s.view, s.placed);
      var list := NodeLeft(cluster, s.view, n);
      ReserveAfterFilter(sel, score, list, pod.Res(), choice);
      AnnotationReadsBack(list, pod, choice.value);
      assert NodeBooks(cluster[n].gpuCount, s.view[n], s.placed, n);
      PlaceKeepsBooks(cluster, s.view, s.placed, n, Annotated(pod, choice.value));
      BooksWellFormed(cluster, t.view, t.placed);
    }
  }

  lemma StepKeepsGood(cluster: Cluster, s: State, step: Step, t: State)
    requires Good(cluster, s) && Linked(cluster, s, step, t)
    ensures Good(cluster, t)
  {
    match step
    case Schedule(n, pod, sel, score, choice) =>
      ScheduleKeepsGood(cluster, s, n, pod, sel, score, choice, t);
    case Release(u) =>
      if u !in s.unbound {
        RemoveKeepsBooks(cluster, s.view, s.placed, u);
        BooksWellFormed(cluster, t.view, t.placed);
      }
    case Unreserve(n, pod) =>
      RemoveUnannotated(s.view[n], pod);
      assert t.view == s.view;
  }

  lemma StepIsSound(cluster: Cluster, s: State, step: Step, t: State)
    requires Sound(cluster, s) && Linked(cluster, s, step, t)
    ensures Sound(cluster, t) && IsStep(cluster, s, step, t)
  {
    SoundIsGood(cluster, s);
    StepKeepsGood(cluster, s, step, t);
  }

  function EmptyView(cluster: Cluster): View {
    map n | n in cluster :: EmptyDevices(cluster[n].gpuCount)
  }

  function Initially(cluster: Cluster): State {
    State(EmptyView(cluster), map[], {}, false)
  }

  ghost predicate Run(cluster: Cluster, states: seq<State>, steps: seq<Step>) {
    && |states| == |steps| + 1
    && states[0] == Initially(cluster)
    && forall k | 1 <= k <= |steps| :: Linked(cluster, states[k - 1], steps[k - 1], states[k])
  }

  lemma StartIsGood(cluster: Cluster)
    ensures Good(cluster, Initially(cluster))
  {
  }

  /** Over every run, in every state, no Reserve after a successful Filter has failed. */
  lemma {:induction false} RunsStayGood(cluster: Cluster, states: seq<State>, steps: seq<Step>, k: nat)
    requires Run(cluster, states, steps) && k <= |steps|
    ensures Good(cluster, states[k])
  {
    if k == 0 {
      StartIsGood(cluster);
    } else {
      RunsStayGood(cluster, states, steps, k - 1);
      var s, step, t := states[k - 1], steps[k - 1], states[k];
      assert Linked(cluster, s, step, t);
      StepKeepsGood(cluster, s, step, t);
    }
  }

  /** Over every run, in every state, a device is charged exactly the sum over the pods placed
      on its node of milli times multiplicity, and that stays between 0 and a whole GPU. */
  lemma RunsKeepTheBooks(cluster: Cluster, states: seq<State>, steps: seq<Step>, k: nat, n: string, i: int)
    requires Run(cluster, states, steps) && k <= |steps|
    requires n in cluster && 0 <= i < cluster[n].gpuCount
    ensures n in states[k].view && i in states[k].view[n]
    ensures 0 <= Charge(states[k].view[n][i], i) == Charge(OnNode(states[k].placed, n), i) <= MILLI
  {
    RunsStayGood(cluster, states, steps, k);
    assert NodeBooks(cluster[n].gpuCount, states[k].view[n], states[k].placed, n);
    ChargeIsPlaced(cluster, states[k].view, states[k].placed, n, i);
  }

  /** Over every run, in every state, a placed pod is on a node of a type it accepts, on as many
      different devices of it as it asks for. */
  lemma RunsPlaceWell(cluster: Cluster, states: seq<State>, steps: seq<Step>, k: nat, u: string)
    requires Run(cluster, states, steps) && k <= |steps| && u in states[k].placed
    ensures var p := states[k].placed[u];
      && p.node in cluster && Accessible(cluster[p.node].gpuModel, p.pod.gpuModel)
      && |p.pod.Ids().idl| == p.pod.gpuCount && Distinct(p.pod.Ids().idl)
      && forall i | i in p.pod.Ids().idl :: 0 <= i < cluster[p.node].gpuCount
  {
    RunsStayGood(cluster, states, steps, k);
    assert WellPlaced(cluster, u, states[k].placed[u]);
  }

  // ----- what Unreserve leaves behind --------------------------------------------------------

  lemma ChargeGrows(cluster: Cluster, s: State, n: string, pod: Pod, ids: seq<int>, i: int)
    requires Good(cluster, s) && n in cluster && 0 <= i < cluster[n].gpuCount && pod.uid !in s.placed
    requires !pod.Terminal() && Annotated(pod, ids).Ids() == ParsedIds(ids, true) && Distinct(ids) && i in ids
    ensures Charge(WithPod(s.view[n], Annotated(pod, ids))[i], i) == Charge(s.view[n][i], i) + pod.gpuMilli
  {
    assert NodeBooks(cluster[n].gpuCount, s.view[n], s.placed, n);
    LoadOnce(Annotated(pod, ids), i);
    ChargeAdd(s.view[n][i], i, pod.uid, Annotated(pod, ids));
  }

  lemma ScheduledOn(cluster: Cluster, s: State, n: string, pod: Pod, sel: GpuSelMethod, score: int -> int,
                    choice: Option<seq<int>>, t: State)
    requires Good(cluster, s) && Linked(cluster, s, Schedule(n, pod, sel, score, choice), t)
    requires FilterPasses(cluster, s.view, n, pod)
    ensures choice.Some? && choice.value != [] && GoodIds(NodeLeft(cluster, s.view, n), pod.Res(), choice.value)
    ensures t.view == s.view[n := WithPod(s.view[n], Annotated(pod, choice.value))] && pod.uid in t.placed
    ensures Annotated(pod, choice.value).Ids() == ParsedIds(choice.value, true)
  {
    BooksWellFormed(cluster, s.view, s.placed);
    var list := NodeLeft(cluster, s.view, n);
    ReserveAfterFilter(sel, score, list, pod.Res(), choice);
    AnnotationReadsBack(list, pod, choice.value);
  }

  lemma UndoneKeeps(cluster: Cluster, s1: State, n: string, pod: Pod, s2: State, s3: State)
    requires Linked(cluster, s1, Unreserve(n, pod), s2) && Linked(cluster, s2, Release(pod.uid), s3)
    ensures s3.view == s1.view && s3.placed == s1.placed && pod.uid in s3.unbound
  {
    RemoveUnannotated(s1.view[n], pod);
    assert s2.view == s1.view;
  }

  /** A pod that is reserved, unreserved and then deleted stays on the devices it was given: the
      cache is as Reserve left it, with the pod's milli on each of them. */
  lemma UnreservedLeaks(cluster: Cluster, s0: State, n: string, pod: Pod, sel: GpuSelMethod, score: int -> int,
                        choice: Option<seq<int>>, s1: State, s2: State, s3: State)
    requires Good(cluster, s0) && Linked(cluster, s0, Schedule(n, pod, sel, score, choice), s1)
    requires FilterPasses(cluster, s0.view, n, pod)
    requires Linked(cluster, s1, Unreserve(n, pod), s2) && Linked(cluster, s2, Release(pod.uid), s3)
    ensures choice.Some? && choice.value != []
    ensures s3.view == s1.view && s3.placed == s1.placed && pod.uid in s3.placed && pod.uid in s3.unbound
    ensures forall i | i in choice.value ::
      && 0 <= i < cluster[n].gpuCount
      && Charge(s3.view[n][i], i) == Charge(s0.view[n][i], i) + pod.gpuMilli
  {
    ScheduledOn(cluster, s0, n, pod, sel, score, choice, s1);
    UndoneKeeps(cluster, s1, n, pod, s2, s3);
    forall i | i in choice.value
      ensures 0 <= i < cluster[n].gpuCount
      ensures Charge(s1.view[n][i], i) == Charge(s0.view[n][i], i) + pod.gpuMilli
    {
      ChargeGrows(cluster, s0, n, pod, choice.value, i);
    }
  }

  lemma LeakStays(cluster: Cluster, s: State, step: Step, t: State, u: string)
    requires Linked(cluster, s, step, t) && u in s.placed && u in s.unbound
    ensures u in t.placed && t.placed[u] == s.placed[u] && u in t.unbound
  {
  }

  lemma ChargedAtLeast(cluster: Cluster, s: State, u: string, i: int)
    requires Good(cluster, s) && u in s.placed && Names(s.placed[u].pod, i)
    ensures var p := s.placed[u];
      p.node in cluster && 0 <= i < cluster[p.node].gpuCount && p.pod.gpuMilli <= Charge(s.view[p.node][i], i)
  {
    assert WellPlaced(cluster, u, s.placed[u]);
    var n, pods := s.placed[u].node, Holding(s.placed, s.placed[u].node, i);
    assert NodeBooks(cluster[n].gpuCount, s.view[n], s.placed, n);
    LoadOnce(s.placed[u].pod, i);
    ChargeWithout(pods, i, u);
    HoldingRemove(s.placed, u, n, i);
    HoldingNonNegative(cluster, s.placed - {u}, n, i);
  }

  /** No later step of any run gives the devices of an unbound pod back. */
  lemma {:induction false} LeakIsForever(cluster: Cluster, states: seq<State>, steps: seq<Step>, k: nat, j: nat,
                                         u: string, i: int)
    requires Run(cluster, states, steps) && k <= j <= |steps|
    requires u in states[k].placed && u in states[k].unbound && Names(states[k].placed[u].pod, i)
    ensures u in states[j].placed && states[j].placed[u] == states[k].placed[u] && u in states[j].unbound
    ensures var p := states[k].placed[u];
      && p.node in cluster && p.node in states[j].view && i in states[j].view[p.node]
      && p.pod.gpuMilli <= Charge(states[j].view[p.node][i], i)
  {
    if k < j {
      LeakIsForever(cluster, states, steps, k, j - 1, u, i);
      assert Linked(cluster, states[j - 1], steps[j - 1], states[j]);
      LeakStays(cluster, states[j - 1], steps[j - 1], states[j], u);
    }
    RunsStayGood(cluster, states, steps, j);
    ChargedAtLeast(cluster, states[j], u, i);
  }
}
