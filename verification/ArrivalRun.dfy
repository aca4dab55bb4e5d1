/** The arrival loop: before each pod is scheduled, the pods that have ended are released. So
    right after a release at t, what a device is charged is what the pods still to end take. */
module ArrivalRun {
  import opened Decimal
  import opened Frag
  import opened GpuRuns
  import opened GpuShare
  import opened Ledger
  import opened Resource
  import opened Seals
  import opened SimTime

  datatype PodKey = PodKey(namespace: string, name: string)

  function KeyOf(pod: Pod): PodKey { PodKey(pod.namespace, pod.name) }

  function KeyOfTrace(tr: PodTrace): PodKey { PodKey(tr.podNameSpace, tr.podName) }

  /** A pod on its node, as the API server holds it, with its time annotations. */
  datatype Stay = Stay(pod: Pod, node: string, startTime: int, endTime: int)

  function StayTrace(s: Stay): PodTrace {
    PodTrace(s.pod.name, s.pod.namespace, s.node, s.startTime, s.endTime, s.pod.gpuMilli * s.pod.gpuCount)
  }

  /** Every pod ever placed, by its id. */
  type Ever = map<string, Stay>

  /** The pods the API server holds. */
  type Store = map<PodKey, Stay>

  /** Ids and names are not used twice. */
  ghost predicate Unique(ever: Ever) {
    && (forall u | u in ever :: ever[u].pod.uid == u)
    && forall u, w | u in ever && w in ever && KeyOf(ever[u].pod) == KeyOf(ever[w].pod) :: u == w
  }

  ghost predicate Running(store: Store, tr: PodTrace) {
    KeyOfTrace(tr) in store && StayTrace(store[KeyOfTrace(tr)]) == tr
  }

  /** The traces on the heap are those of the pods the server holds, one each. */
  ghost predicate Traced(store: Store, bag: multiset<PodTrace>) {
    forall tr :: bag[tr] == if Running(store, tr) then 1 else 0
  }

  /** The server holds pods as they were placed, and every other pod has ended. */
  ghost predicate Held(store: Store, ever: Ever, now: int) {
    && (forall k | k in store ::
          KeyOf(store[k].pod) == k && store[k].pod.uid in ever && ever[store[k].pod.uid] == store[k])
    && forall u | u in ever && KeyOf(ever[u].pod) !in store :: ever[u].endTime <= now
  }

  /** What the server, the heap and the placements agree on, sealed. */
  ghost predicate Agree(store: Store, ever: Ever, bag: multiset<PodTrace>, now: int) {
    forall key {:trigger Open(ServerSeal, key)} ::
      Open(ServerSeal, key) ==> Unique(ever) && Held(store, ever, now) && Traced(store, bag)
  }

  lemma AgreeMeans(store: Store, ever: Ever, bag: multiset<PodTrace>, now: int)
    ensures Agree(store, ever, bag, now) <==> Unique(ever) && Held(store, ever, now) && Traced(store, bag)
  {
    assert Open(ServerSeal, 0);
  }

  /** The GPU pods that the server holds. */
  function PlacedOf(store: Store, ever: Ever): Placed {
    map u | u in ever && KeyOf(ever[u].pod) in store && ever[u].pod.gpuMilli > 0 :: Placement(ever[u].pod, ever[u].node)
  }

  /** The GPU pods ever placed that end after t. */
  function LiveAt(ever: Ever, t: int): Placed {
    map u | u in ever && ever[u].endTime > t && ever[u].pod.gpuMilli > 0 :: Placement(ever[u].pod, ever[u].node)
  }

  lemma HolderOfName(store: Store, ever: Ever, now: int, u: string)
    requires Unique(ever) && Held(store, ever, now)
    requires u in ever && KeyOf(ever[u].pod) in store
    ensures store[KeyOf(ever[u].pod)] == ever[u]
  {
  }

  lemma TracedTakeOff(store: Store, bag: multiset<PodTrace>, tr: PodTrace)
    requires Traced(store, bag) && tr in bag
    ensures Running(store, tr) && Traced(store - {KeyOfTrace(tr)}, bag - multiset{tr})
  {
  }

  lemma NameOfHolder(store: Store, ever: Ever, now: int, k: PodKey, u: string)
    requires Unique(ever) && Held(store, ever, now) && k in store && u in ever
    ensures KeyOf(ever[u].pod) == k <==> u == store[k].pod.uid
  {
  }

  lemma PlacedTakeOff(store: Store, ever: Ever, k: PodKey, uid: string)
    requires k in store && forall u | u in ever :: KeyOf(ever[u].pod) == k <==> u == uid
    ensures PlacedOf(store - {k}, ever) == PlacedOf(store, ever) - {uid}
  {
  }

  lemma PlacedHolder(store: Store, ever: Ever, now: int, k: PodKey)
    requires Unique(ever) && Held(store, ever, now) && k in store
    ensures PlacedAs(PlacedOf(store, ever), store[k])
  {
  }

  /** A GPU pod is among the placed ones as it stands on its node; another pod is not. */
  predicate PlacedAs(placed: Placed, s: Stay) {
    if s.pod.gpuMilli > 0 then s.pod.uid in placed && placed[s.pod.uid] == Placement(s.pod, s.node)
    else s.pod.uid !in placed
  }

  lemma HeldTakeOff(store: Store, ever: Ever, now: int, k: PodKey)
    requires Unique(ever) && Held(store, ever, now) && k in store && store[k].endTime <= now
    ensures Held(store - {k}, ever, now)
    ensures PlacedOf(store - {k}, ever) == PlacedOf(store, ever) - {store[k].pod.uid}
  {
    forall u | u in ever ensures KeyOf(ever[u].pod) == k <==> u == store[k].pod.uid {
      NameOfHolder(store, ever, now, k, u);
    }
    PlacedTakeOff(store, ever, k, store[k].pod.uid);
  }

  predicate NewName(ever: Ever, pod: Pod) {
    pod.uid !in ever && forall u | u in ever :: KeyOf(ever[u].pod) != KeyOf(pod)
  }

  lemma PlacedPutOn(store: Store, ever: Ever, s: Stay)
    requires NewName(ever, s.pod)
    ensures PlacedOf(store[KeyOf(s.pod) := s], ever[s.pod.uid := s]) ==
      if s.pod.gpuMilli > 0 then PlacedOf(store, ever)[s.pod.uid := Placement(s.pod, s.node)] else PlacedOf(store, ever)
  {
  }

  lemma AgreePutOn(store: Store, ever: Ever, bag: multiset<PodTrace>, now: int, s: Stay)
    requires Agree(store, ever, bag, now) && NewName(ever, s.pod)
    ensures Agree(store[KeyOf(s.pod) := s], ever[s.pod.uid := s], bag + multiset{StayTrace(s)}, now)
  {
  }

  lemma AgreeTakeOff(store: Store, ever: Ever, bag: multiset<PodTrace>, now: int, tr: PodTrace)
    requires Agree(store, ever, bag, now) && tr in bag && tr.endTime <= now
    ensures KeyOfTrace(tr) in store
    ensures Agree(store - {KeyOfTrace(tr)}, ever, bag - multiset{tr}, now)
    ensures PlacedAs(PlacedOf(store, ever), store[KeyOfTrace(tr)])
    ensures PlacedOf(store - {KeyOfTrace(tr)}, ever) == PlacedOf(store, ever) - {store[KeyOfTrace(tr)].pod.uid}
  {
    var k := KeyOfTrace(tr);
    AgreeMeans(store, ever, bag, now);
    TracedTakeOff(store, bag, tr);
    HeldTakeOff(store, ever, now, k);
    PlacedHolder(store, ever, now, k);
    AgreeMeans(store - {k}, ever, bag - multiset{tr}, now);
  }

  /** The placements are the GPU pods that the server holds, sealed. */
  ghost predicate StandsWith(store: Store, ever: Ever, placed: Placed, bag: multiset<PodTrace>, now: int) {
    forall key {:trigger Open(StandsSeal, key)} ::
      Open(StandsSeal, key) ==> Agree(store, ever, bag, now) && placed == PlacedOf(store, ever)
  }

  lemma StandsMeans(store: Store, ever: Ever, placed: Placed, bag: multiset<PodTrace>, now: int)
    ensures StandsWith(store, ever, placed, bag, now) <==>
            Agree(store, ever, bag, now) && placed == PlacedOf(store, ever)
  {
    assert Open(StandsSeal, 0);
  }

  lemma StandsLater(store: Store, ever: Ever, placed: Placed, bag: multiset<PodTrace>, now: int, t: int)
    requires StandsWith(store, ever, placed, bag, now) && now <= t
    ensures StandsWith(store, ever, placed, bag, t)
  {
    StandsMeans(store, ever, placed, bag, now);
    AgreeMeans(store, ever, bag, now);
    AgreeMeans(store, ever, bag, t);
    StandsMeans(store, ever, placed, bag, t);
  }

  lemma NotPlaced(store: Store, ever: Ever, placed: Placed, bag: multiset<PodTrace>, now: int, pod: Pod)
    requires StandsWith(store, ever, placed, bag, now) && NewName(ever, pod)
    ensures pod.uid !in placed
  {
    StandsMeans(store, ever, placed, bag, now);
  }

  /** Once every ended pod is off, the pods left are exactly those that end later. */
  lemma OnlyLiveLeft(store: Store, ever: Ever, placed: Placed, traces: seq<PodTrace>, now: int)
    requires StandsWith(store, ever, placed, multiset(traces), now)
    requires forall tr | tr in traces :: tr.endTime > now
    ensures placed == LiveAt(ever, now)
  {
    StandsMeans(store, ever, placed, multiset(traces), now);
    AgreeMeans(store, ever, multiset(traces), now);
    forall u | u in ever ensures KeyOf(ever[u].pod) in store <==> ever[u].endTime > now {
      var k := KeyOf(ever[u].pod);
      if k in store {
        HolderOfName(store, ever, now, u);
        var tr := StayTrace(store[k]);
        assert multiset(traces)[tr] == 1;
        assert tr in traces;
      }
    }
  }

  /** What the devices are charged when only pods that end after now are placed. */
  lemma ChargeIsLive(cluster: Cluster, s: State, ever: Ever, now: int)
    requires Sound(cluster, s) && s.placed == LiveAt(ever, now)
    ensures ChargedLive(cluster, s.view, ever, now)
  {
    SoundIsGood(cluster, s);
    forall n, i | n in cluster && 0 <= i < cluster[n].gpuCount
      ensures Charge(s.view[n][i], i) == Charge(OnNode(LiveAt(ever, now), n), i)
    {
      ChargeIsPlaced(cluster, s.view, s.placed, n, i);
    }
  }

  ghost predicate ChargedLive(cluster: Cluster, view: View, ever: Ever, now: int) {
    WellFormed(cluster, view) &&
    forall n, i | n in cluster && 0 <= i < cluster[n].gpuCount ::
      Charge(view[n][i], i) == Charge(OnNode(LiveAt(ever, now), n), i)
  }

  /** A pod to place: either its GPU demand is one the plugin serves or it asks for no GPU. */
  predicate Arriving(pod: Pod) {
    pod.gpuIndex == "" && (if pod.gpuMilli > 0 then Fresh(pod) else pod.gpuMilli == 0)
  }

  /** A pod of the workload with its times, and what the scheduler decides: the node it tries,
      if the pod fits any by the other plugins, with that node's resources. */
  datatype Event = Event(pod: Pod, startTime: int, endTime: int, target: Option<string>, nodeRes: NodeResource)

  /** How the plugin chooses devices. */
  datatype Config = Config(sel: GpuSelMethod, sigmoid: real -> real, pods: seq<TargetPod>)

  /** The pod stays where it was tried, for its own time, with the devices it was given. */
  predicate EverAfter(ever: Ever, e: Event, n: string, ever': Ever) {
    var u := e.pod.uid;
    && u in ever' && ever' == ever[u := ever'[u]]
    && ever'[u] == Stay(e.pod.(gpuIndex := ever'[u].pod.gpuIndex), n, e.startTime, e.endTime)
  }

  predicate Upcoming(cluster: Cluster, ever: Ever, now: int, e: Event) {
    && now <= e.startTime && Arriving(e.pod) && NewName(ever, e.pod)
    && (e.target.Some? ==> e.target.value in cluster && e.pod.nodeName == e.target.value)
  }

  /** The workload from event k on: start times do not decrease, ids and names are not reused. */
  predicate Workload(cluster: Cluster, ever: Ever, now: int, events: seq<Event>, k: nat) {
    && (forall j | k <= j < |events| :: Upcoming(cluster, ever, now, events[j]))
    && forall i, j | k <= i < j < |events| ::
         events[i].startTime <= events[j].startTime && events[i].pod.uid != events[j].pod.uid &&
         KeyOf(events[i].pod) != KeyOf(events[j].pod)
  }

  lemma WorkloadNext(cluster: Cluster, ever: Ever, now: int, events: seq<Event>, k: nat, ever': Ever)
    requires k < |events| && Workload(cluster, ever, now, events, k)
    requires ever' == ever || (events[k].target.Some? && EverAfter(ever, events[k], events[k].target.value, ever'))
    ensures Workload(cluster, ever', events[k].startTime, events, k + 1)
  {
  }

  /** What had been placed and what the devices held right after a release. */
  datatype Snapshot = Snapshot(now: int, ever: Ever, view: View)

  /** A snapshot for each event, right after its release: at that time each device is charged
      exactly what the pods placed so far that end later take. Between two snapshots the event's
      pod was placed if it found a place, and nothing else was. */
  ghost predicate Releases(cluster: Cluster, first: Ever, events: seq<Event>, snaps: seq<Snapshot>, last: Ever)
    requires |snaps| <= |events|
  {
    if snaps == [] then first == last
    else
      var k := |snaps| - 1;
      && Releases(cluster, first, events, snaps[..k], snaps[k].ever)
      && snaps[k].now == events[k].startTime
      && ChargedLive(cluster, snaps[k].view, snaps[k].ever, snaps[k].now)
      && Settles(cluster, snaps[k], events[k], last)
  }

  /** The pod finds a place: the scheduler has a node for it, and for a GPU pod the plugin's
      Filter passes there. */
  ghost predicate Admitted(cluster: Cluster, view: View, e: Event) {
    && e.target.Some? && e.target.value in cluster
    && (e.pod.gpuMilli > 0 ==> Passes(cluster, view, e.target.value, e.pod))
  }

  /** The event's pod is placed where it was tried exactly when it finds a place there. */
  ghost predicate Settles(cluster: Cluster, snap: Snapshot, e: Event, last: Ever) {
    if Admitted(cluster, snap.view, e) then EverAfter(snap.ever, e, e.target.value, last) else last == snap.ever
  }

  /** The pods that found no place, in order of arrival. */
  ghost function TurnedAway(cluster: Cluster, events: seq<Event>, snaps: seq<Snapshot>): seq<Pod>
    requires |snaps| <= |events|
  {
    if snaps == [] then []
    else
      var k := |snaps| - 1;
      TurnedAway(cluster, events, snaps[..k]) +
        if Admitted(cluster, snaps[k].view, events[k]) then [] else [events[k].pod]
  }

  lemma ReleasesNext(cluster: Cluster, first: Ever, events: seq<Event>, snaps: seq<Snapshot>, snap: Snapshot,
                     last: Ever)
    requires |snaps| < |events| && Releases(cluster, first, events, snaps, snap.ever)
    requires snap.now == events[|snaps|].startTime && ChargedLive(cluster, snap.view, snap.ever, snap.now)
    requires Settles(cluster, snap, events[|snaps|], last)
    ensures Releases(cluster, first, events, snaps + [snap], last)
    ensures TurnedAway(cluster, events, snaps + [snap]) ==
            TurnedAway(cluster, events, snaps) +
              if Admitted(cluster, snap.view, events[|snaps|]) then [] else [events[|snaps|].pod]
  {
    assert (snaps + [snap])[..|snaps|] == snaps;
  }

  /** Where the arrival loop stands after as many events as there are snapshots. */
  ghost predicate ProgressOf(cluster: Cluster, first: Ever, events: seq<Event>, snaps: seq<Snapshot>,
                             failedPods: seq<Pod>, ever: Ever, now: int) {
    && |snaps| <= |events| && Workload(cluster, ever, now, events, |snaps|)
    && |ever| + |failedPods| == |first| + |snaps|
    && Releases(cluster, first, events, snaps, ever) && failedPods == TurnedAway(cluster, events, snaps)
  }

  /** ProgressOf, sealed. */
  ghost predicate Progress(cluster: Cluster, first: Ever, events: seq<Event>, snaps: seq<Snapshot>,
                           failedPods: seq<Pod>, ever: Ever, now: int) {
    forall key {:trigger Open(ProgressSeal, key)} ::
      Open(ProgressSeal, key) ==> ProgressOf(cluster, first, events, snaps, failedPods, ever, now)
  }

  lemma ProgressMeans(cluster: Cluster, first: Ever, events: seq<Event>, snaps: seq<Snapshot>, failedPods: seq<Pod>,
                      ever: Ever, now: int)
    ensures Progress(cluster, first, events, snaps, failedPods, ever, now) <==>
            ProgressOf(cluster, first, events, snaps, failedPods, ever, now)
  {
    assert Open(ProgressSeal, 0);
  }

  lemma ProgressUpcoming(cluster: Cluster, first: Ever, events: seq<Event>, snaps: seq<Snapshot>, failedPods: seq<Pod>,
                         ever: Ever, now: int)
    requires Progress(cluster, first, events, snaps, failedPods, ever, now) && |snaps| < |events|
    ensures Upcoming(cluster, ever, now, events[|snaps|])
  {
    ProgressMeans(cluster, first, events, snaps, failedPods, ever, now);
  }

  /** Either the event's pod is one more that was ever placed, or nothing changed. */
  lemma SettlesAdds(cluster: Cluster, snap: Snapshot, e: Event, last: Ever)
    requires Settles(cluster, snap, e, last) && e.pod.uid !in snap.ever
    ensures if Admitted(cluster, snap.view, e) then e.target.Some? && EverAfter(snap.ever, e, e.target.value, last)
            else last == snap.ever
    ensures |last| == |snap.ever| + if Admitted(cluster, snap.view, e) then 1 else 0
  {
  }

  lemma WorkloadLeft(cluster: Cluster, first: Ever, events: seq<Event>, snaps: seq<Snapshot>, failedPods: seq<Pod>,
                     ever: Ever, now: int, snap: Snapshot, last: Ever)
    requires Progress(cluster, first, events, snaps, failedPods, ever, now) && |snaps| < |events|
    requires snap.ever == ever && Settles(cluster, snap, events[|snaps|], last)
    ensures Workload(cluster, last, events[|snaps|].startTime, events, |snaps| + 1)
    ensures |last| == |ever| + if Admitted(cluster, snap.view, events[|snaps|]) then 1 else 0
  {
    ProgressMeans(cluster, first, events, snaps, failedPods, ever, now);
    assert Upcoming(cluster, ever, now, events[|snaps|]);
    SettlesAdds(cluster, snap, events[|snaps|], last);
    WorkloadNext(cluster, ever, now, events, |snaps|, last);
  }

  lemma ProgressNext(cluster: Cluster, first: Ever, events: seq<Event>, snaps: seq<Snapshot>, failedPods: seq<Pod>,
                     ever: Ever, now: int, snap: Snapshot, last: Ever, placed: bool)
    requires Progress(cluster, first, events, snaps, failedPods, ever, now) && |snaps| < |events|
    requires snap.ever == ever && snap.now == events[|snaps|].startTime
    requires ChargedLive(cluster, snap.view, ever, snap.now) && Settles(cluster, snap, events[|snaps|], last)
    requires placed == Admitted(cluster, snap.view, events[|snaps|])
    ensures Progress(cluster, first, events, snaps + [snap],
                     if placed then failedPods else failedPods + [events[|snaps|].pod], last, events[|snaps|].startTime)
  {
    var failedPods' := if placed then failedPods else failedPods + [events[|snaps|].pod];
    WorkloadLeft(cluster, first, events, snaps, failedPods, ever, now, snap, last);
    ProgressMeans(cluster, first, events, snaps, failedPods, ever, now);
    ReleasesNext(cluster, first, events, snaps, snap, last);
    ProgressMeans(cluster, first, events, snaps + [snap], failedPods', last, events[|snaps|].startTime);
  }

  class Simulator {
    const plugin: GpuSharePlugin
    const fakeTime: FakeTime
    var store: Store
    ghost var ever: Ever
    ghost var state: State

    /** The plugin and the run agree on what is placed. */
    ghost predicate InStep()
      reads `state, plugin, plugin.cache, plugin.cache.repr
    {
      plugin.At(state) && state.unbound == {}
    }

    ghost predicate Consistent(bag: multiset<PodTrace>, now: int)
      reads `store, `ever, `state
    {
      StandsWith(store, ever, state.placed, bag, now)
    }

    ghost predicate Valid()
      reads this, plugin, plugin.cache, plugin.cache.repr, fakeTime
    {
      && InStep() && fakeTime.Kept()
      && Consistent(multiset(fakeTime.traces), fakeTime.fakeCurrentTime)
      && NoDevices(fakeTime.history)
    }

    /** Reserve patches the devices onto its own copy of a pod, and the pod that is recorded has
        none: over whole arrival runs every device seems free at once. */
    lemma DevicesSeemFree(node: string, gpuId: int)
      requires Valid()
      ensures DeviceEnd(fakeTime.history, node, gpuId) == 0
    {
      NoDevicesNoEnd(fakeTime.history, node, gpuId);
    }

    constructor (nodeSpecs: Cluster)
      ensures fresh(plugin) && fresh(plugin.cache) && fresh(plugin.cache.repr) && fresh(fakeTime)
      ensures Valid() && ever == map[] && fakeTime.fakeCurrentTime == 0
      ensures plugin.cache.cluster == nodeSpecs
    {
      plugin := new GpuSharePlugin(nodeSpecs);
      fakeTime := new FakeTime();
      store, ever := map[], map[];
      state := Initially(nodeSpecs);
      new;
      AgreeMeans(map[], map[], multiset{}, 0);
      StandsMeans(map[], map[], map[], multiset{}, 0);
    }

    /** The informer's delete handler takes a GPU pod off the cache. */
    method OnDelete(stay: Stay)
      requires InStep() && PlacedAs(state.placed, stay)
      modifies `state, plugin, plugin.cache, plugin.cache.repr
      ensures fresh(plugin.cache.repr - old(plugin.cache.repr)) && old(plugin.cache.repr) <= plugin.cache.repr
      ensures InStep() && state.placed == old(state.placed) - {stay.pod.uid}
    {
      if stay.pod.gpuMilli > 0 {
        ghost var before := state;
        plugin.AtMeans(before);
        ReleaseIsStep(plugin.cache.cluster, before, stay.pod.uid);
        state := AfterRelease(before, stay.pod.uid);
        plugin.Release(stay.pod.uid, stay.pod, stay.node, before);
      }
    }

    method DeletePodByName(tr: PodTrace, ghost bag: multiset<PodTrace>, ghost now: int)
      requires InStep() && Consistent(bag, now) && tr in bag && tr.endTime <= now
      modifies `store, `state, plugin, plugin.cache, plugin.cache.repr
      ensures fresh(plugin.cache.repr - old(plugin.cache.repr)) && old(plugin.cache.repr) <= plugin.cache.repr
      ensures InStep() && Consistent(bag - multiset{tr}, now)
    {
      var key := KeyOfTrace(tr);
      StandsMeans(store, ever, state.placed, bag, now);
      AgreeTakeOff(store, ever, bag, now, tr);
      var stay := store[key];
      store := store - {key};
      OnDelete(stay);
      StandsMeans(store, ever, state.placed, bag - multiset{tr}, now);
    }

    /** Moves the clock and takes the pods that have ended off the heap. */
    method PopEnded(t: int) returns (traces: seq<PodTrace>)
      requires fakeTime.Kept() && fakeTime.fakeCurrentTime <= t
      requires Consistent(multiset(fakeTime.traces), fakeTime.fakeCurrentTime)
      modifies fakeTime
      ensures fakeTime.Kept() && fakeTime.fakeCurrentTime == t && NoneAfter(traces, t)
      ensures Consistent(multiset(traces) + multiset(fakeTime.traces), t)
      ensures forall tr | tr in fakeTime.traces :: tr.endTime > t
      ensures fakeTime.history == old(fakeTime.history)
    {
      StandsLater(store, ever, state.placed, multiset(fakeTime.traces), fakeTime.fakeCurrentTime, t);
      fakeTime.Advance(t);
      traces := fakeTime.Expire(t);
    }

    /** Right after the release at t, each device is charged exactly what the pods that end
        after t take: no pod that has ended holds capacity. */
    method ReleaseEnded(t: int)
      requires Valid() && fakeTime.fakeCurrentTime <= t
      modifies `store, `state, plugin, plugin.cache, plugin.cache.repr, fakeTime
      ensures fresh(plugin.cache.repr - old(plugin.cache.repr)) && old(plugin.cache.repr) <= plugin.cache.repr
      ensures Valid() && fakeTime.fakeCurrentTime == t
      ensures ChargedLive(plugin.cache.cluster, plugin.cache.view, ever, t)
    {
      var traces := PopEnded(t);
      DeletePods(traces, multiset(fakeTime.traces), t);
      OnlyLiveLeft(store, ever, state.placed, fakeTime.traces, t);
      plugin.AtMeans(state);
      ChargeIsLive(plugin.cache.cluster, state, ever, t);
    }

    /** Schedules the pod on the node: one step of the plugin for a GPU pod, none for another. */
    method Attempt(pod: Pod, n: string, nodeRes: NodeResource, cfg: Config) returns (placed: bool, podCopy: Pod)
      requires InStep() && n in plugin.cache.cluster && pod.nodeName == n
      requires Arriving(pod) && pod.uid !in state.placed
      modifies `state, plugin, plugin.cache, plugin.cache.repr
      ensures fresh(plugin.cache.repr - old(plugin.cache.repr)) && old(plugin.cache.repr) <= plugin.cache.repr
      ensures InStep() && podCopy == pod.(gpuIndex := podCopy.gpuIndex)
      ensures placed == (pod.gpuMilli > 0 ==> Passes(plugin.cache.cluster, old(plugin.cache.view), n, pod))
      ensures state.placed ==
        if placed && pod.gpuMilli > 0 then old(state.placed)[pod.uid := Placement(podCopy, n)] else old(state.placed)
    {
      placed, podCopy := true, pod;
      if pod.gpuMilli > 0 {
        ghost var t;
        placed, podCopy, t := plugin.TrySchedule(pod, n, nodeRes, cfg.sel, cfg.sigmoid, cfg.pods, state);
        state := t;
      }
    }

    /** The placed pod stays on its node until it ends. */
    method Keep(pod: Pod, podCopy: Pod, n: string, start: int, end: int, ghost placed: Placed)
      requires fakeTime.Kept() && NewName(ever, pod) && podCopy == pod.(gpuIndex := podCopy.gpuIndex)
      requires StandsWith(store, ever, placed, multiset(fakeTime.traces), fakeTime.fakeCurrentTime)
      requires state.placed == if pod.gpuMilli > 0 then placed[pod.uid := Placement(podCopy, n)] else placed
      modifies `store, `ever, fakeTime
      ensures fakeTime.Kept() && fakeTime.fakeCurrentTime == old(fakeTime.fakeCurrentTime)
      ensures Consistent(multiset(fakeTime.traces), fakeTime.fakeCurrentTime)
      ensures ever == old(ever)[pod.uid := Stay(podCopy, n, start, end)]
      ensures old(NoDevices(fakeTime.history)) && pod.gpuIndex == "" ==> NoDevices(fakeTime.history)
    {
      var stay := Stay(podCopy, n, start, end);
      StandsMeans(store, ever, placed, multiset(fakeTime.traces), fakeTime.fakeCurrentTime);
      AgreePutOn(store, ever, multiset(fakeTime.traces), fakeTime.fakeCurrentTime, stay);
      PlacedPutOn(store, ever, stay);
      fakeTime.Enter(Arrival(pod.name, pod.namespace, n, start, end, pod.gpuMilli, pod.gpuCount, pod.Ids().idl));
      store := store[KeyOf(podCopy) := stay];
      ever := ever[pod.uid := stay];
      StandsMeans(store, ever, state.placed, multiset(fakeTime.traces), fakeTime.fakeCurrentTime);
    }

    method TryOn(e: Event, n: string, cfg: Config) returns (placed: bool)
      requires Valid() && Arriving(e.pod) && NewName(ever, e.pod)
      requires n in plugin.cache.cluster && e.pod.nodeName == n
      modifies this, plugin, plugin.cache, plugin.cache.repr, fakeTime
      ensures fresh(plugin.cache.repr - old(plugin.cache.repr)) && old(plugin.cache.repr) <= plugin.cache.repr
      ensures Valid() && fakeTime.fakeCurrentTime == old(fakeTime.fakeCurrentTime)
      ensures placed == (e.pod.gpuMilli > 0 ==> Passes(plugin.cache.cluster, old(plugin.cache.view), n, e.pod))
      ensures if placed then EverAfter(old(ever), e, n, ever) else ever == old(ever)
    {
      ghost var before := state.placed;
      NotPlaced(store, ever, before, multiset(fakeTime.traces), fakeTime.fakeCurrentTime, e.pod);
      var podCopy;
      placed, podCopy := Attempt(e.pod, n, e.nodeRes, cfg);
      if placed {
        Keep(e.pod, podCopy, n, e.startTime, e.endTime, before);
      }
    }

    /** One arrival: release what has ended, then schedule the pod. */
    method Arrive(e: Event, cfg: Config) returns (placed: bool, ghost snap: Snapshot)
      requires Valid() && Upcoming(plugin.cache.cluster, ever, fakeTime.fakeCurrentTime, e)
      modifies this, plugin, plugin.cache, plugin.cache.repr, fakeTime
      ensures fresh(plugin.cache.repr - old(plugin.cache.repr)) && old(plugin.cache.repr) <= plugin.cache.repr
      ensures Valid() && fakeTime.fakeCurrentTime == e.startTime
      ensures placed == Admitted(plugin.cache.cluster, snap.view, e)
      ensures Settles(plugin.cache.cluster, snap, e, ever)
      ensures snap.now == e.startTime && snap.ever == old(ever)
      ensures ChargedLive(plugin.cache.cluster, snap.view, snap.ever, snap.now)
    {
      ReleaseEnded(e.startTime);
      snap := Snapshot(e.startTime, ever, plugin.cache.view);
      placed := false;
      if e.target.Some? {
        placed := TryOn(e, e.target.value, cfg);
      }
    }

    /** The arrival loop over a whole workload. Every event's pod is either placed for good or
        reported as failed, and no release leaves a pod that has ended holding capacity. */
    method SchedulePods(events: seq<Event>, cfg: Config) returns (failedPods: seq<Pod>, ghost snaps: seq<Snapshot>)
      requires Valid() && Workload(plugin.cache.cluster, ever, fakeTime.fakeCurrentTime, events, 0)
      modifies this, plugin, plugin.cache, plugin.cache.repr, fakeTime
      ensures fresh(plugin.cache.repr - old(plugin.cache.repr)) && old(plugin.cache.repr) <= plugin.cache.repr
      ensures Valid()
      ensures |ever| + |failedPods| == |old(ever)| + |events|
      ensures |snaps| == |events| && Releases(plugin.cache.cluster, old(ever), events, snaps, ever)
      ensures failedPods == TurnedAway(plugin.cache.cluster, events, snaps)
    {
      failedPods, snaps := [], [];
      ProgressMeans(plugin.cache.cluster, ever, events, [], [], ever, fakeTime.fakeCurrentTime);
      for k := 0 to |events|
        invariant fresh(plugin.cache.repr - old(plugin.cache.repr)) && old(plugin.cache.repr) <= plugin.cache.repr
        invariant Valid() && |snaps| == k
        invariant Progress(plugin.cache.cluster, old(ever), events, snaps, failedPods, ever, fakeTime.fakeCurrentTime)
      {
        ghost var before, now := ever, fakeTime.fakeCurrentTime;
        ProgressUpcoming(plugin.cache.cluster, old(ever), events, snaps, failedPods, before, now);
        var placed;
        ghost var snap;
        placed, snap := Arrive(events[k], cfg);
        ProgressNext(plugin.cache.cluster, old(ever), events, snaps, failedPods, before, now, snap, ever, placed);
        snaps := snaps + [snap];
        if !placed {
          failedPods := failedPods + [events[k].pod];
        }
      }
      ProgressMeans(plugin.cache.cluster, old(ever), events, snaps, failedPods, ever, fakeTime.fakeCurrentTime);
    }

    method DeletePods(traces: seq<PodTrace>, ghost bag: multiset<PodTrace>, ghost now: int)
      requires InStep() && Consistent(multiset(traces) + bag, now) && NoneAfter(traces, now)
      modifies `store, `state, plugin, plugin.cache, plugin.cache.repr
      ensures fresh(plugin.cache.repr - old(plugin.cache.repr)) && old(plugin.cache.repr) <= plugin.cache.repr
      ensures InStep() && Consistent(bag, now)
    {
      for k := 0 to |traces|
        invariant fresh(plugin.cache.repr - old(plugin.cache.repr)) && old(plugin.cache.repr) <= plugin.cache.repr
        invariant InStep() && Consistent(multiset(traces[k..]) + bag, now)
      {
        DropFirst(traces[k..], bag);
        DeletePodByName(traces[k], multiset(traces[k..]) + bag, now);
      }
    }
  }

  lemma DropFirst(s: seq<PodTrace>, bag: multiset<PodTrace>)
    requires s != []
    ensures s[0] in multiset(s) + bag
    ensures multiset(s) + bag - multiset{s[0]} == multiset(s[1..]) + bag
  {
    assert s == [s[0]] + s[1..];
  }
}
