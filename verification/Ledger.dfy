/** The ledger behind the GPU cache: which pods each device of each node holds, what they are
    charged, and what every run of placing and removing pods keeps. */
module Ledger {
  import opened Allocators
  import opened Decimal
  import opened Frag
  import opened IndexSort
  import opened Resource

  datatype Phase = Pending | Running | Succeeded | Failed

  /** gpuIndex is the device annotation: empty before a pod has been given devices. */
  datatype Pod = Pod(
    uid: string,
    name: string,
    namespace: string,
    nodeName: string,
    phase: Phase,
    milliCpu: int,
    gpuMilli: int,
    gpuCount: int,
    gpuModel: string,
    gpuIndex: string)
  {
    function Ids(): ParsedIds { ParseIds(gpuIndex) }

    function Res(): PodResource { PodResource(milliCpu, gpuMilli, gpuCount, gpuModel) }

    predicate Terminal() { phase.Succeeded? || phase.Failed? }
  }

  type PodMap = map<string, Pod>

  /** A node's devices by index. */
  type Devices = map<int, PodMap>

  // ----- charges -------------------------------------------------------------------------

  function Product(m: int, c: nat): int { m * c }

  /** What a pod is charged on device idx: its milli per GPU for each time its list names it. */
  function Load(pod: Pod, idx: int): int {
    if pod.Terminal() || !pod.Ids().ok then 0 else Product(pod.gpuMilli, multiset(pod.Ids().idl)[idx])
  }

  ghost function Charge(pods: PodMap, idx: int): int {
    if pods == map[] then 0
    else
      var u :| u in pods;
      Load(pods[u], idx) + Charge(pods - {u}, idx)
  }

  lemma {:induction false} ChargeWithout(pods: PodMap, idx: int, u: string)
    requires u in pods
    ensures Charge(pods, idx) == Load(pods[u], idx) + Charge(pods - {u}, idx)
    decreases |pods|
  {
    var v :| v in pods && Charge(pods, idx) == Load(pods[v], idx) + Charge(pods - {v}, idx);
    if v != u {
      ChargeWithout(pods - {v}, idx, u);
      ChargeWithout(pods - {u}, idx, v);
      assert pods - {v} - {u} == pods - {u} - {v};
    }
  }

  lemma ChargeAdd(pods: PodMap, idx: int, u: string, pod: Pod)
    requires u !in pods
    ensures Charge(pods[u := pod], idx) == Charge(pods, idx) + Load(pod, idx)
  {
    ChargeWithout(pods[u := pod], idx, u);
    assert pods[u := pod] - {u} == pods;
  }

  /** Pods that do not name a device add nothing to its charge. */
  lemma {:induction false} ChargeOnlyNamed(all: PodMap, named: PodMap, idx: int)
    requires named.Keys <= all.Keys && forall u | u in named :: named[u] == all[u]
    requires forall u | u in all && u !in named :: Load(all[u], idx) == 0
    ensures Charge(all, idx) == Charge(named, idx)
    decreases |all|
  {
    if u :| u in all {
      ChargeWithout(all, idx, u);
      if u in named {
        ChargeWithout(named, idx, u);
        ChargeOnlyNamed(all - {u}, named - {u}, idx);
      } else {
        ChargeOnlyNamed(all - {u}, named, idx);
      }
    } else {
      assert all == map[] && named == map[];
    }
  }

  /** What the pod is charged on the devices below n. */
  function LoadBelow(pod: Pod, n: nat): int {
    if n == 0 then 0 else LoadBelow(pod, n - 1) + Load(pod, n - 1)
  }

  function NamedBelow(ids: seq<int>, n: nat): nat {
    if n == 0 then 0 else NamedBelow(ids, n - 1) + multiset(ids)[n - 1]
  }

  lemma ProductAdds(m: int, a: nat, b: nat)
    ensures Product(m, a + b) == Product(m, a) + Product(m, b) && Product(m, 0) == 0
  {
  }

  lemma {:induction false} LoadBelowIs(pod: Pod, n: nat)
    requires !pod.Terminal() && pod.Ids().ok
    ensures LoadBelow(pod, n) == Product(pod.gpuMilli, NamedBelow(pod.Ids().idl, n))
  {
    ProductAdds(pod.gpuMilli, 0, 0);
    if n > 0 {
      LoadBelowIs(pod, n - 1);
      ProductAdds(pod.gpuMilli, NamedBelow(pod.Ids().idl, n - 1), multiset(pod.Ids().idl)[n - 1]);
    }
  }

  lemma {:induction false} NamedBelowAppend(ids: seq<int>, id: int, n: nat)
    ensures NamedBelow(ids + [id], n) == NamedBelow(ids, n) + if 0 <= id < n then 1 else 0
  {
    if n > 0 {
      NamedBelowAppend(ids, id, n - 1);
    }
  }

  lemma {:induction false} NamedBelowEmpty(n: nat)
    ensures NamedBelow([], n) == 0
  {
    if n > 0 {
      NamedBelowEmpty(n - 1);
    }
  }

  lemma {:induction false} NamedBelowAll(ids: seq<int>, n: nat)
    requires forall j | 0 <= j < |ids| :: 0 <= ids[j] < n
    ensures NamedBelow(ids, n) == |ids|
  {
    if ids == [] {
      NamedBelowEmpty(n);
    } else {
      var k := |ids| - 1;
      assert ids == ids[..k] + [ids[k]];
      NamedBelowAll(ids[..k], n);
      NamedBelowAppend(ids[..k], ids[k], n);
    }
  }

  /** A running pod is charged on all devices together its milli once for every entry of its list,
      whether or not the list repeats a device. */
  lemma LoadsAddUp(pod: Pod, n: nat)
    requires !pod.Terminal() && pod.Ids().ok && forall i | i in pod.Ids().idl :: 0 <= i < n
    ensures LoadBelow(pod, n) == pod.gpuMilli * |pod.Ids().idl|
  {
    var ids := pod.Ids().idl;
    LoadBelowIs(pod, n);
    assert forall j | 0 <= j < |ids| :: ids[j] in ids;
    NamedBelowAll(ids, n);
  }

  /** Only pods that wait or run, and whose list can be read, are charged anything. */
  lemma ChargeOnlyRunning(pods: PodMap, idx: int)
    ensures var active := map u | u in pods && (pods[u].phase.Pending? || pods[u].phase.Running?) :: pods[u];
      Charge(pods, idx) == Charge(map u | u in active && active[u].Ids().ok :: active[u], idx)
  {
    var active := map u | u in pods && (pods[u].phase.Pending? || pods[u].phase.Running?) :: pods[u];
    ChargeOnlyNamed(pods, map u | u in active && active[u].Ids().ok :: active[u], idx);
  }

  // ----- adding and removing a pod on one node ---------------------------------------------

  function EmptyDevices(n: nat): (d: Devices)
    ensures forall i :: i in d <==> 0 <= i < n
    ensures forall i | 0 <= i < n :: d[i] == map[]
  {
    if n == 0 then map[] else EmptyDevices(n - 1)[n - 1 := map[]]
  }

  predicate Names(pod: Pod, i: int) { pod.Ids().ok && i in pod.Ids().idl }

  /** The pod names some device of a node with gpuCount devices. */
  predicate Enters(pod: Pod, gpuCount: nat) {
    exists i | 0 <= i < gpuCount :: Names(pod, i)
  }

  /** addOrUpdatePod: the pod is entered on every device its list names. */
  function WithPod(devs: Devices, pod: Pod): Devices {
    map i | i in devs :: if Names(pod, i) then devs[i][pod.uid := pod] else devs[i]
  }

  /** removePod: the pod leaves every device its own list names, and only those. */
  function WithoutPod(devs: Devices, pod: Pod): Devices {
    map i | i in devs :: if Names(pod, i) then devs[i] - {pod.uid} else devs[i]
  }

  /** Removing undoes adding a new pod exactly when the pod that is removed names every device
      the added one was entered on. The pod handed to Unreserve before its annotation has been
      set names none, so then nothing is freed. */
  lemma RemoveUndoesAddIff(devs: Devices, added: Pod, removed: Pod)
    requires removed.uid == added.uid
    requires forall i | i in devs :: added.uid !in devs[i]
    ensures WithoutPod(WithPod(devs, added), removed) == devs <==>
      forall i | i in devs && Names(added, i) :: Names(removed, i)
  {
    var after := WithoutPod(WithPod(devs, added), removed);
    forall i | i in devs
      ensures after[i] == devs[i] <==> (Names(added, i) ==> Names(removed, i))
    {
      assert devs[i][added.uid := added] - {added.uid} == devs[i];
      assert devs[i] - {added.uid} == devs[i];
      if Names(added, i) && !Names(removed, i) {
        assert added.uid in after[i];
      }
    }
    assert after.Keys == devs.Keys;
    if after != devs {
      assert exists i | i in devs :: after[i] != devs[i];
    }
  }

  lemma RemoveUnannotated(devs: Devices, pod: Pod)
    requires pod.gpuIndex == ""
    ensures WithoutPod(devs, pod) == devs
  {
  }

  // ----- the whole cluster -----------------------------------------------------------------

  datatype NodeSpec = NodeSpec(gpuCount: nat, gpuModel: string)

  type Cluster = map<string, NodeSpec>

  /** The devices of every node of the cluster. */
  type View = map<string, Devices>

  datatype Placement = Placement(pod: Pod, node: string)

  type Placed = map<string, Placement>

  /** The pods placed on a node that name device i. */
  function Holding(placed: Placed, node: string, i: int): PodMap {
    map u | u in placed && placed[u].node == node && Names(placed[u].pod, i) :: placed[u].pod
  }

  /** The pods placed on a node. */
  function OnNode(placed: Placed, node: string): PodMap {
    map u | u in placed && placed[u].node == node :: placed[u].pod
  }

  ghost function LeftList(devs: Devices, n: nat): (r: seq<int>)
    requires forall i | 0 <= i < n :: i in devs
    ensures |r| == n && forall i | 0 <= i < n :: r[i] == MILLI - Charge(devs[i], i)
  {
    seq(n, i requires 0 <= i < n => MILLI - Charge(devs[i], i))
  }

  /** A pod as Reserve leaves it: it runs on a node of a type it accepts, its list names different
      devices of the node. */
  predicate WellPlaced(cluster: Cluster, u: string, p: Placement) {
    && p.pod.uid == u && !p.pod.Terminal() && p.node in cluster
    && OneShare(p.pod.Res()) && Accessible(cluster[p.node].gpuModel, p.pod.gpuModel)
    && p.pod.Ids().ok && Distinct(p.pod.Ids().idl) && |p.pod.Ids().idl| == p.pod.gpuCount
    && forall i | i in p.pod.Ids().idl :: 0 <= i < cluster[p.node].gpuCount
  }

  ghost predicate AllWell(cluster: Cluster, placed: Placed) {
    forall u | u in placed :: WellPlaced(cluster, u, placed[u])
  }

  ghost predicate AllBooks(cluster: Cluster, view: View, placed: Placed) {
    view.Keys == cluster.Keys && forall n | n in cluster :: NodeBooks(cluster[n].gpuCount, view[n], placed, n)
  }

  ghost predicate Books(cluster: Cluster, view: View, placed: Placed) {
    AllWell(cluster, placed) && AllBooks(cluster, view, placed)
  }

  /** Each device holds exactly the placed pods that name it, and is charged 0 to 1000. */
  ghost predicate NodeBooks(count: nat, devs: Devices, placed: Placed, n: string) {
    && (forall i :: i in devs <==> 0 <= i < count)
    && forall i | 0 <= i < count :: devs[i] == Holding(placed, n, i) && 0 <= Charge(devs[i], i) <= MILLI
  }

  /** A device's charge is the sum, over the pods placed on its node, of milli times how often
      the pod's list names the device. */
  lemma ChargeIsPlaced(cluster: Cluster, view: View, placed: Placed, n: string, i: int)
    requires Books(cluster, view, placed) && n in cluster && 0 <= i < cluster[n].gpuCount
    ensures Charge(view[n][i], i) == Charge(OnNode(placed, n), i)
  {
    assert NodeBooks(cluster[n].gpuCount, view[n], placed, n);
    var all, named := OnNode(placed, n), Holding(placed, n, i);
    forall u | u in all && u !in named ensures Load(all[u], i) == 0 {
      LoadUnnamed(all[u], i);
    }
    ChargeOnlyNamed(all, named, i);
  }

  lemma LoadUnnamed(pod: Pod, i: int)
    requires !Names(pod, i)
    ensures Load(pod, i) == 0
  {
  }

  /** Devices a pod can be given: as many as it asks for, different, with room. */
  ghost predicate GoodIds(list: seq<int>, pod: PodResource, ids: seq<int>) {
    && Indices(list, ids) && Distinct(ids) && |ids| == pod.gpuNumber
    && forall i | i in ids :: 0 <= i < |list| && pod.milliGpu <= list[i]
  }

  lemma LoadOnce(pod: Pod, i: int)
    requires !pod.Terminal() && pod.Ids().ok && Distinct(pod.Ids().idl)
    ensures Load(pod, i) == if Names(pod, i) then pod.gpuMilli else 0
  {
    DistinctCount(pod.Ids().idl, i);
  }

  lemma {:induction false} ChargeNonNegative(pods: PodMap, idx: int)
    requires forall u | u in pods :: 0 <= Load(pods[u], idx)
    ensures 0 <= Charge(pods, idx)
    decreases |pods|
  {
    if pods != map[] {
      var v :| v in pods && Charge(pods, idx) == Load(pods[v], idx) + Charge(pods - {v}, idx);
      ChargeNonNegative(pods - {v}, idx);
    }
  }

  lemma HoldingAdd(placed: Placed, n: string, pod: Pod, o: string, i: int)
    requires pod.uid !in placed
    ensures Holding(placed[pod.uid := Placement(pod, n)], o, i)
         == if o == n && Names(pod, i) then Holding(placed, o, i)[pod.uid := pod] else Holding(placed, o, i)
  {
  }

  lemma HoldingRemove(placed: Placed, u: string, o: string, i: int)
    requires u in placed
    ensures Holding(placed - {u}, o, i)
         == if o == placed[u].node && Names(placed[u].pod, i) then Holding(placed, o, i) - {u}
            else Holding(placed, o, i)
  {
  }

  lemma HoldingNonNegative(cluster: Cluster, placed: Placed, n: string, i: int)
    requires forall u | u in placed :: WellPlaced(cluster, u, placed[u])
    ensures 0 <= Charge(Holding(placed, n, i), i)
  {
    var pods := Holding(placed, n, i);
    forall u | u in pods ensures 0 <= Load(pods[u], i) {
      assert WellPlaced(cluster, u, placed[u]);
      LoadOnce(placed[u].pod, i);
    }
    ChargeNonNegative(pods, i);
  }

  lemma OtherNodesKeep(count: nat, devs: Devices, placed: Placed, placed': Placed, o: string)
    requires NodeBooks(count, devs, placed, o)
    requires forall i | 0 <= i < count :: Holding(placed', o, i) == Holding(placed, o, i)
    ensures NodeBooks(count, devs, placed', o)
  {
  }

  lemma PlaceOnNode(count: nat, devs: Devices, placed: Placed, n: string, pod: Pod)
    requires NodeBooks(count, devs, placed, n) && pod.uid !in placed
    requires !pod.Terminal() && OneShare(pod.Res()) && pod.Ids().ok
    requires GoodIds(LeftList(devs, count), pod.Res(), pod.Ids().idl)
    ensures NodeBooks(count, WithPod(devs, pod), placed[pod.uid := Placement(pod, n)], n)
  {
    forall i | 0 <= i < count
      ensures WithPod(devs, pod)[i] == Holding(placed[pod.uid := Placement(pod, n)], n, i)
      ensures 0 <= Charge(WithPod(devs, pod)[i], i) <= MILLI
    {
      HoldingAdd(placed, n, pod, n, i);
      if Names(pod, i) {
        LoadOnce(pod, i);
        ChargeAdd(devs[i], i, pod.uid, pod);
        assert LeftList(devs, count)[i] == MILLI - Charge(devs[i], i);
      }
    }
  }

  lemma PlacedWell(cluster: Cluster, devs: Devices, n: string, pod: Pod)
    requires n in cluster && !pod.Terminal() && OneShare(pod.Res()) && pod.Ids().ok
    requires Accessible(cluster[n].gpuModel, pod.gpuModel)
    requires forall i | 0 <= i < cluster[n].gpuCount :: i in devs
    requires GoodIds(LeftList(devs, cluster[n].gpuCount), pod.Res(), pod.Ids().idl)
    ensures WellPlaced(cluster, pod.uid, Placement(pod, n))
  {
  }

  lemma OthersAfterPlace(cluster: Cluster, view: View, placed: Placed, n: string, pod: Pod)
    requires Books(cluster, view, placed) && pod.uid !in placed
    ensures forall o | o in cluster && o != n ::
      NodeBooks(cluster[o].gpuCount, view[o], placed[pod.uid := Placement(pod, n)], o)
  {
    forall o | o in cluster && o != n
      ensures NodeBooks(cluster[o].gpuCount, view[o], placed[pod.uid := Placement(pod, n)], o)
    {
      forall i { HoldingAdd(placed, n, pod, o, i); }
      OtherNodesKeep(cluster[o].gpuCount, view[o], placed, placed[pod.uid := Placement(pod, n)], o);
    }
  }

  lemma OneMoreWell(cluster: Cluster, placed: Placed, p: Placement)
    requires AllWell(cluster, placed) && WellPlaced(cluster, p.pod.uid, p)
    ensures AllWell(cluster, placed[p.pod.uid := p])
  {
  }

  lemma OneNodeBooks(cluster: Cluster, view: View, placed: Placed, n: string, devs: Devices)
    requires view.Keys == cluster.Keys && n in cluster && NodeBooks(cluster[n].gpuCount, devs, placed, n)
    requires forall o | o in cluster && o != n :: NodeBooks(cluster[o].gpuCount, view[o], placed, o)
    ensures AllBooks(cluster, view[n := devs], placed)
  {
  }

  /** Placing a new pod on devices with room keeps the books. */
  lemma PlaceKeepsBooks(cluster: Cluster, view: View, placed: Placed, n: string, pod: Pod)
    requires Books(cluster, view, placed) && n in cluster && pod.uid !in placed
    requires !pod.Terminal() && OneShare(pod.Res()) && pod.Ids().ok
    requires Accessible(cluster[n].gpuModel, pod.gpuModel)
    requires NodeBooks(cluster[n].gpuCount, view[n], placed, n)
    requires GoodIds(LeftList(view[n], cluster[n].gpuCount), pod.Res(), pod.Ids().idl)
    ensures Books(cluster, view[n := WithPod(view[n], pod)], placed[pod.uid := Placement(pod, n)])
  {
    PlacedWell(cluster, view[n], n, pod);
    OneMoreWell(cluster, placed, Placement(pod, n));
    PlaceOnNode(cluster[n].gpuCount, view[n], placed, n, pod);
    OthersAfterPlace(cluster, view, placed, n, pod);
    OneNodeBooks(cluster, view, placed[pod.uid := Placement(pod, n)], n, WithPod(view[n], pod));
  }

  lemma RemoveFromNode(cluster: Cluster, count: nat, devs: Devices, placed: Placed, u: string)
    requires u in placed && NodeBooks(count, devs, placed, placed[u].node)
    requires forall w | w in placed :: WellPlaced(cluster, w, placed[w])
    ensures NodeBooks(count, WithoutPod(devs, placed[u].pod), placed - {u}, placed[u].node)
  {
    var n, pod := placed[u].node, placed[u].pod;
    assert WellPlaced(cluster, u, placed[u]);
    forall i | 0 <= i < count
      ensures WithoutPod(devs, pod)[i] == Holding(placed - {u}, n, i)
      ensures 0 <= Charge(WithoutPod(devs, pod)[i], i) <= MILLI
    {
      HoldingRemove(placed, u, n, i);
      if Names(pod, i) {
        ChargeWithout(devs[i], i, u);
        LoadOnce(pod, i);
        HoldingNonNegative(cluster, placed - {u}, n, i);
      }
    }
  }

  /** Removing a placed pod keeps the books. */
  lemma RemoveKeepsBooks(cluster: Cluster, view: View, placed: Placed, u: string)
    requires Books(cluster, view, placed) && u in placed && placed[u].node in cluster
    ensures var p := placed[u];
      Books(cluster, view[p.node := WithoutPod(view[p.node], p.pod)], placed - {u})
  {
    var n := placed[u].node;
    var placed' := placed - {u};
    RemoveFromNode(cluster, cluster[n].gpuCount, view[n], placed, u);
    forall o | o in cluster && o != n ensures NodeBooks(cluster[o].gpuCount, view[o], placed', o) {
      forall i { HoldingRemove(placed, u, o, i); }
      OtherNodesKeep(cluster[o].gpuCount, view[o], placed, placed', o);
    }
    OneNodeBooks(cluster, view, placed', n, WithoutPod(view[n], placed[u].pod));
  }
}
