/** The GPU device cache: per device the pods it holds, per node its devices, per cluster the
    nodes seen so far. Every change is stated on the ledger's maps. */
module DeviceCache {
  import opened Allocators
  import opened Decimal
  import opened Ledger
  import opened Resource

  /** One GPU. home is the name of its node, so devices of different nodes are different. */
  class DeviceInfo {
    const idx: int
    ghost const home: string
    var podMap: PodMap

    constructor (index: int, ghost node: string)
      ensures idx == index && home == node && podMap == map[]
    {
      idx := index;
      home := node;
      podMap := map[];
    }

    method AddPod(pod: Pod)
      modifies this
      ensures podMap == old(podMap)[pod.uid := pod]
    {
      podMap := podMap[pod.uid := pod];
    }

    method RemovePod(pod: Pod)
      modifies this
      ensures podMap == old(podMap) - {pod.uid}
    {
      podMap := podMap - {pod.uid};
    }

    /** Sums milli over every pod and every entry of its list that names this device; pods
        that have ended, or whose list cannot be read, are skipped. */
    method GetUsedGpuMilli() returns (gpuMilli: int)
      ensures gpuMilli == Charge(podMap, idx)
    {
      gpuMilli := 0;
      var rest := podMap;
      while rest != map[]
        invariant rest.Keys <= podMap.Keys
        invariant gpuMilli + Charge(rest, idx) == Charge(podMap, idx)
        decreases |rest|
      {
        var uid :| uid in rest;
        ChargeWithout(rest, idx, uid);
        var load := PodLoad(rest[uid], idx);
        gpuMilli := gpuMilli + load;
        rest := rest - {uid};
      }
    }
  }

  method PodLoad(pod: Pod, idx: int) returns (load: int)
    ensures load == Load(pod, idx)
  {
    load := 0;
    if pod.Terminal() {
      return;
    }
    var parsed := GpuIdStrToIntList(pod.gpuIndex);
    if !parsed.ok {
      return;
    }
    var idl := parsed.idl;
    for k := 0 to |idl|
      invariant load == Product(pod.gpuMilli, multiset(idl[..k])[idx])
    {
      assert idl[..k + 1] == idl[..k] + [idl[k]];
      ProductNext(pod.gpuMilli, multiset(idl[..k])[idx]);
      if idl[k] == idx {
        load := load + pod.gpuMilli;
      }
    }
    assert idl[..|idl|] == idl;
  }

  lemma ProductNext(m: int, c: nat)
    ensures Product(m, c + 1) == Product(m, c) + m
  {
  }

  /** What a node annotation records of each device. */
  type UsedGpus = map<int, int>

  method NewDevices(count: nat, ghost node: string) returns (devs: map<int, DeviceInfo>, ghost made: set<DeviceInfo>)
    ensures forall i :: i in devs <==> 0 <= i < count
    ensures forall i | i in devs :: devs[i] in made && devs[i].idx == i && devs[i].podMap == map[]
    ensures fresh(made) && forall d | d in made :: d.home == node
  {
    devs, made := map[], {};
    for k := 0 to count
      invariant forall i :: i in devs <==> 0 <= i < k
      invariant forall i | i in devs :: devs[i] in made && devs[i].idx == i && devs[i].podMap == map[]
      invariant fresh(made) && forall d | d in made :: d.home == node
    {
      var dev := new DeviceInfo(k, node);
      devs := devs[k := dev];
      made := made + {dev};
    }
  }

  lemma PrefixMembers(s: seq<int>, k: nat)
    requires k < |s|
    ensures forall i :: i in s[..k + 1] <==> i in s[..k] || i == s[k]
  {
  }

  /** The devices a pod already carries in its annotation, if they can be read. */
  function Preset(pod: Pod): Option<seq<int>> {
    if pod.gpuIndex != "" && pod.Ids().ok && |pod.Ids().idl| > 0 then Some(pod.Ids().idl) else None
  }

  method ReadPreset(pod: Pod) returns (preset: Option<seq<int>>)
    ensures preset == Preset(pod)
  {
    preset := None;
    if |pod.gpuIndex| > 0 {
      var parsed := GpuIdStrToIntList(pod.gpuIndex);
      if parsed.ok && |parsed.idl| > 0 {
        preset := Some(parsed.idl);
      }
    }
  }

  /** The answer of the cache for a pod. A pod that already carries devices keeps them when
      every one exists and has room, and is refused otherwise; any other pod gets the tightest
      device, or the greedy's devices. */
  predicate Allocation(list: seq<int>, pod: Pod, candDevId: string, found: bool) {
    if pod.gpuMilli <= 0 || pod.gpuCount <= 0 || list == [] then candDevId == "" && !found
    else match Preset(pod)
      case Some(idl) =>
        found == PresetFitsOn(list, pod.gpuMilli, idl) && candDevId == (if found then pod.gpuIndex else "")
      case None =>
        && found == CacheChoice(list, pod.gpuMilli, pod.gpuCount).Some?
        && candDevId == ChoiceText(CacheChoice(list, pod.gpuMilli, pod.gpuCount))
  }

  predicate PresetFitsOn(list: seq<int>, m: int, idl: seq<int>) {
    forall j | 0 <= j < |idl| :: 0 <= idl[j] < |list| && m <= list[idl[j]]
  }

  class GpuNodeInfo {
    const name: string
    const gpuCount: nat
    const devs: map<int, DeviceInfo>

    ghost const repr: set<DeviceInfo>

    ghost predicate Valid() {
      && (forall i :: i in devs <==> 0 <= i < gpuCount)
      && (forall i | i in devs :: devs[i] in repr && devs[i].idx == i)
      && forall d | d in repr :: d.home == name
    }

    /** The pods on each device. */
    ghost function Held(): Devices
      requires Valid()
      reads repr
    {
      map i | i in devs :: devs[i].podMap
    }

    constructor (nodeName: string, count: nat)
      ensures Valid() && name == nodeName && gpuCount == count
      ensures fresh(repr) && Held() == EmptyDevices(count)
    {
      name := nodeName;
      gpuCount := count;
      var built;
      ghost var made;
      built, made := NewDevices(count, nodeName);
      devs := built;
      repr := made;
    }

    /** Enters the pod on every device its list names; a list that cannot be read changes
        nothing. */
    method AddOrUpdatePod(pod: Pod) returns (added: bool)
      requires Valid()
      modifies repr
      ensures Held() == WithPod(old(Held()), pod)
      ensures added == Enters(pod, gpuCount)
    {
      added := false;
      ghost var hit := 0;
      var parsed := GpuIdStrToIntList(pod.gpuIndex);
      if parsed.ok {
        var idl := parsed.idl;
        for k := 0 to |idl|
          invariant forall i | i in devs ::
            devs[i].podMap == if i in idl[..k] then old(devs[i].podMap)[pod.uid := pod] else old(devs[i].podMap)
          invariant if added then hit in devs && hit in idl[..k] else forall i | i in devs :: i !in idl[..k]
        {
          PrefixMembers(idl, k);
          if idl[k] in devs {
            var id := idl[k];
            assert devs[id] in repr;
            devs[id].AddPod(pod);
            added, hit := true, idl[k];
          }
        }
        assert idl[..|idl|] == idl;
        assert added ==> Names(pod, hit);
      }
    }

    /** Takes the pod off every device its list names; a pod without a list stays where it is. */
    method RemovePod(pod: Pod)
      requires Valid()
      modifies repr
      ensures Held() == WithoutPod(old(Held()), pod)
    {
      var parsed := GpuIdStrToIntList(pod.gpuIndex);
      if |parsed.idl| > 0 && parsed.ok {
        var idl := parsed.idl;
        for k := 0 to |idl|
          invariant forall i | i in devs ::
            devs[i].podMap == if i in idl[..k] then old(devs[i].podMap) - {pod.uid} else old(devs[i].podMap)
        {
          PrefixMembers(idl, k);
          if idl[k] in devs {
            var id := idl[k];
            assert devs[id] in repr;
            devs[id].RemovePod(pod);
          }
        }
        assert idl[..|idl|] == idl;
      }
    }

    method GetUsedGpus() returns (used: UsedGpus)
      requires Valid()
      ensures forall i :: i in used <==> 0 <= i < gpuCount
      ensures forall i | 0 <= i < gpuCount :: used[i] == Charge(Held()[i], i)
    {
      used := map[];
      for i := 0 to gpuCount
        invariant forall j :: j in used <==> 0 <= j < i
        invariant forall j | 0 <= j < i :: used[j] == Charge(devs[j].podMap, j)
      {
        var milli := devs[i].GetUsedGpuMilli();
        used := used[i := milli];
      }
    }

    method GetIdleGpus() returns (idle: map<int, int>)
      requires Valid()
      ensures forall i :: i in idle <==> 0 <= i < gpuCount
      ensures IdleAs(idle, LeftList(Held(), gpuCount))
    {
      var used := GetUsedGpus();
      idle := map i | i in used :: MILLI - used[i];
    }

    /** Filter's allocator. */
    method AllocateGpuId(pod: Pod) returns (candDevId: string, found: bool)
      requires Valid()
      ensures Allocation(LeftList(Held(), gpuCount), pod, candDevId, found)
    {
      ghost var held := Held();
      var idleGpus := GetIdleGpus();
      candDevId, found := AllocateIn(idleGpus, gpuCount, pod, LeftList(held, gpuCount));
      assert Held() == held;
    }
  }

  method AllocateIn(idleGpus: map<int, int>, devCount: nat, pod: Pod, ghost list: seq<int>)
    returns (candDevId: string, found: bool)
    requires |list| == devCount && IdleAs(idleGpus, list) && forall i :: i in idleGpus <==> 0 <= i < devCount
    ensures Allocation(list, pod, candDevId, found)
  {
    candDevId, found := "", false;
    if pod.gpuMilli <= 0 || pod.gpuCount <= 0 || devCount == 0 {
      return;
    }
    var preset := ReadPreset(pod);
    if preset.Some? {
      found := PresetFits(idleGpus, preset.value, pod.gpuMilli, list);
      if found {
        candDevId := pod.gpuIndex;
      }
    } else {
      candDevId, found := AllocateOnIdle(idleGpus, devCount, pod.gpuCount, pod.gpuMilli, list);
    }
  }

  method PresetFits(idleGpus: map<int, int>, idl: seq<int>, m: int, ghost list: seq<int>) returns (ok: bool)
    requires IdleAs(idleGpus, list) && forall i | i in idleGpus :: 0 <= i < |list|
    ensures ok == PresetFitsOn(list, m, idl)
  {
    for k := 0 to |idl|
      invariant forall j | 0 <= j < k :: 0 <= idl[j] < |list| && m <= list[idl[j]]
    {
      if !(idl[k] in idleGpus) || idleGpus[idl[k]] < m {
        return false;
      }
    }
    ok := true;
  }
}
