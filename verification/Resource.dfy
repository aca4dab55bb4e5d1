/** The node resource algebra: taking a pod's demand from a node's per-GPU list, giving it
    back, and the canonical key under which fragmentation results are memoised. */
module Resource {
  import opened Bags
  import opened IndexSort

  const MILLI := 1000
  const MAX_NUM_GPU_PER_NODE := 8

  datatype PodResource = PodResource(milliCpu: int, milliGpu: int, gpuNumber: int, gpuType: string) {
    function TotalMilliGpu(): int { milliGpu * gpuNumber }

    predicate IsGpuShare() { gpuNumber == 1 && milliGpu < MILLI }
  }

  datatype NodeResource = NodeResource(
    nodeName: string,
    milliCpuLeft: int,
    milliCpuCapacity: int,
    milliGpuLeftList: seq<int>,
    gpuNumber: int,
    gpuType: string,
    gpuAffinity: map<string, int>)

  /** A node as the simulator builds it: one entry per GPU, each between empty and full. */
  predicate ValidNode(node: NodeResource) {
    && |node.milliGpuLeftList| == node.gpuNumber
    && forall i | 0 <= i < |node.milliGpuLeftList| :: 0 <= node.milliGpuLeftList[i] <= MILLI
  }

  /** A GPU count exactly when there is a milli request per GPU, at most a whole GPU each. */
  predicate ValidPod(pod: PodResource) {
    && 0 <= pod.milliCpu
    && 0 <= pod.milliGpu <= MILLI
    && 0 <= pod.gpuNumber
    && (pod.gpuNumber == 0 <==> pod.milliGpu == 0)
  }

  /** The node an operation returns, and whether it came without an error. */
  datatype Outcome = Outcome(node: NodeResource, ok: bool)

  // ----- the devices a demand is packed on ---------------------------------------------

  function Values(list: seq<int>, s: seq<int>): (r: seq<int>)
    requires Indices(list, s)
    ensures |r| == |s| && forall k | 0 <= k < |s| :: r[k] == list[s[k]]
  {
    if s == [] then [] else Values(list, s[..|s| - 1]) + [list[s[|s| - 1]]]
  }

  /** The devices of s with room for m, in the order of s. */
  function Keep(list: seq<int>, s: seq<int>, m: int): (r: seq<int>)
    requires Indices(list, s)
    ensures Indices(list, r)
  {
    if s == [] then []
    else if m <= list[s[0]] then [s[0]] + Keep(list, s[1..], m)
    else Keep(list, s[1..], m)
  }

  lemma {:induction false} KeepMembers(list: seq<int>, s: seq<int>, m: int)
    requires Indices(list, s)
    ensures forall i :: i in Keep(list, s, m) <==> i in s && m <= list[i]
  {
    if s != [] {
      assert s == [s[0]] + s[1..];
      KeepMembers(list, s[1..], m);
    }
  }

  /** The devices with room for m, tightest first, ties by device index. */
  function FitOrder(list: seq<int>, m: int): (r: seq<int>)
    ensures Indices(list, r) && Ranked(list, true, r)
  {
    var order := StableOrder(list, true);
    StableOrderIsStable(list, true);
    KeepRanked(list, order, m);
    Keep(list, order, m)
  }

  lemma FitOrderMembers(list: seq<int>, m: int)
    ensures forall i :: i in FitOrder(list, m) <==> 0 <= i < |list| && m <= list[i]
  {
    StableOrderIsStable(list, true);
    KeepMembers(list, StableOrder(list, true), m);
    assert forall i | i in StableOrder(list, true) :: 0 <= i < |list|;
  }

  lemma {:induction false} KeepRanked(list: seq<int>, s: seq<int>, m: int)
    requires Indices(list, s) && Ranked(list, true, s)
    ensures Ranked(list, true, Keep(list, s, m))
  {
    if s != [] {
      KeepRanked(list, s[1..], m);
      KeepMembers(list, s[1..], m);
      var rest := Keep(list, s[1..], m);
      forall b | 0 <= b < |rest| ensures Before(list, true, s[0], rest[b]) {
        assert rest[b] in rest;
      }
    }
  }

  predicate Distinct(s: seq<int>) {
    forall a, b | 0 <= a < b < |s| :: s[a] != s[b]
  }

  /** Takes m from each device of chosen. */
  function Lower(list: seq<int>, chosen: seq<int>, m: int): (r: seq<int>)
    requires Indices(list, chosen)
    ensures |r| == |list|
    decreases chosen
  {
    if chosen == [] then list
    else Lower(list[chosen[0] := list[chosen[0]] - m], chosen[1..], m)
  }

  lemma {:induction false} LowerAt(list: seq<int>, chosen: seq<int>, m: int, i: nat)
    requires Indices(list, chosen) && Distinct(chosen) && i < |list|
    ensures Lower(list, chosen, m)[i] == list[i] - (if i in chosen then m else 0)
    decreases chosen
  {
    if chosen != [] {
      assert chosen == [chosen[0]] + chosen[1..];
      assert chosen[0] !in chosen[1..];
      LowerAt(list[chosen[0] := list[chosen[0]] - m], chosen[1..], m, i);
    }
  }

  lemma {:induction false} LowerIdle(list: seq<int>, chosen: seq<int>, m: int)
    requires Indices(list, chosen)
    ensures SumBy(Idle, Lower(list, chosen, m)) == SumBy(Idle, list) - m * |chosen|
    decreases chosen
  {
    if chosen != [] {
      var list' := list[chosen[0] := list[chosen[0]] - m];
      SumByUpdate(Idle, list, chosen[0], list[chosen[0]] - m);
      LowerIdle(list', chosen[1..], m);
      assert m * |chosen| == m + m * |chosen[1..]|;
    }
  }

  // ----- Sub ---------------------------------------------------------------------------

  datatype Packed = Packed(list: seq<int>, ok: bool)

  /** Walks the devices in the given order and takes m from each with room, until
      gpuRequest of them have been served. */
  function Pack(list: seq<int>, order: seq<int>, m: int, gpuRequest: int): (r: Packed)
    requires Indices(list, order)
    ensures |r.list| == |list|
    decreases order
  {
    if order == [] then Packed(list, false)
    else if m <= list[order[0]] then
      var list' := list[order[0] := list[order[0]] - m];
      if gpuRequest - 1 <= 0 then Packed(list', true)
      else Pack(list', order[1..], m, gpuRequest - 1)
    else Pack(list, order[1..], m, gpuRequest)
  }

  function SubSpec(node: NodeResource, pod: PodResource): (r: Outcome)
    ensures |r.node.milliGpuLeftList| == |node.milliGpuLeftList|
  {
    if node.milliCpuLeft < pod.milliCpu || node.gpuNumber < pod.gpuNumber then Outcome(node, false)
    else
      var out := node.(milliCpuLeft := node.milliCpuLeft - pod.milliCpu);
      if pod.gpuNumber == 0 then Outcome(out, true)
      else
        var list := node.milliGpuLeftList;
        var packed := Pack(list, StableOrder(list, true), pod.milliGpu, pod.gpuNumber);
        Outcome(out.(milliGpuLeftList := packed.list), packed.ok)
  }

  method Sub(node: NodeResource, pod: PodResource) returns (r: Outcome)
    ensures r == SubSpec(node, pod)
  {
    var out := node;
    if out.milliCpuLeft < pod.milliCpu || out.gpuNumber < pod.gpuNumber {
      return Outcome(out, false);
    }
    out := out.(milliCpuLeft := out.milliCpuLeft - pod.milliCpu);
    var gpuRequest := pod.gpuNumber;
    if gpuRequest == 0 {
      return Outcome(out, true);
    }
    var sortedIndex := SortedMilliGpuLeftIndexList(out.milliGpuLeftList, true);
    ghost var packed := Pack(node.milliGpuLeftList, sortedIndex, pod.milliGpu, pod.gpuNumber);
    var list := out.milliGpuLeftList;
    for i := 0 to |sortedIndex|
      invariant |list| == |node.milliGpuLeftList|
      invariant packed == Pack(list, sortedIndex[i..], pod.milliGpu, gpuRequest)
    {
      assert sortedIndex[i..][1..] == sortedIndex[i + 1..];
      if pod.milliGpu <= list[sortedIndex[i]] {
        gpuRequest := gpuRequest - 1;
        list := list[sortedIndex[i] := list[sortedIndex[i]] - pod.milliGpu];
        if gpuRequest <= 0 {
          return Outcome(out.(milliGpuLeftList := list), true);
        }
      }
    }
    r := Outcome(out.(milliGpuLeftList := list), false);
  }

  lemma {:induction false} KeepUpdate(list: seq<int>, s: seq<int>, m: int, i: nat, v: int)
    requires Indices(list, s) && i < |list| && i !in s
    ensures Keep(list[i := v], s, m) == Keep(list, s, m)
  {
    if s != [] {
      assert s == [s[0]] + s[1..];
      KeepUpdate(list, s[1..], m, i, v);
    }
  }

  lemma {:induction false} PackSucceeds(list: seq<int>, order: seq<int>, m: int, k: nat)
    requires Indices(list, order) && Distinct(order) && 0 < k
    ensures Pack(list, order, m, k).ok <==> k <= |Keep(list, order, m)|
    decreases order
  {
    if order != [] {
      assert order == [order[0]] + order[1..];
      var i := order[0];
      if m <= list[i] {
        KeepUpdate(list, order[1..], m, i, list[i] - m);
        if 1 < k {
          PackSucceeds(list[i := list[i] - m], order[1..], m, k - 1);
        }
      } else {
        PackSucceeds(list, order[1..], m, k);
      }
    }
  }

  lemma LowerCons(list: seq<int>, i: int, rest: seq<int>, m: int)
    requires Indices(list, rest) && 0 <= i < |list|
    ensures Lower(list, [i] + rest, m) == Lower(list[i := list[i] - m], rest, m)
  {
  }

  lemma {:induction false} PackLowersFirstFits(list: seq<int>, order: seq<int>, m: int, k: nat)
    requires Indices(list, order) && Distinct(order) && 0 < k <= |Keep(list, order, m)|
    ensures Pack(list, order, m, k).list == Lower(list, Keep(list, order, m)[..k], m)
    decreases order
  {
    assert order == [order[0]] + order[1..];
    var i, rest := order[0], Keep(list, order[1..], m);
    if !(m <= list[i]) {
      PackLowersFirstFits(list, order[1..], m, k);
      assert Keep(list, order, m) == rest;
    } else {
      assert ([i] + rest)[..k] == [i] + rest[..k - 1];
      LowerCons(list, i, rest[..k - 1], m);
      if 1 < k {
        KeepUpdate(list, order[1..], m, i, list[i] - m);
        PackLowersFirstFits(list[i := list[i] - m], order[1..], m, k - 1);
      }
    }
  }

  lemma SubLowersFirstFits(node: NodeResource, pod: PodResource)
    requires SubSpec(node, pod).ok && 0 < pod.gpuNumber
    ensures var list := node.milliGpuLeftList;
      && pod.gpuNumber <= |FitOrder(list, pod.milliGpu)|
      && SubSpec(node, pod).node.milliGpuLeftList ==
         Lower(list, FitOrder(list, pod.milliGpu)[..pod.gpuNumber], pod.milliGpu)
  {
    var list := node.milliGpuLeftList;
    StableOrderIsStable(list, true);
    PackSucceeds(list, StableOrder(list, true), pod.milliGpu, pod.gpuNumber);
    PackLowersFirstFits(list, StableOrder(list, true), pod.milliGpu, pod.gpuNumber);
  }

  /** The devices a successful Sub takes from. */
  function SubDevices(node: NodeResource, pod: PodResource): (r: seq<int>)
    requires SubSpec(node, pod).ok && 0 <= pod.gpuNumber
    ensures |r| == pod.gpuNumber && Indices(node.milliGpuLeftList, r)
  {
    if pod.gpuNumber == 0 then []
    else
      SubLowersFirstFits(node, pod);
      FitOrder(node.milliGpuLeftList, pod.milliGpu)[..pod.gpuNumber]
  }

  lemma {:induction false} FitOrderCount(list: seq<int>, m: int)
    ensures |FitOrder(list, m)| == SumBy(Fits(m), list)
  {
    FitOrderMembers(list, m);
    FitCount(list, m, FitOrder(list, m));
  }

  lemma {:induction false} FitCount(list: seq<int>, m: int, fits: seq<int>)
    requires Indices(list, fits) && Distinct(fits)
    requires forall i :: i in fits <==> 0 <= i < |list| && m <= list[i]
    ensures |fits| == SumBy(Fits(m), list)
  {
    assert |fits| == |set i | i in fits| by { DistinctSize(fits); }
    FitSet(list, m);
    assert (set i | i in fits) == set i | 0 <= i < |list| && m <= list[i];
  }

  lemma {:induction false} DistinctSize(s: seq<int>)
    requires Distinct(s)
    ensures |set i | i in s| == |s|
  {
    if s != [] {
      var k := |s| - 1;
      DistinctSize(s[..k]);
      assert s[k] !in s[..k];
      assert (set i | i in s) == (set i | i in s[..k]) + {s[k]};
    }
  }

  lemma {:induction false} FitSet(list: seq<int>, m: int)
    ensures |set i | 0 <= i < |list| && m <= list[i]| == SumBy(Fits(m), list)
  {
    if list != [] {
      var k := |list| - 1;
      FitSet(list[..k], m);
      assert (set i | 0 <= i < |list| && m <= list[i])
          == (set i | 0 <= i < |list[..k]| && m <= list[..k][i]) + (if m <= list[k] then {k} else {});
    }
  }

  /** When Sub serves a valid pod: enough CPU and enough GPUs with room, nothing else. */
  lemma SubSucceeds(node: NodeResource, pod: PodResource)
    requires ValidNode(node) && ValidPod(pod)
    ensures SubSpec(node, pod).ok <==>
      pod.milliCpu <= node.milliCpuLeft &&
      (pod.gpuNumber == 0 || pod.gpuNumber <= SumBy(Fits(pod.milliGpu), node.milliGpuLeftList))
  {
    var list := node.milliGpuLeftList;
    SumByBounds(list, pod.milliGpu);
    if pod.gpuNumber > 0 {
      StableOrderIsStable(list, true);
      PackSucceeds(list, StableOrder(list, true), pod.milliGpu, pod.gpuNumber);
      FitOrderCount(list, pod.milliGpu);
    }
  }

  /** chosen are different devices with room for m, and any other device with room has more
      left, or as much and a higher index. */
  predicate Tightest(list: seq<int>, m: int, chosen: seq<int>) {
    && Indices(list, chosen)
    && Distinct(chosen)
    && (forall c | c in chosen :: 0 <= c < |list| && m <= list[c])
    && (forall c, i | c in chosen && 0 <= i < |list| && m <= list[i] && i !in chosen :: Before(list, true, c, i))
  }

  lemma FirstFitsAreTightest(list: seq<int>, m: int, k: nat)
    requires k <= |FitOrder(list, m)|
    ensures Tightest(list, m, FitOrder(list, m)[..k])
  {
    var fits := FitOrder(list, m);
    var chosen := fits[..k];
    FitOrderMembers(list, m);
    assert forall c | c in chosen :: c in fits;
    forall c, i | c in chosen && 0 <= i < |list| && m <= list[i] && i !in chosen
      ensures Before(list, true, c, i)
    {
      assert i in fits;
      forall j | 0 <= j < k ensures fits[j] != i {
        assert chosen[j] in chosen;
      }
      var b :| 0 <= b < |fits| && fits[b] == i;
      var a :| 0 <= a < |chosen| && chosen[a] == c;
      assert fits[a] == c;
    }
  }

  /** What a successful Sub does: it lowers exactly gpuNumber different GPUs, each by
      milliGpu, and they are the tightest that fit, ties by device index. */
  lemma SubTakesTightest(node: NodeResource, pod: PodResource)
    requires ValidNode(node) && ValidPod(pod) && SubSpec(node, pod).ok
    ensures var out := SubSpec(node, pod).node;
      var chosen := SubDevices(node, pod);
      var list := node.milliGpuLeftList;
      && ValidNode(out)
      && Tightest(list, pod.milliGpu, chosen)
      && (forall i | 0 <= i < |list| :: out.milliGpuLeftList[i] == list[i] - (if i in chosen then pod.milliGpu else 0))
      && out == node.(milliCpuLeft := node.milliCpuLeft - pod.milliCpu, milliGpuLeftList := out.milliGpuLeftList)
      && SumBy(Idle, out.milliGpuLeftList) == SumBy(Idle, list) - pod.TotalMilliGpu()
  {
    var list, m, k := node.milliGpuLeftList, pod.milliGpu, pod.gpuNumber;
    if k > 0 {
      SubLowersFirstFits(node, pod);
      FirstFitsAreTightest(list, m, k);
      var chosen := FitOrder(list, m)[..k];
      forall i | 0 <= i < |list| ensures Lower(list, chosen, m)[i] == list[i] - (if i in chosen then m else 0) {
        LowerAt(list, chosen, m, i);
      }
      LowerIdle(list, chosen, m);
    }
  }

  // ----- Add ---------------------------------------------------------------------------

  function AddIds(list: seq<int>, m: int, idl: seq<int>): (r: Packed)
    ensures |r.list| == |list|
    decreases idl
  {
    if idl == [] then Packed(list, true)
    else if !(0 <= idl[0] < |list|) || list[idl[0]] + m > MILLI then Packed(list, false)
    else AddIds(list[idl[0] := list[idl[0]] + m], m, idl[1..])
  }

  function AddSpec(node: NodeResource, pod: PodResource, idl: seq<int>): Outcome {
    if node.milliCpuLeft + pod.milliCpu > node.milliCpuCapacity then Outcome(node, false)
    else
      var out := node.(milliCpuLeft := node.milliCpuLeft + pod.milliCpu);
      if pod.gpuNumber == 0 then Outcome(out, true)
      else
        var added := AddIds(node.milliGpuLeftList, pod.milliGpu, idl);
        Outcome(out.(milliGpuLeftList := added.list), added.ok)
  }

  /** The guard on the id list always holds once the pod asks for a GPU, so the source's
      other branch, which guesses devices, has no counterpart here. */
  method Add(node: NodeResource, pod: PodResource, idl: seq<int>) returns (r: Outcome)
    ensures r == AddSpec(node, pod, idl)
  {
    var out := node.(milliCpuLeft := node.milliCpuLeft + pod.milliCpu);
    if out.milliCpuLeft > out.milliCpuCapacity {
      return Outcome(out.(milliCpuLeft := out.milliCpuLeft - pod.milliCpu), false);
    }
    var gpuRequest := pod.gpuNumber;
    if pod.gpuNumber == 0 {
      return Outcome(out, true);
    }
    if |idl| > 0 || |idl| != gpuRequest {
      var list := out.milliGpuLeftList;
      for i := 0 to |idl|
        invariant |list| == |node.milliGpuLeftList|
        invariant AddIds(node.milliGpuLeftList, pod.milliGpu, idl) == AddIds(list, pod.milliGpu, idl[i..])
      {
        assert idl[i..][1..] == idl[i + 1..];
        if idl[i] > |list| - 1 || idl[i] < 0 {
          return Outcome(out.(milliGpuLeftList := list), false);
        }
        if list[idl[i]] + pod.milliGpu > MILLI {
          return Outcome(out.(milliGpuLeftList := list), false);
        }
        list := list[idl[i] := list[idl[i]] + pod.milliGpu];
        gpuRequest := gpuRequest - 1;
      }
      r := Outcome(out.(milliGpuLeftList := list), true);
    } else {
      assert false;
    }
  }

  predicate HasRoomFor(list: seq<int>, m: int, idl: seq<int>) {
    forall i | i in idl :: 0 <= i < |list| && list[i] + m * multiset(idl)[i] <= MILLI
  }

  lemma ChargeStep(list: seq<int>, m: int, id: int, rest: seq<int>, i: int)
    requires 0 <= id < |list| && 0 <= i < |list|
    ensures list[i] + m * multiset([id] + rest)[i] == list[id := list[id] + m][i] + m * multiset(rest)[i]
  {
  }

  lemma RoomStep(list: seq<int>, m: int, id: int, rest: seq<int>)
    requires 0 <= m && 0 <= id < |list|
    ensures HasRoomFor(list, m, [id] + rest) <==>
      list[id] + m <= MILLI && HasRoomFor(list[id := list[id] + m], m, rest)
  {
    var list' := list[id := list[id] + m];
    forall i | 0 <= i < |list|
      ensures list[i] + m * multiset([id] + rest)[i] == list'[i] + m * multiset(rest)[i]
    {
      ChargeStep(list, m, id, rest, i);
    }
    assert m * multiset(rest)[id] >= 0;
    assert id !in rest ==> m * multiset(rest)[id] == 0;
    assert forall i :: i in [id] + rest <==> i == id || i in rest;
  }

  /** Add takes an id list exactly when every id is a device and no device, counting
      repeated ids, would pass a whole GPU; it then raises each by its share. */
  lemma {:induction false} AddIdsAccepts(list: seq<int>, m: int, idl: seq<int>)
    requires 0 <= m
    ensures AddIds(list, m, idl).ok <==> HasRoomFor(list, m, idl)
    ensures AddIds(list, m, idl).ok ==>
      forall i | 0 <= i < |list| :: AddIds(list, m, idl).list[i] == list[i] + m * multiset(idl)[i]
    decreases idl
  {
    if idl != [] {
      var id, rest := idl[0], idl[1..];
      assert idl == [id] + rest;
      if 0 <= id < |list| {
        RoomStep(list, m, id, rest);
        AddIdsAccepts(list[id := list[id] + m], m, rest);
        forall i | 0 <= i < |list|
          ensures list[i] + m * multiset(idl)[i] == list[id := list[id] + m][i] + m * multiset(rest)[i]
        {
          ChargeStep(list, m, id, rest, i);
        }
      } else {
        assert id in idl;
      }
    }
  }

  /** Add serves a pod exactly when its CPU fits the capacity and, for a GPU pod, every named
      device has room; CPU and devices then rise by what the pod gives back, and nothing else
      changes. */
  lemma AddSucceeds(node: NodeResource, pod: PodResource, idl: seq<int>)
    requires 0 <= pod.milliGpu
    ensures AddSpec(node, pod, idl).ok <==>
      && node.milliCpuLeft + pod.milliCpu <= node.milliCpuCapacity
      && (pod.gpuNumber == 0 || HasRoomFor(node.milliGpuLeftList, pod.milliGpu, idl))
    ensures AddSpec(node, pod, idl).ok ==>
      var out, list := AddSpec(node, pod, idl).node, node.milliGpuLeftList;
      && out == node.(milliCpuLeft := node.milliCpuLeft + pod.milliCpu, milliGpuLeftList := out.milliGpuLeftList)
      && |out.milliGpuLeftList| == |list|
      && forall i | 0 <= i < |list| ::
           out.milliGpuLeftList[i] == list[i] + if pod.gpuNumber == 0 then 0 else pod.milliGpu * multiset(idl)[i]
  {
    AddIdsAccepts(node.milliGpuLeftList, pod.milliGpu, idl);
  }

  lemma AddIdsUndoesLower(list: seq<int>, m: int, chosen: seq<int>)
    requires 0 <= m && Indices(list, chosen) && Distinct(chosen)
    requires forall i | 0 <= i < |list| :: list[i] <= MILLI
    ensures AddIds(Lower(list, chosen, m), m, chosen) == Packed(list, true)
  {
    var low := Lower(list, chosen, m);
    forall i | 0 <= i < |list|
      ensures low[i] + m * multiset(chosen)[i] == list[i]
    {
      LowerAt(list, chosen, m, i);
      DistinctCount(chosen, i);
    }
    assert forall i | i in chosen :: 0 <= i < |list|;
    AddIdsAccepts(low, m, chosen);
    assert AddIds(low, m, chosen).list == list;
  }

  /** Giving back what Sub took, on the devices it took it from, restores the node. */
  lemma AddUndoesSub(node: NodeResource, pod: PodResource)
    requires ValidNode(node) && ValidPod(pod) && SubSpec(node, pod).ok
    requires node.milliCpuLeft <= node.milliCpuCapacity
    ensures AddSpec(SubSpec(node, pod).node, pod, SubDevices(node, pod)) == Outcome(node, true)
  {
    if pod.gpuNumber > 0 {
      var list, m, k := node.milliGpuLeftList, pod.milliGpu, pod.gpuNumber;
      SubLowersFirstFits(node, pod);
      AddIdsUndoesLower(list, m, FitOrder(list, m)[..k]);
    }
  }

  lemma {:induction false} DistinctCount(s: seq<int>, i: int)
    requires Distinct(s)
    ensures multiset(s)[i] == if i in s then 1 else 0
  {
    if s != [] {
      var k := |s| - 1;
      assert s == s[..k] + [s[k]];
      DistinctCount(s[..k], i);
      assert s[k] !in s[..k];
    }
  }
}
