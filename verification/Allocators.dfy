/** The separately written device allocators: the cache's own (used by Filter), the ones that
    Reserve can be configured with, and the choice hidden inside Sub. */
module Allocators {
  import opened Decimal
  import opened Frag
  import opened IndexSort
  import opened Resource

  function Min(a: nat, b: nat): nat { if a < b then a else b }

  // ----- several shares on one device: the two-pointer greedy ----------------------------

  /** How many shares of m fit into v. */
  function Shares(v: int, m: int): nat
    requires 0 < m
    decreases if v < 0 then 0 else v
  {
    if v < m then 0 else 1 + Shares(v - m, m)
  }

  /** Shares is the floor of v over m. */
  lemma {:induction false} SharesFit(v: int, m: int, c: nat)
    requires 0 < m && 0 <= v
    ensures m * c <= v <==> c <= Shares(v, m)
    decreases v
  {
    if c > 0 {
      assert m * c == m + m * (c - 1);
      assert m * (c - 1) >= 0;
      if v >= m {
        SharesFit(v - m, m, c - 1);
      }
    }
  }

  function Capacity(list: seq<int>, m: int, d: nat): nat
    requires 0 < m && d <= |list|
    decreases |list| - d
  {
    if d == |list| then 0 else Shares(list[d], m) + Capacity(list, m, d + 1)
  }

  function Repeat(d: int, t: nat): (r: seq<int>)
    ensures |r| == t
  {
    if t == 0 then [] else [d] + Repeat(d, t - 1)
  }

  /** Fills device d, then d + 1, and so on, until k shares are placed or devices run out. */
  function GreedyFill(list: seq<int>, m: int, d: nat, k: nat): (r: seq<int>)
    requires 0 < m && d <= |list|
    decreases |list| - d
  {
    if d == |list| then []
    else
      var t := Min(k, Shares(list[d], m));
      Repeat(d, t) + GreedyFill(list, m, d + 1, k - t)
  }

  lemma {:induction false} RepeatCount(d: int, t: nat, x: int)
    ensures multiset(Repeat(d, t))[x] == if x == d then t else 0
  {
    if t > 0 {
      RepeatCount(d, t - 1, x);
    }
  }

  lemma {:induction false} FillSize(list: seq<int>, m: int, d: nat, k: nat)
    requires 0 < m && d <= |list|
    ensures |GreedyFill(list, m, d, k)| == Min(k, Capacity(list, m, d))
    decreases |list| - d
  {
    if d < |list| {
      FillSize(list, m, d + 1, k - Min(k, Shares(list[d], m)));
    }
  }

  lemma {:induction false} FillNothing(list: seq<int>, m: int, d: nat)
    requires 0 < m && d <= |list|
    ensures GreedyFill(list, m, d, 0) == []
    decreases |list| - d
  {
    if d < |list| {
      FillNothing(list, m, d + 1);
    }
  }

  lemma {:induction false} FillCount(list: seq<int>, m: int, d: nat, k: nat, x: int)
    requires 0 < m && d <= |list|
    ensures multiset(GreedyFill(list, m, d, k))[x] <= (if d <= x < |list| then Shares(list[x], m) else 0)
    decreases |list| - d
  {
    if d < |list| {
      var t := Min(k, Shares(list[d], m));
      FillCount(list, m, d + 1, k - t, x);
      RepeatCount(d, t, x);
    }
  }

  lemma FillIndices(list: seq<int>, m: int, d: nat, k: nat)
    requires 0 < m && d <= |list|
    ensures Indices(list, GreedyFill(list, m, d, k))
  {
    var fill := GreedyFill(list, m, d, k);
    forall i | 0 <= i < |fill| ensures 0 <= fill[i] < |list| {
      FillCount(list, m, d, k, fill[i]);
      assert fill[i] in multiset(fill);
    }
  }

  /** An assignment of shares of m to devices that respects every device's idle milli. */
  ghost predicate Placement(list: seq<int>, m: int, ids: seq<int>) {
    && Indices(list, ids)
    && forall x | 0 <= x < |list| :: m * multiset(ids)[x] <= list[x]
  }

  function CountBelow(b: multiset<int>, n: nat): nat {
    if n == 0 then 0 else CountBelow(b, n - 1) + b[n - 1]
  }

  lemma {:induction false} CountBelowAdd(b: multiset<int>, x: nat, n: nat)
    ensures CountBelow(b + multiset{x}, n) == CountBelow(b, n) + (if x < n then 1 else 0)
  {
    if n > 0 {
      CountBelowAdd(b, x, n - 1);
    }
  }

  lemma {:induction false} CountByDevice(list: seq<int>, ids: seq<int>)
    requires Indices(list, ids)
    ensures CountBelow(multiset(ids), |list|) == |ids|
  {
    if ids == [] {
      CountBelowEmpty(|list|);
    } else {
      var k := |ids| - 1;
      assert ids == ids[..k] + [ids[k]];
      CountByDevice(list, ids[..k]);
      CountBelowAdd(multiset(ids[..k]), ids[k], |list|);
    }
  }

  lemma {:induction false} CountBelowEmpty(n: nat)
    ensures CountBelow(multiset{}, n) == 0
  {
    if n > 0 {
      CountBelowEmpty(n - 1);
    }
  }

  lemma {:induction false} CapacityFrom(list: seq<int>, m: int, b: multiset<int>, d: nat)
    requires 0 < m && d <= |list|
    requires forall x | 0 <= x < |list| :: 0 <= list[x] && m * b[x] <= list[x]
    ensures CountBelow(b, |list|) <= CountBelow(b, d) + Capacity(list, m, d)
    decreases |list| - d
  {
    if d < |list| {
      CapacityFrom(list, m, b, d + 1);
      SharesFit(list[d], m, b[d]);
    }
  }

  /** The greedy is sound and complete: it places all k shares exactly when some placement of
      k shares exists, exactly when the shares per device add up to k, and what it returns is
      such a placement. */
  lemma GreedyComplete(list: seq<int>, m: int, k: nat)
    requires 0 < m && forall x | 0 <= x < |list| :: 0 <= list[x]
    ensures Placement(list, m, GreedyFill(list, m, 0, k))
    ensures |GreedyFill(list, m, 0, k)| == k <==> k <= Capacity(list, m, 0)
    ensures |GreedyFill(list, m, 0, k)| == k <==> exists ids :: Placement(list, m, ids) && |ids| == k
  {
    var fill := GreedyFill(list, m, 0, k);
    FillIndices(list, m, 0, k);
    FillSize(list, m, 0, k);
    forall x | 0 <= x < |list| ensures m * multiset(fill)[x] <= list[x] {
      FillCount(list, m, 0, k, x);
      SharesFit(list[x], m, multiset(fill)[x]);
    }
    forall ids | Placement(list, m, ids) ensures |ids| <= Capacity(list, m, 0) {
      CountByDevice(list, ids);
      CapacityFrom(list, m, multiset(ids), 0);
    }
  }

  lemma {:induction false} FillIgnoresBefore(a: seq<int>, b: seq<int>, m: int, d: nat, k: nat)
    requires 0 < m && d <= |a| == |b|
    requires forall i | d <= i < |a| :: a[i] == b[i]
    ensures GreedyFill(a, m, d, k) == GreedyFill(b, m, d, k)
    decreases |a| - d
  {
    if d < |a| {
      FillUnfolds(a, m, d, k);
      FillUnfolds(b, m, d, k);
      FillIgnoresBefore(a, b, m, d + 1, k - Min(k, Shares(a[d], m)));
    }
  }

  lemma FillUnfolds(list: seq<int>, m: int, d: nat, k: nat)
    requires 0 < m && d < |list|
    ensures var t := Min(k, Shares(list[d], m));
      GreedyFill(list, m, d, k) == Repeat(d, t) + GreedyFill(list, m, d + 1, k - t)
  {
  }

  lemma ConsAssoc(front: seq<int>, x: int, rest: seq<int>)
    ensures front + ([x] + rest) == (front + [x]) + rest
  {
  }

  lemma FillHead(list: seq<int>, m: int, d: nat, k: nat)
    requires 0 < m && d < |list| && 0 < k && m <= list[d]
    ensures GreedyFill(list, m, d, k) == [d] + GreedyFill(list[d := list[d] - m], m, d, k - 1)
  {
    var v := list[d] - m;
    var t := Min(k - 1, Shares(v, m));
    assert Min(k, Shares(list[d], m)) == t + 1;
    FillIgnoresBefore(list, list[d := v], m, d + 1, k - 1 - t);
    ConsAssoc([], d, Repeat(d, t));
  }

  lemma FillStep(list: seq<int>, m: int, d: nat, k: nat, front: seq<int>)
    requires 0 < m && d < |list| && 0 < k && m <= list[d]
    ensures front + GreedyFill(list, m, d, k) == (front + [d]) + GreedyFill(list[d := list[d] - m], m, d, k - 1)
  {
    FillHead(list, m, d, k);
    ConsAssoc(front, d, GreedyFill(list[d := list[d] - m], m, d, k - 1));
  }

  // ----- the tightest device -----------------------------------------------------------

  /** i has room for m and ranks before every other device among the first n with room. */
  predicate Leads(list: seq<int>, ascending: bool, m: int, n: nat, i: int)
    requires n <= |list|
  {
    && 0 <= i < n && m <= list[i]
    && forall j | 0 <= j < n && m <= list[j] && j != i :: Before(list, ascending, i, j)
  }

  predicate NoRoom(list: seq<int>, m: int, n: nat)
    requires n <= |list|
  {
    forall j | 0 <= j < n :: list[j] < m
  }

  lemma LeaderIsFirstFit(list: seq<int>, m: int, i: int)
    requires Leads(list, true, m, |list|, i)
    ensures FitOrder(list, m) != [] && FitOrder(list, m)[..1] == [i]
  {
    var fits := FitOrder(list, m);
    FitOrderMembers(list, m);
    assert i in fits && fits[0] in fits;
    var a :| 0 <= a < |fits| && fits[a] == i;
    assert a == 0;
  }

  lemma {:induction false} KeepNone(list: seq<int>, s: seq<int>, m: int)
    requires Indices(list, s) && NoRoom(list, m, |list|)
    ensures Keep(list, s, m) == []
  {
    if s != [] {
      KeepNone(list, s[1..], m);
    }
  }

  lemma NoRoomNoFit(list: seq<int>, m: int)
    requires NoRoom(list, m, |list|)
    ensures FitOrder(list, m) == []
  {
    KeepNone(list, StableOrder(list, true), m);
  }

  // ----- the cache's allocator -----------------------------------------------------------

  /** The devices that the cache offers, or none. */
  function CacheChoice(list: seq<int>, m: int, k: int): Option<seq<int>> {
    if m <= 0 || k <= 0 || list == [] then None
    else if k == 1 then
      if FitOrder(list, m) == [] then None else Some(FitOrder(list, m)[..1])
    else
      var fill := GreedyFill(list, m, 0, k);
      if |fill| == k then Some(fill) else None
  }

  function ChoiceText(choice: Option<seq<int>>): string {
    match choice
    case None => ""
    case Some(ids) => JoinIds(ids)
  }

  lemma JoinIdsSnoc(ids: seq<int>, id: int)
    ensures JoinIds(ids + [id]) == if ids == [] then Itoa(id) else JoinIds(ids) + [DEV_ID_SEP] + Itoa(id)
  {
  }

  predicate IdleAs(idleGpus: map<int, int>, list: seq<int>) {
    forall i | 0 <= i < |list| :: i in idleGpus && idleGpus[i] == list[i]
  }

  method TightestOnIdle(idleGpus: map<int, int>, devCount: nat, reqGpuMilli: int, ghost list: seq<int>)
    returns (candDevId: string, found: bool)
    requires |list| == devCount > 0 && IdleAs(idleGpus, list) && 0 < reqGpuMilli
    ensures found == CacheChoice(list, reqGpuMilli, 1).Some?
    ensures candDevId == ChoiceText(CacheChoice(list, reqGpuMilli, 1))
  {
    candDevId, found := "", false;
    var candGpuMilli := 0;
    ghost var cand := -1;
    for devId := 0 to devCount
      invariant if found then Leads(list, true, reqGpuMilli, devId, cand) && candDevId == Itoa(cand)
                      && candGpuMilli == list[cand]
                else candDevId == "" && NoRoom(list, reqGpuMilli, devId)
    {
      if devId in idleGpus {
        var idleGpuMilli := idleGpus[devId];
        if idleGpuMilli >= reqGpuMilli {
          if candDevId == "" || idleGpuMilli < candGpuMilli {
            candDevId := Itoa(devId);
            candGpuMilli := idleGpuMilli;
            found := true;
            cand := devId;
          }
        }
      }
    }
    if found {
      LeaderIsFirstFit(list, reqGpuMilli, cand);
    } else {
      NoRoomNoFit(list, reqGpuMilli);
    }
  }

  /** Takes shares from the first device while it has room, then moves on: two pointers, one
      over the devices and one over the shares still to place. */
  method FillOnIdle(idleGpus: map<int, int>, devCount: nat, reqGpuNum: nat, reqGpuMilli: int, ghost list: seq<int>)
    returns (candDevIdList: seq<int>)
    requires |list| == devCount && IdleAs(idleGpus, list) && 0 < reqGpuMilli
    ensures candDevIdList == GreedyFill(list, reqGpuMilli, 0, reqGpuNum)
  {
    var idle := idleGpus;
    ghost var left := list;
    candDevIdList := [];
    var devId, reqGpuId := 0, 0;
    while devId < devCount && reqGpuId < reqGpuNum
      invariant 0 <= devId <= devCount && 0 <= reqGpuId == |candDevIdList| <= reqGpuNum
      invariant |left| == devCount && IdleAs(idle, left)
      invariant GreedyFill(list, reqGpuMilli, 0, reqGpuNum)
             == candDevIdList + GreedyFill(left, reqGpuMilli, devId, reqGpuNum - reqGpuId)
      decreases devCount - devId + reqGpuNum - reqGpuId
    {
      if devId in idle && idle[devId] >= reqGpuMilli {
        FillStep(left, reqGpuMilli, devId, reqGpuNum - reqGpuId, candDevIdList);
        candDevIdList := candDevIdList + [devId];
        left := left[devId := left[devId] - reqGpuMilli];
        idle := idle[devId := idle[devId] - reqGpuMilli];
        reqGpuId := reqGpuId + 1;
      } else {
        FillSkip(left, reqGpuMilli, devId, reqGpuNum - reqGpuId);
        devId := devId + 1;
      }
    }
    if reqGpuId == reqGpuNum {
      FillNothing(left, reqGpuMilli, devId);
    }
  }

  lemma FillSkip(list: seq<int>, m: int, d: nat, k: nat)
    requires 0 < m && d < |list| && list[d] < m
    ensures GreedyFill(list, m, d, k) == GreedyFill(list, m, d + 1, k)
  {
  }

  method AppendId(text: string, id: int, ghost taken: seq<int>) returns (r: string)
    requires text == JoinIds(taken) && (text == "" <==> taken == [])
    ensures r == JoinIds(taken + [id]) && r != ""
  {
    JoinIdsSnoc(taken, id);
    if text == "" {
      r := Itoa(id);
    } else {
      r := text + [DEV_ID_SEP] + Itoa(id);
    }
  }

  lemma PrefixSnoc(s: seq<int>, k: nat)
    requires k < |s|
    ensures s[..k + 1] == s[..k] + [s[k]]
  {
  }

  method JoinDevIds(ids: seq<int>) returns (devId: string)
    requires |ids| > 0
    ensures devId == JoinIds(ids)
  {
    devId := "";
    ghost var done: seq<int> := [];
    for i := 0 to |ids|
      invariant done == ids[..i]
      invariant devId == JoinIds(done) && (devId == "" <==> i == 0)
    {
      devId := AppendId(devId, ids[i], done);
      PrefixSnoc(ids, i);
      done := done + [ids[i]];
    }
    assert ids[..|ids|] == ids;
  }

  /** The search on a copy of the devices' idle milli: the tightest device for one GPU, the
      greedy for several. */
  method AllocateOnIdle(idleGpus: map<int, int>, devCount: nat, reqGpuNum: int, reqGpuMilli: int, ghost list: seq<int>)
    returns (candDevId: string, found: bool)
    requires |list| == devCount > 0 && IdleAs(idleGpus, list) && 0 < reqGpuMilli && 0 < reqGpuNum
    ensures found == CacheChoice(list, reqGpuMilli, reqGpuNum).Some?
    ensures candDevId == ChoiceText(CacheChoice(list, reqGpuMilli, reqGpuNum))
  {
    if reqGpuNum == 1 {
      candDevId, found := TightestOnIdle(idleGpus, devCount, reqGpuMilli, list);
    } else {
      candDevId, found := "", false;
      var candDevIdList := FillOnIdle(idleGpus, devCount, reqGpuNum, reqGpuMilli, list);
      if |candDevIdList| == reqGpuNum {
        candDevId := JoinDevIds(candDevIdList);
        found := true;
      }
    }
  }

  // ----- Reserve's allocators ------------------------------------------------------------

  /** The wholly free devices from d on, in device order. */
  function FullFrom(list: seq<int>, d: nat): (r: seq<int>)
    requires d <= |list|
    decreases |list| - d
  {
    if d == |list| then []
    else if list[d] == MILLI then [d] + FullFrom(list, d + 1)
    else FullFrom(list, d + 1)
  }

  /** How many whole GPUs a total demand takes. */
  function WholeGpus(total: int): nat
    decreases if total < 0 then 0 else total
  {
    if total <= 0 then 0 else 1 + WholeGpus(total - MILLI)
  }

  /** The wholly free devices that an exclusive pod gets; None where the source panics. */
  function ExclusiveChoice(list: seq<int>, pod: PodResource): Option<seq<int>> {
    var need := WholeGpus(pod.TotalMilliGpu());
    if need <= |FullFrom(list, 0)| then Some(FullFrom(list, 0)[..need]) else None
  }

  /** The text an allocator returns; None where the source panics. */
  function TextOf(choice: Option<seq<int>>): Option<string> {
    match choice
    case None => None
    case Some(ids) => Some(JoinIds(ids))
  }

  ghost function Moved(full: seq<int>, taken: seq<int>, id: int, rest: seq<int>): (r: seq<int>)
    requires full == taken + ([id] + rest)
    ensures r == taken + [id] && |r| == |taken| + 1 && full == r + rest
  {
    taken + [id]
  }

  lemma ExclusiveEnd(list: seq<int>, pod: PodResource, taken: seq<int>, rest: seq<int>, left: int)
    requires FullFrom(list, 0) == taken + rest
    requires |taken| + WholeGpus(left) == WholeGpus(pod.TotalMilliGpu())
    requires left > 0 ==> rest == []
    ensures ExclusiveChoice(list, pod) == if left > 0 then None else Some(taken)
  {
  }

  method AllocateExclusiveGpuId(node: NodeResource, pod: PodResource) returns (gpuId: Option<string>)
    ensures gpuId == TextOf(ExclusiveChoice(node.milliGpuLeftList, pod))
  {
    var list := node.milliGpuLeftList;
    var podGpuReq := pod.TotalMilliGpu();
    var text := "";
    ghost var full, taken: seq<int> := FullFrom(list, 0), [];
    var id := 0;
    while id < |list| && podGpuReq > 0
      invariant 0 <= id <= |list|
      invariant full == taken + FullFrom(list, id)
      invariant |taken| + WholeGpus(podGpuReq) == WholeGpus(pod.TotalMilliGpu())
      invariant text == JoinIds(taken) && (text == "" <==> taken == [])
    {
      if list[id] == MILLI {
        text := AppendId(text, id, taken);
        taken := Moved(full, taken, id, FullFrom(list, id + 1));
        podGpuReq := podGpuReq - MILLI;
      }
      id := id + 1;
    }
    ExclusiveEnd(list, pod, taken, FullFrom(list, id), podGpuReq);
    gpuId := if podGpuReq > 0 then None else Some(text);
  }

  /** What best fit picks: the tightest device for a share, whole devices otherwise. A share
      that fits nowhere gets the empty list. */
  function BestFitChoice(list: seq<int>, pod: PodResource): Option<seq<int>> {
    if pod.milliGpu < MILLI then
      Some(if FitOrder(list, pod.milliGpu) == [] then [] else FitOrder(list, pod.milliGpu)[..1])
    else ExclusiveChoice(list, pod)
  }

  method AllocateGpuIdBasedOnBestFit(node: NodeResource, pod: PodResource) returns (gpuId: Option<string>)
    ensures gpuId == TextOf(BestFitChoice(node.milliGpuLeftList, pod))
  {
    if pod.milliGpu >= MILLI {
      gpuId := AllocateExclusiveGpuId(node, pod);
      return;
    }
    var list, m := node.milliGpuLeftList, pod.milliGpu;
    var text := "";
    var candidateGpuId := -1;
    for id := 0 to |list|
      invariant if candidateGpuId == -1 then text == "" && NoRoom(list, m, id)
                else Leads(list, true, m, id, candidateGpuId) && text == Itoa(candidateGpuId)
    {
      if list[id] >= m {
        if candidateGpuId == -1 || list[id] < list[candidateGpuId] {
          candidateGpuId := id;
          text := Itoa(id);
        }
      }
    }
    if candidateGpuId == -1 {
      NoRoomNoFit(list, m);
    } else {
      LeaderIsFirstFit(list, m, candidateGpuId);
    }
    gpuId := Some(text);
  }

  /** The roomiest device with room for a share, ties by device index; none if none has room. */
  predicate RoomiestShare(list: seq<int>, m: int, ids: seq<int>) {
    if NoRoom(list, m, |list|) then ids == []
    else |ids| == 1 && Leads(list, false, m, |list|, ids[0])
  }

  /** What worst fit picks: the first device of the stable descending order, if it has room. */
  function WorstFitChoice(list: seq<int>, pod: PodResource): Option<seq<int>> {
    if pod.milliGpu >= MILLI then ExclusiveChoice(list, pod)
    else if list == [] || list[StableOrder(list, false)[0]] < pod.milliGpu then Some([])
    else Some(StableOrder(list, false)[..1])
  }

  lemma WorstFitIsRoomiest(list: seq<int>, pod: PodResource)
    requires pod.milliGpu < MILLI
    ensures WorstFitChoice(list, pod).Some? && RoomiestShare(list, pod.milliGpu, WorstFitChoice(list, pod).value)
  {
    if list != [] {
      StableOrderIsStable(list, false);
      var order := StableOrder(list, false);
      var first := order[0];
      forall j | 0 <= j < |list| ensures list[j] <= list[first] && (j == first || Before(list, false, first, j)) {
        assert j in order;
        var k :| 0 <= k < |order| && order[k] == j;
        assert k == 0 || Before(list, false, order[0], order[k]);
      }
    }
  }

  lemma RoomiestUnique(list: seq<int>, m: int, a: seq<int>, b: seq<int>)
    requires RoomiestShare(list, m, a) && RoomiestShare(list, m, b)
    ensures a == b
  {
  }

  method AllocateGpuIdBasedOnWorstFit(node: NodeResource, pod: PodResource) returns (gpuId: Option<string>)
    ensures gpuId == TextOf(WorstFitChoice(node.milliGpuLeftList, pod))
  {
    if pod.milliGpu >= MILLI {
      gpuId := AllocateExclusiveGpuId(node, pod);
      return;
    }
    var list, m := node.milliGpuLeftList, pod.milliGpu;
    var text := "";
    var candidateGpuId := -1;
    for id := 0 to |list|
      invariant if candidateGpuId == -1 then text == "" && NoRoom(list, m, id)
                else Leads(list, false, m, id, candidateGpuId) && text == Itoa(candidateGpuId)
    {
      if list[id] >= m {
        if candidateGpuId == -1 || list[id] > list[candidateGpuId] {
          candidateGpuId := id;
          text := Itoa(id);
        }
      }
    }
    WorstFitIsRoomiest(list, pod);
    RoomiestUnique(list, m, WorstFitChoice(list, pod).value, if candidateGpuId == -1 then [] else [candidateGpuId]);
    gpuId := Some(text);
  }

  /** Some device with room for a share; none if none has room. */
  predicate AnyShare(list: seq<int>, m: int, ids: seq<int>) {
    if NoRoom(list, m, |list|) then ids == []
    else |ids| == 1 && 0 <= ids[0] < |list| && m <= list[ids[0]]
  }

  /** The text names no device exactly when none has room, and else one that has. */
  predicate NamesShare(list: seq<int>, m: int, text: string) {
    if NoRoom(list, m, |list|) then text == ""
    else exists d | 0 <= d < |list| :: m <= list[d] && text == Itoa(d)
  }

  /** The source keeps each new candidate with a chance of one in the number seen so far, so
      the first is always kept. */
  method AllocateGpuIdBasedOnRandomFit(node: NodeResource, pod: PodResource)
    returns (gpuId: Option<string>, ghost choice: Option<seq<int>>)
    ensures gpuId == TextOf(choice)
    ensures if pod.milliGpu >= MILLI then choice == ExclusiveChoice(node.milliGpuLeftList, pod)
            else choice.Some? && AnyShare(node.milliGpuLeftList, pod.milliGpu, choice.value)
    ensures pod.milliGpu < MILLI ==> gpuId.Some? && NamesShare(node.milliGpuLeftList, pod.milliGpu, gpuId.value)
  {
    if pod.milliGpu >= MILLI {
      gpuId := AllocateExclusiveGpuId(node, pod);
      choice := ExclusiveChoice(node.milliGpuLeftList, pod);
      return;
    }
    var list, m := node.milliGpuLeftList, pod.milliGpu;
    var text := "";
    ghost var ids: seq<int> := [];
    var cntOfAvailableGpu := 0;
    for id := 0 to |list|
      invariant cntOfAvailableGpu >= 0
      invariant if cntOfAvailableGpu == 0 then ids == [] && NoRoom(list, m, id)
                else |ids| == 1 && 0 <= ids[0] < id && m <= list[ids[0]]
      invariant text == JoinIds(ids)
    {
      if list[id] >= m {
        cntOfAvailableGpu := cntOfAvailableGpu + 1;
        var draw :| 0 <= draw < cntOfAvailableGpu;
        if draw == 0 {
          text := Itoa(id);
          ids := [id];
        }
      }
    }
    choice := Some(ids);
    gpuId := Some(text);
  }

  // ----- the fragmentation-aware allocator -----------------------------------------------

  function Trunc(x: real): int {
    if x >= 0.0 then x.Floor else -((-x).Floor)
  }

  const MAX_NODE_SCORE := 100

  /** The node after placing the pod's share on device i. */
  function Placed(node: NodeResource, pod: PodResource, i: nat): NodeResource
    requires i < |node.milliGpuLeftList|
  {
    node.(milliCpuLeft := node.milliCpuLeft - pod.milliCpu,
          milliGpuLeftList := node.milliGpuLeftList[i := node.milliGpuLeftList[i] - pod.milliGpu])
  }

  function GainScore(sigmoid: real -> real, before: real, after: real): int {
    Trunc(sigmoid((before - after) / 1000.0) * MAX_NODE_SCORE as real)
  }

  /** The score of placing a share on device i: how much fragmentation it removes. */
  function DeviceScore(sigmoid: real -> real, node: NodeResource, pod: PodResource, pods: seq<TargetPod>, i: nat): int
    requires i < |node.milliGpuLeftList|
  {
    GainScore(sigmoid, SumExceptQ3(FragData(node, pods)), SumExceptQ3(FragData(Placed(node, pod, i), pods)))
  }

  /** The first of the devices with room whose score no other device with room beats. */
  ghost predicate BestScored(list: seq<int>, m: int, score: int -> int, n: nat, i: int)
    requires n <= |list|
  {
    && 0 <= i < n && m <= list[i]
    && forall j | 0 <= j < n && m <= list[j] :: score(j) < score(i) || (score(j) == score(i) && i <= j)
  }

  method NodeScore(node: NodeResource, pods: seq<TargetPod>) returns (score: real)
    ensures score == SumExceptQ3(FragData(node, pods))
  {
    var fa := NodeGpuShareFragAmount(node, pods);
    score := FragAmountSumExceptQ3(fa);
  }

  /** The text names the first device with room of the best score; no device if none has room. */
  ghost predicate NamesBest(list: seq<int>, m: int, score: int -> int, best: int, text: string) {
    if NoRoom(list, m, |list|) then best == 0 && text == ""
    else exists d | 0 <= d < |list| :: BestScored(list, m, score, |list|, d) && text == Itoa(d) && best == score(d)
  }

  method BestDevice(list: seq<int>, m: int, score: int -> int) returns (best: int, gpuId: string, ghost device: int)
    ensures if NoRoom(list, m, |list|) then best == 0 && gpuId == ""
            else BestScored(list, m, score, |list|, device) && gpuId == Itoa(device) && best == score(device)
    ensures NamesBest(list, m, score, best, gpuId)
  {
    gpuId, best, device := "", 0, -1;
    for i := 0 to |list|
      invariant if device == -1 then gpuId == "" && best == 0 && NoRoom(list, m, i)
                else BestScored(list, m, score, i, device) && gpuId == Itoa(device) && best == score(device)
    {
      if list[i] >= m {
        var fragScore := score(i);
        if gpuId == "" || fragScore > best {
          best := fragScore;
          gpuId := Itoa(i);
          device := i;
        }
      }
    }
  }

  function ScoreOf(sigmoid: real -> real, node: NodeResource, pod: PodResource, pods: seq<TargetPod>): int -> int {
    i => if 0 <= i < |node.milliGpuLeftList| then DeviceScore(sigmoid, node, pod, pods, i) else 0
  }

  // ----- what a better score means -------------------------------------------------------

  ghost predicate Increasing(f: real -> real) {
    forall x, y :: x < y ==> f(x) < f(y)
  }

  lemma TruncMonotone(x: real, y: real)
    requires x <= y
    ensures Trunc(x) <= Trunc(y)
  {
  }

  /** Less fragmentation afterwards never scores lower. */
  lemma GainMonotone(sigmoid: real -> real, before: real, a: real, b: real)
    requires Increasing(sigmoid) && a <= b
    ensures GainScore(sigmoid, before, b) <= GainScore(sigmoid, before, a)
  {
    var x, y := (before - b) / 1000.0, (before - a) / 1000.0;
    assert x <= y && sigmoid(x) <= sigmoid(y);
    TruncMonotone(sigmoid(x) * MAX_NODE_SCORE as real, sigmoid(y) * MAX_NODE_SCORE as real);
  }

  /** The scale of the score: were the sigmoid the identity, it would count the fragmentation
      removed in tens of milli. */
  lemma GainScale(before: real, after: real)
    ensures var removed, score := before - after, GainScore(x => x, before, after);
      if removed >= 0.0 then 10.0 * score as real <= removed < 10.0 * (score + 1) as real
      else 10.0 * (score - 1) as real < removed <= 10.0 * score as real
  {
    var removed := before - after;
    assert removed / 1000.0 * MAX_NODE_SCORE as real == removed / 10.0;
  }

  /** A sigmoid between 0 and 1 scores between 0 and 100. */
  lemma GainRange(sigmoid: real -> real, before: real, after: real)
    requires 0.0 <= sigmoid((before - after) / 1000.0) <= 1.0
    ensures 0 <= GainScore(sigmoid, before, after) <= 100
  {
    var x := sigmoid((before - after) / 1000.0) * MAX_NODE_SCORE as real;
    assert 0.0 <= x <= 100.0;
  }

  /** The fragmentation of the node once CPU and the share on device i are taken from it. */
  function FragAfter(node: NodeResource, pod: PodResource, pods: seq<TargetPod>, i: nat): real
    requires i < |node.milliGpuLeftList|
  {
    DirectScore(NodeResource(node.nodeName, node.milliCpuLeft - pod.milliCpu, node.milliCpuCapacity,
                             node.milliGpuLeftList[i := node.milliGpuLeftList[i] - pod.milliGpu],
                             node.gpuNumber, node.gpuType, node.gpuAffinity), pods)
  }

  lemma DeviceScoreIs(sigmoid: real -> real, node: NodeResource, pod: PodResource, pods: seq<TargetPod>, i: nat)
    requires ValidNode(node) && i < |node.milliGpuLeftList| && 0 <= pod.milliGpu <= node.milliGpuLeftList[i]
    ensures DeviceScore(sigmoid, node, pod, pods, i) ==
      GainScore(sigmoid, DirectScore(node, pods), FragAfter(node, pod, pods, i))
  {
    FragConserved(node, pods);
    FragConserved(Placed(node, pod, i), pods);
  }

  /** Of two devices with room, the one that leaves less fragmentation is not outscored. */
  lemma LessFragNotOutscored(sigmoid: real -> real, node: NodeResource, pod: PodResource, pods: seq<TargetPod>,
                             i: nat, j: nat)
    requires Increasing(sigmoid) && ValidNode(node) && 0 <= pod.milliGpu
    requires i < |node.milliGpuLeftList| && pod.milliGpu <= node.milliGpuLeftList[i]
    requires j < |node.milliGpuLeftList| && pod.milliGpu <= node.milliGpuLeftList[j]
    requires FragAfter(node, pod, pods, i) <= FragAfter(node, pod, pods, j)
    ensures DeviceScore(sigmoid, node, pod, pods, j) <= DeviceScore(sigmoid, node, pod, pods, i)
  {
    DeviceScoreIs(sigmoid, node, pod, pods, i);
    DeviceScoreIs(sigmoid, node, pod, pods, j);
    GainMonotone(sigmoid, DirectScore(node, pods), FragAfter(node, pod, pods, i), FragAfter(node, pod, pods, j));
  }

  /** The text names a device with room that leaves less fragmentation than every one before it;
      one behind it that leaves less still has the same whole score. */
  ghost predicate NamesLeastFrag(sigmoid: real -> real, node: NodeResource, pod: PodResource, pods: seq<TargetPod>,
                                 text: string) {
    exists d | 0 <= d < |node.milliGpuLeftList| :: LeastFrag(sigmoid, node, pod, pods, d) && text == Itoa(d)
  }

  ghost predicate LeastFrag(sigmoid: real -> real, node: NodeResource, pod: PodResource, pods: seq<TargetPod>, d: nat)
    requires d < |node.milliGpuLeftList|
  {
    && pod.milliGpu <= node.milliGpuLeftList[d]
    && forall j | 0 <= j < |node.milliGpuLeftList| && pod.milliGpu <= node.milliGpuLeftList[j] ::
         && (j < d ==> FragAfter(node, pod, pods, d) < FragAfter(node, pod, pods, j))
         && (FragAfter(node, pod, pods, j) < FragAfter(node, pod, pods, d) ==>
               GainScore(sigmoid, DirectScore(node, pods), FragAfter(node, pod, pods, j)) ==
               GainScore(sigmoid, DirectScore(node, pods), FragAfter(node, pod, pods, d)))
  }

  /** A valid node on which some device has room for the share. */
  predicate FitsSome(node: NodeResource, pod: PodResource) {
    ValidNode(node) && 0 <= pod.milliGpu && !NoRoom(node.milliGpuLeftList, pod.milliGpu, |node.milliGpuLeftList|)
  }

  lemma BestIsLeastFrag(sigmoid: real -> real, node: NodeResource, pod: PodResource, pods: seq<TargetPod>, d: nat)
    requires Increasing(sigmoid) && ValidNode(node) && 0 <= pod.milliGpu
    requires BestScored(node.milliGpuLeftList, pod.milliGpu, ScoreOf(sigmoid, node, pod, pods),
                        |node.milliGpuLeftList|, d)
    ensures d < |node.milliGpuLeftList| && LeastFrag(sigmoid, node, pod, pods, d)
  {
    var list, score := node.milliGpuLeftList, ScoreOf(sigmoid, node, pod, pods);
    DeviceScoreIs(sigmoid, node, pod, pods, d);
    forall j | 0 <= j < |list| && pod.milliGpu <= list[j]
      ensures j < d ==> FragAfter(node, pod, pods, d) < FragAfter(node, pod, pods, j)
      ensures FragAfter(node, pod, pods, j) < FragAfter(node, pod, pods, d) ==> score(j) == score(d)
      ensures score(j) == GainScore(sigmoid, DirectScore(node, pods), FragAfter(node, pod, pods, j))
    {
      DeviceScoreIs(sigmoid, node, pod, pods, j);
      if FragAfter(node, pod, pods, j) <= FragAfter(node, pod, pods, d) {
        LessFragNotOutscored(sigmoid, node, pod, pods, j, d);
      }
    }
  }

  /** For a share, the device that the score's text names leaves least fragmentation. */
  lemma ChosenLeavesLeast(sigmoid: real -> real, node: NodeResource, pod: PodResource, pods: seq<TargetPod>,
                          best: int, text: string)
    requires Increasing(sigmoid) && ValidNode(node) && 0 <= pod.milliGpu
    requires NamesBest(node.milliGpuLeftList, pod.milliGpu, ScoreOf(sigmoid, node, pod, pods), best, text)
    requires !NoRoom(node.milliGpuLeftList, pod.milliGpu, |node.milliGpuLeftList|)
    ensures NamesLeastFrag(sigmoid, node, pod, pods, text)
  {
    var list, score := node.milliGpuLeftList, ScoreOf(sigmoid, node, pod, pods);
    var d :| 0 <= d < |list| && BestScored(list, pod.milliGpu, score, |list|, d) && text == Itoa(d);
    BestIsLeastFrag(sigmoid, node, pod, pods, d);
  }

  /** A share goes to the device where placing it removes most fragmentation; the score of a
      whole-GPU pod is that of the node Sub leaves, and it gets the free devices. */
  method CalculateGpuShareFragExtendScore(sigmoid: real -> real, node: NodeResource, pod: PodResource,
                                          pods: seq<TargetPod>)
    returns (score: int, gpuId: Option<string>, ghost choice: Option<seq<int>>)
    ensures gpuId == TextOf(choice)
    ensures var list, value := node.milliGpuLeftList, ScoreOf(sigmoid, node, pod, pods);
      if !pod.IsGpuShare() then
        && choice == ExclusiveChoice(list, pod)
        && score == GainScore(sigmoid, SumExceptQ3(FragData(node, pods)),
                             SumExceptQ3(FragData(SubSpec(node, pod).node, pods)))
      else if NoRoom(list, pod.milliGpu, |list|) then
        choice == Some([]) && score == 0
      else
        && choice.Some? && |choice.value| == 1
        && BestScored(list, pod.milliGpu, value, |list|, choice.value[0])
        && score == value(choice.value[0])
    ensures pod.IsGpuShare() ==>
      gpuId.Some? &&
      NamesBest(node.milliGpuLeftList, pod.milliGpu, ScoreOf(sigmoid, node, pod, pods), score, gpuId.value)
    ensures pod.IsGpuShare() && Increasing(sigmoid) && FitsSome(node, pod) ==>
      NamesLeastFrag(sigmoid, node, pod, pods, gpuId.value)
  {
    if pod.IsGpuShare() {
      var text;
      ghost var device;
      score, text, device := BestDevice(node.milliGpuLeftList, pod.milliGpu, ScoreOf(sigmoid, node, pod, pods));
      if Increasing(sigmoid) && FitsSome(node, pod) {
        ChosenLeavesLeast(sigmoid, node, pod, pods, score, text);
      }
      choice := Some(if text == "" then [] else [device]);
      gpuId := Some(text);
    } else {
      var before := NodeScore(node, pods);
      var sub := Sub(node, pod);
      var after := NodeScore(sub.node, pods);
      score := GainScore(sigmoid, before, after);
      gpuId := AllocateExclusiveGpuId(node, pod);
      choice := ExclusiveChoice(node.milliGpuLeftList, pod);
    }
  }

  // ----- agreement -----------------------------------------------------------------------

  lemma {:induction false} FullFromMembers(list: seq<int>, d: nat)
    requires d <= |list|
    ensures forall i :: i in FullFrom(list, d) <==> d <= i < |list| && list[i] == MILLI
    decreases |list| - d
  {
    if d < |list| {
      FullFromMembers(list, d + 1);
    }
  }

  lemma {:induction false} FullFromRanked(list: seq<int>, d: nat)
    requires d <= |list|
    ensures Indices(list, FullFrom(list, d)) && Ranked(list, true, FullFrom(list, d))
    decreases |list| - d
  {
    if d < |list| {
      FullFromRanked(list, d + 1);
      FullFromMembers(list, d + 1);
      var rest := FullFrom(list, d + 1);
      if list[d] == MILLI {
        forall b | 0 <= b < |rest| ensures Before(list, true, d, rest[b]) {
          assert rest[b] in rest;
        }
      }
    }
  }

  /** For a whole-GPU request the devices that fit, tightest first, are the free ones in
      device order. */
  lemma FullIsFitOrder(list: seq<int>)
    requires forall i | 0 <= i < |list| :: list[i] <= MILLI
    ensures FullFrom(list, 0) == FitOrder(list, MILLI)
  {
    FullFromRanked(list, 0);
    FullFromMembers(list, 0);
    FitOrderMembers(list, MILLI);
    RankedUnique(list, true, FullFrom(list, 0), FitOrder(list, MILLI));
  }

  /** The greedy never stacks whole-GPU shares. */
  lemma {:induction false} GreedyIsFull(list: seq<int>, d: nat, k: nat)
    requires d <= |list| && forall i | 0 <= i < |list| :: 0 <= list[i] <= MILLI
    ensures GreedyFill(list, MILLI, d, k) == FullFrom(list, d)[..Min(k, |FullFrom(list, d)|)]
    decreases |list| - d
  {
    if d < |list| {
      var t := Min(k, Shares(list[d], MILLI));
      assert Shares(list[d], MILLI) == if list[d] == MILLI then 1 else 0;
      GreedyIsFull(list, d + 1, k - t);
      assert Repeat(d, 0) == [] && Repeat(d, 1) == [d];
      assert FullFrom(list, d + 1)[..0] == [];
    }
  }

  lemma {:induction false} WholeGpusOf(k: nat)
    ensures WholeGpus(MILLI * k) == k
  {
    if k > 0 {
      WholeGpusOf(k - 1);
    }
  }

  /** The source's pods: a share of a GPU is asked for one at a time. */
  predicate OneShare(pod: PodResource) {
    ValidPod(pod) && 0 < pod.gpuNumber && (pod.milliGpu < MILLI ==> pod.gpuNumber == 1)
  }

  /** The devices that all three allocators agree on: the tightest that fit. */
  function TightestIds(list: seq<int>, pod: PodResource): (r: seq<int>)
    requires 0 <= pod.gpuNumber <= |FitOrder(list, pod.milliGpu)|
  {
    FitOrder(list, pod.milliGpu)[..pod.gpuNumber]
  }

  /** For every valid node and every GPU pod that fits, the cache's allocator, the best-fit /
      exclusive allocator and Sub pick the same devices, in the same order, and the texts of
      the first two read back as that list. */
  lemma AllocatorsAgree(node: NodeResource, pod: PodResource)
    requires ValidNode(node) && OneShare(pod) && CanHost(node.milliGpuLeftList, pod)
    ensures var list := node.milliGpuLeftList;
      && pod.gpuNumber <= |FitOrder(list, pod.milliGpu)|
      && CacheChoice(list, pod.milliGpu, pod.gpuNumber) == Some(TightestIds(list, pod))
      && BestFitChoice(list, pod) == Some(TightestIds(list, pod))
      && ParseIds(JoinIds(TightestIds(list, pod))) == ParsedIds(TightestIds(list, pod), true)
      && Tightest(list, pod.milliGpu, TightestIds(list, pod))
      && (SubSpec(node, pod).ok <==> pod.milliCpu <= node.milliCpuLeft)
      && (SubSpec(node, pod).ok ==>
            SubSpec(node, pod).node.milliGpuLeftList == Lower(list, TightestIds(list, pod), pod.milliGpu))
  {
    var list, m, k := node.milliGpuLeftList, pod.milliGpu, pod.gpuNumber;
    FitOrderCount(list, m);
    FirstFitsAreTightest(list, m, k);
    SubSucceeds(node, pod);
    if pod.milliCpu <= node.milliCpuLeft {
      SubLowersFirstFits(node, pod);
    }
    if m == MILLI {
      FullIsFitOrder(list);
      GreedyIsFull(list, 0, k);
      WholeGpusOf(k);
    }
    IdsRoundTrip(TightestIds(list, pod));
  }

  /** When the pod does not fit, the cache offers nothing, best fit gives the empty text for a
      share and panics for whole GPUs, and Sub fails. */
  lemma AllocatorsRefuse(node: NodeResource, pod: PodResource)
    requires ValidNode(node) && OneShare(pod) && !CanHost(node.milliGpuLeftList, pod)
    ensures CacheChoice(node.milliGpuLeftList, pod.milliGpu, pod.gpuNumber) == None
    ensures BestFitChoice(node.milliGpuLeftList, pod) == if pod.milliGpu < MILLI then Some([]) else None
    ensures !SubSpec(node, pod).ok
  {
    var list, m, k := node.milliGpuLeftList, pod.milliGpu, pod.gpuNumber;
    FitOrderCount(list, m);
    SubSucceeds(node, pod);
    if m == MILLI {
      FullIsFitOrder(list);
      GreedyIsFull(list, 0, k);
      WholeGpusOf(k);
    }
  }

  /** The three allocators side by side: the cache's on its idle milli, Reserve's best-fit or
      exclusive one, and the one inside Sub. They serve the same pods, and the devices that the
      cache's text names are those that Reserve's text names and those that Sub lowers. */
  method AllocateThreeWays(idleGpus: map<int, int>, node: NodeResource, pod: PodResource)
    returns (found: bool, ids: ParsedIds, reserved: Option<string>, left: Outcome)
    requires ValidNode(node) && OneShare(pod) && 0 < node.gpuNumber && IdleAs(idleGpus, node.milliGpuLeftList)
    ensures found <==> CanHost(node.milliGpuLeftList, pod)
    ensures found ==>
      && ids.ok && |ids.idl| == pod.gpuNumber && Tightest(node.milliGpuLeftList, pod.milliGpu, ids.idl)
      && reserved == Some(JoinIds(ids.idl))
    ensures !found ==> reserved == if pod.milliGpu < MILLI then Some("") else None
    ensures left.ok <==> found && pod.milliCpu <= node.milliCpuLeft
    ensures left.ok ==>
      && Indices(node.milliGpuLeftList, ids.idl)
      && left.node.milliGpuLeftList == Lower(node.milliGpuLeftList, ids.idl, pod.milliGpu)
  {
    var list := node.milliGpuLeftList;
    if CanHost(list, pod) {
      AllocatorsAgree(node, pod);
    } else {
      AllocatorsRefuse(node, pod);
    }
    var text;
    text, found := AllocateOnIdle(idleGpus, node.gpuNumber, pod.gpuNumber, pod.milliGpu, list);
    ids := GpuIdStrToIntList(text);
    reserved := AllocateGpuIdBasedOnBestFit(node, pod);
    left := Sub(node, pod);
  }
}
