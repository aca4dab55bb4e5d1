/** Descheduling by fragmentation: take the node with the most recorded fragmentation, evict the
    pod whose leaving lowers it most, and put the node back with its new record. */
module Deschedule {
  import opened Allocators
  import opened Decimal
  import opened Frag
  import opened FragMemo
  import opened HeapOrder
  import opened Ledger
  import opened NodeKey
  import opened Resource
  import opened Seals
  import opened VictimQueue

  const NAME_DELIMITER := "/"

  function GeneratePodKey(pod: Pod): string {
    pod.namespace + NAME_DELIMITER + pod.name
  }

  /** A key names one pod by namespace and name, unless a namespace holds the delimiter. */
  lemma PodKeyIdentifies(p: Pod, q: Pod)
    requires '/' !in p.namespace && '/' !in q.namespace
    ensures GeneratePodKey(p) == GeneratePodKey(q) <==> p.namespace == q.namespace && p.name == q.name
  {
    var a, b := GeneratePodKey(p), GeneratePodKey(q);
    if a == b {
      assert a[|p.namespace|] == '/' && b[|q.namespace|] == '/';
      assert forall i | 0 <= i < |p.namespace| :: a[i] == p.namespace[i] && a[i] in p.namespace;
      assert forall i | 0 <= i < |q.namespace| :: b[i] == q.namespace[i] && b[i] in q.namespace;
      assert |p.namespace| == |q.namespace|;
      assert p.namespace == a[..|p.namespace|] && q.namespace == b[..|q.namespace|];
      assert p.name == a[|p.namespace| + 1..] && q.name == b[|q.namespace| + 1..];
    }
  }

  // ----- the victim on one node ------------------------------------------------------------

  /** The node once the pod has left it; None when its ids cannot be read or given back. */
  function Without(node: NodeResource, pod: Pod): Option<NodeResource> {
    if !pod.Ids().ok then None
    else
      var added := AddSpec(node, pod.Res(), pod.Ids().idl);
      if added.ok then Some(added.node) else None
  }

  /** The record of a node: its fragmentation against the typical pods, and the sum of it. */
  function RecordOf(node: NodeResource, typical: seq<TargetPod>): Entry {
    Entry(FragAmount(node.nodeName, FragData(node, typical)), SumExceptQ3(FragData(node, typical)))
  }

  /** How many whole milli of fragmentation the pod's leaving takes off the recorded sum; 0 for
      a pod that cannot be considered. */
  function Gain(recorded: real, node: NodeResource, typical: seq<TargetPod>, pod: Pod): int {
    match Without(node, pod)
    case None => 0
    case Some(rest) => Trunc(recorded - RecordOf(rest, typical).priority)
  }

  /** The first largest of the gains, if any is positive. */
  ghost predicate FirstBest(gains: seq<int>, best: Option<nat>) {
    match best
    case None => forall j | 0 <= j < |gains| :: gains[j] <= 0
    case Some(k) =>
      && k < |gains| && 0 < gains[k]
      && (forall j | 0 <= j < k :: gains[j] < gains[k])
      && (forall j | k < j < |gains| :: gains[j] <= gains[k])
  }

  /** The gains of the pods in order; sealed. */
  ghost predicate GainsOf(recorded: real, node: NodeResource, typical: seq<TargetPod>, pods: seq<Pod>,
                          gains: seq<int>) {
    |gains| == |pods| &&
    forall key {:trigger Open(GainsSeal, key)} :: Open(GainsSeal, key) ==>
      forall j | 0 <= j < |pods| :: gains[j] == Gain(recorded, node, typical, pods[j])
  }

  lemma GainsMean(recorded: real, node: NodeResource, typical: seq<TargetPod>, pods: seq<Pod>, gains: seq<int>)
    requires |gains| == |pods|
    ensures GainsOf(recorded, node, typical, pods, gains) <==>
      forall j | 0 <= j < |pods| :: gains[j] == Gain(recorded, node, typical, pods[j])
  {
    assert Open(GainsSeal, 0);
  }

  lemma GainsNext(recorded: real, node: NodeResource, typical: seq<TargetPod>, pods: seq<Pod>, gains: seq<int>, p: Pod,
                  g: int)
    requires GainsOf(recorded, node, typical, pods, gains) && g == Gain(recorded, node, typical, p)
    ensures GainsOf(recorded, node, typical, pods + [p], gains + [g])
  {
  }

  /** The victim is the first pod of the largest gain, if any pod gains; the node without it has
      the new record. */
  ghost predicate BestVictim(recorded: real, node: NodeResource, typical: seq<TargetPod>, pods: seq<Pod>,
                             victim: Option<Pod>, left: FragAmount) {
    exists gains, best ::
      && GainsOf(recorded, node, typical, pods, gains) && FirstBest(gains, best)
      && match best
         case None => victim == None
         case Some(k) => victim == Some(pods[k]) && Leaves(node, typical, pods[k], left)
  }

  predicate LeftBy(node: NodeResource, typical: seq<TargetPod>, pod: Pod, left: FragAmount) {
    Without(node, pod).Some? && left == RecordOf(Without(node, pod).value, typical).value
  }

  /** LeftBy, sealed. */
  ghost predicate Leaves(node: NodeResource, typical: seq<TargetPod>, pod: Pod, left: FragAmount) {
    forall key {:trigger Open(LeavesSeal, key)} :: Open(LeavesSeal, key) ==> LeftBy(node, typical, pod, left)
  }

  lemma LeavesMeans(node: NodeResource, typical: seq<TargetPod>, pod: Pod, left: FragAmount)
    ensures Leaves(node, typical, pod, left) <==> LeftBy(node, typical, pod, left)
  {
    assert Open(LeavesSeal, 0);
  }

  /** The victim is a pod with a positive gain that no other pod exceeds. */
  lemma VictimLeads(recorded: real, node: NodeResource, typical: seq<TargetPod>, pods: seq<Pod>, victim: Pod,
                    left: FragAmount)
    requires BestVictim(recorded, node, typical, pods, Some(victim), left)
    ensures victim in pods && LeftBy(node, typical, victim, left)
    ensures 0 < Gain(recorded, node, typical, victim)
    ensures forall p | p in pods :: Gain(recorded, node, typical, p) <= Gain(recorded, node, typical, victim)
  {
    var gains: seq<int>, best: Option<nat> :|
      && GainsOf(recorded, node, typical, pods, gains) && FirstBest(gains, best)
      && match best
         case None => false
         case Some(k) => victim == pods[k] && Leaves(node, typical, pods[k], left);
    GainsMean(recorded, node, typical, pods, gains);
    LeavesMeans(node, typical, victim, left);
    forall p | p in pods ensures Gain(recorded, node, typical, p) <= Gain(recorded, node, typical, victim) {
      var j :| 0 <= j < |pods| && pods[j] == p;
      assert gains[j] <= gains[best.value];
    }
  }

  lemma AddIdsInRange(list: seq<int>, m: int, idl: seq<int>)
    requires 0 <= m && AddIds(list, m, idl).ok && forall i | 0 <= i < |list| :: 0 <= list[i] <= MILLI
    ensures forall i | 0 <= i < |list| :: 0 <= AddIds(list, m, idl).list[i] <= MILLI
    decreases idl
  {
    if idl != [] {
      AddIdsInRange(list[idl[0] := list[idl[0]] + m], m, idl[1..]);
    }
  }

  lemma WithoutKeepsGpus(node: NodeResource, pod: Pod)
    requires UpToEightGpus(node) && 0 <= pod.gpuMilli && Without(node, pod).Some?
    ensures UpToEightGpus(Without(node, pod).value) && Without(node, pod).value.nodeName == node.nodeName
  {
    if pod.gpuCount != 0 {
      AddIdsInRange(node.milliGpuLeftList, pod.gpuMilli, pod.Ids().idl);
    }
  }

  predicate GoodPods(pods: seq<Pod>) {
    forall p | p in pods :: 0 <= p.gpuMilli
  }

  /** One pod's gain, through the memo. */
  method GainOf(sim: Simulator, recorded: real, node: NodeResource, pod: Pod) returns (score: int, fa: FragAmount)
    requires sim.Valid() && sim.typicalPods != [] && UpToEightGpus(node) && 0 <= pod.gpuMilli
    modifies sim`fragMemo
    ensures sim.Valid()
    ensures score == Gain(recorded, node, sim.typicalPods, pod)
    ensures 0 < score ==> Leaves(node, sim.typicalPods, pod, fa)
  {
    score, fa := 0, FragAmount("", []);
    var parsed := GpuIdStrToIntList(pod.gpuIndex);
    if !parsed.ok {
      return;
    }
    var newNode := Add(node, pod.Res(), parsed.idl);
    if !newNode.ok {
      return;
    }
    WithoutKeepsGpus(node, pod);
    EightAreSmall(newNode.node);
    fa := sim.NodeGpuFragAmount(newNode.node);
    var after := FragAmountSumExceptQ3(fa);
    score := Trunc(recorded - after);
    LeavesMeans(node, sim.typicalPods, pod, fa);
  }

  method FindVictimPodOnNodeFragAware(sim: Simulator, nodeGpuFrag: FragAmount, node: NodeResource, pods: seq<Pod>)
    returns (victim: Option<Pod>, victimNodeGpuFrag: FragAmount)
    requires sim.Valid() && sim.typicalPods != [] && UpToEightGpus(node) && GoodPods(pods)
    requires |nodeGpuFrag.data| == BUCKETS
    modifies sim`fragMemo
    ensures sim.Valid()
    ensures BestVictim(SumExceptQ3(nodeGpuFrag.data), node, sim.typicalPods, pods, victim, victimNodeGpuFrag)
  {
    victim, victimNodeGpuFrag := None, FragAmount("", []);
    var recorded := FragAmountSumExceptQ3(nodeGpuFrag);
    var victimScore := 0;
    ghost var gains, best: Option<nat> := [], None;
    for k := 0 to |pods|
      invariant sim.Valid() && GainsOf(recorded, node, sim.typicalPods, pods[..k], gains)
      invariant FirstBest(gains, best) && victimScore == if best.Some? then gains[best.value] else 0
      invariant match best
                case None => victim == None
                case Some(b) => victim == Some(pods[b]) && Leaves(node, sim.typicalPods, pods[b], victimNodeGpuFrag)
    {
      var score, newNodeGpuFrag := GainOf(sim, recorded, node, pods[k]);
      GainsNext(recorded, node, sim.typicalPods, pods[..k], gains, pods[k], score);
      assert pods[..k + 1] == pods[..k] + [pods[k]];
      gains := gains + [score];
      if score > victimScore {
        victimScore, victim, victimNodeGpuFrag := score, Some(pods[k]), newNodeGpuFrag;
        best := Some(k);
      }
    }
    assert pods[..|pods|] == pods;
  }

  // ----- rounds over the queue -----------------------------------------------------------------

  /** One pop: the queue's content before it, the record taken, the pods the node had left, and
      the victim with the node's new record, if any. */
  datatype Round = Round(before: multiset<Entry>, taken: Entry, pods: seq<Pod>, victim: Option<Pod>, left: FragAmount)

  function After(r: Round): multiset<Entry> {
    r.before - multiset{r.taken} + if r.victim.Some? then multiset{NewEntry(r.left)} else multiset{}
  }

  function NewEntry(fa: FragAmount): Entry {
    Entry(fa, if |fa.data| == BUCKETS then SumExceptQ3(fa.data) else 0.0)
  }

  type Nodes = map<string, NodeResource>

  predicate GoodNodes(nodes: Nodes) {
    forall n | n in nodes :: UpToEightGpus(nodes[n]) && nodes[n].nodeName == n
  }

  predicate GoodEntry(nodes: Nodes, e: Entry) {
    |e.value.data| == BUCKETS && e == NewEntry(e.value) && e.value.nodeName in nodes
  }

  /** The round takes a largest record, and what it evicts is the node's best victim. */
  ghost predicate RoundOk(nodes: Nodes, typical: seq<TargetPod>, r: Round) {
    && r.taken in r.before && GoodEntry(nodes, r.taken)
    && (forall e | e in r.before :: e.priority <= r.taken.priority)
    && BestVictim(r.taken.priority, nodes[r.taken.value.nodeName], typical, r.pods, r.victim, r.left)
  }

  /** An eviction lowers the node's record by at least one milli, and no other pod's leaving would
      leave it a milli lower. */
  lemma EvictionLowers(nodes: Nodes, typical: seq<TargetPod>, r: Round)
    requires GoodNodes(nodes) && RoundOk(nodes, typical, r) && r.victim.Some? && GoodPods(r.pods)
    ensures r.victim.value in r.pods
    ensures GoodEntry(nodes, NewEntry(r.left)) && r.left.nodeName == r.taken.value.nodeName
    ensures NewEntry(r.left).priority + 1.0 <= r.taken.priority
    ensures forall p | p in r.pods && Without(nodes[r.taken.value.nodeName], p).Some? ::
      NewEntry(r.left).priority < RecordOf(Without(nodes[r.taken.value.nodeName], p).value, typical).priority + 1.0
  {
    var node := nodes[r.taken.value.nodeName];
    VictimLeads(r.taken.priority, node, typical, r.pods, r.victim.value, r.left);
    WithoutKeepsGpus(node, r.victim.value);
    TruncAtLeastOne(r.taken.priority - NewEntry(r.left).priority);
    forall p | p in r.pods && Without(node, p).Some?
      ensures NewEntry(r.left).priority < RecordOf(Without(node, p).value, typical).priority + 1.0
    {
      TruncsDiffer(r.taken.priority, NewEntry(r.left).priority, RecordOf(Without(node, p).value, typical).priority);
    }
  }

  /** Whole gains tell the records apart up to one milli. */
  lemma TruncsDiffer(recorded: real, best: real, other: real)
    requires 0 < Trunc(recorded - best) && Trunc(recorded - other) <= Trunc(recorded - best)
    ensures best < other + 1.0
  {
  }

  lemma TruncAtLeastOne(x: real)
    ensures 0 < Trunc(x) ==> 1.0 <= x
  {
  }

  /** When a round evicts nothing, no pod left on the node would lower its record by a milli. */
  lemma NothingToGain(nodes: Nodes, typical: seq<TargetPod>, r: Round)
    requires RoundOk(nodes, typical, r) && r.victim == None
    ensures forall p | p in r.pods :: Gain(r.taken.priority, nodes[r.taken.value.nodeName], typical, p) <= 0
    ensures forall p | p in r.pods && Without(nodes[r.taken.value.nodeName], p).Some? ::
      r.taken.priority < RecordOf(Without(nodes[r.taken.value.nodeName], p).value, typical).priority + 1.0
  {
    var node := nodes[r.taken.value.nodeName];
    var gains: seq<int>, best: Option<nat> :|
      && GainsOf(r.taken.priority, node, typical, r.pods, gains) && FirstBest(gains, best)
      && match best
         case None => r.victim == None
         case Some(k) => r.victim == Some(r.pods[k]) && Leaves(node, typical, r.pods[k], r.left);
    GainsMean(r.taken.priority, node, typical, r.pods, gains);
  }

  type PodsByNode = map<string, seq<Pod>>

  function PodsOn(pods: PodsByNode, n: string): seq<Pod> {
    if n in pods then pods[n] else []
  }

  ghost predicate QueueReady(queue: PriorityQueue, nodes: Nodes)
    reads queue, queue.repr
  {
    queue.Valid() && IsHeap(Rank, queue.entries) && forall e | e in queue.entries :: GoodEntry(nodes, e)
  }

  method TakeLargest(queue: PriorityQueue, nodes: Nodes) returns (item: Item, ghost taken: Entry)
    requires QueueReady(queue, nodes) && 0 < |queue.items|
    modifies queue, queue.repr
    ensures QueueReady(queue, nodes) && item in old(queue.repr) && queue.repr == old(queue.repr) - {item}
    ensures taken == Entry(item.value, item.priority) && GoodEntry(nodes, taken)
    ensures |queue.items| == |old(queue.items)| - 1
    ensures multiset(queue.entries) == multiset(old(queue.entries)) - multiset{taken}
    ensures taken in multiset(old(queue.entries))
    ensures forall e | e in multiset(old(queue.entries)) :: e.priority <= taken.priority
  {
    ghost var before := queue.entries;
    item := queue.PopLargest();
    taken := Entry(item.value, item.priority);
    TakenFrom(before, taken, queue.entries);
  }

  method PutBack(queue: PriorityQueue, nodes: Nodes, item: Item, fa: FragAmount)
    requires QueueReady(queue, nodes) && item !in queue.repr && GoodEntry(nodes, NewEntry(fa))
    modifies queue, queue.repr, item
    ensures QueueReady(queue, nodes) && queue.repr == old(queue.repr) + {item}
    ensures |queue.items| == |old(queue.items)| + 1
    ensures multiset(queue.entries) == multiset(old(queue.entries)) + multiset{NewEntry(fa)}
  {
    ghost var rest := queue.entries;
    item.value := fa;
    item.priority := FragAmountSumExceptQ3(fa);
    queue.Push(item);
    PutTo(rest, NewEntry(fa), queue.entries);
  }

  /** One turn of the loop: pop the largest record, evict the node's best victim, and push the
      node back with its new record. A node without a victim stays out. */
  method EvictOne(sim: Simulator, queue: PriorityQueue, nodes: Nodes, pods: PodsByNode)
    returns (victim: Option<Pod>, node: string, ghost round: Round)
    requires sim.Valid() && sim.typicalPods != [] && GoodNodes(nodes) && AllGood(pods)
    requires QueueReady(queue, nodes) && 0 < |queue.items|
    modifies sim`fragMemo, queue, queue.repr
    ensures sim.Valid() && QueueReady(queue, nodes) && queue.repr <= old(queue.repr)
    ensures |queue.items| == |old(queue.items)| - if victim.Some? then 0 else 1
    ensures RoundOk(nodes, sim.typicalPods, round)
    ensures round.before == multiset(old(queue.entries)) && multiset(queue.entries) == After(round)
    ensures round.victim == victim && round.taken.value.nodeName == node && round.pods == PodsOn(pods, node)
  {
    ghost var before := multiset(queue.entries);
    var item;
    ghost var taken;
    item, taken := TakeLargest(queue, nodes);
    node := item.value.nodeName;
    var victimNodeGpuFrag;
    victim, victimNodeGpuFrag := FindVictimPodOnNodeFragAware(sim, item.value, nodes[node], PodsOn(pods, node));
    round := Round(before, taken, PodsOn(pods, node), victim, victimNodeGpuFrag);
    if victim.Some? {
      EvictionLowers(nodes, sim.typicalPods, round);
      PutBack(queue, nodes, item, victimNodeGpuFrag);
    }
  }

  lemma TakenFrom(before: seq<Entry>, taken: Entry, rest: seq<Entry>)
    requires multiset(before) == multiset(rest) + multiset{taken}
    ensures |rest| == |before| - 1 && taken in before && taken in multiset(before)
    ensures forall e | e in rest :: e in before
    ensures forall e | e in multiset(before) :: e in before
    ensures multiset(before) - multiset{taken} == multiset(rest)
  {
    assert |multiset(before)| == |before| && |multiset(rest)| == |rest|;
    assert taken in multiset(before);
    forall e | e in rest ensures e in before {
      assert e in multiset(before);
    }
  }

  lemma PutTo(rest: seq<Entry>, e: Entry, after: seq<Entry>)
    requires multiset(after) == multiset(rest) + multiset{e}
    ensures |after| == |rest| + 1
    ensures forall x | x in after :: x in rest || x == e
  {
    assert |multiset(after)| == |after| && |multiset(rest)| == |rest|;
    forall x | x in after ensures x in rest || x == e {
      assert x in multiset(after);
    }
  }

  // ----- the whole loop ------------------------------------------------------------------------

  /** The rounds lead from one queue content to another, each taking up where the last ended. */
  ghost predicate Chained(start: multiset<Entry>, rounds: seq<Round>, end: multiset<Entry>) {
    if rounds == [] then start == end
    else
      var last := |rounds| - 1;
      Chained(start, rounds[..last], rounds[last].before) && After(rounds[last]) == end
  }

  /** The keys of the victims, in order of eviction. */
  function Victims(rounds: seq<Round>): seq<string> {
    if rounds == [] then []
    else
      var last := rounds[|rounds| - 1];
      Victims(rounds[..|rounds| - 1]) + if last.victim.Some? then [GeneratePodKey(last.victim.value)] else []
  }

  ghost predicate RoundsOk(nodes: Nodes, typical: seq<TargetPod>, rounds: seq<Round>) {
    forall k | 0 <= k < |rounds| :: RoundOk(nodes, typical, rounds[k])
  }

  lemma OneMoreRound(nodes: Nodes, typical: seq<TargetPod>, start: multiset<Entry>, rounds: seq<Round>, r: Round)
    requires RoundsOk(nodes, typical, rounds) && RoundOk(nodes, typical, r) && Chained(start, rounds, r.before)
    ensures RoundsOk(nodes, typical, rounds + [r]) && Chained(start, rounds + [r], After(r))
    ensures Victims(rounds + [r]) == Victims(rounds) + if r.victim.Some? then [GeneratePodKey(r.victim.value)] else []
  {
    FrontIs(rounds, r);
    AllRoundsOk(nodes, typical, rounds, r);
  }

  lemma FrontIs<T>(s: seq<T>, x: T)
    ensures (s + [x])[..|s|] == s && (s + [x])[|s|] == x
  {
  }

  lemma AllRoundsOk(nodes: Nodes, typical: seq<TargetPod>, rounds: seq<Round>, r: Round)
    requires RoundsOk(nodes, typical, rounds) && RoundOk(nodes, typical, r)
    ensures RoundsOk(nodes, typical, rounds + [r])
  {
  }

  ghost predicate AllGood(pods: PodsByNode) {
    forall n :: GoodPods(PodsOn(pods, n))
  }

  predicate On(pods: PodsByNode, n: string, p: Pod) {
    p in PodsOn(pods, n)
  }

  /** Each key names one pod on one node. */
  ghost predicate UniqueKeys(pods: PodsByNode) {
    forall n, m, p, q | On(pods, n, p) && On(pods, m, q) && GeneratePodKey(p) == GeneratePodKey(q) :: n == m && p == q
  }

  /** The pods still on their nodes: some of the first ones, and none whose key was evicted. */
  ghost predicate StillThere(first: PodsByNode, pods: PodsByNode, keys: seq<string>) {
    forall n, p | On(pods, n, p) :: On(first, n, p) && GeneratePodKey(p) !in keys
  }

  predicate DistinctKeys(keys: seq<string>) {
    forall i, j | 0 <= i < j < |keys| :: keys[i] != keys[j]
  }

  function RemovePodFromPodSlice(pods: seq<Pod>, pod: Pod): seq<Pod> {
    if pods == [] then []
    else
      var front := RemovePodFromPodSlice(pods[..|pods| - 1], pod);
      if pods[|pods| - 1] != pod then front + [pods[|pods| - 1]] else front
  }

  lemma {:induction false} RemovedMembers(pods: seq<Pod>, pod: Pod, p: Pod)
    ensures p in RemovePodFromPodSlice(pods, pod) <==> p in pods && p != pod
  {
    if pods != [] {
      var k := |pods| - 1;
      RemovedMembers(pods[..k], pod, p);
      assert pods == pods[..k] + [pods[k]];
    }
  }

  method RemovePodFromPodSliceByPod(pods: seq<Pod>, pod: Pod) returns (ret: seq<Pod>)
    ensures ret == RemovePodFromPodSlice(pods, pod)
  {
    ret := [];
    for k := 0 to |pods|
      invariant ret == RemovePodFromPodSlice(pods[..k], pod)
    {
      assert pods[..k + 1][..k] == pods[..k];
      if pods[k] != pod {
        ret := ret + [pods[k]];
      }
    }
    assert pods[..|pods|] == pods;
  }

  lemma Evicted(first: PodsByNode, pods: PodsByNode, keys: seq<string>, n: string, victim: Pod)
    requires UniqueKeys(first) && StillThere(first, pods, keys) && DistinctKeys(keys)
    requires victim in PodsOn(pods, n)
    ensures StillThere(first, pods[n := RemovePodFromPodSlice(PodsOn(pods, n), victim)],
                       keys + [GeneratePodKey(victim)])
    ensures DistinctKeys(keys + [GeneratePodKey(victim)])
  {
    var pods' := pods[n := RemovePodFromPodSlice(PodsOn(pods, n), victim)];
    assert On(pods, n, victim) && On(first, n, victim);
    forall m, p | On(pods', m, p)
      ensures On(first, m, p) && GeneratePodKey(p) !in keys + [GeneratePodKey(victim)]
    {
      RemovedMembers(PodsOn(pods, n), victim, p);
      assert On(pods, m, p);
    }
  }

  lemma StillGood(first: PodsByNode, pods: PodsByNode, keys: seq<string>)
    requires StillThere(first, pods, keys) && AllGood(first)
    ensures AllGood(pods)
  {
    forall n ensures GoodPods(PodsOn(pods, n)) {
      assert GoodPods(PodsOn(first, n));
      forall p | p in PodsOn(pods, n) ensures 0 <= p.gpuMilli {
        assert On(pods, n, p);
      }
    }
  }

  /** The queue's first content: one record for every node. */
  ghost predicate RecordsAll(nodes: Nodes, typical: seq<TargetPod>, entries: seq<Entry>) {
    && |entries| == |nodes|
    && (forall e | e in entries :: e.value.nodeName in nodes && e == RecordOf(nodes[e.value.nodeName], typical))
    && forall n | n in nodes :: RecordOf(nodes[n], typical) in entries
  }

  method NewItem(sim: Simulator, node: NodeResource, i: int) returns (item: Item)
    requires sim.Valid() && sim.typicalPods != [] && UpToEightGpus(node)
    modifies sim`fragMemo
    ensures sim.Valid() && fresh(item)
    ensures item.index == i && Entry(item.value, item.priority) == RecordOf(node, sim.typicalPods)
  {
    EightAreSmall(node);
    var v := sim.NodeGpuFragAmount(node);
    var priority := FragAmountSumExceptQ3(v);
    item := new Item(v, priority, i);
  }

  /** The records of the nodes not in names. */
  ghost predicate RecordsBut(nodes: Nodes, names: set<string>, typical: seq<TargetPod>, entries: seq<Entry>) {
    && names <= nodes.Keys && |entries| + |names| == |nodes|
    && (forall e | e in entries :: e.value.nodeName in nodes && e == RecordOf(nodes[e.value.nodeName], typical))
    && forall n | n in nodes && n !in names :: RecordOf(nodes[n], typical) in entries
  }

  lemma OneMoreRecord(nodes: Nodes, names: set<string>, typical: seq<TargetPod>, entries: seq<Entry>, n: string)
    requires GoodNodes(nodes) && RecordsBut(nodes, names, typical, entries) && n in names
    ensures RecordsBut(nodes, names - {n}, typical, entries + [RecordOf(nodes[n], typical)])
  {
  }

  /** The items so far, each at the position it knows, hold the entries. */
  ghost predicate ItemsHold(items: seq<Item>, entries: seq<Entry>)
    reads items
  {
    && |items| == |entries|
    && forall i | 0 <= i < |items| ::
         items[i].index == i && Entry(items[i].value, items[i].priority) == entries[i]
  }

  /** One item for each node, in the order in which the map gives them. */
  method BuildItems(sim: Simulator, nodes: Nodes) returns (items: seq<Item>, ghost entries: seq<Entry>)
    requires sim.Valid() && sim.typicalPods != [] && GoodNodes(nodes)
    modifies sim`fragMemo
    ensures sim.Valid() && RecordsAll(nodes, sim.typicalPods, entries)
    ensures ItemsHold(items, entries) && forall x | x in items :: fresh(x)
  {
    items, entries := [], [];
    var names := nodes.Keys;
    while names != {}
      invariant sim.Valid() && RecordsBut(nodes, names, sim.typicalPods, entries)
      invariant ItemsHold(items, entries) && forall x | x in items :: fresh(x)
      decreases names
    {
      var n :| n in names;
      OneMoreRecord(nodes, names, sim.typicalPods, entries, n);
      names := names - {n};
      var item := NewItem(sim, nodes[n], |items|);
      items := items + [item];
      entries := entries + [RecordOf(nodes[n], sim.typicalPods)];
    }
  }

  method BuildQueue(sim: Simulator, nodes: Nodes) returns (queue: PriorityQueue)
    requires sim.Valid() && sim.typicalPods != [] && GoodNodes(nodes)
    modifies sim`fragMemo
    ensures sim.Valid() && fresh(queue) && fresh(queue.repr) && QueueReady(queue, nodes)
    ensures RecordsAll(nodes, sim.typicalPods, queue.entries)
  {
    var items;
    ghost var entries;
    items, entries := BuildItems(sim, nodes);
    queue := new PriorityQueue(items, entries);
    queue.Init();
    SameRecords(nodes, sim.typicalPods, entries, queue.entries);
  }

  lemma SameRecords(nodes: Nodes, typical: seq<TargetPod>, a: seq<Entry>, b: seq<Entry>)
    requires GoodNodes(nodes) && RecordsAll(nodes, typical, a) && multiset(a) == multiset(b)
    ensures RecordsAll(nodes, typical, b) && forall e | e in b :: GoodEntry(nodes, e)
  {
    assert |multiset(a)| == |a| && |multiset(b)| == |b|;
    forall e ensures e in a <==> e in b {
      assert e in a <==> e in multiset(a);
      assert e in b <==> e in multiset(b);
    }
  }

  /** The pods on the nodes once the victims of the rounds have left. */
  function PodsAfter(first: PodsByNode, rounds: seq<Round>): PodsByNode {
    if rounds == [] then first
    else
      var before, last := PodsAfter(first, rounds[..|rounds| - 1]), rounds[|rounds| - 1];
      var n := last.taken.value.nodeName;
      if last.victim.None? then before
      else before[n := RemovePodFromPodSlice(PodsOn(before, n), last.victim.value)]
  }

  /** Each round chose among the pods that the rounds before it had left on its node. */
  ghost predicate Offered(first: PodsByNode, rounds: seq<Round>) {
    forall k | 0 <= k < |rounds| ::
      rounds[k].pods == PodsOn(PodsAfter(first, rounds[..k]), rounds[k].taken.value.nodeName)
  }

  lemma OneMoreOffered(first: PodsByNode, rounds: seq<Round>, r: Round)
    requires Offered(first, rounds) && r.pods == PodsOn(PodsAfter(first, rounds), r.taken.value.nodeName)
    ensures Offered(first, rounds + [r])
  {
    forall k | 0 <= k < |rounds| + 1
      ensures (rounds + [r])[k].pods ==
        PodsOn(PodsAfter(first, (rounds + [r])[..k]), (rounds + [r])[k].taken.value.nodeName)
    {
      assert (rounds + [r])[..k] == rounds[..k];
      assert rounds[..|rounds|] == rounds;
    }
  }

  /** What the turns so far have come to: rounds that are in order from the first queue content,
      their victims in order, and the pods still on the nodes. */
  ghost predicate TrackOf(nodes: Nodes, typical: seq<TargetPod>, start: multiset<Entry>, rounds: seq<Round>,
                          now: multiset<Entry>, first: PodsByNode, pods: PodsByNode, keys: seq<string>) {
    && RoundsOk(nodes, typical, rounds) && Chained(start, rounds, now)
    && keys == Victims(rounds) && DistinctKeys(keys)
    && pods == PodsAfter(first, rounds) && Offered(first, rounds)
    && StillThere(first, pods, keys)
  }

  /** TrackOf, sealed. */
  ghost predicate Track(nodes: Nodes, typical: seq<TargetPod>, start: multiset<Entry>, rounds: seq<Round>,
                        now: multiset<Entry>, first: PodsByNode, pods: PodsByNode, keys: seq<string>) {
    forall key {:trigger Open(TrackSeal, key)} ::
      Open(TrackSeal, key) ==> TrackOf(nodes, typical, start, rounds, now, first, pods, keys)
  }

  lemma TrackMeans(nodes: Nodes, typical: seq<TargetPod>, start: multiset<Entry>, rounds: seq<Round>,
                   now: multiset<Entry>, first: PodsByNode, pods: PodsByNode, keys: seq<string>)
    ensures Track(nodes, typical, start, rounds, now, first, pods, keys) <==>
            TrackOf(nodes, typical, start, rounds, now, first, pods, keys)
  {
    assert Open(TrackSeal, 0);
  }

  lemma PodsAfterNext(first: PodsByNode, rounds: seq<Round>, r: Round)
    ensures PodsAfter(first, rounds + [r]) ==
      var before, n := PodsAfter(first, rounds), r.taken.value.nodeName;
      if r.victim.None? then before else before[n := RemovePodFromPodSlice(PodsOn(before, n), r.victim.value)]
  {
    assert (rounds + [r])[..|rounds|] == rounds;
  }

  lemma TrackStays(nodes: Nodes, typical: seq<TargetPod>, start: multiset<Entry>, rounds: seq<Round>, r: Round,
                   first: PodsByNode, pods: PodsByNode, keys: seq<string>)
    requires Track(nodes, typical, start, rounds, r.before, first, pods, keys)
    requires RoundOk(nodes, typical, r) && r.victim.None? && r.pods == PodsOn(pods, r.taken.value.nodeName)
    ensures Track(nodes, typical, start, rounds + [r], After(r), first, pods, keys)
  {
    TrackMeans(nodes, typical, start, rounds, r.before, first, pods, keys);
    OneMoreRound(nodes, typical, start, rounds, r);
    OneMoreOffered(first, rounds, r);
    PodsAfterNext(first, rounds, r);
    TrackMeans(nodes, typical, start, rounds + [r], After(r), first, pods, keys);
  }

  lemma TrackEvicts(nodes: Nodes, typical: seq<TargetPod>, start: multiset<Entry>, rounds: seq<Round>, r: Round,
                    first: PodsByNode, pods: PodsByNode, keys: seq<string>, pods': PodsByNode)
    requires UniqueKeys(first) && Track(nodes, typical, start, rounds, r.before, first, pods, keys)
    requires RoundOk(nodes, typical, r) && r.pods == PodsOn(pods, r.taken.value.nodeName)
    requires r.victim.Some? && r.victim.value in r.pods
    requires pods' == pods[r.taken.value.nodeName := RemovePodFromPodSlice(r.pods, r.victim.value)]
    ensures Track(nodes, typical, start, rounds + [r], After(r), first, pods', keys + [GeneratePodKey(r.victim.value)])
  {
    TrackMeans(nodes, typical, start, rounds, r.before, first, pods, keys);
    OneMoreRound(nodes, typical, start, rounds, r);
    OneMoreOffered(first, rounds, r);
    PodsAfterNext(first, rounds, r);
    Evicted(first, pods, keys, r.taken.value.nodeName, r.victim.value);
    TrackMeans(nodes, typical, start, rounds + [r], After(r), first, pods', keys + [GeneratePodKey(r.victim.value)]);
  }

  lemma TrackGood(nodes: Nodes, typical: seq<TargetPod>, start: multiset<Entry>, rounds: seq<Round>,
                  now: multiset<Entry>, first: PodsByNode, pods: PodsByNode, keys: seq<string>)
    requires Track(nodes, typical, start, rounds, now, first, pods, keys) && AllGood(first)
    ensures AllGood(pods)
  {
    TrackMeans(nodes, typical, start, rounds, now, first, pods, keys);
    StillGood(first, pods, keys);
  }

  /** The body of the loop. */
  method Turn(sim: Simulator, queue: PriorityQueue, nodes: Nodes, ghost first: PodsByNode, pods: PodsByNode,
              keys: seq<string>, ghost start: multiset<Entry>, ghost rounds: seq<Round>)
    returns (pods': PodsByNode, keys': seq<string>, ghost rounds': seq<Round>)
    requires sim.Valid() && sim.typicalPods != [] && GoodNodes(nodes) && UniqueKeys(first) && AllGood(first)
    requires QueueReady(queue, nodes) && 0 < |queue.items|
    requires Track(nodes, sim.typicalPods, start, rounds, multiset(queue.entries), first, pods, keys)
    modifies sim`fragMemo, queue, queue.repr
    ensures sim.Valid() && QueueReady(queue, nodes) && queue.repr <= old(queue.repr)
    ensures Track(nodes, sim.typicalPods, start, rounds', multiset(queue.entries), first, pods', keys')
    ensures |keys'| == |keys| + 1 || (|keys'| == |keys| && |queue.items| < |old(queue.items)|)
  {
    TrackGood(nodes, sim.typicalPods, start, rounds, multiset(queue.entries), first, pods, keys);
    var victim, node;
    ghost var round;
    victim, node, round := EvictOne(sim, queue, nodes, pods);
    pods', keys', rounds' := pods, keys, rounds + [round];
    if victim.Some? {
      EvictionLowers(nodes, sim.typicalPods, round);
      keys' := keys + [GeneratePodKey(victim.value)];
      var newPods := RemovePodFromPodSliceByPod(PodsOn(pods, node), victim.value);
      pods' := pods[node := newPods];
      TrackEvicts(nodes, sim.typicalPods, start, rounds, round, first, pods, keys, pods');
    } else {
      TrackStays(nodes, sim.typicalPods, start, rounds, round, first, pods, keys);
    }
  }

  /** The loop ends, since a turn spends the budget or shrinks the queue. It evicts at most the
      budgeted number of pods, no pod twice, and every turn takes a largest record; it stops
      short of the budget only when the queue is empty. */
  method DescheduleClusterOnFragMultiPod(sim: Simulator, budget: int, nodeStatus: PodsByNode, nodes: Nodes)
    returns (descheduledPodKeys: seq<string>, ghost start: seq<Entry>, ghost rounds: seq<Round>,
             ghost end: multiset<Entry>)
    requires sim.Valid() && sim.typicalPods != [] && GoodNodes(nodes)
    requires UniqueKeys(nodeStatus) && AllGood(nodeStatus)
    modifies sim`fragMemo
    ensures sim.Valid() && RecordsAll(nodes, sim.typicalPods, start)
    ensures RoundsOk(nodes, sim.typicalPods, rounds) && Chained(multiset(start), rounds, end)
    ensures Offered(nodeStatus, rounds)
    ensures descheduledPodKeys == Victims(rounds) && DistinctKeys(descheduledPodKeys)
    ensures |descheduledPodKeys| <= if budget > 0 then budget else 0
    ensures |descheduledPodKeys| < budget ==> end == multiset{}
  {
    descheduledPodKeys, rounds := [], [];
    var queue := BuildQueue(sim, nodes);
    start := queue.entries;
    var pods := nodeStatus;
    TrackMeans(nodes, sim.typicalPods, multiset(start), [], multiset(start), nodeStatus, pods, []);
    var numPodsToDeschedule := budget;
    while numPodsToDeschedule > 0 && |queue.items| > 0
      invariant sim.Valid() && fresh(queue) && fresh(queue.repr) && QueueReady(queue, nodes)
      invariant Track(nodes, sim.typicalPods, multiset(start), rounds, multiset(queue.entries), nodeStatus, pods,
                      descheduledPodKeys)
      invariant |descheduledPodKeys| + numPodsToDeschedule == budget
      invariant if budget > 0 then 0 <= numPodsToDeschedule else numPodsToDeschedule == budget
      decreases numPodsToDeschedule, |queue.items|
    {
      var evicted := |descheduledPodKeys|;
      pods, descheduledPodKeys, rounds :=
        Turn(sim, queue, nodes, nodeStatus, pods, descheduledPodKeys, multiset(start), rounds);
      if |descheduledPodKeys| > evicted {
        numPodsToDeschedule := numPodsToDeschedule - 1;
      }
    }
    end := multiset(queue.entries);
    TrackMeans(nodes, sim.typicalPods, multiset(start), rounds, end, nodeStatus, pods, descheduledPodKeys);
    assert numPodsToDeschedule > 0 ==> queue.entries == [];
  }
}
