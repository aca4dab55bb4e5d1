/** What a whole descheduling run comes to. A node's resources are never updated while the loop
    runs, so after one eviction no other pod of the node has anything to gain: a node loses at
    most one pod, and for that reason its record stays that of the node without its victims. */
module Evictions {
  import opened Allocators
  import opened Bags
  import opened Decimal
  import opened Deschedule
  import opened Frag
  import opened Ledger
  import opened Resource
  import opened VictimQueue

  // ----- a second victim on the same node ------------------------------------------------------

  ghost predicate NothingGained(priority: real, node: NodeResource, typical: seq<TargetPod>, pods: seq<Pod>) {
    forall p | p in pods :: Gain(priority, node, typical, p) <= 0
  }

  /** The gain is cut to whole milli, and the victim's is the largest. */
  lemma BestIsLowest(recorded: real, best: real, other: real)
    requires 0 < Trunc(recorded - best) && Trunc(recorded - other) <= Trunc(recorded - best)
    ensures Trunc(best - other) <= 0
  {
  }

  lemma LosesToBest(recorded: real, node: NodeResource, typical: seq<TargetPod>, victim: Pod, p: Pod)
    requires Without(node, victim).Some?
    requires 0 < Gain(recorded, node, typical, victim)
    requires Gain(recorded, node, typical, p) <= Gain(recorded, node, typical, victim)
    ensures Gain(RecordOf(Without(node, victim).value, typical).priority, node, typical, p) <= 0
  {
    if Without(node, p).Some? {
      BestIsLowest(recorded, RecordOf(Without(node, victim).value, typical).priority,
                   RecordOf(Without(node, p).value, typical).priority);
    }
  }

  /** Against the record of the node without the victim no pod gains anything any more. */
  lemma SecondGainsNothing(recorded: real, node: NodeResource, typical: seq<TargetPod>, pods: seq<Pod>, victim: Pod,
                           left: FragAmount)
    requires BestVictim(recorded, node, typical, pods, Some(victim), left)
    ensures LeftBy(node, typical, victim, left)
    ensures NothingGained(SumExceptQ3(left.data), node, typical, pods)
  {
    VictimLeads(recorded, node, typical, pods, victim, left);
    forall p | p in pods ensures Gain(SumExceptQ3(left.data), node, typical, p) <= 0 {
      LosesToBest(recorded, node, typical, victim, p);
    }
  }

  lemma NoGainNoVictim(recorded: real, node: NodeResource, typical: seq<TargetPod>, pods: seq<Pod>, victim: Option<Pod>,
                       left: FragAmount)
    requires BestVictim(recorded, node, typical, pods, victim, left)
    requires NothingGained(recorded, node, typical, pods)
    ensures victim == None
  {
    var gains: seq<int>, best: Option<nat> :|
      && GainsOf(recorded, node, typical, pods, gains) && FirstBest(gains, best)
      && match best
         case None => victim == None
         case Some(k) => victim == Some(pods[k]) && Leaves(node, typical, pods[k], left);
    GainsMean(recorded, node, typical, pods, gains);
    assert forall k | 0 <= k < |pods| :: pods[k] in pods;
  }

  // ----- whole runs ----------------------------------------------------------------------------

  /** The pods evicted from a node, in order. */
  function VictimsOn(rounds: seq<Round>, n: string): seq<Pod> {
    if rounds == [] then []
    else
      var last := rounds[|rounds| - 1];
      VictimsOn(rounds[..|rounds| - 1], n) +
        if last.victim.Some? && last.taken.value.nodeName == n then [last.victim.value] else []
  }

  /** The node once all of these pods have left it. */
  function WithoutAll(node: NodeResource, pods: seq<Pod>): Option<NodeResource> {
    if pods == [] then Some(node)
    else
      match WithoutAll(node, pods[..|pods| - 1])
      case None => None
      case Some(rest) => Without(rest, pods[|pods| - 1])
  }

  /** The record is that of its node without the pods evicted from it. */
  ghost predicate RecordRight(nodes: Nodes, typical: seq<TargetPod>, rounds: seq<Round>, e: Entry) {
    && e.value.nodeName in nodes
    && var rest := WithoutAll(nodes[e.value.nodeName], VictimsOn(rounds, e.value.nodeName));
       rest.Some? && e == RecordOf(rest.value, typical)
  }

  /** A node that has lost a pod has no other pod with anything to gain. */
  ghost predicate Spent(nodes: Nodes, typical: seq<TargetPod>, first: PodsByNode, rounds: seq<Round>, e: Entry) {
    e.value.nodeName in nodes && VictimsOn(rounds, e.value.nodeName) != [] ==>
      NothingGained(e.priority, nodes[e.value.nodeName], typical, PodsOn(PodsAfter(first, rounds), e.value.nodeName))
  }

  ghost predicate OneEntryEach(now: multiset<Entry>) {
    && (forall e :: now[e] <= 1)
    && forall e, f | e in now && f in now && e.value.nodeName == f.value.nodeName :: e == f
  }

  /** The nodes that have lost a pod. */
  function Losers(rounds: seq<Round>): set<string> {
    if rounds == [] then {}
    else
      var last := rounds[|rounds| - 1];
      Losers(rounds[..|rounds| - 1]) + if last.victim.Some? then {last.taken.value.nodeName} else {}
  }

  ghost predicate LossesKnown(nodes: Nodes, rounds: seq<Round>) {
    && (forall n :: |VictimsOn(rounds, n)| == if n in Losers(rounds) then 1 else 0)
    && Losers(rounds) <= nodes.Keys && |Victims(rounds)| == |Losers(rounds)|
  }

  /** What holds between any two turns. */
  ghost predicate Between(nodes: Nodes, typical: seq<TargetPod>, first: PodsByNode, rounds: seq<Round>,
                          now: multiset<Entry>) {
    && OneEntryEach(now) && LossesKnown(nodes, rounds)
    && (forall e | e in now :: RecordRight(nodes, typical, rounds, e))
    && forall e | e in now :: Spent(nodes, typical, first, rounds, e)
  }

  lemma {:induction false} EntriesDiffer(nodes: Nodes, typical: seq<TargetPod>, entries: seq<Entry>)
    requires GoodNodes(nodes) && RecordsAll(nodes, typical, entries)
    ensures OneEntryEach(multiset(entries))
  {
    var s := set e | e in entries;
    var t := set n | n in nodes :: RecordOf(nodes[n], typical);
    forall e | e in entries ensures e in t {
      assert e == RecordOf(nodes[e.value.nodeName], typical);
    }
    RecordsNumber(nodes, nodes.Keys, typical);
    assert s == t;
    SetOfAll(entries);
  }

  lemma {:induction false} RecordsNumber(nodes: Nodes, names: set<string>, typical: seq<TargetPod>)
    requires GoodNodes(nodes) && names <= nodes.Keys
    ensures |set n | n in names :: RecordOf(nodes[n], typical)| == |names|
    decreases names
  {
    if names != {} {
      var m :| m in names;
      var rest := names - {m};
      RecordsNumber(nodes, rest, typical);
      assert (set n | n in names :: RecordOf(nodes[n], typical))
          == (set n | n in rest :: RecordOf(nodes[n], typical)) + {RecordOf(nodes[m], typical)};
      assert RecordOf(nodes[m], typical).value.nodeName == m;
    }
  }

  /** A sequence with as many elements as places repeats none. */
  lemma {:induction false} SetOfAll(s: seq<Entry>)
    ensures |set e | e in s| <= |s|
    ensures |set e | e in s| == |s| ==> forall e :: multiset(s)[e] <= 1
  {
    if s != [] {
      var k := |s| - 1;
      SetOfAll(s[..k]);
      assert s == s[..k] + [s[k]];
      assert (set e | e in s) == (set e | e in s[..k]) + {s[k]};
      if s[k] in s[..k] {
        assert (set e | e in s) == (set e | e in s[..k]);
      }
    }
  }

  lemma BetweenStart(nodes: Nodes, typical: seq<TargetPod>, first: PodsByNode, start: seq<Entry>)
    requires GoodNodes(nodes) && RecordsAll(nodes, typical, start)
    ensures Between(nodes, typical, first, [], multiset(start))
  {
    EntriesDiffer(nodes, typical, start);
    forall e | e in multiset(start)
      ensures RecordRight(nodes, typical, [], e) && Spent(nodes, typical, first, [], e)
    {
      assert e in start;
      NoneLost(nodes, typical, e);
    }
    assert LossesKnown(nodes, []);
  }

  lemma NoneLost(nodes: Nodes, typical: seq<TargetPod>, e: Entry)
    requires e.value.nodeName in nodes && e == RecordOf(nodes[e.value.nodeName], typical)
    ensures RecordRight(nodes, typical, [], e) && VictimsOn([], e.value.nodeName) == []
  {
    assert VictimsOn([], e.value.nodeName) == [];
  }

  lemma RemovedFewer(pods: seq<Pod>, victim: Pod, p: Pod)
    requires p in RemovePodFromPodSlice(pods, victim)
    ensures p in pods
  {
    RemovedMembers(pods, victim, p);
  }

  // ----- one more turn -------------------------------------------------------------------------

  lemma VictimsOnNext(rounds: seq<Round>, r: Round, n: string)
    ensures VictimsOn(rounds + [r], n) ==
      VictimsOn(rounds, n) + if r.victim.Some? && r.taken.value.nodeName == n then [r.victim.value] else []
  {
    assert (rounds + [r])[..|rounds|] == rounds;
  }

  lemma LosersNext(rounds: seq<Round>, r: Round)
    ensures Losers(rounds + [r]) == Losers(rounds) + if r.victim.Some? then {r.taken.value.nodeName} else {}
    ensures |Victims(rounds + [r])| == |Victims(rounds)| + if r.victim.Some? then 1 else 0
  {
    assert (rounds + [r])[..|rounds|] == rounds;
  }

  /** What the node of an entry is known for carries over when the turn does not evict there. */
  lemma OthersKeep(nodes: Nodes, typical: seq<TargetPod>, first: PodsByNode, rounds: seq<Round>, r: Round, e: Entry)
    requires RecordRight(nodes, typical, rounds, e) && Spent(nodes, typical, first, rounds, e)
    requires r.victim.Some? ==> r.taken.value.nodeName != e.value.nodeName
    ensures RecordRight(nodes, typical, rounds + [r], e) && Spent(nodes, typical, first, rounds + [r], e)
  {
    var n := e.value.nodeName;
    VictimsOnNext(rounds, r, n);
    assert VictimsOn(rounds + [r], n) == VictimsOn(rounds, n);
    PodsAfterNext(first, rounds, r);
    assert PodsOn(PodsAfter(first, rounds + [r]), n) == PodsOn(PodsAfter(first, rounds), n);
  }

  /** The turn's own node had lost no pod before. */
  lemma FirstLoss(nodes: Nodes, typical: seq<TargetPod>, first: PodsByNode, rounds: seq<Round>, r: Round)
    requires RoundOk(nodes, typical, r) && r.victim.Some?
    requires r.pods == PodsOn(PodsAfter(first, rounds), r.taken.value.nodeName)
    requires Spent(nodes, typical, first, rounds, r.taken)
    ensures VictimsOn(rounds, r.taken.value.nodeName) == []
  {
    var n := r.taken.value.nodeName;
    if VictimsOn(rounds, n) != [] {
      NoGainNoVictim(r.taken.priority, nodes[n], typical, r.pods, r.victim, r.left);
      assert false;
    }
  }

  lemma NewEntryKnown(nodes: Nodes, typical: seq<TargetPod>, first: PodsByNode, rounds: seq<Round>, r: Round)
    requires GoodNodes(nodes) && RoundOk(nodes, typical, r) && r.victim.Some?
    requires r.pods == PodsOn(PodsAfter(first, rounds), r.taken.value.nodeName)
    requires VictimsOn(rounds, r.taken.value.nodeName) == []
    ensures NewEntry(r.left).value.nodeName == r.taken.value.nodeName
    ensures RecordRight(nodes, typical, rounds + [r], NewEntry(r.left))
    ensures Spent(nodes, typical, first, rounds + [r], NewEntry(r.left))
  {
    var n, v := r.taken.value.nodeName, r.victim.value;
    SecondGainsNothing(r.taken.priority, nodes[n], typical, r.pods, v, r.left);
    KeepsName(nodes[n], v);
    VictimsOnNext(rounds, r, n);
    OneVictim(nodes[n], v);
    PodsAfterNext(first, rounds, r);
    forall p | p in PodsOn(PodsAfter(first, rounds + [r]), n) ensures p in r.pods {
      RemovedFewer(r.pods, v, p);
    }
  }

  lemma KeepsName(node: NodeResource, pod: Pod)
    requires Without(node, pod).Some?
    ensures Without(node, pod).value.nodeName == node.nodeName
  {
  }

  lemma OneVictim(node: NodeResource, pod: Pod)
    ensures WithoutAll(node, [pod]) == Without(node, pod)
  {
    assert [pod][..0] == [];
  }

  lemma LossesNext(nodes: Nodes, rounds: seq<Round>, r: Round)
    requires LossesKnown(nodes, rounds) && r.taken.value.nodeName in nodes
    requires r.victim.Some? ==> VictimsOn(rounds, r.taken.value.nodeName) == []
    ensures LossesKnown(nodes, rounds + [r])
  {
    LosersNext(rounds, r);
    forall n ensures |VictimsOn(rounds + [r], n)| == if n in Losers(rounds + [r]) then 1 else 0 {
      VictimsOnNext(rounds, r, n);
    }
  }

  lemma EntriesNext(now: multiset<Entry>, taken: Entry, left: Option<Entry>)
    requires OneEntryEach(now) && taken in now
    requires left.Some? ==> left.value.value.nodeName == taken.value.nodeName
    ensures var after := now - multiset{taken} + if left.Some? then multiset{left.value} else multiset{};
      && OneEntryEach(after)
      && forall e | e in after ::
           (e in now && (left.Some? ==> e.value.nodeName != taken.value.nodeName)) || Some(e) == left
  {
  }

  lemma BetweenNext(nodes: Nodes, typical: seq<TargetPod>, first: PodsByNode, rounds: seq<Round>, r: Round)
    requires GoodNodes(nodes) && Between(nodes, typical, first, rounds, r.before) && RoundOk(nodes, typical, r)
    requires r.pods == PodsOn(PodsAfter(first, rounds), r.taken.value.nodeName)
    ensures Between(nodes, typical, first, rounds + [r], After(r))
  {
    assert RecordRight(nodes, typical, rounds, r.taken) && Spent(nodes, typical, first, rounds, r.taken);
    var left := if r.victim.Some? then Some(NewEntry(r.left)) else None;
    if r.victim.Some? {
      FirstLoss(nodes, typical, first, rounds, r);
      NewEntryKnown(nodes, typical, first, rounds, r);
    }
    LossesNext(nodes, rounds, r);
    EntriesNext(r.before, r.taken, left);
    forall e | e in After(r)
      ensures RecordRight(nodes, typical, rounds + [r], e) && Spent(nodes, typical, first, rounds + [r], e)
    {
      if Some(e) != left {
        assert RecordRight(nodes, typical, rounds, e) && Spent(nodes, typical, first, rounds, e);
        OthersKeep(nodes, typical, first, rounds, r, e);
      }
    }
  }

  lemma {:induction false} RunBetween(nodes: Nodes, typical: seq<TargetPod>, first: PodsByNode, start: seq<Entry>,
                                      rounds: seq<Round>, now: multiset<Entry>)
    requires GoodNodes(nodes) && RecordsAll(nodes, typical, start)
    requires RoundsOk(nodes, typical, rounds) && Chained(multiset(start), rounds, now) && Offered(first, rounds)
    ensures Between(nodes, typical, first, rounds, now)
  {
    if rounds == [] {
      BetweenStart(nodes, typical, first, start);
    } else {
      var k := |rounds| - 1;
      RoundsBefore(nodes, typical, rounds);
      OfferedBefore(first, rounds);
      RunBetween(nodes, typical, first, start, rounds[..k], rounds[k].before);
      BetweenNext(nodes, typical, first, rounds[..k], rounds[k]);
      RoundsSplit(rounds);
    }
  }

  lemma RoundsSplit(s: seq<Round>)
    requires s != []
    ensures s == s[..|s| - 1] + [s[|s| - 1]]
  {
  }

  lemma RoundsBefore(nodes: Nodes, typical: seq<TargetPod>, rounds: seq<Round>)
    requires RoundsOk(nodes, typical, rounds) && rounds != []
    ensures RoundsOk(nodes, typical, rounds[..|rounds| - 1]) && RoundOk(nodes, typical, rounds[|rounds| - 1])
  {
  }

  lemma OfferedBefore(first: PodsByNode, rounds: seq<Round>)
    requires Offered(first, rounds) && rounds != []
    ensures Offered(first, rounds[..|rounds| - 1])
    ensures var r := rounds[|rounds| - 1];
      r.pods == PodsOn(PodsAfter(first, rounds[..|rounds| - 1]), r.taken.value.nodeName)
  {
    var front := rounds[..|rounds| - 1];
    forall k | 0 <= k < |front|
      ensures front[k].pods == PodsOn(PodsAfter(first, front[..k]), front[k].taken.value.nodeName) {
      assert front[..k] == rounds[..k];
    }
  }

  /** Over every run of the loop each node loses at most one pod, so no more pods are evicted
      than there are nodes whatever the budget, and every record left in the queue is the
      fragmentation of its node without its victims. */
  lemma OnePodPerNode(nodes: Nodes, typical: seq<TargetPod>, first: PodsByNode, start: seq<Entry>, rounds: seq<Round>,
                      now: multiset<Entry>)
    requires GoodNodes(nodes) && RecordsAll(nodes, typical, start)
    requires RoundsOk(nodes, typical, rounds) && Chained(multiset(start), rounds, now) && Offered(first, rounds)
    ensures forall n :: |VictimsOn(rounds, n)| <= 1
    ensures |Victims(rounds)| <= |nodes|
    ensures forall e | e in now :: RecordRight(nodes, typical, rounds, e)
  {
    RunBetween(nodes, typical, first, start, rounds, now);
    SubsetSize(Losers(rounds), nodes.Keys);
  }

  // ----- a node on which a second eviction would help --------------------------------------------

  /** A workload of pods that need one whole GPU. */
  const WHOLE_GPU_PODS := [TargetPod(PodResource(0, MILLI, 1, ""), 1.0)]

  /** A node of two GPUs. */
  function Pair(a: int, b: int): NodeResource {
    NodeResource("", 0, 0, [a, b], 2, "", map[])
  }

  /** A pod that holds half of device d. */
  function Half(d: nat): Pod {
    Pod("", "", "", "", Running, 0, 500, 1, "", JoinIds([d]))
  }

  lemma SumOfPair(g: Measure, a: int, b: int)
    ensures SumBy(g, [a, b]) == Weigh(g, a) + Weigh(g, b)
  {
    assert [a][..0] == [];
    assert SumBy(g, [a]) == Weigh(g, a);
    assert [a, b][..1] == [a];
  }

  lemma PairRecord(a: int, b: int)
    requires 0 <= a <= MILLI && 0 <= b <= MILLI
    ensures RecordOf(Pair(a, b), WHOLE_GPU_PODS).priority ==
      (if a == MILLI || b == MILLI then Weigh(Stranded(MILLI), a) + Weigh(Stranded(MILLI), b) else a + b) as real
  {
    SumOfPair(Idle, a, b);
    SumOfPair(Fits(MILLI), a, b);
    SumOfPair(Stranded(MILLI), a, b);
    FragConserved(Pair(a, b), WHOLE_GPU_PODS);
    assert WHOLE_GPU_PODS[..0] == [];
  }

  lemma HalfLeaves(node: NodeResource, d: nat)
    requires d < |node.milliGpuLeftList| && node.milliGpuLeftList[d] <= 500 &&
             node.milliCpuLeft <= node.milliCpuCapacity
    ensures Without(node, Half(d)) ==
      Some(node.(milliGpuLeftList := node.milliGpuLeftList[d := node.milliGpuLeftList[d] + 500]))
  {
    IdsRoundTrip([d]);
    AddOne(node.milliGpuLeftList, 500, [d]);
  }

  lemma PairLeaves(a: int, b: int)
    requires a <= 500 && b <= 500
    ensures Without(Pair(a, b), Half(0)) == Some(Pair(a + 500, b))
    ensures Without(Pair(a + 500, b), Half(1)) == Some(Pair(a + 500, b + 500))
    ensures Without(Pair(a, b), Half(1)) == Some(Pair(a, b + 500))
  {
    HalfLeaves(Pair(a, b), 0);
    HalfLeaves(Pair(a + 500, b), 1);
    HalfLeaves(Pair(a, b), 1);
    assert [a, b][0 := a + 500] == [a + 500, b];
    assert [a, b][1 := b + 500] == [a, b + 500];
    assert [a + 500, b][1 := b + 500] == [a + 500, b + 500];
  }

  lemma AddNone(list: seq<int>, m: int, none: seq<int>)
    requires none == []
    ensures AddIds(list, m, none) == Packed(list, true)
  {
  }

  lemma AddHead(list: seq<int>, m: int, idl: seq<int>)
    requires idl != [] && 0 <= idl[0] < |list| && list[idl[0]] + m <= MILLI
    ensures AddIds(list, m, idl) == AddIds(list[idl[0] := list[idl[0]] + m], m, idl[1..])
  {
  }

  lemma AddOne(list: seq<int>, m: int, idl: seq<int>)
    requires |idl| == 1 && 0 <= idl[0] < |list| && list[idl[0]] + m <= MILLI
    ensures AddIds(list, m, idl) == Packed(list[idl[0] := list[idl[0]] + m], true)
  {
    AddHead(list, m, idl);
    AddNone(list[idl[0] := list[idl[0]] + m], m, idl[1..]);
  }

  /** Two pods hold half of each GPU. Either leaving takes 500 milli of fragmentation off; once
      one has left the other seems to gain nothing, though its leaving would take off the rest. */
  lemma TwoHalvesOneLeaves()
    ensures Gain(RecordOf(Pair(500, 500), WHOLE_GPU_PODS).priority, Pair(500, 500), WHOLE_GPU_PODS, Half(0)) == 500
    ensures Gain(RecordOf(Pair(500, 500), WHOLE_GPU_PODS).priority, Pair(500, 500), WHOLE_GPU_PODS, Half(1)) == 500
    ensures WithoutAll(Pair(500, 500), [Half(0)]) == Some(Pair(1000, 500))
    ensures Gain(RecordOf(Pair(1000, 500), WHOLE_GPU_PODS).priority, Pair(500, 500), WHOLE_GPU_PODS, Half(1)) == 0
    ensures Gain(RecordOf(Pair(1000, 500), WHOLE_GPU_PODS).priority, Pair(1000, 500), WHOLE_GPU_PODS, Half(1)) == 500
  {
    PairLeaves(500, 500);
    OneVictim(Pair(500, 500), Half(0));
    PairRecord(500, 500);
    PairRecord(1000, 500);
    PairRecord(500, 1000);
    PairRecord(1000, 1000);
  }
}
