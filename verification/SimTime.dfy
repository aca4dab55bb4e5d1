/** Simulated time: a heap of the running pods by end time, the counters and the utilisation
    integral, and per node the pods still to end. */
module SimTime {
  import opened Decimal
  import opened HeapOrder
  import opened Resource
  import opened Seals
  import opened Sorting

  datatype PodTrace = PodTrace(
    podName: string,
    podNameSpace: string,
    nodeName: string,
    startTime: int,
    endTime: int,
    gpuMilli: int)

  /** What recording reads of a pod: its name, its GPU demand, the devices it was given and its
      time annotations, with the node it is placed on. */
  datatype Arrival = Arrival(
    podName: string,
    podNameSpace: string,
    nodeName: string,
    startTime: int,
    endTime: int,
    gpuMilli: int,
    gpuCount: int,
    idl: seq<int>)

  /** Every pod recorded so far. */
  datatype History = Start | Then(before: History, last: Arrival)

  function TraceOf(a: Arrival): PodTrace {
    PodTrace(a.podName, a.podNameSpace, a.nodeName, a.startTime, a.endTime, a.gpuMilli * a.gpuCount)
  }

  function Recorded(h: History): multiset<PodTrace> {
    match h
    case Start => multiset{}
    case Then(before, a) => Recorded(before) + multiset{TraceOf(a)}
  }

  /** The heap orders the running pods by this. */
  function EndOf(tr: PodTrace): real { tr.endTime as real }

  predicate NoneAfter(s: seq<PodTrace>, t: int) {
    forall tr | tr in s :: tr.endTime <= t
  }

  predicate EndsBy(a: PodTrace, b: PodTrace) { a.endTime <= b.endTime }

  /** In non-decreasing order of end time. */
  predicate ByEnd(s: seq<PodTrace>) {
    Chain(EndsBy, s)
  }

  lemma ByEndLast(s: seq<PodTrace>)
    requires ByEnd(s) && s != []
    ensures NoneAfter(s, s[|s| - 1].endTime)
  {
    forall i | 0 <= i < |s| - 1 ensures s[i].endTime <= s[|s| - 1].endTime {
      ChainPair(EndsBy, s, i, |s| - 1);
    }
  }

  // ----- the utilisation integral ----------------------------------------------------------

  /** GPU time of one pod: whole GPUs times duration. */
  function Work(tr: PodTrace): real {
    tr.gpuMilli as real / MILLI as real * (tr.endTime - tr.startTime) as real
  }

  function WorkOf(s: seq<PodTrace>): real {
    if s == [] then 0.0 else WorkOf(s[..|s| - 1]) + Work(s[|s| - 1])
  }

  function TotalWork(h: History): real {
    match h
    case Start => 0.0
    case Then(before, a) => TotalWork(before) + Work(TraceOf(a))
  }

  lemma {:induction false} WorkSplit(s: seq<PodTrace>, i: nat)
    requires i < |s|
    ensures WorkOf(s) == Work(s[i]) + WorkOf(s[..i] + s[i + 1..])
    decreases |s|
  {
    var k := |s| - 1;
    if i == k {
      assert s[..i] + s[i + 1..] == s[..k];
    } else {
      WorkSplit(s[..k], i);
      var rest := s[..i] + s[i + 1..];
      assert rest[..|rest| - 1] == s[..k][..i] + s[..k][i + 1..];
      assert rest[|rest| - 1] == s[k];
    }
  }

  lemma WorkWithout(s: seq<PodTrace>, x: PodTrace) returns (rest: seq<PodTrace>)
    requires x in s
    ensures |rest| == |s| - 1 && multiset(rest) == multiset(s) - multiset{x}
    ensures WorkOf(s) == Work(x) + WorkOf(rest)
  {
    var j :| 0 <= j < |s| && s[j] == x;
    WorkSplit(s, j);
    rest := s[..j] + s[j + 1..];
    assert s == s[..j] + [s[j]] + s[j + 1..];
  }

  /** The work of a set of pods does not depend on their order. */
  lemma {:induction false} WorkPermutes(a: seq<PodTrace>, b: seq<PodTrace>)
    requires multiset(a) == multiset(b)
    ensures WorkOf(a) == WorkOf(b)
    decreases |a|
  {
    if a == [] {
      assert |multiset(b)| == 0;
    } else {
      assert a[0] in multiset(b);
      var a' := WorkWithout(a, a[0]);
      var b' := WorkWithout(b, a[0]);
      WorkPermutes(a', b');
    }
  }

  lemma WorkOneMore(a: seq<PodTrace>, b: seq<PodTrace>, x: PodTrace)
    requires multiset(b) == multiset(a) + multiset{x}
    ensures WorkOf(b) == WorkOf(a) + Work(x)
    ensures |b| == |a| + 1
    ensures forall tr :: tr in b <==> tr == x || tr in a
  {
    assert (a + [x])[..|a|] == a;
    assert multiset(a + [x]) == multiset(b);
    assert |multiset(a + [x])| == |a + [x]| && |multiset(b)| == |b|;
    WorkPermutes(b, a + [x]);
    forall tr ensures tr in b <==> tr == x || tr in a {
      assert tr in b <==> tr in multiset(b);
      assert tr in a <==> tr in multiset(a);
    }
  }

  // ----- the integral of the GPUs in use ---------------------------------------------------

  /** The GPUs that the recorded pods use at instant t, from their start until before their end. */
  function InUse(h: History, t: int): real {
    match h
    case Start => 0.0
    case Then(before, a) => InUse(before, t) + UsedBy(a, t)
  }

  function UsedBy(a: Arrival, t: int): real {
    if a.startTime <= t < a.endTime then (a.gpuMilli * a.gpuCount) as real / 1000.0 else 0.0
  }

  /** The GPUs in use, summed over the instants from lo to before hi. */
  function Utilisation(h: History, lo: int, hi: int): real
    decreases hi - lo
  {
    if hi <= lo then 0.0 else Utilisation(h, lo, hi - 1) + InUse(h, hi - 1)
  }

  function UtilisationBy(a: Arrival, lo: int, hi: int): real
    decreases hi - lo
  {
    if hi <= lo then 0.0 else UtilisationBy(a, lo, hi - 1) + UsedBy(a, hi - 1)
  }

  /** Every recorded pod starts and ends, in this order, between lo and hi. */
  predicate Spans(h: History, lo: int, hi: int) {
    match h
    case Start => lo <= hi
    case Then(before, a) => Spans(before, lo, hi) && lo <= a.startTime <= a.endTime <= hi
  }

  lemma {:induction false} UtilisationSplits(h: History, a: Arrival, lo: int, hi: int)
    ensures Utilisation(Then(h, a), lo, hi) == Utilisation(h, lo, hi) + UtilisationBy(a, lo, hi)
    decreases hi - lo
  {
    if lo < hi {
      UtilisationSplits(h, a, lo, hi - 1);
    }
  }

  function Rate(a: Arrival): real { (a.gpuMilli * a.gpuCount) as real / 1000.0 }

  function ForInstants(rate: real, n: int): real { rate * n as real }

  lemma InstantsNext(rate: real, n: int)
    ensures ForInstants(rate, n + 1) == ForInstants(rate, n) + rate && ForInstants(rate, 0) == 0.0
  {
  }

  /** Of lo..hi the pod uses its GPUs at the instants between its start and its end. */
  lemma {:induction false} UtilisationIsRate(a: Arrival, lo: int, hi: int)
    requires lo <= a.startTime <= a.endTime && lo <= hi
    ensures UtilisationBy(a, lo, hi) == ForInstants(Rate(a),
              if hi <= a.startTime then 0 else if hi <= a.endTime then hi - a.startTime else a.endTime - a.startTime)
    decreases hi - lo
  {
    InstantsNext(Rate(a), 0);
    if lo < hi {
      UtilisationIsRate(a, lo, hi - 1);
      InstantsNext(Rate(a), hi - 1 - a.startTime);
    }
  }

  lemma WorkIsRate(a: Arrival)
    ensures Work(TraceOf(a)) == ForInstants(Rate(a), a.endTime - a.startTime)
  {
  }

  lemma {:induction false} EmptyUtilisation(lo: int, hi: int)
    ensures Utilisation(Start, lo, hi) == 0.0
    decreases hi - lo
  {
    if lo < hi {
      EmptyUtilisation(lo, hi - 1);
    }
  }

  /** The work of all recorded pods is the integral of the GPUs in use. */
  lemma {:induction false} WorkIsUtilisation(h: History, lo: int, hi: int)
    requires Spans(h, lo, hi)
    ensures TotalWork(h) == Utilisation(h, lo, hi)
  {
    match h
    case Start =>
      EmptyUtilisation(lo, hi);
    case Then(before, a) =>
      WorkIsUtilisation(before, lo, hi);
      UtilisationSplits(before, a, lo, hi);
      UtilisationIsRate(a, lo, hi);
      WorkIsRate(a);
  }

  // ----- latest end times --------------------------------------------------------------------

  /** The latest end among the recorded pods, 0 if none ends later. */
  function LatestEnd(h: History): int {
    match h
    case Start => 0
    case Then(before, a) => if LatestEnd(before) < a.endTime then a.endTime else LatestEnd(before)
  }

  /** No recorded pod ends after LatestEnd, and one ends then unless it is 0. */
  lemma {:induction false} LatestEndIsLatest(h: History)
    ensures 0 <= LatestEnd(h) && forall a | a in Arrivals(h) :: a.endTime <= LatestEnd(h)
    ensures LatestEnd(h) == 0 || exists a | a in Arrivals(h) :: a.endTime == LatestEnd(h)
  {
    match h
    case Start =>
    case Then(before, a) =>
      LatestEndIsLatest(before);
  }

  predicate Uses(a: Arrival, node: string, gpuId: int) {
    a.nodeName == node && gpuId in a.idl
  }

  /** A later end replaces the one known for a device that the pod uses. */
  function Raised(before: int, used: bool, endTime: int): int {
    if used && before < endTime then endTime else before
  }

  /** The latest end among the recorded pods on one device, 0 if none ends later. */
  function DeviceEnd(h: History, node: string, gpuId: int): int {
    match h
    case Start => 0
    case Then(before, a) => Raised(DeviceEnd(before, node, gpuId), Uses(a, node, gpuId), a.endTime)
  }

  function Arrivals(h: History): set<Arrival> {
    match h
    case Start => {}
    case Then(before, a) => Arrivals(before) + {a}
  }

  /** No recorded pod on the device ends after DeviceEnd, and one ends then unless it is 0. */
  lemma {:induction false} DeviceEndIsLatest(h: History, node: string, gpuId: int)
    ensures var e := DeviceEnd(h, node, gpuId);
      && 0 <= e
      && (forall a | a in Arrivals(h) && Uses(a, node, gpuId) :: a.endTime <= e)
      && (e == 0 || exists a | a in Arrivals(h) :: Uses(a, node, gpuId) && a.endTime == e)
  {
    match h
    case Start =>
    case Then(before, a) =>
      DeviceEndIsLatest(before, node, gpuId);
  }

  /** No recorded pod names a device. */
  predicate NoDevices(h: History) {
    match h
    case Start => true
    case Then(before, a) => NoDevices(before) && a.idl == []
  }

  lemma {:induction false} NoDevicesNoEnd(h: History, node: string, gpuId: int)
    requires NoDevices(h)
    ensures DeviceEnd(h, node, gpuId) == 0
  {
    match h
    case Start =>
    case Then(before, a) =>
      NoDevicesNoEnd(before, node, gpuId);
  }

  type EndMap = map<string, int>

  /** A missing entry reads as 0. */
  function EndAt(m: EndMap, key: string): int {
    if key in m then m[key] else 0
  }

  function EndKey(node: string, gpuId: int): string {
    node + "_" + Itoa(gpuId)
  }

  lemma NoSeparatorBehind(n: string, i: int)
    ensures forall q | |n| < q < |EndKey(n, i)| :: EndKey(n, i)[q] != '_'
  {
    ItoaPlain(i, '_');
    forall q | |n| < q < |EndKey(n, i)| ensures EndKey(n, i)[q] != '_' {
      assert EndKey(n, i)[q] == Itoa(i)[q - |n| - 1];
    }
  }

  /** The separator that ends the node name is the last one, as numerals hold none. */
  lemma EndKeyInjective(n: string, i: int, m: string, j: int)
    requires EndKey(n, i) == EndKey(m, j)
    ensures n == m && i == j
  {
    NoSeparatorBehind(n, i);
    NoSeparatorBehind(m, j);
    var key := EndKey(n, i);
    assert key[|n|] == '_' && key[|m|] == '_';
    assert n == key[..|n|] && m == key[..|m|];
    assert Itoa(i) == key[|n| + 1..] == Itoa(j);
    AtoiItoa(i);
    AtoiItoa(j);
  }

  function Keys(node: string, idl: seq<int>): set<string> {
    set i | i in idl :: EndKey(node, i)
  }

  /** The latest end recorded under a key. */
  function KeyEnd(h: History, key: string): int {
    match h
    case Start => 0
    case Then(before, a) => Raised(KeyEnd(before, key), key in Keys(a.nodeName, a.idl), a.endTime)
  }

  /** m' is m with the end raised at the given keys. */
  ghost predicate RaisedAt(m: EndMap, m': EndMap, keys: set<string>, endTime: int) {
    forall key :: EndAt(m', key) == Raised(EndAt(m, key), key in keys, endTime)
  }

  ghost predicate EndsKnown(m: EndMap, h: History) {
    forall key :: EndAt(m, key) == KeyEnd(h, key)
  }

  /** Different devices have different keys, so a key's end is its device's. */
  lemma {:induction false} KeyEndIsDevices(h: History, node: string, gpuId: int)
    ensures KeyEnd(h, EndKey(node, gpuId)) == DeviceEnd(h, node, gpuId)
  {
    match h
    case Start =>
    case Then(before, a) =>
      KeyEndIsDevices(before, node, gpuId);
      forall i | EndKey(a.nodeName, i) == EndKey(node, gpuId) ensures a.nodeName == node && i == gpuId {
        EndKeyInjective(a.nodeName, i, node, gpuId);
      }
      assert EndKey(node, gpuId) in Keys(a.nodeName, a.idl) <==> Uses(a, node, gpuId);
  }

  // ----- the traces of one node ----------------------------------------------------------------

  function LiveAfter(s: seq<PodTrace>, now: int): seq<PodTrace> {
    if s == [] then []
    else
      var front := LiveAfter(s[..|s| - 1], now);
      if s[|s| - 1].endTime > now then front + [s[|s| - 1]] else front
  }

  lemma {:induction false} LiveAfterKeeps(s: seq<PodTrace>, now: int, tr: PodTrace)
    ensures multiset(LiveAfter(s, now))[tr] == if tr.endTime > now then multiset(s)[tr] else 0
  {
    if s != [] {
      var k := |s| - 1;
      LiveAfterKeeps(s[..k], now, tr);
      assert s == s[..k] + [s[k]];
    }
  }

  type NodeTraces = map<string, seq<PodTrace>>

  function TracesAt(m: NodeTraces, node: string): seq<PodTrace> {
    if node in m then m[node] else []
  }

  function RecordedOn(h: History, node: string): set<PodTrace> {
    match h
    case Start => {}
    case Then(before, a) => RecordedOn(before, node) + if a.nodeName == node then {TraceOf(a)} else {}
  }

  /** Every pod recorded on a node that has not ended by now is on the node's list. */
  ghost predicate Listed(m: NodeTraces, h: History, now: int) {
    forall n, tr | tr in RecordedOn(h, n) && tr.endTime > now :: tr in TracesAt(m, n)
  }

  /** The lists are sorted by end time and name only pods recorded on the node. */
  ghost predicate ListsSound(m: NodeTraces, h: History) {
    forall n :: ByEnd(TracesAt(m, n)) && forall tr | tr in TracesAt(m, n) :: tr in RecordedOn(h, n)
  }

  ghost predicate Relisted(m: NodeTraces, m': NodeTraces, a: Arrival, now: int) {
    && ByEnd(TracesAt(m', a.nodeName))
    && multiset(TracesAt(m', a.nodeName)) == multiset{TraceOf(a)} + multiset(LiveAfter(TracesAt(m, a.nodeName), now))
    && forall n | n != a.nodeName :: TracesAt(m', n) == TracesAt(m, n)
  }

  lemma RelistedMembers(m: NodeTraces, m': NodeTraces, a: Arrival, now: int, tr: PodTrace)
    requires Relisted(m, m', a, now)
    ensures tr in TracesAt(m', a.nodeName) <==> tr == TraceOf(a) || (tr in TracesAt(m, a.nodeName) && tr.endTime > now)
  {
    var list, list' := TracesAt(m, a.nodeName), TracesAt(m', a.nodeName);
    LiveAfterKeeps(list, now, tr);
    assert tr in list' <==> tr in multiset(list');
    assert tr in list <==> tr in multiset(list);
  }

  lemma ListsStaySound(m: NodeTraces, m': NodeTraces, h: History, a: Arrival, now: int)
    requires ListsSound(m, h) && Relisted(m, m', a, now)
    ensures ListsSound(m', Then(h, a))
    ensures Listed(m, h, now) ==> Listed(m', Then(h, a), now)
  {
    forall tr { RelistedMembers(m, m', a, now, tr); }
    forall n ensures ByEnd(TracesAt(m', n)) && forall tr | tr in TracesAt(m', n) :: tr in RecordedOn(Then(h, a), n) {
      assert ByEnd(TracesAt(m, n));
    }
  }

  /** The last entry of a sorted list is the latest; expired pods ended before any live one. */
  lemma LastIsLatest(m: NodeTraces, h: History, now: int, node: string)
    requires ListsSound(m, h) && Listed(m, h, now)
    requires exists tr | tr in RecordedOn(h, node) :: tr.endTime > now
    ensures var list := TracesAt(m, node);
      && list != []
      && list[|list| - 1] in RecordedOn(h, node)
      && forall tr | tr in RecordedOn(h, node) :: tr.endTime <= list[|list| - 1].endTime
  {
    var list := TracesAt(m, node);
    var live :| live in RecordedOn(h, node) && live.endTime > now;
    assert live in list && ByEnd(list);
    var last := list[|list| - 1];
    ByEndLast(list);
  }

  // ----- the class -------------------------------------------------------------------------------

  predicate Drains(res: seq<PodTrace>, t: int, rest: seq<PodTrace>) {
    ByEnd(res) && (res != [] ==>
      res[|res| - 1].endTime <= t && forall tr | tr in rest :: res[|res| - 1].endTime <= tr.endTime)
  }

  lemma Drained(res: seq<PodTrace>, t: int, pt: PodTrace, before: seq<PodTrace>, rest: seq<PodTrace>)
    requires Drains(res, t, before) && pt in before && pt.endTime <= t
    requires forall tr | tr in rest :: pt.endTime <= tr.endTime
    ensures Drains(res + [pt], t, rest)
    ensures multiset(res + [pt]) == multiset(res) + multiset{pt}
  {
    ChainAppend(EndsBy, res, pt);
  }

  class FakeTime {
    var fakeCurrentTime: int
    var traces: seq<PodTrace>
    var allEndTime: int
    var runningPodNum: int
    var completedPodNum: int
    var node2PodTraces: NodeTraces
    var gpuUtils: real
    var endMap: EndMap
    /** Every pod recorded so far, and the traces released so far. */
    ghost var history: History
    ghost var released: multiset<PodTrace>

    /** The running pods are a heap and, with the released ones, all that were recorded. */
    ghost predicate Accounted(all: multiset<PodTrace>, total: real)
      reads `traces, `released, `runningPodNum, `completedPodNum, `gpuUtils
    {
      && IsHeap(EndOf, traces)
      && multiset(traces) + released == all
      && runningPodNum == |traces| && completedPodNum == |released|
      && gpuUtils + WorkOf(traces) == total
    }

    ghost predicate Valid()
      reads this
    {
      && Accounted(Recorded(history), TotalWork(history))
      && allEndTime == LatestEnd(history)
      && EndsKnown(endMap, history)
      && ListsSound(node2PodTraces, history)
    }

    /** The node lists cover the pods still to end. It needs the clock not to run backwards. */
    ghost predicate NodesComplete()
      reads `node2PodTraces, `history, `fakeCurrentTime
    {
      Listed(node2PodTraces, history, fakeCurrentTime)
    }

    constructor ()
      ensures Kept() && history == Start && traces == [] && fakeCurrentTime == 0
    {
      fakeCurrentTime, traces, allEndTime, runningPodNum, completedPodNum := 0, [], 0, 0, 0;
      node2PodTraces, gpuUtils, endMap := map[], 0.0, map[];
      history, released := Start, multiset{};
      new;
      KeptIsValid();
    }

    method SetCurrentTime(t: int)
      requires Valid()
      modifies `fakeCurrentTime
      ensures Valid() && fakeCurrentTime == t
      ensures old(NodesComplete()) && old(fakeCurrentTime) <= t ==> NodesComplete()
    {
      fakeCurrentTime := t;
    }

    // ----- the library heap on the traces -----

    method Swap(i: nat, j: nat)
      requires i < |traces| && j < |traces|
      modifies `traces
      ensures traces == Swapped(old(traces), i, j) && multiset(traces) == multiset(old(traces))
    {
      SwappedBag(traces, i, j);
      traces := traces[i := traces[j]][j := traces[i]];
    }

    method Up(j0: nat)
      requires j0 < |traces|
      requires Broken(EndOf, traces, |traces|, 0, j0) && DownOk(EndOf, traces, |traces|, j0)
      modifies `traces
      ensures IsHeap(EndOf, traces) && multiset(traces) == multiset(old(traces))
    {
      var j: nat := j0;
      while true
        invariant j < |traces| == |old(traces)| && multiset(traces) == multiset(old(traces))
        invariant Broken(EndOf, traces, |traces|, 0, j) && DownOk(EndOf, traces, |traces|, j)
        decreases j
      {
        var i := Parent(j);
        if i == j || !(traces[j].endTime < traces[i].endTime) {
          Mended(EndOf, traces, |traces|, 0, j);
          break;
        }
        UpStep(EndOf, traces, |traces|, j);
        Swap(i, j);
        j := i;
      }
    }

    method Down(n: nat)
      requires n <= |traces| && Broken(EndOf, traces, n, 0, 0)
      modifies `traces
      ensures |traces| == |old(traces)| && multiset(traces) == multiset(old(traces))
      ensures HeapFrom(EndOf, traces, n, 0) && traces[n..] == old(traces)[n..]
    {
      var i: nat := 0;
      while 2 * i + 1 < n
        invariant |traces| == |old(traces)| && multiset(traces) == multiset(old(traces))
        invariant traces[n..] == old(traces)[n..]
        invariant i < n || i == n == 0
        invariant Broken(EndOf, traces, n, 0, i) && (i < n ==> UpOk(EndOf, traces, 0, i))
        decreases n - i
      {
        var j := LesserChild(n, i);
        if !(traces[j].endTime < traces[i].endTime) {
          break;
        }
        DownStep(EndOf, traces, n, 0, i);
        Swap(i, j);
        i := j;
      }
      if i < n {
        DownStop(EndOf, traces, n, i);
        Mended(EndOf, traces, n, 0, i);
      }
    }

    method LesserChild(n: nat, i: nat) returns (j: nat)
      requires 2 * i + 1 < n <= |traces|
      ensures j == SmallerChild(EndOf, traces, n, i)
    {
      j := 2 * i + 1;
      if j + 1 < n && traces[j + 1].endTime < traces[j].endTime {
        j := j + 1;
      }
    }

    method HeapPush(pt: PodTrace)
      requires IsHeap(EndOf, traces)
      modifies `traces
      ensures IsHeap(EndOf, traces) && multiset(traces) == multiset(old(traces)) + multiset{pt}
    {
      AppendBreaksLast(EndOf, traces, pt);
      traces := traces + [pt];
      Up(|traces| - 1);
    }

    method HeapPop() returns (pt: PodTrace)
      requires IsHeap(EndOf, traces) && 0 < |traces|
      modifies `traces
      ensures IsHeap(EndOf, traces) && multiset(old(traces)) == multiset(traces) + multiset{pt}
      ensures forall tr | tr in old(traces) :: pt.endTime <= tr.endTime
    {
      var n := |traces| - 1;
      RootsLeast(traces);
      PopBreaksRoot(EndOf, traces);
      Swap(0, n);
      Down(n);
      HeapTake(EndOf, traces, n);
      pt := traces[n];
      assert traces[n..][0] == pt;
      DropLast(traces);
      traces := traces[..n];
    }

    // ----- recording and releasing -----

    method SetEndTime(nodeName: string, gpuId: int, endTime: int)
      modifies `endMap
      ensures RaisedAt(old(endMap), endMap, {EndKey(nodeName, gpuId)}, endTime)
    {
      var key := EndKey(nodeName, gpuId);
      if EndAt(endMap, key) < endTime {
        endMap := endMap[key := endTime];
      }
    }

    method SetEndTimes(nodeName: string, idl: seq<int>, endTime: int)
      modifies `endMap
      ensures RaisedAt(old(endMap), endMap, Keys(nodeName, idl), endTime)
    {
      for k := 0 to |idl|
        invariant RaisedAt(old(endMap), endMap, Keys(nodeName, idl[..k]), endTime)
      {
        SetEndTime(nodeName, idl[k], endTime);
        assert idl[..k + 1] == idl[..k] + [idl[k]];
        assert Keys(nodeName, idl[..k + 1]) == Keys(nodeName, idl[..k]) + {EndKey(nodeName, idl[k])};
      }
      assert idl[..|idl|] == idl;
    }

    /** The node's list becomes the new trace and those that have not ended, sorted by end. */
    method SetPodTraceOnNode(nodeName: string, pt: PodTrace)
      modifies `node2PodTraces
      ensures var list := TracesAt(node2PodTraces, nodeName);
        && ByEnd(list)
        && multiset(list) == multiset{pt} +
           multiset(LiveAfter(TracesAt(old(node2PodTraces), nodeName), fakeCurrentTime))
      ensures forall n | n != nodeName :: TracesAt(node2PodTraces, n) == TracesAt(old(node2PodTraces), n)
    {
      var res := [pt];
      var list := TracesAt(node2PodTraces, nodeName);
      for k := 0 to |list|
        invariant res == [pt] + LiveAfter(list[..k], fakeCurrentTime)
      {
        assert list[..k + 1][..k] == list[..k];
        if list[k].endTime > fakeCurrentTime {
          res := res + [list[k]];
        }
      }
      assert list[..|list|] == list;
      res := Sort(EndsBy, res);
      node2PodTraces := node2PodTraces[nodeName := res];
    }

    method RecordPod(a: Arrival)
      requires Valid()
      modifies `traces, `allEndTime, `runningPodNum, `node2PodTraces, `endMap, `history
      ensures Valid() && history == Then(old(history), a)
      ensures multiset(traces) == multiset(old(traces)) + multiset{TraceOf(a)}
      ensures old(NodesComplete()) ==> NodesComplete()
    {
      RecordTimes(a);
      RecordTrace(a);
      Remember(a);
    }

    /** When the node and its devices are free again. */
    method RecordTimes(a: Arrival)
      requires EndsKnown(endMap, history) && allEndTime == LatestEnd(history)
      requires ListsSound(node2PodTraces, history)
      modifies `allEndTime, `node2PodTraces, `endMap
      ensures EndsKnown(endMap, Then(history, a)) && allEndTime == LatestEnd(Then(history, a))
      ensures ListsSound(node2PodTraces, Then(history, a))
      ensures old(NodesComplete()) ==> Listed(node2PodTraces, Then(history, a), fakeCurrentTime)
    {
      RecordEnd(a);
      RecordOnNode(a);
    }

    ghost method Remember(a: Arrival)
      requires Accounted(Recorded(Then(history, a)), TotalWork(Then(history, a)))
      requires allEndTime == LatestEnd(Then(history, a)) && EndsKnown(endMap, Then(history, a))
      requires ListsSound(node2PodTraces, Then(history, a))
      modifies `history
      ensures Valid() && history == Then(old(history), a)
    {
      history := Then(history, a);
    }

    method RecordEnd(a: Arrival)
      requires EndsKnown(endMap, history) && allEndTime == LatestEnd(history)
      modifies `endMap, `allEndTime
      ensures EndsKnown(endMap, Then(history, a)) && allEndTime == LatestEnd(Then(history, a))
    {
      SetEndTimes(a.nodeName, a.idl, a.endTime);
      if a.endTime > allEndTime {
        allEndTime := a.endTime;
      }
    }

    method RecordTrace(a: Arrival)
      requires Accounted(Recorded(history), TotalWork(history))
      modifies `traces, `runningPodNum
      ensures Accounted(Recorded(Then(history, a)), TotalWork(Then(history, a)))
      ensures multiset(traces) == multiset(old(traces)) + multiset{TraceOf(a)}
    {
      HeapPush(TraceOf(a));
      runningPodNum := runningPodNum + 1;
      WorkOneMore(old(traces), traces, TraceOf(a));
    }

    method RecordOnNode(a: Arrival)
      requires ListsSound(node2PodTraces, history)
      modifies `node2PodTraces
      ensures ListsSound(node2PodTraces, Then(history, a))
      ensures old(NodesComplete()) ==> Listed(node2PodTraces, Then(history, a), fakeCurrentTime)
    {
      SetPodTraceOnNode(a.nodeName, TraceOf(a));
      ListsStaySound(old(node2PodTraces), node2PodTraces, history, a, fakeCurrentTime);
    }

    /** The released pods so far: sorted, ended by t, and no later than what still runs. */
    ghost predicate Draining(res: seq<PodTrace>, t: int)
      reads `traces
    {
      Drains(res, t, traces)
    }

    /** Pops the pods that have ended by t; one that has not goes back on the heap. */
    method ReleasePodBeforeTime(t: int) returns (res: seq<PodTrace>)
      requires Valid()
      modifies `traces, `runningPodNum, `completedPodNum, `gpuUtils, `released
      ensures Valid() && released == old(released) + multiset(res)
      ensures multiset(old(traces)) == multiset(res) + multiset(traces)
      ensures ByEnd(res) && NoneAfter(res, t)
      ensures forall tr | tr in traces :: tr.endTime > t
    {
      res := [];
      ghost var all, total := Recorded(history), TotalWork(history);
      var more := true;
      while |traces| > 0 && more
        invariant Accounted(all, total) && Draining(res, t)
        invariant released == old(released) + multiset(res)
        invariant !more ==> forall tr | tr in traces :: tr.endTime > t
        decreases |traces|, more
      {
        res, more := ReleaseNext(res, t, all, total, old(released));
      }
      if res != [] {
        ByEndLast(res);
      }
      SameRest(multiset(old(traces)), old(released), multiset(traces), multiset(res));
    }

    method ReleaseNext(res0: seq<PodTrace>, t: int, ghost all: multiset<PodTrace>, ghost total: real,
                       ghost start: multiset<PodTrace>)
      returns (res: seq<PodTrace>, more: bool)
      requires Accounted(all, total) && Draining(res0, t) && 0 < |traces|
      requires released == start + multiset(res0)
      modifies `traces, `runningPodNum, `completedPodNum, `gpuUtils, `released
      ensures Accounted(all, total) && Draining(res, t)
      ensures more ==> |traces| < |old(traces)|
      ensures !more ==> |traces| == |old(traces)| && forall tr | tr in traces :: tr.endTime > t
      ensures released == start + multiset(res)
    {
      var pt := PopOrPutBack(t);
      more := !(pt.endTime > t);
      res := res0;
      if more {
        Complete(pt, all, total);
        Drained(res, t, pt, old(traces), traces);
        res := res + [pt];
      }
    }

    method PopOrPutBack(t: int) returns (pt: PodTrace)
      requires IsHeap(EndOf, traces) && 0 < |traces|
      modifies `traces
      ensures IsHeap(EndOf, traces)
      ensures multiset(old(traces)) == multiset(traces) + if pt.endTime > t then multiset{} else multiset{pt}
      ensures |traces| == |old(traces)| - if pt.endTime > t then 0 else 1
      ensures WorkOf(old(traces)) == WorkOf(traces) + if pt.endTime > t then 0.0 else Work(pt)
      ensures pt in old(traces) && forall tr | tr in traces :: tr in old(traces) && pt.endTime <= tr.endTime
    {
      pt := HeapPop();
      ghost var rest := traces;
      WorkOneMore(rest, old(traces), pt);
      if pt.endTime > t {
        HeapPush(pt);
        WorkOneMore(rest, traces, pt);
      }
    }

    method Complete(pt: PodTrace, ghost all: multiset<PodTrace>, ghost total: real)
      requires IsHeap(EndOf, traces) && runningPodNum == |traces| + 1 && completedPodNum == |released|
      requires multiset(traces) + multiset{pt} + released == all
      requires gpuUtils + (WorkOf(traces) + Work(pt)) == total
      modifies `runningPodNum, `completedPodNum, `gpuUtils, `released
      ensures Accounted(all, total) && released == old(released) + multiset{pt}
    {
      runningPodNum := runningPodNum - 1;
      completedPodNum := completedPodNum + 1;
      gpuUtils := gpuUtils + Work(pt);
      released := released + multiset{pt};
    }

    // ----- the arrival loop's two uses of the clock -----

    /** Valid and NodesComplete, sealed. */
    ghost predicate Kept()
      reads this
    {
      forall key {:trigger Open(ClockSeal, key)} :: Open(ClockSeal, key) ==> Valid() && NodesComplete()
    }

    lemma KeptIsValid()
      ensures Kept() <==> Valid() && NodesComplete()
    {
      assert Open(ClockSeal, 0);
    }

    method Advance(t: int)
      requires Kept() && fakeCurrentTime <= t
      modifies `fakeCurrentTime
      ensures Kept() && fakeCurrentTime == t
    {
      KeptIsValid();
      SetCurrentTime(t);
      KeptIsValid();
    }

    method Expire(t: int) returns (res: seq<PodTrace>)
      requires Kept()
      modifies `traces, `runningPodNum, `completedPodNum, `gpuUtils, `released
      ensures Kept() && multiset(old(traces)) == multiset(res) + multiset(traces)
      ensures NoneAfter(res, t) && forall tr | tr in traces :: tr.endTime > t
    {
      KeptIsValid();
      res := ReleasePodBeforeTime(t);
      KeptIsValid();
    }

    method Enter(a: Arrival)
      requires Kept()
      modifies `traces, `allEndTime, `runningPodNum, `node2PodTraces, `endMap, `history
      ensures Kept() && history == Then(old(history), a)
      ensures multiset(traces) == multiset(old(traces)) + multiset{TraceOf(a)}
    {
      KeptIsValid();
      RecordPod(a);
      KeptIsValid();
    }

    /** The utilisation integral once every pod has run to its end: the GPUs in use by any pod ever
        recorded, summed over time, so no release changes it. */
    method GpuUtilsAfterAll() returns (r: real)
      requires Valid()
      ensures r == TotalWork(history)
      ensures forall lo, hi | Spans(history, lo, hi) :: r == Utilisation(history, lo, hi)
    {
      r := gpuUtils;
      for k := 0 to |traces|
        invariant r == gpuUtils + WorkOf(traces[..k])
      {
        assert traces[..k + 1][..k] == traces[..k];
        r := r + Work(traces[k]);
      }
      assert traces[..|traces|] == traces;
      forall lo, hi | Spans(history, lo, hi) ensures r == Utilisation(history, lo, hi) {
        WorkIsUtilisation(history, lo, hi);
      }
    }

    /** Completed and running pods: together all that were recorded. */
    method GetPodNum() returns (completed: int, running: int)
      requires Valid()
      ensures completed + running == |Recorded(history)| && running == |traces| && completed == |released|
    {
      assert |multiset(traces)| == |traces|;
      completed, running := completedPodNum, runningPodNum;
    }

    /** When the device is free of every pod ever recorded on it. */
    method GetEndTime(nodeName: string, gpuId: int) returns (e: int)
      requires Valid()
      ensures e == DeviceEnd(history, nodeName, gpuId)
    {
      KeyEndIsDevices(history, nodeName, gpuId);
      e := EndAt(endMap, EndKey(nodeName, gpuId));
    }

    /** When the node's last pod ends. While one is still to end this is the latest end of any
        pod ever recorded there. */
    method GetLastPodTraceTime(nodeName: string) returns (e: int)
      requires Valid()
      ensures NodesComplete() && (exists tr | tr in RecordedOn(history, nodeName) :: tr.endTime > fakeCurrentTime) ==>
        && (exists tr | tr in RecordedOn(history, nodeName) :: tr.endTime == e)
        && forall tr | tr in RecordedOn(history, nodeName) :: tr.endTime <= e
    {
      if NodesComplete() && exists tr | tr in RecordedOn(history, nodeName) :: tr.endTime > fakeCurrentTime {
        LastIsLatest(node2PodTraces, history, fakeCurrentTime, nodeName);
      }
      var list := TracesAt(node2PodTraces, nodeName);
      e := if |list| == 0 then -1 else list[|list| - 1].endTime;
    }
  }

  lemma RootsLeast(traces: seq<PodTrace>)
    requires IsHeap(EndOf, traces) && 0 < |traces|
    ensures forall tr | tr in traces :: traces[0].endTime <= tr.endTime
  {
    forall c | 0 <= c < |traces| ensures traces[0].endTime <= traces[c].endTime {
      RootLeast(EndOf, traces, |traces|, c);
    }
  }

  lemma DropLast(s: seq<PodTrace>)
    requires 0 < |s|
    ensures multiset(s) == multiset(s[..|s| - 1]) + multiset{s[|s| - 1]}
  {
    assert s == s[..|s| - 1] + [s[|s| - 1]];
  }

  lemma SameRest(before: multiset<PodTrace>, released: multiset<PodTrace>, after: multiset<PodTrace>,
                 res: multiset<PodTrace>)
    requires before + released == after + (released + res)
    ensures before == res + after
  {
    assert before == before + released - released;
    assert after + (released + res) - released == res + after;
  }
}
