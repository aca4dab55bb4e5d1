/** The typical pods of a workload: the most frequent specs up to a popularity threshold, as a
    distribution whose order does not depend on how the counting map is iterated. */
module TypicalPods {
  import opened Bags
  import opened Frag
  import opened FragMemo
  import opened Ledger
  import opened Resource
  import opened Seals
  import opened Sorting
  import opened SpecLists

  // ----- the order ---------------------------------------------------------------------------

  /** Strings compare by their first difference; a proper prefix comes first. */
  predicate StringLess(a: string, b: string) {
    if b == "" then false
    else if a == "" then true
    else if a[0] != b[0] then a[0] < b[0]
    else StringLess(a[1..], b[1..])
  }

  lemma {:induction false} StringOrder(a: string, b: string)
    ensures !(StringLess(a, b) && StringLess(b, a))
    ensures StringLess(a, b) || StringLess(b, a) || a == b
  {
    if a != "" && b != "" && a[0] == b[0] {
      StringOrder(a[1..], b[1..]);
      assert a == [a[0]] + a[1..] && b == [b[0]] + b[1..];
    }
  }

  lemma {:induction false} StringTransitive(a: string, b: string, c: string)
    requires !StringLess(a, b) && !StringLess(b, c)
    ensures !StringLess(a, c)
  {
    if a != "" && b != "" && c != "" && a[0] == b[0] == c[0] {
      StringTransitive(a[1..], b[1..], c[1..]);
    }
  }

  predicate PodResourceLess(a: PodResource, b: PodResource) {
    if a.milliCpu != b.milliCpu then a.milliCpu < b.milliCpu
    else if a.milliGpu != b.milliGpu then a.milliGpu < b.milliGpu
    else if a.gpuNumber != b.gpuNumber then a.gpuNumber < b.gpuNumber
    else StringLess(a.gpuType, b.gpuType)
  }

  predicate TargetPodLess(a: TargetPod, b: TargetPod) {
    if a.percentage != b.percentage then a.percentage < b.percentage
    else PodResourceLess(a.res, b.res)
  }

  /** Less is a strict total order: of two target pods exactly one is less, or they are equal. */
  lemma TargetPodOrder(a: TargetPod, b: TargetPod)
    ensures !(TargetPodLess(a, b) && TargetPodLess(b, a))
    ensures TargetPodLess(a, b) || TargetPodLess(b, a) || a == b
  {
    StringOrder(a.res.gpuType, b.res.gpuType);
  }

  lemma TargetPodTransitive(a: TargetPod, b: TargetPod, c: TargetPod)
    requires !TargetPodLess(a, b) && !TargetPodLess(b, c)
    ensures !TargetPodLess(a, c)
  {
    if !StringLess(a.res.gpuType, b.res.gpuType) && !StringLess(b.res.gpuType, c.res.gpuType) {
      StringTransitive(a.res.gpuType, b.res.gpuType, c.res.gpuType);
    }
  }

  /** The order of the reversed sort. */
  predicate NotLess(a: TargetPod, b: TargetPod) { !TargetPodLess(a, b) }

  lemma NotLessOrders()
    ensures TotalPreorder(NotLess)
  {
    forall a, b ensures NotLess(a, b) || NotLess(b, a) {
      TargetPodOrder(a, b);
    }
    forall a, b, c | NotLess(a, b) && NotLess(b, c) ensures NotLess(a, c) {
      TargetPodTransitive(a, b, c);
    }
  }

  // ----- one entry for each spec -----------------------------------------------------------------

  /** The list of a counting map, most frequent first. */
  ghost predicate SortedEntries(pl: seq<TargetPod>, counts: Weights) {
    EntriesOf(pl, counts) && Chain(NotLess, pl)
  }

  lemma EntryIn(pl: seq<TargetPod>, counts: Weights, t: TargetPod)
    requires EntriesOf(pl, counts)
    ensures t in pl <==> t.res in counts && t.percentage == counts[t.res]
  {
  }

  /** The map determines the list: neither the iteration order nor the sort's treatment of ties
      can show. */
  lemma SortedEntriesUnique(a: seq<TargetPod>, b: seq<TargetPod>, counts: Weights)
    requires SortedEntries(a, counts) && SortedEntries(b, counts)
    ensures a == b
  {
    NotLessOrders();
    forall t ensures multiset(a)[t] == multiset(b)[t] {
      EntryIn(a, counts, t);
      EntryIn(b, counts, t);
      OneEachOnce(a, t);
      OneEachOnce(b, t);
    }
    assert multiset(a) == multiset(b);
    forall i, j | 0 <= i < j < |a| ensures NotLess(a[i], a[j]) {
      ChainPair(NotLess, a, i, j);
    }
    forall i, j | 0 <= i < j < |b| ensures NotLess(b[i], b[j]) {
      ChainPair(NotLess, b, i, j);
    }
    forall x, y | x in a && y in a && NotLess(x, y) && NotLess(y, x) ensures x == y {
      TargetPodOrder(x, y);
    }
    SortedUnique(NotLess, a, b);
  }

  method SortTargetPodInDecreasingCount(counts: Weights) returns (pl: seq<TargetPod>)
    ensures SortedEntries(pl, counts)
  {
    var unsorted, _ := CollectEntries(counts);
    NotLessOrders();
    pl := Sort(NotLess, unsorted);
    EntriesPermute(unsorted, pl, counts);
  }

  // ----- counting the workload -----------------------------------------------------------------

  datatype TypicalPodsConfig = TypicalPodsConfig(
    isInvolvedCpuPods: bool,
    podPopularityThreshold: int,
    podIncreaseStep: int,
    gpuResWeight: real)

  const MAX_COUNTED_PODS := 10000
  const DEFAULT_TYPICAL_POD_POPULARITY_THRESHOLD := 60
  const DEFAULT_TYPICAL_POD_INCREASE_STEP := 10

  function Heavier(gpuNumber: int, weight: real): real { 1.0 + gpuNumber as real * weight }

  /** What one pod counts: nothing for a pod without GPU unless these are involved, more for
      whole GPUs when they carry a weight, else 1. */
  function PodWeight(cfg: TypicalPodsConfig, res: PodResource): real {
    if !cfg.isInvolvedCpuPods && res.gpuNumber == 0 then 0.0
    else if cfg.gpuResWeight > 0.0 && res.milliGpu == MILLI then Heavier(res.gpuNumber, cfg.gpuResWeight)
    else 1.0
  }

  predicate Counts(cfg: TypicalPodsConfig, res: PodResource) {
    cfg.isInvolvedCpuPods || res.gpuNumber != 0
  }

  lemma PodWeightPositive(cfg: TypicalPodsConfig, res: PodResource)
    requires Counts(cfg, res) && 0 <= res.gpuNumber
    ensures 0.0 < PodWeight(cfg, res)
  {
  }

  function WorkloadWeight(cfg: TypicalPodsConfig, pods: seq<Pod>): real {
    if pods == [] then 0.0
    else WorkloadWeight(cfg, pods[..|pods| - 1]) + PodWeight(cfg, pods[|pods| - 1].Res())
  }

  function SpecWeight(cfg: TypicalPodsConfig, pods: seq<Pod>, k: PodResource): real {
    if pods == [] then 0.0
    else SpecWeight(cfg, pods[..|pods| - 1], k) + if pods[|pods| - 1].Res() == k then PodWeight(cfg, k) else 0.0
  }

  predicate Occurs(cfg: TypicalPodsConfig, pods: seq<Pod>, k: PodResource) {
    Counts(cfg, k) && exists i | 0 <= i < |pods| :: pods[i].Res() == k
  }

  predicate SpecCounted(cfg: TypicalPodsConfig, pods: seq<Pod>, counts: Weights, k: PodResource) {
    WeightAt(counts, k) == SpecWeight(cfg, pods, k) && (k in counts <==> Occurs(cfg, pods, k))
  }

  ghost predicate SpecsCounted(cfg: TypicalPodsConfig, pods: seq<Pod>, counts: Weights) {
    forall k :: SpecCounted(cfg, pods, counts, k)
  }

  /** Each spec that counts has its weight; all are positive, and they add up to the workload's. */
  ghost predicate CountsOf(cfg: TypicalPodsConfig, pods: seq<Pod>, counts: Weights, total: real) {
    && SpecsCounted(cfg, pods, counts) && (forall k | k in counts :: 0.0 < counts[k])
    && total == Total(counts) == WorkloadWeight(cfg, pods)
  }

  lemma TotalRaise(m: Weights, k: PodResource, w: real)
    ensures Total(m[k := WeightAt(m, k) + w]) == Total(m) + w
  {
    TotalWithout(m[k := WeightAt(m, k) + w], k);
    assert m[k := WeightAt(m, k) + w] - {k} == m - {k};
    if k in m {
      TotalWithout(m, k);
    } else {
      assert m - {k} == m;
    }
  }

  predicate Demands(pods: seq<Pod>) {
    forall i | 0 <= i < |pods| :: 0 <= pods[i].gpuCount
  }

  lemma SkippedPod(cfg: TypicalPodsConfig, pods: seq<Pod>, p: Pod, counts: Weights, total: real)
    requires CountsOf(cfg, pods, counts, total) && !Counts(cfg, p.Res())
    ensures CountsOf(cfg, pods + [p], counts, total)
  {
    assert (pods + [p])[..|pods|] == pods;
    forall k ensures SpecCounted(cfg, pods + [p], counts, k) {
      assert SpecCounted(cfg, pods, counts, k);
      OccursAppend(cfg, pods, p, k);
    }
  }

  lemma OccursAppend(cfg: TypicalPodsConfig, pods: seq<Pod>, p: Pod, k: PodResource)
    ensures Occurs(cfg, pods + [p], k) <==> Occurs(cfg, pods, k) || (Counts(cfg, k) && p.Res() == k)
  {
    var pods' := pods + [p];
    if Occurs(cfg, pods, k) {
      var i :| 0 <= i < |pods| && pods[i].Res() == k;
      assert pods'[i].Res() == k;
    }
    if p.Res() == k {
      assert pods'[|pods|].Res() == k;
    }
  }

  lemma CountedPod(cfg: TypicalPodsConfig, pods: seq<Pod>, p: Pod, counts: Weights, total: real)
    requires CountsOf(cfg, pods, counts, total) && Counts(cfg, p.Res()) && 0 <= p.gpuCount
    ensures var w := PodWeight(cfg, p.Res());
      CountsOf(cfg, pods + [p], counts[p.Res() := WeightAt(counts, p.Res()) + w], total + w)
  {
    assert (pods + [p])[..|pods|] == pods;
    PodWeightPositive(cfg, p.Res());
    TotalRaise(counts, p.Res(), PodWeight(cfg, p.Res()));
    CountedSpecs(cfg, pods, p, counts);
  }

  lemma CountedSpecs(cfg: TypicalPodsConfig, pods: seq<Pod>, p: Pod, counts: Weights)
    requires SpecsCounted(cfg, pods, counts) && Counts(cfg, p.Res())
    ensures SpecsCounted(cfg, pods + [p], counts[p.Res() := WeightAt(counts, p.Res()) + PodWeight(cfg, p.Res())])
  {
    var counts' := counts[p.Res() := WeightAt(counts, p.Res()) + PodWeight(cfg, p.Res())];
    forall k ensures SpecCounted(cfg, pods + [p], counts', k) {
      assert SpecCounted(cfg, pods, counts, k);
      CountedSpec(cfg, pods, p, counts, k);
    }
  }

  lemma CountedSpec(cfg: TypicalPodsConfig, pods: seq<Pod>, p: Pod, counts: Weights, k: PodResource)
    requires SpecCounted(cfg, pods, counts, k) && Counts(cfg, p.Res())
    ensures SpecCounted(cfg, pods + [p], counts[p.Res() := WeightAt(counts, p.Res()) + PodWeight(cfg, p.Res())], k)
  {
    assert (pods + [p])[..|pods|] == pods;
    OccursAppend(cfg, pods, p, k);
  }

  method WeightOf(cfg: TypicalPodsConfig, res: PodResource) returns (weightedCnt: real)
    requires Counts(cfg, res)
    ensures weightedCnt == PodWeight(cfg, res)
  {
    weightedCnt := 1.0;
    if cfg.gpuResWeight > 0.0 {
      if res.milliGpu == MILLI {
        weightedCnt := 1.0 + res.gpuNumber as real * cfg.gpuResWeight;
      }
    }
  }

  /** CountsOf, sealed. */
  ghost predicate CountsKept(cfg: TypicalPodsConfig, pods: seq<Pod>, counts: Weights, total: real) {
    forall key {:trigger Open(CountsSeal, key)} :: Open(CountsSeal, key) ==> CountsOf(cfg, pods, counts, total)
  }

  lemma CountsKeptMeans(cfg: TypicalPodsConfig, pods: seq<Pod>, counts: Weights, total: real)
    ensures CountsKept(cfg, pods, counts, total) <==> CountsOf(cfg, pods, counts, total)
  {
    assert Open(CountsSeal, 0);
  }

  lemma CountNext(cfg: TypicalPodsConfig, pods: seq<Pod>, p: Pod, counts: Weights, total: real)
    requires CountsKept(cfg, pods, counts, total) && 0 <= p.gpuCount
    ensures if Counts(cfg, p.Res()) then
              CountsKept(cfg, pods + [p], counts[p.Res() := WeightAt(counts, p.Res()) + PodWeight(cfg, p.Res())],
                         total + PodWeight(cfg, p.Res()))
            else CountsKept(cfg, pods + [p], counts, total)
  {
    CountsKeptMeans(cfg, pods, counts, total);
    if Counts(cfg, p.Res()) {
      var w := PodWeight(cfg, p.Res());
      CountedPod(cfg, pods, p, counts, total);
      CountsKeptMeans(cfg, pods + [p], counts[p.Res() := WeightAt(counts, p.Res()) + w], total + w);
    } else {
      SkippedPod(cfg, pods, p, counts, total);
      CountsKeptMeans(cfg, pods + [p], counts, total);
    }
  }

  method CountPods(cfg: TypicalPodsConfig, pods: seq<Pod>) returns (counts: Weights, total: real)
    requires Demands(pods)
    ensures CountsOf(cfg, pods, counts, total)
  {
    counts, total := map[], 0.0;
    CountsKeptMeans(cfg, [], counts, total);
    for i := 0 to |pods|
      invariant CountsKept(cfg, pods[..i], counts, total)
    {
      assert pods[..i + 1] == pods[..i] + [pods[i]];
      CountNext(cfg, pods[..i], pods[i], counts, total);
      var res := pods[i].Res();
      if !cfg.isInvolvedCpuPods && res.gpuNumber == 0 {
        continue;
      }
      var weightedCnt := WeightOf(cfg, res);
      counts := counts[res := WeightAt(counts, res) + weightedCnt];
      total := total + weightedCnt;
    }
    assert pods[..|pods|] == pods;
    CountsKeptMeans(cfg, pods, counts, total);
  }

  // ----- normalising -----------------------------------------------------------------------------

  function Scaled(pl: seq<TargetPod>, unit: real): (r: seq<TargetPod>)
    requires unit != 0.0
    ensures |r| == |pl|
    ensures forall i | 0 <= i < |pl| :: r[i] == pl[i].(percentage := Over(pl[i].percentage, unit))
  {
    seq(|pl|, i requires 0 <= i < |pl| => pl[i].(percentage := Over(pl[i].percentage, unit)))
  }

  lemma {:induction false} ScaledTotal(pl: seq<TargetPod>, unit: real)
    requires unit != 0.0
    ensures TotalPercentage(Scaled(pl, unit)) == Over(TotalPercentage(pl), unit)
  {
    if pl != [] {
      var k := |pl| - 1;
      ScaledTotal(pl[..k], unit);
      assert Scaled(pl, unit)[..k] == Scaled(pl[..k], unit);
      OverSum(TotalPercentage(pl[..k]), pl[k].percentage, unit);
    }
  }

  lemma ScaledOrder(a: TargetPod, b: TargetPod, unit: real)
    requires 0.0 < unit && NotLess(a, b)
    ensures NotLess(a.(percentage := Over(a.percentage, unit)), b.(percentage := Over(b.percentage, unit)))
  {
  }

  lemma {:induction false} ScaledChain(pl: seq<TargetPod>, unit: real)
    requires 0.0 < unit && Chain(NotLess, pl)
    ensures Chain(NotLess, Scaled(pl, unit))
  {
    if |pl| > 1 {
      var k := |pl| - 1;
      ScaledChain(pl[..k], unit);
      assert Scaled(pl, unit)[..k] == Scaled(pl[..k], unit);
      ScaledOrder(pl[k - 1], pl[k], unit);
    }
  }

  lemma {:induction false} ChainTake(pl: seq<TargetPod>, n: nat)
    requires Chain(NotLess, pl) && n <= |pl|
    ensures Chain(NotLess, pl[..n])
  {
    if n == |pl| {
      assert pl[..n] == pl;
    } else {
      ChainTake(pl[..|pl| - 1], n);
      assert pl[..|pl| - 1][..n] == pl[..n];
    }
  }

  predicate AllPositive(pl: seq<TargetPod>) {
    forall i | 0 <= i < |pl| :: 0.0 < pl[i].percentage
  }

  lemma {:induction false} TakeTotal(pl: seq<TargetPod>, m: nat, n: nat)
    requires AllPositive(pl) && m <= n <= |pl|
    ensures TotalPercentage(pl[..m]) <= TotalPercentage(pl[..n])
    ensures m < n ==> TotalPercentage(pl[..m]) < TotalPercentage(pl[..n])
  {
    if m < n {
      TakeTotal(pl, m, n - 1);
      assert pl[..n][..n - 1] == pl[..n - 1];
    }
  }

  // ----- how many specs are typical ------------------------------------------------------------------

  function Threshold(cfg: TypicalPodsConfig): int {
    if cfg.podPopularityThreshold > 0 then cfg.podPopularityThreshold else DEFAULT_TYPICAL_POD_POPULARITY_THRESHOLD
  }

  function IncreaseStep(cfg: TypicalPodsConfig): (step: nat)
    ensures 0 < step
  {
    if cfg.podIncreaseStep > 0 then cfg.podIncreaseStep else DEFAULT_TYPICAL_POD_INCREASE_STEP
  }

  function Percent(threshold: int, total: real): real { threshold as real * total / 100.0 }

  function Expected(cfg: TypicalPodsConfig, total: real): real { Percent(Threshold(cfg), total) }

  lemma PercentWithin(threshold: int, total: real)
    requires 0 < threshold && 0.0 < total
    ensures 0.0 < Percent(threshold, total)
    ensures Percent(threshold, total) <= total <==> threshold <= 100
  {
  }

  function Upto(i: nat, step: nat, n: nat): nat {
    if i + step < n then i + step else n
  }

  /** Whole steps of specs, most frequent first, until they reach what is expected. */
  function TypicalCount(pl: seq<TargetPod>, expected: real, step: nat, i: nat): (n: nat)
    requires i <= |pl| && 0 < step
    ensures i <= n <= |pl|
    decreases |pl| - i
  {
    if expected <= TotalPercentage(pl[..i]) || i == |pl| then i
    else TypicalCount(pl, expected, step, Upto(i, step, |pl|))
  }

  /** The chosen specs reach what is expected, and without the last step of them they do not. */
  lemma {:induction false} TypicalCountReaches(pl: seq<TargetPod>, expected: real, step: nat, i: nat)
    requires i <= |pl| && 0 < step && expected <= TotalPercentage(pl) && AllPositive(pl)
    ensures var n := TypicalCount(pl, expected, step, i);
      && i <= n <= |pl| && expected <= TotalPercentage(pl[..n])
      && (i < n ==> TotalPercentage(pl[..if i + step < n then n - step else i]) < expected)
    decreases |pl| - i
  {
    assert pl[..|pl|] == pl;
    if !(expected <= TotalPercentage(pl[..i]) || i == |pl|) {
      var j := Upto(i, step, |pl|);
      var n := TypicalCount(pl, expected, step, j);
      TypicalCountReaches(pl, expected, step, j);
      if j < n {
        TakeTotal(pl, n - step, if j + step < n then n - step else j);
      } else if i + step < n {
        assert false;
      }
    }
  }

  /** With a threshold above 100 no number of specs is enough, so the source's loop would not
      end. */
  lemma NeverEnough(cfg: TypicalPodsConfig, pl: seq<TargetPod>, total: real, i: nat)
    requires i <= |pl| && AllPositive(pl) && 0.0 < total && total == TotalPercentage(pl)
    requires 100 < cfg.podPopularityThreshold
    ensures TotalPercentage(pl[..i]) < Expected(cfg, total)
  {
    assert pl[..|pl|] == pl;
    TakeTotal(pl, i, |pl|);
    PercentWithin(cfg.podPopularityThreshold, total);
  }

  /** The first n specs as shares of the total, and of what they come to when that is less. */
  function Chopped(pl: seq<TargetPod>, n: nat, total: real): seq<TargetPod>
    requires n <= |pl| && 0.0 < total && 0.0 < Over(TotalPercentage(pl[..n]), total)
  {
    if n == |pl| then Scaled(pl, total)
    else Scaled(Scaled(pl[..n], total), Over(TotalPercentage(pl[..n]), total))
  }

  /** How many specs GetTypicalPods keeps of a sorted list of counts. */
  function KeptCount(cfg: TypicalPodsConfig, pl: seq<TargetPod>, total: real): (n: nat)
    ensures n <= |pl|
  {
    TypicalCount(pl, Expected(cfg, total), IncreaseStep(cfg), 0)
  }

  lemma KeptReaches(cfg: TypicalPodsConfig, pl: seq<TargetPod>, total: real)
    requires 0.0 < total && total == TotalPercentage(pl) && AllPositive(pl) && Threshold(cfg) <= 100
    ensures var n := KeptCount(cfg, pl, total);
      && Expected(cfg, total) <= TotalPercentage(pl[..n])
      && 0.0 < TotalPercentage(pl[..n]) && 0.0 < Over(TotalPercentage(pl[..n]), total)
      && TotalPercentage(pl[..if IncreaseStep(cfg) < n then n - IncreaseStep(cfg) else 0]) < Expected(cfg, total)
  {
    PercentWithin(Threshold(cfg), total);
    TypicalCountReaches(pl, Expected(cfg, total), IncreaseStep(cfg), 0);
    OverPositive(TotalPercentage(pl[..KeptCount(cfg, pl, total)]), total);
  }

  /** The inner loop, in place: one step of entries become shares of the total. */
  method NormaliseStep(pl: seq<TargetPod>, total: real, list0: seq<TargetPod>, i0: nat, podResNum: nat, cum0: real)
    returns (list: seq<TargetPod>, i: nat, cumNumPods: real)
    requires 0.0 < total && i0 <= |pl| && i0 <= podResNum
    requires cum0 == TotalPercentage(pl[..i0]) && list0 == Scaled(pl[..i0], total) + pl[i0..]
    ensures i == if podResNum < |pl| then podResNum else |pl|
    ensures cumNumPods == TotalPercentage(pl[..i]) && list == Scaled(pl[..i], total) + pl[i..]
  {
    list, i, cumNumPods := list0, i0, cum0;
    while i < podResNum && i < |pl|
      invariant i <= |pl| && i <= podResNum
      invariant cumNumPods == TotalPercentage(pl[..i]) && list == Scaled(pl[..i], total) + pl[i..]
    {
      ScaledNext(pl, total, i);
      cumNumPods := cumNumPods + list[i].percentage;
      list := list[i := list[i].(percentage := list[i].percentage / total)];
      i := i + 1;
    }
  }

  method NormaliseTop(pl: seq<TargetPod>, total: real, expected: real, step: nat)
    returns (list: seq<TargetPod>, i: nat, cumNumPods: real)
    requires 0.0 < total && 0 < step && expected <= TotalPercentage(pl)
    ensures i == TypicalCount(pl, expected, step, 0) <= |pl|
    ensures cumNumPods == TotalPercentage(pl[..i])
    ensures list == Scaled(pl[..i], total) + pl[i..]
  {
    var podResNum := 0;
    i, cumNumPods, list := 0, 0.0, pl;
    assert pl[..|pl|] == pl;
    while cumNumPods < expected
      invariant i <= |pl| && i <= podResNum && (i == podResNum || i == |pl|)
      invariant cumNumPods == TotalPercentage(pl[..i]) && list == Scaled(pl[..i], total) + pl[i..]
      invariant TypicalCount(pl, expected, step, i) == TypicalCount(pl, expected, step, 0)
      decreases |pl| - i
    {
      ghost var start := i;
      podResNum := podResNum + step;
      list, i, cumNumPods := NormaliseStep(pl, total, list, i, podResNum, cumNumPods);
      assert i == Upto(start, step, |pl|);
    }
  }

  lemma ScaledNext(pl: seq<TargetPod>, total: real, i: nat)
    requires 0.0 < total && i < |pl|
    ensures var list := Scaled(pl[..i], total) + pl[i..];
      && list[i] == pl[i]
      && list[i := pl[i].(percentage := Over(pl[i].percentage, total))] == Scaled(pl[..i + 1], total) + pl[i + 1..]
    ensures TotalPercentage(pl[..i + 1]) == TotalPercentage(pl[..i]) + pl[i].percentage
  {
    assert pl[..i + 1][..i] == pl[..i];
  }

  method DivideAll(pl: seq<TargetPod>, unit: real) returns (out: seq<TargetPod>)
    requires unit != 0.0
    ensures out == Scaled(pl, unit)
  {
    out := pl;
    for j := 0 to |pl|
      invariant |out| == |pl|
      invariant forall k | 0 <= k < |pl| :: out[k] == if k < j then Scaled(pl, unit)[k] else pl[k]
    {
      out := out[j := out[j].(percentage := out[j].percentage / unit)];
    }
  }

  function Considered(allPods: seq<Pod>): seq<Pod> {
    if |allPods| > MAX_COUNTED_PODS then allPods[..MAX_COUNTED_PODS] else allPods
  }

  lemma EntriesPositive(cfg: TypicalPodsConfig, pods: seq<Pod>, counts: Weights, total: real, pl: seq<TargetPod>)
    requires CountsOf(cfg, pods, counts, total) && SortedEntries(pl, counts)
    ensures AllPositive(pl) && total == TotalPercentage(pl)
    ensures total == 0.0 <==> pl == []
    ensures 0.0 <= total
  {
    forall i | 0 <= i < |pl| ensures 0.0 < pl[i].percentage {
      assert pl[i] in pl;
    }
    EntriesTotal(pl, counts);
    TakeTotal(pl, 0, |pl|);
    assert pl[..|pl|] == pl;
  }

  /** The kept specs of a sorted list, normalised. */
  method ChopTop(cfg: TypicalPodsConfig, pl: seq<TargetPod>, total: real) returns (out: seq<TargetPod>)
    requires 0.0 < total && total == TotalPercentage(pl) && AllPositive(pl) && Threshold(cfg) <= 100
    ensures KeptCount(cfg, pl, total) <= |pl| && 0.0 < Over(TotalPercentage(pl[..KeptCount(cfg, pl, total)]), total)
    ensures out == Chopped(pl, KeptCount(cfg, pl, total), total)
  {
    KeptReaches(cfg, pl, total);
    PercentWithin(Threshold(cfg), total);
    var i, cumNumPods;
    out, i, cumNumPods := NormaliseTop(pl, total, Percent(Threshold(cfg), total), IncreaseStep(cfg));
    if i < |pl| {
      assert out[..i] == Scaled(pl[..i], total);
      out := DivideAll(out[..i], cumNumPods / total);
    } else {
      assert pl[..i] == pl && pl[i..] == [];
    }
  }

  /** out is what the counts of the workload come to: sorted, cut and normalised. Where nothing
      counts, nothing is typical. */
  ghost predicate TypicalFor(cfg: TypicalPodsConfig, pods: seq<Pod>, counts: Weights, pl: seq<TargetPod>, total: real,
                             out: seq<TargetPod>) {
    && CountsOf(cfg, Considered(pods), counts, total) && SortedEntries(pl, counts)
    && (if 0.0 < total then
          && 0.0 < Over(TotalPercentage(pl[..KeptCount(cfg, pl, total)]), total)
          && out == Chopped(pl, KeptCount(cfg, pl, total), total)
        else out == pl == [])
  }

  ghost predicate Typical(cfg: TypicalPodsConfig, pods: seq<Pod>, out: seq<TargetPod>) {
    exists counts, pl, total :: TypicalFor(cfg, pods, counts, pl, total, out)
  }

  lemma CountsUnique(cfg: TypicalPodsConfig, pods: seq<Pod>, a: Weights, b: Weights, x: real, y: real)
    requires CountsOf(cfg, pods, a, x) && CountsOf(cfg, pods, b, y)
    ensures a == b && x == y
  {
    forall k ensures (k in a <==> k in b) && WeightAt(a, k) == WeightAt(b, k) {
      assert SpecCounted(cfg, pods, a, k) && SpecCounted(cfg, pods, b, k);
    }
    assert a.Keys == b.Keys;
    forall k | k in a ensures a[k] == b[k] {
      assert WeightAt(a, k) == WeightAt(b, k);
    }
  }

  /** The workload and the configuration determine the typical pods and their order. */
  lemma TypicalUnique(cfg: TypicalPodsConfig, pods: seq<Pod>, a: seq<TargetPod>, b: seq<TargetPod>)
    requires Typical(cfg, pods, a) && Typical(cfg, pods, b)
    ensures a == b
  {
    var ca: Weights, pa: seq<TargetPod>, ta: real :| TypicalFor(cfg, pods, ca, pa, ta, a);
    var cb: Weights, pb: seq<TargetPod>, tb: real :| TypicalFor(cfg, pods, cb, pb, tb, b);
    CountsUnique(cfg, Considered(pods), ca, cb, ta, tb);
    SortedEntriesUnique(pa, pb, ca);
  }

  method GetTypicalPods(allPods: seq<Pod>, cfg: TypicalPodsConfig) returns (out: seq<TargetPod>)
    requires Demands(allPods) && cfg.podPopularityThreshold <= 100
    ensures Typical(cfg, allPods, out)
  {
    var pods := allPods;
    if |pods| > MAX_COUNTED_PODS {
      pods := pods[..MAX_COUNTED_PODS];
    }
    var tgtPodResCntMap, total := CountPods(cfg, pods);
    var tgtPodList := SortTargetPodInDecreasingCount(tgtPodResCntMap);
    EntriesPositive(cfg, pods, tgtPodResCntMap, total, tgtPodList);
    if |tgtPodList| == 0 {
      out := tgtPodList;
    } else {
      out := ChopTop(cfg, tgtPodList, total);
    }
    assert TypicalFor(cfg, allPods, tgtPodResCntMap, tgtPodList, total, out);
  }

  /** Different specs, most frequent first, each with a positive weight. */
  ghost predicate Proper(pl: seq<TargetPod>) {
    AllPositive(pl) && OneEach(pl) && Chain(NotLess, pl)
  }

  lemma ShareOfTotal(pl: seq<TargetPod>, unit: real)
    requires Proper(pl) && 0.0 < unit
    ensures TotalPercentage(Scaled(pl, unit)) == Over(TotalPercentage(pl), unit) && Proper(Scaled(pl, unit))
  {
    ScaledTotal(pl, unit);
    ScaledChain(pl, unit);
    forall i | 0 <= i < |pl| ensures 0.0 < Scaled(pl, unit)[i].percentage {
      OverPositive(pl[i].percentage, unit);
    }
  }

  lemma ProperTake(pl: seq<TargetPod>, n: nat)
    requires Proper(pl) && n <= |pl|
    ensures Proper(pl[..n])
  {
    ChainTake(pl, n);
  }

  /** What is cut off is a distribution over different specs, most frequent first. */
  lemma ChoppedIsDistribution(pl: seq<TargetPod>, n: nat, total: real)
    requires Proper(pl) && n <= |pl| && 0.0 < total && total == TotalPercentage(pl)
    requires 0.0 < TotalPercentage(pl[..n]) && 0.0 < Over(TotalPercentage(pl[..n]), total)
    ensures TotalPercentage(Chopped(pl, n, total)) == 1.0 && Proper(Chopped(pl, n, total))
  {
    if n == |pl| {
      ShareOfTotal(pl, total);
      OverPositive(total, total);
    } else {
      var unit := Over(TotalPercentage(pl[..n]), total);
      ProperTake(pl, n);
      ShareOfTotal(pl[..n], total);
      ShareOfTotal(Scaled(pl[..n], total), unit);
      OverPositive(unit, unit);
    }
  }

  /** Something in the workload counts. */
  predicate SomeCounts(cfg: TypicalPodsConfig, pods: seq<Pod>) {
    exists i | 0 <= i < |pods| :: Counts(cfg, pods[i].Res())
  }

  lemma SomeCountsIffListed(cfg: TypicalPodsConfig, pods: seq<Pod>, counts: Weights, total: real, pl: seq<TargetPod>)
    requires CountsOf(cfg, pods, counts, total) && SortedEntries(pl, counts)
    ensures SomeCounts(cfg, pods) <==> pl != []
  {
    if pl != [] {
      assert pl[0] in pl && SpecCounted(cfg, pods, counts, pl[0].res);
    }
    if SomeCounts(cfg, pods) {
      var i :| 0 <= i < |pods| && Counts(cfg, pods[i].Res());
      assert SpecCounted(cfg, pods, counts, pods[i].Res());
      assert Has(pl, |pl|, pods[i].Res());
    }
  }

  /** The typical pods of a workload in which something counts: a distribution over different
      specs, most frequent first. */
  lemma TypicalIsDistribution(cfg: TypicalPodsConfig, pods: seq<Pod>, out: seq<TargetPod>)
    requires Typical(cfg, pods, out) && Threshold(cfg) <= 100
    ensures if SomeCounts(cfg, Considered(pods)) then TotalPercentage(out) == 1.0 && Proper(out) else out == []
  {
    var counts: Weights, pl: seq<TargetPod>, total: real :| TypicalFor(cfg, pods, counts, pl, total, out);
    EntriesPositive(cfg, Considered(pods), counts, total, pl);
    SomeCountsIffListed(cfg, Considered(pods), counts, total, pl);
    if pl != [] {
      KeptReaches(cfg, pl, total);
      ChoppedIsDistribution(pl, KeptCount(cfg, pl, total), total);
    }
  }

  lemma {:induction false} WeightOfProper(pl: seq<TargetPod>)
    requires AllPositive(pl) && TotalPercentage(pl) <= 1.0
    ensures Weight(pl) == TotalPercentage(pl)
    ensures 0.0 <= TotalPercentage(pl)
  {
    if pl != [] {
      var front := pl[..|pl| - 1];
      TakeTotal(pl, 0, |front|);
      TakeTotal(pl, |front|, |pl|);
      assert pl[..|pl|] == pl;
      WeightOfProper(front);
    }
  }

  /** Against the typical pods of a workload in which something counts, the fragmentation buckets
      share out a node's idle milli exactly. */
  lemma TypicalPodsConserve(cfg: TypicalPodsConfig, pods: seq<Pod>, out: seq<TargetPod>, node: NodeResource)
    requires Typical(cfg, pods, out) && Threshold(cfg) <= 100 && SomeCounts(cfg, Considered(pods)) && ValidNode(node)
    ensures AtMostWhole(out)
    ensures SumAll(FragData(node, out)) == SumBy(Idle, node.milliGpuLeftList) as real
  {
    TypicalIsDistribution(cfg, pods, out);
    WeightOfProper(out);
    FragConserved(node, out);
  }
}
