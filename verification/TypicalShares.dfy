/** The typical pods told by the workload they stand for: how many pods each of them stands for,
    how much of the workload they cover, and that no other spec is more frequent. */
module TypicalShares {
  import opened Frag
  import opened Ledger
  import opened Resource
  import opened Sorting
  import opened SpecLists
  import opened TypicalPods

  // ----- the weight of a spec ------------------------------------------------------------------

  /** How many of the pods are of the spec. */
  function PodsOf(pods: seq<Pod>, k: PodResource): nat {
    if pods == [] then 0 else PodsOf(pods[..|pods| - 1], k) + if pods[|pods| - 1].Res() == k then 1 else 0
  }

  function TimesCount(w: real, n: nat): real { w * n as real }

  lemma TimesNext(w: real, n: nat)
    ensures TimesCount(w, n + 1) == TimesCount(w, n) + w && TimesCount(w, 0) == 0.0
  {
  }

  /** A spec weighs as much as it has pods: each counts once, one on whole GPUs once more for each
      of its GPUs by the weight that is configured, and one without GPU only if it is to. */
  lemma {:induction false} WeightCountsPods(cfg: TypicalPodsConfig, pods: seq<Pod>, k: PodResource)
    ensures SpecWeight(cfg, pods, k) == TimesCount(
              if k.gpuNumber == 0 && !cfg.isInvolvedCpuPods then 0.0
              else if k.milliGpu == 1000 && 0.0 < cfg.gpuResWeight then 1.0 + k.gpuNumber as real * cfg.gpuResWeight
              else 1.0, PodsOf(pods, k))
  {
    var w := PodWeight(cfg, k);
    TimesNext(w, PodsOf(pods, k));
    if pods != [] {
      WeightCountsPods(cfg, pods[..|pods| - 1], k);
      TimesNext(w, PodsOf(pods[..|pods| - 1], k));
    }
  }

  /** The weight of the workload that the listed specs stand for. */
  function Covered(cfg: TypicalPodsConfig, pods: seq<Pod>, out: seq<TargetPod>): real {
    if out == [] then 0.0
    else Covered(cfg, pods, out[..|out| - 1]) + SpecWeight(cfg, pods, out[|out| - 1].res)
  }

  // ----- the counted list ------------------------------------------------------------------------

  lemma CountsAreWeights(cfg: TypicalPodsConfig, pods: seq<Pod>, counts: Weights, total: real, pl: seq<TargetPod>)
    requires CountsOf(cfg, pods, counts, total) && SortedEntries(pl, counts)
    ensures forall i | 0 <= i < |pl| :: pl[i].percentage == SpecWeight(cfg, pods, pl[i].res)
  {
    forall i | 0 <= i < |pl| ensures pl[i].percentage == SpecWeight(cfg, pods, pl[i].res) {
      assert pl[i] in pl && SpecCounted(cfg, pods, counts, pl[i].res);
    }
  }

  predicate SameSpecs(a: seq<TargetPod>, b: seq<TargetPod>) {
    |a| == |b| && forall i | 0 <= i < |a| :: a[i].res == b[i].res
  }

  lemma {:induction false} CoveredIsTotal(cfg: TypicalPodsConfig, pods: seq<Pod>, pl: seq<TargetPod>,
                                          out: seq<TargetPod>)
    requires SameSpecs(pl, out)
    requires forall i | 0 <= i < |pl| :: pl[i].percentage == SpecWeight(cfg, pods, pl[i].res)
    ensures Covered(cfg, pods, out) == TotalPercentage(pl)
  {
    if pl != [] {
      CoveredIsTotal(cfg, pods, pl[..|pl| - 1], out[..|out| - 1]);
    }
  }

  lemma OrderedByWeight(pl: seq<TargetPod>, i: nat, j: nat)
    requires Chain(NotLess, pl) && i < j < |pl|
    ensures pl[j].percentage <= pl[i].percentage
  {
    NotLessOrders();
    ChainPair(NotLess, pl, i, j);
  }

  // ----- the cut and normalised list ---------------------------------------------------------------

  function Product(x: real, y: real): real { x * y }

  lemma OverTwice(v: real, part: real, total: real)
    requires 0.0 < part && 0.0 < total
    ensures 0.0 < Over(part, total)
    ensures Product(Over(Over(v, total), Over(part, total)), part) == v
    ensures Product(Over(v, total), total) == v
  {
    assert Over(v, total) * total == v;
    assert Over(part, total) * total == part;
    var x := Over(Over(v, total), Over(part, total));
    assert x * Over(part, total) == Over(v, total);
    assert x * part == x * (Over(part, total) * total) == (x * Over(part, total)) * total;
  }

  lemma ChoppedAt(pl: seq<TargetPod>, n: nat, total: real, i: nat)
    requires i < n <= |pl| && 0.0 < total && 0.0 < Over(TotalPercentage(pl[..n]), total)
    ensures |Chopped(pl, n, total)| == n && Chopped(pl, n, total)[i].res == pl[i].res
    ensures Chopped(pl, n, total)[i].percentage ==
      if n == |pl| then Over(pl[i].percentage, total)
      else Over(Over(pl[i].percentage, total), Over(TotalPercentage(pl[..n]), total))
  {
  }

  lemma ChoppedSpecs(pl: seq<TargetPod>, n: nat, total: real)
    requires n <= |pl| && 0.0 < total && 0.0 < Over(TotalPercentage(pl[..n]), total)
    ensures SameSpecs(Chopped(pl, n, total), pl[..n])
  {
    forall i | 0 <= i < n ensures Chopped(pl, n, total)[i].res == pl[..n][i].res {
      ChoppedAt(pl, n, total, i);
    }
  }

  /** Each kept spec is given its share of what is kept. */
  lemma ChoppedShare(pl: seq<TargetPod>, n: nat, total: real, i: nat)
    requires i < n <= |pl| && 0.0 < total == TotalPercentage(pl)
    requires 0.0 < TotalPercentage(pl[..n]) && 0.0 < Over(TotalPercentage(pl[..n]), total)
    ensures |Chopped(pl, n, total)| == n
    ensures Product(Chopped(pl, n, total)[i].percentage, TotalPercentage(pl[..n])) == pl[i].percentage
  {
    ChoppedAt(pl, n, total, i);
    OverTwice(pl[i].percentage, TotalPercentage(pl[..n]), total);
    if n == |pl| {
      assert pl[..n] == pl;
    }
  }

  // ----- the result ----------------------------------------------------------------------------------

  /** The spec's share is its weight's share of the weight that is covered. */
  predicate ShareRight(cfg: TypicalPodsConfig, pods: seq<Pod>, out: seq<TargetPod>, i: nat)
    requires i < |out|
  {
    Product(out[i].percentage, Covered(cfg, pods, out)) == SpecWeight(cfg, pods, out[i].res)
  }

  /** At least the threshold, 60 percent unless configured, is covered, but not without the last
      step, 10 unless configured, of specs. */
  predicate CoversEnough(cfg: TypicalPodsConfig, pods: seq<Pod>, out: seq<TargetPod>) {
    var step := if 0 < cfg.podIncreaseStep then cfg.podIncreaseStep else 10;
    var wanted := Wanted(cfg, WorkloadWeight(cfg, pods));
    wanted <= Covered(cfg, pods, out) && Covered(cfg, pods, out[..if step < |out| then |out| - step else 0]) < wanted
  }

  function Wanted(cfg: TypicalPodsConfig, all: real): real {
    (if 0 < cfg.podPopularityThreshold then cfg.podPopularityThreshold else 60) as real * all / 100.0
  }

  /** The specs come in order of weight, and no other spec of the workload weighs more. */
  predicate HeaviestFirst(cfg: TypicalPodsConfig, pods: seq<Pod>, out: seq<TargetPod>) {
    && (forall i, j | 0 <= i < j < |out| ::
          SpecWeight(cfg, pods, out[j].res) <= SpecWeight(cfg, pods, out[i].res))
    && (forall i, p | 0 <= i < |out| && p in pods && !Has(out, |out|, p.Res()) ::
          SpecWeight(cfg, pods, p.Res()) <= SpecWeight(cfg, pods, out[i].res))
  }

  /** What the typical pods of a workload tell of it. */
  predicate TellsWorkload(cfg: TypicalPodsConfig, pods: seq<Pod>, out: seq<TargetPod>) {
    && (forall i | 0 <= i < |out| :: ShareRight(cfg, pods, out, i))
    && CoversEnough(cfg, pods, out) && HeaviestFirst(cfg, pods, out)
  }

  lemma ExpectedIs(cfg: TypicalPodsConfig, total: real)
    ensures Expected(cfg, total) == Wanted(cfg, total)
  {
  }

  lemma UnlistedIsRarer(cfg: TypicalPodsConfig, pods: seq<Pod>, counts: Weights, total: real, pl: seq<TargetPod>,
                        n: nat, out: seq<TargetPod>, i: nat, p: Pod)
    requires CountsOf(cfg, pods, counts, total) && SortedEntries(pl, counts) && i < n <= |pl|
    requires SameSpecs(out, pl[..n]) && p in pods && !Has(out, |out|, p.Res())
    ensures SpecWeight(cfg, pods, p.Res()) <= SpecWeight(cfg, pods, pl[i].res)
  {
    var k := p.Res();
    CountsAreWeights(cfg, pods, counts, total, pl);
    assert SpecCounted(cfg, pods, counts, k);
    assert pl[i] in pl;
    forall a | 0 <= a < n ensures pl[a].res != k {
      assert out[a].res == pl[a].res;
    }
    if k in counts {
      assert Has(pl, |pl|, k);
      var j :| 0 <= j < |pl| && pl[j].res == k;
      OrderedByWeight(pl, i, j);
    }
  }

  lemma PrefixSpecs(out: seq<TargetPod>, pl: seq<TargetPod>, n: nat, m: nat)
    requires m <= n <= |pl| && SameSpecs(out, pl[..n])
    ensures SameSpecs(pl[..m], out[..m])
  {
  }

  lemma ChoppedCovers(cfg: TypicalPodsConfig, pods: seq<Pod>, counts: Weights, total: real, pl: seq<TargetPod>,
                      n: nat)
    requires CountsOf(cfg, pods, counts, total) && SortedEntries(pl, counts) && 0.0 < total && n <= |pl|
    requires 0.0 < Over(TotalPercentage(pl[..n]), total)
    ensures var out := Chopped(pl, n, total);
      SameSpecs(out, pl[..n]) && Covered(cfg, pods, out) == TotalPercentage(pl[..n])
  {
    ChoppedSpecs(pl, n, total);
    CountsAreWeights(cfg, pods, counts, total, pl);
    CoveredIsTotal(cfg, pods, pl[..n], Chopped(pl, n, total));
  }

  lemma ShareAt(cfg: TypicalPodsConfig, pods: seq<Pod>, counts: Weights, total: real, pl: seq<TargetPod>, n: nat,
                i: nat)
    requires CountsOf(cfg, pods, counts, total) && SortedEntries(pl, counts) && 0.0 < total && i < n <= |pl|
    requires total == TotalPercentage(pl)
    requires 0.0 < TotalPercentage(pl[..n]) && 0.0 < Over(TotalPercentage(pl[..n]), total)
    ensures |Chopped(pl, n, total)| == n && ShareRight(cfg, pods, Chopped(pl, n, total), i)
  {
    var out := Chopped(pl, n, total);
    ChoppedCovers(cfg, pods, counts, total, pl, n);
    CountsAreWeights(cfg, pods, counts, total, pl);
    ChoppedShare(pl, n, total, i);
    assert out[i].res == pl[..n][i].res;
  }

  lemma CoveredPrefix(cfg: TypicalPodsConfig, pods: seq<Pod>, counts: Weights, total: real, pl: seq<TargetPod>,
                      n: nat, m: nat, out: seq<TargetPod>)
    requires CountsOf(cfg, pods, counts, total) && SortedEntries(pl, counts) && m <= n <= |pl|
    requires SameSpecs(out, pl[..n])
    ensures Covered(cfg, pods, out[..m]) == TotalPercentage(pl[..m])
  {
    CountsAreWeights(cfg, pods, counts, total, pl);
    PrefixSpecs(out, pl, n, m);
    CoveredIsTotal(cfg, pods, pl[..m], out[..m]);
  }

  lemma InOrder(cfg: TypicalPodsConfig, pods: seq<Pod>, counts: Weights, total: real, pl: seq<TargetPod>,
                n: nat, out: seq<TargetPod>)
    requires CountsOf(cfg, pods, counts, total) && SortedEntries(pl, counts) && n <= |pl|
    requires SameSpecs(out, pl[..n])
    ensures forall i, j | 0 <= i < j < |out| :: SpecWeight(cfg, pods, out[j].res) <= SpecWeight(cfg, pods, out[i].res)
  {
    CountsAreWeights(cfg, pods, counts, total, pl);
    forall i, j | 0 <= i < j < |out| ensures SpecWeight(cfg, pods, out[j].res) <= SpecWeight(cfg, pods, out[i].res) {
      assert out[i].res == pl[i].res && out[j].res == pl[j].res;
      OrderedByWeight(pl, i, j);
    }
  }

  lemma NoneRarer(cfg: TypicalPodsConfig, pods: seq<Pod>, counts: Weights, total: real, pl: seq<TargetPod>,
                  n: nat, out: seq<TargetPod>)
    requires CountsOf(cfg, pods, counts, total) && SortedEntries(pl, counts) && n <= |pl|
    requires SameSpecs(out, pl[..n])
    ensures forall i, p | 0 <= i < |out| && p in pods && !Has(out, |out|, p.Res()) ::
      SpecWeight(cfg, pods, p.Res()) <= SpecWeight(cfg, pods, out[i].res)
  {
    forall i, p | 0 <= i < |out| && p in pods && !Has(out, |out|, p.Res())
      ensures SpecWeight(cfg, pods, p.Res()) <= SpecWeight(cfg, pods, out[i].res)
    {
      assert out[i].res == pl[i].res;
      UnlistedIsRarer(cfg, pods, counts, total, pl, n, out, i, p);
    }
  }

  lemma KeptCovers(cfg: TypicalPodsConfig, pods: seq<Pod>, counts: Weights, total: real, pl: seq<TargetPod>,
                   out: seq<TargetPod>)
    requires CountsOf(cfg, pods, counts, total) && SortedEntries(pl, counts) && 0.0 < total
    requires AllPositive(pl) && total == TotalPercentage(pl) && Threshold(cfg) <= 100
    requires SameSpecs(out, pl[..KeptCount(cfg, pl, total)])
    requires Covered(cfg, pods, out) == TotalPercentage(pl[..KeptCount(cfg, pl, total)])
    ensures CoversEnough(cfg, pods, out)
  {
    var n := KeptCount(cfg, pl, total);
    KeptReaches(cfg, pl, total);
    ExpectedIs(cfg, total);
    CoveredPrefix(cfg, pods, counts, total, pl, n, if IncreaseStep(cfg) < n then n - IncreaseStep(cfg) else 0, out);
  }

  lemma ChoppedTells(cfg: TypicalPodsConfig, pods: seq<Pod>, counts: Weights, total: real, pl: seq<TargetPod>)
    requires CountsOf(cfg, pods, counts, total) && SortedEntries(pl, counts) && 0.0 < total
    requires AllPositive(pl) && total == TotalPercentage(pl) && Threshold(cfg) <= 100
    ensures 0.0 < Over(TotalPercentage(pl[..KeptCount(cfg, pl, total)]), total)
    ensures TellsWorkload(cfg, pods, Chopped(pl, KeptCount(cfg, pl, total), total))
  {
    var n := KeptCount(cfg, pl, total);
    KeptReaches(cfg, pl, total);
    var out := Chopped(pl, n, total);
    ChoppedCovers(cfg, pods, counts, total, pl, n);
    forall i | 0 <= i < |out| ensures ShareRight(cfg, pods, out, i) {
      ShareAt(cfg, pods, counts, total, pl, n, i);
    }
    KeptCovers(cfg, pods, counts, total, pl, out);
    InOrder(cfg, pods, counts, total, pl, n, out);
    NoneRarer(cfg, pods, counts, total, pl, n, out);
  }

  /** The typical pods of a workload in which something counts tell it so; only its first 10000 pods
      are looked at. */
  lemma TypicalTellWorkload(cfg: TypicalPodsConfig, pods: seq<Pod>, out: seq<TargetPod>)
    requires Typical(cfg, pods, out) && cfg.podPopularityThreshold <= 100
    requires SomeCounts(cfg, if |pods| > 10000 then pods[..10000] else pods)
    ensures TellsWorkload(cfg, if |pods| > 10000 then pods[..10000] else pods, out)
  {
    var counts: Weights, pl: seq<TargetPod>, total: real :| TypicalFor(cfg, pods, counts, pl, total, out);
    EntriesPositive(cfg, Considered(pods), counts, total, pl);
    SomeCountsIffListed(cfg, Considered(pods), counts, total, pl);
    ChoppedTells(cfg, Considered(pods), counts, total, pl);
  }
}
