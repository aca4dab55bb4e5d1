/** Workload prediction: a sliding window of the last arrivals with incremental counts, and the
    most frequent specs up to a water mark, as a distribution. */
module PredictWindow {
  import opened Frag
  import opened Resource
  import opened Seals
  import opened Sorting
  import opened SpecLists

  datatype PodResWithTime = PodResWithTime(podRes: PodResource, startTime: int, endTime: int)

  // ----- counts over a window --------------------------------------------------------------

  /** How often a spec occurs in the window. */
  function CountOf(list: seq<PodResWithTime>, k: PodResource): nat {
    if list == [] then 0
    else CountOf(list[..|list| - 1], k) + if list[|list| - 1].podRes == k then 1 else 0
  }

  function SpanOf(sqrt: real -> real, r: PodResWithTime): real {
    sqrt((r.endTime - r.startTime) as real)
  }

  /** The square roots of a spec's run times, summed over the window. */
  function TimeOf(sqrt: real -> real, list: seq<PodResWithTime>, k: PodResource): real {
    if list == [] then 0.0
    else
      TimeOf(sqrt, list[..|list| - 1], k) +
      if list[|list| - 1].podRes == k then SpanOf(sqrt, list[|list| - 1]) else 0.0
  }

  /** A spec's run times, summed over the window. */
  function RunTime(list: seq<PodResWithTime>, k: PodResource): int {
    if list == [] then 0
    else
      var last := list[|list| - 1];
      RunTime(list[..|list| - 1], k) + if last.podRes == k then last.endTime - last.startTime else 0
  }

  /** Without the square root the times would be the run times. */
  lemma {:induction false} TimeIsRunTime(list: seq<PodResWithTime>, k: PodResource)
    ensures TimeOf(x => x, list, k) == RunTime(list, k) as real
  {
    if list != [] {
      TimeIsRunTime(list[..|list| - 1], k);
    }
  }

  lemma {:induction false} DropCounts(sqrt: real -> real, list: seq<PodResWithTime>, k: PodResource)
    requires list != []
    ensures CountOf(list[1..], k) == CountOf(list, k) - if list[0].podRes == k then 1 else 0
    ensures TimeOf(sqrt, list[1..], k) ==
      TimeOf(sqrt, list, k) - if list[0].podRes == k then SpanOf(sqrt, list[0]) else 0.0
    decreases |list|
  {
    if |list| == 1 {
      assert list[..0] == [];
    } else {
      DropCounts(sqrt, list[..|list| - 1], k);
      assert list[1..][..|list[1..]| - 1] == list[..|list| - 1][1..];
    }
  }

  // ----- records in descending order ---------------------------------------------------------

  function Prefix(ts: seq<TargetPod>, n: nat): real
    requires n <= |ts|
  {
    if n == 0 then 0.0 else Prefix(ts, n - 1) + ts[n - 1].percentage
  }

  predicate Descending(ts: seq<TargetPod>) {
    forall i, j | 0 <= i < j < |ts| :: ts[i].percentage >= ts[j].percentage
  }

  /** The counts of the specs in a set, and how many of them there are. */
  function SetSum(ts: seq<TargetPod>, s: set<PodResource>): real {
    if ts == [] then 0.0
    else SetSum(ts[..|ts| - 1], s) + if ts[|ts| - 1].res in s then ts[|ts| - 1].percentage else 0.0
  }

  function SetCount(ts: seq<TargetPod>, s: set<PodResource>): (n: nat)
    ensures n <= |ts|
  {
    if ts == [] then 0 else SetCount(ts[..|ts| - 1], s) + if ts[|ts| - 1].res in s then 1 else 0
  }

  lemma {:induction false} PrefixTake(ts: seq<TargetPod>, m: nat, n: nat)
    requires n <= m <= |ts|
    ensures Prefix(ts[..m], n) == Prefix(ts, n)
  {
    if n > 0 {
      PrefixTake(ts, m, n - 1);
    }
  }

  /** No set of n specs is more frequent than the n most frequent. */
  lemma {:induction false} PrefixIsMost(ts: seq<TargetPod>, s: set<PodResource>)
    requires Descending(ts)
    ensures SetSum(ts, s) <= Prefix(ts, SetCount(ts, s))
  {
    if ts != [] {
      var front, last := ts[..|ts| - 1], ts[|ts| - 1];
      PrefixIsMost(front, s);
      PrefixTake(ts, |front|, SetCount(front, s));
    }
  }

  lemma {:induction false} SetCountBound(ts: seq<TargetPod>, s: set<PodResource>)
    requires OneEach(ts)
    ensures SetCount(ts, s) <= |s|
  {
    if ts != [] {
      var front, last := ts[..|ts| - 1], ts[|ts| - 1];
      SetCountBound(front, s - {last.res});
      SetCountWithout(front, s, last.res);
    }
  }

  lemma {:induction false} SetCountWithout(ts: seq<TargetPod>, s: set<PodResource>, k: PodResource)
    requires forall i | 0 <= i < |ts| :: ts[i].res != k
    ensures SetCount(ts, s - {k}) == SetCount(ts, s)
  {
    if ts != [] {
      SetCountWithout(ts[..|ts| - 1], s, k);
    }
  }

  lemma {:induction false} PrefixGrows(ts: seq<TargetPod>, m: nat, n: nat)
    requires m <= n <= |ts| && forall i | 0 <= i < |ts| :: 0.0 <= ts[i].percentage
    ensures Prefix(ts, m) <= Prefix(ts, n)
  {
    if m < n {
      PrefixGrows(ts, m, n - 1);
    }
  }

  lemma {:induction false} PrefixOfZeros(ts: seq<TargetPod>, m: nat, n: nat)
    requires m <= n <= |ts| && forall i | m <= i < |ts| :: ts[i].percentage == 0.0
    ensures Prefix(ts, m) == Prefix(ts, n)
  {
    if m < n {
      PrefixOfZeros(ts, m, n - 1);
    }
  }

  // ----- the counts of a window add up to its length ---------------------------------------------

  function SumCounts(ts: seq<TargetPod>, list: seq<PodResWithTime>): nat {
    if ts == [] then 0 else SumCounts(ts[..|ts| - 1], list) + CountOf(list, ts[|ts| - 1].res)
  }

  lemma {:induction false} SumCountsAppend(ts: seq<TargetPod>, list: seq<PodResWithTime>, r: PodResWithTime)
    ensures SumCounts(ts, list + [r]) == SumCounts(ts, list) + SetCount(ts, {r.podRes})
  {
    if ts != [] {
      SumCountsAppend(ts[..|ts| - 1], list, r);
      assert (list + [r])[..|list|] == list;
    }
  }

  lemma {:induction false} SetCountOne(ts: seq<TargetPod>, k: PodResource, i: nat)
    requires i < |ts| && ts[i].res == k && OneEach(ts)
    ensures SetCount(ts, {k}) == 1
  {
    SetCountBound(ts, {k});
    SetCountHas(ts, k, i);
  }

  lemma {:induction false} SetCountHas(ts: seq<TargetPod>, k: PodResource, i: nat)
    requires i < |ts| && ts[i].res == k
    ensures SetCount(ts, {k}) >= 1
  {
    if i < |ts| - 1 {
      SetCountHas(ts[..|ts| - 1], k, i);
    }
  }

  lemma {:induction false} SumCountsNone(ts: seq<TargetPod>)
    ensures SumCounts(ts, []) == 0
  {
    if ts != [] {
      SumCountsNone(ts[..|ts| - 1]);
    }
  }

  lemma {:induction false} SumCountsIsLength(ts: seq<TargetPod>, list: seq<PodResWithTime>)
    requires OneEach(ts) && forall r | r in list :: Has(ts, |ts|, r.podRes)
    ensures SumCounts(ts, list) == |list|
  {
    if list == [] {
      SumCountsNone(ts);
    } else {
      var front, last := list[..|list| - 1], list[|list| - 1];
      assert list == front + [last];
      SumCountsIsLength(ts, front);
      SumCountsAppend(ts, front, last);
      assert last in list && Has(ts, |ts|, last.podRes);
      var i :| 0 <= i < |ts| && ts[i].res == last.podRes;
      SetCountOne(ts, last.podRes, i);
    }
  }

  lemma {:induction false} PrefixIsSumCounts(ts: seq<TargetPod>, list: seq<PodResWithTime>, n: nat)
    requires n <= |ts| && forall i | 0 <= i < |ts| :: ts[i].percentage == CountOf(list, ts[i].res) as real
    ensures Prefix(ts, n) == SumCounts(ts[..n], list) as real
  {
    if n > 0 {
      PrefixIsSumCounts(ts, list, n - 1);
      assert ts[..n][..n - 1] == ts[..n - 1];
    }
  }

  // ----- distributions over specs ----------------------------------------------------------------

  /** A non-empty set of specs with positive weights that sum to 1. */
  ghost predicate Distribution(m: Weights) {
    m != map[] && (forall k | k in m :: 0.0 < m[k]) && Total(m) == 1.0
  }

  /** m gives the first n records their counts, each divided by unit. */
  ghost predicate KeptAs(m: Weights, ts: seq<TargetPod>, n: nat, unit: real)
    requires n <= |ts| && unit != 0.0
  {
    && (forall k :: k in m <==> Has(ts, n, k))
    && forall i | 0 <= i < n :: ts[i].res in m && m[ts[i].res] == Over(ts[i].percentage, unit)
  }

  lemma KeptShrinks(m: Weights, ts: seq<TargetPod>, n: nat, unit: real)
    requires 0 < n <= |ts| && unit != 0.0 && KeptAs(m, ts, n, unit) && OneEach(ts)
    ensures KeptAs(m - {ts[n - 1].res}, ts, n - 1, unit)
  {
  }

  lemma KeptNone(m: Weights, ts: seq<TargetPod>, unit: real)
    requires unit != 0.0 && KeptAs(m, ts, 0, unit)
    ensures m == map[]
  {
  }

  function OverAll(ts: seq<TargetPod>, n: nat, unit: real): real
    requires n <= |ts| && unit != 0.0
  {
    if n == 0 then 0.0 else OverAll(ts, n - 1, unit) + Over(ts[n - 1].percentage, unit)
  }

  lemma {:induction false} OverAllIsPrefix(ts: seq<TargetPod>, n: nat, unit: real)
    requires n <= |ts| && unit != 0.0
    ensures OverAll(ts, n, unit) == Over(Prefix(ts, n), unit)
  {
    if n > 0 {
      OverAllIsPrefix(ts, n - 1, unit);
      OverSum(Prefix(ts, n - 1), ts[n - 1].percentage, unit);
    }
  }

  lemma {:induction false} KeptTotal(m: Weights, ts: seq<TargetPod>, n: nat, unit: real)
    requires n <= |ts| && unit != 0.0 && KeptAs(m, ts, n, unit) && OneEach(ts)
    ensures Total(m) == OverAll(ts, n, unit)
  {
    if n == 0 {
      KeptNone(m, ts, unit);
    } else {
      KeptShrinks(m, ts, n, unit);
      KeptTotal(m - {ts[n - 1].res}, ts, n - 1, unit);
      TotalWithout(m, ts[n - 1].res);
    }
  }

  // ----- the water mark ----------------------------------------------------------------------------

  /** The loop stops after n records: it reached the mark there, or ran to its limit, and no
      shorter prefix reached it. */
  predicate Stops(ts: seq<TargetPod>, mark: real, limit: nat, n: nat) {
    && 0 < n <= |ts| && n <= limit
    && (n == limit || mark <= Prefix(ts, n))
    && forall j | 0 < j < n :: Prefix(ts, j) < mark
  }

  /** No smaller set of specs reaches the mark. */
  lemma FewestForMark(ts: seq<TargetPod>, mark: real, limit: nat, n: nat, s: set<PodResource>)
    requires Descending(ts) && OneEach(ts) && Stops(ts, mark, limit, n)
    requires 0.0 < mark && |s| < n
    ensures SetSum(ts, s) < mark
  {
    PrefixIsMost(ts, s);
    SetCountBound(ts, s);
  }

  /** With a mark of at most everything, every kept record counts something. */
  lemma KeptArePositive(ts: seq<TargetPod>, mark: real, limit: nat, n: nat)
    requires Descending(ts) && Stops(ts, mark, limit, n) && mark <= Prefix(ts, |ts|)
    requires 0.0 < Prefix(ts, |ts|) && forall i | 0 <= i < |ts| :: 0.0 <= ts[i].percentage
    ensures forall i | 0 <= i < n :: 0.0 < ts[i].percentage
    ensures 0.0 < Prefix(ts, n)
  {
    if ts[n - 1].percentage == 0.0 {
      forall i | n - 1 <= i < |ts| ensures ts[i].percentage == 0.0 {
        assert i == n - 1 || ts[n - 1].percentage >= ts[i].percentage;
      }
      PrefixOfZeros(ts, n - 1, |ts|);
      assert false;
    }
    PrefixGrows(ts, n - 1, n);
    PrefixGrows(ts, 0, n - 1);
  }

  // ----- the class -----------------------------------------------------------------------------------

  predicate AtLeast(a: TargetPod, b: TargetPod) { a.percentage >= b.percentage }

  method SortDescending(s: seq<TargetPod>) returns (ts: seq<TargetPod>)
    ensures Descending(ts) && multiset(ts) == multiset(s)
  {
    ts := Sort(AtLeast, s);
    forall i, j | 0 <= i < j < |ts| ensures ts[i].percentage >= ts[j].percentage {
      ChainPair(AtLeast, ts, i, j);
    }
  }

  type Counts = map<PodResource, int>

  /** The counts as the numbers of a list of records. */
  function Numbers(counts: Counts): Weights {
    map k | k in counts :: counts[k] as real
  }

  lemma {:induction false} PrefixIsTotal(ts: seq<TargetPod>, n: nat)
    requires n <= |ts|
    ensures Prefix(ts, n) == TotalPercentage(ts[..n])
  {
    if n > 0 {
      PrefixIsTotal(ts, n - 1);
      assert ts[..n][..n - 1] == ts[..n - 1];
    }
  }

  /** A missing entry reads as 0. */
  function CountAt(counts: Counts, k: PodResource): int {
    if k in counts then counts[k] else 0
  }

  ghost predicate Counted(counts: Counts, list: seq<PodResWithTime>) {
    && (forall k :: CountAt(counts, k) == CountOf(list, k))
    && forall r | r in list :: r.podRes in counts
  }

  ghost predicate Timed(sqrt: real -> real, times: Weights, list: seq<PodResWithTime>) {
    forall k :: WeightAt(times, k) == TimeOf(sqrt, list, k)
  }

  /** The records of the window's counts add up to the window's length. */
  lemma AllCounted(ts: seq<TargetPod>, counts: Counts, list: seq<PodResWithTime>)
    requires EntriesOf(ts, Numbers(counts)) && Counted(counts, list)
    ensures Prefix(ts, |ts|) == |list| as real
    ensures forall i | 0 <= i < |ts| :: 0.0 <= ts[i].percentage
  {
    forall i | 0 <= i < |ts| ensures ts[i].percentage == CountOf(list, ts[i].res) as real {
      assert ts[i] in ts;
      assert CountAt(counts, ts[i].res) == CountOf(list, ts[i].res);
    }
    PrefixIsSumCounts(ts, list, |ts|);
    assert ts[..|ts|] == ts;
    SumCountsIsLength(ts, list);
  }

  lemma SameNumber(counts: Counts)
    ensures |Numbers(counts)| == |counts|
  {
    assert Numbers(counts).Keys == counts.Keys;
  }

  /** Each weight over the sum of all. */
  method Normalise(m: Weights, unit: real) returns (r: Weights)
    requires unit != 0.0
    ensures r.Keys == m.Keys && forall k | k in m :: r[k] == Over(m[k], unit)
  {
    r := m;
    var keys := m.Keys;
    while keys != {}
      invariant keys <= m.Keys && r.Keys == m.Keys
      invariant forall k | k in m :: r[k] == if k in keys then m[k] else Over(m[k], unit)
      decreases keys
    {
      var k :| k in keys;
      keys := keys - {k};
      r := r[k := r[k] / unit];
    }
  }

  lemma FirstPositive(ts: seq<TargetPod>)
    requires Descending(ts) && 0.0 < Prefix(ts, |ts|) && forall i | 0 <= i < |ts| :: 0.0 <= ts[i].percentage
    ensures 0 < |ts| && 0.0 < ts[0].percentage
  {
    if ts[0].percentage == 0.0 {
      forall i | 0 <= i < |ts| ensures ts[i].percentage == 0.0 {
        assert i == 0 || ts[0].percentage >= ts[i].percentage;
      }
      PrefixOfZeros(ts, 0, |ts|);
      assert false;
    }
  }

  /** None of the first n prefixes reaches the mark. */
  ghost predicate NoneReaches(ts: seq<TargetPod>, mark: real, n: nat)
    requires n <= |ts|
  {
    n == 0 || (NoneReaches(ts, mark, n - 1) && Prefix(ts, n) < mark)
  }

  lemma {:induction false} BelowMeans(ts: seq<TargetPod>, mark: real, n: nat)
    requires n <= |ts| && NoneReaches(ts, mark, n)
    ensures forall j | 0 < j <= n :: Prefix(ts, j) < mark
  {
    if n > 0 {
      BelowMeans(ts, mark, n - 1);
    }
  }

  /** KeptAs with the counts themselves, sealed. */
  ghost predicate KeptSums(m: Weights, ts: seq<TargetPod>, n: nat)
    requires n <= |ts|
  {
    forall key {:trigger Open(TopSeal, key)} :: Open(TopSeal, key) ==> KeptAs(m, ts, n, 1.0)
  }

  lemma KeptSumsMeans(m: Weights, ts: seq<TargetPod>, n: nat)
    requires n <= |ts|
    ensures KeptSums(m, ts, n) <==> KeptAs(m, ts, n, 1.0)
  {
    assert Open(TopSeal, 0);
  }

  /** Adds records up to the mark. Indexing past the records would panic: then ok is false. */
  method KeepTop(ts: seq<TargetPod>, mark: real, limit: nat)
    returns (top: Weights, topCount: real, ok: bool, n: nat)
    requires 0 < limit && OneEach(ts)
    ensures ok ==> Stops(ts, mark, limit, n) && KeptAs(top, ts, n, 1.0) && topCount == Prefix(ts, n)
    ensures !ok ==> |ts| < limit && forall j | 0 < j <= |ts| :: Prefix(ts, j) < mark
  {
    top, topCount, ok, n := map[], 0.0, true, 0;
    KeptSumsMeans(top, ts, 0);
    while n < limit
      invariant n <= |ts| && n <= limit
      invariant KeptSums(top, ts, n) && topCount == Prefix(ts, n) && NoneReaches(ts, mark, n)
    {
      if n >= |ts| {
        ok := false;
        BelowMeans(ts, mark, n);
        return;
      }
      KeptGrows(top, ts, n);
      top := top[ts[n].res := WeightAt(top, ts[n].res) + ts[n].percentage];
      topCount := topCount + ts[n].percentage;
      n := n + 1;
      if topCount >= mark {
        break;
      }
    }
    BelowMeans(ts, mark, n - 1);
    KeptSumsMeans(top, ts, n);
  }

  lemma KeptGrows(m: Weights, ts: seq<TargetPod>, n: nat)
    requires n < |ts| && OneEach(ts) && KeptSums(m, ts, n)
    ensures KeptSums(m[ts[n].res := WeightAt(m, ts[n].res) + ts[n].percentage], ts, n + 1)
  {
    var m' := m[ts[n].res := WeightAt(m, ts[n].res) + ts[n].percentage];
    KeptSumsMeans(m, ts, n);
    HasOneMore(ts, n);
    assert !Has(ts, n, ts[n].res);
    forall i | 0 <= i < n + 1 ensures ts[i].res in m' && m'[ts[i].res] == Over(ts[i].percentage, 1.0) {
      assert i < n ==> Has(ts, n, ts[i].res);
    }
    KeptSumsMeans(m', ts, n + 1);
  }

  lemma HasOneMore(ts: seq<TargetPod>, n: nat)
    requires n < |ts|
    ensures forall k :: Has(ts, n + 1, k) <==> Has(ts, n, k) || k == ts[n].res
  {
    forall k ensures Has(ts, n + 1, k) <==> Has(ts, n, k) || k == ts[n].res {
      if Has(ts, n, k) {
        var i :| 0 <= i < n && ts[i].res == k;
        assert i < n + 1;
      }
    }
  }

  /** top holds the most frequent specs of the counts, largest first up to the mark or the limit,
      each with its share of what is kept. */
  ghost predicate TopOf(top: Weights, counts: Counts, water: real, limit: nat) {
    exists ts: seq<TargetPod>, n: nat :: TopRecords(top, counts, water, limit, ts, n)
  }

  ghost predicate TopRecords(top: Weights, counts: Counts, water: real, limit: nat, ts: seq<TargetPod>, n: nat) {
    && EntriesOf(ts, Numbers(counts)) && Descending(ts)
    && Stops(ts, Mark(Prefix(ts, |ts|), water), limit, n)
    && Prefix(ts, n) != 0.0 && KeptAs(top, ts, n, Prefix(ts, n))
  }

  function Mark(all: real, water: real): real { all * water }

  lemma MarkWithinAll(all: real, water: real)
    requires 0.0 < all
    ensures Mark(all, water) <= all <==> water <= 1.0
  {
  }

  lemma MarkPositive(all: real, water: real)
    requires 0.0 < all && 0.0 < water
    ensures 0.0 < Mark(all, water)
  {
  }

  /** With a water mark of at most 1 the kept specs are a distribution. */
  lemma TopIsDistribution(top: Weights, counts: Counts, list: seq<PodResWithTime>, water: real, limit: nat,
                          ts: seq<TargetPod>, n: nat)
    requires TopRecords(top, counts, water, limit, ts, n) && Counted(counts, list) && list != [] && water <= 1.0
    ensures Distribution(top)
  {
    AllCounted(ts, counts, list);
    MarkWithinAll(Prefix(ts, |ts|), water);
    var unit := Prefix(ts, n);
    KeptArePositive(ts, Mark(Prefix(ts, |ts|), water), limit, n);
    assert top[ts[0].res] == Over(ts[0].percentage, unit);
    forall k | k in top ensures 0.0 < top[k] {
      assert Has(ts, n, k);
      var i :| 0 <= i < n && ts[i].res == k;
      OverPositive(ts[i].percentage, unit);
    }
    KeptTotal(top, ts, n, unit);
    OverAllIsPrefix(ts, n, unit);
    OverPositive(unit, unit);
  }

  /** When the mark is reached, no smaller set of specs reaches it. */
  lemma TopIsFewest(top: Weights, counts: Counts, list: seq<PodResWithTime>, water: real, limit: nat,
                    ts: seq<TargetPod>, n: nat, s: set<PodResource>)
    requires TopRecords(top, counts, water, limit, ts, n) && Counted(counts, list) && list != [] && 0.0 < water
    requires |s| < n
    ensures SetSum(ts, s) < Mark(Prefix(ts, |ts|), water)
  {
    AllCounted(ts, counts, list);
    MarkPositive(Prefix(ts, |ts|), water);
    FewestForMark(ts, Mark(Prefix(ts, |ts|), water), limit, n, s);
  }

  /** The loop runs past the records exactly when the mark is more than everything and there are
      fewer specs than the limit. */
  lemma PanicsIff(ts: seq<TargetPod>, water: real, limit: nat, n: nat, ok: bool)
    requires 0.0 < Prefix(ts, |ts|) && forall i | 0 <= i < |ts| :: 0.0 <= ts[i].percentage
    requires ok ==> Stops(ts, Mark(Prefix(ts, |ts|), water), limit, n)
    requires !ok ==> |ts| < limit && forall j | 0 < j <= |ts| :: Prefix(ts, j) < Mark(Prefix(ts, |ts|), water)
    ensures ok <==> water <= 1.0 || limit <= |ts|
  {
    MarkWithinAll(Prefix(ts, |ts|), water);
    if ok && 1.0 < water {
      PrefixGrows(ts, n, |ts|);
    }
  }

  // ----- the kept specs in the window's own terms ----------------------------------------------

  /** How many of the arrivals are of a spec in s. */
  function CountIn(list: seq<PodResWithTime>, s: set<PodResource>): nat {
    if list == [] then 0 else CountIn(list[..|list| - 1], s) + if list[|list| - 1].podRes in s then 1 else 0
  }

  /** The counts over the window of the records' specs that are in s. */
  function SumCountsIn(ts: seq<TargetPod>, list: seq<PodResWithTime>, s: set<PodResource>): nat {
    if ts == [] then 0
    else
      SumCountsIn(ts[..|ts| - 1], list, s) +
      if ts[|ts| - 1].res in s then CountOf(list, ts[|ts| - 1].res) else 0
  }

  lemma {:induction false} SumCountsInAppend(ts: seq<TargetPod>, list: seq<PodResWithTime>, s: set<PodResource>,
                                             r: PodResWithTime)
    ensures SumCountsIn(ts, list + [r], s) ==
      SumCountsIn(ts, list, s) + if r.podRes in s then SetCount(ts, {r.podRes}) else 0
  {
    if ts != [] {
      SumCountsInAppend(ts[..|ts| - 1], list, s, r);
      assert (list + [r])[..|list|] == list;
    }
  }

  lemma {:induction false} SumCountsInNone(ts: seq<TargetPod>, s: set<PodResource>)
    ensures SumCountsIn(ts, [], s) == 0
  {
    if ts != [] {
      SumCountsInNone(ts[..|ts| - 1], s);
    }
  }

  lemma {:induction false} SumCountsInIsCount(ts: seq<TargetPod>, list: seq<PodResWithTime>, s: set<PodResource>)
    requires OneEach(ts) && forall r | r in list :: Has(ts, |ts|, r.podRes)
    ensures SumCountsIn(ts, list, s) == CountIn(list, s)
  {
    if list == [] {
      SumCountsInNone(ts, s);
    } else {
      var front, last := list[..|list| - 1], list[|list| - 1];
      assert list == front + [last];
      SumCountsInIsCount(ts, front, s);
      SumCountsInAppend(ts, front, s, last);
      assert last in list && Has(ts, |ts|, last.podRes);
      var i :| 0 <= i < |ts| && ts[i].res == last.podRes;
      SetCountOne(ts, last.podRes, i);
    }
  }

  lemma {:induction false} SetSumIsSumCounts(ts: seq<TargetPod>, list: seq<PodResWithTime>, s: set<PodResource>)
    requires forall i | 0 <= i < |ts| :: ts[i].percentage == CountOf(list, ts[i].res) as real
    ensures SetSum(ts, s) == SumCountsIn(ts, list, s) as real
  {
    if ts != [] {
      SetSumIsSumCounts(ts[..|ts| - 1], list, s);
    }
  }

  lemma RecordsCount(ts: seq<TargetPod>, counts: Counts, list: seq<PodResWithTime>)
    requires EntriesOf(ts, Numbers(counts)) && Counted(counts, list)
    ensures forall i | 0 <= i < |ts| :: ts[i].percentage == CountOf(list, ts[i].res) as real
  {
    forall i | 0 <= i < |ts| ensures ts[i].percentage == CountOf(list, ts[i].res) as real {
      assert ts[i] in ts;
      assert CountAt(counts, ts[i].res) == CountOf(list, ts[i].res);
    }
  }

  /** What the records say of a set of specs is what the window holds of them. */
  lemma SetSumIsCount(ts: seq<TargetPod>, counts: Counts, list: seq<PodResWithTime>, s: set<PodResource>)
    requires EntriesOf(ts, Numbers(counts)) && Counted(counts, list)
    ensures SetSum(ts, s) == CountIn(list, s) as real
  {
    RecordsCount(ts, counts, list);
    SetSumIsSumCounts(ts, list, s);
    SumCountsInIsCount(ts, list, s);
  }

  lemma {:induction false} SetSumOfFirst(ts: seq<TargetPod>, n: nat, m: nat, s: set<PodResource>)
    requires OneEach(ts) && n <= |ts| && m <= |ts|
    requires forall i | 0 <= i < |ts| :: ts[i].res in s <==> i < n
    ensures SetSum(ts[..m], s) == Prefix(ts, if m < n then m else n)
    ensures SetCount(ts[..m], s) == if m < n then m else n
  {
    if m > 0 {
      SetSumOfFirst(ts, n, m - 1, s);
      assert ts[..m][..m - 1] == ts[..m - 1];
    }
  }

  /** The kept specs are those of the first n records. */
  lemma KeptAreFirst(top: Weights, ts: seq<TargetPod>, n: nat, unit: real)
    requires n <= |ts| && unit != 0.0 && KeptAs(top, ts, n, unit) && OneEach(ts)
    ensures forall i | 0 <= i < |ts| :: ts[i].res in top.Keys <==> i < n
    ensures SetSum(ts, top.Keys) == Prefix(ts, n) && SetCount(ts, top.Keys) == n
  {
    forall i | 0 <= i < |ts| ensures ts[i].res in top.Keys <==> i < n {
      if ts[i].res in top {
        assert Has(ts, n, ts[i].res);
      }
    }
    SetSumOfFirst(ts, n, |ts|, top.Keys);
    assert ts[..|ts|] == ts;
  }

  lemma {:induction false} KeptNumber(top: Weights, ts: seq<TargetPod>, n: nat, unit: real)
    requires n <= |ts| && unit != 0.0 && KeptAs(top, ts, n, unit) && OneEach(ts)
    ensures |top| == n
  {
    if n == 0 {
      KeptNone(top, ts, unit);
    } else {
      KeptShrinks(top, ts, n, unit);
      KeptNumber(top - {ts[n - 1].res}, ts, n - 1, unit);
      OneLess(top, ts[n - 1].res);
    }
  }

  /** The kept specs of a window: at most limit of them, which hold at least mark of the arrivals
      unless there are limit of them; fewer specs never hold as many, no other spec is more
      frequent, and each weighs its share of the arrivals that are kept. */
  ghost predicate TopOfMark(top: Weights, list: seq<PodResWithTime>, mark: real, limit: nat) {
    var kept := CountIn(list, top.Keys);
    && 0 < |top| <= limit && 0 < kept
    && (|top| == limit || mark <= kept as real)
    && (forall s: set<PodResource> | 0 < |s| < |top| :: (CountIn(list, s) as real) < mark)
    && (forall k, j | k in top && j !in top :: CountOf(list, j) <= CountOf(list, k))
    && (forall k | k in top :: top[k] == CountOf(list, k) as real / kept as real)
  }

  /** The mark is the water share of the window. */
  ghost predicate TopOfWindow(top: Weights, list: seq<PodResWithTime>, water: real, limit: nat) {
    TopOfMark(top, list, water * |list| as real, limit)
  }

  lemma TopCounts(top: Weights, counts: Counts, list: seq<PodResWithTime>, water: real, limit: nat,
                  ts: seq<TargetPod>, n: nat)
    requires TopRecords(top, counts, water, limit, ts, n) && Counted(counts, list)
    ensures |top| == n && Prefix(ts, n) == CountIn(list, top.Keys) as real
  {
    KeptNumber(top, ts, n, Prefix(ts, n));
    KeptAreFirst(top, ts, n, Prefix(ts, n));
    SetSumIsCount(ts, counts, list, top.Keys);
  }

  lemma FewerFall(ts: seq<TargetPod>, counts: Counts, list: seq<PodResWithTime>, mark: real, limit: nat, n: nat,
                  s: set<PodResource>)
    requires EntriesOf(ts, Numbers(counts)) && Counted(counts, list) && Descending(ts) && Stops(ts, mark, limit, n)
    requires 0 < |s| < n
    ensures (CountIn(list, s) as real) < mark
  {
    AllCounted(ts, counts, list);
    SetSumIsCount(ts, counts, list, s);
    PrefixIsMost(ts, s);
    SetCountBound(ts, s);
    PrefixGrows(ts, SetCount(ts, s), |s|);
  }

  lemma OthersRarer(top: Weights, counts: Counts, list: seq<PodResWithTime>, water: real, limit: nat,
                    ts: seq<TargetPod>, n: nat, k: PodResource, j: PodResource)
    requires TopRecords(top, counts, water, limit, ts, n) && Counted(counts, list)
    requires k in top && j !in top
    ensures CountOf(list, j) <= CountOf(list, k)
  {
    RecordsCount(ts, counts, list);
    KeptAreFirst(top, ts, n, Prefix(ts, n));
    assert Has(ts, n, k);
    var a :| 0 <= a < n && ts[a].res == k;
    if j in counts {
      assert Has(ts, |ts|, j);
      var b :| 0 <= b < |ts| && ts[b].res == j;
      assert n <= b;
      assert ts[a].percentage >= ts[b].percentage;
    } else {
      assert CountAt(counts, j) == CountOf(list, j);
    }
  }

  lemma WeighsItsShare(top: Weights, counts: Counts, list: seq<PodResWithTime>, water: real, limit: nat,
                       ts: seq<TargetPod>, n: nat, k: PodResource)
    requires TopRecords(top, counts, water, limit, ts, n) && Counted(counts, list) && k in top
    ensures top[k] == Over(CountOf(list, k) as real, Prefix(ts, n))
  {
    RecordsCount(ts, counts, list);
    assert Has(ts, n, k);
    var a :| 0 <= a < n && ts[a].res == k;
  }

  lemma MarkIs(all: real, water: real)
    ensures Mark(all, water) == water * all
  {
  }

  lemma TopTellsMark(top: Weights, counts: Counts, list: seq<PodResWithTime>, water: real, limit: nat,
                     ts: seq<TargetPod>, n: nat, mark: real)
    requires TopRecords(top, counts, water, limit, ts, n) && Counted(counts, list) && list != []
    requires mark == Mark(Prefix(ts, |ts|), water)
    ensures TopOfMark(top, list, mark, limit)
  {
    AllCounted(ts, counts, list);
    TopCounts(top, counts, list, water, limit, ts, n);
    PrefixGrows(ts, 0, n);
    forall s: set<PodResource> | 0 < |s| < |top| ensures (CountIn(list, s) as real) < mark {
      FewerFall(ts, counts, list, mark, limit, n, s);
    }
    forall k, j | k in top && j !in top ensures CountOf(list, j) <= CountOf(list, k) {
      OthersRarer(top, counts, list, water, limit, ts, n, k, j);
    }
    forall k | k in top ensures top[k] == CountOf(list, k) as real / CountIn(list, top.Keys) as real {
      WeighsItsShare(top, counts, list, water, limit, ts, n, k);
    }
  }

  /** The result of the sort, the loop and the normalisation, told by the window alone. */
  lemma TopTellsWindow(top: Weights, counts: Counts, list: seq<PodResWithTime>, water: real, limit: nat,
                       ts: seq<TargetPod>, n: nat)
    requires TopRecords(top, counts, water, limit, ts, n) && Counted(counts, list) && list != []
    ensures TopOfWindow(top, list, water, limit)
  {
    TopTellsMark(top, counts, list, water, limit, ts, n, Mark(Prefix(ts, |ts|), water));
    AllCounted(ts, counts, list);
    MarkIs(|list| as real, water);
  }

  /** The kept specs of the window, which are a distribution for a mark of at most all; sealed. */
  ghost predicate ChosenFrom(top: Weights, list: seq<PodResWithTime>, water: real, limit: nat) {
    forall key {:trigger Open(ChoiceSeal, key)} ::
      Open(ChoiceSeal, key) ==> TopOfWindow(top, list, water, limit) && (water <= 1.0 ==> Distribution(top))
  }

  lemma ChosenMeans(top: Weights, list: seq<PodResWithTime>, water: real, limit: nat)
    ensures ChosenFrom(top, list, water, limit) <==>
      TopOfWindow(top, list, water, limit) && (water <= 1.0 ==> Distribution(top))
  {
    assert Open(ChoiceSeal, 0);
  }

  lemma RecordsChoose(top: Weights, counts: Counts, list: seq<PodResWithTime>, water: real, limit: nat,
                      ts: seq<TargetPod>, n: nat)
    requires TopRecords(top, counts, water, limit, ts, n) && Counted(counts, list) && list != []
    ensures ChosenFrom(top, list, water, limit)
  {
    TopTellsWindow(top, counts, list, water, limit, ts, n);
    if water <= 1.0 {
      TopIsDistribution(top, counts, list, water, limit, ts, n);
    }
    ChosenMeans(top, list, water, limit);
  }

  method GenTopK(counts: Counts, water: real, limit: nat, ghost list: seq<PodResWithTime>)
    returns (top: Weights, ok: bool)
    requires 0 < limit && Counted(counts, list) && list != []
    ensures ok <==> water <= 1.0 || limit <= |counts|
    ensures ok ==> TopOf(top, counts, water, limit) && ChosenFrom(top, list, water, limit)
  {
    var records, allCount := CollectEntries(Numbers(counts));
    PrefixIsTotal(records, |records|);
    assert records[..|records|] == records;
    var ts := SortDescending(records);
    EntriesPermute(records, ts, Numbers(counts));
    AllCounted(records, counts, list);
    AllCounted(ts, counts, list);
    EntriesNumber(ts, Numbers(counts));
    SameNumber(counts);
    var topCount, n;
    top, topCount, ok, n := KeepTop(ts, Mark(allCount, water), limit);
    PanicsIff(ts, water, limit, n, ok);
    if ok {
      FirstPositive(ts);
      PrefixGrows(ts, 1, n);
      ghost var sums := top;
      top := Normalise(top, topCount);
      KeptOver(sums, top, ts, n);
      assert TopRecords(top, counts, water, limit, ts, n);
      RecordsChoose(top, counts, list, water, limit, ts, n);
    }
  }

  lemma KeptOver(sums: Weights, top: Weights, ts: seq<TargetPod>, n: nat)
    requires n <= |ts| && KeptAs(sums, ts, n, 1.0) && Prefix(ts, n) != 0.0
    requires top.Keys == sums.Keys && forall k | k in sums :: top[k] == Over(sums[k], Prefix(ts, n))
    ensures KeptAs(top, ts, n, Prefix(ts, n))
  {
  }

  // ----- the predictor -------------------------------------------------------------------------------

  /** The last n of s, or all of it. */
  function Last<T>(s: seq<T>, n: nat): seq<T> {
    if |s| <= n then s else s[|s| - n..]
  }

  /** Counts and times of the window, sealed. */
  ghost predicate Tallied(sqrt: real -> real, counts: Counts, times: Weights, list: seq<PodResWithTime>) {
    forall key {:trigger Open(CountsSeal, key)} ::
      Open(CountsSeal, key) ==> Counted(counts, list) && Timed(sqrt, times, list)
  }

  lemma TalliedMeans(sqrt: real -> real, counts: Counts, times: Weights, list: seq<PodResWithTime>)
    ensures Tallied(sqrt, counts, times, list) <==> Counted(counts, list) && Timed(sqrt, times, list)
  {
    assert Open(CountsSeal, 0);
  }

  lemma CountedAfter(sqrt: real -> real, counts: Counts, times: Weights, list: seq<PodResWithTime>, r: PodResWithTime)
    requires Tallied(sqrt, counts, times, list)
    ensures Tallied(sqrt, counts[r.podRes := CountAt(counts, r.podRes) + 1],
                    times[r.podRes := WeightAt(times, r.podRes) + SpanOf(sqrt, r)], list + [r])
  {
    var counts' := counts[r.podRes := CountAt(counts, r.podRes) + 1];
    var times' := times[r.podRes := WeightAt(times, r.podRes) + SpanOf(sqrt, r)];
    TalliedMeans(sqrt, counts, times, list);
    assert (list + [r])[..|list|] == list;
    forall k
      ensures CountAt(counts', k) == CountOf(list + [r], k) && WeightAt(times', k) == TimeOf(sqrt, list + [r], k)
    {
      assert CountAt(counts, k) == CountOf(list, k) && WeightAt(times, k) == TimeOf(sqrt, list, k);
    }
    TalliedMeans(sqrt, counts', times', list + [r]);
  }

  lemma CountedBefore(sqrt: real -> real, counts: Counts, times: Weights, list: seq<PodResWithTime>)
    requires list != [] && Tallied(sqrt, counts, times, list)
    ensures Tallied(sqrt, counts[list[0].podRes := CountAt(counts, list[0].podRes) - 1],
                    times[list[0].podRes := WeightAt(times, list[0].podRes) - SpanOf(sqrt, list[0])], list[1..])
  {
    var counts' := counts[list[0].podRes := CountAt(counts, list[0].podRes) - 1];
    var times' := times[list[0].podRes := WeightAt(times, list[0].podRes) - SpanOf(sqrt, list[0])];
    TalliedMeans(sqrt, counts, times, list);
    forall k ensures CountAt(counts', k) == CountOf(list[1..], k) && WeightAt(times', k) == TimeOf(sqrt, list[1..], k) {
      DropCounts(sqrt, list, k);
      assert CountAt(counts, k) == CountOf(list, k) && WeightAt(times, k) == TimeOf(sqrt, list, k);
    }
    assert forall r | r in list[1..] :: r in list;
    TalliedMeans(sqrt, counts', times', list[1..]);
  }

  lemma EmptyWindow(sqrt: real -> real, big: nat)
    ensures Last<PodResWithTime>([], big) == [] && Counted(map[], []) && Timed(sqrt, map[], [])
  {
  }

  class PredictPod {
    const smallWinSize: nat
    const bigWinSize: nat
    const water: real
    const sqrt: real -> real
    var podCount: Counts
    var arrivedPods: int
    var podCountTime: Weights
    var topPods: Weights
    var podList: seq<PodResWithTime>
    ghost var arrived: seq<PodResWithTime>

    /** The window is the last arrivals, with their counts and times. */
    ghost predicate Window()
      reads `podCount, `podCountTime, `podList, `arrived, `arrivedPods
    {
      && 0 < smallWinSize <= bigWinSize
      && arrivedPods == |arrived| && podList == Last(arrived, bigWinSize)
      && Tallied(sqrt, podCount, podCountTime, podList)
    }

    /** From the first full small window on, the kept specs are those of the window at the last
        choice. */
    ghost predicate Valid()
      reads this
    {
      Window() && UpToDate(arrived, topPods, water, smallWinSize, bigWinSize)
    }

    constructor (small: nat, big: nat, mark: real, root: real -> real)
      requires 0 < small <= big
      ensures Valid() && arrived == [] && topPods == map[]
      ensures smallWinSize == small && bigWinSize == big && water == mark && sqrt == root
    {
      smallWinSize, bigWinSize, water, sqrt := small, big, mark, root;
      podCount, arrivedPods, podCountTime, topPods, podList := map[], 0, map[], map[], [];
      arrived := [];
      new;
      EmptyWindow(sqrt, bigWinSize);
      TalliedMeans(sqrt, podCount, podCountTime, podList);
      UpToDateMeans(arrived, topPods, water, smallWinSize, bigWinSize);
    }

    method IsReady() returns (ready: bool)
      requires Valid()
      ensures ready <==> smallWinSize <= |arrived|
      ensures ready ==> TopOfWindow(topPods, WindowAtChoice(arrived, smallWinSize, bigWinSize), water, smallWinSize)
      ensures ready && water <= 1.0 ==> Distribution(topPods)
    {
      ready := |podList| >= smallWinSize;
      UpToDateMeans(arrived, topPods, water, smallWinSize, bigWinSize);
      ChosenMeans(topPods, WindowAtChoice(arrived, smallWinSize, bigWinSize), water, smallWinSize);
    }

    /** The last arrivals of a small window; None where the source panics. */
    method GetNearList() returns (near: seq<PodResWithTime>, ok: bool)
      requires Valid()
      ensures ok <==> smallWinSize <= |arrived|
      ensures ok ==> near == Last(arrived, smallWinSize)
    {
      var pl := |podList|;
      ok := !(pl < smallWinSize);
      near := if ok then podList[pl - smallWinSize..] else [];
    }

    method Push(res: PodResWithTime)
      requires Window()
      modifies `arrivedPods, `podList, `podCount, `podCountTime, `arrived
      ensures Window() && arrived == old(arrived) + [res]
    {
      arrivedPods := arrivedPods + 1;
      Count(res);
      if |podList| > bigWinSize {
        DropOldest();
      }
      arrived := arrived + [res];
    }

    method Count(res: PodResWithTime)
      requires Tallied(sqrt, podCount, podCountTime, podList)
      modifies `podList, `podCount, `podCountTime
      ensures Tallied(sqrt, podCount, podCountTime, podList) && podList == old(podList) + [res]
    {
      CountedAfter(sqrt, podCount, podCountTime, podList, res);
      podList := podList + [res];
      podCount := podCount[res.podRes := CountAt(podCount, res.podRes) + 1];
      podCountTime := podCountTime[res.podRes := WeightAt(podCountTime, res.podRes) + SpanOf(sqrt, res)];
    }

    method DropOldest()
      requires Tallied(sqrt, podCount, podCountTime, podList) && podList != []
      modifies `podList, `podCount, `podCountTime
      ensures Tallied(sqrt, podCount, podCountTime, podList) && podList == old(podList)[1..]
    {
      CountedBefore(sqrt, podCount, podCountTime, podList);
      var oldRes := podList[0];
      podCount := podCount[oldRes.podRes := CountAt(podCount, oldRes.podRes) - 1];
      podCountTime := podCountTime[oldRes.podRes := WeightAt(podCountTime, oldRes.podRes) - SpanOf(sqrt, oldRes)];
      podList := podList[1..];
    }

    /** Chooses the kept specs from the window. */
    method Choose() returns (ok: bool)
      requires Window() && arrived != []
      modifies `topPods
      ensures ok <==> water <= 1.0 || smallWinSize <= |podCount|
      ensures ok ==> TopOf(topPods, podCount, water, smallWinSize)
      ensures ok ==> ChosenFrom(topPods, podList, water, smallWinSize)
    {
      TalliedMeans(sqrt, podCount, podCountTime, podList);
      topPods, ok := GenTopK(podCount, water, smallWinSize, podList);
    }

    /** One more arrival. The kept specs are chosen again at every full small window up to the
        first big one, and at every full big window after it. ok is false where the source
        indexes past the records and panics. */
    method Add(res: PodResWithTime) returns (ok: bool)
      requires Valid()
      modifies this
      ensures Window() && arrived == old(arrived) + [res]
      ensures ok <==> !Regenerates(|arrived|, smallWinSize, bigWinSize) || water <= 1.0 || smallWinSize <= |podCount|
      ensures ok ==> Valid()
      ensures if Regenerates(|arrived|, smallWinSize, bigWinSize) then
                ok ==> TopOf(topPods, podCount, water, smallWinSize)
              else topPods == old(topPods)
    {
      Push(res);
      ok := true;
      if Regenerates(arrivedPods, smallWinSize, bigWinSize) {
        ok := Choose();
        if ok {
          ChosenAnew(arrived, podList, topPods, water, smallWinSize, bigWinSize);
        }
      } else {
        StillUpToDate(old(arrived), res, topPods, water, smallWinSize, bigWinSize);
      }
    }
  }

  predicate Regenerates(arrivedPods: int, small: nat, big: nat)
    requires 0 < small && 0 < big
  {
    if arrivedPods > big then arrivedPods % big == 0 else arrivedPods % small == 0
  }

  /** After how many of the arrivals the kept specs were last chosen: at the last full small window
      until the first big one is full, then at the last full big window, of which the first to count
      is the second. */
  function LastChoice(arrivals: nat, small: nat, big: nat): int
    requires 0 < small && 0 < big
  {
    if arrivals <= big then arrivals - arrivals % small
    else if arrivals < 2 * big then big - big % small
    else arrivals - arrivals % big
  }

  /** The big window as it was then. */
  function WindowAtChoice(arrived: seq<PodResWithTime>, small: nat, big: nat): seq<PodResWithTime>
    requires 0 < small && 0 < big
  {
    ChoiceRecent(|arrived|, small, big);
    Last(arrived[..LastChoice(|arrived|, small, big)], big)
  }

  lemma ChoiceWindowNext(before: seq<PodResWithTime>, r: PodResWithTime, small: nat, big: nat)
    requires 0 < small <= big
    ensures WindowAtChoice(before + [r], small, big) ==
      if Regenerates(|before| + 1, small, big) then Last(before + [r], big) else WindowAtChoice(before, small, big)
    ensures !Regenerates(|before| + 1, small, big) && small <= |before| + 1 ==> small <= |before|
  {
    var after := before + [r];
    ChoiceMoves(|after|, small, big);
    ChoiceRecent(|before|, small, big);
    ChoiceRecent(|after|, small, big);
    assert after[..|after|] == after;
    var m := LastChoice(|before|, small, big);
    assert after[..m] == before[..m];
  }

  /** The kept specs are those of the window at the last choice, once there was one; sealed. */
  ghost predicate UpToDate(arrived: seq<PodResWithTime>, top: Weights, water: real, small: nat, big: nat) {
    0 < small <= big &&
    forall key {:trigger Open(ChoiceSeal, key)} ::
      Open(ChoiceSeal, key) && small <= |arrived| ==> ChosenFrom(top, WindowAtChoice(arrived, small, big), water, small)
  }

  lemma UpToDateMeans(arrived: seq<PodResWithTime>, top: Weights, water: real, small: nat, big: nat)
    requires 0 < small <= big
    ensures UpToDate(arrived, top, water, small, big) <==>
      (small <= |arrived| ==> ChosenFrom(top, WindowAtChoice(arrived, small, big), water, small))
  {
    assert Open(ChoiceSeal, 0);
  }

  lemma ChosenAnew(arrived: seq<PodResWithTime>, list: seq<PodResWithTime>, top: Weights, water: real, small: nat,
                   big: nat)
    requires 0 < small <= big && arrived != [] && Regenerates(|arrived|, small, big)
    requires list == Last(arrived, big) && ChosenFrom(top, list, water, small)
    ensures UpToDate(arrived, top, water, small, big)
  {
    var k := |arrived| - 1;
    assert arrived == arrived[..k] + [arrived[k]];
    ChoiceWindowNext(arrived[..k], arrived[k], small, big);
    UpToDateMeans(arrived, top, water, small, big);
  }

  lemma StillUpToDate(before: seq<PodResWithTime>, r: PodResWithTime, top: Weights, water: real, small: nat, big: nat)
    requires UpToDate(before, top, water, small, big) && !Regenerates(|before| + 1, small, big)
    ensures UpToDate(before + [r], top, water, small, big)
  {
    ChoiceWindowNext(before, r, small, big);
    UpToDateMeans(before, top, water, small, big);
    UpToDateMeans(before + [r], top, water, small, big);
  }

  lemma ModNext(n: nat, m: nat)
    requires 0 < n && 0 < m
    ensures n - n % m == if n % m == 0 then n else n - 1 - (n - 1) % m
  {
    if n % m == 0 {
    } else {
      var q, r := n / m, n % m;
      assert n - 1 == q * m + (r - 1) && 0 <= r - 1 < m;
      ModIs(n - 1, m, q, r - 1);
    }
  }

  lemma ModIs(n: int, m: int, q: int, r: int)
    requires 0 < m && n == q * m + r && 0 <= r < m
    ensures n % m == r
  {
    SmallMultiple(n / m - q, m, r - n % m);
  }

  lemma MultipleGrows(d: int, m: int)
    requires 0 < m
    ensures 1 <= d ==> m <= d * m
    ensures d <= -1 ==> d * m <= -m
  {
  }

  lemma SmallMultiple(d: int, m: int, x: int)
    requires 0 < m && x == d * m && -m < x < m
    ensures x == 0
  {
    MultipleGrows(d, m);
  }

  /** The kept specs are chosen anew exactly when they are due. */
  lemma ChoiceMoves(n: nat, small: nat, big: nat)
    requires 0 < n && 0 < small <= big
    ensures LastChoice(n, small, big) == if Regenerates(n, small, big) then n else LastChoice(n - 1, small, big)
  {
    ModNext(n, small);
    ModNext(n, big);
    if big < n < 2 * big {
      ModIs(n, big, 1, n - big);
    } else if n == 2 * big {
      ModIs(n, big, 2, 0);
    }
  }

  /** So they are never staler than a small window before the first big one is full, and than a big
      and a small window afterwards. */
  lemma ChoiceRecent(n: nat, small: nat, big: nat)
    requires 0 < small && 0 < big
    ensures 0 <= LastChoice(n, small, big) <= n
    ensures n - LastChoice(n, small, big) < if n <= big then small else big + small
    ensures small <= n && small <= big ==> small <= LastChoice(n, small, big)
  {
    ModAtMost(n, small);
    ModAtMost(big, small);
    ModAtMost(n, big);
  }

  lemma ModAtMost(n: nat, m: nat)
    requires 0 < m
    ensures 0 <= n % m < m && n % m <= n && (m <= n ==> m <= n - n % m)
  {
    assert n == n / m * m + n % m;
    if m <= n {
      assert 1 <= n / m;
    }
  }
}
