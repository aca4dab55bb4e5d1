/** Lists of specs with a number each, a count or a share of a workload: what is made of a counting
    map, whatever order the map is iterated in. */
module SpecLists {
  import opened Frag
  import opened Resource

  function TotalPercentage(pods: seq<TargetPod>): real {
    if pods == [] then 0.0 else TotalPercentage(pods[..|pods| - 1]) + pods[|pods| - 1].percentage
  }

  predicate OneEach(pl: seq<TargetPod>) {
    forall i, j | 0 <= i < j < |pl| :: pl[i].res != pl[j].res
  }

  /** One of the first n records is for k. */
  predicate Has(ts: seq<TargetPod>, n: nat, k: PodResource)
    requires n <= |ts|
  {
    exists i | 0 <= i < n :: ts[i].res == k
  }

  type Weights = map<PodResource, real>

  function WeightAt(m: Weights, k: PodResource): real {
    if k in m then m[k] else 0.0
  }

  /** pl has exactly one entry for each counted spec, with its count. */
  ghost predicate EntriesOf(pl: seq<TargetPod>, counts: Weights) {
    && OneEach(pl)
    && (forall t | t in pl :: t.res in counts && t.percentage == counts[t.res])
    && forall k | k in counts :: Has(pl, |pl|, k)
  }

  lemma {:induction false} OneEachOnce(pl: seq<TargetPod>, t: TargetPod)
    requires OneEach(pl)
    ensures multiset(pl)[t] == if t in pl then 1 else 0
  {
    if pl != [] {
      var k := |pl| - 1;
      OneEachOnce(pl[..k], t);
      assert pl == pl[..k] + [pl[k]];
      if pl[k] == t {
        assert t !in pl[..k];
      }
    }
  }

  lemma {:induction false} OnceOneEach(pl: seq<TargetPod>, counts: Weights)
    requires forall t | t in pl :: t.res in counts && t.percentage == counts[t.res]
    requires forall t :: multiset(pl)[t] <= 1
    ensures OneEach(pl)
  {
    forall i, j | 0 <= i < j < |pl| ensures pl[i].res != pl[j].res {
      assert pl[i] in pl && pl[j] in pl;
      assert pl == pl[..j] + [pl[j]] + pl[j + 1..];
      assert pl[..j][i] in pl[..j];
      assert pl[i] == pl[j] ==> multiset(pl)[pl[j]] >= 2;
    }
  }

  lemma EntriesPermute(a: seq<TargetPod>, b: seq<TargetPod>, counts: Weights)
    requires EntriesOf(a, counts) && multiset(a) == multiset(b)
    ensures EntriesOf(b, counts)
  {
    forall t ensures t in a <==> t in b {
      assert t in a <==> t in multiset(a);
      assert t in b <==> t in multiset(b);
    }
    forall t ensures multiset(b)[t] <= 1 {
      OneEachOnce(a, t);
    }
    OnceOneEach(b, counts);
    forall k | k in counts ensures Has(b, |b|, k) {
      assert Has(a, |a|, k);
      var i :| 0 <= i < |a| && a[i].res == k;
      assert a[i] in b;
    }
  }

  /** pl lists the counted specs that are not in keys. */
  ghost predicate EntriesBut(pl: seq<TargetPod>, counts: Weights, keys: set<PodResource>) {
    && keys <= counts.Keys && OneEach(pl)
    && (forall t | t in pl :: t.res in counts && t.res !in keys && t.percentage == counts[t.res])
    && forall k | k in counts && k !in keys :: Has(pl, |pl|, k)
  }

  lemma EntriesMore(pl: seq<TargetPod>, counts: Weights, keys: set<PodResource>, k: PodResource)
    requires EntriesBut(pl, counts, keys) && k in keys
    ensures EntriesBut(pl + [TargetPod(k, counts[k])], counts, keys - {k})
  {
    var pl' := pl + [TargetPod(k, counts[k])];
    forall j | j in counts && j !in keys - {k} ensures Has(pl', |pl'|, j) {
      HasMore(pl, TargetPod(k, counts[k]), j);
    }
    forall i | 0 <= i < |pl| ensures pl[i].res != k {
      assert pl[i] in pl;
    }
  }

  lemma HasMore(pl: seq<TargetPod>, t: TargetPod, j: PodResource)
    requires j == t.res || Has(pl, |pl|, j)
    ensures Has(pl + [t], |pl| + 1, j)
  {
    var pl' := pl + [t];
    if j == t.res {
      assert pl'[|pl|].res == j;
    } else {
      var i :| 0 <= i < |pl| && pl[i].res == j;
      assert pl'[i].res == j;
    }
  }

  method CollectEntries(counts: Weights) returns (pl: seq<TargetPod>, sum: real)
    ensures EntriesOf(pl, counts) && sum == TotalPercentage(pl)
  {
    pl, sum := [], 0.0;
    var keys := counts.Keys;
    while keys != {}
      invariant EntriesBut(pl, counts, keys) && sum == TotalPercentage(pl)
      decreases keys
    {
      var k :| k in keys;
      EntriesMore(pl, counts, keys, k);
      TotalNext(pl, TargetPod(k, counts[k]));
      keys := keys - {k};
      pl := pl + [TargetPod(k, counts[k])];
      sum := sum + counts[k];
    }
  }

  lemma TotalNext(pl: seq<TargetPod>, t: TargetPod)
    ensures TotalPercentage(pl + [t]) == TotalPercentage(pl) + t.percentage
  {
    assert (pl + [t])[..|pl|] == pl;
  }

  lemma EntriesShrink(pl: seq<TargetPod>, counts: Weights)
    requires EntriesOf(pl, counts) && pl != []
    ensures EntriesOf(pl[..|pl| - 1], counts - {pl[|pl| - 1].res})
  {
  }

  ghost function Total(m: Weights): real {
    if m == map[] then 0.0
    else
      var k :| k in m;
      m[k] + Total(m - {k})
  }

  lemma {:induction false} TotalWithout(m: Weights, k: PodResource)
    requires k in m
    ensures Total(m) == m[k] + Total(m - {k})
    decreases |m|
  {
    var j :| j in m && Total(m) == m[j] + Total(m - {j});
    if j != k {
      TotalWithout(m - {j}, k);
      TotalWithout(m - {k}, j);
      assert m - {j} - {k} == m - {k} - {j};
    }
  }

  /** The entries add up to the map's total. */
  lemma {:induction false} EntriesTotal(pl: seq<TargetPod>, counts: Weights)
    requires EntriesOf(pl, counts)
    ensures TotalPercentage(pl) == Total(counts)
    decreases |pl|
  {
    if pl == [] {
      forall k ensures k !in counts {
        assert !Has(pl, |pl|, k);
      }
      assert counts.Keys == {};
    } else {
      var last := |pl| - 1;
      assert pl[last] in pl;
      EntriesShrink(pl, counts);
      EntriesTotal(pl[..last], counts - {pl[last].res});
      TotalWithout(counts, pl[last].res);
    }
  }

  lemma OneLess<K, V>(m: map<K, V>, k: K)
    requires k in m
    ensures |m - {k}| == |m| - 1
  {
  }

  lemma {:induction false} EntriesNumber(ts: seq<TargetPod>, counts: Weights)
    requires EntriesOf(ts, counts)
    ensures |ts| == |counts|
    decreases |ts|
  {
    if ts == [] {
      forall k ensures k !in counts {
        assert !Has(ts, |ts|, k);
      }
      assert counts.Keys == {};
    } else {
      var last := |ts| - 1;
      assert ts[last] in ts;
      EntriesShrink(ts, counts);
      EntriesNumber(ts[..last], counts - {ts[last].res});
      OneLess(counts, ts[last].res);
    }
  }

  function Over(v: real, unit: real): real
    requires unit != 0.0
  {
    v / unit
  }

  lemma OverSum(a: real, b: real, unit: real)
    requires unit != 0.0
    ensures Over(a + b, unit) == Over(a, unit) + Over(b, unit)
  {
  }

  lemma OverPositive(v: real, unit: real)
    requires 0.0 < unit
    ensures 0.0 < v ==> 0.0 < Over(v, unit)
    ensures v == unit ==> Over(v, unit) == 1.0
  {
  }
}
