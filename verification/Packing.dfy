/** The packing score of a node: how few wholly free GPUs a pod has to break into there. */
module Packing {
  import opened Bags
  import opened IndexSort
  import opened Resource

  const MAX_NODE_SCORE := 100

  // ----- counting free and broken GPUs -------------------------------------------------------

  /** How many of the listed GPUs are wholly free. */
  function FreeAmong(list: seq<int>, s: seq<int>): (n: nat)
    requires Indices(list, s)
    ensures n <= |s|
  {
    if s == [] then 0 else FreeAmong(list, s[..|s| - 1]) + if list[s[|s| - 1]] == MILLI then 1 else 0
  }

  /** The listed GPUs that are already shared. */
  function SharedAmong(list: seq<int>, s: seq<int>): set<int>
    requires Indices(list, s)
  {
    if s == [] then {}
    else SharedAmong(list, s[..|s| - 1]) + if list[s[|s| - 1]] != MILLI then {s[|s| - 1]} else {}
  }

  lemma {:induction false} SharedMembers(list: seq<int>, s: seq<int>)
    requires Indices(list, s)
    ensures forall i :: i in SharedAmong(list, s) <==> i in s && 0 <= i < |list| && list[i] != MILLI
  {
    if s != [] {
      SharedMembers(list, s[..|s| - 1]);
      assert s == s[..|s| - 1] + [s[|s| - 1]];
    }
  }

  lemma {:induction false} SharedAndFree(list: seq<int>, s: seq<int>)
    requires Indices(list, s) && Distinct(s)
    ensures |SharedAmong(list, s)| + FreeAmong(list, s) == |s|
  {
    if s != [] {
      var k := |s| - 1;
      SharedAndFree(list, s[..k]);
      SharedMembers(list, s[..k]);
      assert s[k] !in s[..k];
    }
  }

  lemma SharedWithin(list: seq<int>, a: seq<int>, b: seq<int>)
    requires Indices(list, a) && Indices(list, b) && forall i | i in a :: i in b
    ensures SharedAmong(list, a) <= SharedAmong(list, b)
  {
    SharedMembers(list, a);
    SharedMembers(list, b);
  }

  lemma {:induction false} NoneFree(list: seq<int>, s: seq<int>)
    requires Indices(list, s) && forall k | 0 <= k < |s| :: list[s[k]] != MILLI
    ensures FreeAmong(list, s) == 0
  {
    if s != [] {
      NoneFree(list, s[..|s| - 1]);
    }
  }

  /** In rank order every shared GPU with room comes before any free one, so once a prefix takes
      a free GPU it has taken every shared one. */
  lemma PrefixTakesShared(list: seq<int>, m: int, k: nat, p: nat)
    requires forall i | 0 <= i < |list| :: list[i] <= MILLI
    requires p < k <= |FitOrder(list, m)| && list[FitOrder(list, m)[p]] == MILLI
    ensures SharedAmong(list, FitOrder(list, m)) <= SharedAmong(list, FitOrder(list, m)[..k])
  {
    var fits := FitOrder(list, m);
    forall b | k <= b < |fits| ensures list[fits[b]] == MILLI {
      assert Before(list, true, fits[p], fits[b]);
    }
    SharedMembers(list, fits);
    SharedMembers(list, fits[..k]);
    forall i | i in SharedAmong(list, fits) ensures i in fits[..k] {
      var b :| 0 <= b < |fits| && fits[b] == i;
      assert fits[..k][b] == i;
    }
  }

  /** Any other way to pick as many different GPUs with room takes at least as many free ones. */
  lemma FewestFree(list: seq<int>, m: int, other: seq<int>)
    requires forall i | 0 <= i < |list| :: list[i] <= MILLI
    requires Indices(list, other) && Distinct(other) && forall i | i in other :: 0 <= i < |list| && m <= list[i]
    requires |other| <= |FitOrder(list, m)|
    ensures FreeAmong(list, FitOrder(list, m)[..|other|]) <= FreeAmong(list, other)
  {
    var fits, k := FitOrder(list, m), |other|;
    var chosen := fits[..k];
    FitOrderMembers(list, m);
    SharedAndFree(list, chosen);
    SharedAndFree(list, other);
    if p :| 0 <= p < k && list[chosen[p]] == MILLI {
      PrefixTakesShared(list, m, k, p);
      SharedWithin(list, other, fits);
      SubsetSize(SharedAmong(list, other), SharedAmong(list, chosen));
    } else {
      NoneFree(list, chosen);
    }
  }

  // ----- the greedy ---------------------------------------------------------------------------

  lemma {:induction false} KeepConcat(list: seq<int>, a: seq<int>, b: seq<int>, m: int)
    requires Indices(list, a) && Indices(list, b)
    ensures Indices(list, a + b) && Keep(list, a + b, m) == Keep(list, a, m) + Keep(list, b, m)
  {
    if a == [] {
      assert a + b == b;
    } else {
      KeepConcat(list, a[1..], b, m);
      assert (a + b)[1..] == a[1..] + b;
    }
  }

  lemma KeepPrefix(list: seq<int>, order: seq<int>, m: int, p: nat)
    requires Indices(list, order) && p <= |order|
    ensures Keep(list, order[..p], m) <= Keep(list, order, m)
  {
    KeepConcat(list, order[..p], order[p..], m);
    assert order == order[..p] + order[p..];
  }

  lemma KeepNext(list: seq<int>, order: seq<int>, m: int, p: nat)
    requires Indices(list, order) && p < |order|
    ensures Keep(list, order[..p + 1], m) == Keep(list, order[..p], m) + if m <= list[order[p]] then [order[p]] else []
  {
    KeepConcat(list, order[..p], [order[p]], m);
    assert order[..p + 1] == order[..p] + [order[p]];
    assert Keep(list, [order[p]][1..], m) == [];
  }

  lemma FreeAmongNext(list: seq<int>, s: seq<int>, i: int)
    requires Indices(list, s) && 0 <= i < |list|
    ensures FreeAmong(list, s + [i]) == FreeAmong(list, s) + if list[i] == MILLI then 1 else 0
  {
  }

  /** Takes GPUs with room in rank order, and counts the wholly free ones among them. */
  method TakeGpus(node: NodeResource, pod: PodResource)
    returns (gpuToUse: seq<int>, fullyFreeGpuNumToUse: nat, gpuReq: int)
    requires 0 <= pod.gpuNumber
    ensures Indices(node.milliGpuLeftList, gpuToUse)
    ensures gpuReq == 0 <==> pod.gpuNumber <= |FitOrder(node.milliGpuLeftList, pod.milliGpu)|
    ensures gpuReq == 0 ==> gpuToUse == FitOrder(node.milliGpuLeftList, pod.milliGpu)[..pod.gpuNumber]
    ensures fullyFreeGpuNumToUse == FreeAmong(node.milliGpuLeftList, gpuToUse)
  {
    var list, m := node.milliGpuLeftList, pod.milliGpu;
    var sortedIndex := SortedMilliGpuLeftIndexList(list, true);
    gpuReq, fullyFreeGpuNumToUse, gpuToUse := pod.gpuNumber, 0, [];
    var p := 0;
    while p < |sortedIndex| && gpuReq != 0
      invariant 0 <= p <= |sortedIndex|
      invariant gpuToUse == Keep(list, sortedIndex[..p], m)
      invariant 0 <= gpuReq == pod.gpuNumber - |gpuToUse|
      invariant fullyFreeGpuNumToUse == FreeAmong(list, gpuToUse)
    {
      var idx := sortedIndex[p];
      KeepNext(list, sortedIndex, m, p);
      FreeAmongNext(list, gpuToUse, idx);
      if m <= list[idx] {
        gpuReq := gpuReq - 1;
        gpuToUse := gpuToUse + [idx];
        if list[idx] == MILLI {
          fullyFreeGpuNumToUse := fullyFreeGpuNumToUse + 1;
        }
      }
      p := p + 1;
    }
    TakenAreFirstFits(list, sortedIndex, m, p, gpuReq, pod.gpuNumber);
  }

  lemma TakenAreFirstFits(list: seq<int>, order: seq<int>, m: int, p: nat, left: int, k: nat)
    requires order == StableOrder(list, true) && p <= |order|
    requires 0 <= left == k - |Keep(list, order[..p], m)| && (left != 0 ==> p == |order|)
    ensures left == 0 <==> k <= |FitOrder(list, m)|
    ensures left == 0 ==> Keep(list, order[..p], m) == FitOrder(list, m)[..k]
  {
    KeepPrefix(list, order, m, p);
    assert order[..|order|] == order;
  }

  // ----- the score ----------------------------------------------------------------------------

  predicate AllFree(node: NodeResource) {
    forall i | 0 <= i < |node.milliGpuLeftList| :: node.milliGpuLeftList[i] == MILLI
  }

  /** The percentage of a GPU that is free, in whole percent. */
  function FreePercent(left: int): int { left * 100 / MILLI }

  function FreeRatio(list: seq<int>, s: seq<int>): int
    requires Indices(list, s)
  {
    if s == [] then 0 else FreeRatio(list, s[..|s| - 1]) + FreePercent(list[s[|s| - 1]])
  }

  function Max(a: int, b: int): int { if a < b then b else a }

  /** How the pod would be placed: on a wholly free node, else on the GPUs that fit first. */
  datatype Placing = FreeNode | NoRoom | UsesFree(free: nat) | SharedOnly(ratio: int)

  function PlacingOf(node: NodeResource, pod: PodResource): Placing
    requires 0 <= pod.gpuNumber
  {
    var list := node.milliGpuLeftList;
    if AllFree(node) then FreeNode
    else if pod.gpuNumber > |FitOrder(list, pod.milliGpu)| then NoRoom
    else
      var chosen := FitOrder(list, pod.milliGpu)[..pod.gpuNumber];
      if FreeAmong(list, chosen) > 0 then UsesFree(FreeAmong(list, chosen)) else SharedOnly(FreeRatio(list, chosen))
  }

  function PackingScore(p: Placing, gpus: nat): int {
    match p
    case FreeNode => Max(MAX_NODE_SCORE / 3 - gpus, gpus)
    case NoRoom => 0
    case UsesFree(free) => Max(MAX_NODE_SCORE / 2 - free, MAX_NODE_SCORE / 3)
    case SharedOnly(ratio) => Max(MAX_NODE_SCORE - ratio / 10, MAX_NODE_SCORE / 2)
  }

  method GetFullyFreeGpuNum(node: NodeResource) returns (free: nat)
    ensures free == |node.milliGpuLeftList| <==> AllFree(node)
    ensures free <= |node.milliGpuLeftList|
  {
    var list := node.milliGpuLeftList;
    free := 0;
    for k := 0 to |list|
      invariant free <= k && (free == k <==> forall i | 0 <= i < k :: list[i] == MILLI)
    {
      if list[k] == MILLI {
        free := free + 1;
      }
    }
  }

  method FreeGpuRatioOnUsedGpu(list: seq<int>, gpuToUse: seq<int>) returns (ratio: int)
    requires Indices(list, gpuToUse)
    ensures ratio == FreeRatio(list, gpuToUse)
  {
    ratio := 0;
    for k := 0 to |gpuToUse|
      invariant ratio == FreeRatio(list, gpuToUse[..k])
    {
      assert gpuToUse[..k + 1][..k] == gpuToUse[..k];
      ratio := ratio + list[gpuToUse[k]] * 100 / MILLI;
    }
    assert gpuToUse[..|gpuToUse|] == gpuToUse;
  }

  method GetPackingScore(node: NodeResource, pod: PodResource) returns (score: int, ok: bool)
    requires |node.milliGpuLeftList| == node.gpuNumber && 0 <= pod.gpuNumber
    ensures ok <==> PlacingOf(node, pod) != NoRoom
    ensures score == PackingScore(PlacingOf(node, pod), node.gpuNumber)
  {
    var fullyFreeGpuNum := GetFullyFreeGpuNum(node);
    if fullyFreeGpuNum == node.gpuNumber {
      return Max(MAX_NODE_SCORE / 3 - fullyFreeGpuNum, fullyFreeGpuNum), true;
    }
    var gpuToUse, fullyFreeGpuNumToUse, gpuReq := TakeGpus(node, pod);
    if gpuReq != 0 {
      return 0, false;
    }
    if fullyFreeGpuNumToUse > 0 {
      return Max(MAX_NODE_SCORE / 2 - fullyFreeGpuNumToUse, MAX_NODE_SCORE / 3), true;
    }
    var freeGpuRatioOnUsedGpu := FreeGpuRatioOnUsedGpu(node.milliGpuLeftList, gpuToUse);
    score, ok := Max(MAX_NODE_SCORE - freeGpuRatioOnUsedGpu / 10, MAX_NODE_SCORE / 2), true;
  }

  lemma {:induction false} FreeRatioNonNegative(list: seq<int>, s: seq<int>)
    requires Indices(list, s) && forall i | 0 <= i < |list| :: 0 <= list[i]
    ensures 0 <= FreeRatio(list, s)
  {
    if s != [] {
      FreeRatioNonNegative(list, s[..|s| - 1]);
    }
  }

  /** The greedy breaks into as few wholly free GPUs as any placement on different GPUs with
      room. */
  lemma PackingIsTight(node: NodeResource, pod: PodResource, other: seq<int>)
    requires ValidNode(node) && 0 <= pod.gpuNumber && !AllFree(node)
    requires Indices(node.milliGpuLeftList, other) && Distinct(other) && |other| == pod.gpuNumber
    requires forall i | i in other :: 0 <= i < |node.milliGpuLeftList| && pod.milliGpu <= node.milliGpuLeftList[i]
    ensures match PlacingOf(node, pod)
            case FreeNode => false
            case NoRoom => false
            case UsesFree(free) => 0 < free <= FreeAmong(node.milliGpuLeftList, other)
            case SharedOnly(_) => true
  {
    var list, m := node.milliGpuLeftList, pod.milliGpu;
    FitOrderMembers(list, m);
    FitsCover(list, m, other);
    FewestFree(list, m, other);
  }

  lemma FitsCover(list: seq<int>, m: int, other: seq<int>)
    requires Indices(list, other) && Distinct(other) && forall i | i in other :: 0 <= i < |list| && m <= list[i]
    ensures |other| <= |FitOrder(list, m)|
  {
    var fits := FitOrder(list, m);
    FitOrderMembers(list, m);
    DistinctSize(other);
    DistinctSize(fits);
    SubsetSize(set i | i in other, set i | i in fits);
  }

  /** Where the score of each case belongs: sharing only at least 50, breaking into free GPUs of
      a used node 33 to 49, and a wholly free node at most 33. */
  predicate InTier(p: Placing, score: int) {
    match p
    case FreeNode => 0 <= score <= 33
    case NoRoom => score == 0
    case UsesFree(_) => 33 <= score <= 49
    case SharedOnly(_) => 50 <= score <= 100
  }

  /** The three tiers do not cross, except that a wholly free node of more than 33 GPUs leaves
      its own. */
  lemma TiersDoNotCross(node: NodeResource, pod: PodResource)
    requires ValidNode(node) && 0 <= pod.gpuNumber
    ensures InTier(PlacingOf(node, pod), PackingScore(PlacingOf(node, pod), node.gpuNumber)) <==>
      (AllFree(node) ==> node.gpuNumber <= 33)
  {
    var list, m := node.milliGpuLeftList, pod.milliGpu;
    if !AllFree(node) && pod.gpuNumber <= |FitOrder(list, m)| {
      FreeRatioNonNegative(list, FitOrder(list, m)[..pod.gpuNumber]);
    }
  }

  /** Within its tier a placement that breaks into fewer free GPUs scores higher, as long as there
      are not more than 17 of them. */
  lemma FewerFreeScoresHigher(a: nat, b: nat, gpus: nat)
    requires a < b
    ensures PackingScore(UsesFree(b), gpus) <= PackingScore(UsesFree(a), gpus)
    ensures b <= 17 ==> PackingScore(UsesFree(b), gpus) < PackingScore(UsesFree(a), gpus)
  {
  }

  /** Of wholly free nodes the smaller one scores higher up to 16 GPUs, and the larger one from
      17 on. */
  lemma FreeNodeScores(a: nat, b: nat)
    requires a < b
    ensures b <= 16 ==> PackingScore(FreeNode, b) < PackingScore(FreeNode, a)
    ensures 17 <= a ==> PackingScore(FreeNode, a) < PackingScore(FreeNode, b)
  {
  }

  /** Within its tier a placement on less idle shared GPUs scores no lower, and one point for every
      ten percent less, down to 50. */
  lemma LessIdleScoresHigher(a: int, b: int, gpus: nat)
    requires 0 <= a <= b
    ensures PackingScore(SharedOnly(b), gpus) <= PackingScore(SharedOnly(a), gpus)
    ensures a + 10 <= b <= 500 ==> PackingScore(SharedOnly(b), gpus) < PackingScore(SharedOnly(a), gpus)
  {
  }

  /** The idle milli of the listed GPUs. */
  function IdleOf(list: seq<int>, s: seq<int>): int
    requires Indices(list, s)
  {
    if s == [] then 0 else IdleOf(list, s[..|s| - 1]) + list[s[|s| - 1]]
  }

  /** The free ratio is the idle milli in tens, up to one for each GPU. */
  lemma {:induction false} RatioIsIdle(list: seq<int>, s: seq<int>)
    requires Indices(list, s)
    ensures 10 * FreeRatio(list, s) <= IdleOf(list, s) <= 10 * FreeRatio(list, s) + 9 * |s|
  {
    if s != [] {
      RatioIsIdle(list, s[..|s| - 1]);
    }
  }

  /** The free-node tier is documented as capped at 33, but the cap is the GPU count: with more
      than 33 GPUs a wholly free node scores above it. */
  lemma FreeTierCap(gpus: nat)
    ensures PackingScore(FreeNode, gpus) <= MAX_NODE_SCORE / 3 <==> gpus <= MAX_NODE_SCORE / 3
  {
  }
}
