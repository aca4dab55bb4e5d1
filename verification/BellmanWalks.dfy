/** What the Bellman value of a node means. Pods are drawn from the typical pods one after the
    other and taken from the node until one is refused, or until next to nothing that could be
    drawn would be served: the value is the idle milli that is expected to be left then. */
module BellmanWalks {
  import opened Bags
  import opened Frag
  import opened FragMeaning
  import opened FragMemo
  import opened NodeKey
  import opened Resource
  import opened Seals
  import opened SpecLists

  // ----- sequences of draws --------------------------------------------------------------------

  /** Each draw is one of n pods. */
  predicate Draws(n: nat, w: seq<int>) {
    forall k | 0 <= k < |w| :: 0 <= w[k] < n
  }

  /** The sequences in ws, each with draw i before it. */
  function Each(i: nat, ws: seq<seq<int>>): seq<seq<int>> {
    if ws == [] then [] else Each(i, ws[..|ws| - 1]) + [[i] + ws[|ws| - 1]]
  }

  /** The sequences in ws, each with each of the first k draws before it. */
  function Heads(k: nat, ws: seq<seq<int>>): seq<seq<int>> {
    if k == 0 then [] else Heads(k - 1, ws) + Each(k - 1, ws)
  }

  /** All sequences of at most len draws. */
  function Walks(n: nat, len: nat): seq<seq<int>> {
    if len == 0 then [[]] else [[]] + Heads(n, Walks(n, len - 1))
  }

  /** How often w is listed in ws. */
  function Listed(ws: seq<seq<int>>, w: seq<int>): nat {
    if ws == [] then 0 else Listed(ws[..|ws| - 1], w) + if ws[|ws| - 1] == w then 1 else 0
  }

  lemma {:induction false} ListedAppend(a: seq<seq<int>>, b: seq<seq<int>>, w: seq<int>)
    ensures Listed(a + b, w) == Listed(a, w) + Listed(b, w)
  {
    if b == [] {
      assert a + b == a;
    } else {
      ListedAppend(a, b[..|b| - 1], w);
      assert (a + b)[..|a + b| - 1] == a + b[..|b| - 1];
    }
  }

  lemma {:induction false} EachOnce(i: nat, ws: seq<seq<int>>, w: seq<int>)
    ensures Listed(Each(i, ws), w) == if w != [] && w[0] == i then Listed(ws, w[1..]) else 0
  {
    if ws != [] {
      var k := |ws| - 1;
      EachOnce(i, ws[..k], w);
      Split(i, ws[k], w);
      var each := Each(i, ws);
      assert each[..|each| - 1] == Each(i, ws[..k]);
    }
  }

  lemma Split(i: int, rest: seq<int>, w: seq<int>)
    ensures [i] + rest == w <==> w != [] && w[0] == i && w[1..] == rest
  {
    if w != [] {
      assert w == [w[0]] + w[1..];
      assert ([i] + rest)[1..] == rest;
    }
  }

  lemma {:induction false} HeadsOnce(k: nat, ws: seq<seq<int>>, w: seq<int>)
    ensures Listed(Heads(k, ws), w) == if w != [] && 0 <= w[0] < k then Listed(ws, w[1..]) else 0
  {
    if k > 0 {
      HeadsOnce(k - 1, ws, w);
      EachOnce(k - 1, ws, w);
      ListedAppend(Heads(k - 1, ws), Each(k - 1, ws), w);
    }
  }

  lemma OnlyEmpty(w: seq<int>)
    ensures Listed([[]], w) == if w == [] then 1 else 0
  {
    var empty: seq<seq<int>> := [[]];
    assert empty[..0] == [];
    assert Listed(empty[..0], w) == 0;
  }

  lemma WalksNext(n: nat, len: nat, w: seq<int>)
    requires 0 < len
    ensures Listed(Walks(n, len), w) ==
      if w == [] then 1 else if 0 <= w[0] < n then Listed(Walks(n, len - 1), w[1..]) else 0
  {
    HeadsOnce(n, Walks(n, len - 1), w);
    ListedAppend([[]], Heads(n, Walks(n, len - 1)), w);
    OnlyEmpty(w);
  }

  /** A sequence of at most len draws. */
  predicate Short(n: nat, len: nat, w: seq<int>) {
    |w| <= len && Draws(n, w)
  }

  lemma ShortNext(n: nat, len: nat, w: seq<int>)
    requires w != [] && 0 < len
    ensures Short(n, len, w) <==> 0 <= w[0] < n && Short(n, len - 1, w[1..])
  {
    assert w == [w[0]] + w[1..];
  }

  /** How often w is listed among the walks, sealed. */
  ghost predicate ListedTimes(n: nat, len: nat, w: seq<int>, times: nat) {
    forall key {:trigger Open(WalkSeal, key)} :: Open(WalkSeal, key) ==> Listed(Walks(n, len), w) == times
  }

  lemma ListedMeans(n: nat, len: nat, w: seq<int>, times: nat)
    ensures ListedTimes(n, len, w, times) <==> Listed(Walks(n, len), w) == times
  {
    assert Open(WalkSeal, 0);
  }

  lemma ListedStart(n: nat, w: seq<int>)
    ensures ListedTimes(n, 0, w, if w == [] then 1 else 0)
  {
    OnlyEmpty(w);
    ListedMeans(n, 0, w, if w == [] then 1 else 0);
  }

  lemma ListedNext(n: nat, len: nat, w: seq<int>, times: nat)
    requires 0 < len && w != [] ==> ListedTimes(n, len - 1, w[1..], times)
    requires 0 < len
    ensures ListedTimes(n, len, w, if w == [] then 1 else if 0 <= w[0] < n then times else 0)
  {
    WalksNext(n, len, w);
    if w != [] {
      ListedMeans(n, len - 1, w[1..], times);
    }
    ListedMeans(n, len, w, if w == [] then 1 else if 0 <= w[0] < n then times else 0);
  }

  lemma {:induction false} ListedOnce(n: nat, len: nat, w: seq<int>)
    ensures ListedTimes(n, len, w, if Short(n, len, w) then 1 else 0)
    decreases len
  {
    if len == 0 {
      ListedStart(n, w);
    } else {
      if w != [] {
        ListedOnce(n, len - 1, w[1..]);
        ShortNext(n, len, w);
        ListedNext(n, len, w, if Short(n, len - 1, w[1..]) then 1 else 0);
      } else {
        ListedNext(n, len, w, 0);
      }
    }
  }

  /** Each sequence of at most len draws is listed exactly once. */
  lemma WalksAreAll(n: nat, len: nat, w: seq<int>)
    ensures Listed(Walks(n, len), w) == if |w| <= len && Draws(n, w) then 1 else 0
  {
    ListedOnce(n, len, w);
    ListedMeans(n, len, w, if Short(n, len, w) then 1 else 0);
  }

  // ----- a walk on a node ----------------------------------------------------------------------

  /** The drawing stops on the node: nothing is idle, or hardly any pod would be served. */
  predicate Stuck(node: NodeResource, pods: seq<TargetPod>) {
    SumBy(Idle, node.milliGpuLeftList) == 0 || 0.999 <= Unserved(node, pods)
  }

  /** The share of the pods that are not GPU pods the node may take and serves. */
  function Unserved(node: NodeResource, pods: seq<TargetPod>): real {
    if pods == [] then 0.0
    else
      var front, pod := pods[..|pods| - 1], pods[|pods| - 1];
      Unserved(node, front) +
      if 0.0 <= pod.percentage <= 1.0 && !FallsInto(node, pod.res, Q3Satisfied) then pod.percentage else 0.0
  }

  /** The walk is complete: its last draw is refused, or leaves a node on which it stops. */
  predicate Ends(node: NodeResource, pods: seq<TargetPod>, w: seq<int>)
    decreases w
  {
    if Stuck(node, pods) then w == []
    else if w == [] || !(0 <= w[0] < |pods|) then false
    else
      var sub := SubSpec(node, pods[w[0]].res);
      if !sub.ok then |w| == 1 else Ends(sub.node, pods, w[1..])
  }

  /** The probability of the draws. */
  function Chance(pods: seq<TargetPod>, w: seq<int>): real
  {
    if w == [] then 1.0
    else if !(0 <= w[0] < |pods|) then 0.0
    else Times(pods[w[0]].percentage, Chance(pods, w[1..]))
  }

  /** The idle milli after the draws, as far as they are served. */
  function LeftAfter(node: NodeResource, pods: seq<TargetPod>, w: seq<int>): int
    decreases w
  {
    if w == [] || !(0 <= w[0] < |pods|) || !SubSpec(node, pods[w[0]].res).ok then SumBy(Idle, node.milliGpuLeftList)
    else LeftAfter(SubSpec(node, pods[w[0]].res).node, pods, w[1..])
  }

  /** What is summed over the complete walks. */
  datatype Payoff = IdleLeft | One

  function Pays(pay: Payoff, node: NodeResource, pods: seq<TargetPod>, w: seq<int>): real
  {
    match pay
    case IdleLeft => LeftAfter(node, pods, w) as real
    case One => 1.0
  }

  function WalkValue(pay: Payoff, node: NodeResource, pods: seq<TargetPod>, w: seq<int>): real
  {
    if Ends(node, pods, w) then Times(Chance(pods, w), Pays(pay, node, pods, w)) else 0.0
  }

  function SumWalks(pay: Payoff, node: NodeResource, pods: seq<TargetPod>, ws: seq<seq<int>>): real
  {
    if ws == [] then 0.0
    else SumWalks(pay, node, pods, ws[..|ws| - 1]) + WalkValue(pay, node, pods, ws[|ws| - 1])
  }

  lemma {:induction false} SumAppend(pay: Payoff, node: NodeResource, pods: seq<TargetPod>, a: seq<seq<int>>,
                                     b: seq<seq<int>>)
    ensures SumWalks(pay, node, pods, a + b) == SumWalks(pay, node, pods, a) + SumWalks(pay, node, pods, b)
  {
    if b == [] {
      assert a + b == a;
    } else {
      var k := |b| - 1;
      SumAppend(pay, node, pods, a, b[..k]);
      assert (a + b)[..|a + b| - 1] == a + b[..k];
    }
  }

  // ----- the walks that begin with one draw ------------------------------------------------------

  /** The walks are complete on the node that the first draw leaves, or only the first draw was. */
  function AfterFirst(pay: Payoff, node: NodeResource, pods: seq<TargetPod>, i: nat, w: seq<int>): real
    requires i < |pods|
  {
    var sub := SubSpec(node, pods[i].res);
    if sub.ok then WalkValue(pay, sub.node, pods, w)
    else if w == [] then Pays(pay, node, pods, [])
    else 0.0
  }

  lemma FirstDraw(pay: Payoff, node: NodeResource, pods: seq<TargetPod>, i: nat, w: seq<int>)
    requires i < |pods| && !Stuck(node, pods)
    ensures WalkValue(pay, node, pods, [i] + w) == Times(pods[i].percentage, AfterFirst(pay, node, pods, i, w))
  {
    var iw, sub := [i] + w, SubSpec(node, pods[i].res);
    assert iw[0] == i && iw[1..] == w;
    assert Chance(pods, iw) == Times(pods[i].percentage, Chance(pods, w));
    if sub.ok {
      assert Ends(node, pods, iw) == Ends(sub.node, pods, w);
      assert Pays(pay, node, pods, iw) == Pays(pay, sub.node, pods, w);
      Associates(pods[i].percentage, Chance(pods, w), Pays(pay, sub.node, pods, w));
    } else {
      assert Ends(node, pods, iw) == (w == []);
      assert Pays(pay, node, pods, iw) == Pays(pay, node, pods, []);
      Associates(pods[i].percentage, 1.0, Pays(pay, node, pods, []));
    }
  }

  lemma Associates(p: real, q: real, v: real)
    ensures Times(Times(p, q), v) == Times(p, Times(q, v))
    ensures Times(p, 0.0) == 0.0 && Times(p, 1.0) == p && Times(1.0, v) == v
  {
  }

  /** What the walks in ws come to after draw i, and only the empty one counts if i is refused. */
  function SumAfter(pay: Payoff, node: NodeResource, pods: seq<TargetPod>, i: nat, ws: seq<seq<int>>): real
    requires i < |pods|
  {
    if ws == [] then 0.0
    else SumAfter(pay, node, pods, i, ws[..|ws| - 1]) + AfterFirst(pay, node, pods, i, ws[|ws| - 1])
  }

  lemma {:induction false} SumEach(pay: Payoff, node: NodeResource, pods: seq<TargetPod>, i: nat, ws: seq<seq<int>>)
    requires i < |pods| && !Stuck(node, pods)
    ensures SumWalks(pay, node, pods, Each(i, ws)) ==
      Times(pods[i].percentage, SumAfter(pay, node, pods, i, ws))
  {
    if ws != [] {
      var k := |ws| - 1;
      SumEach(pay, node, pods, i, ws[..k]);
      FirstDraw(pay, node, pods, i, ws[k]);
      var each := Each(i, ws);
      assert each[..|each| - 1] == Each(i, ws[..k]);
      Distributes(pods[i].percentage, SumAfter(pay, node, pods, i, ws[..k]), AfterFirst(pay, node, pods, i, ws[k]));
    }
  }

  lemma Distributes(p: real, v: real, w: real)
    ensures Times(p, v + w) == Times(p, v) + Times(p, w)
  {
  }

  lemma {:induction false} SumAfterServed(pay: Payoff, node: NodeResource, pods: seq<TargetPod>, i: nat,
                                          ws: seq<seq<int>>)
    requires i < |pods| && SubSpec(node, pods[i].res).ok
    ensures SumAfter(pay, node, pods, i, ws) == SumWalks(pay, SubSpec(node, pods[i].res).node, pods, ws)
  {
    if ws != [] {
      SumAfterServed(pay, node, pods, i, ws[..|ws| - 1]);
    }
  }

  predicate NoneEmpty(ws: seq<seq<int>>) {
    forall k | 0 <= k < |ws| :: ws[k] != []
  }

  lemma {:induction false} SumAfterRefused(pay: Payoff, node: NodeResource, pods: seq<TargetPod>, i: nat,
                                           ws: seq<seq<int>>)
    requires i < |pods| && !SubSpec(node, pods[i].res).ok && NoneEmpty(ws)
    ensures SumAfter(pay, node, pods, i, [[]] + ws) == Pays(pay, node, pods, [])
  {
    var all := [[]] + ws;
    if ws == [] {
      assert all == [[]];
      assert all[..0] == [];
      assert SumAfter(pay, node, pods, i, all[..0]) == 0.0;
    } else {
      var k := |ws| - 1;
      SumAfterRefused(pay, node, pods, i, ws[..k]);
      assert all[..|all| - 1] == [[]] + ws[..k];
    }
  }

  lemma {:induction false} EachNotEmpty(i: nat, ws: seq<seq<int>>)
    ensures NoneEmpty(Each(i, ws))
  {
    if ws != [] {
      EachNotEmpty(i, ws[..|ws| - 1]);
    }
  }

  lemma {:induction false} HeadsNotEmpty(k: nat, ws: seq<seq<int>>)
    ensures NoneEmpty(Heads(k, ws))
  {
    if k > 0 {
      HeadsNotEmpty(k - 1, ws);
      EachNotEmpty(k - 1, ws);
    }
  }

  /** What the walks of at most len draws come to after a draw. */
  lemma SumAfterWalks(pay: Payoff, node: NodeResource, pods: seq<TargetPod>, i: nat, len: nat)
    requires i < |pods|
    ensures SumAfter(pay, node, pods, i, Walks(|pods|, len)) ==
      if SubSpec(node, pods[i].res).ok then SumWalks(pay, SubSpec(node, pods[i].res).node, pods, Walks(|pods|, len))
      else Pays(pay, node, pods, [])
  {
    if SubSpec(node, pods[i].res).ok {
      SumAfterServed(pay, node, pods, i, Walks(|pods|, len));
    } else if len == 0 {
      SumAfterRefused(pay, node, pods, i, []);
      assert [[]] + [] == Walks(|pods|, 0);
    } else {
      var rest := Heads(|pods|, Walks(|pods|, len - 1));
      HeadsNotEmpty(|pods|, Walks(|pods|, len - 1));
      SumAfterRefused(pay, node, pods, i, rest);
    }
  }

  // ----- where the drawing stops -----------------------------------------------------------------

  lemma {:induction false} UnservedIsRatio(node: NodeResource, pods: seq<TargetPod>)
    requires ValidNode(node) && AllValid(pods)
    ensures SumExceptQ3(RatioData(node, pods)) == Unserved(node, pods)
  {
    RatioConserved(node, pods);
    if pods != [] {
      UnservedIsRatio(node, pods[..|pods| - 1]);
      RatioConserved(node, pods[..|pods| - 1]);
      FragTypeIff(node, pods[|pods| - 1].res, Q3Satisfied);
    }
  }

  lemma {:induction false} StuckSum(pay: Payoff, node: NodeResource, pods: seq<TargetPod>, ws: seq<seq<int>>)
    requires Stuck(node, pods) && NoneEmpty(ws)
    ensures SumWalks(pay, node, pods, ws) == 0.0
  {
    if ws != [] {
      StuckSum(pay, node, pods, ws[..|ws| - 1]);
    }
  }

  lemma EmptyFirst(pay: Payoff, node: NodeResource, pods: seq<TargetPod>, ws: seq<seq<int>>)
    ensures SumWalks(pay, node, pods, [[]] + ws) ==
      WalkValue(pay, node, pods, []) + SumWalks(pay, node, pods, ws)
  {
    var empty: seq<seq<int>> := [[]];
    SumAppend(pay, node, pods, empty, ws);
    assert empty[..0] == [];
    assert SumWalks(pay, node, pods, empty[..0]) == 0.0;
  }

  lemma StuckWalks(pay: Payoff, node: NodeResource, pods: seq<TargetPod>, len: nat)
    requires Stuck(node, pods)
    ensures SumWalks(pay, node, pods, Walks(|pods|, len)) == Pays(pay, node, pods, [])
  {
    var rest := if len == 0 then [] else Heads(|pods|, Walks(|pods|, len - 1));
    if len > 0 {
      HeadsNotEmpty(|pods|, Walks(|pods|, len - 1));
    }
    assert Walks(|pods|, len) == [[]] + rest;
    StuckSum(pay, node, pods, rest);
    EmptyFirst(pay, node, pods, rest);
    Associates(1.0, 1.0, Pays(pay, node, pods, []));
  }

  // ----- the value of a node -----------------------------------------------------------------------

  /** The sum over the first draws: the share of each times what its walks come to. */
  function DrawSum(pay: Payoff, node: NodeResource, pods: seq<TargetPod>, k: nat, ws: seq<seq<int>>): real
    requires k <= |pods|
  {
    if k == 0 then 0.0
    else DrawSum(pay, node, pods, k - 1, ws) + Times(pods[k - 1].percentage, SumAfter(pay, node, pods, k - 1, ws))
  }

  lemma HeadsNext(pay: Payoff, node: NodeResource, pods: seq<TargetPod>, i: nat, ws: seq<seq<int>>)
    requires i < |pods| && !Stuck(node, pods)
    ensures SumWalks(pay, node, pods, Heads(i + 1, ws)) ==
      SumWalks(pay, node, pods, Heads(i, ws)) + SumWalks(pay, node, pods, Each(i, ws))
    ensures SumWalks(pay, node, pods, Each(i, ws)) == Times(pods[i].percentage, SumAfter(pay, node, pods, i, ws))
  {
    SumAppend(pay, node, pods, Heads(i, ws), Each(i, ws));
    SumEach(pay, node, pods, i, ws);
  }

  lemma {:induction false} HeadsSum(pay: Payoff, node: NodeResource, pods: seq<TargetPod>, k: nat, ws: seq<seq<int>>)
    requires k <= |pods| && !Stuck(node, pods)
    ensures SumWalks(pay, node, pods, Heads(k, ws)) == DrawSum(pay, node, pods, k, ws)
  {
    if k > 0 {
      HeadsSum(pay, node, pods, k - 1, ws);
      HeadsNext(pay, node, pods, k - 1, ws);
    }
  }

  /** What a node's walks come to, by the first draw. */
  lemma WalksByDraw(pay: Payoff, node: NodeResource, pods: seq<TargetPod>, len: nat)
    requires !Stuck(node, pods) && 0 < len
    ensures SumWalks(pay, node, pods, Walks(|pods|, len)) ==
      DrawSum(pay, node, pods, |pods|, Walks(|pods|, len - 1))
  {
    var ws := Walks(|pods|, len - 1);
    HeadsSum(pay, node, pods, |pods|, ws);
    EmptyFirst(pay, node, pods, Heads(|pods|, ws));
  }

  /** The walks of at most len draws come to v, sealed. */
  ghost predicate Expects(pay: Payoff, node: NodeResource, pods: seq<TargetPod>, len: nat, v: real) {
    forall key {:trigger Open(WalkSeal, key)} ::
      Open(WalkSeal, key) ==> SumWalks(pay, node, pods, Walks(|pods|, len)) == v
  }

  lemma ExpectsMeans(pay: Payoff, node: NodeResource, pods: seq<TargetPod>, len: nat, v: real)
    ensures Expects(pay, node, pods, len, v) <==> SumWalks(pay, node, pods, Walks(|pods|, len)) == v
  {
    assert Open(WalkSeal, 0);
  }

  lemma StuckExpects(pay: Payoff, node: NodeResource, pods: seq<TargetPod>, len: nat)
    requires Stuck(node, pods)
    ensures Expects(pay, node, pods, len, Pays(pay, node, pods, []))
  {
    StuckWalks(pay, node, pods, len);
    ExpectsMeans(pay, node, pods, len, Pays(pay, node, pods, []));
  }

  /** After draw i the walks come to v. */
  ghost predicate ExpectsAfter(pay: Payoff, node: NodeResource, pods: seq<TargetPod>, len: nat, i: nat, v: real)
    requires i < |pods|
  {
    var sub := SubSpec(node, pods[i].res);
    if sub.ok then Expects(pay, sub.node, pods, len, v) else v == Pays(pay, node, pods, [])
  }

  /** After each draw the walks come to its value. */
  ghost predicate AllExpect(pay: Payoff, node: NodeResource, pods: seq<TargetPod>, len: nat, vs: seq<real>) {
    |vs| == |pods| && forall i | 0 <= i < |pods| :: ExpectsAfter(pay, node, pods, len, i, vs[i])
  }

  lemma SumAfterIs(pay: Payoff, node: NodeResource, pods: seq<TargetPod>, len: nat, i: nat, v: real)
    requires i < |pods| && ExpectsAfter(pay, node, pods, len, i, v)
    ensures SumAfter(pay, node, pods, i, Walks(|pods|, len)) == v
  {
    SumAfterWalks(pay, node, pods, i, len);
    if SubSpec(node, pods[i].res).ok {
      ExpectsMeans(pay, SubSpec(node, pods[i].res).node, pods, len, v);
    }
  }

  /** The mean of the values, each by its pod's share. */
  function MeanOf(pods: seq<TargetPod>, vs: seq<real>, k: nat): real
    requires k <= |pods| == |vs|
  {
    if k == 0 then 0.0 else MeanOf(pods, vs, k - 1) + Times(pods[k - 1].percentage, vs[k - 1])
  }

  ghost predicate SumsAre(pay: Payoff, node: NodeResource, pods: seq<TargetPod>, ws: seq<seq<int>>, vs: seq<real>) {
    |vs| == |pods| && forall i | 0 <= i < |pods| :: SumAfter(pay, node, pods, i, ws) == vs[i]
  }

  lemma {:induction false} DrawSumIsMean(pay: Payoff, node: NodeResource, pods: seq<TargetPod>, ws: seq<seq<int>>,
                                         vs: seq<real>, k: nat)
    requires k <= |pods| && SumsAre(pay, node, pods, ws, vs)
    ensures DrawSum(pay, node, pods, k, ws) == MeanOf(pods, vs, k)
  {
    if k > 0 {
      DrawSumIsMean(pay, node, pods, ws, vs, k - 1);
      assert SumAfter(pay, node, pods, k - 1, ws) == vs[k - 1];
    }
  }

  lemma SumsAreExpected(pay: Payoff, node: NodeResource, pods: seq<TargetPod>, len: nat, vs: seq<real>)
    requires AllExpect(pay, node, pods, len, vs)
    ensures SumsAre(pay, node, pods, Walks(|pods|, len), vs)
  {
    forall i | 0 <= i < |pods| ensures SumAfter(pay, node, pods, i, Walks(|pods|, len)) == vs[i] {
      SumAfterIs(pay, node, pods, len, i, vs[i]);
    }
  }

  lemma DrawsExpect(pay: Payoff, node: NodeResource, pods: seq<TargetPod>, len: nat, vs: seq<real>)
    requires !Stuck(node, pods) && AllExpect(pay, node, pods, len, vs)
    ensures Expects(pay, node, pods, len + 1, MeanOf(pods, vs, |pods|))
  {
    SumsAreExpected(pay, node, pods, len, vs);
    DrawSumIsMean(pay, node, pods, Walks(|pods|, len), vs, |pods|);
    WalksByDraw(pay, node, pods, len + 1);
    ExpectsMeans(pay, node, pods, len + 1, MeanOf(pods, vs, |pods|));
  }

  /** Where the recursion stops it gives all idle milli, elsewhere the mean over the draws. */
  lemma UncutAt(node: NodeResource, pods: seq<TargetPod>)
    requires ValidNode(node) && Demanding(pods)
    ensures Uncut(node, pods) ==
      if Stuck(node, pods) then SumBy(Idle, node.milliGpuLeftList) as real else UncutSum(node, pods, |pods|)
  {
    UnservedIsRatio(node, pods);
  }

  ghost function Terms(node: NodeResource, pods: seq<TargetPod>): (vs: seq<real>)
    requires ValidNode(node) && Demanding(pods)
    ensures |vs| == |pods| && forall i | 0 <= i < |pods| :: vs[i] == UncutTerm(node, pods, i)
  {
    seq(|pods|, i requires 0 <= i < |pods| => UncutTerm(node, pods, i))
  }

  lemma {:induction false} MeanOfTerms(node: NodeResource, pods: seq<TargetPod>, k: nat)
    requires ValidNode(node) && Demanding(pods) && k <= |pods|
    ensures MeanOf(pods, Terms(node, pods), k) == UncutSum(node, pods, k)
  {
    if k > 0 {
      MeanOfTerms(node, pods, k - 1);
    }
  }

  lemma {:induction false} UncutExpects(node: NodeResource, pods: seq<TargetPod>, len: nat)
    requires ValidNode(node) && Demanding(pods) && Room(node) < len
    ensures Expects(IdleLeft, node, pods, len, Uncut(node, pods))
    decreases len, 0
  {
    RoomNonNegative(node);
    if Stuck(node, pods) {
      StuckUncut(node, pods, len);
    } else {
      TermsExpect(node, pods, len - 1);
      DrawnUncut(node, pods, len - 1);
    }
  }

  lemma StuckUncut(node: NodeResource, pods: seq<TargetPod>, len: nat)
    requires ValidNode(node) && Demanding(pods) && Stuck(node, pods)
    ensures Expects(IdleLeft, node, pods, len, Uncut(node, pods))
  {
    UncutAt(node, pods);
    StuckExpects(IdleLeft, node, pods, len);
  }

  lemma DrawnUncut(node: NodeResource, pods: seq<TargetPod>, len: nat)
    requires ValidNode(node) && Demanding(pods) && !Stuck(node, pods)
    requires AllExpect(IdleLeft, node, pods, len, Terms(node, pods))
    ensures Expects(IdleLeft, node, pods, len + 1, Uncut(node, pods))
  {
    UncutAt(node, pods);
    MeanOfTerms(node, pods, |pods|);
    DrawsExpect(IdleLeft, node, pods, len, Terms(node, pods));
  }

  lemma {:induction false} TermsExpect(node: NodeResource, pods: seq<TargetPod>, len: nat)
    requires ValidNode(node) && Demanding(pods) && Room(node) <= len
    ensures AllExpect(IdleLeft, node, pods, len, Terms(node, pods))
    decreases len, 2
  {
    var vs := Terms(node, pods);
    forall i | 0 <= i < |pods| ensures ExpectsAfter(IdleLeft, node, pods, len, i, vs[i]) {
      UncutExpectsAfter(node, pods, len, i);
    }
  }

  lemma {:induction false} UncutExpectsAfter(node: NodeResource, pods: seq<TargetPod>, len: nat, i: nat)
    requires ValidNode(node) && Demanding(pods) && Room(node) <= len && i < |pods|
    ensures ExpectsAfter(IdleLeft, node, pods, len, i, UncutTerm(node, pods, i))
    decreases len, 1
  {
    if SubSpec(node, pods[i].res).ok {
      SubShrinks(node, pods[i].res);
      UncutExpects(SubSpec(node, pods[i].res).node, pods, len);
    }
  }

  /** The Bellman value of a node, summed over its complete walks: the probability of the draws
      times the idle milli where they end. Walks longer than the node's room do not exist. */
  lemma UncutIsExpected(node: NodeResource, pods: seq<TargetPod>, len: nat)
    requires ValidNode(node) && Demanding(pods) && Room(node) < len
    ensures SumWalks(IdleLeft, node, pods, Walks(|pods|, len)) == Uncut(node, pods)
  {
    UncutExpects(node, pods, len);
    ExpectsMeans(IdleLeft, node, pods, len, Uncut(node, pods));
  }

  function Ones(n: nat): (vs: seq<real>)
    ensures |vs| == n && forall i | 0 <= i < n :: vs[i] == 1.0
  {
    seq(n, _ => 1.0)
  }

  lemma {:induction false} MeanOfOnes(pods: seq<TargetPod>, k: nat)
    requires k <= |pods|
    ensures MeanOf(pods, Ones(|pods|), k) == TotalPercentage(pods[..k])
  {
    if k > 0 {
      MeanOfOnes(pods, k - 1);
      Associates(pods[k - 1].percentage, 1.0, 1.0);
      assert pods[..k][..k - 1] == pods[..k - 1];
    }
  }

  lemma MeanOfAllOnes(pods: seq<TargetPod>)
    ensures MeanOf(pods, Ones(|pods|), |pods|) == TotalPercentage(pods)
  {
    MeanOfOnes(pods, |pods|);
    assert pods[..|pods|] == pods;
  }

  lemma {:induction false} WalksExpectOne(node: NodeResource, pods: seq<TargetPod>, len: nat)
    requires ValidNode(node) && Demanding(pods) && Room(node) < len && TotalPercentage(pods) == 1.0
    ensures Expects(One, node, pods, len, 1.0)
    decreases len, 0
  {
    RoomNonNegative(node);
    if Stuck(node, pods) {
      StuckExpects(One, node, pods, len);
    } else {
      OnesExpect(node, pods, len - 1);
      DrawnSurely(node, pods, len - 1);
    }
  }

  lemma DrawnSurely(node: NodeResource, pods: seq<TargetPod>, len: nat)
    requires !Stuck(node, pods) && TotalPercentage(pods) == 1.0 && AllExpect(One, node, pods, len, Ones(|pods|))
    ensures Expects(One, node, pods, len + 1, 1.0)
  {
    MeanOfAllOnes(pods);
    DrawsExpect(One, node, pods, len, Ones(|pods|));
  }

  lemma {:induction false} OnesExpect(node: NodeResource, pods: seq<TargetPod>, len: nat)
    requires ValidNode(node) && Demanding(pods) && Room(node) <= len && TotalPercentage(pods) == 1.0
    ensures AllExpect(One, node, pods, len, Ones(|pods|))
    decreases len, 2
  {
    forall i | 0 <= i < |pods| ensures ExpectsAfter(One, node, pods, len, i, Ones(|pods|)[i]) {
      WalksExpectOneAfter(node, pods, len, i);
    }
  }

  lemma {:induction false} WalksExpectOneAfter(node: NodeResource, pods: seq<TargetPod>, len: nat, i: nat)
    requires ValidNode(node) && Demanding(pods) && Room(node) <= len && i < |pods| && TotalPercentage(pods) == 1.0
    ensures ExpectsAfter(One, node, pods, len, i, 1.0)
    decreases len, 1
  {
    if SubSpec(node, pods[i].res).ok {
      SubShrinks(node, pods[i].res);
      WalksExpectOne(SubSpec(node, pods[i].res).node, pods, len);
    }
  }

  /** When the shares sum to 1 the complete walks are all that can happen. */
  lemma WalksEndSurely(node: NodeResource, pods: seq<TargetPod>, len: nat)
    requires ValidNode(node) && Demanding(pods) && Room(node) < len && TotalPercentage(pods) == 1.0
    ensures SumWalks(One, node, pods, Walks(|pods|, len)) == 1.0
  {
    WalksExpectOne(node, pods, len);
    ExpectsMeans(One, node, pods, len, 1.0);
  }

  // ----- where the recursion is cut off ------------------------------------------------------------

  /** The recursion gets as far as w: no draw before its end stopped or was refused. */
  predicate Visits(node: NodeResource, pods: seq<TargetPod>, w: seq<int>)
    decreases w
  {
    w == [] ||
    (0 <= w[0] < |pods| && !Stuck(node, pods) && SubSpec(node, pods[w[0]].res).ok &&
     Visits(SubSpec(node, pods[w[0]].res).node, pods, w[1..]))
  }

  /** At least one milli is expected where w leads, or nothing is idle there. */
  predicate Enough(node: NodeResource, pods: seq<TargetPod>, cumProb: real, w: seq<int>)
  {
    var idle := LeftAfter(node, pods, w);
    idle == 0 || 1.0 <= Times(idle as real, Times(cumProb, Chance(pods, w)))
  }

  lemma EnoughNext(node: NodeResource, pods: seq<TargetPod>, cumProb: real, i: nat, w: seq<int>)
    requires i < |pods| && SubSpec(node, pods[i].res).ok
    ensures Enough(node, pods, cumProb, [i] + w) <==>
      Enough(SubSpec(node, pods[i].res).node, pods, Times(cumProb, pods[i].percentage), w)
  {
    assert ([i] + w)[1..] == w;
    Associates(cumProb, pods[i].percentage, Chance(pods, w));
  }

  /** The cut-off is never reached exactly when wherever the recursion gets at least one milli
      is expected, or nothing is idle. */
  lemma {:induction false} NeverCutIff(node: NodeResource, pods: seq<TargetPod>, cumProb: real)
    requires ValidNode(node) && Demanding(pods)
    ensures NeverCut(node, pods, cumProb) <==>
      forall w | Visits(node, pods, w) :: Enough(node, pods, cumProb, w)
    decreases Room(node)
  {
    if NeverCut(node, pods, cumProb) {
      forall w | Visits(node, pods, w) ensures Enough(node, pods, cumProb, w) {
        NeverCutEnough(node, pods, cumProb, w);
      }
    } else {
      var w := CutWalk(node, pods, cumProb);
    }
  }

  lemma {:induction false} NeverCutEnough(node: NodeResource, pods: seq<TargetPod>, cumProb: real, w: seq<int>)
    requires ValidNode(node) && Demanding(pods) && NeverCut(node, pods, cumProb)
    requires Visits(node, pods, w)
    ensures Enough(node, pods, cumProb, w)
    decreases |w|
  {
    UnservedIsRatio(node, pods);
    if w == [] {
      Associates(cumProb, 1.0, 1.0);
    } else {
      var i := w[0];
      assert NeverCutAfter(node, pods, cumProb, i);
      SubShrinks(node, pods[i].res);
      NeverCutEnough(SubSpec(node, pods[i].res).node, pods, Times(cumProb, pods[i].percentage), w[1..]);
      EnoughNext(node, pods, cumProb, i, w[1..]);
      assert w == [i] + w[1..];
    }
  }

  /** A walk on which the cut-off is reached. */
  lemma {:induction false} CutWalk(node: NodeResource, pods: seq<TargetPod>, cumProb: real) returns (w: seq<int>)
    requires ValidNode(node) && Demanding(pods) && !NeverCut(node, pods, cumProb)
    ensures Visits(node, pods, w) && !Enough(node, pods, cumProb, w)
    decreases Room(node)
  {
    UnservedIsRatio(node, pods);
    RoomNonNegative(node);
    if Times(SumBy(Idle, node.milliGpuLeftList) as real, cumProb) < 1.0 {
      w := [];
      Associates(cumProb, 1.0, 1.0);
    } else {
      assert !NeverCutBelow(node, pods, cumProb);
      var i :| 0 <= i < |pods| && !NeverCutAfter(node, pods, cumProb, i);
      SubShrinks(node, pods[i].res);
      var rest := CutWalk(SubSpec(node, pods[i].res).node, pods, Times(cumProb, pods[i].percentage));
      EnoughNext(node, pods, cumProb, i, rest);
      w := [i] + rest;
      assert w[1..] == rest;
    }
  }
}
