// How many layers every pipeline rank gets (megatron_model_merger.py).
module PipelineShards {
  import opened Common

  function Total(s: seq<int>): int {
    if s == [] then 0 else Total(s[..|s| - 1]) + s[|s| - 1]
  }

  /** The least m with `parts * m >= n`. */
  function Ceil(n: nat, parts: nat): (m: nat)
    requires parts > 0
    ensures parts * m >= n && (m > 0 ==> parts * (m - 1) < n)
  {
    (n + parts - 1) / parts
  }

  /** `middle` layers on every rank but the first and the last, which share the rest. */
  function First(layers: int, ranks: int, middle: int): int {
    (layers - middle * (ranks - 2)) / 2
  }

  function Last(layers: int, ranks: int, middle: int): int {
    layers - middle * (ranks - 2) - First(layers, ranks, middle)
  }

  function Layout(layers: int, ranks: int, middle: int): seq<int>
    requires ranks >= 2
  {
    [First(layers, ranks, middle)] + seq(ranks - 2, _ => middle) + [Last(layers, ranks, middle)]
  }

  /** The first and the last rank get some layers, but not more than the others. */
  predicate IsCandidate(layers: int, ranks: int, middle: int) {
    0 < First(layers, ranks, middle) <= middle && 0 < Last(layers, ranks, middle) <= middle
  }

  /** What the search finds, in closed form. */
  function Shards(layers: int, ranks: int): Result<seq<int>> {
    if layers < ranks || ranks < 1 then Err
    else if ranks == 1 then Ok([layers])
    else if ranks == 2 then Ok([layers / 2, layers - layers / 2])
    else
      var m := Ceil(layers, ranks);
      if m * (ranks - 2) <= layers - 2 then Ok(Layout(layers, ranks, m)) else Err
  }

  // ---------- The candidates ----------

  /** In terms of the middle stage alone: it is long enough for all layers, and leaves two of them. */
  lemma CandidateIff(layers: int, ranks: int, middle: int)
    requires ranks >= 3
    ensures IsCandidate(layers, ranks, middle) <==> middle * ranks >= layers && middle * (ranks - 2) <= layers - 2
  {
    assert middle * ranks == middle * (ranks - 2) + 2 * middle;
  }

  /** Every candidate is at least the ceiling, and if there is any, the ceiling is one. */
  lemma LeastCandidate(layers: nat, ranks: nat, middle: int)
    requires ranks >= 3 && layers >= ranks && IsCandidate(layers, ranks, middle)
    ensures middle >= Ceil(layers, ranks) && IsCandidate(layers, ranks, Ceil(layers, ranks))
  {
    var m := Ceil(layers, ranks);
    CandidateIff(layers, ranks, middle);
    CandidateIff(layers, ranks, m);
    if middle < m { MulMonotone(ranks, middle, m - 1); }
    if m <= middle { MulMonotone(ranks - 2, m, middle); }
  }

  /** The difference by which the candidates are sorted grows with the middle stage. */
  lemma DifferenceGrows(layers: int, ranks: int, a: int, b: int)
    requires ranks >= 3 && a < b
    ensures a - First(layers, ranks, a) < b - First(layers, ranks, b)
  {
    MulMonotone(ranks - 2, a, b);
  }

  lemma CeilBelow(layers: nat, ranks: nat)
    requires ranks >= 3 && layers >= ranks && IsCandidate(layers, ranks, Ceil(layers, ranks))
    ensures Ceil(layers, ranks) < layers
  {
    var m := Ceil(layers, ranks);
    CandidateIff(layers, ranks, m);
    MulMonotone(m, 1, ranks - 2);
  }

  function Abs(x: int): nat {
    if x < 0 then -x else x
  }

  /** Of all candidates the shards have the least difference between the first and the middle stages. */
  predicate LeastDifference(layers: int, ranks: int, shards: seq<int>)
    requires |shards| > 1
  {
    forall c :: 0 <= c < layers && IsCandidate(layers, ranks, c) ==>
      Abs(shards[0] - shards[1]) <= Abs(First(layers, ranks, c) - c)
  }

  lemma ShardsAreLeast(layers: int, ranks: int)
    requires ranks >= 3 && Shards(layers, ranks).Ok?
    ensures |Shards(layers, ranks).value| == ranks && LeastDifference(layers, ranks, Shards(layers, ranks).value)
  {
    hide Ceil;
    var m := Ceil(layers, ranks);
    CandidateIff(layers, ranks, m);
    assert m * ranks == ranks * m;
    forall c | 0 <= c < layers && IsCandidate(layers, ranks, c)
      ensures Abs(First(layers, ranks, m) - m) <= Abs(First(layers, ranks, c) - c)
    {
      LeastCandidate(layers, ranks, c);
      if m < c { DifferenceGrows(layers, ranks, m, c); }
    }
  }

  /** All middle stages are equal; the first and the last one share the rest evenly, and an odd layer goes to the last. */
  predicate Symmetric(shards: seq<int>)
    requires shards != []
  {
    && 0 <= shards[|shards| - 1] - shards[0] <= 1
    && forall k :: 0 < k < |shards| - 1 ==> shards[k] == shards[1]
  }

  lemma ShardsAreSymmetric(layers: int, ranks: int)
    requires Shards(layers, ranks).Ok?
    ensures |Shards(layers, ranks).value| == ranks && Symmetric(Shards(layers, ranks).value)
  {
  }

  /** The search over all middle stages; the original sorts the candidates by their difference, stably, and takes the
      first. */
  method GetDynamicPipelineShards(layers: int, ranks: int) returns (r: Result<seq<int>>)
    ensures r == Shards(layers, ranks)
    ensures r.Ok? ==> |r.value| == ranks >= 1 && Symmetric(r.value)
    ensures r.Ok? && ranks >= 3 ==> LeastDifference(layers, ranks, r.value)
  {
    if layers < ranks || ranks < 1 {
      return Err;
    }
    if ranks == 1 {
      return Ok([layers]);
    }
    if ranks == 2 {
      return Ok([layers / 2, layers - layers / 2]);
    }
    hide Layout, First, Last, Ceil, IsCandidate;
    var m := Ceil(layers, ranks);
    var strategies: seq<(seq<int>, nat)> := [];
    ghost var middles: seq<int> := [];
    for middle := 0 to layers
      invariant |middles| == |strategies|
      invariant forall k :: 0 <= k < |middles| ==> 0 <= middles[k] < middle && IsCandidate(layers, ranks, middles[k])
      invariant forall k :: 0 <= k < |middles| ==>
        strategies[k] == (Layout(layers, ranks, middles[k]), Abs(First(layers, ranks, middles[k]) - middles[k]))
      invariant forall c :: 0 <= c < middle && IsCandidate(layers, ranks, c) ==> c in middles
    {
      var rest := layers - middle * (ranks - 2);
      var (first, last) := (rest / 2, rest - rest / 2);
      SameStages(layers, ranks, middle);
      if 0 < first <= middle && 0 < last <= middle {
        strategies := strategies + [([first] + seq(ranks - 2, _ => middle) + [last], Abs(first - middle))];
        middles := middles + [middle];
      }
    }
    if strategies == [] {
      NoCandidate(layers, ranks, middles);
      return Err;
    }
    var best := FirstMinimum(strategies);
    BestIsCeil(layers, ranks, middles, strategies, best);
    ShardsAreLeast(layers, ranks);
    ShardsAreSymmetric(layers, ranks);
    return Ok(strategies[best].0);
  }

  lemma SameStages(layers: int, ranks: int, middle: int)
    requires ranks >= 3
    ensures var rest := layers - middle * (ranks - 2);
      var (first, last) := (rest / 2, rest - rest / 2);
      && first == First(layers, ranks, middle)
      && Layout(layers, ranks, middle) == [first] + seq(ranks - 2, _ => middle) + [last]
      && (IsCandidate(layers, ranks, middle) <==> 0 < first <= middle && 0 < last <= middle)
  {
  }

  lemma NoCandidate(layers: int, ranks: int, middles: seq<int>)
    requires 3 <= ranks <= layers && middles == []
    requires forall c :: 0 <= c < layers && IsCandidate(layers, ranks, c) ==> c in middles
    ensures Shards(layers, ranks) == Err
  {
    hide Layout, First, Last, Ceil, IsCandidate;
    var m := Ceil(layers, ranks);
    CandidateIff(layers, ranks, m);
    if IsCandidate(layers, ranks, m) { CeilBelow(layers, ranks); }
    assert m * ranks == ranks * m;
  }

  lemma BestIsCeil(layers: int, ranks: int, middles: seq<int>, strategies: seq<(seq<int>, nat)>, best: nat)
    requires 3 <= ranks <= layers && |middles| == |strategies| && best < |middles|
    requires forall k :: 0 <= k < |middles| ==> 0 <= middles[k] && IsCandidate(layers, ranks, middles[k])
    requires forall k :: 0 <= k < |middles| ==>
      strategies[k] == (Layout(layers, ranks, middles[k]), Abs(First(layers, ranks, middles[k]) - middles[k]))
    requires forall c :: 0 <= c < layers && IsCandidate(layers, ranks, c) ==> c in middles
    requires forall k :: 0 <= k < |strategies| ==> strategies[best].1 <= strategies[k].1
    ensures Shards(layers, ranks) == Ok(strategies[best].0)
  {
    var (m, b) := (Ceil(layers, ranks), middles[best]);
    LeastCandidate(layers, ranks, b);
    CeilBelow(layers, ranks);
    CandidateIff(layers, ranks, m);
    var k :| 0 <= k < |middles| && middles[k] == m;
    if m < b { DifferenceGrows(layers, ranks, m, b); }
  }

  method FirstMinimum(strategies: seq<(seq<int>, nat)>) returns (best: nat)
    requires strategies != []
    ensures best < |strategies|
    ensures forall k :: 0 <= k < |strategies| ==> strategies[best].1 <= strategies[k].1
    ensures forall k :: 0 <= k < best ==> strategies[best].1 < strategies[k].1
  {
    best := 0;
    for i := 1 to |strategies|
      invariant best < i
      invariant forall k :: 0 <= k < i ==> strategies[best].1 <= strategies[k].1
      invariant forall k :: 0 <= k < best ==> strategies[best].1 < strategies[k].1
    {
      if strategies[i].1 < strategies[best].1 {
        best := i;
      }
    }
  }

  // ---------- What the shards mean ----------

  lemma {:induction false} TotalAppend(a: seq<int>, b: seq<int>)
    ensures Total(a + b) == Total(a) + Total(b)
  {
    if b == [] {
      assert a + b == a;
    } else {
      var n := |b| - 1;
      assert (a + b)[..|a| + n] == a + b[..n];
      TotalAppend(a, b[..n]);
    }
  }

  lemma {:induction false} TotalRepeat(n: nat, x: int)
    ensures Total(seq(n, _ => x)) == n * x
  {
    if n > 0 {
      assert seq(n, _ => x)[..n - 1] == seq(n - 1, _ => x);
      TotalRepeat(n - 1, x);
    }
  }

  lemma {:induction false} TotalBound(s: seq<int>, x: int)
    requires forall k :: 0 <= k < |s| ==> s[k] <= x
    ensures Total(s) <= |s| * x
  {
    if s != [] { TotalBound(s[..|s| - 1], x); }
  }

  /** Every rank needs a layer. For three ranks or more the search succeeds exactly if the ceiling of layers per rank
      leaves two layers to the first and the last rank; the middle ranks then get this ceiling. */
  lemma SucceedsIff(layers: int, ranks: int)
    ensures Shards(layers, ranks).Ok? <==>
      1 <= ranks <= layers && (ranks <= 2 || exists middle :: 0 <= middle < layers && IsCandidate(layers, ranks, middle))
    ensures 3 <= ranks <= layers ==> (Shards(layers, ranks).Ok? <==> Ceil(layers, ranks) * (ranks - 2) <= layers - 2)
  {
    if 3 <= ranks <= layers {
      var m := Ceil(layers, ranks);
      CandidateIff(layers, ranks, m);
      if IsCandidate(layers, ranks, m) { CeilBelow(layers, ranks); }
      forall middle | 0 <= middle < layers && IsCandidate(layers, ranks, middle) ensures IsCandidate(layers, ranks, m) {
        LeastCandidate(layers, ranks, middle);
      }
    }
  }

  /** Whenever shards are found they add up to all layers, there is one per rank, and every rank gets at least one
      layer. */
  lemma ShardsCoverLayers(layers: int, ranks: int)
    requires Shards(layers, ranks).Ok?
    ensures var s := Shards(layers, ranks).value;
      |s| == ranks && Total(s) == layers && forall k :: 0 <= k < |s| ==> 1 <= s[k]
  {
    var s := Shards(layers, ranks).value;
    if ranks == 1 {
      assert s[..0] == [];
    } else if ranks == 2 {
      var (a, b) := ([layers / 2], [layers - layers / 2]);
      TotalAppend(a, b);
      assert a + b == s && a[..0] == [] && b[..0] == [];
    } else {
      var m := Ceil(layers, ranks);
      CandidateIff(layers, ranks, m);
      LayoutTotal(layers, ranks, m);
    }
  }

  lemma LayoutTotal(layers: int, ranks: int, m: int)
    requires ranks >= 3
    ensures Total(Layout(layers, ranks, m)) == layers
  {
    var (f, l) := (First(layers, ranks, m), Last(layers, ranks, m));
    TotalRepeat(ranks - 2, m);
    TotalAppend([f], seq(ranks - 2, _ => m));
    TotalAppend([f] + seq(ranks - 2, _ => m), [l]);
    assert [f][..0] == [] && [l][..0] == [];
  }

  /** The shards are as even as any: no way of giving all layers to the ranks has a smaller largest stage. */
  lemma ShardsAreEven(layers: int, ranks: int, other: seq<int>, bound: int)
    requires Shards(layers, ranks).Ok? && |other| == ranks && Total(other) == layers
    requires forall k :: 0 <= k < |other| ==> other[k] <= bound
    ensures forall k :: 0 <= k < ranks ==> Shards(layers, ranks).value[k] <= bound
  {
    TotalBound(other, bound);
    ShardsCoverLayers(layers, ranks);
    if ranks >= 3 {
      var m := Ceil(layers, ranks);
      CandidateIff(layers, ranks, m);
      if bound < m { MulMonotone(ranks, bound, m - 1); }
    }
  }

  /** Nine layers on eight ranks: middle stages of two take more than all layers, stages of one are too short. */
  lemma NineOnEightFails()
    ensures Shards(9, 8) == Err
  {
    assert Ceil(9, 8) == 2;
  }
}
