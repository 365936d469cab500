// Which pipeline rank holds which layer, and which expert-parallel rank which expert: the converter cuts a model by
// prefix sums of the shards, the merger numbers local layers back (converter_hf_to_mcore.py,
// megatron_model_merger.py).
module LayerPlacement {
  import opened Common
  import opened PipelineShards

  /** `np.cumsum` up to, but excluding, rank r. */
  function Start(shards: seq<int>, r: nat): int
    requires r <= |shards|
  {
    Total(shards[..r])
  }

  lemma StartNext(shards: seq<int>, r: nat)
    requires r < |shards|
    ensures Start(shards, r + 1) == Start(shards, r) + shards[r]
  {
    assert shards[..r + 1][..r] == shards[..r];
  }

  predicate Positive(shards: seq<int>) {
    forall k :: 0 <= k < |shards| ==> shards[k] >= 1
  }

  lemma {:induction false} StartMonotone(shards: seq<int>, a: nat, b: nat)
    requires Positive(shards) && a <= b <= |shards|
    ensures Start(shards, b) - Start(shards, a) >= b - a
  {
    if a < b {
      StartMonotone(shards, a, b - 1);
      StartNext(shards, b - 1);
    }
  }

  /** The rank that holds global layer g. */
  function RankOf(shards: seq<int>, g: int): (r: nat)
    requires Positive(shards) && 0 <= g < Total(shards)
    ensures r < |shards| && Start(shards, r) <= g < Start(shards, r + 1)
    decreases |shards|
  {
    var n := |shards| - 1;
    assert shards[..n + 1] == shards;
    if g >= Total(shards[..n]) then n
    else
      var r := RankOf(shards[..n], g);
      assert shards[..n][..r] == shards[..r] && shards[..n][..r + 1] == shards[..r + 1];
      r
  }

  /** The ranges of the ranks tile the layers: every layer is in exactly one of them. */
  lemma ExactlyOneRank(shards: seq<int>, g: int, r: nat)
    requires Positive(shards) && 0 <= g < Total(shards) && r < |shards|
    ensures Start(shards, r) <= g < Start(shards, r + 1) <==> r == RankOf(shards, g)
  {
    var q := RankOf(shards, g);
    if r < q { StartMonotone(shards, r + 1, q); }
    if q < r { StartMonotone(shards, q + 1, r); }
  }

  // ---------- Conversion ----------

  /** The layers of the model that rank r fills from layer `start` to `end` of the HuggingFace model: Err if their
      number does not fit. */
  method ConvertLayers<T>(hf: seq<T>, start: nat, end: nat, localLayers: nat) returns (r: Result<seq<T>>)
    ensures r.Ok? <==> start <= end && localLayers == end - start <= |hf| - start
    ensures r.Ok? ==> r.value == hf[start..end]
  {
    if end < start || localLayers != end - start || end > |hf| {
      return Err;
    }
    var copied: seq<T> := [];
    for layer := 0 to localLayers
      invariant copied == hf[start..start + layer]
    {
      copied := copied + [hf[layer + start]];
    }
    return Ok(copied);
  }

  // ---------- Merging ----------

  /** One state dictionary: local layer numbers with what is stored for them, in any order. */
  type StateDict<T> = seq<(nat, T)>

  /** A dictionary that lists n layers lists each local number below n once. */
  ghost predicate Numbered<T(!new)>(d: StateDict<T>, layers: seq<T>) {
    && (forall k :: 0 <= k < |d| ==> d[k].0 < |layers| && d[k].1 == layers[d[k].0])
    && (forall j: nat :: j < |layers| ==> Lists(d, j))
  }

  ghost predicate Lists<T(!new)>(d: StateDict<T>, j: nat) {
    exists k :: 0 <= k < |d| && d[k].0 == j
  }

  function Numbering<T>(offset: nat, layers: seq<T>): map<nat, T> {
    map g: nat | g < offset + |layers| && From(offset, g) :: layers[g - offset]
  }

  predicate From(offset: nat, g: nat) {
    offset <= g
  }

  /** Merges one dictionary: its entries get their global numbers; `handled` is the largest local number. */
  method MergeOne<T(!new)>(d: StateDict<T>, offset: nat, ghost layers: seq<T>, merged: map<nat, T>)
    returns (result: map<nat, T>, handled: nat)
    requires Numbered(d, layers)
    ensures handled == if layers == [] then 0 else |layers| - 1
    ensures result == merged + Numbering(offset, layers)
  {
    result, handled := merged, 0;
    for k := 0 to |d|
      invariant handled == 0 || exists i :: 0 <= i < k && handled == d[i].0
      invariant forall i :: 0 <= i < k ==> d[i].0 <= handled
      invariant forall i :: 0 <= i < k ==> offset + d[i].0 in result && result[offset + d[i].0] == layers[d[i].0]
      invariant forall g :: g in merged ==> g in result
      invariant forall g :: g in result ==>
        (g in Numbering(offset, layers) && result[g] == Numbering(offset, layers)[g]) || (g in merged && result[g] == merged[g])
    {
      var (no, t) := d[k];
      handled := if no > handled then no else handled;
      result := result[offset + no := t];
    }
    forall g | g in Numbering(offset, layers) ensures g in result && result[g] == layers[g - offset] {
      assert Lists(d, g - offset);
    }
    if layers != [] { assert Lists(d, |layers| - 1); }
  }

  /** The number that the first layer of the k-th dictionary gets. A dictionary without layers takes up a number, too. */
  function Offset<T>(start: nat, layersOf: seq<seq<T>>): nat {
    if layersOf == [] then start
    else
      var n := |layersOf| - 1;
      Offset(start, layersOf[..n]) + if layersOf[n] == [] then 1 else |layersOf[n]|
  }

  function MergedLayers<T>(start: nat, layersOf: seq<seq<T>>): map<nat, T> {
    if layersOf == [] then map[]
    else
      var n := |layersOf| - 1;
      MergedLayers(start, layersOf[..n]) + Numbering(Offset(start, layersOf[..n]), layersOf[n])
  }

  method MergeStateDicts<T(!new)>(start: nat, dicts: seq<StateDict<T>>, ghost layersOf: seq<seq<T>>) returns (merged: map<nat, T>)
    requires |layersOf| == |dicts| && forall k :: 0 <= k < |dicts| ==> Numbered(dicts[k], layersOf[k])
    ensures merged == MergedLayers(start, layersOf)
  {
    merged := map[];
    var cum := start;
    for k := 0 to |dicts|
      invariant cum == Offset(start, layersOf[..k]) && merged == MergedLayers(start, layersOf[..k])
    {
      assert layersOf[..k + 1][..k] == layersOf[..k];
      var result, handled := MergeOne(dicts[k], cum, layersOf[k], merged);
      merged, cum := result, cum + handled + 1;
    }
    assert layersOf[..|dicts|] == layersOf;
  }

  // ---------- What merging means ----------

  predicate NoneEmpty<T>(layersOf: seq<seq<T>>) {
    layersOf == [] || (NoneEmpty(layersOf[..|layersOf| - 1]) && |layersOf[|layersOf| - 1]| > 0)
  }

  /** The dictionaries of one rank are numbered on without gaps if and only if none of them is without layers. */
  lemma {:induction false} NumbersAreContiguousIff<T>(start: nat, layersOf: seq<seq<T>>)
    ensures Offset(start, layersOf) == start + |Flatten(layersOf)| <==> NoneEmpty(layersOf)
    ensures Offset(start, layersOf) >= start + |Flatten(layersOf)|
  {
    if layersOf != [] {
      var n := |layersOf| - 1;
      NumbersAreContiguousIff(start, layersOf[..n]);
      FlattenSnoc(layersOf[..n], layersOf[n]);
      assert layersOf[..n] + [layersOf[n]] == layersOf;
    }
  }

  function WithoutLayers<T>(layersOf: seq<seq<T>>): nat {
    if layersOf == [] then 0
    else WithoutLayers(layersOf[..|layersOf| - 1]) + if layersOf[|layersOf| - 1] == [] then 1 else 0
  }

  /** Every dictionary without layers leaves out one number. */
  lemma {:induction false} OffsetCounts<T>(start: nat, layersOf: seq<seq<T>>)
    ensures Offset(start, layersOf) == start + |Flatten(layersOf)| + WithoutLayers(layersOf)
  {
    if layersOf != [] {
      var n := |layersOf| - 1;
      OffsetCounts(start, layersOf[..n]);
      FlattenSnoc(layersOf[..n], layersOf[n]);
      assert layersOf[..n] + [layersOf[n]] == layersOf;
    }
  }

  /** Layer j of dictionary k has number g. */
  ghost predicate HasNumber<T>(start: nat, layersOf: seq<seq<T>>, k: nat, j: nat, g: nat) {
    k < |layersOf| && j < |layersOf[k]| && g == start + |Flatten(layersOf[..k])| + WithoutLayers(layersOf[..k]) + j
  }

  /** What merging gives, for any dictionaries: the layers of all of them, and nothing else, under their numbers. */
  lemma {:induction false} MergedIff<T(!new)>(start: nat, layersOf: seq<seq<T>>, g: nat)
    ensures g in MergedLayers(start, layersOf) <==> exists k: nat, j: nat :: HasNumber(start, layersOf, k, j, g)
    ensures forall k: nat, j: nat | HasNumber(start, layersOf, k, j, g) ::
      g in MergedLayers(start, layersOf) && MergedLayers(start, layersOf)[g] == layersOf[k][j]
    ensures g in MergedLayers(start, layersOf) ==> g < Offset(start, layersOf)
  {
    if layersOf != [] {
      var n := |layersOf| - 1;
      var front := layersOf[..n];
      OffsetCounts(start, front);
      MergedIff(start, front, g);
      forall k: nat, j: nat ensures
        HasNumber(start, layersOf, k, j, g) <==>
          HasNumber(start, front, k, j, g) || (k == n && j < |layersOf[n]| && g == Offset(start, front) + j)
      {
        if k < n { assert front[..k] == layersOf[..k]; }
      }
      assert g in Numbering(Offset(start, front), layersOf[n]) <==> Offset(start, front) <= g < Offset(start, front) + |layersOf[n]|;
      if g in Numbering(Offset(start, front), layersOf[n]) {
        assert HasNumber(start, layersOf, n, g - Offset(start, front), g);
      } else if g in MergedLayers(start, front) {
        var k: nat, j: nat :| HasNumber(start, front, k, j, g);
        assert HasNumber(start, layersOf, k, j, g);
      }
    }
  }

  lemma NumberingJoin<T>(start: nat, a: seq<T>, b: seq<T>)
    ensures Numbering(start, a) + Numbering(start + |a|, b) == Numbering(start, a + b)
  {
  }

  lemma {:induction false} MergedIsFlat<T>(start: nat, layersOf: seq<seq<T>>)
    requires NoneEmpty(layersOf)
    ensures MergedLayers(start, layersOf) == Numbering(start, Flatten(layersOf))
  {
    hide Numbering, Flatten, Offset;
    if layersOf == [] {
      NothingNumbered<T>(start);
    } else {
      var n := |layersOf| - 1;
      MergedIsFlat(start, layersOf[..n]);
      NumbersAreContiguousIff(start, layersOf[..n]);
      FlattenSnoc(layersOf[..n], layersOf[n]);
      assert layersOf[..n] + [layersOf[n]] == layersOf;
      NumberingJoin(start, Flatten(layersOf[..n]), layersOf[n]);
    }
  }

  lemma NothingNumbered<T>(start: nat)
    ensures Numbering<T>(start, Flatten([])) == map[]
  {
  }

  /** Conversion and merging are inverse to each other: when the layers of rank r are cut out by the shards and split
      over dictionaries in any way, merging gives each of them back under its global number, and every layer of the
      model comes from exactly one rank. */
  lemma MergeUndoesConversion<T>(hf: seq<T>, shards: seq<int>, r: nat, layersOf: seq<seq<T>>, g: nat)
    requires Positive(shards) && Total(shards) == |hf| && r < |shards| && g < |hf|
    requires NoneEmpty(layersOf)
    requires 0 <= Start(shards, r) <= Start(shards, r + 1) <= |hf|
    requires Flatten(layersOf) == hf[Start(shards, r)..Start(shards, r + 1)]
    ensures var merged := MergedLayers(Start(shards, r), layersOf);
      && (g in merged <==> r == RankOf(shards, g))
      && (g in merged ==> merged[g] == hf[g])
  {
    MergedIsFlat(Start(shards, r), layersOf);
    ExactlyOneRank(shards, g, r);
  }

  // ---------- Experts ----------

  /** With `local` experts each, expert-parallel rank `rank` copies these experts. */
  predicate HoldsExpert(local: nat, rank: nat, e: nat) {
    rank * local <= e < (rank + 1) * local
  }

  /** The loop over all experts with its `continue` copies exactly the rank's own, to consecutive local places. */
  method LocalExperts(experts: nat, ranks: nat, rank: nat) returns (copied: seq<(nat, nat)>)
    requires ranks > 0
    ensures forall k :: 0 <= k < |copied| ==>
      copied[k] == (rank * (experts / ranks) + k, k) && copied[k].0 < experts && HoldsExpert(experts / ranks, rank, copied[k].0)
    ensures forall e: nat :: e < experts && HoldsExpert(experts / ranks, rank, e) ==> exists k :: 0 <= k < |copied| && copied[k].0 == e
  {
    copied := [];
    var local := experts / ranks;
    var (first, last) := (rank * local, (rank + 1) * local);
    for e := 0 to experts
      invariant |copied| == if e <= first then 0 else if e <= last then e - first else last - first
      invariant forall k :: 0 <= k < |copied| ==> copied[k] == (first + k, k) && first + k < e && first + k < last
    {
      if e < first || e >= last {
        continue;
      }
      copied := copied + [(e, e - first)];
    }
    forall e: nat | e < experts && HoldsExpert(local, rank, e) ensures exists k :: 0 <= k < |copied| && copied[k].0 == e {
      assert copied[e - first].0 == e;
    }
  }

  lemma HoldersDiffer(local: nat, a: nat, b: nat, e: nat)
    requires HoldsExpert(local, a, e) && HoldsExpert(local, b, e)
    ensures a == b
  {
    if a < b { MulMonotone(local, a + 1, b); }
    if b < a { MulMonotone(local, b + 1, a); }
  }

  ghost predicate IsCopied(local: nat, ranks: nat, e: nat) {
    exists rank: nat :: rank < ranks && HoldsExpert(local, rank, e)
  }

  lemma CopiedIff(local: nat, ranks: nat, e: nat)
    ensures IsCopied(local, ranks, e) <==> e < ranks * local
  {
    if e < ranks * local {
      assert local > 0;
      DivisionBounds(e, local);
      var rank := e / local;
      if rank >= ranks { MulMonotone(local, ranks, rank); }
      assert rank < ranks && HoldsExpert(local, rank, e);
    } else {
      forall rank: nat | rank < ranks ensures !HoldsExpert(local, rank, e) { MulMonotone(local, rank + 1, ranks); }
    }
  }

  lemma DivisionBounds(e: nat, local: nat)
    requires local > 0
    ensures e / local * local <= e < (e / local + 1) * local
  {
  }

  lemma DivisionSum(n: nat, d: nat)
    requires d > 0
    ensures d * (n / d) + n % d == n && 0 <= n % d && d * (n / d) >= 0
  {
  }

  /** Every expert is copied by some rank, and by one only, if and only if the ranks divide the experts evenly;
      otherwise the last ones are copied by none. */
  lemma EveryExpertCopiedIff(experts: nat, ranks: nat, local: nat)
    requires ranks > 0 && local == experts / ranks
    ensures (forall e: nat :: e < experts ==> IsCopied(local, ranks, e)) <==> experts % ranks == 0
    ensures forall a: nat, b: nat, e: nat :: HoldsExpert(local, a, e) && HoldsExpert(local, b, e) ==> a == b
  {
    hide HoldsExpert, IsCopied;
    forall e: nat ensures IsCopied(local, ranks, e) <==> e < ranks * local { CopiedIff(local, ranks, e); }
    forall a: nat, b: nat, e: nat | HoldsExpert(local, a, e) && HoldsExpert(local, b, e) ensures a == b {
      HoldersDiffer(local, a, b, e);
    }
    DivisionSum(experts, ranks);
    if experts % ranks != 0 { assert !IsCopied(local, ranks, ranks * local); }
  }
}
