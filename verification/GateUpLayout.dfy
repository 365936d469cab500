// The layout of gated feed-forward weights: gate and up in one tensor, one after the other (converter_hf_to_mcore.py,
// megatron_model_merger.py, legacy_model_merger.py).
module GateUpLayout {
  import opened Common
  import opened RowCuts

  /** `gate, up = x.chunk(2)`: Err if there are not two chunks. */
  function SplitGateUp<T>(x: seq<T>): Result<(seq<T>, seq<T>)> {
    var chunks := Chunk(x, 2);
    if |chunks| == 2 then Ok((chunks[0], chunks[1])) else Err
  }

  /** The two halves of a concatenation come apart again exactly if they have equally many rows, or the first one has
      one row more and the second at least one. */
  lemma SplitUndoesConcatIff<T>(gate: seq<T>, up: seq<T>)
    ensures SplitGateUp(gate + up) == Ok((gate, up)) <==> |gate| == |up| || (|gate| == |up| + 1 && up != [])
  {
    var (x, n) := (gate + up, |gate| + |up|);
    var size := (n + 1) / 2;
    if n == 0 {
      assert gate == [] && up == [];
    } else if n > 1 {
      assert |x[size..]| <= size;
      assert Pieces(x, size) == [x[..size]] + Pieces(x[size..], size);
      assert Chunk(x, 2) == [x[..size], x[size..]];
      if |gate| == size { assert x[..size] == gate && x[size..] == up; }
    }
  }

  function FirstHalf<T>(x: seq<T>): seq<T> {
    if SplitGateUp(x).Ok? then SplitGateUp(x).value.0 else []
  }

  function SecondHalf<T>(x: seq<T>): seq<T> {
    if SplitGateUp(x).Ok? then SplitGateUp(x).value.1 else []
  }

  function JoinHalves<T>(blocks: seq<seq<T>>): (seq<T>, seq<T>) {
    (Flatten(seq(|blocks|, b requires 0 <= b < |blocks| => FirstHalf(blocks[b]))),
     Flatten(seq(|blocks|, b requires 0 <= b < |blocks| => SecondHalf(blocks[b]))))
  }

  /** A block has halves unless it is a single row, and an odd row belongs to the first half. */
  lemma HalvesAre<T>(x: seq<T>)
    ensures SplitGateUp(x).Ok? <==> |x| != 1
    ensures |x| != 1 ==> FirstHalf(x) == x[..(|x| + 1) / 2] && SecondHalf(x) == x[(|x| + 1) / 2..]
  {
    var m := (|x| + 1) / 2;
    if |x| != 1 {
      SplitUndoesConcatIff(x[..m], x[m..]);
      assert x[..m] + x[m..] == x;
    }
  }

  /** The legacy merger of the blocks of all tensor-parallel ranks. */
  method MergeGateUp<T>(blocks: seq<seq<T>>) returns (r: Result<(seq<T>, seq<T>)>)
    ensures r.Ok? <==> blocks != [] && forall b :: 0 <= b < |blocks| ==> |blocks[b]| != 1
    ensures r.Ok? ==> r.value == JoinHalves(blocks)
  {
    hide SplitGateUp;
    if blocks == [] {
      return Err;
    }
    var gates: seq<seq<T>>, ups: seq<seq<T>> := [], [];
    for b := 0 to |blocks|
      invariant forall i :: 0 <= i < b ==> |blocks[i]| != 1
      invariant gates == seq(b, i requires 0 <= i < b => FirstHalf(blocks[i])) && ups == seq(b, i requires 0 <= i < b => SecondHalf(blocks[i]))
    {
      HalvesAre(blocks[b]);
      var halves := SplitGateUp(blocks[b]);
      if halves.Err? {
        return Err;
      }
      gates, ups := gates + [halves.value.0], ups + [halves.value.1];
    }
    return Ok((Flatten(gates), Flatten(ups)));
  }

  /** Blocks that hold a part of the gate and then the same part of up, as every rank does, are merged correctly. */
  lemma MergeUndoesPairedCut<T>(gate: seq<T>, up: seq<T>, tp: nat, m: nat, blocks: seq<seq<T>>)
    requires |gate| == |up| == tp * m && |blocks| == tp
    requires forall b :: 0 <= b < tp ==> blocks[b] == View(gate, tp, m)[b] + View(up, tp, m)[b]
    ensures JoinHalves(blocks) == (gate, up)
  {
    hide SplitGateUp, Flatten;
    var (gates, ups) := (View(gate, tp, m), View(up, tp, m));
    forall b | 0 <= b < tp ensures FirstHalf(blocks[b]) == gates[b] && SecondHalf(blocks[b]) == ups[b] {
      SplitUndoesConcatIff(gates[b], ups[b]);
    }
    FlattenView(gate, tp, m);
    FlattenView(up, tp, m);
    assert seq(|blocks|, b requires 0 <= b < |blocks| => FirstHalf(blocks[b])) == gates;
    assert seq(|blocks|, b requires 0 <= b < |blocks| => SecondHalf(blocks[b])) == ups;
  }

  /** Rows cut contiguously out of the concatenation of gate and up, merged again. */
  ghost predicate ContiguousMerges<T>(gate: seq<T>, up: seq<T>, tp: nat, m: nat) {
    |gate + up| == tp * (2 * m) && JoinHalves(View(gate + up, tp, 2 * m)) == (gate, up)
  }

  // ---------- Contiguous cuts ----------

  lemma SecondBlockIntrudes<T>(gate: seq<T>, up: seq<T>, tp: nat, m: nat)
    requires tp >= 2 && m >= 1 && |gate| == |up| == tp * m && |gate + up| == tp * (2 * m)
    requires 2 * m < |gate + up| && (gate + up)[m] != (gate + up)[2 * m]
    ensures !ContiguousMerges(gate, up, tp, m)
  {
    var (x, blocks) := (gate + up, View(gate + up, tp, 2 * m));
    ViewAt(x, tp, 2 * m, 0);
    ViewAt(x, tp, 2 * m, 1);
    HalvesOf(blocks[0], m);
    HalvesOf(blocks[1], m);
    hide SplitGateUp, View;
    var gates := seq(|blocks|, b requires 0 <= b < |blocks| => FirstHalf(blocks[b]));
    assert Flatten(gates) == gates[0] + Flatten(gates[1..]) && Flatten(gates[1..]) == gates[1] + Flatten(gates[1..][1..]);
    assert Flatten(gates)[m] == gates[1][0] == x[2 * m];
    Multiple(tp, m);
    MulMonotone(m, 2, tp);
    assert gate[m] == x[m];
  }

  lemma SingleBlockMerges<T>(gate: seq<T>, up: seq<T>, m: nat)
    requires |gate| == |up| == m
    ensures ContiguousMerges(gate, up, 1, m)
  {
    var x := gate + up;
    assert x[..0] == [] && View(x, 0 + 1, 2 * m) == View(x[..0], 0, 2 * m) + [x[0..]] && x[0..] == x;
    assert View(x, 1, 2 * m) == [x];
    HalvesOf(x, m);
    assert x[..m] == gate && x[m..] == up;
    FlattenOne(gate);
    FlattenOne(up);
    hide SplitGateUp, View, Flatten;
    assert seq(1, b requires 0 <= b < 1 => FirstHalf([x][b])) == [gate];
    assert seq(1, b requires 0 <= b < 1 => SecondHalf([x][b])) == [up];
  }

  /** The merger needs the paired cut: contiguous cuts of the concatenation are undone for all weights if and only if
      there is a single rank. `a` and `b` are any two different rows. */
  lemma ContiguousCutUndoneIff<T(!new)>(a: T, b: T, tp: nat, m: nat)
    requires a != b && tp >= 1 && m >= 1
    ensures (forall gate: seq<T>, up: seq<T> | |gate| == |up| == tp * m :: ContiguousMerges(gate, up, tp, m)) <==> tp == 1
  {
    hide ContiguousMerges;
    if tp == 1 {
      forall gate: seq<T>, up: seq<T> | |gate| == |up| == tp * m ensures ContiguousMerges(gate, up, tp, m) {
        SingleBlockMerges(gate, up, m);
      }
    } else {
      var (gate, up) := (seq(tp * m, i => if i == m then a else b), seq(tp * m, _ => b));
      MulMonotone(m, 2, tp);
      assert tp * (2 * m) == tp * m + tp * m;
      assert (gate + up)[m] == a && (gate + up)[2 * m] == b;
      SecondBlockIntrudes(gate, up, tp, m);
      assert !(forall gate: seq<T>, up: seq<T> | |gate| == |up| == tp * m :: ContiguousMerges(gate, up, tp, m));
    }
  }

  lemma HalvesOf<T>(x: seq<T>, m: nat)
    requires |x| == 2 * m
    ensures FirstHalf(x) == x[..m] && SecondHalf(x) == x[m..]
  {
    HalvesAre(x);
  }
}
