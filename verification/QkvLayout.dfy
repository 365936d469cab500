// The layout of attention weights: HuggingFace keeps query, key and value apart, Megatron keeps them in one tensor,
// group by group of key-value heads (converter_hf_to_mcore.py, megatron_model_merger.py, legacy_model_merger.py).
module QkvLayout {
  import opened Common
  import opened RowCuts

  // ---------- The converter and the mergers ----------

  /** `torch.cat([q, k, v], dim=1)` of the grouped rows. */
  function Rows3<T>(q: seq<seq<T>>, k: seq<seq<T>>, v: seq<seq<T>>): (rows: seq<seq<T>>)
    requires |q| == |k| == |v|
    ensures |rows| == |q| && forall g :: 0 <= g < |q| ==> rows[g] == q[g] + k[g] + v[g]
  {
    seq(|q|, g requires 0 <= g < |q| => q[g] + k[g] + v[g])
  }

  /** The converter's tensor: Err if the rows cannot be grouped by key-value heads. */
  function Interleave<T>(q: seq<T>, k: seq<T>, v: seq<T>, heads: nat, kvHeads: nat, headDim: nat): Result<seq<T>> {
    if kvHeads == 0 then Err
    else
      var qSize := headDim * heads / kvHeads;
      if |q| != kvHeads * qSize || |k| != kvHeads * headDim || |v| != kvHeads * headDim then Err
      else Ok(Flatten(Rows3(View(q, kvHeads, qSize), View(k, kvHeads, headDim), View(v, kvHeads, headDim))))
  }

  datatype Parts<T> = Parts(q: seq<seq<T>>, k: seq<seq<T>>, v: seq<seq<T>>) {
    function Joined(): (seq<T>, seq<T>, seq<T>) {
      (Flatten(q), Flatten(k), Flatten(v))
    }

    function Append(other: Parts<T>): Parts<T> {
      Parts(q + other.q, k + other.k, v + other.v)
    }
  }

  /** `split` of every chunk: Err if a chunk does not have the sum of the sizes. */
  function SplitChunks<T>(chunks: seq<seq<T>>, qSize: nat, kvSize: nat): Result<Parts<T>> {
    if AllOfSize(chunks, qSize + 2 * kvSize) then
      Ok(Parts(seq(|chunks|, g requires 0 <= g < |chunks| => chunks[g][..qSize]),
               seq(|chunks|, g requires 0 <= g < |chunks| => chunks[g][qSize..qSize + kvSize]),
               seq(|chunks|, g requires 0 <= g < |chunks| => chunks[g][qSize + kvSize..])))
    else Err
  }

  /** What a merger gets from one tensor with `groups` key-value heads: Err if an assertion or a split fails. */
  function SplitTensor<T>(x: seq<T>, queriesPerKv: nat, groups: nat, kvSize: nat): Result<Parts<T>>
    requires groups > 0
  {
    SplitChunks(Chunk(x, groups), kvSize * queriesPerKv / groups, kvSize / groups)
  }

  /** The parts of pieces that are `q`, `k` and `v` rows one after the other. */
  function PartsOf<T>(pieces: seq<seq<T>>, qSize: nat, kvSize: nat): Parts<T>
    requires AllOfSize(pieces, qSize + 2 * kvSize)
  {
    SplitChunks(pieces, qSize, kvSize).value
  }

  lemma PartsAppend<T>(a: seq<seq<T>>, b: seq<seq<T>>, qSize: nat, kvSize: nat)
    requires AllOfSize(a, qSize + 2 * kvSize) && AllOfSize(b, qSize + 2 * kvSize)
    ensures AllOfSize(a + b, qSize + 2 * kvSize)
    ensures PartsOf(a + b, qSize, kvSize) == PartsOf(a, qSize, kvSize).Append(PartsOf(b, qSize, kvSize))
  {
  }

  lemma NoParts<T>(qSize: nat, kvSize: nat)
    ensures PartsOf<T>([], qSize, kvSize) == Parts([], [], [])
  {
  }

  lemma OnePart<T>(piece: seq<T>, qSize: nat, kvSize: nat)
    requires |piece| == qSize + 2 * kvSize
    ensures PartsOf([piece], qSize, kvSize) ==
      Parts([piece[..qSize]], [piece[qSize..qSize + kvSize]], [piece[qSize + kvSize..]])
  {
  }

  method SplitInto<T>(x: seq<T>, queriesPerKv: nat, groups: nat, kvSize: nat, before: Parts<T>) returns (r: Result<Parts<T>>)
    requires groups > 0
    ensures r == match SplitTensor(x, queriesPerKv, groups, kvSize) case Err => Err case Ok(p) => Ok(before.Append(p))
  {
    hide Chunk;
    var chunks := Chunk(x, groups);
    var (qSize, size) := (kvSize * queriesPerKv / groups, kvSize / groups);
    var (q, k, v) := (before.q, before.k, before.v);
    assert chunks[..0] == [];
    NoParts<T>(qSize, size);
    for g := 0 to |chunks|
      invariant SplitChunks(chunks[..g], qSize, size).Ok?
      invariant Parts(q, k, v) == before.Append(SplitChunks(chunks[..g], qSize, size).value)
    {
      SplitStep(chunks, g, qSize, size);
      if |chunks[g]| != qSize + 2 * size {
        return Err;
      }
      q := q + [chunks[g][..qSize]];
      k := k + [chunks[g][qSize..qSize + size]];
      v := v + [chunks[g][qSize + size..]];
    }
    assert chunks[..|chunks|] == chunks;
    return Ok(Parts(q, k, v));
  }

  lemma SplitStep<T>(chunks: seq<seq<T>>, g: nat, qSize: nat, size: nat)
    requires g < |chunks| && SplitChunks(chunks[..g], qSize, size).Ok?
    ensures |chunks[g]| != qSize + 2 * size ==> SplitChunks(chunks, qSize, size) == Err
    ensures |chunks[g]| == qSize + 2 * size ==>
      SplitChunks(chunks[..g + 1], qSize, size) == Ok(SplitChunks(chunks[..g], qSize, size).value.Append(
        Parts([chunks[g][..qSize]], [chunks[g][qSize..qSize + size]], [chunks[g][qSize + size..]])))
  {
    assert chunks[..g + 1] == chunks[..g] + [chunks[g]];
    if |chunks[g]| == qSize + 2 * size {
      PartsAppend(chunks[..g], [chunks[g]], qSize, size);
      OnePart(chunks[g], qSize, size);
    }
  }

  /** The merger of a whole tensor. */
  method SplitQkv<T>(x: seq<T>, heads: nat, kvHeads: nat) returns (r: Result<(seq<T>, seq<T>, seq<T>)>)
    ensures r == SplitBlocks([x], heads, kvHeads, 1)
    ensures r.Ok? <==> kvHeads > 0 && heads % kvHeads == 0 && |x| % (heads + 2 * kvHeads) == 0
    ensures r.Ok? ==> IsSplit(x, heads, kvHeads, r.value)
  {
    hide IsSplit;
    OneTensorLays(x, heads, kvHeads);
    if kvHeads == 0 || heads % kvHeads != 0 {
      return Err;
    }
    var queriesPerKv := heads / kvHeads;
    if |x| % (queriesPerKv + 2) != 0 {
      return Err;
    }
    hide SplitTensor;
    SplitAllOne(x, queriesPerKv, kvHeads, |x| / (queriesPerKv + 2));
    var parts := SplitInto(x, queriesPerKv, kvHeads, |x| / (queriesPerKv + 2), Parts([], [], []));
    return if parts.Err? then Err else Ok(parts.value.Joined());
  }

  /** The legacy merger of the row blocks of `tp` tensor-parallel ranks; a merger of one tensor is the case of one. */
  method MergeAcrossTp<T>(blocks: seq<seq<T>>, heads: nat, kvHeads: nat, tp: nat) returns (r: Result<(seq<T>, seq<T>, seq<T>)>)
    requires |blocks| == tp > 0
    ensures r == SplitBlocks(blocks, heads, kvHeads, tp)
    ensures r.Ok? <==> Mergeable(blocks, heads, kvHeads, tp)
    ensures r.Ok? ==> IsMerge(blocks, heads, kvHeads, tp, r.value)
  {
    hide IsMerge, Mergeable, SplitAll;
    MergeLays(blocks, heads, kvHeads, tp);
    if kvHeads == 0 || heads % kvHeads != 0 {
      return Err;
    }
    var queriesPerKv := heads / kvHeads;
    if |blocks[0]| % (queriesPerKv + 2) != 0 || kvHeads / tp == 0 {
      return Err;
    }
    var parts := SplitEvery(blocks, queriesPerKv, kvHeads / tp, |blocks[0]| / (queriesPerKv + 2));
    return if parts.Err? then Err else Ok(parts.value.Joined());
  }

  method SplitEvery<T>(blocks: seq<seq<T>>, queriesPerKv: nat, groups: nat, kvSize: nat) returns (r: Result<Parts<T>>)
    requires groups > 0
    ensures r == SplitAll(blocks, queriesPerKv, groups, kvSize)
  {
    hide SplitTensor;
    var parts: Parts<T> := Parts([], [], []);
    for b := 0 to |blocks|
      invariant SplitAll(blocks[..b], queriesPerKv, groups, kvSize) == Ok(parts)
    {
      assert blocks[..b + 1][..b] == blocks[..b];
      var next := SplitInto(blocks[b], queriesPerKv, groups, kvSize, parts);
      if next.Err? {
        SplitAllFails(blocks, b + 1, queriesPerKv, groups, kvSize);
        return Err;
      }
      parts := next.value;
    }
    assert blocks[..|blocks|] == blocks;
    return Ok(parts);
  }

  function SplitAll<T>(blocks: seq<seq<T>>, queriesPerKv: nat, groups: nat, kvSize: nat): Result<Parts<T>>
    requires groups > 0
  {
    if blocks == [] then Ok(Parts([], [], [])) else
    match (SplitAll(blocks[..|blocks| - 1], queriesPerKv, groups, kvSize), SplitTensor(blocks[|blocks| - 1], queriesPerKv, groups, kvSize))
    case (Ok(before), Ok(p)) => Ok(before.Append(p))
    case _ => Err
  }

  lemma SplitAllOne<T>(x: seq<T>, queriesPerKv: nat, groups: nat, kvSize: nat)
    requires groups > 0
    ensures SplitAll([x], queriesPerKv, groups, kvSize) ==
      match SplitTensor(x, queriesPerKv, groups, kvSize) case Err => Err case Ok(p) => Ok(Parts([], [], []).Append(p))
  {
    hide SplitTensor;
    assert [x][..0] == [];
  }

  lemma {:induction false} SplitAllFails<T>(blocks: seq<seq<T>>, b: nat, queriesPerKv: nat, groups: nat, kvSize: nat)
    requires groups > 0 && b <= |blocks| && SplitAll(blocks[..b], queriesPerKv, groups, kvSize).Err?
    ensures SplitAll(blocks, queriesPerKv, groups, kvSize).Err?
    decreases |blocks|
  {
    if b == |blocks| {
      assert blocks[..b] == blocks;
    } else {
      assert blocks[..|blocks| - 1][..b] == blocks[..b];
      SplitAllFails(blocks[..|blocks| - 1], b, queriesPerKv, groups, kvSize);
    }
  }

  function SplitBlocks<T>(blocks: seq<seq<T>>, heads: nat, kvHeads: nat, tp: nat): Result<(seq<T>, seq<T>, seq<T>)>
    requires |blocks| == tp > 0
  {
    if kvHeads == 0 || heads % kvHeads != 0 then Err
    else
      var queriesPerKv := heads / kvHeads;
      if |blocks[0]| % (queriesPerKv + 2) != 0 || kvHeads / tp == 0 then Err
      else
        match SplitAll(blocks, queriesPerKv, kvHeads / tp, |blocks[0]| / (queriesPerKv + 2))
        case Err => Err
        case Ok(parts) => Ok(parts.Joined())
  }

  // ---------- Where the rows are ----------

  /** In every group, rows `from` up to `from + width` of `x` are the group's rows of `y`. */
  ghost predicate Holds<T>(x: seq<T>, size: nat, from: nat, y: seq<T>, width: nat, groups: nat) {
    && |x| == groups * size && |y| == groups * width && from + width <= size
    && forall g: nat, i: nat | g < groups && i < width ::
         x[Place(groups, size, g, from + i)] == y[Place(groups, width, g, i)]
  }

  /** Group by group, `x` has some rows of q, then as many of k as of v. */
  ghost predicate Laid<T>(x: seq<T>, q: seq<T>, k: seq<T>, v: seq<T>, groups: nat, qSize: nat, headDim: nat) {
    var size := qSize + 2 * headDim;
    && Holds(x, size, 0, q, qSize, groups)
    && Holds(x, size, qSize, k, headDim, groups)
    && Holds(x, size, qSize + headDim, v, headDim, groups)
  }

  ghost predicate IsColumn<T>(pieces: seq<seq<T>>, size: nat, from: nat, column: seq<seq<T>>, width: nat)
    requires AllOfSize(pieces, size) && from + width <= size
  {
    |column| == |pieces| && forall g :: 0 <= g < |pieces| ==> column[g] == pieces[g][from..from + width]
  }

  lemma ColumnHeld<T>(pieces: seq<seq<T>>, size: nat, from: nat, column: seq<seq<T>>, width: nat)
    requires AllOfSize(pieces, size) && from + width <= size
    requires IsColumn(pieces, size, from, column, width)
    ensures Holds(Flatten(pieces), size, from, Flatten(column), width, |pieces|)
  {
    hide Flatten, Place;
    var n := |pieces|;
    FlattenSize(pieces, size);
    FlattenSize(column, width);
    forall g: nat, i: nat | g < n && i < width
      ensures Flatten(pieces)[Place(n, size, g, from + i)] == Flatten(column)[Place(n, width, g, i)]
    {
      FlattenAt(pieces, size, g, from + i);
      FlattenAt(column, width, g, i);
    }
  }

  lemma PartsAt<T>(pieces: seq<seq<T>>, qSize: nat, headDim: nat)
    requires AllOfSize(pieces, qSize + 2 * headDim)
    ensures var (p, size) := (PartsOf(pieces, qSize, headDim), qSize + 2 * headDim);
      && IsColumn(pieces, size, 0, p.q, qSize)
      && IsColumn(pieces, size, qSize, p.k, headDim)
      && IsColumn(pieces, size, qSize + headDim, p.v, headDim)
  {
    assert forall g :: 0 <= g < |pieces| ==>
      pieces[g][qSize + headDim..] == pieces[g][qSize + headDim..qSize + headDim + headDim];
  }

  lemma ColumnsAreLaid<T>(pieces: seq<seq<T>>, qs: seq<seq<T>>, ks: seq<seq<T>>, vs: seq<seq<T>>, qSize: nat, headDim: nat,
                          size: nat)
    requires size == qSize + headDim + headDim && AllOfSize(pieces, size)
    requires IsColumn(pieces, size, 0, qs, qSize) && IsColumn(pieces, size, qSize, ks, headDim)
    requires IsColumn(pieces, size, qSize + headDim, vs, headDim)
    ensures Laid(Flatten(pieces), Flatten(qs), Flatten(ks), Flatten(vs), |pieces|, qSize, headDim)
  {
    hide Flatten, Holds, IsColumn, AllOfSize;
    ColumnHeld(pieces, size, 0, qs, qSize);
    ColumnHeld(pieces, size, qSize, ks, headDim);
    ColumnHeld(pieces, size, qSize + headDim, vs, headDim);
  }

  /** The parts of pieces, joined, are laid out in the pieces, joined. */
  lemma PartsAreLaid<T>(pieces: seq<seq<T>>, qSize: nat, headDim: nat)
    requires AllOfSize(pieces, qSize + 2 * headDim)
    ensures var (q, k, v) := PartsOf(pieces, qSize, headDim).Joined();
      Laid(Flatten(pieces), q, k, v, |pieces|, qSize, headDim)
  {
    PartsAt(pieces, qSize, headDim);
    hide Flatten, Laid, PartsOf, IsColumn, AllOfSize;
    var p := PartsOf(pieces, qSize, headDim);
    ColumnsAreLaid(pieces, p.q, p.k, p.v, qSize, headDim, qSize + 2 * headDim);
  }

  lemma PartsOfRows<T>(q: seq<seq<T>>, k: seq<seq<T>>, v: seq<seq<T>>, qSize: nat, kvSize: nat)
    requires |q| == |k| == |v| && AllOfSize(q, qSize) && AllOfSize(k, kvSize) && AllOfSize(v, kvSize)
    ensures AllOfSize(Rows3(q, k, v), qSize + 2 * kvSize) && PartsOf(Rows3(q, k, v), qSize, kvSize) == Parts(q, k, v)
  {
    var (rows, p) := (Rows3(q, k, v), PartsOf(Rows3(q, k, v), qSize, kvSize));
    forall g | 0 <= g < |q| ensures rows[g][..qSize] == q[g] && rows[g][qSize..qSize + kvSize] == k[g] && rows[g][qSize + kvSize..] == v[g] {
    }
    assert p.q == q && p.k == k && p.v == v;
  }

  /** The converter succeeds exactly if the rows can be grouped by key-value heads, and then lays them out. */
  lemma InterleaveLays<T>(q: seq<T>, k: seq<T>, v: seq<T>, heads: nat, kvHeads: nat, headDim: nat)
    ensures var r := Interleave(q, k, v, heads, kvHeads, headDim);
      if kvHeads > 0 && |q| == kvHeads * (headDim * heads / kvHeads) && |k| == |v| == kvHeads * headDim then
        r.Ok? && Laid(r.value, q, k, v, kvHeads, headDim * heads / kvHeads, headDim)
      else r == Err
  {
    if kvHeads > 0 && |q| == kvHeads * (headDim * heads / kvHeads) && |k| == |v| == kvHeads * headDim {
      hide View, Flatten, PartsOf, Laid;
      var qSize := headDim * heads / kvHeads;
      var (qs, ks, vs) := (View(q, kvHeads, qSize), View(k, kvHeads, headDim), View(v, kvHeads, headDim));
      PartsOfRows(qs, ks, vs, qSize, headDim);
      FlattenView(q, kvHeads, qSize);
      FlattenView(k, kvHeads, headDim);
      FlattenView(v, kvHeads, headDim);
      PartsAreLaid(Rows3(qs, ks, vs), qSize, headDim);
    }
  }

  // ---------- What the mergers accept, and where they find the rows ----------

  lemma EvenSizes(n: nat, groups: nat, queriesPerKv: nat, kvSize: nat, headDim: nat)
    requires groups > 0 && kvSize == groups * headDim && n == (queriesPerKv + 2) * kvSize
    ensures kvSize / groups == headDim && kvSize * queriesPerKv / groups == headDim * queriesPerKv
    ensures ChunksInto(n, groups, headDim * queriesPerKv + 2 * headDim)
  {
    var size := (queriesPerKv + 2) * headDim;
    TwoMore(queriesPerKv, headDim);
    DivideBack(groups, headDim, 0);
    Regroup(groups, headDim, queriesPerKv);
    DivideBack(groups, headDim * queriesPerKv, 0);
    Swap(queriesPerKv + 2, groups, headDim);
    assert n == groups * size;
    DivideBack(groups, size, groups - 1);
    if size > 0 { DivideBack(size, groups, 0); }
  }

  lemma UnevenRest(groups: nat, queriesPerKv: nat, kvSize: nat)
    requires groups > 0
    ensures (queriesPerKv + 2) * kvSize ==
      groups * (kvSize * queriesPerKv / groups + 2 * (kvSize / groups)) + (kvSize * queriesPerKv % groups + 2 * (kvSize % groups))
  {
    DivisionStep(kvSize, groups);
    DivisionStep(kvSize * queriesPerKv, groups);
    TwoMore(queriesPerKv, kvSize);
    TwicePart(groups, kvSize * queriesPerKv / groups, kvSize / groups);
  }

  lemma UnevenSizes(groups: nat, size: nat, n: nat, rest: nat)
    requires groups > 0 && n == groups * size + rest && rest > 0
    ensures !ChunksInto(n, groups, size)
  {
    DivisionStep(n + groups - 1, groups);
  }

  /** The first block determines the sizes, and they fit it only if they come out even. */
  lemma SizesAreEven(n: nat, groups: nat, queriesPerKv: nat, kvSize: nat, qSize: nat, headDim: nat)
    requires groups > 0 && n == (queriesPerKv + 2) * kvSize
    requires qSize == kvSize * queriesPerKv / groups && headDim == kvSize / groups
    ensures ChunksInto(n, groups, qSize + 2 * headDim) <==> kvSize % groups == 0
    ensures kvSize % groups == 0 ==> qSize == headDim * queriesPerKv
  {
    hide ChunksInto;
    if kvSize % groups == 0 {
      DivisionStep(kvSize, groups);
      EvenSizes(n, groups, queriesPerKv, kvSize, headDim);
    } else {
      UnevenRest(groups, queriesPerKv, kvSize);
      UnevenSizes(groups, qSize + 2 * headDim, n, kvSize * queriesPerKv % groups + 2 * (kvSize % groups));
    }
  }

  /** The chunks of all blocks. */
  function ChunksOf<T>(blocks: seq<seq<T>>, groups: nat): seq<seq<T>>
    requires groups > 0
  {
    if blocks == [] then [] else ChunksOf(blocks[..|blocks| - 1], groups) + Chunk(blocks[|blocks| - 1], groups)
  }

  lemma {:induction false} SplitAllIff<T>(blocks: seq<seq<T>>, queriesPerKv: nat, groups: nat, kvSize: nat, qSize: nat, headDim: nat)
    requires groups > 0 && qSize == kvSize * queriesPerKv / groups && headDim == kvSize / groups
    ensures SplitAll(blocks, queriesPerKv, groups, kvSize) == SplitChunks(ChunksOf(blocks, groups), qSize, headDim)
    decreases |blocks|
  {
    hide Chunk;
    if blocks == [] {
      NoParts<T>(qSize, headDim);
    } else {
      var n := |blocks| - 1;
      var (front, last) := (ChunksOf(blocks[..n], groups), Chunk(blocks[n], groups));
      SplitAllIff(blocks[..n], queriesPerKv, groups, kvSize, qSize, headDim);
      SizesAppend(front, last, qSize + 2 * headDim);
      if AllOfSize(front + last, qSize + 2 * headDim) { PartsAppend(front, last, qSize, headDim); }
    }
  }

  predicate AllInto<T>(blocks: seq<seq<T>>, groups: nat, size: nat)
    requires groups > 0
  {
    forall b :: 0 <= b < |blocks| ==> ChunksInto(|blocks[b]|, groups, size)
  }

  lemma {:induction false} ChunksOfBlocks<T>(blocks: seq<seq<T>>, groups: nat, size: nat)
    requires groups > 0
    ensures Flatten(ChunksOf(blocks, groups)) == Flatten(blocks)
    ensures AllOfSize(ChunksOf(blocks, groups), size) <==> AllInto(blocks, groups, size)
    decreases |blocks|
  {
    hide Chunk, ChunksInto;
    if blocks != [] {
      hide Flatten;
      var n := |blocks| - 1;
      var (front, last) := (ChunksOf(blocks[..n], groups), Chunk(blocks[n], groups));
      ChunksOfBlocks(blocks[..n], groups, size);
      FlattenAppend(front, last);
      FlattenChunk(blocks[n], groups);
      FlattenSnoc(blocks[..n], blocks[n]);
      assert blocks[..n] + [blocks[n]] == blocks;
      SizesAppend(front, last, size);
      ChunksIntoIff(blocks[n], groups, size);
      assert AllInto(blocks, groups, size) <==> AllInto(blocks[..n], groups, size) && ChunksInto(|blocks[n]|, groups, size);
    }
  }

  /** The rows of one head, if the first block has whole groups of query, key and value heads. */
  function HeadDim(rows: nat, queriesPerKv: nat, groups: nat): nat
    requires groups > 0
  {
    TwoDivisions(rows, queriesPerKv + 2, groups);
    rows / ((queriesPerKv + 2) * groups)
  }

  /** The first block consists of a whole number of rows for every head of its groups, and the others can be chunked
      into groups of the same size. */
  predicate Regular<T>(blocks: seq<seq<T>>, queriesPerKv: nat, groups: nat)
    requires blocks != [] && groups > 0
  {
    && |blocks[0]| % ((queriesPerKv + 2) * groups) == 0
    && AllInto(blocks, groups, (queriesPerKv + 2) * HeadDim(|blocks[0]|, queriesPerKv, groups))
  }

  /** What the merger of the blocks accepts. */
  predicate Mergeable<T>(blocks: seq<seq<T>>, heads: nat, kvHeads: nat, tp: nat)
    requires |blocks| == tp > 0
  {
    kvHeads > 0 && kvHeads / tp > 0 && heads % kvHeads == 0 && Regular(blocks, heads / kvHeads, kvHeads / tp)
  }

  /** The three parts are laid out in the blocks, one block after the other. */
  ghost predicate LaidInBlocks<T>(blocks: seq<seq<T>>, parts: (seq<T>, seq<T>, seq<T>), qSize: nat, headDim: nat) {
    exists groups: nat :: Laid(Flatten(blocks), parts.0, parts.1, parts.2, groups, qSize, headDim)
  }

  /** The parts of what the merger accepts. */
  ghost predicate IsMerge<T>(blocks: seq<seq<T>>, heads: nat, kvHeads: nat, tp: nat, parts: (seq<T>, seq<T>, seq<T>))
    requires |blocks| == tp > 0
  {
    && Mergeable(blocks, heads, kvHeads, tp)
    && var headDim := HeadDim(|blocks[0]|, heads / kvHeads, kvHeads / tp);
    && LaidInBlocks(blocks, parts, headDim * (heads / kvHeads), headDim)
  }

  /** The same for a whole tensor. */
  ghost predicate IsSplit<T>(x: seq<T>, heads: nat, kvHeads: nat, parts: (seq<T>, seq<T>, seq<T>)) {
    && kvHeads > 0
    && var headDim := |x| / (heads + 2 * kvHeads);
    && Laid(x, parts.0, parts.1, parts.2, kvHeads, headDim * (heads / kvHeads), headDim)
  }

  lemma BlocksLay<T>(blocks: seq<seq<T>>, queriesPerKv: nat, groups: nat, kvSize: nat, headDim: nat)
    requires blocks != [] && groups > 0 && |blocks[0]| == (queriesPerKv + 2) * kvSize && headDim == kvSize / groups
    ensures SplitAll(blocks, queriesPerKv, groups, kvSize).Ok? <==>
      kvSize % groups == 0 && AllInto(blocks, groups, (queriesPerKv + 2) * headDim)
    ensures SplitAll(blocks, queriesPerKv, groups, kvSize).Ok? ==>
      LaidInBlocks(blocks, SplitAll(blocks, queriesPerKv, groups, kvSize).value.Joined(), headDim * queriesPerKv, headDim)
  {
    hide SplitAll, ChunksInto, Laid, Flatten, AllOfSize;
    var qSize := kvSize * queriesPerKv / groups;
    SizesAreEven(|blocks[0]|, groups, queriesPerKv, kvSize, qSize, headDim);
    SplitAllIff(blocks, queriesPerKv, groups, kvSize, qSize, headDim);
    ChunksOfBlocks(blocks, groups, qSize + 2 * headDim);
    TwoMore(queriesPerKv, headDim);
    if AllOfSize(ChunksOf(blocks, groups), qSize + 2 * headDim) {
      PartsAreLaid(ChunksOf(blocks, groups), qSize, headDim);
    }
  }

  lemma RegularIff<T>(blocks: seq<seq<T>>, queriesPerKv: nat, groups: nat)
    requires blocks != [] && groups > 0
    ensures var (rows, headDim) := (|blocks[0]|, HeadDim(|blocks[0]|, queriesPerKv, groups));
      var r := SplitAll(blocks, queriesPerKv, groups, rows / (queriesPerKv + 2));
      && (Regular(blocks, queriesPerKv, groups) <==> rows % (queriesPerKv + 2) == 0 && r.Ok?)
      && (Regular(blocks, queriesPerKv, groups) ==>
            LaidInBlocks(blocks, r.value.Joined(), headDim * queriesPerKv, headDim))
  {
    hide SplitAll, AllInto, LaidInBlocks;
    var rows := |blocks[0]|;
    TwoDivisions(rows, queriesPerKv + 2, groups);
    if rows % (queriesPerKv + 2) == 0 {
      var kvSize := rows / (queriesPerKv + 2);
      DivisionStep(rows, queriesPerKv + 2);
      BlocksLay(blocks, queriesPerKv, groups, kvSize, kvSize / groups);
    }
  }

  /** When the merger succeeds, and where the rows of its result stand in the blocks. */
  lemma MergeLays<T>(blocks: seq<seq<T>>, heads: nat, kvHeads: nat, tp: nat)
    requires |blocks| == tp > 0
    ensures SplitBlocks(blocks, heads, kvHeads, tp).Ok? <==> Mergeable(blocks, heads, kvHeads, tp)
    ensures Mergeable(blocks, heads, kvHeads, tp) ==>
      IsMerge(blocks, heads, kvHeads, tp, SplitBlocks(blocks, heads, kvHeads, tp).value)
  {
    hide SplitAll, Regular, LaidInBlocks, HeadDim;
    if kvHeads > 0 && kvHeads / tp > 0 && heads % kvHeads == 0 {
      RegularIff(blocks, heads / kvHeads, kvHeads / tp);
    }
  }

  /** A layout in no rows at all is one in any number of groups. */
  lemma LaidInGroups<T>(x: seq<T>, q: seq<T>, k: seq<T>, v: seq<T>, n: nat, groups: nat, qSize: nat, headDim: nat)
    requires Laid(x, q, k, v, n, qSize, headDim) && |x| == groups * (qSize + 2 * headDim)
    ensures Laid(x, q, k, v, groups, qSize, headDim)
  {
    hide Place;
    if qSize + 2 * headDim > 0 { SameFactor(n, groups, qSize + 2 * headDim); }
  }

  lemma OneBlockInto(rows: nat, queriesPerKv: nat, groups: nat)
    requires groups > 0
    ensures (queriesPerKv + 2) * groups > 0
    ensures rows % ((queriesPerKv + 2) * groups) == 0 ==>
      var headDim := HeadDim(rows, queriesPerKv, groups);
      ChunksInto(rows, groups, (queriesPerKv + 2) * headDim) && rows == groups * (headDim * queriesPerKv + 2 * headDim)
  {
    hide ChunksInto;
    TwoDivisions(rows, queriesPerKv + 2, groups);
    if rows % ((queriesPerKv + 2) * groups) == 0 {
      var headDim := HeadDim(rows, queriesPerKv, groups);
      DivisionStep(rows, (queriesPerKv + 2) * groups);
      Regroup(queriesPerKv + 2, groups, headDim);
      EvenSizes(rows, groups, queriesPerKv, groups * headDim, headDim);
      TwoMore(queriesPerKv, headDim);
      Swap(queriesPerKv + 2, groups, headDim);
    }
  }

  lemma OneBlockRegular<T>(x: seq<T>, queriesPerKv: nat, groups: nat)
    requires groups > 0
    ensures (queriesPerKv + 2) * groups > 0
    ensures Regular([x], queriesPerKv, groups) <==> |x| % ((queriesPerKv + 2) * groups) == 0
  {
    hide ChunksInto, HeadDim;
    OneBlockInto(|x|, queriesPerKv, groups);
  }

  lemma OneBlockLaid<T>(x: seq<T>, parts: (seq<T>, seq<T>, seq<T>), queriesPerKv: nat, groups: nat, headDim: nat)
    requires LaidInBlocks([x], parts, headDim * queriesPerKv, headDim)
    requires |x| == groups * (headDim * queriesPerKv + 2 * headDim)
    ensures Laid(x, parts.0, parts.1, parts.2, groups, headDim * queriesPerKv, headDim)
  {
    hide Laid;
    FlattenOne(x);
    var n: nat :| Laid(x, parts.0, parts.1, parts.2, n, headDim * queriesPerKv, headDim);
    LaidInGroups(x, parts.0, parts.1, parts.2, n, groups, headDim * queriesPerKv, headDim);
  }

  lemma AllHeads(heads: nat, kvHeads: nat)
    requires kvHeads > 0 && heads % kvHeads == 0
    ensures (heads / kvHeads + 2) * kvHeads == heads + 2 * kvHeads
  {
    DivisionStep(heads, kvHeads);
    TwoMore(heads / kvHeads, kvHeads);
  }

  /** One tensor is accepted exactly if it has a whole number of rows for every head. */
  lemma OneTensorLays<T>(x: seq<T>, heads: nat, kvHeads: nat)
    ensures SplitBlocks([x], heads, kvHeads, 1).Ok? <==>
      kvHeads > 0 && heads % kvHeads == 0 && |x| % (heads + 2 * kvHeads) == 0
    ensures SplitBlocks([x], heads, kvHeads, 1).Ok? ==>
      IsSplit(x, heads, kvHeads, SplitBlocks([x], heads, kvHeads, 1).value)
  {
    hide SplitBlocks, Regular, Laid, LaidInBlocks;
    MergeLays([x], heads, kvHeads, 1);
    if kvHeads > 0 && heads % kvHeads == 0 {
      AllHeads(heads, kvHeads);
      OneBlockRegular(x, heads / kvHeads, kvHeads);
      if |x| % (heads + 2 * kvHeads) == 0 {
        OneBlockInto(|x|, heads / kvHeads, kvHeads);
        var parts := SplitBlocks([x], heads, kvHeads, 1).value;
        OneBlockLaid(x, parts, heads / kvHeads, kvHeads, |x| / (heads + 2 * kvHeads));
      }
    }
  }

  // ---------- Equal blocks ----------

  lemma PlaceInBlock(groups: nat, size: nat, b: nat, g: nat, i: nat)
    ensures b * (groups * size) + (g * size + i) == (b * groups + g) * size + i
  {
    Regroup(b, groups, size);
    assert (b * groups + g) * size == b * groups * size + g * size;
  }

  lemma BlockBelow(blocks: nat, b: nat, groups: nat, size: nat)
    requires b < blocks
    ensures b * (groups * size) + groups * size <= blocks * groups * size && b * groups + groups <= blocks * groups
  {
    MulMonotone(groups * size, b + 1, blocks);
    MulMonotone(groups, b + 1, blocks);
    Regroup(blocks, groups, size);
    assert (b + 1) * (groups * size) == b * (groups * size) + groups * size && (b + 1) * groups == b * groups + groups;
  }

  lemma HeldAt<T>(x: seq<T>, size: nat, from: nat, y: seq<T>, width: nat, groups: nat, g: nat, i: nat)
    requires Holds(x, size, from, y, width, groups) && g < groups && i < width
    ensures g * size + (from + i) < |x| && g * width + i < |y| && x[g * size + (from + i)] == y[g * width + i]
  {
    assert Place(groups, size, g, from + i) < |x| && Place(groups, width, g, i) < |y|;
  }

  lemma BlockRow<T>(blocks: seq<seq<T>>, size: nat, from: nat, y: seq<T>, width: nat, groups: nat, b: nat, g: nat, i: nat)
    requires AllOfSize(blocks, groups * size) && b < |blocks| && g < groups && i < width && from + width <= size
    requires Holds(Flatten(blocks), size, from, y, width, |blocks| * groups)
    ensures var (lo, p) := (b * (groups * width), Place(groups, width, g, i));
      lo + p < |y| && blocks[b][Place(groups, size, g, from + i)] == y[lo + p]
  {
    hide Flatten, Holds, AllOfSize;
    BlockBelow(|blocks|, b, groups, width);
    HeldAt(Flatten(blocks), size, from, y, width, |blocks| * groups, b * groups + g, i);
    PlaceInBlock(groups, size, b, g, from + i);
    PlaceInBlock(groups, width, b, g, i);
    FlattenAt(blocks, groups * size, b, Place(groups, size, g, from + i));
  }

  lemma PartRow<T>(blocks: seq<seq<T>>, size: nat, from: nat, y: seq<T>, width: nat, groups: nat, b: nat,
                   part: seq<T>, lo: nat, g: nat, i: nat)
    requires AllOfSize(blocks, groups * size) && b < |blocks| && from + width <= size && g < groups && i < width
    requires Holds(Flatten(blocks), size, from, y, width, |blocks| * groups)
    requires lo == b * (groups * width) && |part| == groups * width && lo + |part| <= |y| && part == y[lo..lo + |part|]
    ensures |blocks[b]| == groups * size
    ensures blocks[b][Place(groups, size, g, from + i)] == part[Place(groups, width, g, i)]
  {
    hide Flatten, Holds;
    BlockRow(blocks, size, from, y, width, groups, b, g, i);
    assert part[Place(groups, width, g, i)] == y[lo + Place(groups, width, g, i)];
  }

  lemma HeldInBlock<T>(blocks: seq<seq<T>>, size: nat, from: nat, y: seq<T>, width: nat, groups: nat, b: nat,
                       lo: nat, part: seq<T>)
    requires AllOfSize(blocks, groups * size) && b < |blocks| && from + width <= size
    requires Holds(Flatten(blocks), size, from, y, width, |blocks| * groups)
    requires lo == b * (groups * width) && |part| == groups * width && lo + |part| <= |y| && part == y[lo..lo + |part|]
    ensures Holds(blocks[b], size, from, part, width, groups)
  {
    var x := blocks[b];
    assert |x| == groups * size;
    hide Flatten, Holds, Place, AllOfSize;
    forall g: nat, i: nat | g < groups && i < width
      ensures x[Place(groups, size, g, from + i)] == part[Place(groups, width, g, i)]
    {
      PartRow(blocks, size, from, y, width, groups, b, part, lo, g, i);
    }
    PointwiseHolds(x, size, from, part, width, groups);
  }

  lemma PointwiseHolds<T>(x: seq<T>, size: nat, from: nat, y: seq<T>, width: nat, groups: nat)
    requires |x| == groups * size && |y| == groups * width && from + width <= size
    requires forall g: nat, i: nat | g < groups && i < width ::
      x[Place(groups, size, g, from + i)] == y[Place(groups, width, g, i)]
    ensures Holds(x, size, from, y, width, groups)
  {
  }

  lemma PartInside<T>(x: seq<T>, size: nat, from: nat, y: seq<T>, width: nat, blocks: nat, groups: nat, b: nat)
    requires Holds(x, size, from, y, width, blocks * groups) && b < blocks
    ensures b * (groups * width) + groups * width <= |y| && from + width <= size
  {
    BlockBelow(blocks, b, groups, width);
  }

  lemma HoldsInBlock<T>(blocks: seq<seq<T>>, size: nat, from: nat, y: seq<T>, width: nat, groups: nat, b: nat, lo: nat, hi: nat)
    requires AllOfSize(blocks, groups * size) && b < |blocks|
    requires Holds(Flatten(blocks), size, from, y, width, |blocks| * groups)
    requires lo == b * (groups * width) && hi == lo + groups * width
    ensures hi <= |y| && Holds(blocks[b], size, from, y[lo..hi], width, groups)
  {
    hide Flatten, Holds, AllOfSize;
    PartInside(Flatten(blocks), size, from, y, width, |blocks|, groups, b);
    HeldInBlock(blocks, size, from, y, width, groups, b, lo, y[lo..hi]);
  }

  /** Equal blocks: every rank's block has its part of q, of k and of v. */
  lemma EqualBlocksLay<T>(blocks: seq<seq<T>>, parts: (seq<T>, seq<T>, seq<T>), groups: nat, qSize: nat, headDim: nat, b: nat)
    requires LaidInBlocks(blocks, parts, qSize, headDim)
    requires AllOfSize(blocks, groups * (qSize + 2 * headDim)) && b < |blocks|
    ensures var (s, t) := (b * (groups * qSize), b * (groups * headDim));
      var (s', t') := (s + groups * qSize, t + groups * headDim);
      && s' <= |parts.0| && t' <= |parts.1| == |parts.2|
      && Laid(blocks[b], parts.0[s..s'], parts.1[t..t'], parts.2[t..t'], groups, qSize, headDim)
  {
    hide Flatten, Holds, AllOfSize;
    var (size, x) := (qSize + 2 * headDim, Flatten(blocks));
    var n: nat :| Laid(x, parts.0, parts.1, parts.2, n, qSize, headDim);
    FlattenSize(blocks, groups * size);
    Regroup(|blocks|, groups, size);
    LaidInGroups(x, parts.0, parts.1, parts.2, n, |blocks| * groups, qSize, headDim);
    BlockPartSizes(parts, |blocks| * groups, qSize, headDim, x);
    var (s, t) := (b * (groups * qSize), b * (groups * headDim));
    HoldsInBlock(blocks, size, 0, parts.0, qSize, groups, b, s, s + groups * qSize);
    HoldsInBlock(blocks, size, qSize, parts.1, headDim, groups, b, t, t + groups * headDim);
    HoldsInBlock(blocks, size, qSize + headDim, parts.2, headDim, groups, b, t, t + groups * headDim);
  }

  lemma BlockPartSizes<T>(parts: (seq<T>, seq<T>, seq<T>), n: nat, qSize: nat, headDim: nat, x: seq<T>)
    requires Laid(x, parts.0, parts.1, parts.2, n, qSize, headDim)
    ensures |parts.1| == |parts.2|
  {
  }

  // ---------- Merging undoes interleaving ----------

  lemma Sizes(heads: nat, kvHeads: nat, headDim: nat, queriesPerKv: nat)
    requires kvHeads > 0 && heads == kvHeads * queriesPerKv
    ensures headDim * heads / kvHeads == headDim * queriesPerKv
    ensures heads * headDim == kvHeads * (headDim * queriesPerKv)
  {
    assert headDim * heads == kvHeads * (headDim * queriesPerKv);
    DivideBack(kvHeads, headDim * queriesPerKv, 0);
  }

  lemma HeldUnique<T>(x: seq<T>, size: nat, from: nat, y: seq<T>, z: seq<T>, width: nat, groups: nat)
    requires Holds(x, size, from, y, width, groups) && Holds(x, size, from, z, width, groups)
    ensures y == z
  {
    assert |y| == |z| == groups * width;
    forall p: nat | p < groups * width ensures p < |y| && p < |z| && y[p] == z[p] {
      var (g, i) := PlaceOf(groups, width, p);
      assert x[Place(groups, size, g, from + i)] == y[p];
    }
  }

  lemma SplitsEvenly<T>(blocks: seq<seq<T>>, tp: nat, groups: nat, queriesPerKv: nat, headDim: nat, blockSize: nat)
    requires groups > 0 && |blocks| == tp > 0 && AllOfSize(blocks, blockSize)
    requires blockSize == groups * (headDim * queriesPerKv + 2 * headDim)
    ensures Regular(blocks, queriesPerKv, groups) && HeadDim(|blocks[0]|, queriesPerKv, groups) == headDim
  {
    TwoMore(queriesPerKv, headDim);
    Swap(groups, queriesPerKv + 2, headDim);
    EvenSizes(blockSize, groups, queriesPerKv, groups * headDim, headDim);
    Regroup(queriesPerKv + 2, groups, headDim);
    TwoDivisions(blockSize, queriesPerKv + 2, groups);
    DivideBack((queriesPerKv + 2) * groups, headDim, 0);
    hide ChunksInto;
  }

  lemma SameHeads(tp: nat, groups: nat, queriesPerKv: nat)
    requires tp > 0 && groups > 0
    ensures var (kvHeads, heads) := (tp * groups, tp * groups * queriesPerKv);
      kvHeads > 0 && kvHeads / tp == groups && heads % kvHeads == 0 && heads / kvHeads == queriesPerKv
  {
    Multiple(tp, groups);
    DivideBack(tp, groups, 0);
    DivideBack(tp * groups, queriesPerKv, 0);
  }

  /** Interleaving by the converter, cutting the rows for any number of tensor-parallel ranks that divides the
      key-value heads, and merging gives query, key and value back. One rank is the merger of whole tensors. */
  lemma MergeUndoesInterleave<T>(q: seq<T>, k: seq<T>, v: seq<T>, groups: nat, tp: nat, queriesPerKv: nat, headDim: nat,
                                 blockSize: nat)
    requires groups > 0 && tp > 0 && blockSize == groups * (headDim * queriesPerKv + 2 * headDim)
    requires |q| == tp * groups * (headDim * queriesPerKv) && |k| == |v| == tp * groups * headDim
    ensures var (kvHeads, heads) := (tp * groups, tp * groups * queriesPerKv);
      && kvHeads > 0
      && var x := Interleave(q, k, v, heads, kvHeads, headDim);
      && x.Ok? && |x.value| == tp * blockSize
      && Laid(x.value, q, k, v, kvHeads, headDim * queriesPerKv, headDim)
      && SplitBlocks(View(x.value, tp, blockSize), heads, kvHeads, tp) == Ok((q, k, v))
  {
    hide View, Flatten, Interleave, SplitBlocks, Regular, HeadDim, Holds;
    var (kvHeads, heads, qSize) := (tp * groups, tp * groups * queriesPerKv, headDim * queriesPerKv);
    SameHeads(tp, groups, queriesPerKv);
    Sizes(heads, kvHeads, headDim, queriesPerKv);
    InterleaveLays(q, k, v, heads, kvHeads, headDim);
    var x := Interleave(q, k, v, heads, kvHeads, headDim).value;
    Regroup(tp, groups, qSize + 2 * headDim);
    LaidSize(x, q, k, v, kvHeads, qSize, headDim);
    var blocks := View(x, tp, blockSize);
    FlattenView(x, tp, blockSize);
    SplitsEvenly(blocks, tp, groups, queriesPerKv, headDim, blockSize);
    MergeLays(blocks, heads, kvHeads, tp);
    var (q', k', v') := SplitBlocks(blocks, heads, kvHeads, tp).value;
    var n: nat :| Laid(x, q', k', v', n, qSize, headDim);
    LaidInGroups(x, q', k', v', n, kvHeads, qSize, headDim);
    HeldUnique(x, qSize + 2 * headDim, 0, q, q', qSize, kvHeads);
    HeldUnique(x, qSize + 2 * headDim, qSize, k, k', headDim, kvHeads);
    HeldUnique(x, qSize + 2 * headDim, qSize + headDim, v, v', headDim, kvHeads);
  }

  lemma LaidSize<T>(x: seq<T>, q: seq<T>, k: seq<T>, v: seq<T>, groups: nat, qSize: nat, headDim: nat)
    requires Laid(x, q, k, v, groups, qSize, headDim)
    ensures |x| == groups * (qSize + 2 * headDim)
  {
  }
}
