// Weights as byte tensors, their cutting into bucket-sized chunks, and the reassembly
// on the receiving side (checkpoint_engine/base.py).
module WeightChunks {
  import opened Common
  import opened Shapes

  type byte = bv8

  datatype DType = DType(name: string, itemsize: nat)

  function NBytes(shape: seq<nat>, dtype: DType): nat {
    Numel(shape) * dtype.itemsize
  }

  /** A tensor has a byte for every element and every place in an item. */
  lemma NBytesCounts(shape: seq<nat>, dtype: DType) returns (all: set<seq<nat>>)
    ensures forall i :: i in all <==> InShape(i, shape + [dtype.itemsize])
    ensures |all| == NBytes(shape, dtype)
  {
    NumelSnoc(shape, dtype.itemsize);
    all := NumelCounts(shape + [dtype.itemsize]);
  }

  datatype Weight = Weight(name: string, shape: seq<nat>, dtype: DType, data: seq<byte>) {
    ghost predicate Valid() {
      |data| == NBytes(shape, dtype)
    }
  }

  /** The metadata travelling with a chunk; its place inside a bucket is kept by `BucketPacking.Slot`. */
  datatype TensorMeta = TensorMeta(name: string, shape: seq<nat>, dtype: DType, chunkOffset: nat, chunkSize: nat)

  /** `start` is where the bytes lie in the storage that the chunk is a slice of. */
  datatype Chunk = Chunk(meta: TensorMeta, data: seq<byte>, start: nat) {
    /** `view(dtype)` is legal: a tensor starts at a multiple of its item size. */
    predicate CanView() {
      meta.dtype.itemsize == 0 || start % meta.dtype.itemsize == 0
    }

    /** The merger views the chunks of weights that fit into a bucket, and copies those of the others. */
    predicate Legal(bucketSize: nat) {
      NBytes(meta.shape, meta.dtype) <= bucketSize ==> CanView()
    }

    function MovedTo(at: nat): Chunk {
      this.(start := at)
    }
  }

  // ---------- Splitting ----------

  function ChunkAt(w: Weight, bucketSize: nat, offset: nat): Chunk
    requires offset < |w.data|
  {
    var size := Min(bucketSize, |w.data| - offset);
    Chunk(TensorMeta(w.name, w.shape, w.dtype, offset, size), w.data[offset..offset + size], offset)
  }

  function ChunksFrom(w: Weight, bucketSize: nat, offset: nat): (cs: seq<Chunk>)
    requires bucketSize > 0 && offset <= |w.data|
    decreases |w.data| - offset
  {
    if offset == |w.data| then []
    else
      var c := ChunkAt(w, bucketSize, offset);
      [c] + ChunksFrom(w, bucketSize, offset + c.meta.chunkSize)
  }

  function Split(ws: seq<Weight>, bucketSize: nat): seq<Chunk>
    requires bucketSize > 0
  {
    if ws == [] then [] else ChunksFrom(ws[0], bucketSize, 0) + Split(ws[1..], bucketSize)
  }

  lemma {:induction false} SplitSnoc(ws: seq<Weight>, w: Weight, bucketSize: nat)
    requires bucketSize > 0
    ensures Split(ws + [w], bucketSize) == Split(ws, bucketSize) + ChunksFrom(w, bucketSize, 0)
  {
    if ws == [] {
      assert Split([w], bucketSize) == ChunksFrom(w, bucketSize, 0) + Split([], bucketSize);
      assert ws + [w] == [w];
    } else {
      assert (ws + [w])[1..] == ws[1..] + [w];
      SplitSnoc(ws[1..], w, bucketSize);
    }
  }

  /** Chunk `k` of a weight, by position: full buckets one after the other, the last one with what is left, all with the
      weight's own metadata. */
  ghost predicate IsChunk(w: Weight, bucketSize: nat, k: nat, c: Chunk) {
    var (lo, hi) := (k * bucketSize, Min((k + 1) * bucketSize, |w.data|));
    && lo < hi && c.data == w.data[lo..hi] && c.start == lo
    && c.meta == TensorMeta(w.name, w.shape, w.dtype, lo, hi - lo)
  }

  lemma {:induction false} ChunksFromIs(w: Weight, bucketSize: nat, k: nat, j: nat)
    requires bucketSize > 0 && k * bucketSize < |w.data| && j < |ChunksFrom(w, bucketSize, k * bucketSize)|
    ensures IsChunk(w, bucketSize, k + j, ChunksFrom(w, bucketSize, k * bucketSize)[j])
    decreases j
  {
    assert (k + 1) * bucketSize == k * bucketSize + bucketSize;
    var next := k * bucketSize + ChunkAt(w, bucketSize, k * bucketSize).meta.chunkSize;
    if j > 0 {
      assert next < |w.data| && next == (k + 1) * bucketSize;
      ChunksFromIs(w, bucketSize, k + 1, j - 1);
      assert k + 1 + (j - 1) == k + j;
    }
  }

  lemma {:induction false} ChunksFromCount(w: Weight, bucketSize: nat, offset: nat)
    requires bucketSize > 0 && offset <= |w.data|
    ensures |ChunksFrom(w, bucketSize, offset)| * bucketSize >= |w.data| - offset
    ensures |ChunksFrom(w, bucketSize, offset)| > 0 ==>
      (|ChunksFrom(w, bucketSize, offset)| - 1) * bucketSize < |w.data| - offset
    decreases |w.data| - offset
  {
    if offset < |w.data| {
      var next := offset + ChunkAt(w, bucketSize, offset).meta.chunkSize;
      var n := |ChunksFrom(w, bucketSize, next)|;
      ChunksFromCount(w, bucketSize, next);
      assert (n + 1) * bucketSize == n * bucketSize + bucketSize;
      assert n > 0 ==> n * bucketSize == (n - 1) * bucketSize + bucketSize;
    }
  }

  /** The chunks of one weight: as many as it takes, each where it should be. */
  lemma SplitOne(w: Weight, bucketSize: nat)
    requires bucketSize > 0
    ensures var cs := Split([w], bucketSize);
      && |cs| * bucketSize >= |w.data| && (cs != [] ==> (|cs| - 1) * bucketSize < |w.data|)
      && forall k: nat | k < |cs| :: IsChunk(w, bucketSize, k, cs[k])
  {
    var cs := Split([w], bucketSize);
    SplitSnoc([], w, bucketSize);
    assert [] + [w] == [w] && [] + ChunksFrom(w, bucketSize, 0) == ChunksFrom(w, bucketSize, 0);
    ChunksFromCount(w, bucketSize, 0);
    if w.data != [] {
      assert 0 * bucketSize == 0;
      forall k: nat | k < |cs| ensures IsChunk(w, bucketSize, k, cs[k]) { ChunksFromIs(w, bucketSize, 0, k); }
    }
  }

  /** The chunks of a list are those of its weights, one weight after the other. */
  lemma {:induction false} SplitAppend(a: seq<Weight>, b: seq<Weight>, bucketSize: nat)
    requires bucketSize > 0
    ensures Split(a + b, bucketSize) == Split(a, bucketSize) + Split(b, bucketSize)
  {
    if a == [] {
      assert a + b == b;
    } else {
      assert (a + b)[1..] == a[1..] + b;
      SplitAppend(a[1..], b, bucketSize);
    }
  }

  method SplitWeightChunks(ws: seq<Weight>, bucketSize: nat) returns (chunks: seq<Chunk>)
    requires bucketSize > 0
    ensures chunks == Split(ws, bucketSize)
  {
    chunks := [];
    for i := 0 to |ws|
      invariant chunks == Split(ws[..i], bucketSize)
    {
      var w := ws[i];
      ghost var before := chunks;
      var chunkOffset := 0;
      while chunkOffset < |w.data|
        invariant chunkOffset <= |w.data|
        invariant chunks + ChunksFrom(w, bucketSize, chunkOffset) == before + ChunksFrom(w, bucketSize, 0)
      {
        var chunkSize := Min(bucketSize, |w.data| - chunkOffset);
        var meta := TensorMeta(w.name, w.shape, w.dtype, chunkOffset, chunkSize);
        ghost var rest := ChunksFrom(w, bucketSize, chunkOffset + chunkSize);
        assert chunks + ([ChunkAt(w, bucketSize, chunkOffset)] + rest)
            == (chunks + [ChunkAt(w, bucketSize, chunkOffset)]) + rest;
        chunks := chunks + [Chunk(meta, w.data[chunkOffset..chunkOffset + chunkSize], chunkOffset)];
        chunkOffset := chunkOffset + chunkSize;
      }
      SplitSnoc(ws[..i], w, bucketSize);
      assert ws[..i + 1] == ws[..i] + [w];
    }
    assert ws[..|ws|] == ws;
  }

  // ---------- Merging ----------

  /** The weight being reassembled; `buffer` starts out with the arbitrary bytes of uninitialised memory. */
  datatype Pending = Pending(name: string, shape: seq<nat>, dtype: DType, buffer: seq<byte>, offset: nat)

  function Uninitialised(n: nat, junk: byte): (s: seq<byte>)
    ensures |s| == n
  {
    seq(n, _ => junk)
  }

  /** `buffer[offset : offset + len(data)] = data` on values */
  function Overwrite(buffer: seq<byte>, offset: nat, data: seq<byte>): (s: seq<byte>)
    requires offset + |data| <= |buffer|
    ensures |s| == |buffer|
  {
    seq(|buffer|, i requires 0 <= i < |buffer| => if offset <= i < offset + |data| then data[i - offset] else buffer[i])
  }

  /** One iteration of the merge loop: the weights it yields and the next pending weight. */
  function MergeStep(pending: Option<Pending>, c: Chunk, bucketSize: nat, junk: byte)
    : Result<(Option<Pending>, seq<Weight>)>
  {
    var m := c.meta;
    var nbytes := NBytes(m.shape, m.dtype);
    if nbytes <= bucketSize then
      if pending.Some? || |c.data| != nbytes || !c.CanView() then Err
      else Ok((None, [Weight(m.name, m.shape, m.dtype, c.data)]))
    else if pending.None? && m.chunkOffset != 0 then Err
    else
      var p := if pending.Some? then pending.value
               else Pending(m.name, m.shape, m.dtype, Uninitialised(nbytes, junk), 0);
      if m.name != p.name || p.offset != m.chunkOffset then Err
      else if |c.data| != m.chunkSize || m.chunkOffset + m.chunkSize > |p.buffer| then Err
      else
        var buffer := Overwrite(p.buffer, m.chunkOffset, c.data);
        if m.chunkOffset + m.chunkSize == nbytes then
          Ok((None, [Weight(p.name, p.shape, p.dtype, buffer)]))
        else
          Ok((Some(p.(buffer := buffer, offset := p.offset + m.chunkSize)), []))
  }

  function MergeFrom(pending: Option<Pending>, chunks: seq<Chunk>, bucketSize: nat, junk: byte): Result<seq<Weight>>
    decreases |chunks|
  {
    if chunks == [] then Ok([])
    else
      match MergeStep(pending, chunks[0], bucketSize, junk)
      case Err => Err
      case Ok((next, yielded)) =>
        Yield(yielded, MergeFrom(next, chunks[1..], bucketSize, junk))
  }

  /** What a consumer sees when `yielded` is produced before `later`. */
  function Yield(yielded: seq<Weight>, later: Result<seq<Weight>>): Result<seq<Weight>> {
    match later
    case Err => Err
    case Ok(rest) => Ok(yielded + rest)
  }

  lemma YieldTwice(first: seq<Weight>, second: seq<Weight>, later: Result<seq<Weight>>)
    ensures Yield(first, Yield(second, later)) == Yield(first + second, later)
  {
    if later.Ok? {
      assert first + (second + later.value) == (first + second) + later.value;
    }
  }

  lemma YieldNothing(later: Result<seq<Weight>>)
    ensures Yield([], later) == later
  {
    if later.Ok? {
      assert [] + later.value == later.value;
    }
  }

  /** `buffer[offset : offset + len(data)] = data` */
  method Fill(buffer: array<byte>, offset: nat, data: seq<byte>)
    requires offset + |data| <= buffer.Length
    modifies buffer
    ensures buffer[..] == Overwrite(old(buffer[..]), offset, data)
  {
    forall j | 0 <= j < |data| {
      buffer[offset + j] := data[j];
    }
  }

  function Merge(chunks: seq<Chunk>, bucketSize: nat, junk: byte): Result<seq<Weight>> {
    MergeFrom(None, chunks, bucketSize, junk)
  }

  /** A merge that goes well has gone well up to any point. */
  lemma {:induction false} MergePrefix(pending: Option<Pending>, cs: seq<Chunk>, more: seq<Chunk>, bucketSize: nat, junk: byte)
    requires MergeFrom(pending, cs + more, bucketSize, junk).Ok?
    ensures MergeFrom(pending, cs, bucketSize, junk).Ok?
    decreases |cs|
  {
    if cs != [] {
      assert (cs + more)[0] == cs[0] && (cs + more)[1..] == cs[1..] + more;
      var step := MergeStep(pending, cs[0], bucketSize, junk);
      MergePrefix(step.value.0, cs[1..], more, bucketSize, junk);
    }
  }

  /** The merging generator has taken these chunks without failing; the bytes of uninitialised memory do not matter. */
  predicate Consumed(chunks: seq<Chunk>, bucketSize: nat) {
    Merge(chunks, bucketSize, 0).Ok?
  }

  lemma ConsumedPrefix(cs: seq<Chunk>, all: seq<Chunk>, bucketSize: nat)
    requires cs <= all && Consumed(all, bucketSize)
    ensures Consumed(cs, bucketSize)
  {
    assert all == cs + all[|cs|..];
    MergePrefix(None, cs, all[|cs|..], bucketSize, 0);
  }

  // ---------- Which chunks are accepted ----------

  /** After this chunk no weight is pending. */
  predicate Completes(c: Chunk, bucketSize: nat) {
    var n := NBytes(c.meta.shape, c.meta.dtype);
    n <= bucketSize || c.meta.chunkOffset + c.meta.chunkSize == n
  }

  predicate Starts(cs: seq<Chunk>, i: nat, bucketSize: nat)
    requires i <= |cs|
  {
    i == 0 || Completes(cs[i - 1], bucketSize)
  }

  /** The size of the weight to which chunk `i` belongs, as its first chunk tells it. */
  function Room(cs: seq<Chunk>, i: nat, bucketSize: nat): nat
    requires i < |cs|
  {
    if Starts(cs, i, bucketSize) then NBytes(cs[i].meta.shape, cs[i].meta.dtype) else Room(cs, i - 1, bucketSize)
  }

  /** A small weight comes alone and can be viewed; the chunks of an oversized one follow one another from offset 0 on,
      under one name, and stay inside it. */
  predicate Acceptable(cs: seq<Chunk>, i: nat, bucketSize: nat)
    requires i < |cs|
  {
    var (c, n) := (cs[i], NBytes(cs[i].meta.shape, cs[i].meta.dtype));
    if n <= bucketSize then Starts(cs, i, bucketSize) && |c.data| == n && c.CanView()
    else
      && |c.data| == c.meta.chunkSize && c.meta.chunkOffset + c.meta.chunkSize <= Room(cs, i, bucketSize)
      && (Starts(cs, i, bucketSize) ==> c.meta.chunkOffset == 0)
      && (!Starts(cs, i, bucketSize) ==>
            && c.meta.name == cs[i - 1].meta.name
            && c.meta.chunkOffset == cs[i - 1].meta.chunkOffset + cs[i - 1].meta.chunkSize)
  }

  /** What the merge remembers of the chunks before `i`. */
  ghost predicate Remembers(pending: Option<Pending>, cs: seq<Chunk>, i: nat, bucketSize: nat)
    requires i <= |cs|
  {
    match pending
    case None => Starts(cs, i, bucketSize)
    case Some(p) =>
      && !Starts(cs, i, bucketSize) && p.name == cs[i - 1].meta.name && |p.buffer| == Room(cs, i - 1, bucketSize)
      && p.offset == cs[i - 1].meta.chunkOffset + cs[i - 1].meta.chunkSize
  }

  lemma StepAccepts(pending: Option<Pending>, cs: seq<Chunk>, i: nat, bucketSize: nat, junk: byte)
    requires i < |cs| && Remembers(pending, cs, i, bucketSize)
    ensures var r := MergeStep(pending, cs[i], bucketSize, junk);
      && (r.Ok? <==> Acceptable(cs, i, bucketSize))
      && (r.Ok? ==> Remembers(r.value.0, cs, i + 1, bucketSize))
  {
    hide NBytes;
  }

  lemma {:induction false} MergeAccepts(pending: Option<Pending>, cs: seq<Chunk>, i: nat, bucketSize: nat, junk: byte)
    requires i <= |cs| && Remembers(pending, cs, i, bucketSize)
    ensures MergeFrom(pending, cs[i..], bucketSize, junk).Ok? <==>
      forall k: nat :: i <= k < |cs| ==> Acceptable(cs, k, bucketSize)
    decreases |cs| - i
  {
    if i < |cs| {
      hide MergeStep, Acceptable, Remembers;
      StepAccepts(pending, cs, i, bucketSize, junk);
      assert cs[i..][0] == cs[i] && cs[i..][1..] == cs[i + 1..];
      var r := MergeStep(pending, cs[i], bucketSize, junk);
      if r.Ok? { MergeAccepts(r.value.0, cs, i + 1, bucketSize, junk); }
    }
  }

  /** Exactly when no assertion of the merge fails, for any chunks whatever. */
  lemma MergeAcceptsIff(cs: seq<Chunk>, bucketSize: nat, junk: byte)
    ensures Merge(cs, bucketSize, junk).Ok? <==> forall k: nat :: k < |cs| ==> Acceptable(cs, k, bucketSize)
  {
    assert cs[0..] == cs;
    MergeAccepts(None, cs, 0, bucketSize, junk);
  }

  /** The local state of the merging generator between two chunks. */
  class Merger {
    var merging: bool
    var name: string
    var shape: seq<nat>
    var dtype: DType
    var buffer: array<byte>
    var offset: nat

    ghost function State(): Option<Pending>
      reads this, buffer
    {
      if merging then Some(Pending(name, shape, dtype, buffer[..], offset)) else None
    }

    constructor ()
      ensures State() == None && fresh(buffer)
    {
      merging, name, shape, dtype, offset := false, "", [], DType("", 0), 0;
      buffer := new byte[0];
    }

    /** The loop body for one chunk; not `ok` is a failed assertion, a shape error or an illegal view. */
    method Accept(c: Chunk, bucketSize: nat, junk: byte) returns (ok: bool, yielded: seq<Weight>)
      modifies this, buffer
      ensures ok ==> MergeStep(old(State()), c, bucketSize, junk) == Ok((State(), yielded))
      ensures !ok ==> MergeStep(old(State()), c, bucketSize, junk) == Err
      ensures buffer == old(buffer) || fresh(buffer)
    {
      var m := c.meta;
      var nbytes := NBytes(m.shape, m.dtype);
      if nbytes <= bucketSize {
        if merging || |c.data| != nbytes || !c.CanView() {
          return false, [];
        }
        return true, [Weight(m.name, m.shape, m.dtype, c.data)];
      }
      if !merging {
        if m.chunkOffset != 0 {
          return false, [];
        }
        merging, name, shape, dtype, offset := true, m.name, m.shape, m.dtype, 0;
        buffer := new byte[nbytes](_ => junk);
        assert buffer[..] == Uninitialised(nbytes, junk);
      }
      if m.name != name || offset != m.chunkOffset {
        return false, [];
      }
      if |c.data| != m.chunkSize || m.chunkOffset + m.chunkSize > buffer.Length {
        return false, [];
      }
      Fill(buffer, m.chunkOffset, c.data);
      offset := offset + m.chunkSize;
      if m.chunkOffset + m.chunkSize == nbytes {
        merging := false;
        return true, [Weight(name, shape, dtype, buffer[..])];
      }
      return true, [];
    }
  }

  method MergeWeightChunks(chunks: seq<Chunk>, bucketSize: nat, junk: byte) returns (r: Result<seq<Weight>>)
    ensures r == Merge(chunks, bucketSize, junk)
  {
    var merger := new Merger();
    var out := [];
    YieldNothing(Merge(chunks, bucketSize, junk));
    assert chunks[0..] == chunks;
    for i := 0 to |chunks|
      invariant fresh(merger) && fresh(merger.buffer)
      invariant Merge(chunks, bucketSize, junk) == Yield(out, MergeFrom(merger.State(), chunks[i..], bucketSize, junk))
    {
      assert chunks[i..][0] == chunks[i] && chunks[i..][1..] == chunks[i + 1..];
      var ok, yielded := merger.Accept(chunks[i], bucketSize, junk);
      if !ok {
        return Err;
      }
      YieldTwice(out, yielded, MergeFrom(merger.State(), chunks[i + 1..], bucketSize, junk));
      out := out + yielded;
    }
    assert chunks[|chunks|..] == [] && out + [] == out;
    r := Ok(out);
  }

  // ---------- Round trip ----------

  function NonEmpty(ws: seq<Weight>): seq<Weight> {
    if ws == [] then []
    else (if ws[0].data == [] then [] else [ws[0]]) + NonEmpty(ws[1..])
  }

  /** The same chunks, but possibly lying elsewhere, as after a transfer. */
  ghost predicate Moved(cs: seq<Chunk>, ds: seq<Chunk>) {
    |cs| == |ds| && forall i :: 0 <= i < |cs| ==> ds[i] == cs[i].MovedTo(ds[i].start)
  }

  ghost predicate AllLegal(cs: seq<Chunk>, bucketSize: nat) {
    forall c <- cs :: c.Legal(bucketSize)
  }

  /** One chunk of an oversized weight, wherever it lies. */
  lemma OversizedStep(w: Weight, offset: nat, buffer: seq<byte>, c: Chunk, bucketSize: nat, junk: byte)
    requires w.Valid() && 0 < bucketSize < |w.data| && offset < |w.data|
    requires |buffer| == |w.data| && buffer[..offset] == w.data[..offset]
    requires c == ChunkAt(w, bucketSize, offset).MovedTo(c.start)
    ensures var (next, buffer') := (offset + c.meta.chunkSize, Overwrite(buffer, offset, c.data));
      && buffer'[..next] == w.data[..next]
      && MergeStep(Some(Pending(w.name, w.shape, w.dtype, buffer, offset)), c, bucketSize, junk)
         == if next == |w.data| then Ok((None, [w])) else Ok((Some(Pending(w.name, w.shape, w.dtype, buffer', next)), []))
  {
    hide NBytes;
    var (next, buffer') := (offset + c.meta.chunkSize, Overwrite(buffer, offset, c.data));
    assert buffer'[..next] == buffer'[..offset] + buffer'[offset..next];
    assert w.data[..next] == w.data[..offset] + w.data[offset..next];
    assert next == |w.data| ==> buffer' == w.data;
  }

  /** From any point inside an oversized weight the remaining chunks complete it and the merge goes on. */
  lemma {:induction false} MergeOversized(w: Weight, offset: nat, buffer: seq<byte>, cs: seq<Chunk>, rest: seq<Chunk>,
                                          bucketSize: nat, junk: byte)
    requires w.Valid() && 0 < bucketSize < |w.data| && offset < |w.data|
    requires |buffer| == |w.data| && buffer[..offset] == w.data[..offset]
    requires Moved(ChunksFrom(w, bucketSize, offset), cs)
    ensures MergeFrom(Some(Pending(w.name, w.shape, w.dtype, buffer, offset)), cs + rest, bucketSize, junk)
         == Yield([w], MergeFrom(None, rest, bucketSize, junk))
    decreases |w.data| - offset
  {
    var c, next := cs[0], offset + cs[0].meta.chunkSize;
    assert c == ChunkAt(w, bucketSize, offset).MovedTo(c.start);
    assert (cs + rest)[0] == c && (cs + rest)[1..] == cs[1..] + rest;
    OversizedStep(w, offset, buffer, c, bucketSize, junk);
    if next == |w.data| {
      assert ChunksFrom(w, bucketSize, next) == [] && |cs| == 1;
      assert cs[1..] + rest == rest;
    } else {
      assert Moved(ChunksFrom(w, bucketSize, next), cs[1..]);
      MergeOversized(w, next, Overwrite(buffer, offset, c.data), cs[1..], rest, bucketSize, junk);
      YieldNothing(Yield([w], MergeFrom(None, rest, bucketSize, junk)));
    }
  }

  /** A weight is put together again, unless it fits into a bucket and lies where it cannot be viewed. */
  lemma {:induction false} MergeOneWeight(w: Weight, cs: seq<Chunk>, rest: seq<Chunk>, bucketSize: nat, junk: byte)
    requires w.Valid() && bucketSize > 0 && w.data != [] && Moved(ChunksFrom(w, bucketSize, 0), cs)
    ensures MergeFrom(None, cs + rest, bucketSize, junk)
         == if AllLegal(cs, bucketSize) then Yield([w], MergeFrom(None, rest, bucketSize, junk)) else Err
  {
    var c := cs[0];
    assert c == ChunkAt(w, bucketSize, 0).MovedTo(c.start);
    assert (cs + rest)[0] == c && (cs + rest)[1..] == cs[1..] + rest;
    if |w.data| <= bucketSize {
      SmallChunk(w, bucketSize);
      assert cs == [c] && c.data == w.data && cs[1..] + rest == rest;
      assert AllLegal(cs, bucketSize) <==> c.Legal(bucketSize);
      assert MergeStep(None, c, bucketSize, junk) == if c.CanView() then Ok((None, [w])) else Err;
    } else {
      // the first chunk is merged into uninitialised memory exactly as a later one
      var buffer := Uninitialised(|w.data|, junk);
      MergeOversized(w, 0, buffer, cs, rest, bucketSize, junk);
      var p := Pending(w.name, w.shape, w.dtype, buffer, 0);
      assert MergeStep(None, c, bucketSize, junk) == MergeStep(Some(p), c, bucketSize, junk);
      OversizedLegal(w, cs, bucketSize);
    }
  }

  lemma {:induction false} ChunksHaveMeta(w: Weight, bucketSize: nat, offset: nat)
    requires bucketSize > 0 && offset <= |w.data|
    ensures forall c <- ChunksFrom(w, bucketSize, offset) ::
      c.meta.name == w.name && c.meta.shape == w.shape && c.meta.dtype == w.dtype
    decreases |w.data| - offset
  {
    if offset < |w.data| {
      ChunksHaveMeta(w, bucketSize, offset + ChunkAt(w, bucketSize, offset).meta.chunkSize);
    }
  }

  /** Chunks of an oversized weight are copied wherever they lie. */
  lemma OversizedLegal(w: Weight, cs: seq<Chunk>, bucketSize: nat)
    requires w.Valid() && 0 < bucketSize < |w.data| && Moved(ChunksFrom(w, bucketSize, 0), cs)
    ensures AllLegal(cs, bucketSize)
  {
    ChunksHaveMeta(w, bucketSize, 0);
    forall c | c in cs ensures c.Legal(bucketSize) {
      var i :| 0 <= i < |cs| && cs[i] == c;
      assert ChunksFrom(w, bucketSize, 0)[i] in ChunksFrom(w, bucketSize, 0);
    }
  }

  /** Merging the chunks of a list of weights, wherever they have been moved to, returns the list without its zero-byte
      weights, or fails at the first weight that fits into a bucket and lies where it cannot be viewed. */
  lemma {:induction false} MergeMoved(ws: seq<Weight>, cs: seq<Chunk>, bucketSize: nat, junk: byte)
    requires bucketSize > 0 && (forall w <- ws :: w.Valid()) && Moved(Split(ws, bucketSize), cs)
    ensures Merge(cs, bucketSize, junk) == if AllLegal(cs, bucketSize) then Ok(NonEmpty(ws)) else Err
    decreases |ws|
  {
    if ws != [] {
      var n := |ChunksFrom(ws[0], bucketSize, 0)|;
      var (front, back) := (cs[..n], cs[n..]);
      assert cs == front + back;
      assert Moved(ChunksFrom(ws[0], bucketSize, 0), front) && Moved(Split(ws[1..], bucketSize), back) by {
        forall i | 0 <= i < |back| ensures back[i] == Split(ws[1..], bucketSize)[i].MovedTo(back[i].start) {
          assert cs[n + i] == Split(ws, bucketSize)[n + i].MovedTo(cs[n + i].start);
        }
      }
      MergeMoved(ws[1..], back, bucketSize, junk);
      if ws[0].data == [] {
        assert cs == back && NonEmpty(ws) == NonEmpty(ws[1..]);
      } else {
        MergeOneWeight(ws[0], front, back, bucketSize, junk);
        assert AllLegal(cs, bucketSize) <==> AllLegal(front, bucketSize) && AllLegal(back, bucketSize);
      }
    }
  }

  lemma WeightLegal(w: Weight, bucketSize: nat)
    requires bucketSize > 0 && w.Valid()
    ensures AllLegal(ChunksFrom(w, bucketSize, 0), bucketSize)
  {
    if |w.data| > bucketSize {
      OversizedLegal(w, ChunksFrom(w, bucketSize, 0), bucketSize);
    } else if w.data != [] {
      SmallChunk(w, bucketSize);
    }
  }

  lemma {:induction false} SplitLegal(ws: seq<Weight>, bucketSize: nat)
    requires bucketSize > 0 && forall w <- ws :: w.Valid()
    ensures AllLegal(Split(ws, bucketSize), bucketSize)
  {
    hide ChunksFrom, Chunk.Legal, Weight.Valid;
    if ws != [] {
      WeightLegal(ws[0], bucketSize);
      SplitLegal(ws[1..], bucketSize);
    }
  }

  lemma SmallChunk(w: Weight, bucketSize: nat)
    requires 0 < |w.data| <= bucketSize
    ensures ChunksFrom(w, bucketSize, 0) == [ChunkAt(w, bucketSize, 0)]
  {
    assert ChunksFrom(w, bucketSize, |w.data|) == [];
  }

  /** Merging the chunks where they were cut returns the list without its zero-byte weights. */
  lemma {:induction false} MergeAfterSplit(ws: seq<Weight>, bucketSize: nat, junk: byte)
    requires bucketSize > 0 && forall w <- ws :: w.Valid()
    ensures Merge(Split(ws, bucketSize), bucketSize, junk) == Ok(NonEmpty(ws))
  {
    MergeMoved(ws, Split(ws, bucketSize), bucketSize, junk);
    SplitLegal(ws, bucketSize);
  }

  /** Only weights without bytes are missing, and the others stay in order. */
  lemma {:induction false} NonEmptyAppend(a: seq<Weight>, b: seq<Weight>)
    ensures NonEmpty(a + b) == NonEmpty(a) + NonEmpty(b)
    ensures |a| == 1 ==> NonEmpty(a) == if a[0].data == [] then [] else a
  {
    if a == [] {
      assert a + b == b;
    } else {
      assert (a + b)[1..] == a[1..] + b;
      NonEmptyAppend(a[1..], b);
    }
  }

  lemma {:induction false} NonEmptyIdentity(ws: seq<Weight>)
    ensures |NonEmpty(ws)| <= |ws|
    ensures NonEmpty(ws) == ws <==> forall w <- ws :: w.data != []
  {
    if ws != [] {
      NonEmptyIdentity(ws[1..]);
      assert ws == [ws[0]] + ws[1..];
    }
  }

  /** The transfer is the identity exactly on the lists without a zero-byte weight. */
  lemma RoundTripIff(ws: seq<Weight>, bucketSize: nat, junk: byte)
    requires bucketSize > 0 && forall w <- ws :: w.Valid()
    ensures Merge(Split(ws, bucketSize), bucketSize, junk) == Ok(ws) <==> forall w <- ws :: w.data != []
  {
    MergeAfterSplit(ws, bucketSize, junk);
    NonEmptyIdentity(ws);
  }

  /** A witness of the lost weight: a tensor with a zero dimension never arrives. */
  lemma ZeroByteWeightIsLost(bucketSize: nat, junk: byte)
    requires bucketSize > 0
    ensures var w := Weight("bias", [0], DType("bfloat16", 2), []);
      w.Valid() && Merge(Split([w], bucketSize), bucketSize, junk) == Ok([])
  {
    var w := Weight("bias", [0], DType("bfloat16", 2), []);
    MergeAfterSplit([w], bucketSize, junk);
    assert NonEmpty([w]) == NonEmpty([]);
  }
}
