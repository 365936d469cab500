// Greedy packing of chunks into fixed-size buckets: the loop that the NCCL and NIXL senders share.
module BucketPacking {
  import opened Common
  import opened WeightChunks

  /** A chunk placed at a byte offset of a bucket. */
  datatype Entry = Entry(chunk: Chunk, offset: nat) {
    /** The chunk as a reader of the bucket finds it. */
    function Landed(): Chunk {
      chunk.MovedTo(offset)
    }
  }

  type Bucket = seq<Entry>

  /** What a bucket's metadata message says about one chunk: everything but its bytes. */
  datatype Slot = Slot(meta: TensorMeta, offset: nat)

  function SlotsOf(b: Bucket): (r: seq<Slot>)
    ensures |r| == |b|
  {
    seq(|b|, i requires 0 <= i < |b| => Slot(b[i].chunk.meta, b[i].offset))
  }

  function ChunksOf(b: Bucket): (r: seq<Chunk>)
    ensures |r| == |b|
  {
    seq(|b|, i requires 0 <= i < |b| => b[i].chunk)
  }

  function LandedOf(b: Bucket): (r: seq<Chunk>)
    ensures |r| == |b|
  {
    seq(|b|, i requires 0 <= i < |b| => b[i].Landed())
  }

  lemma LandedIsMoved(b: Bucket)
    ensures Moved(ChunksOf(b), LandedOf(b))
  {
  }

  lemma LandedAppend(a: Bucket, b: Bucket)
    ensures LandedOf(a + b) == LandedOf(a) + LandedOf(b)
  {
  }

  /** Bytes used by the chunks of a bucket. */
  function Size(b: Bucket): nat {
    if b == [] then 0 else Size(b[..|b| - 1]) + b[|b| - 1].chunk.meta.chunkSize
  }

  function PackFrom(open: Bucket, todo: seq<Chunk>, bucketSize: nat): seq<Bucket>
    decreases |todo|
  {
    if todo == [] then [open]
    else if Size(open) + todo[0].meta.chunkSize > bucketSize then
      [open] + PackFrom([Entry(todo[0], 0)], todo[1..], bucketSize)
    else
      PackFrom(open + [Entry(todo[0], Size(open))], todo[1..], bucketSize)
  }

  function Pack(chunks: seq<Chunk>, bucketSize: nat): seq<Bucket> {
    PackFrom([], chunks, bucketSize)
  }

  /** Whether the open bucket is published before `c` is packed. */
  predicate Flushes(open: Bucket, c: Chunk, bucketSize: nat) {
    Size(open) + c.meta.chunkSize > bucketSize
  }

  /** The bucket that `c` joins. */
  function Joins(open: Bucket, c: Chunk, bucketSize: nat): Bucket {
    if Flushes(open, c, bucketSize) then [] else open
  }

  function Joined(open: Bucket, c: Chunk, bucketSize: nat): Bucket {
    var b := Joins(open, c, bucketSize);
    b + [Entry(c, Size(b))]
  }

  /** One turn of the loop as a turn of `PackFrom`. */
  lemma PackTurn(open: Bucket, todo: seq<Chunk>, bucketSize: nat)
    requires todo != []
    ensures PackFrom(open, todo, bucketSize)
         == (if Flushes(open, todo[0], bucketSize) then [open] else [])
          + PackFrom(Joined(open, todo[0], bucketSize), todo[1..], bucketSize)
  {
    assert [] + [Entry(todo[0], 0)] == [Entry(todo[0], 0)];
  }

  lemma {:induction false} PackFromKeepsOpen(open: Bucket, todo: seq<Chunk>, bucketSize: nat)
    ensures PackFrom(open, todo, bucketSize) != [] && open <= PackFrom(open, todo, bucketSize)[0]
    decreases |todo|
  {
    if todo != [] && Size(open) + todo[0].meta.chunkSize <= bucketSize {
      PackFromKeepsOpen(open + [Entry(todo[0], Size(open))], todo[1..], bucketSize);
    }
  }

  /** Packing keeps the chunks in order. */
  lemma {:induction false} PackFromKeepsAll(open: Bucket, todo: seq<Chunk>, bucketSize: nat)
    ensures ChunksOf(Flatten(PackFrom(open, todo, bucketSize))) == ChunksOf(open) + todo
    decreases |todo|
  {
    if todo == [] {
      assert Flatten([open]) == open + Flatten([]) && open + [] == open;
      assert ChunksOf(open) + todo == ChunksOf(open);
    } else {
      var joins, joined := Joins(open, todo[0], bucketSize), Joined(open, todo[0], bucketSize);
      var rest := PackFrom(joined, todo[1..], bucketSize);
      PackTurn(open, todo, bucketSize);
      PackFromKeepsAll(joined, todo[1..], bucketSize);
      assert ChunksOf(joined) + todo[1..] == ChunksOf(joins) + todo;
      if joins != open {
        assert ([open] + rest)[1..] == rest && ChunksOf([]) + todo == todo;
        assert ChunksOf(open + Flatten(rest)) == ChunksOf(open) + ChunksOf(Flatten(rest));
      }
    }
  }

  // ---------- What packing guarantees ----------

  /** The chunks of `b` lie side by side from offset 0 on. */
  ghost predicate Tiles(b: Bucket) {
    b == [] || (Tiles(b[..|b| - 1]) && b[|b| - 1].offset == Size(b[..|b| - 1]))
  }

  ghost predicate DistinctNames(b: Bucket) {
    forall i, j :: 0 <= i < j < |b| ==> b[i].chunk.meta.name != b[j].chunk.meta.name
  }

  /** A chunk whose metadata tells its true, positive size, no larger than a bucket. */
  ghost predicate Sized(c: Chunk, bucketSize: nat) {
    |c.data| == c.meta.chunkSize && 0 < c.meta.chunkSize <= bucketSize
  }

  ghost predicate AllSized(cs: seq<Chunk>, bucketSize: nat) {
    forall c <- cs :: Sized(c, bucketSize)
  }

  /** Chunks of the same weight are full buckets except for the last of them. */
  ghost predicate FullButLast(cs: seq<Chunk>, bucketSize: nat) {
    forall i, j :: 0 <= i < j < |cs| && cs[i].meta.name == cs[j].meta.name ==> cs[i].meta.chunkSize == bucketSize
  }

  lemma SizeSnoc(b: Bucket, e: Entry)
    ensures Size(b + [e]) == Size(b) + e.chunk.meta.chunkSize
  {
    assert (b + [e])[..|b|] == b;
  }

  lemma TilesSnoc(b: Bucket, c: Chunk)
    requires Tiles(b)
    ensures Tiles(b + [Entry(c, Size(b))])
    ensures ChunksOf(b + [Entry(c, Size(b))]) == ChunksOf(b) + [c]
  {
    assert (b + [Entry(c, Size(b))])[..|b|] == b;
  }

  /** Every entry of a tiling ends inside the used bytes, at or before the next entry's offset. */
  lemma {:induction false} TileBounds(b: Bucket, i: nat, j: nat)
    requires Tiles(b) && i < j <= |b|
    ensures b[i].offset + b[i].chunk.meta.chunkSize <= (if j < |b| then b[j].offset else Size(b))
    decreases |b|
  {
    var last := |b| - 1;
    if i < last {
      TileBounds(b[..last], i, if j < last then j else last);
    }
  }

  /** Two equal names in a bucket that fits would need more than a bucket's worth of bytes. */
  lemma FitsThenDistinct(b: Bucket, bucketSize: nat)
    requires Tiles(b) && Size(b) <= bucketSize
    requires AllSized(ChunksOf(b), bucketSize) && FullButLast(ChunksOf(b), bucketSize)
    ensures DistinctNames(b)
  {
    forall i, j | 0 <= i < j < |b| ensures b[i].chunk.meta.name != b[j].chunk.meta.name {
      var cs := ChunksOf(b);
      TileBounds(b, i, j);
      TileBounds(b, j, |b|);
      assert Sized(cs[j], bucketSize) && cs[i] in cs && cs[j] in cs;
    }
  }

  ghost predicate BucketOk(b: Bucket, bucketSize: nat) {
    Tiles(b) && Size(b) <= bucketSize && DistinctNames(b) && AllSized(ChunksOf(b), bucketSize)
  }

  /** Adjacent buckets of a greedy packing: the first is not empty and has no room for the second's first chunk. */
  ghost predicate Greedy(bs: seq<Bucket>, bucketSize: nat) {
    |bs| > 1 ==> NoRoomFor(bs[0], bs[1], bucketSize) && Greedy(bs[1..], bucketSize)
  }

  ghost predicate NoRoomFor(b: Bucket, next: Bucket, bucketSize: nat) {
    b != [] && next != [] && Size(b) + next[0].chunk.meta.chunkSize > bucketSize
  }

  ghost predicate IsPacking(bs: seq<Bucket>, chunks: seq<Chunk>, bucketSize: nat) {
    && bs != []
    && ChunksOf(Flatten(bs)) == chunks
    && (forall b <- bs :: BucketOk(b, bucketSize))
    && Greedy(bs, bucketSize)
  }

  lemma PrependBucket(open: Bucket, rest: seq<Bucket>, chunks: seq<Chunk>, bucketSize: nat)
    requires BucketOk(open, bucketSize) && IsPacking(rest, chunks, bucketSize) && NoRoomFor(open, rest[0], bucketSize)
    ensures IsPacking([open] + rest, ChunksOf(open) + chunks, bucketSize)
  {
    var bs := [open] + rest;
    assert bs[0] == open && bs[1..] == rest;
    assert ChunksOf(open + Flatten(rest)) == ChunksOf(open) + ChunksOf(Flatten(rest));
  }

  lemma SingleBucket(open: Bucket, bucketSize: nat)
    requires BucketOk(open, bucketSize)
    ensures IsPacking([open], ChunksOf(open), bucketSize)
  {
    assert Flatten([open]) == open + Flatten([]);
    assert open + [] == open;
  }

  lemma JoinedTiles(open: Bucket, c: Chunk, bucketSize: nat)
    requires Tiles(open) && Size(open) <= bucketSize && Sized(c, bucketSize)
    ensures Tiles(Joined(open, c, bucketSize)) && Size(Joined(open, c, bucketSize)) <= bucketSize
    ensures ChunksOf(Joined(open, c, bucketSize)) == ChunksOf(Joins(open, c, bucketSize)) + [c]
  {
    var b := Joins(open, c, bucketSize);
    TilesSnoc(b, c);
    SizeSnoc(b, Entry(c, Size(b)));
  }

  lemma SizedSplit(xs: seq<Chunk>, ys: seq<Chunk>, bucketSize: nat)
    requires AllSized(xs + ys, bucketSize) && FullButLast(xs + ys, bucketSize)
    ensures AllSized(xs, bucketSize) && FullButLast(xs, bucketSize)
    ensures AllSized(ys, bucketSize) && FullButLast(ys, bucketSize)
  {
    var all := xs + ys;
    assert xs == all[..|xs|] && ys == all[|xs|..];
    assert forall c <- xs :: c in all;
    assert forall c <- ys :: c in all;
  }

  lemma {:induction false} PackFromIsPacking(open: Bucket, todo: seq<Chunk>, bucketSize: nat)
    requires Tiles(open) && Size(open) <= bucketSize
    requires AllSized(ChunksOf(open) + todo, bucketSize) && FullButLast(ChunksOf(open) + todo, bucketSize)
    ensures IsPacking(PackFrom(open, todo, bucketSize), ChunksOf(open) + todo, bucketSize)
    decreases |todo|
  {
    SizedSplit(ChunksOf(open), todo, bucketSize);
    FitsThenDistinct(open, bucketSize);
    if todo == [] {
      SingleBucket(open, bucketSize);
      assert ChunksOf(open) + todo == ChunksOf(open);
    } else {
      var c, rest := todo[0], todo[1..];
      var joins, joined := Joins(open, c, bucketSize), Joined(open, c, bucketSize);
      assert c in todo && todo == [c] + rest;
      JoinedTiles(open, c, bucketSize);
      PackTurn(open, todo, bucketSize);
      assert ChunksOf(joined) + rest == ChunksOf(joins) + todo;
      if Flushes(open, c, bucketSize) {
        assert ChunksOf(joins) + todo == todo;
        PackFromIsPacking(joined, rest, bucketSize);
        PackFromKeepsOpen(joined, rest, bucketSize);
        PrependBucket(open, PackFrom(joined, rest, bucketSize), todo, bucketSize);
      } else {
        PackFromIsPacking(joined, rest, bucketSize);
      }
    }
  }

  // ---------- The chunks of distinctly named weights ----------

  ghost predicate DistinctWeights(ws: seq<Weight>) {
    forall i, j :: 0 <= i < j < |ws| ==> ws[i].name != ws[j].name
  }

  lemma {:induction false} ChunksFromShape(w: Weight, bucketSize: nat, offset: nat)
    requires bucketSize > 0 && offset <= |w.data|
    ensures var cs := ChunksFrom(w, bucketSize, offset);
      AllSized(cs, bucketSize) && FullButLast(cs, bucketSize) && forall c <- cs :: c.meta.name == w.name
    decreases |w.data| - offset
  {
    if offset < |w.data| {
      ChunksFromShape(w, bucketSize, offset + ChunkAt(w, bucketSize, offset).meta.chunkSize);
    }
  }

  lemma {:induction false} SplitShape(ws: seq<Weight>, bucketSize: nat)
    requires bucketSize > 0 && DistinctWeights(ws)
    ensures var cs := Split(ws, bucketSize);
      AllSized(cs, bucketSize) && FullButLast(cs, bucketSize) && forall c <- cs :: exists w <- ws :: c.meta.name == w.name
  {
    if ws != [] {
      ChunksFromShape(ws[0], bucketSize, 0);
      SplitShape(ws[1..], bucketSize);
      var front, back := ChunksFrom(ws[0], bucketSize, 0), Split(ws[1..], bucketSize);
      forall c | c in back ensures c.meta.name != ws[0].name {
        var w :| w in ws[1..] && c.meta.name == w.name;
      }
      forall c | c in front + back ensures exists w <- ws :: c.meta.name == w.name {
        if c in front { assert ws[0] in ws; }
      }
    }
  }

  /** No assertion of the packing loop can fail, and the buckets are the greedy tiling of the chunks. */
  lemma PackSplit(ws: seq<Weight>, bucketSize: nat)
    requires bucketSize > 0 && DistinctWeights(ws)
    ensures IsPacking(Pack(Split(ws, bucketSize), bucketSize), Split(ws, bucketSize), bucketSize)
  {
    SplitShape(ws, bucketSize);
    var chunks := Split(ws, bucketSize);
    assert ChunksOf([]) + chunks == chunks;
    PackFromIsPacking([], chunks, bucketSize);
  }

  // ---------- The sending loop over two buffers in place ----------

  /** The bytes of every chunk of `b` are at their place in `image`. */
  ghost predicate Holds(image: seq<byte>, b: Bucket) {
    forall e <- b :: HoldsEntry(image, e)
  }

  ghost predicate HoldsEntry(image: seq<byte>, e: Entry) {
    e.offset + |e.chunk.data| <= |image| && image[e.offset..e.offset + |e.chunk.data|] == e.chunk.data
  }

  /** The metadata of every entry tells the size of its bytes. */
  ghost predicate TrueSizes(b: Bucket) {
    forall e <- b :: |e.chunk.data| == e.chunk.meta.chunkSize
  }

  /** What a reader makes of a bucket it has metadata for: the slices of the buffer, in insertion order. */
  function ReadSlot(image: seq<byte>, s: Slot): Chunk {
    if s.offset + s.meta.chunkSize <= |image| then Chunk(s.meta, image[s.offset..s.offset + s.meta.chunkSize], s.offset)
    else Chunk(s.meta, [], s.offset)
  }

  function ReadBucket(image: seq<byte>, slots: seq<Slot>): (r: seq<Chunk>)
    ensures |r| == |slots|
  {
    seq(|slots|, i requires 0 <= i < |slots| => ReadSlot(image, slots[i]))
  }

  lemma SizedIsTrue(b: Bucket, bucketSize: nat)
    requires AllSized(ChunksOf(b), bucketSize)
    ensures TrueSizes(b)
  {
    forall e | e in b ensures |e.chunk.data| == e.chunk.meta.chunkSize {
      var i :| 0 <= i < |b| && b[i] == e;
      assert Sized(ChunksOf(b)[i], bucketSize);
    }
  }

  lemma ReadHeld(image: seq<byte>, b: Bucket)
    requires Holds(image, b) && TrueSizes(b)
    ensures ReadBucket(image, SlotsOf(b)) == LandedOf(b)
  {
    forall i | 0 <= i < |b| ensures ReadBucket(image, SlotsOf(b))[i] == LandedOf(b)[i] {
      assert HoldsEntry(image, b[i]);
    }
  }

  lemma OverwriteKeepsBefore(image: seq<byte>, offset: nat, data: seq<byte>, e: Entry)
    requires offset + |data| <= |image| && e.offset + |e.chunk.data| <= offset && HoldsEntry(image, e)
    ensures HoldsEntry(Overwrite(image, offset, data), e)
  {
    var lo, hi := e.offset, e.offset + |e.chunk.data|;
    assert Overwrite(image, offset, data)[lo..hi] == image[lo..hi];
  }

  /** Writing a chunk behind the used bytes keeps what the bucket already holds. */
  lemma HoldsSnoc(image: seq<byte>, b: Bucket, c: Chunk)
    requires Tiles(b) && TrueSizes(b) && Holds(image, b) && Size(b) + |c.data| <= |image|
    ensures Holds(Overwrite(image, Size(b), c.data), b + [Entry(c, Size(b))])
  {
    var image' := Overwrite(image, Size(b), c.data);
    forall i | 0 <= i < |b| ensures HoldsEntry(image', b[i]) {
      TileBounds(b, i, |b|);
      assert b[i] in b;
      OverwriteKeepsBefore(image, Size(b), c.data, b[i]);
    }
    assert HoldsEntry(image', Entry(c, Size(b)));
  }

  predicate NameFree(b: Bucket, name: string) {
    forall i :: 0 <= i < |b| ==> b[i].chunk.meta.name != name
  }

  lemma DistinctSnoc(b: Bucket, e: Entry)
    ensures DistinctNames(b + [e]) <==> DistinctNames(b) && NameFree(b, e.chunk.meta.name)
  {
    var b' := b + [e];
    if DistinctNames(b') {
      forall i | 0 <= i < |b| ensures b[i].chunk.meta.name != e.chunk.meta.name {
        assert b'[i] == b[i] && b'[|b|] == e;
      }
      forall i, j | 0 <= i < j < |b| ensures b[i].chunk.meta.name != b[j].chunk.meta.name {
        assert b'[i] == b[i] && b'[j] == b[j];
      }
    }
  }

  /** One published bucket: its metadata and the buffer as every reader finds it. */
  datatype Published = Published(slots: seq<Slot>, image: seq<byte>, isLast: bool)

  ghost predicate Carries(p: Published, b: Bucket) {
    p.slots == SlotsOf(b) && Holds(p.image, b)
  }

  class BucketSender {
    var sendBuf: array<byte>
    var recvBuf: array<byte>
    var bucketMeta: seq<Slot>
    var offset: nat
    ghost var open: Bucket

    ghost function Repr(): set<object>
      reads this
    {
      {this, sendBuf, recvBuf}
    }

    ghost predicate Valid()
      reads this, sendBuf, recvBuf
    {
      && sendBuf != recvBuf && sendBuf.Length == recvBuf.Length
      && offset == Size(open) <= sendBuf.Length
      && Tiles(open) && DistinctNames(open) && bucketMeta == SlotsOf(open)
      && TrueSizes(open)
      && Holds(sendBuf[..], open)
    }

    constructor (bucketSize: nat)
      ensures Valid() && fresh(Repr()) && open == [] && sendBuf.Length == bucketSize
    {
      sendBuf, recvBuf := new byte[bucketSize], new byte[bucketSize];
      bucketMeta, offset, open := [], 0, [];
    }

    /** Hands the filled buffer over and goes on with the other one. */
    method Publish(isLast: bool) returns (p: Published)
      requires Valid()
      modifies this
      ensures Valid() && open == [] && Carries(p, old(open)) && p.isLast == isLast
      ensures sendBuf == old(recvBuf) && recvBuf == old(sendBuf)
    {
      p := Published(bucketMeta, sendBuf[..], isLast);
      sendBuf, recvBuf := recvBuf, sendBuf;
      bucketMeta, offset, open := [], 0, [];
    }

    /** Appends a chunk; refuses a name that the bucket already has. */
    method Add(c: Chunk) returns (ok: bool)
      requires Valid() && |c.data| == c.meta.chunkSize && offset + c.meta.chunkSize <= sendBuf.Length
      modifies this, sendBuf
      ensures Valid() && sendBuf == old(sendBuf) && recvBuf == old(recvBuf)
      ensures ok <==> NameFree(old(open), c.meta.name)
      ensures open == if ok then old(open) + [Entry(c, Size(old(open)))] else old(open)
    {
      for i := 0 to |bucketMeta|
        invariant forall j :: 0 <= j < i ==> open[j].chunk.meta.name != c.meta.name
      {
        if bucketMeta[i].meta.name == c.meta.name {
          return false;
        }
      }
      HoldsSnoc(sendBuf[..], open, c);
      TilesSnoc(open, c);
      SizeSnoc(open, Entry(c, Size(open)));
      DistinctSnoc(open, Entry(c, Size(open)));
      Fill(sendBuf, offset, c.data);
      bucketMeta := bucketMeta + [Slot(c.meta, offset)];
      open := open + [Entry(c, offset)];
      offset := offset + c.meta.chunkSize;
      return true;
    }

    /** One turn of the sending loop: publishes the bucket first when the chunk does not fit. */
    method Turn(c: Chunk) returns (ok: bool, flushed: seq<Published>)
      requires Valid() && Sized(c, sendBuf.Length)
      modifies this, sendBuf, recvBuf
      ensures Valid() && Repr() == old(Repr()) && sendBuf.Length == old(sendBuf.Length)
      ensures Flushes(old(open), c, sendBuf.Length) ==>
        |flushed| == 1 && Carries(flushed[0], old(open)) && !flushed[0].isLast
      ensures !Flushes(old(open), c, sendBuf.Length) ==> flushed == []
      ensures ok <==> NameFree(Joins(old(open), c, sendBuf.Length), c.meta.name)
      ensures ok ==> open == Joined(old(open), c, sendBuf.Length)
    {
      flushed := [];
      if offset + c.meta.chunkSize > sendBuf.Length {
        var p := Publish(false);
        flushed := [p];
      }
      ok := Add(c);
    }
  }

  lemma PrefixOfDistinct(b: Bucket, open: Bucket)
    requires open <= b && DistinctNames(b)
    ensures DistinctNames(open)
  {
    forall i, j | 0 <= i < j < |open| ensures open[i].chunk.meta.name != open[j].chunk.meta.name {
      assert open[i] == b[i] && open[j] == b[j];
    }
  }

  /** A name clash with the bucket that `c` joins shows in the packing. */
  lemma ClashShows(open: Bucket, todo: seq<Chunk>, bucketSize: nat)
    requires todo != [] && !NameFree(Joins(open, todo[0], bucketSize), todo[0].meta.name)
    ensures exists b <- PackFrom(open, todo, bucketSize) :: !DistinctNames(b)
  {
    var joins, joined := Joins(open, todo[0], bucketSize), Joined(open, todo[0], bucketSize);
    PackTurn(open, todo, bucketSize);
    PackFromKeepsOpen(joined, todo[1..], bucketSize);
    var b := PackFrom(joined, todo[1..], bucketSize)[0];
    DistinctSnoc(joins, Entry(todo[0], Size(joins)));
    if DistinctNames(b) { PrefixOfDistinct(b, joined); }
    assert b in PackFrom(open, todo, bucketSize);
  }

  lemma PackNothing(open: Bucket, bucketSize: nat)
    ensures PackFrom(open, [], bucketSize) == [open]
  {
  }

  ghost predicate PublishedAs(sent: seq<Published>, packed: seq<Bucket>) {
    && |sent| == |packed|
    && forall k :: 0 <= k < |sent| ==> Carries(sent[k], packed[k]) && !sent[k].isLast && DistinctNames(packed[k])
  }

  lemma PublishedMore(sent: seq<Published>, packed: seq<Bucket>, flushed: seq<Published>, closed: seq<Bucket>)
    requires PublishedAs(sent, packed) && PublishedAs(flushed, closed)
    ensures PublishedAs(sent + flushed, packed + closed)
  {
  }

  /** The sending loop: publishes the greedy packing, each bucket intact in the buffer it is published from. */
  method SendWeights(chunks: seq<Chunk>, bucketSize: nat) returns (ok: bool, sent: seq<Published>)
    requires AllSized(chunks, bucketSize)
    ensures ok <==> forall b <- Pack(chunks, bucketSize) :: DistinctNames(b)
    ensures ok ==> |sent| == |Pack(chunks, bucketSize)|
    ensures ok ==> forall k :: 0 <= k < |sent| ==>
      Carries(sent[k], Pack(chunks, bucketSize)[k]) && (sent[k].isLast <==> k == |sent| - 1)
  {
    hide PackFrom, Carries, Flushes, Joined;
    var s := new BucketSender(bucketSize);
    sent := [];
    ghost var bs := Pack(chunks, bucketSize);
    ghost var packed: seq<Bucket> := [];
    assert chunks[0..] == chunks;
    for i := 0 to |chunks|
      invariant s.Valid() && fresh(s.Repr()) && s.sendBuf.Length == bucketSize
      invariant bs == packed + PackFrom(s.open, chunks[i..], bucketSize)
      invariant PublishedAs(sent, packed)
    {
      var c := chunks[i];
      ghost var open := s.open;
      assert Sized(c, bucketSize) && chunks[i..][0] == c && chunks[i..][1..] == chunks[i + 1..];
      PackTurn(open, chunks[i..], bucketSize);
      assert DistinctNames(open);
      var added, flushed := s.Turn(c);
      if !added {
        ClashShows(open, chunks[i..], bucketSize);
        return false, sent;
      }
      ghost var closed := if Flushes(open, c, bucketSize) then [open] else [];
      PublishedMore(sent, packed, flushed, closed);
      ConcatAssoc(packed, closed, PackFrom(s.open, chunks[i + 1..], bucketSize));
      packed, sent := packed + closed, sent + flushed;
    }
    assert chunks[|chunks|..] == [];
    PackNothing(s.open, bucketSize);
    assert bs == packed + [s.open];
    var p := s.Publish(true);
    sent := sent + [p];
    ok := true;
  }
}
