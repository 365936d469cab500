// Where a received weight starts in its buffer, and whether it may be viewed at its dtype there: the merger views the
// weights that fit into a bucket in place (`chunk.view(dtype)`, checkpoint_engine/base.py).
module ViewAlignment {
  import opened Common
  import opened Shapes
  import opened WeightChunks
  import opened BucketPacking

  // ---------- Starts, from the sizes alone ----------

  /** Where the next chunk is placed behind the `used` bytes of the open bucket. */
  function Place(used: nat, size: nat, bucketSize: nat): nat {
    if used + size > bucketSize then 0 else used
  }

  /** What is used of the last bucket of an oversized weight. */
  function LastUsed(n: nat, bucketSize: nat): nat
    requires bucketSize > 0
  {
    if n % bucketSize == 0 then bucketSize else n % bucketSize
  }

  /** The bytes of the open bucket that are used after a weight of `n` bytes. */
  function UsedAfter(used: nat, n: nat, bucketSize: nat): nat
    requires bucketSize > 0
  {
    if n == 0 then used
    else if n <= bucketSize then Place(used, n, bucketSize) + n
    else LastUsed(n, bucketSize)
  }

  predicate IsMultiple(at: nat, itemsize: nat) {
    itemsize == 0 || at % itemsize == 0
  }

  /** Every weight that fits into a bucket starts at a multiple of its item size, `used` bytes being in use before. */
  predicate StartsFit(ws: seq<Weight>, used: nat, bucketSize: nat)
    requires bucketSize > 0
  {
    ws == [] ||
    var (w, n) := (ws[0], NBytes(ws[0].shape, ws[0].dtype));
    && (0 < n <= bucketSize ==> IsMultiple(Place(used, n, bucketSize), w.dtype.itemsize))
    && StartsFit(ws[1..], UsedAfter(used, n, bucketSize), bucketSize)
  }

  // ---------- Starts, as the packing makes them ----------

  /** The chunks where the packing puts them. */
  function Land(used: nat, cs: seq<Chunk>, bucketSize: nat): seq<Chunk>
    decreases |cs|
  {
    if cs == [] then []
    else
      var at := Place(used, cs[0].meta.chunkSize, bucketSize);
      [cs[0].MovedTo(at)] + Land(at + cs[0].meta.chunkSize, cs[1..], bucketSize)
  }

  function LandUsed(used: nat, cs: seq<Chunk>, bucketSize: nat): nat
    decreases |cs|
  {
    if cs == [] then used
    else LandUsed(Place(used, cs[0].meta.chunkSize, bucketSize) + cs[0].meta.chunkSize, cs[1..], bucketSize)
  }

  lemma {:induction false} LandAppend(used: nat, a: seq<Chunk>, b: seq<Chunk>, bucketSize: nat)
    ensures Land(used, a + b, bucketSize) == Land(used, a, bucketSize) + Land(LandUsed(used, a, bucketSize), b, bucketSize)
    ensures LandUsed(used, a + b, bucketSize) == LandUsed(LandUsed(used, a, bucketSize), b, bucketSize)
    decreases |a|
  {
    if a == [] {
      assert a + b == b;
    } else {
      assert (a + b)[0] == a[0] && (a + b)[1..] == a[1..] + b;
      LandAppend(Place(used, a[0].meta.chunkSize, bucketSize) + a[0].meta.chunkSize, a[1..], b, bucketSize);
    }
  }

  lemma {:induction false} PackLands(open: Bucket, todo: seq<Chunk>, bucketSize: nat)
    ensures LandedOf(Flatten(PackFrom(open, todo, bucketSize))) == LandedOf(open) + Land(Size(open), todo, bucketSize)
    decreases |todo|
  {
    if todo == [] {
      assert Flatten([open]) == open + Flatten([]) && open + [] == open;
    } else {
      var (joins, joined) := (Joins(open, todo[0], bucketSize), Joined(open, todo[0], bucketSize));
      var (rest, at) := (PackFrom(joined, todo[1..], bucketSize), Place(Size(open), todo[0].meta.chunkSize, bucketSize));
      var landed := Land(Size(joined), todo[1..], bucketSize);
      assert Size([]) == 0 && at == Size(joins);
      PackTurn(open, todo, bucketSize);
      PackLands(joined, todo[1..], bucketSize);
      SizeSnoc(joins, Entry(todo[0], at));
      assert LandedOf(joined) == LandedOf(joins) + [todo[0].MovedTo(at)];
      ConcatAssoc(LandedOf(joins), [todo[0].MovedTo(at)], landed);
      assert LandedOf(Flatten(rest)) == LandedOf(joins) + ([todo[0].MovedTo(at)] + landed);
      if Flushes(open, todo[0], bucketSize) {
        assert ([open] + rest)[1..] == rest;
        LandedAppend(open, Flatten(rest));
        assert LandedOf(joins) == [] && [] + ([todo[0].MovedTo(at)] + landed) == [todo[0].MovedTo(at)] + landed;
      }
    }
  }

  lemma SmallRemainder(r: nat, d: nat)
    requires r < d
    ensures r % d == r
  {
  }

  lemma RemainderStep(m: nat, b: nat)
    requires b > 0 && m >= b
    ensures (m - b) % b == m % b
  {
    var x := m - b;
    assert x == b * (x / b) + x % b;
    DivideBack(b, x / b + 1, x % b);
    assert b * (x / b + 1) == b * (x / b) + b;
  }

  lemma LastUsedSteps(n: nat, bucketSize: nat)
    requires 0 < n && bucketSize > 0
    ensures LastUsed(n, bucketSize) == if n > bucketSize then LastUsed(n - bucketSize, bucketSize) else n
  {
    if n >= bucketSize { RemainderStep(n, bucketSize); } else { SmallRemainder(n, bucketSize); }
  }

  /** The chunks of an oversized weight open new buckets, up to the last of them. */
  lemma {:induction false} LandOversized(w: Weight, offset: nat, used: nat, bucketSize: nat)
    requires bucketSize > 0 && offset < |w.data| && (used == 0 || used + Min(bucketSize, |w.data| - offset) > bucketSize)
    ensures LandUsed(used, ChunksFrom(w, bucketSize, offset), bucketSize) == LastUsed(|w.data| - offset, bucketSize)
    decreases |w.data| - offset
  {
    hide LastUsed;
    var (c, rest) := (ChunkAt(w, bucketSize, offset), |w.data| - offset);
    var (next, tail) := (offset + c.meta.chunkSize, ChunksFrom(w, bucketSize, offset + c.meta.chunkSize));
    assert ([c] + tail)[1..] == tail;
    LastUsedSteps(rest, bucketSize);
    if rest > bucketSize { LandOversized(w, next, bucketSize, bucketSize); }
  }

  lemma {:induction false} LandIsMoved(used: nat, cs: seq<Chunk>, bucketSize: nat)
    ensures Moved(cs, Land(used, cs, bucketSize))
    decreases |cs|
  {
    if cs != [] {
      LandIsMoved(Place(used, cs[0].meta.chunkSize, bucketSize) + cs[0].meta.chunkSize, cs[1..], bucketSize);
    }
  }

  lemma LandWeight(w: Weight, used: nat, bucketSize: nat)
    requires w.Valid() && bucketSize > 0
    ensures var (cs, n) := (ChunksFrom(w, bucketSize, 0), |w.data|);
      && LandUsed(used, cs, bucketSize) == UsedAfter(used, n, bucketSize)
      && (AllLegal(Land(used, cs, bucketSize), bucketSize)
          <==> (0 < n <= bucketSize ==> IsMultiple(Place(used, n, bucketSize), w.dtype.itemsize)))
  {
    var (cs, n) := (ChunksFrom(w, bucketSize, 0), |w.data|);
    if n > bucketSize {
      LandOversized(w, 0, used, bucketSize);
      LandIsMoved(used, cs, bucketSize);
      OversizedLegal(w, Land(used, cs, bucketSize), bucketSize);
    } else if n > 0 {
      var c := ChunkAt(w, bucketSize, 0);
      assert ChunksFrom(w, bucketSize, n) == [] && cs == [c] && [c][1..] == [];
      var landed := c.MovedTo(Place(used, n, bucketSize));
      assert Land(used, cs, bucketSize) == [landed] + Land(used + n, [], bucketSize) == [landed];
      assert AllLegal([landed], bucketSize) <==> landed.Legal(bucketSize);
    }
  }

  /** The starts that the packing produces are those computed from the sizes. */
  lemma {:induction false} LandSplit(ws: seq<Weight>, used: nat, bucketSize: nat)
    requires bucketSize > 0 && forall w <- ws :: w.Valid()
    ensures AllLegal(Land(used, Split(ws, bucketSize), bucketSize), bucketSize) <==> StartsFit(ws, used, bucketSize)
    decreases |ws|
  {
    if ws != [] {
      var (cs, used') := (ChunksFrom(ws[0], bucketSize, 0), UsedAfter(used, |ws[0].data|, bucketSize));
      var (front, back) := (Land(used, cs, bucketSize), Land(used', Split(ws[1..], bucketSize), bucketSize));
      LandWeight(ws[0], used, bucketSize);
      LandAppend(used, cs, Split(ws[1..], bucketSize), bucketSize);
      LandSplit(ws[1..], used', bucketSize);
      assert AllLegal(front + back, bucketSize) <==> AllLegal(front, bucketSize) && AllLegal(back, bucketSize);
    }
  }

  // ---------- What a receiver rebuilds ----------

  /** The chunks as every receiver reads them out of the buckets. */
  function Received(ws: seq<Weight>, bucketSize: nat): seq<Chunk>
    requires bucketSize > 0
  {
    LandedOf(Flatten(Pack(Split(ws, bucketSize), bucketSize)))
  }

  lemma ReceivedIsMoved(ws: seq<Weight>, bucketSize: nat)
    requires bucketSize > 0
    ensures Moved(Split(ws, bucketSize), Received(ws, bucketSize))
  {
    var (cs, es) := (Split(ws, bucketSize), Flatten(Pack(Split(ws, bucketSize), bucketSize)));
    PackFromKeepsAll([], cs, bucketSize);
    assert ChunksOf(es) == ChunksOf([]) + cs == cs;
    LandedIsMoved(es);
  }

  /** Splitting, packing, reading and merging returns the weights that have bytes, or fails at the first weight that fits
      into a bucket and does not start at a multiple of its item size. */
  lemma MergeReceived(ws: seq<Weight>, bucketSize: nat, junk: byte)
    requires bucketSize > 0 && forall w <- ws :: w.Valid()
    ensures Merge(Received(ws, bucketSize), bucketSize, junk)
         == if StartsFit(ws, 0, bucketSize) then Ok(NonEmpty(ws)) else Err
    ensures Merge(Received(ws, bucketSize), bucketSize, junk) == Ok(ws)
       <==> StartsFit(ws, 0, bucketSize) && forall w <- ws :: w.data != []
  {
    hide StartsFit, MergeFrom, Flatten, PackFrom, Split;
    var cs := Split(ws, bucketSize);
    ReceivedIsMoved(ws, bucketSize);
    MergeMoved(ws, Received(ws, bucketSize), bucketSize, junk);
    PackLands([], cs, bucketSize);
    EmptyBucket();
    assert Received(ws, bucketSize) == [] + Land(0, cs, bucketSize) == Land(0, cs, bucketSize);
    LandSplit(ws, 0, bucketSize);
    NonEmptyIdentity(ws);
  }

  lemma EmptyBucket()
    ensures Size([]) == 0 && LandedOf([]) == []
  {
  }

  // ---------- Which item sizes are safe ----------

  lemma MultiplesAdd(a: int, b: int, d: int)
    requires d > 0 && a % d == 0 && b % d == 0
    ensures (a + b) % d == 0 && (a - b) % d == 0
  {
    var m, n := a / d, b / d;
    assert a + b == (m + n) * d && a - b == (m - n) * d;
    MultipleMod(m + n, d);
    MultipleMod(m - n, d);
  }

  lemma MultipleMod(m: int, d: int)
    requires d > 0
    ensures (m * d) % d == 0
  {
    var x := m * d;
    var q := x / d - m;
    assert x == d * (x / d) + x % d;
    assert d * q == -(x % d);
    assert q >= 1 ==> d * q >= d;
    assert q <= -1 ==> d * q <= -d;
  }

  lemma {:induction false} ChunksFromAligned(w: Weight, bucketSize: nat, offset: nat)
    requires bucketSize > 0 && offset <= |w.data| && w.dtype.itemsize > 0
    requires bucketSize % w.dtype.itemsize == 0 && |w.data| % w.dtype.itemsize == 0 && offset % w.dtype.itemsize == 0
    ensures forall c <- ChunksFrom(w, bucketSize, offset) ::
      c.meta.dtype == w.dtype && c.meta.chunkSize % w.dtype.itemsize == 0
    decreases |w.data| - offset
  {
    if offset < |w.data| {
      var size := ChunkAt(w, bucketSize, offset).meta.chunkSize;
      MultiplesAdd(|w.data|, offset, w.dtype.itemsize);
      MultiplesAdd(offset, size, w.dtype.itemsize);
      ChunksFromAligned(w, bucketSize, offset + size);
    }
  }

  lemma {:induction false} SplitAligned(ws: seq<Weight>, bucketSize: nat, itemsize: nat)
    requires bucketSize > 0 && itemsize > 0 && bucketSize % itemsize == 0
    requires forall w <- ws :: w.Valid() && w.dtype.itemsize == itemsize
    ensures forall c <- Split(ws, bucketSize) :: Aligned(c, itemsize)
  {
    if ws != [] {
      MultipleMod(Numel(ws[0].shape), itemsize);
      ChunksFromAligned(ws[0], bucketSize, 0);
      SplitAligned(ws[1..], bucketSize, itemsize);
    }
  }

  predicate Aligned(c: Chunk, itemsize: nat)
    requires itemsize > 0
  {
    c.meta.dtype.itemsize == itemsize && c.meta.chunkSize % itemsize == 0
  }

  /** With one item size that divides the bucket size, every chunk lies at a multiple of it. */
  lemma PackingAligned(ws: seq<Weight>, bucketSize: nat, itemsize: nat)
    requires bucketSize > 0 && itemsize > 0 && bucketSize % itemsize == 0 && DistinctWeights(ws)
    requires forall w <- ws :: w.Valid() && w.dtype.itemsize == itemsize
    ensures forall b <- Pack(Split(ws, bucketSize), bucketSize), e <- b :: e.offset % itemsize == 0 && e.Landed().CanView()
  {
    PackSplit(ws, bucketSize);
    SplitAligned(ws, bucketSize, itemsize);
    var chunks, bs := Split(ws, bucketSize), Pack(Split(ws, bucketSize), bucketSize);
    forall b | b in bs ensures forall e <- b :: e.offset % itemsize == 0 && e.Landed().CanView() {
      forall e | e in b ensures Aligned(e.chunk, itemsize) {
        InFlatten(bs, b, e);
        var k :| 0 <= k < |Flatten(bs)| && Flatten(bs)[k] == e;
        assert chunks[k] == e.chunk;
      }
      BucketAligned(b, itemsize);
    }
  }

  lemma {:induction false} BucketAligned(b: Bucket, itemsize: nat)
    requires itemsize > 0 && Tiles(b) && forall e <- b :: Aligned(e.chunk, itemsize)
    ensures Size(b) % itemsize == 0 && forall e <- b :: e.offset % itemsize == 0
  {
    if b != [] {
      var front, e := b[..|b| - 1], b[|b| - 1];
      BucketAligned(front, itemsize);
      assert e in b;
      MultiplesAdd(Size(front), e.chunk.meta.chunkSize, itemsize);
      assert b == front + [e];
    }
  }

  lemma {:induction false} InFlatten<T>(ss: seq<seq<T>>, s: seq<T>, x: T)
    requires s in ss && x in s
    ensures x in Flatten(ss)
  {
    if s != ss[0] {
      InFlatten(ss[1..], s, x);
    }
  }

  ghost predicate OfSizes(ws: seq<Weight>, sizes: set<nat>) {
    forall w <- ws :: w.Valid() && w.dtype.itemsize in sizes
  }

  /** Every list of weights with these item sizes can be received. */
  ghost predicate EveryListFits(sizes: set<nat>, bucketSize: nat)
    requires bucketSize > 0
  {
    forall ws: seq<Weight> | DistinctWeights(ws) && OfSizes(ws, sizes) :: StartsFit(ws, 0, bucketSize)
  }

  lemma ProductIsMultiple(q: nat, m: nat, d: nat)
    requires d > 0
    ensures ((d * m) * q) % d == 0
  {
    assert (d * m) * q == (m * q) * d;
    MultipleMod(m * q, d);
  }

  lemma RemainderIsMultiple(n: nat, b: nat, d: nat)
    requires b > 0 && d > 0 && n % d == 0 && b % d == 0
    ensures (n % b) % d == 0
  {
    var (q, r, m) := (n / b, n % b, b / d);
    assert n == b * q + r && b == d * m;
    ProductIsMultiple(q, m, d);
    MultiplesAdd(n, b * q, d);
  }

  lemma LastUsedIsMultiple(n: nat, bucketSize: nat, d: nat)
    requires bucketSize > 0 && d > 0 && n % d == 0 && bucketSize % d == 0
    ensures LastUsed(n, bucketSize) % d == 0
  {
    RemainderIsMultiple(n, bucketSize, d);
  }

  lemma UsedStaysMultiple(used: nat, n: nat, bucketSize: nat, d: nat)
    requires bucketSize > 0 && d > 0 && used % d == 0 && n % d == 0 && bucketSize % d == 0
    ensures Place(used, n, bucketSize) % d == 0 && UsedAfter(used, n, bucketSize) % d == 0
  {
    hide LastUsed;
    assert 0 % d == 0;
    MultiplesAdd(used, n, d);
    LastUsedIsMultiple(n, bucketSize, d);
    var place := Place(used, n, bucketSize);
    assert place % d == 0;
    MultiplesAdd(place, n, d);
  }

  lemma {:induction false} OneSizeFits(ws: seq<Weight>, used: nat, bucketSize: nat, d: nat)
    requires bucketSize > 0 && d > 0 && bucketSize % d == 0 && used % d == 0 && OfSizes(ws, {d})
    ensures StartsFit(ws, used, bucketSize)
    decreases |ws|
  {
    if ws != [] {
      var n := NBytes(ws[0].shape, ws[0].dtype);
      assert ws[0] in ws;
      MultipleMod(Numel(ws[0].shape), d);
      UsedStaysMultiple(used, n, bucketSize, d);
      OneSizeFits(ws[1..], UsedAfter(used, n, bucketSize), bucketSize, d);
    }
  }

  /** A vector of `count` elements. */
  function Vector(name: string, count: nat, itemsize: nat): (w: Weight)
    ensures w.Valid() && NBytes(w.shape, w.dtype) == count * itemsize && w.name == name && w.dtype.itemsize == itemsize
  {
    assert Numel([count]) == count * Numel([]) && [count][1..] == [];
    Weight(name, [count], DType("", itemsize), seq(count * itemsize, _ => 0))
  }

  lemma SecondStarts(a: Weight, b: Weight, bucketSize: nat)
    requires bucketSize > 0 && 0 < NBytes(b.shape, b.dtype) <= bucketSize && StartsFit([a, b], 0, bucketSize)
    ensures var (m, n) := (NBytes(a.shape, a.dtype), NBytes(b.shape, b.dtype));
      IsMultiple(Place(UsedAfter(0, m, bucketSize), n, bucketSize), b.dtype.itemsize)
  {
    hide NBytes;
    assert [a, b][1..] == [b];
  }

  /** An element of one size in front of an element of a larger size. */
  lemma TwoSizesMisalign(small: nat, large: nat, bucketSize: nat)
    requires 0 < small < large && 2 * large <= bucketSize
    ensures !StartsFit([Vector("a", 1, small), Vector("b", 1, large)], 0, bucketSize)
  {
    hide StartsFit, NBytes;
    if StartsFit([Vector("a", 1, small), Vector("b", 1, large)], 0, bucketSize) {
      SecondStarts(Vector("a", 1, small), Vector("b", 1, large), bucketSize);
    }
  }

  lemma RemainderOf(d: nat, bucketSize: nat)
    requires d > 0 && 2 * d <= bucketSize && bucketSize % d != 0
    ensures var n := (bucketSize / d + 1) * d; bucketSize < n && n % bucketSize == n - bucketSize < d
  {
    var (q, n) := (bucketSize / d, (bucketSize / d + 1) * d);
    assert bucketSize == d * q + bucketSize % d && n == d * q + d;
    DivideBack(bucketSize, 1, n - bucketSize);
  }

  /** The remainder of an oversized weight in front of a single element. */
  lemma RemainderMisaligns(d: nat, bucketSize: nat)
    requires d > 0 && 2 * d <= bucketSize && bucketSize % d != 0
    ensures !StartsFit([Vector("a", bucketSize / d + 1, d), Vector("b", 1, d)], 0, bucketSize)
  {
    hide StartsFit, NBytes;
    var (a, b) := (Vector("a", bucketSize / d + 1, d), Vector("b", 1, d));
    RemainderOf(d, bucketSize);
    var r := NBytes(a.shape, a.dtype) - bucketSize;
    assert UsedAfter(0, bucketSize + r, bucketSize) == r;
    if StartsFit([a, b], 0, bucketSize) {
      SecondStarts(a, b, bucketSize);
      SmallRemainder(r, d);
    }
  }

  /** The exact condition on the item sizes that occur: every list of weights can be received if and only if there is one
      item size and it divides the bucket size. */
  lemma ItemSizesIff(sizes: set<nat>, bucketSize: nat)
    requires sizes != {} && bucketSize > 0 && forall d <- sizes :: 0 < d && 2 * d <= bucketSize
    ensures EveryListFits(sizes, bucketSize) <==> exists d <- sizes :: sizes == {d} && bucketSize % d == 0
  {
    hide StartsFit, Vector;
    var d :| d in sizes;
    if e :| e in sizes && e != d {
      var (small, large) := if d < e then (d, e) else (e, d);
      var ws := [Vector("a", 1, small), Vector("b", 1, large)];
      TwoSizesMisalign(small, large, bucketSize);
      assert DistinctWeights(ws) && OfSizes(ws, sizes);
    } else if bucketSize % d != 0 {
      assert sizes == {d};
      var ws := [Vector("a", bucketSize / d + 1, d), Vector("b", 1, d)];
      RemainderMisaligns(d, bucketSize);
      assert DistinctWeights(ws) && OfSizes(ws, sizes);
    } else {
      assert sizes == {d};
      forall ws: seq<Weight> | DistinctWeights(ws) && OfSizes(ws, sizes) ensures StartsFit(ws, 0, bucketSize) {
        OneSizeFits(ws, 0, bucketSize, d);
      }
    }
  }
}
