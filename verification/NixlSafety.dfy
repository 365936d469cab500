// The inductive invariant of the relay chain, and its preservation by every action.
module NixlSafety {
  import opened Common
  import opened WeightChunks
  import opened BucketPacking
  import opened NixlRelay

  ghost predicate ValidConfig(cfg: Config, bs: seq<Bucket>) {
    && cfg.rollouts >= 1
    && bs == Pack(cfg.chunks, cfg.bucketSize)
    && AllSized(cfg.chunks, cfg.bucketSize)
    && bs != [] && forall b <- bs :: BucketOk(b, cfg.bucketSize)
  }

  /** The buffer a rank's latest message points to. */
  function SrcSide(n: Node): Side {
    if n.pc == Packing || n.pc == Flushing then Other(n.front) else n.front
  }

  /** Reads that have been completed by this rank. */
  function Completed(n: Node): int {
    if n.xfer.Some? && !n.xfer.value.done then n.begun - 1 else n.begun
  }

  /** What is read out of `full` whole buckets and of the beginning of the next one. */
  function YieldedChunks(bs: seq<Bucket>, full: nat, part: nat): seq<Chunk>
    requires full <= |bs| && (part > 0 ==> full < |bs| && part <= |bs[full]|)
  {
    LandedOf(Flatten(bs[..full])) + (if part > 0 then LandedOf(bs[full])[..part] else [])
  }

  function MetaOf(bs: seq<Bucket>, k: nat): Meta
    requires k < |bs|
  {
    Meta(SlotsOf(bs[k]), k == |bs| - 1)
  }

  // ---------- One rank ----------

  ghost predicate SenderInv(bs: seq<Bucket>, bucketSize: nat, n: Node) {
    var K, p := |bs|, n.published;
    && n.xfer == None && n.begun == 0
    && (n.pc == Packing || n.pc == Flushing || n.pc == AwaitLast || n.pc == Done)
    && p <= K
    && (n.pc == Packing || n.pc == Flushing ==>
          && p < K && bs[p..] == PackFrom(n.open, n.todo, bucketSize) && AllSized(n.todo, bucketSize)
          && Tiles(n.open) && TrueSizes(n.open) && Size(n.open) <= bucketSize && Holds(n.Buf(n.front), n.open))
    && (n.pc == Packing ==> n.acked == if p == 0 then 0 else p - 1)
    && (n.pc == Flushing ==>
          n.acked == p && n.open == bs[p] && (n.todo == [] <==> p == K - 1) && n.MustFlush(bucketSize))
    && (n.pc == AwaitLast ==> p == K && n.acked == K - 1)
    && (n.pc == Done ==> p == n.acked == K)
  }

  ghost predicate ReceiverInv(bs: seq<Bucket>, n: Node) {
    var K, h := |bs|, n.installed;
    && h <= K && n.begun <= K
    && (h > 0 ==> n.held == MetaOf(bs, h - 1) && Holds(n.Buf(n.front), bs[h - 1]))
    && match n.pc
       case AwaitMeta =>
         n.begun == n.published == h < K && n.acked == (if h == 0 then 0 else h - 1)
         && n.out == YieldedChunks(bs, n.acked, 0)
       case Yielding(i) =>
         h > 0 && i <= |bs[h - 1]| && n.published == h && n.acked == h - 1
         && n.begun == (if h == K then K else h + 1) && n.out == YieldedChunks(bs, h - 1, i)
       case AwaitXfer =>
         n.published == n.acked == h < K && n.begun == h + 1 && n.out == YieldedChunks(bs, h, 0)
       case Publishing =>
         h > 0 && n.published == n.acked == h - 1 && n.begun == h && n.out == YieldedChunks(bs, h - 1, 0)
       case Done =>
         n.published == n.acked == n.begun == h == K && n.out == YieldedChunks(bs, K, 0)
       case _ => false
  }

  /** A rank's remote read in progress or waiting to be installed. */
  ghost predicate XferInv(bs: seq<Bucket>, n: Node) {
    && (n.xfer.None? ==> n.begun == n.installed)
    && (n.xfer.Some? ==>
          && n.begun == n.installed + 1 <= |bs| && n.xfer.value.key == n.begun - 1
          && n.next == MetaOf(bs, n.begun - 1)
          && (n.xfer.value.done ==> Holds(n.Buf(Other(n.front)), bs[n.begun - 1])))
  }

  /** Until it is acknowledged, the latest published bucket stays intact where its message points. */
  ghost predicate OutstandingInv(bs: seq<Bucket>, n: Node) {
    && n.acked <= n.published <= n.acked + 1
    && (n.acked < n.published <= |bs| ==> Holds(n.Buf(SrcSide(n)), bs[n.published - 1]))
  }

  ghost predicate NodeInv(cfg: Config, bs: seq<Bucket>, r: nat, n: Node) {
    && |n.bufA| == |n.bufB| == cfg.bucketSize
    && (if r == 0 then SenderInv(bs, cfg.bucketSize, n) else ReceiverInv(bs, n) && XferInv(bs, n))
    && OutstandingInv(bs, n)
  }

  // ---------- Two neighbours ----------

  /** The bytes copied so far are those of the buffer that is being read. */
  ghost predicate CopyInv(up: Node, down: Node) {
    down.xfer.Some? && !down.xfer.value.done ==>
      var x := down.xfer.value;
      x.src == SrcSide(up) && forall i <- x.copied ::
        i < |up.Buf(x.src)| == |down.Buf(Other(down.front))| && down.Buf(Other(down.front))[i] == up.Buf(x.src)[i]
  }

  ghost predicate LinkInv(bs: seq<Bucket>, up: Node, l: Link, down: Node) {
    && up.acked <= Completed(down) && down.begun <= up.published <= |bs|
    && l.messages == (if down.begun < up.published
                      then [Message(up.published - 1, SrcSide(up), MetaOf(bs, up.published - 1))] else [])
    && l.notices == (if up.acked < Completed(down) then [up.acked] else [])
    && CopyInv(up, down)
  }

  ghost function NodeOk(cfg: Config, bs: seq<Bucket>): (nat, Node) -> bool {
    (r: nat, n: Node) => NodeInv(cfg, bs, r, n)
  }

  ghost function LinkOk(bs: seq<Bucket>): (Node, Link, Node) -> bool {
    (up, l, down) => LinkInv(bs, up, l, down)
  }

  ghost predicate Inv(cfg: Config, bs: seq<Bucket>, s: State) {
    |s.links| == cfg.rollouts && Chained(s.nodes, s.links, NodeOk(cfg, bs), LinkOk(bs))
  }

  /** The invariant around rank `r`. */
  ghost predicate InvAt(cfg: Config, bs: seq<Bucket>, s: State, r: nat)
    requires r < |s.nodes| == |s.links| + 1
  {
    && NodeOk(cfg, bs)(r, s.nodes[r])
    && (r > 0 ==> LinkOk(bs)(s.nodes[r - 1], s.links[r - 1], s.nodes[r]))
    && (r < |s.links| ==> LinkOk(bs)(s.nodes[r], s.links[r], s.nodes[r + 1]))
  }

  lemma At(cfg: Config, bs: seq<Bucket>, s: State, r: nat)
    requires Inv(cfg, bs, s) && r < |s.nodes|
    ensures |s.nodes| == |s.links| + 1 && InvAt(cfg, bs, s, r)
  {
    ChainedAt(s.nodes, s.links, NodeOk(cfg, bs), LinkOk(bs), r);
  }

  /** The facts about a rank that its downstream neighbour relies on. */
  lemma UpFacts(cfg: Config, bs: seq<Bucket>, s: State, r: nat)
    requires Inv(cfg, bs, s) && r < |s.nodes|
    ensures |s.nodes[r].bufA| == |s.nodes[r].bufB| == cfg.bucketSize && OutstandingInv(bs, s.nodes[r])
  {
    At(cfg, bs, s, r);
  }

  lemma InvSizes(cfg: Config, bs: seq<Bucket>, s: State)
    requires Inv(cfg, bs, s) && cfg.rollouts >= 1
    ensures WellFormed(cfg, s)
  {
    ChainedIff(s.nodes, s.links, NodeOk(cfg, bs), LinkOk(bs));
    forall n | n in s.nodes ensures |n.bufA| == |n.bufB| == cfg.bucketSize {
      var r: nat :| r < |s.nodes| && s.nodes[r] == n;
      UpFacts(cfg, bs, s, r);
    }
  }

  lemma InitInv(cfg: Config, bs: seq<Bucket>, s: State)
    requires ValidConfig(cfg, bs) && Init(cfg, s)
    ensures Inv(cfg, bs, s)
  {
    assert bs[0..] == bs && bs[..0] == [];
    var P, Q := NodeOk(cfg, bs), LinkOk(bs);
    forall r: nat | r < |s.nodes| ensures P(r, s.nodes[r]) {
      assert s.nodes[r] in s.nodes && Fresh(s.nodes[r], r == 0);
    }
    forall r: nat | r < |s.links| ensures Q(s.nodes[r], s.links[r], s.nodes[r + 1]) {
      assert s.links[r] in s.links && Fresh(s.nodes[r], r == 0) && Fresh(s.nodes[r + 1], false);
    }
    ChainedIff(s.nodes, s.links, P, Q);
  }

  // ---------- What a neighbour sees ----------

  /** The link below a rank only depends on what the rank published, and where. */
  lemma UpFrame(bs: seq<Bucket>, up: Node, up': Node, l: Link, down: Node)
    requires LinkOk(bs)(up, l, down)
    requires up'.published == up.published && up'.acked == up.acked
    requires SrcSide(up') == SrcSide(up) && up'.Buf(SrcSide(up)) == up.Buf(SrcSide(up))
    ensures LinkOk(bs)(up', l, down)
  {
    assert LinkInv(bs, up', l, down);
  }

  /** The link above a rank only depends on the rank's reads. */
  lemma DownFrame(bs: seq<Bucket>, up: Node, l: Link, down: Node, down': Node)
    requires LinkOk(bs)(up, l, down)
    requires down'.begun == down.begun && down'.xfer == down.xfer
    requires down'.Buf(Other(down'.front)) == down.Buf(Other(down.front))
    ensures LinkOk(bs)(up, l, down')
  {
    assert LinkInv(bs, up, l, down');
  }

  // ---------- Sender actions ----------

  lemma PackChunkNode(cfg: Config, bs: seq<Bucket>, n: Node)
    requires NodeOk(cfg, bs)(0, n)
    requires n.pc == Packing && !n.MustFlush(cfg.bucketSize) && |n.todo[0].data| == n.todo[0].meta.chunkSize
    ensures Size(n.open) + |n.todo[0].data| <= |n.Buf(n.front)| && NodeOk(cfg, bs)(0, n.Packed())
  {
    TilesSnoc(n.open, n.todo[0]);
    SizeSnoc(n.open, Entry(n.todo[0], Size(n.open)));
    HoldsSnoc(n.Buf(n.front), n.open, n.todo[0]);
  }

  lemma PackChunkLink(bs: seq<Bucket>, n: Node, l: Link, down: Node)
    requires LinkOk(bs)(n, l, down) && n.pc == Packing && n.todo != []
    requires Size(n.open) + |n.todo[0].data| <= |n.Buf(n.front)|
    ensures LinkOk(bs)(n.Packed(), l, down)
  {
    UpFrame(bs, n, n.Packed(), l, down);
  }

  lemma FlushNode(cfg: Config, bs: seq<Bucket>, n: Node)
    requires NodeOk(cfg, bs)(0, n) && n.pc == Packing && n.MustFlush(cfg.bucketSize)
    ensures NodeOk(cfg, bs)(0, n.Flushed())
  {
    assert bs[n.published..][0] == n.open;
    if n.todo != [] {
      PackFromKeepsOpen([Entry(n.todo[0], 0)], n.todo[1..], cfg.bucketSize);
      assert |bs[n.published..]| > 1;
    }
  }

  lemma FlushLink(bs: seq<Bucket>, n: Node, l: Link, down: Node)
    requires OutstandingInv(bs, n) && LinkOk(bs)(n, l, down) && n.pc == Packing && (n.published == 0 || n.Notified(l))
    ensures LinkOk(bs)(n.Flushed(), if n.published == 0 then l else l.Consume(), down)
  {
  }

  /** After a flush the rest is packed from an empty bucket on. */
  lemma PackRest(open: Bucket, todo: seq<Chunk>, bucketSize: nat)
    requires todo != [] && Flushes(open, todo[0], bucketSize) && todo[0].meta.chunkSize <= bucketSize
    ensures PackFrom(open, todo, bucketSize) == [open] + PackFrom([], todo, bucketSize)
    ensures PackFrom([], todo, bucketSize) != []
  {
    assert Size([]) == 0;
    PackTurn(open, todo, bucketSize);
    PackTurn([], todo, bucketSize);
    PackFromKeepsOpen([], todo, bucketSize);
  }

  lemma PublishNode(cfg: Config, bs: seq<Bucket>, n: Node)
    requires NodeOk(cfg, bs)(0, n) && n.pc == Flushing
    ensures NodeOk(cfg, bs)(0, n.Published())
  {
    assert Tiles([]) && Size([]) == 0;
    hide PackFrom, Tiles, Size;
    if n.todo != [] {
      assert Sized(n.todo[0], cfg.bucketSize);
      PackRest(n.open, n.todo, cfg.bucketSize);
      assert bs[n.published + 1..] == bs[n.published..][1..] == PackFrom([], n.todo, cfg.bucketSize);
    }
  }

  lemma PublishLink(cfg: Config, bs: seq<Bucket>, n: Node, l: Link, down: Node)
    requires NodeOk(cfg, bs)(0, n) && LinkOk(bs)(n, l, down) && n.pc == Flushing
    ensures LinkOk(bs)(n.Published(), l.Send(n.BucketMessage()), down)
  {
  }

  lemma FinishNode(cfg: Config, bs: seq<Bucket>, n: Node, l: Link, down: Node)
    requires NodeOk(cfg, bs)(0, n) && LinkOk(bs)(n, l, down) && n.pc == AwaitLast && n.Notified(l)
    ensures NodeOk(cfg, bs)(0, n.Finished()) && LinkOk(bs)(n.Finished(), l.Consume(), down)
  {
  }

  /** The sender's next chunk joins a bucket that has no chunk of its name. */
  lemma NextChunkFits(cfg: Config, bs: seq<Bucket>, n: Node)
    requires ValidConfig(cfg, bs) && SenderInv(bs, cfg.bucketSize, n) && n.pc == Packing && !n.MustFlush(cfg.bucketSize)
    ensures NameFree(n.open, n.todo[0].meta.name) && |n.todo[0].data| == n.todo[0].meta.chunkSize
  {
    var joined := n.open + [Entry(n.todo[0], Size(n.open))];
    var b := bs[n.published];
    PackFromKeepsOpen(joined, n.todo[1..], cfg.bucketSize);
    assert bs[n.published..][0] == b && b in bs && joined <= b;
    PrefixOfDistinct(b, joined);
    DistinctSnoc(n.open, Entry(n.todo[0], Size(n.open)));
    assert Sized(n.todo[0], cfg.bucketSize);
  }

  // ---------- Receiver actions ----------

  lemma BeginReadNode(cfg: Config, bs: seq<Bucket>, r: nat, up: Node, l: Link, n: Node)
    requires OutstandingInv(bs, up) && r > 0 && NodeOk(cfg, bs)(r, n)
    requires LinkOk(bs)(up, l, n) && n.pc == AwaitMeta && l.messages != []
    ensures NodeOk(cfg, bs)(r, n.Begun(l.messages[0]))
  {
    hide YieldedChunks, Holds;
    assert LinkInv(bs, up, l, n);
  }

  lemma BeginReadLink(cfg: Config, bs: seq<Bucket>, r: nat, up: Node, l: Link, n: Node)
    requires OutstandingInv(bs, up) && r > 0 && NodeOk(cfg, bs)(r, n)
    requires LinkOk(bs)(up, l, n) && n.pc == AwaitMeta && l.messages != []
    ensures LinkOk(bs)(up, l.Take(), n.Begun(l.messages[0]))
  {
  }

  lemma CopyByteNode(cfg: Config, bs: seq<Bucket>, r: nat, up: Node, n: Node, i: nat)
    requires |up.bufA| == |up.bufB| == cfg.bucketSize && r > 0 && NodeOk(cfg, bs)(r, n)
    requires n.xfer.Some? && !n.xfer.value.done && i < cfg.bucketSize
    ensures NodeOk(cfg, bs)(r, n.Copied(up, i))
  {
    assert n.Copied(up, i).Buf(n.front) == n.Buf(n.front);
  }

  lemma CopyByteLinks(bs: seq<Bucket>, up: Node, l: Link, n: Node, i: nat)
    requires LinkOk(bs)(up, l, n) && |up.bufA| == |up.bufB| == |n.bufA| == |n.bufB|
    requires n.xfer.Some? && !n.xfer.value.done && i < |up.bufA|
    ensures LinkOk(bs)(up, l, n.Copied(up, i))
  {
    var n' := n.Copied(up, i);
    var back := Other(n.front);
    assert n'.Buf(back) == n.Buf(back)[i := up.Buf(n.xfer.value.src)[i]];
    assert CopyInv(up, n');
  }

  lemma CopySparesSource(cfg: Config, bs: seq<Bucket>, r: nat, up: Node, n: Node, i: nat)
    requires |up.bufA| == |up.bufB| == cfg.bucketSize && r > 0 && NodeOk(cfg, bs)(r, n)
    requires n.xfer.Some? && !n.xfer.value.done && i < cfg.bucketSize
    ensures |n.bufA| == |n.bufB| == cfg.bucketSize
    ensures SrcSide(n.Copied(up, i)) == SrcSide(n) && n.Copied(up, i).Buf(SrcSide(n)) == n.Buf(SrcSide(n))
  {
  }

  lemma CompleteReadNode(cfg: Config, bs: seq<Bucket>, r: nat, up: Node, l: Link, n: Node)
    requires r > 0 && |up.bufA| == |up.bufB| == cfg.bucketSize && OutstandingInv(bs, up)
    requires NodeOk(cfg, bs)(r, n) && LinkOk(bs)(up, l, n)
    requires n.xfer.Some? && !n.xfer.value.done && AllCopied(n.xfer.value, cfg.bucketSize)
    ensures NodeOk(cfg, bs)(r, n.ReadDone())
    ensures LinkOk(bs)(up, l.Notify(n.xfer.value.key), n.ReadDone())
  {
    hide Holds, YieldedChunks, MetaOf;
    assert n.Buf(Other(n.front)) == up.Buf(n.xfer.value.src);
  }

  /** The slice a rank yields is the chunk the sender packed. */
  lemma YieldReads(cfg: Config, bs: seq<Bucket>, n: Node, i: nat)
    requires ValidConfig(cfg, bs) && 0 < n.installed <= |bs| && i < |n.held.slots|
    requires n.held == MetaOf(bs, n.installed - 1) && Holds(n.Buf(n.front), bs[n.installed - 1])
    ensures ReadSlot(n.Buf(n.front), n.held.slots[i]) == bs[n.installed - 1][i].Landed()
  {
    var b := bs[n.installed - 1];
    assert b in bs && HoldsEntry(n.Buf(n.front), b[i]) && Sized(ChunksOf(b)[i], cfg.bucketSize);
  }

  lemma YieldedOneMore(bs: seq<Bucket>, full: nat, part: nat)
    requires full < |bs| && part < |bs[full]|
    ensures YieldedChunks(bs, full, part + 1) == YieldedChunks(bs, full, part) + [bs[full][part].Landed()]
  {
    assert LandedOf(bs[full])[..part + 1] == LandedOf(bs[full])[..part] + [bs[full][part].Landed()];
  }

  lemma YieldedWhole(bs: seq<Bucket>, k: nat)
    requires k < |bs|
    ensures YieldedChunks(bs, k, |bs[k]|) == YieldedChunks(bs, k + 1, 0)
  {
    assert bs[..k + 1] == bs[..k] + [bs[k]];
    FlattenSnoc(bs[..k], bs[k]);
    var front := Flatten(bs[..k]);
    assert LandedOf(front + bs[k]) == LandedOf(front) + LandedOf(bs[k]);
    assert LandedOf(bs[k])[..|bs[k]|] == LandedOf(bs[k]);
  }

  lemma YieldChunkNode(cfg: Config, bs: seq<Bucket>, r: nat, n: Node)
    requires ValidConfig(cfg, bs) && r > 0 && NodeOk(cfg, bs)(r, n) && n.pc.Yielding? && n.pc.next < |n.held.slots|
    ensures NodeOk(cfg, bs)(r, n.Yielded())
  {
    YieldReads(cfg, bs, n, n.pc.next);
    YieldedOneMore(bs, n.installed - 1, n.pc.next);
  }

  lemma AcknowledgeNode(cfg: Config, bs: seq<Bucket>, r: nat, n: Node)
    requires r > 0 && NodeOk(cfg, bs)(r, n) && n.pc.Yielding? && n.pc.next == |n.held.slots|
    ensures NodeOk(cfg, bs)(r, n.Acknowledged())
  {
    YieldedWhole(bs, n.installed - 1);
  }

  lemma AcknowledgeLink(cfg: Config, bs: seq<Bucket>, r: nat, n: Node, l: Link, down: Node)
    requires r > 0 && NodeOk(cfg, bs)(r, n) && LinkOk(bs)(n, l, down) && n.pc.Yielding? && n.Notified(l)
    ensures LinkOk(bs)(n.Acknowledged(), l.Consume(), down)
  {
  }

  lemma InstallNode(cfg: Config, bs: seq<Bucket>, r: nat, up: Node, l: Link, n: Node)
    requires r > 0 && NodeOk(cfg, bs)(r, n) && LinkOk(bs)(up, l, n)
    requires n.pc == AwaitXfer && n.xfer.Some? && n.xfer.value.done
    ensures NodeOk(cfg, bs)(r, n.Installed()) && LinkOk(bs)(up, l, n.Installed())
  {
  }

  lemma InstallLink(cfg: Config, bs: seq<Bucket>, r: nat, n: Node, l: Link, down: Node)
    requires r > 0 && NodeOk(cfg, bs)(r, n) && LinkOk(bs)(n, l, down) && n.pc == AwaitXfer
    ensures LinkOk(bs)(n.Installed(), l, down)
  {
  }

  lemma ForwardNode(cfg: Config, bs: seq<Bucket>, r: nat, n: Node)
    requires r > 0 && NodeOk(cfg, bs)(r, n) && n.pc == Publishing
    ensures NodeOk(cfg, bs)(r, n.Forwarded())
  {
  }

  lemma ForwardLink(cfg: Config, bs: seq<Bucket>, r: nat, n: Node, l: Link, down: Node)
    requires r > 0 && NodeOk(cfg, bs)(r, n) && LinkOk(bs)(n, l, down) && n.pc == Publishing
    ensures LinkOk(bs)(n.Forwarded(), l.Send(n.HeldMessage()), down)
  {
  }

  // ---------- The whole chain ----------

  lemma HereInv(cfg: Config, bs: seq<Bucket>, s: State, r: nat, n: Node)
    requires Inv(cfg, bs, s) && r < |s.nodes| == |s.links| + 1 && NodeOk(cfg, bs)(r, n)
    requires r > 0 ==> LinkOk(bs)(s.nodes[r - 1], s.links[r - 1], n)
    requires r < |s.links| ==> LinkOk(bs)(n, s.links[r], s.nodes[r + 1])
    ensures Inv(cfg, bs, s.Here(r, n))
  {
    ChainedChange(s.nodes, s.links, NodeOk(cfg, bs), LinkOk(bs), r, n, s.links);
  }

  lemma BelowInv(cfg: Config, bs: seq<Bucket>, s: State, r: nat, n: Node, l: Link)
    requires Inv(cfg, bs, s) && r < |s.links| && |s.nodes| == |s.links| + 1 && NodeOk(cfg, bs)(r, n)
    requires r > 0 ==> LinkOk(bs)(s.nodes[r - 1], s.links[r - 1], n)
    requires LinkOk(bs)(n, l, s.nodes[r + 1])
    ensures Inv(cfg, bs, s.Below(r, n, l))
  {
    ChainedChange(s.nodes, s.links, NodeOk(cfg, bs), LinkOk(bs), r, n, s.links[r := l]);
  }

  lemma AboveInv(cfg: Config, bs: seq<Bucket>, s: State, r: nat, n: Node, l: Link)
    requires Inv(cfg, bs, s) && 0 < r < |s.nodes| == |s.links| + 1 && NodeOk(cfg, bs)(r, n)
    requires LinkOk(bs)(s.nodes[r - 1], l, n)
    requires r < |s.links| ==> LinkOk(bs)(n, s.links[r], s.nodes[r + 1])
    ensures Inv(cfg, bs, s.Above(r, n, l))
  {
    ChainedChange(s.nodes, s.links, NodeOk(cfg, bs), LinkOk(bs), r, n, s.links[r - 1 := l]);
  }

  /** The link below rank `r` still fits after an action that publishes and acknowledges nothing. */
  lemma BelowUnchanged(cfg: Config, bs: seq<Bucket>, s: State, r: nat, n: Node)
    requires Inv(cfg, bs, s) && r < |s.nodes| == |s.links| + 1
    requires n.published == s.nodes[r].published && n.acked == s.nodes[r].acked
    requires SrcSide(n) == SrcSide(s.nodes[r]) && n.Buf(SrcSide(n)) == s.nodes[r].Buf(SrcSide(n))
    ensures r < |s.links| ==> LinkOk(bs)(n, s.links[r], s.nodes[r + 1])
  {
    At(cfg, bs, s, r);
    if r < |s.links| { UpFrame(bs, s.nodes[r], n, s.links[r], s.nodes[r + 1]); }
  }

  // Each action: what the acting rank and its links become.

  lemma SenderStep(cfg: Config, bs: seq<Bucket>, s: State, a: Action)
    requires ValidConfig(cfg, bs) && Inv(cfg, bs, s) && WellFormed(cfg, s) && Enabled(cfg, s, a)
    requires a.PackChunk? || a.Flush? || a.PublishBucket? || a.FinishSending?
    ensures Inv(cfg, bs, Apply(cfg, s, a))
  {
    hide Inv, NodeOk, LinkOk, ValidConfig;
    At(cfg, bs, s, 0);
    UpFacts(cfg, bs, s, 0);
    var n, l, down := s.nodes[0], s.links[0], s.nodes[1];
    assert n in s.nodes;
    match a
    case PackChunk =>
      PackChunkNode(cfg, bs, n);
      PackChunkLink(bs, n, l, down);
      HereInv(cfg, bs, s, 0, n.Packed());
    case Flush =>
      FlushNode(cfg, bs, n);
      FlushLink(bs, n, l, down);
      BelowInv(cfg, bs, s, 0, n.Flushed(), if n.published == 0 then l else l.Consume());
    case PublishBucket =>
      PublishNode(cfg, bs, n);
      PublishLink(cfg, bs, n, l, down);
      BelowInv(cfg, bs, s, 0, n.Published(), l.Send(n.BucketMessage()));
    case FinishSending =>
      FinishNode(cfg, bs, n, l, down);
      BelowInv(cfg, bs, s, 0, n.Finished(), l.Consume());
  }

  /** Actions that publish and acknowledge nothing. */
  lemma ReadingStep(cfg: Config, bs: seq<Bucket>, s: State, a: Action)
    requires ValidConfig(cfg, bs) && Inv(cfg, bs, s) && WellFormed(cfg, s) && Enabled(cfg, s, a)
    requires a.BeginRead? || a.CopyByte? || a.CompleteRead? || a.YieldChunk?
    ensures Inv(cfg, bs, Apply(cfg, s, a))
  {
    hide Inv, NodeOk, LinkOk, ValidConfig;
    var r := a.r;
    At(cfg, bs, s, r);
    UpFacts(cfg, bs, s, r - 1);
    var up, l, n := s.nodes[r - 1], s.links[r - 1], s.nodes[r];
    assert n in s.nodes && up in s.nodes;
    match a
    case BeginRead(_) =>
      BeginReadNode(cfg, bs, r, up, l, n);
      BeginReadLink(cfg, bs, r, up, l, n);
      BelowUnchanged(cfg, bs, s, r, n.Begun(l.messages[0]));
      AboveInv(cfg, bs, s, r, n.Begun(l.messages[0]), l.Take());
    case CopyByte(_, i) =>
      CopyByteNode(cfg, bs, r, up, n, i);
      CopyByteLinks(bs, up, l, n, i);
      CopySparesSource(cfg, bs, r, up, n, i);
      BelowUnchanged(cfg, bs, s, r, n.Copied(up, i));
      HereInv(cfg, bs, s, r, n.Copied(up, i));
    case CompleteRead(_) =>
      CompleteReadNode(cfg, bs, r, up, l, n);
      BelowUnchanged(cfg, bs, s, r, n.ReadDone());
      AboveInv(cfg, bs, s, r, n.ReadDone(), l.Notify(n.xfer.value.key));
    case YieldChunk(_) =>
      YieldChunkNode(cfg, bs, r, n);
      DownFrame(bs, up, l, n, n.Yielded());
      BelowUnchanged(cfg, bs, s, r, n.Yielded());
      HereInv(cfg, bs, s, r, n.Yielded());
  }

  /** Actions that the next rank sees. */
  lemma ServingStep(cfg: Config, bs: seq<Bucket>, s: State, a: Action)
    requires ValidConfig(cfg, bs) && Inv(cfg, bs, s) && WellFormed(cfg, s) && Enabled(cfg, s, a)
    requires a.Acknowledge? || a.Install? || a.Forward?
    ensures Inv(cfg, bs, Apply(cfg, s, a))
  {
    hide Inv, NodeOk, LinkOk, ValidConfig;
    var r := a.r;
    At(cfg, bs, s, r);
    var up, l, n := s.nodes[r - 1], s.links[r - 1], s.nodes[r];
    match a
    case Acknowledge(_) =>
      AcknowledgeNode(cfg, bs, r, n);
      DownFrame(bs, up, l, n, n.Acknowledged());
      if r == cfg.rollouts {
        HereInv(cfg, bs, s, r, n.Acknowledged());
      } else {
        AcknowledgeLink(cfg, bs, r, n, s.links[r], s.nodes[r + 1]);
        BelowInv(cfg, bs, s, r, n.Acknowledged(), s.links[r].Consume());
      }
    case Install(_) =>
      InstallNode(cfg, bs, r, up, l, n);
      if r < cfg.rollouts { InstallLink(cfg, bs, r, n, s.links[r], s.nodes[r + 1]); }
      HereInv(cfg, bs, s, r, n.Installed());
    case Forward(_) =>
      ForwardNode(cfg, bs, r, n);
      DownFrame(bs, up, l, n, n.Forwarded());
      if r == cfg.rollouts {
        HereInv(cfg, bs, s, r, n.Forwarded());
      } else {
        ForwardLink(cfg, bs, r, n, s.links[r], s.nodes[r + 1]);
        BelowInv(cfg, bs, s, r, n.Forwarded(), s.links[r].Send(n.HeldMessage()));
      }
  }

  /** Every enabled action keeps the invariant. */
  lemma StepInv(cfg: Config, bs: seq<Bucket>, s: State, a: Action)
    requires ValidConfig(cfg, bs) && Inv(cfg, bs, s) && WellFormed(cfg, s) && Enabled(cfg, s, a)
    ensures Inv(cfg, bs, Apply(cfg, s, a))
  {
    hide Inv, ValidConfig, WellFormed, Enabled, Apply;
    match a
    case PackChunk | Flush | PublishBucket | FinishSending => SenderStep(cfg, bs, s, a);
    case BeginRead(_) | CopyByte(_, _) | CompleteRead(_) | YieldChunk(_) => ReadingStep(cfg, bs, s, a);
    case Acknowledge(_) | Install(_) | Forward(_) => ServingStep(cfg, bs, s, a);
  }

  lemma {:induction false} RunInv(cfg: Config, bs: seq<Bucket>, run: seq<State>)
    requires ValidConfig(cfg, bs) && IsRun(cfg, run)
    ensures Inv(cfg, bs, run[|run| - 1])
    decreases |run|
  {
    hide Inv, ValidConfig, Apply, Enabled, WellFormed;
    var last := |run| - 1;
    if last == 0 {
      InitInv(cfg, bs, run[0]);
    } else {
      var s := run[..last][last - 1];
      RunInv(cfg, bs, run[..last]);
      var a :| Enabled(cfg, s, a) && run[last] == Apply(cfg, s, a);
      StepInv(cfg, bs, s, a);
    }
  }

  lemma ReachableInv(cfg: Config, bs: seq<Bucket>, s: State)
    requires ValidConfig(cfg, bs) && Reachable(cfg, s)
    ensures Inv(cfg, bs, s)
  {
    var run :| IsRun(cfg, run) && run[|run| - 1] == s;
    RunInv(cfg, bs, run);
  }
}
