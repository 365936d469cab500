// The in-band acknowledgements protect every buffer until it has been read, although they destroy
// bytes that the owner of the buffer may still be yielding.
module MooncakeSafety {
  import opened Common
  import opened WeightChunks
  import opened BucketPacking
  import opened MooncakeRelay

  // ---------- The bytes of a bucket ----------

  /** A bucket's weights side by side. */
  function PayloadOf(b: Bucket): seq<byte> {
    if b == [] then [] else PayloadOf(b[..|b| - 1]) + b[|b| - 1].chunk.data
  }

  ghost predicate Whole(b: Bucket) {
    Tiles(b) && TrueSizes(b)
  }

  lemma WholeFront(b: Bucket)
    requires Whole(b) && b != []
    ensures Whole(b[..|b| - 1]) && Size(b) == Size(b[..|b| - 1]) + |b[|b| - 1].chunk.data|
  {
  }

  lemma WholeSnoc(b: Bucket, c: Chunk)
    requires Whole(b) && |c.data| == c.meta.chunkSize
    ensures var b' := b + [Entry(c, Size(b))];
      Whole(b') && Size(b') == Size(b) + c.meta.chunkSize && ChunksOf(b') == ChunksOf(b) + [c]
  {
    TilesSnoc(b, c);
    SizeSnoc(b, Entry(c, Size(b)));
  }

  lemma {:induction false} PayloadAt(b: Bucket, i: nat)
    requires Whole(b) && i < |b|
    ensures HoldsEntry(PayloadOf(b), b[i])
    decreases |b|
  {
    var last := |b| - 1;
    var front := b[..last];
    WholeFront(b);
    PayloadSize(front);
    var e := b[i];
    if i < last {
      PayloadAt(front, i);
      assert PayloadOf(b)[e.offset..e.offset + |e.chunk.data|] == PayloadOf(front)[e.offset..e.offset + |e.chunk.data|];
    } else {
      assert PayloadOf(b)[|PayloadOf(front)|..] == e.chunk.data;
    }
  }

  lemma {:induction false} PayloadSize(b: Bucket)
    requires Whole(b)
    ensures |PayloadOf(b)| == Size(b)
  {
    if b != [] {
      WholeFront(b);
      PayloadSize(b[..|b| - 1]);
    }
  }

  /** A buffer that holds a bucket begins with its payload. */
  lemma {:induction false} HeldBegins(image: seq<byte>, b: Bucket)
    requires Whole(b) && Holds(image, b)
    ensures Size(b) <= |image| && image[..Size(b)] == PayloadOf(b)
  {
    if b != [] {
      var front, e := b[..|b| - 1], b[|b| - 1];
      WholeFront(b);
      HeldBegins(image, front);
      assert e in b && HoldsEntry(image, e);
      assert image[..Size(b)] == image[..Size(front)] + image[Size(front)..Size(b)];
    }
  }

  /** The payload with an acknowledgement over its first four bytes. */
  function Stamped(p: seq<byte>): seq<byte>
    requires |p| >= 4
  {
    MAGIC + p[4..]
  }

  /** What a rank yields for an entry of a stamped bucket. */
  function StampedChunk(e: Entry): Chunk {
    Chunk(e.chunk.meta, seq(|e.chunk.data|, j requires 0 <= j < |e.chunk.data| =>
      if e.offset + j < 4 then MAGIC[e.offset + j] else e.chunk.data[j]), 0)
  }

  /** The image begins with the payload `p`, possibly stamped. */
  ghost predicate Carries(image: seq<byte>, p: seq<byte>, stamped: bool)
    requires |p| >= 4
  {
    |p| <= |image| && image[..|p|] == if stamped then Stamped(p) else p
  }

  lemma StampedCarries(image: seq<byte>, p: seq<byte>)
    requires |p| >= 4 && Carries(image, p, false)
    ensures Carries(Overwrite(image, 0, MAGIC), p, true)
  {
    assert forall i :: 0 <= i < |p| ==> image[..|p|][i] == p[i];
    assert Overwrite(image, 0, MAGIC)[..|p|] == Stamped(p);
  }

  /** An image shows magic bytes exactly if it is stamped or its payload starts with them. */
  lemma MagicCarries(image: seq<byte>, p: seq<byte>, stamped: bool)
    requires |p| >= 4 && Carries(image, p, stamped)
    ensures StartsWithMagic(image) <==> stamped || StartsWithMagic(p)
  {
    assert forall i :: 0 <= i < 4 ==> image[i] == image[..|p|][i];
  }

  lemma StampedSlice(p: seq<byte>, e: Entry)
    requires |p| >= 4 && HoldsEntry(p, e)
    ensures Stamped(p)[e.offset..e.offset + |e.chunk.data|] == StampedChunk(e).data
  {
    var (lo, hi, q) := (e.offset, e.offset + |e.chunk.data|, Stamped(p));
    forall j | 0 <= j < hi - lo ensures q[lo..hi][j] == StampedChunk(e).data[j] {
      assert p[lo..hi][j] == p[lo + j] && q[lo..hi][j] == q[lo + j];
    }
  }

  /** What reading one weight out of a carried bucket gives. */
  lemma ReadCarried(image: seq<byte>, b: Bucket, i: nat, stamped: bool)
    requires Whole(b) && i < |b| && Size(b) >= 4 && |PayloadOf(b)| == Size(b) && Carries(image, PayloadOf(b), stamped)
    requires b[i].chunk.start == 0
    ensures ReadWeight(image, SlotsOf(b)[i]) == if stamped then StampedChunk(b[i]) else b[i].chunk
  {
    hide PayloadOf, Tiles, Size;
    var p, e := PayloadOf(b), b[i];
    var lo, hi := e.offset, e.offset + |e.chunk.data|;
    PayloadAt(b, i);
    assert e in b && image[lo..hi] == image[..|p|][lo..hi];
    if stamped { StampedSlice(p, e); }
  }

  // ---------- Configurations ----------

  ghost predicate AllFit(cs: seq<Chunk>, bucketSize: nat) {
    forall c <- cs :: c.start == 0 && |c.data| == c.meta.chunkSize == NBytes(c.meta.shape, c.meta.dtype) <= bucketSize
  }

  /** Every weight fits into a bucket, as the sender asserts, and every bucket has room for an acknowledgement. */
  ghost predicate ValidConfig(cfg: Config, bs: seq<Bucket>) {
    && cfg.rollouts >= 1 && AllFit(cfg.chunks, cfg.bucketSize) && bs == Pack(cfg.chunks, cfg.bucketSize)
    && forall k :: 0 <= k < |bs| ==> Size(bs[k]) >= 4
  }

  /** All weights of bucket `k` can be viewed. */
  ghost predicate BucketLegal(cfg: Config, bs: seq<Bucket>, k: nat)
    requires k < |bs|
  {
    forall i :: 0 <= i < |bs[k]| ==> LegalAt(cfg.bucketSize, k, SlotsOf(bs[k])[i])
  }

  /** The number of buckets before the first one with a weight that cannot be viewed, among the first `n`. */
  ghost function Legals(cfg: Config, bs: seq<Bucket>, n: nat): (l: nat)
    requires n <= |bs|
    ensures l <= n && forall k :: 0 <= k < l ==> BucketLegal(cfg, bs, k)
    ensures l < n ==> !BucketLegal(cfg, bs, l)
  {
    if n == 0 then 0
    else
      var l := Legals(cfg, bs, n - 1);
      if l == n - 1 && BucketLegal(cfg, bs, n - 1) then n else l
  }

  /** The number of buckets that a receiver can get through. */
  ghost function LegalBuckets(cfg: Config, bs: seq<Bucket>): (l: nat)
    ensures l <= |bs| && forall k :: 0 <= k < l ==> BucketLegal(cfg, bs, k)
    ensures l < |bs| ==> !BucketLegal(cfg, bs, l)
  {
    Legals(cfg, bs, |bs|)
  }

  /** The bucket cannot be told from an acknowledgement. */
  predicate LooksAcked(b: Bucket) {
    StartsWithMagic(PayloadOf(b))
  }

  /** None of the buckets whose halves are used again looks acknowledged, up to the one that stops the receivers. */
  ghost predicate Tellable(cfg: Config, bs: seq<Bucket>) {
    forall k :: 0 <= k < |bs| - 2 && k <= LegalBuckets(cfg, bs) ==> !LooksAcked(bs[k])
  }

  lemma {:induction false} PackFromWhole(open: Bucket, todo: seq<Chunk>, bucketSize: nat)
    requires Whole(open) && Size(open) <= bucketSize && AllFit(todo, bucketSize)
    ensures forall b <- PackFrom(open, todo, bucketSize) :: Whole(b) && Size(b) <= bucketSize
    decreases |todo|
  {
    if todo != [] {
      assert Whole([]) && Size([]) == 0 && todo[0] in todo;
      hide Whole, Size;
      WholeSnoc(Joins(open, todo[0], bucketSize), todo[0]);
      PackTurn(open, todo, bucketSize);
      PackFromWhole(Joined(open, todo[0], bucketSize), todo[1..], bucketSize);
    }
  }

  lemma Good(cfg: Config, bs: seq<Bucket>, k: nat)
    requires ValidConfig(cfg, bs) && k < |bs|
    ensures Whole(bs[k]) && |PayloadOf(bs[k])| == Size(bs[k]) && 4 <= Size(bs[k]) <= cfg.bucketSize
  {
    assert Whole([]) && Size([]) == 0;
    hide Whole, Size, PayloadOf, PackFrom;
    PackFromWhole([], cfg.chunks, cfg.bucketSize);
    assert bs[k] in bs;
    PayloadSize(bs[k]);
  }

  /** The buckets hold the weights in order. */
  lemma BucketsHoldAll(cfg: Config, bs: seq<Bucket>)
    requires ValidConfig(cfg, bs)
    ensures bs != [] && ChunksOf(Flatten(bs)) == cfg.chunks
  {
    PackFromKeepsOpen([], cfg.chunks, cfg.bucketSize);
    PackFromKeepsAll([], cfg.chunks, cfg.bucketSize);
    assert ChunksOf([]) + cfg.chunks == cfg.chunks;
  }

  // ---------- Counting ----------

  /** Buckets that this rank has completed in its buffers. */
  function FilledOf(n: Node): nat {
    match n.pc
    case WaitLast | Forwarding | Yielding(_) => n.k + 1
    case _ => n.k
  }

  /** Buckets that this rank has announced to the next. */
  function SentOf(n: Node): nat {
    match n.pc
    case WaitLast | Yielding(_) => n.k + 1
    case _ => n.k
  }

  /** Announcements that this rank has taken. */
  function TakenOf(n: Node): nat {
    if n.pc == Receiving || n.pc == Done then n.k else n.k + 1
  }

  /** The rank is writing into its current half. */
  predicate Refilling(n: Node) {
    n.pc == Filling || n.pc == Placing || n.pc == Reading
  }

  function InfoFor(bs: seq<Bucket>, k: nat): Info
    requires k < |bs|
  {
    Info(HalfOf(k), SlotsOf(bs[k]), Size(bs[k]), k == |bs| - 1)
  }

  /** The announcements of the buckets from `lo` up to `hi`. */
  function Announcements(bs: seq<Bucket>, lo: nat, hi: nat): seq<Info>
    requires hi <= |bs|
  {
    if hi <= lo then [] else Announcements(bs, lo, hi - 1) + [InfoFor(bs, hi - 1)]
  }

  lemma {:induction false} AnnouncementsFirst(bs: seq<Bucket>, lo: nat, hi: nat)
    requires hi <= |bs| && Announcements(bs, lo, hi) != []
    ensures lo < hi
    ensures Announcements(bs, lo, hi)[0] == InfoFor(bs, lo)
    ensures Announcements(bs, lo, hi)[1..] == Announcements(bs, lo + 1, hi)
  {
    hide InfoFor;
    if lo + 1 < hi {
      assert Announcements(bs, lo, hi - 1) != [];
      AnnouncementsFirst(bs, lo, hi - 1);
    }
  }

  /** The entries of `full` whole buckets and of the beginning of the next one. */
  function EntriesUpTo(bs: seq<Bucket>, full: nat, part: nat): seq<Entry>
    requires full <= |bs| && (part > 0 ==> full < |bs| && part <= |bs[full]|)
  {
    Flatten(bs[..full]) + (if part > 0 then bs[full][..part] else [])
  }

  /** What was yielded for some entries: every weight, the first `stampable` of them possibly stamped. */
  ghost predicate Delivered(stampable: nat, out: seq<Chunk>, es: seq<Entry>) {
    |out| == |es| && forall j :: 0 <= j < |out| ==> out[j] == es[j].chunk || (j < stampable && out[j] == StampedChunk(es[j]))
  }

  /** Weights that rank r may find stamped: those of buckets that a successor can get through. */
  ghost function Stampable(cfg: Config, bs: seq<Bucket>, r: nat): nat {
    if r < cfg.rollouts then |EntriesUpTo(bs, LegalBuckets(cfg, bs), 0)| else 0
  }

  // ---------- Invariant ----------

  ghost predicate SenderInv(cfg: Config, bs: seq<Bucket>, n: Node) {
    var K := |bs|;
    && (n.pc == WaitReuse ==> n.k >= 2)
    && (n.pc == WaitLast ==> n.k == K - 1)
    && match n.pc
       case Filling =>
         && n.k < K && bs[n.k..] == PackFrom(n.open, n.todo, cfg.bucketSize) && AllFit(n.todo, cfg.bucketSize)
         && Whole(n.open) && Size(n.open) <= cfg.bucketSize && Holds(n.Current(), n.open)
       case Placing | WaitReuse =>
         && n.k < K && n.todo != [] && n.open == [] && AllFit(n.todo, cfg.bucketSize)
         && bs[n.k..] == PackFrom([Entry(n.todo[0], 0)], n.todo[1..], cfg.bucketSize)
       case WaitLast => n.k < K
       case Sent => n.k == K
       case _ => false
  }

  /** The bytes transferred so far are those of the bucket. */
  ghost predicate CopyInv(p: seq<byte>, n: Node) {
    forall i <- n.copied :: i < |p| && i < |n.Current()| && n.Current()[i] == p[i]
  }

  ghost predicate ReceiverInv(cfg: Config, bs: seq<Bucket>, r: nat, n: Node) {
    var (K, part) := (|bs|, if n.pc.Yielding? then n.pc.next else 0);
    && n.pc != Filling && n.pc != Placing && n.pc != WaitReuse && n.pc != WaitLast && n.pc != Sent
    && (if n.pc == Done then n.k == K else n.k < K)
    && (n.pc != Receiving && n.pc != Done ==> n.info == InfoFor(bs, n.k))
    && (n.pc == WaitAck ==> n.k >= 2 && r < cfg.rollouts && n.copied == {})
    && (n.pc == Reading ==> CopyInv(PayloadOf(bs[n.k]), n))
    && (r == cfg.rollouts && (n.pc == Forwarding || n.pc.Yielding?) ==> BufferInv(bs, n, n.k, 0))
    && (part > 0 ==> part <= |bs[n.k]|)
    && n.k <= LegalBuckets(cfg, bs) && (forall i :: 0 <= i < part ==> LegalAt(cfg.bucketSize, n.k, SlotsOf(bs[n.k])[i]))
    && Delivered(Stampable(cfg, bs, r), n.out, EntriesUpTo(bs, n.k, part))
  }

  ghost predicate NodeInv(cfg: Config, bs: seq<Bucket>, r: nat, n: Node) {
    && |n.even| == |n.odd| == cfg.bucketSize
    && if r == 0 then SenderInv(cfg, bs, n) else ReceiverInv(cfg, bs, r, n)
  }

  /** A bucket's half holds its payload, stamped once the next rank has acknowledged it. */
  ghost predicate BufferInv(bs: seq<Bucket>, n: Node, k: int, acked: nat) {
    k >= 0 ==> k < |bs| && |PayloadOf(bs[k])| >= 4 && Carries(n.Buf(HalfOf(k)), PayloadOf(bs[k]), k < acked)
  }

  ghost predicate LinkInv(bs: seq<Bucket>, up: Node, q: seq<Info>, down: Node) {
    && bs != [] && TakenOf(down) <= SentOf(up) <= FilledOf(up) <= |bs|
    && q == Announcements(bs, TakenOf(down), SentOf(up))
    && FilledOf(up) <= down.k + 2
    && (Refilling(up) ==> up.k <= down.k + 1)
    && (up.pc == Sent && !LooksAcked(bs[|bs| - 1]) ==> down.k == |bs|)
    && BufferInv(bs, up, FilledOf(up) - 1, down.k)
    && (!Refilling(up) ==> BufferInv(bs, up, FilledOf(up) - 2, down.k))
  }

  ghost function NodeOk(cfg: Config, bs: seq<Bucket>): (nat, Node) -> bool {
    (r: nat, n: Node) => NodeInv(cfg, bs, r, n)
  }

  ghost function LinkOk(bs: seq<Bucket>): (Node, seq<Info>, Node) -> bool {
    (up, q, down) => LinkInv(bs, up, q, down)
  }

  ghost predicate Inv(cfg: Config, bs: seq<Bucket>, s: State) {
    |s.queues| == cfg.rollouts && Chained(s.nodes, s.queues, NodeOk(cfg, bs), LinkOk(bs))
  }

  lemma At(cfg: Config, bs: seq<Bucket>, s: State, r: nat)
    requires Inv(cfg, bs, s) && r < |s.nodes|
    ensures |s.nodes| == |s.queues| + 1 == cfg.rollouts + 1
    ensures NodeOk(cfg, bs)(r, s.nodes[r]) && |s.nodes[r].even| == |s.nodes[r].odd| == cfg.bucketSize
    ensures r > 0 ==> LinkOk(bs)(s.nodes[r - 1], s.queues[r - 1], s.nodes[r])
    ensures r < |s.queues| ==> LinkOk(bs)(s.nodes[r], s.queues[r], s.nodes[r + 1])
  {
    ChainedAt(s.nodes, s.queues, NodeOk(cfg, bs), LinkOk(bs), r);
  }

  lemma InvSizes(cfg: Config, bs: seq<Bucket>, s: State)
    requires ValidConfig(cfg, bs) && Inv(cfg, bs, s)
    ensures WellFormed(cfg, s)
  {
    hide NodeOk, LinkOk;
    BucketsHoldAll(cfg, bs);
    Good(cfg, bs, 0);
    ChainedIff(s.nodes, s.queues, NodeOk(cfg, bs), LinkOk(bs));
    forall n | n in s.nodes ensures |n.even| == |n.odd| == cfg.bucketSize {
      var r: nat :| r < |s.nodes| && s.nodes[r] == n;
      At(cfg, bs, s, r);
    }
  }

  lemma FreshNode(cfg: Config, bs: seq<Bucket>, s: State, r: nat)
    requires ValidConfig(cfg, bs) && Init(cfg, s) && r < |s.nodes|
    ensures NodeOk(cfg, bs)(r, s.nodes[r])
  {
    BucketsHoldAll(cfg, bs);
    assert bs[0..] == bs && bs[..0] == [];
    assert s.nodes[r] in s.nodes && Fresh(s.nodes[r], r == 0);
  }

  lemma FreshLink(cfg: Config, bs: seq<Bucket>, s: State, r: nat)
    requires ValidConfig(cfg, bs) && Init(cfg, s) && r < |s.queues|
    ensures LinkOk(bs)(s.nodes[r], s.queues[r], s.nodes[r + 1])
  {
    BucketsHoldAll(cfg, bs);
    assert s.queues[r] in s.queues && Fresh(s.nodes[r], r == 0) && Fresh(s.nodes[r + 1], false);
  }

  lemma InitInv(cfg: Config, bs: seq<Bucket>, s: State)
    requires ValidConfig(cfg, bs) && Init(cfg, s)
    ensures Inv(cfg, bs, s)
  {
    hide ValidConfig, NodeOk, LinkOk;
    var P, Q := NodeOk(cfg, bs), LinkOk(bs);
    forall r: nat | r < |s.nodes| ensures P(r, s.nodes[r]) { FreshNode(cfg, bs, s, r); }
    forall r: nat | r < |s.queues| ensures Q(s.nodes[r], s.queues[r], s.nodes[r + 1]) { FreshLink(cfg, bs, s, r); }
    ChainedIff(s.nodes, s.queues, P, Q);
  }

  // ---------- What a neighbour sees ----------

  lemma DownFrame(bs: seq<Bucket>, up: Node, q: seq<Info>, down: Node, down': Node)
    requires LinkOk(bs)(up, q, down) && TakenOf(down') == TakenOf(down) && down'.k == down.k
    ensures LinkOk(bs)(up, q, down')
  {
    assert LinkInv(bs, up, q, down');
  }

  /** The link below a rank only depends on its counters and on the halves with completed buckets. */
  lemma UpFrame(bs: seq<Bucket>, n: Node, n': Node, q: seq<Info>, down: Node)
    requires LinkOk(bs)(n, q, down) && FilledOf(n') == FilledOf(n) && SentOf(n') == SentOf(n)
    requires FilledOf(n) > 0 ==> n'.Buf(HalfOf(FilledOf(n) - 1)) == n.Buf(HalfOf(FilledOf(n) - 1))
    requires Refilling(n') ==> n'.k <= down.k + 1
    requires !Refilling(n') ==> !Refilling(n) && n'.even == n.even && n'.odd == n.odd
    requires n'.pc == Sent && bs != [] && !LooksAcked(bs[|bs| - 1]) ==> down.k == |bs|
    ensures LinkOk(bs)(n', q, down)
  {
    hide PayloadOf, Carries, HalfOf, Announcements;
    assert LinkInv(bs, n, q, down);
  }

  // ---------- Sender ----------

  /** After a flush the next weight fits, as the sender asserts. */
  lemma NextFits(cfg: Config, bs: seq<Bucket>, n: Node)
    requires ValidConfig(cfg, bs) && SenderInv(cfg, bs, n) && n.pc == Placing
    ensures !n.MustFlush(cfg.bucketSize)
  {
    var joined := [Entry(n.todo[0], 0)];
    PackFromKeepsOpen(joined, n.todo[1..], cfg.bucketSize);
    assert bs[n.k..][0] == bs[n.k] && joined <= bs[n.k];
    Good(cfg, bs, n.k);
    TileBounds(bs[n.k], 0, |bs[n.k]|);
    assert Size([]) == 0;
  }

  lemma PackNode(cfg: Config, bs: seq<Bucket>, n: Node)
    requires NodeOk(cfg, bs)(0, n) && SenderEnabled(cfg, n, PackWeight)
    ensures Size(n.open) + |n.todo[0].data| <= |n.Current()| && NodeOk(cfg, bs)(0, n.Packed())
  {
    var e := Entry(n.todo[0], Size(n.open));
    assert bs[n.k..] == PackFrom(n.open + [e], n.todo[1..], cfg.bucketSize) by {
      assert [] + [Entry(n.todo[0], 0)] == [Entry(n.todo[0], 0)];
    }
    assert Tiles(n.open) && TrueSizes(n.open) && Holds(n.Current(), n.open) && Size(n.open) <= cfg.bucketSize;
    hide Holds, HalfOf, Overwrite, Tiles, TrueSizes, Size, PackFrom;
    WholeSnoc(n.open, n.todo[0]);
    HoldsSnoc(n.Current(), n.open, n.todo[0]);
  }

  lemma PackLink(bs: seq<Bucket>, n: Node, q: seq<Info>, down: Node)
    requires LinkOk(bs)(n, q, down) && (n.pc == Filling || n.pc == Placing) && n.todo != []
    requires Size(n.open) + |n.todo[0].data| <= |n.Current()|
    ensures LinkOk(bs)(n.Packed(), q, down)
  {
    assert n.k > 0 ==> HalfOf(n.k - 1) != HalfOf(n.k);
    UpFrame(bs, n, n.Packed(), q, down);
  }

  lemma SendNode(cfg: Config, bs: seq<Bucket>, n: Node)
    requires NodeOk(cfg, bs)(0, n) && n.pc == Filling && n.MustFlush(cfg.bucketSize)
    ensures n.k < |bs| && n.open == bs[n.k] && n.Announcement() == InfoFor(bs, n.k) && NodeOk(cfg, bs)(0, n.Announced())
  {
    var rest := bs[n.k..];
    assert rest[0] == bs[n.k] && rest[1..] == bs[n.k + 1..];
    if n.todo != [] {
      PackFromKeepsOpen([Entry(n.todo[0], 0)], n.todo[1..], cfg.bucketSize);
    }
  }

  lemma SendCarries(cfg: Config, bs: seq<Bucket>, n: Node)
    requires ValidConfig(cfg, bs) && NodeOk(cfg, bs)(0, n) && n.pc == Filling && n.k < |bs| && n.open == bs[n.k]
    ensures BufferInv(bs, n, n.k, 0)
  {
    hide PayloadOf, Tiles, HalfOf;
    Good(cfg, bs, n.k);
    HeldBegins(n.Current(), n.open);
  }

  lemma SendLink(bs: seq<Bucket>, n: Node, q: seq<Info>, down: Node)
    requires LinkOk(bs)(n, q, down) && n.pc == Filling && n.k < |bs| && BufferInv(bs, n, n.k, 0)
    requires n.todo == [] <==> n.k == |bs| - 1
    ensures LinkOk(bs)(n.Announced(), q + [InfoFor(bs, n.k)], down)
  {
    hide PayloadOf, Carries, HalfOf, InfoFor;
    assert LinkInv(bs, n, q, down);
  }

  /** Magic bytes in a half are an acknowledgement, unless its payload starts with them. */
  lemma MagicMeansAcked(bs: seq<Bucket>, n: Node, k: nat, acked: nat)
    requires k < |bs| && BufferInv(bs, n, k, acked)
    ensures StartsWithMagic(n.Buf(HalfOf(k))) <==> k < acked || LooksAcked(bs[k])
  {
    MagicCarries(n.Buf(HalfOf(k)), PayloadOf(bs[k]), k < acked);
  }

  /** A rank that polled its next half successfully may put bucket k into it. */
  lemma ReuseLink(bs: seq<Bucket>, n: Node, n': Node, q: seq<Info>, down: Node)
    requires LinkOk(bs)(n, q, down) && 2 <= n.k < |bs| && !LooksAcked(bs[n.k - 2]) && StartsWithMagic(n.Current())
    requires (n.pc == WaitReuse && n' == n.(pc := Placing)) || (n.pc == WaitAck && n' == n.(pc := Reading))
    ensures LinkOk(bs)(n', q, down)
  {
    hide PayloadOf, Carries, Announcements;
    assert LinkInv(bs, n, q, down) && HalfOf(n.k - 2) == HalfOf(n.k);
    MagicMeansAcked(bs, n, n.k - 2, down.k);
    UpFrame(bs, n, n', q, down);
  }

  /** The next rank is at most two buckets behind, so it has got through the bucket that is polled, or is at it. */
  lemma ReuseBehind(bs: seq<Bucket>, n: Node, q: seq<Info>, down: Node)
    requires LinkOk(bs)(n, q, down) && (n.pc == WaitReuse || n.pc == WaitAck)
    ensures n.k - 2 <= down.k
  {
    hide BufferInv, Announcements;
    assert LinkInv(bs, n, q, down);
  }

  lemma FinishLink(bs: seq<Bucket>, n: Node, q: seq<Info>, down: Node)
    requires LinkOk(bs)(n, q, down) && down.k <= |bs|
    requires n.pc == WaitLast && n.k == |bs| - 1 && StartsWithMagic(n.Current())
    ensures LinkOk(bs)(n.Returned(), q, down)
  {
    assert LinkInv(bs, n, q, down);
    MagicMeansAcked(bs, n, n.k, down.k);
    UpFrame(bs, n, n.Returned(), q, down);
  }

  // ---------- Receivers ----------

  lemma ReceiveNode(cfg: Config, bs: seq<Bucket>, r: nat, up: Node, q: seq<Info>, n: Node)
    requires 0 < r <= cfg.rollouts && NodeOk(cfg, bs)(r, n) && LinkOk(bs)(up, q, n) && n.pc == Receiving && q != []
    ensures var n' := n.Received(r == cfg.rollouts, q[0]); NodeOk(cfg, bs)(r, n') && LinkOk(bs)(up, q[1..], n')
  {
    hide PayloadOf, Carries, HalfOf, InfoFor, Delivered, EntriesUpTo, Announcements;
    AnnouncementsFirst(bs, n.k, SentOf(up));
  }

  lemma ReceiveBelow(bs: seq<Bucket>, n: Node, m: Info, q: seq<Info>, down: Node)
    requires LinkOk(bs)(n, q, down) && n.pc == Receiving
    ensures LinkOk(bs)(n.Received(false, m), q, down)
  {
    UpFrame(bs, n, n.Received(false, m), q, down);
  }

  /** The buffer a rank has been told to read holds the payload until the rank acknowledges it. */
  lemma SourceExact(bs: seq<Bucket>, up: Node, q: seq<Info>, n: Node)
    requires LinkOk(bs)(up, q, n) && n.k < SentOf(up)
    ensures n.k < |bs| && |PayloadOf(bs[n.k])| >= 4 && Carries(up.Buf(HalfOf(n.k)), PayloadOf(bs[n.k]), false)
  {
    hide Carries, PayloadOf, HalfOf, Announcements, LooksAcked, Node.Buf;
    assert LinkInv(bs, up, q, n);
    assert n.k == FilledOf(up) - 1 || n.k == FilledOf(up) - 2;
    assert BufferInv(bs, up, n.k, n.k);
  }

  lemma CopyNode(cfg: Config, bs: seq<Bucket>, r: nat, up: Node, q: seq<Info>, n: Node, i: nat)
    requires ValidConfig(cfg, bs) && r > 0 && NodeOk(cfg, bs)(r, n) && LinkOk(bs)(up, q, n) && n.pc == Reading
    requires i < n.info.len && |up.even| == |up.odd| == cfg.bucketSize
    ensures i < |n.Current()| && i < |up.Buf(n.info.src)| && NodeOk(cfg, bs)(r, n.Copied(up, i))
  {
    hide PayloadOf, HalfOf, Announcements, Delivered, EntriesUpTo;
    Good(cfg, bs, n.k);
    assert LinkInv(bs, up, q, n);
    SourceExact(bs, up, q, n);
    var p, from := PayloadOf(bs[n.k]), up.Buf(n.info.src);
    assert from[i] == from[..|p|][i] == p[i];
  }

  lemma CopyBelow(bs: seq<Bucket>, n: Node, up: Node, i: nat, q: seq<Info>, down: Node)
    requires LinkOk(bs)(n, q, down) && n.pc == Reading && i < |n.Current()| && i < |up.Buf(n.info.src)|
    ensures LinkOk(bs)(n.Copied(up, i), q, down)
  {
    assert LinkInv(bs, n, q, down);
    assert n.k > 0 ==> HalfOf(n.k - 1) != HalfOf(n.k);
    UpFrame(bs, n, n.Copied(up, i), q, down);
  }

  /** When all bytes have been transferred, the rank holds the bucket. */
  lemma ReadCarries(cfg: Config, bs: seq<Bucket>, r: nat, n: Node)
    requires ValidConfig(cfg, bs) && r > 0 && NodeOk(cfg, bs)(r, n) && n.pc == Reading
    requires forall i :: 0 <= i < n.info.len ==> i in n.copied
    ensures n.k < |bs| && BufferInv(bs, n, n.k, 0)
  {
    Good(cfg, bs, n.k);
    var p := PayloadOf(bs[n.k]);
    assert forall i :: 0 <= i < |p| ==> i in n.copied && n.Current()[i] == p[i];
    assert n.Current()[..|p|] == p;
  }

  lemma ReadNode(cfg: Config, bs: seq<Bucket>, r: nat, n: Node)
    requires r > 0 && NodeOk(cfg, bs)(r, n) && n.pc == Reading && BufferInv(bs, n, n.k, 0)
    ensures NodeOk(cfg, bs)(r, n.ReadDone())
  {
  }

  lemma ReadBelow(bs: seq<Bucket>, n: Node, q: seq<Info>, down: Node)
    requires LinkOk(bs)(n, q, down) && n.pc == Reading && n.k < |bs| && BufferInv(bs, n, n.k, 0)
    ensures LinkOk(bs)(n.ReadDone(), q, down)
  {
    hide PayloadOf, Carries, HalfOf, Announcements;
    assert LinkInv(bs, n, q, down);
  }

  lemma ForwardNode(cfg: Config, bs: seq<Bucket>, r: nat, n: Node)
    requires r > 0 && NodeOk(cfg, bs)(r, n) && n.pc == Forwarding
    ensures NodeOk(cfg, bs)(r, n.Forwarded()) && n.k < |bs| && n.info.(src := HalfOf(n.k)) == InfoFor(bs, n.k)
  {
  }

  lemma ForwardLink(bs: seq<Bucket>, n: Node, q: seq<Info>, down: Node)
    requires LinkOk(bs)(n, q, down) && n.pc == Forwarding && n.k < |bs|
    ensures LinkOk(bs)(n.Forwarded(), q + [InfoFor(bs, n.k)], down)
  {
    hide PayloadOf, Carries, HalfOf, InfoFor;
    assert LinkInv(bs, n, q, down);
  }

  /** What a rank with a successor finds in its own buffer when it yields. */
  lemma OwnBuffer(bs: seq<Bucket>, n: Node, q: seq<Info>, down: Node)
    requires LinkOk(bs)(n, q, down) && n.pc.Yielding?
    ensures BufferInv(bs, n, n.k, down.k)
  {
    hide PayloadOf, Carries, HalfOf, Announcements;
    assert LinkInv(bs, n, q, down);
  }

  lemma DeliveredSnoc(stampable: nat, out: seq<Chunk>, es: seq<Entry>, c: Chunk, e: Entry)
    requires Delivered(stampable, out, es) && (c == e.chunk || (|out| < stampable && c == StampedChunk(e)))
    ensures Delivered(stampable, out + [c], es + [e])
  {
  }

  /** All weights start their own tensors. */
  lemma StartsAtZero(cfg: Config, bs: seq<Bucket>, k: nat, i: nat)
    requires ValidConfig(cfg, bs) && k < |bs| && i < |bs[k]|
    ensures bs[k][i].chunk.start == 0
  {
    BucketsHoldAll(cfg, bs);
    EntryPlace(bs, k, i);
    assert ChunksOf(Flatten(bs))[|Flatten(bs[..k])| + i] in cfg.chunks;
  }

  /** Where an entry is among all entries. */
  lemma EntryPlace(bs: seq<Bucket>, k: nat, i: nat)
    requires k < |bs| && i < |bs[k]|
    ensures var j := |Flatten(bs[..k])| + i; j < |Flatten(bs[..k + 1])| <= |Flatten(bs)| && Flatten(bs)[j] == bs[k][i]
  {
    FlattenPrefix(bs, k + 1);
    assert bs[..k + 1] == bs[..k] + [bs[k]];
    FlattenSnoc(bs[..k], bs[k]);
  }

  lemma {:induction false} FlattenPrefix<T>(ss: seq<seq<T>>, k: nat)
    requires k <= |ss|
    ensures Flatten(ss[..k]) <= Flatten(ss)
  {
    FlattenAppend(ss[..k], ss[k..]);
    assert ss[..k] + ss[k..] == ss;
  }

  /** The weights of bucket `k` may be stamped if a successor can get through it. */
  lemma MayBeStamped(cfg: Config, bs: seq<Bucket>, r: nat, k: nat, i: nat)
    requires r < cfg.rollouts && k < LegalBuckets(cfg, bs) && i < |bs[k]|
    ensures |EntriesUpTo(bs, k, i)| < Stampable(cfg, bs, r)
  {
    var (l, front) := (LegalBuckets(cfg, bs), bs[..LegalBuckets(cfg, bs)]);
    EntryPlace(front, k, i);
    assert front[..k] == bs[..k] && front == bs[..l];
  }

  lemma YieldOut(cfg: Config, bs: seq<Bucket>, r: nat, n: Node, acked: nat)
    requires ValidConfig(cfg, bs) && 0 < r && NodeOk(cfg, bs)(r, n) && n.pc.Yielding? && n.pc.next < |n.info.slots|
    requires BufferInv(bs, n, n.k, acked) && (n.k < acked ==> r < cfg.rollouts && acked <= LegalBuckets(cfg, bs))
    ensures n.k < |bs| && n.pc.next < |bs[n.k]|
    ensures Delivered(Stampable(cfg, bs, r), n.Yielded().out, EntriesUpTo(bs, n.k, n.pc.next + 1))
  {
    hide Carries, StampedChunk, ReadWeight, Stampable, LegalBuckets, BucketLegal, LegalAt;
    var i := n.pc.next;
    Good(cfg, bs, n.k);
    StartsAtZero(cfg, bs, n.k, i);
    ReadCarried(n.Current(), bs[n.k], i, n.k < acked);
    if n.k < acked { MayBeStamped(cfg, bs, r, n.k, i); }
    DeliveredSnoc(Stampable(cfg, bs, r), n.out, EntriesUpTo(bs, n.k, i), ReadWeight(n.Current(), n.info.slots[i]), bs[n.k][i]);
    assert EntriesUpTo(bs, n.k, i + 1) == EntriesUpTo(bs, n.k, i) + [bs[n.k][i]];
  }

  lemma YieldNode(cfg: Config, bs: seq<Bucket>, r: nat, n: Node, acked: nat)
    requires ValidConfig(cfg, bs) && 0 < r && NodeOk(cfg, bs)(r, n) && n.pc.Yielding? && n.pc.next < |n.info.slots|
    requires LegalAt(cfg.bucketSize, n.k, n.info.slots[n.pc.next])
    requires BufferInv(bs, n, n.k, acked) && (n.k < acked ==> r < cfg.rollouts && acked <= LegalBuckets(cfg, bs))
    ensures NodeOk(cfg, bs)(r, n.Yielded())
  {
    hide EntriesUpTo, Delivered, ReadWeight, LegalAt, PayloadOf, Stampable, LegalBuckets, Carries, Size;
    YieldOut(cfg, bs, r, n, acked);
  }

  lemma AckNode(cfg: Config, bs: seq<Bucket>, r: nat, n: Node)
    requires r > 0 && NodeOk(cfg, bs)(r, n) && n.pc.Yielding? && n.pc.next == |n.info.slots|
    ensures NodeOk(cfg, bs)(r, n.Acked()) && n.k < |bs| && n.info.src == HalfOf(n.k)
  {
    hide LegalAt, PayloadOf;
    assert BucketLegal(cfg, bs, n.k) && n.k < LegalBuckets(cfg, bs);
    assert bs[..n.k + 1] == bs[..n.k] + [bs[n.k]] && bs[n.k][..|bs[n.k]|] == bs[n.k];
    FlattenSnoc(bs[..n.k], bs[n.k]);
  }

  /** Where the acknowledgement of bucket k lands: not in a half that is being written. */
  lemma StampMisses(bs: seq<Bucket>, up: Node, q: seq<Info>, n: Node)
    requires LinkOk(bs)(up, q, n) && n.pc.Yielding?
    ensures Refilling(up) ==> HalfOf(n.k) != HalfOf(up.k)
    ensures up.pc == Forwarding ==> HalfOf(n.k) != HalfOf(up.k)
  {
    assert LinkInv(bs, up, q, n);
  }

  lemma StampNode(cfg: Config, bs: seq<Bucket>, r: nat, up: Node, h: Half)
    requires r < cfg.rollouts && NodeOk(cfg, bs)(r, up) && cfg.bucketSize >= 4
    requires Refilling(up) ==> h != HalfOf(up.k)
    ensures NodeOk(cfg, bs)(r, up.Stamp(h))
  {
  }

  /** The acknowledgement turns the payload in the predecessor's buffer into its stamped form. */
  lemma AckLink(bs: seq<Bucket>, up: Node, q: seq<Info>, n: Node)
    requires LinkOk(bs)(up, q, n) && n.pc.Yielding? && |up.Buf(HalfOf(n.k))| >= 4
    ensures LinkOk(bs)(up.Stamp(HalfOf(n.k)), q, n.Acked())
  {
    hide Announcements, PayloadOf, Carries, Overwrite;
    assert LinkInv(bs, up, q, n);
    SourceExact(bs, up, q, n);
    StampedCarries(up.Buf(HalfOf(n.k)), PayloadOf(bs[n.k]));
    assert HalfOf(n.k + 1) != HalfOf(n.k) && (n.k >= 1 ==> HalfOf(n.k - 1) != HalfOf(n.k));
  }

  lemma AckBelow(bs: seq<Bucket>, n: Node, q: seq<Info>, down: Node)
    requires LinkOk(bs)(n, q, down) && n.pc.Yielding?
    ensures LinkOk(bs)(n.Acked(), q, down)
  {
    UpFrame(bs, n, n.Acked(), q, down);
  }

  // ---------- The whole chain ----------

  lemma One(cfg: Config, bs: seq<Bucket>, s: State, r: nat, n: Node, qs: seq<seq<Info>>)
    requires Inv(cfg, bs, s) && r < |s.nodes| == |s.queues| + 1 && |qs| == |s.queues| && NodeOk(cfg, bs)(r, n)
    requires forall k :: 0 <= k < |qs| && k != r && k != r - 1 ==> qs[k] == s.queues[k]
    requires r > 0 ==> LinkOk(bs)(s.nodes[r - 1], qs[r - 1], n)
    requires r < |qs| ==> LinkOk(bs)(n, qs[r], s.nodes[r + 1])
    ensures Inv(cfg, bs, State(s.nodes[r := n], qs))
  {
    ChainedChange(s.nodes, s.queues, NodeOk(cfg, bs), LinkOk(bs), r, n, qs);
  }

  lemma ReuseNode(cfg: Config, bs: seq<Bucket>, n: Node)
    requires NodeOk(cfg, bs)(0, n) && n.pc == WaitReuse
    ensures 2 <= n.k < |bs| && NodeOk(cfg, bs)(0, n.(pc := Placing))
  {
  }

  lemma FinishNode(cfg: Config, bs: seq<Bucket>, n: Node)
    requires NodeOk(cfg, bs)(0, n) && n.pc == WaitLast
    ensures n.k == |bs| - 1 && NodeOk(cfg, bs)(0, n.Returned())
  {
  }

  lemma AckSeenNode(cfg: Config, bs: seq<Bucket>, r: nat, n: Node)
    requires r > 0 && NodeOk(cfg, bs)(r, n) && n.pc == WaitAck
    ensures 2 <= n.k < |bs| && r < cfg.rollouts && NodeOk(cfg, bs)(r, n.(pc := Reading))
  {
  }

  lemma BoundOf(cfg: Config, bs: seq<Bucket>, r: nat, n: Node)
    requires NodeOk(cfg, bs)(r, n)
    ensures n.k <= |bs| && (r > 0 ==> n.k <= LegalBuckets(cfg, bs))
    ensures r == cfg.rollouts > 0 && n.pc.Yielding? ==> BufferInv(bs, n, n.k, 0)
  {
  }

  // Each action: what the acting rank and its links become.

  lemma SenderStep(cfg: Config, bs: seq<Bucket>, s: State, a: Action)
    requires ValidConfig(cfg, bs) && Tellable(cfg, bs) && Inv(cfg, bs, s) && WellFormed(cfg, s) && Enabled(cfg, s, a)
    requires OfSender(a)
    ensures Inv(cfg, bs, Apply(cfg, s, a))
  {
    hide Inv, NodeOk, LinkOk, ValidConfig;
    At(cfg, bs, s, 0);
    At(cfg, bs, s, 1);
    var n, q, down := s.nodes[0], s.queues[0], s.nodes[1];
    BoundOf(cfg, bs, 1, down);
    match a
    case PackWeight =>
      PackNode(cfg, bs, n);
      PackLink(bs, n, q, down);
      One(cfg, bs, s, 0, n.Packed(), s.queues);
    case Send =>
      SendNode(cfg, bs, n);
      SendCarries(cfg, bs, n);
      SendLink(bs, n, q, down);
      One(cfg, bs, s, 0, n.Announced(), s.queues[0 := q + [InfoFor(bs, n.k)]]);
    case Reuse =>
      ReuseNode(cfg, bs, n);
      ReuseBehind(bs, n, q, down);
      ReuseLink(bs, n, n.(pc := Placing), q, down);
      One(cfg, bs, s, 0, n.(pc := Placing), s.queues);
    case Finish =>
      FinishNode(cfg, bs, n);
      FinishLink(bs, n, q, down);
      One(cfg, bs, s, 0, n.Returned(), s.queues);
    case _ =>
  }

  lemma ReceiverStep(cfg: Config, bs: seq<Bucket>, s: State, a: Action)
    requires ValidConfig(cfg, bs) && Tellable(cfg, bs) && Inv(cfg, bs, s) && WellFormed(cfg, s) && Enabled(cfg, s, a)
    requires a.Receive? || a.AckSeen? || a.Forward?
    ensures Inv(cfg, bs, Apply(cfg, s, a))
  {
    hide Inv, NodeOk, LinkOk, ValidConfig;
    var r := a.r;
    At(cfg, bs, s, r);
    var up, q, n := s.nodes[r - 1], s.queues[r - 1], s.nodes[r];
    match a
    case Receive(_) =>
      ReceiveNode(cfg, bs, r, up, q, n);
      if r < |s.queues| { ReceiveBelow(bs, n, q[0], s.queues[r], s.nodes[r + 1]); }
      One(cfg, bs, s, r, n.Received(r == cfg.rollouts, q[0]), s.queues[r - 1 := q[1..]]);
    case AckSeen(_) =>
      AckSeenNode(cfg, bs, r, n);
      At(cfg, bs, s, r + 1);
      BoundOf(cfg, bs, r + 1, s.nodes[r + 1]);
      ReuseBehind(bs, n, s.queues[r], s.nodes[r + 1]);
      ReuseLink(bs, n, n.(pc := Reading), s.queues[r], s.nodes[r + 1]);
      DownFrame(bs, up, q, n, n.(pc := Reading));
      One(cfg, bs, s, r, n.(pc := Reading), s.queues);
    case Forward(_) =>
      ForwardNode(cfg, bs, r, n);
      DownFrame(bs, up, q, n, n.Forwarded());
      if r < |s.queues| {
        ForwardLink(bs, n, s.queues[r], s.nodes[r + 1]);
        One(cfg, bs, s, r, n.Forwarded(), s.queues[r := s.queues[r] + [InfoFor(bs, n.k)]]);
      } else {
        One(cfg, bs, s, r, n.Forwarded(), s.queues);
      }
    case _ =>
  }

  lemma ReadStep(cfg: Config, bs: seq<Bucket>, s: State, a: Action)
    requires ValidConfig(cfg, bs) && Inv(cfg, bs, s) && WellFormed(cfg, s) && Enabled(cfg, s, a)
    requires a.CopyByte? || a.CompleteRead?
    ensures Inv(cfg, bs, Apply(cfg, s, a))
  {
    hide Inv, NodeOk, LinkOk, ValidConfig, BufferInv;
    var r := a.r;
    At(cfg, bs, s, r);
    At(cfg, bs, s, r - 1);
    var up, q, n := s.nodes[r - 1], s.queues[r - 1], s.nodes[r];
    match a
    case CopyByte(_, i) =>
      CopyNode(cfg, bs, r, up, q, n, i);
      DownFrame(bs, up, q, n, n.Copied(up, i));
      if r < |s.queues| { CopyBelow(bs, n, up, i, s.queues[r], s.nodes[r + 1]); }
      One(cfg, bs, s, r, n.Copied(up, i), s.queues);
    case CompleteRead(_) =>
      ReadCarries(cfg, bs, r, n);
      ReadNode(cfg, bs, r, n);
      DownFrame(bs, up, q, n, n.ReadDone());
      if r < |s.queues| { ReadBelow(bs, n, s.queues[r], s.nodes[r + 1]); }
      One(cfg, bs, s, r, n.ReadDone(), s.queues);
    case _ =>
  }

  lemma YieldStep(cfg: Config, bs: seq<Bucket>, s: State, r: nat)
    requires ValidConfig(cfg, bs) && Inv(cfg, bs, s) && WellFormed(cfg, s) && Enabled(cfg, s, YieldWeight(r))
    ensures Inv(cfg, bs, Apply(cfg, s, YieldWeight(r)))
  {
    hide Inv, NodeOk, LinkOk, ValidConfig, BufferInv, ReadWeight, LegalAt;
    At(cfg, bs, s, r);
    var up, q, n := s.nodes[r - 1], s.queues[r - 1], s.nodes[r];
    DownFrame(bs, up, q, n, n.Yielded());
    if r < |s.queues| {
      OwnBuffer(bs, n, s.queues[r], s.nodes[r + 1]);
      At(cfg, bs, s, r + 1);
      BoundOf(cfg, bs, r + 1, s.nodes[r + 1]);
      YieldNode(cfg, bs, r, n, s.nodes[r + 1].k);
      UpFrame(bs, n, n.Yielded(), s.queues[r], s.nodes[r + 1]);
    } else {
      BoundOf(cfg, bs, r, n);
      YieldNode(cfg, bs, r, n, 0);
    }
    One(cfg, bs, s, r, n.Yielded(), s.queues);
  }

  lemma AckStep(cfg: Config, bs: seq<Bucket>, s: State, r: nat)
    requires ValidConfig(cfg, bs) && Inv(cfg, bs, s) && WellFormed(cfg, s) && Enabled(cfg, s, Ack(r))
    ensures Inv(cfg, bs, Apply(cfg, s, Ack(r)))
  {
    hide NodeOk, LinkOk, ValidConfig, Overwrite;
    At(cfg, bs, s, r);
    At(cfg, bs, s, r - 1);
    var up, q, n, h := s.nodes[r - 1], s.queues[r - 1], s.nodes[r], s.nodes[r].info.src;
    AckNode(cfg, bs, r, n);
    AckLink(bs, up, q, n);
    StampMisses(bs, up, q, n);
    StampNode(cfg, bs, r - 1, up, h);
    if r > 1 { DownFrame(bs, s.nodes[r - 2], s.queues[r - 2], up, up.Stamp(h)); }
    if r < |s.queues| { AckBelow(bs, n, s.queues[r], s.nodes[r + 1]); }
    ChainedPair(s.nodes, s.queues, NodeOk(cfg, bs), LinkOk(bs), r - 1, up.Stamp(h), q, n.Acked());
    assert s.queues[r - 1 := q] == s.queues;
  }

  /** Every enabled action keeps the invariant. */
  lemma StepInv(cfg: Config, bs: seq<Bucket>, s: State, a: Action)
    requires ValidConfig(cfg, bs) && Tellable(cfg, bs) && Inv(cfg, bs, s) && WellFormed(cfg, s) && Enabled(cfg, s, a)
    ensures Inv(cfg, bs, Apply(cfg, s, a))
  {
    hide Inv, ValidConfig, WellFormed, Enabled, Apply;
    match a
    case PackWeight | Send | Reuse | Finish => SenderStep(cfg, bs, s, a);
    case Receive(_) | AckSeen(_) | Forward(_) => ReceiverStep(cfg, bs, s, a);
    case CopyByte(_, _) | CompleteRead(_) => ReadStep(cfg, bs, s, a);
    case YieldWeight(r) => YieldStep(cfg, bs, s, r);
    case Ack(r) => AckStep(cfg, bs, s, r);
  }

  lemma {:induction false} RunInv(cfg: Config, bs: seq<Bucket>, run: seq<State>)
    requires ValidConfig(cfg, bs) && Tellable(cfg, bs) && IsRun(cfg, run)
    ensures Inv(cfg, bs, run[|run| - 1])
    decreases |run|
  {
    hide Inv, ValidConfig, Apply, Enabled;
    var last := |run| - 1;
    if last == 0 {
      InitInv(cfg, bs, run[0]);
    } else {
      var s := run[..last][last - 1];
      RunInv(cfg, bs, run[..last]);
      var a :| Enabled(cfg, s, a) && run[last] == Apply(cfg, s, a);
      StepInv(cfg, bs, s, a);
    }
  }

  lemma ReachableInv(cfg: Config, bs: seq<Bucket>, s: State)
    requires ValidConfig(cfg, bs) && Tellable(cfg, bs) && Reachable(cfg, s)
    ensures Inv(cfg, bs, s) && WellFormed(cfg, s)
  {
    hide Inv;
    var run :| IsRun(cfg, run) && run[|run| - 1] == s;
    RunInv(cfg, bs, run);
    InvSizes(cfg, bs, s);
  }
}
