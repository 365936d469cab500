// What the relay chain promises about buffers and about the weights that arrive, for every run.
module NixlDelivery {
  import opened Common
  import opened WeightChunks
  import opened BucketPacking
  import opened ViewAlignment
  import opened NixlRelay
  import opened NixlSafety

  // ---------- Overwrite safety ----------

  /** The action writes into this buffer of this rank. */
  predicate Writes(s: State, a: Action, r: nat, side: Side) {
    match a
    case PackChunk => r == 0 && s.nodes != [] && side == s.nodes[0].front
    case CopyByte(q, _) => r == q < |s.nodes| && side == Other(s.nodes[q].front)
    case _ => false
  }

  /** The next rank was told to read this buffer and has not finished doing so. */
  ghost predicate AwaitsReader(l: Link, down: Node, side: Side) {
    || (exists m <- l.messages :: m.src == side)
    || (down.xfer.Some? && !down.xfer.value.done && down.xfer.value.src == side)
  }

  /** The buffer holds a bucket that the rank has yet to yield, or has just read and has yet to install. */
  predicate AwaitsYield(n: Node, side: Side) {
    || (n.installed > 0 && n.pc != AwaitXfer && n.pc != Done && side == n.front)
    || (n.xfer.Some? && n.xfer.value.done && side == Other(n.front))
  }

  lemma WritesSpareLocal(cfg: Config, bs: seq<Bucket>, s: State, a: Action, r: nat, side: Side)
    requires Inv(cfg, bs, s) && WellFormed(cfg, s) && Enabled(cfg, s, a) && r < |s.nodes| && Writes(s, a, r, side)
    ensures r > 0 ==> !AwaitsYield(s.nodes[r], side)
  {
  }

  lemma WritesSpareReader(cfg: Config, bs: seq<Bucket>, s: State, a: Action, r: nat, side: Side)
    requires Inv(cfg, bs, s) && WellFormed(cfg, s) && Enabled(cfg, s, a) && r < |s.links| && Writes(s, a, r, side)
    ensures !AwaitsReader(s.links[r], s.nodes[r + 1], side)
  {
    hide Inv;
    At(cfg, bs, s, r);
    var up, l, down := s.nodes[r], s.links[r], s.nodes[r + 1];
    assert LinkInv(bs, up, l, down);
    assert r > 0 ==> ReceiverInv(bs, up);
    assert SrcSide(up) != side;
  }

  /** In no run is a buffer packed or read into while it still holds bytes that somebody needs. */
  lemma NoEarlyOverwrite(cfg: Config, bs: seq<Bucket>, s: State, a: Action, r: nat, side: Side)
    requires ValidConfig(cfg, bs) && Reachable(cfg, s) && WellFormed(cfg, s) && Enabled(cfg, s, a)
    requires r < |s.nodes| && Writes(s, a, r, side)
    ensures r > 0 ==> !AwaitsYield(s.nodes[r], side)
    ensures r < |s.links| ==> !AwaitsReader(s.links[r], s.nodes[r + 1], side)
  {
    ReachableInv(cfg, bs, s);
    WritesSpareLocal(cfg, bs, s, a, r, side);
    if r < |s.links| { WritesSpareReader(cfg, bs, s, a, r, side); }
  }

  /** The view of slot `i` in the rank's front buffer shows the bytes that the sender packed. */
  ghost predicate ShowsPacked(bs: seq<Bucket>, n: Node, i: nat) {
    && 0 < n.installed <= |bs| && i < |bs[n.installed - 1]| == |n.held.slots|
    && ReadSlot(n.Buf(n.front), n.held.slots[i]) == bs[n.installed - 1][i].Landed()
  }

  lemma ViewExact(cfg: Config, bs: seq<Bucket>, r: nat, n: Node, i: nat)
    requires ValidConfig(cfg, bs) && r > 0 && NodeOk(cfg, bs)(r, n) && n.pc.Yielding? && i < |n.held.slots|
    ensures ShowsPacked(bs, n, i)
  {
    YieldReads(cfg, bs, n, i);
  }

  /** While a rank yields, every view it hands out shows the packed bytes, whenever it is looked at. */
  lemma ViewsStayExact(cfg: Config, bs: seq<Bucket>, s: State, r: nat, i: nat)
    requires ValidConfig(cfg, bs) && Reachable(cfg, s)
    requires 0 < r < |s.nodes| && s.nodes[r].pc.Yielding? && i < |s.nodes[r].held.slots|
    ensures ShowsPacked(bs, s.nodes[r], i)
  {
    ReachableInv(cfg, bs, s);
    At(cfg, bs, s, r);
    ViewExact(cfg, bs, r, s.nodes[r], i);
  }

  // ---------- Delivery ----------

  lemma YieldedIsPrefix(bs: seq<Bucket>, full: nat, part: nat)
    requires full <= |bs| && (part > 0 ==> full < |bs| && part <= |bs[full]|)
    ensures YieldedChunks(bs, full, part) <= LandedOf(Flatten(bs))
  {
    assert bs == bs[..full] + bs[full..];
    FlattenAppend(bs[..full], bs[full..]);
    var front, back := Flatten(bs[..full]), Flatten(bs[full..]);
    assert LandedOf(front + back) == LandedOf(front) + LandedOf(back);
    if part > 0 {
      assert back == bs[full] + Flatten(bs[full..][1..]);
      assert LandedOf(back)[..part] == LandedOf(bs[full])[..part];
    }
  }

  lemma OutIsPrefix(bs: seq<Bucket>, n: Node)
    requires ReceiverInv(bs, n)
    ensures n.out <= LandedOf(Flatten(bs))
    ensures n.pc == Done ==> n.out == LandedOf(Flatten(bs))
  {
    match n.pc
    case AwaitMeta => YieldedIsPrefix(bs, n.acked, 0);
    case Yielding(i) => YieldedIsPrefix(bs, n.installed - 1, i);
    case AwaitXfer => YieldedIsPrefix(bs, n.installed, 0);
    case Publishing => YieldedIsPrefix(bs, n.installed - 1, 0);
    case Done => assert bs[..|bs|] == bs;
    case _ =>
  }

  /** At every moment each rank has yielded a beginning of the sender's chunk list, each chunk lying where the sender
      packed it, and a finished rank all of it. */
  lemma YieldsSenderChunks(cfg: Config, bs: seq<Bucket>, s: State, r: nat)
    requires ValidConfig(cfg, bs) && ChunksOf(Flatten(bs)) == cfg.chunks && Reachable(cfg, s) && 0 < r < |s.nodes|
    ensures Moved(cfg.chunks, LandedOf(Flatten(bs))) && s.nodes[r].out <= LandedOf(Flatten(bs))
    ensures s.nodes[r].pc == Done ==> s.nodes[r].out == LandedOf(Flatten(bs))
  {
    hide Inv, Reachable, ValidConfig;
    ReachableInv(cfg, bs, s);
    At(cfg, bs, s, r);
    OutIsPrefix(bs, s.nodes[r]);
    LandedIsMoved(Flatten(bs));
  }

  // ---------- Merging on the way ----------

  /** No rank has yielded a chunk on which its merger failed. */
  ghost predicate OutsConsumed(cfg: Config, s: State) {
    forall n <- s.nodes :: Consumed(n.out, cfg.bucketSize)
  }

  lemma OtherOutsStay(cfg: Config, s: State, a: Action)
    requires WellFormed(cfg, s) && Enabled(cfg, s, a)
    ensures |Apply(cfg, s, a).nodes| == |s.nodes|
    ensures forall r :: 0 <= r < |s.nodes| ==>
      Apply(cfg, s, a).nodes[r].out == s.nodes[r].out || Consumed(Apply(cfg, s, a).nodes[r].out, cfg.bucketSize)
  {
    hide Consumed, Size, Overwrite;
  }

  lemma {:induction false} RunConsumes(cfg: Config, run: seq<State>)
    requires IsRun(cfg, run)
    ensures OutsConsumed(cfg, run[|run| - 1])
    decreases |run|
  {
    hide Apply, Enabled, WellFormed;
    var last := |run| - 1;
    var s' := run[last];
    if last == 0 {
      assert forall n <- s'.nodes :: Consumed([], cfg.bucketSize) && n.out == [];
    } else {
      hide Consumed;
      var s := run[..last][last - 1];
      RunConsumes(cfg, run[..last]);
      var a :| Enabled(cfg, s, a) && s' == Apply(cfg, s, a);
      OtherOutsStay(cfg, s, a);
      forall n | n in s'.nodes ensures Consumed(n.out, cfg.bucketSize) {
        var r :| 0 <= r < |s'.nodes| && s'.nodes[r] == n;
        assert s.nodes[r] in s.nodes;
      }
    }
  }

  /** The chunks of distinctly named weights can be sent. */
  lemma SplitIsValid(ws: seq<Weight>, bucketSize: nat, rollouts: nat)
    requires bucketSize > 0 && rollouts >= 1 && DistinctWeights(ws)
    ensures var cfg := Config(bucketSize, Split(ws, bucketSize), rollouts);
      var bs := Pack(cfg.chunks, bucketSize);
      ValidConfig(cfg, bs) && ChunksOf(Flatten(bs)) == cfg.chunks
  {
    SplitShape(ws, bucketSize);
    PackSplit(ws, bucketSize);
  }

  /** No merger fails on what the sender packed. */
  ghost predicate Receivable(cfg: Config, bs: seq<Bucket>) {
    Consumed(LandedOf(Flatten(bs)), cfg.bucketSize)
  }

  ghost predicate Sendable(ws: seq<Weight>, cfg: Config) {
    && cfg.bucketSize > 0 && cfg.rollouts >= 1 && DistinctWeights(ws) && (forall w <- ws :: w.Valid())
    && cfg.chunks == Split(ws, cfg.bucketSize)
  }

  /** Mergers fail on nothing if and only if all weights that fit into a bucket start where they can be viewed. */
  lemma ReceivableIff(ws: seq<Weight>, cfg: Config)
    requires Sendable(ws, cfg)
    ensures Receivable(cfg, Pack(cfg.chunks, cfg.bucketSize)) <==> StartsFit(ws, 0, cfg.bucketSize)
  {
    hide StartsFit;
    MergeReceived(ws, cfg.bucketSize, 0);
  }

  /** End to end: in every run, a rank that has finished has rebuilt the sender's weights, in order and byte for
      byte, except those without bytes. A rank finishes only if every weight that fits into a bucket starts at a
      multiple of its item size. */
  lemma EveryRankGetsTheWeights(ws: seq<Weight>, cfg: Config, s: State, r: nat, junk: byte)
    requires Sendable(ws, cfg) && Reachable(cfg, s) && 0 < r < |s.nodes| && s.nodes[r].pc == Done
    ensures StartsFit(ws, 0, cfg.bucketSize)
    ensures Merge(s.nodes[r].out, cfg.bucketSize, junk) == Ok(NonEmpty(ws))
    ensures Merge(s.nodes[r].out, cfg.bucketSize, junk) == Ok(ws) <==> forall w <- ws :: w.data != []
  {
    hide StartsFit, Split, PackFrom, MergeFrom;
    SplitIsValid(ws, cfg.bucketSize, cfg.rollouts);
    YieldsSenderChunks(cfg, Pack(cfg.chunks, cfg.bucketSize), s, r);
    var run :| IsRun(cfg, run) && run[|run| - 1] == s;
    RunConsumes(cfg, run);
    assert s.nodes[r] in s.nodes && s.nodes[r].out == Received(ws, cfg.bucketSize);
    MergeReceived(ws, cfg.bucketSize, 0);
    MergeReceived(ws, cfg.bucketSize, junk);
  }
}
