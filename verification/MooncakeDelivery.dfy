// What the Mooncake chain promises for every run.
module MooncakeDelivery {
  import opened Common
  import opened WeightChunks
  import opened BucketPacking
  import opened MooncakeRelay
  import opened MooncakeSafety

  // ---------- Overwrite safety ----------

  /** The action writes weights into rank r's current half. */
  predicate Refills(a: Action, r: nat) {
    (a.PackWeight? && r == 0) || (a.CopyByte? && a.r == r)
  }

  lemma RefillLink(bs: seq<Bucket>, up: Node, q: seq<Info>, down: Node)
    requires LinkOk(bs)(up, q, down) && Refilling(up)
    ensures up.k <= down.k + 1
  {
  }

  /** In no run does a byte of bucket k replace bucket k - 2 before the next rank has transferred and acknowledged
      that one. */
  lemma NoEarlyOverwrite(cfg: Config, bs: seq<Bucket>, s: State, a: Action, r: nat)
    requires ValidConfig(cfg, bs) && Tellable(cfg, bs) && Reachable(cfg, s) && WellFormed(cfg, s) && Enabled(cfg, s, a)
    requires r < cfg.rollouts && Refills(a, r)
    ensures s.nodes[r + 1].k > s.nodes[r].k - 2
  {
    hide Inv;
    ReachableInv(cfg, bs, s);
    At(cfg, bs, s, r);
    RefillLink(bs, s.nodes[r], s.queues[r], s.nodes[r + 1]);
  }

  /** From its announcement until its acknowledgement a bucket stays intact in the buffer it is read from. */
  lemma AnnouncedStaysExact(cfg: Config, bs: seq<Bucket>, s: State, r: nat)
    requires ValidConfig(cfg, bs) && Tellable(cfg, bs) && Reachable(cfg, s) && r < cfg.rollouts
    requires WellFormed(cfg, s) && s.nodes[r + 1].k < SentOf(s.nodes[r])
    ensures var (k, buf) := (s.nodes[r + 1].k, s.nodes[r].Buf(HalfOf(s.nodes[r + 1].k)));
      k < |bs| && Size(bs[k]) <= |buf| && buf[..Size(bs[k])] == PayloadOf(bs[k])
  {
    hide Inv, PayloadOf, HalfOf;
    ReachableInv(cfg, bs, s);
    At(cfg, bs, s, r);
    SourceExact(bs, s.nodes[r], s.queues[r], s.nodes[r + 1]);
    Good(cfg, bs, s.nodes[r + 1].k);
  }

  lemma SentLink(bs: seq<Bucket>, up: Node, q: seq<Info>, down: Node)
    requires LinkOk(bs)(up, q, down) && up.pc == Sent && FilledOf(up) == |bs|
    ensures bs != [] && down.k >= |bs| - 2 && (!LooksAcked(bs[|bs| - 1]) ==> down.k == |bs|)
  {
  }

  /** The sender can return before rank 1 has acknowledged the last bucket. */
  ghost predicate MayReturnEarly(cfg: Config, bs: seq<Bucket>)
    requires bs != []
  {
    LooksAcked(bs[|bs| - 1]) && |bs| - 2 <= LegalBuckets(cfg, bs)
  }

  /** The sender returns only after rank 1 has acknowledged every bucket. */
  lemma SenderReturnsLast(cfg: Config, bs: seq<Bucket>, s: State)
    requires ValidConfig(cfg, bs) && Tellable(cfg, bs) && Reachable(cfg, s) && WellFormed(cfg, s) && s.nodes[0].pc == Sent
    ensures bs != [] && (!MayReturnEarly(cfg, bs) ==> s.nodes[1].k == |bs|)
  {
    hide Inv, LinkOk, NodeOk, ValidConfig;
    ReachableInv(cfg, bs, s);
    At(cfg, bs, s, 0);
    At(cfg, bs, s, 1);
    SentAll(cfg, bs, s.nodes[0]);
    BoundOf(cfg, bs, 1, s.nodes[1]);
    SentLink(bs, s.nodes[0], s.queues[0], s.nodes[1]);
  }

  lemma SentAll(cfg: Config, bs: seq<Bucket>, n: Node)
    requires NodeOk(cfg, bs)(0, n) && n.pc == Sent
    ensures FilledOf(n) == |bs|
  {
  }

  // ---------- Delivery ----------

  lemma EntriesArePrefix(bs: seq<Bucket>, full: nat, part: nat)
    requires full <= |bs| && (part > 0 ==> full < |bs| && part <= |bs[full]|)
    ensures EntriesUpTo(bs, full, part) <= Flatten(bs)
  {
    FlattenPrefix(bs, full);
    if part > 0 {
      FlattenPrefix(bs, full + 1);
      assert bs[..full + 1] == bs[..full] + [bs[full]];
      FlattenSnoc(bs[..full], bs[full]);
    }
  }

  lemma OutOfNode(cfg: Config, bs: seq<Bucket>, r: nat, n: Node)
    requires r > 0 && NodeOk(cfg, bs)(r, n)
    ensures |n.out| <= |Flatten(bs)| && Delivered(Stampable(cfg, bs, r), n.out, Flatten(bs)[..|n.out|])
    ensures n.pc == Done ==> |n.out| == |Flatten(bs)| && LegalBuckets(cfg, bs) == |bs|
  {
    hide Stampable, LegalAt, LegalBuckets;
    var part := if n.pc.Yielding? then n.pc.next else 0;
    EntriesArePrefix(bs, n.k, part);
    assert n.pc == Done ==> bs[..n.k] == bs;
    assert EntriesUpTo(bs, n.k, part) == Flatten(bs)[..|n.out|];
  }

  lemma LaterEntriesExact(e: Entry)
    requires e.offset >= 4 && e.chunk.start == 0
    ensures StampedChunk(e) == e.chunk
  {
  }

  /** What a rank yields: the weights in order, where a rank that has a successor may find the successor's
      acknowledgement in the first four bytes of a bucket; so only weights that begin there can be damaged. */
  lemma YieldsWeightsOrStamped(cfg: Config, bs: seq<Bucket>, s: State, r: nat, j: nat)
    requires ValidConfig(cfg, bs) && Tellable(cfg, bs) && Reachable(cfg, s)
    requires 0 < r < |s.nodes| && j < |s.nodes[r].out|
    ensures j < |cfg.chunks| == |Flatten(bs)| && Flatten(bs)[j].chunk == cfg.chunks[j]
    ensures var x, e := s.nodes[r].out[j], Flatten(bs)[j];
      && (x == e.chunk || (r < cfg.rollouts && j < Stampable(cfg, bs, r) && x == StampedChunk(e)))
      && (e.offset >= 4 ==> x == cfg.chunks[j])
  {
    hide Inv, NodeOk, StampedChunk, LegalBuckets;
    ReachableInv(cfg, bs, s);
    At(cfg, bs, s, r);
    OutOfNode(cfg, bs, r, s.nodes[r]);
    BucketsHoldAll(cfg, bs);
    assert ChunksOf(Flatten(bs))[j] == cfg.chunks[j] && cfg.chunks[j] in cfg.chunks;
    if Flatten(bs)[j].offset >= 4 { LaterEntriesExact(Flatten(bs)[j]); }
  }

  /** The last rank yields exactly the weights. */
  lemma LastRankIsExact(cfg: Config, bs: seq<Bucket>, s: State)
    requires ValidConfig(cfg, bs) && Tellable(cfg, bs) && Reachable(cfg, s) && WellFormed(cfg, s)
    ensures var n := s.nodes[cfg.rollouts];
      n.out <= cfg.chunks && (n.pc == Done ==> n.out == cfg.chunks)
  {
    hide Inv, NodeOk;
    var n := s.nodes[cfg.rollouts];
    ReachableInv(cfg, bs, s);
    At(cfg, bs, s, cfg.rollouts);
    OutOfNode(cfg, bs, cfg.rollouts, n);
    BucketsHoldAll(cfg, bs);
  }

  /** Every rank yields a beginning of the weights, in every run. */
  ghost predicate DeliversExactly(cfg: Config) {
    forall s, r | Reachable(cfg, s) && 0 < r < |s.nodes| :: s.nodes[r].out <= cfg.chunks
  }

  /** In a bucket that starts with the magic word, acknowledgements change nothing. */
  lemma StampChangesNothing(b: Bucket, i: nat)
    requires Whole(b) && |PayloadOf(b)| >= 4 && LooksAcked(b) && i < |b| && b[i].chunk.start == 0
    ensures StampedChunk(b[i]) == b[i].chunk
  {
    hide PayloadOf;
    var p, e := PayloadOf(b), b[i];
    PayloadAt(b, i);
    assert Stamped(p) == p;
    StampedSlice(p, e);
  }

  lemma {:induction false} InSomeBucket<T>(ss: seq<seq<T>>, j: nat) returns (k: nat, i: nat)
    requires j < |Flatten(ss)|
    ensures k < |ss| && i < |ss[k]| && ss[k][i] == Flatten(ss)[j]
  {
    if j < |ss[0]| {
      k, i := 0, j;
    } else {
      k, i := InSomeBucket(ss[1..], j - |ss[0]|);
      k := k + 1;
    }
  }

  lemma HarmlessStamps(cfg: Config, bs: seq<Bucket>, s: State, r: nat)
    requires ValidConfig(cfg, bs) && Tellable(cfg, bs) && Reachable(cfg, s) && 0 < r < |s.nodes|
    requires cfg.rollouts == 1 || forall k :: 0 <= k < LegalBuckets(cfg, bs) ==> LooksAcked(bs[k])
    ensures s.nodes[r].out <= cfg.chunks
  {
    hide Reachable, StampedChunk, LooksAcked, Flatten, PackFrom, BucketLegal;
    var out := s.nodes[r].out;
    ReachableInv(cfg, bs, s);
    forall j: nat | j < |out| ensures j < |cfg.chunks| && out[j] == cfg.chunks[j] {
      YieldsWeightsOrStamped(cfg, bs, s, r, j);
      if cfg.rollouts > 1 && out[j] != Flatten(bs)[j].chunk {
        var front := bs[..LegalBuckets(cfg, bs)];
        var k, i := InSomeBucket(front, j);
        FlattenPrefix(bs, |front|);
        Good(cfg, bs, k);
        StartsAtZero(cfg, bs, k, i);
        StampChangesNothing(bs[k], i);
      }
    }
    if out != [] { YieldsWeightsOrStamped(cfg, bs, s, r, |out| - 1); }
  }
}
