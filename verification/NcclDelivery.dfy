// What the broadcast transport promises, for every run, with or without a rendezvous at each broadcast.
module NcclDelivery {
  import opened Common
  import opened WeightChunks
  import opened BucketPacking
  import opened ViewAlignment
  import opened NixlRelay
  import opened NixlSafety
  import opened NixlDelivery
  import opened NcclBroadcast
  import opened NcclSafety

  ghost predicate BReachable(cfg: Config, rendezvous: bool, s: BState) {
    exists run :: IsBRun(cfg, rendezvous, run) && run[|run| - 1] == s
  }

  lemma BReachableInv(cfg: Config, bs: seq<Bucket>, rendezvous: bool, s: BState)
    requires ValidConfig(cfg, bs) && BReachable(cfg, rendezvous, s)
    ensures BInv(cfg, bs, s)
  {
    var run :| IsBRun(cfg, rendezvous, run) && run[|run| - 1] == s;
    BRunInv(cfg, bs, rendezvous, run);
  }

  lemma BSizes(cfg: Config, bs: seq<Bucket>, s: BState)
    requires BInv(cfg, bs, s)
    ensures Sizes(cfg, s)
  {
    var P := PeerOk(cfg, bs, s.net);
    forall p | p in s.peers ensures |p.bufA| == |p.bufB| == cfg.bucketSize {
      var i: nat :| i < |s.peers| && s.peers[i] == p;
      EveryAt(s.peers, P, i);
    }
  }

  lemma WireCarries(cfg: Config, bs: seq<Bucket>, wire: seq<seq<byte>>, k: nat)
    requires ValidConfig(cfg, bs) && WireInv(cfg, bs, wire) && k < |wire|
    ensures ReadBucket(wire[k], SlotsOf(bs[k])) == LandedOf(bs[k])
  {
    assert bs[k] in bs;
    SizedIsTrue(bs[k], cfg.bucketSize);
    ReadHeld(wire[k], bs[k]);
  }

  /** The k-th broadcast carries the k-th packed bucket, in its metadata and in its bytes. */
  lemma BroadcastsCarryBuckets(cfg: Config, bs: seq<Bucket>, rendezvous: bool, s: BState, k: nat)
    requires ValidConfig(cfg, bs) && BReachable(cfg, rendezvous, s)
    ensures k < |s.net.log| ==> k < |bs| && s.net.log[k] == MetaOf(bs, k)
    ensures k < |s.net.wire| ==> k < |bs| && ReadBucket(s.net.wire[k], SlotsOf(bs[k])) == LandedOf(bs[k])
  {
    BReachableInv(cfg, bs, rendezvous, s);
    if k < |s.net.wire| { WireCarries(cfg, bs, s.net.wire, k); }
  }

  /** The root packs only into a buffer whose broadcast is over: no byte of it has still to leave. */
  lemma RootNeverOverwrites(cfg: Config, bs: seq<Bucket>, rendezvous: bool, s: BState)
    requires ValidConfig(cfg, bs) && BReachable(cfg, rendezvous, s) && BEnabled(cfg, rendezvous, s, Pack)
    ensures |s.net.wire| < |s.net.log| ==> SrcSide(s.root) != s.root.front
    ensures |s.net.log| <= |s.net.wire| + 1
  {
    BReachableInv(cfg, bs, rendezvous, s);
  }

  /** Bytes arrive only in a buffer from which nothing is being yielded. */
  lemma PeerNeverOverwrites(cfg: Config, bs: seq<Bucket>, rendezvous: bool, s: BState, r: nat, i: nat)
    requires ValidConfig(cfg, bs) && BReachable(cfg, rendezvous, s) && BEnabled(cfg, rendezvous, s, ByteArrives(r, i))
    ensures i < cfg.bucketSize == |s.peers[r].Buf(Other(s.peers[r].front))|
    ensures Sizes(cfg, s) && s.peers[r].installed < |s.net.wire|
    ensures var p' := BApply(cfg, rendezvous, s, ByteArrives(r, i)).peers[r];
      p'.Buf(p'.front) == s.peers[r].Buf(s.peers[r].front)
  {
    BReachableInv(cfg, bs, rendezvous, s);
    BSizes(cfg, bs, s);
    assert s.peers[r] in s.peers;
  }

  lemma PeerOutIsPrefix(cfg: Config, bs: seq<Bucket>, net: Net, p: Peer)
    requires PeerOk(cfg, bs, net)(p)
    ensures p.out <= LandedOf(Flatten(bs))
    ensures p.pc == Finished ==> p.out == LandedOf(Flatten(bs))
  {
    match p.pc
    case Starting => YieldedIsPrefix(bs, if p.installed == 0 then 0 else p.installed - 1, 0);
    case Serving(i) => YieldedIsPrefix(bs, p.installed - 1, i);
    case Awaiting => YieldedIsPrefix(bs, p.installed, 0);
    case Finished => assert bs[..|bs|] == bs;
  }

  /** The same promise as the relay chain's: beginnings of the sender's chunk list, and in the end all of it. */
  lemma PeersYieldSenderChunks(cfg: Config, bs: seq<Bucket>, rendezvous: bool, s: BState, r: nat)
    requires ValidConfig(cfg, bs) && ChunksOf(Flatten(bs)) == cfg.chunks
    requires BReachable(cfg, rendezvous, s) && r < |s.peers|
    ensures Moved(cfg.chunks, LandedOf(Flatten(bs))) && s.peers[r].out <= LandedOf(Flatten(bs))
    ensures s.peers[r].pc == Finished ==> s.peers[r].out == LandedOf(Flatten(bs))
  {
    hide BInv, ValidConfig, BReachable;
    BReachableInv(cfg, bs, rendezvous, s);
    assert PeerOk(cfg, bs, s.net)(s.peers[r]) by { PeerAt(cfg, bs, s, r); }
    PeerOutIsPrefix(cfg, bs, s.net, s.peers[r]);
    LandedIsMoved(Flatten(bs));
  }

  lemma PeerAt(cfg: Config, bs: seq<Bucket>, s: BState, r: nat)
    requires BInv(cfg, bs, s) && r < |s.peers|
    ensures PeerOk(cfg, bs, s.net)(s.peers[r]) && LogInv(bs, s.net.log)
  {
    EveryAt(s.peers, PeerOk(cfg, bs, s.net), r);
  }

  /** No receiver has yielded a chunk on which its merger failed. */
  ghost predicate PeersConsumed(cfg: Config, s: BState) {
    forall p <- s.peers :: Consumed(p.out, cfg.bucketSize)
  }

  lemma OtherPeersStay(cfg: Config, rendezvous: bool, s: BState, a: BAction)
    requires Sizes(cfg, s) && BEnabled(cfg, rendezvous, s, a)
    ensures var s' := BApply(cfg, rendezvous, s, a);
      && |s'.peers| == |s.peers|
      && forall r :: 0 <= r < |s.peers| ==> s'.peers[r].out == s.peers[r].out || Consumed(s'.peers[r].out, cfg.bucketSize)
  {
    hide Consumed, Size, Overwrite;
  }

  lemma {:induction false} BRunConsumes(cfg: Config, rendezvous: bool, run: seq<BState>)
    requires IsBRun(cfg, rendezvous, run)
    ensures PeersConsumed(cfg, run[|run| - 1])
    decreases |run|
  {
    hide BApply, BEnabled, Sizes;
    var last := |run| - 1;
    var s' := run[last];
    if last == 0 {
      assert forall p <- s'.peers :: FreshPeer(p) && Consumed([], cfg.bucketSize);
    } else {
      hide Consumed;
      var s := run[..last][last - 1];
      BRunConsumes(cfg, rendezvous, run[..last]);
      var a :| BEnabled(cfg, rendezvous, s, a) && s' == BApply(cfg, rendezvous, s, a);
      OtherPeersStay(cfg, rendezvous, s, a);
      forall p | p in s'.peers ensures Consumed(p.out, cfg.bucketSize) {
        var r :| 0 <= r < |s'.peers| && s'.peers[r] == p;
        assert s.peers[r] in s.peers;
      }
    }
  }

  /** End to end for the broadcast transport: a receiver that has finished has rebuilt the weights, and it finishes only
      if every weight that fits into a bucket starts at a multiple of its item size. */
  lemma EveryPeerGetsTheWeights(ws: seq<Weight>, cfg: Config, rendezvous: bool, s: BState, r: nat, junk: byte)
    requires Sendable(ws, cfg) && BReachable(cfg, rendezvous, s) && r < |s.peers| && s.peers[r].pc == Finished
    ensures StartsFit(ws, 0, cfg.bucketSize)
    ensures Merge(s.peers[r].out, cfg.bucketSize, junk) == Ok(NonEmpty(ws))
    ensures Merge(s.peers[r].out, cfg.bucketSize, junk) == Ok(ws) <==> forall w <- ws :: w.data != []
  {
    hide StartsFit, Split, PackFrom, MergeFrom;
    SplitIsValid(ws, cfg.bucketSize, cfg.rollouts);
    PeersYieldSenderChunks(cfg, BucketPacking.Pack(cfg.chunks, cfg.bucketSize), rendezvous, s, r);
    var run :| IsBRun(cfg, rendezvous, run) && run[|run| - 1] == s;
    BRunConsumes(cfg, rendezvous, run);
    assert s.peers[r] in s.peers && s.peers[r].out == Received(ws, cfg.bucketSize);
    MergeReceived(ws, cfg.bucketSize, 0);
    MergeReceived(ws, cfg.bucketSize, junk);
  }

  // ---------- Deadlock freedom ----------

  /** A receiver that can do nothing has finished or waits for a payload that has not left the root. */
  ghost predicate Idle(bs: seq<Bucket>, net: Net, p: Peer) {
    || (p.pc == Finished && p.installed == |bs|)
    || (p.pc == Awaiting && p.op.Some? && |net.wire| <= p.installed < |bs|)
  }

  lemma ServeIsConsumed(cfg: Config, bs: seq<Bucket>, net: Net, p: Peer)
    requires ValidConfig(cfg, bs) && Receivable(cfg, bs)
    requires PeerOk(cfg, bs, net)(p) && p.pc.Serving? && p.pc.next < |p.held.slots|
    ensures Consumed(p.Yielded().out, cfg.bucketSize)
  {
    hide Consumed;
    YieldPeer(cfg, bs, net, p);
    PeerOutIsPrefix(cfg, bs, net, p.Yielded());
    ConsumedPrefix(p.Yielded().out, LandedOf(Flatten(bs)), cfg.bucketSize);
  }

  lemma PeerActsOrIdles(cfg: Config, bs: seq<Bucket>, s: BState, r: nat)
    requires ValidConfig(cfg, bs) && Receivable(cfg, bs) && r < |s.peers| && PeerOk(cfg, bs, s.net)(s.peers[r])
    ensures Idle(bs, s.net, s.peers[r]) || exists a :: BEnabled(cfg, true, s, a) && BEnabled(cfg, false, s, a)
  {
    hide Receivable, ValidConfig, Consumed;
    var p := s.peers[r];
    match p.pc
    case Starting => assert BEnabled(cfg, true, s, StartReceive(r)) && BEnabled(cfg, false, s, StartReceive(r));
    case Serving(i) =>
      if i < |p.held.slots| {
        ServeIsConsumed(cfg, bs, s.net, p);
        assert BEnabled(cfg, true, s, YieldTo(r)) && BEnabled(cfg, false, s, YieldTo(r));
      } else {
        assert BEnabled(cfg, true, s, EndYield(r)) && BEnabled(cfg, false, s, EndYield(r));
      }
    case Awaiting =>
      if p.op.value.done {
        assert BEnabled(cfg, true, s, Swap(r)) && BEnabled(cfg, false, s, Swap(r));
      } else if p.installed < |s.net.wire| {
        if i :| 0 <= i < cfg.bucketSize && i !in p.op.value.arrived {
          assert BEnabled(cfg, true, s, ByteArrives(r, i)) && BEnabled(cfg, false, s, ByteArrives(r, i));
        } else {
          assert BEnabled(cfg, true, s, ReceiveDone(r)) && BEnabled(cfg, false, s, ReceiveDone(r));
        }
      }
    case Finished =>
  }

  /** With all receivers idle, the root or its broadcast can go on. */
  lemma RootGoesOn(cfg: Config, bs: seq<Bucket>, rendezvous: bool, s: BState)
    requires ValidConfig(cfg, bs) && RootInv(cfg, bs, s.root, s.net) && LogInv(bs, s.net.log)
    requires forall p <- s.peers :: Idle(bs, s.net, p)
    requires s.root.pc != Done
    ensures exists a :: BEnabled(cfg, rendezvous, s, a)
  {
    var n := s.root;
    if |s.net.wire| < |s.net.log| {
      BroadcastGoesOn(cfg, bs, rendezvous, s);
    } else if n.pc == Packing && !n.MustFlush(cfg.bucketSize) {
      NextChunkFits(cfg, bs, n);
      assert BEnabled(cfg, rendezvous, s, Pack);
    } else if n.pc == Packing {
      assert BEnabled(cfg, rendezvous, s, AwaitPrevious);
    } else if n.pc == Flushing {
      assert BEnabled(cfg, rendezvous, s, Broadcast);
    } else {
      assert BEnabled(cfg, rendezvous, s, AwaitFinal);
    }
  }

  lemma BroadcastGoesOn(cfg: Config, bs: seq<Bucket>, rendezvous: bool, s: BState)
    requires LogInv(bs, s.net.log) && |s.net.wire| < |s.net.log| && forall p <- s.peers :: Idle(bs, s.net, p)
    ensures exists a :: BEnabled(cfg, rendezvous, s, a)
  {
    if i :| 0 <= i < cfg.bucketSize && i !in s.net.sent {
      assert BEnabled(cfg, rendezvous, s, ByteLeaves(i));
    } else {
      assert BEnabled(cfg, rendezvous, s, PayloadLeft);
    }
  }

  /** In every reachable state some action is enabled until the root and all receivers are done. */
  lemma BroadcastNeverDeadlocks(cfg: Config, bs: seq<Bucket>, rendezvous: bool, s: BState)
    requires ValidConfig(cfg, bs) && Receivable(cfg, bs) && BReachable(cfg, rendezvous, s)
    ensures (s.root.pc == Done && forall p <- s.peers :: p.pc == Finished) || exists a :: BEnabled(cfg, rendezvous, s, a)
  {
    BReachableInv(cfg, bs, rendezvous, s);
    if p :| p in s.peers && !Idle(bs, s.net, p) {
      var r: nat :| r < |s.peers| && s.peers[r] == p;
      EveryAt(s.peers, PeerOk(cfg, bs, s.net), r);
      PeerActsOrIdles(cfg, bs, s, r);
    } else if s.root.pc != Done {
      RootGoesOn(cfg, bs, rendezvous, s);
    } else if |s.net.wire| < |s.net.log| {
      BroadcastGoesOn(cfg, bs, rendezvous, s);
    }
  }
}
