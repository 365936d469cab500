// Every broadcast run delivers the sender's weights to every receiver, and never overwrites a buffer too early.
module NcclSafety {
  import opened Common
  import opened WeightChunks
  import opened BucketPacking
  import opened NixlRelay
  import opened NixlSafety
  import opened NixlDelivery
  import opened NcclBroadcast

  lemma BInitInv(cfg: Config, bs: seq<Bucket>, s: BState)
    requires ValidConfig(cfg, bs) && BInit(cfg, s)
    ensures BInv(cfg, bs, s)
  {
    assert bs[0..] == bs && bs[..0] == [];
    var P := PeerOk(cfg, bs, s.net);
    forall i | 0 <= i < |s.peers| ensures P(s.peers[i]) {
      assert s.peers[i] in s.peers;
    }
    EveryIff(s.peers, P);
  }

  /** A growing network changes nothing for a peer. */
  ghost predicate Extends(net: Net, net': Net) {
    net.log <= net'.log && net.wire <= net'.wire
  }

  lemma PeersKept(cfg: Config, bs: seq<Bucket>, net: Net, net': Net, peers: seq<Peer>)
    requires Extends(net, net') && Every(peers, PeerOk(cfg, bs, net))
    ensures Every(peers, PeerOk(cfg, bs, net'))
  {
    var P, Q := PeerOk(cfg, bs, net), PeerOk(cfg, bs, net');
    forall p | P(p) ensures Q(p) {
      assert PeerInv(cfg, bs, net, p);
      assert p.installed < |net.wire| ==> net'.wire[p.installed] == net.wire[p.installed];
    }
    EveryImplies(peers, P, Q);
  }

  // ---------- The root and the network ----------

  /** The root's own actions leave the outstanding broadcast, if any, where it was. */
  lemma PackRoot(cfg: Config, bs: seq<Bucket>, n: Node, net: Net)
    requires RootInv(cfg, bs, n, net) && n.pc == Packing && !n.MustFlush(cfg.bucketSize)
    requires |n.todo[0].data| == n.todo[0].meta.chunkSize
    ensures Size(n.open) + |n.todo[0].data| <= |n.Buf(n.front)| && RootInv(cfg, bs, n.Packed(), net)
  {
    PackChunkNode(cfg, bs, n);
  }

  lemma AwaitRoot(cfg: Config, bs: seq<Bucket>, n: Node, net: Net)
    requires RootInv(cfg, bs, n, net) && n.pc == Packing && n.MustFlush(cfg.bucketSize) && |net.wire| == |net.log|
    ensures RootInv(cfg, bs, n.Flushed(), net)
  {
    FlushNode(cfg, bs, n);
  }

  lemma BroadcastRoot(cfg: Config, bs: seq<Bucket>, n: Node, net: Net)
    requires RootInv(cfg, bs, n, net) && LogInv(bs, net.log) && n.pc == Flushing
    ensures var log' := net.log + [n.BucketMessage().meta];
      RootInv(cfg, bs, n.Published(), net.(log := log')) && LogInv(bs, log')
  {
    PublishNode(cfg, bs, n);
  }

  lemma FinalRoot(cfg: Config, bs: seq<Bucket>, n: Node, net: Net)
    requires RootInv(cfg, bs, n, net) && n.pc == AwaitLast && |net.wire| == |net.log|
    ensures RootInv(cfg, bs, n.Finished(), net)
  {
  }

  lemma LeavingRoot(cfg: Config, bs: seq<Bucket>, n: Node, net: Net, i: nat)
    requires RootInv(cfg, bs, n, net) && |net.wire| < |net.log| && i < cfg.bucketSize
    ensures RootInv(cfg, bs, n, net.(image := net.image[i := n.Buf(SrcSide(n))[i]], sent := net.sent + {i}))
  {
  }

  lemma LeftRoot(cfg: Config, bs: seq<Bucket>, n: Node, net: Net)
    requires RootInv(cfg, bs, n, net) && WireInv(cfg, bs, net.wire) && LogInv(bs, net.log)
    requires |net.wire| < |net.log| && forall i :: 0 <= i < cfg.bucketSize ==> i in net.sent
    ensures RootInv(cfg, bs, n, net.(wire := net.wire + [net.image], sent := {}))
    ensures WireInv(cfg, bs, net.wire + [net.image])
  {
    assert net.image == n.Buf(SrcSide(n));
    assert |net.wire| == n.published - 1;
  }

  lemma RootStep(cfg: Config, bs: seq<Bucket>, rendezvous: bool, s: BState, a: BAction)
    requires BInv(cfg, bs, s) && Sizes(cfg, s) && BEnabled(cfg, rendezvous, s, a)
    requires a.Pack? || a.AwaitPrevious? || a.Broadcast? || a.AwaitFinal? || a.ByteLeaves? || a.PayloadLeft?
    ensures BInv(cfg, bs, BApply(cfg, rendezvous, s, a))
  {
    PeersKept(cfg, bs, s.net, BApply(cfg, rendezvous, s, a).net, s.peers);
    match a
    case Pack => PackRoot(cfg, bs, s.root, s.net);
    case AwaitPrevious => AwaitRoot(cfg, bs, s.root, s.net);
    case Broadcast => BroadcastRoot(cfg, bs, s.root, s.net);
    case AwaitFinal => FinalRoot(cfg, bs, s.root, s.net);
    case ByteLeaves(i) => LeavingRoot(cfg, bs, s.root, s.net, i);
    case PayloadLeft => LeftRoot(cfg, bs, s.root, s.net);
  }

  // ---------- One receiver ----------

  lemma StartPeer(cfg: Config, bs: seq<Bucket>, net: Net, p: Peer)
    requires PeerOk(cfg, bs, net)(p) && p.pc == Starting
    ensures PeerInv(cfg, bs, net, p.Started())
  {
  }

  lemma ArrivePeer(cfg: Config, bs: seq<Bucket>, net: Net, p: Peer, i: nat)
    requires WireInv(cfg, bs, net.wire) && PeerOk(cfg, bs, net)(p)
    requires p.op.Some? && !p.op.value.done && p.installed < |net.wire| && i < cfg.bucketSize
    ensures |net.wire[p.installed]| == cfg.bucketSize == |p.Buf(Other(p.front))|
    ensures PeerInv(cfg, bs, net, p.Arrived(net.wire[p.installed], i))
  {
    assert p.Arrived(net.wire[p.installed], i).Buf(p.front) == p.Buf(p.front);
  }

  lemma ReceivedPeer(cfg: Config, bs: seq<Bucket>, net: Net, p: Peer)
    requires WireInv(cfg, bs, net.wire) && |net.wire| <= |net.log| && PeerOk(cfg, bs, net)(p)
    requires p.op.Some? && !p.op.value.done && p.installed < |net.wire|
    requires forall i :: 0 <= i < cfg.bucketSize ==> i in p.op.value.arrived
    ensures PeerInv(cfg, bs, net, p.Received())
  {
    assert p.Buf(Other(p.front)) == net.wire[p.installed];
  }

  /** The slice a receiver yields is the chunk the sender packed. */
  lemma PeerReads(cfg: Config, bs: seq<Bucket>, net: Net, p: Peer, i: nat)
    requires ValidConfig(cfg, bs) && PeerOk(cfg, bs, net)(p) && p.pc.Serving? && i < |p.held.slots|
    ensures 0 < p.installed <= |bs| && i < |bs[p.installed - 1]| == |p.held.slots|
    ensures ReadSlot(p.Buf(p.front), p.held.slots[i]) == bs[p.installed - 1][i].Landed()
  {
    var b := bs[p.installed - 1];
    assert b in bs && HoldsEntry(p.Buf(p.front), b[i]) && Sized(ChunksOf(b)[i], cfg.bucketSize);
  }

  lemma YieldPeer(cfg: Config, bs: seq<Bucket>, net: Net, p: Peer)
    requires ValidConfig(cfg, bs) && PeerOk(cfg, bs, net)(p) && p.pc.Serving? && p.pc.next < |p.held.slots|
    ensures PeerInv(cfg, bs, net, p.Yielded())
  {
    PeerReads(cfg, bs, net, p, p.pc.next);
    YieldedOneMore(bs, p.installed - 1, p.pc.next);
  }

  lemma ServedPeer(cfg: Config, bs: seq<Bucket>, net: Net, p: Peer)
    requires PeerOk(cfg, bs, net)(p) && p.pc.Serving? && p.pc.next == |p.held.slots|
    ensures PeerInv(cfg, bs, net, p.Served())
  {
    YieldedWhole(bs, p.installed - 1);
  }

  lemma SwapPeer(cfg: Config, bs: seq<Bucket>, net: Net, p: Peer)
    requires LogInv(bs, net.log) && PeerOk(cfg, bs, net)(p)
    requires p.pc == Awaiting && p.op.Some? && p.op.value.done && p.installed < |net.log|
    ensures PeerInv(cfg, bs, net, p.Installed(net.log[p.installed]))
  {
  }

  lemma PeerStep(cfg: Config, bs: seq<Bucket>, rendezvous: bool, s: BState, a: BAction)
    requires ValidConfig(cfg, bs) && BInv(cfg, bs, s) && Sizes(cfg, s) && BEnabled(cfg, rendezvous, s, a)
    requires !(a.Pack? || a.AwaitPrevious? || a.Broadcast? || a.AwaitFinal? || a.ByteLeaves? || a.PayloadLeft?)
    ensures BInv(cfg, bs, BApply(cfg, rendezvous, s, a))
  {
    var P := PeerOk(cfg, bs, s.net);
    EveryAt(s.peers, P, a.r);
    var p, p' := s.peers[a.r], BApply(cfg, rendezvous, s, a).peers[a.r];
    assert P(p') by {
      match a
      case StartReceive(_) => StartPeer(cfg, bs, s.net, p);
      case ByteArrives(_, i) => ArrivePeer(cfg, bs, s.net, p, i);
      case ReceiveDone(_) => ReceivedPeer(cfg, bs, s.net, p);
      case YieldTo(_) => YieldPeer(cfg, bs, s.net, p);
      case EndYield(_) => ServedPeer(cfg, bs, s.net, p);
      case Swap(_) => SwapPeer(cfg, bs, s.net, p);
    }
    EveryChange(s.peers, P, a.r, p');
  }

  lemma BStepInv(cfg: Config, bs: seq<Bucket>, rendezvous: bool, s: BState, a: BAction)
    requires ValidConfig(cfg, bs) && BInv(cfg, bs, s) && Sizes(cfg, s) && BEnabled(cfg, rendezvous, s, a)
    ensures BInv(cfg, bs, BApply(cfg, rendezvous, s, a))
  {
    if a.Pack? || a.AwaitPrevious? || a.Broadcast? || a.AwaitFinal? || a.ByteLeaves? || a.PayloadLeft? {
      RootStep(cfg, bs, rendezvous, s, a);
    } else {
      PeerStep(cfg, bs, rendezvous, s, a);
    }
  }

  lemma {:induction false} BRunInv(cfg: Config, bs: seq<Bucket>, rendezvous: bool, run: seq<BState>)
    requires ValidConfig(cfg, bs) && IsBRun(cfg, rendezvous, run)
    ensures BInv(cfg, bs, run[|run| - 1])
    decreases |run|
  {
    var last := |run| - 1;
    if last == 0 {
      BInitInv(cfg, bs, run[0]);
    } else {
      var s := run[..last][last - 1];
      BRunInv(cfg, bs, rendezvous, run[..last]);
      var a :| BEnabled(cfg, rendezvous, s, a) && run[last] == BApply(cfg, rendezvous, s, a);
      BStepInv(cfg, bs, rendezvous, s, a);
    }
  }
}
