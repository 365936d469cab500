// The NCCL transport: rank 0 packs buckets as in the relay chain but broadcasts them, and every other
// rank receives the k-th broadcast into its back buffer while it yields bucket k-1 from its front
// buffer (nccl_checkpoint_engine.py).
//
// A broadcast is not atomic. The root's bytes leave its buffer one by one, and once all have left,
// they arrive at every receiver one by one; metadata is published when the root starts a broadcast.
module NcclBroadcast {
  import opened Common
  import opened WeightChunks
  import opened BucketPacking
  import opened NixlRelay
  import opened NixlSafety
  import opened NixlDelivery

  /** What the network knows: metadata published so far, payloads that left the root, and the payload that is
      leaving it (`sent` are the byte positions that have left). */
  datatype Net = Net(log: seq<Meta>, wire: seq<seq<byte>>, image: seq<byte>, sent: set<nat>)

  /** A receiver's broadcast operation. */
  datatype Op = Op(arrived: set<nat>, done: bool)

  datatype PeerPc = Starting | Serving(next: nat) | Awaiting | Finished

  datatype Peer = Peer(pc: PeerPc, bufA: seq<byte>, bufB: seq<byte>, front: Side, op: Option<Op>, held: Meta,
                       out: seq<Chunk>, installed: nat)
  {
    function Buf(side: Side): seq<byte> {
      if side == A then bufA else bufB
    }

    function Write(side: Side, image: seq<byte>): Peer {
      if side == A then this.(bufA := image) else this.(bufB := image)
    }

    /** Starts to receive the next bucket into the back buffer. */
    function Started(): Peer {
      this.(pc := if installed == 0 then Awaiting else Serving(0), op := Some(Op({}, false)))
    }

    function Arrived(payload: seq<byte>, i: nat): Peer
      requires op.Some? && i < |payload| && i < |Buf(Other(front))|
    {
      var back := Other(front);
      Write(back, Buf(back)[i := payload[i]]).(op := Some(op.value.(arrived := op.value.arrived + {i})))
    }

    function Received(): Peer
      requires op.Some?
    {
      this.(op := Some(op.value.(done := true)))
    }

    function Yielded(): Peer
      requires pc.Serving? && pc.next < |held.slots|
    {
      this.(pc := Serving(pc.next + 1), out := out + [ReadSlot(Buf(front), held.slots[pc.next])])
    }

    function Served(): Peer {
      this.(pc := if held.isLast then Finished else Awaiting)
    }

    /** Swaps the buffers; the last bucket is yielded without starting another broadcast. */
    function Installed(m: Meta): Peer {
      this.(pc := if m.isLast then Serving(0) else Starting, front := Other(front), held := m, op := None,
            installed := installed + 1)
    }
  }

  datatype BState = BState(root: Node, net: Net, peers: seq<Peer>) {
    function Root(n: Node): BState {
      this.(root := n)
    }

    function At(r: nat, p: Peer): BState
      requires r < |peers|
    {
      this.(peers := peers[r := p])
    }
  }

  datatype BAction =
    | Pack | AwaitPrevious | Broadcast | AwaitFinal | ByteLeaves(i: nat) | PayloadLeft
    | StartReceive(r: nat) | ByteArrives(r: nat, i: nat) | ReceiveDone(r: nat)
    | YieldTo(r: nat) | EndYield(r: nat) | Swap(r: nat)

  predicate Sizes(cfg: Config, s: BState) {
    && |s.root.bufA| == |s.root.bufB| == |s.net.image| == cfg.bucketSize
    && (forall p <- s.peers :: |p.bufA| == |p.bufB| == cfg.bucketSize)
    && (forall w <- s.net.wire :: |w| == cfg.bucketSize)
    && |s.net.wire| <= |s.net.log|
  }

  /** The receivers that take part in the broadcast that is leaving the root. */
  predicate Joined(s: BState, p: Peer) {
    p.installed + (if p.op.Some? then 1 else 0) > |s.net.wire|
  }

  predicate PeerEnabled(cfg: Config, net: Net, p: Peer, a: BAction) {
    match a
    case StartReceive(_) => p.pc == Starting
    case ByteArrives(_, i) =>
      && p.op.Some? && !p.op.value.done && p.installed < |net.wire|
      && i < cfg.bucketSize && i !in p.op.value.arrived
    case ReceiveDone(_) =>
      && p.op.Some? && !p.op.value.done && p.installed < |net.wire|
      && forall i :: 0 <= i < cfg.bucketSize ==> i in p.op.value.arrived
    case YieldTo(_) => p.pc.Serving? && p.pc.next < |p.held.slots| && Consumed(p.Yielded().out, cfg.bucketSize)
    case EndYield(_) => p.pc.Serving? && p.pc.next == |p.held.slots|
    case Swap(_) => p.pc == Awaiting && p.op.Some? && p.op.value.done && p.installed < |net.log|
    case _ => false
  }

  /** With `rendezvous` no byte leaves the root before all receivers have joined the broadcast. */
  predicate BEnabled(cfg: Config, rendezvous: bool, s: BState, a: BAction) {
    match a
    case Pack =>
      && s.root.pc == Packing && !s.root.MustFlush(cfg.bucketSize)
      && NameFree(s.root.open, s.root.todo[0].meta.name) && |s.root.todo[0].data| == s.root.todo[0].meta.chunkSize
    case AwaitPrevious => s.root.pc == Packing && s.root.MustFlush(cfg.bucketSize) && |s.net.wire| == |s.net.log|
    case Broadcast => s.root.pc == Flushing
    case AwaitFinal => s.root.pc == AwaitLast && |s.net.wire| == |s.net.log|
    case ByteLeaves(i) =>
      && |s.net.wire| < |s.net.log| && i < cfg.bucketSize && i !in s.net.sent
      && (rendezvous ==> forall p <- s.peers :: Joined(s, p))
    case PayloadLeft =>
      && |s.net.wire| < |s.net.log| && (forall i :: 0 <= i < cfg.bucketSize ==> i in s.net.sent)
      && (rendezvous ==> forall p <- s.peers :: Joined(s, p))
    case _ => a.r < |s.peers| && PeerEnabled(cfg, s.net, s.peers[a.r], a)
  }

  function BApply(cfg: Config, rendezvous: bool, s: BState, a: BAction): BState
    requires Sizes(cfg, s) && BEnabled(cfg, rendezvous, s, a)
  {
    var net := s.net;
    match a
    case Pack => s.Root(s.root.Packed())
    case AwaitPrevious => s.Root(s.root.Flushed())
    case Broadcast => BState(s.root.Published(), net.(log := net.log + [s.root.BucketMessage().meta]), s.peers)
    case AwaitFinal => s.Root(s.root.Finished())
    case ByteLeaves(i) =>
      s.(net := net.(image := net.image[i := s.root.Buf(SrcSide(s.root))[i]], sent := net.sent + {i}))
    case PayloadLeft => s.(net := net.(wire := net.wire + [net.image], sent := {}))
    case StartReceive(r) => s.At(r, s.peers[r].Started())
    case ByteArrives(r, i) =>
      assert s.peers[r] in s.peers && net.wire[s.peers[r].installed] in net.wire;
      s.At(r, s.peers[r].Arrived(net.wire[s.peers[r].installed], i))
    case ReceiveDone(r) => s.At(r, s.peers[r].Received())
    case YieldTo(r) => s.At(r, s.peers[r].Yielded())
    case EndYield(r) => s.At(r, s.peers[r].Served())
    case Swap(r) => s.At(r, s.peers[r].Installed(net.log[s.peers[r].installed]))
  }

  predicate FreshPeer(p: Peer) {
    p.pc == Starting && p.op == None && p.out == [] && p.installed == 0
  }

  predicate BInit(cfg: Config, s: BState) {
    && Sizes(cfg, s) && Fresh(s.root, true) && s.root.todo == cfg.chunks
    && s.net.log == [] && s.net.wire == [] && s.net.sent == {}
    && |s.peers| == cfg.rollouts && forall p <- s.peers :: FreshPeer(p)
  }

  ghost predicate BSteps(cfg: Config, rendezvous: bool, s: BState, s': BState) {
    Sizes(cfg, s) && exists a :: BEnabled(cfg, rendezvous, s, a) && s' == BApply(cfg, rendezvous, s, a)
  }

  ghost predicate IsBRun(cfg: Config, rendezvous: bool, run: seq<BState>) {
    var last := |run| - 1;
    run != [] &&
    if last == 0 then BInit(cfg, run[0])
    else IsBRun(cfg, rendezvous, run[..last]) && BSteps(cfg, rendezvous, run[last - 1], run[last])
  }

  // ---------- Invariant ----------

  ghost predicate WireInv(cfg: Config, bs: seq<Bucket>, wire: seq<seq<byte>>) {
    && |wire| <= |bs|
    && forall k :: 0 <= k < |wire| ==> |wire[k]| == cfg.bucketSize && Holds(wire[k], bs[k])
  }

  ghost predicate LogInv(bs: seq<Bucket>, log: seq<Meta>) {
    && |log| <= |bs|
    && forall k :: 0 <= k < |log| ==> log[k] == MetaOf(bs, k)
  }

  /** The root has started as many broadcasts as there is metadata and waited for all but the latest of them; the
      bytes that have left are those of the buffer being broadcast. */
  ghost predicate RootInv(cfg: Config, bs: seq<Bucket>, n: Node, net: Net) {
    && NodeInv(cfg, bs, 0, n)
    && n.published == |net.log| && n.acked <= |net.wire| <= |net.log|
    && |net.image| == cfg.bucketSize
    && (|net.wire| < |net.log| ==> forall i <- net.sent :: i < cfg.bucketSize && net.image[i] == n.Buf(SrcSide(n))[i])
    && (|net.wire| == |net.log| ==> net.sent == {})
  }

  ghost predicate PeerInv(cfg: Config, bs: seq<Bucket>, net: Net, p: Peer) {
    var K, h := |bs|, p.installed;
    && |p.bufA| == |p.bufB| == cfg.bucketSize && h <= |net.log|
    && (h > 0 ==> h <= K && p.held == MetaOf(bs, h - 1) && Holds(p.Buf(p.front), bs[h - 1]))
    && (p.op.Some? ==>
          && h < K
          && (forall i <- p.op.value.arrived ::
                h < |net.wire| && i < |net.wire[h]| && i < cfg.bucketSize && p.Buf(Other(p.front))[i] == net.wire[h][i])
          && (p.op.value.done ==> h < |net.log| && Holds(p.Buf(Other(p.front)), bs[h])))
    && match p.pc
       case Starting => h < K && p.op == None && p.out == YieldedChunks(bs, if h == 0 then 0 else h - 1, 0)
       case Serving(i) =>
         h > 0 && i <= |bs[h - 1]| && (p.op == None <==> h == K) && p.out == YieldedChunks(bs, h - 1, i)
       case Awaiting => h < K && p.op.Some? && p.out == YieldedChunks(bs, h, 0)
       case Finished => h == K && p.op == None && p.out == YieldedChunks(bs, K, 0)
  }

  ghost function PeerOk(cfg: Config, bs: seq<Bucket>, net: Net): Peer -> bool {
    p => PeerInv(cfg, bs, net, p)
  }

  ghost predicate BInv(cfg: Config, bs: seq<Bucket>, s: BState) {
    && WireInv(cfg, bs, s.net.wire) && LogInv(bs, s.net.log) && RootInv(cfg, bs, s.root, s.net)
    && |s.peers| == cfg.rollouts && Every(s.peers, PeerOk(cfg, bs, s.net))
  }
}
