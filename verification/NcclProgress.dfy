// The broadcast transport always finishes: every action uses up one unit of a bounded amount of work, whatever the
// schedule, so a run that cannot be continued has delivered the weights.
module NcclProgress {
  import opened Common
  import opened WeightChunks
  import opened BucketPacking
  import opened ViewAlignment
  import opened NixlRelay
  import opened NixlSafety
  import opened NixlDelivery
  import opened NixlProgress
  import opened NcclBroadcast
  import opened NcclSafety
  import opened NcclDelivery

  /** How far a receiver is from having installed and yielded its current bucket. */
  function Rank(pc: PeerPc): nat {
    match pc
    case Starting => 3
    case Serving(_) => 2
    case Awaiting => 1
    case Finished => 0
  }

  function InFlight(p: Peer): set<nat> {
    if p.op.Some? && !p.op.value.done then p.op.value.arrived else {}
  }

  function Complete(p: Peer): nat {
    p.installed + if p.op.Some? && p.op.value.done then 1 else 0
  }

  /** What is left to do for a receiver: buckets to install, chunks to yield, bytes to receive. */
  function PeerLeft(cfg: Config, K: nat, p: Peer): int {
    3 * (K - p.installed) + Rank(p.pc) + (|cfg.chunks| - |p.out|) + ReadsLeft(cfg.bucketSize, K - Complete(p)) - |InFlight(p)|
  }

  ghost function PeerLeftOf(cfg: Config, K: nat): (nat, Peer) -> int {
    (r: nat, p: Peer) => PeerLeft(cfg, K, p)
  }

  function NetLeft(cfg: Config, K: nat, net: Net): int {
    ReadsLeft(cfg.bucketSize, K - |net.wire|) - |net.sent|
  }

  ghost function BWork(cfg: Config, K: nat, s: BState): int {
    Left(cfg, K, 0, s.root) + NetLeft(cfg, K, s.net) + Sum(s.peers, PeerLeftOf(cfg, K))
  }

  predicate OfRoot(a: BAction) {
    a.Pack? || a.AwaitPrevious? || a.Broadcast? || a.AwaitFinal?
  }

  predicate OfNet(a: BAction) {
    a.ByteLeaves? || a.PayloadLeft?
  }

  lemma RootUses(cfg: Config, K: nat, rendezvous: bool, s: BState, a: BAction)
    requires Sizes(cfg, s) && BEnabled(cfg, rendezvous, s, a) && OfRoot(a)
    ensures var s' := BApply(cfg, rendezvous, s, a);
      && Left(cfg, K, 0, s'.root) < Left(cfg, K, 0, s.root)
      && NetLeft(cfg, K, s'.net) == NetLeft(cfg, K, s.net) && s'.peers == s.peers
  {
    hide ReadsLeft;
  }

  lemma SentBound(cfg: Config, bs: seq<Bucket>, n: Node, net: Net)
    requires RootInv(cfg, bs, n, net)
    ensures |net.sent| <= cfg.bucketSize && (|net.wire| == |net.log| ==> net.sent == {})
  {
    hide NodeInv;
    RangeCardinality(net.sent, cfg.bucketSize);
  }

  lemma NetUses(cfg: Config, bs: seq<Bucket>, rendezvous: bool, s: BState, a: BAction)
    requires Sizes(cfg, s) && BEnabled(cfg, rendezvous, s, a) && OfNet(a)
    requires LogInv(bs, s.net.log) && RootInv(cfg, bs, s.root, s.net)
    ensures var s' := BApply(cfg, rendezvous, s, a);
      NetLeft(cfg, |bs|, s'.net) < NetLeft(cfg, |bs|, s.net) && s'.peers == s.peers && s'.root == s.root
  {
    hide NodeInv;
    SentBound(cfg, bs, s.root, s.net);
  }

  lemma ArrivedBound(cfg: Config, bs: seq<Bucket>, net: Net, p: Peer)
    requires PeerOk(cfg, bs, net)(p) && LogInv(bs, net.log)
    ensures |InFlight(p)| <= cfg.bucketSize && p.installed <= Complete(p) <= |bs|
    ensures InFlight(p) != {} ==> Complete(p) < |bs|
  {
    RangeCardinality(InFlight(p), cfg.bucketSize);
  }

  lemma PeerOnly(cfg: Config, rendezvous: bool, s: BState, a: BAction)
    requires Sizes(cfg, s) && BEnabled(cfg, rendezvous, s, a) && !OfRoot(a) && !OfNet(a)
    ensures a.r < |s.peers| && PeerEnabled(cfg, s.net, s.peers[a.r], a)
    ensures var s' := BApply(cfg, rendezvous, s, a);
      |s'.peers| == |s.peers| && s'.peers == s.peers[a.r := s'.peers[a.r]] && s'.root == s.root && s'.net == s.net
  {
  }

  lemma ServingUses(cfg: Config, K: nat, rendezvous: bool, s: BState, a: BAction)
    requires Sizes(cfg, s) && BEnabled(cfg, rendezvous, s, a) && (a.StartReceive? || a.YieldTo? || a.EndYield? || a.Swap?)
    requires a.StartReceive? ==> s.peers[a.r].op == None
    ensures PeerLeft(cfg, K, BApply(cfg, rendezvous, s, a).peers[a.r]) < PeerLeft(cfg, K, s.peers[a.r])
  {
    hide ReadsLeft, Sizes;
    assert Complete(BApply(cfg, rendezvous, s, a).peers[a.r]) == Complete(s.peers[a.r]);
  }

  lemma ArriveUses(cfg: Config, K: nat, p: Peer, payload: seq<byte>, i: nat)
    requires p.op.Some? && !p.op.value.done && i !in p.op.value.arrived && i < |payload| && i < |p.Buf(Other(p.front))|
    ensures PeerLeft(cfg, K, p.Arrived(payload, i)) < PeerLeft(cfg, K, p)
  {
    hide ReadsLeft;
    assert Complete(p.Arrived(payload, i)) == Complete(p);
  }

  lemma ReceivedUses(cfg: Config, K: nat, p: Peer)
    requires p.op.Some? && !p.op.value.done && |InFlight(p)| <= cfg.bucketSize && p.installed < K
    ensures PeerLeft(cfg, K, p.Received()) < PeerLeft(cfg, K, p)
  {
    assert ReadsLeft(cfg.bucketSize, K - p.installed) == cfg.bucketSize + 1 + ReadsLeft(cfg.bucketSize, K - p.installed - 1);
  }

  lemma PeerUses(cfg: Config, bs: seq<Bucket>, rendezvous: bool, s: BState, a: BAction)
    requires Sizes(cfg, s) && BEnabled(cfg, rendezvous, s, a) && !OfRoot(a) && !OfNet(a)
    requires PeerOk(cfg, bs, s.net)(s.peers[a.r]) && LogInv(bs, s.net.log)
    ensures PeerLeft(cfg, |bs|, BApply(cfg, rendezvous, s, a).peers[a.r]) < PeerLeft(cfg, |bs|, s.peers[a.r])
  {
    hide PeerLeft, LogInv;
    var p := s.peers[a.r];
    if a.ByteArrives? {
      assert p in s.peers && s.net.wire[p.installed] in s.net.wire;
      ArriveUses(cfg, |bs|, p, s.net.wire[p.installed], a.i);
    } else if a.ReceiveDone? {
      ArrivedBound(cfg, bs, s.net, p);
      ReceivedUses(cfg, |bs|, p);
    } else {
      ServingUses(cfg, |bs|, rendezvous, s, a);
    }
  }

  lemma BStepUses(cfg: Config, bs: seq<Bucket>, rendezvous: bool, s: BState, a: BAction)
    requires BInv(cfg, bs, s) && Sizes(cfg, s) && BEnabled(cfg, rendezvous, s, a)
    ensures BWork(cfg, |bs|, BApply(cfg, rendezvous, s, a)) < BWork(cfg, |bs|, s)
  {
    hide Left, NetLeft, PeerLeft, BEnabled, BApply, RootInv, Sizes, LogInv, WireInv, Every, Sum;
    if OfRoot(a) {
      RootUses(cfg, |bs|, rendezvous, s, a);
    } else if OfNet(a) {
      NetUses(cfg, bs, rendezvous, s, a);
    } else {
      PeerOnly(cfg, rendezvous, s, a);
      EveryAt(s.peers, PeerOk(cfg, bs, s.net), a.r);
      PeerUses(cfg, bs, rendezvous, s, a);
      SumOne(s.peers, PeerLeftOf(cfg, |bs|), a.r, BApply(cfg, rendezvous, s, a).peers[a.r]);
    }
  }

  /** All the work of broadcasting `K` buckets. */
  function TotalBWork(cfg: Config, K: nat): nat {
    |cfg.chunks| + 4 * K + 1 + cfg.bucketSize * K + (4 * K + 3 + |cfg.chunks| + cfg.bucketSize * K) * cfg.rollouts
  }

  lemma FreshLeft(cfg: Config, K: nat, p: Peer)
    requires FreshPeer(p)
    ensures PeerLeft(cfg, K, p) == 4 * K + 3 + |cfg.chunks| + cfg.bucketSize * K
  {
    ReadsLeftProduct(cfg.bucketSize, K);
  }

  lemma InitialBWork(cfg: Config, K: nat, s: BState)
    requires BInit(cfg, s)
    ensures BWork(cfg, K, s) <= TotalBWork(cfg, K)
  {
    hide PeerLeft, ReadsLeft, Sizes;
    var f, each := PeerLeftOf(cfg, K), 4 * K + 3 + |cfg.chunks| + cfg.bucketSize * K;
    ReadsLeftProduct(cfg.bucketSize, K);
    forall r: nat | r < |s.peers| ensures 0 <= f(r, s.peers[r]) <= each {
      assert s.peers[r] in s.peers;
      FreshLeft(cfg, K, s.peers[r]);
    }
    if s.peers != [] {
      SumBound(s.peers, f, 0, each, each);
      assert each + each * (|s.peers| - 1) == each * |s.peers|;
    } else {
      assert Sum(s.peers, f) == 0;
    }
  }

  lemma {:induction false} BRunUses(cfg: Config, bs: seq<Bucket>, rendezvous: bool, run: seq<BState>)
    requires ValidConfig(cfg, bs) && IsBRun(cfg, rendezvous, run)
    ensures |run| - 1 + BWork(cfg, |bs|, run[|run| - 1]) <= TotalBWork(cfg, |bs|)
    decreases |run|
  {
    hide BInv, BWork, TotalBWork, BApply, BEnabled, ValidConfig;
    var last := |run| - 1;
    if last == 0 {
      InitialBWork(cfg, |bs|, run[0]);
    } else {
      var s := run[..last][last - 1];
      BRunUses(cfg, bs, rendezvous, run[..last]);
      BRunInv(cfg, bs, rendezvous, run[..last]);
      var a :| BEnabled(cfg, rendezvous, s, a) && run[last] == BApply(cfg, rendezvous, s, a);
      BStepUses(cfg, bs, rendezvous, s, a);
    }
  }

  lemma PeerLeftNonNegative(cfg: Config, bs: seq<Bucket>, net: Net, p: Peer)
    requires ChunksOf(Flatten(bs)) == cfg.chunks && PeerOk(cfg, bs, net)(p) && LogInv(bs, net.log)
    ensures PeerLeft(cfg, |bs|, p) >= 0
  {
    hide PeerInv, LogInv;
    ArrivedBound(cfg, bs, net, p);
    PeerOutIsPrefix(cfg, bs, net, p);
  }

  lemma BWorkNonNegative(cfg: Config, bs: seq<Bucket>, s: BState)
    requires ChunksOf(Flatten(bs)) == cfg.chunks && BInv(cfg, bs, s)
    ensures BWork(cfg, |bs|, s) >= 0
  {
    hide Left, PeerLeft, NodeInv, Every, Sum, Flatten;
    var f := PeerLeftOf(cfg, |bs|);
    forall r: nat | r < |s.peers| ensures f(r, s.peers[r]) >= 0 {
      EveryAt(s.peers, PeerOk(cfg, bs, s.net), r);
      PeerLeftNonNegative(cfg, bs, s.net, s.peers[r]);
    }
    SumNonNegative(s.peers, f);
    SenderLeft(cfg, bs, s.root);
    SentBound(cfg, bs, s.root, s.net);
  }

  /** No schedule of the broadcast goes on forever. */
  lemma BroadcastRunsAreBounded(cfg: Config, bs: seq<Bucket>, rendezvous: bool, run: seq<BState>)
    requires ValidConfig(cfg, bs) && ChunksOf(Flatten(bs)) == cfg.chunks && IsBRun(cfg, rendezvous, run)
    ensures |run| <= TotalBWork(cfg, |bs|) + 1
  {
    hide BInv, BWork, TotalBWork, Flatten;
    BRunUses(cfg, bs, rendezvous, run);
    BRunInv(cfg, bs, rendezvous, run);
    BWorkNonNegative(cfg, bs, run[|run| - 1]);
  }

  ghost predicate BCanStep(cfg: Config, rendezvous: bool, s: BState) {
    exists a :: BEnabled(cfg, rendezvous, s, a)
  }

  ghost predicate BFinal(s: BState) {
    s.root.pc == Done && forall p <- s.peers :: p.pc == Finished
  }

  /** Root and receivers are done, and the receivers have rebuilt the weights. */
  ghost predicate BDelivered(ws: seq<Weight>, cfg: Config, s: BState, junk: byte) {
    BFinal(s) && forall r :: 0 <= r < |s.peers| ==> Merge(s.peers[r].out, cfg.bucketSize, junk) == Ok(NonEmpty(ws))
  }

  lemma BFinalDelivers(ws: seq<Weight>, cfg: Config, rendezvous: bool, s: BState, junk: byte)
    requires Sendable(ws, cfg) && BReachable(cfg, rendezvous, s) && BFinal(s) && s.peers != []
    ensures StartsFit(ws, 0, cfg.bucketSize) && BDelivered(ws, cfg, s, junk)
  {
    hide StartsFit, BReachable, MergeFrom;
    assert s.peers[0] in s.peers;
    EveryPeerGetsTheWeights(ws, cfg, rendezvous, s, 0, junk);
    forall r | 0 <= r < |s.peers| ensures Merge(s.peers[r].out, cfg.bucketSize, junk) == Ok(NonEmpty(ws)) {
      assert s.peers[r] in s.peers;
      EveryPeerGetsTheWeights(ws, cfg, rendezvous, s, r, junk);
    }
  }

  /** A run that cannot be continued has delivered the weights to all receivers if and only if every weight that fits
      into a bucket starts at a multiple of its item size. */
  lemma MaximalBroadcastDelivers(ws: seq<Weight>, cfg: Config, rendezvous: bool, run: seq<BState>, junk: byte)
    requires Sendable(ws, cfg) && IsBRun(cfg, rendezvous, run) && !BCanStep(cfg, rendezvous, run[|run| - 1])
    ensures BDelivered(ws, cfg, run[|run| - 1], junk) <==> StartsFit(ws, 0, cfg.bucketSize)
  {
    hide BEnabled, StartsFit, Receivable, ValidConfig, BInv, MergeFrom;
    var (s, bs) := (run[|run| - 1], BucketPacking.Pack(cfg.chunks, cfg.bucketSize));
    SplitIsValid(ws, cfg.bucketSize, cfg.rollouts);
    assert BReachable(cfg, rendezvous, s);
    hide BReachable;
    BReachableInv(cfg, bs, rendezvous, s);
    PeersOfInv(cfg, bs, s);
    ReceivableIff(ws, cfg);
    if StartsFit(ws, 0, cfg.bucketSize) { BroadcastNeverDeadlocks(cfg, bs, rendezvous, s); }
    if BFinal(s) { BFinalDelivers(ws, cfg, rendezvous, s, junk); }
  }

  lemma PeersOfInv(cfg: Config, bs: seq<Bucket>, s: BState)
    requires BInv(cfg, bs, s)
    ensures |s.peers| == cfg.rollouts
  {
  }

  // ---------- When the broadcast is free of deadlocks ----------

  function FirstState(cfg: Config): (s: BState)
    ensures BInit(cfg, s)
  {
    var image := seq(cfg.bucketSize, _ => 0);
    BState(BlankNode(cfg, Packing, cfg.chunks), Net([], [], image, {}),
           seq(cfg.rollouts, _ => Peer(Starting, image, image, A, None, Meta([], false), [], 0)))
  }

  /** Every run can be continued to one that cannot be continued any further. */
  lemma {:induction false} BRunEnds(cfg: Config, bs: seq<Bucket>, rendezvous: bool, run: seq<BState>) returns (longer: seq<BState>)
    requires ValidConfig(cfg, bs) && ChunksOf(Flatten(bs)) == cfg.chunks && IsBRun(cfg, rendezvous, run)
    ensures IsBRun(cfg, rendezvous, longer) && !BCanStep(cfg, rendezvous, longer[|longer| - 1])
    decreases TotalBWork(cfg, |bs|) + 1 - |run|
  {
    hide BInv, TotalBWork, BApply, BEnabled, Sizes, ValidConfig, Flatten, ChunksOf;
    var s := run[|run| - 1];
    BRunInv(cfg, bs, rendezvous, run);
    BSizes(cfg, bs, s);
    BroadcastRunsAreBounded(cfg, bs, rendezvous, run);
    if BCanStep(cfg, rendezvous, s) {
      var a :| BEnabled(cfg, rendezvous, s, a);
      var more := run + [BApply(cfg, rendezvous, s, a)];
      assert more[..|run|] == run && BSteps(cfg, rendezvous, s, more[|run|]);
      assert IsBRun(cfg, rendezvous, more);
      BroadcastRunsAreBounded(cfg, bs, rendezvous, more);
      longer := BRunEnds(cfg, bs, rendezvous, more);
    } else {
      longer := run;
    }
  }

  ghost predicate BDeadlockFree(cfg: Config, rendezvous: bool) {
    forall s | BReachable(cfg, rendezvous, s) :: BFinal(s) || BCanStep(cfg, rendezvous, s)
  }

  /** The exact condition for the broadcast never to get stuck, in any run. */
  lemma BroadcastDeadlockFreeIff(ws: seq<Weight>, cfg: Config, rendezvous: bool)
    requires Sendable(ws, cfg)
    ensures BDeadlockFree(cfg, rendezvous) <==> StartsFit(ws, 0, cfg.bucketSize)
  {
    hide StartsFit, Receivable, BEnabled, BInv, ValidConfig, MergeFrom;
    var bs := BucketPacking.Pack(cfg.chunks, cfg.bucketSize);
    SplitIsValid(ws, cfg.bucketSize, cfg.rollouts);
    ReceivableIff(ws, cfg);
    if StartsFit(ws, 0, cfg.bucketSize) {
      forall s | BReachable(cfg, rendezvous, s) ensures BFinal(s) || BCanStep(cfg, rendezvous, s) {
        BroadcastNeverDeadlocks(cfg, bs, rendezvous, s);
      }
    } else {
      var start := [FirstState(cfg)];
      assert IsBRun(cfg, rendezvous, start);
      var run := BRunEnds(cfg, bs, rendezvous, start);
      var s := run[|run| - 1];
      assert BReachable(cfg, rendezvous, s);
      BReachableInv(cfg, bs, rendezvous, s);
      PeersOfInv(cfg, bs, s);
      if BFinal(s) { BFinalDelivers(ws, cfg, rendezvous, s, 0); }
    }
  }
}
