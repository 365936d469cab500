// The relay chain never deadlocks and always finishes: some action is enabled until all ranks are
// done, and every action uses up one unit of a bounded amount of work.
module NixlProgress {
  import opened Common
  import opened WeightChunks
  import opened BucketPacking
  import opened ViewAlignment
  import opened NixlRelay
  import opened NixlSafety
  import opened NixlDelivery

  ghost predicate CanStep(cfg: Config, s: State)
    requires WellFormed(cfg, s)
  {
    exists a :: Enabled(cfg, s, a)
  }

  // ---------- Deadlock freedom ----------

  /** A read that has begun can always go on. */
  lemma ReadGoesOn(cfg: Config, s: State, r: nat)
    requires WellFormed(cfg, s) && 0 < r < |s.nodes| && s.nodes[r].xfer.Some? && !s.nodes[r].xfer.value.done
    ensures CanStep(cfg, s)
  {
    if AllCopied(s.nodes[r].xfer.value, cfg.bucketSize) {
      assert Enabled(cfg, s, CompleteRead(r));
    } else {
      var i :| 0 <= i < cfg.bucketSize && i !in s.nodes[r].xfer.value.copied;
      assert Enabled(cfg, s, CopyByte(r, i));
    }
  }

  /** A receiver with a published bucket that it still has to yield or to see acknowledged. */
  predicate Serving(n: Node) {
    n.pc.Yielding?
  }

  /** What the notice queue says about a rank with an outstanding bucket. */
  lemma NoticeOrRead(bs: seq<Bucket>, up: Node, l: Link, down: Node)
    requires OutstandingInv(bs, up) && up.acked < up.published && LinkOk(bs)(up, l, down)
    ensures up.Notified(l) || (down.xfer.Some? && !down.xfer.value.done) || (l.messages != [] && down.begun < |bs|)
  {
    assert LinkInv(bs, up, l, down);
  }

  lemma NoticeOrReadAt(cfg: Config, bs: seq<Bucket>, s: State, r: nat)
    requires Inv(cfg, bs, s) && r < |s.links| && |s.nodes| == |s.links| + 1 && s.nodes[r].acked < s.nodes[r].published
    ensures var (up, l, down) := (s.nodes[r], s.links[r], s.nodes[r + 1]);
      up.Notified(l) || (down.xfer.Some? && !down.xfer.value.done) || (l.messages != [] && down.begun < |bs|)
  {
    At(cfg, bs, s, r);
    UpFacts(cfg, bs, s, r);
    NoticeOrRead(bs, s.nodes[r], s.links[r], s.nodes[r + 1]);
  }

  /** What a receiver can do about an announced bucket, unless it still serves the one before. */
  lemma AnnouncedCases(cfg: Config, bs: seq<Bucket>, r: nat, n: Node)
    requires r > 0 && NodeOk(cfg, bs)(r, n) && n.begun < |bs| && !Serving(n)
    ensures n.pc == AwaitMeta || n.pc == Publishing || (n.pc == AwaitXfer && n.xfer.Some?)
  {
    assert ReceiverInv(bs, n) && XferInv(bs, n);
  }

  lemma ReceiverActs(cfg: Config, bs: seq<Bucket>, s: State, r: nat)
    requires Inv(cfg, bs, s) && WellFormed(cfg, s) && 0 < r < |s.nodes|
    requires s.links[r - 1].messages != [] && s.nodes[r].begun < |bs| && !Serving(s.nodes[r])
    ensures CanStep(cfg, s)
  {
    hide Inv, NodeOk, LinkOk;
    At(cfg, bs, s, r);
    AnnouncedCases(cfg, bs, r, s.nodes[r]);
    if s.nodes[r].pc == AwaitMeta {
      assert Enabled(cfg, s, BeginRead(r));
    } else if s.nodes[r].pc == Publishing {
      assert Enabled(cfg, s, Forward(r));
    } else if s.nodes[r].xfer.value.done {
      assert Enabled(cfg, s, Install(r));
    } else {
      ReadGoesOn(cfg, s, r);
    }
  }

  lemma YieldIsConsumed(cfg: Config, bs: seq<Bucket>, r: nat, n: Node)
    requires ValidConfig(cfg, bs) && Receivable(cfg, bs)
    requires r > 0 && NodeOk(cfg, bs)(r, n) && n.pc.Yielding? && n.pc.next < |n.held.slots|
    ensures Consumed(n.Yielded().out, cfg.bucketSize)
  {
    hide Consumed;
    YieldChunkNode(cfg, bs, r, n);
    OutIsPrefix(bs, n.Yielded());
    ConsumedPrefix(n.Yielded().out, LandedOf(Flatten(bs)), cfg.bucketSize);
  }

  /** A serving receiver can yield or be acknowledged, or somebody further down the chain can act. */
  lemma {:induction false} ServingGoesOn(cfg: Config, bs: seq<Bucket>, s: State, r: nat)
    requires ValidConfig(cfg, bs) && Receivable(cfg, bs) && Inv(cfg, bs, s) && WellFormed(cfg, s) && 0 < r < |s.nodes| && Serving(s.nodes[r])
    ensures CanStep(cfg, s)
    decreases |s.nodes| - r
  {
    hide Inv, ValidConfig, Receivable, Consumed;
    At(cfg, bs, s, r);
    var n := s.nodes[r];
    assert ReceiverInv(bs, n);
    if n.pc.next < |n.held.slots| {
      YieldIsConsumed(cfg, bs, r, n);
      assert Enabled(cfg, s, YieldChunk(r));
    } else if r == cfg.rollouts || n.Notified(s.links[r]) {
      assert Enabled(cfg, s, Acknowledge(r));
    } else {
      SomebodyBelowActs(cfg, bs, s, r);
    }
  }

  /** A rank waits for a notice only while the next rank can act or serves itself. */
  lemma {:induction false} SomebodyBelowActs(cfg: Config, bs: seq<Bucket>, s: State, r: nat)
    requires ValidConfig(cfg, bs) && Receivable(cfg, bs) && Inv(cfg, bs, s) && WellFormed(cfg, s) && r < |s.links|
    requires s.nodes[r].acked < s.nodes[r].published && !s.nodes[r].Notified(s.links[r])
    ensures CanStep(cfg, s)
    decreases |s.nodes| - r, 0
  {
    hide Inv, CanStep, ValidConfig, Receivable;
    NoticeOrReadAt(cfg, bs, s, r);
    if s.nodes[r + 1].xfer.Some? && !s.nodes[r + 1].xfer.value.done {
      ReadGoesOn(cfg, s, r + 1);
    } else if Serving(s.nodes[r + 1]) {
      ServingGoesOn(cfg, bs, s, r + 1);
    } else {
      ReceiverActs(cfg, bs, s, r + 1);
    }
  }

  lemma SenderGoesOn(cfg: Config, bs: seq<Bucket>, s: State)
    requires ValidConfig(cfg, bs) && Receivable(cfg, bs) && Inv(cfg, bs, s) && WellFormed(cfg, s)
    requires s.nodes[0].pc != Done
    ensures CanStep(cfg, s)
  {
    hide Inv;
    At(cfg, bs, s, 0);
    var n, l := s.nodes[0], s.links[0];
    assert SenderInv(bs, cfg.bucketSize, n);
    if n.pc == Packing && !n.MustFlush(cfg.bucketSize) {
      NextChunkFits(cfg, bs, n);
      assert Enabled(cfg, s, PackChunk);
    } else if n.pc == Flushing {
      assert Enabled(cfg, s, PublishBucket);
    } else if n.pc == Packing && (n.published == 0 || n.Notified(l)) {
      assert Enabled(cfg, s, Flush);
    } else if n.pc == AwaitLast && n.Notified(l) {
      assert Enabled(cfg, s, FinishSending);
    } else {
      SomebodyBelowActs(cfg, bs, s, 0);
    }
  }

  /** A rank that is done has published every bucket, so the next rank finds a message or has begun them all. */
  lemma WaitingForUpstream(cfg: Config, bs: seq<Bucket>, r: nat, up: Node, l: Link, n: Node)
    requires r > 0 && NodeOk(cfg, bs)(r - 1, up) && NodeOk(cfg, bs)(r, n) && LinkOk(bs)(up, l, n)
    requires n.pc == AwaitMeta && l.messages == []
    ensures up.pc != Done
  {
    assert LinkInv(bs, up, l, n) && ReceiverInv(bs, n);
    assert up.pc == Done ==> up.published == |bs|;
  }

  lemma UpstreamNotDone(cfg: Config, bs: seq<Bucket>, s: State, r: nat)
    requires Inv(cfg, bs, s) && 0 < r < |s.nodes| == |s.links| + 1
    requires s.nodes[r].pc == AwaitMeta && s.links[r - 1].messages == []
    ensures s.nodes[r - 1].pc != Done
  {
    At(cfg, bs, s, r);
    At(cfg, bs, s, r - 1);
    WaitingForUpstream(cfg, bs, r, s.nodes[r - 1], s.links[r - 1], s.nodes[r]);
  }

  /** A receiver that neither serves nor waits for metadata can act. */
  lemma ReceiverGoesOn(cfg: Config, bs: seq<Bucket>, s: State, r: nat)
    requires Inv(cfg, bs, s) && WellFormed(cfg, s) && 0 < r < |s.nodes|
    requires s.nodes[r].pc != Done && !Serving(s.nodes[r]) && s.nodes[r].pc != AwaitMeta
    ensures CanStep(cfg, s)
  {
    hide Inv;
    At(cfg, bs, s, r);
    var n := s.nodes[r];
    assert ReceiverInv(bs, n) && XferInv(bs, n);
    match n.pc
    case AwaitXfer => if n.xfer.value.done { assert Enabled(cfg, s, Install(r)); } else { ReadGoesOn(cfg, s, r); }
    case Publishing => assert Enabled(cfg, s, Forward(r));
    case _ =>
  }

  /** From a rank that is not done an enabled action is found, looking up the chain while ranks wait for metadata. */
  lemma {:induction false} SomebodyActs(cfg: Config, bs: seq<Bucket>, s: State, r: nat)
    requires ValidConfig(cfg, bs) && Receivable(cfg, bs) && Inv(cfg, bs, s) && WellFormed(cfg, s)
    requires r < |s.nodes| && s.nodes[r].pc != Done
    ensures CanStep(cfg, s)
    decreases r
  {
    hide Inv;
    if r == 0 {
      SenderGoesOn(cfg, bs, s);
    } else if Serving(s.nodes[r]) {
      ServingGoesOn(cfg, bs, s, r);
    } else if s.nodes[r].pc != AwaitMeta {
      ReceiverGoesOn(cfg, bs, s, r);
    } else if s.links[r - 1].messages != [] {
      assert Enabled(cfg, s, BeginRead(r));
    } else {
      UpstreamNotDone(cfg, bs, s, r);
      SomebodyActs(cfg, bs, s, r - 1);
    }
  }

  /** In every reachable state that is not final, some action is enabled. */
  lemma NeverDeadlocks(cfg: Config, bs: seq<Bucket>, s: State)
    requires ValidConfig(cfg, bs) && Receivable(cfg, bs) && Reachable(cfg, s) && !Final(s)
    ensures WellFormed(cfg, s) && CanStep(cfg, s)
  {
    hide Inv, CanStep, Reachable, Receivable;
    ReachableInv(cfg, bs, s);
    InvSizes(cfg, bs, s);
    var n :| n in s.nodes && n.pc != Done;
    var r :| 0 <= r < |s.nodes| && s.nodes[r] == n;
    SomebodyActs(cfg, bs, s, r);
  }

  // ---------- Termination ----------

  /** What is left to do for one rank: chunks to pack, buckets to publish, to see acknowledged, to begin, to copy
      byte by byte, to install, and chunks to yield. */
  function Left(cfg: Config, K: nat, r: nat, n: Node): int {
    if r == 0 then
      |n.todo| + 2 * (K - n.published) + (K - n.acked) + (if n.pc == Flushing then 0 else 1)
    else
      (K - n.published) + (K - n.acked) + (K - n.begun) + (K - n.installed) + (|cfg.chunks| - |n.out|)
      + ReadsLeft(cfg.bucketSize, K - Completed(n))
      - (if n.xfer.Some? && !n.xfer.value.done then |n.xfer.value.copied| else 0)
  }

  ghost function LeftOf(cfg: Config, K: nat): (nat, Node) -> int {
    (r: nat, n: Node) => Left(cfg, K, r, n)
  }

  ghost function Work(cfg: Config, K: nat, s: State): int {
    Sum(s.nodes, LeftOf(cfg, K))
  }

  /** The node that an action changes, and what it becomes. */
  function Actor(a: Action): nat {
    match a
    case PackChunk | Flush | PublishBucket | FinishSending => 0
    case _ => a.r
  }

  lemma ActorOnly(cfg: Config, s: State, a: Action)
    requires WellFormed(cfg, s) && Enabled(cfg, s, a)
    ensures Actor(a) < |s.nodes| == |Apply(cfg, s, a).nodes|
    ensures Apply(cfg, s, a).nodes == s.nodes[Actor(a) := Apply(cfg, s, a).nodes[Actor(a)]]
  {
  }

  lemma SenderUses(cfg: Config, bs: seq<Bucket>, s: State, a: Action)
    requires WellFormed(cfg, s) && Enabled(cfg, s, a) && (a.PackChunk? || a.Flush? || a.PublishBucket? || a.FinishSending?)
    ensures Left(cfg, |bs|, 0, Apply(cfg, s, a).nodes[0]) < Left(cfg, |bs|, 0, s.nodes[0])
  {
  }

  lemma CopiedBound(cfg: Config, bs: seq<Bucket>, r: nat, up: Node, l: Link, n: Node)
    requires r > 0 && NodeOk(cfg, bs)(r, n) && LinkOk(bs)(up, l, n) && n.xfer.Some? && !n.xfer.value.done
    ensures |n.xfer.value.copied| <= cfg.bucketSize
  {
    assert CopyInv(up, n) && NodeInv(cfg, bs, r, n);
    RangeCardinality(n.xfer.value.copied, cfg.bucketSize);
  }

  lemma CopiedBoundAt(cfg: Config, bs: seq<Bucket>, s: State, r: nat)
    requires Inv(cfg, bs, s) && 0 < r < |s.nodes| && s.nodes[r].xfer.Some? && !s.nodes[r].xfer.value.done
    ensures |s.nodes[r].xfer.value.copied| <= cfg.bucketSize
  {
    At(cfg, bs, s, r);
    CopiedBound(cfg, bs, r, s.nodes[r - 1], s.links[r - 1], s.nodes[r]);
  }

  lemma BeginReadUses(cfg: Config, bs: seq<Bucket>, r: nat, n: Node, m: Message)
    requires r > 0 && NodeOk(cfg, bs)(r, n) && n.pc == AwaitMeta
    ensures Left(cfg, |bs|, r, n.Begun(m)) < Left(cfg, |bs|, r, n)
  {
    assert XferInv(bs, n) && ReceiverInv(bs, n);
    assert Completed(n.Begun(m)) == Completed(n);
  }

  lemma CompleteReadUses(cfg: Config, bs: seq<Bucket>, r: nat, n: Node)
    requires r > 0 && NodeOk(cfg, bs)(r, n)
    requires n.xfer.Some? && !n.xfer.value.done && |n.xfer.value.copied| <= cfg.bucketSize
    ensures Left(cfg, |bs|, r, n.ReadDone()) < Left(cfg, |bs|, r, n)
  {
    assert XferInv(bs, n);
    assert Completed(n) + 1 == Completed(n.ReadDone()) <= |bs|;
    assert ReadsLeft(cfg.bucketSize, |bs| - Completed(n)) == cfg.bucketSize + 1 + ReadsLeft(cfg.bucketSize, |bs| - n.begun);
  }

  lemma ReadUses(cfg: Config, bs: seq<Bucket>, s: State, a: Action)
    requires Inv(cfg, bs, s) && WellFormed(cfg, s) && Enabled(cfg, s, a) && (a.BeginRead? || a.CompleteRead?)
    ensures Left(cfg, |bs|, a.r, Apply(cfg, s, a).nodes[a.r]) < Left(cfg, |bs|, a.r, s.nodes[a.r])
  {
    hide Inv, Left, NodeOk;
    At(cfg, bs, s, a.r);
    if a.BeginRead? {
      BeginReadUses(cfg, bs, a.r, s.nodes[a.r], s.links[a.r - 1].messages[0]);
    } else {
      CopiedBoundAt(cfg, bs, s, a.r);
      CompleteReadUses(cfg, bs, a.r, s.nodes[a.r]);
    }
  }

  lemma CopyUses(cfg: Config, K: nat, s: State, r: nat, i: nat)
    requires WellFormed(cfg, s) && Enabled(cfg, s, CopyByte(r, i))
    ensures Left(cfg, K, r, Apply(cfg, s, CopyByte(r, i)).nodes[r]) < Left(cfg, K, r, s.nodes[r])
  {
    hide ReadsLeft;
    assert Completed(Apply(cfg, s, CopyByte(r, i)).nodes[r]) == Completed(s.nodes[r]);
  }

  lemma ServeUses(cfg: Config, K: nat, s: State, a: Action)
    requires WellFormed(cfg, s) && Enabled(cfg, s, a) && (a.YieldChunk? || a.Acknowledge? || a.Install? || a.Forward?)
    ensures Left(cfg, K, a.r, Apply(cfg, s, a).nodes[a.r]) < Left(cfg, K, a.r, s.nodes[a.r])
  {
    hide ReadsLeft;
    assert Completed(Apply(cfg, s, a).nodes[a.r]) == Completed(s.nodes[a.r]);
  }

  lemma StepUses(cfg: Config, bs: seq<Bucket>, s: State, a: Action)
    requires Inv(cfg, bs, s) && WellFormed(cfg, s) && Enabled(cfg, s, a)
    ensures Work(cfg, |bs|, Apply(cfg, s, a)) < Work(cfg, |bs|, s)
  {
    hide Inv, Left, Sum;
    var r, s' := Actor(a), Apply(cfg, s, a);
    ActorOnly(cfg, s, a);
    SumOne(s.nodes, LeftOf(cfg, |bs|), r, s'.nodes[r]);
    if a.PackChunk? || a.Flush? || a.PublishBucket? || a.FinishSending? {
      SenderUses(cfg, bs, s, a);
    } else if a.BeginRead? || a.CompleteRead? {
      ReadUses(cfg, bs, s, a);
    } else if a.CopyByte? {
      CopyUses(cfg, |bs|, s, a.r, a.i);
    } else {
      ServeUses(cfg, |bs|, s, a);
    }
  }

  lemma SenderLeft(cfg: Config, bs: seq<Bucket>, n: Node)
    requires NodeOk(cfg, bs)(0, n)
    ensures Left(cfg, |bs|, 0, n) >= 0
  {
    assert SenderInv(bs, cfg.bucketSize, n) && OutstandingInv(bs, n);
  }

  lemma ReceiverLeft(cfg: Config, bs: seq<Bucket>, r: nat, n: Node)
    requires r > 0 && NodeOk(cfg, bs)(r, n) && |n.out| <= |cfg.chunks|
    requires n.xfer.Some? && !n.xfer.value.done ==> |n.xfer.value.copied| <= cfg.bucketSize
    ensures Left(cfg, |bs|, r, n) >= 0
  {
    assert ReceiverInv(bs, n) && XferInv(bs, n);
    if n.xfer.Some? && !n.xfer.value.done {
      assert |bs| - Completed(n) > 0;
    }
  }

  lemma LeftNonNegative(cfg: Config, bs: seq<Bucket>, s: State, r: nat)
    requires Inv(cfg, bs, s) && ChunksOf(Flatten(bs)) == cfg.chunks && r < |s.nodes|
    ensures Left(cfg, |bs|, r, s.nodes[r]) >= 0
  {
    hide Inv, Left;
    At(cfg, bs, s, r);
    if r == 0 {
      SenderLeft(cfg, bs, s.nodes[0]);
    } else {
      OutIsPrefix(bs, s.nodes[r]);
      if s.nodes[r].xfer.Some? && !s.nodes[r].xfer.value.done {
        CopiedBoundAt(cfg, bs, s, r);
      }
      ReceiverLeft(cfg, bs, r, s.nodes[r]);
    }
  }

  /** All the work of a transfer of `K` buckets. */
  function TotalWork(cfg: Config, K: nat): nat {
    |cfg.chunks| + 3 * K + 1 + (5 * K + |cfg.chunks| + cfg.bucketSize * K) * cfg.rollouts
  }

  lemma InitialWork(cfg: Config, K: nat, s: State)
    requires Init(cfg, s)
    ensures Work(cfg, K, s) <= TotalWork(cfg, K)
  {
    var f, others := LeftOf(cfg, K), 5 * K + |cfg.chunks| + cfg.bucketSize * K;
    forall r: nat | r < |s.nodes| ensures 0 <= f(r, s.nodes[r]) <= if r == 0 then |cfg.chunks| + 3 * K + 1 else others {
      assert Fresh(s.nodes[r], r == 0);
      ReadsLeftProduct(cfg.bucketSize, K);
    }
    SumBound(s.nodes, f, 0, |cfg.chunks| + 3 * K + 1, others);
  }

  lemma {:induction false} RunUses(cfg: Config, bs: seq<Bucket>, run: seq<State>)
    requires ValidConfig(cfg, bs) && IsRun(cfg, run)
    ensures |run| - 1 + Work(cfg, |bs|, run[|run| - 1]) <= TotalWork(cfg, |bs|)
    decreases |run|
  {
    hide Inv, Work, TotalWork, Apply, Enabled, ValidConfig;
    var last := |run| - 1;
    if last == 0 {
      InitialWork(cfg, |bs|, run[0]);
    } else {
      var s := run[..last][last - 1];
      RunUses(cfg, bs, run[..last]);
      RunInv(cfg, bs, run[..last]);
      var a :| Enabled(cfg, s, a) && run[last] == Apply(cfg, s, a);
      StepUses(cfg, bs, s, a);
    }
  }

  /** No schedule goes on forever: every run has at most `TotalWork` steps. Together with `NeverDeadlocks`, every
      run that is continued while an action is enabled ends with all ranks done. */
  lemma RunsAreBounded(cfg: Config, bs: seq<Bucket>, run: seq<State>)
    requires ValidConfig(cfg, bs) && ChunksOf(Flatten(bs)) == cfg.chunks && IsRun(cfg, run)
    ensures |run| <= TotalWork(cfg, |bs|) + 1
  {
    hide Inv, Left, TotalWork, Sum, Flatten;
    var s := run[|run| - 1];
    RunUses(cfg, bs, run);
    RunInv(cfg, bs, run);
    var f := LeftOf(cfg, |bs|);
    forall r: nat | r < |s.nodes| ensures f(r, s.nodes[r]) >= 0 {
      LeftNonNegative(cfg, bs, s, r);
    }
    SumNonNegative(s.nodes, f);
  }

  // ---------- What runs end with ----------

  /** All ranks are done, and the rollout ranks have rebuilt the weights. */
  ghost predicate Delivered(ws: seq<Weight>, cfg: Config, s: State, junk: byte) {
    && Final(s)
    && forall r :: 0 < r < |s.nodes| ==> Merge(s.nodes[r].out, cfg.bucketSize, junk) == Ok(NonEmpty(ws))
  }

  lemma FinalDelivers(ws: seq<Weight>, cfg: Config, s: State, junk: byte)
    requires Sendable(ws, cfg) && Reachable(cfg, s) && Final(s) && |s.nodes| > 1
    ensures StartsFit(ws, 0, cfg.bucketSize) && Delivered(ws, cfg, s, junk)
  {
    hide StartsFit, Reachable, MergeFrom;
    assert s.nodes[1] in s.nodes;
    EveryRankGetsTheWeights(ws, cfg, s, 1, junk);
    forall r | 0 < r < |s.nodes| ensures Merge(s.nodes[r].out, cfg.bucketSize, junk) == Ok(NonEmpty(ws)) {
      assert s.nodes[r] in s.nodes;
      EveryRankGetsTheWeights(ws, cfg, s, r, junk);
    }
  }

  /** A run that cannot be continued has delivered the weights to all rollout ranks if and only if every weight that
      fits into a bucket starts at a multiple of its item size. */
  lemma MaximalRunDelivers(ws: seq<Weight>, cfg: Config, run: seq<State>, junk: byte)
    requires Sendable(ws, cfg) && IsRun(cfg, run)
    ensures WellFormed(cfg, run[|run| - 1])
    ensures !CanStep(cfg, run[|run| - 1]) ==>
      (Delivered(ws, cfg, run[|run| - 1], junk) <==> StartsFit(ws, 0, cfg.bucketSize))
  {
    hide StartsFit, Receivable, CanStep, Inv, ValidConfig;
    var s, bs := run[|run| - 1], Pack(cfg.chunks, cfg.bucketSize);
    SplitIsValid(ws, cfg.bucketSize, cfg.rollouts);
    assert Reachable(cfg, s);
    hide Reachable;
    ReachableInv(cfg, bs, s);
    InvSizes(cfg, bs, s);
    ReceivableIff(ws, cfg);
    if !CanStep(cfg, s) {
      if StartsFit(ws, 0, cfg.bucketSize) && !Final(s) { NeverDeadlocks(cfg, bs, s); }
      if Final(s) { FinalDelivers(ws, cfg, s, junk); }
    }
  }

  // ---------- When the chain is free of deadlocks ----------

  function BlankNode(cfg: Config, pc: Pc, todo: seq<Chunk>): Node {
    var image := seq(cfg.bucketSize, _ => 0);
    Node(pc, image, image, A, None, Meta([], false), Meta([], false), [], todo, [], 0, 0, 0, 0)
  }

  function InitialState(cfg: Config): (s: State)
    requires cfg.rollouts >= 1
    ensures Init(cfg, s)
  {
    State([BlankNode(cfg, Packing, cfg.chunks)] + seq(cfg.rollouts, _ => BlankNode(cfg, AwaitMeta, [])),
          seq(cfg.rollouts, _ => Link([], [])))
  }

  /** Every run can be continued to one that cannot be continued any further. */
  lemma {:induction false} RunEnds(cfg: Config, bs: seq<Bucket>, run: seq<State>) returns (longer: seq<State>)
    requires ValidConfig(cfg, bs) && ChunksOf(Flatten(bs)) == cfg.chunks && IsRun(cfg, run)
    ensures IsRun(cfg, longer) && WellFormed(cfg, longer[|longer| - 1]) && !CanStep(cfg, longer[|longer| - 1])
    decreases TotalWork(cfg, |bs|) + 1 - |run|
  {
    hide Inv, TotalWork, Apply, Enabled, WellFormed, ValidConfig, Flatten, ChunksOf;
    var s := run[|run| - 1];
    RunInv(cfg, bs, run);
    InvHasRollouts(cfg, bs);
    InvSizes(cfg, bs, s);
    RunsAreBounded(cfg, bs, run);
    if CanStep(cfg, s) {
      var a :| Enabled(cfg, s, a);
      var more := run + [Apply(cfg, s, a)];
      assert more[..|run|] == run && Steps(cfg, s, more[|run|]);
      assert IsRun(cfg, more);
      RunsAreBounded(cfg, bs, more);
      longer := RunEnds(cfg, bs, more);
    } else {
      longer := run;
    }
  }

  lemma InvHasRollouts(cfg: Config, bs: seq<Bucket>)
    requires ValidConfig(cfg, bs)
    ensures cfg.rollouts >= 1
  {
  }

  ghost predicate DeadlockFree(cfg: Config) {
    forall s | Reachable(cfg, s) && WellFormed(cfg, s) :: Final(s) || CanStep(cfg, s)
  }

  /** The exact condition for the chain never to get stuck, in any run. */
  lemma DeadlockFreeIff(ws: seq<Weight>, cfg: Config)
    requires Sendable(ws, cfg)
    ensures DeadlockFree(cfg) <==> StartsFit(ws, 0, cfg.bucketSize)
  {
    hide StartsFit, Receivable, CanStep, Inv, ValidConfig, WellFormed;
    var bs := Pack(cfg.chunks, cfg.bucketSize);
    SplitIsValid(ws, cfg.bucketSize, cfg.rollouts);
    ReceivableIff(ws, cfg);
    if StartsFit(ws, 0, cfg.bucketSize) {
      forall s | Reachable(cfg, s) && WellFormed(cfg, s) ensures Final(s) || CanStep(cfg, s) {
        if !Final(s) { NeverDeadlocks(cfg, bs, s); }
      }
    } else {
      var start := [InitialState(cfg)];
      assert IsRun(cfg, start);
      var run := RunEnds(cfg, bs, start);
      assert Reachable(cfg, run[|run| - 1]);
      MaximalRunDelivers(ws, cfg, run, 0);
      NotDelivered(ws, cfg, run[|run| - 1]);
    }
  }

  lemma NotDelivered(ws: seq<Weight>, cfg: Config, s: State)
    requires Sendable(ws, cfg) && Reachable(cfg, s) && WellFormed(cfg, s) && !StartsFit(ws, 0, cfg.bucketSize)
    ensures !Final(s)
  {
    hide StartsFit, Reachable;
    if Final(s) { FinalDelivers(ws, cfg, s, 0); }
  }
}
