// The Mooncake chain never deadlocks and always finishes.
module MooncakeProgress {
  import opened Common
  import opened Shapes
  import opened WeightChunks
  import opened BucketPacking
  import opened ViewAlignment
  import opened MooncakeRelay
  import opened MooncakeSafety
  import opened MooncakeDelivery

  ghost predicate CanStep(cfg: Config, s: State)
    requires WellFormed(cfg, s)
  {
    exists a :: Enabled(cfg, s, a)
  }

  predicate Final(s: State) {
    forall n <- s.nodes :: n.pc == Sent || n.pc == Done
  }

  // ---------- Deadlock freedom ----------

  /** Receivers get through all buckets. */
  ghost predicate AllViewable(cfg: Config, bs: seq<Bucket>) {
    LegalBuckets(cfg, bs) == |bs|
  }

  lemma LegalSlot(cfg: Config, bs: seq<Bucket>, k: nat, i: nat)
    requires AllViewable(cfg, bs) && k < |bs| && i < |InfoFor(bs, k).slots|
    ensures LegalAt(cfg.bucketSize, k, InfoFor(bs, k).slots[i])
  {
    hide LegalAt;
    assert BucketLegal(cfg, bs, k);
  }

  lemma QueueFilled(bs: seq<Bucket>, up: Node, q: seq<Info>, n: Node)
    requires LinkOk(bs)(up, q, n)
    ensures q != [] <==> TakenOf(n) < SentOf(up)
  {
    assert LinkInv(bs, up, q, n);
  }

  lemma NodeFacts(cfg: Config, bs: seq<Bucket>, r: nat, n: Node)
    requires NodeOk(cfg, bs)(r, n)
    ensures n.k <= |bs| && (n.pc == Sent || n.pc == Done <==> n.k == |bs|)
    ensures r == 0 <==> n.pc == Filling || n.pc == Placing || n.pc == WaitReuse || n.pc == WaitLast || n.pc == Sent
    ensures n.pc == WaitReuse || n.pc == WaitAck ==> n.k >= 2
    ensures n.pc == WaitAck ==> r < cfg.rollouts
    ensures n.pc.Yielding? ==> n.pc.next <= |n.info.slots|
    ensures r > 0 && n.pc != Receiving && n.pc != Done ==> n.info == InfoFor(bs, n.k)
    ensures n.pc == Reading ==> |n.copied| <= |PayloadOf(bs[n.k])|
  {
    hide EntriesUpTo, PackFrom, Whole, Holds;
    if n.pc == Reading { RangeCardinality(n.copied, |PayloadOf(bs[n.k])|); }
  }

  /** A half is stamped, or the next rank has still to acknowledge the bucket in it. */
  lemma StampedOrAwaited(bs: seq<Bucket>, n: Node, q: seq<Info>, down: Node, k: nat)
    requires LinkOk(bs)(n, q, down) && (k + 1 == FilledOf(n) || (!Refilling(n) && k + 2 == FilledOf(n)))
    ensures StartsWithMagic(n.Buf(HalfOf(k))) || down.k <= k
  {
    hide HalfOf, PayloadOf, Announcements;
    assert LinkInv(bs, n, q, down) && BufferInv(bs, n, k, down.k);
    MagicMeansAcked(bs, n, k, down.k);
  }

  /** A receiver that has something to do and does not wait for the next rank can act. */
  lemma ReceiverGoesOn(cfg: Config, bs: seq<Bucket>, s: State, r: nat)
    requires ValidConfig(cfg, bs) && AllViewable(cfg, bs) && Inv(cfg, bs, s) && WellFormed(cfg, s) && 0 < r < |s.nodes|
    requires s.nodes[r].pc != Done && s.nodes[r].pc != WaitAck && (s.nodes[r].pc == Receiving ==> s.queues[r - 1] != [])
    ensures CanStep(cfg, s)
  {
    hide Inv, ValidConfig, AllViewable, NodeOk, LinkOk, HalfOf, StartsWithMagic, SlotsOf, Size, PayloadOf, Whole, LegalAt;
    var n := s.nodes[r];
    At(cfg, bs, s, r);
    NodeFacts(cfg, bs, r, n);
    if n.pc == Receiving {
      assert Enabled(cfg, s, Receive(r));
    } else if n.pc == Reading {
      Good(cfg, bs, n.k);
      if i :| 0 <= i < n.info.len && i !in n.copied {
        assert Enabled(cfg, s, CopyByte(r, i));
      } else {
        assert Enabled(cfg, s, CompleteRead(r));
      }
    } else if n.pc == Forwarding {
      assert Enabled(cfg, s, Forward(r));
    } else if n.pc.next < |n.info.slots| {
      LegalSlot(cfg, bs, n.k, n.pc.next);
      assert Enabled(cfg, s, YieldWeight(r));
    } else {
      assert Enabled(cfg, s, Ack(r));
    }
  }

  /** A rank waits for an acknowledgement only while some rank behind it can act. */
  lemma {:induction false} SomebodyBelowActs(cfg: Config, bs: seq<Bucket>, s: State, r: nat)
    requires ValidConfig(cfg, bs) && AllViewable(cfg, bs) && Inv(cfg, bs, s) && WellFormed(cfg, s) && r < cfg.rollouts
    requires s.nodes[r + 1].k < SentOf(s.nodes[r])
    ensures CanStep(cfg, s)
    decreases cfg.rollouts - r, 0
  {
    hide Inv, CanStep, NodeOk, LinkOk, ValidConfig;
    At(cfg, bs, s, r + 1);
    var n := s.nodes[r + 1];
    NodeFacts(cfg, bs, r + 1, n);
    QueueFilled(bs, s.nodes[r], s.queues[r], n);
    SentBound(bs, s.nodes[r], s.queues[r], n);
    if n.pc == WaitAck {
      WaitingActs(cfg, bs, s, r + 1);
    } else {
      ReceiverGoesOn(cfg, bs, s, r + 1);
    }
  }

  lemma SentBound(bs: seq<Bucket>, up: Node, q: seq<Info>, n: Node)
    requires LinkOk(bs)(up, q, n)
    ensures SentOf(up) <= |bs|
  {
  }

  /** A receiver that polls its half, or somebody behind it, can act. */
  lemma {:induction false} WaitingActs(cfg: Config, bs: seq<Bucket>, s: State, r: nat)
    requires ValidConfig(cfg, bs) && AllViewable(cfg, bs) && Inv(cfg, bs, s) && WellFormed(cfg, s) && 0 < r < |s.nodes|
    requires s.nodes[r].pc == WaitAck
    ensures CanStep(cfg, s)
    decreases cfg.rollouts - r, 1
  {
    hide Inv, NodeOk, LinkOk, ValidConfig, StartsWithMagic;
    At(cfg, bs, s, r);
    var n := s.nodes[r];
    NodeFacts(cfg, bs, r, n);
    StampedOrAwaited(bs, n, s.queues[r], s.nodes[r + 1], n.k - 2);
    assert HalfOf(n.k - 2) == HalfOf(n.k);
    if StartsWithMagic(n.Current()) {
      assert Enabled(cfg, s, AckSeen(r));
    } else {
      SomebodyBelowActs(cfg, bs, s, r);
    }
  }

  lemma SenderActs(cfg: Config, bs: seq<Bucket>, s: State)
    requires ValidConfig(cfg, bs) && AllViewable(cfg, bs) && Inv(cfg, bs, s) && WellFormed(cfg, s) && s.nodes[0].pc != Sent
    ensures CanStep(cfg, s)
  {
    hide Inv, LinkOk, ValidConfig, StartsWithMagic;
    At(cfg, bs, s, 0);
    var n, q, down := s.nodes[0], s.queues[0], s.nodes[1];
    if n.pc == Filling || n.pc == Placing {
      if n.pc == Placing { NextFits(cfg, bs, n); }
      assert Enabled(cfg, s, if n.pc == Filling && n.MustFlush(cfg.bucketSize) then Send else PackWeight);
    } else {
      hide NodeOk;
      NodeFacts(cfg, bs, 0, n);
      var k := if n.pc == WaitReuse then n.k - 2 else n.k;
      StampedOrAwaited(bs, n, q, down, k);
      assert HalfOf(k) == HalfOf(n.k);
      if StartsWithMagic(n.Current()) {
        assert Enabled(cfg, s, if n.pc == WaitReuse then Reuse else Finish);
      } else {
        SomebodyBelowActs(cfg, bs, s, 0);
      }
    }
  }

  /** From a rank that is not done an enabled action is found, looking up the chain while ranks wait for metadata. */
  lemma {:induction false} SomebodyActs(cfg: Config, bs: seq<Bucket>, s: State, r: nat)
    requires ValidConfig(cfg, bs) && AllViewable(cfg, bs) && Inv(cfg, bs, s) && WellFormed(cfg, s) && r < |s.nodes|
    requires s.nodes[r].pc != Sent && s.nodes[r].pc != Done
    ensures CanStep(cfg, s)
    decreases r
  {
    hide Inv, CanStep, NodeOk, LinkOk, ValidConfig;
    if r == 0 {
      SenderActs(cfg, bs, s);
    } else if s.nodes[r].pc == WaitAck {
      WaitingActs(cfg, bs, s, r);
    } else if s.nodes[r].pc != Receiving || s.queues[r - 1] != [] {
      ReceiverGoesOn(cfg, bs, s, r);
    } else {
      At(cfg, bs, s, r);
      At(cfg, bs, s, r - 1);
      NodeFacts(cfg, bs, r, s.nodes[r]);
      NodeFacts(cfg, bs, r - 1, s.nodes[r - 1]);
      QueueFilled(bs, s.nodes[r - 1], s.queues[r - 1], s.nodes[r]);
      SomebodyActs(cfg, bs, s, r - 1);
    }
  }

  /** In every reachable state that is not final, some action is enabled. */
  lemma NeverDeadlocks(cfg: Config, bs: seq<Bucket>, s: State)
    requires ValidConfig(cfg, bs) && Tellable(cfg, bs) && AllViewable(cfg, bs) && Reachable(cfg, s) && !Final(s)
    ensures WellFormed(cfg, s) && CanStep(cfg, s)
  {
    hide Inv, CanStep, Reachable, ValidConfig, Tellable, AllViewable;
    ReachableInv(cfg, bs, s);
    var n :| n in s.nodes && n.pc != Sent && n.pc != Done;
    var r :| 0 <= r < |s.nodes| && s.nodes[r] == n;
    SomebodyActs(cfg, bs, s, r);
  }

  // ---------- Termination ----------

  function Rank(pc: Pc): nat {
    match pc
    case Filling | Placing => 1
    case WaitReuse => 2
    case WaitLast | Sent => 0
    case Receiving => 5
    case WaitAck => 4
    case Reading => 3
    case Forwarding => 2
    case Yielding(_) => 1
    case Done => 0
  }

  function InFlight(n: Node): set<nat> {
    if n.pc == Reading then n.copied else {}
  }

  /** Buckets that a receiver has transferred. */
  function ReadOf(n: Node): nat {
    if n.pc == Forwarding || n.pc.Yielding? then n.k + 1 else n.k
  }

  /** What is left to do for one rank. */
  function Left(cfg: Config, K: nat, r: nat, n: Node): int {
    if r == 0 then |n.todo| + 2 * (K - n.k) + Rank(n.pc)
    else
      7 * (K - n.k) + Rank(n.pc) + (|cfg.chunks| - |n.out|) + ReadsLeft(cfg.bucketSize, K - ReadOf(n)) - |InFlight(n)|
  }

  ghost function LeftOf(cfg: Config, K: nat): (nat, Node) -> int {
    (r: nat, n: Node) => Left(cfg, K, r, n)
  }

  ghost function Work(cfg: Config, K: nat, s: State): int {
    Sum(s.nodes, LeftOf(cfg, K))
  }

  function Actor(a: Action): nat {
    if OfSender(a) then 0 else a.r
  }

  lemma SenderUses(cfg: Config, K: nat, s: State, a: Action)
    requires WellFormed(cfg, s) && Enabled(cfg, s, a) && OfSender(a)
    ensures Left(cfg, K, 0, Apply(cfg, s, a).nodes[0]) < Left(cfg, K, 0, s.nodes[0])
  {
    hide HalfOf, StartsWithMagic, Overwrite, Size;
  }

  lemma CopyUses(cfg: Config, K: nat, r: nat, n: Node, up: Node, i: nat)
    requires r > 0 && n.pc == Reading && i !in n.copied && i < |n.Current()| && i < |up.Buf(n.info.src)|
    ensures Left(cfg, K, r, n.Copied(up, i)) < Left(cfg, K, r, n)
  {
    hide ReadsLeft, HalfOf;
  }

  lemma ReadUses(cfg: Config, K: nat, r: nat, n: Node)
    requires r > 0 && n.pc == Reading && |n.copied| <= cfg.bucketSize && n.k < K
    ensures Left(cfg, K, r, n.ReadDone()) < Left(cfg, K, r, n)
  {
    assert ReadsLeft(cfg.bucketSize, K - n.k) == cfg.bucketSize + 1 + ReadsLeft(cfg.bucketSize, K - n.k - 1);
  }

  lemma ReceiverUses(cfg: Config, K: nat, s: State, a: Action)
    requires WellFormed(cfg, s) && Enabled(cfg, s, a) && !OfSender(a) && !a.CopyByte? && !a.CompleteRead?
    ensures Left(cfg, K, a.r, Apply(cfg, s, a).nodes[a.r]) < Left(cfg, K, a.r, s.nodes[a.r])
  {
    hide ReadsLeft, HalfOf, StartsWithMagic, Overwrite, ReadSlot;
  }

  lemma StampUses(cfg: Config, K: nat, r: nat, up: Node, h: Half)
    requires |up.Buf(h)| >= 4
    ensures Left(cfg, K, r, up.Stamp(h)) == Left(cfg, K, r, up)
  {
    hide ReadsLeft, Overwrite;
  }

  lemma ActorUses(cfg: Config, bs: seq<Bucket>, s: State, a: Action)
    requires ValidConfig(cfg, bs) && Inv(cfg, bs, s) && WellFormed(cfg, s) && Enabled(cfg, s, a)
    ensures Actor(a) < |s.nodes| == |Apply(cfg, s, a).nodes|
    ensures Left(cfg, |bs|, Actor(a), Apply(cfg, s, a).nodes[Actor(a)]) < Left(cfg, |bs|, Actor(a), s.nodes[Actor(a)])
  {
    hide Inv, Left, NodeOk, LinkOk, ValidConfig, HalfOf, StartsWithMagic;
    if OfSender(a) {
      SenderUses(cfg, |bs|, s, a);
    } else if a.CopyByte? {
      assert s.nodes[a.r] in s.nodes && s.nodes[a.r - 1] in s.nodes;
      CopyUses(cfg, |bs|, a.r, s.nodes[a.r], s.nodes[a.r - 1], a.i);
    } else if a.CompleteRead? {
      At(cfg, bs, s, a.r);
      NodeFacts(cfg, bs, a.r, s.nodes[a.r]);
      Good(cfg, bs, s.nodes[a.r].k);
      ReadUses(cfg, |bs|, a.r, s.nodes[a.r]);
    } else {
      ReceiverUses(cfg, |bs|, s, a);
    }
  }

  /** An action changes its actor; an acknowledgement also stamps the rank before it. */
  lemma ActorOnly(cfg: Config, s: State, a: Action)
    requires WellFormed(cfg, s) && Enabled(cfg, s, a)
    ensures Actor(a) < |s.nodes| == |Apply(cfg, s, a).nodes|
    ensures !a.Ack? ==> Apply(cfg, s, a).nodes == s.nodes[Actor(a) := Apply(cfg, s, a).nodes[Actor(a)]]
    ensures a.Ack? ==> Actor(a) > 0
    ensures a.Ack? ==>
      var (up, h) := (s.nodes[a.r - 1], s.nodes[a.r].info.src);
      |up.Buf(h)| >= 4 && Apply(cfg, s, a).nodes == s.nodes[a.r - 1 := up.Stamp(h)][a.r := Apply(cfg, s, a).nodes[a.r]]
  {
    hide HalfOf, StartsWithMagic, Overwrite, Size;
    if a.Ack? { assert s.nodes[a.r - 1] in s.nodes; }
  }

  lemma StepUses(cfg: Config, bs: seq<Bucket>, s: State, a: Action)
    requires ValidConfig(cfg, bs) && Inv(cfg, bs, s) && WellFormed(cfg, s) && Enabled(cfg, s, a)
    ensures Work(cfg, |bs|, Apply(cfg, s, a)) < Work(cfg, |bs|, s)
  {
    hide Inv, Left, Sum, Enabled, Apply, ValidConfig, Node.Stamp, WellFormed;
    ActorOnly(cfg, s, a);
    ActorUses(cfg, bs, s, a);
    var r, n', f := Actor(a), Apply(cfg, s, a).nodes[Actor(a)], LeftOf(cfg, |bs|);
    if a.Ack? {
      var up, h := s.nodes[r - 1], s.nodes[r].info.src;
      StampUses(cfg, |bs|, r - 1, up, h);
      SumOne(s.nodes, f, r - 1, up.Stamp(h));
      SumOne(s.nodes[r - 1 := up.Stamp(h)], f, r, n');
    } else {
      SumOne(s.nodes, f, r, n');
    }
  }

  lemma LeftNonNegative(cfg: Config, bs: seq<Bucket>, r: nat, n: Node)
    requires ValidConfig(cfg, bs) && NodeOk(cfg, bs)(r, n)
    ensures Left(cfg, |bs|, r, n) >= 0
  {
    hide NodeOk, ValidConfig;
    NodeFacts(cfg, bs, r, n);
    BucketsHoldAll(cfg, bs);
    if r > 0 {
      OutOfNode(cfg, bs, r, n);
      if n.pc == Reading {
        Good(cfg, bs, n.k);
        assert ReadsLeft(cfg.bucketSize, |bs| - n.k) >= cfg.bucketSize;
      }
    }
  }

  /** All the work of a transfer of `K` buckets. */
  function TotalWork(cfg: Config, K: nat): nat {
    |cfg.chunks| + 2 * K + 1 + (8 * K + 5 + |cfg.chunks| + cfg.bucketSize * K) * cfg.rollouts
  }

  lemma FreshLeft(cfg: Config, K: nat, r: nat, n: Node)
    requires Fresh(n, r == 0)
    ensures Left(cfg, K, r, n) == if r == 0 then |n.todo| + 2 * K + 1 else 8 * K + 5 + |cfg.chunks| + cfg.bucketSize * K
  {
    ReadsLeftProduct(cfg.bucketSize, K);
  }

  lemma InitialWork(cfg: Config, K: nat, s: State)
    requires Init(cfg, s)
    ensures Work(cfg, K, s) <= TotalWork(cfg, K)
  {
    hide Left, Sum;
    var f, others := LeftOf(cfg, K), 8 * K + 5 + |cfg.chunks| + cfg.bucketSize * K;
    forall r: nat | r < |s.nodes| ensures 0 <= f(r, s.nodes[r]) <= if r == 0 then |cfg.chunks| + 2 * K + 1 else others {
      FreshLeft(cfg, K, r, s.nodes[r]);
    }
    SumBound(s.nodes, f, 0, |cfg.chunks| + 2 * K + 1, others);
  }

  lemma {:induction false} RunUses(cfg: Config, bs: seq<Bucket>, run: seq<State>)
    requires ValidConfig(cfg, bs) && Tellable(cfg, bs) && IsRun(cfg, run)
    ensures |run| - 1 + Work(cfg, |bs|, run[|run| - 1]) <= TotalWork(cfg, |bs|)
    decreases |run|
  {
    hide Inv, Work, TotalWork, Apply, Enabled, ValidConfig, Tellable;
    var last := |run| - 1;
    if last == 0 {
      InitialWork(cfg, |bs|, run[0]);
    } else {
      var s := run[..last][last - 1];
      RunUses(cfg, bs, run[..last]);
      RunInv(cfg, bs, run[..last]);
      var a :| Enabled(cfg, s, a) && run[last] == Apply(cfg, s, a);
      StepUses(cfg, bs, s, a);
    }
  }

  /** No schedule goes on forever. */
  lemma RunsAreBounded(cfg: Config, bs: seq<Bucket>, run: seq<State>)
    requires ValidConfig(cfg, bs) && Tellable(cfg, bs) && IsRun(cfg, run)
    ensures |run| <= TotalWork(cfg, |bs|) + 1
  {
    hide Inv, NodeOk, LinkOk, Left, TotalWork, Sum, ValidConfig, Tellable;
    var s, f := run[|run| - 1], LeftOf(cfg, |bs|);
    RunUses(cfg, bs, run);
    RunInv(cfg, bs, run);
    forall r: nat | r < |s.nodes| ensures f(r, s.nodes[r]) >= 0 {
      At(cfg, bs, s, r);
      LeftNonNegative(cfg, bs, r, s.nodes[r]);
    }
    SumNonNegative(s.nodes, f);
  }

  /** The sender has returned, every receiver is done, and the last one has yielded exactly the weights. */
  ghost predicate EndedWell(cfg: Config, s: State)
    requires WellFormed(cfg, s)
  {
    Final(s) && s.nodes[cfg.rollouts].out == cfg.chunks
  }

  lemma FinalIsWell(cfg: Config, bs: seq<Bucket>, s: State)
    requires ValidConfig(cfg, bs) && Tellable(cfg, bs) && Reachable(cfg, s) && WellFormed(cfg, s) && Final(s)
    ensures AllViewable(cfg, bs) && EndedWell(cfg, s)
  {
    hide Inv, NodeOk, ValidConfig, Tellable, LegalBuckets;
    var n := s.nodes[cfg.rollouts];
    ReachableInv(cfg, bs, s);
    LastRankIsExact(cfg, bs, s);
    At(cfg, bs, s, cfg.rollouts);
    NodeFacts(cfg, bs, cfg.rollouts, n);
    OutOfNode(cfg, bs, cfg.rollouts, n);
    assert n in s.nodes;
  }

  /** A run that cannot be continued has ended well if and only if all weights can be viewed. */
  lemma MaximalRunDelivers(cfg: Config, bs: seq<Bucket>, run: seq<State>)
    requires ValidConfig(cfg, bs) && Tellable(cfg, bs) && IsRun(cfg, run)
    ensures var s := run[|run| - 1];
      WellFormed(cfg, s) && (!CanStep(cfg, s) ==> (EndedWell(cfg, s) <==> AllViewable(cfg, bs)))
  {
    hide Inv, NodeOk, CanStep, ValidConfig, Tellable, AllViewable;
    var s := run[|run| - 1];
    assert Reachable(cfg, s);
    hide Reachable;
    ReachableInv(cfg, bs, s);
    if !CanStep(cfg, s) {
      if AllViewable(cfg, bs) && !Final(s) { NeverDeadlocks(cfg, bs, s); }
      if Final(s) { FinalIsWell(cfg, bs, s); }
    }
  }

  // ---------- When the chain is free of deadlocks ----------

  /** Every run can be continued to one that cannot be continued any further. */
  lemma {:induction false} RunEnds(cfg: Config, bs: seq<Bucket>, run: seq<State>) returns (longer: seq<State>)
    requires ValidConfig(cfg, bs) && Tellable(cfg, bs) && IsRun(cfg, run)
    ensures IsRun(cfg, longer) && WellFormed(cfg, longer[|longer| - 1]) && !CanStep(cfg, longer[|longer| - 1])
    decreases TotalWork(cfg, |bs|) + 1 - |run|
  {
    hide Inv, TotalWork, Apply, Enabled, WellFormed, ValidConfig, Tellable;
    var s := run[|run| - 1];
    RunInv(cfg, bs, run);
    InvSizes(cfg, bs, s);
    RunsAreBounded(cfg, bs, run);
    if CanStep(cfg, s) {
      var a :| Enabled(cfg, s, a);
      var more := run + [Apply(cfg, s, a)];
      assert more[..|run|] == run && Steps(cfg, s, more[|run|]);
      assert IsRun(cfg, more);
      RunsAreBounded(cfg, bs, more);
      longer := RunEnds(cfg, bs, more);
    } else {
      longer := run;
    }
  }

  ghost predicate DeadlockFree(cfg: Config) {
    forall s | Reachable(cfg, s) && WellFormed(cfg, s) :: Final(s) || CanStep(cfg, s)
  }

  /** The exact condition for the chain never to get stuck, in any run. */
  lemma DeadlockFreeIff(cfg: Config, bs: seq<Bucket>)
    requires ValidConfig(cfg, bs) && Tellable(cfg, bs)
    ensures DeadlockFree(cfg) <==> AllViewable(cfg, bs)
  {
    hide Inv, CanStep, Tellable, AllViewable, Whole, PackFrom;
    if AllViewable(cfg, bs) {
      forall s | Reachable(cfg, s) && WellFormed(cfg, s) ensures Final(s) || CanStep(cfg, s) {
        if !Final(s) { NeverDeadlocks(cfg, bs, s); }
      }
    } else {
      BucketsHoldAll(cfg, bs);
      Good(cfg, bs, 0);
      var start := [InitialState(cfg)];
      assert IsRun(cfg, start);
      var run := RunEnds(cfg, bs, start);
      var s := run[|run| - 1];
      assert Reachable(cfg, s);
      if Final(s) { FinalIsWell(cfg, bs, s); }
    }
  }

  // ---------- When all weights can be viewed ----------

  lemma {:induction false} FirstOffset(b: Bucket)
    requires Tiles(b) && b != []
    ensures b[0].offset == 0
    decreases |b|
  {
    if |b| > 1 {
      FirstOffset(b[..|b| - 1]);
    } else {
      assert b[..0] == [] && Size([]) == 0;
    }
  }

  lemma OffsetsAligned(cfg: Config, bs: seq<Bucket>, k: nat, d: nat)
    requires ValidConfig(cfg, bs) && k < |bs| && d > 0 && forall c <- cfg.chunks :: c.meta.dtype.itemsize == d
    ensures forall i :: 0 <= i < |bs[k]| ==> bs[k][i].chunk.meta.dtype.itemsize == d && bs[k][i].offset % d == 0
  {
    hide PackFrom, Size;
    Good(cfg, bs, k);
    BucketsHoldAll(cfg, bs);
    forall e | e in bs[k] ensures Aligned(e.chunk, d) {
      var i :| 0 <= i < |bs[k]| && bs[k][i] == e;
      EntryPlace(bs, k, i);
      var j := |Flatten(bs[..k])| + i;
      assert ChunksOf(Flatten(bs))[j] == e.chunk && e.chunk in cfg.chunks;
      MultipleMod(Numel(e.chunk.meta.shape), d);
    }
    BucketAligned(bs[k], d);
    assert forall i :: 0 <= i < |bs[k]| ==> bs[k][i] in bs[k];
  }

  /** With one item size, that of the rollout dtype to which the sender converts: all weights can be viewed if and only
      if one bucket holds them or the item size divides the bucket size. */
  lemma AllViewableIff(cfg: Config, bs: seq<Bucket>, d: nat)
    requires ValidConfig(cfg, bs) && d > 0 && forall c <- cfg.chunks :: c.meta.dtype.itemsize == d
    ensures AllViewable(cfg, bs) <==> |bs| == 1 || cfg.bucketSize % d == 0
  {
    hide ValidConfig, Size, Tiles, HalfOf;
    BucketsHoldAll(cfg, bs);
    if |bs| == 1 || cfg.bucketSize % d == 0 {
      forall k: nat | k < |bs| ensures BucketLegal(cfg, bs, k) {
        OffsetsAligned(cfg, bs, k, d);
        forall i | 0 <= i < |bs[k]| ensures LegalAt(cfg.bucketSize, k, SlotsOf(bs[k])[i]) {
          if k > 0 { MultiplesAdd(cfg.bucketSize, bs[k][i].offset, d); } else { FirstHalf(); }
        }
      }
    } else {
      OffsetsAligned(cfg, bs, 1, d);
      SecondBucketStarts(cfg, bs);
      assert AllViewable(cfg, bs) ==> BucketLegal(cfg, bs, 1);
      assert AllViewable(cfg, bs) ==> LegalAt(cfg.bucketSize, 1, SlotsOf(bs[1])[0]);
    }
  }

  lemma FirstHalf()
    ensures HalfOf(0) == Even
  {
  }

  lemma SecondBucketStarts(cfg: Config, bs: seq<Bucket>)
    requires ValidConfig(cfg, bs) && |bs| > 1
    ensures bs[1] != [] && bs[1][0].offset == 0 && HalfOf(1) == Odd
  {
    hide PackFrom;
    Good(cfg, bs, 1);
    FirstOffset(bs[1]);
  }
}
