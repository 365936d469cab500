// What the Mooncake chain does not promise: runs in which magic bytes are mistaken, and with them the exact conditions
// under which the chain keeps its promises.
module MooncakeRuns {
  import opened Common
  import opened WeightChunks
  import opened BucketPacking
  import opened MooncakeRelay
  import opened MooncakeSafety
  import opened MooncakeDelivery

  // ---------- Single steps ----------

  lemma Reaches(cfg: Config, s: State, a: Action, s': State)
    requires Reachable(cfg, s) && WellFormed(cfg, s) && Enabled(cfg, s, a) && s' == Apply(cfg, s, a)
    ensures Reachable(cfg, s')
  {
    hide Enabled, Apply, WellFormed;
    var run :| IsRun(cfg, run) && run[|run| - 1] == s;
    assert Steps(cfg, s, s') && (run + [s'])[..|run|] == run;
    assert IsRun(cfg, run + [s']) && (run + [s'])[|run + [s']| - 1] == s';
  }

  lemma KeepsSizes(cfg: Config, s: State, a: Action)
    requires WellFormed(cfg, s) && Enabled(cfg, s, a)
    ensures WellFormed(cfg, Apply(cfg, s, a))
  {
    hide Overwrite, Size, HalfOf;
    assert s.nodes[0] in s.nodes;
    if !OfSender(a) { assert s.nodes[a.r] in s.nodes && s.nodes[a.r - 1] in s.nodes; }
  }

  /** One more step of a run. */
  lemma Extend(cfg: Config, s: State, a: Action) returns (s': State)
    requires Reachable(cfg, s) && WellFormed(cfg, s) && Enabled(cfg, s, a)
    ensures s' == Apply(cfg, s, a) && Reachable(cfg, s') && WellFormed(cfg, s')
  {
    s' := Apply(cfg, s, a);
    Reaches(cfg, s, a, s');
    KeepsSizes(cfg, s, a);
  }

  // ---------- What one rank does in a row ----------

  /** The sender may fill its current half with bucket k. */
  ghost predicate AtFill(cfg: Config, bs: seq<Bucket>, n: Node, k: nat) {
    NodeOk(cfg, bs)(0, n) && (n.pc == Filling || n.pc == Placing) && n.k == k < |bs|
  }

  lemma CanPack(cfg: Config, bs: seq<Bucket>, n: Node, k: nat)
    requires ValidConfig(cfg, bs) && AtFill(cfg, bs, n, k)
    ensures SenderEnabled(cfg, n, if n.pc == Filling && n.MustFlush(cfg.bucketSize) then Send else PackWeight)
  {
    if n.pc == Placing { NextFits(cfg, bs, n); }
  }

  lemma PackedNode(cfg: Config, bs: seq<Bucket>, n: Node, k: nat)
    requires AtFill(cfg, bs, n, k) && SenderEnabled(cfg, n, PackWeight)
    ensures Size(n.open) + |n.todo[0].data| <= |n.Current()| && AtFill(cfg, bs, n.Packed(), k)
    ensures n.Packed().Buf(HalfOf(k + 1)) == n.Buf(HalfOf(k + 1)) && |n.Packed().todo| < |n.todo|
  {
    hide NodeInv;
    PackNode(cfg, bs, n);
  }

  /** The sender packs the rest of bucket k. */
  lemma {:induction false} PacksBucket(cfg: Config, bs: seq<Bucket>, s: State, k: nat) returns (s': State)
    requires ValidConfig(cfg, bs) && Reachable(cfg, s) && WellFormed(cfg, s) && AtFill(cfg, bs, s.nodes[0], k)
    ensures Reachable(cfg, s') && WellFormed(cfg, s') && AtFill(cfg, bs, s'.nodes[0], k)
    ensures s' == s.Here(0, s'.nodes[0]) && SenderEnabled(cfg, s'.nodes[0], Send)
    ensures s'.nodes[0].Buf(HalfOf(k + 1)) == s.nodes[0].Buf(HalfOf(k + 1))
    decreases |s.nodes[0].todo|
  {
    hide Reachable, ValidConfig, AtFill;
    CanPack(cfg, bs, s.nodes[0], k);
    if SenderEnabled(cfg, s.nodes[0], Send) {
      s' := s;
    } else {
      PackedNode(cfg, bs, s.nodes[0], k);
      var t := Extend(cfg, s, PackWeight);
      s' := PacksBucket(cfg, bs, t, k);
    }
  }

  /** What the sender is after it has announced bucket k. */
  ghost predicate AfterSend(cfg: Config, bs: seq<Bucket>, n: Node, k: nat) {
    && NodeOk(cfg, bs)(0, n) && k < |bs| && BufferInv(bs, n, k, 0)
    && if k == |bs| - 1 then n.pc == WaitLast && n.k == k else n.pc == (if k >= 1 then WaitReuse else Placing) && n.k == k + 1
  }

  lemma SendsNode(cfg: Config, bs: seq<Bucket>, n: Node, k: nat)
    requires ValidConfig(cfg, bs) && AtFill(cfg, bs, n, k) && SenderEnabled(cfg, n, Send)
    ensures n.Announcement() == InfoFor(bs, k) && AfterSend(cfg, bs, n.Announced(), k)
    ensures n.Announced().even == n.even && n.Announced().odd == n.odd
  {
    hide NodeInv, BufferInv;
    SendNode(cfg, bs, n);
    SendCarries(cfg, bs, n);
    BufferOnly(bs, n, n.Announced(), k);
  }

  lemma BufferOnly(bs: seq<Bucket>, n: Node, n': Node, k: nat)
    requires BufferInv(bs, n, k, 0) && n'.even == n.even && n'.odd == n.odd
    ensures BufferInv(bs, n', k, 0)
  {
  }

  /** The sender packs and announces bucket k. */
  lemma SenderSends(cfg: Config, bs: seq<Bucket>, s: State, k: nat) returns (s': State)
    requires ValidConfig(cfg, bs) && Reachable(cfg, s) && WellFormed(cfg, s) && AtFill(cfg, bs, s.nodes[0], k)
    ensures Reachable(cfg, s') && WellFormed(cfg, s') && AfterSend(cfg, bs, s'.nodes[0], k)
    ensures s' == State(s.nodes[0 := s'.nodes[0]], s.queues[0 := s.queues[0] + [InfoFor(bs, k)]])
    ensures s'.nodes[0].Buf(HalfOf(k + 1)) == s.nodes[0].Buf(HalfOf(k + 1))
  {
    hide Reachable, ValidConfig, AtFill, AfterSend;
    var t := PacksBucket(cfg, bs, s, k);
    SendsNode(cfg, bs, t.nodes[0], k);
    s' := Extend(cfg, t, Send);
  }

  /** A half that shows magic bytes may be filled again. */
  lemma SenderReuses(cfg: Config, bs: seq<Bucket>, s: State, k: nat) returns (s': State)
    requires Reachable(cfg, s) && WellFormed(cfg, s) && AfterSend(cfg, bs, s.nodes[0], k) && k + 1 < |bs|
    requires k >= 1 ==> StartsWithMagic(s.nodes[0].Buf(HalfOf(k + 1)))
    ensures Reachable(cfg, s') && WellFormed(cfg, s') && AtFill(cfg, bs, s'.nodes[0], k + 1)
    ensures s' == s.Here(0, s.nodes[0].(pc := Placing))
  {
    hide Reachable;
    if k >= 1 {
      ReuseNode(cfg, bs, s.nodes[0]);
      s' := Extend(cfg, s, Reuse);
    } else {
      s' := s;
      assert s.nodes == s.nodes[0 := s.nodes[0].(pc := Placing)];
    }
  }

  /** A read under way moves its bytes from `i` on. */
  lemma {:induction false} CopiesFrom(cfg: Config, s: State, r: nat, i: nat) returns (s': State)
    requires Reachable(cfg, s) && WellFormed(cfg, s) && 0 < r < |s.nodes| && s.nodes[r].pc == Reading
    requires i <= s.nodes[r].info.len <= cfg.bucketSize && forall j: nat :: j in s.nodes[r].copied <==> j < i
    ensures Reachable(cfg, s') && WellFormed(cfg, s') && s' == s.Here(r, s'.nodes[r])
    ensures var (n, n') := (s.nodes[r], s'.nodes[r]);
      && n' == n.(even := n'.even, odd := n'.odd, copied := n'.copied) && n'.Buf(HalfOf(n.k + 1)) == n.Buf(HalfOf(n.k + 1))
      && forall j: nat :: j in n'.copied <==> j < n.info.len
    decreases s.nodes[r].info.len - i
  {
    hide Reachable;
    if i == s.nodes[r].info.len {
      s' := s;
    } else {
      assert s.nodes[r] in s.nodes && s.nodes[r - 1] in s.nodes;
      var t := Extend(cfg, s, CopyByte(r, i));
      s' := CopiesFrom(cfg, t, r, i + 1);
    }
  }

  /** Receiver r waits for bucket k. */
  predicate Resting(n: Node, k: nat) {
    n.pc == Receiving && n.k == k
  }

  lemma RankBegins(cfg: Config, bs: seq<Bucket>, s: State, r: nat, k: nat) returns (s': State)
    requires Reachable(cfg, s) && WellFormed(cfg, s) && 0 < r < |s.nodes| && k < |bs|
    requires Resting(s.nodes[r], k) && s.queues[r - 1] == [InfoFor(bs, k)]
    requires k >= 2 && r < cfg.rollouts ==> StartsWithMagic(s.nodes[r].Buf(HalfOf(k)))
    ensures Reachable(cfg, s') && WellFormed(cfg, s')
    ensures s' == State(s.nodes[r := s.nodes[r].(pc := Reading, info := InfoFor(bs, k), copied := {})], s.queues[r - 1 := []])
  {
    hide Reachable, HalfOf, InfoFor, StartsWithMagic;
    s' := Extend(cfg, s, Receive(r));
    if s'.nodes[r].pc == WaitAck { s' := Extend(cfg, s', AckSeen(r)); }
    assert s.queues[r - 1][1..] == [];
    assert s'.nodes == s.nodes[r := s.nodes[r].(pc := Reading, info := InfoFor(bs, k), copied := {})];
  }

  lemma RankReads(cfg: Config, bs: seq<Bucket>, s: State, r: nat, k: nat) returns (s': State)
    requires ValidConfig(cfg, bs) && Reachable(cfg, s) && WellFormed(cfg, s) && 0 < r < |s.nodes| && k < |bs|
    requires Resting(s.nodes[r], k) && s.queues[r - 1] == [InfoFor(bs, k)]
    requires k >= 2 && r < cfg.rollouts ==> StartsWithMagic(s.nodes[r].Buf(HalfOf(k)))
    ensures Reachable(cfg, s') && WellFormed(cfg, s') && s' == State(s.nodes[r := s'.nodes[r]], s.queues[r - 1 := []])
    ensures var (n, n') := (s.nodes[r], s'.nodes[r]);
      && n' == n.(pc := Forwarding, info := InfoFor(bs, k), even := n'.even, odd := n'.odd, copied := n'.copied)
      && n'.Buf(HalfOf(k + 1)) == n.Buf(HalfOf(k + 1))
  {
    hide Reachable, ValidConfig, HalfOf, Size, SlotsOf, StartsWithMagic;
    Good(cfg, bs, k);
    var t := RankBegins(cfg, bs, s, r, k);
    var u := CopiesFrom(cfg, t, r, 0);
    s' := Extend(cfg, u, CompleteRead(r));
  }

  /** Rank r takes bucket k from the queue, transfers it and announces it. */
  lemma RankTakes(cfg: Config, bs: seq<Bucket>, s: State, r: nat, k: nat) returns (s': State)
    requires ValidConfig(cfg, bs) && Reachable(cfg, s) && WellFormed(cfg, s) && 0 < r < |s.nodes| && k < |bs|
    requires Resting(s.nodes[r], k) && s.queues[r - 1] == [InfoFor(bs, k)] && (r < cfg.rollouts ==> s.queues[r] == [])
    requires k >= 2 && r < cfg.rollouts ==> StartsWithMagic(s.nodes[r].Buf(HalfOf(k)))
    ensures Reachable(cfg, s') && WellFormed(cfg, s') && s'.nodes == s.nodes[r := s'.nodes[r]]
    ensures s'.queues == if r < cfg.rollouts then s.queues[r - 1 := []][r := [InfoFor(bs, k)]] else s.queues[r - 1 := []]
    ensures var (n, n') := (s.nodes[r], s'.nodes[r]);
      && n'.pc == Yielding(0) && n'.k == k && n'.info == InfoFor(bs, k) && n'.out == n.out
      && n'.Buf(HalfOf(k + 1)) == n.Buf(HalfOf(k + 1))
  {
    hide Reachable, ValidConfig;
    var t := RankReads(cfg, bs, s, r, k);
    assert [] + [InfoFor(bs, k)] == [InfoFor(bs, k)];
    s' := Extend(cfg, t, Forward(r));
  }

  function ReadWeights(image: seq<byte>, slots: seq<Slot>): (r: seq<Chunk>)
    ensures |r| == |slots|
  {
    seq(|slots|, i requires 0 <= i < |slots| => ReadWeight(image, slots[i]))
  }

  lemma {:induction false} RankYields(cfg: Config, s: State, r: nat) returns (s': State)
    requires Reachable(cfg, s) && WellFormed(cfg, s) && 0 < r < |s.nodes|
    requires s.nodes[r].pc.Yielding? && s.nodes[r].pc.next <= |s.nodes[r].info.slots|
    requires forall slot <- s.nodes[r].info.slots :: LegalAt(cfg.bucketSize, s.nodes[r].k, slot)
    ensures Reachable(cfg, s') && WellFormed(cfg, s')
    ensures var n := s.nodes[r];
      s' == s.Here(r, n.(pc := Yielding(|n.info.slots|), out := n.out + ReadWeights(n.Current(), n.info.slots[n.pc.next..])))
    decreases |s.nodes[r].info.slots| - s.nodes[r].pc.next
  {
    hide Reachable;
    var n := s.nodes[r];
    var slots := n.info.slots[n.pc.next..];
    if slots == [] {
      assert n.out + ReadWeights(n.Current(), slots) == n.out;
      assert s.nodes[r := n] == s.nodes;
      s' := s;
    } else {
      assert slots[0] == n.info.slots[n.pc.next] && slots[0] in n.info.slots;
      var t := Extend(cfg, s, YieldWeight(r));
      s' := RankYields(cfg, t, r);
      assert ReadWeights(n.Current(), slots) == [ReadWeight(n.Current(), slots[0])] + ReadWeights(n.Current(), slots[1..]);
      assert slots[1..] == n.info.slots[n.pc.next + 1..];
      ConcatAssoc(n.out, [ReadWeight(n.Current(), slots[0])], ReadWeights(n.Current(), slots[1..]));
    }
  }

  /** Rank r processes bucket k completely: afterwards its predecessor's half is stamped. */
  lemma RankRelays(cfg: Config, bs: seq<Bucket>, s: State, r: nat, k: nat) returns (s': State)
    requires ValidConfig(cfg, bs) && Reachable(cfg, s) && WellFormed(cfg, s) && 0 < r < |s.nodes|
    requires k < |bs| && BucketLegal(cfg, bs, k)
    requires Resting(s.nodes[r], k) && s.queues[r - 1] == [InfoFor(bs, k)] && (r < cfg.rollouts ==> s.queues[r] == [])
    requires k >= 2 && r < cfg.rollouts ==> StartsWithMagic(s.nodes[r].Buf(HalfOf(k)))
    ensures Reachable(cfg, s') && WellFormed(cfg, s') && s'.nodes == s.nodes[r - 1 := s'.nodes[r - 1]][r := s'.nodes[r]]
    ensures s'.queues == if r < cfg.rollouts then s.queues[r - 1 := []][r := [InfoFor(bs, k)]] else s.queues[r - 1 := []]
    ensures var (n, n') := (s.nodes[r], s'.nodes[r]);
      n'.k == k + 1 && (k + 1 < |bs| ==> n'.pc == Receiving) && n'.Buf(HalfOf(k + 1)) == n.Buf(HalfOf(k + 1))
    ensures |s.nodes[r - 1].Buf(HalfOf(k))| >= 4 && s'.nodes[r - 1] == s.nodes[r - 1].Stamp(HalfOf(k))
  {
    hide Reachable, ValidConfig, Overwrite, LegalAt;
    assert s.nodes[r - 1] in s.nodes;
    var t := RankTakes(cfg, bs, s, r, k);
    forall slot | slot in SlotsOf(bs[k]) ensures LegalAt(cfg.bucketSize, k, slot) {
      var i :| 0 <= i < |bs[k]| && SlotsOf(bs[k])[i] == slot;
    }
    var u := RankYields(cfg, t, r);
    s' := Extend(cfg, u, Ack(r));
  }

  // ---------- All ranks in step ----------

  /** Both halves show magic bytes, as far as buckets before k have been in them. */
  predicate Marked(n: Node, k: nat) {
    (k >= 1 ==> StartsWithMagic(n.Buf(HalfOf(k - 1)))) && (k >= 2 ==> StartsWithMagic(n.Buf(HalfOf(k - 2))))
  }

  /** Rank q while bucket k is processed and is on its way to rank r. */
  predicate InRound(cfg: Config, n: Node, k: nat, r: nat, q: nat) {
    && (q > 0 ==> Resting(n, if q < r then k + 1 else k))
    && (q < cfg.rollouts ==>
          if q + 1 < r then Marked(n, k + 1)
          else if q + 1 == r then k >= 1 ==> StartsWithMagic(n.Buf(HalfOf(k - 1)))
          else Marked(n, k))
  }

  /** The ranks before r have processed bucket k, and it is announced to rank r. */
  ghost predicate Round(cfg: Config, bs: seq<Bucket>, s: State, k: nat, r: nat) {
    && Reachable(cfg, s) && WellFormed(cfg, s) && k + 1 < |bs| && AtFill(cfg, bs, s.nodes[0], k + 1)
    && (forall q: nat :: q < |s.nodes| ==> InRound(cfg, s.nodes[q], k, r, q))
    && (forall l: nat :: l < |s.queues| ==> s.queues[l] == if l + 1 == r then [InfoFor(bs, k)] else [])
  }

  /** All ranks have processed the buckets before k. */
  ghost predicate Quiet(cfg: Config, bs: seq<Bucket>, s: State, k: nat) {
    && Reachable(cfg, s) && WellFormed(cfg, s) && AtFill(cfg, bs, s.nodes[0], k)
    && (forall q: nat :: q < |s.nodes| ==> (q > 0 ==> Resting(s.nodes[q], k)) && (q < cfg.rollouts ==> Marked(s.nodes[q], k)))
    && (forall l: nat :: l < |s.queues| ==> s.queues[l] == [])
  }

  lemma StampMarks(n: Node, k: nat)
    requires |n.Buf(HalfOf(k))| >= 4
    ensures var n' := n.Stamp(HalfOf(k));
      && StartsWithMagic(n'.Buf(HalfOf(k))) && n'.Buf(HalfOf(k + 1)) == n.Buf(HalfOf(k + 1)) && n'.k == n.k && n'.pc == n.pc
  {
  }

  lemma StampAtFill(cfg: Config, bs: seq<Bucket>, n: Node, k: nat)
    requires AtFill(cfg, bs, n, k + 1) && cfg.bucketSize >= 4 && cfg.rollouts >= 1
    ensures |n.Buf(HalfOf(k))| >= 4 && AtFill(cfg, bs, n.Stamp(HalfOf(k)), k + 1)
  {
    StampNode(cfg, bs, 0, n, HalfOf(k));
  }

  /** Nobody but the two ranks around the queue that holds the announcement notices the next rank's turn. */
  lemma OthersInRound(cfg: Config, n: Node, k: nat, r: nat, q: nat)
    requires r > 0 && q != r && q + 1 != r && InRound(cfg, n, k, r, q)
    ensures InRound(cfg, n, k, r + 1, q)
  {
  }

  /** Rank r and its predecessor after rank r has processed bucket k. */
  lemma PairInRound(cfg: Config, up: Node, up': Node, n: Node, n': Node, k: nat, r: nat)
    requires 0 < r <= cfg.rollouts && InRound(cfg, up, k, r, r - 1) && InRound(cfg, n, k, r, r)
    requires StartsWithMagic(up'.Buf(HalfOf(k))) && up'.Buf(HalfOf(k + 1)) == up.Buf(HalfOf(k + 1))
    requires up'.k == up.k && up'.pc == up.pc && Resting(n', k + 1) && n'.Buf(HalfOf(k + 1)) == n.Buf(HalfOf(k + 1))
    ensures InRound(cfg, up', k, r + 1, r - 1) && InRound(cfg, n', k, r + 1, r)
  {
    hide StartsWithMagic;
    assert k > 0 ==> HalfOf(k - 1) == HalfOf(k + 1);
  }

  lemma RoundAllows(cfg: Config, n: Node, k: nat, r: nat)
    requires r > 0 && InRound(cfg, n, k, r, r)
    ensures Resting(n, k) && (k >= 2 && r < cfg.rollouts ==> StartsWithMagic(n.Buf(HalfOf(k))))
  {
    hide StartsWithMagic;
  }

  lemma RoundStep(cfg: Config, bs: seq<Bucket>, s: State, k: nat, r: nat) returns (s': State)
    requires ValidConfig(cfg, bs) && 0 < r <= cfg.rollouts && Round(cfg, bs, s, k, r) && BucketLegal(cfg, bs, k)
    ensures Round(cfg, bs, s', k, r + 1)
  {
    hide Reachable, ValidConfig, BucketLegal, AtFill, InRound, StartsWithMagic, Node.Stamp, HalfOf;
    var up, n := s.nodes[r - 1], s.nodes[r];
    RoundAllows(cfg, n, k, r);
    s' := RankRelays(cfg, bs, s, r, k);
    if r == 1 { StampAtFill(cfg, bs, up, k); }
    StampMarks(up, k);
    PairInRound(cfg, up, s'.nodes[r - 1], n, s'.nodes[r], k, r);
    forall q: nat | q < |s'.nodes| ensures InRound(cfg, s'.nodes[q], k, r + 1, q) {
      if q != r && q + 1 != r { OthersInRound(cfg, s.nodes[q], k, r, q); }
    }
  }

  lemma {:induction false} RoundTo(cfg: Config, bs: seq<Bucket>, s: State, k: nat, r: nat) returns (s': State)
    requires ValidConfig(cfg, bs) && 0 < r <= cfg.rollouts + 1 && Round(cfg, bs, s, k, 1) && BucketLegal(cfg, bs, k)
    ensures Round(cfg, bs, s', k, r)
  {
    if r == 1 {
      s' := s;
    } else {
      var t := RoundTo(cfg, bs, s, k, r - 1);
      s' := RoundStep(cfg, bs, t, k, r - 1);
    }
  }

  /** The sender announces bucket k and may fill the next one. */
  lemma RoundBegins(cfg: Config, bs: seq<Bucket>, s: State, k: nat) returns (s': State)
    requires ValidConfig(cfg, bs) && Quiet(cfg, bs, s, k) && k + 1 < |bs|
    ensures Round(cfg, bs, s', k, 1) && BufferInv(bs, s'.nodes[0], k, 0) && s'.nodes[1] == s.nodes[1]
  {
    hide Reachable, ValidConfig, AtFill, BufferInv;
    var t := SenderSends(cfg, bs, s, k);
    s' := SenderReuses(cfg, bs, t, k);
    BufferOnly(bs, t.nodes[0], s'.nodes[0], k);
    assert [] + [InfoFor(bs, k)] == [InfoFor(bs, k)];
  }

  lemma QuietStart(cfg: Config, bs: seq<Bucket>) returns (s: State)
    requires ValidConfig(cfg, bs) && bs != []
    ensures Quiet(cfg, bs, s, 0)
  {
    hide NodeInv, Inv, PackFrom, Size;
    Good(cfg, bs, 0);
    s := InitialState(cfg);
    InitInv(cfg, bs, s);
    At(cfg, bs, s, 0);
    assert IsRun(cfg, [s]) && [s][0] == s;
  }

  /** In some run all ranks have processed the buckets before k, and none of the others, if their weights can be viewed. */
  lemma {:induction false} Lockstep(cfg: Config, bs: seq<Bucket>, k: nat) returns (s: State)
    requires ValidConfig(cfg, bs) && k < |bs| && k <= LegalBuckets(cfg, bs)
    ensures Quiet(cfg, bs, s, k)
  {
    hide BucketLegal, Quiet, Round, ValidConfig;
    if k == 0 {
      s := QuietStart(cfg, bs);
    } else {
      OneRollout(cfg, bs);
      var t := Lockstep(cfg, bs, k - 1);
      var u := RoundBegins(cfg, bs, t, k - 1);
      s := RoundTo(cfg, bs, u, k - 1, cfg.rollouts + 1);
      RoundEnds(cfg, bs, s, k - 1);
    }
  }

  lemma RoundEnds(cfg: Config, bs: seq<Bucket>, s: State, k: nat)
    requires Round(cfg, bs, s, k, cfg.rollouts + 1)
    ensures Quiet(cfg, bs, s, k + 1)
  {
    hide Reachable, AtFill;
    forall q: nat | q < |s.nodes|
      ensures (q > 0 ==> Resting(s.nodes[q], k + 1)) && (q < cfg.rollouts ==> Marked(s.nodes[q], k + 1))
    {
      assert InRound(cfg, s.nodes[q], k, cfg.rollouts + 1, q);
    }
  }

  // ---------- Overwriting too early ----------

  /** No byte of bucket k replaces bucket k - 2 before that one has been acknowledged, in any run. */
  ghost predicate NeverTooEarly(cfg: Config) {
    forall s, a, r: nat | Reachable(cfg, s) && WellFormed(cfg, s) && Enabled(cfg, s, a) && r < cfg.rollouts && Refills(a, r) ::
      s.nodes[r + 1].k > s.nodes[r].k - 2
  }

  lemma LooksAckedShows(bs: seq<Bucket>, n: Node, k: nat)
    requires k < |bs| && LooksAcked(bs[k]) && BufferInv(bs, n, k, 0)
    ensures StartsWithMagic(n.Buf(HalfOf(k)))
  {
    MagicMeansAcked(bs, n, k, 0);
  }

  /** A bucket that looks acknowledged is overwritten in some run although no receiver has taken it. */
  lemma MagicPayloadIsOverwritten(cfg: Config, bs: seq<Bucket>, k: nat) returns (s: State)
    requires ValidConfig(cfg, bs) && k + 2 < |bs| && LooksAcked(bs[k]) && k <= LegalBuckets(cfg, bs)
    ensures Reachable(cfg, s) && WellFormed(cfg, s) && Enabled(cfg, s, PackWeight)
    ensures s.nodes[0].k == k + 2 && s.nodes[1].k == k && s.nodes[1].pc == Receiving
  {
    hide Reachable, ValidConfig, LooksAcked, BufferInv;
    var t := Lockstep(cfg, bs, k);
    var u := RoundBegins(cfg, bs, t, k);
    LooksAckedShows(bs, u.nodes[0], k);
    var v := SenderSends(cfg, bs, u, k + 1);
    s := SenderReuses(cfg, bs, v, k + 1);
    CanPack(cfg, bs, s.nodes[0], k + 2);
  }

  /** The exact condition: no bucket whose half is used again, and that receivers come to, starts with the magic word. */
  lemma NeverTooEarlyIff(cfg: Config, bs: seq<Bucket>)
    requires ValidConfig(cfg, bs)
    ensures NeverTooEarly(cfg) <==> Tellable(cfg, bs)
  {
    hide Reachable, ValidConfig, Enabled, LooksAcked;
    if Tellable(cfg, bs) {
      forall s, a, r: nat | Reachable(cfg, s) && WellFormed(cfg, s) && Enabled(cfg, s, a) && r < cfg.rollouts && Refills(a, r)
        ensures s.nodes[r + 1].k > s.nodes[r].k - 2
      {
        NoEarlyOverwrite(cfg, bs, s, a, r);
      }
    } else {
      var k :| 0 <= k < |bs| - 2 && k <= LegalBuckets(cfg, bs) && LooksAcked(bs[k]);
      var s := MagicPayloadIsOverwritten(cfg, bs, k);
      assert Refills(PackWeight, 0);
    }
  }

  // ---------- Returning too early ----------

  ghost predicate ReturnsAfterAcks(cfg: Config, K: nat) {
    forall s | Reachable(cfg, s) && WellFormed(cfg, s) && s.nodes[0].pc == Sent :: s.nodes[1].k == K
  }

  /** The sender may fill the last bucket, and rank 1 has not taken the one before it. */
  lemma BehindLast(cfg: Config, bs: seq<Bucket>) returns (s: State)
    requires ValidConfig(cfg, bs) && bs != [] && |bs| - 2 <= LegalBuckets(cfg, bs)
    ensures Reachable(cfg, s) && WellFormed(cfg, s) && AtFill(cfg, bs, s.nodes[0], |bs| - 1) && s.nodes[1].k < |bs|
  {
    hide Reachable, ValidConfig, BufferInv, BucketLegal, AtFill, Marked;
    var K := |bs|;
    s := Lockstep(cfg, bs, if K == 1 then 0 else K - 2);
    if K > 1 { s := RoundBegins(cfg, bs, s, K - 2); }
  }

  lemma MagicLastReturnsEarly(cfg: Config, bs: seq<Bucket>) returns (s: State)
    requires ValidConfig(cfg, bs) && bs != [] && MayReturnEarly(cfg, bs)
    ensures Reachable(cfg, s) && WellFormed(cfg, s) && s.nodes[0].pc == Sent && s.nodes[1].k < |bs|
  {
    hide Reachable, ValidConfig, LooksAcked, BufferInv, NodeOk, HalfOf, StartsWithMagic;
    var K := |bs|;
    s := BehindLast(cfg, bs);
    s := SenderSends(cfg, bs, s, K - 1);
    LooksAckedShows(bs, s.nodes[0], K - 1);
    s := Extend(cfg, s, Finish);
  }

  /** The exact condition for the sender to return only after rank 1 has acknowledged all buckets, unless an earlier
      bucket already looks acknowledged. */
  lemma ReturnsAfterAcksIff(cfg: Config, bs: seq<Bucket>)
    requires ValidConfig(cfg, bs) && Tellable(cfg, bs)
    ensures bs != [] && (ReturnsAfterAcks(cfg, |bs|) <==> !MayReturnEarly(cfg, bs))
  {
    hide Reachable, ValidConfig, MayReturnEarly;
    BucketsHoldAll(cfg, bs);
    if MayReturnEarly(cfg, bs) {
      var s := MagicLastReturnsEarly(cfg, bs);
      assert !ReturnsAfterAcks(cfg, |bs|);
    } else {
      forall s | Reachable(cfg, s) && WellFormed(cfg, s) && s.nodes[0].pc == Sent ensures s.nodes[1].k == |bs| {
        SenderReturnsLast(cfg, bs, s);
      }
    }
  }

  // ---------- Yielding acknowledgements ----------

  /** Rank 2 has acknowledged bucket k while rank 1 is still about to yield it. */
  lemma RankTwoOvertakes(cfg: Config, bs: seq<Bucket>, s: State, k: nat) returns (s': State)
    requires ValidConfig(cfg, bs) && cfg.rollouts >= 2 && Reachable(cfg, s) && WellFormed(cfg, s)
    requires k < |bs| && BucketLegal(cfg, bs, k)
    requires forall q :: 1 <= q <= 2 ==> Resting(s.nodes[q], k) && (q < cfg.rollouts ==> Marked(s.nodes[q], k))
    requires s.queues[0] == [InfoFor(bs, k)] && forall l: nat :: 0 < l < |s.queues| ==> s.queues[l] == []
    ensures Reachable(cfg, s') && WellFormed(cfg, s') && s'.nodes[1].pc == Yielding(0) && s'.nodes[1].k == k
    ensures s'.nodes[1].info == InfoFor(bs, k) && s'.nodes[2].k == k + 1
  {
    hide Reachable, ValidConfig, Overwrite, BucketLegal;
    var t := RankTakes(cfg, bs, s, 1, k);
    s' := RankRelays(cfg, bs, t, 2, k);
  }

  /** A bucket that the next rank has acknowledged is stamped. */
  lemma ShowsStamp(cfg: Config, bs: seq<Bucket>, s: State, r: nat)
    requires ValidConfig(cfg, bs) && Tellable(cfg, bs) && Reachable(cfg, s) && WellFormed(cfg, s) && 0 < r < cfg.rollouts
    requires s.nodes[r].pc.Yielding? && s.nodes[r].k < s.nodes[r + 1].k
    ensures BufferInv(bs, s.nodes[r], s.nodes[r].k, s.nodes[r].k + 1)
  {
    hide Inv;
    ReachableInv(cfg, bs, s);
    At(cfg, bs, s, r);
    OwnBuffer(bs, s.nodes[r], s.queues[r], s.nodes[r + 1]);
  }

  /** Reading a stamped bucket does not give its weights. */
  lemma StampedDiffers(cfg: Config, bs: seq<Bucket>, n: Node, k: nat)
    requires ValidConfig(cfg, bs) && k < |bs| && !LooksAcked(bs[k]) && BufferInv(bs, n, k, k + 1)
    ensures ReadWeights(n.Buf(HalfOf(k)), SlotsOf(bs[k])) != ChunksOf(bs[k])
  {
    var image, b := n.Buf(HalfOf(k)), bs[k];
    Good(cfg, bs, k);
    if ReadWeights(image, SlotsOf(b)) == ChunksOf(b) {
      forall e | e in b ensures HoldsEntry(image, e) {
        var i :| 0 <= i < |b| && b[i] == e;
        assert ReadWeights(image, SlotsOf(b))[i] == ChunksOf(b)[i];
        PayloadAt(b, i);
      }
      HeldBegins(image, b);
      MagicCarries(image, PayloadOf(b), true);
      MagicCarries(image, PayloadOf(b), false);
    }
  }

  /** What has been yielded when bucket k is about to be yielded. */
  lemma OutBeforeBucket(cfg: Config, bs: seq<Bucket>, r: nat, n: Node)
    requires 0 < r && NodeOk(cfg, bs)(r, n) && n.pc == Yielding(0)
    ensures n.k < |bs| && |n.out| == |Flatten(bs[..n.k])|
  {
  }

  lemma ExactBucket(bs: seq<Bucket>, k: nat, out: seq<Chunk>, more: seq<Chunk>)
    requires k < |bs| && |out| == |Flatten(bs[..k])| && |more| == |bs[k]| && out + more <= ChunksOf(Flatten(bs))
    ensures more == ChunksOf(bs[k])
  {
    forall i | 0 <= i < |more| ensures more[i] == ChunksOf(bs[k])[i] {
      EntryPlace(bs, k, i);
      assert (out + more)[|out| + i] == ChunksOf(Flatten(bs))[|out| + i];
    }
  }

  /** With two rollout ranks or more, some run lets rank 1 yield acknowledgement bytes for any bucket that does not
      start with them and that receivers get through. */
  lemma RankOneMayYieldMagic(cfg: Config, bs: seq<Bucket>, k: nat) returns (s: State)
    requires ValidConfig(cfg, bs) && Tellable(cfg, bs) && cfg.rollouts >= 2
    requires k < LegalBuckets(cfg, bs) && !LooksAcked(bs[k])
    ensures Reachable(cfg, s) && |s.nodes| == cfg.rollouts + 1 && !(s.nodes[1].out <= cfg.chunks)
  {
    hide Reachable, ValidConfig, LooksAcked, BufferInv, NodeOk, Inv, LegalAt;
    var t := Lockstep(cfg, bs, k);
    var u := SenderSends(cfg, bs, t, k);
    var v := RankTwoOvertakes(cfg, bs, u, k);
    var n := v.nodes[1];
    ShowsStamp(cfg, bs, v, 1);
    StampedDiffers(cfg, bs, n, k);
    ReachableInv(cfg, bs, v);
    At(cfg, bs, v, 1);
    OutBeforeBucket(cfg, bs, 1, n);
    forall slot | slot in n.info.slots ensures LegalAt(cfg.bucketSize, k, slot) {
      var i :| 0 <= i < |bs[k]| && SlotsOf(bs[k])[i] == slot;
    }
    s := RankYields(cfg, v, 1);
    BucketsHoldAll(cfg, bs);
    var more := ReadWeights(n.Current(), SlotsOf(bs[k]));
    assert n.info.slots[0..] == SlotsOf(bs[k]);
    if n.out + more <= cfg.chunks { ExactBucket(bs, k, n.out, more); }
  }

  /** The exact condition for a delivery that is exact in every run: a single rollout rank, or payloads that all start
      with the magic word, as far as receivers get. */
  lemma ExactDeliveryIff(cfg: Config, bs: seq<Bucket>)
    requires ValidConfig(cfg, bs) && Tellable(cfg, bs)
    ensures DeliversExactly(cfg) <==> cfg.rollouts == 1 || forall k :: 0 <= k < LegalBuckets(cfg, bs) ==> LooksAcked(bs[k])
  {
    hide Reachable, ValidConfig, LooksAcked, BucketLegal;
    if cfg.rollouts == 1 || forall k :: 0 <= k < LegalBuckets(cfg, bs) ==> LooksAcked(bs[k]) {
      forall s, r | Reachable(cfg, s) && 0 < r < |s.nodes| ensures s.nodes[r].out <= cfg.chunks {
        HarmlessStamps(cfg, bs, s, r);
      }
    } else {
      var k :| 0 <= k < LegalBuckets(cfg, bs) && !LooksAcked(bs[k]);
      OneRollout(cfg, bs);
      var s := RankOneMayYieldMagic(cfg, bs, k);
    }
  }

  lemma OneRollout(cfg: Config, bs: seq<Bucket>)
    requires ValidConfig(cfg, bs)
    ensures cfg.rollouts >= 1
  {
  }
}
