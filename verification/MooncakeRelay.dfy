// The Mooncake relay chain: as in NIXL every rank reads from its predecessor, but the acknowledgement
// is in band. After a rank has yielded a bucket it writes four magic bytes over the beginning of its
// predecessor's buffer, and a rank that wants to reuse a buffer polls it for these bytes
// (mooncake_checkpoint_engine.py).
module MooncakeRelay {
  import opened Common
  import opened WeightChunks
  import opened BucketPacking

  const MAGIC: seq<byte> := [0xAB, 0xDC, 0xEF, 0x88]

  /** Weights, of distinct names, are not split here: every weight is a chunk of its own. */
  datatype Config = Config(bucketSize: nat, chunks: seq<Chunk>, rollouts: nat)

  predicate StartsWithMagic(bytes: seq<byte>) {
    |bytes| >= 4 && bytes[0] == 0xAB && bytes[1] == 0xDC && bytes[2] == 0xEF && bytes[3] == 0x88
  }

  lemma MagicIff(bytes: seq<byte>)
    ensures StartsWithMagic(bytes) <==> MAGIC <= bytes
  {
  }

  /** Bucket k travels through half k mod 2 of every rank's buffer. */
  datatype Half = Even | Odd

  function Flip(h: Half): Half {
    if h == Even then Odd else Even
  }

  function HalfOf(k: nat): Half {
    if k == 0 then Even else Flip(HalfOf(k - 1))
  }

  /** The two halves are slices of one storage. */
  function BaseOf(h: Half, bucketSize: nat): nat {
    if h == Even then 0 else bucketSize
  }

  /** `view(dtype)` of a weight in the half of bucket `k` is legal. */
  predicate LegalAt(bucketSize: nat, k: nat, slot: Slot) {
    slot.meta.dtype.itemsize == 0 || (BaseOf(HalfOf(k), bucketSize) + slot.offset) % slot.meta.dtype.itemsize == 0
  }

  /** The metadata message for a bucket. */
  datatype Info = Info(src: Half, slots: seq<Slot>, len: nat, isLast: bool)

  /** `Placing` is the sender after a flush: the next weight must fit now. */
  datatype Pc =
    | Filling | Placing | WaitReuse | WaitLast | Sent                                    // sender
    | Receiving | WaitAck | Reading | Forwarding | Yielding(next: nat) | Done            // receivers

  /** The weight that a slot describes, as a tensor of its own. */
  function ReadWeight(image: seq<byte>, slot: Slot): Chunk {
    ReadSlot(image, slot).MovedTo(0)
  }

  /** A rank at bucket `k`; `copied` are the bytes that the transfer into its current half has moved so far. */
  datatype Node = Node(pc: Pc, k: nat, even: seq<byte>, odd: seq<byte>, open: Bucket, todo: seq<Chunk>,
                       info: Info, copied: set<nat>, out: seq<Chunk>)
  {
    function Buf(h: Half): seq<byte> {
      if h == Even then even else odd
    }

    /** The half that the program calls `current`. */
    function Current(): seq<byte> {
      Buf(HalfOf(k))
    }

    function Write(h: Half, image: seq<byte>): Node {
      if h == Even then this.(even := image) else this.(odd := image)
    }

    // ----- the sender -----

    predicate MustFlush(bucketSize: nat) {
      todo == [] || Size(open) + todo[0].meta.chunkSize > bucketSize
    }

    function Packed(): Node
      requires todo != [] && Size(open) + |todo[0].data| <= |Current()|
    {
      Write(HalfOf(k), Overwrite(Current(), Size(open), todo[0].data))
        .(pc := Filling, open := open + [Entry(todo[0], Size(open))], todo := todo[1..])
    }

    function Announcement(): Info {
      Info(HalfOf(k), SlotsOf(open), Size(open), todo == [])
    }

    /** After the first bucket the other half is free; later ones must be acknowledged before they are reused. */
    function Announced(): Node {
      if todo == [] then this.(pc := WaitLast)
      else this.(pc := if k >= 1 then WaitReuse else Placing, k := k + 1, open := [])
    }

    function Returned(): Node {
      this.(pc := Sent, k := k + 1)
    }

    // ----- receivers -----

    function Received(isLastRank: bool, m: Info): Node {
      this.(pc := if k >= 2 && !isLastRank then WaitAck else Reading, info := m, copied := {})
    }

    function Copied(up: Node, i: nat): Node
      requires i < |Current()| && i < |up.Buf(info.src)|
    {
      Write(HalfOf(k), Current()[i := up.Buf(info.src)[i]]).(copied := copied + {i})
    }

    function ReadDone(): Node {
      this.(pc := Forwarding)
    }

    function Forwarded(): Node {
      this.(pc := Yielding(0))
    }

    function Yielded(): Node
      requires pc.Yielding? && pc.next < |info.slots|
    {
      this.(pc := Yielding(pc.next + 1), out := out + [ReadWeight(Current(), info.slots[pc.next])])
    }

    function Acked(): Node {
      this.(pc := if info.isLast then Done else Receiving, k := k + 1)
    }

    /** The successor's acknowledgement arrives. */
    function Stamp(h: Half): Node
      requires |Buf(h)| >= 4
    {
      Write(h, Overwrite(Buf(h), 0, MAGIC))
    }
  }

  /** `queues[r]` are the messages from rank r to rank r + 1. */
  datatype State = State(nodes: seq<Node>, queues: seq<seq<Info>>) {
    function Here(r: nat, n: Node): State
      requires r < |nodes|
    {
      this.(nodes := nodes[r := n])
    }
  }

  datatype Action =
    | PackWeight | Send | Reuse | Finish
    | Receive(r: nat) | AckSeen(r: nat) | CopyByte(r: nat, i: nat) | CompleteRead(r: nat)
    | Forward(r: nat) | YieldWeight(r: nat) | Ack(r: nat)

  predicate WellFormed(cfg: Config, s: State) {
    && cfg.rollouts >= 1 && |s.nodes| == cfg.rollouts + 1 && |s.queues| == cfg.rollouts && cfg.bucketSize >= 4
    && forall n <- s.nodes :: |n.even| == |n.odd| == cfg.bucketSize
  }

  predicate SenderEnabled(cfg: Config, n: Node, a: Action) {
    match a
    case PackWeight =>
      && (n.pc == Filling || n.pc == Placing) && !n.MustFlush(cfg.bucketSize)
      && |n.todo[0].data| == n.todo[0].meta.chunkSize
    case Send => n.pc == Filling && n.MustFlush(cfg.bucketSize)
    case Reuse => n.pc == WaitReuse && StartsWithMagic(n.Current())
    case Finish => n.pc == WaitLast && StartsWithMagic(n.Current())
    case _ => false
  }

  predicate ReceiverEnabled(cfg: Config, n: Node, q: seq<Info>, a: Action) {
    match a
    case Receive(_) => n.pc == Receiving && q != []
    case AckSeen(_) => n.pc == WaitAck && StartsWithMagic(n.Current())
    case CopyByte(_, i) => n.pc == Reading && i < n.info.len <= cfg.bucketSize && i !in n.copied
    case CompleteRead(_) => n.pc == Reading && forall i :: 0 <= i < n.info.len ==> i in n.copied
    case Forward(_) => n.pc == Forwarding
    case YieldWeight(_) =>
      n.pc.Yielding? && n.pc.next < |n.info.slots| && LegalAt(cfg.bucketSize, n.k, n.info.slots[n.pc.next])
    case Ack(_) => n.pc.Yielding? && n.pc.next == |n.info.slots|
    case _ => false
  }

  predicate OfSender(a: Action) {
    a.PackWeight? || a.Send? || a.Reuse? || a.Finish?
  }

  predicate Enabled(cfg: Config, s: State, a: Action)
    requires WellFormed(cfg, s)
  {
    if OfSender(a) then SenderEnabled(cfg, s.nodes[0], a)
    else 0 < a.r < |s.nodes| && ReceiverEnabled(cfg, s.nodes[a.r], s.queues[a.r - 1], a)
  }

  function Apply(cfg: Config, s: State, a: Action): State
    requires WellFormed(cfg, s) && Enabled(cfg, s, a)
  {
    match a
    case PackWeight => assert s.nodes[0] in s.nodes; s.Here(0, s.nodes[0].Packed())
    case Send =>
      State(s.nodes[0 := s.nodes[0].Announced()], s.queues[0 := s.queues[0] + [s.nodes[0].Announcement()]])
    case Reuse => s.Here(0, s.nodes[0].(pc := Placing))
    case Finish => s.Here(0, s.nodes[0].Returned())
    case Receive(r) =>
      State(s.nodes[r := s.nodes[r].Received(r == cfg.rollouts, s.queues[r - 1][0])],
            s.queues[r - 1 := s.queues[r - 1][1..]])
    case AckSeen(r) => s.Here(r, s.nodes[r].(pc := Reading))
    case CopyByte(r, i) =>
      assert s.nodes[r] in s.nodes && s.nodes[r - 1] in s.nodes; s.Here(r, s.nodes[r].Copied(s.nodes[r - 1], i))
    case CompleteRead(r) => s.Here(r, s.nodes[r].ReadDone())
    case Forward(r) =>
      var s' := s.Here(r, s.nodes[r].Forwarded());
      if r == cfg.rollouts then s'
      else s'.(queues := s.queues[r := s.queues[r] + [s.nodes[r].info.(src := HalfOf(s.nodes[r].k))]])
    case YieldWeight(r) => s.Here(r, s.nodes[r].Yielded())
    case Ack(r) =>
      assert s.nodes[r - 1] in s.nodes;
      s.(nodes := s.nodes[r - 1 := s.nodes[r - 1].Stamp(s.nodes[r].info.src)][r := s.nodes[r].Acked()])
  }

  predicate Init(cfg: Config, s: State) {
    && WellFormed(cfg, s)
    && (forall q <- s.queues :: q == [])
    && (forall r :: 0 <= r < |s.nodes| ==> Fresh(s.nodes[r], r == 0))
    && s.nodes[0].todo == cfg.chunks
  }

  predicate Fresh(n: Node, isSender: bool) {
    n.pc == (if isSender then Filling else Receiving) && n.k == 0 && n.open == [] && n.out == []
  }

  function BlankNode(bucketSize: nat, pc: Pc, todo: seq<Chunk>): Node {
    var image := seq(bucketSize, _ => 0);
    Node(pc, 0, image, image, [], todo, Info(Even, [], 0, false), {}, [])
  }

  function InitialState(cfg: Config): (s: State)
    requires cfg.rollouts >= 1 && cfg.bucketSize >= 4
    ensures Init(cfg, s)
  {
    State([BlankNode(cfg.bucketSize, Filling, cfg.chunks)] + seq(cfg.rollouts, _ => BlankNode(cfg.bucketSize, Receiving, [])),
          seq(cfg.rollouts, _ => []))
  }

  ghost predicate Steps(cfg: Config, s: State, s': State) {
    WellFormed(cfg, s) && exists a :: Enabled(cfg, s, a) && s' == Apply(cfg, s, a)
  }

  ghost predicate IsRun(cfg: Config, run: seq<State>) {
    var last := |run| - 1;
    run != [] &&
    if last == 0 then Init(cfg, run[0])
    else IsRun(cfg, run[..last]) && Steps(cfg, run[last - 1], run[last])
  }

  ghost predicate Reachable(cfg: Config, s: State) {
    exists run :: IsRun(cfg, run) && run[|run| - 1] == s
  }
}
