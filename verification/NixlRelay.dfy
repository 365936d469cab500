// The NIXL relay chain: rank 0 packs and publishes buckets, every rank 1..R reads them from its
// predecessor by remote reads and publishes them to its successor (nixl_checkpoint_engine.py).
//
// The chain is a transition system. One action is one atomic piece of one rank's program, or the
// network copying one byte of a remote read; actions of all ranks interleave without restriction.
module NixlRelay {
  import opened Common
  import opened WeightChunks
  import opened BucketPacking

  /** The run's constants: `rollouts` is the number of rollout ranks behind the sender. */
  datatype Config = Config(bucketSize: nat, chunks: seq<Chunk>, rollouts: nat)

  /** The two registered buffers of a rank. */
  datatype Side = A | B

  function Other(side: Side): Side {
    if side == A then B else A
  }

  datatype Meta = Meta(slots: seq<Slot>, isLast: bool)

  /** Bucket metadata on its way to the next rank: which buffer to read, and the key that completes the read. */
  datatype Message = Message(key: nat, src: Side, meta: Meta)

  /** What is under way between a rank and the next: metadata messages down, completion notices up. */
  datatype Link = Link(messages: seq<Message>, notices: seq<nat>) {
    function Send(m: Message): Link {
      this.(messages := messages + [m])
    }

    function Notify(key: nat): Link {
      this.(notices := notices + [key])
    }

    function Take(): Link
      requires messages != []
    {
      this.(messages := messages[1..])
    }

    function Consume(): Link
      requires notices != []
    {
      this.(notices := notices[1..])
    }
  }

  /** A remote read begun by a rank into the buffer behind its front one. */
  datatype Xfer = Xfer(src: Side, key: nat, copied: set<nat>, done: bool)

  datatype Pc =
    | Packing | Flushing | AwaitLast                                  // sender
    | AwaitMeta | Yielding(next: nat) | AwaitXfer | Publishing        // receivers
    | Done

  /** A rank. `front` is the buffer that the program calls send_buf, the other one is its recv_buf.
      `acked`, `begun` and `installed` count what the rank did; `published` also serves as notify key. */
  datatype Node = Node(
    pc: Pc, bufA: seq<byte>, bufB: seq<byte>, front: Side, xfer: Option<Xfer>, held: Meta, next: Meta,
    open: Bucket, todo: seq<Chunk>, out: seq<Chunk>, published: nat, acked: nat, begun: nat, installed: nat)
  {
    function Buf(side: Side): seq<byte> {
      if side == A then bufA else bufB
    }

    function Write(side: Side, image: seq<byte>): Node {
      if side == A then this.(bufA := image) else this.(bufB := image)
    }

    /** The completion notice that the rank waits for. */
    predicate Notified(l: Link) {
      l.notices != [] && published > 0 && l.notices[0] == published - 1
    }

    // ----- the sender -----

    predicate MustFlush(bucketSize: nat) {
      todo == [] || Size(open) + todo[0].meta.chunkSize > bucketSize
    }

    /** Copies the next chunk behind the used bytes of the front buffer. */
    function Packed(): Node
      requires todo != [] && Size(open) + |todo[0].data| <= |Buf(front)|
    {
      var image := Overwrite(Buf(front), Size(open), todo[0].data);
      Write(front, image).(open := open + [Entry(todo[0], Size(open))], todo := todo[1..])
    }

    /** The bucket is full; the previous one, if there is one, has been read. */
    function Flushed(): Node {
      this.(pc := Flushing, acked := if published == 0 then acked else acked + 1)
    }

    function BucketMessage(): Message {
      Message(published, front, Meta(SlotsOf(open), todo == []))
    }

    /** Swaps the buffers and starts the next bucket, unless this one is the last. */
    function Published(): Node {
      if todo == [] then this.(pc := AwaitLast, published := published + 1)
      else this.(pc := Packing, published := published + 1, front := Other(front), open := [])
    }

    function Finished(): Node {
      this.(pc := Done, acked := acked + 1)
    }

    // ----- receivers -----

    /** Takes the metadata of the next bucket and starts the remote read into the back buffer. */
    function Begun(m: Message): Node {
      this.(pc := if installed == 0 then AwaitXfer else Yielding(0), next := m.meta,
            xfer := Some(Xfer(m.src, m.key, {}, false)), begun := begun + 1)
    }

    function Copied(up: Node, i: nat): Node
      requires xfer.Some? && i < |Buf(Other(front))| && i < |up.Buf(xfer.value.src)|
    {
      var x := xfer.value;
      var back := Other(front);
      Write(back, Buf(back)[i := up.Buf(x.src)[i]]).(xfer := Some(x.(copied := x.copied + {i})))
    }

    function ReadDone(): Node
      requires xfer.Some?
    {
      this.(xfer := Some(xfer.value.(done := true)))
    }

    function Yielded(): Node
      requires pc.Yielding? && pc.next < |held.slots|
    {
      this.(pc := Yielding(pc.next + 1), out := out + [ReadSlot(Buf(front), held.slots[pc.next])])
    }

    /** All chunks are yielded and the next rank, if there is one, has read the held bucket. */
    function Acknowledged(): Node {
      this.(pc := if held.isLast then Done else AwaitXfer, acked := acked + 1)
    }

    function Installed(): Node {
      this.(pc := Publishing, front := Other(front), held := next, xfer := None, installed := installed + 1)
    }

    function HeldMessage(): Message {
      Message(published, front, held)
    }

    function Forwarded(): Node {
      this.(pc := if held.isLast then Yielding(0) else AwaitMeta, published := published + 1)
    }
  }

  predicate AllCopied(x: Xfer, bucketSize: nat) {
    forall i :: 0 <= i < bucketSize ==> i in x.copied
  }

  /** `links[r]` joins the ranks `r` and `r + 1`. */
  datatype State = State(nodes: seq<Node>, links: seq<Link>) {
    function Here(r: nat, n: Node): State
      requires r < |nodes|
    {
      this.(nodes := nodes[r := n])
    }

    /** Rank `r` and the link behind it. */
    function Below(r: nat, n: Node, l: Link): State
      requires r < |nodes| && r < |links|
    {
      State(nodes[r := n], links[r := l])
    }

    /** Rank `r` and the link before it. */
    function Above(r: nat, n: Node, l: Link): State
      requires 0 < r < |nodes| && r - 1 < |links|
    {
      State(nodes[r := n], links[r - 1 := l])
    }
  }

  datatype Action =
    | PackChunk | Flush | PublishBucket | FinishSending
    | BeginRead(r: nat) | CopyByte(r: nat, i: nat) | CompleteRead(r: nat)
    | YieldChunk(r: nat) | Acknowledge(r: nat) | Install(r: nat) | Forward(r: nat)

  predicate WellFormed(cfg: Config, s: State) {
    && cfg.rollouts >= 1 && |s.nodes| == cfg.rollouts + 1 && |s.links| == cfg.rollouts
    && forall n <- s.nodes :: |n.bufA| == |n.bufB| == cfg.bucketSize
  }

  predicate SenderEnabled(cfg: Config, n: Node, l: Link, a: Action) {
    match a
    case PackChunk =>
      && n.pc == Packing && !n.MustFlush(cfg.bucketSize) && NameFree(n.open, n.todo[0].meta.name)
      && |n.todo[0].data| == n.todo[0].meta.chunkSize
    case Flush => n.pc == Packing && n.MustFlush(cfg.bucketSize) && (n.published == 0 || n.Notified(l))
    case PublishBucket => n.pc == Flushing
    case FinishSending => n.pc == AwaitLast && n.Notified(l)
    case _ => false
  }

  /** `l` is the link before the receiver. */
  predicate ReceiverEnabled(cfg: Config, n: Node, l: Link, a: Action) {
    match a
    case BeginRead(_) => n.pc == AwaitMeta && l.messages != []
    case CopyByte(_, i) => n.xfer.Some? && !n.xfer.value.done && i < cfg.bucketSize && i !in n.xfer.value.copied
    case CompleteRead(_) => n.xfer.Some? && !n.xfer.value.done && AllCopied(n.xfer.value, cfg.bucketSize)
    case YieldChunk(_) =>
      n.pc.Yielding? && n.pc.next < |n.held.slots| && Consumed(n.Yielded().out, cfg.bucketSize)
    case Install(_) => n.pc == AwaitXfer && n.xfer.Some? && n.xfer.value.done
    case Forward(_) => n.pc == Publishing
    case _ => false
  }

  /** When an action can happen. A failing assertion of the program disables the action that follows it; a rank whose
      merger fails on a chunk does not go on after it. */
  predicate Enabled(cfg: Config, s: State, a: Action)
    requires WellFormed(cfg, s)
  {
    match a
    case PackChunk | Flush | PublishBucket | FinishSending => SenderEnabled(cfg, s.nodes[0], s.links[0], a)
    case Acknowledge(r) =>
      && 0 < r < |s.nodes| && s.nodes[r].pc.Yielding? && s.nodes[r].pc.next == |s.nodes[r].held.slots|
      && (r == cfg.rollouts || s.nodes[r].Notified(s.links[r]))
    case _ => 0 < a.r < |s.nodes| && ReceiverEnabled(cfg, s.nodes[a.r], s.links[a.r - 1], a)
  }

  function Apply(cfg: Config, s: State, a: Action): State
    requires WellFormed(cfg, s) && Enabled(cfg, s, a)
  {
    match a
    case PackChunk => assert s.nodes[0] in s.nodes; s.Here(0, s.nodes[0].Packed())
    case Flush =>
      s.Below(0, s.nodes[0].Flushed(), if s.nodes[0].published == 0 then s.links[0] else s.links[0].Consume())
    case PublishBucket => s.Below(0, s.nodes[0].Published(), s.links[0].Send(s.nodes[0].BucketMessage()))
    case FinishSending => s.Below(0, s.nodes[0].Finished(), s.links[0].Consume())
    case BeginRead(r) => s.Above(r, s.nodes[r].Begun(s.links[r - 1].messages[0]), s.links[r - 1].Take())
    case CopyByte(r, i) =>
      assert s.nodes[r] in s.nodes && s.nodes[r - 1] in s.nodes; s.Here(r, s.nodes[r].Copied(s.nodes[r - 1], i))
    case CompleteRead(r) => s.Above(r, s.nodes[r].ReadDone(), s.links[r - 1].Notify(s.nodes[r].xfer.value.key))
    case YieldChunk(r) => s.Here(r, s.nodes[r].Yielded())
    case Acknowledge(r) =>
      if r == cfg.rollouts then s.Here(r, s.nodes[r].Acknowledged())
      else s.Below(r, s.nodes[r].Acknowledged(), s.links[r].Consume())
    case Install(r) => s.Here(r, s.nodes[r].Installed())
    case Forward(r) =>
      if r == cfg.rollouts then s.Here(r, s.nodes[r].Forwarded())
      else s.Below(r, s.nodes[r].Forwarded(), s.links[r].Send(s.nodes[r].HeldMessage()))
  }

  /** Before a transfer: buffers hold anything, links are empty, and the sender has all chunks to pack. */
  predicate Init(cfg: Config, s: State) {
    && WellFormed(cfg, s)
    && (forall l <- s.links :: l == Link([], []))
    && (forall r :: 0 <= r < |s.nodes| ==> Fresh(s.nodes[r], r == 0))
    && s.nodes[0].todo == cfg.chunks
  }

  predicate Fresh(n: Node, isSender: bool) {
    && n.pc == (if isSender then Packing else AwaitMeta)
    && n.xfer == None && n.out == [] && n.open == []
    && n.published == n.acked == n.begun == n.installed == 0
  }

  ghost predicate Steps(cfg: Config, s: State, s': State) {
    WellFormed(cfg, s) && exists a :: Enabled(cfg, s, a) && s' == Apply(cfg, s, a)
  }

  /** A finite run: it starts in an initial state, and every further state follows by an enabled action. */
  ghost predicate IsRun(cfg: Config, run: seq<State>) {
    var last := |run| - 1;
    run != [] &&
    if last == 0 then Init(cfg, run[0])
    else IsRun(cfg, run[..last]) && Steps(cfg, run[last - 1], run[last])
  }

  ghost predicate Reachable(cfg: Config, s: State) {
    exists run :: IsRun(cfg, run) && run[|run| - 1] == s
  }

  ghost predicate Final(s: State) {
    forall n <- s.nodes :: n.pc == Done
  }
}
