// Training steps through the offload handler: a forward pass that pushes and commits every layer, then a backward
// pass that commits and pops every layer in reverse.
module OffloadCycle {
  import opened Common
  import opened Shapes
  import opened ActivationWindow
  import opened TensorViews
  import opened ActivationOffload

  /** `batch[g]` are the tensors that layer g saves, in the order of their pushes. */
  datatype Job = Job(groups: nat, batch: seq<seq<Tensor>>) {
    function Layers(): nat {
      |batch|
    }

    ghost predicate Valid() {
      && 1 <= groups <= Layers()
      && forall g, i | 0 <= g < |batch| && 0 <= i < |batch[g]| :: |batch[g][i].value.elems| == Numel(batch[g][i].value.shape)
    }

    predicate Has(tag: Tag) {
      0 <= tag.group < |batch| && tag.index < |batch[tag.group]|
    }

    function At(tag: Tag): Tensor
      requires Has(tag)
    {
      batch[tag.group][tag.index]
    }

    /** Groups whose data really leaves the device. With a group for every layer only the first one does: the others
        are offloaded before they are computed, when there is nothing to copy. */
    predicate Leaves(g: int) {
      0 <= g < groups && (groups < Layers() || g == 0)
    }

    /** Groups released before commit `c`. */
    function Freed(c: int): nat
      requires Valid()
    {
      GroupsBefore(Layers(), groups, c)
    }
  }

  // ---------- The passes ----------

  function PushAll(groups: nat, h: Handler, ts: seq<Tensor>): Result<Handler> {
    if ts == [] then Ok(h) else
    match PushAll(groups, h, ts[..|ts| - 1])
    case Err => Err
    case Ok(h1) => Push(groups, h1, ts[|ts| - 1])
  }

  /** The first `c` layers. */
  function Forward(job: Job, h: Handler, c: nat): Result<Handler>
    requires c <= |job.batch|
  {
    if c == 0 then Ok(h) else
    match Forward(job, h, c - 1)
    case Err => Err
    case Ok(h1) =>
      match PushAll(job.groups, h1, job.batch[c - 1])
      case Err => Err
      case Ok(h2) => CommitForward(job.Layers(), job.groups, h2)
  }

  function PopAll(h: Handler, g: int, indices: seq<nat>): Result<(Handler, seq<Value>)> {
    if indices == [] then Ok((h, [])) else
    var last := |indices| - 1;
    match PopAll(h, g, indices[..last])
    case Err => Err
    case Ok((h1, vs)) =>
      match Pop(h1, Tag(g, indices[last]))
      case Err => Err
      case Ok((h2, v)) => Ok((h2, vs + [v]))
  }

  /** The commit and the pops of one layer. */
  function BackwardLayer(job: Job, h: Handler, c: nat, indices: seq<nat>, alloc: Key -> int): Result<(Handler, seq<Value>)> {
    match CommitBackward(job.Layers(), job.groups, h, alloc)
    case Err => Err
    case Ok(h1) => PopAll(h1, c, indices)
  }

  /** `pops[g]` is the order in which the tensors of layer g are popped. */
  function Backward(job: Job, h: Handler, pops: seq<seq<nat>>, alloc: Key -> int): Result<(Handler, seq<seq<Value>>)>
    decreases |pops|
  {
    if pops == [] then Ok((h, [])) else
    var c := |pops| - 1;
    match BackwardLayer(job, h, c, pops[c], alloc)
    case Err => Err
    case Ok((h1, vs)) =>
      match Backward(job, h1, pops[..c], alloc)
      case Err => Err
      case Ok((h2, rest)) => Ok((h2, rest + [vs]))
  }

  function TrainingStep(job: Job, h: Handler, pops: seq<seq<nat>>, alloc: Key -> int): Result<(Handler, seq<seq<Value>>)> {
    match Forward(job, h, job.Layers())
    case Err => Err
    case Ok(h1) => Backward(job, h1, pops, alloc)
  }

  /** Every index below `n` once, in any order. */
  predicate EachOnce(indices: seq<nat>, n: nat) {
    && (forall i :: i in indices ==> i < n)
    && (forall i: nat :: i < n ==> i in indices)
    && forall k, l | 0 <= k < l < |indices| :: indices[k] != indices[l]
  }

  ghost predicate ValidPops(job: Job, pops: seq<seq<nat>>) {
    |pops| == |job.batch| && forall g | 0 <= g < |pops| :: EachOnce(pops[g], |job.batch[g]|)
  }

  // ---------- What comes back ----------

  function Copies(ts: seq<Tensor>): map<Key, Value> {
    if ts == [] then map[] else
    var (m, t) := (Copies(ts[..|ts| - 1]), ts[|ts| - 1]);
    if t.key in m then m else m[t.key := t.value]
  }

  /** Tensor `i` is the first one with this key. */
  ghost predicate FirstWith(ts: seq<Tensor>, key: Key, i: nat) {
    i < |ts| && ts[i].key == key && forall k: nat :: k < i ==> ts[k].key != key
  }

  /** There is one copy for every key, that of the first tensor with the key. */
  lemma {:induction false} CopiesAt(ts: seq<Tensor>, key: Key)
    ensures key in Copies(ts) <==> exists i: nat :: i < |ts| && ts[i].key == key
    ensures key in Copies(ts) ==> exists i: nat :: FirstWith(ts, key, i) && Copies(ts)[key] == ts[i].value
  {
    if ts != [] {
      var (front, n) := (ts[..|ts| - 1], |ts| - 1);
      CopiesAt(front, key);
      assert forall i: nat :: i < |front| ==> front[i] == ts[i];
      if key in Copies(front) {
        var i: nat :| FirstWith(front, key, i) && Copies(front)[key] == front[i].value;
        assert FirstWith(ts, key, i);
      } else if ts[n].key == key {
        assert FirstWith(ts, key, n);
      }
    }
  }

  lemma CopyOf(ts: seq<Tensor>, i: nat)
    requires i < |ts|
    ensures ts[i].key in Copies(ts)
    ensures exists k :: 0 <= k < |ts| && ts[k].key == ts[i].key && Copies(ts)[ts[i].key] == ts[k].value
  {
    CopiesAt(ts, ts[i].key);
  }

  /** Tensors with the same key are reshapes of one another. */
  ghost predicate Faithful(ts: seq<Tensor>) {
    forall i, k | 0 <= i < |ts| && 0 <= k < |ts| && ts[i].key == ts[k].key :: ts[i].value.elems == ts[k].value.elems
  }

  /** The copy made for a tensor's key has as many elements as the tensor. */
  ghost predicate Viewable(ts: seq<Tensor>) {
    forall i | 0 <= i < |ts| :: ts[i].key in Copies(ts) && |Copies(ts)[ts[i].key].elems| == Numel(ts[i].value.shape)
  }

  /** What the pop of a tag returns. */
  function Popped(job: Job, tag: Tag): Value
    requires job.Has(tag)
  {
    var t := job.At(tag);
    var copies := Copies(job.batch[tag.group]);
    if job.Leaves(tag.group) && t.key in copies then Value(t.value.shape, copies[t.key].elems) else t.value
  }

  lemma FaithfulIff(ts: seq<Tensor>)
    ensures Faithful(ts) <==>
      forall i | 0 <= i < |ts| :: ts[i].key in Copies(ts) && Copies(ts)[ts[i].key].elems == ts[i].value.elems
  {
    forall i | 0 <= i < |ts|
      ensures ts[i].key in Copies(ts)
      ensures Faithful(ts) ==> Copies(ts)[ts[i].key].elems == ts[i].value.elems
    {
      CopyOf(ts, i);
    }
  }
}
