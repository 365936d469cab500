// What the offload handler promises to training: every pop returns what was pushed, any number of steps can follow
// one another, and few groups occupy the device at a time.
module OffloadSteps {
  import opened Common
  import opened Shapes
  import opened ActivationWindow
  import opened TensorViews
  import opened ActivationOffload
  import opened OffloadCycle
  import opened OffloadForward
  import opened OffloadBackward

  /** Whatever was saved in place of a tensor that left fits the tensor's shape. */
  ghost predicate AllViewable(job: Job) {
    forall g: nat :: g < |job.batch| && job.Leaves(g) ==> Viewable(job.batch[g])
  }

  /** In every group that leaves the device, tensors with one key are reshapes of one another. */
  ghost predicate AllFaithful(job: Job) {
    forall g: nat :: g < |job.batch| && job.Leaves(g) ==> Faithful(job.batch[g])
  }

  ghost predicate ReturnsPushed(job: Job, pops: seq<seq<nat>>, outs: seq<seq<Value>>) {
    |outs| == |pops| <= |job.batch| && forall g | 0 <= g < |pops| :: LayerReturnsPushed(job, g, pops[g], outs[g])
  }

  ghost predicate LayerReturnsPushed(job: Job, g: nat, indices: seq<nat>, outs: seq<Value>)
    requires g < |job.batch|
  {
    && |outs| == |indices|
    && forall k | 0 <= k < |outs| :: indices[k] < |job.batch[g]| && outs[k] == job.batch[g][indices[k]].value
  }

  /** A training step either fails to view a copy or runs to the end, and then it leaves the handler as it found it. */
  lemma StepRuns(job: Job, h: Handler, pops: seq<seq<nat>>, alloc: Key -> int)
    requires job.Valid() && h.(log := []) == INITIAL && ValidPops(job, pops)
    ensures var r := TrainingStep(job, h, pops, alloc);
      if AllViewable(job) then PassDone(job, pops, r) else r == Err
  {
    hide Viewable, FwdInv, BwdInv, EachOnce, Forward, Backward, PassDone;
    var L := job.Layers();
    ForwardRuns(job, h, L);
    var h1 := Forward(job, h, L).value;
    TurnAround(job, alloc, h1);
    BackwardRuns(job, alloc, h1, pops);
    GroupsBeforeEnds(L, job.groups);
    assert Recoverable(job, L) <==> AllViewable(job);
  }

  lemma FaithfulFits(job: Job)
    requires job.Valid() && AllFaithful(job)
    ensures AllViewable(job)
  {
    forall g: nat | g < |job.batch| && job.Leaves(g) ensures Viewable(job.batch[g]) { FaithfulIff(job.batch[g]); }
  }

  lemma LayerExactIff(job: Job, g: nat, indices: seq<nat>, outs: seq<Value>)
    requires g < |job.batch| && EachOnce(indices, |job.batch[g]|) && LayerReturns(job, g, indices, outs)
    ensures LayerReturnsPushed(job, g, indices, outs) <==> (job.Leaves(g) ==> Faithful(job.batch[g]))
  {
    var ts := job.batch[g];
    FaithfulIff(ts);
    forall k | 0 <= k < |outs| ensures ts[indices[k]].key in Copies(ts) { CopyOf(ts, indices[k]); }
    if LayerReturnsPushed(job, g, indices, outs) && job.Leaves(g) {
      forall i | 0 <= i < |ts| ensures ts[i].key in Copies(ts) && Copies(ts)[ts[i].key].elems == ts[i].value.elems {
        assert i as nat in indices;
        var k :| 0 <= k < |indices| && indices[k] == i;
        assert outs[k] == Popped(job, Tag(g, i)) == ts[i].value;
      }
    }
  }

  /** A training step returns from every pop exactly what was pushed, if and only if the tensors that share a key in
      a group that leaves the device are reshapes of one another. */
  lemma StepReturnsPushedIff(job: Job, h: Handler, pops: seq<seq<nat>>, alloc: Key -> int)
    requires job.Valid() && h.(log := []) == INITIAL && ValidPops(job, pops)
    ensures var r := TrainingStep(job, h, pops, alloc);
      && (r.Ok? && ReturnsPushed(job, pops, r.value.1) <==> AllFaithful(job))
      && (r.Ok? ==> r.value.0.(log := []) == INITIAL)
  {
    hide Viewable, Faithful, TrainingStep, LayerReturns, LayerReturnsPushed, EachOnce;
    StepRuns(job, h, pops, alloc);
    if AllFaithful(job) { FaithfulFits(job); }
    if AllViewable(job) {
      var outs := TrainingStep(job, h, pops, alloc).value.1;
      forall g: nat | g < |pops|
        ensures LayerReturnsPushed(job, g, pops[g], outs[g]) <==> (job.Leaves(g) ==> Faithful(job.batch[g]))
      {
        LayerExactIff(job, g, pops[g], outs[g]);
      }
    }
  }

  // ---------- Which tensors are faithful ----------

  function TensorOf(v: View): Tensor
    requires v.Valid()
  {
    Tensor(KeyOf(v), Value(v.shape, v.Elements()))
  }

  /** Contiguous tensors that live side by side are recognized correctly, if those that start at the same element have
      equally many elements. */
  lemma ContiguousViewsAreFaithful(vs: seq<View>)
    requires forall v <- vs :: v.Valid() && v.Contiguous() && Numel(v.shape) > 0
    requires forall v <- vs, u <- vs :: Apart(v.storage, u.storage)
    requires forall v <- vs, u <- vs :: v.storage == u.storage && v.offset == u.offset ==> Numel(v.shape) == Numel(u.shape)
    ensures Faithful(seq(|vs|, i requires 0 <= i < |vs| => TensorOf(vs[i])))
  {
    hide Numel, KeyOf;
    var ts := seq(|vs|, i requires 0 <= i < |vs| => TensorOf(vs[i]));
    forall i, k | 0 <= i < |ts| && 0 <= k < |ts| && ts[i].key == ts[k].key ensures ts[i].value.elems == ts[k].value.elems {
      assert vs[i] in vs && vs[k] in vs;
      SameKeyIff(vs[i], vs[k]);
      ContiguousKeyFaithful(vs[i], vs[k]);
    }
  }

  /** A matrix saved next to its transpose is not: the step of a job that offloads the two returns something else. */
  lemma TransposeIsUnfaithful(s: Storage, job: Job, g: nat)
    requires s.Valid() && |s.cells| == 4 && s.cells[1] != s.cells[2]
    requires job.Valid() && job.Leaves(g) && Matrix(s).Valid() && Transposed(s).Valid()
    requires job.batch[g] == [TensorOf(Matrix(s)), TensorOf(Transposed(s))]
    ensures !AllFaithful(job)
  {
    TransposeSharesKey(s);
    var ts := job.batch[g];
    assert ts[0].key == ts[1].key && ts[0].value.elems != ts[1].value.elems;
  }

  // ---------- Many steps ----------

  datatype Step = Step(job: Job, pops: seq<seq<nat>>, alloc: Key -> int)

  /** One training step after the other on one handler. */
  function TrainingSteps(h: Handler, steps: seq<Step>): Result<(Handler, seq<seq<seq<Value>>>)>
    decreases |steps|
  {
    if steps == [] then Ok((h, [])) else
    var last := steps[|steps| - 1];
    match TrainingSteps(h, steps[..|steps| - 1])
    case Err => Err
    case Ok((h1, outs)) =>
      match TrainingStep(last.job, h1, last.pops, last.alloc)
      case Err => Err
      case Ok((h2, out)) => Ok((h2, outs + [out]))
  }

  ghost predicate GoodStep(s: Step) {
    s.job.Valid() && ValidPops(s.job, s.pops) && AllFaithful(s.job)
  }

  /** However many steps are run, all their pops return what was pushed, and the handler is as at the beginning. */
  lemma {:induction false} StepsReturnPushed(h: Handler, steps: seq<Step>)
    requires h.(log := []) == INITIAL && forall s <- steps :: GoodStep(s)
    ensures TrainingSteps(h, steps).Ok?
    ensures var (h', outs) := TrainingSteps(h, steps).value;
      && h'.(log := []) == INITIAL && |outs| == |steps|
      && forall k | 0 <= k < |steps| :: ReturnsPushed(steps[k].job, steps[k].pops, outs[k])
    decreases |steps|
  {
    hide ReturnsPushed, TrainingStep, AllFaithful;
    if steps != [] {
      var last := steps[|steps| - 1];
      StepsReturnPushed(h, steps[..|steps| - 1]);
      assert GoodStep(last);
      StepReturnsPushedIff(last.job, TrainingSteps(h, steps[..|steps| - 1]).value.0, last.pops, last.alloc);
    }
  }

  // ---------- Device memory ----------

  predicate OnDevice(m: Memory, tag: Tag) {
    (tag in m.saved && m.saved[tag].Device?) || (tag in m.held && m.held[tag].Some?)
  }

  /** The groups with a tensor on the device are among those from `lo` to `hi`, which are `n` at most. */
  ghost predicate LiveWithin(m: Memory, lo: nat, hi: nat, n: nat) {
    hi < lo + n && forall tag: Tag :: OnDevice(m, tag) ==> lo <= tag.group <= hi
  }

  /** In the forward pass: `c` layers are committed, layer c has pushed `i` tensors. */
  function ForwardPoint(job: Job, h: Handler, c: nat, i: nat): Result<Handler>
    requires c < |job.batch| && i <= |job.batch[c]|
  {
    match Forward(job, h, c)
    case Err => Err
    case Ok(h1) => PushAll(job.groups, h1, job.batch[c][..i])
  }

  /** The layers from `c` on have been popped. */
  function BackwardTo(job: Job, h: Handler, pops: seq<seq<nat>>, c: nat, alloc: Key -> int): Result<Handler>
    requires c <= |pops|
    decreases |pops| - c
  {
    if c == |pops| then Forward(job, h, job.Layers()) else
    match BackwardTo(job, h, pops, c + 1, alloc)
    case Err => Err
    case Ok(h1) =>
      match BackwardLayer(job, h1, c, pops[c], alloc)
      case Err => Err
      case Ok((h2, _)) => Ok(h2)
  }

  /** In the backward pass: layer c is committed, and `k` of its tensors are popped. */
  function BackwardPoint(job: Job, h: Handler, pops: seq<seq<nat>>, c: nat, k: nat, alloc: Key -> int): Result<Handler>
    requires c < |pops| && k <= |pops[c]|
  {
    match BackwardTo(job, h, pops, c + 1, alloc)
    case Err => Err
    case Ok(h1) =>
      match BackwardLayer(job, h1, c, pops[c][..k], alloc)
      case Err => Err
      case Ok((h2, _)) => Ok(h2)
  }

  /** Before commit `c` few groups are computed but not released. */
  lemma FewUnreleased(job: Job, c: nat)
    requires job.Valid() && job.groups < job.Layers() && c < job.Layers()
    ensures c - job.Freed(c) <= job.Layers() - job.groups
  {
    var n := job.Freed(c);
    GroupsBeforeEnds(job.Layers(), job.groups);
    WindowLow(job.Layers(), job.groups, n);
  }

  /** At every point of the forward pass at most L - G + 1 groups occupy the device: two if all layers but one are
      offloaded. */
  lemma ForwardFewLive(job: Job, h: Handler, c: nat, i: nat)
    requires job.Valid() && job.groups < job.Layers() && h.(log := []) == INITIAL
    requires c < |job.batch| && i <= |job.batch[c]|
    ensures var r := ForwardPoint(job, h, c, i);
      r.Ok? && LiveWithin(r.value.mem, job.Freed(c), c, job.Layers() - job.groups + 1)
  {
    ForwardRuns(job, h, c);
    PushesKeep(job, c, i, Forward(job, h, c).value);
    MemoryFewLive(job, c, i);
  }

  lemma MemoryFewLive(job: Job, c: nat, i: nat)
    requires job.Valid() && job.groups < job.Layers() && c < |job.batch| && i <= |job.batch[c]|
    ensures LiveWithin(MemoryOf(job, c, i, OutAfter(job, c), job.Freed(c)), job.Freed(c), c, job.Layers() - job.groups + 1)
  {
    var (m, n) := (MemoryOf(job, c, i, OutAfter(job, c), job.Freed(c)), job.Freed(c));
    FewUnreleased(job, c);
    OutBound(job, c);
    forall tag: Tag | OnDevice(m, tag) ensures n <= tag.group <= c {
      TagsAre(job, c, i, tag);
    }
  }

  lemma {:induction false} BackwardToKeeps(job: Job, h: Handler, pops: seq<seq<nat>>, c: nat, alloc: Key -> int)
    requires job.Valid() && h.(log := []) == INITIAL && ValidPops(job, pops) && AllViewable(job) && c <= |pops|
    ensures BackwardTo(job, h, pops, c, alloc).Ok? && BwdInv(job, c, alloc, BackwardTo(job, h, pops, c, alloc).value)
    decreases |pops| - c
  {
    hide Viewable, FwdInv, BwdInv, EachOnce, Forward, BackwardLayer;
    if c == |pops| {
      ForwardRuns(job, h, c);
      TurnAround(job, alloc, Forward(job, h, c).value);
    } else {
      BackwardToKeeps(job, h, pops, c + 1, alloc);
      assert CanReload(job, c);
      LayerKeeps(job, c, alloc, BackwardTo(job, h, pops, c + 1, alloc).value, pops[c]);
    }
  }

  lemma RestFewLive(job: Job, tags: seq<Tag>, c: nat, alloc: Key -> int)
    requires job.Valid() && job.groups < job.Layers() && c < job.Layers() && forall tag <- tags :: tag.group <= c
    ensures LiveWithin(Rest(job, tags, job.Freed(c), alloc), job.Freed(c), c, job.Layers() - job.groups + 1)
  {
    FewUnreleased(job, c);
    OutBound(job, c);
  }

  /** And at every point of the backward pass. */
  lemma BackwardFewLive(job: Job, h: Handler, pops: seq<seq<nat>>, c: nat, k: nat, alloc: Key -> int)
    requires job.Valid() && job.groups < job.Layers() && h.(log := []) == INITIAL
    requires ValidPops(job, pops) && AllViewable(job) && c < |pops| && k <= |pops[c]|
    ensures var r := BackwardPoint(job, h, pops, c, k, alloc);
      r.Ok? && LiveWithin(r.value.mem, job.Freed(c), c, job.Layers() - job.groups + 1)
  {
    hide Viewable, Rest, Tags, CommitBackward, PopAll, BackwardTo, LiveWithin;
    BackwardToKeeps(job, h, pops, c + 1, alloc);
    var h1 := BackwardTo(job, h, pops, c + 1, alloc).value;
    CommitIs(job, c, alloc, h1);
    assert CanReload(job, c);
    var (tags, h2) := (Tags(job, c + 1, 0), CommitBackward(job.Layers(), job.groups, h1, alloc).value);
    PopPrefix(job, c, alloc, h2, pops[c], k);
    forall tag <- Left(tags, c, pops[c][..k]) ensures tag.group <= c {
      LeftHas(tags, c, pops[c][..k], tag);
      TagsAre(job, c + 1, 0, tag);
    }
    RestFewLive(job, Left(tags, c, pops[c][..k]), c, alloc);
  }

  lemma PopPrefix(job: Job, c: nat, alloc: Key -> int, h: Handler, indices: seq<nat>, k: nat)
    requires job.Valid() && c < |job.batch| && EachOnce(indices, |job.batch[c]|) && k <= |indices|
    requires h.mem == Rest(job, Tags(job, c + 1, 0), job.Freed(c), alloc)
    ensures PopAll(h, c, indices[..k]).Ok?
    ensures PopAll(h, c, indices[..k]).value.0.mem == Rest(job, Left(Tags(job, c + 1, 0), c, indices[..k]), job.Freed(c), alloc)
  {
    hide Rest, PopAll, Popped, Left;
    var tags := Tags(job, c + 1, 0);
    OutBound(job, c);
    forall i: nat | i < |job.batch[c]| ensures Tag(c, i) in tags { TagsAre(job, c + 1, 0, Tag(c, i)); }
    assert forall l | 0 <= l < k :: indices[l] in indices;
    PopAllIs(job, tags, c, job.Freed(c), alloc, h, indices[..k]);
  }

  /** With a group for every layer nothing but the first group ever leaves: at the end of the forward pass every other
      saved tensor still occupies the device. */
  lemma FullOffloadKeepsAll(job: Job, h: Handler, tag: Tag)
    requires job.Valid() && job.groups == job.Layers() && h.(log := []) == INITIAL && job.Has(tag) && tag.group >= 1
    ensures var r := Forward(job, h, job.Layers()); r.Ok? && OnDevice(r.value.mem, tag)
  {
    ForwardRuns(job, h, job.Layers());
    TagsAre(job, job.Layers(), 0, tag);
  }
}
