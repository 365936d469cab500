// The backward pass: exactly what the handler holds between commits and pops, what the pops return, and when a
// whole training step returns what was pushed.
module OffloadBackward {
  import opened Common
  import opened ActivationWindow
  import opened TensorViews
  import opened ActivationOffload
  import opened OffloadCycle
  import opened OffloadForward

  /** The entry of a tag when the groups below `r` are still away and the others that left are back. */
  function BackEntry(job: Job, r: nat, alloc: Key -> int, tag: Tag): Saved
    requires job.Has(tag)
  {
    var (t, copies) := (job.At(tag), Copies(job.batch[tag.group]));
    if tag.group >= r && job.Leaves(tag.group) && t.key in copies
    then Device(Recovered(t.key, t.value.shape, copies[t.key], alloc))
    else Entry(job, r, tag)
  }

  function BackSaved(job: Job, tags: seq<Tag>, r: nat, alloc: Key -> int): map<Tag, Saved> {
    map tag | tag in tags && job.Has(tag) :: BackEntry(job, r, alloc, tag)
  }

  function BackHeld(job: Job, tags: seq<Tag>): map<Tag, Option<Tensor>> {
    map tag | tag in tags && job.Has(tag) && tag.group < job.groups :: None
  }

  /** The memory while `tags` are left to pop. */
  function Rest(job: Job, tags: seq<Tag>, r: nat, alloc: Key -> int): Memory {
    Memory(tags, BackSaved(job, tags, r, alloc), BackHeld(job, tags), BackupsOf(job, r))
  }

  /** All layers from `c` on have been popped. */
  ghost predicate BwdInv(job: Job, c: nat, alloc: Key -> int, h: Handler) {
    && job.Valid() && c <= |job.batch| && h.current == c && h.count == 0
    && h.done == (if c == 0 then 0 else if job.Freed(c) > 1 then job.Freed(c) else 1)
    && h.mem == Rest(job, Tags(job, c, 0), job.Freed(c), alloc)
  }

  lemma TurnAround(job: Job, alloc: Key -> int, h: Handler)
    requires FwdInv(job, job.Layers(), 0, h)
    ensures BwdInv(job, job.Layers(), alloc, h)
  {
    GroupsBeforeEnds(job.Layers(), job.groups);
    var tags := Tags(job, job.Layers(), 0);
    assert SavedOf(job, tags, job.groups) == BackSaved(job, tags, job.groups, alloc);
    assert HeldOf(job, tags, job.groups) == BackHeld(job, tags);
  }

  // ---------- Commits ----------

  predicate Complete(job: Job, tags: seq<Tag>, g: nat)
    requires g < |job.batch|
  {
    forall i: nat :: i < |job.batch[g]| ==> Tag(g, i) in tags
  }

  lemma RestorableIff(job: Job, tags: seq<Tag>, r: nat, alloc: Key -> int)
    requires job.Valid() && 0 < r <= job.groups && Complete(job, tags, r - 1)
    ensures Restorable(BackSaved(job, tags, r, alloc), r - 1, BackupsOf(job, r)[r - 1]) <==>
      (job.Leaves(r - 1) ==> Viewable(job.batch[r - 1]))
  {
    var (saved, ts) := (BackSaved(job, tags, r, alloc), job.batch[r - 1]);
    if job.Leaves(r - 1) {
      forall i | 0 <= i < |ts| ensures Tag(r - 1, i) in saved && saved[Tag(r - 1, i)] == Leaving(Device(ts[i])) {
      }
      forall tag | tag in saved && tag.group == r - 1 ensures tag.index < |ts| && saved[tag] == Leaving(Device(ts[tag.index])) {
      }
    }
  }

  lemma RestoredIs(job: Job, tags: seq<Tag>, r: nat, alloc: Key -> int)
    requires job.Valid() && 0 < r <= job.groups && Complete(job, tags, r - 1)
    requires Restorable(BackSaved(job, tags, r, alloc), r - 1, BackupsOf(job, r)[r - 1])
    ensures Restored(BackSaved(job, tags, r, alloc), r - 1, BackupsOf(job, r)[r - 1], alloc) ==
      BackSaved(job, tags, r - 1, alloc)
  {
    hide Restorable, Recovered, BackEntry;
    var (saved, backup) := (BackSaved(job, tags, r, alloc), BackupsOf(job, r)[r - 1]);
    forall tag | tag in saved
      ensures var s := saved[tag]; if tag.group == r - 1 && s.Away?
        then s.key in backup && BackEntry(job, r - 1, alloc, tag) == Device(Recovered(s.key, s.shape, backup[s.key], alloc))
        else BackEntry(job, r - 1, alloc, tag) == s
    {
      EntryRestored(job, r, alloc, tag);
    }
  }

  lemma EntryRestored(job: Job, r: nat, alloc: Key -> int, tag: Tag)
    requires 0 < r <= job.groups <= |job.batch| && job.Has(tag)
    ensures var (s, backup) := (BackEntry(job, r, alloc, tag), BackupsOf(job, r)[r - 1]);
      if tag.group == r - 1 && s.Away?
      then s.key in backup && BackEntry(job, r - 1, alloc, tag) == Device(Recovered(s.key, s.shape, backup[s.key], alloc))
      else BackEntry(job, r - 1, alloc, tag) == s
  {
    CopyOf(job.batch[tag.group], tag.index);
  }

  lemma ReloadIs(job: Job, tags: seq<Tag>, r: nat, alloc: Key -> int)
    requires job.Valid() && 0 < r <= job.groups && Complete(job, tags, r - 1)
    ensures BulkReload(job.groups, Rest(job, tags, r, alloc), r - 1, alloc) ==
      if job.Leaves(r - 1) && !Viewable(job.batch[r - 1]) then Err else Ok(Rest(job, tags, r - 1, alloc))
  {
    RestorableIff(job, tags, r, alloc);
    if !job.Leaves(r - 1) || Viewable(job.batch[r - 1]) { RestoredIs(job, tags, r, alloc); }
    assert BackupsOf(job, r) - {r - 1} == BackupsOf(job, r - 1);
  }

  /** The group, if any, that the commit to layer `c` copies back can be restored. */
  ghost predicate CanReload(job: Job, c: nat)
    requires job.Valid()
  {
    job.Freed(c) < job.Freed(c + 1) && job.Leaves(job.Freed(c)) ==> Viewable(job.batch[job.Freed(c)])
  }

  lemma CommitIs(job: Job, c: nat, alloc: Key -> int, h: Handler)
    requires c < |job.batch| && BwdInv(job, c + 1, alloc, h)
    ensures var r := CommitBackward(job.Layers(), job.groups, h, alloc);
      && (r.Ok? <==> CanReload(job, c))
      && (r.Ok? ==> r.value == h.(current := c, log := r.value.log, mem := Rest(job, Tags(job, c + 1, 0), job.Freed(c), alloc),
            done := if c == 0 then 0 else if job.Freed(c) > 1 then job.Freed(c) else 1))
  {
    hide BulkReload, Rest, Tags, Viewable;
    GroupsBeforeNext(job.Layers(), job.groups, c);
    OutBound(job, c);
    var n := job.Freed(c);
    if n < job.Freed(c + 1) {
      forall i: nat | i < |job.batch[n]| ensures Tag(n, i) in Tags(job, c + 1, 0) { TagsAre(job, c + 1, 0, Tag(n, i)); }
      ReloadIs(job, Tags(job, c + 1, 0), n + 1, alloc);
    }
  }

  // ---------- Pops ----------

  lemma PopIs(job: Job, tags: seq<Tag>, r: nat, alloc: Key -> int, h: Handler, tag: Tag)
    requires h.mem == Rest(job, tags, r, alloc) && tag in tags && job.Has(tag) && tag.group >= r
    ensures Pop(h, tag).Ok?
    ensures var (h', v) := Pop(h, tag).value;
      v == Popped(job, tag) && h' == h.(mem := Rest(job, Without(tags, tag), r, alloc), log := h'.log)
  {
    var rest := Without(tags, tag);
    EntryPopped(job, r, alloc, tag);
    RestWithout(job, tags, r, alloc, tag);
    hide BackSaved, BackHeld, Without, Popped, BackEntry;
  }

  lemma EntryPopped(job: Job, r: nat, alloc: Key -> int, tag: Tag)
    requires job.Has(tag) && tag.group >= r
    ensures var s := BackEntry(job, r, alloc, tag); s.Device? && s.t.value == Popped(job, tag)
  {
  }

  lemma RestWithout(job: Job, tags: seq<Tag>, r: nat, alloc: Key -> int, tag: Tag)
    requires tag in tags && job.Has(tag)
    ensures tag in BackSaved(job, tags, r, alloc)
    ensures BackSaved(job, tags, r, alloc)[tag] == BackEntry(job, r, alloc, tag)
    ensures BackSaved(job, tags, r, alloc) - {tag} == BackSaved(job, Without(tags, tag), r, alloc)
    ensures BackHeld(job, tags) - {tag} == BackHeld(job, Without(tags, tag))
  {
    hide BackEntry;
  }

  /** The tags that are left when the given ones of group `c` have been popped. */
  function Left(tags: seq<Tag>, c: nat, indices: seq<nat>): seq<Tag> {
    if tags == [] then [] else
    var (front, last) := (Left(tags[..|tags| - 1], c, indices), tags[|tags| - 1]);
    if last.group == c && last.index in indices then front else front + [last]
  }

  lemma {:induction false} LeftNone(tags: seq<Tag>, c: nat)
    ensures Left(tags, c, []) == tags
  {
    if tags != [] { LeftNone(tags[..|tags| - 1], c); }
  }

  lemma {:induction false} LeftWithout(tags: seq<Tag>, c: nat, indices: seq<nat>, i: nat)
    ensures Without(Left(tags, c, indices), Tag(c, i)) == Left(tags, c, indices + [i])
  {
    if tags != [] {
      var front := tags[..|tags| - 1];
      LeftWithout(front, c, indices, i);
      var (l, last) := (Left(front, c, indices), tags[|tags| - 1]);
      assert (l + [last])[..|l|] == l;
    }
  }

  lemma {:induction false} LeftHas(tags: seq<Tag>, c: nat, indices: seq<nat>, tag: Tag)
    ensures tag in Left(tags, c, indices) <==> tag in tags && !(tag.group == c && tag.index in indices)
  {
    if tags != [] {
      LeftHas(tags[..|tags| - 1], c, indices, tag);
      assert tags == tags[..|tags| - 1] + [tags[|tags| - 1]];
    }
  }

  /** Without all tags of the last layer, those of the layers before it are left. */
  lemma {:induction false} LeftAll(job: Job, c: nat, g: nat, i: nat, indices: seq<nat>)
    requires c < |job.batch| && g <= c && i <= |job.batch[g]|
    requires forall k: nat :: k < |job.batch[c]| ==> k in indices
    ensures Left(Tags(job, g, i), c, indices) == if g == c then Tags(job, c, 0) else Tags(job, g, i)
    decreases g, i
  {
    var tags := Tags(job, g, i);
    if i > 0 {
      assert tags[..|tags| - 1] == Tags(job, g, i - 1);
      LeftAll(job, c, g, i - 1, indices);
    } else if g > 0 {
      LeftAll(job, c, g - 1, |job.batch[g - 1]|, indices);
    }
  }

  lemma {:induction false} PopAllIs(job: Job, tags: seq<Tag>, c: nat, r: nat, alloc: Key -> int, h: Handler, indices: seq<nat>)
    requires c < |job.batch| && r <= c && h.mem == Rest(job, tags, r, alloc) && Complete(job, tags, c)
    requires forall k | 0 <= k < |indices| :: indices[k] < |job.batch[c]|
    requires forall k, l | 0 <= k < l < |indices| :: indices[k] != indices[l]
    ensures PopAll(h, c, indices).Ok?
    ensures var (h', vs) := PopAll(h, c, indices).value;
      && h' == h.(mem := Rest(job, Left(tags, c, indices), r, alloc), log := h'.log)
      && |vs| == |indices| && forall k | 0 <= k < |vs| :: vs[k] == Popped(job, Tag(c, indices[k]))
    decreases |indices|
  {
    hide Rest, Pop, Popped, Left;
    if indices == [] {
      LeftNone(tags, c);
    } else {
      var (front, i) := (indices[..|indices| - 1], indices[|indices| - 1]);
      PopAllIs(job, tags, c, r, alloc, h, front);
      var (h1, vs) := PopAll(h, c, front).value;
      LeftHas(tags, c, front, Tag(c, i));
      PopIs(job, Left(tags, c, front), r, alloc, h1, Tag(c, i));
      LeftWithout(tags, c, front, i);
      assert indices == front + [i];
    }
  }

  // ---------- The backward pass ----------

  /** Every group that is still away before the commit to layer `c - 1` can be restored. */
  ghost predicate Recoverable(job: Job, c: nat)
    requires job.Valid()
  {
    forall g: nat :: g < job.Freed(c) && job.Leaves(g) ==> Viewable(job.batch[g])
  }

  lemma RecoverableStep(job: Job, c: nat)
    requires job.Valid() && c < |job.batch|
    ensures Recoverable(job, c + 1) <==> CanReload(job, c) && Recoverable(job, c)
  {
    hide Viewable;
    GroupsBeforeNext(job.Layers(), job.groups, c);
  }

  /** `outs[k]` is the answer to the k-th pop of layer g. */
  ghost predicate LayerReturns(job: Job, g: nat, indices: seq<nat>, outs: seq<Value>)
    requires g < |job.batch|
  {
    && |outs| == |indices|
    && forall k | 0 <= k < |outs| :: indices[k] < |job.batch[g]| && outs[k] == Popped(job, Tag(g, indices[k]))
  }

  ghost predicate Returns(job: Job, pops: seq<seq<nat>>, outs: seq<seq<Value>>) {
    |outs| == |pops| <= |job.batch| && forall g | 0 <= g < |pops| :: LayerReturns(job, g, pops[g], outs[g])
  }

  lemma PopsKeep(job: Job, c: nat, r: nat, alloc: Key -> int, h: Handler, indices: seq<nat>)
    requires c < |job.batch| && r <= c && h.mem == Rest(job, Tags(job, c + 1, 0), r, alloc)
    requires EachOnce(indices, |job.batch[c]|)
    ensures PopAll(h, c, indices).Ok?
    ensures var (h', vs) := PopAll(h, c, indices).value;
      h' == h.(mem := Rest(job, Tags(job, c, 0), r, alloc), log := h'.log) && LayerReturns(job, c, indices, vs)
  {
    hide Rest, Popped, PopAll;
    var tags := Tags(job, c + 1, 0);
    forall i: nat | i < |job.batch[c]| ensures Tag(c, i) in tags { TagsAre(job, c + 1, 0, Tag(c, i)); }
    assert forall k | 0 <= k < |indices| :: indices[k] in indices;
    PopAllIs(job, tags, c, r, alloc, h, indices);
    LeftAll(job, c, c, |job.batch[c]|, indices);
    assert tags == Tags(job, c, |job.batch[c]|);
  }

  ghost predicate LayerDone(job: Job, c: nat, alloc: Key -> int, indices: seq<nat>, r: Result<(Handler, seq<Value>)>)
    requires c < |job.batch|
  {
    r.Ok? && BwdInv(job, c, alloc, r.value.0) && LayerReturns(job, c, indices, r.value.1)
  }

  lemma LayerKeeps(job: Job, c: nat, alloc: Key -> int, h: Handler, indices: seq<nat>)
    requires c < |job.batch| && BwdInv(job, c + 1, alloc, h) && EachOnce(indices, |job.batch[c]|)
    ensures var r := BackwardLayer(job, h, c, indices, alloc);
      if CanReload(job, c) then LayerDone(job, c, alloc, indices, r) else r == Err
  {
    hide Rest, CommitBackward, PopAll, CanReload, LayerReturns, Tags;
    CommitIs(job, c, alloc, h);
    if CanReload(job, c) {
      OutBound(job, c);
      PopsKeep(job, c, job.Freed(c), alloc, CommitBackward(job.Layers(), job.groups, h, alloc).value, indices);
    }
  }

  ghost predicate PassDone(job: Job, pops: seq<seq<nat>>, r: Result<(Handler, seq<seq<Value>>)>) {
    r.Ok? && r.value.0.(log := []) == INITIAL && Returns(job, pops, r.value.1)
  }

  /** The backward pass succeeds exactly if the copies fit the tensors, and returns what was saved or its copy. */
  lemma {:induction false} BackwardRuns(job: Job, alloc: Key -> int, h: Handler, pops: seq<seq<nat>>)
    requires |pops| <= |job.batch| && BwdInv(job, |pops|, alloc, h)
    requires forall g | 0 <= g < |pops| :: EachOnce(pops[g], |job.batch[g]|)
    ensures job.Valid()
    ensures var r := Backward(job, h, pops, alloc);
      if Recoverable(job, |pops|) then PassDone(job, pops, r) else r == Err
    decreases |pops|
  {
    hide BwdInv, BackwardLayer, CanReload, LayerReturns, EachOnce;
    if pops == [] {
      LastLayer(job, alloc, h);
    } else {
      var c := |pops| - 1;
      hide Recoverable;
      ValidJob(job, |pops|, alloc, h);
      RecoverableStep(job, c);
      LayerKeeps(job, c, alloc, h, pops[c]);
      if CanReload(job, c) {
        BackwardRuns(job, alloc, BackwardLayer(job, h, c, pops[c], alloc).value.0, pops[..c]);
      }
    }
  }

  lemma ValidJob(job: Job, c: nat, alloc: Key -> int, h: Handler)
    requires BwdInv(job, c, alloc, h)
    ensures job.Valid()
  {
  }

  lemma LastLayer(job: Job, alloc: Key -> int, h: Handler)
    requires BwdInv(job, 0, alloc, h)
    ensures job.Valid() && Recoverable(job, 0) && h.(log := []) == INITIAL
  {
    EmptyRest(job, alloc);
    GroupsBeforeEnds(job.Layers(), job.groups);
  }

  lemma EmptyRest(job: Job, alloc: Key -> int)
    requires job.Valid()
    ensures Rest(job, Tags(job, 0, 0), job.Freed(0), alloc) == EMPTY
  {
    GroupsBeforeEnds(job.Layers(), job.groups);
    assert BackSaved(job, [], 0, alloc) == map[] && BackHeld(job, []) == map[] && BackupsOf(job, 0) == map[];
  }
}
