// The forward pass: exactly what the handler holds after any number of pushes and commits.
module OffloadForward {
  import opened Common
  import opened ActivationWindow
  import opened TensorViews
  import opened ActivationOffload
  import opened OffloadCycle

  /** The tags handed out after `c` commits and `i` more pushes, in the order of the pushes. */
  function Tags(job: Job, c: nat, i: nat): seq<Tag>
    decreases c, i
  {
    if i > 0 then Tags(job, c, i - 1) + [Tag(c, i - 1)]
    else if c > 0 && c <= |job.batch| then Tags(job, c - 1, |job.batch[c - 1]|)
    else []
  }

  /** The entry of a pushed tag while the groups below `out` have been offloaded. */
  function Entry(job: Job, out: nat, tag: Tag): Saved
    requires job.Has(tag)
  {
    if tag.group < out && job.Leaves(tag.group) then Leaving(Device(job.At(tag))) else Device(job.At(tag))
  }

  function SavedOf(job: Job, tags: seq<Tag>, out: nat): map<Tag, Saved> {
    map tag | tag in tags && job.Has(tag) :: Entry(job, out, tag)
  }

  /** Second references exist for offloaded groups only, and are dropped for the groups below `freed`. */
  function HeldOf(job: Job, tags: seq<Tag>, freed: nat): map<Tag, Option<Tensor>> {
    map tag | tag in tags && job.Has(tag) && tag.group < job.groups ::
      if tag.group < freed then None else Some(job.At(tag))
  }

  function BackupsOf(job: Job, out: nat): map<int, map<Key, Value>> {
    map g: int | 0 <= g < out && g < |job.batch| :: if job.Leaves(g) then Copies(job.batch[g]) else map[]
  }

  /** After `c` commits and `i` more pushes, with the groups below `out` offloaded and those below `freed` released. */
  function MemoryOf(job: Job, c: nat, i: nat, out: nat, freed: nat): Memory {
    var tags := Tags(job, c, i);
    Memory(tags, SavedOf(job, tags, out), HeldOf(job, tags, freed), BackupsOf(job, out))
  }

  /** Groups offloaded after `c` commits: one more than released. */
  function OutAfter(job: Job, c: nat): nat
    requires job.Valid()
  {
    if c == 0 then 0 else Min(job.Freed(c) + 1, job.groups)
  }

  /** After `c` commits and `i` more pushes. */
  ghost predicate FwdInv(job: Job, c: nat, i: nat, h: Handler) {
    && job.Valid() && c <= |job.batch| && i <= (if c < |job.batch| then |job.batch[c]| else 0)
    && h.current == c && h.count == i && h.done == job.Freed(c)
    && h.mem == MemoryOf(job, c, i, OutAfter(job, c), job.Freed(c))
  }

  // ---------- Pushes ----------

  lemma {:induction false} TagsAre(job: Job, c: nat, i: nat, tag: Tag)
    requires c <= |job.batch| && i <= (if c < |job.batch| then |job.batch[c]| else 0)
    ensures tag in Tags(job, c, i) <==> job.Has(tag) && (tag.group < c || (tag.group == c && tag.index < i))
    decreases c, i
  {
    if i > 0 {
      TagsAre(job, c, i - 1, tag);
    } else if c > 0 {
      TagsAre(job, c - 1, |job.batch[c - 1]|, tag);
    }
  }

  lemma SavedPush(job: Job, tags: seq<Tag>, tag: Tag, out: nat)
    requires job.Has(tag) && (tag.group >= out || !job.Leaves(tag.group))
    ensures SavedOf(job, tags + [tag], out) == SavedOf(job, tags, out)[tag := Device(job.At(tag))]
  {
  }

  lemma HeldPush(job: Job, tags: seq<Tag>, tag: Tag, freed: nat)
    requires job.Has(tag) && tag.group >= freed
    ensures HeldOf(job, tags + [tag], freed) ==
      if tag.group < job.groups then HeldOf(job, tags, freed)[tag := Some(job.At(tag))] else HeldOf(job, tags, freed)
  {
  }

  lemma PushKeeps(job: Job, c: nat, i: nat, out: nat, freed: nat, h: Handler)
    requires c < |job.batch| && i < |job.batch[c]| && freed <= c && (out <= c || !job.Leaves(c))
    requires h.current == c && h.count == i && h.mem == MemoryOf(job, c, i, out, freed)
    ensures var r := Push(job.groups, h, job.batch[c][i]);
      r.Ok? && r.value.mem == MemoryOf(job, c, i + 1, out, freed)
  {
    TagsAre(job, c, i, Tag(c, i));
    SavedPush(job, Tags(job, c, i), Tag(c, i), out);
    HeldPush(job, Tags(job, c, i), Tag(c, i), freed);
  }

  lemma OutBound(job: Job, c: nat)
    requires job.Valid() && c <= |job.batch|
    ensures job.Freed(c) <= c && job.Freed(c) <= OutAfter(job, c) <= job.groups
    ensures OutAfter(job, c) <= c || !job.Leaves(c)
  {
    var n := job.Freed(c);
    if n > 0 { WindowLow(job.Layers(), job.groups, n - 1); }
  }

  lemma {:induction false} PushesKeep(job: Job, c: nat, n: nat, h: Handler)
    requires c < |job.batch| && n <= |job.batch[c]| && FwdInv(job, c, 0, h)
    ensures var r := PushAll(job.groups, h, job.batch[c][..n]);
      r.Ok? && FwdInv(job, c, n, r.value)
    decreases n
  {
    if n > 0 {
      var ts := job.batch[c][..n];
      assert ts[..|ts| - 1] == job.batch[c][..n - 1];
      PushesKeep(job, c, n - 1, h);
      OutBound(job, c);
      PushKeeps(job, c, n - 1, OutAfter(job, c), job.Freed(c), PushAll(job.groups, h, job.batch[c][..n - 1]).value);
    }
  }

  // ---------- Copies to the host ----------

  /** Gathering a group over the pushed tags gives the copies of its pushed tensors. */
  lemma {:induction false} GatherIs(job: Job, c: nat, i: nat, saved: map<Tag, Saved>, g: nat)
    requires c <= |job.batch| && i <= (if c < |job.batch| then |job.batch[c]| else 0)
    requires forall tag :: tag in Tags(job, c, i) && tag.group == g ==>
               job.Has(tag) && tag in saved && saved[tag] == Device(job.At(tag))
    ensures Gather(Tags(job, c, i), saved, g) ==
      if g < c then Copies(job.batch[g]) else if g == c && i > 0 then Copies(job.batch[c][..i]) else map[]
    decreases c, i
  {
    if i > 0 {
      var tags := Tags(job, c, i);
      assert tags[..|tags| - 1] == Tags(job, c, i - 1) && tags[|tags| - 1] == Tag(c, i - 1);
      GatherIs(job, c, i - 1, saved, g);
      var ts := job.batch[c][..i];
      assert ts[..i - 1] == job.batch[c][..i - 1];
      if g == c {
        assert Tag(c, i - 1) in tags;
        assert i - 1 == 0 ==> Copies(job.batch[c][..i - 1]) == map[];
      }
    } else if c > 0 {
      var n := |job.batch[c - 1]|;
      assert job.batch[c - 1][..n] == job.batch[c - 1];
      GatherIs(job, c - 1, n, saved, g);
      assert n == 0 ==> Copies(job.batch[c - 1]) == map[];
    }
  }

  lemma GatherGroup(job: Job, c: nat, out: nat)
    requires c < |job.batch| && out < |job.batch| && if job.Leaves(out) then out <= c else out > c
    ensures var tags := Tags(job, c, |job.batch[c]|);
      Gather(tags, SavedOf(job, tags, out), out) == if job.Leaves(out) then Copies(job.batch[out]) else map[]
  {
    var n := |job.batch[c]|;
    var tags := Tags(job, c, n);
    assert job.batch[c][..n] == job.batch[c];
    forall tag | tag in tags ensures job.Has(tag) { TagsAre(job, c, n, tag); }
    GatherIs(job, c, n, SavedOf(job, tags, out), out);
    assert n == 0 ==> Copies(job.batch[c]) == map[];
  }

  lemma SentAwayIs(job: Job, tags: seq<Tag>, out: nat)
    requires job.Leaves(out) || forall tag <- tags :: tag.group < out
    ensures SentAway(SavedOf(job, tags, out), out) == SavedOf(job, tags, out + 1)
    ensures !exists tag :: tag in SavedOf(job, tags, out) && tag.group == out && SavedOf(job, tags, out)[tag].Away?
  {
  }

  /** Offloading the next group. It is complete, unless it is one of those that do not leave the device. */
  lemma OffloadIs(job: Job, c: nat, out: nat, freed: nat)
    requires c < |job.batch| && out < job.groups <= |job.batch|
    requires if job.Leaves(out) then out <= c else out > c
    ensures var n := |job.batch[c]|;
      BulkOffload(MemoryOf(job, c, n, out, freed), out) == Ok(MemoryOf(job, c, n, out + 1, freed))
  {
    hide Tags, SavedOf, HeldOf, Gather;
    var tags := Tags(job, c, |job.batch[c]|);
    if !job.Leaves(out) {
      forall tag <- tags ensures tag.group < out { TagsAre(job, c, |job.batch[c]|, tag); }
    }
    SentAwayIs(job, tags, out);
    GatherGroup(job, c, out);
    var m := Gather(tags, SavedOf(job, tags, out), out);
    assert BackupsOf(job, out)[out := m] == BackupsOf(job, out + 1);
  }

  lemma DroppedIs(job: Job, tags: seq<Tag>, freed: nat)
    ensures Dropped(HeldOf(job, tags, freed), freed) == HeldOf(job, tags, freed + 1)
  {
  }

  lemma DroppedMemory(job: Job, c: nat, i: nat, out: nat, freed: nat)
    ensures var m := MemoryOf(job, c, i, out, freed);
      m.(held := Dropped(m.held, freed)) == MemoryOf(job, c, i, out, freed + 1)
  {
    DroppedIs(job, Tags(job, c, i), freed);
  }

  // ---------- Commits ----------

  lemma SynchronizeKeeps(job: Job, c: nat, h: Handler)
    requires c < |job.batch| && FwdInv(job, c, |job.batch[c]|, h)
    ensures Synchronize(job.Layers(), job.groups, h).Ok?
    ensures var h' := Synchronize(job.Layers(), job.groups, h).value;
      h' == h.(done := job.Freed(c + 1), log := h'.log,
               mem := MemoryOf(job, c, |job.batch[c]|, OutAfter(job, c + 1), job.Freed(c + 1)))
  {
    hide MemoryOf, BulkOffload, Dropped;
    var (n, k) := (job.Freed(c), |job.batch[c]|);
    GroupsBeforeEnds(job.Layers(), job.groups);
    GroupsBeforeNext(job.Layers(), job.groups, c);
    WindowLow(job.Layers(), job.groups, n);
    if c == 0 { OffloadIs(job, 0, 0, 0); }
    if Window(job.Layers(), job.groups, n) == c {
      DroppedMemory(job, c, k, n + 1, n);
      if n < job.groups - 1 { OffloadIs(job, c, n + 1, n + 1); }
    }
  }

  lemma CommitKeeps(job: Job, c: nat, h: Handler)
    requires c < |job.batch| && FwdInv(job, c, |job.batch[c]|, h)
    ensures var r := CommitForward(job.Layers(), job.groups, h);
      r.Ok? && FwdInv(job, c + 1, 0, r.value)
  {
    SynchronizeKeeps(job, c, h);
    assert MemoryOf(job, c + 1, 0, OutAfter(job, c + 1), job.Freed(c + 1)) ==
      MemoryOf(job, c, |job.batch[c]|, OutAfter(job, c + 1), job.Freed(c + 1));
  }

  lemma InitialInv(job: Job, h: Handler)
    requires job.Valid() && h.(log := []) == INITIAL
    ensures FwdInv(job, 0, 0, h)
  {
    GroupsBeforeEnds(job.Layers(), job.groups);
    assert SavedOf(job, [], 0) == map[] && HeldOf(job, [], 0) == map[] && BackupsOf(job, 0) == map[];
  }

  /** No push, commit or lookup of the forward pass fails. */
  lemma {:induction false} ForwardRuns(job: Job, h: Handler, c: nat)
    requires job.Valid() && h.(log := []) == INITIAL && c <= |job.batch|
    ensures Forward(job, h, c).Ok? && FwdInv(job, c, 0, Forward(job, h, c).value)
    decreases c
  {
    hide FwdInv, CommitForward, PushAll;
    if c == 0 {
      InitialInv(job, h);
    } else {
      ForwardRuns(job, h, c - 1);
      var h1 := Forward(job, h, c - 1).value;
      var ts := job.batch[c - 1];
      PushesKeep(job, c - 1, |ts|, h1);
      assert ts[..|ts|] == ts;
      CommitKeeps(job, c - 1, PushAll(job.groups, h1, ts).value);
    }
  }
}
