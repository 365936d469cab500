// The asynchronous activation offload handler (activation_offload.py): saved tensors of a group are copied to the
// host some commits after they were pushed and copied back some commits before they are popped.
module ActivationOffload {
  import opened Common
  import opened Shapes
  import opened ActivationWindow
  import opened TensorViews

  /** What a tensor means to the computation: a shape and its elements in row-major order. */
  datatype Value = Value(shape: seq<nat>, elems: seq<int>)

  datatype Tensor = Tensor(key: Key, value: Value)

  datatype Tag = Tag(group: int, index: nat)

  /** An entry of the tag dictionary: the tensor, or what is left of it while its data is on the host. */
  datatype Saved = Device(t: Tensor) | Away(key: Key, shape: seq<nat>)

  datatype Stream = Compute | ToHost | ToDevice

  /** What the handler and the computation enqueue, in the order of the host program: kernels of a group's forward and
      backward computation, copies of a group's tensors, the release of their device memory, and one stream waiting for
      all work enqueued so far on another. */
  datatype Event =
    | Work(group: int) | Use(group: int) | CopyOut(group: int) | CopyIn(group: int) | Free(group: int)
    | Wait(waiter: Stream, on: Stream)

  /** What the handler keeps: `order` lists the keys of the dictionary `saved` as they were inserted, `held` has the
      second reference to a pushed tensor, None once it is dropped, `backups` the host copies of each group by key. */
  datatype Memory = Memory(
    order: seq<Tag>, saved: map<Tag, Saved>, held: map<Tag, Option<Tensor>>, backups: map<int, map<Key, Value>>)

  /** `done` is the offloaded group count. */
  datatype Handler = Handler(current: int, count: nat, done: int, mem: Memory, log: seq<Event>) {
    function Log(events: seq<Event>): Handler {
      this.(log := log + events)
    }

    function With(mem: Memory): Handler {
      this.(mem := mem)
    }
  }

  const EMPTY := Memory([], map[], map[], map[])
  const INITIAL := Handler(0, 0, 0, EMPTY, [])

  // ---------- Operations ----------

  function Push(groups: nat, h: Handler, t: Tensor): Result<Handler> {
    var (tag, m) := (Tag(h.current, h.count), h.mem);
    if tag in m.saved then Err
    else
      var m' := Memory(m.order + [tag], m.saved[tag := Device(t)],
                       if h.current < groups then m.held[tag := Some(t)] else m.held, m.backups);
      Ok(h.(count := h.count + 1).With(m').Log([Work(h.current)]))
  }

  function Without(order: seq<Tag>, tag: Tag): (rest: seq<Tag>)
    ensures forall t :: t in rest <==> t in order && t != tag
    ensures NoRepeats(order) ==> NoRepeats(rest)
  {
    if order == [] then [] else
    var rest := Without(order[..|order| - 1], tag);
    if order[|order| - 1] == tag then rest else rest + [order[|order| - 1]]
  }

  predicate NoRepeats(order: seq<Tag>) {
    order == [] || (order[|order| - 1] !in order[..|order| - 1] && NoRepeats(order[..|order| - 1]))
  }

  function Removed(m: Memory, tag: Tag): Memory {
    m.(order := Without(m.order, tag), saved := m.saved - {tag}, held := m.held - {tag})
  }

  function Pop(h: Handler, tag: Tag): Result<(Handler, Value)> {
    if tag !in h.mem.saved || h.mem.saved[tag].Away? then Err
    else Ok((h.With(Removed(h.mem, tag)).Log([Use(tag.group)]), h.mem.saved[tag].t.value))
  }

  /** Copies of a group's tensors by key; the first tensor with a key stands for all of them. */
  function Gather(order: seq<Tag>, saved: map<Tag, Saved>, g: int): map<Key, Value> {
    if order == [] then map[] else
    var (m, tag) := (Gather(order[..|order| - 1], saved, g), order[|order| - 1]);
    if tag.group == g && tag in saved && saved[tag].Device? && saved[tag].t.key !in m
    then m[saved[tag].t.key := saved[tag].t.value] else m
  }

  /** What stays of an entry while its data is away. */
  function Leaving(s: Saved): Saved {
    if s.Device? then Away(s.t.key, s.t.value.shape) else s
  }

  function SentAway(saved: map<Tag, Saved>, g: int): map<Tag, Saved> {
    map tag | tag in saved :: if tag.group == g then Leaving(saved[tag]) else saved[tag]
  }

  function BulkOffload(m: Memory, g: int): Result<Memory> {
    if exists tag :: tag in m.saved && tag.group == g && m.saved[tag].Away? then Err
    else Ok(m.(saved := SentAway(m.saved, g), backups := m.backups[g := Gather(m.order, m.saved, g)]))
  }

  /** Every tag of the group finds its copy, and the copy can be viewed in the tag's shape. */
  predicate Restorable(saved: map<Tag, Saved>, g: int, backup: map<Key, Value>) {
    forall tag :: tag in saved && tag.group == g && saved[tag].Away? ==>
      saved[tag].key in backup && |backup[saved[tag].key].elems| == Numel(saved[tag].shape)
  }

  /** `alloc` is where the device allocator puts the copy of the tensor that had a key. */
  function Restored(saved: map<Tag, Saved>, g: int, backup: map<Key, Value>, alloc: Key -> int): map<Tag, Saved>
    requires Restorable(saved, g, backup)
  {
    map tag | tag in saved :: if tag.group == g && saved[tag].Away?
      then Device(Recovered(saved[tag].key, saved[tag].shape, backup[saved[tag].key], alloc)) else saved[tag]
  }

  function Recovered(key: Key, shape: seq<nat>, copy: Value, alloc: Key -> int): Tensor {
    Tensor(Key(alloc(key), key.dtype), Value(shape, copy.elems))
  }

  function BulkReload(groups: nat, m: Memory, g: int, alloc: Key -> int): Result<Memory> {
    if g >= groups || g !in m.backups || !Restorable(m.saved, g, m.backups[g]) then Err
    else Ok(m.(saved := Restored(m.saved, g, m.backups[g], alloc), backups := m.backups - {g}))
  }

  function Dropped(held: map<Tag, Option<Tensor>>, g: int): map<Tag, Option<Tensor>> {
    map tag | tag in held :: if tag.group == g then None else held[tag]
  }

  // ---------- What is enqueued ----------

  /** Offloading a group enqueues copies only if there is something to copy. */
  function OutEvents(m: Memory, g: int): seq<Event> {
    if Gather(m.order, m.saved, g) == map[] then [] else [CopyOut(g)]
  }

  function InEvents(m: Memory, g: int): seq<Event> {
    if g in m.backups && m.backups[g] != map[] then [CopyIn(g)] else []
  }

  /** The second reference to the tag's tensor is the last one: its data is away. */
  predicate LastReference(m: Memory, g: int, tag: Tag) {
    tag in m.held && tag.group == g && m.held[tag].Some? && tag in m.saved && m.saved[tag].Away?
  }

  /** Dropping the second references of a group releases memory only where they are the last ones. */
  function FreeEvents(m: Memory, g: int): seq<Event> {
    if exists tag :: tag in m.held && LastReference(m, g, tag) then [Free(g)] else []
  }

  /** The first group is offloaded as soon as it is complete. */
  function Kickstart(h: Handler): Result<Handler> {
    if h.current != 0 then Ok(h) else
    match BulkOffload(h.mem, 0)
    case Err => Err
    case Ok(m) => Ok(h.With(m).Log([Wait(ToHost, Compute)] + OutEvents(h.mem, 0)))
  }

  /** Releases the group whose window ends here and offloads the next. */
  function CloseWindow(groups: nat, h: Handler): Result<Handler> {
    var m1 := h.mem.(held := Dropped(h.mem.held, h.done));
    var h1 := h.(done := h.done + 1).Log([Wait(ToHost, Compute), Wait(Compute, ToHost)] + FreeEvents(h.mem, h.done));
    if h.done >= groups - 1 then Ok(h1.With(m1)) else
    match BulkOffload(m1, h.done + 1)
    case Err => Err
    case Ok(m2) => Ok(h1.With(m2).Log(OutEvents(m1, h.done + 1)))
  }

  function Synchronize(layers: nat, groups: nat, h: Handler): Result<Handler> {
    match Kickstart(h)
    case Err => Err
    case Ok(h1) =>
      if !(0 <= h1.done < groups) then Err
      else if Window(layers, groups, h1.done) == h1.current then CloseWindow(groups, h1)
      else Ok(h1)
  }

  function CommitForward(layers: nat, groups: nat, h: Handler): Result<Handler> {
    match Synchronize(layers, groups, h)
    case Err => Err
    case Ok(h1) => Ok(h1.(current := h1.current + 1, count := 0))
  }

  /** Copies back the group whose window begins here. */
  function OpenWindow(groups: nat, h: Handler, alloc: Key -> int): Result<Handler> {
    match BulkReload(groups, h.mem, h.done - 1, alloc)
    case Err => Err
    case Ok(m) =>
      Ok(h.(done := if h.done > 1 then h.done - 1 else h.done).With(m)
          .Log([Wait(ToDevice, Compute), Wait(Compute, ToDevice)] + InEvents(h.mem, h.done - 1)))
  }

  function CommitBackward(layers: nat, groups: nat, h: Handler, alloc: Key -> int): Result<Handler> {
    var h0 := h.(current := h.current - 1);
    if h0.current < 0 || !(1 <= h0.done <= groups) then Err
    else
      match (if Window(layers, groups, h0.done - 1) == h0.current then OpenWindow(groups, h0, alloc) else Ok(h0))
      case Err => Err
      case Ok(h1) => Ok(if h0.current == 0 then h1.(done := 0).Log([Wait(Compute, ToDevice)]) else h1)
  }

  lemma GatherNone(saved: map<Tag, Saved>, g: int)
    ensures Gather([], saved, g) == map[]
  {
  }

  lemma GatherSnoc(order: seq<Tag>, saved: map<Tag, Saved>, g: int, i: nat)
    requires i < |order| && order[i] in saved && (order[i].group == g ==> saved[order[i]].Device?)
    ensures var (m, tag) := (Gather(order[..i], saved, g), order[i]);
      Gather(order[..i + 1], saved, g) ==
        if tag.group == g && saved[tag].t.key !in m then m[saved[tag].t.key := saved[tag].t.value] else m
  {
    assert order[..i + 1][..i] == order[..i];
  }

  lemma SentAwayIs(was: map<Tag, Saved>, order: seq<Tag>, saved: map<Tag, Saved>, g: int)
    requires saved.Keys == was.Keys && forall tag :: tag in was ==> tag in order
    requires forall tag :: tag in saved ==>
      saved[tag] == if tag in order && tag.group == g then Leaving(was[tag]) else was[tag]
    ensures saved == SentAway(was, g)
  {
  }

  // ---------- What the copies to and fro do ----------

  /** The tag's tensor is one of group g, on the device, with this key. */
  predicate Shows(saved: map<Tag, Saved>, g: int, key: Key, tag: Tag) {
    tag.group == g && tag in saved && saved[tag].Device? && saved[tag].t.key == key
  }

  /** The first of the tags, in the order of their pushes, whose tensor has this key. */
  ghost predicate ShowsFirst(order: seq<Tag>, saved: map<Tag, Saved>, g: int, key: Key, i: nat) {
    i < |order| && Shows(saved, g, key, order[i]) && forall k: nat :: k < i ==> !Shows(saved, g, key, order[k])
  }

  /** For every key that occurs in the group there is one copy, that of the first tensor with the key. */
  lemma {:induction false} GatherFirst(order: seq<Tag>, saved: map<Tag, Saved>, g: int, key: Key)
    ensures var copies := Gather(order, saved, g);
      && (key in copies <==> exists i: nat :: ShowsFirst(order, saved, g, key, i))
      && forall i: nat | ShowsFirst(order, saved, g, key, i) :: key in copies && copies[key] == saved[order[i]].t.value
    decreases |order|
  {
    if order != [] {
      var n := |order| - 1;
      var front := order[..n];
      GatherFirst(front, saved, g, key);
      forall i: nat ensures ShowsFirst(order, saved, g, key, i) <==>
        ShowsFirst(front, saved, g, key, i) || (i == n && key !in Gather(front, saved, g) && Shows(saved, g, key, order[n]))
      {
        FirstOfMore(order, saved, g, key, i);
      }
      if key !in Gather(front, saved, g) && Shows(saved, g, key, order[n]) { assert ShowsFirst(order, saved, g, key, n); }
    }
  }

  lemma {:induction false} SomeFirst(order: seq<Tag>, saved: map<Tag, Saved>, g: int, key: Key, k: nat)
    requires k < |order| && Shows(saved, g, key, order[k])
    ensures exists i: nat :: ShowsFirst(order, saved, g, key, i) && i <= k
    decreases k
  {
    if j: nat :| j < k && Shows(saved, g, key, order[j]) {
      SomeFirst(order, saved, g, key, j);
    } else {
      assert ShowsFirst(order, saved, g, key, k);
    }
  }

  lemma FirstOfMore(order: seq<Tag>, saved: map<Tag, Saved>, g: int, key: Key, i: nat)
    requires order != []
    ensures var (n, front) := (|order| - 1, order[..|order| - 1]);
      ShowsFirst(order, saved, g, key, i) <==>
        || ShowsFirst(front, saved, g, key, i)
        || (i == n && !(exists k: nat :: ShowsFirst(front, saved, g, key, k)) && Shows(saved, g, key, order[n]))
  {
    var (n, front) := (|order| - 1, order[..|order| - 1]);
    forall k: nat | k < n && Shows(saved, g, key, order[k]) ensures exists j: nat :: ShowsFirst(front, saved, g, key, j) {
      assert front[k] == order[k];
      SomeFirst(front, saved, g, key, k);
    }
  }

  /** Offloading a group leaves keys and shapes behind, fails if some of it is away already, and touches no other group. */
  lemma BulkOffloadMeans(m: Memory, g: int)
    ensures var r := BulkOffload(m, g);
      && (r.Ok? <==> forall tag :: tag in m.saved && tag.group == g ==> m.saved[tag].Device?)
      && (r.Ok? ==>
            && r.value.saved.Keys == m.saved.Keys && r.value.order == m.order && r.value.held == m.held
            && r.value.backups == m.backups[g := Gather(m.order, m.saved, g)]
            && forall tag :: tag in m.saved ==>
                 && (tag.group != g ==> r.value.saved[tag] == m.saved[tag])
                 && (tag.group == g ==> r.value.saved[tag] == Away(m.saved[tag].t.key, m.saved[tag].t.value.shape)))
  {
  }

  /** Reloading a group gives every tensor of it its shape and the elements of the copy for its key, at the place where
      that copy is put; it fails without the group's copies, without one for some key, or if one has the wrong size. */
  lemma BulkReloadMeans(groups: nat, m: Memory, g: int, alloc: Key -> int)
    ensures var r := BulkReload(groups, m, g, alloc);
      && (r.Ok? <==> g < groups && g in m.backups && forall tag :: tag in m.saved && tag.group == g && m.saved[tag].Away? ==>
            m.saved[tag].key in m.backups[g] && |m.backups[g][m.saved[tag].key].elems| == Numel(m.saved[tag].shape))
      && (r.Ok? ==>
            && r.value.saved.Keys == m.saved.Keys && r.value.order == m.order && r.value.held == m.held
            && r.value.backups == m.backups - {g}
            && forall tag :: tag in m.saved ==>
                 if tag.group == g && m.saved[tag].Away? then
                   var (key, shape) := (m.saved[tag].key, m.saved[tag].shape);
                   r.value.saved[tag] == Device(Tensor(Key(alloc(key), key.dtype), Value(shape, m.backups[g][key].elems)))
                 else r.value.saved[tag] == m.saved[tag])
  {
  }

  // ---------- The handler object ----------

  class AsyncOffloadHandler {
    const groups: nat
    const layers: nat
    var window: map<nat, int>
    var current: int
    var count: nat
    var order: seq<Tag>
    var saved: map<Tag, Saved>
    var held: map<Tag, Option<Tensor>>
    var done: int
    var backups: map<int, map<Key, Value>>
    var log: seq<Event>

    ghost predicate Valid()
      reads this
    {
      && (forall i: nat :: i in window <==> i < groups)
      && (forall i: nat :: i < groups ==> window[i] == Window(layers, groups, i))
      && (forall tag :: tag in order <==> tag in saved)
      && NoRepeats(order)
    }

    function Stored(): Memory
      reads this
    {
      Memory(order, saved, held, backups)
    }

    function Model(): Handler
      reads this
    {
      Handler(current, count, done, Stored(), log)
    }

    constructor (groups: nat, layers: nat)
      ensures Valid() && this.groups == groups && this.layers == layers && Model() == INITIAL
    {
      this.groups, this.layers := groups, layers;
      current, count, order, saved, held, done, backups, log := 0, 0, [], map[], map[], 0, map[], [];
      new;
      window := BuildWindow(layers, groups);
    }

    /** A tensor that is not to be offloaded gets no tag. */
    method TensorPush(t: Tensor, needsOffload: bool) returns (ok: bool, tag: Option<Tag>)
      requires Valid()
      modifies this
      ensures Valid()
      ensures !needsOffload ==> ok && tag == None && Model() == old(Model())
      ensures needsOffload ==> ok == Push(groups, old(Model()), t).Ok? && tag == Some(Tag(old(current), old(count)))
      ensures needsOffload && ok ==> Model() == Push(groups, old(Model()), t).value
      ensures needsOffload && ok ==>
        && tag.value !in old(saved) && saved == old(saved)[tag.value := Device(t)] && order == old(order) + [tag.value]
        && held == if old(current) < groups then old(held)[tag.value := Some(t)] else old(held)
    {
      if !needsOffload {
        return true, None;
      }
      var new_tag := Tag(current, count);
      tag := Some(new_tag);
      if new_tag in saved {
        return false, tag;
      }
      log := log + [Work(current)];
      count := count + 1;
      assert (order + [new_tag])[..|order|] == order;
      saved := saved[new_tag := Device(t)];
      order := order + [new_tag];
      if current < groups {
        held := held[new_tag := Some(t)];
      }
      ok := true;
    }

    method TensorPop(tag: Tag) returns (ok: bool, v: Value)
      requires Valid()
      modifies this
      ensures Valid() && ok == Pop(old(Model()), tag).Ok?
      ensures ok ==> (Model(), v) == Pop(old(Model()), tag).value
      ensures ok ==> tag in old(saved) && old(saved)[tag].Device? && v == old(saved)[tag].t.value
      ensures ok ==> saved == old(saved) - {tag} && held == old(held) - {tag}
      ensures !ok ==> Model() == old(Model())
    {
      v := Value([], []);
      if tag !in saved || saved[tag].Away? {
        return false, v;
      }
      v := saved[tag].t.value;
      order, saved, held := Without(order, tag), saved - {tag}, held - {tag};
      log := log + [Use(tag.group)];
      ok := true;
    }

    method BulkOffloadGroup(g: int) returns (ok: bool)
      requires Valid()
      modifies `saved, `backups, `log
      ensures Valid() && ok == BulkOffload(old(Stored()), g).Ok?
      ensures ok ==> Stored() == BulkOffload(old(Stored()), g).value && log == old(log) + OutEvents(old(Stored()), g)
    {
      hide Window, SentAway, Gather, NoRepeats;
      var mapping: map<Key, Value> := map[];
      ghost var was := saved;
      assert Gather(order[..0], was, g) == map[] by { GatherNone(was, g); }
      ok := true;
      for i := 0 to |order|
        invariant saved.Keys == was.Keys && backups == old(backups) && log == old(log)
        invariant mapping == Gather(order[..i], was, g)
        invariant forall tag :: tag in order[..i] && tag.group == g ==> was[tag].Device?
        invariant forall tag :: tag in saved ==>
          saved[tag] == (if tag in order[..i] && tag.group == g then Leaving(was[tag]) else was[tag])
      {
        var tag := order[i];
        NoRepeatsAt(order, i);
        assert order[..i + 1] == order[..i] + [tag];
        assert tag in order && tag in saved && saved[tag] == was[tag];
        if tag.group != g {
          GatherSnoc(order, was, g, i);
        } else {
          if saved[tag].Away? {
            return false;
          }
          GatherSnoc(order, was, g, i);
          var t := saved[tag].t;
          if t.key !in mapping {
            mapping := mapping[t.key := t.value];
          }
          saved := saved[tag := Away(t.key, t.value.shape)];
        }
      }
      assert order[..|order|] == order;
      SentAwayIs(was, order, saved, g);
      backups := backups[g := mapping];
      if mapping != map[] {
        log := log + [CopyOut(g)];
      }
    }

    method BulkReloadGroup(g: int, alloc: Key -> int) returns (ok: bool)
      requires Valid()
      modifies `saved, `backups, `log
      ensures Valid() && ok == BulkReload(groups, old(Stored()), g, alloc).Ok?
      ensures ok ==> Stored() == BulkReload(groups, old(Stored()), g, alloc).value && log == old(log) + InEvents(old(Stored()), g)
    {
      if g >= groups || g !in backups {
        return false;
      }
      var mapping := backups[g];
      ok := true;
      for i := 0 to |order|
        invariant saved.Keys == old(saved.Keys) && backups == old(backups) && log == old(log)
        invariant forall tag :: tag in order[..i] && tag.group == g && old(saved)[tag].Away? ==>
          var s := old(saved)[tag]; s.key in mapping && |mapping[s.key].elems| == Numel(s.shape)
        invariant forall tag :: tag in saved ==>
          saved[tag] == (if tag in order[..i] && tag.group == g && old(saved)[tag].Away?
            then Device(Recovered(old(saved)[tag].key, old(saved)[tag].shape, mapping[old(saved)[tag].key], alloc))
            else old(saved)[tag])
      {
        var tag := order[i];
        NoRepeatsAt(order, i);
        assert order[..i + 1] == order[..i] + [tag];
        assert tag in order && tag in saved;
        if tag.group == g && saved[tag].Away? {
          var (key, shape) := (saved[tag].key, saved[tag].shape);
          if key !in mapping || |mapping[key].elems| != Numel(shape) {
            assert !Restorable(old(saved), g, mapping);
            return false;
          }
          saved := saved[tag := Device(Recovered(key, shape, mapping[key], alloc))];
        }
      }
      assert order[..|order|] == order;
      assert saved == Restored(old(saved), g, mapping, alloc);
      backups := backups - {g};
      if mapping != map[] {
        log := log + [CopyIn(g)];
      }
    }

    method EndWindow() returns (ok: bool)
      requires Valid()
      modifies this
      ensures Valid() && ok == CloseWindow(groups, old(Model())).Ok?
      ensures ok ==> Model() == CloseWindow(groups, old(Model())).value
    {
      hide BulkOffload, OutEvents, FreeEvents, Dropped, Window, NoRepeats;
      log := log + [Wait(ToHost, Compute), Wait(Compute, ToHost)] + FreeEvents(Stored(), done);
      held := Dropped(held, done);
      ok := true;
      if done < groups - 1 {
        ok := BulkOffloadGroup(done + 1);
      }
      done := done + 1;
    }

    method SynchronizeOnGroupCommitForward() returns (ok: bool)
      requires Valid()
      modifies this
      ensures Valid() && ok == Synchronize(layers, groups, old(Model())).Ok?
      ensures ok ==> Model() == Synchronize(layers, groups, old(Model())).value
    {
      hide BulkOffload, OutEvents, CloseWindow, Window, NoRepeats;
      ok := true;
      if current == 0 {
        log := log + [Wait(ToHost, Compute)];
        ok := BulkOffloadGroup(0);
        assert ok ==> log == old(log) + ([Wait(ToHost, Compute)] + OutEvents(old(Stored()), 0));
      }
      if !ok || done < 0 || done !in window {
        return false;
      }
      if window[done] == current {
        ok := EndWindow();
      }
    }

    method OnGroupCommitForward() returns (ok: bool)
      requires Valid()
      modifies this
      ensures Valid() && ok == CommitForward(layers, groups, old(Model())).Ok?
      ensures ok ==> Model() == CommitForward(layers, groups, old(Model())).value
    {
      hide Synchronize, Window, NoRepeats;
      ok := SynchronizeOnGroupCommitForward();
      if ok {
        current := current + 1;
        count := 0;
      }
    }

    method OnGroupCommitBackward(alloc: Key -> int) returns (ok: bool)
      requires Valid()
      modifies this
      ensures Valid() && ok == CommitBackward(layers, groups, old(Model()), alloc).Ok?
      ensures ok ==> Model() == CommitBackward(layers, groups, old(Model()), alloc).value
    {
      hide BulkReload, InEvents, Window, NoRepeats;
      current := current - 1;
      if current < 0 || done < 1 || done - 1 !in window {
        return false;
      }
      ok := true;
      if window[done - 1] == current {
        log := log + [Wait(ToDevice, Compute), Wait(Compute, ToDevice)];
        ok := BulkReloadGroup(done - 1, alloc);
        done := if done > 1 then done - 1 else done;
      }
      if ok && current == 0 {
        log := log + [Wait(Compute, ToDevice)];
        done := 0;
      }
    }
  }

  lemma {:induction false} NoRepeatsAt(order: seq<Tag>, i: nat)
    requires NoRepeats(order) && i < |order|
    ensures order[i] !in order[..i]
    decreases |order|
  {
    var front := order[..|order| - 1];
    if i < |front| {
      NoRepeatsAt(front, i);
      assert front[..i] == order[..i];
    }
  }
}
