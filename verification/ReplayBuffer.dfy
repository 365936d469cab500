// The replay buffer and the protocol around it (main_ppo_sync.py): a dispatcher, asynchronous agent loops, a polling
// thread and a sampler share tagged keys.
module ReplayBuffer {
  import opened Common

  type Uid = string

  /** A prompt's own key, or the key of one output of one of its sessions. */
  datatype Key = Prompt(uid: Uid) | Output(uid: Uid, session: nat, index: nat)

  datatype Status = Running | Success | Finished

  /** The tag dictionary of a key; a finished prompt is tagged without a step. */
  datatype Tag = Tag(step: Option<nat>, status: Status)

  type Partition = map<Key, Tag>

  /** `dict.update` of a tag. */
  function Updated(old_tag: Tag, tag: Tag): Tag {
    Tag(if tag.step.Some? then tag.step else old_tag.step, tag.status)
  }

  function Merge(p: Partition, items: Partition): Partition {
    map key | key in p.Keys + items.Keys ::
      if key !in items then p[key] else if key in p then Updated(p[key], items[key]) else items[key]
  }

  // ---------- Sampling ----------

  predicate OfStep(p: Partition, key: Key, step: nat) {
    key in p && p[key].step == Some(step)
  }

  predicate AllHaveSteps(p: Partition) {
    forall key :: key in p ==> p[key].step.Some?
  }

  predicate MustWait(p: Partition, step: nat) {
    exists key :: key in p && OfStep(p, key, step) && p[key].status == Running
  }

  function Selected(p: Partition, step: nat): set<Key> {
    set key | key in p && OfStep(p, key, step) && p[key].status == Success
  }

  class Buffer {
    var partitions: map<string, Partition>

    constructor ()
      ensures partitions == map[]
    {
      partitions := map[];
    }

    /** A partition that was never touched is empty. */
    function Of(id: string): Partition
      reads this
    {
      if id in partitions then partitions[id] else map[]
    }

    method Add(id: string, items: Partition)
      modifies this
      ensures partitions == old(partitions)[id := Merge(old(Of(id)), items)]
      ensures Of(id).Keys == old(Of(id)).Keys + items.Keys
      ensures forall key :: key in Of(id) && key !in items ==> Of(id)[key] == old(Of(id))[key]
      ensures forall key :: key in items ==>
        && Of(id)[key].status == items[key].status
        && Of(id)[key].step == if items[key].step.None? && key in old(Of(id)) then old(Of(id))[key].step else items[key].step
    {
      var partition := Of(id);
      var todo := items.Keys;
      while todo != {}
        invariant todo <= items.Keys
        invariant partition == Merge(Of(id), map key | key in items.Keys - todo :: items[key])
      {
        var key: Key :| key in todo;
        partition := partition[key := if key in partition then Updated(partition[key], items[key]) else items[key]];
        todo := todo - {key};
      }
      assert items == map key | key in items.Keys - todo :: items[key];
      partitions := partitions[id := partition];
    }

    method Remove(id: string, keys: seq<Key>)
      modifies this
      ensures partitions == old(partitions)[id := old(Of(id)) - (set key | key in keys)]
    {
      var partition := Of(id);
      for i := 0 to |keys|
        invariant partition == Of(id) - (set key | key in keys[..i])
      {
        assert keys[..i + 1] == keys[..i] + [keys[i]];
        if keys[i] in partition {
          partition := partition - {keys[i]};
        }
      }
      assert keys[..|keys|] == keys;
      partitions := partitions[id := partition];
    }

    /** One round of the sampler under the lock: Ok(None) means that it goes on waiting. It fails on wrong arguments
        (a batch size of 0 stands for none) and when it meets a tag without a step. */
    method SampleOnce(id: string, step: Option<nat>, batchSize: nat) returns (r: Result<Option<seq<Key>>>)
      ensures (step.Some? <==> batchSize > 0) ==> r.Err?
      ensures r.Err? ==> (step.Some? <==> batchSize > 0) || !AllHaveSteps(Of(id))
      ensures r == Ok(None) ==> step.Some? && MustWait(Of(id), step.value)
      ensures r.Ok? && r.value.Some? ==>
        var keys := r.value.value;
        && AllHaveSteps(Of(id))
        && (step.None? ==> keys == [])
        && (step.Some? ==> !MustWait(Of(id), step.value) && forall key :: key in keys <==> key in Selected(Of(id), step.value))
        && forall i, k | 0 <= i < k < |keys| :: keys[i] != keys[k]
    {
      if step.Some? == (batchSize > 0) {
        return Err;
      }
      var partition := Of(id);
      var found: seq<Key> := [];
      var todo := partition.Keys;
      while todo != {}
        invariant todo <= partition.Keys
        invariant forall key :: key in partition.Keys - todo ==> partition[key].step.Some?
        invariant step.None? ==> found == []
        invariant step.Some? ==> forall key :: key in partition.Keys - todo && OfStep(partition, key, step.value) ==>
          partition[key].status != Running
        invariant step.Some? ==> forall key :: key in found <==> key in Selected(partition, step.value) && key !in todo
        invariant forall i, k | 0 <= i < k < |found| :: found[i] != found[k]
      {
        var key: Key :| key in todo;
        todo := todo - {key};
        if partition[key].step.None? {
          return Err;
        }
        if partition[key].step == step {
          if partition[key].status == Running {
            return Ok(None);
          }
          if partition[key].status == Success {
            found := found + [key];
          }
        }
      }
      return Ok(Some(found));
    }
  }

  // ---------- The protocol ----------

  /** `stepOf` gives each prompt's step, `outputs` for each of its sessions the number of outputs. */
  datatype Plan = Plan(stepOf: map<Uid, nat>, outputs: map<Uid, seq<nat>>) {
    predicate Has(uid: Uid) {
      uid in stepOf && uid in outputs
    }

    predicate IsOutput(key: Key) {
      key.Output? && Has(key.uid) && key.session < |outputs[key.uid]| && key.index < outputs[key.uid][key.session]
    }
  }

  datatype Phase = Idle | Sampling | Training(keys: set<Key>) | Clearing(keys: set<Key>)

  /** `queue` is the transfer queue's partition, `snapshot` a listing that the polling thread has taken but not yet
      added. */
  datatype World = World(
    step: nat, phase: Phase, buffer: Partition, queue: Partition, snapshot: Option<Partition>,
    published: set<(Uid, nat)>, finished: set<Uid>)

  datatype Action =
    | Dispatch | Publish(uid: Uid, session: nat) | Finish(uid: Uid) | PollTake | PollAdd
    | Sample | ClearQueue | ClearBuffer

  predicate Dispatched(plan: Plan, w: World, uid: Uid) {
    plan.Has(uid) && (plan.stepOf[uid] < w.step || (plan.stepOf[uid] == w.step && w.phase != Idle))
  }

  predicate Enabled(plan: Plan, w: World, a: Action) {
    match a
    case Dispatch => w.phase == Idle
    case Publish(uid, session) =>
      Dispatched(plan, w, uid) && session < |plan.outputs[uid]| && (uid, session) !in w.published
    case Finish(uid) =>
      Dispatched(plan, w, uid) && uid !in w.finished && forall s :: 0 <= s < |plan.outputs[uid]| ==> (uid, s) in w.published
    case PollTake => w.snapshot.None?
    case PollAdd => w.snapshot.Some?
    case Sample => w.phase == Sampling && !MustWait(w.buffer, w.step)
    case ClearQueue => w.phase.Training?
    case ClearBuffer => w.phase.Clearing?
  }

  function Pending(plan: Plan, step: nat): Partition {
    map uid | uid in plan.stepOf && plan.Has(uid) && plan.stepOf[uid] == step :: Prompt(uid) := Tag(Some(step), Running)
  }

  function Outputs(plan: Plan, uid: Uid, session: nat): Partition
    requires plan.Has(uid) && session < |plan.outputs[uid]|
  {
    map i: nat | 0 <= i < plan.outputs[uid][session] :: Output(uid, session, i) := Tag(Some(plan.stepOf[uid]), Success)
  }

  function Apply(plan: Plan, w: World, a: Action): World
    requires Enabled(plan, w, a)
  {
    match a
    case Dispatch => w.(phase := Sampling, buffer := Merge(w.buffer, Pending(plan, w.step)))
    case Publish(uid, session) =>
      w.(queue := Merge(w.queue, Outputs(plan, uid, session)), published := w.published + {(uid, session)})
    case Finish(uid) =>
      w.(queue := Merge(w.queue, map[Prompt(uid) := Tag(None, Finished)]), finished := w.finished + {uid})
    case PollTake => w.(snapshot := Some(w.queue))
    case PollAdd => w.(buffer := Merge(w.buffer, w.snapshot.value), snapshot := None)
    case Sample => w.(phase := Training(Selected(w.buffer, w.step)))
    case ClearQueue => w.(phase := Clearing(w.phase.keys), queue := w.queue - w.phase.keys)
    case ClearBuffer => w.(phase := Idle, step := w.step + 1, buffer := w.buffer - w.phase.keys)
  }

  const START := World(0, Idle, map[], map[], None, {}, {})

  ghost predicate Steps(plan: Plan, w: World, w': World) {
    exists a :: Enabled(plan, w, a) && w' == Apply(plan, w, a)
  }

  ghost predicate IsRun(plan: Plan, run: seq<World>) {
    var last := |run| - 1;
    run != [] &&
    if last == 0 then run[0] == START
    else IsRun(plan, run[..last]) && Steps(plan, run[last - 1], run[last])
  }

  ghost predicate Reachable(plan: Plan, w: World) {
    exists run :: IsRun(plan, run) && run[|run| - 1] == w
  }
}
