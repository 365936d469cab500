// Under every interleaving the sampler returns exactly the outputs of its step.
module ReplaySafety {
  import opened Common
  import opened ReplayBuffer

  // ---------- Invariant ----------

  ghost predicate OutputEntry(plan: Plan, w: World, key: Key, tag: Tag) {
    && plan.IsOutput(key) && Dispatched(plan, w, key.uid) && (key.uid, key.session) in w.published
    && tag == Tag(Some(plan.stepOf[key.uid]), Success)
  }

  /** An entry of the transfer queue or of a listing of it. */
  ghost predicate QueueEntry(plan: Plan, w: World, key: Key, tag: Tag) {
    if key.Output? then OutputEntry(plan, w, key, tag) else key.uid in w.finished && tag == Tag(None, Finished)
  }

  ghost predicate BufferEntry(plan: Plan, w: World, key: Key, tag: Tag) {
    if key.Output? then OutputEntry(plan, w, key, tag)
    else
      && Dispatched(plan, w, key.uid) && tag.step == Some(plan.stepOf[key.uid])
      && (tag.status == Running || (tag.status == Finished && key.uid in w.finished))
  }

  ghost predicate QueueOk(plan: Plan, w: World, p: Partition) {
    forall key :: key in p ==> QueueEntry(plan, w, key, p[key])
  }

  ghost predicate BufferOk(plan: Plan, w: World) {
    && (forall key :: key in w.buffer ==> BufferEntry(plan, w, key, w.buffer[key]))
    && (forall uid :: Dispatched(plan, w, uid) ==> Prompt(uid) in w.buffer)
  }

  /** Sessions are published by dispatched prompts, and a prompt finishes after all its sessions. */
  ghost predicate Facts(plan: Plan, w: World) {
    && (forall uid, s :: (uid, s) in w.published ==> Dispatched(plan, w, uid))
    && (forall uid :: uid in w.finished ==> Dispatched(plan, w, uid))
    && (forall uid, s: nat :: uid in w.finished && plan.Has(uid) && s < |plan.outputs[uid]| ==> (uid, s) in w.published)
  }

  /** Wherever a prompt of the current step shows as finished, all its outputs are beside it. */
  ghost predicate Complete(plan: Plan, step: nat, p: Partition) {
    forall key :: plan.IsOutput(key) && plan.stepOf[key.uid] == step && Prompt(key.uid) in p && p[Prompt(key.uid)].status == Finished
                  ==> key in p
  }

  ghost predicate AllQueued(plan: Plan, w: World) {
    forall key :: plan.IsOutput(key) && plan.stepOf[key.uid] == w.step && (key.uid, key.session) in w.published ==> key in w.queue
  }

  /** While the sampler waits nothing of its step has been cleared. */
  ghost predicate StepOk(plan: Plan, w: World) {
    && AllQueued(plan, w) && Complete(plan, w.step, w.buffer)
    && (w.snapshot.Some? ==> Complete(plan, w.step, w.snapshot.value))
  }

  ghost predicate Inv(plan: Plan, w: World) {
    && Facts(plan, w) && QueueOk(plan, w, w.queue) && BufferOk(plan, w)
    && (forall uid :: uid in w.finished ==> Prompt(uid) in w.queue)
    && (w.snapshot.Some? ==> QueueOk(plan, w, w.snapshot.value))
    && (w.phase.Training? || w.phase.Clearing? ==> forall key <- w.phase.keys :: key.Output?)
    && (w.phase == Sampling ==> StepOk(plan, w))
  }

  // ---------- Steps ----------

  lemma QueueComplete(plan: Plan, w: World)
    requires Facts(plan, w) && QueueOk(plan, w, w.queue) && AllQueued(plan, w)
    ensures Complete(plan, w.step, w.queue)
  {
    forall key | plan.IsOutput(key) && plan.stepOf[key.uid] == w.step && Prompt(key.uid) in w.queue ensures key in w.queue {
      assert QueueEntry(plan, w, Prompt(key.uid), w.queue[Prompt(key.uid)]);
    }
  }

  lemma DispatchStep(plan: Plan, w: World)
    requires Inv(plan, w) && w.phase == Idle
    ensures Inv(plan, Apply(plan, w, Dispatch))
  {
    var w' := Apply(plan, w, Dispatch);
    assert forall uid :: Dispatched(plan, w, uid) ==> Dispatched(plan, w', uid);
    forall key | key in w'.buffer ensures BufferEntry(plan, w', key, w'.buffer[key]) {
      assert key in w.buffer ==> BufferEntry(plan, w, key, w.buffer[key]);
    }
    forall key | plan.IsOutput(key) && plan.stepOf[key.uid] == w.step ensures !Dispatched(plan, w, key.uid) {
    }
  }

  lemma PublishStep(plan: Plan, w: World, uid: Uid, session: nat)
    requires Inv(plan, w) && Enabled(plan, w, Publish(uid, session))
    ensures Inv(plan, Apply(plan, w, Publish(uid, session)))
  {
    var w' := Apply(plan, w, Publish(uid, session));
    forall key | key in w'.queue ensures QueueEntry(plan, w', key, w'.queue[key]) {
      assert key in w.queue ==> QueueEntry(plan, w, key, w.queue[key]);
    }
    assert w.snapshot.Some? ==> QueueOk(plan, w', w.snapshot.value);
    assert BufferOk(plan, w');
  }

  lemma FinishStep(plan: Plan, w: World, uid: Uid)
    requires Inv(plan, w) && Enabled(plan, w, Finish(uid))
    ensures Inv(plan, Apply(plan, w, Finish(uid)))
  {
    var w' := Apply(plan, w, Finish(uid));
    forall key | key in w'.queue ensures QueueEntry(plan, w', key, w'.queue[key]) {
      assert key in w.queue ==> QueueEntry(plan, w, key, w.queue[key]);
    }
    assert w.snapshot.Some? ==> QueueOk(plan, w', w.snapshot.value);
    assert BufferOk(plan, w');
  }

  lemma PollTakeStep(plan: Plan, w: World)
    requires Inv(plan, w) && w.snapshot.None?
    ensures Inv(plan, Apply(plan, w, PollTake))
  {
    if w.phase == Sampling { QueueComplete(plan, w); }
  }

  /** A listing, however old, is merged into the buffer. */
  lemma PollAddStep(plan: Plan, w: World)
    requires Inv(plan, w) && w.snapshot.Some?
    ensures Inv(plan, Apply(plan, w, PollAdd))
  {
    var (w', m) := (Apply(plan, w, PollAdd), w.snapshot.value);
    forall key | key in w'.buffer ensures BufferEntry(plan, w', key, w'.buffer[key]) {
      if key in m {
        assert QueueEntry(plan, w, key, m[key]);
        if key.Prompt? { assert Dispatched(plan, w, key.uid) && Prompt(key.uid) in w.buffer; }
      }
      assert key in w.buffer ==> BufferEntry(plan, w, key, w.buffer[key]);
    }
    assert BufferOk(plan, w');
    if w.phase == Sampling { MergeComplete(plan, w, m); }
  }

  lemma MergeComplete(plan: Plan, w: World, m: Partition)
    requires Complete(plan, w.step, w.buffer) && Complete(plan, w.step, m) && QueueOk(plan, w, m) && BufferOk(plan, w)
    ensures Complete(plan, w.step, Merge(w.buffer, m))
  {
    var p := Merge(w.buffer, m);
    forall key | plan.IsOutput(key) && plan.stepOf[key.uid] == w.step && Prompt(key.uid) in p && p[Prompt(key.uid)].status == Finished
      ensures key in p
    {
      var prompt := Prompt(key.uid);
      if prompt in m {
        assert QueueEntry(plan, w, prompt, m[prompt]);
        assert key in m;
      } else {
        assert key in w.buffer;
      }
    }
  }

  lemma TrainerStep(plan: Plan, w: World, a: Action)
    requires Inv(plan, w) && Enabled(plan, w, a) && (a.Sample? || a.ClearQueue? || a.ClearBuffer?)
    ensures Inv(plan, Apply(plan, w, a))
  {
    var w' := Apply(plan, w, a);
    assert forall uid :: Dispatched(plan, w, uid) <==> Dispatched(plan, w', uid);
    assert forall key :: key in w'.queue ==> QueueEntry(plan, w, key, w.queue[key]);
    assert w.snapshot.Some? ==> QueueOk(plan, w', w.snapshot.value);
    forall key | key in w'.buffer ensures BufferEntry(plan, w', key, w'.buffer[key]) {
      assert BufferEntry(plan, w, key, w.buffer[key]);
    }
    assert a.Sample? ==> forall key <- Selected(w.buffer, w.step) :: BufferEntry(plan, w, key, w.buffer[key]);
  }

  /** Every enabled action keeps the invariant. */
  lemma StepInv(plan: Plan, w: World, a: Action)
    requires Inv(plan, w) && Enabled(plan, w, a)
    ensures Inv(plan, Apply(plan, w, a))
  {
    hide Inv;
    match a
    case Dispatch => DispatchStep(plan, w);
    case Publish(uid, session) => PublishStep(plan, w, uid, session);
    case Finish(uid) => FinishStep(plan, w, uid);
    case PollTake => PollTakeStep(plan, w);
    case PollAdd => PollAddStep(plan, w);
    case _ => TrainerStep(plan, w, a);
  }

  lemma {:induction false} RunInv(plan: Plan, run: seq<World>)
    requires IsRun(plan, run)
    ensures Inv(plan, run[|run| - 1])
    decreases |run|
  {
    var last := |run| - 1;
    if last > 0 {
      hide Inv, Enabled, Apply;
      var w := run[..last][last - 1];
      RunInv(plan, run[..last]);
      var a :| Enabled(plan, w, a) && run[last] == Apply(plan, w, a);
      StepInv(plan, w, a);
    }
  }

  lemma ReachableInv(plan: Plan, w: World)
    requires Reachable(plan, w)
    ensures Inv(plan, w)
  {
    hide Inv;
    var run :| IsRun(plan, run) && run[|run| - 1] == w;
    RunInv(plan, run);
  }

  // ---------- Results ----------

  /** Whenever the sampler returns, every prompt of its step has finished, and it returns exactly the outputs of all
      their sessions: nothing is missing, and nothing of an earlier step is there, even if a late poll has put removed
      keys back. */
  lemma SampleIsExact(plan: Plan, w: World)
    requires Reachable(plan, w) && Enabled(plan, w, Sample)
    ensures forall uid :: plan.Has(uid) && plan.stepOf[uid] == w.step ==> uid in w.finished
    ensures forall key :: key in Selected(w.buffer, w.step) <==> plan.IsOutput(key) && plan.stepOf[key.uid] == w.step
  {
    ReachableInv(plan, w);
    forall uid | plan.Has(uid) && plan.stepOf[uid] == w.step
      ensures uid in w.finished && Prompt(uid) in w.buffer && w.buffer[Prompt(uid)].status == Finished
    {
      assert Dispatched(plan, w, uid) && Prompt(uid) in w.buffer;
      assert BufferEntry(plan, w, Prompt(uid), w.buffer[Prompt(uid)]);
      assert OfStep(w.buffer, Prompt(uid), w.step);
    }
    forall key ensures key in Selected(w.buffer, w.step) <==> plan.IsOutput(key) && plan.stepOf[key.uid] == w.step {
      if key in w.buffer { assert BufferEntry(plan, w, key, w.buffer[key]); }
    }
  }

  /** What the trainer works on, and later clears, is what was sampled: exactly the outputs of the step. */
  lemma {:induction false} TrainsOnTheStep(plan: Plan, run: seq<World>)
    requires IsRun(plan, run)
    ensures var w := run[|run| - 1];
      w.phase.Training? || w.phase.Clearing? ==>
        forall key :: key in w.phase.keys <==> plan.IsOutput(key) && plan.stepOf[key.uid] == w.step
    decreases |run|
  {
    var last := |run| - 1;
    if last > 0 {
      var w := run[..last][last - 1];
      TrainsOnTheStep(plan, run[..last]);
      var a :| Enabled(plan, w, a) && run[last] == Apply(plan, w, a);
      if a.Sample? {
        assert Reachable(plan, w);
        SampleIsExact(plan, w);
      }
    }
  }

  /** The step has been sampled. */
  predicate Sampled(plan: Plan, w: World, uid: Uid) {
    plan.Has(uid) && (plan.stepOf[uid] < w.step || (plan.stepOf[uid] == w.step && (w.phase.Training? || w.phase.Clearing?)))
  }

  /** Nothing of a step that has been cleared is in the transfer queue, and all prompts of sampled steps have finished. */
  ghost predicate Cleared(plan: Plan, w: World) {
    && (forall uid :: Sampled(plan, w, uid) ==> uid in w.finished)
    && forall key :: key in w.queue && plan.IsOutput(key) ==>
         plan.stepOf[key.uid] > w.step || (plan.stepOf[key.uid] == w.step && !w.phase.Clearing?)
  }

  lemma ClearedStep(plan: Plan, w: World, a: Action)
    requires Reachable(plan, w) && Enabled(plan, w, a) && Cleared(plan, w)
    requires w.phase.Training? || w.phase.Clearing? ==>
      forall key :: key in w.phase.keys <==> plan.IsOutput(key) && plan.stepOf[key.uid] == w.step
    ensures Cleared(plan, Apply(plan, w, a))
  {
    if a.Sample? { SampleIsExact(plan, w); }
    if a.Publish? {
      ReachableInv(plan, w);
      hide BufferOk, QueueOk, StepOk;
      assert !Sampled(plan, w, a.uid);
    }
    hide Reachable;
  }

  /** What was trained on is gone from the transfer queue for good: publishing never brings back a step that has been
      cleared. (The buffer may get such keys back by a stale poll.) */
  lemma {:induction false} QueueStaysClear(plan: Plan, run: seq<World>)
    requires IsRun(plan, run)
    ensures Cleared(plan, run[|run| - 1])
    decreases |run|
  {
    hide Cleared;
    var last := |run| - 1;
    if last == 0 {
      assert Cleared(plan, START) by { NothingSampled(plan); }
    } else {
      var w := run[..last][last - 1];
      QueueStaysClear(plan, run[..last]);
      TrainsOnTheStep(plan, run[..last]);
      var a :| Enabled(plan, w, a) && run[last] == Apply(plan, w, a);
      assert Reachable(plan, w);
      ClearedStep(plan, w, a);
    }
  }

  lemma NothingSampled(plan: Plan)
    ensures Cleared(plan, START)
  {
  }

  /** Clearing takes exactly the step's outputs out of the buffer. */
  lemma ClearsTheStep(plan: Plan, run: seq<World>, key: Key)
    requires IsRun(plan, run) && run[|run| - 1].phase.Clearing?
    ensures var (w, w') := (run[|run| - 1], Apply(plan, run[|run| - 1], ClearBuffer));
      key in w'.buffer <==> key in w.buffer && !(plan.IsOutput(key) && plan.stepOf[key.uid] == w.step)
  {
    TrainsOnTheStep(plan, run);
  }

  /** The sampler's lookups never miss: every tag in the buffer has a step. */
  lemma TagsHaveSteps(plan: Plan, w: World)
    requires Reachable(plan, w)
    ensures AllHaveSteps(w.buffer)
  {
    ReachableInv(plan, w);
    forall key | key in w.buffer ensures w.buffer[key].step.Some? {
      assert BufferEntry(plan, w, key, w.buffer[key]);
    }
  }

  /** The sampler does not wait for ever: when all prompts of the step have finished, it returns after the next poll. */
  lemma SampleReturns(plan: Plan, w: World)
    requires Reachable(plan, w) && w.phase == Sampling && w.snapshot.None?
    requires forall uid :: plan.Has(uid) && plan.stepOf[uid] == w.step ==> uid in w.finished
    ensures Enabled(plan, w, PollTake)
    ensures var w1 := Apply(plan, w, PollTake); Enabled(plan, w1, PollAdd) && Enabled(plan, Apply(plan, w1, PollAdd), Sample)
  {
    ReachableInv(plan, w);
    var p := Merge(w.buffer, w.queue);
    forall key | key in p && OfStep(p, key, w.step) ensures p[key].status != Running {
      if key in w.buffer { assert BufferEntry(plan, w, key, w.buffer[key]); }
      if key in w.queue { assert QueueEntry(plan, w, key, w.queue[key]); }
    }
  }

  // ---------- Removed keys do come back ----------

  lemma Extend(plan: Plan, w: World, a: Action) returns (w': World)
    requires Reachable(plan, w) && Enabled(plan, w, a)
    ensures w' == Apply(plan, w, a) && Reachable(plan, w')
  {
    hide Enabled, Apply;
    w' := Apply(plan, w, a);
    var run :| IsRun(plan, run) && run[|run| - 1] == w;
    assert (run + [w'])[..|run|] == run && Steps(plan, w, w');
    assert IsRun(plan, run + [w']);
  }

  /** A single prompt of step 0 with one output. */
  ghost predicate Single(plan: Plan, key: Key) {
    key == Output(key.uid, 0, 0) && plan.stepOf == map[key.uid := 0] && plan.outputs == map[key.uid := [1]]
  }

  lemma Generated(plan: Plan, key: Key) returns (w: World)
    requires key.Output? && Single(plan, key)
    ensures Reachable(plan, w) && w.step == 0 && w.phase == Sampling && w.snapshot.None?
    ensures w.buffer == map[Prompt(key.uid) := Tag(Some(0), Running)]
    ensures w.queue == map[key := Tag(Some(0), Success), Prompt(key.uid) := Tag(None, Finished)]
  {
    SingleMaps(plan, key);
    hide Merge, Pending, Outputs, Reachable;
    assert Reachable(plan, START) by { Starts(plan); }
    var w1 := Extend(plan, START, Dispatch);
    var w2 := Extend(plan, w1, Publish(key.uid, 0));
    w := Extend(plan, w2, Finish(key.uid));
  }

  lemma Starts(plan: Plan)
    ensures Reachable(plan, START)
  {
    assert IsRun(plan, [START]) && [START][0] == START;
  }

  lemma SingleMaps(plan: Plan, key: Key)
    requires key.Output? && Single(plan, key)
    ensures plan.Has(key.uid) && |plan.outputs[key.uid]| == 1
    ensures Merge(map[], Pending(plan, 0)) == map[Prompt(key.uid) := Tag(Some(0), Running)]
    ensures Merge(map[], Outputs(plan, key.uid, 0)) == map[key := Tag(Some(0), Success)]
    ensures Merge(map[key := Tag(Some(0), Success)], map[Prompt(key.uid) := Tag(None, Finished)]) ==
      map[key := Tag(Some(0), Success), Prompt(key.uid) := Tag(None, Finished)]
  {
  }

  lemma SampledRun(plan: Plan, key: Key) returns (w: World)
    requires key.Output? && Single(plan, key)
    ensures Reachable(plan, w) && w.step == 0 && w.phase.Training? && key in w.phase.keys
    ensures w.snapshot.Some? && key in w.snapshot.value
  {
    var w1 := Generated(plan, key);
    var w2 := Extend(plan, w1, PollTake);
    var w3 := Extend(plan, w2, PollAdd);
    assert w3.buffer == map[key := Tag(Some(0), Success), Prompt(key.uid) := Tag(Some(0), Finished)];
    var w4 := Extend(plan, w3, PollTake);
    w := Extend(plan, w4, Sample);
  }

  /** A listing taken before the clean-up and added after it puts an output of step 0 back into the buffer of step 1,
      although the transfer queue no longer has it. */
  lemma StaleKeysComeBack(plan: Plan, key: Key) returns (w: World)
    requires key.Output? && Single(plan, key)
    ensures Reachable(plan, w) && w.step == 1 && key in w.buffer && key !in w.queue
  {
    var w1 := SampledRun(plan, key);
    var w2 := Extend(plan, w1, ClearQueue);
    var w3 := Extend(plan, w2, ClearBuffer);
    w := Extend(plan, w3, PollAdd);
  }
}
