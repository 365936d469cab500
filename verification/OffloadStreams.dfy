// Stream safety: copies run beside the computation, and the waits that the handler enqueues order them correctly.
module OffloadStreams {
  import opened Common
  import opened ActivationWindow
  import opened TensorViews
  import opened ActivationOffload
  import opened OffloadCycle
  import opened OffloadForward
  import opened OffloadBackward
  import opened OffloadSteps

  /** What the streams know about one group's tensors. */
  datatype Phase =
    | Computing    // kernels that write them may still run
    | Complete     // the copy stream to the host has waited for these kernels
    | Copying      // they are being copied out
    | Copied       // the compute stream has waited for the copy
    | Released     // their device memory is free
    | Ready        // the copy stream to the device has waited for what the compute stream knows
    | Returning    // they are being copied in
    | Back         // the compute stream has waited for that copy
    | Hazard       // something ran too early

  function Next(p: Phase, g: int, e: Event): Phase {
    match e
    case Wait(waiter, on) =>
      if p == Computing && waiter == ToHost && on == Compute then Complete
      else if p == Copying && waiter == Compute && on == ToHost then Copied
      else if p == Released && waiter == ToDevice && on == Compute then Ready
      else if p == Returning && waiter == Compute && on == ToDevice then Back
      else p
    case Work(k) => if k != g then p else if p == Computing || p == Complete then Computing else Hazard
    case Use(k) => if k != g || p == Computing || p == Complete || p == Back then p else Hazard
    case CopyOut(k) => if k != g then p else if p == Complete then Copying else Hazard
    case Free(k) => if k != g then p else if p == Copied then Released else Hazard
    case CopyIn(k) => if k != g then p else if p == Ready then Returning else Hazard
  }

  function Run(p: Phase, g: int, events: seq<Event>): Phase {
    if events == [] then p else Next(Run(p, g, events[..|events| - 1]), g, events[|events| - 1])
  }

  /** The phase of a group after everything that was logged. */
  function PhaseOf(h: Handler, g: int): Phase {
    Run(Computing, g, h.log)
  }

  lemma {:induction false} RunAppend(p: Phase, g: int, a: seq<Event>, b: seq<Event>)
    ensures Run(p, g, a + b) == Run(Run(p, g, a), g, b)
  {
    if b == [] {
      assert a + b == a;
    } else {
      var n := |b| - 1;
      assert (a + b)[..|a| + n] == a + b[..n];
      RunAppend(p, g, a, b[..n]);
    }
  }

  /** Once something ran too early the group stays in phase Hazard. */
  lemma HazardStays(p: Phase, g: int, a: seq<Event>, b: seq<Event>)
    requires Run(p, g, a + b) != Hazard
    ensures Run(p, g, a) != Hazard
  {
    RunAppend(p, g, a, b);
    if Run(p, g, a) == Hazard { HazardRuns(g, b); }
  }

  lemma {:induction false} HazardRuns(g: int, events: seq<Event>)
    ensures Run(Hazard, g, events) == Hazard
  {
    if events != [] { HazardRuns(g, events[..|events| - 1]); }
  }

  // ---------- What it means that nothing ran too early ----------

  /** Nothing of what is logged runs too early for group g. */
  ghost predicate NeverTooEarly(log: seq<Event>, g: int) {
    forall k :: 0 <= k <= |log| ==> Run(Computing, g, log[..k]) != Hazard
  }

  lemma NeverTooEarlyIf(log: seq<Event>, g: int)
    requires Run(Computing, g, log) != Hazard
    ensures NeverTooEarly(log, g)
  {
    forall k | 0 <= k <= |log| ensures Run(Computing, g, log[..k]) != Hazard {
      assert log == log[..k] + log[k..];
      HazardStays(Computing, g, log[..k], log[k..]);
    }
  }

  /** `b` is enqueued at some time after `a`. */
  ghost predicate Follows(log: seq<Event>, a: Event, b: Event) {
    exists i, j :: 0 <= i < j < |log| && log[i] == a && log[j] == b
  }

  /** `b` is enqueued, and no `a` after it. */
  ghost predicate Last(log: seq<Event>, a: Event, b: Event) {
    exists j :: 0 <= j < |log| && log[j] == b && a !in log[j..]
  }

  /** What must have been enqueued before an event of group g: a copy-out has waited for all kernels that compute the
      group, and none of them follows; memory is released after the compute stream has waited for the copy-out; the
      copy-in has waited after that; and a pop comes before any copy-out or has waited for the copy-in. */
  ghost predicate InOrder(before: seq<Event>, e: Event, g: int) {
    match e
    case Wait(_, _) => true
    case Work(k) => k == g ==> CopyOut(g) !in before
    case CopyOut(k) => k == g ==> CopyOut(g) !in before && Last(before, Work(g), Wait(ToHost, Compute))
    case Free(k) => k == g ==> Follows(before, CopyOut(g), Wait(Compute, ToHost))
    case CopyIn(k) => k == g ==> Follows(before, Free(g), Wait(ToDevice, Compute))
    case Use(k) => k == g ==> CopyOut(g) !in before || Follows(before, CopyIn(g), Wait(Compute, ToDevice))
  }

  /** What the log shows when a group is in a phase. */
  ghost predicate Evident(p: Phase, log: seq<Event>, g: int) {
    match p
    case Computing => CopyOut(g) !in log
    case Complete => CopyOut(g) !in log && Last(log, Work(g), Wait(ToHost, Compute))
    case Copying => CopyOut(g) in log
    case Copied => Follows(log, CopyOut(g), Wait(Compute, ToHost))
    case Released => Free(g) in log
    case Ready => Follows(log, Free(g), Wait(ToDevice, Compute))
    case Returning => CopyIn(g) in log
    case Back => Follows(log, CopyIn(g), Wait(Compute, ToDevice))
    case Hazard => true
  }

  lemma FollowsMore(log: seq<Event>, e: Event, a: Event, b: Event)
    ensures Follows(log, a, b) ==> Follows(log + [e], a, b)
    ensures a in log && e == b ==> Follows(log + [e], a, b)
  {
    if i, j :| 0 <= i < j < |log| && log[i] == a && log[j] == b { assert (log + [e])[i] == a && (log + [e])[j] == b; }
    if i :| 0 <= i < |log| && log[i] == a { assert (log + [e])[i] == a && (log + [e])[|log|] == e; }
  }

  lemma LastMore(log: seq<Event>, e: Event, a: Event, b: Event)
    requires a != b
    ensures Last(log, a, b) && e != a ==> Last(log + [e], a, b)
    ensures e == b ==> Last(log + [e], a, b)
  {
    if j :| 0 <= j < |log| && log[j] == b && a !in log[j..] {
      assert (log + [e])[j..] == log[j..] + [e];
      assert (log + [e])[j] == b;
    }
    assert (log + [e])[|log|..] == [e];
  }

  lemma EvidentNext(p: Phase, log: seq<Event>, g: int, e: Event)
    requires Evident(p, log, g)
    ensures Evident(Next(p, g, e), log + [e], g)
    ensures Next(p, g, e) != Hazard ==> InOrder(log, e, g)
  {
    FollowsMore(log, e, CopyOut(g), Wait(Compute, ToHost));
    FollowsMore(log, e, Free(g), Wait(ToDevice, Compute));
    FollowsMore(log, e, CopyIn(g), Wait(Compute, ToDevice));
    LastMore(log, e, Work(g), Wait(ToHost, Compute));
    hide Follows, Last;
  }

  lemma {:induction false} PhaseEvident(g: int, log: seq<Event>)
    ensures Evident(Run(Computing, g, log), log, g)
    decreases |log|
  {
    if log != [] {
      var n := |log| - 1;
      PhaseEvident(g, log[..n]);
      EvidentNext(Run(Computing, g, log[..n]), log[..n], g, log[n]);
      assert log[..n] + [log[n]] == log;
    }
  }

  /** Every event of the group comes after what it needs. */
  ghost predicate Ordered(log: seq<Event>, g: int) {
    forall k :: 0 <= k < |log| ==> InOrder(log[..k], log[k], g)
  }

  lemma OrderedIf(log: seq<Event>, g: int)
    requires NeverTooEarly(log, g)
    ensures Ordered(log, g)
  {
    forall k | 0 <= k < |log| ensures InOrder(log[..k], log[k], g) {
      PhaseEvident(g, log[..k]);
      EvidentNext(Run(Computing, g, log[..k]), log[..k], g, log[k]);
      assert log[..k + 1][..k] == log[..k] && Run(Computing, g, log[..k + 1]) != Hazard;
    }
  }

  // ---------- What the operations log ----------

  /** Groups with tensors that really leave the device. */
  predicate Moves(job: Job, g: int) {
    job.Leaves(g) && g < |job.batch| && job.batch[g] != []
  }

  function Opt(b: bool, e: Event): seq<Event> {
    if b then [e] else []
  }

  function KickEvents(job: Job): seq<Event> {
    [Wait(ToHost, Compute)] + Opt(Moves(job, 0), CopyOut(0))
  }

  function ReleaseEvents(job: Job, n: int): seq<Event> {
    [Wait(ToHost, Compute), Wait(Compute, ToHost)] + Opt(Moves(job, n), Free(n))
  }

  function ReloadEvents(job: Job, n: int): seq<Event> {
    [Wait(ToDevice, Compute), Wait(Compute, ToDevice)] + Opt(Moves(job, n), CopyIn(n))
  }

  /** Commit `c` of the forward pass; `closes` says that the window of group n ends. */
  function ForwardEvents(job: Job, c: int, n: int, closes: bool): seq<Event> {
    (if c == 0 then KickEvents(job) else [])
    + (if closes then ReleaseEvents(job, n) + Opt(n < job.groups - 1 && Moves(job, n + 1), CopyOut(n + 1)) else [])
  }

  /** The commit of the backward pass to layer `c`; `opens` says that the window of group n begins. */
  function BackwardEvents(job: Job, c: int, n: int, opens: bool): seq<Event> {
    (if opens then ReloadEvents(job, n) else []) + Opt(c == 0, Wait(Compute, ToDevice))
  }

  lemma CopiesOfNone(ts: seq<Tensor>)
    ensures Copies(ts) == map[] <==> ts == []
  {
    if ts != [] { CopyOf(ts, 0); }
  }

  /** Offloading a group that is complete, or of which nothing has been pushed. */
  lemma OutEventsAre(job: Job, c: nat, out: nat, freed: nat)
    requires c < |job.batch| && out < job.groups <= |job.batch| && if job.Leaves(out) then out <= c else out > c
    ensures OutEvents(MemoryOf(job, c, |job.batch[c]|, out, freed), out) == Opt(Moves(job, out), CopyOut(out))
  {
    hide Gather, Copies, Tags, SavedOf;
    GatherGroup(job, c, out);
    CopiesOfNone(job.batch[out]);
  }

  /** The references that are dropped at the end of a window are the last ones if the group has left. */
  lemma FreeEventsAre(job: Job, c: nat, n: nat)
    requires c < |job.batch| && n < job.groups <= |job.batch| && (job.Leaves(n) ==> n <= c)
    ensures FreeEvents(MemoryOf(job, c, |job.batch[c]|, n + 1, n), n) == Opt(Moves(job, n), Free(n))
  {
    hide Tags;
    var (k, m) := (|job.batch[c]|, MemoryOf(job, c, |job.batch[c]|, n + 1, n));
    if Moves(job, n) {
      TagsAre(job, c, k, Tag(n, 0));
      assert LastReference(m, n, Tag(n, 0));
    } else {
      forall tag | tag in m.held ensures !LastReference(m, n, tag) { TagsAre(job, c, k, tag); }
    }
  }

  lemma InEventsAre(job: Job, tags: seq<Tag>, n: nat, alloc: Key -> int)
    requires n < job.groups <= |job.batch|
    ensures InEvents(Rest(job, tags, n + 1, alloc), n) == Opt(Moves(job, n), CopyIn(n))
  {
    hide Copies;
    CopiesOfNone(job.batch[n]);
  }

  /** What a window does when its commit comes. */
  lemma CloseLog(job: Job, c: nat, h: Handler)
    requires job.Valid() && c < |job.batch| && h.done == job.Freed(c) < job.groups && (job.Leaves(h.done) ==> h.done <= c)
    requires h.mem == MemoryOf(job, c, |job.batch[c]|, h.done + 1, h.done)
    requires h.done < job.groups - 1 ==> if job.Leaves(h.done + 1) then h.done + 1 <= c else h.done + 1 > c
    ensures var r := CloseWindow(job.groups, h);
      && r.Ok?
      && r.value.log == h.log + (ReleaseEvents(job, h.done)
           + Opt(h.done < job.groups - 1 && Moves(job, h.done + 1), CopyOut(h.done + 1)))
  {
    hide MemoryOf, BulkOffload, Dropped, FreeEvents, OutEvents, Moves;
    var (n, k) := (h.done, |job.batch[c]|);
    FreeEventsAre(job, c, n);
    DroppedMemory(job, c, k, n + 1, n);
    if n < job.groups - 1 {
      OffloadIs(job, c, n + 1, n + 1);
      OutEventsAre(job, c, n + 1, n + 1);
    }
  }

  lemma ForwardLog(job: Job, c: nat, h: Handler)
    requires c < |job.batch| && FwdInv(job, c, |job.batch[c]|, h)
    ensures var (r, n) := (CommitForward(job.Layers(), job.groups, h), job.Freed(c));
      r.Ok? && r.value.log == h.log + ForwardEvents(job, c, n, Window(job.Layers(), job.groups, n) == c)
  {
    hide MemoryOf, BulkOffload, CloseWindow, ReleaseEvents, Moves;
    var (n, k) := (job.Freed(c), |job.batch[c]|);
    CommitKeeps(job, c, h);
    GroupsBeforeEnds(job.Layers(), job.groups);
    WindowLow(job.Layers(), job.groups, n);
    OutBound(job, c);
    if c == 0 {
      OffloadIs(job, 0, 0, 0);
      OutEventsAre(job, 0, 0, 0);
    }
    var h1 := Kickstart(h).value;
    assert h1.mem == MemoryOf(job, c, k, n + 1, n);
    if Window(job.Layers(), job.groups, n) == c { CloseLog(job, c, h1); }
  }

  lemma BackwardLog(job: Job, c: nat, h: Handler, alloc: Key -> int)
    requires c < |job.batch| && BwdInv(job, c + 1, alloc, h) && CommitBackward(job.Layers(), job.groups, h, alloc).Ok?
    ensures var opens := Window(job.Layers(), job.groups, h.done - 1) == c;
      CommitBackward(job.Layers(), job.groups, h, alloc).value.log == h.log + BackwardEvents(job, c, h.done - 1, opens)
  {
    hide BulkReload, Rest, Tags, InEvents, Moves;
    GroupsBeforeNext(job.Layers(), job.groups, c);
    if Window(job.Layers(), job.groups, h.done - 1) == c {
      assert h.done == job.Freed(c + 1);
      InEventsAre(job, Tags(job, c + 1, 0), h.done - 1, alloc);
    }
  }

  lemma {:induction false} PushesLog(groups: nat, h: Handler, ts: seq<Tensor>, g: int)
    requires PushAll(groups, h, ts).Ok? && (h.current == g ==> Fresh(PhaseOf(h, g)))
    ensures var h' := PushAll(groups, h, ts).value;
      h'.current == h.current && PhaseOf(h', g) == if h.current == g && ts != [] then Computing else PhaseOf(h, g)
    decreases |ts|
  {
    if ts != [] {
      PushesLog(groups, h, ts[..|ts| - 1], g);
      RunAppend(Computing, g, PushAll(groups, h, ts[..|ts| - 1]).value.log, [Work(h.current)]);
    }
  }

  lemma {:induction false} PopsLog(h: Handler, c: int, indices: seq<nat>, g: int)
    requires PopAll(h, c, indices).Ok? && (c == g ==> PhaseOf(h, g) == Back || Fresh(PhaseOf(h, g)))
    ensures PhaseOf(PopAll(h, c, indices).value.0, g) == PhaseOf(h, g)
    decreases |indices|
  {
    if indices != [] {
      var h1 := PopAll(h, c, indices[..|indices| - 1]).value.0;
      PopsLog(h, c, indices[..|indices| - 1], g);
      RunAppend(Computing, g, h1.log, [Use(c)]);
    }
  }

  // ---------- Phases ----------

  predicate Fresh(p: Phase) {
    p == Computing || p == Complete
  }

  /** Group g after `c` commits of the forward pass, when `n` groups are released. */
  predicate FwdPhase(job: Job, n: nat, c: nat, g: nat, p: Phase) {
    if !Moves(job, g) then Fresh(p)
    else if g < n then p == Released
    else if g == n && c > 0 then p == Copying
    else Fresh(p)
  }

  /** Group g when the layers from `c` on have been popped and `n` groups are still away. */
  predicate BwdPhase(job: Job, n: nat, c: nat, g: nat, p: Phase) {
    if !Moves(job, g) then Fresh(p)
    else if g < n then p == Released || p == Ready
    else p == Back || (g == n && c > 0 && p == Returning)
  }

  /** A layer that is being computed has not been offloaded, if it is offloaded at all. */
  lemma OwnLayerLags(job: Job, c: nat)
    requires job.Valid() && c < job.Layers() && job.Leaves(c)
    ensures job.Freed(c) < c || (c == 0 && job.Freed(c) == 0)
  {
    GroupsBeforeEnds(job.Layers(), job.groups);
    if job.Freed(c) > 0 { WindowLow(job.Layers(), job.groups, job.Freed(c) - 1); }
  }

  lemma RunOne(p: Phase, g: int, a: Event)
    ensures Run(p, g, [a]) == Next(p, g, a)
  {
    assert [a][..0] == [];
  }

  lemma RunTwo(p: Phase, g: int, a: Event, b: Event)
    ensures Run(p, g, [a, b]) == Next(Next(p, g, a), g, b)
  {
    RunOne(p, g, a);
    assert [a, b][..1] == [a];
  }

  lemma RunNone(p: Phase, g: int)
    ensures Run(p, g, []) == p
  {
  }

  lemma RunOpt(p: Phase, g: int, b: bool, e: Event)
    ensures Run(p, g, Opt(b, e)) == if b then Next(p, g, e) else p
  {
    RunOne(p, g, e);
    RunNone(p, g);
  }

  lemma KickRun(job: Job, p: Phase, g: int)
    requires Fresh(p)
    ensures Run(p, g, KickEvents(job)) == if g == 0 && Moves(job, 0) then Copying else Complete
  {
    hide Run, Moves;
    RunAppend(p, g, [Wait(ToHost, Compute)], Opt(Moves(job, 0), CopyOut(0)));
    RunOne(p, g, Wait(ToHost, Compute));
    RunOpt(Complete, g, Moves(job, 0), CopyOut(0));
  }

  lemma ReleaseRun(job: Job, p: Phase, g: int, n: int)
    requires if g == n && Moves(job, n) then p == Copying else Fresh(p) || p == Released
    ensures Run(p, g, ReleaseEvents(job, n)) == if Fresh(p) then Complete else Released
  {
    hide Run, Moves;
    var waits := [Wait(ToHost, Compute), Wait(Compute, ToHost)];
    RunAppend(p, g, waits, Opt(Moves(job, n), Free(n)));
    RunTwo(p, g, waits[0], waits[1]);
    RunOpt(Run(p, g, waits), g, Moves(job, n), Free(n));
  }

  lemma ReloadRun(job: Job, p: Phase, g: int, n: int)
    requires if g == n && Moves(job, n) then p == Released || p == Ready
             else Fresh(p) || p == Released || p == Ready || p == Returning || p == Back
    ensures Run(p, g, ReloadEvents(job, n)) ==
      if g == n && Moves(job, n) then Returning else if p == Released then Ready else if p == Returning then Back else p
  {
    hide Run, Moves;
    var waits := [Wait(ToDevice, Compute), Wait(Compute, ToDevice)];
    RunAppend(p, g, waits, Opt(Moves(job, n), CopyIn(n)));
    RunTwo(p, g, waits[0], waits[1]);
    RunOpt(Run(p, g, waits), g, Moves(job, n), CopyIn(n));
  }

  lemma ForwardPhase(job: Job, n: nat, c: nat, closes: bool, g: nat, p: Phase)
    requires n < job.groups && FwdPhase(job, n, c, g, p)
    requires c == 0 ==> n == 0 && (closes ==> !Moves(job, 1))
    requires g > n && Moves(job, g) ==> c > 0 || !closes
    ensures FwdPhase(job, if closes then n + 1 else n, c + 1, g, Run(p, g, ForwardEvents(job, c, n, closes)))
  {
    assert Moves(job, n + 1) ==> n < job.groups - 1;
    hide Run, Moves, KickEvents, ReleaseEvents;
    var kick := if c == 0 then KickEvents(job) else [];
    var copies := n < job.groups - 1 && Moves(job, n + 1);
    if c == 0 { KickRun(job, p, g); }
    RunNone(p, g);
    var q := Run(p, g, kick);
    if closes {
      RunAppend(p, g, kick, ReleaseEvents(job, n) + Opt(copies, CopyOut(n + 1)));
      RunAppend(q, g, ReleaseEvents(job, n), Opt(copies, CopyOut(n + 1)));
      ReleaseRun(job, q, g, n);
      RunOpt(Run(q, g, ReleaseEvents(job, n)), g, copies, CopyOut(n + 1));
    } else {
      assert kick + [] == kick;
    }
  }

  lemma BackwardPhase(job: Job, n: nat, c: nat, opens: bool, g: nat, p: Phase)
    requires BwdPhase(job, if opens then n + 1 else n, c + 1, g, p) && (opens ==> n < job.groups)
    ensures BwdPhase(job, n, c, g, Run(p, g, BackwardEvents(job, c, n, opens)))
  {
    hide Run, Moves, ReloadEvents;
    var (a, b) := (if opens then ReloadEvents(job, n) else [], Opt(c == 0, Wait(Compute, ToDevice)));
    RunAppend(p, g, a, b);
    RunNone(p, g);
    if opens { ReloadRun(job, p, g, n); }
    RunOpt(Run(p, g, a), g, c == 0, Wait(Compute, ToDevice));
  }

  // ---------- The passes ----------

  lemma CommitPhase(job: Job, c: nat, g: nat, h: Handler)
    requires c < |job.batch| && FwdInv(job, c, |job.batch[c]|, h)
    requires FwdPhase(job, job.Freed(c), c, g, PhaseOf(h, g))
    ensures var r := CommitForward(job.Layers(), job.groups, h);
      r.Ok? && FwdPhase(job, job.Freed(c + 1), c + 1, g, PhaseOf(r.value, g))
  {
    hide CommitForward, FwdPhase, Run, MemoryOf, ForwardEvents;
    CommitKeeps(job, c, h);
    ForwardLog(job, c, h);
    GroupsBeforeEnds(job.Layers(), job.groups);
    GroupsBeforeNext(job.Layers(), job.groups, c);
    WindowLow(job.Layers(), job.groups, 0);
    var closes := Window(job.Layers(), job.groups, job.Freed(c)) == c;
    RunAppend(Computing, g, h.log, ForwardEvents(job, c, job.Freed(c), closes));
    ForwardPhase(job, job.Freed(c), c, closes, g, PhaseOf(h, g));
  }

  lemma {:induction false} ForwardPhases(job: Job, c: nat, g: nat)
    requires job.Valid() && c <= job.Layers()
    ensures Forward(job, INITIAL, c).Ok?
    ensures FwdPhase(job, job.Freed(c), c, g, PhaseOf(Forward(job, INITIAL, c).value, g))
    decreases c
  {
    hide CommitForward, PushAll;
    if c == 0 {
      GroupsBeforeEnds(job.Layers(), job.groups);
      RunNone(Computing, g);
    } else {
      ForwardPhases(job, c - 1, g);
      ForwardRuns(job, INITIAL, c - 1);
      var (h, ts) := (Forward(job, INITIAL, c - 1).value, job.batch[c - 1]);
      PushesKeep(job, c - 1, |ts|, h);
      assert ts[..|ts|] == ts;
      if job.Leaves(c - 1) { OwnLayerLags(job, c - 1); }
      PushesLog(job.groups, h, ts, g);
      CommitPhase(job, c - 1, g, PushAll(job.groups, h, ts).value);
    }
  }

  lemma LayerPhase(job: Job, c: nat, g: nat, alloc: Key -> int, h: Handler, indices: seq<nat>)
    requires c < |job.batch| && BwdInv(job, c + 1, alloc, h)
    requires BwdPhase(job, job.Freed(c + 1), c + 1, g, PhaseOf(h, g))
    requires BackwardLayer(job, h, c, indices, alloc).Ok?
    ensures BwdPhase(job, job.Freed(c), c, g, PhaseOf(BackwardLayer(job, h, c, indices, alloc).value.0, g))
  {
    hide CommitBackward, Run, Rest, PopAll, BackwardEvents;
    BackwardLog(job, c, h, alloc);
    GroupsBeforeNext(job.Layers(), job.groups, c);
    if job.Leaves(c) { OwnLayerLags(job, c); }
    var (n, h1) := (job.Freed(c), CommitBackward(job.Layers(), job.groups, h, alloc).value);
    var opens := Window(job.Layers(), job.groups, h.done - 1) == c;
    assert opens <==> job.Freed(c + 1) == n + 1 by {
      if job.Freed(c + 1) == n && n > 0 { assert Window(job.Layers(), job.groups, n - 1) < c; }
    }
    RunAppend(Computing, g, h.log, BackwardEvents(job, c, h.done - 1, opens));
    BackwardPhase(job, n, c, opens, g, PhaseOf(h, g));
    assert BackwardEvents(job, c, h.done - 1, opens) == BackwardEvents(job, c, n, opens) by { NothingOpens(job, c, n, h.done - 1, opens); }
    PopsLog(h1, c, indices, g);
  }

  /** When no window begins, it does not matter which one it would have been. */
  lemma NothingOpens(job: Job, c: nat, n: nat, m: int, opens: bool)
    requires opens ==> n == m
    ensures BackwardEvents(job, c, m, opens) == BackwardEvents(job, c, n, opens)
  {
  }

  lemma {:induction false} BackwardPhases(job: Job, pops: seq<seq<nat>>, c: nat, g: nat, alloc: Key -> int)
    requires job.Valid() && ValidPops(job, pops) && AllViewable(job) && c <= |pops|
    ensures BackwardTo(job, INITIAL, pops, c, alloc).Ok?
    ensures BwdPhase(job, job.Freed(c), c, g, PhaseOf(BackwardTo(job, INITIAL, pops, c, alloc).value, g))
    decreases |pops| - c
  {
    hide BackwardLayer, Forward, BwdInv, EachOnce, Viewable, Run;
    BackwardToKeeps(job, INITIAL, pops, c, alloc);
    if c == |pops| {
      ForwardPhases(job, c, g);
      GroupsBeforeEnds(job.Layers(), job.groups);
    } else {
      BackwardPhases(job, pops, c + 1, g, alloc);
      BackwardToKeeps(job, INITIAL, pops, c + 1, alloc);
      LayerPhase(job, c, g, alloc, BackwardTo(job, INITIAL, pops, c + 1, alloc).value, pops[c]);
    }
  }

  /** The backward pass goes through the points of `BackwardTo`. */
  lemma {:induction false} BackwardPassEnds(job: Job, h: Handler, pops: seq<seq<nat>>, c: nat, alloc: Key -> int)
    requires c <= |pops| && BackwardTo(job, h, pops, 0, alloc).Ok?
    ensures var r := BackwardTo(job, h, pops, c, alloc);
      r.Ok? && var b := Backward(job, r.value, pops[..c], alloc);
      b.Ok? && b.value.0 == BackwardTo(job, h, pops, 0, alloc).value
    decreases c
  {
    hide BackwardLayer, Forward;
    if c > 0 {
      BackwardPassEnds(job, h, pops, c - 1, alloc);
      assert pops[..c][..c - 1] == pops[..c - 1];
    }
  }

  lemma BackwardToStart(job: Job, h: Handler, pops: seq<seq<nat>>, alloc: Key -> int)
    ensures BackwardTo(job, h, pops, |pops|, alloc) == Forward(job, h, job.Layers())
  {
  }

  /** At no point of a training step does a kernel or copy of any group run too early: a group is complete when its
      copy-out starts, its memory is released only after the copy, and it is popped only after the copy back. */
  lemma StreamsAreSafe(job: Job, pops: seq<seq<nat>>, g: nat, alloc: Key -> int)
    requires job.Valid() && ValidPops(job, pops) && AllViewable(job)
    ensures var r := TrainingStep(job, INITIAL, pops, alloc);
      r.Ok? && NeverTooEarly(r.value.0.log, g) && Ordered(r.value.0.log, g)
  {
    hide Backward, BackwardTo, Forward, Viewable, EachOnce, Run, NeverTooEarly, Ordered;
    BackwardPhases(job, pops, 0, g, alloc);
    BackwardPhases(job, pops, |pops|, g, alloc);
    BackwardPassEnds(job, INITIAL, pops, |pops|, alloc);
    assert pops[..|pops|] == pops;
    BackwardToStart(job, INITIAL, pops, alloc);
    NeverTooEarlyIf(TrainingStep(job, INITIAL, pops, alloc).value.0.log, g);
    OrderedIf(TrainingStep(job, INITIAL, pops, alloc).value.0.log, g);
  }

  /** After the forward pass the memory of exactly those groups is free that have tensors and leave the device: with as
      many groups as layers, of the first one only. */
  lemma ReleasedIff(job: Job, g: nat)
    requires job.Valid()
    ensures Forward(job, INITIAL, job.Layers()).Ok?
    ensures PhaseOf(Forward(job, INITIAL, job.Layers()).value, g) == Released <==> Moves(job, g)
  {
    hide Run, Forward;
    ForwardPhases(job, job.Layers(), g);
    GroupsBeforeEnds(job.Layers(), job.groups);
  }
}
