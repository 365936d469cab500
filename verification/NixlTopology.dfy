// How the NIXL engine wires its workers into a relay chain (nixl_checkpoint_engine.py, base.py). The slices with
// negative bounds are those of Python, wrap-around of index 0 included.
module NixlTopology {
  import opened Common

  /** One worker's arguments for joining the process group; `M` is an agent's metadata. */
  datatype Wiring<M> = Wiring(rank: int, worldSize: int, prev: Option<M>, next: Option<M>)

  datatype Kwargs<M> = Kwargs(rank: seq<int>, worldSize: seq<int>, prev: seq<Option<M>>, next: seq<Option<M>>) {
    predicate AllOfLength(n: nat) {
      |rank| == |worldSize| == |prev| == |next| == n
    }

    function At(i: nat): Wiring<M>
      requires i < |rank| && i < |worldSize| && i < |prev| && i < |next|
    {
      Wiring(rank[i], worldSize[i], prev[i], next[i])
    }
  }

  // ----- Python sequences -----

  /** A slice bound: negative ones count from the end, and all are clipped to the list. */
  function Bound(n: nat, i: int): (b: nat)
    ensures b <= n
  {
    if i < 0 then (if n + i < 0 then 0 else n + i) else if i <= n then i else n
  }

  function Slice<T>(s: seq<T>, lo: int, hi: int): seq<T> {
    var (l, h) := (Bound(|s|, lo), Bound(|s|, hi));
    if l <= h then s[l..h] else []
  }

  function From<T>(s: seq<T>, lo: int): seq<T> {
    s[Bound(|s|, lo)..]
  }

  function Item<T>(s: seq<T>, i: int): Result<T> {
    if 0 <= i < |s| then Ok(s[i]) else if -|s| <= i < 0 then Ok(s[|s| + i]) else Err
  }

  /** `[x] * n`, which is empty for a negative n. */
  function Repeat<T>(x: T, n: int): seq<T> {
    seq(if n < 0 then 0 else n, _ => x)
  }

  function Somes<M>(s: seq<M>): seq<Option<M>> {
    seq(|s|, i requires 0 <= i < |s| => Some(s[i]))
  }

  // ----- the topology -----

  function BuildTopology<M>(trainers: nat, rollouts: nat, metadata: seq<M>): Result<(Kwargs<M>, Kwargs<M>)> {
    match (Item(metadata, 0 - rollouts), Item(metadata, 0))
    case (Ok(first), Ok(master)) =>
      Ok((Kwargs([0] + Repeat(-1, trainers - 1), Repeat(rollouts + 1, trainers), Repeat(None, trainers),
                 [Some(first)] + Repeat(None, trainers - 1)),
          Kwargs(seq(rollouts, i => i + 1), Repeat(rollouts + 1, rollouts),
                 [Some(master)] + Somes(Slice(metadata, 0 - rollouts, -1)),
                 Somes(From(metadata, 1 - rollouts)) + [None])))
    case _ => Err
  }

  /** The assertions of a worker that joins. */
  predicate Accepts<M>(w: Wiring<M>) {
    if w.rank < 0 then w.prev.None? && w.next.None?
    else if w.rank == 0 then w.prev.None? && w.next.Some?
    else if w.rank < w.worldSize - 1 then w.prev.Some? && w.next.Some?
    else w.rank == w.worldSize - 1 ==> w.prev.Some? && w.next.None?
  }

  function Workers<M>(k: Kwargs<M>, n: nat): seq<Wiring<M>>
    requires k.AllOfLength(n)
  {
    seq(n, i requires 0 <= i < n => k.At(i))
  }

  /** What every worker is told, trainers first: Err if a list has the wrong length or a worker refuses. */
  function BuildProcessGroup<M(==)>(trainers: nat, rollouts: nat, metadata: seq<M>): Result<seq<Wiring<M>>> {
    match BuildTopology(trainers, rollouts, metadata)
    case Err => Err
    case Ok((t, r)) =>
      if !t.AllOfLength(trainers) || !r.AllOfLength(rollouts) then Err
      else
        var ws := Workers(t, trainers) + Workers(r, rollouts);
        if forall w <- ws :: Accepts(w) then Ok(ws) else Err
  }

  // ----- what it should build -----

  /** The worker that holds rank r of the chain: trainer 0, then the rollout workers in order. */
  function Holder(trainers: nat, r: nat): nat {
    if r == 0 then 0 else trainers + r - 1
  }

  /** Neighbours on the chain know each other's metadata, the ends have one neighbour, spare trainers none. */
  ghost predicate IsChain<M(!new)>(trainers: nat, rollouts: nat, metadata: seq<M>, ws: seq<Wiring<M>>)
    requires trainers >= 1 && |ws| == |metadata| == trainers + rollouts
  {
    && (forall i :: 1 <= i < trainers ==> ws[i] == Wiring(-1, rollouts + 1, None, None))
    && (forall r :: 0 <= r <= rollouts ==> ws[Holder(trainers, r)] == Wiring(r, rollouts + 1,
          if r == 0 then None else Some(metadata[Holder(trainers, r - 1)]),
          if r == rollouts then None else Some(metadata[Holder(trainers, r + 1)])))
  }

  lemma TrainersWired<M>(trainers: nat, rollouts: nat, metadata: seq<M>)
    requires trainers >= 1 && rollouts >= 1 && |metadata| == trainers + rollouts
    ensures BuildTopology(trainers, rollouts, metadata).Ok?
    ensures var t := BuildTopology(trainers, rollouts, metadata).value.0;
      t.AllOfLength(trainers) && Workers(t, trainers) ==
        [Wiring(0, rollouts + 1, None, Some(metadata[trainers]))] + Repeat(Wiring(-1, rollouts + 1, None, None), trainers - 1)
  {
    assert |metadata| - rollouts == trainers;
  }

  lemma RolloutsWired<M>(trainers: nat, rollouts: nat, metadata: seq<M>)
    requires trainers >= 1 && rollouts >= 2 && |metadata| == trainers + rollouts
    ensures BuildTopology(trainers, rollouts, metadata).Ok?
    ensures var r := BuildTopology(trainers, rollouts, metadata).value.1;
      r.AllOfLength(rollouts) && Workers(r, rollouts) == seq(rollouts, (j: nat) requires j < rollouts =>
        Wiring(j + 1, rollouts + 1, Some(metadata[Holder(trainers, j)]),
               if j + 1 == rollouts then None else Some(metadata[trainers + j + 1])))
  {
    assert |metadata| - rollouts == trainers;
    assert Slice(metadata, 0 - rollouts, -1) == metadata[trainers..|metadata| - 1];
    assert From(metadata, 1 - rollouts) == metadata[trainers + 1..];
  }

  /** With at least one trainer and two rollout workers the group forms and is the relay chain. */
  lemma FormsChain<M(!new)>(trainers: nat, rollouts: nat, metadata: seq<M>)
    requires trainers >= 1 && rollouts >= 2 && |metadata| == trainers + rollouts
    ensures var g := BuildProcessGroup(trainers, rollouts, metadata);
      g.Ok? && |g.value| == trainers + rollouts && IsChain(trainers, rollouts, metadata, g.value)
  {
    hide BuildTopology, Workers;
    TrainersWired(trainers, rollouts, metadata);
    RolloutsWired(trainers, rollouts, metadata);
  }

  /** A single rollout worker is told about all workers: `-1 + 1` is 0, the beginning of the list. */
  lemma OneRolloutFails<M>(trainers: nat, rollouts: nat, metadata: seq<M>)
    requires |metadata| == trainers + rollouts && (trainers == 0 || rollouts < 2)
    ensures BuildProcessGroup(trainers, rollouts, metadata) == Err
  {
    if metadata != [] && trainers > 0 {
      if rollouts == 1 {
        assert From(metadata, 1 - rollouts) == metadata;
      } else {
        assert |[Some(metadata[0])] + Somes(Slice(metadata, 0, -1))| > 0;
      }
    }
  }

  /** Exactly when the workers join a group, and then they form the chain that the relay model starts from. */
  lemma GroupFormsIff<M(!new)>(trainers: nat, rollouts: nat, metadata: seq<M>)
    requires |metadata| == trainers + rollouts
    ensures var g := BuildProcessGroup(trainers, rollouts, metadata);
      && (g.Ok? <==> trainers >= 1 && rollouts >= 2)
      && (g.Ok? ==> |g.value| == |metadata| && IsChain(trainers, rollouts, metadata, g.value))
  {
    if trainers >= 1 && rollouts >= 2 {
      FormsChain(trainers, rollouts, metadata);
    } else {
      OneRolloutFails(trainers, rollouts, metadata);
    }
  }
}
