// The elements of a tensor and how many there are.
module Shapes {

  function Numel(shape: seq<nat>): nat {
    if shape == [] then 1 else shape[0] * Numel(shape[1..])
  }

  /** An index tuple of a tensor of this shape. */
  predicate InShape(i: seq<nat>, shape: seq<nat>) {
    |i| == |shape| && forall k :: 0 <= k < |i| ==> i[k] < shape[k]
  }

  function Under(x: nat, tails: set<seq<nat>>): set<seq<nat>> {
    set t <- tails :: [x] + t
  }

  lemma {:induction false} UnderSize(x: nat, tails: set<seq<nat>>)
    ensures |Under(x, tails)| == |tails|
  {
    if tails != {} {
      var t :| t in tails;
      UnderSize(x, tails - {t});
      assert Under(x, tails) == Under(x, tails - {t}) + {[x] + t};
      assert forall u <- tails - {t} :: ([x] + u)[1..] == u && ([x] + t)[1..] == t;
    }
  }

  lemma {:induction false} FirstIndexBelow(n: nat, tails: set<seq<nat>>) returns (all: set<seq<nat>>)
    ensures forall i :: i in all <==> i != [] && i[0] < n && i[1..] in tails
    ensures |all| == n * |tails|
  {
    if n == 0 {
      all := {};
    } else {
      var before := FirstIndexBelow(n - 1, tails);
      UnderSize(n - 1, tails);
      all := before + Under(n - 1, tails);
      forall i ensures i in all <==> i != [] && i[0] < n && i[1..] in tails {
        if i != [] { assert i == [i[0]] + i[1..]; }
        if i in Under(n - 1, tails) {
          var t :| t in tails && i == [n - 1] + t;
          assert i[1..] == t;
        }
      }
      assert before !! Under(n - 1, tails);
      assert n * |tails| == (n - 1) * |tails| + |tails|;
    }
  }

  lemma InShapeIff(i: seq<nat>, shape: seq<nat>)
    requires shape != []
    ensures InShape(i, shape) <==> i != [] && i[0] < shape[0] && InShape(i[1..], shape[1..])
  {
    if i != [] && i[0] < shape[0] && InShape(i[1..], shape[1..]) {
      forall k | 0 <= k < |i| ensures i[k] < shape[k] {
        if k > 0 { assert i[1..][k - 1] < shape[1..][k - 1]; }
      }
    }
  }

  /** A tensor has as many elements as there are index tuples below its shape. */
  lemma {:induction false} NumelCounts(shape: seq<nat>) returns (all: set<seq<nat>>)
    ensures forall i :: i in all <==> InShape(i, shape)
    ensures |all| == Numel(shape)
  {
    if shape == [] {
      all := {[]};
      assert forall i: seq<nat> :: InShape(i, shape) <==> i == [];
    } else {
      var tails := NumelCounts(shape[1..]);
      all := FirstIndexBelow(shape[0], tails);
      forall i ensures i in all <==> InShape(i, shape) { InShapeIff(i, shape); }
    }
  }

  lemma {:induction false} NumelSnoc(shape: seq<nat>, n: nat)
    ensures Numel(shape + [n]) == Numel(shape) * n
  {
    if shape == [] {
      assert shape + [n] == [n] && Numel([n]) == n * Numel([n][1..]);
    } else {
      assert (shape + [n])[1..] == shape[1..] + [n];
      NumelSnoc(shape[1..], n);
      assert shape[0] * (Numel(shape[1..]) * n) == (shape[0] * Numel(shape[1..])) * n;
    }
  }
}
