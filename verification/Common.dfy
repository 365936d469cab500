// Shared vocabulary: error results of the original's assertions and exceptions,
// and a few facts about sequences that several components use.
module Common {

  datatype Option<+T> = None | Some(value: T)

  /** `Err` stands for a failed assertion or a raised exception of the original. */
  datatype Result<+T> = Ok(value: T) | Err

  function Min(a: int, b: int): int {
    if a <= b then a else b
  }

  function Flatten<T>(ss: seq<seq<T>>): seq<T> {
    if ss == [] then [] else ss[0] + Flatten(ss[1..])
  }

  lemma {:induction false} FlattenAppend<T>(ss: seq<seq<T>>, ts: seq<seq<T>>)
    ensures Flatten(ss + ts) == Flatten(ss) + Flatten(ts)
  {
    if ss == [] {
      assert ss + ts == ts;
    } else {
      assert (ss + ts)[1..] == ss[1..] + ts;
      FlattenAppend(ss[1..], ts);
    }
  }

  lemma FlattenSnoc<T>(ss: seq<seq<T>>, t: seq<T>)
    ensures Flatten(ss + [t]) == Flatten(ss) + t
  {
    FlattenAppend(ss, [t]);
    assert Flatten([t]) == t + Flatten([]);
  }

  lemma ConcatAssoc<T>(a: seq<T>, b: seq<T>, c: seq<T>)
    ensures a + (b + c) == (a + b) + c
  {
  }

  // ---------- Products and quotients ----------

  lemma MulMonotone(n: nat, a: int, b: int)
    requires a <= b
    ensures n * a <= n * b && a * n <= b * n
  {
  }

  lemma DivideBack(n: nat, d: nat, r: nat)
    requires r < n
    ensures (n * d + r) / n == d && (n * d + r) % n == r
  {
    var (q, m) := ((n * d + r) / n, (n * d + r) % n);
    assert n * q + m == n * d + r;
    if q < d { MulMonotone(n, q + 1, d); }
    if d < q { MulMonotone(n, d + 1, q); }
  }

  // ---------- Work ----------

  /** The copying and completing of `k` whole buckets. */
  function ReadsLeft(bucketSize: nat, k: int): nat {
    if k <= 0 then 0 else bucketSize + 1 + ReadsLeft(bucketSize, k - 1)
  }

  lemma {:induction false} ReadsLeftProduct(bucketSize: nat, k: nat)
    ensures ReadsLeft(bucketSize, k) == bucketSize * k + k
  {
    if k > 0 {
      ReadsLeftProduct(bucketSize, k - 1);
      assert bucketSize * k == bucketSize * (k - 1) + bucketSize;
    }
  }

  // ---------- Chains: nodes in a row with a link between every two neighbours ----------

  ghost predicate Chained<T(!new), L(!new)>(s: seq<T>, ls: seq<L>, node: (nat, T) -> bool, link: (T, L, T) -> bool) {
    && |s| == |ls| + 1
    && var last := |ls|;
    && node(last, s[last])
    && (last > 0 ==> link(s[last - 1], ls[last - 1], s[last]) && Chained(s[..last], ls[..last - 1], node, link))
  }

  lemma {:induction false} ChainedIff<T(!new), L(!new)>(s: seq<T>, ls: seq<L>, node: (nat, T) -> bool, link: (T, L, T) -> bool)
    ensures Chained(s, ls, node, link) <==>
      && |s| == |ls| + 1
      && (forall r: nat :: r < |s| ==> node(r, s[r]))
      && (forall r: nat :: r < |ls| ==> link(s[r], ls[r], s[r + 1]))
  {
    if |s| == |ls| + 1 && |ls| > 0 {
      var last := |ls|;
      var front, lfront := s[..last], ls[..last - 1];
      ChainedIff(front, lfront, node, link);
      assert forall r: nat :: r < last ==> front[r] == s[r];
      assert forall r: nat :: r < last - 1 ==> lfront[r] == ls[r];
      assert link(s[last - 1], ls[last - 1], s[last]) <==> link(s[last - 1], ls[last - 1], s[last - 1 + 1]);
      if forall r: nat :: r < |ls| ==> link(s[r], ls[r], s[r + 1]) {
        forall r: nat | r < |lfront| ensures link(front[r], lfront[r], front[r + 1]) {
          assert link(s[r], ls[r], s[r + 1]);
        }
      }
    }
  }

  /** What a chain says about node `r` and the links on its two sides. */
  lemma ChainedAt<T(!new), L(!new)>(s: seq<T>, ls: seq<L>, node: (nat, T) -> bool, link: (T, L, T) -> bool, r: nat)
    requires Chained(s, ls, node, link) && r < |s|
    ensures node(r, s[r])
    ensures r > 0 ==> link(s[r - 1], ls[r - 1], s[r])
    ensures r < |ls| ==> link(s[r], ls[r], s[r + 1])
  {
    ChainedIff(s, ls, node, link);
    var q := r - 1;
    assert r > 0 ==> link(s[q], ls[q], s[q + 1]);
  }

  /** After node `r` changed and the links next to it may have changed. */
  lemma ChainedChange<T(!new), L(!new)>(s: seq<T>, ls: seq<L>, node: (nat, T) -> bool, link: (T, L, T) -> bool,
                                        r: nat, n: T, ls': seq<L>)
    requires Chained(s, ls, node, link) && r < |s| && |ls'| == |ls| && node(r, n)
    requires forall k :: 0 <= k < |ls| && k != r && k != r - 1 ==> ls'[k] == ls[k]
    requires r > 0 ==> link(s[r - 1], ls'[r - 1], n)
    requires r < |ls| ==> link(n, ls'[r], s[r + 1])
    ensures Chained(s[r := n], ls', node, link)
  {
    var s' := s[r := n];
    ChainedIff(s, ls, node, link);
    forall k: nat | k < |ls'| ensures link(s'[k], ls'[k], s'[k + 1]) {
      assert link(s[k], ls[k], s[k + 1]);
    }
    ChainedIff(s', ls', node, link);
  }

  /** After nodes `r` and `r + 1` changed, and the link between them. */
  lemma ChainedPair<T(!new), L(!new)>(s: seq<T>, ls: seq<L>, node: (nat, T) -> bool, link: (T, L, T) -> bool,
                                      r: nat, up: T, l: L, down: T)
    requires Chained(s, ls, node, link) && r < |ls| && node(r, up) && node(r + 1, down) && link(up, l, down)
    requires r > 0 ==> link(s[r - 1], ls[r - 1], up)
    requires r + 1 < |ls| ==> link(down, ls[r + 1], s[r + 2])
    ensures Chained(s[r := up][r + 1 := down], ls[r := l], node, link)
  {
    var s', ls' := s[r := up][r + 1 := down], ls[r := l];
    ChainedIff(s, ls, node, link);
    forall k: nat | k < |ls'| ensures link(s'[k], ls'[k], s'[k + 1]) {
      assert link(s[k], ls[k], s[k + 1]);
    }
    ChainedIff(s', ls', node, link);
  }

  // ---------- Sums over a chain ----------

  ghost function Sum<T(!new)>(s: seq<T>, f: (nat, T) -> int): int {
    if s == [] then 0 else Sum(s[..|s| - 1], f) + f(|s| - 1, s[|s| - 1])
  }

  lemma {:induction false} SumOne<T(!new)>(s: seq<T>, f: (nat, T) -> int, r: nat, n: T)
    requires r < |s|
    ensures Sum(s[r := n], f) == Sum(s, f) - f(r, s[r]) + f(r, n)
  {
    var last := |s| - 1;
    if r < last {
      assert s[r := n][..last] == s[..last][r := n];
      SumOne(s[..last], f, r, n);
    } else {
      assert s[r := n][..last] == s[..last];
    }
  }

  lemma {:induction false} SumBound<T(!new)>(s: seq<T>, f: (nat, T) -> int, low: int, first: int, others: int)
    requires s != [] && forall r: nat :: r < |s| ==> low <= f(r, s[r]) <= (if r == 0 then first else others)
    ensures low * |s| <= Sum(s, f) <= first + others * (|s| - 1)
  {
    var last := |s| - 1;
    if last > 0 {
      SumBound(s[..last], f, low, first, others);
      assert low * |s| == low * last + low;
      assert others * last == others * (last - 1) + others;
    } else {
      assert Sum(s[..last], f) == 0;
    }
  }

  lemma {:induction false} SumNonNegative<T(!new)>(s: seq<T>, f: (nat, T) -> int)
    requires forall r: nat :: r < |s| ==> f(r, s[r]) >= 0
    ensures Sum(s, f) >= 0
  {
    if s != [] {
      SumNonNegative(s[..|s| - 1], f);
    }
  }

  lemma {:induction false} RangeCardinality(s: set<nat>, n: nat)
    requires forall i <- s :: i < n
    ensures |s| <= n
    ensures (forall i: nat :: i < n ==> i in s) ==> |s| == n
  {
    if n == 0 {
      assert s == {};
    } else {
      var t := s - {n - 1};
      RangeCardinality(t, n - 1);
      assert s == if n - 1 in s then t + {n - 1} else t;
    }
  }

  // ---------- A property of every element ----------

  ghost predicate Every<T(!new)>(s: seq<T>, p: T -> bool) {
    s == [] || (Every(s[..|s| - 1], p) && p(s[|s| - 1]))
  }

  lemma {:induction false} EveryIff<T(!new)>(s: seq<T>, p: T -> bool)
    ensures Every(s, p) <==> forall i :: 0 <= i < |s| ==> p(s[i])
  {
    if s != [] {
      var front := s[..|s| - 1];
      EveryIff(front, p);
      assert forall i :: 0 <= i < |front| ==> front[i] == s[i];
      assert Every(s, p) <==> Every(front, p) && p(s[|s| - 1]);
    }
  }

  lemma EveryAt<T(!new)>(s: seq<T>, p: T -> bool, i: nat)
    requires Every(s, p) && i < |s|
    ensures p(s[i])
  {
    EveryIff(s, p);
  }

  lemma EveryChange<T(!new)>(s: seq<T>, p: T -> bool, i: nat, x: T)
    requires Every(s, p) && i < |s| && p(x)
    ensures Every(s[i := x], p)
  {
    EveryIff(s, p);
    EveryIff(s[i := x], p);
  }

  lemma EveryImplies<T(!new)>(s: seq<T>, p: T -> bool, q: T -> bool)
    requires Every(s, p) && forall x :: p(x) ==> q(x)
    ensures Every(s, q)
  {
    EveryIff(s, p);
    EveryIff(s, q);
  }
}
