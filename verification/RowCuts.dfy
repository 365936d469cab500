// Cutting the rows of a tensor into pieces. A tensor is the sequence of its rows, so the same holds for weights and for
// biases.
module RowCuts {
  import opened Common

  // ---------- Sizes ----------

  lemma Regroup(n: nat, a: nat, b: nat)
    ensures n * a * b == n * (a * b) && n * a + 0 == n * a && n * (a * b) + 0 == n * (a * b)
  {
  }

  lemma Swap(a: nat, b: nat, c: nat)
    ensures a * (b * c) == b * (a * c)
  {
  }

  lemma TwoMore(a: nat, b: nat)
    ensures (a + 2) * b == b * a + 2 * b
  {
  }

  lemma TwicePart(groups: nat, a: nat, b: nat)
    ensures groups * (a + 2 * b) == groups * a + 2 * (groups * b)
  {
  }

  lemma DivisionStep(n: nat, d: nat)
    requires d > 0
    ensures n == d * (n / d) + n % d && n % d < d
  {
  }

  lemma StepDown(n: nat, d: nat)
    requires d > 0 && n >= d
    ensures (n - d) % d == n % d
  {
    assert n == d * (n / d) + n % d && n / d >= 1;
    assert d * (n / d) == d * (n / d - 1) + d;
    DivideBack(d, n / d - 1, n % d);
  }

  lemma SameFactor(a: nat, b: nat, size: nat)
    requires a * size == b * size && size > 0
    ensures a == b
  {
    if a < b { MulMonotone(size, a + 1, b); }
    if b < a { MulMonotone(size, b + 1, a); }
  }

  lemma TwoDivisions(n: nat, a: nat, b: nat)
    requires a > 0 && b > 0
    ensures a * b > 0
    ensures n % (a * b) == 0 <==> n % a == 0 && n / a % b == 0
    ensures n % (a * b) == 0 ==> n / (a * b) == n / a / b
  {
    MulMonotone(a, 1, b);
    if n % (a * b) == 0 {
      var c := n / (a * b);
      DivisionStep(n, a * b);
      Regroup(a, b, c);
      DivideBack(a, b * c, 0);
      DivideBack(b, c, 0);
    } else if n % a == 0 && n / a % b == 0 {
      var c := n / a / b;
      DivisionStep(n, a);
      DivisionStep(n / a, b);
      Regroup(a, b, c);
      DivideBack(a * b, c, 0);
    }
  }

  // ---------- Equal pieces ----------

  /** `view([groups, size, -1])`: the rows in groups of `size`. */
  function View<T>(x: seq<T>, groups: nat, size: nat): (v: seq<seq<T>>)
    requires |x| == groups * size
    ensures |v| == groups && forall g :: 0 <= g < groups ==> |v[g]| == size
  {
    if groups == 0 then []
    else
      assert (groups - 1) * size == groups * size - size;
      View(x[..(groups - 1) * size], groups - 1, size) + [x[(groups - 1) * size..]]
  }

  predicate AllOfSize<T>(pieces: seq<seq<T>>, size: nat) {
    forall g :: 0 <= g < |pieces| ==> |pieces[g]| == size
  }

  lemma Multiple(n: nat, size: nat)
    requires n >= 1
    ensures n * size >= size
  {
  }

  lemma {:induction false} FlattenSize<T>(pieces: seq<seq<T>>, size: nat)
    requires AllOfSize(pieces, size)
    ensures |Flatten(pieces)| == |pieces| * size
  {
    if pieces != [] { FlattenSize(pieces[1..], size); }
  }

  lemma FlattenOne<T>(x: seq<T>)
    ensures Flatten([x]) == x
  {
    assert Flatten([x]) == x + Flatten([]) && x + [] == x;
  }

  lemma {:induction false} FlattenView<T>(x: seq<T>, groups: nat, size: nat)
    requires |x| == groups * size
    ensures Flatten(View(x, groups, size)) == x
  {
    if groups == 0 {
      assert x == [];
    } else {
      assert (groups - 1) * size == groups * size - size;
      var (front, last) := (x[..(groups - 1) * size], x[(groups - 1) * size..]);
      FlattenView(front, groups - 1, size);
      FlattenSnoc(View(front, groups - 1, size), last);
    }
  }

  lemma SliceOfPrefix<T>(x: seq<T>, n: nat, a: nat, b: nat)
    requires a <= b <= n <= |x|
    ensures x[..n][a..b] == x[a..b]
  {
  }

  lemma {:induction false} ViewAt<T>(x: seq<T>, groups: nat, size: nat, g: nat)
    requires |x| == groups * size && g < groups
    ensures g * size + size <= |x| && View(x, groups, size)[g] == x[g * size..g * size + size]
  {
    var front := (groups - 1) * size;
    assert front == groups * size - size;
    if g < groups - 1 {
      MulMonotone(size, g + 1, groups - 1);
      assert g * size + size <= front by { assert size * (g + 1) == g * size + size && size * (groups - 1) == front; }
      ViewAt(x[..front], groups - 1, size, g);
      SliceOfPrefix(x, front, g * size, g * size + size);
    }
  }

  // ---------- Rows by position ----------

  /** The place of row `i` of group `g`. */
  function Place(groups: nat, size: nat, g: nat, i: nat): (p: nat)
    requires g < groups && i < size
    ensures p < groups * size
  {
    MulMonotone(size, g + 1, groups);
    assert (g + 1) * size == g * size + size;
    g * size + i
  }

  lemma GroupBelow(groups: nat, size: nat, p: nat)
    requires p < groups * size
    ensures size > 0 && p / size < groups && p / size * size + p % size == p
  {
    assert size > 0;
    DivisionStep(p, size);
    if p / size >= groups { MulMonotone(size, groups, p / size); }
  }

  /** The group of a row, and its number in the group. */
  function PlaceOf(groups: nat, size: nat, p: nat): (gi: (nat, nat))
    requires p < groups * size
    ensures gi.0 < groups && gi.1 < size && Place(groups, size, gi.0, gi.1) == p
  {
    GroupBelow(groups, size, p);
    (p / size, p % size)
  }

  lemma {:induction false} FlattenAt<T>(pieces: seq<seq<T>>, size: nat, g: nat, i: nat)
    requires AllOfSize(pieces, size) && g < |pieces| && i < size
    ensures |Flatten(pieces)| == |pieces| * size
    ensures Flatten(pieces)[Place(|pieces|, size, g, i)] == pieces[g][i]
  {
    FlattenSize(pieces, size);
    if g > 0 {
      FlattenAt(pieces[1..], size, g - 1, i);
      assert g * size + i == size + ((g - 1) * size + i);
    }
  }

  lemma SizesAppend<T>(a: seq<seq<T>>, b: seq<seq<T>>, size: nat)
    ensures AllOfSize(a + b, size) <==> AllOfSize(a, size) && AllOfSize(b, size)
  {
    if AllOfSize(a + b, size) {
      forall g | 0 <= g < |a| ensures |a[g]| == size { assert (a + b)[g] == a[g]; }
      forall g | 0 <= g < |b| ensures |b[g]| == size { assert (a + b)[|a| + g] == b[g]; }
    }
  }

  // ---------- `torch.chunk` ----------

  /** Pieces of `size` rows, the last one possibly shorter. */
  function Pieces<T>(x: seq<T>, size: nat): seq<seq<T>>
    requires size > 0
  {
    if |x| == 0 then [] else if |x| <= size then [x] else [x[..size]] + Pieces(x[size..], size)
  }

  /** `torch.chunk`: pieces of the rounded-up size, which may be fewer than asked for. */
  function Chunk<T>(x: seq<T>, n: nat): seq<seq<T>>
    requires n > 0
  {
    if |x| == 0 then seq(n, _ => []) else Pieces(x, (|x| + n - 1) / n)
  }

  lemma CeilPositive(n: nat, d: nat)
    requires n > 0 && d > 0
    ensures 0 < (n + d - 1) / d <= n
  {
    var c := (n + d - 1) / d;
    DivisionStep(n + d - 1, d);
    MulMonotone(n, 1, d);
    if c > n { MulMonotone(d, n + 1, c); }
  }

  lemma {:induction false} FlattenPieces<T>(x: seq<T>, size: nat)
    requires size > 0
    ensures Flatten(Pieces(x, size)) == x
    decreases |x|
  {
    if |x| > size {
      FlattenPieces(x[size..], size);
      assert ([x[..size]] + Pieces(x[size..], size))[1..] == Pieces(x[size..], size);
    } else if |x| > 0 {
      FlattenOne(x);
    }
  }

  lemma {:induction false} FlattenNothing<T>(n: nat)
    ensures Flatten(seq<seq<T>>(n, _ => [])) == []
  {
    if n > 0 {
      assert seq<seq<T>>(n, _ => [])[1..] == seq<seq<T>>(n - 1, _ => []);
      FlattenNothing<T>(n - 1);
    }
  }

  lemma FlattenChunk<T>(x: seq<T>, n: nat)
    requires n > 0
    ensures Flatten(Chunk(x, n)) == x
  {
    if |x| == 0 {
      FlattenNothing<T>(n);
    } else {
      CeilPositive(|x|, n);
      FlattenPieces(x, (|x| + n - 1) / n);
    }
  }

  lemma {:induction false} PiecesEqualIff<T>(x: seq<T>, size: nat)
    requires size > 0
    ensures AllOfSize(Pieces(x, size), size) <==> |x| % size == 0
    decreases |x|
  {
    if |x| > size {
      var (first, rest) := (x[..size], Pieces(x[size..], size));
      PiecesEqualIff(x[size..], size);
      assert AllOfSize([first] + rest, size) <==> AllOfSize(rest, size) by {
        assert forall g :: 0 <= g < |rest| ==> ([first] + rest)[g + 1] == rest[g];
      }
      assert |x| == |x[size..]| + size;
      StepDown(|x|, size);
    } else if |x| == size {
      DivideBack(size, 1, 0);
    } else if |x| > 0 {
      DivideBack(size, 0, |x|);
      assert Pieces(x, size)[0] == x;
    } else {
      DivideBack(size, 0, 0);
    }
  }

  /** The chunks of `n` rows, asked for `groups` of them, all have `size` rows. */
  predicate ChunksInto(n: nat, groups: nat, size: nat)
    requires groups > 0
  {
    (n + groups - 1) / groups == size && (size == 0 || n % size == 0)
  }

  lemma {:induction false} PiecesFirst<T>(x: seq<T>, size: nat)
    requires 0 < size <= |x|
    ensures Pieces(x, size) != [] && |Pieces(x, size)[0]| == size
  {
  }

  lemma ChunksIntoIff<T>(x: seq<T>, groups: nat, size: nat)
    requires groups > 0
    ensures AllOfSize(Chunk(x, groups), size) <==> ChunksInto(|x|, groups, size)
  {
    if |x| == 0 {
      DivideBack(groups, 0, groups - 1);
      if size > 0 { assert |Chunk(x, groups)[0]| == 0; }
    } else {
      var c := (|x| + groups - 1) / groups;
      CeilPositive(|x|, groups);
      PiecesFirst(x, c);
      if size == c { PiecesEqualIff(x, c); }
    }
  }
}
