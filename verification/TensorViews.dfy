// Strided tensors and the key by which the offload handler recognizes tensors (activation_offload.py).
module TensorViews {
  import opened Common
  import opened Shapes

  /** A device allocation at byte address `ptr`, seen as elements of one dtype. */
  datatype Storage = Storage(ptr: nat, dtype: nat, itemSize: nat, cells: seq<int>) {
    predicate Valid() {
      itemSize >= 1
    }

    function End(): nat {
      ptr + itemSize * |cells|
    }
  }

  /** Distinct live allocations do not overlap; one allocation may be seen at several dtypes. */
  predicate Apart(a: Storage, b: Storage) {
    a == b || (a.ptr == b.ptr && a.dtype != b.dtype) || a.End() <= b.ptr || b.End() <= a.ptr
  }

  datatype View = View(storage: Storage, offset: nat, shape: seq<nat>, strides: seq<nat>) {
    predicate Valid() {
      storage.Valid() && Fits(|storage.cells|, offset, shape, strides)
    }

    /** Its elements in row-major order. */
    function Elements(): seq<int>
      requires Valid()
    {
      Read(storage.cells, offset, shape, strides)
    }

    predicate Contiguous() {
      strides == RowMajor(shape)
    }
  }

  /** The address counts bytes, the offset counts elements; the handler adds them all the same. */
  datatype Key = Key(address: int, dtype: nat)

  function KeyOf(v: View): Key {
    Key(v.storage.ptr + v.offset, v.storage.dtype)
  }

  function RowMajor(shape: seq<nat>): (strides: seq<nat>)
    ensures |strides| == |shape|
  {
    if shape == [] then [] else [Numel(shape[1..])] + RowMajor(shape[1..])
  }

  /** Every element lies below index `n`. */
  predicate Fits(n: nat, base: nat, shape: seq<nat>, strides: seq<nat>)
    decreases |shape|
  {
    && |shape| == |strides|
    && if shape == [] then base < n
       else forall i :: 0 <= i < shape[0] ==> Fits(n, base + i * strides[0], shape[1..], strides[1..])
  }

  function Read(cells: seq<int>, base: nat, shape: seq<nat>, strides: seq<nat>): seq<int>
    requires Fits(|cells|, base, shape, strides)
    decreases |shape|, 1, 0
  {
    if shape == [] then [cells[base]] else ReadRows(cells, base, shape, strides, shape[0])
  }

  /** The first `n` rows. */
  function ReadRows(cells: seq<int>, base: nat, shape: seq<nat>, strides: seq<nat>, n: nat): seq<int>
    requires Fits(|cells|, base, shape, strides) && shape != [] && n <= shape[0]
    decreases |shape|, 0, n
  {
    if n == 0 then []
    else (ReadRows(cells, base, shape, strides, n - 1)
          + Read(cells, base + (n - 1) * strides[0], shape[1..], strides[1..]))
  }

  lemma OneMore(n: nat, p: nat)
    requires n > 0
    ensures (n - 1) * p + p == n * p && (n - 1) * p >= 0
  {
  }

  lemma JoinSlices(cells: seq<int>, a: nat, b: nat, c: nat)
    requires a <= b <= c <= |cells|
    ensures cells[a..b] + cells[b..c] == cells[a..c]
  {
  }

  // ---------- The number of elements ----------

  lemma {:induction false} ReadSize(cells: seq<int>, base: nat, shape: seq<nat>, strides: seq<nat>)
    requires Fits(|cells|, base, shape, strides)
    ensures |Read(cells, base, shape, strides)| == Numel(shape)
    decreases |shape|, 1, 0
  {
    if shape != [] { ReadRowsSize(cells, base, shape, strides, shape[0]); }
  }

  lemma {:induction false} ReadRowsSize(cells: seq<int>, base: nat, shape: seq<nat>, strides: seq<nat>, n: nat)
    requires Fits(|cells|, base, shape, strides) && shape != [] && n <= shape[0]
    ensures |ReadRows(cells, base, shape, strides, n)| == n * Numel(shape[1..])
    decreases |shape|, 0, n
  {
    if n > 0 {
      OneMore(n, Numel(shape[1..]));
      ReadRowsSize(cells, base, shape, strides, n - 1);
      ReadSize(cells, base + (n - 1) * strides[0], shape[1..], strides[1..]);
    }
  }

  // ---------- Which element is where ----------

  /** How far the element with index tuple `i` lies behind the first one. */
  function Distance(i: seq<nat>, strides: seq<nat>): nat
    requires |i| == |strides|
  {
    if i == [] then 0 else i[0] * strides[0] + Distance(i[1..], strides[1..])
  }

  lemma {:induction false} FitsAt(n: nat, base: nat, shape: seq<nat>, strides: seq<nat>, i: seq<nat>)
    requires Fits(n, base, shape, strides) && InShape(i, shape)
    ensures base + Distance(i, strides) < n
    decreases |shape|
  {
    if shape != [] {
      InShapeIff(i, shape);
      assert Fits(n, base + i[0] * strides[0], shape[1..], strides[1..]);
      FitsAt(n, base + i[0] * strides[0], shape[1..], strides[1..], i[1..]);
    }
  }

  /** A view is valid exactly if all its elements lie in the storage. */
  lemma {:induction false} FitsIff(n: nat, base: nat, shape: seq<nat>, strides: seq<nat>)
    requires |shape| == |strides|
    ensures Fits(n, base, shape, strides) <==> forall i | InShape(i, shape) :: base + Distance(i, strides) < n
    decreases |shape|
  {
    if Fits(n, base, shape, strides) {
      forall i | InShape(i, shape) ensures base + Distance(i, strides) < n { FitsAt(n, base, shape, strides, i); }
    } else if shape == [] {
      assert InShape([], shape) && Distance([], strides) == 0;
    } else {
      var x :| 0 <= x < shape[0] && !Fits(n, base + x * strides[0], shape[1..], strides[1..]);
      FitsIff(n, base + x * strides[0], shape[1..], strides[1..]);
      var i :| InShape(i, shape[1..]) && base + x * strides[0] + Distance(i, strides[1..]) >= n;
      assert ([x] + i)[1..] == i;
      InShapeIff([x] + i, shape);
      assert InShape([x] + i, shape) && base + Distance([x] + i, strides) >= n;
    }
  }

  /** A tensor's elements stand in row-major order, each read from where the strides say it is. */
  lemma {:induction false} ReadAt(cells: seq<int>, base: nat, shape: seq<nat>, strides: seq<nat>, i: seq<nat>)
    requires Fits(|cells|, base, shape, strides) && InShape(i, shape)
    ensures var (place, elements) := (Distance(i, RowMajor(shape)), Read(cells, base, shape, strides));
      && place < |elements| && base + Distance(i, strides) < |cells|
      && elements[place] == cells[base + Distance(i, strides)]
    decreases |shape|
  {
    FitsAt(|cells|, base, shape, strides, i);
    if shape != [] {
      InShapeIff(i, shape);
      var (inner, x) := (base + i[0] * strides[0], i[0]);
      assert Fits(|cells|, inner, shape[1..], strides[1..]);
      ReadAt(cells, inner, shape[1..], strides[1..], i[1..]);
      ReadRowsAt(cells, base, shape, strides, shape[0], x, Distance(i[1..], RowMajor(shape[1..])));
      assert RowMajor(shape)[1..] == RowMajor(shape[1..]) && RowMajor(shape)[0] == Numel(shape[1..]);
    }
  }

  /** Element `k` of row `x`. */
  lemma {:induction false} ReadRowsAt(cells: seq<int>, base: nat, shape: seq<nat>, strides: seq<nat>, n: nat, x: nat, k: nat)
    requires Fits(|cells|, base, shape, strides) && shape != [] && x < n <= shape[0]
    requires Fits(|cells|, base + x * strides[0], shape[1..], strides[1..])
    requires k < |Read(cells, base + x * strides[0], shape[1..], strides[1..])|
    ensures var (rows, p) := (ReadRows(cells, base, shape, strides, n), x * Numel(shape[1..]) + k);
      p < |rows| && rows[p] == Read(cells, base + x * strides[0], shape[1..], strides[1..])[k]
    decreases n
  {
    ReadRowsSize(cells, base, shape, strides, n - 1);
    ReadSize(cells, base + x * strides[0], shape[1..], strides[1..]);
    if x < n - 1 {
      ReadRowsAt(cells, base, shape, strides, n - 1, x, k);
    }
  }

  // ---------- When keys coincide ----------

  /** A tensor with elements starts inside its storage. */
  lemma {:induction false} StartsInside(n: nat, base: nat, shape: seq<nat>, strides: seq<nat>)
    requires Fits(n, base, shape, strides) && Numel(shape) > 0
    ensures base < n
    decreases |shape|
  {
    if shape != [] {
      assert shape[0] > 0 && Numel(shape[1..]) > 0;
      assert Fits(n, base + 0 * strides[0], shape[1..], strides[1..]);
      StartsInside(n, base, shape[1..], strides[1..]);
    }
  }

  lemma AddressInside(v: View)
    requires v.Valid() && Numel(v.shape) > 0
    ensures v.storage.ptr <= KeyOf(v).address < v.storage.End()
  {
    StartsInside(|v.storage.cells|, v.offset, v.shape, v.strides);
    var n, k := |v.storage.cells|, v.storage.itemSize;
    assert k * n >= n;
  }

  /** Although a key mixes bytes and elements, two live tensors with elements share it exactly if they start at the
      same element of the same storage. */
  lemma SameKeyIff(v: View, u: View)
    requires v.Valid() && u.Valid() && Numel(v.shape) > 0 && Numel(u.shape) > 0 && Apart(v.storage, u.storage)
    ensures KeyOf(v) == KeyOf(u) <==> v.storage == u.storage && v.offset == u.offset
  {
    AddressInside(v);
    AddressInside(u);
  }

  // ---------- What a shared key says about the elements ----------

  lemma {:induction false} ReadContiguous(cells: seq<int>, base: nat, shape: seq<nat>)
    requires Fits(|cells|, base, shape, RowMajor(shape)) && Numel(shape) > 0
    ensures base + Numel(shape) <= |cells|
    ensures Read(cells, base, shape, RowMajor(shape)) == cells[base..base + Numel(shape)]
    decreases |shape|, 1, 0
  {
    if shape != [] {
      assert shape[0] > 0 && Numel(shape[1..]) > 0;
      StartsInside(|cells|, base, shape, RowMajor(shape));
      ReadContiguousRows(cells, base, shape, RowMajor(shape), Numel(shape[1..]), shape[0]);
    }
  }

  lemma {:induction false} ReadContiguousRows(cells: seq<int>, base: nat, shape: seq<nat>, strides: seq<nat>, p: nat, n: nat)
    requires shape != [] && n <= shape[0] && strides == [p] + RowMajor(shape[1..]) && p == Numel(shape[1..]) > 0
    requires Fits(|cells|, base, shape, strides) && base <= |cells|
    ensures base + n * p <= |cells| && ReadRows(cells, base, shape, strides, n) == cells[base..base + n * p]
    decreases |shape|, 0, n
  {
    if n > 0 {
      ReadContiguousRows(cells, base, shape, strides, p, n - 1);
      assert strides[1..] == RowMajor(shape[1..]);
      OneMore(n, p);
      assert Fits(|cells|, base + (n - 1) * strides[0], shape[1..], strides[1..]);
      ReadContiguous(cells, base + (n - 1) * p, shape[1..]);
      JoinSlices(cells, base, base + (n - 1) * p, base + n * p);
    }
  }

  /** Contiguous tensors with one key and equally many elements are reshapes of one another. */
  lemma ContiguousKeyFaithful(v: View, u: View)
    requires v.Valid() && u.Valid() && v.Contiguous() && u.Contiguous() && Apart(v.storage, u.storage)
    requires Numel(v.shape) == Numel(u.shape) > 0 && KeyOf(v) == KeyOf(u)
    ensures v.Elements() == u.Elements()
  {
    SameKeyIff(v, u);
    ReadContiguous(v.storage.cells, v.offset, v.shape);
    ReadContiguous(u.storage.cells, u.offset, u.shape);
  }

  /** Four elements as a matrix of two rows. */
  function Matrix(s: Storage): View {
    View(s, 0, [2, 2], [2, 1])
  }

  function Transposed(s: Storage): View {
    View(s, 0, [2, 2], [1, 2])
  }

  /** The key ignores strides: a matrix and its transpose share it, but not their elements. */
  lemma TransposeSharesKey(s: Storage)
    requires s.Valid() && |s.cells| == 4 && s.cells[1] != s.cells[2]
    ensures var (v, u) := (Matrix(s), Transposed(s));
      v.Valid() && u.Valid() && KeyOf(v) == KeyOf(u) && v.Elements() != u.Elements()
  {
    TwoByTwo(s.cells, 2, 2, 1);
    TwoByTwo(s.cells, 2, 1, 2);
    var x, y := [s.cells[0], s.cells[1]] + [s.cells[2], s.cells[3]], [s.cells[0], s.cells[2]] + [s.cells[1], s.cells[3]];
    assert x[1] != y[1];
  }

  lemma TwoByTwo(cells: seq<int>, n: nat, a: nat, b: nat)
    requires |cells| == 4 && n == 2 && a + b == 3
    ensures Fits(4, 0, [n, n], [a, b])
    ensures Read(cells, 0, [n, n], [a, b]) == [cells[0], cells[b]] + [cells[a], cells[3]]
  {
    Pair(cells, 0, n, b);
    Pair(cells, a, n, b);
    assert [n] + [n] == [n, n] && [a] + [b] == [a, b];
    Rows(cells, 0, n, [n], a, [b]);
  }

  lemma Pair(cells: seq<int>, base: nat, n: nat, b: nat)
    requires base + b < |cells| && n == 2
    ensures Fits(|cells|, base, [n], [b]) && Read(cells, base, [n], [b]) == [cells[base], cells[base + b]]
  {
    assert [n] + [] == [n] && [b] + [] == [b];
    Rows(cells, base, n, [], b, []);
  }

  /** Two rows, one after the other. */
  lemma Rows(cells: seq<int>, base: nat, rows: nat, shape: seq<nat>, stride: nat, strides: seq<nat>)
    requires rows == 2 && Fits(|cells|, base, shape, strides) && Fits(|cells|, base + stride, shape, strides)
    ensures Fits(|cells|, base, [rows] + shape, [stride] + strides)
    ensures Read(cells, base, [rows] + shape, [stride] + strides) ==
      Read(cells, base, shape, strides) + Read(cells, base + stride, shape, strides)
  {
    var (all, steps) := ([rows] + shape, [stride] + strides);
    assert all[1..] == shape && steps[1..] == strides;
    assert base + 0 * stride == base && base + 1 * stride == base + stride;
    assert Fits(|cells|, base, all, steps);
    assert ReadRows(cells, base, all, steps, 1) == Read(cells, base, shape, strides);
  }
}
