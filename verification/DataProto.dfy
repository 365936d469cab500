// Batches with tensor and non-tensor columns side by side, and how they are padded, cut for the workers, joined and
// unpadded again (protocol.py).
module DataProto {
  import opened Common

  type Columns<T> = map<string, seq<T>>

  predicate AllOfLength<T>(columns: Columns<T>, n: nat) {
    forall key :: key in columns ==> |columns[key]| == n
  }

  /** A batch of `size` rows; `batch` is None if there are no tensors. */
  datatype Data<T> = Data(batch: Option<Columns<T>>, objects: Columns<T>, size: nat) {
    /** Every column has one entry per row. */
    predicate Valid() {
      && (batch.Some? ==> AllOfLength(batch.value, size))
      && AllOfLength(objects, size)
    }

    /** Two batches with the same columns. */
    predicate LooksLike(other: Data<T>) {
      && batch.Some? == other.batch.Some?
      && (batch.Some? ==> batch.value.Keys == other.batch.value.Keys)
      && objects.Keys == other.objects.Keys
    }
  }

  // ---------- Rows ----------

  /** What the columns hold at one place. */
  datatype Row<T> = Row(tensors: Option<map<string, T>>, objects: map<string, T>)

  function Entries<T>(columns: Columns<T>, n: nat, i: nat): map<string, T>
    requires AllOfLength(columns, n) && i < n
  {
    map key | key in columns :: columns[key][i]
  }

  function RowAt<T>(d: Data<T>, i: nat): Row<T>
    requires d.Valid() && i < d.size
  {
    Row(if d.batch.Some? then Some(Entries(d.batch.value, d.size, i)) else None, Entries(d.objects, d.size, i))
  }

  function Rows<T>(d: Data<T>): seq<Row<T>>
    requires d.Valid()
  {
    seq(d.size, i requires 0 <= i < d.size => RowAt(d, i))
  }

  lemma EntryAt<T>(columns: Columns<T>, n: nat, i: nat, key: string)
    requires AllOfLength(columns, n) && i < n && key in columns
    ensures key in Entries(columns, n, i) && Entries(columns, n, i)[key] == columns[key][i]
  {
  }

  lemma SameColumns<T>(a: Columns<T>, b: Columns<T>, n: nat)
    requires AllOfLength(a, n) && AllOfLength(b, n) && a.Keys == b.Keys
    requires forall i: nat :: i < n ==> Entries(a, n, i) == Entries(b, n, i)
    ensures a == b
  {
    forall key | key in a ensures a[key] == b[key] {
      forall i: nat | i < n ensures a[key][i] == b[key][i] {
        EntryAt(a, n, i, key);
        EntryAt(b, n, i, key);
      }
    }
  }

  /** Rows say everything about a batch: with the same columns and the same rows it is the same batch. */
  lemma RowsLoseNothing<T>(a: Data<T>, b: Data<T>)
    requires a.Valid() && b.Valid() && a.LooksLike(b) && Rows(a) == Rows(b)
    ensures a == b
  {
    assert a.size == |Rows(a)| && b.size == |Rows(b)|;
    if a.batch.Some? {
      forall i: nat | i < a.size ensures Entries(a.batch.value, a.size, i) == Entries(b.batch.value, a.size, i) {
        assert RowAt(a, i) == Rows(a)[i] && RowAt(b, i) == Rows(b)[i];
      }
      SameColumns(a.batch.value, b.batch.value, a.size);
    }
    forall i: nat | i < a.size ensures Entries(a.objects, a.size, i) == Entries(b.objects, a.size, i) {
      assert RowAt(a, i) == Rows(a)[i] && RowAt(b, i) == Rows(b)[i];
    }
    SameColumns(a.objects, b.objects, a.size);
  }

  // ---------- Slices ----------

  function SliceColumns<T>(columns: Columns<T>, n: nat, lo: nat, hi: nat): (s: Columns<T>)
    requires AllOfLength(columns, n) && lo <= hi <= n
    ensures AllOfLength(s, hi - lo) && s.Keys == columns.Keys
  {
    map key | key in columns :: columns[key][lo..hi]
  }

  function Slice<T>(d: Data<T>, lo: nat, hi: nat): (s: Data<T>)
    requires d.Valid() && lo <= hi <= d.size
    ensures s.Valid() && s.LooksLike(d)
  {
    Data(if d.batch.Some? then Some(SliceColumns(d.batch.value, d.size, lo, hi)) else None,
         SliceColumns(d.objects, d.size, lo, hi), hi - lo)
  }

  lemma SliceEntries<T>(columns: Columns<T>, n: nat, lo: nat, hi: nat, i: nat)
    requires AllOfLength(columns, n) && lo <= hi <= n && i < hi - lo
    ensures Entries(SliceColumns(columns, n, lo, hi), hi - lo, i) == Entries(columns, n, lo + i)
  {
  }

  /** Tensor and non-tensor columns are cut at the same rows. */
  lemma SliceRows<T>(d: Data<T>, lo: nat, hi: nat)
    requires d.Valid() && lo <= hi <= d.size
    ensures Rows(Slice(d, lo, hi)) == Rows(d)[lo..hi]
  {
    forall i: nat | i < hi - lo ensures RowAt(Slice(d, lo, hi), i) == RowAt(d, lo + i) {
      if d.batch.Some? { SliceEntries(d.batch.value, d.size, lo, hi, i); }
      SliceEntries(d.objects, d.size, lo, hi, i);
    }
  }

  // ---------- Concatenation ----------

  function JoinColumns<T>(a: Columns<T>, n: nat, b: Columns<T>, m: nat): (c: Columns<T>)
    requires AllOfLength(a, n) && AllOfLength(b, m) && a.Keys == b.Keys
    ensures AllOfLength(c, n + m) && c.Keys == a.Keys
  {
    map key | key in a :: a[key] + b[key]
  }

  function Join<T>(a: Data<T>, b: Data<T>): (d: Data<T>)
    requires a.Valid() && b.Valid() && b.LooksLike(a)
    ensures d.Valid() && d.LooksLike(a)
  {
    Data(if a.batch.Some? then Some(JoinColumns(a.batch.value, a.size, b.batch.value, b.size)) else None,
         JoinColumns(a.objects, a.size, b.objects, b.size), a.size + b.size)
  }

  predicate Joinable<T>(ds: seq<Data<T>>, like: Data<T>) {
    forall k :: 0 <= k < |ds| ==> ds[k].Valid() && ds[k].LooksLike(like)
  }

  /** Joins all columns from the first batch to the last. */
  function Concat<T>(ds: seq<Data<T>>): (d: Data<T>)
    requires ds != [] && Joinable(ds, ds[0])
    ensures d.Valid() && d.LooksLike(ds[0])
  {
    if |ds| == 1 then ds[0] else Join(Concat(ds[..|ds| - 1]), ds[|ds| - 1])
  }

  lemma JoinEntries<T>(a: Columns<T>, n: nat, b: Columns<T>, m: nat, i: nat)
    requires AllOfLength(a, n) && AllOfLength(b, m) && a.Keys == b.Keys && i < n + m
    ensures Entries(JoinColumns(a, n, b, m), n + m, i) == if i < n then Entries(a, n, i) else Entries(b, m, i - n)
  {
  }

  lemma JoinRow<T>(a: Data<T>, b: Data<T>, i: nat)
    requires a.Valid() && b.Valid() && b.LooksLike(a) && i < a.size + b.size
    ensures RowAt(Join(a, b), i) == if i < a.size then RowAt(a, i) else RowAt(b, i - a.size)
  {
    hide AllOfLength, Entries, JoinColumns;
    if a.batch.Some? { JoinEntries(a.batch.value, a.size, b.batch.value, b.size, i); }
    JoinEntries(a.objects, a.size, b.objects, b.size, i);
  }

  lemma JoinRows<T>(a: Data<T>, b: Data<T>)
    requires a.Valid() && b.Valid() && b.LooksLike(a)
    ensures Rows(Join(a, b)) == Rows(a) + Rows(b)
  {
    assert Join(a, b).size == a.size + b.size;
    hide Join, RowAt;
    forall i: nat | i < a.size + b.size
      ensures RowAt(Join(a, b), i) == if i < a.size then RowAt(a, i) else RowAt(b, i - a.size)
    {
      JoinRow(a, b, i);
    }
  }

  /** The rows of all batches, one batch after the other. */
  function AllRows<T>(ds: seq<Data<T>>, like: Data<T>): seq<Row<T>>
    requires Joinable(ds, like)
  {
    if ds == [] then [] else AllRows(ds[..|ds| - 1], like) + Rows(ds[|ds| - 1])
  }

  lemma {:induction false} ConcatRows<T>(ds: seq<Data<T>>)
    requires ds != [] && Joinable(ds, ds[0])
    ensures Rows(Concat(ds)) == AllRows(ds, ds[0])
    decreases |ds|
  {
    hide Join, Rows;
    var n := |ds| - 1;
    if n == 0 {
      assert AllRows(ds[..0], ds[0]) == [];
    } else {
      ConcatRows(ds[..n]);
      JoinRows(Concat(ds[..n]), ds[n]);
    }
  }

  // ---------- Chunks ----------

  /** Parts of `m` rows that make up the first `total` rows. */
  function Parts<T>(d: Data<T>, m: nat, total: nat): (parts: seq<Data<T>>)
    requires d.Valid() && m > 0 && total <= d.size
    ensures Joinable(parts, d)
  {
    if total < m then [] else Parts(d, m, total - m) + [Slice(d, total - m, total)]
  }

  lemma {:induction false} PartsCount<T>(d: Data<T>, m: nat, n: nat)
    requires d.Valid() && m > 0 && n * m <= d.size
    ensures |Parts(d, m, n * m)| == n
  {
    if n > 0 {
      assert (n - 1) * m == n * m - m;
      PartsCount(d, m, n - 1);
    }
  }

  /** Equal parts for k workers, or Err if there are none. */
  function Chunk<T>(d: Data<T>, k: nat): Result<seq<Data<T>>>
    requires d.Valid() && k > 0
  {
    if d.size % k != 0 then Err
    else if d.size < k then Ok(seq(k, _ => Slice(d, 0, 0)))
    else Ok(Parts(d, d.size / k, d.size))
  }

  lemma ChunkSize(n: nat, k: nat)
    requires k > 0 && n % k == 0 && n >= k
    ensures n / k > 0 && k * (n / k) == n && n % (n / k) == 0
  {
    DivideBack(n / k, k, 0);
  }

  lemma JoinTake<T>(s: seq<T>, a: nat, b: nat)
    requires a <= b <= |s|
    ensures s[..a] + s[a..b] == s[..b]
  {
  }

  lemma OneLess(total: nat, m: nat)
    requires m > 0 && total >= m && total % m == 0
    ensures (total - m) % m == 0
  {
    assert total == m * (total / m) + total % m && total / m >= 1;
    DivideBack(m, total / m - 1, 0);
  }

  lemma {:induction false} PartsRows<T>(d: Data<T>, m: nat, total: nat)
    requires d.Valid() && m > 0 && total <= d.size && total % m == 0
    ensures AllRows(Parts(d, m, total), d) == Rows(d)[..total]
    decreases total
  {
    hide Rows, Slice;
    RowsSize(d);
    if total >= m {
      OneLess(total, m);
      PartsRows(d, m, total - m);
      SliceRows(d, total - m, total);
      JoinTake(Rows(d), total - m, total);
    }
  }

  lemma RowsSize<T>(d: Data<T>)
    requires d.Valid()
    ensures |Rows(d)| == d.size
  {
  }

  /** There are as many chunks as workers, and joined they give the batch back. */
  lemma ConcatUndoesChunk<T>(d: Data<T>, k: nat)
    requires d.Valid() && 0 < k <= d.size && d.size % k == 0
    ensures var chunks := Chunk(d, k); chunks.Ok? && |chunks.value| == k && Rows(Concat(chunks.value)) == Rows(d)
  {
    hide Rows, Parts, Concat;
    ChunkSize(d.size, k);
    var ds := Chunk(d, k).value;
    PartsCount(d, d.size / k, k);
    PartsRows(d, d.size / k, d.size);
    ConcatRows(ds);
    LikeDoesNotMatter(ds, ds[0], d);
    RowsSize(d);
  }

  lemma {:induction false} PartAt<T>(d: Data<T>, m: nat, n: nat, j: nat)
    requires d.Valid() && m > 0 && n * m <= d.size && j < n
    ensures j * m + m <= n * m && |Parts(d, m, n * m)| == n
    ensures Parts(d, m, n * m)[j] == Slice(d, j * m, j * m + m)
  {
    hide Slice, Joinable;
    assert (n - 1) * m == n * m - m;
    PartsCount(d, m, n);
    PartsCount(d, m, n - 1);
    if j < n - 1 { PartAt(d, m, n - 1, j); }
  }

  /** Worker j's part of a batch that is cut into parts of m rows. */
  ghost predicate IsPart<T>(d: Data<T>, m: nat, j: nat, part: Data<T>)
    requires d.Valid() && part.Valid()
  {
    part.size == m && j * m + m <= d.size && Rows(part) == Rows(d)[j * m..j * m + m]
  }

  lemma SliceIsPart<T>(d: Data<T>, m: nat, j: nat)
    requires d.Valid() && j * m + m <= d.size
    ensures IsPart(d, m, j, Slice(d, j * m, j * m + m))
  {
    SliceRows(d, j * m, j * m + m);
    RowsSize(Slice(d, j * m, j * m + m));
  }

  /** The batch is cut if and only if it can be cut evenly; worker j then gets the rows from j * m to (j + 1) * m. */
  lemma ChunkRows<T>(d: Data<T>, k: nat)
    requires d.Valid() && k > 0
    ensures Chunk(d, k).Ok? <==> d.size % k == 0
    ensures Chunk(d, k).Ok? ==>
      var chunks := Chunk(d, k).value;
      |chunks| == k && Joinable(chunks, d) && forall j :: 0 <= j < k ==> IsPart(d, d.size / k, j, chunks[j])
  {
    if d.size % k == 0 {
      hide IsPart, Slice;
      var (chunks, m) := (Chunk(d, k).value, d.size / k);
      if d.size < k {
        SmallQuotient(d.size, k);
        forall j: nat | j < k ensures IsPart(d, m, j, chunks[j]) { SliceIsPart(d, 0, j); }
      } else {
        ChunkSize(d.size, k);
        PartsCount(d, m, k);
        hide Parts;
        forall j: nat | j < k ensures IsPart(d, m, j, chunks[j]) {
          PartAt(d, m, k, j);
          SliceIsPart(d, m, j);
        }
      }
    }
  }

  lemma SmallQuotient(n: nat, k: nat)
    requires n < k && n % k == 0
    ensures n == 0 && n / k == 0
  {
    DivideBack(k, 0, n);
  }

  lemma {:induction false} LikeDoesNotMatter<T>(ds: seq<Data<T>>, a: Data<T>, b: Data<T>)
    requires Joinable(ds, a) && Joinable(ds, b)
    ensures AllRows(ds, a) == AllRows(ds, b)
    decreases |ds|
  {
    if ds != [] { LikeDoesNotMatter(ds[..|ds| - 1], a, b); }
  }

  // ---------- Padding ----------

  /** `data[:-pad]`, unless there is nothing to cut. */
  function Unpad<T>(d: Data<T>, pad: nat): Data<T>
    requires d.Valid()
  {
    if pad == 0 then d else Slice(d, 0, if pad <= d.size then d.size - pad else 0)
  }

  /** The original with rows 0, 1, ... of itself behind it, again and again. */
  ghost predicate IsPadded<T>(d: Data<T>, padded: Data<T>)
    requires d.Valid() && padded.Valid() && d.size > 0
  {
    && padded.LooksLike(d) && padded.size >= d.size
    && forall i: nat :: i < padded.size ==> RowAt(padded, i) == RowAt(d, i % d.size)
  }

  lemma PadMore<T>(d: Data<T>, padded: Data<T>, take: nat)
    requires d.Valid() && padded.Valid() && d.size > 0 && IsPadded(d, padded)
    requires take <= d.size && padded.size % d.size == 0
    ensures IsPadded(d, Join(padded, Slice(d, 0, take)))
  {
    assert Join(padded, Slice(d, 0, take)).size == padded.size + take;
    hide Join, Slice, RowAt, Data.Valid, AllOfLength;
    var (s, p) := (Slice(d, 0, take), Join(padded, Slice(d, 0, take)));
    SliceRows(d, 0, take);
    JoinRows(padded, s);
    forall i: nat | i < p.size ensures RowAt(p, i) == RowAt(d, i % d.size) {
      assert RowAt(p, i) == Rows(p)[i];
      if i >= padded.size {
        assert Rows(s)[i - padded.size] == Rows(d)[i - padded.size];
        ModuloOfRest(i, padded.size, d.size);
      }
    }
  }

  lemma ModuloOfRest(i: nat, base: nat, n: nat)
    requires n > 0 && base % n == 0 && base <= i < base + n
    ensures i % n == i - base
  {
    assert base == n * (base / n) + base % n;
    DivideBack(n, base / n, i - base);
  }

  /** The padding of `data` in the original's loop: the beginning of the batch, as often as it takes. */
  method PadToDivisor<T>(d: Data<T>, divisor: nat) returns (padded: Data<T>, pad: nat)
    requires d.Valid() && divisor > 0
    ensures padded.Valid() && padded.size == d.size + pad && padded.size % divisor == 0 && pad < divisor
    ensures if d.size == 0 then padded == d else IsPadded(d, padded)
  {
    if d.size % divisor == 0 {
      padded, pad := d, 0;
      NoPadding(d);
      return;
    }
    pad := divisor - d.size % divisor;
    var parts := [d];
    var remaining := pad;
    NoPadding(d);
    while remaining > 0
      invariant 0 <= remaining <= pad && parts != [] && Joinable(parts, d) && parts[0] == d
      invariant Concat(parts).size + remaining == d.size + pad && IsPadded(d, Concat(parts))
      invariant remaining > 0 ==> Concat(parts).size % d.size == 0
    {
      hide IsPadded, Slice, Join, Concat;
      var take := if remaining <= d.size then remaining else d.size;
      PadMore(d, Concat(parts), take);
      ConcatOneMore(parts, Slice(d, 0, take), d);
      SizeAfter(d, Concat(parts), take);
      parts := parts + [Slice(d, 0, take)];
      remaining := remaining - take;
    }
    padded := Concat(parts);
    PadIsEnough(d.size, divisor);
  }

  lemma NoPadding<T>(d: Data<T>)
    requires d.Valid()
    ensures d.size > 0 ==> IsPadded(d, d) && d.size % d.size == 0
    ensures Joinable([d], d) && Concat([d]) == d
  {
    hide RowAt, Concat;
    ConcatOne([d]);
    if d.size > 0 {
      DivideBack(d.size, 1, 0);
      forall i: nat | i < d.size ensures RowAt(d, i) == RowAt(d, i % d.size) { DivideBack(d.size, 0, i); }
    }
  }

  lemma ConcatOne<T>(ds: seq<Data<T>>)
    requires |ds| == 1 && Joinable(ds, ds[0])
    ensures Concat(ds) == ds[0]
  {
  }

  lemma ConcatOneMore<T>(parts: seq<Data<T>>, d: Data<T>, like: Data<T>)
    requires parts != [] && Joinable(parts, like) && parts[0] == like && d.Valid() && d.LooksLike(like)
    ensures Joinable(parts + [d], like) && Concat(parts + [d]) == Join(Concat(parts), d)
  {
    assert (parts + [d])[..|parts|] == parts;
  }

  lemma SizeAfter<T>(d: Data<T>, padded: Data<T>, take: nat)
    requires d.Valid() && padded.Valid() && padded.LooksLike(d) && take <= d.size && d.size > 0
    requires padded.size % d.size == 0
    ensures Join(padded, Slice(d, 0, take)).size == padded.size + take
    ensures take == d.size ==> (padded.size + take) % d.size == 0
  {
    assert padded.size == d.size * (padded.size / d.size) + padded.size % d.size;
    DivideBack(d.size, padded.size / d.size + 1, 0);
  }

  lemma PadIsEnough(n: nat, divisor: nat)
    requires divisor > 0 && n % divisor != 0
    ensures (n + (divisor - n % divisor)) % divisor == 0
  {
    assert n == divisor * (n / divisor) + n % divisor;
    DivideBack(divisor, n / divisor + 1, 0);
  }

  // ---------- Dispatch ----------

  /** A worker function that treats every row on its own and always returns the columns of `like`. */
  ghost predicate RowWise<T(!new)>(worker: Data<T> -> Data<T>, f: Row<T> -> Row<T>, d: Data<T>, like: Data<T>) {
    forall c: Data<T> :: c.Valid() && c.LooksLike(d) ==> WorkedOn(c, worker(c), f, like)
  }

  ghost predicate WorkedOn<T>(c: Data<T>, r: Data<T>, f: Row<T> -> Row<T>, like: Data<T>)
    requires c.Valid()
  {
    r.Valid() && r.LooksLike(like) && r.size == c.size && Rows(r) == Mapped(Rows(c), f)
  }

  function Mapped<T>(rows: seq<Row<T>>, f: Row<T> -> Row<T>): seq<Row<T>> {
    seq(|rows|, i requires 0 <= i < |rows| => f(rows[i]))
  }

  lemma MappedAppend<T>(a: seq<Row<T>>, b: seq<Row<T>>, f: Row<T> -> Row<T>)
    ensures Mapped(a + b, f) == Mapped(a, f) + Mapped(b, f)
  {
  }

  function ApplyEach<T>(ds: seq<Data<T>>, worker: Data<T> -> Data<T>): seq<Data<T>> {
    seq(|ds|, k requires 0 <= k < |ds| => worker(ds[k]))
  }

  lemma {:induction false} AppliedRows<T(!new)>(ds: seq<Data<T>>, worker: Data<T> -> Data<T>, f: Row<T> -> Row<T>, d: Data<T>,
                                                like: Data<T>)
    requires Joinable(ds, d) && RowWise(worker, f, d, like)
    ensures Joinable(ApplyEach(ds, worker), like)
    ensures AllRows(ApplyEach(ds, worker), like) == Mapped(AllRows(ds, d), f)
    decreases |ds|
  {
    hide Rows, Mapped;
    forall k | 0 <= k < |ds| ensures WorkedOn(ds[k], worker(ds[k]), f, like) {
    }
    if ds == [] {
      NothingMapped(f);
    } else {
      var n := |ds| - 1;
      AppliedRows(ds[..n], worker, f, d, like);
      assert ApplyEach(ds, worker)[..n] == ApplyEach(ds[..n], worker);
      MappedAppend(AllRows(ds[..n], d), Rows(ds[n]), f);
    }
  }

  lemma NothingMapped<T>(f: Row<T> -> Row<T>)
    ensures Mapped([], f) == []
  {
  }

  lemma UnpadRows<T>(d: Data<T>, pad: nat)
    requires d.Valid()
    ensures var rest := if pad <= d.size then d.size - pad else 0;
      Unpad(d, pad).Valid() && |Rows(d)| == d.size && Rows(Unpad(d, pad)) == Rows(d)[..rest]
  {
    if pad > 0 { SliceRows(d, 0, if pad <= d.size then d.size - pad else 0); }
  }

  lemma PaddedPrefix<T>(d: Data<T>, padded: Data<T>)
    requires d.Valid() && padded.Valid() && d.size > 0 && IsPadded(d, padded)
    ensures Rows(padded)[..d.size] == Rows(d)
  {
    hide RowAt;
    forall i: nat | i < d.size ensures Rows(padded)[i] == Rows(d)[i] { DivideBack(d.size, 0, i); }
  }

  /** Giving each of k workers an equal part and joining what they return is working on every row. */
  lemma WorkersTogether<T(!new)>(d: Data<T>, k: nat, worker: Data<T> -> Data<T>, f: Row<T> -> Row<T>, like: Data<T>)
    requires d.Valid() && 0 < k <= d.size && d.size % k == 0 && RowWise(worker, f, d, like)
    ensures Chunk(d, k).Ok?
    ensures var parts := ApplyEach(Chunk(d, k).value, worker);
      parts != [] && Joinable(parts, parts[0]) && Rows(Concat(parts)) == Mapped(Rows(d), f)
  {
    hide Rows, Mapped, RowWise, Slice, Parts, Concat;
    ChunkSize(d.size, k);
    var ds := Chunk(d, k).value;
    PartsCount(d, d.size / k, k);
    AppliedRows(ds, worker, f, d, like);
    var parts := ApplyEach(ds, worker);
    ConcatRows(parts);
    LikeDoesNotMatter(parts, parts[0], like);
    PartsRows(d, d.size / k, d.size);
    RowsSize(d);
    assert Rows(d)[..d.size] == Rows(d);
  }

  /** Padding for k workers, giving each of them an equal part, joining what they return and unpadding is the same as
      working on the batch at once: row i of the result is the work on row i, for every batch with rows, every number
      of workers and every row-wise worker. */
  lemma DispatchIsRowWise<T(!new)>(d: Data<T>, padded: Data<T>, pad: nat, k: nat, worker: Data<T> -> Data<T>,
                                   f: Row<T> -> Row<T>, like: Data<T>)
    requires d.Valid() && d.size > 0 && k > 0 && padded.Valid()
    requires padded.size == d.size + pad && padded.size % k == 0 && IsPadded(d, padded)
    requires RowWise(worker, f, d, like)
    ensures Chunk(padded, k).Ok?
    ensures var parts := ApplyEach(Chunk(padded, k).value, worker);
      && parts != [] && Joinable(parts, parts[0])
      && Rows(Unpad(Concat(parts), pad)) == Mapped(Rows(d), f)
  {
    hide Rows, Mapped, Slice, Chunk, Concat, ApplyEach, Unpad;
    AlikeWorker(d, padded, worker, f, like);
    AtLeastOne(padded.size, k);
    WorkersTogether(padded, k, worker, f, like);
    var joined := Concat(ApplyEach(Chunk(padded, k).value, worker));
    RowsSize(padded);
    RowsSize(joined);
    MappedPrefix(Rows(padded), f, d.size);
    UnpadRows(joined, pad);
    PaddedPrefix(d, padded);
  }

  lemma AtLeastOne(n: nat, k: nat)
    requires k > 0 && n > 0 && n % k == 0
    ensures k <= n
  {
  }

  lemma AlikeWorker<T(!new)>(d: Data<T>, e: Data<T>, worker: Data<T> -> Data<T>, f: Row<T> -> Row<T>, like: Data<T>)
    requires e.LooksLike(d) && RowWise(worker, f, d, like)
    ensures RowWise(worker, f, e, like)
  {
    hide WorkedOn;
  }

  lemma MappedPrefix<T>(rows: seq<Row<T>>, f: Row<T> -> Row<T>, n: nat)
    requires n <= |rows|
    ensures |Mapped(rows, f)| == |rows| && Mapped(rows, f)[..n] == Mapped(rows[..n], f)
  {
  }
}
