/** Rearranging a column-major matrix into buffers that are column-major matrices themselves. */
module PartitionMatrix {
  import opened Indices
  import opened BufferCache
  import opened ChunkSchedule

  /** A matrix of `dims` columns with `dim` cells each, cut into buffers that hold `bufdim` cells of every column. */
  datatype Layout = Layout(dims: nat, dim: nat, bufdim: nat) {
    ghost predicate Valid() {
      dims > 0 && bufdim > 0
    }

    function Size(): nat {
      dims * dim
    }

    function BufferSize(): nat {
      dims * bufdim
    }

    /** Column length in buffer b: bufdim, less in the last buffer. */
    function Real(b: nat): nat
      requires b * bufdim <= dim
    {
      if bufdim * (b + 1) > dim then dim - b * bufdim else bufdim
    }
  }

  /** Cell i of column v in buffer b, in the destination. */
  ghost function Dest(l: Layout, b: nat, v: nat, i: nat): int
    requires l.bufdim * b <= l.dim
  {
    l.BufferSize() * b + l.Real(b) * v + i
  }

  /** The same cell in the source. */
  ghost function Source(l: Layout, b: nat, v: nat, i: nat): int {
    l.dim * v + l.bufdim * b + i
  }

  /** The cells there are: buffer b, column v, position i. */
  ghost predicate IsCell(l: Layout, b: nat, v: nat, i: nat) {
    l.bufdim * b <= l.dim && v < l.dims && i < l.Real(b)
  }

  /** Buffer b begins where the columns of the buffers before it end. */
  lemma BufferStart(l: Layout, b: nat)
    ensures l.BufferSize() * b == l.dims * (l.bufdim * b)
  {
    Associate(l.dims, l.bufdim, b);
  }

  /** Buffer b ends where the next one begins, or at the end of the matrix. */
  lemma BufferEnd(l: Layout, b: nat)
    requires l.Valid() && l.bufdim * b <= l.dim
    ensures Dest(l, b, l.dims, 0) == l.BufferSize() * b + l.dims * l.Real(b)
    ensures Dest(l, b, l.dims, 0) == if l.bufdim * (b + 1) > l.dim then l.Size() else (b + 1) * l.BufferSize()
  {
    BufferStart(l, b);
    if l.bufdim * (b + 1) > l.dim {
      assert l.dims * (l.dim - l.bufdim * b) == l.dims * l.dim - l.dims * (l.bufdim * b);
    } else {
      assert (b + 1) * l.BufferSize() == l.BufferSize() * b + l.BufferSize();
    }
  }

  lemma SourceInside(l: Layout, b: nat, v: nat, i: nat)
    requires l.Valid() && IsCell(l, b, v, i)
    ensures 0 <= Source(l, b, v, i) < l.Size()
    ensures l.bufdim * b + i < l.dim && i < l.bufdim
  {
    assert l.bufdim * (b + 1) == l.bufdim * b + l.bufdim;
    InMatrix(l.bufdim * b + i, v, l.dim, l.dims);
    assert l.dim * v == v * l.dim && l.dim * l.dims == l.Size();
  }

  /** Whole buffers before buffer b, and b itself, lie inside the matrix. */
  lemma BufferInside(l: Layout, b: nat)
    requires l.Valid() && l.bufdim * b <= l.dim
    ensures l.dims * l.Real(b) <= l.BufferSize()
    ensures l.BufferSize() * b + l.dims * l.Real(b) <= l.Size()
  {
    BufferEnd(l, b);
    Monotone(l.Real(b), l.bufdim, l.dims);
    if l.bufdim * (b + 1) <= l.dim {
      Monotone(l.bufdim * (b + 1), l.dim, l.dims);
      assert l.dims * (l.bufdim * (b + 1)) == (l.dims * l.bufdim) * (b + 1) == (b + 1) * l.BufferSize();
    }
  }

  /** Cells lie inside the matrix, in source and destination. */
  lemma CellInside(l: Layout, b: nat, v: nat, i: nat)
    requires l.Valid() && IsCell(l, b, v, i)
    ensures 0 <= Dest(l, b, v, i) < l.Size() && 0 <= Source(l, b, v, i) < l.Size()
    ensures l.BufferSize() * b <= Dest(l, b, v, i) < l.BufferSize() * b + l.BufferSize()
    ensures l.bufdim * b + i < l.dim && i < l.bufdim
  {
    SourceInside(l, b, v, i);
    BufferInside(l, b);
    var len := l.Real(b);
    InMatrix(i, v, len, l.dims);
    assert len * v == v * len && len * l.dims == l.dims * len;
    assert l.BufferSize() * b >= 0;
  }

  /** Every source cell is some cell of some buffer. */
  lemma SourceIsCell(l: Layout, s: nat) returns (b: nat, v: nat, i: nat)
    requires l.Valid() && s < l.Size()
    ensures IsCell(l, b, v, i) && Source(l, b, v, i) == s
  {
    assert l.Size() == l.dim * l.dims;
    QuotientBelow(s, l.dim, l.dims);
    v := s / l.dim;
    var r := s % l.dim;
    Split(s, l.dim);
    b, i := r / l.bufdim, r % l.bufdim;
    Split(r, l.bufdim);
    assert l.bufdim * (b + 1) == l.bufdim * b + l.bufdim;
  }

  /** Every destination cell is some cell of some buffer. */
  lemma DestIsCell(l: Layout, t: nat) returns (b: nat, v: nat, i: nat)
    requires l.Valid() && t < l.Size()
    ensures IsCell(l, b, v, i) && Dest(l, b, v, i) == t
  {
    var size := l.BufferSize();
    Monotone(1, l.bufdim, l.dims);
    b := t / size;
    var off := t % size;
    Split(t, size);
    BufferStart(l, b);
    Product(l.bufdim, b);
    if l.bufdim * b > l.dim {
      Monotone(l.dim, l.bufdim * b, l.dims);
    }
    BufferEnd(l, b);
    Distribute(size, b, 1);
    Product(l.dims, l.Real(b));
    assert off < l.dims * l.Real(b);
    QuotientBelow(off, l.Real(b), l.dims);
    v, i := off / l.Real(b), off % l.Real(b);
    Split(off, l.Real(b));
    assert l.Real(b) * v == v * l.Real(b);
  }

  lemma SameSource(l: Layout, b: nat, v: nat, i: nat, b': nat, v': nat, i': nat)
    requires l.Valid() && IsCell(l, b, v, i) && IsCell(l, b', v', i')
    requires Source(l, b, v, i) == Source(l, b', v', i')
    ensures b == b' && v == v' && i == i'
  {
    SourceInside(l, b, v, i);
    SourceInside(l, b', v', i');
    hide IsCell;
    Product(l.bufdim, b);
    Product(l.bufdim, b');
    var r, r' := l.bufdim * b + i, l.bufdim * b' + i';
    UniqueQuotient(l.dim, v, r, v', r');
    UniqueQuotient(l.bufdim, b, i, b', i');
  }

  lemma SameDest(l: Layout, b: nat, v: nat, i: nat, b': nat, v': nat, i': nat)
    requires l.Valid() && IsCell(l, b, v, i) && IsCell(l, b', v', i')
    requires Dest(l, b, v, i) == Dest(l, b', v', i')
    ensures b == b' && v == v' && i == i'
  {
    CellInside(l, b, v, i);
    CellInside(l, b', v', i');
    UniqueQuotient(l.BufferSize(), b, l.Real(b) * v + i, b', l.Real(b') * v' + i');
    UniqueQuotient(l.Real(b), v, i, v', i');
  }

  /** A cell has its own place in the source and its own place in the destination: nothing is written twice. */
  lemma CellsAreDistinct(l: Layout, b: nat, v: nat, i: nat, b': nat, v': nat, i': nat)
    requires l.Valid() && IsCell(l, b, v, i) && IsCell(l, b', v', i')
    ensures Dest(l, b, v, i) == Dest(l, b', v', i') <==> b == b' && v == v' && i == i'
    ensures Source(l, b, v, i) == Source(l, b', v', i') <==> b == b' && v == v' && i == i'
  {
    if Dest(l, b, v, i) == Dest(l, b', v', i') {
      SameDest(l, b, v, i, b', v', i');
    }
    if Source(l, b, v, i) == Source(l, b', v', i') {
      SameSource(l, b, v, i, b', v', i');
    }
  }

  /** The destination holds the source, cell by cell. */
  ghost predicate IsPartition<T>(l: Layout, src: seq<T>, dst: seq<T>)
    requires l.Valid()
  {
    |src| == |dst| == l.Size()
    && forall b: nat, v: nat, i: nat {:trigger Dest(l, b, v, i)} {:trigger Source(l, b, v, i)} ::
         IsCell(l, b, v, i) ==>
           0 <= Dest(l, b, v, i) < |dst| && 0 <= Source(l, b, v, i) < |src|
           && dst[Dest(l, b, v, i)] == src[Source(l, b, v, i)]
  }

  /** A source has only one partition, and a partition has only one source: the rearrangement loses nothing. */
  lemma PartitionIsBijective<T>(l: Layout, src: seq<T>, dst: seq<T>, src': seq<T>, dst': seq<T>)
    requires l.Valid() && IsPartition(l, src, dst) && IsPartition(l, src', dst')
    ensures src == src' <==> dst == dst'
  {
    if dst == dst' {
      forall s | 0 <= s < |src|
        ensures src[s] == src'[s]
      {
        var b, v, i := SourceIsCell(l, s);
        assert dst[Dest(l, b, v, i)] == src[Source(l, b, v, i)];
      }
    }
    if src == src' {
      forall t | 0 <= t < |dst|
        ensures dst[t] == dst'[t]
      {
        var b, v, i := DestIsCell(l, t);
        assert dst[Dest(l, b, v, i)] == src[Source(l, b, v, i)];
      }
    }
  }

  method Memcpy<T>(dst: array<T>, at: nat, src: seq<T>, from: nat, n: nat)
    requires at + n <= dst.Length && from + n <= |src|
    modifies dst
    ensures forall t :: 0 <= t < dst.Length ==>
              dst[t] == if at <= t < at + n then src[from + (t - at)] else old(dst[t])
  {
    for k := 0 to n
      invariant forall t :: 0 <= t < dst.Length ==>
                  dst[t] == if at <= t < at + k then src[from + (t - at)] else old(dst[t])
    {
      dst[at + k] := src[from + k];
    }
  }

  /** Partitions src; -1 when the dimensions do not divide evenly. */
  method PartitionMatrix<T>(src: seq<T>, dst: array<T>, size: nat, num_dims: nat, buffer_size: nat) returns (ret: int)
    requires num_dims > 0 && buffer_size > 0 && |src| == size <= dst.Length
    modifies dst
    ensures size % num_dims != 0 || buffer_size % num_dims != 0 ==> ret == -1 && dst[..] == old(dst[..])
    ensures size % num_dims == 0 && buffer_size % num_dims == 0 ==>
              var l := Layout(num_dims, size / num_dims, buffer_size / num_dims);
              && l.Valid() && l.Size() == size && l.BufferSize() == buffer_size
              && ret == NumChunks(size, buffer_size)
              && IsPartition(l, src, dst[..size]) && dst[size..] == old(dst[size..])
  {
    hide Copied, IsPartition, IsCell;
    var dim_size := size / num_dims;
    if size % num_dims != 0 {
      return -1;
    }
    var buf_dim_size := buffer_size / num_dims;
    if buffer_size % num_dims != 0 {
      return -1;
    }
    ghost var l := Layout(num_dims, dim_size, buf_dim_size);
    LayoutOf(size, num_dims, buffer_size);
    var num_bufs := (size + buffer_size - 1) / buffer_size;
    NothingCopied(l, src, dst[..]);
    for b := 0 to num_bufs
      invariant Copied(l, src, dst[..], b, 0) && dst[size..] == old(dst[size..])
    {
      BufferStarts(l, b, num_bufs);
      CopyBuffer(l, src, dst, b, dim_size, buf_dim_size, num_dims, buffer_size);
    }
    AllCopied(l, src, dst[..], num_bufs);
    return num_bufs;
  }

  lemma LayoutOf(size: nat, num_dims: nat, buffer_size: nat)
    requires num_dims > 0 && buffer_size > 0 && size % num_dims == 0 && buffer_size % num_dims == 0
    ensures var l := Layout(num_dims, size / num_dims, buffer_size / num_dims);
            l.Valid() && l.Size() == size && l.BufferSize() == buffer_size
  {
    Split(size, num_dims);
    Split(buffer_size, num_dims);
    assert num_dims * 0 == 0;
  }

  /** Copies column v of buffer b. */
  method CopyColumn<T>(ghost l: Layout, src: seq<T>, dst: array<T>, ghost b: nat, ghost v: nat, at: nat, from: nat,
                       len: nat)
    requires l.Valid() && l.bufdim * b < l.dim && v < l.dims
    requires at == Dest(l, b, v, 0) && from == Source(l, b, v, 0) && len == l.Real(b)
    requires |src| == l.Size() <= dst.Length && Copied(l, src, dst[..], b, v)
    modifies dst
    ensures Copied(l, src, dst[..], b, v + 1) && dst[l.Size()..] == old(dst[l.Size()..])
  {
    hide Copied;
    ColumnInside(l, b, v);
    hide Dest, Source;
    ghost var was := dst[..];
    Memcpy(dst, at, src, from, len);
    ColumnCopied(l, src, was, dst[..], b, v);
    assert dst[l.Size()..] == was[l.Size()..];
  }

  /** Copies the columns of buffer b. */
  method CopyBuffer<T>(ghost l: Layout, src: seq<T>, dst: array<T>, b: nat, dim_size: nat, buf_dim_size: nat,
                       num_dims: nat, buffer_size: nat)
    requires l == Layout(num_dims, dim_size, buf_dim_size) && l.Valid() && l.BufferSize() == buffer_size
    requires |src| == l.Size() <= dst.Length && b * buf_dim_size < dim_size && Copied(l, src, dst[..], b, 0)
    modifies dst
    ensures Copied(l, src, dst[..], b + 1, 0) && dst[l.Size()..] == old(dst[l.Size()..])
  {
    hide Copied;
    var real_buf_dim_size := if buf_dim_size * (b + 1) > dim_size then dim_size - b * buf_dim_size else buf_dim_size;
    for v := 0 to num_dims
      invariant Copied(l, src, dst[..], b, v) && dst[l.Size()..] == old(dst[l.Size()..])
    {
      Product(b, buffer_size);
      Product(v, real_buf_dim_size);
      Product(v, dim_size);
      Product(b, buf_dim_size);
      CopyColumn(l, src, dst, b, v, b * buffer_size + v * real_buf_dim_size, v * dim_size + b * buf_dim_size,
                 real_buf_dim_size);
    }
    NextBuffer(l, src, dst[..], b);
  }

  /** Buffers before b, and the columns before v of buffer b, have been copied. */
  ghost predicate Copied<T>(l: Layout, src: seq<T>, dst: seq<T>, b: nat, v: nat)
    requires l.Valid()
  {
    |src| == l.Size() <= |dst|
    && forall b': nat, v': nat, i: nat {:trigger Dest(l, b', v', i)} {:trigger Source(l, b', v', i)} ::
         IsCell(l, b', v', i) && (b' < b || (b' == b && v' < v)) ==>
           0 <= Dest(l, b', v', i) < |dst| && 0 <= Source(l, b', v', i) < |src|
           && dst[Dest(l, b', v', i)] == src[Source(l, b', v', i)]
  }

  lemma NothingCopied<T>(l: Layout, src: seq<T>, dst: seq<T>)
    requires l.Valid() && |src| == l.Size() <= |dst|
    ensures Copied(l, src, dst, 0, 0)
  {
  }

  lemma BufferStarts(l: Layout, b: nat, n: nat)
    requires l.Valid() && l.BufferSize() > 0 && n == NumChunks(l.Size(), l.BufferSize()) && b < n
    ensures l.bufdim * b < l.dim
  {
    ChunkInside(l.Size(), l.BufferSize(), b);
    BufferStart(l, b);
    if l.bufdim * b >= l.dim {
      Monotone(l.dim, l.bufdim * b, l.dims);
    }
  }

  lemma ColumnInside(l: Layout, b: nat, v: nat)
    requires l.Valid() && l.bufdim * b < l.dim && v < l.dims
    ensures Dest(l, b, v, 0) + l.Real(b) <= l.Size() && Source(l, b, v, 0) + l.Real(b) <= l.Size()
  {
    assert l.bufdim * (b + 1) == l.bufdim * b + l.bufdim;
    CellInside(l, b, v, l.Real(b) - 1);
  }

  lemma ColumnCopied<T>(l: Layout, src: seq<T>, before: seq<T>, after: seq<T>, b: nat, v: nat)
    requires l.Valid() && Copied(l, src, before, b, v) && |after| == |before| && v < l.dims && l.bufdim * b < l.dim
    requires Dest(l, b, v, 0) + l.Real(b) <= l.Size() && Source(l, b, v, 0) + l.Real(b) <= l.Size()
    requires forall t :: 0 <= t < |before| ==>
               after[t] == if Dest(l, b, v, 0) <= t < Dest(l, b, v, 0) + l.Real(b)
                           then src[Source(l, b, v, 0) + (t - Dest(l, b, v, 0))] else before[t]
    ensures Copied(l, src, after, b, v + 1)
  {
    forall b': nat, v': nat, i: nat | IsCell(l, b', v', i) && (b' < b || (b' == b && v' < v + 1))
      ensures 0 <= Dest(l, b', v', i) < |after| && 0 <= Source(l, b', v', i) < |src|
              && after[Dest(l, b', v', i)] == src[Source(l, b', v', i)]
    {
      CellInside(l, b', v', i);
      var t := Dest(l, b', v', i);
      if Dest(l, b, v, 0) <= t < Dest(l, b, v, 0) + l.Real(b) {
        var k := t - Dest(l, b, v, 0);
        CellsAreDistinct(l, b', v', i, b, v, k);
      }
    }
  }

  lemma NextBuffer<T>(l: Layout, src: seq<T>, dst: seq<T>, b: nat)
    requires l.Valid() && Copied(l, src, dst, b, l.dims)
    ensures Copied(l, src, dst, b + 1, 0)
  {
  }

  lemma AllCopied<T>(l: Layout, src: seq<T>, dst: seq<T>, n: nat)
    requires l.Valid() && l.BufferSize() > 0 && n == NumChunks(l.Size(), l.BufferSize())
    requires Copied(l, src, dst, n, 0)
    ensures IsPartition(l, src, dst[..l.Size()])
  {
    forall b: nat, v: nat, i: nat | IsCell(l, b, v, i)
      ensures 0 <= Dest(l, b, v, i) < l.Size() && 0 <= Source(l, b, v, i) < |src|
              && dst[Dest(l, b, v, i)] == src[Source(l, b, v, i)]
    {
      CellInside(l, b, v, i);
      var t := Dest(l, b, v, i);
      ChunksPartition(l.Size(), l.BufferSize(), t);
      Split(t, l.BufferSize());
      assert t == l.BufferSize() * b + (t - l.BufferSize() * b);
      UniqueQuotient(l.BufferSize(), b, t - l.BufferSize() * b, t / l.BufferSize(), t % l.BufferSize());
    }
  }

  lemma CeilIs(size: nat, step: nat, n: nat)
    requires step > 0 && n >= 1 && step * (n - 1) < size <= step * n
    ensures NumChunks(size, step) == n
  {
    var r := size + step - 1 - step * n;
    assert step * (n - 1) == step * n - step;
    DivMod(step, n, r);
  }

  /** Chunk b of the points, cut by the buffer size, and chunk b of the labels, cut by the buffer size over the number
      of columns, describe the same points; there are equally many of both. */
  lemma ChunksAlign(l: Layout, b: nat)
    requires l.Valid()
    ensures l.BufferSize() > 0 && NumChunks(l.Size(), l.BufferSize()) == NumChunks(l.dim, l.bufdim)
    ensures b < NumChunks(l.dim, l.bufdim) ==>
              && l.bufdim * b < l.dim && l.BufferSize() * b < l.Size()
              && ChunkEnd(l.dim, l.bufdim, l.bufdim * b) == l.bufdim * b + l.Real(b)
              && ChunkEnd(l.Size(), l.BufferSize(), l.BufferSize() * b) == l.BufferSize() * b + l.dims * l.Real(b)
  {
    Monotone(1, l.bufdim, l.dims);
    SameCount(l);
    if b < NumChunks(l.dim, l.bufdim) {
      ChunkInside(l.dim, l.bufdim, b);
      ChunkInside(l.Size(), l.BufferSize(), b);
      assert l.bufdim * (b + 1) == l.bufdim * b + l.bufdim;
      BufferEnd(l, b);
      BufferInside(l, b);
      assert (b + 1) * l.BufferSize() == l.BufferSize() * b + l.BufferSize();
    }
  }

  lemma SameCount(l: Layout)
    requires l.Valid() && l.BufferSize() > 0
    ensures NumChunks(l.Size(), l.BufferSize()) == NumChunks(l.dim, l.bufdim)
  {
    var n := NumChunks(l.dim, l.bufdim);
    Split(l.dim + l.bufdim - 1, l.bufdim);
    if l.dim == 0 {
      DivMod(l.bufdim, 0, l.bufdim - 1);
      DivMod(l.BufferSize(), 0, l.BufferSize() - 1);
    } else {
      assert l.bufdim * (n - 1) == l.bufdim * n - l.bufdim;
      ScaledBounds(l, n);
      CeilIs(l.Size(), l.BufferSize(), n);
    }
  }

  lemma ScaledBounds(l: Layout, n: nat)
    requires l.Valid() && n >= 1 && l.bufdim * (n - 1) < l.dim <= l.bufdim * n
    ensures l.BufferSize() * (n - 1) < l.Size() <= l.BufferSize() * n
  {
    Monotone(l.bufdim * (n - 1) + 1, l.dim, l.dims);
    Monotone(l.dim, l.bufdim * n, l.dims);
    Associate(l.dims, l.bufdim, n - 1);
    Associate(l.dims, l.bufdim, n);
    Distribute(l.dims, l.bufdim * (n - 1), 1);
  }
}
