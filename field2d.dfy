/** A two-dimensional field component on a staggered (Yee) mesh: one
    contiguous buffer in row-major order plus a table of row starts. */
module Fields {
  import opened Vectors
  import opened Arith

  /** The staggering rule: axis `j` is dual (gets one extra point) when it is
      the main axis of a field that is not primal there, or another axis of a
      field that is primal on its main axis. */
  predicate IsDual(j: nat, mainDim: nat, isPrimal: bool)
  {
    (j == mainDim && !isPrimal) || (j != mainDim && isPrimal)
  }

  /** The two written-out cases of the rule amount to one exclusive or. */
  lemma IsDualIsExclusiveOr(j: nat, mainDim: nat, isPrimal: bool)
    ensures IsDual(j, mainDim, isPrimal) <==> ((j == mainDim) != isPrimal)
  {
  }

  /** The per-axis flags after the staggered allocation: the previous flags
      resized to the rank, with every dual axis raised to 1. */
  function DualFlags(prev: seq<nat>, mainDim: nat, isPrimal: bool): (flags: seq<nat>)
    ensures |flags| == 2
    ensures forall j :: 0 <= j < 2 && IsDual(j, mainDim, isPrimal) ==> flags[j] == 1
    ensures forall j :: 0 <= j < |prev| && j < 2 && prev[j] == 1 ==> flags[j] == 1
  {
    var kept := Resize(prev, 2, 0);
    seq(2, j requires 0 <= j < 2 => if IsDual(j, mainDim, isPrimal) then 1 else kept[j])
  }

  /** The stored size per axis: the requested size plus the axis's flag. */
  function StaggeredSizes(dims: seq<nat>, flags: seq<nat>): (sizes: seq<nat>)
    requires |dims| == |flags|
    ensures |sizes| == |dims|
    ensures forall j :: 0 <= j < |dims| ==> dims[j] <= sizes[j]
    ensures forall j :: 0 <= j < |dims| && flags[j] == 0 ==> sizes[j] == dims[j]
  {
    seq(|dims|, j requires 0 <= j < |dims| => dims[j] + flags[j])
  }

  /** Starting from no flags, an axis is flagged exactly when it is dual. */
  lemma DualFlagsFromEmpty(mainDim: nat, isPrimal: bool, j: nat)
    requires j < 2
    ensures |DualFlags([], mainDim, isPrimal)| == 2
    ensures DualFlags([], mainDim, isPrimal)[j] == 1 <==> (j == mainDim) != isPrimal
    ensures DualFlags([], mainDim, isPrimal)[j] == 0 <==> (j == mainDim) == isPrimal
  {
    IsDualIsExclusiveOr(j, mainDim, isPrimal);
  }

  /** The staggered allocation only raises flags: a flag that stays is one the
      previous flags (as resized) already held, and a set flag is never cleared. */
  lemma DualFlagsOnlyRaise(prev: seq<nat>, mainDim: nat, isPrimal: bool, j: nat)
    requires j < 2
    ensures |DualFlags(prev, mainDim, isPrimal)| == 2
    ensures DualFlags(prev, mainDim, isPrimal)[j] == 1
            || DualFlags(prev, mainDim, isPrimal)[j] == (if j < |prev| then prev[j] else 0)
    ensures j < |prev| && prev[j] == 1 ==> DualFlags(prev, mainDim, isPrimal)[j] == 1
    ensures IsDual(j, mainDim, isPrimal) ==> DualFlags(prev, mainDim, isPrimal)[j] == 1
  {
  }

  /** The Yee examples: a 4x4 field, main axis 0, gets sizes 5x4 when it is
      dual on its main axis and 4x5 when it is primal there. */
  lemma StaggeredSizeExamples()
    ensures StaggeredSizes([4, 4], DualFlags([], 0, false)) == [5, 4]
    ensures StaggeredSizes([4, 4], DualFlags([], 0, true)) == [4, 5]
  {
    assert DualFlags([], 0, false) == [1, 0];
    assert DualFlags([], 0, true) == [0, 1];
  }

  /** A row-major offset stays inside a buffer of `rows * cols` elements. */
  lemma {:induction false} OffsetInBounds(i: nat, j: nat, rows: nat, cols: nat)
    requires i < rows && j < cols
    ensures i * cols + j < rows * cols
  {
    calc {
      i * cols + j;
    <  i * cols + cols;
    == (i + 1) * cols;
    <= { MulMonotone(i + 1, rows, cols); }
      rows * cols;
    }
  }

  /** Distinct cells have distinct row-major offsets. */
  lemma {:induction false} OffsetInjective(i1: nat, j1: nat, i2: nat, j2: nat, cols: nat)
    requires j1 < cols && j2 < cols
    requires i1 * cols + j1 == i2 * cols + j2
    ensures i1 == i2 && j1 == j2
  {
    if i1 < i2 {
      MulMonotone(i1 + 1, i2, cols);
      assert false;
    } else if i2 < i1 {
      MulMonotone(i2 + 1, i1, cols);
      assert false;
    }
  }

  /** Field2D: `dims` is dims_, `isPrimal` is isPrimal_ (0 primal, 1 dual per
      axis), `data2D` is the contiguous buffer data_2D and `rows` is data_, held
      as the offset of each row start inside `data2D`. Both arrays are null
      before the first allocation. */
  class Field2D {
    var dims: seq<nat>
    var isPrimal: seq<nat>
    var data2D: array?<real>
    var rows: array?<nat>

    /** The layout invariant of an allocated field: rank 2, a buffer of
        dims[0] * dims[1] cells, and row i starting at i * dims[1]. */
    ghost predicate Valid()
      reads this, rows
    {
      && |dims| == 2
      && |isPrimal| == 2
      && data2D != null
      && rows != null
      && data2D.Length == dims[0] * dims[1]
      && rows.Length == dims[0]
      && forall i :: 0 <= i < rows.Length ==> rows[i] == i * dims[1]
    }

    /** Field2D(): nothing allocated yet. */
    constructor ()
      ensures dims == [] && isPrimal == []
      ensures data2D == null && rows == null
    {
      dims := [];
      isPrimal := [];
      data2D := null;
      rows := null;
    }

    /** Field2D(dims): an unstaggered field (the base class is taken to
        leave isPrimal_ empty). A rank other than 2 is the fatal error, raised
        after dims_ was overwritten. */
    constructor WithDims(newDims: seq<nat>)
      ensures |newDims| == 2 ==> Valid() && fresh(data2D) && fresh(rows)
      ensures |newDims| == 2 ==> dims == newDims && isPrimal == [0, 0]
      ensures |newDims| != 2 ==> dims == newDims && isPrimal == [] && data2D == null && rows == null
    {
      dims := [];
      isPrimal := [];
      data2D := null;
      rows := null;
      new;
      var ok := AllocateDims(newDims);
    }

    /** Field2D(dims, mainDim, isPrimal): a staggered field. */
    constructor Staggered(newDims: seq<nat>, mainDim: nat, primal: bool)
      ensures |newDims| == 2 ==> Valid() && fresh(data2D) && fresh(rows)
      ensures |newDims| == 2 ==> isPrimal == DualFlags([], mainDim, primal)
      ensures |newDims| == 2 ==> dims == StaggeredSizes(newDims, isPrimal)
      ensures |newDims| != 2 ==> dims == newDims && isPrimal == [] && data2D == null && rows == null
    {
      dims := [];
      isPrimal := [];
      data2D := null;
      rows := null;
      new;
      var ok := AllocateDimsStaggered(newDims, mainDim, primal);
    }

    /** Installs a fresh buffer for the current `dims` and fills the row table;
        the previous buffer is dropped (deleted in the source). */
    method AllocateBuffer()
      requires |dims| == 2 && |isPrimal| == 2
      modifies this
      ensures Valid() && fresh(data2D) && fresh(rows)
      ensures dims == old(dims) && isPrimal == old(isPrimal)
    {
      var nRows, nCols := dims[0], dims[1];
      var buffer := new real[nRows * nCols];
      var table := new nat[nRows];
      for i := 0 to nRows
        modifies table
        invariant forall k :: 0 <= k < i ==> table[k] == k * nCols
      {
        table[i] := i * nCols;
      }
      data2D, rows := buffer, table;
    }

    /** allocateDims(dims): `ok` is false exactly on the fatal rank error, when
        only dims_ has been written. Otherwise the field is unstaggered: sizes
        are the requested ones and isPrimal_ keeps its old entries, resized to 2. */
    method AllocateDims(newDims: seq<nat>) returns (ok: bool)
      modifies this
      ensures ok <==> |newDims| == 2
      ensures dims == newDims
      ensures !ok ==> isPrimal == old(isPrimal) && data2D == old(data2D) && rows == old(rows)
      ensures ok ==> Valid() && fresh(data2D) && fresh(rows)
      ensures ok ==> isPrimal == Resize(old(isPrimal), 2, 0)
    {
      dims := newDims;
      if |dims| != 2 {
        return false;
      }
      isPrimal := Resize(isPrimal, |newDims|, 0);
      AllocateBuffer();
      ok := true;
    }

    /** allocateDims(dims, mainDim, isPrimal): `ok` is false exactly on the
        fatal rank error. Otherwise every dual axis is flagged, no flag is
        cleared, and each stored size is the requested size plus its flag. */
    method AllocateDimsStaggered(newDims: seq<nat>, mainDim: nat, primal: bool) returns (ok: bool)
      modifies this
      ensures ok <==> |newDims| == 2
      ensures !ok ==> dims == newDims
      ensures !ok ==> isPrimal == old(isPrimal) && data2D == old(data2D) && rows == old(rows)
      ensures ok ==> Valid() && fresh(data2D) && fresh(rows)
      ensures ok ==> isPrimal == DualFlags(old(isPrimal), mainDim, primal)
      ensures ok ==> dims == StaggeredSizes(newDims, isPrimal)
    {
      dims := newDims;
      if |dims| != 2 {
        return false;
      }
      ghost var kept := Resize(isPrimal, 2, 0);
      isPrimal := Resize(isPrimal, |newDims|, 0);
      for j := 0 to |newDims|
        invariant dims == newDims && |isPrimal| == 2
        invariant forall k :: 0 <= k < j ==> isPrimal[k] == DualFlags(old(isPrimal), mainDim, primal)[k]
        invariant forall k :: j <= k < 2 ==> isPrimal[k] == kept[k]
      {
        if j == mainDim && !primal {
          isPrimal := isPrimal[j := 1];
        } else if j != mainDim && primal {
          isPrimal := isPrimal[j := 1];
        }
      }
      assert isPrimal == DualFlags(old(isPrimal), mainDim, primal);
      for j := 0 to |newDims|
        invariant |dims| == 2 && isPrimal == DualFlags(old(isPrimal), mainDim, primal)
        invariant forall k :: 0 <= k < j ==> dims[k] == newDims[k] + isPrimal[k]
        invariant forall k :: j <= k < 2 ==> dims[k] == newDims[k]
      {
        dims := dims[j := dims[j] + isPrimal[j]];
      }
      assert dims == StaggeredSizes(newDims, isPrimal);
      AllocateBuffer();
      ok := true;
    }

    /** The buffer index of cell (i, j), found through the row table
        (`data_[i][j]`): the row-major offset, inside the buffer. */
    function ElementOffset(i: nat, j: nat): (k: nat)
      reads this, rows
      requires Valid()
      requires i < dims[0] && j < dims[1]
      ensures k == i * dims[1] + j
      ensures k < data2D.Length
    {
      OffsetInBounds(i, j, dims[0], dims[1]);
      rows[i] + j
    }
  }

  /** The buffer length the source computes: dims_[0]*dims_[1] is an
      unsigned int product and wraps modulo 2^32. */
  function BufferLengthAsWritten(rows: nat, cols: nat): (n: nat)
    ensures n < 0x1_0000_0000
    ensures rows * cols < 0x1_0000_0000 ==> n == rows * cols
  {
    (rows * cols) % 0x1_0000_0000
  }

  /** For a 65536 x 65536 field the wrapped length is 0, yet cell (0, 0) at
      offset 0 is then outside the buffer. */
  lemma WrappedBufferTooSmall()
    ensures BufferLengthAsWritten(65536, 65536) == 0
    ensures !(0 * 65536 + 0 < BufferLengthAsWritten(65536, 65536))
  {
  }
}
