/** Fixed-rank grid shapes `Dim<[Ix; N]>` for N = 1, 2, 3 and the `GridIndex`
    adapters that turn an index into a linear storage offset.

    A shape value stores one natural number per axis, outer axis first. The
    same type serves as a shape (the extents) and as a shape-typed index (one
    position per axis). Strides are row-major: the last axis varies fastest. */
module Grids {
  import opened RowMajor
  import opened Wrappers

  /** Index types: a bare count for rank 1, an ordered pair for rank 2 and
      an ordered triple for rank 3. `usize` is modelled as `nat`. */
  type Ix = nat
  type Ix1 = Ix
  type Ix2 = (Ix, Ix)
  type Ix3 = (Ix, Ix, Ix)

  /** The fixed-size arrays `[Ix; 2]` and `[Ix; 3]`. */
  type Array2 = a: seq<Ix> | |a| == 2 witness [0, 0]
  type Array3 = a: seq<Ix> | |a| == 3 witness [0, 0, 0]

  /** A product whose operands may be the panic of an earlier read; the
      panic propagates. */
  function MulOrPanic(a: Option<nat>, b: Option<nat>): (r: Option<nat>)
    ensures r.Some? <==> a.Some? && b.Some?
  {
    match (a, b)
    case (Some(x), Some(y)) => Some(x * y)
    case _ => None
  }

  // ---------------------------------------------------------------------------
  // Rank 1
  // ---------------------------------------------------------------------------

  /** `Dim<[Ix; 1]>`. */
  datatype Dim1 = Dim1(i0: Ix)
  {
    /** `slice()`: the stored array, one entry per axis; it determines the
        shape. */
    function Slice(): (s: seq<Ix>)
      ensures |s| == 1 && Dim1(s[0]) == this
    {
      [i0]
    }

    /** `From<Ix>`: wraps a bare count. */
    static function FromIx(size: Ix): (d: Dim1)
      ensures d.Slice() == [size]
    {
      Dim1(size)
    }

    function NumberOfDimensions(): (n: nat)
      ensures n == |Slice()|
    {
      1
    }

    function NumberOfElements(): (n: nat)
      ensures n == Product(Slice())
    {
      Unfold1(i0, 0);
      i0
    }

    /** Returns the length of the stored array, which is the rank (always 1),
        not the extent it holds. */
    function AsPattern(): (p: Ix1)
      ensures p == NumberOfDimensions()
    {
      |Slice()|
    }

    function Strides(): (s: Dim1)
      ensures s.Slice() == RowMajorStrides(Slice())
    {
      Unfold1(i0, 0);
      Dim1(1)
    }

    /** `Index<usize>`: reads axis k; any other k panics. */
    function At(k: nat): (v: Ix)
      requires k < NumberOfDimensions()
      ensures v == Slice()[k]
    {
      i0
    }

    /** `IndexMut<usize>`: the value after writing `v` to axis k. */
    function SetAxis(k: nat, v: Ix): (d: Dim1)
      requires k < NumberOfDimensions()
      ensures d.At(k) == v
      ensures forall j :: 0 <= j < NumberOfDimensions() && j != k ==> d.At(j) == At(j)
    {
      Dim1(v)
    }

    static function StrideOffset(index: Dim1, strides: Dim1): (r: nat)
      ensures r == Dot(index.Slice(), strides.Slice())
    {
      Unfold1(index.i0, strides.i0);
      index.At(0) * strides.At(0)
    }

    /** The fastest-varying extent: the axis whose stride is 1. */
    function XAxisValue(): (x: Ix)
      ensures x == Slice()[|Slice()| - 1]
      ensures Strides().At(0) == 1
    {
      i0
    }

    /** A rank-1 grid is treated as a single row. */
    function YAxisValue(): (y: Ix)
      ensures y == 1
      ensures y * XAxisValue() == NumberOfElements()
    {
      1
    }
  }

  // ---------------------------------------------------------------------------
  // Rank 2
  // ---------------------------------------------------------------------------

  /** `Dim<[Ix; 2]>`: extents (rows, columns). */
  datatype Dim2 = Dim2(i0: Ix, i1: Ix)
  {
    /** `slice()`: the stored array, one entry per axis; it determines the
        shape. */
    function Slice(): (s: seq<Ix>)
      ensures |s| == 2 && Dim2(s[0], s[1]) == this
    {
      [i0, i1]
    }

    /** `From<Ix2>`: the pair's components in order. */
    static function FromPair(size: Ix2): (d: Dim2)
      ensures d.Slice() == [size.0, size.1]
    {
      Dim2(size.0, size.1)
    }

    /** `From<[Ix; 2]>`. */
    static function FromArray(size: Array2): (d: Dim2)
      ensures d.Slice() == size
    {
      Dim2(size[0], size[1])
    }

    function NumberOfDimensions(): (n: nat)
      ensures n == |Slice()|
    {
      2
    }

    function NumberOfElements(): (n: nat)
      ensures n == Product(Slice())
    {
      Unfold2(i0, i1, 0, 0);
      i0 * i1
    }

    /** The external pattern is width first: (columns, rows), the reverse
        of the storage order. */
    function AsPattern(): (p: Ix2)
      ensures p == (XAxisValue(), YAxisValue())
      ensures FromPair(p).Slice() == [Slice()[1], Slice()[0]]
    {
      (i1, i0)
    }

    function Strides(): (s: Dim2)
      ensures s.Slice() == RowMajorStrides(Slice())
    {
      Unfold2(i0, i1, 0, 0);
      Dim2(i1 * 1, 1)
    }

    /** `Index<usize>`: reads axis k; any other k panics. */
    function At(k: nat): (v: Ix)
      requires k < NumberOfDimensions()
      ensures v == Slice()[k]
    {
      if k == 0 then i0 else i1
    }

    /** `IndexMut<usize>`: the value after writing `v` to axis k. */
    function SetAxis(k: nat, v: Ix): (d: Dim2)
      requires k < NumberOfDimensions()
      ensures d.At(k) == v
      ensures forall j :: 0 <= j < NumberOfDimensions() && j != k ==> d.At(j) == At(j)
    {
      if k == 0 then Dim2(v, i1) else Dim2(i0, v)
    }

    static function StrideOffset(index: Dim2, strides: Dim2): (r: nat)
      ensures r == Dot(index.Slice(), strides.Slice())
    {
      Unfold2(index.i0, index.i1, strides.i0, strides.i1);
      index.At(1) * strides.At(1) + index.At(0) * strides.At(0)
    }

    /** The fastest-varying extent: the axis whose stride is 1. */
    function XAxisValue(): (x: Ix)
      ensures x == Slice()[|Slice()| - 1]
      ensures Strides().At(1) == 1
    {
      i1
    }

    /** The row count: one step along it skips a whole row. */
    function YAxisValue(): (y: Ix)
      ensures y == Slice()[|Slice()| - 2]
      ensures Strides().At(0) == XAxisValue()
      ensures y * XAxisValue() == NumberOfElements()
    {
      i0
    }
  }

  // ---------------------------------------------------------------------------
  // Rank 3
  // ---------------------------------------------------------------------------

  /** `Dim<[Ix; 3]>`: extents (layers, rows, columns). */
  datatype Dim3 = Dim3(i0: Ix, i1: Ix, i2: Ix)
  {
    /** `slice()`: the stored array, one entry per axis; it determines the
        shape. */
    function Slice(): (s: seq<Ix>)
      ensures |s| == 3 && Dim3(s[0], s[1], s[2]) == this
    {
      [i0, i1, i2]
    }

    /** `From<Ix3>`: the triple's components in order. */
    static function FromTriple(size: Ix3): (d: Dim3)
      ensures d.Slice() == [size.0, size.1, size.2]
    {
      Dim3(size.0, size.1, size.2)
    }

    /** `From<[Ix; 3]>`. */
    static function FromArray(size: Array3): (d: Dim3)
      ensures d.Slice() == size
    {
      Dim3(size[0], size[1], size[2])
    }

    function NumberOfDimensions(): (n: nat)
      ensures n == |Slice()|
    {
      3
    }

    /** Bounds-checked read of the stored array: `None` stands for the
        panic of an out-of-range read. */
    function Checked(k: nat): (v: Option<Ix>)
      ensures v.Some? <==> k < |Slice()|
      ensures v.Some? ==> v.value == Slice()[k]
    {
      if k == 0 then Some(i0)
      else if k == 1 then Some(i1)
      else if k == 2 then Some(i2)
      else None
    }

    /** The element count as the source computes it: it reads positions 3, 1
        and 0 of the three-element array. `None` is the panic. */
    function NumberOfElementsAsWritten(): (n: Option<nat>)
      ensures n == None
    {
      MulOrPanic(MulOrPanic(Checked(3), Checked(1)), Checked(0))
    }

    /** The element count as intended: the product of the three extents. */
    function NumberOfElements(): (n: nat)
      ensures n == Product(Slice())
    {
      Unfold3(i0, i1, i2, 0, 0, 0);
      i0 * i1 * i2
    }

    /** The external pattern keeps the storage order (not reversed). */
    function AsPattern(): (p: Ix3)
      ensures FromTriple(p) == this
    {
      (i0, i1, i2)
    }

    function Strides(): (s: Dim3)
      ensures s.Slice() == RowMajorStrides(Slice())
    {
      Unfold3(i0, i1, i2, 0, 0, 0);
      Dim3(i1 * i2, i2, 1)
    }

    /** `Index<usize>`: reads axis k; any other k panics. */
    function At(k: nat): (v: Ix)
      requires k < NumberOfDimensions()
      ensures v == Slice()[k]
    {
      if k == 0 then i0 else if k == 1 then i1 else i2
    }

    /** `IndexMut<usize>`: the value after writing `v` to axis k. */
    function SetAxis(k: nat, v: Ix): (d: Dim3)
      requires k < NumberOfDimensions()
      ensures d.At(k) == v
      ensures forall j :: 0 <= j < NumberOfDimensions() && j != k ==> d.At(j) == At(j)
    {
      if k == 0 then Dim3(v, i1, i2) else if k == 1 then Dim3(i0, v, i2) else Dim3(i0, i1, v)
    }

    static function StrideOffset(index: Dim3, strides: Dim3): (r: nat)
      ensures r == Dot(index.Slice(), strides.Slice())
    {
      Unfold3(index.i0, index.i1, index.i2, strides.i0, strides.i1, strides.i2);
      index.At(0) * strides.At(0) + index.At(1) * strides.At(1) + index.At(2) * strides.At(2)
    }

    /** The fastest-varying extent: the axis whose stride is 1. */
    function XAxisValue(): (x: Ix)
      ensures x == Slice()[|Slice()| - 1]
      ensures Strides().At(2) == 1
    {
      i2
    }

    /** The second-fastest extent: one step along it skips a whole row. */
    function YAxisValue(): (y: Ix)
      ensures y == Slice()[|Slice()| - 2]
      ensures Strides().At(1) == XAxisValue()
    {
      i1
    }
  }

  // ---------------------------------------------------------------------------
  // The GridDimension capability over the three ranks
  // ---------------------------------------------------------------------------

  /** The `GridDimension` implementations, as a closed sum: a value of this
      type is a shape of one of the three ranks. */
  datatype GridDimension = OneD(d1: Dim1) | TwoD(d2: Dim2) | ThreeD(d3: Dim3)
  {
    /** `NDIM`: the rank, which agrees with `number_of_dimensions()`. */
    function Rank(): (r: nat)
      ensures 1 <= r <= 3
      ensures r == match this
        case OneD(d) => d.NumberOfDimensions()
        case TwoD(d) => d.NumberOfDimensions()
        case ThreeD(d) => d.NumberOfDimensions()
    {
      match this
      case OneD(_) => 1
      case TwoD(_) => 2
      case ThreeD(_) => 3
    }

    function Slice(): (s: seq<Ix>)
      ensures |s| == Rank()
    {
      match this
      case OneD(d) => d.Slice()
      case TwoD(d) => d.Slice()
      case ThreeD(d) => d.Slice()
    }

    function NumberOfElements(): (n: nat)
      ensures n == Product(Slice())
    {
      match this
      case OneD(d) => d.NumberOfElements()
      case TwoD(d) => d.NumberOfElements()
      case ThreeD(d) => d.NumberOfElements()
    }

    function Strides(): (s: GridDimension)
      ensures s.Rank() == Rank()
      ensures s.Slice() == RowMajorStrides(Slice())
    {
      match this
      case OneD(d) => OneD(d.Strides())
      case TwoD(d) => TwoD(d.Strides())
      case ThreeD(d) => ThreeD(d.Strides())
    }

    static function StrideOffset(index: GridDimension, strides: GridDimension): (r: nat)
      requires index.Rank() == strides.Rank()
      ensures r == Dot(index.Slice(), strides.Slice())
    {
      match index
      case OneD(i) => Dim1.StrideOffset(i, strides.d1)
      case TwoD(i) => Dim2.StrideOffset(i, strides.d2)
      case ThreeD(i) => Dim3.StrideOffset(i, strides.d3)
    }

    /** `x_axis_value()`: the extent of the innermost axis, the last one. */
    function XAxisValue(): (x: Ix)
      ensures x == Slice()[Rank() - 1]
    {
      match this
      case OneD(d) => d.XAxisValue()
      case TwoD(d) => d.XAxisValue()
      case ThreeD(d) => d.XAxisValue()
    }

    /** `y_axis_value()`: the extent of the axis outside the innermost one,
        or 1 for a rank-1 shape, which has a single row. */
    function YAxisValue(): (y: Ix)
      ensures y == if Rank() == 1 then 1 else Slice()[Rank() - 2]
    {
      match this
      case OneD(d) => d.YAxisValue()
      case TwoD(d) => d.YAxisValue()
      case ThreeD(d) => d.YAxisValue()
    }

    /** `impl<D: GridDimension> GridIndex<D> for D`: this shape used as an
        index into `dim`, linearised against `dim`'s own strides. The offset
        is the row-major one, and an in-bounds index lands inside the grid. */
    function LinSpaceIndexUnchecked(dim: GridDimension): (r: nat)
      requires Rank() == dim.Rank()
      ensures r == Offset(Slice(), dim.Slice())
      ensures InBounds(Slice(), dim.Slice()) ==> r < dim.NumberOfElements()
    {
      var r := StrideOffset(this, dim.Strides());
      assert InBounds(Slice(), dim.Slice()) ==> r < dim.NumberOfElements() by {
        if InBounds(Slice(), dim.Slice()) {
          OffsetBelowProduct(Slice(), dim.Slice());
        }
      }
      r
    }
  }

  /** Shapes of the same rank are equal exactly when their arrays are. */
  lemma SliceInjective(a: GridDimension, b: GridDimension)
    requires a.Rank() == b.Rank() && a.Slice() == b.Slice()
    ensures a == b
  {
    match a
    case OneD(x) => assert x.Slice()[0] == b.d1.Slice()[0];
    case TwoD(x) =>
      assert x.Slice()[0] == b.d2.Slice()[0] && x.Slice()[1] == b.d2.Slice()[1];
    case ThreeD(x) =>
      assert x.Slice()[0] == b.d3.Slice()[0] && x.Slice()[1] == b.d3.Slice()[1];
      assert x.Slice()[2] == b.d3.Slice()[2];
  }

  // ---------------------------------------------------------------------------
  // GridIndex for the natural index representations
  // ---------------------------------------------------------------------------

  /** `impl GridIndex<Dim<[Ix; 1]>> for Ix`: with stride 1 the offset is
      the index itself. */
  function LinSpaceIndexOfIx(index: Ix, dim: Dim1): (r: nat)
    ensures r == index
  {
    Dim1.StrideOffset(Dim1.FromIx(index), dim.Strides())
  }

  /** `impl GridIndex<Dim<[Ix; 2]>> for Ix2`: row times width plus column. */
  function LinSpaceIndexOfPair(index: Ix2, dim: Dim2): (r: nat)
    ensures r == index.0 * dim.XAxisValue() + index.1
  {
    Dim2.StrideOffset(Dim2.FromPair(index), dim.Strides())
  }

  /** `impl GridIndex<Dim<[Ix; 3]>> for Ix3`: the mixed-radix value of the
      triple, outer axis first. */
  function LinSpaceIndexOfTriple(index: Ix3, dim: Dim3): (r: nat)
    ensures r == (index.0 * dim.YAxisValue() + index.1) * dim.XAxisValue() + index.2
  {
    Dim3.StrideOffset(Dim3.FromTriple(index), dim.Strides())
  }

  /** The index representations accepted for pixel lookup, as a closed sum:
      a shape-typed index of any rank, a bare count, a pair or a triple. */
  datatype GridIndex = Shaped(shape: GridDimension) | Count(i: Ix) | Pair(p: Ix2) | Triple(t: Ix3)
  {
    function Rank(): nat
    {
      match this
      case Shaped(s) => s.Rank()
      case Count(_) => 1
      case Pair(_) => 2
      case Triple(_) => 3
    }

    /** The index's components in order, one per axis. */
    function Components(): seq<Ix>
    {
      match this
      case Shaped(s) => s.Slice()
      case Count(i) => [i]
      case Pair(p) => [p.0, p.1]
      case Triple(t) => [t.0, t.1, t.2]
    }

    /** The shape-typed index this representation converts to (`Dim::from`):
        same rank, and its axes are the index's components in order. */
    function ToShape(): (s: GridDimension)
      ensures s.Rank() == Rank()
      ensures s.Slice() == Components()
    {
      match this
      case Shaped(s) => s
      case Count(i) => OneD(Dim1.FromIx(i))
      case Pair(p) => TwoD(Dim2.FromPair(p))
      case Triple(t) => ThreeD(Dim3.FromTriple(t))
    }

    /** `lin_space_index_unchecked`, dispatched on the representation. Every
        representation gives the offset of its shape-typed form. */
    function LinSpaceIndexUnchecked(dim: GridDimension): (r: nat)
      requires Rank() == dim.Rank()
      ensures r == ToShape().LinSpaceIndexUnchecked(dim)
    {
      match this
      case Shaped(s) => s.LinSpaceIndexUnchecked(dim)
      case Count(i) => LinSpaceIndexOfIx(i, dim.d1)
      case Pair(p) => LinSpaceIndexOfPair(p, dim.d2)
      case Triple(t) => LinSpaceIndexOfTriple(t, dim.d3)
    }
  }

  // ---------------------------------------------------------------------------
  // Properties
  // ---------------------------------------------------------------------------

  /** `stride_offset` is a dot product, so its two arguments may be swapped:
      the tests pass the strides first. */
  lemma StrideOffsetSymmetric(a: GridDimension, b: GridDimension)
    requires a.Rank() == b.Rank()
    ensures GridDimension.StrideOffset(a, b) == GridDimension.StrideOffset(b, a)
  {
    DotSymmetric(a.Slice(), b.Slice());
  }

  /** Strides of every rank obey the row-major law: last stride 1, and each
      stride is the next extent times the next stride. */
  lemma StridesRowMajor(d: GridDimension)
    ensures d.Strides().Slice()[d.Rank() - 1] == 1
    ensures forall k :: 0 <= k < d.Rank() - 1 ==>
      d.Strides().Slice()[k] == d.Slice()[k + 1] * d.Strides().Slice()[k + 1]
  {
    StridesAreRowMajor(d.Slice());
  }

  /** Distinct in-bounds indices, in any representation, address distinct
      cells. */
  lemma LinSpaceIndexInjective(a: GridIndex, b: GridIndex, dim: GridDimension)
    requires a.Rank() == dim.Rank() && b.Rank() == dim.Rank()
    requires InBounds(a.ToShape().Slice(), dim.Slice())
    requires InBounds(b.ToShape().Slice(), dim.Slice())
    requires a.LinSpaceIndexUnchecked(dim) == b.LinSpaceIndexUnchecked(dim)
    ensures a.ToShape() == b.ToShape()
  {
    OffsetInjective(a.ToShape().Slice(), b.ToShape().Slice(), dim.Slice());
    SliceInjective(a.ToShape(), b.ToShape());
  }

  /** A bare count and its `Dim` form give the same offset. */
  lemma IxIndexMatchesShape(index: Ix, dim: Dim1)
    ensures LinSpaceIndexOfIx(index, dim)
         == OneD(Dim1.FromIx(index)).LinSpaceIndexUnchecked(OneD(dim))
  {
  }

  /** A pair and its `Dim` form give the same offset. */
  lemma PairIndexMatchesShape(index: Ix2, dim: Dim2)
    ensures LinSpaceIndexOfPair(index, dim)
         == TwoD(Dim2.FromPair(index)).LinSpaceIndexUnchecked(TwoD(dim))
  {
  }

  /** A triple and its `Dim` form give the same offset. */
  lemma TripleIndexMatchesShape(index: Ix3, dim: Dim3)
    ensures LinSpaceIndexOfTriple(index, dim)
         == ThreeD(Dim3.FromTriple(index)).LinSpaceIndexUnchecked(ThreeD(dim))
  {
  }

  /** The rank-3 element count as written never returns: position 3 of a
      three-element array is out of range for every shape. */
  lemma NumberOfElementsAsWrittenPanics(d: Dim3)
    ensures d.NumberOfElementsAsWritten() == None
    ensures d.NumberOfElements() == d.At(0) * d.At(1) * d.At(2)
  {
  }

  /** The rank-1 pattern is the array length, so it is 1 whatever the extent. */
  lemma Rank1PatternIsLength(d: Dim1)
    ensures d.AsPattern() == 1
    ensures d.AsPattern() == d.XAxisValue() <==> d.At(0) == 1
  {
  }

  /** The values the unit tests of the three ranks pin down. */
  lemma Rank1Examples()
    ensures Dim1(8).At(0) == 8
    ensures Dim1(8).Strides() == Dim1(1)
    ensures Dim1.StrideOffset(Dim1(8).Strides(), Dim1(5)) == 5
    ensures OneD(Dim1(5)).LinSpaceIndexUnchecked(OneD(Dim1(8))) == LinSpaceIndexOfIx(5, Dim1(8))
  {
  }

  lemma Rank2Examples()
    ensures Dim2(8, 3).At(0) == 8 && Dim2(8, 3).At(1) == 3
    ensures Dim2(8, 3).Strides() == Dim2(3, 1)
    ensures Dim2.StrideOffset(Dim2(8, 3).Strides(), Dim2(2, 2)) == 8
    ensures TwoD(Dim2(2, 2)).LinSpaceIndexUnchecked(TwoD(Dim2(8, 3)))
         == LinSpaceIndexOfPair((2, 2), Dim2(8, 3))
  {
  }

  lemma Rank3Examples()
    ensures Dim3(13, 8, 3).At(0) == 13 && Dim3(13, 8, 3).At(1) == 8 && Dim3(13, 8, 3).At(2) == 3
    ensures Dim3(13, 8, 3).Strides() == Dim3(8 * 3, 3, 1)
    ensures Dim3.StrideOffset(Dim3(13, 8, 3).Strides(), Dim3(2, 2, 2)) == 2 * 8 * 3 + 2 * 3 + 2 * 1
    ensures ThreeD(Dim3(2, 2, 2)).LinSpaceIndexUnchecked(ThreeD(Dim3(13, 8, 3)))
         == LinSpaceIndexOfTriple((2, 2, 2), Dim3(13, 8, 3))
  {
  }
}
