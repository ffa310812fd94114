/** `BaseRaster`: an immutable bundle of a grid dimension, the cell values in
    row-major order, an optional no-data value, a geo-transform and a time
    interval. Pixel lookup linearises an index against the dimension; the
    spatial bounds are the images of the grid's corners under the transform. */
module Rasters {
  import opened Wrappers
  import opened RowMajor
  import opened Grids
  import GeoTransforms
  import opened SpatioTemporalBounds

  /** The data container is any storage readable by linear offset; it is
      modelled as a sequence. */
  datatype BaseRaster<T> = BaseRaster(
    gridDimension: GridDimension,
    dataContainer: seq<T>,
    noDataValue: Option<T>,
    geoTransform: GeoTransforms.GeoTransform,
    temporalBounds: TimeInterval)
  {
    /** Stores its five arguments; the accessors give each of them back. */
    static function New(
      gridDimension: GridDimension,
      dataContainer: seq<T>,
      noDataValue: Option<T>,
      temporalBounds: TimeInterval,
      geoTransform: GeoTransforms.GeoTransform): (r: BaseRaster<T>)
      ensures r.Dimension() == gridDimension
      ensures r.DataContainer() == dataContainer
      ensures r.NoDataValue() == noDataValue
      ensures r.TemporalBounds() == temporalBounds
      ensures r.GeoTransform() == geoTransform
    {
      BaseRaster(gridDimension, dataContainer, noDataValue, geoTransform, temporalBounds)
    }

    /** `dimension()`: the shape given to `new`. */
    function Dimension(): (d: GridDimension)
      ensures d == gridDimension
    {
      gridDimension
    }

    /** `no_data_value()`: the no-data value given to `new`, if any. */
    function NoDataValue(): (v: Option<T>)
      ensures v == noDataValue
    {
      noDataValue
    }

    /** `data_container()`: the cell values given to `new`. */
    function DataContainer(): (c: seq<T>)
      ensures c == dataContainer
    {
      dataContainer
    }

    /** `geo_transform()`: the transform given to `new`. */
    function GeoTransform(): (g: GeoTransforms.GeoTransform)
      ensures g == geoTransform
    {
      geoTransform
    }

    /** `TemporalBounded`: the interval given to `new`, unchanged. */
    function TemporalBounds(): (t: TimeInterval)
      ensures t == temporalBounds
    {
      temporalBounds
    }

    /** `SpatialBounded`: the upper-left corner is the image of cell (0, 0),
        the transform's origin, and the lower-right corner is the image of
        the grid corner one past the last cell, (rows, columns). Lemmas
        `AxisAlignedBounds` and `BoundsMapBackToGrid` say what the corners
        are without rotation. */
    function SpatialBounds(): (b: SpatialBoundingBox2D)
      ensures b.upperLeftCoordinate == (geoTransform.upperLeftX, geoTransform.upperLeftY)
      ensures b.lowerRightCoordinate
           == geoTransform.Grid2dToCoordinate((gridDimension.YAxisValue(), gridDimension.XAxisValue()))
    {
      var topLeftCoord := geoTransform.Grid2dToCoordinate((0, 0));
      var lowerRightCoord := geoTransform.Grid2dToCoordinate(
        (gridDimension.YAxisValue(), gridDimension.XAxisValue()));
      SpatialBoundingBox2D(topLeftCoord, lowerRightCoord)
    }

    /** `GridPixelAccess`: the value stored at the row-major offset of the
        index, with no no-data substitution. The source panics when the
        offset is past the end of the container. */
    function PixelValueGrid(gridIndex: GridIndex): (v: T)
      requires gridIndex.Rank() == gridDimension.Rank()
      requires gridIndex.LinSpaceIndexUnchecked(gridDimension) < |dataContainer|
      ensures v == dataContainer[Offset(gridIndex.ToShape().Slice(), gridDimension.Slice())]
    {
      var index := gridIndex.LinSpaceIndexUnchecked(gridDimension);
      dataContainer[index]
    }
  }

  /** A raster is determined by what its accessors return: rebuilding it with
      `new` from them gives the same raster. */
  lemma NewFromAccessors<T>(r: BaseRaster<T>)
    ensures BaseRaster.New(r.Dimension(), r.DataContainer(), r.NoDataValue(),
                           r.TemporalBounds(), r.GeoTransform()) == r
  {
  }

  /** `v` lies from `start` (inclusive) to `end` (exclusive) in the direction
      of `size`. */
  predicate WithinSpan(v: real, start: real, end: real, size: real)
  {
    if size > 0.0 then start <= v < end else end < v <= start
  }

  /** Without rotation, the lower-right corner of the bounds is the origin
      moved by the grid's width in pixels along x and its height along y. */
  lemma AxisAlignedBounds<T>(r: BaseRaster<T>)
    requires r.geoTransform.IsAxisAligned()
    ensures r.SpatialBounds().lowerRightCoordinate
         == (r.geoTransform.upperLeftX + r.gridDimension.XAxisValue() as real * r.geoTransform.xPixelSize,
             r.geoTransform.upperLeftY + r.gridDimension.YAxisValue() as real * r.geoTransform.yPixelSize)
  {
    var g := r.geoTransform;
    var w, h := r.gridDimension.XAxisValue(), r.gridDimension.YAxisValue();
    var c := g.Grid2dToCoordinate((h, w));
    assert r.SpatialBounds().lowerRightCoordinate == c;
    assert c.0 == g.upperLeftX + w as real * g.xPixelSize;
    assert c.1 == g.upperLeftY + h as real * g.yPixelSize;
    assert w as real * g.xPixelSize == r.gridDimension.XAxisValue() as real * r.geoTransform.xPixelSize;
    assert h as real * g.yPixelSize == r.gridDimension.YAxisValue() as real * r.geoTransform.yPixelSize;
  }

  /** Without rotation and with non-zero pixel sizes, the inverse map sends
      the upper-left corner to cell (0, 0) and the lower-right corner to
      (rows, columns), one past the last cell. */
  lemma BoundsMapBackToGrid<T>(r: BaseRaster<T>)
    requires r.geoTransform.IsAxisAligned()
    requires r.geoTransform.xPixelSize != 0.0 && r.geoTransform.yPixelSize != 0.0
    ensures r.geoTransform.CoordinateToGrid2d(r.SpatialBounds().upperLeftCoordinate) == (0, 0)
    ensures r.geoTransform.CoordinateToGrid2d(r.SpatialBounds().lowerRightCoordinate)
         == (r.gridDimension.YAxisValue(), r.gridDimension.XAxisValue())
  {
    GeoTransforms.GridRoundTrip(r.geoTransform, 0, 0);
    GeoTransforms.GridRoundTrip(r.geoTransform, r.gridDimension.YAxisValue(), r.gridDimension.XAxisValue());
  }

  /** The upper-left corner of every cell of an axis-aligned raster lies in
      its spatial bounds, along each axis in the direction of the pixel size. */
  lemma CellCornerWithinBounds<T>(r: BaseRaster<T>, row: nat, col: nat)
    requires r.geoTransform.IsAxisAligned()
    requires r.geoTransform.xPixelSize != 0.0 && r.geoTransform.yPixelSize != 0.0
    requires row < r.gridDimension.YAxisValue() && col < r.gridDimension.XAxisValue()
    ensures WithinSpan(r.geoTransform.Grid2dToCoordinate((row, col)).0,
                       r.SpatialBounds().upperLeftCoordinate.0,
                       r.SpatialBounds().lowerRightCoordinate.0,
                       r.geoTransform.xPixelSize)
    ensures WithinSpan(r.geoTransform.Grid2dToCoordinate((row, col)).1,
                       r.SpatialBounds().upperLeftCoordinate.1,
                       r.SpatialBounds().lowerRightCoordinate.1,
                       r.geoTransform.yPixelSize)
  {
    var g := r.geoTransform;
    var b := r.SpatialBounds();
    var c := g.Grid2dToCoordinate((row, col));
    AxisAlignedBounds(r);
    StepWithinSpan(c.0, g.upperLeftX, b.lowerRightCoordinate.0, g.xPixelSize, col, r.gridDimension.XAxisValue());
    StepWithinSpan(c.1, g.upperLeftY, b.lowerRightCoordinate.1, g.yPixelSize, row, r.gridDimension.YAxisValue());
  }

  /** For k < n, the point k steps of `size` from `origin` lies within the
      span of n steps. */
  lemma StepWithinSpan(v: real, origin: real, end: real, size: real, k: nat, n: nat)
    requires k < n && size != 0.0
    requires v == origin + k as real * size && end == origin + n as real * size
    ensures WithinSpan(v, origin, end, size)
  {
    if size > 0.0 {
      assert k as real * size < n as real * size;
    } else {
      assert n as real * size < k as real * size;
    }
  }

  /** An in-bounds index into a raster whose container holds one value per
      cell meets the lookup's precondition: the lookup cannot panic. */
  lemma InBoundsIndexIsReadable<T>(r: BaseRaster<T>, gridIndex: GridIndex)
    requires gridIndex.Rank() == r.gridDimension.Rank()
    requires |r.dataContainer| == r.gridDimension.NumberOfElements()
    requires InBounds(gridIndex.ToShape().Slice(), r.gridDimension.Slice())
    ensures gridIndex.LinSpaceIndexUnchecked(r.gridDimension) < |r.dataContainer|
  {
  }

  /** Distinct in-bounds cells are stored at distinct positions of the
      container. */
  lemma DistinctCellsDistinctPositions<T>(r: BaseRaster<T>, a: GridIndex, b: GridIndex)
    requires a.Rank() == r.gridDimension.Rank() && b.Rank() == r.gridDimension.Rank()
    requires InBounds(a.ToShape().Slice(), r.gridDimension.Slice())
    requires InBounds(b.ToShape().Slice(), r.gridDimension.Slice())
    requires a.ToShape() != b.ToShape()
    ensures a.LinSpaceIndexUnchecked(r.gridDimension) != b.LinSpaceIndexUnchecked(r.gridDimension)
  {
    if a.LinSpaceIndexUnchecked(r.gridDimension) == b.LinSpaceIndexUnchecked(r.gridDimension) {
      LinSpaceIndexInjective(a, b, r.gridDimension);
      assert false;
    }
  }

  /** A pair and the equivalent `Dim` index read the same pixel. */
  lemma PairAndShapeReadSamePixel<T>(r: BaseRaster<T>, index: Ix2)
    requires r.gridDimension.TwoD?
    requires LinSpaceIndexOfPair(index, r.gridDimension.d2) < |r.dataContainer|
    ensures Pair(index).LinSpaceIndexUnchecked(r.gridDimension) < |r.dataContainer|
    ensures r.PixelValueGrid(Pair(index))
         == r.PixelValueGrid(Shaped(TwoD(Dim2.FromArray([index.0, index.1]))))
  {
  }

  /** The raster tests' 4 x 5 raster of 9s with the unit transform: it reads
      9 at (2, 2) through a pair and through a `Dim`, as the tests check. The
      span (1, 1) to (6, 5) is derived here; the tests do not check it. */
  lemma SimpleRaster2dExample()
    ensures var r := BaseRaster.New(
              TwoD(Dim2.FromArray([4, 5])), seq(20, _ => 9), None,
              TimeInterval(0, 0), GeoTransforms.GeoTransform.FromGdal([1.0, 1.0, 0.0, 1.0, 0.0, 1.0]));
            && Pair((2, 2)).LinSpaceIndexUnchecked(r.gridDimension) < |r.dataContainer|
            && r.PixelValueGrid(Pair((2, 2))) == 9
            && r.PixelValueGrid(Shaped(TwoD(Dim2.FromArray([2, 2])))) == 9
            && r.SpatialBounds() == SpatialBoundingBox2D((1.0, 1.0), (6.0, 5.0))
  {
    var r := BaseRaster.New(
      TwoD(Dim2.FromArray([4, 5])), seq(20, _ => 9), None,
      TimeInterval(0, 0), GeoTransforms.GeoTransform.FromGdal([1.0, 1.0, 0.0, 1.0, 0.0, 1.0]));
    assert Pair((2, 2)).LinSpaceIndexUnchecked(r.gridDimension) == 12;
  }
}
