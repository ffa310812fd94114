/** The affine geo-transform between grid cells (row, column) and world
    coordinates (x, y), in GDAL's six-coefficient layout.

    Coefficients are modelled as `real`: the laws below hold in exact
    arithmetic, not for 64-bit floating point. */
module GeoTransforms {

  /** GDAL's interchange array: origin x, pixel width, x rotation, origin y,
      y rotation, pixel height. */
  type GdalGeoTransform = a: seq<real> | |a| == 6 witness [0.0, 0.0, 0.0, 0.0, 0.0, 0.0]

  datatype GeoTransform = GeoTransform(
    upperLeftX: real,
    xPixelSize: real,
    xRotation: real,
    upperLeftY: real,
    yRotation: real,
    yPixelSize: real)
  {
    /** Builds a transform from its coefficients, given in GDAL order. */
    static function New(
      upperLeftX: real, xPixelSize: real, xRotation: real,
      upperLeftY: real, yRotation: real, yPixelSize: real): (g: GeoTransform)
      ensures g.ToGdal() == [upperLeftX, xPixelSize, xRotation, upperLeftY, yRotation, yPixelSize]
    {
      GeoTransform(upperLeftX, xPixelSize, xRotation, upperLeftY, yRotation, yPixelSize)
    }

    /** `From<GdalGeoTransform>`. */
    static function FromGdal(a: GdalGeoTransform): (g: GeoTransform)
      ensures g.ToGdal() == a
    {
      New(a[0], a[1], a[2], a[3], a[4], a[5])
    }

    /** `Into<GdalGeoTransform>`: the array determines the transform, read
        back in GDAL order. */
    function ToGdal(): (a: GdalGeoTransform)
      ensures GeoTransform(a[0], a[1], a[2], a[3], a[4], a[5]) == this
    {
      [upperLeftX, xPixelSize, xRotation, upperLeftY, yRotation, yPixelSize]
    }

    /** The forward map. The grid index is (row, column); the result is (x, y).
        Cell (0, 0) maps to the origin; without rotation, x depends on the
        column only and y on the row only. */
    function Grid2dToCoordinate(gridIndex: (nat, nat)): (c: (real, real))
      ensures gridIndex == (0, 0) ==> c == (upperLeftX, upperLeftY)
      ensures IsAxisAligned() ==> c.0 == upperLeftX + gridIndex.1 as real * xPixelSize
      ensures IsAxisAligned() ==> c.1 == upperLeftY + gridIndex.0 as real * yPixelSize
    {
      var (gridIndexY, gridIndexX) := gridIndex;
      assert gridIndexY == 0 ==> gridIndexY as real * xRotation == 0.0 == gridIndexY as real * yPixelSize;
      assert gridIndexX == 0 ==> gridIndexX as real * xPixelSize == 0.0 == gridIndexX as real * yRotation;
      assert IsAxisAligned() ==>
        gridIndexY as real * xRotation == 0.0 && gridIndexX as real * yRotation == 0.0;
      (upperLeftX + gridIndexX as real * xPixelSize + gridIndexY as real * xRotation,
       upperLeftY + gridIndexX as real * yRotation + gridIndexY as real * yPixelSize)
    }

    /** Neither rotation term is set: the grid axes are the world axes. */
    predicate IsAxisAligned()
    {
      xRotation == 0.0 && yRotation == 0.0
    }

    /** The inverse map for axis-aligned transforms (the source panics on a
        rotated one). Each component is the quotient of the distance from the
        origin by the pixel size, truncated toward zero and cast to `usize`,
        so it is the floor of a non-negative quotient and 0 for a negative one. */
    function CoordinateToGrid2d(coordinate: (real, real)): (r: (nat, nat))
      requires IsAxisAligned()
      requires xPixelSize != 0.0 && yPixelSize != 0.0
      ensures IsTruncatedQuotient(r.0, (coordinate.1 - upperLeftY) / yPixelSize)
      ensures IsTruncatedQuotient(r.1, (coordinate.0 - upperLeftX) / xPixelSize)
    {
      var (coordX, coordY) := coordinate;
      var gridXIndex := AsUsize((coordX - upperLeftX) / xPixelSize);
      var gridYIndex := AsUsize((coordY - upperLeftY) / yPixelSize);
      (gridYIndex, gridXIndex)
    }
  }

  /** `n` is what `q as usize` gives for a finite `q`: the greatest natural
      not above `q` when `q` is non-negative, and 0 otherwise. */
  predicate IsTruncatedQuotient(n: nat, q: real)
  {
    if q < 0.0 then n == 0 else n as real <= q < n as real + 1.0
  }

  /** `as usize` on a finite value: truncation toward zero, with negative
      values saturating to 0. */
  function AsUsize(q: real): (n: nat)
    ensures IsTruncatedQuotient(n, q)
  {
    if q <= 0.0 then 0 else q.Floor
  }

  /** The natural number a truncated quotient stands for is unique. */
  lemma TruncatedQuotientUnique(m: nat, n: nat, q: real)
    requires IsTruncatedQuotient(m, q) && IsTruncatedQuotient(n, q)
    ensures m == n
  {
  }

  /** The array conversions are inverse to each other, in both directions. */
  lemma GdalRoundTrip(g: GeoTransform)
    ensures GeoTransform.FromGdal(g.ToGdal()) == g
  {
  }

  lemma GdalArrayRoundTrip(a: GdalGeoTransform)
    ensures GeoTransform.FromGdal(a).ToGdal() == a
  {
  }

  /** Cell (0, 0) maps to the upper-left corner, and one step along a grid
      axis moves by that axis's column of the affine matrix. */
  lemma ForwardMapIsAffine(g: GeoTransform, row: nat, col: nat)
    ensures g.Grid2dToCoordinate((0, 0)) == (g.upperLeftX, g.upperLeftY)
    ensures g.Grid2dToCoordinate((row, col + 1)).0 == g.Grid2dToCoordinate((row, col)).0 + g.xPixelSize
    ensures g.Grid2dToCoordinate((row, col + 1)).1 == g.Grid2dToCoordinate((row, col)).1 + g.yRotation
    ensures g.Grid2dToCoordinate((row + 1, col)).0 == g.Grid2dToCoordinate((row, col)).0 + g.xRotation
    ensures g.Grid2dToCoordinate((row + 1, col)).1 == g.Grid2dToCoordinate((row, col)).1 + g.yPixelSize
  {
  }

  /** Mapping a cell to its upper-left corner and back recovers the cell. */
  lemma GridRoundTrip(g: GeoTransform, row: nat, col: nat)
    requires g.IsAxisAligned()
    requires g.xPixelSize != 0.0 && g.yPixelSize != 0.0
    ensures g.CoordinateToGrid2d(g.Grid2dToCoordinate((row, col))) == (row, col)
  {
    var (x, y) := g.Grid2dToCoordinate((row, col));
    assert x - g.upperLeftX == col as real * g.xPixelSize;
    assert y - g.upperLeftY == row as real * g.yPixelSize;
    assert (x - g.upperLeftX) / g.xPixelSize == col as real;
    assert (y - g.upperLeftY) / g.yPixelSize == row as real;
    var r := g.CoordinateToGrid2d((x, y));
    TruncatedQuotientUnique(r.0, row, row as real);
    TruncatedQuotientUnique(r.1, col, col as real);
  }

  /** `coord` lies in the k-th pixel along an axis with origin `origin` and
      pixel size `size`; a negative size runs the axis backwards. */
  predicate InPixel(coord: real, origin: real, size: real, k: nat)
  {
    if size > 0.0 then origin + k as real * size <= coord < origin + (k + 1) as real * size
    else origin + (k + 1) as real * size < coord <= origin + k as real * size
  }

  lemma PixelQuotient(coord: real, origin: real, size: real, k: nat)
    requires size != 0.0 && InPixel(coord, origin, size, k)
    ensures k as real <= (coord - origin) / size < (k + 1) as real
  {
    var q := (coord - origin) / size;
    assert q * size == coord - origin;
  }

  /** Any coordinate inside a cell, not only its corner, maps back to that
      cell: the inverse floors rather than rounds. */
  lemma CoordinateInsideCell(g: GeoTransform, coordinate: (real, real), row: nat, col: nat)
    requires g.IsAxisAligned()
    requires g.xPixelSize != 0.0 && g.yPixelSize != 0.0
    requires InPixel(coordinate.0, g.upperLeftX, g.xPixelSize, col)
    requires InPixel(coordinate.1, g.upperLeftY, g.yPixelSize, row)
    ensures g.CoordinateToGrid2d(coordinate) == (row, col)
  {
    PixelQuotient(coordinate.0, g.upperLeftX, g.xPixelSize, col);
    PixelQuotient(coordinate.1, g.upperLeftY, g.yPixelSize, row);
    var r := g.CoordinateToGrid2d(coordinate);
    TruncatedQuotientUnique(r.0, row, (coordinate.1 - g.upperLeftY) / g.yPixelSize);
    TruncatedQuotientUnique(r.1, col, (coordinate.0 - g.upperLeftX) / g.xPixelSize);
  }

  /** A coordinate before the origin along an axis gives index 0 on that
      axis (the saturating cast), not a negative floor. */
  lemma CoordinateBeforeOrigin(g: GeoTransform, coordinate: (real, real))
    requires g.IsAxisAligned()
    requires g.xPixelSize > 0.0 && g.yPixelSize != 0.0
    requires coordinate.0 < g.upperLeftX
    ensures g.CoordinateToGrid2d(coordinate).1 == 0
  {
    var q := (coordinate.0 - g.upperLeftX) / g.xPixelSize;
    assert q * g.xPixelSize < 0.0;
  }

  /** The unit transform [1, 1, 0, 1, 0, 1] that the raster tests build:
      origin (1, 1), unit pixels. The two values below are derived here; the
      tests do not check them. */
  lemma UnitTransformExample()
    ensures GeoTransform.FromGdal([1.0, 1.0, 0.0, 1.0, 0.0, 1.0]).Grid2dToCoordinate((0, 0)) == (1.0, 1.0)
    ensures GeoTransform.FromGdal([1.0, 1.0, 0.0, 1.0, 0.0, 1.0]).CoordinateToGrid2d((1.0, 1.0)) == (0, 0)
  {
    var g := GeoTransform.FromGdal([1.0, 1.0, 0.0, 1.0, 0.0, 1.0]);
    GridRoundTrip(g, 0, 0);
  }
}
