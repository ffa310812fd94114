# Raster grid indexing and geo-transform, in Dafny

This project models the core of a small Rust library for gridded, georeferenced
raster data. The core has three parts:

- **Grid shapes** (`Dim<[Ix; N]>` for ranks 1, 2 and 3). A shape stores one
  extent per axis, outer axis first. It derives a row-major stride table
  (`strides`). It linearises a shape-typed index, a bare count, a pair or a
  triple into a storage offset (`stride_offset`, `lin_space_index_unchecked`).
- **The affine geo-transform.** It has six coefficients in GDAL order. It maps
  a grid cell (row, column) to a world coordinate (x, y). For an axis-aligned
  transform it also maps a world coordinate back to a cell.
- **`BaseRaster`.** This is an immutable bundle of a shape, the cell values, an
  optional no-data value, a geo-transform and a time interval. It reads pixels
  by linear offset and reports its spatial and temporal bounds.

All three parts are pure except `IndexMut` on a shape, which writes one axis in
place. The model uses datatypes and functions, and writes `IndexMut` as a
functional update (`SetAxis`):

| file | module | models |
|---|---|---|
| `grid_dimension.dfy` | `Grids` | `src/grid_dimension.rs` and the index aliases of `src/lib.rs` |
| `row_major.dfy` | `RowMajor` | rank-independent reference definitions for the shapes: product of extents, row-major strides, dot product, in-bounds predicate |
| `geo_transform.dfy` | `GeoTransforms` | `src/geo_transform.rs` |
| `raster.dfy` | `Rasters` | `src/raster.rs` |
| `spatio_temporal_bounds.dfy` | `SpatioTemporalBounds` | the value types of `src/spatio_temporal_bounds.rs` |
| `wrappers.dfy` | `Wrappers` | Rust's `Option` |

Design choices:

- **Rank.** The source fixes the rank in the type. The model has one datatype
  per rank, `Dim1`, `Dim2` and `Dim3`, with the members of each `impl` block.
- **Traits.** Two traits stand for closed sets of implementations:
  - `GridDimension` is implemented by the three ranks.
  - `GridIndex<D>` is implemented by a `Dim`, `usize`, `(usize, usize)` and
    `(usize, usize, usize)`.

  The model turns each trait into a sum type of the same name. Rust's type
  checker makes the rank of an index agree with the rank of its shape. In the
  model this agreement is a precondition.
- **Number types.** `usize` is `nat`. `f64` is `real`.
- **Panics.** Each panic is a precondition, with one exception: the as-written
  rank-3 element count. There a panic is `None`, so that the defect can be
  stated.

Three behaviours of the code that are easy to misread. The model follows the
code in each:

- **`as_pattern`.** Only rank 2 reverses the axis order, giving
  (x value, y value). Rank 3 keeps the storage order. Rank 1 returns the
  length of the stored array, which is always 1, instead of the extent.
- **`coordinate_to_grid_2d`.** The quotient is truncated toward zero and then
  cast with `as usize`, which saturates negative values to 0. This agrees
  with the floor only for a non-negative quotient; a coordinate before the
  origin gives index 0, not a negative index.
- **Rank-3 `number_of_elements`.** The code reads position 3 of the
  three-element array, so it cannot return the product of the three extents
  (see Findings).

## Model

| member | source | states |
|---|---|---|
| `RowMajor.DotSymmetric` | src/grid_dimension.rs:210-212 | the dot product behind `stride_offset` is symmetric in its two vectors |
| `RowMajor.StrideIsInnerProduct` | src/grid_dimension.rs:204-206 | stride k of the row-major table is the product of the extents after axis k |
| `RowMajor.StridesAreRowMajor` | src/grid_dimension.rs:204-206 | the row-major law for any rank: last stride 1, stride[k] = extent[k+1] * stride[k+1] |
| `RowMajor.OffsetBelowProduct` | src/grid_dimension.rs:37-39 | an index with every axis below its extent, linearised against the row-major strides, is below the product of the extents |
| `RowMajor.OffsetInjective` | src/grid_dimension.rs:37-39 | two in-bounds indices with the same row-major offset are equal |
| `Grids.Dim1.FromIx` | src/grid_dimension.rs:78-82 | `From<Ix>` stores the count as the single axis |
| `Grids.Dim1.Slice` | src/grid_dimension.rs:123-125 | `slice()` has one entry per axis and determines the shape |
| `Grids.Dim1.NumberOfDimensions` | src/grid_dimension.rs:111-113 | the rank is the length of the stored array |
| `Grids.Dim1.NumberOfElements` | src/grid_dimension.rs:114-116 | the element count is the product of the (single) extent |
| `Grids.Dim1.AsPattern` | src/grid_dimension.rs:117-119 | the rank-1 pattern is the array length (the rank), not the extent |
| `Grids.Dim1.Strides` | src/grid_dimension.rs:120-122 | the strides are the row-major table of the extents |
| `Grids.Dim1.StrideOffset` | src/grid_dimension.rs:126-128 | the offset is the dot product of index and strides |
| `Grids.Dim1.XAxisValue` | src/grid_dimension.rs:129-131 | the x value is the last extent, the axis of stride 1 |
| `Grids.Dim1.YAxisValue` | src/grid_dimension.rs:132-134 | the y value is 1, so y times x is the element count |
| `Grids.Dim1.At` | src/grid_dimension.rs:137-142 | `index(k)` reads axis k; k beyond the rank panics (precondition) |
| `Grids.Dim1.SetAxis` | src/grid_dimension.rs:144-148 | writing through `index_mut(k)` sets axis k and leaves every other axis unchanged |
| `Grids.Dim2.FromPair` | src/grid_dimension.rs:84-88 | `From<Ix2>` keeps the pair's component order |
| `Grids.Dim2.FromArray` | src/grid_dimension.rs:96-100 | `From<[Ix; 2]>` stores the array unchanged |
| `Grids.Dim2.Slice` | src/grid_dimension.rs:165-167 | `slice()` has one entry per axis and determines the shape |
| `Grids.Dim2.NumberOfDimensions` | src/grid_dimension.rs:153-155 | the rank is the length of the stored array |
| `Grids.Dim2.NumberOfElements` | src/grid_dimension.rs:156-158 | the element count is the product of the extents |
| `Grids.Dim2.AsPattern` | src/grid_dimension.rs:159-161 | the pattern is (x value, y value): the stored axes in reverse order |
| `Grids.Dim2.Strides` | src/grid_dimension.rs:162-164 | the strides are the row-major table of the extents, [d1, 1] |
| `Grids.Dim2.StrideOffset` | src/grid_dimension.rs:168-170 | the offset is the dot product of index and strides |
| `Grids.Dim2.XAxisValue` | src/grid_dimension.rs:171-173 | the x value is the last extent, the axis of stride 1 |
| `Grids.Dim2.YAxisValue` | src/grid_dimension.rs:174-176 | the y value is the second-to-last extent; its stride is the x value and y times x is the element count |
| `Grids.Dim2.At` | src/grid_dimension.rs:179-184 | `index(k)` reads axis k; k beyond the rank panics (precondition) |
| `Grids.Dim2.SetAxis` | src/grid_dimension.rs:186-190 | writing through `index_mut(k)` sets axis k and leaves the other axis unchanged |
| `Grids.Dim3.FromTriple` | src/grid_dimension.rs:90-94 | `From<Ix3>` keeps the triple's component order |
| `Grids.Dim3.FromArray` | src/grid_dimension.rs:102-106 | `From<[Ix; 3]>` stores the array unchanged |
| `Grids.Dim3.Slice` | src/grid_dimension.rs:207-209 | `slice()` has one entry per axis and determines the shape |
| `Grids.Dim3.NumberOfDimensions` | src/grid_dimension.rs:195-197 | the rank is the length of the stored array |
| `Grids.Dim3.Checked` | src/grid_dimension.rs:199 | a bounds-checked array read succeeds exactly for positions below 3 and returns that axis |
| `Grids.Dim3.NumberOfElementsAsWritten` | src/grid_dimension.rs:198-200 | the element count as written, `ix()[3] * ix()[1] * ix()[0]` with bounds-checked reads, panics for every shape (see Findings) |
| `Grids.Dim3.NumberOfElements` | src/grid_dimension.rs:198-200 | corrected element count: the product of the three extents (see Findings) |
| `Grids.Dim3.AsPattern` | src/grid_dimension.rs:201-203 | the pattern keeps storage order: converting it back with `From<Ix3>` gives the same shape |
| `Grids.Dim3.Strides` | src/grid_dimension.rs:204-206 | the strides are the row-major table of the extents, [d1*d2, d2, 1] |
| `Grids.Dim3.StrideOffset` | src/grid_dimension.rs:210-212 | the offset is the dot product of index and strides |
| `Grids.Dim3.XAxisValue` | src/grid_dimension.rs:213-215 | the x value is the last extent, the axis of stride 1 |
| `Grids.Dim3.YAxisValue` | src/grid_dimension.rs:216-218 | the y value is the second-to-last extent, whose stride is the x value |
| `Grids.Dim3.At` | src/grid_dimension.rs:221-226 | `index(k)` reads axis k; k beyond the rank panics (precondition) |
| `Grids.Dim3.SetAxis` | src/grid_dimension.rs:228-232 | writing through `index_mut(k)` sets axis k and leaves the other axes unchanged |
| `Grids.GridDimension.Rank` | src/grid_dimension.rs:17 | `NDIM` is 1, 2 or 3 and agrees with `number_of_dimensions()` of the shape |
| `Grids.GridDimension.Slice` | src/grid_dimension.rs:22 | for every rank, `slice()` has exactly `NDIM` entries |
| `Grids.GridDimension.NumberOfElements` | src/grid_dimension.rs:20 | for every rank, the element count is the product of the extents; rank 3 uses the corrected count (see Findings) |
| `Grids.GridDimension.XAxisValue` | src/grid_dimension.rs:24 | for every rank, `x_axis_value()` is the last extent |
| `Grids.GridDimension.YAxisValue` | src/grid_dimension.rs:25 | for every rank, `y_axis_value()` is the second-to-last extent, or 1 for rank 1 |
| `Grids.GridDimension.Strides` | src/grid_dimension.rs:21 | for every rank, `strides()` keeps the rank and is the row-major table of the extents |
| `Grids.GridDimension.StrideOffset` | src/grid_dimension.rs:23 | for every rank, `stride_offset` is the dot product of its two same-rank arguments |
| `Grids.GridDimension.LinSpaceIndexUnchecked` | src/grid_dimension.rs:37-39 | a `Dim` used as an index gives its row-major offset in `dim`, which is below the element count when the index is in bounds |
| `Grids.LinSpaceIndexOfIx` | src/grid_dimension.rs:43-47 | a bare count linearises to itself (stride 1) |
| `Grids.LinSpaceIndexOfPair` | src/grid_dimension.rs:49-53 | a pair (row, column) linearises to row * width + column |
| `Grids.LinSpaceIndexOfTriple` | src/grid_dimension.rs:55-59 | a triple linearises to its mixed-radix value (i0 * d1 + i1) * d2 + i2 |
| `Grids.GridIndex.LinSpaceIndexUnchecked` | src/grid_dimension.rs:29-31 | every index representation gives the offset of the `Dim` it converts to |
| `Grids.GridIndex.ToShape` | src/grid_dimension.rs:43-59 | the `Dim::from(*self)` of each index impl keeps the rank, and its axes are the index's components in order: the count, the pair or the triple (a `Dim` index keeps its own axes) |
| `Grids.StrideOffsetSymmetric` | src/grid_dimension.rs:295-302 | `stride_offset(a, b) == stride_offset(b, a)`, which the tests rely on by passing the strides first |
| `Grids.StridesRowMajor` | src/grid_dimension.rs:162-164 | for every rank: last stride 1 and stride[k] = extent[k+1] * stride[k+1] |
| `Grids.LinSpaceIndexInjective` | src/grid_dimension.rs:37-39 | two in-bounds indices, in any representation, with the same offset convert to the same `Dim` |
| `Grids.IxIndexMatchesShape` | src/grid_dimension.rs:265-273 | linearising a bare count equals linearising `Dim::from` of it |
| `Grids.PairIndexMatchesShape` | src/grid_dimension.rs:304-312 | linearising a pair equals linearising `Dim::from` of it |
| `Grids.TripleIndexMatchesShape` | src/grid_dimension.rs:344-352 | linearising a triple equals linearising `Dim::from` of it |
| `Grids.NumberOfElementsAsWrittenPanics` | src/grid_dimension.rs:198-200 | the rank-3 element count as written panics for every shape; the corrected one is d0 * d1 * d2 |
| `Grids.Rank1PatternIsLength` | src/grid_dimension.rs:117-119 | the rank-1 pattern is always 1; it equals the x value only when the extent is 1 |
| `Grids.Rank1Examples` | src/grid_dimension.rs:237-273 | shape [8]: axis 0 is 8, strides [1], offset of [5] is 5, count and `Dim` agree |
| `Grids.Rank2Examples` | src/grid_dimension.rs:275-312 | shape [8, 3]: axes 8 and 3, strides [3, 1], offset of [2, 2] is 8, pair and `Dim` agree |
| `Grids.Rank3Examples` | src/grid_dimension.rs:314-352 | shape [13, 8, 3]: axes, strides [24, 3, 1], offset of [2, 2, 2] is 2*24 + 2*3 + 2, triple and `Dim` agree |
| `GeoTransforms.GeoTransform.New` | src/geo_transform.rs:36-52 | the six coefficients are stored in argument order, which is the GDAL array order |
| `GeoTransforms.GeoTransform.FromGdal` | src/geo_transform.rs:55-66 | `From<GdalGeoTransform>`: converting back with `Into` gives the same array |
| `GeoTransforms.GeoTransform.ToGdal` | src/geo_transform.rs:68-79 | `Into<GdalGeoTransform>`: the six array entries, read in GDAL order, rebuild the transform |
| `GeoTransforms.GeoTransform.Grid2dToCoordinate` | src/geo_transform.rs:14-23 | cell (0, 0) maps to the origin; without rotation x is origin x + column * pixel width and y is origin y + row * pixel height |
| `GeoTransforms.GeoTransform.CoordinateToGrid2d` | src/geo_transform.rs:25-34 | defined only without rotation (the source panics otherwise); each component is the distance from the origin divided by the pixel size, truncated and cast to `usize` |
| `GeoTransforms.AsUsize` | src/geo_transform.rs:31-32 | `as usize` on a finite value is the floor of a non-negative value and 0 for a negative one |
| `GeoTransforms.GdalRoundTrip` | src/geo_transform.rs:68-79 | converting a transform into the array and back gives the same transform |
| `GeoTransforms.GdalArrayRoundTrip` | src/geo_transform.rs:55-66 | converting an array into a transform and back gives the same array, in GDAL order |
| `GeoTransforms.ForwardMapIsAffine` | src/geo_transform.rs:14-23 | cell (0, 0) maps to the upper-left corner; a column step adds (pixel width, y rotation) and a row step adds (x rotation, pixel height) |
| `GeoTransforms.GridRoundTrip` | src/geo_transform.rs:14-34 | without rotation and with non-zero pixel sizes, the inverse map recovers any cell from its corner |
| `GeoTransforms.CoordinateInsideCell` | src/geo_transform.rs:25-34 | every coordinate inside a cell, for either sign of the pixel sizes, maps back to that cell |
| `GeoTransforms.CoordinateBeforeOrigin` | src/geo_transform.rs:31 | a coordinate before the origin gives column 0 (saturating cast), not a negative floor |
| `GeoTransforms.UnitTransformExample` | src/geo_transform.rs:14-34 | with the unit transform [1, 1, 0, 1, 0, 1] that the raster tests build, cell (0, 0) maps to (1, 1) and (1, 1) maps back to (0, 0); both values are derived, not checked by the tests |
| `Rasters.BaseRaster.New` | src/raster.rs:26-40 | `new` stores its five arguments; `dimension`, `data_container`, `no_data_value`, `temporal_bounds` and `geo_transform` return them unchanged |
| `Rasters.BaseRaster.Dimension` | src/raster.rs:71-73 | `dimension()` returns the shape given to `new` |
| `Rasters.BaseRaster.NoDataValue` | src/raster.rs:74-76 | `no_data_value()` returns the no-data value given to `new` |
| `Rasters.BaseRaster.DataContainer` | src/raster.rs:77-79 | `data_container()` returns the cell values given to `new` |
| `Rasters.BaseRaster.GeoTransform` | src/raster.rs:80-82 | `geo_transform()` returns the transform given to `new` |
| `Rasters.BaseRaster.TemporalBounds` | src/raster.rs:44-46 | `temporal_bounds()` returns the interval given to `new` |
| `Rasters.NewFromAccessors` | src/raster.rs:26-46 | a raster is determined by its accessors: `new` applied to them gives it back |
| `Rasters.BaseRaster.SpatialBounds` | src/raster.rs:53-63 | the upper-left corner is the image of cell (0, 0), the origin; the lower-right corner is the image of (y value, x value) = (rows, columns), the grid corner one past the last cell |
| `Rasters.AxisAlignedBounds` | src/raster.rs:53-63 | without rotation the lower-right corner is the origin moved by columns * pixel width along x and rows * pixel height along y |
| `Rasters.BoundsMapBackToGrid` | src/raster.rs:53-63 | without rotation and with non-zero pixel sizes, the inverse map sends the upper-left corner to (0, 0) and the lower-right corner to (rows, columns) |
| `Rasters.BaseRaster.PixelValueGrid` | src/raster.rs:100-103 | the pixel is the container value at the row-major offset of the index, with no no-data substitution; an offset past the container panics (precondition) |
| `Rasters.CellCornerWithinBounds` | src/raster.rs:53-63 | without rotation, the corner of every in-range cell lies inside the spatial bounds along both axes |
| `Rasters.InBoundsIndexIsReadable` | src/raster.rs:100-103 | an in-bounds index into a raster holding one value per cell cannot make the lookup panic |
| `Rasters.DistinctCellsDistinctPositions` | src/raster.rs:100-103 | distinct in-bounds cells are read from distinct container positions |
| `Rasters.PairAndShapeReadSamePixel` | src/raster.rs:128-164 | a pair index and the equivalent `Dim` index read the same pixel |
| `Rasters.SimpleRaster2dExample` | src/raster.rs:128-164 | the raster tests' 4 x 5 raster of 9s reads 9 at (2, 2) through a pair and through a `Dim`, as the tests check; with the unit transform its span is (1, 1) to (6, 5), a derived value the tests do not check |

## Findings

| source | as written | input that shows it | evidently intended | confidence | as-written member | corrected member |
|---|---|---|---|---|---|---|
| src/grid_dimension.rs:199 | `self.ix()[3] * self.ix()[1] * self.ix()[0]` reads position 3 of a three-element array | every rank-3 shape, e.g. the tests' [13, 8, 3]: the read of position 3 is out of bounds | `ix()[0] * ix()[1] * ix()[2]`, the product of the three extents | high; not executed | `Grids.Dim3.NumberOfElementsAsWritten` | `Grids.Dim3.NumberOfElements` |

`Grids.Dim3.NumberOfElementsAsWritten` models the expression as written, with
each array read bounds-checked, and its contract states that it panics. The
lemma `Grids.NumberOfElementsAsWrittenPanics` exhibits the discrepancy: the
as-written count panics for every shape, while the corrected count is the
product of the three extents. The rest of the model uses the corrected count.

## Left out

- Integer width: `usize` is modelled as unbounded `nat`. The overflow of `strides`, `number_of_elements`, `stride_offset` and `lin_space_index_unchecked` on very large extents is not modelled. That overflow panics in debug builds and wraps in release builds.
- Floating point: coefficients and coordinates are `real`. Rounding, NaN and infinities are not modelled, so the round-trip laws hold only in exact arithmetic.
- GeoTransforms.AsUsize: does not model saturation at `usize::MAX` for huge quotients, because `usize` is unbounded here.
- GeoTransforms.GeoTransform.CoordinateToGrid2d: requires non-zero pixel sizes. With `f64` the source divides by zero and casts the resulting infinity or NaN. Division by zero is not defined on `real`.
- `IndexMut` returns a mutable reference into the shape. The model writes it as a functional update (`SetAxis`) that returns the new shape. In-place aliasing of that reference is not captured.
- `slice()`, `ix()` and `ixm()` are borrow accessors. `Slice()` is the sequence view the contracts use. The mutable borrow has no counterpart beyond `SetAxis`.
- `Dim::new` is the datatype constructor (`Dim1(..)`, `Dim2(..)`, `Dim3(..)`).
- Trait plumbing has no counterpart in the model. This covers the `Clone`/`Eq`/`Debug`/`Send`/`Sync`/`Default`/`Hash` bounds and derives, and the associated `IndexPattern` and `NDIM` beyond `Rank()`.
- The traits `Raster`, `SpatialBounded`, `TemporalBounded` and `GridPixelAccess` have one implementation each here. Their methods are members of `BaseRaster`.
- `CoordinatePixelAccess` is declared but never implemented, so there is nothing to model.
- The generic container `C: AsRef<[T]>` is a `seq<T>`. `SimpleRaster2d` and `SimpleRaster3d` are `BaseRaster` with a `TwoD` or `ThreeD` shape.
- `SpatioTemporalBounds`: the bounding box and the time interval are plain datatypes. Start <= end is not enforced, matching the source. `TimeInterval::default()` is `TimeInterval(0, 0)`.
- The placeholder test in `src/lib.rs` has nothing to model.
