/** The plain value types a raster reports its extent with. */
module SpatioTemporalBounds {

  /** Upper-left and lower-right world coordinates, each an (x, y) pair. */
  datatype SpatialBoundingBox2D = SpatialBoundingBox2D(
    upperLeftCoordinate: (real, real),
    lowerRightCoordinate: (real, real))

  /** A half-open interval of time points; start <= end is not enforced. */
  datatype TimeInterval = TimeInterval(intervalStart: nat, intervalEnd: nat)
}
