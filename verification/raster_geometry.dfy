/**
  Pixel-block extents and cell size of a raster.

  A parent raster is described by its map extent (xMin, yMin, xMax, yMax) and
  its pixel dimensions. The pixel grid is axis aligned: column `c` sits at
  `xMin + c·dX` and row `r` at `yMax - r·dY` (rows grow downward, map y grows
  upward), where `dX, dY` is the native cell size, span over pixel count.
  Python evaluates this in floating point; here it is exact real arithmetic.
 */
module RasterGeometry {
  import opened Common
  import opened ProjectionCache

  /** An axis-aligned map extent. */
  datatype Extent = Extent(xMin: real, yMin: real, xMax: real, yMax: real)

  /** The parent raster's properties: extent, pixel dimensions, spatial-reference code. */
  datatype RasterProps = RasterProps(extent: Extent, width: int, height: int, spatialReference: Option<int>)

  /** The top-left pixel of a request, `tlc = (col, row)`. */
  datatype PixelOffset = PixelOffset(col: int, row: int)

  /** The errors Python raises while unpacking tuples in this module. */
  datatype Failure =
    | ShapeNotUnpackable(length: nat)   // a request shape with neither 2 nor 3 elements
    | CoordinatesNotUnpackable          // a transform output whose arrays are not pairs

  /** Pixel dimensions the cell-size division is defined for. */
  predicate HasPixels(props: RasterProps) {
    props.width != 0 && props.height != 0
  }

  /** The parent raster's cell size (dX, dY): the extent's span divided by the pixel count. */
  function NativeCellSize(props: RasterProps): (cell: (real, real))
    requires HasPixels(props)
    ensures props.width as real * cell.0 == props.extent.xMax - props.extent.xMin
    ensures props.height as real * cell.1 == props.extent.yMax - props.extent.yMin
  {
    var e := props.extent;
    ((e.xMax - e.xMin) / props.width as real, (e.yMax - e.yMin) / props.height as real)
  }

  /** The map x of the left edge of pixel column `col`: the raster's geotransform along x. */
  function ColumnToMapX(props: RasterProps, col: int): real
    requires HasPixels(props)
  {
    props.extent.xMin + col as real * NativeCellSize(props).0
  }

  /** The map y of the top edge of pixel row `row`: rows grow downward, map y grows upward. */
  function RowToMapY(props: RasterProps, row: int): real
    requires HasPixels(props)
  {
    props.extent.yMax - row as real * NativeCellSize(props).1
  }

  /** The (rows, cols) of a request shape; a leading band dimension is dropped. */
  function BlockDims(shape: seq<int>): (r: Result<(int, int), Failure>)
    ensures r.Ok? <==> |shape| == 2 || |shape| == 3
    ensures r.Ok? ==> r.value == (shape[|shape| - 2], shape[|shape| - 1])
    ensures r.Err? ==> r.error == ShapeNotUnpackable(|shape|)
  {
    if |shape| == 2 then Ok((shape[0], shape[1]))
    else if |shape| == 3 then Ok((shape[1], shape[2]))
    else Err(ShapeNotUnpackable(|shape|))
  }

  /**
    The map extent of the pixel block whose top-left pixel is `tlc` and whose
    shape is `shape`. Its corners are the geotransform images of the block's
    pixel corners: no clipping to the parent, so blocks outside it extrapolate.
   */
  function ComputePixelBlockExtents(tlc: PixelOffset, shape: seq<int>, props: RasterProps): (r: Result<Extent, Failure>)
    requires HasPixels(props)
    ensures r.Ok? <==> |shape| == 2 || |shape| == 3
    ensures r.Err? ==> r.error == ShapeNotUnpackable(|shape|)
    ensures r.Ok? ==>
      var nRows, nCols := BlockDims(shape).value.0, BlockDims(shape).value.1;
      && r.value.xMin == ColumnToMapX(props, tlc.col)
      && r.value.xMax == ColumnToMapX(props, tlc.col + nCols)
      && r.value.yMax == RowToMapY(props, tlc.row)
      && r.value.yMin == RowToMapY(props, tlc.row + nRows)
  {
    var dims := BlockDims(shape);
    if dims.Err? then Err(dims.error)
    else
      var nRows, nCols := dims.value.0, dims.value.1;
      var e := props.extent;
      var dX, dY := NativeCellSize(props).0, NativeCellSize(props).1;
      var xMin := e.xMin + tlc.col as real * dX;
      var yMax := e.yMax - tlc.row as real * dY;
      ScaleDistributes(tlc.col, nCols, dX);
      ScaleDistributes(tlc.row, nRows, dY);
      Ok(Extent(xMin, yMax - nRows as real * dY, xMin + nCols as real * dX, yMax))
  }

  /** The outcome of `computeCellSize`: the cell size (or error) and the caller's cache afterwards. */
  datatype CellSizeOutcome<H> = CellSizeOutcome(size: Result<(real, real), Failure>, proj: Option<Cache<H>>)

  /**
    The cell size of the parent raster, optionally measured in the spatial
    reference `sr`: the extent's corners are reprojected through the cache
    (a fresh one when `proj` is None) and the reprojected spans are divided by
    the ORIGINAL pixel counts.
   */
  function ComputeCellSize<H>(engine: Engine<H>, props: RasterProps, sr: Option<int>, proj: Option<Cache<H>>)
    : (r: CellSizeOutcome<H>)
    requires HasPixels(props)
    ensures sr.None? ==> r == CellSizeOutcome(Ok(NativeCellSize(props)), proj)
    ensures !(IsUsableCode(props.spatialReference) && IsUsableCode(sr)) ==>
      r.size == Ok(NativeCellSize(props)) && r.proj == proj
    ensures proj.None? <==> r.proj.None?
    ensures IsUsableCode(props.spatialReference) && IsUsableCode(sr) && (proj.None? || Valid(engine, proj.value)) ==>
      var e := props.extent;
      var out := Reference(engine, Request(props.spatialReference, sr, [e.xMin, e.xMax], [e.yMin, e.yMax]));
      var xs, ys := out.0, out.1;
      && r.size == (if |xs| == 2 && |ys| == 2
                    then Ok(((xs[1] - xs[0]) / props.width as real, (ys[1] - ys[0]) / props.height as real))
                    else Err(CoordinatesNotUnpackable))
      && (r.proj.Some? ==>
            && Valid(engine, r.proj.value)
            && r.proj.value.inCode == props.spatialReference.value
            && r.proj.value.outCode == sr.value)
  {
    var e := props.extent;
    if sr.None? then
      CellSizeOutcome(Ok(NativeCellSize(props)), proj)
    else
      var cache := if proj.Some? then proj.value else Init();
      var s := TransformStep(engine, cache, props.spatialReference, sr, [e.xMin, e.xMax], [e.yMin, e.yMax]);
      var size :=
        if |s.xs| == 2 && |s.ys| == 2
        then Ok(((s.xs[1] - s.xs[0]) / props.width as real, (s.ys[1] - s.ys[0]) / props.height as real))
        else Err(CoordinatesNotUnpackable);
      CellSizeOutcome(size, if proj.Some? then Some(s.cache) else None)
  }

  /** Scaling a cell by a sum of pixel counts is the sum of the scalings. */
  lemma ScaleDistributes(a: int, n: int, d: real)
    ensures (a + n) as real * d == a as real * d + n as real * d
  {
  }

  /** The geotransform sends pixel corner (0, 0) to the extent's top-left and (width, height) to its bottom-right. */
  lemma GeotransformCorners(props: RasterProps)
    requires HasPixels(props)
    ensures ColumnToMapX(props, 0) == props.extent.xMin && RowToMapY(props, 0) == props.extent.yMax
    ensures ColumnToMapX(props, props.width) == props.extent.xMax && RowToMapY(props, props.height) == props.extent.yMin
  {
  }

  /** Requesting the whole raster from (0, 0) with shape (height, width) returns the parent extent. */
  lemma FullRasterIsParentExtent(props: RasterProps)
    requires HasPixels(props)
    ensures ComputePixelBlockExtents(PixelOffset(0, 0), [props.height, props.width], props) == Ok(props.extent)
  {
    GeotransformCorners(props);
  }

  /** A three-element shape (bands, rows, cols) gives the same extent as (rows, cols). */
  lemma BandDimensionIgnored(tlc: PixelOffset, bands: int, rows: int, cols: int, props: RasterProps)
    requires HasPixels(props)
    ensures ComputePixelBlockExtents(tlc, [bands, rows, cols], props) == ComputePixelBlockExtents(tlc, [rows, cols], props)
  {
  }

  /** The block's x-span is nCols·dX and its y-span is nRows·dY. */
  lemma BlockSpans(tlc: PixelOffset, rows: int, cols: int, props: RasterProps)
    requires HasPixels(props)
    ensures var r := ComputePixelBlockExtents(tlc, [rows, cols], props).value;
      && r.xMax - r.xMin == cols as real * NativeCellSize(props).0
      && r.yMax - r.yMin == rows as real * NativeCellSize(props).1
  {
  }

  /** A one-pixel block spans exactly the native cell size that `computeCellSize` reports without `sr`. */
  lemma OnePixelBlockSpansCellSize<H>(engine: Engine<H>, tlc: PixelOffset, props: RasterProps)
    requires HasPixels(props)
    ensures var r := ComputePixelBlockExtents(tlc, [1, 1], props).value;
      ComputeCellSize(engine, props, None, None).size == Ok((r.xMax - r.xMin, r.yMax - r.yMin))
  {
    var r := ComputePixelBlockExtents(tlc, [1, 1], props).value;
    BlockSpans(tlc, 1, 1, props);
    assert r.xMax - r.xMin == NativeCellSize(props).0;
    assert r.yMax - r.yMin == NativeCellSize(props).1;
  }

  /** A block at column c with n columns ends where the block at column c + n begins, on the same rows. */
  lemma HorizontalNeighboursShareEdge(props: RasterProps, col: int, row: int, rows: int, n: int, m: int)
    requires HasPixels(props)
    ensures var a := ComputePixelBlockExtents(PixelOffset(col, row), [rows, n], props).value;
      var b := ComputePixelBlockExtents(PixelOffset(col + n, row), [rows, m], props).value;
      a.xMax == b.xMin && a.yMin == b.yMin && a.yMax == b.yMax
  {
  }

  /** A block at row r with n rows ends where the block at row r + n begins, on the same columns. */
  lemma VerticalNeighboursShareEdge(props: RasterProps, col: int, row: int, cols: int, n: int, m: int)
    requires HasPixels(props)
    ensures var a := ComputePixelBlockExtents(PixelOffset(col, row), [n, cols], props).value;
      var b := ComputePixelBlockExtents(PixelOffset(col, row + n), [m, cols], props).value;
      a.yMin == b.yMax && a.xMin == b.xMin && a.xMax == b.xMax
  {
  }

  /** Two horizontally adjacent blocks together cover exactly the block with their summed width. */
  lemma HorizontalTilesCompose(props: RasterProps, col: int, row: int, rows: int, n: int, m: int)
    requires HasPixels(props)
    ensures var a := ComputePixelBlockExtents(PixelOffset(col, row), [rows, n], props).value;
      var b := ComputePixelBlockExtents(PixelOffset(col + n, row), [rows, m], props).value;
      ComputePixelBlockExtents(PixelOffset(col, row), [rows, n + m], props) == Ok(Extent(a.xMin, a.yMin, b.xMax, a.yMax))
  {
  }

  /** Two vertically adjacent blocks together cover exactly the block with their summed height. */
  lemma VerticalTilesCompose(props: RasterProps, col: int, row: int, cols: int, n: int, m: int)
    requires HasPixels(props)
    ensures var a := ComputePixelBlockExtents(PixelOffset(col, row), [n, cols], props).value;
      var b := ComputePixelBlockExtents(PixelOffset(col, row + n), [m, cols], props).value;
      ComputePixelBlockExtents(PixelOffset(col, row), [n + m, cols], props) == Ok(Extent(a.xMin, b.yMin, a.xMax, a.yMax))
  {
  }

  /**
    A block that lies within the pixel grid of a positively oriented raster
    lies within the parent extent, with its own extent positively oriented.
   */
  lemma BlockInsideParent(tlc: PixelOffset, rows: int, cols: int, props: RasterProps)
    requires props.width > 0 && props.height > 0
    requires props.extent.xMin <= props.extent.xMax && props.extent.yMin <= props.extent.yMax
    requires 0 <= tlc.col && 0 <= cols && tlc.col + cols <= props.width
    requires 0 <= tlc.row && 0 <= rows && tlc.row + rows <= props.height
    ensures var r := ComputePixelBlockExtents(tlc, [rows, cols], props).value;
      && props.extent.xMin <= r.xMin <= r.xMax <= props.extent.xMax
      && props.extent.yMin <= r.yMin <= r.yMax <= props.extent.yMax
  {
    var e := props.extent;
    CellsWithinSpan(e.xMin, e.xMax, props.width, tlc.col, cols);
    CellsWithinSpan(e.yMin, e.yMax, props.height, tlc.row, rows);
  }

  /**
    Pixels a .. a+n of an axis of `count` pixels spanning lo .. hi lie within
    that span: 0 <= a·d <= (a+n)·d <= hi - lo for the cell d = (hi - lo)/count.
   */
  lemma CellsWithinSpan(lo: real, hi: real, count: int, a: int, n: int)
    requires lo <= hi && 0 < count
    requires 0 <= a && 0 <= n && a + n <= count
    ensures var d := (hi - lo) / count as real;
      0.0 <= a as real * d <= (a + n) as real * d <= hi - lo
  {
    var d := (hi - lo) / count as real;
    assert 0.0 <= d;
    assert count as real * d == hi - lo;
    ScaleDistributes(a, n, d);
    ScaleDistributes(a + n, count - a - n, d);
    NonNegativeProduct(a, d);
    NonNegativeProduct(n, d);
    NonNegativeProduct(count - a - n, d);
  }

  /** A non-negative count times a non-negative cell is non-negative. */
  lemma NonNegativeProduct(k: int, d: real)
    requires 0 <= k && 0.0 <= d
    ensures 0.0 <= k as real * d
  {
  }

  /** Extent (0, 0, 100, 100) at 100 × 100 pixels, tlc (10, 20), shape (5, 5) gives (10, 75, 15, 80). */
  lemma PixelBlockExample()
    ensures ComputePixelBlockExtents(PixelOffset(10, 20), [5, 5], RasterProps(Extent(0.0, 0.0, 100.0, 100.0), 100, 100, None))
         == Ok(Extent(10.0, 75.0, 15.0, 80.0))
  {
  }

  /** Extent (0, 0, 200, 100) at 200 × 100 pixels has cell size (1, 1). */
  lemma CellSizeExample<H>(engine: Engine<H>)
    ensures ComputeCellSize(engine, RasterProps(Extent(0.0, 0.0, 200.0, 100.0), 200, 100, None), None, None).size
         == Ok((1.0, 1.0))
  {
  }
}
