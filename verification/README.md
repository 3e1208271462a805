# Raster-function utilities, modelled in Dafny

This project models the geometric and version utilities that raster
functions use (`functions/utils.py`). It has three parts:

- **Version gate** (`ProductVersion`). `isProductVersionOK` packs each version
  triple into one key, `major·10^10 + tenths·10^6 + build`, and passes when
  the product key is at least the required key. Only the product's minor is
  rounded to tenths. The rounding is Python's `int(0.5 + minor*10)`,
  modelled as truncation toward zero for every real minor. The required
  minor is scaled raw (`minor·10^7`).
- **Pixel-block extents and cell size** (`RasterGeometry`).
  `computePixelBlockExtents` maps a block of pixels to its map extent through
  the raster's axis-aligned geotransform. Column `c` lies at
  `xMin + c·dX` and row `r` at `yMax − r·dY`. A leading band dimension of
  the shape is dropped. `computeCellSize` returns the native cell size
  (span ÷ pixel count). When a target spatial reference is given, it first
  reprojects the extent's corners through the projection cache, then
  divides the reprojected spans by the original pixel counts.
- **Projection cache** (`ProjectionCache`). `Projection.transform` keeps one
  source slot and one target slot. Each slot is a spatial-reference code
  plus the handle built from it, and both start as `-1`/`None`. A missing or
  non-positive code makes the call the identity. Otherwise only the slot
  whose code differs is rebuilt, and the call goes to the engine's
  transform. The engine is the pair `makeProj`/`transform`, passed as
  function values over an opaque handle type `H`. The pure `TransformStep`
  returns the list of codes whose handles it constructed. The class
  `Projection` does the same in place and keeps a ghost construction
  counter.

Floating-point arithmetic is modelled as exact `real` arithmetic. Python
exceptions raised while unpacking tuples are modelled as `Err` results: a
shape with neither 2 nor 3 elements, or a transform output whose arrays are
not pairs.

Only the product's minor is rounded to tenths. The required minor is scaled
raw, so a required minor that is not a whole number of tenths is compared
unrounded. `RoundingAsymmetryExamples` shows the effect, and
`VersionReflexiveIffRoundsUp` says exactly when a product meets its own
version.

## Model

| member | source | states |
|---|---|---|
| ProductVersion.Trunc | functions/utils.py:18 | Python's `int()` of a float: the result is the integer within distance 1 of x, on the side of zero (floor for x ≥ 0, ceiling for x < 0) |
| ProductVersion.RoundTenths | functions/utils.py:18 | for a non-negative minor the product-side rounding is within half a tenth of minor·10 (round half up); when minor·10 + 0.5 is negative, truncation toward zero rounds it up by less than one |
| ProductVersion.IsProductVersionOK | functions/utils.py:17-19 | with builds in [0, 10^6), tenths in [0, 10^4) and a required minor in whole tenths, the gate passes exactly when (major, rounded tenths, build) is lexicographically at least the requirement; monotonicity in both sides is stated by `LoweringRequirementKeepsPass` and `RaisingProductKeepsPass` |
| ProductVersion.RoundTenthsIsNearestHalfUp | functions/utils.py:18 | for a non-negative minor, the product-side rounding gives the nearest tenth with halves rounded up, i.e. `floor(minor·10 + 0.5)` |
| ProductVersion.RoundTenthsExact | functions/utils.py:18 | a minor that is already a non-negative whole number of tenths is not changed by the rounding |
| ProductVersion.RoundTenthsMonotone | functions/utils.py:18 | the product-side rounding is monotone in the minor |
| ProductVersion.VersionReflexiveAtTenths | functions/utils.py:17-19 | a product whose minor is a non-negative whole number of tenths meets its own (major, minor, build) |
| ProductVersion.VersionReflexiveIffRoundsUp | functions/utils.py:17-19 | a product meets its own version exactly when the rounded tenths are at least the raw minor·10 |
| ProductVersion.NegativeMinorReflexive | functions/utils.py:17-19 | a product with a negative minor meets its own version, because truncation toward zero rounds it up |
| ProductVersion.VersionReflexive | functions/utils.py:17-19 | a product with any integer minor meets its own version |
| ProductVersion.VersionExamples | functions/utils.py:17-19 | product 10.3 build 1000 meets 10.3 build 999 and does not meet 10.4 build 0 |
| ProductVersion.RoundingAsymmetryExamples | functions/utils.py:18-19 | only the product minor is rounded, so product minor 3.14 fails required minor 3.14, and product minor 3.15 meets required minor 3.2 |
| ProductVersion.LoweringRequirementKeepsPass | functions/utils.py:19 | lowering any of the required major, minor or build never turns a pass into a fail |
| ProductVersion.RaisingProductKeepsPass | functions/utils.py:18-19 | raising any of the product's major, minor or build never turns a pass into a fail |
| ProductVersion.VersionOrderIsLexicographic | functions/utils.py:17-19 | with builds below 10^6 and tenths below 10^4 on both sides, and a required minor given in whole tenths, the gate passes exactly when (major, tenths, build) is lexicographically at least the requirement |
| ProjectionCache.TransformStep | functions/utils.py:51-63 | unusable codes give the identity with the cache unchanged and nothing built; otherwise the cache ends up holding both codes, a matching slot keeps its handle, a differing slot gets `makeProj(code)`, one construction is logged per differing slot (source first), and the output is the engine transform of the slots |
| ProjectionCache.Projection.constructor | functions/utils.py:43-49 | a new cache keeps the injected engine, holds both codes −1 with no handles (`Init`), satisfies the cache invariant and has constructed nothing |
| ProjectionCache.InitValid | functions/utils.py:45-46 | a fresh cache (both codes −1, no handles) satisfies the cache invariant |
| ProjectionCache.TransformPreservesValid | functions/utils.py:51-61 | every transform call preserves the invariant "each slot is unset, or holds a positive code and the handle built from that code" |
| ProjectionCache.TransformMatchesReference | functions/utils.py:51-63 | on a valid cache, a call returns exactly what the uncached engine returns on handles built fresh from the two codes |
| ProjectionCache.UnusableCodeIsIdentity | functions/utils.py:51-53 | a missing or non-positive code on either side returns the coordinates unchanged, leaves all four cached fields untouched and constructs nothing |
| ProjectionCache.RepeatBuildsNothing | functions/utils.py:55-61 | a request for the codes the cache already holds constructs no handle and leaves the cache as it was |
| ProjectionCache.TargetChangeKeepsSource | functions/utils.py:55-61 | changing only the target code rebuilds only the target handle; the source handle stays the same |
| ProjectionCache.RunMatchesReference | functions/utils.py:51-63 | over any sequence of requests from a valid cache, every output equals the uncached reference, the cache stays valid, and at most two handles are built per request |
| ProjectionCache.RepeatFromCachedBuildsNothing | functions/utils.py:55-61 | repeating a usable request any number of times from a cache that already holds its codes constructs nothing and leaves the cache as it was |
| ProjectionCache.RepeatedRequestBuildsOnce | functions/utils.py:55-61 | serving the same usable request n+1 times in a row constructs exactly what the first call constructs |
| ProjectionCache.Projection.Transform | functions/utils.py:51-63 | the in-place class method changes the four fields, returns coordinates and counts constructions exactly as `TransformStep` does, and keeps the cache invariant |
| RasterGeometry.NativeCellSize | functions/utils.py:25 | the cell size times the pixel count gives back the extent's span, on each axis |
| RasterGeometry.BlockDims | functions/utils.py:23 | a shape unpacks exactly when it has 2 or 3 elements, and then gives its last two elements as (rows, cols); any other length is an unpacking error |
| RasterGeometry.ComputePixelBlockExtents | functions/utils.py:22-27 | fails exactly for shapes that do not unpack. Otherwise the block's xMin, xMax, yMax and yMin are the geotransform images of its first column, column past the end, first row and row past the end |
| RasterGeometry.ComputeCellSize | functions/utils.py:30-37 | without `sr`, or when either code is missing or non-positive, the result is the native cell size and the caller's cache is unchanged. Otherwise it is the reprojected span (by the uncached engine) over the original pixel counts, or an unpacking error when the engine does not return pairs. A passed cache ends holding both codes and stays valid |
| RasterGeometry.GeotransformCorners | functions/utils.py:25-26 | the geotransform sends pixel corner (0, 0) to (xMin, yMax) and (width, height) to (xMax, yMin) |
| RasterGeometry.FullRasterIsParentExtent | functions/utils.py:22-27 | requesting tlc (0, 0) with shape (height, width) returns exactly the parent extent |
| RasterGeometry.BandDimensionIgnored | functions/utils.py:23 | a 3-element shape (bands, rows, cols) gives the same result as (rows, cols) |
| RasterGeometry.BlockSpans | functions/utils.py:25-27 | the block's x-span is nCols·dX and its y-span is nRows·dY |
| RasterGeometry.OnePixelBlockSpansCellSize | functions/utils.py:25-33 | a 1×1 block spans exactly the cell size that `computeCellSize` returns without `sr` |
| RasterGeometry.HorizontalNeighboursShareEdge | functions/utils.py:26-27 | a block at column c with n columns has its xMax equal to the xMin of the block at column c+n, and the two share yMin and yMax |
| RasterGeometry.VerticalNeighboursShareEdge | functions/utils.py:26-27 | a block at row r with n rows has its yMin equal to the yMax of the block at row r+n, and the two share xMin and xMax |
| RasterGeometry.HorizontalTilesCompose | functions/utils.py:26-27 | two horizontally adjacent blocks together give exactly the extent of the block with the summed width |
| RasterGeometry.VerticalTilesCompose | functions/utils.py:26-27 | two vertically adjacent blocks together give exactly the extent of the block with the summed height |
| RasterGeometry.BlockInsideParent | functions/utils.py:25-27 | for a positively oriented raster, a block inside the pixel grid has a positively oriented extent that lies inside the parent extent |
| RasterGeometry.PixelBlockExample | functions/utils.py:22-27 | extent (0,0,100,100) at 100×100 pixels, tlc (10,20), shape (5,5) gives (10,75,15,80) |
| RasterGeometry.CellSizeExample | functions/utils.py:30-33 | extent (0,0,200,100) at 200×100 pixels has cell size (1,1) |

## Left out

- `getTraceFunction` (functions/utils.py:10-14) is not modelled. It loads a Windows debug-output routine through a foreign-function call and contains no logic.
- The projection engine is left uninterpreted. This covers the dynamic import of `pyproj`, building the `"+init=EPSG:n"` string, and the geodetic transform. They are the parameters `makeProj` and `transform`. No accuracy or round-trip claim is made about reprojection.
- Exceptions from the engine are not modelled. For example, the constructor can reject an unsupported code and leave the cache half-updated. That depends on how the foreign library fails.
- `computeCellSize` with `proj=None` creates a `Projection`, which imports `pyproj` even when the transform turns out to be the identity. A failing import is not modelled.
- Floating-point rounding is not modelled. Extents and cell sizes are exact reals, and the version keys are exact integers and reals.
- ComputePixelBlockExtents, ComputeCellSize, NativeCellSize: require non-zero width and height. A zero pixel count raises `ZeroDivisionError` (or gives infinities for NumPy floats), and that is not modelled.
- ProductVersion.VersionOrderIsLexicographic: holds only for builds in [0, 10^6) and tenths in [0, 10^4). Outside those bounds, builds bleed into the tenths weight and the packed key is not lexicographic. The source checks neither bound.
- For a negative minor, truncation toward zero is not floor, so `int(0.5 + minor*10)` is not the nearest tenth. The model's `Trunc` computes the as-written value, and reflexivity still holds there (`NegativeMinorReflexive`).
- The top-left pixel `tlc` is modelled as a (col, row) pair. Python would also accept longer sequences and ignore the extra elements, and would raise `IndexError` on shorter ones.
- Spatial-reference codes are integers. Python's `==` between mixed numeric types (such as `4326.0` and `4326`) is not modelled.
- Calls on one cache are modelled as sequential. Concurrent use of a shared instance is not modelled.
