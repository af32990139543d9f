/** The coordinate-to-cell arithmetic shared by all three sampler revisions:
    a (latitude, longitude) pair is scaled into the bounding box, floored to a
    column and a row (row 0 is the northern edge), bounds-checked, and the
    cell is addressed in row-major order. */
module CellMapping {
  import opened JsValues
  import opened Arith

  /** A bounding box in the order `[xMin, yMin, xMax, yMax]`. */
  datatype BBox = BBox(xMin: real, yMin: real, xMax: real, yMax: real)

  /** The fixed global extent the NestJS services use. */
  const GlobalBox := BBox(-180.0, -90.0, 180.0, 90.0)

  /** The divisions in Column and Row need a box of positive width and height. */
  predicate ValidBox(b: BBox)
  {
    b.xMin < b.xMax && b.yMin < b.yMax
  }

  /** The half-open geographic extent whose points fall on a cell: the western
      and northern edges belong to the raster, the eastern and southern do not. */
  predicate InBox(b: BBox, lat: real, lon: real)
  {
    b.xMin <= lon < b.xMax && b.yMin < lat <= b.yMax
  }

  /** `offset / extent * cells`: an offset into the box scaled to a count of cells. */
  function ScaleToGrid(offset: real, extent: real, cells: nat): real
    requires extent > 0.0
  {
    offset / extent * cells as real
  }

  /** `Math.floor((lon - xMin) / (xMax - xMin) * width)` */
  function Column(b: BBox, width: nat, lon: real): (ix: int)
    requires ValidBox(b)
    ensures ix as real <= (lon - b.xMin) / (b.xMax - b.xMin) * width as real < ix as real + 1.0
  {
    ScaleToGrid(lon - b.xMin, b.xMax - b.xMin, width).Floor
  }

  /** `Math.floor((yMax - lat) / (yMax - yMin) * height)`: the y axis is inverted. */
  function Row(b: BBox, height: nat, lat: real): (iy: int)
    requires ValidBox(b)
    ensures iy as real <= (b.yMax - lat) / (b.yMax - b.yMin) * height as real < iy as real + 1.0
  {
    ScaleToGrid(b.yMax - lat, b.yMax - b.yMin, height).Floor
  }

  /** Where a query lands: off the raster (the bounds check fails), on a cell,
      or nowhere because a coordinate is NaN and every comparison with it is
      false, so the bounds check lets it through with a NaN index. */
  datatype Location = Outside | Cell(ix: nat, iy: nat) | NaNIndex

  /** The bounds check `ix < 0 || ix >= width || iy < 0 || iy >= height`,
      evaluated with JavaScript's NaN comparisons. */
  function Locate(b: BBox, width: nat, height: nat, lat: Num, lon: Num): (loc: Location)
    requires ValidBox(b)
    ensures loc.Cell? ==> loc.ix < width && loc.iy < height
    ensures loc.NaNIndex? ==> lat.NaN? || lon.NaN?
    ensures loc.Cell? ==> lat.Finite? && lon.Finite?
  {
    var xOut := lon.Finite? && !(0 <= Column(b, width, lon.value) < width);
    var yOut := lat.Finite? && !(0 <= Row(b, height, lat.value) < height);
    if xOut || yOut then Outside
    else if lat.NaN? || lon.NaN? then NaNIndex
    else Cell(Column(b, width, lon.value), Row(b, height, lat.value))
  }

  /** Row-major addressing `iy * width + ix`; the column and the row can be
      read back from the index, so distinct cells never share an index. */
  function PixelIndex(width: nat, ix: nat, iy: nat): (k: nat)
    requires ix < width
    ensures k / width == iy && k % width == ix
  {
    DivModUnique(iy * width + ix, width, iy, ix);
    iy * width + ix
  }

  /** When the bounds check passes, the index lies inside a raster of
      `width * height` cells. */
  lemma {:induction false} PixelIndexInRaster(width: nat, height: nat, ix: nat, iy: nat)
    requires ix < width && iy < height
    ensures PixelIndex(width, ix, iy) < width * height
  {
    MulMonotone(height - 1, iy, width);
    assert (height - 1) * width == width * height - width;
  }

  /** `Math.floor(v)` lies in `[0, n)` exactly when `v` does. */
  lemma FloorInRange(v: real, n: int)
    ensures 0 <= v.Floor < n <==> 0.0 <= v < n as real
  {
  }

  /** For a positive `w`: `t * w` is non-negative exactly when `t` is, and
      below `w` exactly when `t` is below 1. */
  lemma MulByPositive(t: real, w: real)
    requires w > 0.0
    ensures t * w >= 0.0 <==> t >= 0.0
    ensures t * w < w <==> t < 1.0
  {
    if t < 0.0 {
      assert t * w < 0.0;
    } else if t >= 1.0 {
      assert t * w - w == (t - 1.0) * w;
    } else {
      assert w - t * w == (1.0 - t) * w;
    }
  }

  /** For a positive `d`: `num / d` is non-negative exactly when `num` is,
      and below 1 exactly when `num` is below `d`. */
  lemma DivByPositive(num: real, d: real)
    requires d > 0.0
    ensures num / d >= 0.0 <==> num >= 0.0
    ensures num / d < 1.0 <==> num < d
  {
    MulByPositive(num / d, d);
    assert num / d * d == num;
  }

  /** An offset scales into `[0, cells)` exactly when it lies in `[0, extent)`. */
  lemma ScaleToGridInRange(offset: real, extent: real, cells: nat)
    requires extent > 0.0 && cells > 0
    ensures 0.0 <= ScaleToGrid(offset, extent, cells) < cells as real <==> 0.0 <= offset < extent
  {
    MulByPositive(offset / extent, cells as real);
    DivByPositive(offset, extent);
  }

  /** The floored scaled offset is a cell index exactly when the offset lies
      in `[0, extent)`. */
  lemma GridIndexInRange(offset: real, extent: real, cells: nat)
    requires extent > 0.0 && cells > 0
    ensures 0 <= ScaleToGrid(offset, extent, cells).Floor < cells <==> 0.0 <= offset < extent
  {
    FloorInRange(ScaleToGrid(offset, extent, cells), cells);
    ScaleToGridInRange(offset, extent, cells);
  }

  /** A longitude falls on a column exactly when it lies in `[xMin, xMax)`. */
  lemma ColumnInRange(b: BBox, width: nat, lon: real)
    requires ValidBox(b) && width > 0
    ensures 0 <= Column(b, width, lon) < width <==> b.xMin <= lon < b.xMax
  {
    GridIndexInRange(lon - b.xMin, b.xMax - b.xMin, width);
  }

  /** A latitude falls on a row exactly when it lies in `(yMin, yMax]`. */
  lemma RowInRange(b: BBox, height: nat, lat: real)
    requires ValidBox(b) && height > 0
    ensures 0 <= Row(b, height, lat) < height <==> b.yMin < lat <= b.yMax
  {
    GridIndexInRange(b.yMax - lat, b.yMax - b.yMin, height);
  }

  /** A query with finite coordinates lands on a cell exactly when the point
      lies in the box's half-open extent, and then on the cell (Column, Row).
      In particular every point strictly inside the box lands on a cell. */
  lemma {:induction false} LocateFinite(b: BBox, width: nat, height: nat, lat: real, lon: real)
    requires ValidBox(b) && width > 0 && height > 0
    ensures Locate(b, width, height, Finite(lat), Finite(lon)).Cell? <==> InBox(b, lat, lon)
    ensures InBox(b, lat, lon) ==>
      Locate(b, width, height, Finite(lat), Finite(lon)) == Cell(Column(b, width, lon), Row(b, height, lat))
  {
    ColumnInRange(b, width, lon);
    RowInRange(b, height, lat);
  }

  /** The edges of the box: the western edge is column 0 and the northern
      edge row 0, while the eastern edge gives `ix == width` and the southern
      edge `iy == height`, both of which the bounds check rejects. */
  lemma {:induction false} BoxEdges(b: BBox, width: nat, height: nat)
    requires ValidBox(b)
    ensures Column(b, width, b.xMin) == 0 && Row(b, height, b.yMax) == 0
    ensures Column(b, width, b.xMax) == width && Row(b, height, b.yMin) == height
  {
    var dx, dy := b.xMax - b.xMin, b.yMax - b.yMin;
    assert dx / dx == 1.0 && dy / dy == 1.0;
    assert (b.xMin - b.xMin) / dx == 0.0 && (b.yMax - b.yMax) / dy == 0.0;
  }

  /** The fixture of a 2 x 2 raster over the global box: (90, -180) is cell
      (0, 0) and (-90, 180) would be cell (2, 2), which is off the raster. */
  lemma {:induction false} GlobalFixture()
    ensures Locate(GlobalBox, 2, 2, Finite(90.0), Finite(-180.0)) == Cell(0, 0)
    ensures Column(GlobalBox, 2, 180.0) == 2 && Row(GlobalBox, 2, -90.0) == 2
    ensures Locate(GlobalBox, 2, 2, Finite(-90.0), Finite(180.0)) == Outside
  {
    BoxEdges(GlobalBox, 2, 2);
  }

  /** A NaN coordinate is never located on a cell: it is rejected when the
      other coordinate is off the raster and passes with a NaN index otherwise. */
  lemma {:induction false} LocateNaN(b: BBox, width: nat, height: nat, lat: Num, lon: Num)
    requires ValidBox(b) && (lat.NaN? || lon.NaN?)
    ensures Locate(b, width, height, lat, lon) == Outside || Locate(b, width, height, lat, lon) == NaNIndex
    ensures lat.NaN? && lon.NaN? ==> Locate(b, width, height, lat, lon) == NaNIndex
    ensures lat.NaN? && lon.Finite? ==>
      (Locate(b, width, height, lat, lon) == NaNIndex <==> 0 <= Column(b, width, lon.value) < width)
    ensures lon.NaN? && lat.Finite? ==>
      (Locate(b, width, height, lat, lon) == NaNIndex <==> 0 <= Row(b, height, lat.value) < height)
  {
  }
}
