/** The current NDVI service: it loads the raster once at module start-up,
    swallows a loading failure (the service then stays unloaded), and
    samples the raster with a no-data sentinel and a fixed scale factor. */
module CurrentNdvi {
  import opened Wrappers
  import opened JsValues
  import opened CellMapping
  import opened Tiff

  /** The raw cell value that means "no observation". */
  const NoDataSentinel := 32767

  /** Raw cells are fixed-point values scaled by this factor. */
  const ScaleFactor := 10000.0

  /** The reported value of an in-bounds raw cell. */
  function Decode(raw: int): (r: Sampled)
    ensures r == Null <==> raw == NoDataSentinel
    ensures r != Null ==> r.Number? && r.n.Finite? && r.n.value * ScaleFactor == raw as real
  {
    if raw == NoDataSentinel then Null else Number(Finite(raw as real / ScaleFactor))
  }

  /** The body of `getNdviValue` once the raster is loaded. A cell index past
      the end of the buffer, or a NaN index, reads `undefined`, which is not
      the sentinel and gives NaN when divided by the scale factor. */
  function Sample(t: TiffData, lat: Num, lon: Num): (r: Sampled)
    requires ValidBox(t.bbox)
    ensures r != Undefined
    ensures Locate(t.bbox, t.width, t.height, lat, lon).NaNIndex? ==> r == Number(NaN)
    ensures Locate(t.bbox, t.width, t.height, lat, lon).Outside? ==> r == Null
    ensures r == Number(NaN) ==> lat.NaN? || lon.NaN? || |t.rasters| < t.width * t.height
  {
    match Locate(t.bbox, t.width, t.height, lat, lon)
    case Outside => Null
    case NaNIndex => Number(NaN)
    case Cell(ix, iy) =>
      PixelIndexInRaster(t.width, t.height, ix, iy);
      var k := PixelIndex(t.width, ix, iy);
      if k < |t.rasters| then Decode(t.rasters[k]) else Number(NaN)
  }

  /** The raw cell under a point of the loaded raster. */
  function CellUnder(t: TiffData, lat: real, lon: real): int
    requires WellFormed(t) && InBox(t.bbox, lat, lon)
  {
    LocateFinite(t.bbox, t.width, t.height, lat, lon);
    var ix, iy := Column(t.bbox, t.width, lon), Row(t.bbox, t.height, lat);
    PixelIndexInRaster(t.width, t.height, ix, iy);
    t.rasters[PixelIndex(t.width, ix, iy)]
  }

  /** Sampling a well-formed raster in geographic terms: a point off the
      globe's half-open extent gives null (not an error), a point on it gives
      the decoded cell under it, null for the sentinel and raw / 10000
      otherwise. */
  lemma {:induction false} SampleOnGlobe(t: TiffData, lat: real, lon: real)
    requires WellFormed(t)
    ensures !InBox(GlobalBox, lat, lon) ==> Sample(t, Finite(lat), Finite(lon)) == Null
    ensures InBox(GlobalBox, lat, lon) ==>
      Sample(t, Finite(lat), Finite(lon)) == Decode(CellUnder(t, lat, lon))
  {
    LocateFinite(t.bbox, t.width, t.height, lat, lon);
    if InBox(GlobalBox, lat, lon) {
      PixelIndexInRaster(t.width, t.height, Column(t.bbox, t.width, lon), Row(t.bbox, t.height, lat));
    }
  }

  /** A sampled number is always a scaled raw cell of the raster that is not
      the sentinel, or NaN; the sampler never invents a value. */
  lemma {:induction false} SampleComesFromCell(t: TiffData, lat: Num, lon: Num)
    requires ValidBox(t.bbox)
    ensures Sample(t, lat, lon) != Undefined
    ensures Sample(t, lat, lon).Number? && Sample(t, lat, lon).n.Finite? ==>
      exists k :: 0 <= k < |t.rasters| && t.rasters[k] != NoDataSentinel &&
        Sample(t, lat, lon).n.value * ScaleFactor == t.rasters[k] as real
  {
    match Locate(t.bbox, t.width, t.height, lat, lon)
    case Outside =>
    case NaNIndex =>
    case Cell(ix, iy) =>
      var k := PixelIndex(t.width, ix, iy);
      if k < |t.rasters| {
        assert t.rasters[k] != NoDataSentinel ==> Sample(t, lat, lon) == Decode(t.rasters[k]);
      }
  }

  /** The raster buffer holds bytes, so the sentinel 32767 can never be read
      from it: on a byte buffer a point gives null exactly when it is off the
      globe, and every reported value lies in [0, 0.0255]. */
  lemma {:induction false} ByteRasterNeverNoData(t: TiffData, lat: real, lon: real)
    requires WellFormed(t)
    requires forall k :: 0 <= k < |t.rasters| ==> 0 <= t.rasters[k] <= 255
    ensures Sample(t, Finite(lat), Finite(lon)) == Null <==> !InBox(GlobalBox, lat, lon)
    ensures Sample(t, Finite(lat), Finite(lon)).Number? ==>
      Sample(t, Finite(lat), Finite(lon)).n.Finite? &&
      0.0 <= Sample(t, Finite(lat), Finite(lon)).n.value <= 0.0255
  {
    SampleOnGlobe(t, lat, lon);
    if InBox(GlobalBox, lat, lon) {
      LocateFinite(t.bbox, t.width, t.height, lat, lon);
      var ix, iy := Column(t.bbox, t.width, lon), Row(t.bbox, t.height, lat);
      PixelIndexInRaster(t.width, t.height, ix, iy);
      var k := PixelIndex(t.width, ix, iy);
      assert CellUnder(t, lat, lon) == t.rasters[k];
    }
  }

  /** A 2 x 2 raster over the globe, (90, -180)
      reads cell 0, (-90, 180) is off the raster, a raw 20000 reads 2.0 and
      the sentinel reads null. */
  lemma {:induction false} TwoByTwoFixture(c0: int, c1: int, c2: int, c3: int)
    ensures Sample(TiffData([20000, c1, c2, c3], 2, 2, GlobalBox), Finite(90.0), Finite(-180.0))
      == Number(Finite(2.0))
    ensures Sample(TiffData([NoDataSentinel, c1, c2, c3], 2, 2, GlobalBox), Finite(90.0), Finite(-180.0))
      == Null
    ensures Sample(TiffData([c0, c1, c2, c3], 2, 2, GlobalBox), Finite(-90.0), Finite(180.0)) == Null
  {
    GlobalFixture();
    NorthWestCorner([20000, c1, c2, c3]);
    NorthWestCorner([NoDataSentinel, c1, c2, c3]);
    assert Decode(20000) == Number(Finite(2.0));
  }

  lemma {:induction false} NorthWestCorner(cells: seq<int>)
    requires |cells| == 4
    ensures Sample(TiffData(cells, 2, 2, GlobalBox), Finite(90.0), Finite(-180.0)) == Decode(cells[0])
  {
    var t := TiffData(cells, 2, 2, GlobalBox);
    BoxEdges(GlobalBox, 2, 2);
    SampleOnGlobe(t, 90.0, -180.0);
    assert PixelIndex(2, 0, 0) == 0;
    assert CellUnder(t, 90.0, -180.0) == cells[0];
  }

  /** The NestJS provider. Its only state is the loaded raster, absent until
      start-up succeeds. */
  class NdviService {
    var tiffData: Option<TiffData>

    ghost predicate Valid()
      reads this
    {
      tiffData.Some? ==> Loaded(tiffData.value)
    }

    constructor ()
      ensures Valid() && tiffData.None?
    {
      tiffData := None;
    }

    /** `onModuleInit`: loads the raster; a failure is logged and swallowed,
        so the field keeps its previous value. */
    method OnModuleInit(image: Decoding)
      requires Valid()
      modifies this
      ensures Valid()
      ensures InitializeTiff(image).Success? ==> tiffData == Some(InitializeTiff(image).value)
      ensures InitializeTiff(image).Failure? ==> tiffData == old(tiffData)
    {
      var r := InitializeTiff(image);
      if r.Success? {
        tiffData := Some(r.value);
      }
    }

    /** `getNdviValue`: an unloaded service fails to destructure its raster,
        and the catch turns that into null. Being a function, it leaves the
        service's state as it was. */
    function GetNdviValue(lat: Num, lon: Num): (r: Sampled)
      requires Valid()
      reads this
      ensures tiffData.None? ==> r == Null
      ensures tiffData.Some? ==> r == Sample(tiffData.value, lat, lon)
    {
      match tiffData
      case None => Null
      case Some(t) => Sample(t, lat, lon)
    }
  }

  /** The provider's lifecycle: constructed, started, then queried. When
      start-up fails the service stays unloaded and every query gives null;
      when it succeeds a query samples the loaded raster. */
  method StartThenSample(image: Decoding, lat: Num, lon: Num) returns (r: Sampled)
    ensures InitializeTiff(image).Failure? ==> r == Null
    ensures InitializeTiff(image).Success? ==> r == Sample(InitializeTiff(image).value, lat, lon)
  {
    var service := new NdviService();
    service.OnModuleInit(image);
    r := service.GetNdviValue(lat, lon);
  }
}
