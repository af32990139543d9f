/** The older NDVI service: it reads the raster path from configuration,
    checks that the file exists, rethrows any loading failure (so start-up
    itself fails), and returns the raw cell with no sentinel and no scaling. */
module LegacyNdvi {
  import opened Wrappers
  import opened JsValues
  import opened CellMapping
  import opened Tiff
  import CurrentNdvi

  /** `!ndviPath` on a configuration value that may be `undefined`. */
  predicate Unconfigured(ndviPath: Option<string>)
  {
    ndviPath.None? || ndviPath.value == ""
  }

  /** `onModuleInit`'s checks and load: the configured path must be set, the
      file at it must exist (an input here), and then `initializeTiff` runs. */
  function LoadConfigured(ndviPath: Option<string>, fileExists: bool, image: Decoding): (r: Result<TiffData, LoadError>)
    ensures Unconfigured(ndviPath) ==> r == Failure(PathNotConfigured)
    ensures !Unconfigured(ndviPath) && !fileExists ==> r == Failure(FileNotFound(ndviPath.value))
    ensures r.Success? <==> !Unconfigured(ndviPath) && fileExists && InitializeTiff(image).Success?
    ensures !Unconfigured(ndviPath) && fileExists ==> r == InitializeTiff(image)
    ensures r.Success? ==> Loaded(r.value) && r.value.bbox == GlobalBox
  {
    if Unconfigured(ndviPath) then Failure(PathNotConfigured)
    else if !fileExists then Failure(FileNotFound(ndviPath.value))
    else InitializeTiff(image)
  }

  /** The body of `getNdviValue` once the raster is loaded: the raw cell,
      unchanged. A cell index past the end of the buffer, or a NaN index,
      reads `undefined`, which is returned as it is. */
  function Sample(t: TiffData, lat: Num, lon: Num): (r: Sampled)
    requires ValidBox(t.bbox)
    ensures r.Number? ==> r.n.Finite? && exists k :: 0 <= k < |t.rasters| && r.n.value == t.rasters[k] as real
    ensures r == Null <==> Locate(t.bbox, t.width, t.height, lat, lon).Outside?
    ensures r == Undefined ==> lat.NaN? || lon.NaN? || |t.rasters| < t.width * t.height
    ensures Locate(t.bbox, t.width, t.height, lat, lon).NaNIndex? ==> r == Undefined
  {
    match Locate(t.bbox, t.width, t.height, lat, lon)
    case Outside => Null
    case NaNIndex => Undefined
    case Cell(ix, iy) =>
      PixelIndexInRaster(t.width, t.height, ix, iy);
      var k := PixelIndex(t.width, ix, iy);
      if k < |t.rasters| then Number(Finite(t.rasters[k] as real)) else Undefined
  }

  /** Sampling a well-formed raster in geographic terms: null off the globe's
      half-open extent; on it, the raw cell at `iy * width + ix` as it is,
      with no sentinel test (32767 is reported as 32767) and no scaling. */
  lemma {:induction false} SampleOnGlobe(t: TiffData, lat: real, lon: real)
    requires WellFormed(t)
    ensures Sample(t, Finite(lat), Finite(lon)) == Null <==> !InBox(GlobalBox, lat, lon)
    ensures InBox(GlobalBox, lat, lon) ==>
      var ix, iy := Column(GlobalBox, t.width, lon), Row(GlobalBox, t.height, lat);
      0 <= ix < t.width && 0 <= iy < t.height &&
      iy * t.width + ix < |t.rasters| &&
      Sample(t, Finite(lat), Finite(lon)) == Number(Finite(t.rasters[iy * t.width + ix] as real))
  {
    LocateFinite(t.bbox, t.width, t.height, lat, lon);
    if InBox(GlobalBox, lat, lon) {
      PixelIndexInRaster(t.width, t.height, Column(t.bbox, t.width, lon), Row(t.bbox, t.height, lat));
    }
  }

  /** The two NestJS revisions on the same raster: they agree on which
      queries are off the raster; where the older one reads `undefined` the
      current one gives NaN; where the older one reports the raw 32767 the
      current one reports null; and any other raw value the older one
      reports, the current one reports divided by 10000. */
  lemma {:induction false} CurrentDecodesLegacy(t: TiffData, lat: Num, lon: Num)
    requires ValidBox(t.bbox)
    ensures Sample(t, lat, lon) == Null ==> CurrentNdvi.Sample(t, lat, lon) == Null
    ensures CurrentNdvi.Sample(t, lat, lon) == Null ==>
      Sample(t, lat, lon) == Null || Sample(t, lat, lon) == Number(Finite(CurrentNdvi.NoDataSentinel as real))
    ensures Sample(t, lat, lon) == Undefined <==> CurrentNdvi.Sample(t, lat, lon) == Number(NaN)
    ensures Sample(t, lat, lon) == Number(Finite(CurrentNdvi.NoDataSentinel as real)) ==>
      CurrentNdvi.Sample(t, lat, lon) == Null
    ensures (Sample(t, lat, lon).Number? && Sample(t, lat, lon).n.Finite? &&
             Sample(t, lat, lon).n.value != CurrentNdvi.NoDataSentinel as real) ==>
      CurrentNdvi.Sample(t, lat, lon) == Number(Finite(Sample(t, lat, lon).n.value / CurrentNdvi.ScaleFactor))
  {
    match Locate(t.bbox, t.width, t.height, lat, lon)
    case Outside =>
    case NaNIndex =>
    case Cell(ix, iy) =>
      var k := PixelIndex(t.width, ix, iy);
      if k < |t.rasters| {
        assert Sample(t, lat, lon) == Number(Finite(t.rasters[k] as real));
        assert CurrentNdvi.Sample(t, lat, lon) == CurrentNdvi.Decode(t.rasters[k]);
      }
  }

  /** The older NestJS provider. */
  class NdviService {
    var tiffData: Option<TiffData>

    ghost predicate Valid()
      reads this
    {
      tiffData.Some? ==> Loaded(tiffData.value)
    }

    constructor ()
      ensures Valid() && tiffData.None?
    {
      tiffData := None;
    }

    /** `onModuleInit`: a failure is logged and rethrown, which the returned
        error stands for; on success the raster is loaded. */
    method OnModuleInit(ndviPath: Option<string>, fileExists: bool, image: Decoding)
      returns (thrown: Option<LoadError>)
      requires Valid()
      modifies this
      ensures Valid()
      ensures thrown.None? <==> LoadConfigured(ndviPath, fileExists, image).Success?
      ensures thrown.None? ==> tiffData == Some(LoadConfigured(ndviPath, fileExists, image).value)
      ensures thrown.Some? ==>
        thrown.value == LoadConfigured(ndviPath, fileExists, image).error && tiffData == old(tiffData)
    {
      var r := LoadConfigured(ndviPath, fileExists, image);
      if r.Success? {
        tiffData := Some(r.value);
        thrown := None;
      } else {
        thrown := Some(r.error);
      }
    }

    /** `getNdviValue`: an unloaded service fails to destructure its raster,
        and the catch turns that into null. */
    function GetNdviValue(lat: Num, lon: Num): (r: Sampled)
      requires Valid()
      reads this
      ensures tiffData.None? ==> r == Null
      ensures tiffData.Some? ==> r == Sample(tiffData.value, lat, lon)
    {
      match tiffData
      case None => Null
      case Some(t) => Sample(t, lat, lon)
    }
  }

  /** The provider's lifecycle: a start-up failure propagates, so the
      application never serves queries from a silently unloaded service;
      once started, a query samples the loaded raster. */
  method StartThenSample(ndviPath: Option<string>, fileExists: bool, image: Decoding, lat: Num, lon: Num)
    returns (r: Result<Sampled, LoadError>)
    ensures r.Failure? <==> LoadConfigured(ndviPath, fileExists, image).Failure?
    ensures r.Failure? ==> r.error == LoadConfigured(ndviPath, fileExists, image).error
    ensures r.Success? ==> r.value == Sample(LoadConfigured(ndviPath, fileExists, image).value, lat, lon)
  {
    var service := new NdviService();
    var thrown := service.OnModuleInit(ndviPath, fileExists, image);
    if thrown.Some? {
      return Failure(thrown.value);
    }
    var v := service.GetNdviValue(lat, lon);
    r := Success(v);
  }
}
