/** Loading the NDVI raster, the `initializeTiff` step that both NestJS
    revisions of the service share word for word. The image library (sharp)
    is not modelled: what it reports about the file is an input. */
module Tiff {
  import opened Wrappers
  import opened CellMapping

  /** What the image library makes of the raster file: it cannot read it at
      all, or it reports a width and a height (either may be missing) and
      either fails to produce the raw pixel buffer or produces it. */
  datatype Decoding =
    | Unreadable
    | Decoded(width: Option<nat>, height: Option<nat>, pixels: Option<seq<int>>)

  /** Why loading fails; every one of these is an exception in the service. */
  datatype LoadError =
    | PathNotConfigured
    | FileNotFound(path: string)
    | ImageUnreadable
    | MissingDimensions
    | PixelsUnreadable

  /** The loaded raster: its cells, its size and its bounding box. */
  datatype TiffData = TiffData(rasters: seq<int>, width: nat, height: nat, bbox: BBox)

  /** The state every successfully loaded raster is in. */
  predicate Loaded(t: TiffData)
  {
    t.width > 0 && t.height > 0 && t.bbox == GlobalBox
  }

  /** A raster whose buffer holds a value for every cell, as a decoded image's
      raw buffer does. */
  predicate WellFormed(t: TiffData)
  {
    Loaded(t) && |t.rasters| >= t.width * t.height
  }

  /** JavaScript's `!width` on a size that is `undefined` or a number: true
      for `undefined` and for 0. */
  predicate Missing(size: Option<nat>)
  {
    size.None? || size.value == 0
  }

  /** `initializeTiff`: reads the size, refuses a missing or zero width or
      height, reads the raw pixels, and fixes the box to the whole globe. */
  function InitializeTiff(image: Decoding): (r: Result<TiffData, LoadError>)
    ensures r.Success? <==>
      image.Decoded? && !Missing(image.width) && !Missing(image.height) && image.pixels.Some?
    ensures image.Decoded? && (Missing(image.width) || Missing(image.height)) ==>
      r == Failure(MissingDimensions)
    ensures r.Success? ==> Loaded(r.value)
    ensures r.Success? ==>
      r.value.width == image.width.value && r.value.height == image.height.value &&
      r.value.rasters == image.pixels.value
  {
    match image
    case Unreadable => Failure(ImageUnreadable)
    case Decoded(width, height, pixels) =>
      if Missing(width) || Missing(height) then Failure(MissingDimensions)
      else if pixels.None? then Failure(PixelsUnreadable)
      else Success(TiffData(pixels.value, width.value, height.value, GlobalBox))
  }
}
