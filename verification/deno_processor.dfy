/** The stand-alone batch script: a sampling closure over a GeoTIFF raster,
    and the pass that adds an `ndvi` field to every CSV record and counts
    the records that received a value. File and CSV I/O are not modelled:
    the decoded raster and the parsed records are inputs. */
module DenoProcessor {
  import opened Wrappers
  import opened JsValues
  import opened CellMapping

  /** The decoded GeoTIFF: one cell array per band, the image's own bounding
      box (`[xMin, yMin, xMax, yMax]`), and its size. */
  datatype GeoTiff = GeoTiff(rasters: seq<seq<int>>, bbox: BBox, width: nat, height: nat)

  /** A call of the calculator either returns or throws. */
  datatype Outcome = Returned(v: Sampled) | Threw

  /** The closure built by `createCalculator`, applied to one point. It reads
      the first band; when there is no band, indexing `rasters[0]` throws. */
  function Calculate(t: GeoTiff, lat: Num, lon: Num): (o: Outcome)
    requires ValidBox(t.bbox)
    ensures o == Returned(Null) <==> Locate(t.bbox, t.width, t.height, lat, lon).Outside?
    ensures o.Threw? ==> |t.rasters| == 0
    ensures o.Returned? && o.v.Number? ==>
      o.v.n.Finite? && |t.rasters| > 0 && exists k :: 0 <= k < |t.rasters[0]| && o.v.n.value == t.rasters[0][k] as real
  {
    match Locate(t.bbox, t.width, t.height, lat, lon)
    case Outside => Returned(Null)
    case NaNIndex => if |t.rasters| == 0 then Threw else Returned(Undefined)
    case Cell(ix, iy) =>
      if |t.rasters| == 0 then Threw
      else
        var k := PixelIndex(t.width, ix, iy);
        if k < |t.rasters[0]| then Returned(Number(Finite(t.rasters[0][k] as real)))
        else Returned(Undefined)
  }

  /** A raster whose first band holds a value for every cell. */
  predicate WellFormed(t: GeoTiff)
  {
    ValidBox(t.bbox) && t.width > 0 && t.height > 0 &&
    |t.rasters| > 0 && |t.rasters[0]| >= t.width * t.height
  }

  /** The calculator in geographic terms: on a well-formed raster it never
      throws, gives null exactly for points off the box's half-open extent,
      and otherwise the first band's raw cell at `iy * width + ix`. */
  lemma {:induction false} CalculateOnBox(t: GeoTiff, lat: real, lon: real)
    requires WellFormed(t)
    ensures Calculate(t, Finite(lat), Finite(lon)) == Returned(Null) <==> !InBox(t.bbox, lat, lon)
    ensures InBox(t.bbox, lat, lon) ==>
      var ix, iy := Column(t.bbox, t.width, lon), Row(t.bbox, t.height, lat);
      0 <= ix < t.width && 0 <= iy < t.height &&
      iy * t.width + ix < |t.rasters[0]| &&
      Calculate(t, Finite(lat), Finite(lon)) == Returned(Number(Finite(t.rasters[0][iy * t.width + ix] as real)))
  {
    LocateFinite(t.bbox, t.width, t.height, lat, lon);
    if InBox(t.bbox, lat, lon) {
      PixelIndexInRaster(t.width, t.height, Column(t.bbox, t.width, lon), Row(t.bbox, t.height, lat));
    }
  }

  /** The calculator throws only when the raster has no band, and then only
      for a query that passes the bounds check. */
  lemma {:induction false} ThrowsOnlyWithoutBand(t: GeoTiff, lat: Num, lon: Num)
    requires ValidBox(t.bbox)
    ensures Calculate(t, lat, lon).Threw? <==>
      |t.rasters| == 0 && !Locate(t.bbox, t.width, t.height, lat, lon).Outside?
  {
  }

  // ---------------------------------------------------------------------
  // Records

  /** The columns the CSV parser is told the input has, in order. */
  const InputColumns: seq<string> := [
    "latitude", "longitude", "bright_ti4", "scan", "track", "acq_date", "acq_time",
    "satellite", "confidence", "version", "bright_ti5", "frp", "daynight"]

  /** The header the output is written with, in order. */
  const OutputColumns: seq<string> := [
    "latitude", "longitude", "bright_ti4", "scan", "track", "acq_date", "acq_time",
    "satellite", "confidence", "version", "bright_ti5", "frp", "daynight", "ndvi"]

  /** One parsed input row: every field is the CSV text of its column. */
  datatype CsvRecord = CsvRecord(
    latitude: string, longitude: string, brightTi4: string, scan: string, track: string,
    acqDate: string, acqTime: string, satellite: string, confidence: string, version: string,
    brightTi5: string, frp: string, daynight: string)

  /** The `ndvi` field: the empty string, or a number (0 included). */
  datatype NdviField = Blank | Value(v: real)

  /** An input row spread into a new object with the `ndvi` field added. */
  datatype EnrichedRecord = EnrichedRecord(data: CsvRecord, ndvi: NdviField)

  /** `ndvi !== null && !isNaN(ndvi) ? ndvi : ''`, with a thrown error
      caught and leaving the initial `''`. */
  function NdviOf(o: Outcome): (f: NdviField)
    ensures f.Blank? <==> o.Threw? || o.v == Null || IsNaN(o.v)
    ensures f.Value? ==> o == Returned(Number(Finite(f.v)))
  {
    match o
    case Threw => Blank
    case Returned(v) => if v != Null && !IsNaN(v) then Value(v.n.value) else Blank
  }

  /** The callback of `records.map`: parse the coordinates (`parseFloat`,
      an input here) and sample. */
  function EnrichRecord(t: GeoTiff, parseFloat: string -> Num, rec: CsvRecord): (e: EnrichedRecord)
    requires ValidBox(t.bbox)
    ensures e.data == rec
    ensures e.ndvi.Value? ==>
      Calculate(t, parseFloat(rec.latitude), parseFloat(rec.longitude)) == Returned(Number(Finite(e.ndvi.v)))
    ensures e.ndvi.Blank? <==>
      var o := Calculate(t, parseFloat(rec.latitude), parseFloat(rec.longitude));
      o.Threw? || o.v == Null || IsNaN(o.v)
  {
    EnrichedRecord(rec, NdviOf(Calculate(t, parseFloat(rec.latitude), parseFloat(rec.longitude))))
  }

  /** `records.map(...)`: one enriched record per input record, in the same
      order, each carrying its input record unchanged. */
  function Enrich(t: GeoTiff, parseFloat: string -> Num, records: seq<CsvRecord>): (results: seq<EnrichedRecord>)
    requires ValidBox(t.bbox)
    ensures |results| == |records|
    ensures forall i :: 0 <= i < |records| ==> results[i].data == records[i]
    ensures forall i :: 0 <= i < |records| ==> results[i] == EnrichRecord(t, parseFloat, records[i])
  {
    if records == [] then []
    else [EnrichRecord(t, parseFloat, records[0])] + Enrich(t, parseFloat, records[1..])
  }

  /** Enriching a concatenation enriches each part: a record's result never
      depends on its neighbours, so the pass can be cut into batches freely. */
  lemma {:induction false} EnrichAppend(t: GeoTiff, parseFloat: string -> Num, a: seq<CsvRecord>, b: seq<CsvRecord>)
    requires ValidBox(t.bbox)
    ensures Enrich(t, parseFloat, a + b) == Enrich(t, parseFloat, a) + Enrich(t, parseFloat, b)
  {
    if a == [] {
      assert a + b == b;
    } else {
      var ab := a + b;
      assert ab[0] == a[0] && ab[1..] == a[1..] + b;
      assert Enrich(t, parseFloat, ab) == [EnrichRecord(t, parseFloat, a[0])] + Enrich(t, parseFloat, a[1..] + b);
      EnrichAppend(t, parseFloat, a[1..], b);
    }
  }

  /** `results.filter(r => r.ndvi !== '')`. */
  function WithNdvi(results: seq<EnrichedRecord>): (kept: seq<EnrichedRecord>)
    ensures |kept| <= |results|
    ensures forall e :: e in kept ==> e in results && e.ndvi.Value?
    ensures forall i :: 0 <= i < |results| && results[i].ndvi.Value? ==> results[i] in kept
  {
    if results == [] then []
    else
      assert forall i :: 1 <= i < |results| ==> results[i] == results[1..][i - 1];
      if results[0].ndvi.Value? then [results[0]] + WithNdvi(results[1..])
      else WithNdvi(results[1..])
  }

  /** The number of results that carry a value, one by one. */
  function CountValued(results: seq<EnrichedRecord>): (n: nat)
    ensures n <= |results|
    ensures n == 0 <==> forall i :: 0 <= i < |results| ==> results[i].ndvi.Blank?
  {
    if results == [] then 0
    else
      assert forall i :: 1 <= i < |results| ==> results[i] == results[1..][i - 1];
      (if results[0].ndvi.Value? then 1 else 0) + CountValued(results[1..])
  }

  /** The filter keeps every result that carries a value, duplicates
      included: its length is the count of valued results. */
  lemma {:induction false} WithNdviCount(results: seq<EnrichedRecord>)
    ensures |WithNdvi(results)| == CountValued(results)
  {
    if results != [] {
      WithNdviCount(results[1..]);
    }
  }

  /** Every result is counted exactly when all of them carry a value. */
  lemma {:induction false} AllCountedIffAllValued(results: seq<EnrichedRecord>)
    ensures |WithNdvi(results)| == |results| <==> forall i :: 0 <= i < |results| ==> results[i].ndvi.Value?
  {
    if results != [] {
      AllCountedIffAllValued(results[1..]);
      if !results[0].ndvi.Value? {
        assert |WithNdvi(results)| < |results|;
      }
      assert forall i :: 1 <= i < |results| ==> results[i] == results[1..][i - 1];
    }
  }

  /** Counts add up over a concatenation. */
  lemma {:induction false} WithNdviAppend(a: seq<EnrichedRecord>, b: seq<EnrichedRecord>)
    ensures WithNdvi(a + b) == WithNdvi(a) + WithNdvi(b)
  {
    if a == [] {
      assert a + b == b;
    } else {
      assert (a + b)[0] == a[0] && (a + b)[1..] == a[1..] + b;
      WithNdviAppend(a[1..], b);
    }
  }

  /** What the script reports: the results written out, `totalRecords` and
      `validNdviCount`. */
  datatype Report = Report(results: seq<EnrichedRecord>, totalRecords: nat, validNdviCount: nat)

  /** The modelled part of `process`: enrich, then count. */
  function Process(t: GeoTiff, parseFloat: string -> Num, records: seq<CsvRecord>): (rep: Report)
    requires ValidBox(t.bbox)
    ensures rep.results == Enrich(t, parseFloat, records)
    ensures rep.totalRecords == |records| == |rep.results|
    ensures forall i :: 0 <= i < |records| ==> rep.results[i].data == records[i]
    ensures rep.validNdviCount <= rep.totalRecords
    ensures rep.validNdviCount == |WithNdvi(rep.results)| == CountValued(rep.results)
  {
    var results := Enrich(t, parseFloat, records);
    WithNdviCount(results);
    Report(results, |records|, |WithNdvi(results)|)
  }

  /** The counts of two halves of the input add up to the count of the whole. */
  lemma {:induction false} ProcessAppend(t: GeoTiff, parseFloat: string -> Num, a: seq<CsvRecord>, b: seq<CsvRecord>)
    requires ValidBox(t.bbox)
    ensures Process(t, parseFloat, a + b).validNdviCount ==
      Process(t, parseFloat, a).validNdviCount + Process(t, parseFloat, b).validNdviCount
  {
    EnrichAppend(t, parseFloat, a, b);
    WithNdviAppend(Enrich(t, parseFloat, a), Enrich(t, parseFloat, b));
  }

  // ---------------------------------------------------------------------
  // Output layout

  /** Property access `data[column]` on a parsed record. */
  function Field(rec: CsvRecord, column: string): Option<string>
  {
    match column
    case "latitude" => Some(rec.latitude)
    case "longitude" => Some(rec.longitude)
    case "bright_ti4" => Some(rec.brightTi4)
    case "scan" => Some(rec.scan)
    case "track" => Some(rec.track)
    case "acq_date" => Some(rec.acqDate)
    case "acq_time" => Some(rec.acqTime)
    case "satellite" => Some(rec.satellite)
    case "confidence" => Some(rec.confidence)
    case "version" => Some(rec.version)
    case "bright_ti5" => Some(rec.brightTi5)
    case "frp" => Some(rec.frp)
    case "daynight" => Some(rec.daynight)
    case _ => None
  }

  /** The text written for the `ndvi` field; number formatting is an input. */
  function NdviText(f: NdviField, show: real -> string): string
  {
    match f
    case Blank => ""
    case Value(v) => show(v)
  }

  /** One output row under the header `OutputColumns`: each column is looked
      up by name on the enriched record. */
  function OutputRow(e: EnrichedRecord, show: real -> string): (row: seq<string>)
    ensures |row| == |OutputColumns|
    ensures forall k :: 0 <= k < |InputColumns| ==> Field(e.data, InputColumns[k]) == Some(row[k])
    ensures row[|InputColumns|] == NdviText(e.ndvi, show)
  {
    seq(|OutputColumns|, k requires 0 <= k < |OutputColumns| =>
      if OutputColumns[k] == "ndvi" then NdviText(e.ndvi, show)
      else Field(e.data, OutputColumns[k]).value)
  }

  /** The output header is the input's 13 columns in order followed by
      `ndvi`, and every input column names a field of the record. */
  lemma OutputExtendsInput(rec: CsvRecord)
    ensures OutputColumns == InputColumns + ["ndvi"]
    ensures "ndvi" !in InputColumns
    ensures forall c :: c in InputColumns ==> Field(rec, c).Some?
    ensures Field(rec, "ndvi").None?
  {
  }
}
