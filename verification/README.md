# Fire-point NDVI enrichment: a Dafny model

This project models the core of a wildfire hotspot pipeline. Each hotspot
detection is a point record with a latitude and a longitude. The pipeline
samples a vegetation-index (NDVI) raster at that point, adds the value to the
record, and stores the enriched records in a Postgres table.

Three parts are modelled:

- **The raster sampler.** It exists in three revisions with the same
  arithmetic. `CellMapping` holds the shared part:
  - `x = (lon - xMin) / (xMax - xMin) * width` and
    `y = (yMax - lat) / (yMax - yMin) * height`, with the y axis inverted;
  - both are floored, bounds-checked, and the cell is read at `iy * width + ix`.

  Each revision on top of that:
  - `CurrentNdvi` (the NestJS service in `src/modules/ndvi`): raw 32767
    means no data, and other values are divided by 10000. A loading failure
    at start-up is swallowed, and the service stays unloaded.
  - `LegacyNdvi` (the older service in `src/common/utils`): checks the
    configured path and that the file exists, then rethrows any loading
    failure. It returns the raw cell unchanged.
  - `DenoProcessor.Calculate` (the batch script's closure): reads the first
    band of a GeoTIFF, using the image's own bounding box.

  `Tiff.InitializeTiff` is the loading step, which both NestJS revisions
  share unchanged.
- **The enrichment pass** of the batch script (`DenoProcessor`). It is an
  order-preserving map that adds an `ndvi` field. The field is `''` when the
  sample is null or NaN, or when sampling throws. The count of valid values
  follows the map.
- **The storage service** (`Storage`):
  - `clearFirePoints` issues one TRUNCATE;
  - `insertFirePoints` issues one 14-parameter INSERT per point;
  - `chunkArray` is an imperative loop, proved against a recursive
    specification `Chunks`.

  The database is a class whose only state is the log of queries sent to it.

Coordinates are exact `real`s. A JavaScript number is either finite or NaN
(`JsValues.Num`). NaN matters because every comparison with NaN is false: a
NaN coordinate passes the bounds check with a NaN index when the other
coordinate's index is in range (when it is not, the query is rejected), and
reading at that index gives `undefined`. The model keeps this behaviour (`CellMapping.Locate`,
`NaNIndex`). A read past the end of the pixel buffer also gives `undefined`.

The NestJS services are classes with one field, `tiffData: Option<TiffData>`.
`onModuleInit` is a method that changes that field. `getNdviValue` is a
function that reads the field, so it cannot change the service's state.

Inputs that stand for I/O or for foreign libraries:

- the image library's report on the raster file (`Tiff.Decoding`);
- the configured path and whether the file exists;
- `parseFloat`, a function parameter;
- number-to-string formatting (`show`), a function parameter.

Notes on how the code behaves:

- The pixel buffer in the NestJS services is a Node `Buffer`
  (src/modules/ndvi/ndvi.interface.ts:5). Its elements are bytes, so the
  sentinel 32767 can never be read from it. `CurrentNdvi.ByteRasterNeverNoData`
  states the consequence: on a byte buffer, null means "off the globe" and
  nothing else, and every value lies in [0, 0.0255].
- The configuration the application module loads (src/config/configuration.ts,
  loaded at src/app.module.ts:10) defines no `nasaFirms.ndviPath`. A separate
  file, src/config/download.config.ts:7, does register that key, but the
  application module does not load it, and no module shown registers the
  older service. If the older service were started with only the loaded
  configuration, its start-up would fail with `PathNotConfigured`
  (`LegacyNdvi.LoadConfigured`).

## Model

| member | source | states |
|---|---|---|
| CellMapping.Locate | src/modules/ndvi/ndvi.service.ts:62-68 | a located cell always satisfies `ix < width` and `iy < height`; a NaN index arises only from a NaN coordinate; a cell is only reached with finite coordinates |
| CellMapping.PixelIndex | src/modules/ndvi/ndvi.service.ts:70 | row-major addressing can be inverted: `index / width == iy` and `index % width == ix`, so distinct cells never share an index |
| CellMapping.PixelIndexInRaster | src/modules/ndvi/ndvi.service.ts:65-71 | when the bounds check passes, `0 <= iy * width + ix < width * height` |
| CellMapping.Column | src/modules/ndvi/ndvi.service.ts:62-65 | the column is the floor of the scaled longitude offset: the greatest integer not above `(lon - xMin) / (xMax - xMin) * width`; ColumnInRange ties it to the box |
| CellMapping.Row | src/modules/ndvi/ndvi.service.ts:63-66 | the row is the floor of the scaled, y-inverted latitude offset `(yMax - lat) / (yMax - yMin) * height`; RowInRange ties it to the box |
| CellMapping.ColumnInRange | src/modules/ndvi/ndvi.service.ts:62-68 | the floored column lies in `[0, width)` exactly when `xMin <= lon < xMax` |
| CellMapping.RowInRange | src/modules/ndvi/ndvi.service.ts:63-68 | the floored, y-inverted row lies in `[0, height)` exactly when `yMin < lat <= yMax` |
| CellMapping.LocateFinite | src/modules/ndvi/ndvi.service.ts:62-68 | a finite query lands on a cell exactly when the point lies in the box's half-open extent, and then on cell (Column, Row); every point strictly inside the box is in range |
| CellMapping.BoxEdges | src/modules/ndvi/ndvi.service.ts:62-68 | `lon = xMin` gives column 0 and `lat = yMax` row 0; `lon = xMax` gives `ix = width` and `lat = yMin` gives `iy = height` |
| CellMapping.GlobalFixture | src/modules/ndvi/ndvi.service.ts:32 | on a 2 x 2 raster over (-180, -90, 180, 90), (90, -180) is cell (0, 0), and (-90, 180) maps to (2, 2), which is off the raster |
| CellMapping.LocateNaN | deno/main.ts:111-118 | a NaN coordinate never reaches a cell; with both coordinates NaN the bounds check passes with a NaN index; with one NaN, it passes exactly when the other coordinate's column (or row) is in range, and rejects the query otherwise |
| Tiff.InitializeTiff | src/modules/ndvi/ndvi.service.ts:17-45 | loading succeeds exactly when the image is readable, both dimensions are present and non-zero, and the pixels can be read; a missing or zero dimension fails with MissingDimensions; on success the box is exactly (-180, -90, 180, 90), and the size and pixels are the image's |
| CurrentNdvi.Decode | src/modules/ndvi/ndvi.service.ts:73-77 | an in-bounds raw value gives null exactly when it is 32767; any other raw value r gives a finite v with `v * 10000 == r` |
| CurrentNdvi.Sample | src/modules/ndvi/ndvi.service.ts:59-77 | the loaded-raster body of `getNdviValue`: it never returns `undefined`; a query the bounds check rejects gives null; a NaN index that passes the bounds check reads `undefined`, which gives NaN; NaN arises only from a NaN coordinate or a buffer shorter than `width * height`; see SampleOnGlobe and SampleComesFromCell for the value read |
| CurrentNdvi.SampleOnGlobe | src/modules/ndvi/ndvi.service.ts:57-82 | on a well-formed raster, a point off the globe gives null (not an error); a point on it gives the decoded cell under it |
| CurrentNdvi.SampleComesFromCell | src/modules/ndvi/ndvi.service.ts:70-77 | the sampler never returns `undefined`; every finite number it returns is a non-sentinel raw cell of the raster divided by 10000 |
| CurrentNdvi.ByteRasterNeverNoData | src/modules/ndvi/ndvi.service.ts:71-77 | when every buffer element is a byte, null means "off the globe" and nothing else, and every value lies in [0, 0.0255] |
| CurrentNdvi.NorthWestCorner | src/modules/ndvi/ndvi.service.ts:62-71 | on a 2 x 2 global raster, (90, -180) reads buffer element 0 |
| CurrentNdvi.TwoByTwoFixture | src/modules/ndvi/ndvi.service.ts:62-77 | raw 20000 at (90, -180) reads 2.0; the sentinel reads null; (-90, 180) reads null |
| CurrentNdvi.NdviService.constructor | src/modules/ndvi/ndvi.service.ts:10-15 | a new service has no raster loaded |
| CurrentNdvi.NdviService.OnModuleInit | src/modules/ndvi/ndvi.service.ts:47-55 | on success the loaded raster is stored; on failure nothing is thrown and the field keeps its previous value |
| CurrentNdvi.NdviService.GetNdviValue | src/modules/ndvi/ndvi.service.ts:57-82 | an unloaded service returns null; a loaded one returns the sample of its raster; the call changes no state |
| CurrentNdvi.StartThenSample | src/modules/ndvi/ndvi.service.ts:47-82 | when start-up fails, every later query returns null; when it succeeds, a query samples the loaded raster |
| LegacyNdvi.LoadConfigured | src/common/utils/ndvi.service.ts:55-71 | a missing or empty path fails with PathNotConfigured; a configured path to a missing file fails with FileNotFound; once both checks pass, the result is exactly that of `initializeTiff` (its raster, or its error); success happens exactly when both checks and the load succeed, and the box is then the global one |
| LegacyNdvi.Sample | src/common/utils/ndvi.service.ts:75-89 | the loaded-raster body of `getNdviValue`: null exactly when the bounds check rejects the query; every number returned is a raw cell of the buffer, unscaled; a NaN index that passes the bounds check reads `undefined`; `undefined` arises only from a NaN coordinate or a buffer shorter than `width * height`; see SampleOnGlobe for the cell read |
| LegacyNdvi.SampleOnGlobe | src/common/utils/ndvi.service.ts:73-94 | on a well-formed raster, null is returned exactly for points off the globe; on the globe the result is the raw cell at `iy * width + ix`, unchanged, with no sentinel and no scaling |
| LegacyNdvi.CurrentDecodesLegacy | src/common/utils/ndvi.service.ts:84-89 | on the same raster the two NestJS revisions reject the same queries; where the older one reads `undefined` the current one gives NaN and the reverse; a raw 32767 that the older one reports is null in the current one; any other raw value the older one reports is divided by 10000 in the current one (src/modules/ndvi/ndvi.service.ts:68-77) |
| LegacyNdvi.NdviService.constructor | src/common/utils/ndvi.service.ts:18-23 | a new service has no raster loaded |
| LegacyNdvi.NdviService.OnModuleInit | src/common/utils/ndvi.service.ts:55-71 | it throws exactly when configuration, existence or loading fails, with that error, and the field is then unchanged; otherwise the raster is stored |
| LegacyNdvi.NdviService.GetNdviValue | src/common/utils/ndvi.service.ts:73-94 | an unloaded service returns null (the caught exception); a loaded one returns the raw sample |
| LegacyNdvi.StartThenSample | src/common/utils/ndvi.service.ts:55-94 | a start-up failure propagates with its error, so the service never ends up silently unloaded; otherwise a query samples the loaded raster |
| DenoProcessor.Calculate | deno/main.ts:106-121 | the closure returns null exactly when the bounds check rejects the query; it throws only when the raster has no band; every number it returns is a raw cell of the first band; see CalculateOnBox for the cell read |
| DenoProcessor.CalculateOnBox | deno/main.ts:106-121 | on a well-formed GeoTIFF the closure never throws; it returns null exactly for points off the image's box; otherwise it returns `rasters[0][iy * width + ix]`, unscaled |
| DenoProcessor.ThrowsOnlyWithoutBand | deno/main.ts:107-119 | the closure throws exactly when the raster has no band and the bounds check passes |
| DenoProcessor.NdviOf | deno/main.ts:41-47 | `ndvi` is `''` exactly when the calculator threw or returned null, NaN or undefined; otherwise it is the returned number, 0 included |
| DenoProcessor.EnrichRecord | deno/main.ts:38-52 | the map callback keeps the input record unchanged; its `ndvi` is `''` exactly when the calculator, given the parsed coordinates, threw or returned null, NaN or undefined, and otherwise is the number it returned |
| DenoProcessor.Enrich | deno/main.ts:37-53 | the output has the input's length and order; record i carries input record i unchanged plus its own `ndvi` |
| DenoProcessor.EnrichAppend | deno/main.ts:37-53 | enriching a concatenation is the concatenation of the enrichments: no record depends on another |
| DenoProcessor.WithNdvi | deno/main.ts:74 | every kept result is from the input and has a value, every input result with a value is kept, and it never keeps more than the input holds; WithNdviCount fixes how many |
| DenoProcessor.CountValued | deno/main.ts:74 | the reference count of results whose `ndvi` is not `''`, one by one: at most the number of results, and zero exactly when every result is blank |
| DenoProcessor.WithNdviCount | deno/main.ts:74 | the filter's length equals the number of results with a value, duplicates included |
| DenoProcessor.AllCountedIffAllValued | deno/main.ts:74 | the valid count equals the record count exactly when every result carries a value |
| DenoProcessor.WithNdviAppend | deno/main.ts:74 | the filter distributes over concatenation |
| DenoProcessor.Process | deno/main.ts:35-76 | the results are the enrichment of the records: result i is the map callback applied to record i; `totalRecords` is the input length and the output length; each output record carries its input record; `validNdviCount` is the filtered length and equals the number of results whose `ndvi` is not `''` (CountValued), and it is at most `totalRecords` |
| DenoProcessor.ProcessAppend | deno/main.ts:35-74 | the valid counts of two halves of the input add up to the count of the whole |
| DenoProcessor.OutputRow | deno/main.ts:55-72 | a written row has 14 cells: the first 13 are the input record's fields in input-column order, and the last is the `ndvi` text |
| DenoProcessor.OutputExtendsInput | deno/main.ts:18-70 | the output header is the 13 input columns in order followed by `ndvi`; every input column names a field of the record, and `ndvi` does not |
| Storage.NdviParam | src/common/utils/storage.service.ts:41 | the `ndvi` parameter is NULL exactly when `ndvi` is absent, 0 or NaN; otherwise it is the value's string form |
| Storage.RowParams | src/common/utils/storage.service.ts:16-42 | an INSERT has 14 parameters; the k-th is the point's value for the k-th column named in the query text; the last is NULL exactly when `ndvi` is falsy |
| Storage.InsertQueries | src/common/utils/storage.service.ts:25-44 | one INSERT per point, in point order, each carrying that point's parameters |
| Storage.TableMatchesCsvHeader | src/common/utils/storage.service.ts:17-21 | the INSERT's column list equals the batch script's output header |
| Storage.Chunks | src/common/utils/storage.service.ts:47-53 | the specification of `chunkArray`: no chunks exactly for an empty input, and the first chunk is the first `size` items (or all of them); FlattenChunks, ChunkSizes and ChunkCount state the rest |
| Storage.ChunkStep | src/common/utils/storage.service.ts:49-50 | one loop iteration: the chunks from `i` on are the slice `[i, i + size)`, cut short at the end, followed by the chunks after it |
| Storage.FlattenChunks | src/common/utils/storage.service.ts:47-53 | concatenating the chunks gives back exactly the input |
| Storage.ChunkSizes | src/common/utils/storage.service.ts:49-50 | every chunk is non-empty and holds at most `size` items; every chunk but the last holds exactly `size` |
| Storage.ChunkCount | src/common/utils/storage.service.ts:49-51 | there are ceil(\|a\| / size) chunks, so an empty input gives none |
| Storage.ChunkExample | src/common/utils/storage.service.ts:47-53 | 2500 items in chunks of 1000 give chunks of 1000, 1000 and 500 items; an empty list gives no chunk |
| Storage.Database.Send | src/common/services/database.service.ts:15-17 | a query appends exactly one entry (its text and parameters) to the log |
| Storage.StorageService.ClearFirePoints | src/common/utils/storage.service.ts:9-13 | appends exactly one query, `TRUNCATE TABLE fire_points RESTART IDENTITY`, with no parameters |
| Storage.StorageService.InsertFirePoints | src/common/utils/storage.service.ts:15-45 | appends exactly the INSERT queries of the points, one per point, and nothing else |
| Storage.StorageService.ChunkArray | src/common/utils/storage.service.ts:47-53 | the loop returns `Chunks(a, size)`: the chunks concatenate back to the input, have the stated sizes, and number ceil(\|a\| / size); `size > 0` is required, because the loop never ends otherwise |

## Left out

- Image decoding with sharp and geotiff is not modelled (`metadata`, `raw().toBuffer()`, `fromFile`, `readRasters`, `getBoundingBox`). Width, height, pixels and box are inputs.
- Buffer channel and byte layout is not modelled. A raw buffer from an image with several channels interleaves them. The model reads element `iy * width + ix` exactly as the code does, and does not ask which pixel or channel that element belongs to.
- IEEE-754 rounding of the coordinate arithmetic is not modelled: the arithmetic is exact `real`. Infinities are not modelled either. NaN is.
- DenoProcessor.Calculate: requires a box of positive size (`ValidBox`), because the division by `xMax - xMin` and `yMax - yMin` is exact. A degenerate GeoTIFF box, where the script divides by zero, is outside the model. The NestJS services always use the global box.
- `DenoProcessor.Calculate`: the closure returned by `createCalculator` is modelled as a function of the raster and the point, not as a first-class closure.
- The batch script's file checks, CSV parsing and writing, file reads and writes, and console output are not modelled. The parsed records and the decoded GeoTIFF are inputs, and `DenoProcessor.OutputRow` gives the row layout, not the CSV text with its quoting.
- Logging of errors (`logger.error`, `console.warn`) is not modelled.
- The existence check on the configured file is a boolean input, not a file system.
- Number formatting (`toString`) is a function parameter.
- Storage: query failures and rejected promises are not modelled. The `Promise.all` in `insertFirePoints` runs its queries concurrently; the log records them in issue order, not in completion order.
- Postgres itself is not modelled: the connection pool, the TRUNCATE's effect on table contents and the TypeORM column precision.
- HTTP download, configuration loading and the controller are outside the modelled core.
- The orchestration that calls `clearFirePoints`, `chunkArray` and `insertFirePoints` together (`saveToDatabase`) is not part of this model.
