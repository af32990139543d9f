/** The storage service: it empties the `fire_points` table, turns fire
    points into parameterised INSERT queries, and cuts a list into chunks.
    The database is modelled as the log of the queries sent to it. */
module Storage {
  import opened Wrappers
  import opened JsValues
  import DenoProcessor
  import opened Arith

  /** One fire point as the service receives it; `ndvi` is optional. */
  datatype FirePoint = FirePoint(
    latitude: real, longitude: real, brightTi4: real, scan: real, track: real,
    acqDate: string, acqTime: string, satellite: string, confidence: string, version: string,
    brightTi5: real, frp: real, daynight: string, ndvi: Option<Num>)

  /** A query parameter: a text value or SQL NULL. */
  datatype Param = Text(s: string) | SqlNull

  /** One call of the database's `query(text, params?)`. */
  datatype Query = Query(text: string, params: Option<seq<Param>>)

  const TruncateSql := "TRUNCATE TABLE fire_points RESTART IDENTITY"

  const InsertSql :=
    "\n      INSERT INTO fire_points (\n" +
    "        latitude, longitude, bright_ti4, scan, track,\n" +
    "        acq_date, acq_time, satellite, confidence, version,\n" +
    "        bright_ti5, frp, daynight, ndvi\n" +
    "      ) \n" +
    "      VALUES ($1, $2, $3, $4, $5, $6, $7, $8, $9, $10, $11, $12, $13, $14)\n" +
    "    "

  /** The column list of `InsertSql`, in order; `$k` fills column k. The two
      must name the same columns in the same order: `RowParams` is stated
      against this list. */
  const InsertColumns: seq<string> := [
    "latitude", "longitude", "bright_ti4", "scan", "track", "acq_date", "acq_time",
    "satellite", "confidence", "version", "bright_ti5", "frp", "daynight", "ndvi"]

  /** JavaScript truthiness of the optional `ndvi`: absent, 0 and NaN are falsy. */
  predicate Truthy(ndvi: Option<Num>)
  {
    ndvi.Some? && ndvi.value.Finite? && ndvi.value.value != 0.0
  }

  /** `point.ndvi ? point.ndvi.toString() : null`; number formatting is an input. */
  function NdviParam(ndvi: Option<Num>, show: real -> string): (p: Param)
    ensures p == SqlNull <==> ndvi.None? || ndvi == Some(NaN) || ndvi == Some(Finite(0.0))
    ensures p.Text? ==> ndvi.Some? && ndvi.value.Finite? && p.s == show(ndvi.value.value)
  {
    match ndvi
    case None => SqlNull
    case Some(NaN) => SqlNull
    case Some(Finite(v)) => if v != 0.0 then Text(show(v)) else SqlNull
  }

  /** The value bound to a named column of the INSERT for one point. */
  function ParamFor(p: FirePoint, column: string, show: real -> string): Option<Param>
  {
    match column
    case "latitude" => Some(Text(show(p.latitude)))
    case "longitude" => Some(Text(show(p.longitude)))
    case "bright_ti4" => Some(Text(show(p.brightTi4)))
    case "scan" => Some(Text(show(p.scan)))
    case "track" => Some(Text(show(p.track)))
    case "acq_date" => Some(Text(p.acqDate))
    case "acq_time" => Some(Text(p.acqTime))
    case "satellite" => Some(Text(p.satellite))
    case "confidence" => Some(Text(p.confidence))
    case "version" => Some(Text(p.version))
    case "bright_ti5" => Some(Text(show(p.brightTi5)))
    case "frp" => Some(Text(show(p.frp)))
    case "daynight" => Some(Text(p.daynight))
    case "ndvi" => Some(NdviParam(p.ndvi, show))
    case _ => None
  }

  /** The parameter array of one INSERT: 14 values, the k-th one being the
      point's value for the k-th column named in the query text. */
  function RowParams(p: FirePoint, show: real -> string): (ps: seq<Param>)
    ensures |ps| == |InsertColumns| == 14
    ensures forall k :: 0 <= k < |InsertColumns| ==> ParamFor(p, InsertColumns[k], show) == Some(ps[k])
    ensures ps[13] == SqlNull <==> !Truthy(p.ndvi)
  {
    [ Text(show(p.latitude)), Text(show(p.longitude)), Text(show(p.brightTi4)),
      Text(show(p.scan)), Text(show(p.track)), Text(p.acqDate), Text(p.acqTime),
      Text(p.satellite), Text(p.confidence), Text(p.version),
      Text(show(p.brightTi5)), Text(show(p.frp)), Text(p.daynight),
      NdviParam(p.ndvi, show) ]
  }

  /** The queries `insertFirePoints` issues: one INSERT per point, in the
      order of the points. */
  function InsertQueries(points: seq<FirePoint>, show: real -> string): (qs: seq<Query>)
    ensures |qs| == |points|
    ensures forall i :: 0 <= i < |points| ==>
      qs[i].text == InsertSql && qs[i].params == Some(RowParams(points[i], show))
  {
    seq(|points|, i requires 0 <= i < |points| => Query(InsertSql, Some(RowParams(points[i], show))))
  }

  /** The table's columns are the batch script's output header, in the same order. */
  lemma TableMatchesCsvHeader()
    ensures InsertColumns == DenoProcessor.OutputColumns
  {
  }

  // ---------------------------------------------------------------------
  // Chunking

  function Min(a: int, b: int): int
  {
    if a <= b then a else b
  }

  /** The chunks `chunkArray` produces: slices of `size` items from the front,
      the last one possibly shorter. */
  function Chunks<T>(a: seq<T>, size: nat): (chunks: seq<seq<T>>)
    requires size > 0
    ensures chunks == [] <==> a == []
    ensures chunks != [] ==> chunks[0] == a[..Min(size, |a|)]
    decreases |a|
  {
    if |a| == 0 then [] else [a[..Min(size, |a|)]] + Chunks(a[Min(size, |a|)..], size)
  }

  /** The concatenation of a list of chunks. */
  function Flatten<T>(chunks: seq<seq<T>>): seq<T>
  {
    if chunks == [] then [] else chunks[0] + Flatten(chunks[1..])
  }

  /** Concatenating the chunks gives back the input. */
  lemma {:induction false} FlattenChunks<T>(a: seq<T>, size: nat)
    requires size > 0
    ensures Flatten(Chunks(a, size)) == a
    decreases |a|
  {
    if |a| > 0 {
      var n := Min(size, |a|);
      var cs := Chunks(a, size);
      assert cs == [a[..n]] + Chunks(a[n..], size);
      assert cs[0] == a[..n] && cs[1..] == Chunks(a[n..], size);
      assert Flatten(cs) == a[..n] + Flatten(Chunks(a[n..], size));
      FlattenChunks(a[n..], size);
      assert a[..n] + a[n..] == a;
    }
  }

  /** Every chunk holds between 1 and `size` items, and every chunk but the
      last exactly `size`. */
  lemma {:induction false} ChunkSizes<T>(a: seq<T>, size: nat)
    requires size > 0
    ensures forall k :: 0 <= k < |Chunks(a, size)| ==> 0 < |Chunks(a, size)[k]| <= size
    ensures forall k :: 0 <= k < |Chunks(a, size)| - 1 ==> |Chunks(a, size)[k]| == size
    decreases |a|
  {
    if |a| > 0 {
      var n := Min(size, |a|);
      var cs, rest := Chunks(a, size), Chunks(a[n..], size);
      ChunkSizes(a[n..], size);
      assert cs == [a[..n]] + rest;
      assert n < size ==> rest == [];
      assert forall k :: 1 <= k < |cs| ==> cs[k] == rest[k - 1];
    }
  }

  /** There are ceil(|a| / size) chunks. */
  lemma {:induction false} ChunkCount<T>(a: seq<T>, size: nat)
    requires size > 0
    ensures |Chunks(a, size)| == (|a| + size - 1) / size
    decreases |a|
  {
    if |a| == 0 {
      DivModUnique(size - 1, size, 0, size - 1);
    } else if |a| <= size {
      DivModUnique(|a| + size - 1, size, 1, |a| - 1);
    } else {
      ChunkCount(a[size..], size);
      DivStep(|a| - size, size);
    }
  }

  /** Adding `size` items adds one to the number of chunks. */
  lemma DivStep(m: nat, size: nat)
    requires size > 0
    ensures (m + size + size - 1) / size == (m + size - 1) / size + 1
  {
    var q, r := (m + size - 1) / size, (m + size - 1) % size;
    assert (q + 1) * size == q * size + size;
    DivModUnique(m + size + size - 1, size, q + 1, r);
  }

  /** 2500 items in chunks of 1000 give three chunks of 1000, 1000 and 500
      items, and the empty list gives no chunk at all. */
  lemma {:induction false} ChunkExample<T>(a: seq<T>)
    requires |a| == 2500
    ensures |Chunks(a, 1000)| == 3
    ensures |Chunks(a, 1000)[0]| == 1000 && |Chunks(a, 1000)[1]| == 1000 && |Chunks(a, 1000)[2]| == 500
    ensures Chunks<T>([], 1000) == []
  {
    var b, c := a[1000..], a[2000..];
    assert a[1000..][1000..] == c;
    assert c[..500] == c && |c[500..]| == 0;
    assert Chunks(c, 1000) == [c];
    assert Chunks(b, 1000) == [b[..1000], c];
  }

  /** One step of `chunkArray`: the chunks from `i` on are the slice
      `[i, i + size)`, cut short at the end, followed by the chunks after it. */
  lemma ChunkStep<T>(a: seq<T>, i: nat, size: nat)
    requires size > 0 && i < |a|
    ensures Chunks(a[i..], size) == [a[i..Min(i + size, |a|)]] + Chunks(a[Min(i + size, |a|)..], size)
  {
    var rest := a[i..];
    var n := Min(size, |rest|);
    assert rest[..n] == a[i..Min(i + size, |a|)];
    assert rest[n..] == a[Min(i + size, |a|)..];
  }

  // ---------------------------------------------------------------------
  // The database and the service

  /** The database connection, seen through the queries sent to it. */
  class Database {
    var log: seq<Query>

    constructor ()
      ensures log == []
    {
      log := [];
    }

    /** `query(text, params?)`: appends one query to the log. */
    method Send(text: string, params: Option<seq<Param>>)
      modifies this
      ensures log == old(log) + [Query(text, params)]
    {
      log := log + [Query(text, params)];
    }
  }

  class StorageService {
    const db: Database

    constructor (db: Database)
      ensures this.db == db
    {
      this.db := db;
    }

    /** `clearFirePoints`: exactly one TRUNCATE query, without parameters. */
    method ClearFirePoints()
      modifies db
      ensures db.log == old(db.log) + [Query(TruncateSql, None)]
    {
      db.Send(TruncateSql, None);
    }

    /** `insertFirePoints`: one INSERT per point, each with the point's
        14 parameters. The queries run concurrently under `Promise.all`;
        the log lists them in the order they are issued. */
    method InsertFirePoints(points: seq<FirePoint>, show: real -> string)
      modifies db
      ensures db.log == old(db.log) + InsertQueries(points, show)
    {
      for i := 0 to |points|
        invariant db.log == old(db.log) + InsertQueries(points[..i], show)
      {
        db.Send(InsertSql, Some(RowParams(points[i], show)));
        assert InsertQueries(points[..i + 1], show)
          == InsertQueries(points[..i], show) + [Query(InsertSql, Some(RowParams(points[i], show)))];
      }
      assert points[..|points|] == points;
    }

    /** `chunkArray`: the loop advances `i` by `size` and pushes the slice
        `[i, i + size)` (cut short at the end). `size` must be positive, or
        the loop never ends. */
    static method ChunkArray<T>(a: seq<T>, size: nat) returns (chunks: seq<seq<T>>)
      requires size > 0
      ensures chunks == Chunks(a, size)
      ensures Flatten(chunks) == a
      ensures |chunks| == (|a| + size - 1) / size
      ensures forall k :: 0 <= k < |chunks| ==> 0 < |chunks[k]| <= size
      ensures forall k :: 0 <= k < |chunks| - 1 ==> |chunks[k]| == size
    {
      chunks := [];
      var i := 0;
      while i < |a|
        invariant chunks + Chunks(a[Min(i, |a|)..], size) == Chunks(a, size)
      {
        ChunkStep(a, i, size);
        chunks := chunks + [a[i..Min(i + size, |a|)]];
        i := i + size;
      }
      FlattenChunks(a, size);
      ChunkSizes(a, size);
      ChunkCount(a, size);
    }
  }
}
