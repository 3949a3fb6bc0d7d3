/** The database side of the monitoring-spreadsheet importer
    (backend/app/utils/excel_importer.py): ingest records, sensor metrics and the chunked
    insert of readings, over an in-memory store that stands for the tables. */
module ExcelIngest {
  import opened Wrappers
  import opened Dicts
  import opened ExcelImporter
  import opened ExcelParsing

  /** A row of `ingest_files`. */
  datatype IngestFile = IngestFile(id: nat, sensorId: nat, path: string, checksum: string, fileMtime: string,
                                   status: string, rowsImported: Option<int>)

  /** A row of `sensor_metrics`. */
  datatype SensorMetric = SensorMetric(id: nat, sensorId: nat, metricKey: string, nameCn: string, unit: Option<string>,
                                       dataType: string, warnLow: Option<real>, warnHigh: Option<real>)

  /** A row for `sensor_readings` (is_simulated false, quality_flag "normal", no remark). */
  datatype ReadingRow = ReadingRow(sensorId: nat, metricId: nat, readingTime: Instant, valueNum: Option<real>,
                                   valueText: Option<string>, unit: Option<string>, raw: Dict<string, Option<Value>>,
                                   sourceFileId: nat)

  /** What the driver reports as `rowcount` for an executed insert of these rows. */
  type RowCounter = seq<ReadingRow> -> int

  datatype Warn = Warn(low: Option<real>, high: Option<real>)

  /** `default_warn`: thresholds a new metric starts with. */
  function DefaultWarn(metricKey: string): (w: Warn)
    ensures metricKey !in {"pore_pressure", "stress", "water_level", "rainfall"} ==> w == Warn(None, None)
    ensures w.low.Some? ==> metricKey == "stress"
  {
    if metricKey == "pore_pressure" then Warn(None, Some(80.0))
    else if metricKey == "stress" then Warn(Some(-10.0), Some(200.0))
    else if metricKey == "water_level" then Warn(None, Some(70.0))
    else if metricKey == "rainfall" then Warn(None, Some(50.0))
    else Warn(None, None)
  }

  /** The metric `_ensure_metrics` creates for a mapped column. */
  function NewMetric(id: nat, sensorId: nat, m: MetricColumn): SensorMetric {
    var w := DefaultWarn(m.metricKey);
    SensorMetric(id, sensorId, m.metricKey,
                 if m.name.Some? && m.name.value != "" then m.name.value else m.metricKey,
                 m.unit, if m.dataType != "" then m.dataType else "number", w.low, w.high)
  }

  /** The created metric is named after its key when the column has no name, and takes the
      default thresholds of its key. */
  lemma NewMetricSpec(id: nat, sensorId: nat, m: MetricColumn)
    ensures var r := NewMetric(id, sensorId, m);
      && r.metricKey == m.metricKey && r.sensorId == sensorId && r.unit == m.unit
      && (m.name.None? ==> r.nameCn == m.metricKey)
      && r.dataType != ""
      && Warn(r.warnLow, r.warnHigh) == DefaultWarn(m.metricKey)
      && (m.metricKey == "stress" ==> r.warnLow == Some(-10.0) && r.warnHigh == Some(200.0))
  {
  }

  // ---------------------------------------------------------------------------------------------
  // Lookups (the `select ... where` queries; `scalar` takes the first row)

  predicate IngestFor(f: IngestFile, sensorId: nat, checksum: string) {
    f.sensorId == sensorId && f.checksum == checksum
  }

  function FindIngest(ingests: seq<IngestFile>, sensorId: nat, checksum: string): (r: Option<nat>)
    ensures r.None? <==> forall i :: 0 <= i < |ingests| ==> !IngestFor(ingests[i], sensorId, checksum)
    ensures r.Some? ==> r.value < |ingests| && IngestFor(ingests[r.value], sensorId, checksum)
                        && forall j :: 0 <= j < r.value ==> !IngestFor(ingests[j], sensorId, checksum)
    decreases |ingests|
  {
    if ingests == [] then None
    else if IngestFor(ingests[0], sensorId, checksum) then Some(0)
    else match FindIngest(ingests[1..], sensorId, checksum)
      case None => None
      case Some(i) => Some(i + 1)
  }

  predicate MetricFor(m: SensorMetric, sensorId: nat, metricKey: string) {
    m.sensorId == sensorId && m.metricKey == metricKey
  }

  function FindMetric(metrics: seq<SensorMetric>, sensorId: nat, metricKey: string): (r: Option<nat>)
    ensures r.None? <==> forall i :: 0 <= i < |metrics| ==> !MetricFor(metrics[i], sensorId, metricKey)
    ensures r.Some? ==> r.value < |metrics| && MetricFor(metrics[r.value], sensorId, metricKey)
                        && forall j :: 0 <= j < r.value ==> !MetricFor(metrics[j], sensorId, metricKey)
    decreases |metrics|
  {
    if metrics == [] then None
    else if MetricFor(metrics[0], sensorId, metricKey) then Some(0)
    else match FindMetric(metrics[1..], sensorId, metricKey)
      case None => None
      case Some(i) => Some(i + 1)
  }

  /** What `_get_or_create_ingest` does for a file. */
  datatype IngestDecision = Skip | Reuse(index: nat) | Create

  /** An earlier import of the same (sensor, checksum) that stored rows makes the file a
      duplicate; one that stored none (0 or None) is reused; otherwise a record is created. */
  function Decide(ingests: seq<IngestFile>, sensorId: nat, checksum: string): (d: IngestDecision)
    ensures d.Create? <==> forall i :: 0 <= i < |ingests| ==> !IngestFor(ingests[i], sensorId, checksum)
    ensures d.Skip? <==> exists i :: 0 <= i < |ingests| && IngestFor(ingests[i], sensorId, checksum)
                                    && ingests[i].rowsImported.Some? && ingests[i].rowsImported.value > 0
                                    && forall j :: 0 <= j < i ==> !IngestFor(ingests[j], sensorId, checksum)
    ensures d.Reuse? ==> d.index < |ingests| && IngestFor(ingests[d.index], sensorId, checksum)
                         && !(ingests[d.index].rowsImported.Some? && ingests[d.index].rowsImported.value > 0)
  {
    match FindIngest(ingests, sensorId, checksum)
    case None => Create
    case Some(i) =>
      if ingests[i].rowsImported.Some? && ingests[i].rowsImported.value > 0 then Skip else Reuse(i)
  }

  // ---------------------------------------------------------------------------------------------
  // Readings to rows, and chunks

  /** `row.get("units", {}).get(metric_key)`. */
  function UnitOf(reading: Reading, metricKey: string): Option<string> {
    match Get(reading.units, metricKey)
    case Some(u) => u
    case None => None
  }

  /** `metric_ids.get(metric_key)` when it is truthy (present and not 0). */
  function MetricIdOf(metricIds: Dict<string, nat>, metricKey: string): Option<nat> {
    match Get(metricIds, metricKey)
    case Some(id) => if id != 0 then Some(id) else None
    case None => None
  }

  /** The rows `_insert_readings` builds for the metric entries `entries` of one reading: one
      per entry whose metric has an id. */
  function EntryRows(sensorId: nat, metricIds: Dict<string, nat>, reading: Reading, entries: Dict<string, Value>,
                     ingestId: nat, parseFloat: FloatParser): seq<ReadingRow>
    decreases |entries|
  {
    if entries == [] then []
    else
      var (key, value) := entries[|entries| - 1];
      var before := EntryRows(sensorId, metricIds, reading, entries[..|entries| - 1], ingestId, parseFloat);
      match MetricIdOf(metricIds, key)
      case None => before
      case Some(id) =>
        var (num, text) := SplitValue(parseFloat, Some(value));
        before + [ReadingRow(sensorId, id, reading.time, num, text, UnitOf(reading, key), reading.raw, ingestId)]
  }

  /** All rows built from the readings, reading by reading. */
  function RowsOf(sensorId: nat, metricIds: Dict<string, nat>, readings: seq<Reading>, ingestId: nat,
                  parseFloat: FloatParser): seq<ReadingRow>
    decreases |readings|
  {
    if readings == [] then []
    else
      var last := readings[|readings| - 1];
      RowsOf(sensorId, metricIds, readings[..|readings| - 1], ingestId, parseFloat)
        + EntryRows(sensorId, metricIds, last, last.metrics, ingestId, parseFloat)
  }

  /** The rows depend on the metric ids only through their lookups: two id tables that answer
      every key alike build the same rows. */
  lemma {:induction false} RowsOfLookupsOnly(sensorId: nat, a: Dict<string, nat>, b: Dict<string, nat>,
                                             readings: seq<Reading>, ingestId: nat, parseFloat: FloatParser)
    requires forall k :: Get(a, k) == Get(b, k)
    ensures RowsOf(sensorId, a, readings, ingestId, parseFloat) == RowsOf(sensorId, b, readings, ingestId, parseFloat)
    decreases |readings|
  {
    if readings != [] {
      var last := readings[|readings| - 1];
      RowsOfLookupsOnly(sensorId, a, b, readings[..|readings| - 1], ingestId, parseFloat);
      EntryRowsLookupsOnly(sensorId, a, b, last, last.metrics, ingestId, parseFloat);
    }
  }

  lemma {:induction false} EntryRowsLookupsOnly(sensorId: nat, a: Dict<string, nat>, b: Dict<string, nat>,
                                                reading: Reading, entries: Dict<string, Value>, ingestId: nat,
                                                parseFloat: FloatParser)
    requires forall k :: Get(a, k) == Get(b, k)
    ensures EntryRows(sensorId, a, reading, entries, ingestId, parseFloat)
         == EntryRows(sensorId, b, reading, entries, ingestId, parseFloat)
    decreases |entries|
  {
    if entries != [] {
      EntryRowsLookupsOnly(sensorId, a, b, reading, entries[..|entries| - 1], ingestId, parseFloat);
      assert MetricIdOf(a, entries[|entries| - 1].0) == MetricIdOf(b, entries[|entries| - 1].0);
    }
  }

  /** Some metric key maps to `id`. */
  ghost predicate IsMetricId(metricIds: Dict<string, nat>, id: nat) {
    exists k :: Get(metricIds, k) == Some(id)
  }

  /** A built row belongs to the sensor and the ingest, carries a non-zero metric id that one
      of the metric keys maps to, and has at most one of a number and a text. */
  ghost predicate RowBelongs(r: ReadingRow, sensorId: nat, metricIds: Dict<string, nat>, ingestId: nat) {
    && r.sensorId == sensorId && r.sourceFileId == ingestId
    && r.metricId != 0 && IsMetricId(metricIds, r.metricId)
    && !(r.valueNum.Some? && r.valueText.Some?)
  }

  /** The rows of one reading belong to the sensor and the ingest, carry the reading's time, and
      there is at most one per entry. */
  lemma {:induction false} EntryRowsShape(sensorId: nat, metricIds: Dict<string, nat>, reading: Reading,
                                          entries: Dict<string, Value>, ingestId: nat, parseFloat: FloatParser)
    ensures |EntryRows(sensorId, metricIds, reading, entries, ingestId, parseFloat)| <= |entries|
    ensures forall i :: 0 <= i < |EntryRows(sensorId, metricIds, reading, entries, ingestId, parseFloat)| ==>
      var r := EntryRows(sensorId, metricIds, reading, entries, ingestId, parseFloat)[i];
      RowBelongs(r, sensorId, metricIds, ingestId) && r.readingTime == reading.time
    decreases |entries|
  {
    if entries != [] {
      var (key, value) := entries[|entries| - 1];
      var init := entries[..|entries| - 1];
      EntryRowsShape(sensorId, metricIds, reading, init, ingestId, parseFloat);
      match MetricIdOf(metricIds, key)
      case None =>
      case Some(id) =>
        assert Get(metricIds, key) == Some(id);
        assert IsMetricId(metricIds, id);
    }
  }

  /** Every row built from the readings belongs to the sensor and the ingest. */
  lemma {:induction false} RowsOfShape(sensorId: nat, metricIds: Dict<string, nat>, readings: seq<Reading>,
                                       ingestId: nat, parseFloat: FloatParser)
    ensures forall i :: 0 <= i < |RowsOf(sensorId, metricIds, readings, ingestId, parseFloat)| ==>
      RowBelongs(RowsOf(sensorId, metricIds, readings, ingestId, parseFloat)[i], sensorId, metricIds, ingestId)
    decreases |readings|
  {
    if readings != [] {
      var last := readings[|readings| - 1];
      var init := RowsOf(sensorId, metricIds, readings[..|readings| - 1], ingestId, parseFloat);
      var tail := EntryRows(sensorId, metricIds, last, last.metrics, ingestId, parseFloat);
      RowsOfShape(sensorId, metricIds, readings[..|readings| - 1], ingestId, parseFloat);
      EntryRowsShape(sensorId, metricIds, last, last.metrics, ingestId, parseFloat);
      var rs := init + tail;
      forall i | 0 <= i < |rs| ensures RowBelongs(rs[i], sensorId, metricIds, ingestId) {
        if i >= |init| {
          assert rs[i] == tail[i - |init|];
          assert RowBelongs(tail[i - |init|], sensorId, metricIds, ingestId);
        } else {
          assert rs[i] == init[i];
          assert RowBelongs(init[i], sensorId, metricIds, ingestId);
        }
      }
    }
  }

  /** Entries whose key has no id add no row. */
  lemma {:induction false} EntryRowsWithoutIds(sensorId: nat, reading: Reading, entries: Dict<string, Value>,
                                               ingestId: nat, parseFloat: FloatParser)
    ensures EntryRows(sensorId, [], reading, entries, ingestId, parseFloat) == []
    decreases |entries|
  {
    if entries != [] {
      EntryRowsWithoutIds(sensorId, reading, entries[..|entries| - 1], ingestId, parseFloat);
    }
  }

  /** The consecutive chunks `objs[i : i + size]` for i = 0, size, 2 size, ... */
  function Chunks<T>(objs: seq<T>, size: nat): seq<seq<T>>
    requires size > 0
    decreases |objs|
  {
    if objs == [] then []
    else if |objs| <= size then [objs]
    else [objs[..size]] + Chunks(objs[size..], size)
  }

  function Concat<T>(xss: seq<seq<T>>): seq<T> {
    if xss == [] then [] else xss[0] + Concat(xss[1..])
  }

  /** Together the chunks are the rows, in order. */
  lemma {:induction false} ChunksConcat<T>(objs: seq<T>, size: nat)
    requires size > 0
    ensures Concat(Chunks(objs, size)) == objs
    decreases |objs|
  {
    if |objs| > size {
      ChunksConcat(objs[size..], size);
      assert Chunks(objs, size)[1..] == Chunks(objs[size..], size);
      assert objs == objs[..size] + objs[size..];
    } else if objs != [] {
      assert Concat([objs]) == objs + Concat([objs][1..]);
    }
  }

  /** The chunks are non-empty, at most `size` long, and all but the last exactly `size` long. */
  lemma {:induction false} ChunksSizes<T>(objs: seq<T>, size: nat)
    requires size > 0
    ensures forall i :: 0 <= i < |Chunks(objs, size)| ==> 0 < |Chunks(objs, size)[i]| <= size
    ensures forall i :: 0 <= i < |Chunks(objs, size)| - 1 ==> |Chunks(objs, size)[i]| == size
    ensures objs == [] <==> Chunks(objs, size) == []
    decreases |objs|
  {
    if |objs| > size {
      ChunksSizes(objs[size..], size);
      assert forall i :: 1 <= i < |Chunks(objs, size)| ==> Chunks(objs, size)[i] == Chunks(objs[size..], size)[i - 1];
    }
  }

  /** The first chunk of `objs[start..]` is `objs[start : start + size]` and the rest are the
      chunks after it. */
  lemma ChunkStep<T>(objs: seq<T>, start: nat)
    requires start < |objs|
    ensures var end := if start + 500 <= |objs| then start + 500 else |objs|;
      Chunks(objs[start..], 500) == [objs[start..end]] + Chunks(objs[end..], 500)
  {
    var end := if start + 500 <= |objs| then start + 500 else |objs|;
    if |objs[start..]| > 500 {
      assert objs[start..][..500] == objs[start..end];
      assert objs[start..][500..] == objs[end..];
    } else {
      assert objs[start..] == objs[start..end];
      assert objs[end..] == [];
    }
  }

  /** One more chunk sent: the chunks sent so far grow by the first chunk of the rest. */
  lemma ChunksAdvance<T>(objs: seq<T>, start: nat, done: seq<seq<T>>)
    requires start < |objs|
    requires Chunks(objs, 500) == done + Chunks(objs[start..], 500)
    ensures var end := if start + 500 <= |objs| then start + 500 else |objs|;
      Chunks(objs, 500) == (done + [objs[start..end]]) + Chunks(objs[end..], 500)
  {
    ChunkStep(objs, start);
  }

  /** `total += rowcount if rowcount > 0 else len(chunk)`, over the chunks. */
  function Counted(chunks: seq<seq<ReadingRow>>, rowcount: RowCounter): int
    decreases |chunks|
  {
    if chunks == [] then 0
    else
      var last := chunks[|chunks| - 1];
      Counted(chunks[..|chunks| - 1], rowcount) + (if rowcount(last) > 0 then rowcount(last) else |last|)
  }

  lemma CountedSnoc(chunks: seq<seq<ReadingRow>>, chunk: seq<ReadingRow>, rowcount: RowCounter)
    ensures Counted(chunks + [chunk], rowcount) ==
      Counted(chunks, rowcount) + (if rowcount(chunk) > 0 then rowcount(chunk) else |chunk|)
  {
    assert (chunks + [chunk])[..|chunks|] == chunks;
  }

  /** A driver that reports -1 (or 0) for every statement makes the total the number of rows. */
  lemma {:induction false} CountedWithoutRowcount(objs: seq<ReadingRow>, rowcount: RowCounter)
    requires forall c :: rowcount(c) <= 0
    ensures Counted(Chunks(objs, 500), rowcount) == |objs|
  {
    ChunksConcat(objs, 500);
    CountedIsLength(Chunks(objs, 500), rowcount);
  }

  lemma {:induction false} CountedIsLength(chunks: seq<seq<ReadingRow>>, rowcount: RowCounter)
    requires forall c :: rowcount(c) <= 0
    ensures Counted(chunks, rowcount) == |Concat(chunks)|
    decreases |chunks|
  {
    if chunks != [] {
      var init := chunks[..|chunks| - 1];
      CountedIsLength(init, rowcount);
      ConcatSnoc(init, chunks[|chunks| - 1]);
      assert chunks == init + [chunks[|chunks| - 1]];
    }
  }

  lemma {:induction false} ConcatSnoc<T>(xss: seq<seq<T>>, xs: seq<T>)
    ensures Concat(xss + [xs]) == Concat(xss) + xs
    decreases |xss|
  {
    if xss == [] {
      assert Concat([xs]) == xs + Concat([xs][1..]);
    } else {
      assert (xss + [xs])[1..] == xss[1..] + [xs];
      ConcatSnoc(xss[1..], xs);
    }
  }

  /** The total of a driver that always reports a positive count is the sum of its reports,
      whatever the chunk lengths. */
  lemma {:induction false} CountedPositive(chunks: seq<seq<ReadingRow>>, rowcount: RowCounter)
    requires forall c :: rowcount(c) > 0
    ensures Counted(chunks, rowcount) >= |chunks|
    decreases |chunks|
  {
    if chunks != [] {
      CountedPositive(chunks[..|chunks| - 1], rowcount);
    }
  }

  /** The id of the sensor's metric with this key, if the sensor has one. */
  function StoredId(metrics: seq<SensorMetric>, sensorId: nat, metricKey: string): (r: Option<nat>)
    ensures r.None? <==> forall i :: 0 <= i < |metrics| ==> !MetricFor(metrics[i], sensorId, metricKey)
  {
    match FindMetric(metrics, sensorId, metricKey)
    case Some(i) => Some(metrics[i].id)
    case None => None
  }

  /** Adding a metric leaves every key that was found as it was, and makes the new one found
      for its own (sensor, key) when it was missing. */
  lemma StoredIdAppend(metrics: seq<SensorMetric>, m: SensorMetric, sensorId: nat, metricKey: string)
    ensures StoredId(metrics + [m], sensorId, metricKey) ==
      if StoredId(metrics, sensorId, metricKey).Some? then StoredId(metrics, sensorId, metricKey)
      else if MetricFor(m, sensorId, metricKey) then Some(m.id)
      else None
  {
    var ms := metrics + [m];
    assert forall t :: 0 <= t < |metrics| ==> ms[t] == metrics[t];
    match FindMetric(metrics, sensorId, metricKey)
    case Some(i) =>
      assert ms[i] == metrics[i];
      var j := FindMetric(ms, sensorId, metricKey).value;
      assert j == i;
    case None =>
      if MetricFor(m, sensorId, metricKey) {
        assert ms[|metrics|] == m;
        var j := FindMetric(ms, sensorId, metricKey).value;
        assert j == |metrics|;
      } else {
        forall i | 0 <= i < |ms| ensures !MetricFor(ms[i], sensorId, metricKey) {
          if i < |metrics| {
            assert ms[i] == metrics[i];
          }
        }
      }
  }

  /** Some of the first `n` mapped columns has this metric key. */
  ghost predicate KeyAmong(columns: Dict<string, MetricColumn>, n: nat, metricKey: string) {
    exists j :: 0 <= j < n && j < |columns| && columns[j].1.metricKey == metricKey
  }

  lemma KeyAmongStep(columns: Dict<string, MetricColumn>, n: nat, metricKey: string)
    requires n < |columns|
    ensures KeyAmong(columns, n + 1, metricKey) <==> KeyAmong(columns, n, metricKey) || columns[n].1.metricKey == metricKey
  {
    if KeyAmong(columns, n + 1, metricKey) && !KeyAmong(columns, n, metricKey) {
      var j :| 0 <= j < n + 1 && j < |columns| && columns[j].1.metricKey == metricKey;
      assert j == n;
    }
  }

  /** `ids` holds, for every metric key of the mapped columns, the sensor's stored metric id,
      and nothing else. */
  ghost predicate IdsFor(ids: Dict<string, nat>, metrics: seq<SensorMetric>, sensorId: nat,
                         columns: Dict<string, MetricColumn>) {
    forall k :: Get(ids, k) == if KeyAmong(columns, |columns|, k) then StoredId(metrics, sensorId, k) else None
  }

  /** `m` is the metric `_ensure_metrics` creates from the first mapped column with its key. */
  ghost predicate CreatedFrom(m: SensorMetric, sensorId: nat, columns: Dict<string, MetricColumn>) {
    exists j :: 0 <= j < |columns| && columns[j].1.metricKey == m.metricKey && !KeyAmong(columns, j, m.metricKey)
                && m == NewMetric(m.id, sensorId, columns[j].1)
  }

  /** The row building loop of `_insert_readings`: one row per metric entry of every reading
      whose key has an id, reading by reading. */
  method BuildRows(sensorId: nat, metricIds: Dict<string, nat>, readings: seq<Reading>, ingestId: nat,
                   parseFloat: FloatParser) returns (objs: seq<ReadingRow>)
    ensures objs == RowsOf(sensorId, metricIds, readings, ingestId, parseFloat)
  {
    objs := [];
    var r := 0;
    while r < |readings|
      invariant 0 <= r <= |readings|
      invariant objs == RowsOf(sensorId, metricIds, readings[..r], ingestId, parseFloat)
    {
      var reading := readings[r];
      ghost var before := objs;
      var e := 0;
      while e < |reading.metrics|
        invariant 0 <= e <= |reading.metrics|
        invariant objs == before + EntryRows(sensorId, metricIds, reading, reading.metrics[..e], ingestId, parseFloat)
      {
        var (key, value) := reading.metrics[e];
        assert reading.metrics[..e + 1][..e] == reading.metrics[..e];
        var id := Get(metricIds, key);
        if id.Some? && id.value != 0 {
          var (num, text) := SplitValue(parseFloat, Some(value));
          objs := objs + [ReadingRow(sensorId, id.value, reading.time, num, text, UnitOf(reading, key), reading.raw,
                                     ingestId)];
        }
        e := e + 1;
      }
      assert reading.metrics[..e] == reading.metrics;
      assert readings[..r + 1][..r] == readings[..r];
      r := r + 1;
    }
    assert readings[..r] == readings;
  }

  /** Every inserted row belongs to the sensor and the ingest record, and points to one of the
      sensor's metrics. */
  ghost predicate ImportedRows(rows: seq<ReadingRow>, sensorId: nat, ingestId: nat, metrics: seq<SensorMetric>) {
    forall i :: 0 <= i < |rows| ==>
      && rows[i].sensorId == sensorId && rows[i].sourceFileId == ingestId
      && exists n :: 0 <= n < |metrics| && metrics[n].id == rows[i].metricId && metrics[n].sensorId == sensorId
  }

  /** Rows built with the ids of the sensor's metrics point to those metrics. */
  lemma ImportedRowsOf(sensorId: nat, ids: Dict<string, nat>, readings: seq<Reading>, ingestId: nat,
                       parseFloat: FloatParser, metrics: seq<SensorMetric>, columns: Dict<string, MetricColumn>)
    requires forall k :: Get(ids, k) == if KeyAmong(columns, |columns|, k) then StoredId(metrics, sensorId, k) else None
    ensures ImportedRows(RowsOf(sensorId, ids, readings, ingestId, parseFloat), sensorId, ingestId, metrics)
  {
    var rows := RowsOf(sensorId, ids, readings, ingestId, parseFloat);
    RowsOfShape(sensorId, ids, readings, ingestId, parseFloat);
    forall i | 0 <= i < |rows|
      ensures exists n :: 0 <= n < |metrics| && metrics[n].id == rows[i].metricId && metrics[n].sensorId == sensorId
    {
      assert RowBelongs(rows[i], sensorId, ids, ingestId);
      var k :| Get(ids, k) == Some(rows[i].metricId);
      var n := FindMetric(metrics, sensorId, k).value;
      assert metrics[n].id == rows[i].metricId;
    }
  }

  /** The id of the ingest record a non-duplicate import writes into: the reused record's, or
      the next id for a new one. */
  function ImportIngestId(ingests: seq<IngestFile>, nextId: nat, sensorId: nat, checksum: string): nat {
    match Decide(ingests, sensorId, checksum)
    case Reuse(i) => ingests[i].id
    case _ => nextId
  }

  /** The ingest table after a non-duplicate import of `rows` rows: the reused record gets the
      new mtime, status "success" and the count; otherwise a new record holding them is
      appended. Every other record is left as it was. */
  function Recorded(ingests: seq<IngestFile>, nextId: nat, sensorId: nat, relPath: string, checksum: string,
                    mtime: string, rows: int): (r: seq<IngestFile>)
    ensures |ingests| <= |r|
    ensures forall i :: 0 <= i < |ingests| && Decide(ingests, sensorId, checksum) != Reuse(i) ==> r[i] == ingests[i]
  {
    match Decide(ingests, sensorId, checksum)
    case Reuse(i) => ingests[i := ingests[i].(fileMtime := mtime, status := "success", rowsImported := Some(rows))]
    case _ => ingests + [IngestFile(nextId, sensorId, relPath, checksum, mtime, "success", Some(rows))]
  }

  /** What `import_file` reports for a parsed file. */
  datatype ImportOutcome = Skipped(reason: string) | Success(rows: int)

  // ---------------------------------------------------------------------------------------------
  // The store

  /** `ingest_files`, `sensor_metrics` and the insert statements sent for `sensor_readings`. */
  class IngestStore {
    var ingests: seq<IngestFile>
    var metrics: seq<SensorMetric>
    var executed: seq<seq<ReadingRow>>
    var nextIngestId: nat
    var nextMetricId: nat

    /** Ids are positive, below the next id and distinct; no sensor has two metrics with the
        same key. */
    ghost predicate Valid()
      reads this
    {
      && nextIngestId >= 1 && nextMetricId >= 1
      && (forall i :: 0 <= i < |ingests| ==> 1 <= ingests[i].id < nextIngestId)
      && (forall i, j :: 0 <= i < j < |ingests| ==> ingests[i].id != ingests[j].id)
      && (forall i :: 0 <= i < |metrics| ==> 1 <= metrics[i].id < nextMetricId)
      && (forall i, j :: 0 <= i < j < |metrics| ==> metrics[i].id != metrics[j].id)
      && (forall i, j :: 0 <= i < j < |metrics| ==>
            !(metrics[i].sensorId == metrics[j].sensorId && metrics[i].metricKey == metrics[j].metricKey))
    }

    constructor()
      ensures Valid()
      ensures ingests == [] && metrics == [] && executed == []
    {
      ingests := [];
      metrics := [];
      executed := [];
      nextIngestId := 1;
      nextMetricId := 1;
    }

    /** _get_or_create_ingest: the position of the record to import into, or None for a
        duplicate. */
    method GetOrCreateIngest(sensorId: nat, relPath: string, checksum: string, mtime: string) returns (slot: Option<nat>)
      requires Valid()
      modifies this
      ensures Valid()
      ensures metrics == old(metrics) && executed == old(executed) && nextMetricId == old(nextMetricId)
      ensures match Decide(old(ingests), sensorId, checksum)
        case Skip => slot.None? && ingests == old(ingests) && nextIngestId == old(nextIngestId)
        case Reuse(i) =>
          && slot == Some(i) && nextIngestId == old(nextIngestId)
          && ingests == old(ingests)[i := old(ingests)[i].(fileMtime := mtime, status := "success")]
        case Create =>
          && slot == Some(|old(ingests)|) && nextIngestId == old(nextIngestId) + 1
          && ingests == old(ingests) + [IngestFile(old(nextIngestId), sensorId, relPath, checksum, mtime, "success", None)]
      ensures slot.Some? ==> slot.value < |ingests| && IngestFor(ingests[slot.value], sensorId, checksum)
                             && ingests[slot.value].status == "success"
    {
      match Decide(ingests, sensorId, checksum)
      case Skip =>
        slot := None;
      case Reuse(i) =>
        ingests := ingests[i := ingests[i].(fileMtime := mtime, status := "success")];
        slot := Some(i);
      case Create =>
        ingests := ingests + [IngestFile(nextIngestId, sensorId, relPath, checksum, mtime, "success", None)];
        nextIngestId := nextIngestId + 1;
        slot := Some(|ingests| - 1);
    }

    /** _ensure_metrics: the id of the sensor's metric for every mapped metric key, creating the
        metrics the sensor does not have yet, in column order. */
    method EnsureMetrics(sensorId: nat, columns: Dict<string, MetricColumn>) returns (ids: Dict<string, nat>)
      requires Valid()
      modifies this
      ensures Valid()
      ensures ingests == old(ingests) && executed == old(executed) && nextIngestId == old(nextIngestId)
      ensures |old(metrics)| <= |metrics| && metrics[..|old(metrics)|] == old(metrics)
      ensures nextMetricId == old(nextMetricId) + (|metrics| - |old(metrics)|)
      ensures UniqueKeys(ids)
      ensures forall k :: Get(ids, k) == if KeyAmong(columns, |columns|, k) then StoredId(metrics, sensorId, k) else None
      ensures forall k :: KeyAmong(columns, |columns|, k) ==> StoredId(metrics, sensorId, k).Some?
      ensures forall k :: StoredId(old(metrics), sensorId, k).Some? ==>
                StoredId(metrics, sensorId, k) == StoredId(old(metrics), sensorId, k)
      ensures forall n :: |old(metrics)| <= n < |metrics| ==>
                && metrics[n].id == old(nextMetricId) + (n - |old(metrics)|)
                && StoredId(old(metrics), sensorId, metrics[n].metricKey).None?
                && CreatedFrom(metrics[n], sensorId, columns)
    {
      ids := [];
      var i := 0;
      while i < |columns|
        invariant 0 <= i <= |columns|
        invariant Valid()
        invariant ingests == old(ingests) && executed == old(executed) && nextIngestId == old(nextIngestId)
        invariant |old(metrics)| <= |metrics| && metrics[..|old(metrics)|] == old(metrics)
        invariant nextMetricId == old(nextMetricId) + (|metrics| - |old(metrics)|)
        invariant UniqueKeys(ids)
        invariant forall k :: Get(ids, k) == if KeyAmong(columns, i, k) then StoredId(metrics, sensorId, k) else None
        invariant forall k :: KeyAmong(columns, i, k) ==> StoredId(metrics, sensorId, k).Some?
        invariant forall k :: StoredId(old(metrics), sensorId, k).Some? ==>
                    StoredId(metrics, sensorId, k) == StoredId(old(metrics), sensorId, k)
        invariant forall n :: |old(metrics)| <= n < |metrics| ==>
                    && metrics[n].id == old(nextMetricId) + (n - |old(metrics)|)
                    && StoredId(old(metrics), sensorId, metrics[n].metricKey).None?
                    && CreatedFrom(metrics[n], sensorId, columns)
      {
        var m := columns[i].1;
        ghost var before := metrics;
        var id := EnsureColumn(sensorId, m);
        if StoredId(before, sensorId, m.metricKey).None? {
          assert CreatedFrom(metrics[|metrics| - 1], sensorId, columns) by {
            assert !KeyAmong(columns, i, m.metricKey);
          }
        }
        forall k ensures Get(Put(ids, m.metricKey, id), k) ==
                         if KeyAmong(columns, i + 1, k) then StoredId(metrics, sensorId, k) else None {
          PutGet(ids, m.metricKey, id, k);
          KeyAmongStep(columns, i, k);
        }
        forall k | KeyAmong(columns, i + 1, k) ensures StoredId(metrics, sensorId, k).Some? {
          KeyAmongStep(columns, i, k);
        }
        ids := Put(ids, m.metricKey, id);
        i := i + 1;
      }
    }

    /** One column of _ensure_metrics: the id of the sensor's metric with the column's key,
        created from the column with the next id when the sensor has none. */
    method EnsureColumn(sensorId: nat, m: MetricColumn) returns (id: nat)
      requires Valid()
      modifies this
      ensures Valid()
      ensures ingests == old(ingests) && executed == old(executed) && nextIngestId == old(nextIngestId)
      ensures StoredId(old(metrics), sensorId, m.metricKey).Some? ==>
                && metrics == old(metrics) && nextMetricId == old(nextMetricId)
                && id == StoredId(old(metrics), sensorId, m.metricKey).value
      ensures StoredId(old(metrics), sensorId, m.metricKey).None? ==>
                && metrics == old(metrics) + [NewMetric(old(nextMetricId), sensorId, m)]
                && nextMetricId == old(nextMetricId) + 1 && id == old(nextMetricId)
      ensures forall k, s :: StoredId(metrics, s, k) ==
                if StoredId(old(metrics), s, k).Some? then StoredId(old(metrics), s, k)
                else if s == sensorId && k == m.metricKey then Some(id)
                else None
    {
      var found := FindMetric(metrics, sensorId, m.metricKey);
      if found.Some? {
        id := metrics[found.value].id;
        forall k, s ensures StoredId(metrics, s, k).None? ==> !(s == sensorId && k == m.metricKey) {
        }
        return;
      }
      var created := NewMetric(nextMetricId, sensorId, m);
      forall k, s ensures StoredId(metrics + [created], s, k) ==
                            if StoredId(metrics, s, k).Some? then StoredId(metrics, s, k)
                            else if MetricFor(created, s, k) then Some(created.id)
                            else None {
        StoredIdAppend(metrics, created, s, k);
      }
      metrics := metrics + [created];
      id := nextMetricId;
      nextMetricId := nextMetricId + 1;
    }

    /** _insert_readings: sends the rows built from the readings in chunks of 500 and returns
        the counted total. */
    method InsertReadings(sensorId: nat, metricIds: Dict<string, nat>, readings: seq<Reading>, ingestId: nat,
                          parseFloat: FloatParser, rowcount: RowCounter) returns (total: int)
      modifies this
      ensures ingests == old(ingests) && metrics == old(metrics)
      ensures nextIngestId == old(nextIngestId) && nextMetricId == old(nextMetricId)
      ensures executed == old(executed) + Chunks(RowsOf(sensorId, metricIds, readings, ingestId, parseFloat), 500)
      ensures total == Counted(Chunks(RowsOf(sensorId, metricIds, readings, ingestId, parseFloat), 500), rowcount)
    {
      var objs := BuildRows(sensorId, metricIds, readings, ingestId, parseFloat);
      if objs == [] {
        assert Chunks(objs, 500) == [];
        return 0;
      }
      total := SendChunks(objs, rowcount);
    }

    /** The chunk loop of `_insert_readings`: one insert per chunk of 500 rows, counting the
        driver's `rowcount` when it is positive and the chunk's length otherwise. */
    method SendChunks(objs: seq<ReadingRow>, rowcount: RowCounter) returns (total: int)
      modifies this
      ensures ingests == old(ingests) && metrics == old(metrics)
      ensures nextIngestId == old(nextIngestId) && nextMetricId == old(nextMetricId)
      ensures executed == old(executed) + Chunks(objs, 500)
      ensures total == Counted(Chunks(objs, 500), rowcount)
    {
      total := 0;
      var start := 0;
      ghost var done: seq<seq<ReadingRow>> := [];
      while start < |objs|
        invariant 0 <= start <= |objs|
        invariant Chunks(objs, 500) == done + Chunks(objs[start..], 500)
        invariant executed == old(executed) + done
        invariant total == Counted(done, rowcount)
        invariant ingests == old(ingests) && metrics == old(metrics)
        invariant nextIngestId == old(nextIngestId) && nextMetricId == old(nextMetricId)
        decreases |objs| - start
      {
        var end := if start + 500 <= |objs| then start + 500 else |objs|;
        var chunk := objs[start..end];
        ChunksAdvance(objs, start, done);
        CountedSnoc(done, chunk, rowcount);
        executed := executed + [chunk];
        var count := rowcount(chunk);
        total := total + if count > 0 then count else |chunk|;
        done := done + [chunk];
        start := end;
      }
      assert objs[start..] == [];
      assert done == Chunks(objs, 500);
    }

    /** import_file after parsing and the sensor lookup: a file whose checksum was already
        imported with rows for the sensor is skipped and nothing changes; otherwise the metrics
        are ensured, the readings inserted, and the ingest record stores the counted total. */
    method ImportParsed(sensorId: nat, relPath: string, checksum: string, mtime: string, parsed: ParsedExcel,
                        parseFloat: FloatParser, rowcount: RowCounter) returns (outcome: ImportOutcome)
      requires Valid()
      modifies this
      ensures Valid()
      ensures outcome.Skipped? <==> Decide(old(ingests), sensorId, checksum).Skip?
      ensures outcome.Skipped? ==>
                && outcome.reason == "duplicate_checksum"
                && ingests == old(ingests) && metrics == old(metrics) && executed == old(executed)
      ensures outcome.Success? ==>
                ingests == Recorded(old(ingests), old(nextIngestId), sensorId, relPath, checksum, mtime, outcome.rows)
      ensures outcome.Success? ==> |old(metrics)| <= |metrics| && metrics[..|old(metrics)|] == old(metrics)
      ensures outcome.Success? ==>
                forall k :: KeyAmong(parsed.metricColumns, |parsed.metricColumns|, k) ==> StoredId(metrics, sensorId, k).Some?
      ensures outcome.Success? ==>
                forall n :: |old(metrics)| <= n < |metrics| ==>
                  StoredId(old(metrics), sensorId, metrics[n].metricKey).None?
                  && CreatedFrom(metrics[n], sensorId, parsed.metricColumns)
      ensures outcome.Success? ==>
                exists ids :: IdsFor(ids, metrics, sensorId, parsed.metricColumns)
                              && executed == old(executed) + Chunks(RowsOf(sensorId, ids, parsed.readings,
                                   ImportIngestId(old(ingests), old(nextIngestId), sensorId, checksum), parseFloat), 500)
      ensures outcome.Success? ==>
                && |old(executed)| <= |executed|
                && outcome.rows == Counted(executed[|old(executed)|..], rowcount)
                && ImportedRows(Concat(executed[|old(executed)|..]), sensorId,
                                ImportIngestId(old(ingests), old(nextIngestId), sensorId, checksum), metrics)
    {
      var slot := GetOrCreateIngest(sensorId, relPath, checksum, mtime);
      if slot.None? {
        return Skipped("duplicate_checksum");
      }
      var rows := ImportInto(slot.value, sensorId, parsed, parseFloat, rowcount);
      outcome := Success(rows);
    }

    /** The rest of import_file once the ingest record at `s` is chosen: the metrics are
        ensured, the readings inserted with that record's id, and the counted total stored on
        the record. */
    method ImportInto(s: nat, sensorId: nat, parsed: ParsedExcel, parseFloat: FloatParser, rowcount: RowCounter)
      returns (rows: int)
      requires Valid() && s < |ingests|
      modifies this
      ensures Valid()
      ensures ingests == old(ingests)[s := old(ingests)[s].(rowsImported := Some(rows))]
      ensures nextIngestId == old(nextIngestId)
      ensures |old(metrics)| <= |metrics| && metrics[..|old(metrics)|] == old(metrics)
      ensures forall k :: KeyAmong(parsed.metricColumns, |parsed.metricColumns|, k) ==> StoredId(metrics, sensorId, k).Some?
      ensures forall n :: |old(metrics)| <= n < |metrics| ==>
                StoredId(old(metrics), sensorId, metrics[n].metricKey).None?
                && CreatedFrom(metrics[n], sensorId, parsed.metricColumns)
      ensures exists ids :: IdsFor(ids, metrics, sensorId, parsed.metricColumns)
                            && executed == old(executed)
                                 + Chunks(RowsOf(sensorId, ids, parsed.readings, old(ingests)[s].id, parseFloat), 500)
      ensures |old(executed)| <= |executed|
      ensures rows == Counted(executed[|old(executed)|..], rowcount)
      ensures ImportedRows(Concat(executed[|old(executed)|..]), sensorId, old(ingests)[s].id, metrics)
    {
      var ingestId := ingests[s].id;
      var ids := EnsureMetrics(sensorId, parsed.metricColumns);
      rows := InsertReadings(sensorId, ids, parsed.readings, ingestId, parseFloat, rowcount);
      ImportedRowsOf(sensorId, ids, parsed.readings, ingestId, parseFloat, metrics, parsed.metricColumns);
      ChunksConcat(RowsOf(sensorId, ids, parsed.readings, ingestId, parseFloat), 500);
      assert executed[|old(executed)|..] == Chunks(RowsOf(sensorId, ids, parsed.readings, ingestId, parseFloat), 500);
      ingests := ingests[s := ingests[s].(rowsImported := Some(rows))];
      assert IdsFor(ids, metrics, sensorId, parsed.metricColumns);
    }
  }
}
