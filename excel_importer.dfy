/** The table and string logic of the monitoring-spreadsheet importer
    (backend/app/utils/excel_importer.py, class ExcelImporter): the sensor tables, prefix
    detection, column-name normalisation, metric-column mapping, the time column, chainage
    normalisation and value splitting. */
module ExcelImporter {
  import opened Wrappers
  import opened Strs
  import opened Dicts
  import Seqs

  // ---------------------------------------------------------------------------------------------
  // Cells

  /** A cleaned cell value: a number, or a text (timestamps are already ISO text). */
  datatype Value = VNum(x: real) | VStr(s: string)

  /** A spreadsheet cell: empty (NaN in pandas), or filled, with the text `str()` gives for it
      and its cleaned value. */
  datatype Cell = Blank | Filled(shown: string, value: Value)

  type Row = seq<Cell>
  type Sheet = seq<Row>

  // ---------------------------------------------------------------------------------------------
  // SENSOR_TYPE_MAP and prefix detection

  datatype SensorTypeInfo = SensorTypeInfo(metricType: string, name: string, unit: string)

  const SensorTypeMap: map<string, SensorTypeInfo> := map[
    "Df-" := SensorTypeInfo("water_level", "电测水位计", "m"),
    "Pcg-" := SensorTypeInfo("pore_pressure", "渗压计", "kPa"),
    "Pf-" := SensorTypeInfo("pore_pressure", "渗压计", "kPa"),
    "GBcg-" := SensorTypeInfo("strain_plate", "钢板计", "10^-6"),
    "GBf-" := SensorTypeInfo("strain_plate", "钢板计", "10^-6"),
    "Rcg-" := SensorTypeInfo("rebar_stress", "钢筋应力计", "MPa"),
    "Rf-" := SensorTypeInfo("rebar_stress", "钢筋应力计", "MPa"),
    "M4f-" := SensorTypeInfo("displacement_4pt", "四点式变位计", "mm"),
    "M2f-" := SensorTypeInfo("displacement_2pt", "二点式变位计", "mm"),
    "Jf-" := SensorTypeInfo("joint_meter", "测缝计", "mm"),
    "Tf-" := SensorTypeInfo("temperature", "温度计", "℃"),
    "Nf-" := SensorTypeInfo("stress_free", "无应力计", "10^-6"),
    "ASf-" := SensorTypeInfo("anchor_stress", "锚杆应力计", "MPa")
  ]

  /** The keys in the order `sorted(..., key=len, reverse=True)` tries them: longest first,
      and keys of equal length in the table's order (the sort is stable). */
  const PrefixOrder: seq<string> :=
    ["GBcg-", "Pcg-", "GBf-", "Rcg-", "M4f-", "M2f-", "ASf-", "Df-", "Pf-", "Rf-", "Jf-", "Tf-", "Nf-"]

  /** The try order lists every key of the table once, and never a shorter key before a
      longer one. */
  lemma PrefixOrderIsSortedKeys()
    ensures forall p :: p in PrefixOrder <==> p in SensorTypeMap
    ensures forall i, j :: 0 <= i < j < |PrefixOrder| ==> |PrefixOrder[i]| >= |PrefixOrder[j]|
    ensures forall i, j :: 0 <= i < j < |PrefixOrder| ==> PrefixOrder[i] != PrefixOrder[j]
  {
  }

  /** The point code or the filename starts with `p`. */
  function PrefixMatcher(pointCode: string, filename: string): string -> bool {
    (p: string) => StartsWith(pointCode, p) || StartsWith(filename, p)
  }

  /** Index of the first `c` in `s`. */
  function IndexOf(s: string, c: char): (i: nat)
    requires c in s
    ensures i < |s| && s[i] == c && c !in s[..i]
  {
    if s[0] == c then 0
    else
      var k := IndexOf(s[1..], c);
      assert s[..k + 1] == [s[0]] + s[1..][..k];
      k + 1
  }

  /** `point_code[: point_code.find("-") + 1] if "-" in point_code else point_code`. */
  function FallbackPrefix(pointCode: string): string {
    if '-' in pointCode then pointCode[..IndexOf(pointCode, '-') + 1] else pointCode
  }

  /** _detect_prefix. */
  function DetectPrefix(pointCode: string, filename: string): string {
    match Seqs.Find(PrefixOrder, PrefixMatcher(pointCode, filename))
    case Some(p) => p
    case None => FallbackPrefix(pointCode)
  }

  /** Searching keys tried longest first finds a matching key when there is one, and no
      longer key matches than the one found. */
  lemma FindLongest(order: seq<string>, keys: set<string>, m: string -> bool)
    requires forall p :: p in order <==> p in keys
    requires forall i, j :: 0 <= i < j < |order| ==> |order[i]| >= |order[j]|
    ensures (exists p :: p in keys && m(p)) ==>
      var r := Seqs.Find(order, m);
      r.Some? && r.value in keys && m(r.value) && forall q :: q in keys && |q| > |r.value| ==> !m(q)
    ensures (forall p :: p in keys ==> !m(p)) ==> Seqs.Find(order, m).None?
  {
    var found := Seqs.Find(order, m);
    if exists p :: p in keys && m(p) {
      var p :| p in keys && m(p);
      var k :| 0 <= k < |order| && order[k] == p;
      assert m(order[k]);
      var i :| 0 <= i < |order| && order[i] == found.value && m(order[i])
               && forall j :: 0 <= j < i ==> !m(order[j]);
      forall q | q in keys && |q| > |found.value| ensures !m(q) {
        var j :| 0 <= j < |order| && order[j] == q;
        assert j < i;
      }
    }
  }

  /** A known key is returned exactly when the point code or the filename starts with one, and
      then no longer key matches; otherwise the point code up to and including its first '-',
      or all of it when it has none. */
  lemma DetectPrefixSpec(pointCode: string, filename: string)
    ensures var r := DetectPrefix(pointCode, filename);
      && (r in SensorTypeMap <== exists p :: p in SensorTypeMap && PrefixMatcher(pointCode, filename)(p))
      && ((exists p :: p in SensorTypeMap && PrefixMatcher(pointCode, filename)(p)) ==>
            PrefixMatcher(pointCode, filename)(r)
            && forall p :: p in SensorTypeMap && |p| > |r| ==> !PrefixMatcher(pointCode, filename)(p))
      && ((forall p :: p in SensorTypeMap ==> !PrefixMatcher(pointCode, filename)(p)) ==>
            r == FallbackPrefix(pointCode))
  {
    PrefixOrderIsSortedKeys();
    FindLongest(PrefixOrder, SensorTypeMap.Keys, PrefixMatcher(pointCode, filename));
  }

  /** The fallback keeps the point code up to its first '-' included, or all of it. */
  lemma FallbackPrefixSpec(pointCode: string)
    ensures var r := FallbackPrefix(pointCode);
      && StartsWith(pointCode, r)
      && ('-' in pointCode ==> |r| > 0 && r[|r| - 1] == '-' && '-' !in r[..|r| - 1])
      && ('-' !in pointCode ==> r == pointCode)
  {
    if '-' in pointCode {
      var i := IndexOf(pointCode, '-');
      assert pointCode[..i + 1][..i] == pointCode[..i];
    }
  }

  /** `SENSOR_TYPE_MAP.get(prefix, (prefix, prefix, None))[0]`. */
  function TypeCode(prefix: string): (code: string)
    ensures prefix in SensorTypeMap ==> code == SensorTypeMap[prefix].metricType
    ensures prefix !in SensorTypeMap ==> code == prefix
  {
    if prefix in SensorTypeMap then SensorTypeMap[prefix].metricType else prefix
  }

  // ---------------------------------------------------------------------------------------------
  // _normalize_col

  /** Characters `re.sub(r"[\s·]", "", ...)` removes. */
  predicate Dropped(c: char) {
    PySpace(c) || c == '·'
  }

  /** The full-width parentheses become ASCII ones, then the text is lower-cased. */
  function NormChar(c: char): char {
    LowerChar(if c == '（' then '(' else if c == '）' then ')' else c)
  }

  /** A character normalisation leaves alone. */
  predicate Normal(c: char) {
    !Dropped(c) && c != '（' && c != '）' && !('A' <= c <= 'Z')
  }

  /** _normalize_col: whitespace and '·' removed, full-width parentheses made ASCII, lower-cased. */
  function NormalizeCol(name: string): (r: string)
    ensures forall i :: 0 <= i < |r| ==> Normal(r[i])
    decreases |name|
  {
    if name == [] then []
    else if Dropped(name[0]) then NormalizeCol(name[1..])
    else [NormChar(name[0])] + NormalizeCol(name[1..])
  }

  /** A string of normal characters is its own normalisation. */
  lemma {:induction false} NormalizeNormal(s: string)
    requires forall i :: 0 <= i < |s| ==> Normal(s[i])
    ensures NormalizeCol(s) == s
    decreases |s|
  {
    if s != [] {
      NormalizeNormal(s[1..]);
    }
  }

  /** Normalising twice is normalising once. */
  lemma NormalizeColIdempotent(name: string)
    ensures NormalizeCol(NormalizeCol(name)) == NormalizeCol(name)
  {
    NormalizeNormal(NormalizeCol(name));
  }

  // ---------------------------------------------------------------------------------------------
  // PREFIX_METRICS and _map_metric_columns

  datatype MetricDef = MetricDef(metricKey: string, unit: Option<string>, keywords: seq<string>)

  const FreqModulus: MetricDef := MetricDef("freq_modulus", Some("KHz^2"), ["频率模数", "kHz"])
  const Temperature: MetricDef := MetricDef("temperature", Some("℃"), ["温度"])
  const PorePressure: MetricDef := MetricDef("pore_pressure", Some("kPa"), ["渗透压力", "压力"])
  const ResistanceRatio: MetricDef := MetricDef("resistance_ratio", None, ["电阻比"])
  const ResistanceSum: MetricDef := MetricDef("resistance_sum", None, ["电阻和"])
  const Strain: MetricDef := MetricDef("strain", Some("10^-6"), ["应变", "应变量"])
  const Stress: MetricDef := MetricDef("stress", Some("MPa"), ["应力"])
  const Displacement: MetricDef := MetricDef("displacement", Some("mm"), ["位移"])
  const DisplacementAbs: MetricDef := MetricDef("displacement_abs", Some("mm"), ["绝对位移"])
  const TemperatureResistance: MetricDef := MetricDef("temperature_resistance", None, ["温度电阻"])

  /** The definition list of both displacement meters. */
  const DisplacementMeterDefs: seq<MetricDef> := [ResistanceRatio, Displacement, DisplacementAbs]

  const PrefixMetrics: map<string, seq<MetricDef>> := map[
    "Df-" := [FreqModulus, Temperature, MetricDef("water_level", Some("m"), ["水位"])],
    "Pcg-" := [FreqModulus, Temperature, PorePressure],
    "Pf-" := [FreqModulus, Temperature, PorePressure],
    "GBcg-" := [ResistanceRatio, ResistanceSum, Strain, Temperature],
    "GBf-" := [ResistanceRatio, ResistanceSum, Strain, Temperature],
    "Rcg-" := [ResistanceRatio, ResistanceSum, Stress, Temperature],
    "Rf-" := [ResistanceRatio, ResistanceSum, Stress, Temperature],
    "M4f-" := DisplacementMeterDefs,
    "M2f-" := DisplacementMeterDefs,
    "Jf-" := [ResistanceRatio, MetricDef("displacement", Some("mm"), ["位移", "缝宽"])],
    "Tf-" := [MetricDef("resistance", Some("Ω"), ["电阻"]),
              MetricDef("temperature_measured", Some("℃"), ["实测温度"]),
              MetricDef("temperature", Some("℃"), ["测点温度", "温度"])],
    "Nf-" := [ResistanceRatio, TemperatureResistance, Strain, Temperature],
    "ASf-" := [ResistanceRatio, TemperatureResistance, Stress, Temperature]
  ]

  /** `PREFIX_METRICS.get(prefix, [])`. */
  function Defs(prefix: string): seq<MetricDef> {
    if prefix in PrefixMetrics then PrefixMetrics[prefix] else []
  }

  /** `any(k.lower() in norm for k in d["keywords"])`. */
  function DefMatcher(norm: string): MetricDef -> bool {
    (d: MetricDef) => exists i :: 0 <= i < |d.keywords| && Contains(norm, Lower(d.keywords[i]))
  }

  /** The first definition, in list order, with a keyword inside the normalised header. */
  function FirstDef(defs: seq<MetricDef>, norm: string): Option<MetricDef> {
    Seqs.Find(defs, DefMatcher(norm))
  }

  /** The column description a matched header gets. */
  datatype MetricColumn = MetricColumn(metricKey: string, unit: Option<string>, dataType: string, name: Option<string>)

  function ColumnOf(d: MetricDef): MetricColumn {
    MetricColumn(d.metricKey, d.unit, "number", None)
  }

  /** What `_map_metric_columns` maps a header to, if anything. */
  function MappedColumn(prefix: string, col: string): Option<MetricColumn> {
    match FirstDef(Defs(prefix), NormalizeCol(col))
    case Some(d) => Some(ColumnOf(d))
    case None => None
  }

  /** The inner loop of `_map_metric_columns`: the first definition with a keyword inside the
      normalised header. */
  method FirstMatch(defs: seq<MetricDef>, norm: string) returns (r: Option<MetricDef>)
    ensures r == FirstDef(defs, norm)
  {
    var j := 0;
    while j < |defs| && !DefMatcher(norm)(defs[j])
      invariant 0 <= j <= |defs|
      invariant forall k :: 0 <= k < j ==> !DefMatcher(norm)(defs[k])
    {
      j := j + 1;
    }
    if j < |defs| {
      r := Some(defs[j]);
      assert FirstDef(defs, norm) == r by {
        var f := FirstDef(defs, norm);
        var k :| 0 <= k < |defs| && defs[k] == f.value && DefMatcher(norm)(defs[k])
                 && forall m :: 0 <= m < k ==> !DefMatcher(norm)(defs[m]);
        assert k == j;
      }
    } else {
      r := None;
    }
  }

  /** One step of the header loop of `_map_metric_columns`: header `i`, if it matches. */
  method MapHeader(prefix: string, headers: seq<string>, i: nat, mapping: Dict<string, MetricColumn>)
    returns (mapping': Dict<string, MetricColumn>)
    requires i < |headers|
    requires UniqueKeys(mapping)
    requires forall col :: Get(mapping, col) == if col in headers[..i] then MappedColumn(prefix, col) else None
    ensures UniqueKeys(mapping')
    ensures forall col :: Get(mapping', col) == if col in headers[..i + 1] then MappedColumn(prefix, col) else None
    ensures mapping == [] && prefix !in PrefixMetrics ==> mapping' == []
  {
    var col := headers[i];
    assert headers[..i + 1] == headers[..i] + [col];
    var d := FirstMatch(Defs(prefix), NormalizeCol(col));
    mapping' := mapping;
    if d.Some? {
      mapping' := Put(mapping, col, ColumnOf(d.value));
      forall c ensures Get(mapping', c) == if c in headers[..i + 1] then MappedColumn(prefix, c) else None {
        PutGet(mapping, col, ColumnOf(d.value), c);
      }
    }
  }

  /** _map_metric_columns: each header mapped to its first matching definition; headers that
      match none are left out, so an unknown prefix maps nothing. */
  method MapMetricColumns(prefix: string, headers: seq<string>) returns (mapping: Dict<string, MetricColumn>)
    ensures UniqueKeys(mapping)
    ensures forall col :: Get(mapping, col) == if col in headers then MappedColumn(prefix, col) else None
    ensures prefix !in PrefixMetrics ==> mapping == []
  {
    mapping := [];
    for i := 0 to |headers|
      invariant UniqueKeys(mapping)
      invariant forall col :: Get(mapping, col) == if col in headers[..i] then MappedColumn(prefix, col) else None
      invariant prefix !in PrefixMetrics ==> mapping == []
    {
      mapping := MapHeader(prefix, headers, i, mapping);
    }
    assert headers[..|headers|] == headers;
  }

  lemma {:induction false} ContainsTransitive(s: string, t: string, u: string)
    requires Contains(s, t) && Contains(t, u)
    ensures Contains(s, u)
  {
    ContainsIff(s, t);
    ContainsIff(t, u);
    var i :| OccursAt(s, t, i);
    var j :| OccursAt(t, u, j);
    assert forall k :: 0 <= k < |t| ==> s[i + k] == t[k];
    assert s[i + j..i + j + |u|] == u;
    ContainsAt(s, u, i + j);
  }

  /** The header '绝对位移' holds the keyword '位移' but not '电阻比'. */
  lemma AbsHeaderMatches()
    ensures !DefMatcher("绝对位移")(ResistanceRatio)
    ensures DefMatcher("绝对位移")(Displacement)
  {
    assert Lower("位移") == "位移";
    assert Lower("电阻比") == "电阻比";
    assert OccursAt("绝对位移", "位移", 2);
    ContainsAt("绝对位移", "位移", 2);
    assert Displacement.keywords[0] == "位移";
    ContainsIff("绝对位移", "电阻比");
    forall i ensures !OccursAt("绝对位移", "电阻比", i) {
      if 0 <= i && i + 3 <= 4 {
        assert "绝对位移"[i..i + 3][0] == "绝对位移"[i] != '电';
      }
    }
  }

  /** Every header holding '绝对位移' also holds '位移'. */
  lemma AbsImpliesDisplacement(norm: string)
    ensures DefMatcher(norm)(DisplacementAbs) ==> DefMatcher(norm)(Displacement)
  {
    if DefMatcher(norm)(DisplacementAbs) {
      assert Lower("绝对位移") == "绝对位移";
      assert Lower("位移") == "位移";
      assert OccursAt("绝对位移", "位移", 2);
      ContainsAt("绝对位移", "位移", 2);
      ContainsTransitive(norm, "绝对位移", "位移");
      assert Displacement.keywords[0] == "位移";
    }
  }

  /** In the displacement-meter lists '位移' comes before '绝对位移', so an M4f- or M2f- column
      '绝对位移' maps to displacement, and no header ever maps to displacement_abs. */
  lemma DisplacementAbsUnreachable(prefix: string, norm: string)
    requires prefix == "M4f-" || prefix == "M2f-"
    ensures FirstDef(Defs(prefix), "绝对位移") == Some(Displacement)
    ensures FirstDef(Defs(prefix), norm) != Some(DisplacementAbs)
  {
    var defs := DisplacementMeterDefs;
    assert Defs(prefix) == defs;
    AbsHeaderMatches();
    AbsImpliesDisplacement(norm);
    var m := DefMatcher("绝对位移");
    var found := FirstDef(defs, "绝对位移");
    assert m(defs[1]);
    var k :| 0 <= k < |defs| && defs[k] == found.value && m(defs[k])
             && forall j :: 0 <= j < k ==> !m(defs[j]);
    assert k == 1;
  }

  // ---------------------------------------------------------------------------------------------
  // _find_time_column

  const TimeColumnKeys: seq<string> := ["观测日期", "观测时间", "日期", "时间"]

  predicate IsTimeHeader(h: string) {
    exists i :: 0 <= i < |TimeColumnKeys| && Contains(NormalizeCol(h), TimeColumnKeys[i])
  }

  /** _find_time_column: the first header whose normalised text holds a time key, else the
      first header, else none. */
  function FindTimeColumn(headers: seq<string>): (r: Option<string>)
    ensures r.None? <==> headers == []
    ensures (exists i :: 0 <= i < |headers| && IsTimeHeader(headers[i])) ==>
      exists i :: 0 <= i < |headers| && r == Some(headers[i]) && IsTimeHeader(headers[i])
                  && forall j :: 0 <= j < i ==> !IsTimeHeader(headers[j])
    ensures (forall i :: 0 <= i < |headers| ==> !IsTimeHeader(headers[i])) && headers != [] ==>
      r == Some(headers[0])
  {
    match Seqs.Find(headers, IsTimeHeader)
    case Some(h) => Some(h)
    case None => if headers == [] then None else Some(headers[0])
  }

  // ---------------------------------------------------------------------------------------------
  // _normalize_chainage: `re.search(r"([+-]?\d+(?:\.\d+)?)", text)`

  /** `raw.replace(" ", "")`. */
  function RemoveSpaces(s: string): (r: string)
    ensures ' ' !in r
    ensures |r| <= |s|
    ensures forall c :: c != ' ' ==> multiset(r)[c] == multiset(s)[c]
  {
    if s == [] then []
    else
      var rest := RemoveSpaces(s[1..]);
      assert s == [s[0]] + s[1..];
      (if s[0] == ' ' then [] else [s[0]]) + rest
  }

  predicate IsSign(c: char) { c == '+' || c == '-' }

  /** The pattern matches at `p`: a digit, or a sign followed by a digit. */
  predicate NumberAt(s: string, p: nat) {
    p < |s| && (IsDigit(s[p]) || (p + 1 < |s| && IsSign(s[p]) && IsDigit(s[p + 1])))
  }

  /** The leftmost match position at or after `p`. */
  function FirstNumberFrom(s: string, p: nat): (r: Option<nat>)
    requires p <= |s|
    ensures r.Some? ==> p <= r.value < |s| && NumberAt(s, r.value)
                        && forall q :: p <= q < r.value ==> !NumberAt(s, q)
    ensures r.None? ==> forall q :: p <= q < |s| ==> !NumberAt(s, q)
    decreases |s| - p
  {
    if p == |s| then None
    else if NumberAt(s, p) then Some(p)
    else FirstNumberFrom(s, p + 1)
  }

  /** The digits after the sign, and the fraction digits after a '.' that a digit follows. */
  function IntegerDigits(s: string, start: nat): (r: string)
    requires NumberAt(s, start)
    ensures AllDigits(r) && r != ""
  {
    var q := if IsSign(s[start]) then start + 1 else start;
    var n := DigitRun(s[q..]);
    assert s[q..q + n] == s[q..][..n];
    assert n > 0 by { assert s[q..][0] == s[q]; }
    s[q..q + n]
  }

  function FractionDigits(s: string, start: nat): (r: string)
    requires NumberAt(s, start)
    ensures AllDigits(r)
  {
    var q := if IsSign(s[start]) then start + 1 else start;
    var e := q + |IntegerDigits(s, start)|;
    if e + 1 < |s| && s[e] == '.' && IsDigit(s[e + 1]) then
      var n := DigitRun(s[e + 1..]);
      assert s[e + 1..e + 1 + n] == s[e + 1..][..n];
      s[e + 1..e + 1 + n]
    else ""
  }

  /** `float()` of the matched text, read as an exact decimal. */
  function NumberValue(s: string, start: nat): real
    requires NumberAt(s, start)
  {
    var ip := IntegerDigits(s, start);
    var fp := FractionDigits(s, start);
    var v := DigitsValue(ip) as real + DigitsValue(fp) as real / Pow10(|fp|);
    if s[start] == '-' then -v else v
  }

  /** The direction characters. */
  const Directions: set<char> := {'发', '进', '出'}

  datatype Chainage = Chainage(normalized: string, value: Option<real>, direction: Option<char>)

  /** _normalize_chainage. */
  function NormalizeChainage(raw: string): (c: Chainage)
    ensures ' ' !in c.normalized
    ensures c.direction.Some? <==> c.normalized != "" && c.normalized[0] in Directions
    ensures c.direction.Some? ==> c.direction.value == c.normalized[0]
    ensures c.value.None? <==> forall i :: 0 <= i < |c.normalized| ==> !IsDigit(c.normalized[i])
    ensures c.value.Some? ==>
      exists p :: 0 <= p < |c.normalized| && NumberAt(c.normalized, p)
                  && (forall q :: 0 <= q < p ==> !NumberAt(c.normalized, q))
                  && c.value.value == NumberValue(c.normalized, p)
  {
    var text := RemoveSpaces(raw);
    var m := FirstNumberFrom(text, 0);
    var direction := if text != "" && text[0] in Directions then Some(text[0]) else None;
    assert m.None? ==> forall i :: 0 <= i < |text| ==> !IsDigit(text[i]) by {
      if m.None? {
        forall i | 0 <= i < |text| ensures !IsDigit(text[i]) {
          assert !NumberAt(text, i);
        }
      }
    }
    Chainage(text, if m.Some? then Some(NumberValue(text, m.value)) else None, direction)
  }

  lemma StationNumberHasNoSpace()
    ensures RemoveSpaces("发0+350") == "发0+350"
  {
    var a := "发0+350";
    assert RemoveSpaces(a[5..]) == a[5..];
    assert RemoveSpaces(a[4..]) == a[4..];
    assert RemoveSpaces(a[3..]) == a[3..];
    assert RemoveSpaces(a[2..]) == a[2..];
    assert RemoveSpaces(a[1..]) == a[1..];
  }

  lemma StationNumberValue()
    ensures FirstNumberFrom("发0+350", 0) == Some(1)
    ensures NumberAt("发0+350", 1) && NumberValue("发0+350", 1) == 0.0
  {
    var a := "发0+350";
    assert !NumberAt(a, 0);
    assert NumberAt(a, 1);
    assert IntegerDigits(a, 1) == "0" by {
      assert a[1..][1] == '+';
      assert DigitRun(a[1..]) == 1;
    }
    assert FractionDigits(a, 1) == "";
    assert DigitsValue("0") == 0 by { assert "0"[..0] == ""; }
  }

  /** The value is the first numeric substring: in a station number such as "发0+350" that is
      the kilometre part 0, not the metres after the '+'. */
  lemma ChainageTakesFirstNumber()
    ensures NormalizeChainage("发0+350") == Chainage("发0+350", Some(0.0), Some('发'))
  {
    StationNumberHasNoSpace();
    StationNumberValue();
  }

  // ---------------------------------------------------------------------------------------------
  // _split_value

  /** `float()` on a text: None where it raises. */
  type FloatParser = string -> Option<real>

  /** _split_value: a number stays a number; a text is stripped, empty text is nothing, and a
      text `float()` accepts becomes a number. At most one of the two parts is present, and a
      text part is non-empty and stripped. */
  function SplitValue(parseFloat: FloatParser, v: Option<Value>): (r: (Option<real>, Option<string>))
    ensures !(r.0.Some? && r.1.Some?)
    ensures v.None? ==> r == (None, None)
    ensures v.Some? && v.value.VNum? ==> r == (Some(v.value.x), None)
    ensures r.1.Some? ==> v.Some? && v.value.VStr? && r.1.value == Strip(v.value.s) && r.1.value != ""
                          && parseFloat(r.1.value).None?
    ensures v.Some? && v.value.VStr? && Strip(v.value.s) != "" && parseFloat(Strip(v.value.s)).Some? ==>
              r == (parseFloat(Strip(v.value.s)), None)
  {
    match v
    case None => (None, None)
    case Some(VNum(x)) => (Some(x), None)
    case Some(VStr(s)) =>
      var text := Strip(s);
      if text == "" then (None, None)
      else match parseFloat(text)
        case Some(n) => (Some(n), None)
        case None => (None, Some(text))
  }
}
