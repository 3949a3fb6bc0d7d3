/** The sheet-reading part of the monitoring-spreadsheet importer
    (backend/app/utils/excel_importer.py): metadata rows, the header row, two-row header
    merging, the reading loop and `_parse_excel` itself, over a sheet given as rows of cells. */
module ExcelParsing {
  import opened Wrappers
  import opened Strs
  import opened Dicts
  import opened ExcelImporter

  // ---------------------------------------------------------------------------------------------
  // Row texts

  /** `"".join(str(x).strip() for x in row if notna(x))`. */
  function PartsText(row: Row): string {
    if row == [] then ""
    else (match row[0] case Blank => "" case Filled(shown, _) => Strip(shown)) + PartsText(row[1..])
  }

  /** The row texts of a block of rows. */
  function RowTexts(rows: seq<Row>): (r: seq<string>)
    ensures |r| == |rows| && forall i :: 0 <= i < |rows| ==> r[i] == PartsText(rows[i])
  {
    seq(|rows|, i requires 0 <= i < |rows| => PartsText(rows[i]))
  }

  /** The row has a non-empty cell, so `parts` is not empty. */
  predicate HasParts(row: Row) {
    exists i :: 0 <= i < |row| && row[i].Filled?
  }

  /** `str(x)` of a cell: an empty cell prints as "nan". */
  function CellText(c: Cell): string {
    match c
    case Blank => "nan"
    case Filled(shown, _) => shown
  }

  /** `"".join(str(x) for x in row)`. */
  function JoinedText(row: Row): string {
    if row == [] then "" else CellText(row[0]) + JoinedText(row[1..])
  }

  // ---------------------------------------------------------------------------------------------
  // _parse_metadata

  /** METADATA_KEYS, in order: key text, field. */
  const MetadataKeys: seq<(string, string)> := [
    ("测点编号", "point_code"),
    ("测点代号", "point_code"),
    ("出厂编号", "factory_code"),
    ("埋设桩号", "install_chainage_raw"),
    ("埋设日期", "install_date"),
    ("安装高程", "install_elevation"),
    ("观测仪表", "reading_device"),
    ("仪器厂家", "instrument_manufacturer"),
    ("仪器型号", "instrument_model")
  ]

  /** The parameter labels, in order. */
  const ParameterLabels: seq<string> := ["灵敏度", "灵敏度系数", "温度修正", "温度系数", "初始频率", "初始温度"]

  /** An occurrence in the tail is one in the whole text, one place further on. */
  lemma OccursInTail(text: string, key: string, i: nat)
    requires |text| > 0
    ensures OccursAt(text[1..], key, i) <==> OccursAt(text, key, i + 1)
  {
    if i + |key| <= |text| - 1 {
      assert text[1..][i..i + |key|] == text[i + 1..i + 1 + |key|];
    }
  }

  /** The first occurrence in the tail, shifted, is the first in the whole text when the text
      does not start with the key. */
  lemma FirstOccurrenceStep(text: string, key: string, i: nat)
    requires |text| > 0 && !StartsWith(text, key)
    requires OccursAt(text[1..], key, i) && forall j :: 0 <= j < i ==> !OccursAt(text[1..], key, j)
    ensures OccursAt(text, key, i + 1) && forall j :: 0 <= j < i + 1 ==> !OccursAt(text, key, j)
  {
    OccursInTail(text, key, i);
    forall j | 0 <= j < i + 1 ensures !OccursAt(text, key, j) {
      if j > 0 {
        OccursInTail(text, key, j - 1);
      }
    }
  }

  /** Index of the first occurrence of `key`. */
  function FirstOccurrence(text: string, key: string): (i: nat)
    requires Contains(text, key)
    ensures OccursAt(text, key, i) && forall j :: 0 <= j < i ==> !OccursAt(text, key, j)
    decreases |text|
  {
    if StartsWith(text, key) then 0
    else
      var i := FirstOccurrence(text[1..], key);
      FirstOccurrenceStep(text, key, i);
      i + 1
  }

  /** `text.split(key, 1)[1]`: what follows the first occurrence of `key`. */
  function After(text: string, key: string): string
    requires Contains(text, key)
  {
    text[FirstOccurrence(text, key) + |key|..]
  }

  const Separators: set<char> := {'：', ':', ' '}

  /** `value.lstrip("：: ").strip()` of the text after the key: no whitespace at either end,
      and no longer than what follows the key. */
  function MetaValue(text: string, key: string): (r: string)
    requires Contains(text, key)
    ensures r == [] || (!PySpace(r[0]) && !PySpace(r[|r| - 1]))
    ensures |r| <= |After(text, key)|
  {
    Strip(LStripChars(After(text, key), Separators))
  }

  /** The value is a slice of the text after the key: what is dropped before it is separators
      and whitespace, what is dropped after it is whitespace. */
  lemma MetaValueSlice(text: string, key: string)
    requires Contains(text, key)
    ensures var a := After(text, key);
      exists i, j :: 0 <= i <= j <= |a| && MetaValue(text, key) == a[i..j]
                     && (forall k :: 0 <= k < i ==> a[k] in Separators || PySpace(a[k]))
                     && (forall k :: j <= k < |a| ==> PySpace(a[k]))
  {
    var a := After(text, key);
    var chars := Separators;
    var i, j := LStripThenStrip(a, chars);
  }

  /** In one row's text, the value the keys among `keys` give field `f`: the first key for `f`
      that occurs decides. */
  function KeyLookup(text: string, keys: seq<(string, string)>, f: string): Option<string>
    decreases |keys|
  {
    if keys == [] then None
    else match KeyLookup(text, keys[..|keys| - 1], f)
      case Some(v) => Some(v)
      case None =>
        var (k, field) := keys[|keys| - 1];
        if field == f && Contains(text, k) then Some(MetaValue(text, k)) else None
  }

  /** The value of field `f` after scanning rows with these texts: the first row where a key
      for it occurs. */
  function FieldFrom(texts: seq<string>, f: string): Option<string>
    decreases |texts|
  {
    if texts == [] then None
    else match FieldFrom(texts[..|texts| - 1], f)
      case Some(v) => Some(v)
      case None => KeyLookup(texts[|texts| - 1], MetadataKeys, f)
  }

  /** The first row decides: a field set by one row is never overwritten by a later one, and
      no earlier row mentioned any of its keys. */
  lemma {:induction false} FieldFromFirstRow(texts: seq<string>, f: string)
    ensures FieldFrom(texts, f).None? <==>
      forall i :: 0 <= i < |texts| ==> KeyLookup(texts[i], MetadataKeys, f).None?
    ensures FieldFrom(texts, f).Some? ==>
      exists i :: 0 <= i < |texts| && FieldFrom(texts, f) == KeyLookup(texts[i], MetadataKeys, f)
                  && forall j :: 0 <= j < i ==> KeyLookup(texts[j], MetadataKeys, f).None?
    decreases |texts|
  {
    if texts != [] {
      var init := texts[..|texts| - 1];
      FieldFromFirstRow(init, f);
      assert forall i :: 0 <= i < |init| ==> init[i] == texts[i];
    }
  }

  /** A key for `f` inside the text decides the lookup's outcome; none inside gives nothing. */
  lemma {:induction false} KeyLookupFirstKey(text: string, keys: seq<(string, string)>, f: string)
    ensures KeyLookup(text, keys, f).None? <==>
      forall i :: 0 <= i < |keys| ==> !(keys[i].1 == f && Contains(text, keys[i].0))
    ensures KeyLookup(text, keys, f).Some? ==>
      exists i :: 0 <= i < |keys| && keys[i].1 == f && Contains(text, keys[i].0)
                  && KeyLookup(text, keys, f) == Some(MetaValue(text, keys[i].0))
                  && forall j :: 0 <= j < i ==> !(keys[j].1 == f && Contains(text, keys[j].0))
    decreases |keys|
  {
    if keys != [] {
      var init := keys[..|keys| - 1];
      KeyLookupFirstKey(text, init, f);
      assert forall i :: 0 <= i < |init| ==> init[i] == keys[i];
    }
  }

  /** An empty row text holds no key. */
  lemma {:induction false} NoKeyInEmptyText(keys: seq<(string, string)>, f: string)
    requires forall i :: 0 <= i < |keys| ==> keys[i].0 != ""
    ensures KeyLookup("", keys, f) == None
    decreases |keys|
  {
    if keys != [] {
      NoKeyInEmptyText(keys[..|keys| - 1], f);
    }
  }

  /** `a or b` on optional values. */
  function First<T>(a: Option<T>, b: Option<T>): Option<T> {
    if a.Some? then a else b
  }

  /** One step of the key loop: key `j` of `keys`, if the text holds it and its field is unset. */
  method ScanKey(fields: Dict<string, string>, text: string, ghost done: seq<string>,
                 keys: seq<(string, string)>, j: nat) returns (fields': Dict<string, string>)
    requires j < |keys|
    requires UniqueKeys(fields)
    requires forall f :: Get(fields, f) == First(FieldFrom(done, f), KeyLookup(text, keys[..j], f))
    ensures UniqueKeys(fields')
    ensures forall f :: Get(fields', f) == First(FieldFrom(done, f), KeyLookup(text, keys[..j + 1], f))
  {
    var (key, field) := keys[j];
    assert keys[..j + 1][..j] == keys[..j];
    fields' := fields;
    if Contains(text, key) && Get(fields, field).None? {
      fields' := Put(fields, field, MetaValue(text, key));
      forall f ensures Get(fields', f) == First(FieldFrom(done, f), KeyLookup(text, keys[..j + 1], f)) {
        PutGet(fields, field, MetaValue(text, key), f);
      }
    }
  }

  /** The key loop of `_parse_metadata` over one row's text. */
  method ScanRowKeys(fields: Dict<string, string>, text: string, ghost done: seq<string>) returns (fields': Dict<string, string>)
    requires UniqueKeys(fields)
    requires forall f :: Get(fields, f) == FieldFrom(done, f)
    ensures UniqueKeys(fields')
    ensures forall f :: Get(fields', f) == First(FieldFrom(done, f), KeyLookup(text, MetadataKeys, f))
  {
    var keys := MetadataKeys;
    fields' := fields;
    for j := 0 to |keys|
      invariant UniqueKeys(fields')
      invariant forall f :: Get(fields', f) == First(FieldFrom(done, f), KeyLookup(text, keys[..j], f))
    {
      fields' := ScanKey(fields', text, done, keys, j);
    }
    assert keys[..|keys|] == keys;
  }

  /** The row loop of `_parse_metadata`: every field gets the value of the first row that
      names it. */
  method ScanFields(rows: seq<Row>) returns (fields: Dict<string, string>)
    ensures UniqueKeys(fields)
    ensures forall f :: Get(fields, f) == FieldFrom(RowTexts(rows), f)
  {
    fields := [];
    ghost var texts := RowTexts(rows);
    for i := 0 to |rows|
      invariant UniqueKeys(fields)
      invariant forall f :: Get(fields, f) == FieldFrom(texts[..i], f)
    {
      assert texts[..i + 1][..i] == texts[..i];
      if !HasParts(rows[i]) {
        assert PartsText(rows[i]) == "" by {
          var r := rows[i];
          assert forall k :: 0 <= k < |r| ==> r[k] == Blank;
          PartsOfBlankRow(r);
        }
        NoKeyInEmptyText(MetadataKeys, "");
        forall f ensures Get(fields, f) == FieldFrom(texts[..i + 1], f) {
          NoKeyInEmptyText(MetadataKeys, f);
        }
        continue;
      }
      var text := PartsText(rows[i]);
      fields := ScanRowKeys(fields, text, texts[..i]);
    }
    assert texts[..|rows|] == texts;
  }

  lemma {:induction false} PartsOfBlankRow(row: Row)
    requires forall k :: 0 <= k < |row| ==> row[k] == Blank
    ensures PartsText(row) == ""
    decreases |row|
  {
    if row != [] {
      PartsOfBlankRow(row[1..]);
    }
  }

  /** The text of the last row that holds `name`, if any. */
  function LastRowWith(texts: seq<string>, name: string): Option<string>
    decreases |texts|
  {
    if texts == [] then None
    else if Contains(texts[|texts| - 1], name) then Some(texts[|texts| - 1])
    else LastRowWith(texts[..|texts| - 1], name)
  }

  /** The last matching row wins, and the name is absent when no row holds it. */
  lemma {:induction false} LastRowWithSpec(texts: seq<string>, name: string)
    ensures LastRowWith(texts, name).None? <==> forall i :: 0 <= i < |texts| ==> !Contains(texts[i], name)
    ensures LastRowWith(texts, name).Some? ==>
      exists i :: 0 <= i < |texts| && LastRowWith(texts, name) == Some(texts[i]) && Contains(texts[i], name)
                  && forall j :: i < j < |texts| ==> !Contains(texts[j], name)
    decreases |texts|
  {
    if texts != [] {
      var init := texts[..|texts| - 1];
      LastRowWithSpec(init, name);
      assert forall i :: 0 <= i < |init| ==> init[i] == texts[i];
    }
  }

  /** One parameter loop of `_parse_metadata`: every row holding `name` overwrites its entry,
      so the last one wins; the other entries stay. */
  method ScanLabel(rows: seq<Row>, parameters: Dict<string, string>, name: string) returns (r: Dict<string, string>)
    requires UniqueKeys(parameters)
    ensures UniqueKeys(r)
    ensures Get(r, name) == match LastRowWith(RowTexts(rows), name)
      case Some(text) => Some(text)
      case None => Get(parameters, name)
    ensures forall l :: l != name ==> Get(r, l) == Get(parameters, l)
  {
    ghost var texts := RowTexts(rows);
    r := parameters;
    for i := 0 to |rows|
      invariant UniqueKeys(r)
      invariant Get(r, name) == match LastRowWith(texts[..i], name)
        case Some(text) => Some(text)
        case None => Get(parameters, name)
      invariant forall l :: l != name ==> Get(r, l) == Get(parameters, l)
    {
      assert texts[..i + 1][..i] == texts[..i];
      var text := PartsText(rows[i]);
      if Contains(text, name) {
        ghost var before := r;
        r := Put(r, name, text);
        forall l ensures Get(r, l) == if l == name then Some(text) else Get(before, l) {
          PutGet(before, name, text, l);
        }
      }
    }
    assert texts[..|rows|] == texts;
  }

  /** The parameter loops of `_parse_metadata`: label by label, the text of the last row that
      holds it. */
  method ScanParameters(rows: seq<Row>) returns (parameters: Dict<string, string>)
    ensures UniqueKeys(parameters)
    ensures forall l :: Get(parameters, l) == if l in ParameterLabels then LastRowWith(RowTexts(rows), l) else None
  {
    parameters := [];
    ghost var texts := RowTexts(rows);
    for i := 0 to |ParameterLabels|
      invariant UniqueKeys(parameters)
      invariant forall l :: Get(parameters, l) == if l in ParameterLabels[..i] then LastRowWith(texts, l) else None
    {
      var name := ParameterLabels[i];
      assert name !in ParameterLabels[..i];
      parameters := ScanLabel(rows, parameters, name);
      assert ParameterLabels[..i + 1] == ParameterLabels[..i] + [name];
    }
    assert ParameterLabels[..|ParameterLabels|] == ParameterLabels;
  }

  /** What `_parse_metadata` returns, with the `source_file` entry `_parse_excel` adds; an
      empty `parameters` stands for the key being absent. */
  datatype Metadata = Metadata(fields: Dict<string, string>, parameters: Dict<string, string>, sourceFile: string)

  /** _parse_metadata over the first rows of the sheet. */
  method ParseMetadata(rows: seq<Row>, sourceFile: string) returns (meta: Metadata)
    ensures UniqueKeys(meta.fields) && UniqueKeys(meta.parameters)
    ensures forall f :: Get(meta.fields, f) == FieldFrom(RowTexts(rows), f)
    ensures forall l :: Get(meta.parameters, l) == if l in ParameterLabels then LastRowWith(RowTexts(rows), l) else None
    ensures meta.sourceFile == sourceFile
  {
    var fields := ScanFields(rows);
    var parameters := ScanParameters(rows);
    meta := Metadata(fields, parameters, sourceFile);
  }

  // ---------------------------------------------------------------------------------------------
  // _find_header_row

  const TimeKeys: seq<string> := ["观测日期", "观测日期时间", "日期", "时间"]

  /** The joined row text holds '序号' and one of the time keys. */
  predicate IsHeaderRow(row: Row) {
    var text := JoinedText(row);
    Contains(text, "序号") && exists k :: 0 <= k < |TimeKeys| && Contains(text, TimeKeys[k])
  }

  /** _find_header_row: the earliest qualifying row among the first twelve, else row 6. */
  method FindHeaderRow(sheet: Sheet) returns (r: nat)
    ensures var limit := if |sheet| < 12 then |sheet| else 12;
      || (r < limit && IsHeaderRow(sheet[r]) && forall j :: 0 <= j < r ==> !IsHeaderRow(sheet[j]))
      || (r == 6 && forall j :: 0 <= j < limit ==> !IsHeaderRow(sheet[j]))
  {
    var limit := if |sheet| < 12 then |sheet| else 12;
    for i := 0 to limit
      invariant forall j :: 0 <= j < i ==> !IsHeaderRow(sheet[j])
    {
      if IsHeaderRow(sheet[i]) {
        return i;
      }
    }
    return 6;
  }

  // ---------------------------------------------------------------------------------------------
  // Header merging in _parse_excel

  /** `fillna("").astype(str)` of a cell. */
  function HeaderText(c: Cell): string {
    match c
    case Blank => ""
    case Filled(shown, _) => shown
  }

  function HeaderTexts(row: Row): (r: seq<string>)
    ensures |r| == |row| && forall i :: 0 <= i < |row| ==> r[i] == HeaderText(row[i])
  {
    seq(|row|, i requires 0 <= i < |row| => HeaderText(row[i]))
  }

  /** `"" if str(x).strip().lower() == "nan" else str(x).strip()` (comparing with "nan", ASCII
      lower-casing is exact). */
  function CleanHeader(x: string): (r: string)
    ensures r == [] || (!PySpace(r[0]) && !PySpace(r[|r| - 1]))
    ensures r == "" || r == Strip(x)
  {
    if Lower(Strip(x)) == "nan" then "" else Strip(x)
  }

  /** A second-row cell that turns on two-row mode. */
  predicate Meaningful(x: string) {
    x != "" && Lower(Strip(x)) != "nan"
  }

  /** `any(x and str(x).strip().lower() != "nan" for x in header_next)`. */
  function UseTwoRows(next: seq<string>): (b: bool)
    ensures b <==> exists i :: 0 <= i < |next| && Meaningful(next[i])
  {
    if next == [] then false
    else Meaningful(next[0]) || (assert forall i :: 0 < i < |next| ==> next[i] == next[1..][i - 1]; UseTwoRows(next[1..]))
  }

  /** One merged header: "h sub" stripped when the sub-header is non-empty, else the cleaned
      header. */
  function MergedHeader(h: string, sub: string): (r: string)
    ensures r == [] || (!PySpace(r[0]) && !PySpace(r[|r| - 1]))
  {
    var s := CleanHeader(sub);
    if s != "" then Strip(CleanHeader(h) + " " + s) else CleanHeader(h)
  }

  /** Merging trimmed cells: a real sub-header gives "h sub" ("sub" alone under an empty header);
      a blank or whitespace-only one leaves the cleaned header. */
  lemma MergedPlain(h: string, sub: string)
    requires h == [] || (!PySpace(h[0]) && !PySpace(h[|h| - 1]))
    requires Lower(h) != "nan"
    ensures sub != [] && !PySpace(sub[0]) && !PySpace(sub[|sub| - 1]) && Lower(sub) != "nan" ==>
      MergedHeader(h, sub) == if h == "" then sub else h + " " + sub
    ensures Strip(sub) == "" ==> MergedHeader(h, sub) == h
  {
    StripTrimmed(h);
    if sub != [] && !PySpace(sub[0]) && !PySpace(sub[|sub| - 1]) && Lower(sub) != "nan" {
      MergedReal(h, sub);
    }
    if Strip(sub) == "" {
      assert Lower("") == "";
    }
  }

  /** The joined text of a trimmed header and a trimmed sub-header needs no stripping. */
  lemma MergedReal(h: string, sub: string)
    requires Strip(h) == h && Lower(h) != "nan"
    requires sub != [] && !PySpace(sub[0]) && !PySpace(sub[|sub| - 1]) && Lower(sub) != "nan"
    ensures MergedHeader(h, sub) == if h == "" then sub else h + " " + sub
  {
    StripTrimmed(sub);
    assert CleanHeader(sub) == sub;
    assert CleanHeader(h) == h;
    if h == "" {
      assert h + " " + sub == [' '] + sub;
      StripSpaceBefore(sub);
    } else {
      StripTrimmed(h + " " + sub);
    }
  }

  /** The cell below header `i` in two-row mode, if there is one; "" otherwise. */
  function SubHeader(next: seq<string>, twoRows: bool, i: nat): string {
    if twoRows && i < |next| then next[i] else ""
  }

  /** Merged header `i` of the header row (a column past its end has none). */
  function HeaderAt(base: seq<string>, next: seq<string>, twoRows: bool, i: nat): string {
    if i < |base| then MergedHeader(base[i], SubHeader(next, twoRows, i)) else ""
  }

  /** The header loop of `_parse_excel`: one header per cell of the header row; in two-row mode
      each is merged with the cell below it, if there is one. */
  method MergeHeaders(base: seq<string>, next: seq<string>, twoRows: bool) returns (headers: seq<string>)
    ensures |headers| == |base|
    ensures forall i :: 0 <= i < |base| ==> headers[i] == MergedHeader(base[i], SubHeader(next, twoRows, i))
  {
    ghost var f := k => HeaderAt(base, next, twoRows, k);
    headers := [];
    for i := 0 to |base|
      invariant headers == Seqs.Tabulate(i, f)
    {
      headers := headers + [HeaderAt(base, next, twoRows, i)];
    }
    forall i | 0 <= i < |base| ensures headers[i] == HeaderAt(base, next, twoRows, i) {
      Seqs.TabulateAt(|base|, f, i);
    }
    forall i | 0 <= i < |base| ensures headers[i] == MergedHeader(base[i], SubHeader(next, twoRows, i)) {
      assert headers[i] == HeaderAt(base, next, twoRows, i);
    }
  }

  // ---------------------------------------------------------------------------------------------
  // The reading loop of _parse_excel

  /** A point in time, in milliseconds. */
  type Instant = int

  /** `_parse_datetime` of a cleaned value: `pd.to_datetime`, with Excel serial numbers counted
      in days from 1899-12-30; None where pandas fails. */
  type DatetimeParser = Value -> Option<Instant>

  /** The cell in column `j` (a short row reads as empty there). */
  function CellAt(row: Row, j: nat): Cell {
    if j < |row| then row[j] else Blank
  }

  /** The first non-empty cell among columns `p..` named `col`. */
  function ColumnFrom(headers: seq<string>, row: Row, col: string, p: nat): (v: Option<Value>)
    requires p <= |headers|
    ensures v.None? <==> forall j :: p <= j < |headers| && headers[j] == col ==> CellAt(row, j).Blank?
    ensures v.Some? ==> exists j :: p <= j < |headers| && headers[j] == col && CellAt(row, j).Filled?
                                    && v.value == CellAt(row, j).value
                                    && forall i :: p <= i < j && headers[i] == col ==> CellAt(row, i).Blank?
    decreases |headers| - p
  {
    if p == |headers| then None
    else if headers[p] == col && CellAt(row, p).Filled? then Some(CellAt(row, p).value)
    else ColumnFrom(headers, row, col, p + 1)
  }

  /** `_clean_value(row[col])`: a duplicated column name gives pandas a Series, of which the
      first non-null value is taken; an empty cell gives None. */
  function ColumnValue(headers: seq<string>, row: Row, col: string): Option<Value> {
    ColumnFrom(headers, row, col, 0)
  }

  lemma PutGetAll<K, V>(d: Dict<K, V>, k: K, v: V)
    requires UniqueKeys(d)
    ensures forall k' :: Get(Put(d, k, v), k') == if k' == k then Some(v) else Get(d, k')
  {
    forall k' ensures Get(Put(d, k, v), k') == if k' == k then Some(v) else Get(d, k') {
      PutGet(d, k, v, k');
    }
  }

  /** `{col: _clean_value(row[col]) for col in cols}`. */
  function RawFrom(headers: seq<string>, cols: seq<string>, row: Row): (d: Dict<string, Option<Value>>)
    ensures UniqueKeys(d)
    ensures forall col :: Get(d, col) == if col in cols then Some(ColumnValue(headers, row, col)) else None
    decreases |cols|
  {
    if cols == [] then []
    else
      var init := cols[..|cols| - 1];
      var c := cols[|cols| - 1];
      var d := RawFrom(headers, init, row);
      assert cols == init + [c];
      PutGetAll(d, c, ColumnValue(headers, row, c));
      Put(d, c, ColumnValue(headers, row, c))
  }

  /** `raw_values`: every header, with the cleaned value of its column. */
  function RawValues(headers: seq<string>, row: Row): Dict<string, Option<Value>> {
    RawFrom(headers, headers, row)
  }

  /** Where the mapping puts a row's columns. */
  datatype Layout = Layout(headers: seq<string>, mapping: Dict<string, MetricColumn>, timeCol: Option<string>)

  /** The reading time of a row: nothing when there is no time column, or it is the empty
      string (`if time_col` is false), or its cell is empty or does not parse. */
  function TimeOf(layout: Layout, parse: DatetimeParser, row: Row): Option<Instant> {
    if layout.timeCol.None? || layout.timeCol.value == "" then None
    else match ColumnValue(layout.headers, row, layout.timeCol.value)
      case None => None
      case Some(v) => parse(v)
  }

  /** Column `entries[j]` gives a value for metric `k` in this row. */
  predicate Supplies(entries: Dict<string, MetricColumn>, headers: seq<string>, row: Row, k: string, j: nat)
    requires j < |entries|
  {
    entries[j].1.metricKey == k && ColumnValue(headers, row, entries[j].0).Some?
  }

  /** The last mapped column that supplies metric `k`: later columns overwrite earlier ones. */
  function LastSupplier(entries: Dict<string, MetricColumn>, headers: seq<string>, row: Row, k: string): (r: Option<nat>)
    ensures r.Some? ==> r.value < |entries| && Supplies(entries, headers, row, k, r.value)
                        && forall j :: r.value < j < |entries| ==> !Supplies(entries, headers, row, k, j)
    ensures r.None? ==> forall j :: 0 <= j < |entries| ==> !Supplies(entries, headers, row, k, j)
    decreases |entries|
  {
    if entries == [] then None
    else if Supplies(entries, headers, row, k, |entries| - 1) then Some(|entries| - 1)
    else
      var init := entries[..|entries| - 1];
      var r := LastSupplier(init, headers, row, k);
      assert forall j :: 0 <= j < |init| ==> Supplies(init, headers, row, k, j) == Supplies(entries, headers, row, k, j);
      r
  }

  /** The value metric `k` gets in this row. */
  function MetricValue(entries: Dict<string, MetricColumn>, headers: seq<string>, row: Row, k: string): Option<Value> {
    match LastSupplier(entries, headers, row, k)
    case None => None
    case Some(j) => ColumnValue(headers, row, entries[j].0)
  }

  /** The unit recorded for metric `k` in this row: that of the column whose value it took. */
  function MetricUnit(entries: Dict<string, MetricColumn>, headers: seq<string>, row: Row, k: string): Option<Option<string>> {
    match LastSupplier(entries, headers, row, k)
    case None => None
    case Some(j) => Some(entries[j].1.unit)
  }

  /** Adding a mapped column changes only its own metric, and only when its cell has a value. */
  lemma MetricStep(entries: Dict<string, MetricColumn>, headers: seq<string>, row: Row)
    requires entries != []
    ensures var (col, meta) := entries[|entries| - 1];
      var init := entries[..|entries| - 1];
      var val := ColumnValue(headers, row, col);
      forall k ::
        && MetricValue(entries, headers, row, k)
           == (if meta.metricKey == k && val.Some? then val else MetricValue(init, headers, row, k))
        && MetricUnit(entries, headers, row, k)
           == (if meta.metricKey == k && val.Some? then Some(meta.unit) else MetricUnit(init, headers, row, k))
  {
    var init := entries[..|entries| - 1];
    assert forall j :: 0 <= j < |init| ==> init[j] == entries[j];
  }

  /** One step of the metric loop: column `i` of the mapping, if its cell has a value. */
  method ApplyColumn(mapping: Dict<string, MetricColumn>, headers: seq<string>, row: Row, i: nat,
                     metrics: Dict<string, Value>, units: Dict<string, Option<string>>)
    returns (metrics': Dict<string, Value>, units': Dict<string, Option<string>>)
    requires i < |mapping|
    requires UniqueKeys(metrics) && UniqueKeys(units)
    requires forall k :: Get(metrics, k) == MetricValue(mapping[..i], headers, row, k)
    requires forall k :: Get(units, k) == MetricUnit(mapping[..i], headers, row, k)
    ensures UniqueKeys(metrics') && UniqueKeys(units')
    ensures forall k :: Get(metrics', k) == MetricValue(mapping[..i + 1], headers, row, k)
    ensures forall k :: Get(units', k) == MetricUnit(mapping[..i + 1], headers, row, k)
  {
    var (col, meta) := mapping[i];
    var val := ColumnValue(headers, row, col);
    ghost var pre := mapping[..i + 1];
    assert pre[..i] == mapping[..i] && pre[i] == (col, meta);
    MetricStep(pre, headers, row);
    metrics', units' := metrics, units;
    if val.Some? {
      PutGetAll(metrics, meta.metricKey, val.value);
      PutGetAll(units, meta.metricKey, meta.unit);
      metrics' := Put(metrics, meta.metricKey, val.value);
      units' := Put(units, meta.metricKey, meta.unit);
    }
  }

  /** The metric loop of one row: for each mapped column with a value, its metric takes that
      value and the column's unit. */
  method RowMetrics(mapping: Dict<string, MetricColumn>, headers: seq<string>, row: Row)
    returns (metrics: Dict<string, Value>, units: Dict<string, Option<string>>)
    ensures UniqueKeys(metrics) && UniqueKeys(units)
    ensures forall k :: Get(metrics, k) == MetricValue(mapping, headers, row, k)
    ensures forall k :: Get(units, k) == MetricUnit(mapping, headers, row, k)
  {
    metrics := [];
    units := [];
    for i := 0 to |mapping|
      invariant UniqueKeys(metrics) && UniqueKeys(units)
      invariant forall k :: Get(metrics, k) == MetricValue(mapping[..i], headers, row, k)
      invariant forall k :: Get(units, k) == MetricUnit(mapping[..i], headers, row, k)
    {
      metrics, units := ApplyColumn(mapping, headers, row, i, metrics, units);
    }
    assert mapping[..|mapping|] == mapping;
  }

  /** One entry of `readings`. */
  datatype Reading = Reading(time: Instant, metrics: Dict<string, Value>, units: Dict<string, Option<string>>,
                             raw: Dict<string, Option<Value>>)

  /** `reading` is what the loop appends for `row`. */
  ghost predicate ReadingOf(layout: Layout, parse: DatetimeParser, row: Row, reading: Reading) {
    && TimeOf(layout, parse, row) == Some(reading.time)
    && UniqueKeys(reading.metrics) && UniqueKeys(reading.units)
    && (forall k :: Get(reading.metrics, k) == MetricValue(layout.mapping, layout.headers, row, k))
    && (forall k :: Get(reading.units, k) == MetricUnit(layout.mapping, layout.headers, row, k))
    && reading.raw == RawValues(layout.headers, row)
  }

  /** The data rows that have a reading time, in order. */
  function TimedRows(layout: Layout, parse: DatetimeParser, rows: seq<Row>): seq<Row>
    decreases |rows|
  {
    if rows == [] then []
    else
      var last := rows[|rows| - 1];
      TimedRows(layout, parse, rows[..|rows| - 1]) + (if TimeOf(layout, parse, last).Some? then [last] else [])
  }

  /** The timed rows are exactly the rows with a reading time. */
  lemma {:induction false} TimedRowsMembers(layout: Layout, parse: DatetimeParser, rows: seq<Row>)
    ensures forall r :: r in TimedRows(layout, parse, rows) <==> r in rows && TimeOf(layout, parse, r).Some?
    ensures |TimedRows(layout, parse, rows)| <= |rows|
    decreases |rows|
  {
    if rows != [] {
      var init := rows[..|rows| - 1];
      TimedRowsMembers(layout, parse, init);
      assert rows == init + [rows[|rows| - 1]];
    }
  }

  /** The reading loop of `_parse_excel`: one reading per data row with a reading time, in row
      order; rows without one are skipped. */
  method ReadRows(layout: Layout, parse: DatetimeParser, rows: seq<Row>) returns (readings: seq<Reading>)
    ensures |readings| == |TimedRows(layout, parse, rows)|
    ensures forall i :: 0 <= i < |readings| ==> ReadingOf(layout, parse, TimedRows(layout, parse, rows)[i], readings[i])
  {
    readings := [];
    for i := 0 to |rows|
      invariant |readings| == |TimedRows(layout, parse, rows[..i])|
      invariant forall j :: 0 <= j < |readings| ==>
        ReadingOf(layout, parse, TimedRows(layout, parse, rows[..i])[j], readings[j])
    {
      ghost var done := TimedRows(layout, parse, rows[..i]);
      assert rows[..i + 1][..i] == rows[..i];
      var row := rows[i];
      var time := TimeOf(layout, parse, row);
      if time.None? {
        continue;
      }
      var metrics, units := RowMetrics(layout.mapping, layout.headers, row);
      readings := readings + [Reading(time.value, metrics, units, RawValues(layout.headers, row))];
      assert TimedRows(layout, parse, rows[..i + 1]) == done + [row];
    }
    assert rows[..|rows|] == rows;
  }

  // ---------------------------------------------------------------------------------------------
  // _parse_excel

  /** The parse result: point code, sensor type code, metadata, metric columns and readings. */
  datatype ParsedExcel = ParsedExcel(pointCode: string, sensorTypeCode: string, metadata: Metadata,
                                     metricColumns: Dict<string, MetricColumn>, readings: seq<Reading>)

  /** `metadata.get("point_code") or` the file stem. */
  function PointCode(fields: Dict<string, string>, stem: string): (code: string)
    ensures Get(fields, "point_code").Some? && Get(fields, "point_code").value != "" ==>
              code == Get(fields, "point_code").value
    ensures Get(fields, "point_code").None? || Get(fields, "point_code").value == "" ==> code == stem
  {
    match Get(fields, "point_code")
    case Some(v) => if v != "" then v else stem
    case None => stem
  }

  /** `h` is the row `_find_header_row` picks. */
  ghost predicate HeaderRowChoice(sheet: Sheet, h: nat) {
    var limit := if |sheet| < 12 then |sheet| else 12;
    || (h < limit && IsHeaderRow(sheet[h]) && forall j :: 0 <= j < h ==> !IsHeaderRow(sheet[j]))
    || (h == 6 && forall j :: 0 <= j < limit ==> !IsHeaderRow(sheet[j]))
  }

  /** The second header row of header row `h`: the next row's texts, or none past the end. */
  function NextHeaderTexts(sheet: Sheet, h: nat): seq<string> {
    if h + 1 < |sheet| then HeaderTexts(sheet[h + 1]) else []
  }

  /** The data rows under header row `h`: from two rows below it in two-row mode, else from
      the row below it. */
  function DataRows(sheet: Sheet, h: nat): seq<Row> {
    var start := if UseTwoRows(NextHeaderTexts(sheet, h)) then h + 2 else h + 1;
    if start <= |sheet| then sheet[start..] else []
  }

  /** The layout and readings of a sheet whose header row is `h`: one merged header per cell of
      that row, and one reading per timed data row under it. */
  ghost predicate ReadsFrom(sheet: Sheet, h: nat, layout: Layout, parse: DatetimeParser, readings: seq<Reading>)
    requires h < |sheet|
  {
    var next := NextHeaderTexts(sheet, h);
    var data := DataRows(sheet, h);
    && |layout.headers| == |sheet[h]|
    && (forall i :: 0 <= i < |sheet[h]| ==>
          layout.headers[i] == MergedHeader(HeaderText(sheet[h][i]), SubHeader(next, UseTwoRows(next), i)))
    && layout.timeCol == FindTimeColumn(layout.headers)
    && |readings| == |TimedRows(layout, parse, data)|
    && (forall i :: 0 <= i < |readings| ==> ReadingOf(layout, parse, TimedRows(layout, parse, data)[i], readings[i]))
  }

  /** `_parse_excel` on the sheet of a file named `fileName` (stem `stem`). The only failure is
      pandas' out-of-range error when no header row is found and the sheet has at most six
      rows. */
  method ParseExcel(sheet: Sheet, fileName: string, stem: string, parse: DatetimeParser)
    returns (r: Result<ParsedExcel, string>)
    ensures r.Err? <==> |sheet| <= 6 && forall j :: 0 <= j < |sheet| ==> !IsHeaderRow(sheet[j])
    ensures r.Ok? ==>
      var meta := r.value.metadata;
      var prefix := DetectPrefix(r.value.pointCode, fileName);
      && meta.sourceFile == fileName
      && UniqueKeys(meta.fields) && UniqueKeys(meta.parameters)
      && (forall f :: Get(meta.fields, f) == FieldFrom(RowTexts(sheet[..if |sheet| < 10 then |sheet| else 10]), f))
      && (forall l :: Get(meta.parameters, l) ==
            if l in ParameterLabels then LastRowWith(RowTexts(sheet[..if |sheet| < 10 then |sheet| else 10]), l) else None)
      && r.value.pointCode == PointCode(meta.fields, stem)
      && r.value.sensorTypeCode == TypeCode(prefix)
      && UniqueKeys(r.value.metricColumns)
      && exists h: nat, layout: Layout :: h < |sheet| && HeaderRowChoice(sheet, h)
           && layout.mapping == r.value.metricColumns
           && (forall col :: Get(r.value.metricColumns, col) == if col in layout.headers then MappedColumn(prefix, col) else None)
           && ReadsFrom(sheet, h, layout, parse, r.value.readings)
  {
    var meta := ParseMetadata(sheet[..if |sheet| < 10 then |sheet| else 10], fileName);
    var headerRow := FindHeaderRow(sheet);
    if headerRow >= |sheet| {
      return Err("single positional indexer is out-of-bounds");
    }
    var base := HeaderTexts(sheet[headerRow]);
    var next := NextHeaderTexts(sheet, headerRow);
    var twoRows := UseTwoRows(next);
    var headers := MergeHeaders(base, next, twoRows);
    var dataRows := DataRows(sheet, headerRow);
    var pointCode := PointCode(meta.fields, stem);
    var prefix := DetectPrefix(pointCode, fileName);
    var mapping := MapMetricColumns(prefix, headers);
    var layout := Layout(headers, mapping, FindTimeColumn(headers));
    var readings := ReadRows(layout, parse, dataRows);
    r := Ok(ParsedExcel(pointCode, TypeCode(prefix), meta, mapping, readings));
    assert HeaderRowChoice(sheet, headerRow);
    assert ReadsFrom(sheet, headerRow, layout, parse, readings);
  }
}
