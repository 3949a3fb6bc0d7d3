/** The base-map configuration transforms (src/utils/getFormatData/BaseMap.ts): the name/value
    rows of the map configuration become a flag object, and the imagery list has its string
    configurations parsed and its interface values coerced in place. */
module BaseMap {
  import opened Wrappers
  import opened Dicts

  /** The JavaScript values the responses carry. An object is an ordered dictionary of its own
      enumerable properties; a number is never NaN. */
  datatype JsValue =
    | JUndefined
    | JNull
    | JBool(b: bool)
    | JNum(x: real)
    | JStr(s: string)
    | JArr(items: seq<JsValue>)
    | JObj(fields: Dict<string, JsValue>)

  /** `lodash.forIn(xs, (v, k) => { xs[k] = f(v) })`: every entry, visited in order, is
      overwritten by `f` of its value; keys and order stay. */
  method ForInAssign<T>(xs: seq<T>, f: T -> T) returns (r: seq<T>)
    ensures |r| == |xs|
    ensures forall i :: 0 <= i < |xs| ==> r[i] == f(xs[i])
  {
    r := xs;
    for i := 0 to |xs|
      invariant |r| == |xs|
      invariant forall j :: 0 <= j < i ==> r[j] == f(xs[j])
      invariant forall j :: i <= j < |xs| ==> r[j] == xs[j]
    {
      r := r[i := f(r[i])];
    }
  }

  /** An object with every value replaced by `f` of it. */
  function MapValues(d: Dict<string, JsValue>, f: JsValue -> JsValue): (r: Dict<string, JsValue>)
    ensures |r| == |d| && forall i :: 0 <= i < |d| ==> r[i] == (d[i].0, f(d[i].1))
  {
    seq(|d|, i requires 0 <= i < |d| => (d[i].0, f(d[i].1)))
  }

  /** `f` lifted to the entries of an object. */
  function OnValue(f: JsValue -> JsValue): ((string, JsValue)) -> (string, JsValue) {
    (p: (string, JsValue)) => (p.0, f(p.1))
  }

  /** Reading a property after replacing every value. */
  lemma {:induction false} GetMapValues(d: Dict<string, JsValue>, f: JsValue -> JsValue, k: string)
    ensures Get(MapValues(d, f), k) == match Get(d, k) case None => None case Some(v) => Some(f(v))
    decreases |d|
  {
    if d != [] && d[0].0 != k {
      assert MapValues(d, f)[1..] == MapValues(d[1..], f);
      GetMapValues(d[1..], f, k);
    }
  }

  // ---------------------------------------------------------------------------------------------
  // getBaseMapConfig

  /** One `{ name, value }` row of the map-configuration response. */
  datatype ConfigRow = ConfigRow(name: string, value: JsValue)

  /** The value of the last row called `name`. */
  function LastValue(rows: seq<ConfigRow>, name: string): Option<JsValue>
    decreases |rows|
  {
    if rows == [] then None
    else if rows[|rows| - 1].name == name then Some(rows[|rows| - 1].value)
    else LastValue(rows[..|rows| - 1], name)
  }

  lemma {:induction false} LastValueNone(rows: seq<ConfigRow>, name: string)
    ensures LastValue(rows, name).None? <==> forall i :: 0 <= i < |rows| ==> rows[i].name != name
    decreases |rows|
  {
    if rows != [] {
      var init := rows[..|rows| - 1];
      LastValueNone(init, name);
      assert forall i :: 0 <= i < |init| ==> init[i] == rows[i];
    }
  }

  /** `value === '1'`. */
  function Flag(v: JsValue): JsValue {
    JBool(v == JStr("1"))
  }

  /** getBaseMapConfig: `zipObject` of the names and values, then every value replaced by
      whether it is the string '1'. The result has one key per distinct name, a repeated name
      takes the value of its last row, and every value is a boolean. */
  method GetBaseMapConfig(rows: seq<ConfigRow>) returns (config: Dict<string, JsValue>)
    ensures UniqueKeys(config)
    ensures forall name :: Get(config, name).None? <==> forall i :: 0 <= i < |rows| ==> rows[i].name != name
    ensures forall name :: LastValue(rows, name).Some? ==> Get(config, name) == Some(Flag(LastValue(rows, name).value))
    ensures forall i :: 0 <= i < |config| ==> config[i].1.JBool?
  {
    var zipped: Dict<string, JsValue> := [];
    for i := 0 to |rows|
      invariant UniqueKeys(zipped)
      invariant forall name :: Get(zipped, name) == LastValue(rows[..i], name)
    {
      forall name ensures Get(Put(zipped, rows[i].name, rows[i].value), name) == LastValue(rows[..i + 1], name) {
        PutGet(zipped, rows[i].name, rows[i].value, name);
        assert rows[..i + 1][..i] == rows[..i];
      }
      zipped := Put(zipped, rows[i].name, rows[i].value);
    }
    assert rows[..|rows|] == rows;
    config := ForInAssign(zipped, OnValue(Flag));
    assert config == MapValues(zipped, Flag);
    forall name ensures Get(config, name) == match Get(zipped, name) case None => None case Some(v) => Some(Flag(v)) {
      GetMapValues(zipped, Flag, name);
    }
    forall name ensures Get(config, name).None? <==> forall i :: 0 <= i < |rows| ==> rows[i].name != name {
      LastValueNone(rows, name);
    }
  }

  // ---------------------------------------------------------------------------------------------
  // getBaseMapImageryList

  /** An imagery element: its two configurations (JUndefined when absent) and its other
      properties, which the transform leaves alone. */
  datatype Imagery = Imagery(classConfig: JsValue, interfaceConfig: JsValue, others: Dict<string, JsValue>)

  /** `JSON.parse`: a value, or the message of the SyntaxError it throws. */
  type JsonParser = string -> Result<JsValue, string>

  /** `parseFloat`: None where it yields NaN. */
  type FloatParser = JsValue -> Option<real>

  /** The values `!v` holds for. */
  predicate Falsy(v: JsValue) {
    v == JUndefined || v == JNull || v == JBool(false) || v == JNum(0.0) || v == JStr("")
  }

  /** The interface-value coercion: the parsed number, or else whether the value is the
      string 'true'. */
  function Coerce(parseFloat: FloatParser, v: JsValue): JsValue {
    match parseFloat(v)
    case Some(x) => JNum(x)
    case None => JBool(v == JStr("true"))
  }

  function CoerceWith(parseFloat: FloatParser): JsValue -> JsValue {
    (v: JsValue) => Coerce(parseFloat, v)
  }

  /** `forIn` with the coercion over an interface configuration: an object's values or an
      array's elements are coerced; any other value has no enumerable properties. */
  function CoerceAll(parseFloat: FloatParser, v: JsValue): JsValue {
    match v
    case JObj(d) => JObj(MapValues(d, CoerceWith(parseFloat)))
    case JArr(xs) => JArr(seq(|xs|, i requires 0 <= i < |xs| => Coerce(parseFloat, xs[i])))
    case _ => v
  }

  /** The class configuration after the first step: a string is parsed as JSON. */
  function ParsedClass(parseJson: JsonParser, v: JsValue): Result<JsValue, string> {
    if v.JStr? then parseJson(v.s) else Ok(v)
  }

  /** The interface configuration after the second step: a non-empty string is parsed as JSON,
      a falsy value becomes `[]`, anything else stays. */
  function ParsedInterface(parseJson: JsonParser, v: JsValue): Result<JsValue, string> {
    if v.JStr? && v.s != "" then parseJson(v.s)
    else if Falsy(v) then Ok(JArr([]))
    else Ok(v)
  }

  /** What the `some` callback makes of one element; a parse that throws aborts. */
  function Processed(parseJson: JsonParser, parseFloat: FloatParser, e: Imagery): (r: Result<Imagery, string>)
    ensures r.Ok? <==> ParsedClass(parseJson, e.classConfig).Ok? && ParsedInterface(parseJson, e.interfaceConfig).Ok?
    ensures r.Ok? ==> r.value.others == e.others
  {
    match ParsedClass(parseJson, e.classConfig)
    case Err(msg) => Err(msg)
    case Ok(c) =>
      match ParsedInterface(parseJson, e.interfaceConfig)
      case Err(msg) => Err(msg)
      case Ok(ic) => Ok(Imagery(c, CoerceAll(parseFloat, ic), e.others))
  }

  /** A missing, null, false, zero or empty-string interface configuration becomes an empty
      array; the class configuration is still parsed when it is a string. */
  lemma MissingInterfaceIsEmpty(parseJson: JsonParser, parseFloat: FloatParser, e: Imagery)
    requires Falsy(e.interfaceConfig)
    requires ParsedClass(parseJson, e.classConfig).Ok?
    ensures Processed(parseJson, parseFloat, e)
            == Ok(Imagery(ParsedClass(parseJson, e.classConfig).value, JArr([]), e.others))
  {
    assert CoerceAll(parseFloat, JArr([])) == JArr([]);
  }

  /** Each interface value becomes its `parseFloat` number when there is one, and otherwise
      `true` exactly when it is the string 'true'; the keys stay. */
  lemma CoercedInterfaceValue(parseFloat: FloatParser, d: Dict<string, JsValue>, k: string)
    ensures var c := CoerceAll(parseFloat, JObj(d));
      && c.JObj? && Keys(c.fields) == Keys(d)
      && (Get(d, k).None? ==> Get(c.fields, k).None?)
      && (Get(d, k).Some? && parseFloat(Get(d, k).value).Some? ==>
            Get(c.fields, k) == Some(JNum(parseFloat(Get(d, k).value).value)))
      && (Get(d, k).Some? && parseFloat(Get(d, k).value).None? ==>
            Get(c.fields, k) == Some(JBool(Get(d, k).value == JStr("true"))))
  {
    GetMapValues(d, CoerceWith(parseFloat), k);
    assert Keys(MapValues(d, CoerceWith(parseFloat))) == Keys(d);
  }

  /** A boolean `true` (an interface value given as an object rather than as JSON text) is not
      a number for `parseFloat` and is not the string 'true', so it becomes `false`. */
  lemma TrueBecomesFalse(parseFloat: FloatParser)
    requires parseFloat(JBool(true)).None?
    ensures Coerce(parseFloat, JBool(true)) == JBool(false)
  {
  }

  /** getBaseMapImageryList's `some` loop over the response array. The callback never returns
      true, so every element is processed in place; a JSON.parse that throws rejects the call
      with its message, leaving the elements after it unchanged and the failing one with at
      most its class configuration replaced. */
  method GetBaseMapImageryList(res: array<Imagery>, parseJson: JsonParser, parseFloat: FloatParser)
    returns (outcome: Result<(), string>)
    modifies res
    ensures outcome.Ok? ==> forall i :: 0 <= i < res.Length ==> Processed(parseJson, parseFloat, old(res[i])) == Ok(res[i])
    ensures outcome.Ok? <==> forall i :: 0 <= i < res.Length ==> Processed(parseJson, parseFloat, old(res[i])).Ok?
    ensures outcome.Err? ==>
      exists k :: 0 <= k < res.Length
        && Processed(parseJson, parseFloat, old(res[k])) == Err(outcome.error)
        && (forall i :: 0 <= i < k ==> Processed(parseJson, parseFloat, old(res[i])) == Ok(res[i]))
        && (forall i :: k < i < res.Length ==> res[i] == old(res[i]))
        && res[k].interfaceConfig == old(res[k]).interfaceConfig && res[k].others == old(res[k]).others
  {
    for index := 0 to res.Length
      invariant forall i :: 0 <= i < index ==> Processed(parseJson, parseFloat, old(res[i])) == Ok(res[i])
      invariant forall i :: index <= i < res.Length ==> res[i] == old(res[i])
    {
      var elem := res[index];
      if elem.classConfig.JStr? {
        var parsed := parseJson(elem.classConfig.s);
        if parsed.Err? {
          return Err(parsed.error);
        }
        res[index] := res[index].(classConfig := parsed.value);
      }
      if elem.interfaceConfig.JStr? && elem.interfaceConfig.s != "" {
        var parsed := parseJson(elem.interfaceConfig.s);
        if parsed.Err? {
          return Err(parsed.error);
        }
        res[index] := res[index].(interfaceConfig := parsed.value);
      } else if Falsy(elem.interfaceConfig) {
        res[index] := res[index].(interfaceConfig := JArr([]));
      }
      match res[index].interfaceConfig {
        case JObj(d) =>
          var coerced := ForInAssign(d, OnValue(CoerceWith(parseFloat)));
          assert coerced == MapValues(d, CoerceWith(parseFloat));
          res[index] := res[index].(interfaceConfig := JObj(coerced));
        case JArr(xs) =>
          var coerced := ForInAssign(xs, CoerceWith(parseFloat));
          assert coerced == seq(|xs|, i requires 0 <= i < |xs| => Coerce(parseFloat, xs[i]));
          res[index] := res[index].(interfaceConfig := JArr(coerced));
        case _ =>
      }
    }
    outcome := Ok(());
  }
}
