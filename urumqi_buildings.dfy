/** Simulated buildings of Urumqi: the colour parser, the structure of the generator and the
    statistics (src/mock/urumqiBuildings.ts). */
module UrumqiBuildings {
  import opened Wrappers
  import opened Strs
  import Seqs
  import opened Nums

  // ---------------------------------------------------------------------------------------------
  // parseColor: `/rgba?\((\d+),\s*(\d+),\s*(\d+)(?:,\s*([\d.]+))?\)/`

  /** A JavaScript number as `parseFloat` produces it on the strings here: a value or NaN. */
  datatype Number = Num(value: real) | NaN

  /** The Cesium colour components parseColor returns. */
  datatype Rgba = Rgba(r: real, g: real, b: real, a: Number)

  const DefaultColor: Rgba := Rgba(0.5, 0.5, 0.5, Num(0.8))

  predicate IsDecimalChar(c: char) { IsDigit(c) || c == '.' }

  /** Length of the leading run of whitespace (`\s*`). */
  function SpaceRun(s: string): (n: nat)
    ensures n <= |s|
    ensures n == |s| || !JsSpace(s[n])
    decreases |s|
  {
    if s != [] && JsSpace(s[0]) then 1 + SpaceRun(s[1..]) else 0
  }

  /** Length of the leading run of digits and dots (`[\d.]*`). */
  function DecimalRun(s: string): (n: nat)
    ensures n <= |s|
    ensures forall i :: 0 <= i < n ==> IsDecimalChar(s[i])
    ensures n == |s| || !IsDecimalChar(s[n])
    decreases |s|
  {
    if s != [] && IsDecimalChar(s[0]) then
      var k := DecimalRun(s[1..]);
      assert forall i :: 1 <= i < k + 1 ==> s[i] == s[1..][i - 1];
      1 + k
    else 0
  }

  /** A digit string followed by a non-digit: the digit run is exactly that string. */
  lemma {:induction false} DigitRunOfPrefix(d: string, rest: string)
    requires AllDigits(d) && (rest == [] || !IsDigit(rest[0]))
    ensures DigitRun(d + rest) == |d|
    decreases |d|
  {
    if d == [] {
      assert d + rest == rest;
    } else {
      assert (d + rest)[1..] == d[1..] + rest;
      assert (d + rest)[0] == d[0];
      DigitRunOfPrefix(d[1..], rest);
    }
  }


  /** The captures of one match: three digit strings and the optional alpha text. */
  datatype ColorMatch = ColorMatch(red: string, green: string, blue: string, alpha: Option<string>)

  predicate WellFormed(m: ColorMatch) {
    AllDigits(m.red) && AllDigits(m.green) && AllDigits(m.blue)
    && (m.alpha.Some? ==> |m.alpha.value| > 0 && forall i :: 0 <= i < |m.alpha.value| ==> IsDecimalChar(m.alpha.value[i]))
  }

  /** `,\s*(\d+)` at the start of `t`: the digits and what follows them. */
  function CommaNumber(t: string): (r: Option<(string, string)>)
    ensures r.Some? ==> AllDigits(r.value.0) && |r.value.0| > 0
  {
    if t == [] || t[0] != ',' then None
    else
      var u := t[1..];
      var w := SpaceRun(u);
      var v := u[w..];
      var n := DigitRun(v);
      if n == 0 then None else Some((v[..n], v[n..]))
  }

  /** `(?:,\s*([\d.]+))?\)` at the start of `u`: Some(alpha text) when the group matches and
      is followed by `)`. */
  function AlphaGroup(u: string): (r: Option<string>)
    ensures r.Some? ==> |r.value| > 0 && forall i :: 0 <= i < |r.value| ==> IsDecimalChar(r.value[i])
  {
    if u == [] || u[0] != ',' then None
    else
      var w := SpaceRun(u[1..]);
      var v := u[1..][w..];
      var m := DecimalRun(v);
      if m > 0 && m < |v| && v[m] == ')' then Some(v[..m]) else None
  }

  /** Length of `rgba(` or `rgb(` at the start of `t`, 0 when neither is there. */
  function OpenLength(t: string): (k: nat)
    ensures k <= |t|
  {
    if StartsWith(t, "rgba(") then 5 else if StartsWith(t, "rgb(") then 4 else 0
  }

  /** The optional alpha group and the closing `)` after the third number. */
  function Close(red: string, green: string, blue: string, u: string): (r: Option<ColorMatch>)
    requires AllDigits(red) && AllDigits(green) && AllDigits(blue)
    ensures r.Some? ==> WellFormed(r.value)
  {
    var alpha := AlphaGroup(u);
    if alpha.Some? then Some(ColorMatch(red, green, blue, alpha))
    else if u != [] && u[0] == ')' then Some(ColorMatch(red, green, blue, None))
    else None
  }

  /** `,\s*(\d+)` twice after the first number, then Close. */
  function AfterRed(red: string, rest: string): (r: Option<ColorMatch>)
    requires AllDigits(red)
    ensures r.Some? ==> WellFormed(r.value)
  {
    var c2 := CommaNumber(rest);
    if c2.None? then None
    else
      var c3 := CommaNumber(c2.value.1);
      if c3.None? then None
      else Close(red, c2.value.0, c3.value.0, c3.value.1)
  }

  /** The three numbers and the alpha after the opening `rgb(`/`rgba(`. */
  function MatchArgs(t1: string): (r: Option<ColorMatch>)
    ensures r.Some? ==> WellFormed(r.value)
  {
    var n1 := DigitRun(t1);
    if n1 == 0 then None else AfterRed(t1[..n1], t1[n1..])
  }

  /** The match of the pattern starting exactly at the beginning of `t`, if any. */
  function MatchHere(t: string): (r: Option<ColorMatch>)
    ensures r.Some? ==> WellFormed(r.value)
  {
    var k := OpenLength(t);
    if k == 0 then None else MatchArgs(t[k..])
  }

  /** `String.prototype.match`: the match at the leftmost position from `from` where there is one. */
  function FindMatch(s: string, from: nat): (r: Option<ColorMatch>)
    requires from <= |s|
    ensures r.Some? ==> WellFormed(r.value)
    decreases |s| - from
  {
    if MatchHere(s[from..]).Some? then MatchHere(s[from..])
    else if from == |s| then None
    else FindMatch(s, from + 1)
  }

  /** `parseFloat` on a string of digits and dots: the longest prefix of the form `d*` or
      `d*.d*` with at least one digit, NaN when there is none. */
  function ParseDecimal(t: string): Number {
    var n := DigitRun(t);
    var whole := t[..n];
    var rest := t[n..];
    if rest != [] && rest[0] == '.' then
      var m := DigitRun(rest[1..]);
      var frac := rest[1..][..m];
      if n == 0 && m == 0 then NaN
      else Num(DigitsValue(whole) as real + DigitsValue(frac) as real / Pow10(m))
    else if n == 0 then NaN
    else Num(DigitsValue(whole) as real)
  }

  /** parseColor: the captured integers over 255 and the alpha (1 when absent), or the grey
      default when the text holds no rgb/rgba colour. */
  function ParseColor(s: string): (c: Rgba)
    ensures FindMatch(s, 0).None? ==> c == DefaultColor
    ensures FindMatch(s, 0).Some? ==> var m := FindMatch(s, 0).value;
      && c.r == DigitsValue(m.red) as real / 255.0
      && c.g == DigitsValue(m.green) as real / 255.0
      && c.b == DigitsValue(m.blue) as real / 255.0
      && c.a == (if m.alpha.None? then Num(1.0) else ParseDecimal(m.alpha.value))
  {
    match FindMatch(s, 0)
    case None => DefaultColor
    case Some(m) =>
      Rgba(DigitsValue(m.red) as real / 255.0, DigitsValue(m.green) as real / 255.0,
           DigitsValue(m.blue) as real / 255.0,
           if m.alpha.None? then Num(1.0) else ParseDecimal(m.alpha.value))
  }

  /** Every match starts with the letters "rgb". */
  lemma MatchNeedsRgb(t: string)
    ensures MatchHere(t).Some? ==> StartsWith(t, "rgb")
  {
    if StartsWith(t, "rgba(") { assert t[..3] == "rgba("[..3]; }
    if StartsWith(t, "rgb(") { assert t[..3] == "rgb("[..3]; }
  }

  lemma {:induction false} NoRgbFrom(s: string, from: nat)
    requires from <= |s|
    requires forall q :: from <= q <= |s| ==> !StartsWith(s[q..], "rgb")
    ensures FindMatch(s, from).None?
    decreases |s| - from
  {
    MatchNeedsRgb(s[from..]);
    if from < |s| {
      NoRgbFrom(s, from + 1);
    }
  }

  /** A text without the letters "rgb" has no colour in it and parses to the default. */
  lemma NoRgbIsDefault(s: string)
    requires forall q :: 0 <= q <= |s| ==> !StartsWith(s[q..], "rgb")
    ensures ParseColor(s) == DefaultColor
  {
    NoRgbFrom(s, 0);
  }

  function FormatRgb(r: nat, g: nat, b: nat): string {
    "rgb(" + (NatToString(r) + (", " + (NatToString(g) + (", " + (NatToString(b) + ")")))))
  }

  /** `,` then a space and a digit string, then a tail that does not start with a digit. */
  lemma CommaNumberOf(d: string, tail: string)
    requires AllDigits(d) && |d| > 0
    requires tail == [] || !IsDigit(tail[0])
    ensures CommaNumber(", " + (d + tail)) == Some((d, tail))
  {
    var t := ", " + (d + tail);
    var u := t[1..];
    assert u == [' '] + (d + tail);
    assert !JsSpace((d + tail)[0]) by { assert (d + tail)[0] == d[0]; }
    assert u[1..] == d + tail;
    assert SpaceRun(u) == 1;
    DigitRunOfPrefix(d, tail);
    assert (d + tail)[..|d|] == d;
    assert (d + tail)[|d|..] == tail;
  }

  /** The arguments `R, G, B)` of a formatted colour. */
  lemma MatchArgsOf(R: string, G: string, B: string)
    requires AllDigits(R) && AllDigits(G) && AllDigits(B) && |R| > 0 && |G| > 0 && |B| > 0
    ensures MatchArgs(R + (", " + (G + (", " + (B + ")"))))) == Some(ColorMatch(R, G, B, None))
  {
    var tail2 := ", " + (B + ")");
    var tail1 := ", " + (G + tail2);
    var t1 := R + tail1;
    assert DigitRun(t1) == |R| && t1[..|R|] == R && t1[|R|..] == tail1 by {
      DigitRunOfPrefix(R, tail1);
    }
    assert Close(R, G, B, ")") == Some(ColorMatch(R, G, B, None)) by {
      assert AlphaGroup(")").None?;
    }
    assert AfterRed(R, tail1) == Some(ColorMatch(R, G, B, None)) by {
      CommaNumberOf(G, tail2);
      CommaNumberOf(B, ")");
    }
  }

  /** Formatting three integers as `rgb(r, g, b)` and parsing the text back gives each integer over
      255 and the opaque alpha 1. */
  lemma ParseFormatRgb(r: nat, g: nat, b: nat)
    ensures ParseColor(FormatRgb(r, g, b))
            == Rgba(r as real / 255.0, g as real / 255.0, b as real / 255.0, Num(1.0))
  {
    var R, G, B := NatToString(r), NatToString(g), NatToString(b);
    var s := FormatRgb(r, g, b);
    var t1 := R + (", " + (G + (", " + (B + ")"))));
    assert s == "rgb(" + t1;
    assert StartsWith(s, "rgb(");
    assert !StartsWith(s, "rgba(") by { assert s[3] == '('; }
    assert OpenLength(s) == 4;
    assert s[4..] == t1;
    assert s[0..] == s;
    MatchArgsOf(R, G, B);
    assert MatchHere(s) == Some(ColorMatch(R, G, B, None));
    assert FindMatch(s, 0) == Some(ColorMatch(R, G, B, None));
    NatToStringValue(r);
    NatToStringValue(g);
    NatToStringValue(b);
  }

  function FormatRgba(r: nat, g: nat, b: nat, a: nat): string {
    "rgba(" + (NatToString(r) + (", " + (NatToString(g) + (", " + (NatToString(b) + (", " + (NatToString(a) + ")")))))))
  }

  lemma {:induction false} DecimalRunOfPrefix(d: string, rest: string)
    requires AllDigits(d) && (rest == [] || !IsDecimalChar(rest[0]))
    ensures DecimalRun(d + rest) == |d|
    decreases |d|
  {
    if d == [] {
      assert d + rest == rest;
    } else {
      assert (d + rest)[1..] == d[1..] + rest;
      assert (d + rest)[0] == d[0];
      DecimalRunOfPrefix(d[1..], rest);
    }
  }

  /** `, A)` with a digit string A is an alpha group capturing A. */
  lemma AlphaGroupOf(A: string)
    requires AllDigits(A) && |A| > 0
    ensures AlphaGroup(", " + (A + ")")) == Some(A)
  {
    var u := ", " + (A + ")");
    assert u[1..] == [' '] + (A + ")");
    assert !JsSpace((A + ")")[0]) by { assert (A + ")")[0] == A[0]; }
    assert SpaceRun(u[1..]) == 1;
    assert u[1..][1..] == A + ")";
    DecimalRunOfPrefix(A, ")");
    assert (A + ")")[|A|] == ')';
    assert (A + ")")[..|A|] == A;
  }

  /** `parseFloat` of a digit string is its value. */
  lemma ParseDecimalOfDigits(A: string)
    requires AllDigits(A) && |A| > 0
    ensures ParseDecimal(A) == Num(DigitsValue(A) as real)
  {
    DigitRunOfPrefix(A, []);
    assert A + [] == A;
    assert A[..|A|] == A;
  }

  /** The arguments `R, G, B, A)` of a formatted colour with alpha. */
  lemma MatchArgsOfAlpha(R: string, G: string, B: string, A: string)
    requires AllDigits(R) && AllDigits(G) && AllDigits(B) && AllDigits(A)
    requires |R| > 0 && |G| > 0 && |B| > 0 && |A| > 0
    ensures MatchArgs(R + (", " + (G + (", " + (B + (", " + (A + ")")))))))
            == Some(ColorMatch(R, G, B, Some(A)))
  {
    var tail3 := ", " + (A + ")");
    var tail2 := ", " + (B + tail3);
    var tail1 := ", " + (G + tail2);
    var t1 := R + tail1;
    assert DigitRun(t1) == |R| && t1[..|R|] == R && t1[|R|..] == tail1 by {
      DigitRunOfPrefix(R, tail1);
    }
    assert Close(R, G, B, tail3) == Some(ColorMatch(R, G, B, Some(A))) by {
      AlphaGroupOf(A);
    }
    assert AfterRed(R, tail1) == Some(ColorMatch(R, G, B, Some(A))) by {
      CommaNumberOf(G, tail2);
      CommaNumberOf(B, tail3);
    }
  }

  lemma FindFormatRgba(r: nat, g: nat, b: nat, a: nat)
    ensures FindMatch(FormatRgba(r, g, b, a), 0)
            == Some(ColorMatch(NatToString(r), NatToString(g), NatToString(b), Some(NatToString(a))))
  {
    var R, G, B, A := NatToString(r), NatToString(g), NatToString(b), NatToString(a);
    var s := FormatRgba(r, g, b, a);
    var t1 := R + (", " + (G + (", " + (B + (", " + (A + ")"))))));
    assert s == "rgba(" + t1;
    assert OpenLength(s) == 5 by { assert s[..5] == "rgba("; }
    assert s[5..] == t1;
    MatchArgsOfAlpha(R, G, B, A);
    assert s[0..] == s;
  }

  lemma ParseDecimalOfNat(a: nat)
    ensures ParseDecimal(NatToString(a)) == Num(a as real)
  {
    ParseDecimalOfDigits(NatToString(a));
    NatToStringValue(a);
  }

  /** Formatting `rgba(r, g, b, a)` with an integer alpha and parsing it back gives the integers
      over 255 and the alpha itself. */
  lemma ParseFormatRgba(r: nat, g: nat, b: nat, a: nat)
    ensures ParseColor(FormatRgba(r, g, b, a))
            == Rgba(r as real / 255.0, g as real / 255.0, b as real / 255.0, Num(a as real))
  {
    FindFormatRgba(r, g, b, a);
    ParseDecimalOfNat(a);
    NatToStringValue(r);
    NatToStringValue(g);
    NatToStringValue(b);
  }

  // ---------------------------------------------------------------------------------------------
  // generateBuildings

  datatype BuildingType = Residential | Commercial | Office | Industrial | Infrastructure | Landmark

  /** The types the district loop draws from (`['residential', 'commercial', 'office', ...]`). */
  type DistrictType = t: BuildingType | t == Residential || t == Commercial || t == Office witness Residential

  datatype Building = Building(id: string, name: string, kind: BuildingType, lng: real, lat: real,
                               height: real, width: real, depth: real, floors: int,
                               rotation: Option<real>, color: Option<string>, description: Option<string>)

  /** The fields of a DistrictConfig the generator's structure uses; the centre and radius only
      feed the random geometry. */
  datatype District = District(id: string, name: string, buildingDensity: real, avgHeight: real)

  /** A value of `Math.random()`. */
  type Unit = r: real | 0.0 <= r < 1.0

  /** The random values one district building consumes. The position is given as computed:
      it needs the cosine and sine of a random angle. */
  datatype Draw = Draw(typePick: Unit, lng: real, lat: real, floorPick: Unit, widthPick: Unit,
                       depthPick: Unit, rotationPick: Unit)

  /** The draws of building `i` of district `k`. */
  type Draws = (nat, nat) -> Draw

  function BuildingColor(t: BuildingType): string {
    match t
    case Residential => "rgba(100, 149, 237, 0.85)"
    case Commercial => "rgba(255, 165, 0, 0.85)"
    case Office => "rgba(70, 130, 180, 0.85)"
    case Industrial => "rgba(128, 128, 128, 0.85)"
    case Infrastructure => "rgba(46, 139, 87, 0.85)"
    case Landmark => "rgba(220, 20, 60, 0.85)"
  }

  function KindLabel(t: BuildingType): string {
    if t == Residential then "住宅" else if t == Commercial then "商业" else "办公"
  }

  /** `Math.floor(40 * district.buildingDensity)`; a negative count runs no iterations. */
  function BuildingCount(d: District): nat {
    var f := (40.0 * d.buildingDensity).Floor;
    if f < 0 then 0 else f
  }

  function BuildingId(n: nat): string {
    "building_" + NatToString(n)
  }

  /** `types`: residential is listed three times out of five. */
  const DistrictTypes: seq<DistrictType> := [Residential, Commercial, Office, Residential, Residential]

  /** `types[Math.floor(Math.random() * types.length)]`. */
  function PickType(r: Unit): DistrictType {
    DistrictTypes[(r * 5.0).Floor]
  }

  /** `Math.round`: rounds half-way cases up. */
  function Round(x: real): int {
    (x + 0.5).Floor
  }

  /** Storeys of a district building of type `t`. */
  function Floors(t: DistrictType, r: Unit): int {
    match t
    case Residential => 6 + (r * 20.0).Floor
    case Commercial => 2 + (r * 6.0).Floor
    case Office => 10 + (r * 25.0).Floor
  }

  /** Storey height in metres. */
  function StoreyHeight(t: DistrictType): real {
    match t
    case Residential => 3.0
    case Commercial => 4.5
    case Office => 3.5
  }

  function Width(t: DistrictType, r: Unit): real {
    match t
    case Residential => 15.0 + r * 25.0
    case Commercial => 30.0 + r * 50.0
    case Office => 25.0 + r * 35.0
  }

  function Depth(t: DistrictType, r: Unit): real {
    match t
    case Residential => 12.0 + r * 20.0
    case Commercial => 25.0 + r * 40.0
    case Office => 20.0 + r * 30.0
  }

  /** The district scaling of the height, `0.7 + avgHeight / 100`. */
  function HeightFactor(d: District): real {
    0.7 + d.avgHeight / 100.0
  }

  /** The height of a building of `floors` storeys of type `t`: storeys times the storey height,
      scaled by the district and rounded to whole metres. */
  function ScaledHeight(floors: int, t: DistrictType, d: District): real {
    Round(floors as real * StoreyHeight(t) * HeightFactor(d)) as real
  }

  /** Building `i` of a district, numbered `id` by the running counter. */
  function DistrictBuilding(d: District, draw: Draw, i: nat, id: nat): Building {
    var t := PickType(draw.typePick);
    var floors := Floors(t, draw.floorPick);
    Building(BuildingId(id), d.name + KindLabel(t) + NatToString(i + 1) + "号", t,
             draw.lng, draw.lat,
             ScaledHeight(floors, t, d),
             Round(Width(t, draw.widthPick)) as real, Round(Depth(t, draw.depthPick)) as real,
             floors, Some(draw.rotationPick * 360.0), Some(BuildingColor(t)), Some(d.name + "区域建筑"))
  }

  /** The type mix: a draw below 0.2 or from 0.6 up is residential, [0.2, 0.4) commercial and
      [0.4, 0.6) office. */
  lemma PickTypeMix(r: Unit)
    ensures PickType(r) == Residential <==> r < 0.2 || 0.6 <= r
    ensures PickType(r) == Commercial <==> 0.2 <= r < 0.4
    ensures PickType(r) == Office <==> 0.4 <= r < 0.6
  {
    var n := (r * 5.0).Floor;
    assert n as real <= r * 5.0 < n as real + 1.0;
  }

  /** Storey ranges: residential 6 to 25, commercial 2 to 7, office 10 to 34. */
  lemma FloorsRange(t: DistrictType, r: Unit)
    ensures t == Residential ==> 6 <= Floors(t, r) <= 25
    ensures t == Commercial ==> 2 <= Floors(t, r) <= 7
    ensures t == Office ==> 10 <= Floors(t, r) <= 34
  {
  }

  /** Rounding keeps a value between two whole numbers between them. */
  lemma RoundBetween(x: real, lo: int, hi: int)
    requires lo as real <= x <= hi as real
    ensures lo <= Round(x) <= hi
    ensures lo as real <= Round(x) as real <= hi as real
  {
  }

  /** Footprint ranges: residential 15 to 40 by 12 to 32, commercial 30 to 80 by 25 to 65,
      office 25 to 60 by 20 to 50 (rounded metres). */
  lemma FootprintRange(t: DistrictType, w: Unit, dp: Unit)
    ensures var width, depth := Round(Width(t, w)) as real, Round(Depth(t, dp)) as real;
      && (t == Residential ==> 15.0 <= width <= 40.0 && 12.0 <= depth <= 32.0)
      && (t == Commercial ==> 30.0 <= width <= 80.0 && 25.0 <= depth <= 65.0)
      && (t == Office ==> 25.0 <= width <= 60.0 && 20.0 <= depth <= 50.0)
  {
    match t
    case Residential =>
      RoundBetween(Width(t, w), 15, 40);
      RoundBetween(Depth(t, dp), 12, 32);
    case Commercial =>
      RoundBetween(Width(t, w), 30, 80);
      RoundBetween(Depth(t, dp), 25, 65);
    case Office =>
      RoundBetween(Width(t, w), 25, 60);
      RoundBetween(Depth(t, dp), 20, 50);
  }

  /** What a district building holds: its id and name come from the counter and the loop index,
      its colour from its type, its height is its storeys times the storey height scaled by the
      district and rounded, and its footprint lies in the type's range. */
  lemma DistrictBuildingShape(d: District, draw: Draw, i: nat, id: nat)
    ensures var b := DistrictBuilding(d, draw, i, id);
      && b.id == BuildingId(id)
      && b.kind == PickType(draw.typePick)
      && b.color == Some(BuildingColor(b.kind))
      && b.description == Some(d.name + "区域建筑")
      && b.height == ScaledHeight(b.floors, PickType(draw.typePick), d)
      && (b.kind == Residential ==> 6 <= b.floors <= 25 && 15.0 <= b.width <= 40.0 && 12.0 <= b.depth <= 32.0)
      && (b.kind == Commercial ==> 2 <= b.floors <= 7 && 30.0 <= b.width <= 80.0 && 25.0 <= b.depth <= 65.0)
      && (b.kind == Office ==> 10 <= b.floors <= 34 && 25.0 <= b.width <= 60.0 && 20.0 <= b.depth <= 50.0)
  {
    var b := DistrictBuilding(d, draw, i, id);
    var t := PickType(draw.typePick);
    assert b.kind == t && b.floors == Floors(t, draw.floorPick);
    assert b.width == Round(Width(t, draw.widthPick)) as real && b.depth == Round(Depth(t, draw.depthPick)) as real;
    FloorsRange(t, draw.floorPick);
    FootprintRange(t, draw.widthPick, draw.depthPick);
  }

  /** The first `n` buildings of district `k`, numbered from `firstId`. */
  function Block(d: District, k: nat, draws: Draws, firstId: nat, n: nat): (bs: seq<Building>)
    ensures |bs| == n
  {
    Seqs.Tabulate(n, i => DistrictBuilding(d, draws(k, i), i, firstId + i))
  }

  /** Number of buildings of the first `n` districts. */
  function Total(ds: seq<District>, n: nat): nat
    requires n <= |ds|
    decreases n
  {
    if n == 0 then 0 else Total(ds, n - 1) + BuildingCount(ds[n - 1])
  }

  /** The buildings of the first `n` districts, the counter starting at 1. */
  function Part(ds: seq<District>, draws: Draws, n: nat): (bs: seq<Building>)
    requires n <= |ds|
    ensures |bs| == Total(ds, n)
    decreases n
  {
    if n == 0 then []
    else Part(ds, draws, n - 1) + Block(ds[n - 1], n - 1, draws, 1 + Total(ds, n - 1), BuildingCount(ds[n - 1]))
  }

  /** One more district appends its block to the district buildings. */
  lemma PartStep(ds: seq<District>, draws: Draws, k: nat)
    requires k < |ds|
    ensures Part(ds, draws, k + 1) == Part(ds, draws, k) + Block(ds[k], k, draws, 1 + Total(ds, k), BuildingCount(ds[k]))
    ensures Total(ds, k + 1) == Total(ds, k) + BuildingCount(ds[k])
  {
  }

  /** The array after one more district, with the landmarks in front. */
  lemma PrefixStep(landmarks: seq<Building>, ds: seq<District>, draws: Draws, k: nat)
    requires k < |ds|
    ensures landmarks + Part(ds, draws, k + 1)
         == (landmarks + Part(ds, draws, k)) + Block(ds[k], k, draws, 1 + Total(ds, k), BuildingCount(ds[k]))
    ensures Total(ds, k + 1) == Total(ds, k) + BuildingCount(ds[k])
  {
    PartStep(ds, draws, k);
    var part := Part(ds, draws, k);
    var block := Block(ds[k], k, draws, 1 + Total(ds, k), BuildingCount(ds[k]));
    assert landmarks + (part + block) == (landmarks + part) + block;
  }

  /** The array generateBuildings returns: landmarks, district buildings, water facilities. */
  function Generated(landmarks: seq<Building>, ds: seq<District>, draws: Draws, water: seq<Building>): seq<Building> {
    landmarks + Part(ds, draws, |ds|) + water
  }

  /** The inner loop of generateBuildings: pushes the `floor(40 * density)` buildings of
      district `k`, advancing the running id counter once per building. */
  method PushDistrict(buildings: seq<Building>, district: District, k: nat, draws: Draws, id: nat)
    returns (pushed: seq<Building>, next: nat)
    ensures pushed == buildings + Block(district, k, draws, id, BuildingCount(district))
    ensures next == id + BuildingCount(district)
  {
    pushed := buildings;
    next := id;
    var buildingCount := BuildingCount(district);
    for i := 0 to buildingCount
      invariant pushed == buildings + Block(district, k, draws, id, i)
      invariant next == id + i
    {
      pushed := pushed + [DistrictBuilding(district, draws(k, i), i, next)];
      next := next + 1;
    }
  }

  /** generateBuildings: pushes the landmarks, then for each district `floor(40 * density)`
      buildings numbered by one running counter, then the water facilities. The fixed landmark
      and facility records, the district table and the random draws are parameters. */
  method GenerateBuildings(landmarks: seq<Building>, districts: seq<District>, draws: Draws,
                           water: seq<Building>)
    returns (buildings: seq<Building>)
    ensures buildings == Generated(landmarks, districts, draws, water)
  {
    buildings := landmarks;
    var id: nat := 1;
    for k := 0 to |districts|
      invariant buildings == landmarks + Part(districts, draws, k)
      invariant id == 1 + Total(districts, k)
    {
      PrefixStep(landmarks, districts, draws, k);
      buildings, id := PushDistrict(buildings, districts[k], k, draws, id);
    }
    assert buildings == landmarks + Part(districts, draws, |districts|);
    buildings := buildings + water;
  }

  /** Building `i` of a block is building `i` of its district, numbered `firstId + i`. */
  lemma BlockAt(d: District, k: nat, draws: Draws, firstId: nat, n: nat, i: nat)
    requires i < n
    ensures Block(d, k, draws, firstId, n)[i] == DistrictBuilding(d, draws(k, i), i, firstId + i)
  {
    Seqs.TabulateAt(n, i => DistrictBuilding(d, draws(k, i), i, firstId + i), i);
  }

  /** The buildings of a block are numbered from its first id on. */
  lemma BlockIds(d: District, k: nat, draws: Draws, firstId: nat, n: nat)
    ensures forall i :: 0 <= i < n ==> Block(d, k, draws, firstId, n)[i].id == BuildingId(firstId + i)
  {
    forall i | 0 <= i < n ensures Block(d, k, draws, firstId, n)[i].id == BuildingId(firstId + i) {
      BlockAt(d, k, draws, firstId, n, i);
    }
  }

  /** The district buildings carry the consecutive ids building_1, building_2, ... */
  lemma {:induction false} PartIds(ds: seq<District>, draws: Draws, n: nat)
    requires n <= |ds|
    ensures forall j :: 0 <= j < Total(ds, n) ==> Part(ds, draws, n)[j].id == BuildingId(1 + j)
    decreases n
  {
    if n > 0 {
      PartIds(ds, draws, n - 1);
      var prev := Part(ds, draws, n - 1);
      var t := Total(ds, n - 1);
      var block := Block(ds[n - 1], n - 1, draws, 1 + t, BuildingCount(ds[n - 1]));
      BlockIds(ds[n - 1], n - 1, draws, 1 + t, BuildingCount(ds[n - 1]));
      var all: seq<Building> := prev + block;
      assert Part(ds, draws, n) == all;
      forall j | 0 <= j < Total(ds, n) ensures all[j].id == BuildingId(1 + j) {
        if j < t {
          assert all[j] == prev[j];
        } else {
          assert all[j] == block[j - t];
        }
      }
    }
  }

  /** The layout of the generated array: the landmarks first, the water facilities last, and in
      between one building per unit of every district's count, numbered building_1, building_2, ... */
  lemma GeneratedLayout(landmarks: seq<Building>, ds: seq<District>, draws: Draws, water: seq<Building>)
    ensures var bs := Generated(landmarks, ds, draws, water);
      && |bs| == |landmarks| + Total(ds, |ds|) + |water|
      && bs[..|landmarks|] == landmarks
      && bs[|landmarks| + Total(ds, |ds|)..] == water
      && forall j :: |landmarks| <= j < |landmarks| + Total(ds, |ds|) ==> bs[j].id == BuildingId(1 + j - |landmarks|)
  {
    var bs := Generated(landmarks, ds, draws, water);
    var part := Part(ds, draws, |ds|);
    PartIds(ds, draws, |ds|);
    assert bs[..|landmarks|] == landmarks;
    assert bs[|landmarks| + |part|..] == water;
    forall j | |landmarks| <= j < |landmarks| + |part| ensures bs[j].id == BuildingId(1 + j - |landmarks|) {
      assert bs[j] == part[j - |landmarks|];
    }
  }

  /** UrumqiDistricts: densities 0.8, 0.7, 0.6 and 0.5. */
  const UrumqiDistricts: seq<District> := [
    District("tianshan", "天山区", 0.8, 60.0),
    District("saybag", "沙依巴克区", 0.7, 45.0),
    District("xinshi", "新市区", 0.6, 50.0),
    District("shuimogou", "水磨沟区", 0.5, 35.0)
  ]

  /** The four districts contribute 32 + 28 + 24 + 20 = 104 buildings. */
  lemma UrumqiDistrictTotal()
    ensures Total(UrumqiDistricts, 4) == 104
  {
    var ds := UrumqiDistricts;
    assert BuildingCount(ds[0]) == 32;
    assert BuildingCount(ds[1]) == 28;
    assert BuildingCount(ds[2]) == 24;
    assert BuildingCount(ds[3]) == 20;
  }

  // ---------------------------------------------------------------------------------------------
  // getBuildingStats

  datatype BuildingStats = BuildingStats(total: nat, residential: nat, commercial: nat, office: nat,
                                         landmark: nat, infrastructure: nat,
                                         avgHeight: Option<int>, maxHeight: Option<real>)

  function OfType(t: BuildingType): Building -> bool {
    (b: Building) => b.kind == t
  }

  /** ResidentialBuildings, CommercialBuildings, OfficeBuildings, LandmarkBuildings and
      InfrastructureBuildings: the buildings of one type, in order. */
  function BuildingsOfType(bs: seq<Building>, t: BuildingType): (r: seq<Building>)
    ensures forall b :: b in r <==> b in bs && b.kind == t
    ensures forall b :: multiset(r)[b] == if b.kind == t then multiset(bs)[b] else 0
    ensures Seqs.IsSubsequence(r, bs)
    ensures |r| == Seqs.Count(bs, OfType(t))
  {
    Seqs.FilterLength(bs, OfType(t));
    Seqs.Filter(bs, OfType(t))
  }

  function Heights(bs: seq<Building>): (hs: seq<real>)
    ensures |hs| == |bs| && forall i :: 0 <= i < |bs| ==> hs[i] == bs[i].height
  {
    seq(|bs|, i requires 0 <= i < |bs| => bs[i].height)
  }

  /** getBuildingStats. `avgHeight` is None where JavaScript computes NaN (no buildings) and
      `maxHeight` None where it computes -Infinity. */
  function GetBuildingStats(bs: seq<Building>): BuildingStats {
    BuildingStats(|bs|,
                  |BuildingsOfType(bs, Residential)|, |BuildingsOfType(bs, Commercial)|,
                  |BuildingsOfType(bs, Office)|, |BuildingsOfType(bs, Landmark)|,
                  |BuildingsOfType(bs, Infrastructure)|,
                  if |bs| == 0 then None else Some(Round(Sum(Heights(bs)) / (|bs| as real))),
                  Max(Heights(bs)))
  }

  /** The counts of getBuildingStats: the total is the building count, each per-type count is
      the number of buildings of that type, and with the industrial buildings (which have no
      count of their own) they add up to the total. */
  lemma BuildingStatsCounts(bs: seq<Building>)
    ensures var st := GetBuildingStats(bs);
      && st.total == |bs|
      && st.residential == Seqs.Count(bs, OfType(Residential))
      && st.commercial == Seqs.Count(bs, OfType(Commercial))
      && st.office == Seqs.Count(bs, OfType(Office))
      && st.landmark == Seqs.Count(bs, OfType(Landmark))
      && st.infrastructure == Seqs.Count(bs, OfType(Infrastructure))
      && st.residential + st.commercial + st.office + st.landmark + st.infrastructure
         + Seqs.Count(bs, OfType(Industrial)) == |bs|
  {
    TypeCountsAddUp(bs);
  }

  /** The heights of getBuildingStats: both are absent exactly for an empty list; the maximum is
      the height of some building and no building is taller; the average is the rounded mean. */
  lemma BuildingStatsHeights(bs: seq<Building>)
    ensures var st := GetBuildingStats(bs);
      && (st.avgHeight.None? <==> bs == [])
      && (st.avgHeight.Some? ==> st.avgHeight.value == Round(Sum(Heights(bs)) / |bs| as real))
      && (st.maxHeight.None? <==> bs == [])
      && (st.maxHeight.Some? ==>
            (exists i :: 0 <= i < |bs| && bs[i].height == st.maxHeight.value)
            && forall i :: 0 <= i < |bs| ==> bs[i].height <= st.maxHeight.value)
  {
    var hs := Heights(bs);
    MaxIsMaximum(hs);
    if bs != [] {
      var m := Max(hs).value;
      var i :| 0 <= i < |hs| && hs[i] == m;
      assert bs[i].height == m;
    }
  }

  /** Every building has exactly one of the six types. */
  lemma {:induction false} TypeCountsAddUp(bs: seq<Building>)
    ensures Seqs.Count(bs, OfType(Residential)) + Seqs.Count(bs, OfType(Commercial)) + Seqs.Count(bs, OfType(Office))
            + Seqs.Count(bs, OfType(Landmark)) + Seqs.Count(bs, OfType(Infrastructure))
            + Seqs.Count(bs, OfType(Industrial)) == |bs|
    decreases |bs|
  {
    if bs != [] {
      TypeCountsAddUp(bs[1..]);
    }
  }
}
