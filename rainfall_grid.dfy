/** Rainfall colour scale and per-frame statistics (src/mock/rainfallGrid.ts). */
module RainfallGrid {
  import opened Wrappers
  import opened Strs
  import Seqs
  import opened Nums

  /** One entry of RainfallColorScale: values at or above `threshold` (and below the next
      threshold) are drawn in `color` and named `name`. */
  datatype Band = Band(threshold: real, color: string, name: string)

  const ColorScale: seq<Band> := [
    Band(0.0, "rgba(0, 0, 0, 0)", "无降水"),
    Band(0.5, "rgba(166, 242, 204, 0.6)", "微量"),
    Band(2.5, "rgba(65, 193, 124, 0.7)", "小雨"),
    Band(8.0, "rgba(0, 150, 200, 0.75)", "中雨"),
    Band(16.0, "rgba(0, 0, 255, 0.8)", "大雨"),
    Band(32.0, "rgba(255, 0, 255, 0.85)", "暴雨"),
    Band(64.0, "rgba(255, 0, 0, 0.9)", "大暴雨")
  ]

  function Thresholds(): (ts: seq<real>)
    ensures |ts| == |ColorScale|
    ensures forall i :: 0 <= i < |ColorScale| ==> ts[i] == ColorScale[i].threshold
  {
    seq(|ColorScale|, i requires 0 <= i < |ColorScale| => ColorScale[i].threshold)
  }

  /** The thresholds strictly increase, starting at 0. */
  lemma ThresholdsIncrease()
    ensures ColorScale[0].threshold == 0.0
    ensures forall i, j :: 0 <= i < j < |ColorScale| ==> ColorScale[i].threshold < ColorScale[j].threshold
  {
  }

  /** Reference definition of the band a value falls in: the number of thresholds the value has
      reached, minus one; a value below every threshold falls back to band 0. */
  function BandIndex(value: real): (i: nat)
    ensures i < |ColorScale|
  {
    var n := Seqs.Count(Thresholds(), (t: real) => t <= value);
    if n == 0 then 0 else n - 1
  }

  /** The highest band whose threshold the value reaches is BandIndex(value). */
  lemma BandIndexAt(value: real, i: nat)
    requires i < |ColorScale| && ColorScale[i].threshold <= value
    requires forall j :: i < j < |ColorScale| ==> value < ColorScale[j].threshold
    ensures BandIndex(value) == i
  {
    ThresholdsIncrease();
    Seqs.CountPrefix(Thresholds(), (t: real) => t <= value, i + 1);
  }

  /** A value below every threshold is in band 0. */
  lemma BandIndexBelowAll(value: real)
    requires forall j :: 0 <= j < |ColorScale| ==> value < ColorScale[j].threshold
    ensures BandIndex(value) == 0
  {
    Seqs.CountPrefix(Thresholds(), (t: real) => t <= value, 0);
  }

  /** Negative values fall back to band 0 ("无降水", transparent). */
  lemma NegativeIsBandZero(value: real)
    requires value < 0.0
    ensures BandIndex(value) == 0
    ensures ColorScale[BandIndex(value)].color == "rgba(0, 0, 0, 0)"
    ensures ColorScale[BandIndex(value)].name == "无降水"
  {
    ThresholdsIncrease();
    BandIndexBelowAll(value);
  }

  /** A value exactly at a threshold belongs to that threshold's band. */
  lemma ThresholdBelongsToItsBand(k: nat)
    requires k < |ColorScale|
    ensures BandIndex(ColorScale[k].threshold) == k
  {
    ThresholdsIncrease();
    BandIndexAt(ColorScale[k].threshold, k);
  }

  /** More rain never gives a lower band. */
  lemma BandIndexMonotone(a: real, b: real)
    requires a <= b
    ensures BandIndex(a) <= BandIndex(b)
  {
    Seqs.CountMonotone(Thresholds(), (t: real) => t <= a, (t: real) => t <= b);
  }

  /** getRainfallColor: scans the scale from the top band down and returns the colour of the first
      band whose threshold the value reaches, else band 0's colour. */
  method RainfallColor(value: real) returns (color: string)
    ensures color == ColorScale[BandIndex(value)].color
  {
    var i := |ColorScale| - 1;
    while i >= 0
      invariant -1 <= i < |ColorScale|
      invariant forall j :: i < j < |ColorScale| ==> value < ColorScale[j].threshold
    {
      if value >= ColorScale[i].threshold {
        BandIndexAt(value, i);
        return ColorScale[i].color;
      }
      i := i - 1;
    }
    BandIndexBelowAll(value);
    return ColorScale[0].color;
  }

  /** getRainfallLevel: the same scan, returning the band's label; it always picks the same band as
      RainfallColor, since both are BandIndex(value). */
  method RainfallLevel(value: real) returns (name: string)
    ensures name == ColorScale[BandIndex(value)].name
  {
    var i := |ColorScale| - 1;
    while i >= 0
      invariant -1 <= i < |ColorScale|
      invariant forall j :: i < j < |ColorScale| ==> value < ColorScale[j].threshold
    {
      if value >= ColorScale[i].threshold {
        BandIndexAt(value, i);
        return ColorScale[i].name;
      }
      i := i - 1;
    }
    BandIndexBelowAll(value);
    return ColorScale[0].name;
  }

  // ---------------------------------------------------------------------------------------------
  // Frames

  datatype GridPoint = GridPoint(lng: real, lat: real, value: real)

  /** The `stats` record of a frame. `maxRainfall` is None for a frame without points, where
      `Math.max()` of nothing is -Infinity. */
  datatype FrameStats = FrameStats(maxRainfall: Option<real>, avgRainfall: real,
                                   totalPoints: nat, rainyPoints: nat)

  datatype RainfallFrame = RainfallFrame(id: string, timestamp: int, points: seq<GridPoint>,
                                         stats: FrameStats)

  /** 2025-09-01T00:00:00Z in milliseconds since the epoch. */
  const StartTime: int := 1756684800000
  const HourMs: int := 3600000

  function Values(ps: seq<GridPoint>): (vs: seq<real>)
    ensures |vs| == |ps| && forall i :: 0 <= i < |ps| ==> vs[i] == ps[i].value
  {
    seq(|ps|, i requires 0 <= i < |ps| => ps[i].value)
  }

  /** A sum of `|xs|` values each above `m` is above `m * |xs|`. */
  lemma {:induction false} SumAbove(xs: seq<real>, m: real)
    requires xs != [] && forall i :: 0 <= i < |xs| ==> xs[i] > m
    ensures Sum(xs) > m * (|xs| as real)
    decreases |xs|
  {
    if |xs| > 1 {
      assert forall i :: 0 <= i < |xs[1..]| ==> xs[1..][i] == xs[i + 1];
      SumAbove(xs[1..], m);
    }
  }

  predicate Rainy(v: real) {
    v > 0.5
  }

  /** The mean of the rainy values, 0 when there are none; it is above the rainy threshold. */
  function RainyMean(values: seq<real>): (avg: real)
    ensures Seqs.Count(values, Rainy) == 0 ==> avg == 0.0
    ensures Seqs.Count(values, Rainy) > 0 ==> avg > 0.5
  {
    var rainy := Seqs.Filter(values, Rainy);
    Seqs.FilterLength(values, Rainy);
    var n := |rainy|;
    if n == 0 then 0.0
    else
      SumAbove(rainy, 0.5);
      MeanAbove(Sum(rainy), n as real, 0.5);
      Sum(rainy) / (n as real)
  }

  lemma MeanAbove(total: real, n: real, m: real)
    requires n > 0.0 && total > m * n
    ensures total / n > m
  {
    assert (total / n) * n == total;
  }

  /** The statistics of one frame's point values. */
  function Stats(values: seq<real>): FrameStats {
    FrameStats(Max(values), RainyMean(values), |values|, Seqs.Count(values, Rainy))
  }

  /** What the statistics mean: the point count, the number of rainy points (above 0.5), their
      mean (0 when there are none, otherwise above 0.5) and the largest value. */
  lemma StatsProperties(values: seq<real>)
    ensures Stats(values).totalPoints == |values|
    ensures Stats(values).rainyPoints == Seqs.Count(values, Rainy)
    ensures Stats(values).rainyPoints <= Stats(values).totalPoints
    ensures Stats(values).rainyPoints == 0 ==> Stats(values).avgRainfall == 0.0
    ensures Stats(values).rainyPoints > 0 ==> Stats(values).avgRainfall > 0.5
    ensures Stats(values).maxRainfall.None? <==> values == []
    ensures Stats(values).maxRainfall.Some? ==>
      Stats(values).maxRainfall.value in values
      && forall i :: 0 <= i < |values| ==> values[i] <= Stats(values).maxRainfall.value
  {
    Seqs.CountMonotone(values, Rainy, (v: real) => true);
    Seqs.CountPrefix(values, (v: real) => true, |values|);
    MaxIsMaximum(values);
  }

  /** `n.toString().padStart(width, '0')`. */
  function PadStart(s: string, width: nat): (r: string)
    ensures |r| == if |s| >= width then |s| else width
    ensures r[|r| - |s|..] == s
    ensures forall i :: 0 <= i < |r| - |s| ==> r[i] == '0'
  {
    if |s| >= width then s
    else
      var zeros := seq(width - |s|, _ => '0');
      assert (zeros + s)[|zeros|..] == s;
      zeros + s
  }

  function FrameId(region: string, h: nat): string {
    region + "_rain_" + PadStart(NatToString(h), 3)
  }

  /** The points of hour `h`: the base grid with the simulated value of that hour. */
  function FramePoints(base: seq<(real, real)>, h: nat, rain: (nat, real, real) -> real): (ps: seq<GridPoint>)
    ensures |ps| == |base|
    ensures forall i :: 0 <= i < |base| ==> ps[i] == GridPoint(base[i].0, base[i].1, rain(h, base[i].0, base[i].1))
  {
    seq(|base|, i requires 0 <= i < |base| => GridPoint(base[i].0, base[i].1, rain(h, base[i].0, base[i].1)))
  }

  /** The frame of hour `h`. */
  function FrameAt(region: string, h: nat, base: seq<(real, real)>, rain: (nat, real, real) -> real): RainfallFrame {
    var points := FramePoints(base, h, rain);
    RainfallFrame(FrameId(region, h), StartTime + h * HourMs, points, Stats(Values(points)))
  }

  /** Later hours carry later timestamps. */
  lemma FramesHourly(region: string, h: nat, k: nat, base: seq<(real, real)>, rain: (nat, real, real) -> real)
    requires h < k
    ensures FrameAt(region, h, base, rain).timestamp < FrameAt(region, k, base, rain).timestamp
  {
    assert h * HourMs < k * HourMs;
  }

  /** The frames of the first `hours` hours, in order. */
  function Frames(region: string, hours: nat, base: seq<(real, real)>, rain: (nat, real, real) -> real): (fs: seq<RainfallFrame>)
    ensures |fs| == hours
  {
    Seqs.Tabulate(hours, h => FrameAt(region, h, base, rain))
  }

  /** Frame `h` of the sequence is the frame of hour `h`. */
  lemma FramesAt(region: string, hours: nat, base: seq<(real, real)>, rain: (nat, real, real) -> real, h: nat)
    requires h < hours
    ensures Frames(region, hours, base, rain)[h] == FrameAt(region, h, base, rain)
  {
    Seqs.TabulateAt(hours, h => FrameAt(region, h, base, rain), h);
  }

  /** generateRainfallFrames: one frame per hour. The grid and the simulated rainfall values (random
      and floating point) are parameters. */
  method GenerateRainfallFrames(region: string, hours: nat, base: seq<(real, real)>,
                                rain: (nat, real, real) -> real)
    returns (frames: seq<RainfallFrame>)
    ensures frames == Frames(region, hours, base, rain)
  {
    frames := [];
    var h := 0;
    while h < hours
      invariant h <= hours && frames == Frames(region, h, base, rain)
    {
      frames := frames + [FrameAt(region, h, base, rain)];
      h := h + 1;
    }
  }
}
