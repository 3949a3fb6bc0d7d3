/** Hydrodynamic model results: the structure of the simulated discharge series, the FlowResults
    table built from four series, and the lookups (src/mock/modelResults.ts). The model, scenario,
    cross-section and inundation tables are fixtures and are taken as parameters. */
module ModelResults {
  import opened Wrappers
  import opened Strs
  import Seqs

  /** The fields of a HydroModel, ModelScenario, CrossSection and InundationResult that the
      lookups and the generator use. */
  datatype HydroModel = HydroModel(id: string, name: string, modelType: string, status: string)
  datatype ModelScenario = ModelScenario(id: string, modelId: string, name: string, status: string)
  datatype CrossSection = CrossSection(id: string, modelId: string, mainChannelWidth: real, bedElevation: real)
  datatype InundationResult = InundationResult(id: string, scenarioId: string, timestamp: string,
                                               maxDepth: real, totalArea: real)

  /** The floating-point quantities of one result row. */
  datatype FlowValues = FlowValues(waterLevel: real, discharge: real, velocity: real, area: real,
                                   topWidth: real, froudeNumber: real)

  /** A FlowResult; `timestamp` is in milliseconds since the epoch. */
  datatype FlowResult = FlowResult(id: string, scenarioId: string, crossSectionId: string,
                                   timestamp: int, values: FlowValues)

  /** The hydraulic formulas (hydrograph shape, depth, velocity, Froude number, rounding) as an
      uninterpreted function of (baseFlow, peakFlow, i, hours, bed elevation, channel width). */
  type Hydraulics = (real, real, nat, nat, real, real) -> FlowValues

  /** 2025-09-01T00:00:00Z, the start of every series. */
  const StartTime: int := 1756684800000
  const HourMs: int := 3600000

  /** The geometry a row is computed with: `xs?.bedElevation || 1000` and
      `xs?.mainChannelWidth || 300`, so a missing section or a zero value falls back. */
  function EffectiveGeometry(xs: Option<CrossSection>): (g: (real, real))
    ensures xs.None? ==> g == (1000.0, 300.0)
    ensures xs.Some? ==> g.0 == (if xs.value.bedElevation == 0.0 then 1000.0 else xs.value.bedElevation)
    ensures xs.Some? ==> g.1 == (if xs.value.mainChannelWidth == 0.0 then 300.0 else xs.value.mainChannelWidth)
    ensures g.0 != 0.0 && g.1 != 0.0
  {
    match xs
    case None => (1000.0, 300.0)
    case Some(x) =>
      (if x.bedElevation != 0.0 then x.bedElevation else 1000.0,
       if x.mainChannelWidth != 0.0 then x.mainChannelWidth else 300.0)
  }

  function LookupSection(sections: seq<CrossSection>, crossSectionId: string): Option<CrossSection> {
    Seqs.Find(sections, (x: CrossSection) => x.id == crossSectionId)
  }

  function ResultId(scenarioId: string, crossSectionId: string, i: nat): string {
    scenarioId + "_" + crossSectionId + "_" + NatToString(i)
  }

  /** Row `i` of a series. */
  function ResultAt(sections: seq<CrossSection>, scenarioId: string, crossSectionId: string,
                    baseFlow: real, peakFlow: real, hours: nat, hydro: Hydraulics, i: nat): FlowResult
  {
    var g := EffectiveGeometry(LookupSection(sections, crossSectionId));
    FlowResult(ResultId(scenarioId, crossSectionId, i), scenarioId, crossSectionId,
               StartTime + i * HourMs, hydro(baseFlow, peakFlow, i, hours, g.0, g.1))
  }

  /** The first `n` rows of a series of `hours` rows. */
  function FlowSeries(sections: seq<CrossSection>, scenarioId: string, crossSectionId: string,
                      baseFlow: real, peakFlow: real, hours: nat, hydro: Hydraulics, n: nat): (rs: seq<FlowResult>)
    ensures |rs| == n
    decreases n
  {
    if n == 0 then []
    else FlowSeries(sections, scenarioId, crossSectionId, baseFlow, peakFlow, hours, hydro, n - 1)
         + [ResultAt(sections, scenarioId, crossSectionId, baseFlow, peakFlow, hours, hydro, n - 1)]
  }

  lemma {:induction false} FlowSeriesAt(sections: seq<CrossSection>, scenarioId: string, crossSectionId: string,
                                        baseFlow: real, peakFlow: real, hours: nat, hydro: Hydraulics, n: nat, i: nat)
    requires i < n
    ensures FlowSeries(sections, scenarioId, crossSectionId, baseFlow, peakFlow, hours, hydro, n)[i]
            == ResultAt(sections, scenarioId, crossSectionId, baseFlow, peakFlow, hours, hydro, i)
    decreases n
  {
    if i < n - 1 {
      FlowSeriesAt(sections, scenarioId, crossSectionId, baseFlow, peakFlow, hours, hydro, n - 1, i);
    }
  }

  /** generateFlowResults: pushes one row per hour from the start time. */
  method GenerateFlowResults(sections: seq<CrossSection>, scenarioId: string, crossSectionId: string,
                             baseFlow: real, peakFlow: real, hours: nat, hydro: Hydraulics)
    returns (results: seq<FlowResult>)
    ensures results == FlowSeries(sections, scenarioId, crossSectionId, baseFlow, peakFlow, hours, hydro, hours)
  {
    results := [];
    for i := 0 to hours
      invariant results == FlowSeries(sections, scenarioId, crossSectionId, baseFlow, peakFlow, hours, hydro, i)
    {
      var xs := LookupSection(sections, crossSectionId);
      var bedElev := if xs.Some? && xs.value.bedElevation != 0.0 then xs.value.bedElevation else 1000.0;
      var width := if xs.Some? && xs.value.mainChannelWidth != 0.0 then xs.value.mainChannelWidth else 300.0;
      results := results + [FlowResult(scenarioId + "_" + crossSectionId + "_" + NatToString(i), scenarioId,
                                       crossSectionId, StartTime + i * HourMs,
                                       hydro(baseFlow, peakFlow, i, hours, bedElev, width))];
    }
  }

  /** The shape of a series: `hours` rows; row i has id `${scenarioId}_${crossSectionId}_${i}`,
      the given scenario and cross-section, the start time plus i hours, and values computed with
      the effective geometry; timestamps strictly increase. */
  lemma FlowSeriesShape(sections: seq<CrossSection>, scenarioId: string, crossSectionId: string,
                        baseFlow: real, peakFlow: real, hours: nat, hydro: Hydraulics)
    ensures var rs := FlowSeries(sections, scenarioId, crossSectionId, baseFlow, peakFlow, hours, hydro, hours);
      && |rs| == hours
      && (forall i :: 0 <= i < hours ==>
            && rs[i].id == ResultId(scenarioId, crossSectionId, i)
            && rs[i].scenarioId == scenarioId && rs[i].crossSectionId == crossSectionId
            && rs[i].timestamp == StartTime + i * HourMs
            && var g := EffectiveGeometry(LookupSection(sections, crossSectionId));
               rs[i].values == hydro(baseFlow, peakFlow, i, hours, g.0, g.1))
      && (forall i, j :: 0 <= i < j < hours ==> rs[i].timestamp < rs[j].timestamp)
  {
    var rs := FlowSeries(sections, scenarioId, crossSectionId, baseFlow, peakFlow, hours, hydro, hours);
    forall i | 0 <= i < hours
      ensures rs[i] == ResultAt(sections, scenarioId, crossSectionId, baseFlow, peakFlow, hours, hydro, i)
    {
      FlowSeriesAt(sections, scenarioId, crossSectionId, baseFlow, peakFlow, hours, hydro, hours, i);
    }
    forall i, j | 0 <= i < j < hours
      ensures rs[i].timestamp < rs[j].timestamp
    {
      assert i * HourMs < j * HourMs;
    }
  }

  /** Row ids of one series are distinct. */
  lemma ResultIdsDistinct(scenarioId: string, crossSectionId: string, i: nat, j: nat)
    requires i != j
    ensures ResultId(scenarioId, crossSectionId, i) != ResultId(scenarioId, crossSectionId, j)
  {
    var p := scenarioId + "_" + crossSectionId + "_";
    if ResultId(scenarioId, crossSectionId, i) == ResultId(scenarioId, crossSectionId, j) {
      PrefixCancel(p, NatToString(i), NatToString(j));
      NatToStringInjective(i, j);
    }
  }

  /** The arguments of one generateFlowResults call. */
  datatype SeriesCall = SeriesCall(scenarioId: string, crossSectionId: string, baseFlow: real,
                                   peakFlow: real, hours: nat)

  /** The four calls that make up FlowResults, in order. */
  const FlowResultCalls: seq<SeriesCall> := [
    SeriesCall("scenario_tarim_20y", "xs_tarim_001", 450.0, 1850.0, 96),
    SeriesCall("scenario_tarim_20y", "xs_tarim_100", 480.0, 1780.0, 96),
    SeriesCall("scenario_yili_100y", "xs_yili_001", 320.0, 3200.0, 144),
    SeriesCall("scenario_irtysh_hist", "xs_irtysh_001", 280.0, 1580.0, 240)
  ]

  function Series(sections: seq<CrossSection>, hydro: Hydraulics, c: SeriesCall): seq<FlowResult> {
    FlowSeries(sections, c.scenarioId, c.crossSectionId, c.baseFlow, c.peakFlow, c.hours, hydro, c.hours)
  }

  /** The series of the calls, concatenated in call order (the array spread in FlowResults). */
  function Concat(sections: seq<CrossSection>, hydro: Hydraulics, calls: seq<SeriesCall>): seq<FlowResult>
    decreases |calls|
  {
    if calls == [] then [] else Series(sections, hydro, calls[0]) + Concat(sections, hydro, calls[1..])
  }

  function FlowResults(sections: seq<CrossSection>, hydro: Hydraulics): seq<FlowResult> {
    Concat(sections, hydro, FlowResultCalls)
  }

  /** Total number of hours of the calls, and of those of one scenario. */
  function TotalHours(calls: seq<SeriesCall>): nat
    decreases |calls|
  {
    if calls == [] then 0 else calls[0].hours + TotalHours(calls[1..])
  }

  function ScenarioHours(calls: seq<SeriesCall>, s: string): nat
    decreases |calls|
  {
    if calls == [] then 0
    else (if calls[0].scenarioId == s then calls[0].hours else 0) + ScenarioHours(calls[1..], s)
  }

  /** Every row of a series carries the series' scenario id. */
  lemma {:induction false} FlowSeriesScenario(sections: seq<CrossSection>, scenarioId: string, crossSectionId: string,
                                              baseFlow: real, peakFlow: real, hours: nat, hydro: Hydraulics, n: nat)
    ensures forall r :: r in FlowSeries(sections, scenarioId, crossSectionId, baseFlow, peakFlow, hours, hydro, n)
                        ==> r.scenarioId == scenarioId
    decreases n
  {
    if n > 0 {
      FlowSeriesScenario(sections, scenarioId, crossSectionId, baseFlow, peakFlow, hours, hydro, n - 1);
    }
  }

  /** How many rows of a series belong to a scenario: all of them or none. */
  lemma SeriesScenarioCount(sections: seq<CrossSection>, scenarioId: string, crossSectionId: string,
                            baseFlow: real, peakFlow: real, hours: nat, hydro: Hydraulics, s: string)
    ensures Seqs.Count(FlowSeries(sections, scenarioId, crossSectionId, baseFlow, peakFlow, hours, hydro, hours),
                       OfScenario(s))
            == if s == scenarioId then hours else 0
  {
    var rs := FlowSeries(sections, scenarioId, crossSectionId, baseFlow, peakFlow, hours, hydro, hours);
    FlowSeriesScenario(sections, scenarioId, crossSectionId, baseFlow, peakFlow, hours, hydro, hours);
    assert forall j :: 0 <= j < |rs| ==> rs[j] in rs;
    Seqs.CountPrefix(rs, OfScenario(s), if s == scenarioId then hours else 0);
  }

  /** A concatenation of series has one row per hour of each call, and a scenario owns the rows
      of its own calls. */
  lemma {:induction false} ConcatCounts(sections: seq<CrossSection>, hydro: Hydraulics, calls: seq<SeriesCall>, s: string)
    ensures |Concat(sections, hydro, calls)| == TotalHours(calls)
    ensures Seqs.Count(Concat(sections, hydro, calls), OfScenario(s)) == ScenarioHours(calls, s)
    decreases |calls|
  {
    if calls != [] {
      var c := calls[0];
      ConcatCounts(sections, hydro, calls[1..], s);
      SeriesScenarioCount(sections, c.scenarioId, c.crossSectionId, c.baseFlow, c.peakFlow, c.hours, hydro, s);
      Seqs.CountAppend(Series(sections, hydro, c), Concat(sections, hydro, calls[1..]), OfScenario(s));
    }
  }

  /** FlowResults has 96 + 96 + 144 + 240 rows, and the Tarim 20-year scenario owns 192 of them. */
  lemma FlowResultsCounts(sections: seq<CrossSection>, hydro: Hydraulics)
    ensures |FlowResults(sections, hydro)| == 576
    ensures |GetFlowResultsByScenario(FlowResults(sections, hydro), "scenario_tarim_20y")| == 192
  {
    ConcatCounts(sections, hydro, FlowResultCalls, "scenario_tarim_20y");
    Seqs.FilterLength(FlowResults(sections, hydro), OfScenario("scenario_tarim_20y"));
    CallHours();
  }

  lemma CallHours()
    ensures TotalHours(FlowResultCalls) == 576
    ensures ScenarioHours(FlowResultCalls, "scenario_tarim_20y") == 192
  {
    var cs := FlowResultCalls;
    assert cs[1..][1..][1..][1..] == [];
    assert cs[0].scenarioId == cs[1].scenarioId == "scenario_tarim_20y";
    assert cs[2].scenarioId != "scenario_tarim_20y" by { assert cs[2].scenarioId[9] != 't'; }
    assert cs[3].scenarioId != "scenario_tarim_20y" by { assert cs[3].scenarioId[9] != 't'; }
  }

  /** getModelById: the first model with the id, or None. */
  function GetModelById(models: seq<HydroModel>, id: string): (r: Option<HydroModel>)
    ensures r.None? <==> forall i :: 0 <= i < |models| ==> models[i].id != id
    ensures r.Some? ==> exists i :: 0 <= i < |models| && models[i] == r.value && r.value.id == id
                                    && forall j :: 0 <= j < i ==> models[j].id != id
  {
    Seqs.Find(models, (m: HydroModel) => m.id == id)
  }

  /** getScenariosByModel: exactly the scenarios of the model, in order. */
  function GetScenariosByModel(scenarios: seq<ModelScenario>, modelId: string): (r: seq<ModelScenario>)
    ensures forall s :: s in r <==> s in scenarios && s.modelId == modelId
    ensures forall s :: multiset(r)[s] == if s.modelId == modelId then multiset(scenarios)[s] else 0
    ensures Seqs.IsSubsequence(r, scenarios)
  {
    Seqs.Filter(scenarios, (s: ModelScenario) => s.modelId == modelId)
  }

  /** The filter predicate of getFlowResultsByScenario. */
  function OfScenario(scenarioId: string): FlowResult -> bool {
    (x: FlowResult) => x.scenarioId == scenarioId
  }

  /** getFlowResultsByScenario: exactly the rows of the scenario, in order. */
  function GetFlowResultsByScenario(results: seq<FlowResult>, scenarioId: string): (r: seq<FlowResult>)
    ensures forall x :: x in r <==> x in results && x.scenarioId == scenarioId
    ensures forall x :: multiset(r)[x] == if x.scenarioId == scenarioId then multiset(results)[x] else 0
    ensures Seqs.IsSubsequence(r, results)
  {
    Seqs.Filter(results, OfScenario(scenarioId))
  }

  /** getInundationByScenario: exactly the inundation results of the scenario, in order. */
  function GetInundationByScenario(results: seq<InundationResult>, scenarioId: string): (r: seq<InundationResult>)
    ensures forall x :: x in r <==> x in results && x.scenarioId == scenarioId
    ensures forall x :: multiset(r)[x] == if x.scenarioId == scenarioId then multiset(results)[x] else 0
    ensures Seqs.IsSubsequence(r, results)
  {
    Seqs.Filter(results, (x: InundationResult) => x.scenarioId == scenarioId)
  }
}
