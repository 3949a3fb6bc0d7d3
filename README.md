# Xinjiang water-resources platform: verified model of its logic

The platform is a flood-control and water-resources dashboard for Xinjiang. Its browser front end shows stations, rainfall grids, radar echoes, dam sensors, hydrodynamic model results and a 3-D city on a Cesium globe. Its Python back end imports spreadsheets of monitoring readings into PostgreSQL.

Most of the code is display code and fixture data. This project models, in Dafny, the parts whose behaviour can be stated exactly, and proves properties of them:

- **StationMarker** (`station_marker.dfy`). The station marker manager is a class over a viewer and its entities:
  - adding a station;
  - pointer-move hover enlargement, where at most one entity is enlarged and it is the hover reference;
  - click selection with a detail panel, modelled as rows rather than HTML;
  - show/hide filters;
  - fly-to requests, kept as a log;
  - `clear`;
  - the fixed colour and icon tables.
- **ExcelImporter** (`excel_importer.dfy`). The pure helpers of the spreadsheet importer:
  - the sensor-type and prefix/metric tables;
  - prefix detection, where the longest known prefix wins, with a fallback;
  - column-name normalisation;
  - keyword mapping of metric columns;
  - time-column choice;
  - chainage normalisation;
  - value splitting.
- **ExcelParsing** (`excel_parsing.dfy`). `_parse_excel` on a sheet given as rows of cells:
  - metadata extraction from the first ten rows;
  - header-row search;
  - two-row header merging;
  - the reading loop: time column, per-row metrics and units, raw values.
- **ExcelIngest** (`excel_ingest.dfy`). The bookkeeping of an import, over an in-memory store in place of the database:
  - ingest de-duplication by (sensor, checksum);
  - get-or-create metrics with default warning thresholds;
  - flattening readings into insert rows;
  - 500-row chunked inserts, with a row-count fallback.
- **Threshold classifiers**:
  - the rainfall colour scale (`rainfall_grid.dfy`);
  - the radar dBZ bands (`radar_data.dfy`);
  - dam-sensor record status (`dam_monitoring.dfy`).
- **Query helpers and generator structure**:
  - station groups (`sim_data.dfy`);
  - alert getters (`alert_rules.dfy`);
  - knowledge search with a relevance sort (`ai_knowledge.dfy`);
  - the count, id, order and timestamp structure of the mock generators for dam time series, flow results (`model_results.dfy`), rainfall frames and city buildings (`urumqi_buildings.dfy`).
- **Parsers and coercions**:
  - the `rgb(...)`/`rgba(...)` colour parser (`urumqi_buildings.dfy`);
  - the base-map configuration transforms (`base_map.dfy`).

`common.dfy` holds shared helpers: Option/Result, Python and JavaScript string functions, `filter`/`find` on sequences, and insertion-ordered dictionaries (a Python `dict`, a JavaScript object).

## Modelling conventions

**Types**
- Strings are `seq<char>`.
- Numbers from the sources are `real`. A comparison of a JavaScript `number` is exact.
- Timestamps are integer milliseconds. 2025-09-01T00:00:00Z is 1756684800000.

**Values without a definition here become parameters**
- Random draws and the floating-point formulas: hydraulics, rainfall simulation, temperature.
- pandas date parsing, `float()`, `JSON.parse`, `parseFloat`.
- The database driver's `rowcount`.

**Dictionaries** are sequences of key/value pairs. `Put` keeps a key's first position, as assignment into a Python `dict` or a JavaScript object does.

**Imperative code is modelled imperatively**
- The manager and the store are classes whose methods modify their fields.
- The `some`/`forIn` loop of `getBaseMapImageryList` works in place on an `array`.
- The reverse of `generateTimeSeries` is an in-place array reversal.
- Each loop of the source is a `method` with a loop, proved equal to a specification function. The properties are then lemmas about that function.

**The model keeps these quirks of the source and proves them**
- `_normalize_chainage` takes the first signed number after removing spaces. So in "发0+350" it reads 0 (the kilometre part) and not 350: `ExcelImporter.ChainageTakesFirstNumber`.
- In the M4f- and M2f- tables, `displacement` precedes `displacement_abs`. Every header containing 绝对位移 also contains 位移, so `displacement_abs` can never be chosen: `ExcelImporter.DisplacementAbsUnreachable`.
- In `getBaseMapImageryList`, `parseFloat(true)` is NaN and `true === 'true'` is false. So a boolean `true` in an interface configuration becomes `false`: `BaseMap.TrueBecomesFalse`.
- `addStation` computes the type icon and never uses it. The icon table is modelled on its own: `StationMarker.TypeIcon`.
- `clear` empties the entity list and leaves the hover reference, which may then point at a removed entity: `StationMarker.StationMarkerManager.Clear`.
- The reservoir panel prints `station.capacity`, a field `Station` does not declare, so that row never has a value: `StationMarker.ReservoirPanel`.
- The hydrological panel shows 偏高 only for 'warning', so a 'danger' station shows 正常: `StationMarker.HydrologicalPanel`.
- sensor_kns_st01 has negative thresholds (-50 / -80). Every `|value|` is at least -80, so every generated record for it is 'danger': `DamMonitoring.KnsSt01AlwaysDanger`.
- An empty query, or one with leading or trailing whitespace, splits into an empty first or last token "". That token is contained in every title, so every entry matches: `AiKnowledge.EmptyTokenMatchesAll`.
- A station whose id the viewer already holds makes Cesium's `entities.add` throw. The throw ends `addAllStations`, so every later station is left out as well: `StationMarker.StationMarkerManager.AddAllStations`.

## Model

| member | source | states |
|---|---|---|
| RadarData.DbzLevel | src/mock/radarData.ts:166-172 | the function is total: every dBZ value gets one of the five labels |
| RadarData.BoundariesReached | src/mock/radarData.ts:167-171 | the number of band boundaries (15, 30, 40, 50) at or below the value is at most four |
| RadarData.Severity | src/mock/radarData.ts:167-171 | a label's position on the scale 无降水 < 小雨 < 中雨 < 大雨 < 暴雨/冰雹 identifies it |
| RadarData.DbzLevelIsBand | src/mock/radarData.ts:167-171 | the label is the one of the band the value lies in: < 15 无降水, [15,30) 小雨, [30,40) 中雨, [40,50) 大雨, ≥ 50 暴雨/冰雹 |
| RadarData.DbzLevelMonotone | src/mock/radarData.ts:166-172 | a larger dBZ never yields a lighter label |
| SimData.ReservoirStations | src/mock/simData.ts:363 | keeps exactly the stations of type 'reservoir', each as often as in the input, as a subsequence (order kept, nothing altered) |
| SimData.HydrologicalStations | src/mock/simData.ts:364 | keeps exactly the 'hydrological' stations, with multiplicities, as a subsequence |
| SimData.RainStations | src/mock/simData.ts:365 | keeps exactly the 'rain' stations, with multiplicities, as a subsequence |
| SimData.WarningStations | src/mock/simData.ts:366 | keeps exactly the stations with status 'warning' or 'danger', with multiplicities, as a subsequence |
| SimData.WarningIsNotNormal | src/mock/simData.ts:10 | for stations of the declared status type, a station is in the warning group iff its status is not 'normal' |
| SimData.KindGroupsPartition | src/mock/simData.ts:2 | for stations of the declared kinds, the three kind groups together are a partition of the stations (multiset sum and length sum) |
| AlertRules.AlertLevelInfoComplete | src/mock/alertRules.ts:416-421 | the level table has an entry for each of the four levels and no other |
| AlertRules.GetRuleById | src/mock/alertRules.ts:424 | the first rule with the id, or none iff no rule has it |
| AlertRules.GetActiveAlerts | src/mock/alertRules.ts:425 | exactly the active alerts, with multiplicities, in order |
| AlertRules.GetAlertsByLevel | src/mock/alertRules.ts:426 | exactly the alerts of the level, with multiplicities, in order |
| AlertRules.GetAlertsByCategory | src/mock/alertRules.ts:427 | exactly the alerts of the category, with multiplicities, in order |
| AlertRules.LevelsPartition | src/mock/alertRules.ts:426 | the lengths of the four level lists add up to the number of alerts, so no alert is lost or counted twice |
| AiKnowledge.SkipSpace | src/mock/aiKnowledge.ts:464 | drops a whitespace run: the rest is a suffix starting with a non-space |
| AiKnowledge.SplitFrom | src/mock/aiKnowledge.ts:464 | `split(/\s+/)`: at least one token, no token holds whitespace, a leading whitespace run yields the pending token first |
| AiKnowledge.SplitWs | src/mock/aiKnowledge.ts:464 | at least one token and none holds whitespace; "" gives [""]; leading whitespace gives a first token "" |
| AiKnowledge.SplitWordless | src/mock/aiKnowledge.ts:464 | text without whitespace is a single token |
| AiKnowledge.Insert | src/mock/aiKnowledge.ts:470 | inserting into a relevance-sorted list keeps it sorted and adds exactly the one entry |
| AiKnowledge.SortByRelevance | src/mock/aiKnowledge.ts:470 | the result is ordered by non-increasing relevance and is a permutation of the input |
| AiKnowledge.SearchKnowledge | src/mock/aiKnowledge.ts:463-471 | every result has a lower-cased query token inside its lower-cased title or one of its keywords; every such entry is returned; the result is a permutation of the matching entries; it is sorted by non-increasing relevance |
| AiKnowledge.SplitTrailingSpace | src/mock/aiKnowledge.ts:464 | text ending in whitespace splits into an empty last token |
| AiKnowledge.EmptyTokenMatchesAll | src/mock/aiKnowledge.ts:464-469 | an empty query, or one with leading or trailing whitespace, returns every entry |
| AiKnowledge.OneWordQuery | src/mock/aiKnowledge.ts:464-469 | a one-word query matches an entry iff the lower-cased word occurs in its title or a keyword |
| AiKnowledge.GetToolById | src/mock/aiKnowledge.ts:461 | the first tool with the id, or none iff no tool has it |
| AiKnowledge.GetToolsByCategory | src/mock/aiKnowledge.ts:462 | exactly the tools of the category, with multiplicities, in order |
| DamMonitoring.Abs | src/mock/damMonitoring.ts:211 | `Math.abs`: non-negative and equal to the value or its negation |
| DamMonitoring.ClassifyReading | src/mock/damMonitoring.ts:207-213 | unknown sensor gives normal; danger iff abs ≥ danger threshold; warning iff abs below the danger threshold and ≥ the warning threshold |
| DamMonitoring.ClassifyMonotone | src/mock/damMonitoring.ts:207-213 | whatever the thresholds, a larger absolute value never gets a milder status |
| DamMonitoring.NonPositiveDangerAlwaysDanger | src/mock/damMonitoring.ts:211 | a danger threshold ≤ 0 makes every value danger |
| DamMonitoring.Pushed | src/mock/damMonitoring.ts:203-223 | the loop pushes exactly n records |
| DamMonitoring.PushedAt | src/mock/damMonitoring.ts:215-222 | pushed record i is the record of iteration i |
| DamMonitoring.TimeSeriesShape | src/mock/damMonitoring.ts:199-225 | exactly `hours` records; after the reverse, record k is iteration hours-1-k; timestamps rise by one hour each and the last is the reference time |
| DamMonitoring.RecordIdsDistinct | src/mock/damMonitoring.ts:216 | ids `${sensorId}_${i}` of different iterations differ |
| DamMonitoring.KnsSt01AlwaysDanger | src/mock/damMonitoring.ts:189 | every generated record of sensor_kns_st01 (thresholds -50/-80) is danger |
| DamMonitoring.ReverseInPlace | src/mock/damMonitoring.ts:224 | `records.reverse()` leaves the array holding the reverse of its old contents |
| DamMonitoring.GenerateTimeSeries | src/mock/damMonitoring.ts:199-225 | the loop, push and reverse compute exactly the specified series |
| DamMonitoring.GetDamById | src/mock/damMonitoring.ts:293 | the first dam with the id, or none iff no dam has it |
| DamMonitoring.GetSensorsByDam | src/mock/damMonitoring.ts:294 | exactly the dam's sensors, with multiplicities, in order |
| DamMonitoring.GetRecordsBySensor | src/mock/damMonitoring.ts:295 | exactly the sensor's records, with multiplicities, in order |
| DamMonitoring.GetLatestRecord | src/mock/damMonitoring.ts:296-299 | the sensor's last record, or none iff it has none |
| ModelResults.EffectiveGeometry | src/mock/modelResults.ts:333-335 | a missing cross-section, or a zero bed elevation or width, falls back to 1000 and 300; the result is never zero |
| ModelResults.FlowSeries | src/mock/modelResults.ts:327-357 | the loop pushes exactly n records |
| ModelResults.FlowSeriesAt | src/mock/modelResults.ts:345-357 | pushed record i is the record of iteration i |
| ModelResults.GenerateFlowResults | src/mock/modelResults.ts:323-359 | the loop computes exactly the specified series |
| ModelResults.FlowSeriesShape | src/mock/modelResults.ts:327-358 | exactly `hours` records; record i has id `${scenarioId}_${crossSectionId}_${i}`, the given ids, timestamp start + i hours and the hydraulics of the effective geometry; timestamps strictly increase |
| ModelResults.ResultIdsDistinct | src/mock/modelResults.ts:346 | ids of different iterations of one call differ |
| ModelResults.FlowSeriesScenario | src/mock/modelResults.ts:347 | every record of a call carries the call's scenario id |
| ModelResults.SeriesScenarioCount | src/mock/modelResults.ts:347 | a call contributes `hours` records to its own scenario and none to another |
| ModelResults.ConcatCounts | src/mock/modelResults.ts:362-367 | concatenated calls hold the sum of their hours, and per scenario the sum of that scenario's hours |
| ModelResults.CallHours | src/mock/modelResults.ts:363-366 | the four calls total 96 + 96 + 144 + 240 = 576 hours, 192 of them for scenario_tarim_20y |
| ModelResults.FlowResultsCounts | src/mock/modelResults.ts:362-367 | `FlowResults` has 576 records, and the tarim scenario filter returns 192 of them |
| ModelResults.GetModelById | src/mock/modelResults.ts:427 | the first model with the id, or none iff no model has it |
| ModelResults.GetScenariosByModel | src/mock/modelResults.ts:428 | exactly the model's scenarios, with multiplicities, in order |
| ModelResults.GetFlowResultsByScenario | src/mock/modelResults.ts:429 | exactly the scenario's flow results, with multiplicities, in order |
| ModelResults.GetInundationByScenario | src/mock/modelResults.ts:430 | exactly the scenario's inundation results, with multiplicities, in order |
| RainfallGrid.Thresholds | src/mock/rainfallGrid.ts:150-158 | the thresholds, one per band, in scale order |
| RainfallGrid.ThresholdsIncrease | src/mock/rainfallGrid.ts:150-158 | band 0 starts at 0 and thresholds strictly increase |
| RainfallGrid.BandIndex | src/mock/rainfallGrid.ts:162-167 | the band index is always a valid index |
| RainfallGrid.BandIndexAt | src/mock/rainfallGrid.ts:162-166 | the index is the highest band whose threshold is ≤ the value |
| RainfallGrid.BandIndexBelowAll | src/mock/rainfallGrid.ts:167 | a value below every threshold falls back to band 0 |
| RainfallGrid.NegativeIsBandZero | src/mock/rainfallGrid.ts:167 | a negative value gets band 0: colour rgba(0, 0, 0, 0), label 无降水 |
| RainfallGrid.ThresholdBelongsToItsBand | src/mock/rainfallGrid.ts:163 | a value exactly at a threshold belongs to that band |
| RainfallGrid.BandIndexMonotone | src/mock/rainfallGrid.ts:150-167 | the band index is non-decreasing in the value |
| RainfallGrid.RainfallColor | src/mock/rainfallGrid.ts:161-168 | the descending loop returns the colour of the band of the value |
| RainfallGrid.RainfallLevel | src/mock/rainfallGrid.ts:171-178 | the descending loop returns the label of the same band, so colour and label always agree |
| RainfallGrid.Values | src/mock/rainfallGrid.ts:116 | the point values, in order |
| RainfallGrid.RainyMean | src/mock/rainfallGrid.ts:117-119 | avgRainfall is 0 without rainy points, otherwise above 0.5 |
| RainfallGrid.StatsProperties | src/mock/rainfallGrid.ts:115-119 | totalPoints is the point count; rainyPoints counts values > 0.5 and is at most totalPoints; avgRainfall is 0 iff no point is rainy; maxRainfall is a value at least every value, absent only for no points |
| RainfallGrid.PadStart | src/mock/rainfallGrid.ts:122 | `padStart(3, '0')`: width max(|s|, 3), ends with s, zeros before |
| RainfallGrid.FramePoints | src/mock/rainfallGrid.ts:109-113 | one point per base point, with its coordinates and the hour's rainfall |
| RainfallGrid.FramesHourly | src/mock/rainfallGrid.ts:123 | a later hour has a later timestamp |
| RainfallGrid.Frames | src/mock/rainfallGrid.ts:108-131 | one frame per hour |
| RainfallGrid.FramesAt | src/mock/rainfallGrid.ts:108-131 | frame h is the frame of hour h |
| RainfallGrid.GenerateRainfallFrames | src/mock/rainfallGrid.ts:94-135 | the loop computes exactly the specified frames |
| UrumqiBuildings.SpaceRun | src/mock/urumqiBuildings.ts:322 | the `\s*` run ends at the first non-space |
| UrumqiBuildings.DecimalRun | src/mock/urumqiBuildings.ts:322 | the `[\d.]+` run covers digits and dots up to the first other character |
| UrumqiBuildings.CommaNumber | src/mock/urumqiBuildings.ts:322 | `,\s*(\d+)` captures a non-empty digit string |
| UrumqiBuildings.AlphaGroup | src/mock/urumqiBuildings.ts:322 | `,\s*([\d.]+)` captures a non-empty run of digits and dots |
| UrumqiBuildings.OpenLength | src/mock/urumqiBuildings.ts:322 | `rgba?\(` is a prefix of the text |
| UrumqiBuildings.Close | src/mock/urumqiBuildings.ts:322 | a match built from the groups is well formed |
| UrumqiBuildings.AfterRed | src/mock/urumqiBuildings.ts:322 | as above, after the first group |
| UrumqiBuildings.MatchArgs | src/mock/urumqiBuildings.ts:322 | as above, for the argument list |
| UrumqiBuildings.MatchHere | src/mock/urumqiBuildings.ts:322 | a match at a position is well formed |
| UrumqiBuildings.FindMatch | src/mock/urumqiBuildings.ts:322 | the leftmost match is well formed |
| UrumqiBuildings.ParseColor | src/mock/urumqiBuildings.ts:321-332 | no match gives {0.5, 0.5, 0.5, 0.8}; else r, g, b are the captured integers / 255 and a is parseFloat of the alpha group, or 1 when absent |
| UrumqiBuildings.MatchNeedsRgb | src/mock/urumqiBuildings.ts:322 | a match starts with "rgb" |
| UrumqiBuildings.NoRgbFrom | src/mock/urumqiBuildings.ts:322 | no "rgb" from a position on means no match from there |
| UrumqiBuildings.NoRgbIsDefault | src/mock/urumqiBuildings.ts:331 | a string without "rgb" parses to the default colour |
| UrumqiBuildings.ParseFormatRgb | src/mock/urumqiBuildings.ts:321-329 | round trip: parsing "rgb(r, g, b)" gives r/255, g/255, b/255 and alpha 1 |
| UrumqiBuildings.FindFormatRgba | src/mock/urumqiBuildings.ts:322 | "rgba(r, g, b, a)" matches with its four numerals as groups |
| UrumqiBuildings.ParseDecimalOfNat | src/mock/urumqiBuildings.ts:328 | parseFloat of a decimal numeral is its value |
| UrumqiBuildings.ParseFormatRgba | src/mock/urumqiBuildings.ts:321-329 | round trip: parsing "rgba(r, g, b, a)" gives r/255, g/255, b/255 and a |
| UrumqiBuildings.PickTypeMix | src/mock/urumqiBuildings.ts:186-187 | the draw picks residential iff r < 0.2 or r ≥ 0.6, commercial iff 0.2 ≤ r < 0.4, office iff 0.4 ≤ r < 0.6 |
| UrumqiBuildings.FloorsRange | src/mock/urumqiBuildings.ts:193-210 | floors lie in 6..25, 2..7 and 10..34 for the three types |
| UrumqiBuildings.RoundBetween | src/mock/urumqiBuildings.ts:225-227 | `Math.round` of a value between two integers stays between them |
| UrumqiBuildings.FootprintRange | src/mock/urumqiBuildings.ts:192-216 | rounded width and depth stay in each type's range |
| UrumqiBuildings.DistrictBuildingShape | src/mock/urumqiBuildings.ts:186-234 | a district building has the running id, the drawn type, that type's colour, the district description, the height formula with the district factor, and floors and footprint in range |
| UrumqiBuildings.Block | src/mock/urumqiBuildings.ts:177-235 | a district's loop pushes exactly its count of buildings |
| UrumqiBuildings.Part | src/mock/urumqiBuildings.ts:174-236 | the first n districts contribute the sum of their counts |
| UrumqiBuildings.PartStep | src/mock/urumqiBuildings.ts:174-236 | one more district appends its block, whose ids continue from the counter |
| UrumqiBuildings.PrefixStep | src/mock/urumqiBuildings.ts:104-236 | the same, after the landmarks |
| UrumqiBuildings.PushDistrict | src/mock/urumqiBuildings.ts:175-235 | the inner loop appends the district's block and advances the id counter by its count |
| UrumqiBuildings.GenerateBuildings | src/mock/urumqiBuildings.ts:98-296 | the nested loops compute exactly the specified building list |
| UrumqiBuildings.BlockAt | src/mock/urumqiBuildings.ts:221-234 | building i of a block is the i-th building of the district |
| UrumqiBuildings.BlockIds | src/mock/urumqiBuildings.ts:222 | block ids are consecutive from the counter |
| UrumqiBuildings.PartIds | src/mock/urumqiBuildings.ts:100 | district buildings get ids building_1, building_2, … across districts |
| UrumqiBuildings.GeneratedLayout | src/mock/urumqiBuildings.ts:98-296 | landmarks come first and water facilities last; the district buildings between them have ids building_1… |
| UrumqiBuildings.UrumqiDistrictTotal | src/mock/urumqiBuildings.ts:175 | floor(40·density) over the four districts gives 32 + 28 + 24 + 20 = 104 buildings |
| UrumqiBuildings.BuildingsOfType | src/mock/urumqiBuildings.ts:302-306 | exactly the buildings of the type, with multiplicities, in order |
| UrumqiBuildings.Heights | src/mock/urumqiBuildings.ts:316-317 | the heights, in order |
| UrumqiBuildings.BuildingStatsCounts | src/mock/urumqiBuildings.ts:309-315 | total is the building count; each per-type count is its filter's size; with the industrial count they add up to the total |
| UrumqiBuildings.BuildingStatsHeights | src/mock/urumqiBuildings.ts:316-317 | avgHeight is the rounded mean; maxHeight is some building's height and at least every height; both are undefined exactly for no buildings |
| UrumqiBuildings.TypeCountsAddUp | src/mock/urumqiBuildings.ts:302-306 | the six type counts add up to the building count |
| BaseMap.ForInAssign | src/utils/getFormatData/BaseMap.ts:8-10 | `forIn` with assignment replaces every value by the callback's result, keeping keys and order |
| BaseMap.MapValues | src/utils/getFormatData/BaseMap.ts:28-35 | same keys in order, each value transformed |
| BaseMap.GetMapValues | src/utils/getFormatData/BaseMap.ts:28-35 | a key of the transformed object holds the transformed value, and is absent iff it was |
| BaseMap.LastValueNone | src/utils/getFormatData/BaseMap.ts:7 | a name has no value iff no row carries it |
| BaseMap.GetBaseMapConfig | src/utils/getFormatData/BaseMap.ts:4-12 | one key per distinct name; a repeated name takes its last row's value; each value is true exactly when the original is the string '1' |
| BaseMap.Processed | src/utils/getFormatData/BaseMap.ts:18-35 | an element succeeds iff both parses succeed; other properties are untouched |
| BaseMap.MissingInterfaceIsEmpty | src/utils/getFormatData/BaseMap.ts:24-26 | a missing or falsy interfaceConfig becomes an empty array |
| BaseMap.CoercedInterfaceValue | src/utils/getFormatData/BaseMap.ts:28-35 | same keys; each value becomes its numeric parse when parseFloat succeeds, else (v === 'true') |
| BaseMap.TrueBecomesFalse | src/utils/getFormatData/BaseMap.ts:29-30 | a boolean true becomes false |
| BaseMap.GetBaseMapImageryList | src/utils/getFormatData/BaseMap.ts:13-38 | every element is processed in place and the length is unchanged; a throwing parse rejects with its message, leaving later elements unchanged |
| StationMarker.StatusColor | src/modules/FloodControl/StationMarker.ts:90-99 | red iff 'danger', yellow iff 'warning', green otherwise |
| StationMarker.StatusHtmlColor | src/modules/FloodControl/StationMarker.ts:193-202 | #ff0000 iff 'danger', #ffff00 iff 'warning', #00ff00 otherwise |
| StationMarker.StatusColorsAgree | src/modules/FloodControl/StationMarker.ts:90-99 | the point colour and the panel colour agree for every status |
| StationMarker.TypeIcon | src/modules/FloodControl/StationMarker.ts:101-112 | an unknown kind gets 📍 |
| StationMarker.TypeIconsDistinct | src/modules/FloodControl/StationMarker.ts:101-112 | the three kinds have distinct icons, none of them 📍 |
| StationMarker.ReservoirPanel | src/modules/FloodControl/StationMarker.ts:159-170 | seven rows; the water level is coloured by status; the capacity row has no value; the status text is 超保证 / 超警戒 / 正常 for danger / warning / other |
| StationMarker.HydrologicalPanel | src/modules/FloodControl/StationMarker.ts:171-176 | three rows; 偏高 iff 'warning', so 'danger' shows 正常 |
| StationMarker.RainPanel | src/modules/FloodControl/StationMarker.ts:177-182 | three rows; rainfall coloured yellow iff strictly above 20, else green; 降雨偏多 iff 'warning' |
| StationMarker.OtherKindPanel | src/modules/FloodControl/StationMarker.ts:148-191 | any other kind gets no rows, only the name as title |
| StationMarker.Entity.constructor | src/modules/FloodControl/StationMarker.ts:58-85 | a new entity is shown, has the given id, label, colour, size and station, and no description |
| StationMarker.Viewer.constructor | src/modules/FloodControl/StationMarker.ts:11 | a new viewer has no entities, no selection, the default cursor and no camera requests |
| StationMarker.Without | src/modules/FloodControl/StationMarker.ts:238 | `viewer.entities.remove`: every other entity stays, the removed one is gone |
| StationMarker.StationMarkerManager.constructor | src/modules/FloodControl/StationMarker.ts:15-17 | a new manager has no entities and no hover reference |
| StationMarker.StationMarkerManager.AtMostOneEnlarged | src/modules/FloodControl/StationMarker.ts:130-145 | at most one entity has size 18, and it is the hover reference |
| StationMarker.AddedBeforeClashMeaning | src/modules/FloodControl/StationMarker.ts:45-49 | the stations added before the first clash have new, pairwise distinct ids; the clashing station repeats a taken or an earlier id |
| StationMarker.StationMarkerManager.AddStation | src/modules/FloodControl/StationMarker.ts:54-88 | succeeds iff the viewer holds no entity with the id, then appends exactly one fresh entity with the station's id, its name as label, size 12, its status colour and the station, earlier entities unchanged; a clashing id is Cesium's duplicate-id error and adds nothing |
| StationMarker.StationMarkerManager.AddAllStations | src/modules/FloodControl/StationMarker.ts:45-49 | adds the stations in order up to the first clashing id and stops there with the duplicate-id error; succeeds iff no station clashes; earlier entities unchanged |
| StationMarker.StationMarkerManager.OnMove | src/modules/FloodControl/StationMarker.ts:130-145 | the old hover target is reset to 12; a hit on a point sets the hover to it at 18 with the pointer cursor, anything else clears the hover and sets the default cursor; a miss with no hover changes no size; the visibility and description of the old and new hover targets are unchanged |
| StationMarker.StationMarkerManager.OnClick | src/modules/FloodControl/StationMarker.ts:117-128 | a pick with a station selects it and writes its panel; any other pick changes no selection, description, size or visibility |
| StationMarker.StationMarkerManager.ShowStationInfo | src/modules/FloodControl/StationMarker.ts:148-191 | selects the entity and sets its description to the station's panel |
| StationMarker.StationMarkerManager.FilterBy | src/modules/FloodControl/StationMarker.ts:204-224 | every entity is shown iff no value is given or its field equals it; sizes and descriptions unchanged |
| StationMarker.StationMarkerManager.FilterByType | src/modules/FloodControl/StationMarker.ts:204-213 | `null` shows all, otherwise show = (type == argument), overwriting earlier filters; sizes unchanged |
| StationMarker.StationMarkerManager.FilterByStatus | src/modules/FloodControl/StationMarker.ts:215-224 | `null` shows all, otherwise show = (status == argument); sizes unchanged |
| StationMarker.StationMarkerManager.FlyToStation | src/modules/FloodControl/StationMarker.ts:226-234 | an absent id issues no camera request; a present one issues exactly one, for its entity |
| StationMarker.StationMarkerManager.Clear | src/modules/FloodControl/StationMarker.ts:236-241 | removes the manager's entities from the viewer and empties the list; the hover reference is untouched |
| ExcelImporter.PrefixOrderIsSortedKeys | backend/app/utils/excel_importer.py:488-489 | the candidate order holds each sensor-type key once, longest first |
| ExcelImporter.IndexOf | backend/app/utils/excel_importer.py:492 | `find("-")`: the first position of the character |
| ExcelImporter.FindLongest | backend/app/utils/excel_importer.py:489-491 | scanning keys longest first finds a matching key no shorter than any other matching key, or none iff none matches |
| ExcelImporter.DetectPrefixSpec | backend/app/utils/excel_importer.py:487-492 | a known key that the point code or file name starts with is returned, and no longer such key exists; with none, the fallback is returned |
| ExcelImporter.FallbackPrefixSpec | backend/app/utils/excel_importer.py:492 | the fallback is the code up to and including its first '-', or the whole code without '-' |
| ExcelImporter.TypeCode | backend/app/utils/excel_importer.py:401 | the mapped metric type of a known prefix, else the prefix itself |
| ExcelImporter.NormalizeCol | backend/app/utils/excel_importer.py:499-503 | the output has no whitespace, '·', '（', '）' or ASCII upper-case letter |
| ExcelImporter.NormalizeNormal | backend/app/utils/excel_importer.py:499-503 | an already normal name is unchanged |
| ExcelImporter.NormalizeColIdempotent | backend/app/utils/excel_importer.py:499-503 | normalising twice equals normalising once |
| ExcelImporter.FirstMatch | backend/app/utils/excel_importer.py:476-484 | the inner loop finds the first definition, in list order, with a lower-cased keyword in the header |
| ExcelImporter.MapHeader | backend/app/utils/excel_importer.py:474-484 | one header step: the mapping covers one more header; an unknown prefix adds nothing |
| ExcelImporter.MapMetricColumns | backend/app/utils/excel_importer.py:471-485 | a header maps to its first matching definition and unmatched headers are absent; an unknown prefix gives an empty mapping |
| ExcelImporter.AbsHeaderMatches | backend/app/utils/excel_importer.py:113-117 | the header 绝对位移 does not match resistance_ratio and does match displacement |
| ExcelImporter.AbsImpliesDisplacement | backend/app/utils/excel_importer.py:113-117 | any header matching displacement_abs also matches displacement |
| ExcelImporter.DisplacementAbsUnreachable | backend/app/utils/excel_importer.py:113-117 | for M4f- and M2f-, 绝对位移 maps to displacement and no header maps to displacement_abs |
| ExcelImporter.FindTimeColumn | backend/app/utils/excel_importer.py:464-469 | the first header whose normalised form contains a time key; else the first header; none only without headers |
| ExcelImporter.RemoveSpaces | backend/app/utils/excel_importer.py:562 | `replace(" ", "")`: no space left, every other character kept as often as before |
| ExcelImporter.FirstNumberFrom | backend/app/utils/excel_importer.py:563 | the leftmost start of `[+-]?\d+` from a position, or none iff there is none |
| ExcelImporter.IntegerDigits | backend/app/utils/excel_importer.py:563 | the integer part of a number is a non-empty digit string |
| ExcelImporter.FractionDigits | backend/app/utils/excel_importer.py:563 | the fraction part is a digit string |
| ExcelImporter.NormalizeChainage | backend/app/utils/excel_importer.py:561-569 | the text has no spaces; a direction iff it starts with 发, 进 or 出, and then that character; a value iff some digit occurs, and then the value of the leftmost number |
| ExcelImporter.StationNumberHasNoSpace | backend/app/utils/excel_importer.py:562 | "发0+350" has no spaces to remove |
| ExcelImporter.StationNumberValue | backend/app/utils/excel_importer.py:563-564 | in "发0+350" the first number starts at 1 and is 0 |
| ExcelImporter.ChainageTakesFirstNumber | backend/app/utils/excel_importer.py:561-569 | "发0+350" normalises to ("发0+350", 0, 发) |
| ExcelImporter.SplitValue | backend/app/utils/excel_importer.py:534-546 | never both parts; none gives none; a number gives itself; a string gives its float parse when the parse succeeds, else the stripped non-empty text |
| ExcelParsing.RowTexts | backend/app/utils/excel_importer.py:434-437 | one joined text per row |
| ExcelParsing.FirstOccurrence | backend/app/utils/excel_importer.py:440 | the first position of the key in the text |
| ExcelParsing.MetaValue | backend/app/utils/excel_importer.py:440-441 | the value has no whitespace at either end |
| ExcelParsing.MetaValueSlice | backend/app/utils/excel_importer.py:440-441 | the value is a slice of the text after the first occurrence of the key, with only '：', ':' and whitespace before it and only whitespace after it |
| ExcelParsing.FieldFromFirstRow | backend/app/utils/excel_importer.py:433-442 | a field comes from the first row in which a key for it occurs, and is absent iff none does |
| ExcelParsing.KeyLookupFirstKey | backend/app/utils/excel_importer.py:438-442 | within a row, the first key for the field that occurs decides its value |
| ExcelParsing.NoKeyInEmptyText | backend/app/utils/excel_importer.py:435-436 | an empty row text sets no field |
| ExcelParsing.ScanKey | backend/app/utils/excel_importer.py:438-442 | one key step: a field already set is never overwritten |
| ExcelParsing.ScanRowKeys | backend/app/utils/excel_importer.py:438-442 | after a row, each field is its earlier value, else the row's value |
| ExcelParsing.ScanFields | backend/app/utils/excel_importer.py:432-442 | the metadata fields are exactly those of the first-occurrence specification |
| ExcelParsing.PartsOfBlankRow | backend/app/utils/excel_importer.py:434-436 | a row of empty cells has empty text |
| ExcelParsing.LastRowWithSpec | backend/app/utils/excel_importer.py:446-450 | a label's parameter is the last row text containing it, and is absent iff none does |
| ExcelParsing.ScanLabel | backend/app/utils/excel_importer.py:446-450 | one label: set to the last matching row, other labels untouched |
| ExcelParsing.ScanParameters | backend/app/utils/excel_importer.py:444-450 | exactly the six labels, each with the last matching row when there is one |
| ExcelParsing.ParseMetadata | backend/app/utils/excel_importer.py:431-453 | the fields and parameters above, and the source file name |
| ExcelParsing.FindHeaderRow | backend/app/utils/excel_importer.py:455-462 | the earliest row below min(rows, 12) containing 序号 and a time key, else 6 |
| ExcelParsing.HeaderTexts | backend/app/utils/excel_importer.py:382 | one text per cell, "" for an empty one |
| ExcelParsing.CleanHeader | backend/app/utils/excel_importer.py:388-389 | "" for "nan", else the stripped text |
| ExcelParsing.UseTwoRows | backend/app/utils/excel_importer.py:384 | two-row mode iff some cell below is non-empty and not "nan" |
| ExcelParsing.MergedHeader | backend/app/utils/excel_importer.py:387-393 | a merged header has no whitespace at either end |
| ExcelParsing.MergedPlain | backend/app/utils/excel_importer.py:390-393 | a real sub-header gives "h sub" ("sub" under an empty header); a blank one leaves the header |
| ExcelParsing.MergeHeaders | backend/app/utils/excel_importer.py:385-393 | as many headers as header-row cells, each merged with the cell below in two-row mode |
| ExcelParsing.ColumnFrom | backend/app/utils/excel_importer.py:550-554 | a duplicated column name reads its first non-empty cell, and none iff all are empty |
| ExcelParsing.RawFrom | backend/app/utils/excel_importer.py:408 | the raw values hold exactly the header columns, each with its cleaned value |
| ExcelParsing.LastSupplier | backend/app/utils/excel_importer.py:415-420 | the last mapped column that supplies a value for the metric key |
| ExcelParsing.MetricStep | backend/app/utils/excel_importer.py:415-420 | a later column with a value for the same key overwrites it; an empty one is skipped |
| ExcelParsing.ApplyColumn | backend/app/utils/excel_importer.py:415-420 | one column step of the metric loop keeps metrics and units equal to their specification |
| ExcelParsing.RowMetrics | backend/app/utils/excel_importer.py:413-420 | metrics and units of a row are those of the last column supplying each key |
| ExcelParsing.TimedRowsMembers | backend/app/utils/excel_importer.py:409-412 | the rows kept are exactly those whose time parses |
| ExcelParsing.ReadRows | backend/app/utils/excel_importer.py:405-421 | one reading per timed row, in order, with its time, metrics, units and raw values |
| ExcelParsing.PointCode | backend/app/utils/excel_importer.py:399 | the metadata point code when non-empty, else the file-name stem |
| ExcelParsing.ParseExcel | backend/app/utils/excel_importer.py:374-429 | fails iff the sheet has no header row and at most six rows, so that the fallback row 6 does not exist; else metadata fields (first occurrence) and parameters (last matching row) from the first ten rows, the point code, the prefix-derived type code, a mapping that holds exactly the merged headers with a matching definition, and readings read from below the chosen header row |
| ExcelIngest.DefaultWarn | backend/app/utils/excel_importer.py:150-155 | no thresholds for other keys; only stress has a low one |
| ExcelIngest.NewMetricSpec | backend/app/utils/excel_importer.py:308-319 | a created metric has the key, sensor and unit; without a name it is named after the key; its data type is never empty; its thresholds are the defaults (stress: -10 / 200) |
| ExcelIngest.FindIngest | backend/app/utils/excel_importer.py:278-280 | the first ingest for (sensor, checksum), or none iff there is none |
| ExcelIngest.FindMetric | backend/app/utils/excel_importer.py:305-307 | the first metric for (sensor, key), or none iff there is none |
| ExcelIngest.Decide | backend/app/utils/excel_importer.py:281-288 | create iff no ingest exists; skip iff the first one has rows_imported > 0; reuse it otherwise |
| ExcelIngest.EntryRowsShape | backend/app/utils/excel_importer.py:336-355 | at most one row per metric entry; every row has the sensor, the ingest, a known non-zero metric id and the reading's time, and never both a number and a text |
| ExcelIngest.RowsOfShape | backend/app/utils/excel_importer.py:332-355 | every flattened row has that shape |
| ExcelIngest.EntryRowsWithoutIds | backend/app/utils/excel_importer.py:337-339 | keys without a metric id are skipped |
| ExcelIngest.ChunksConcat | backend/app/utils/excel_importer.py:360-361 | the chunks concatenate back to the rows, in order |
| ExcelIngest.ChunksSizes | backend/app/utils/excel_importer.py:359-361 | chunks hold 1 to 500 rows, all but the last exactly 500; there are none iff there are no rows |
| ExcelIngest.ChunksAdvance | backend/app/utils/excel_importer.py:360-361 | the next chunk starts where the previous ended |
| ExcelIngest.CountedSnoc | backend/app/utils/excel_importer.py:369 | each chunk adds its rowcount when positive, else its length |
| ExcelIngest.CountedWithoutRowcount | backend/app/utils/excel_importer.py:368-369 | with rowcount -1 (or any value ≤ 0) the total is the number of rows |
| ExcelIngest.CountedIsLength | backend/app/utils/excel_importer.py:368-369 | with no positive rowcount, the counted total of any chunks is the number of rows they hold |
| ExcelIngest.CountedPositive | backend/app/utils/excel_importer.py:369 | with positive rowcounts every chunk counts at least one |
| ExcelIngest.StoredId | backend/app/utils/excel_importer.py:305-307 | none iff the store has no metric for (sensor, key) |
| ExcelIngest.StoredIdAppend | backend/app/utils/excel_importer.py:320-322 | appending a metric makes it the stored one only if none existed |
| ExcelIngest.BuildRows | backend/app/utils/excel_importer.py:332-355 | the nested loop builds exactly the specified rows |
| ExcelIngest.ImportedRowsOf | backend/app/utils/excel_importer.py:336-355 | every row inserted refers to the sensor, the ingest and a metric of that sensor in the store |
| ExcelIngest.IngestStore.constructor | backend/app/utils/excel_importer.py:146-155 | an empty store |
| ExcelIngest.IngestStore.GetOrCreateIngest | backend/app/utils/excel_importer.py:277-298 | skip leaves the store unchanged; reuse updates mtime and sets status success; create appends a new ingest with status success |
| ExcelIngest.IngestStore.EnsureColumn | backend/app/utils/excel_importer.py:303-322 | an existing metric's id is returned, else a new metric is appended and its id returned |
| ExcelIngest.IngestStore.EnsureMetrics | backend/app/utils/excel_importer.py:300-323 | every metric key of the columns gets the stored id of its metric; existing metrics are kept; new ones are created from the first column with the key |
| ExcelIngest.IngestStore.SendChunks | backend/app/utils/excel_importer.py:356-370 | executes exactly the 500-row chunks, in order, and returns their counted total |
| ExcelIngest.IngestStore.InsertReadings | backend/app/utils/excel_importer.py:325-370 | executes the chunks of the flattened rows and returns their total; nothing is executed for no rows |
| ExcelIngest.RowsOfLookupsOnly | backend/app/utils/excel_importer.py:336-355 | two metric-id maps that answer every key alike build the same rows |
| ExcelIngest.Recorded | backend/app/utils/excel_importer.py:277-298 | a non-duplicate import changes only the reused record or appends a new one; every other record stays |
| ExcelIngest.IngestStore.ImportInto | backend/app/utils/excel_importer.py:177-181 | ensures the metrics, inserts the chunks of the rows built with the ingest's id, and stores the counted total on that record only |
| ExcelIngest.IngestStore.ImportParsed | backend/app/utils/excel_importer.py:173-182 | skipped with duplicate_checksum iff an ingest with rows exists, changing nothing; else the ingest table is the reused or new record with the count, metrics are only added, one for each new key of the mapped columns, and exactly the 500-row chunks of the parsed readings' rows are inserted, their counted total being the result |

## Left out

- The database (SQLAlchemy, PostgreSQL, `flush`, `commit`). An in-memory store stands in for the tables the importer reads and writes.
- `on_conflict_do_nothing` de-duplication inside the database: the model sends the chunks and counts them as the driver reports.
- pandas, the Excel reader and `_clean_value`'s pandas cases. A sheet is given as rows of cells, each empty or holding a shown text and a number or string value.
- `_parse_datetime`, `float()` and the driver's `rowcount`: these are function parameters.
- The md5 checksum, `os.path`, `getmtime` and `relpath`: the checksum, the relative path and the mtime are parameters of the import.
- `file_not_found` in `import_file`: the file system is not modelled.
- Sensor type, facility, section, chainage-coordinate and sensor creation in `import_file`: these are database records outside the reading path.
- `_guess_point_code_from_filename`: the file-name stem is a parameter.
- ExcelImporter.NormalizeCol: lower-casing is ASCII only; Python's `str.lower` also folds other scripts. The regex `\d` is ASCII digits.
- AiKnowledge.SearchKnowledge: lower-casing is ASCII only, as above.
- AiKnowledge.SortByRelevance: proved sorted and a permutation but not stable. JavaScript's `sort` keeps entries of equal relevance in input order; the insertion sort here does not promise that.
- Random values, `Math.random`, trigonometry and floating-point arithmetic of the mock generators (hydraulics, rainfall simulation, building positions and sizes, sensor values, temperatures): they are parameters of the generators.
- `toFixed` rounding and ISO timestamp strings: the models keep unrounded values and integer milliseconds.
- `Math.max()` of no values is -Infinity in JavaScript, and the average height of no buildings is 0/0, which is NaN; the model gives "none" for both (RainfallGrid.StatsProperties, UrumqiBuildings.BuildingStatsHeights).
- Cesium rendering: styling of points and labels, camera flights (kept only as a request log) and the cursor style (kept as a two-valued field).
- The HTML markup of the station panel: it is modelled as rows of captions and values.
- StationMarker.StationMarkerManager: `init`, `flyToXinjiang` and `destroy` are wiring around the modelled operations (`destroy` only calls `clear`). The constructor starts with no entities; `AddAllStations` is the step `init` takes over the station table. Cesium's `PropertyBag` wrapping of `properties` is not modelled.
- BaseMap.GetBaseMapImageryList: `forIn` over a string value (iterating its characters) is not modelled; a string interface configuration is left as it is. The elements are values in an array, so aliasing between elements is not modelled.
- The static fixture tables of the mock files (stations, alerts, dams, models, districts' other fields).
