/** Monitoring stations and their derived groups (src/mock/simData.ts). The station table itself
    is a fixture and is taken as a parameter. */
module SimData {
  import opened Wrappers
  import Seqs

  /** A monitoring station. `kind` (the source's `type`) and `status` are kept as the strings they
      are at run time; `WellTyped` states the closed sets the declared types promise. */
  datatype Station = Station(
    id: string, name: string, kind: string, lng: real, lat: real, status: string,
    waterLevel: Option<real>, warningLevel: Option<real>, guaranteeLevel: Option<real>,
    inflow: Option<real>, outflow: Option<real>, rainfall: Option<real>,
    rainfallTotal: Option<real>, description: Option<string>)

  const StationKinds: set<string> := {"reservoir", "hydrological", "rain"}
  const StationStatuses: set<string> := {"normal", "warning", "danger"}

  predicate WellTyped(s: Station) {
    s.kind in StationKinds && s.status in StationStatuses
  }

  predicate IsReservoir(s: Station) { s.kind == "reservoir" }
  predicate IsHydrological(s: Station) { s.kind == "hydrological" }
  predicate IsRain(s: Station) { s.kind == "rain" }
  predicate IsWarning(s: Station) { s.status == "warning" || s.status == "danger" }

  /** ReservoirStations: exactly the reservoir stations, in order. */
  function ReservoirStations(stations: seq<Station>): (r: seq<Station>)
    ensures forall s :: s in r <==> s in stations && s.kind == "reservoir"
    ensures forall s :: multiset(r)[s] == if s.kind == "reservoir" then multiset(stations)[s] else 0
    ensures Seqs.IsSubsequence(r, stations)
  {
    Seqs.Filter(stations, IsReservoir)
  }

  /** HydrologicalStations: exactly the hydrological stations, in order. */
  function HydrologicalStations(stations: seq<Station>): (r: seq<Station>)
    ensures forall s :: s in r <==> s in stations && s.kind == "hydrological"
    ensures forall s :: multiset(r)[s] == if s.kind == "hydrological" then multiset(stations)[s] else 0
    ensures Seqs.IsSubsequence(r, stations)
  {
    Seqs.Filter(stations, IsHydrological)
  }

  /** RainStations: exactly the rain-gauge stations, in order. */
  function RainStations(stations: seq<Station>): (r: seq<Station>)
    ensures forall s :: s in r <==> s in stations && s.kind == "rain"
    ensures forall s :: multiset(r)[s] == if s.kind == "rain" then multiset(stations)[s] else 0
    ensures Seqs.IsSubsequence(r, stations)
  {
    Seqs.Filter(stations, IsRain)
  }

  /** WarningStations: exactly the stations in warning or danger, in order. */
  function WarningStations(stations: seq<Station>): (r: seq<Station>)
    ensures forall s :: s in r <==> s in stations && (s.status == "warning" || s.status == "danger")
    ensures forall s :: multiset(r)[s] == if IsWarning(s) then multiset(stations)[s] else 0
    ensures Seqs.IsSubsequence(r, stations)
  {
    Seqs.Filter(stations, IsWarning)
  }

  /** For well-typed stations, "warning or danger" is "not normal". */
  lemma WarningIsNotNormal(stations: seq<Station>, s: Station)
    requires forall i :: 0 <= i < |stations| ==> WellTyped(stations[i])
    ensures s in WarningStations(stations) <==> s in stations && s.status != "normal"
  {
  }

  /** Since a station has one of three kinds, the three kind groups together hold every station
      exactly as often as the table does. */
  lemma KindGroupsPartition(stations: seq<Station>)
    requires forall i :: 0 <= i < |stations| ==> WellTyped(stations[i])
    ensures multiset(ReservoirStations(stations)) + multiset(HydrologicalStations(stations))
            + multiset(RainStations(stations)) == multiset(stations)
    ensures |ReservoirStations(stations)| + |HydrologicalStations(stations)| + |RainStations(stations)|
            == |stations|
  {
    var m := multiset(ReservoirStations(stations)) + multiset(HydrologicalStations(stations))
             + multiset(RainStations(stations));
    forall s ensures m[s] == multiset(stations)[s] {
      if s in stations {
        assert WellTyped(s);
      } else {
        assert multiset(stations)[s] == 0;
      }
    }
    assert m == multiset(stations);
    assert |ReservoirStations(stations) + HydrologicalStations(stations) + RainStations(stations)|
           == |multiset(stations)|;
  }
}
