/** Dam-safety monitoring: record classification, the simulated time series and the lookups
    (src/mock/damMonitoring.ts). The dam, sensor and record tables are fixtures and are taken as
    parameters. */
module DamMonitoring {
  import opened Wrappers
  import opened Strs
  import Seqs

  datatype RecordStatus = Normal | Warning | Danger

  /** The fields of a Dam that the lookups use. */
  datatype Dam = Dam(id: string, name: string, reservoirId: string, status: string)

  /** The fields of a MonitoringSensor that the lookups and the classification use. */
  datatype MonitoringSensor = MonitoringSensor(id: string, damId: string, name: string, unit: string,
                                               warningThreshold: real, dangerThreshold: real)

  /** A monitoring record; `timestamp` is in milliseconds since the epoch. */
  datatype MonitoringRecord = MonitoringRecord(id: string, sensorId: string, timestamp: int,
                                               value: real, status: RecordStatus,
                                               temperature: Option<real>)

  /** 2025-09-01T00:00:00Z, the reference time of every series. */
  const Now: int := 1756684800000
  const HourMs: int := 3600000

  /** The settlement gauge ST01 of the Kizil dam, whose thresholds are negative. */
  const KnsSt01: MonitoringSensor :=
    MonitoringSensor("sensor_kns_st01", "dam_kns", "沉降计ST01", "mm", -50.0, -80.0)

  function Abs(x: real): (r: real)
    ensures r >= 0.0 && (r == x || r == -x)
  {
    if x < 0.0 then -x else x
  }

  function Rank(s: RecordStatus): nat {
    match s
    case Normal => 0
    case Warning => 1
    case Danger => 2
  }

  /** The status of a reading: danger at or above the danger threshold (in magnitude), else
      warning at or above the warning threshold, else normal; a reading of a sensor that is not
      in the table is normal. */
  function ClassifyReading(sensor: Option<MonitoringSensor>, value: real): (st: RecordStatus)
    ensures sensor.None? ==> st == Normal
    ensures sensor.Some? ==> (st == Danger <==> Abs(value) >= sensor.value.dangerThreshold)
    ensures sensor.Some? ==>
      (st == Warning <==> (Abs(value) < sensor.value.dangerThreshold && Abs(value) >= sensor.value.warningThreshold))
  {
    match sensor
    case None => Normal
    case Some(s) =>
      if Abs(value) >= s.dangerThreshold then Danger
      else if Abs(value) >= s.warningThreshold then Warning
      else Normal
  }

  /** A larger reading never gets a milder status, whatever the order of the thresholds. */
  lemma ClassifyMonotone(sensor: Option<MonitoringSensor>, a: real, b: real)
    requires Abs(a) <= Abs(b)
    ensures Rank(ClassifyReading(sensor, a)) <= Rank(ClassifyReading(sensor, b))
  {
  }

  /** A sensor whose danger threshold is not positive classifies every reading as danger. */
  lemma NonPositiveDangerAlwaysDanger(s: MonitoringSensor, value: real)
    requires s.dangerThreshold <= 0.0
    ensures ClassifyReading(Some(s), value) == Danger
  {
  }

  /** The sensor table entry of an id: `MonitoringSensors.find(s => s.id === sensorId)`. */
  function LookupSensor(sensors: seq<MonitoringSensor>, sensorId: string): Option<MonitoringSensor> {
    Seqs.Find(sensors, (s: MonitoringSensor) => s.id == sensorId)
  }

  /** The record pushed in iteration `i`: `i` hours before the reference time. The simulated
      (random, rounded) value and temperature of iteration `i` are parameters. */
  function RecordAt(sensor: Option<MonitoringSensor>, sensorId: string, i: nat,
                    value: nat -> real, temperature: nat -> real): MonitoringRecord
  {
    MonitoringRecord(sensorId + "_" + NatToString(i), sensorId, Now - i * HourMs, value(i),
                     ClassifyReading(sensor, value(i)), Some(temperature(i)))
  }

  /** The records of the first `n` iterations, in push order. */
  function Pushed(sensor: Option<MonitoringSensor>, sensorId: string, n: nat,
                  value: nat -> real, temperature: nat -> real): (rs: seq<MonitoringRecord>)
    ensures |rs| == n
    decreases n
  {
    if n == 0 then []
    else Pushed(sensor, sensorId, n - 1, value, temperature) + [RecordAt(sensor, sensorId, n - 1, value, temperature)]
  }

  lemma {:induction false} PushedAt(sensor: Option<MonitoringSensor>, sensorId: string, n: nat,
                                    value: nat -> real, temperature: nat -> real, i: nat)
    requires i < n
    ensures Pushed(sensor, sensorId, n, value, temperature)[i] == RecordAt(sensor, sensorId, i, value, temperature)
    decreases n
  {
    if i < n - 1 {
      PushedAt(sensor, sensorId, n - 1, value, temperature, i);
    }
  }

  /** The series generateTimeSeries returns: the pushed records, reversed. */
  function TimeSeries(sensors: seq<MonitoringSensor>, sensorId: string, hours: nat,
                      value: nat -> real, temperature: nat -> real): seq<MonitoringRecord>
  {
    Seqs.Reverse(Pushed(LookupSensor(sensors, sensorId), sensorId, hours, value, temperature))
  }

  /** The shape of a series: `hours` records, record k being iteration hours-1-k; the
      timestamps rise by one hour from one record to the next and the last one is the reference
      time; every record has its sensor id and the status its value gets. */
  lemma TimeSeriesShape(sensors: seq<MonitoringSensor>, sensorId: string, hours: nat,
                        value: nat -> real, temperature: nat -> real)
    ensures |TimeSeries(sensors, sensorId, hours, value, temperature)| == hours
    ensures forall k :: 0 <= k < hours ==>
      TimeSeries(sensors, sensorId, hours, value, temperature)[k]
        == RecordAt(LookupSensor(sensors, sensorId), sensorId, hours - 1 - k, value, temperature)
    ensures forall k :: 0 <= k < hours ==>
      TimeSeries(sensors, sensorId, hours, value, temperature)[k].timestamp == Now - (hours - 1 - k) * HourMs
    ensures forall k :: 0 <= k < hours - 1 ==>
      TimeSeries(sensors, sensorId, hours, value, temperature)[k + 1].timestamp
        == TimeSeries(sensors, sensorId, hours, value, temperature)[k].timestamp + HourMs
    ensures hours > 0 ==> TimeSeries(sensors, sensorId, hours, value, temperature)[hours - 1].timestamp == Now
  {
    var sensor := LookupSensor(sensors, sensorId);
    var ts := TimeSeries(sensors, sensorId, hours, value, temperature);
    forall k | 0 <= k < hours
      ensures ts[k] == RecordAt(sensor, sensorId, hours - 1 - k, value, temperature)
    {
      PushedAt(sensor, sensorId, hours, value, temperature, hours - 1 - k);
    }
    forall k | 0 <= k < hours - 1
      ensures ts[k + 1].timestamp == ts[k].timestamp + HourMs
    {
      assert ts[k].timestamp == Now - (hours - 1 - k) * HourMs;
      assert ts[k + 1].timestamp == Now - (hours - 2 - k) * HourMs;
    }
  }

  /** Record ids within one series are distinct. */
  lemma RecordIdsDistinct(sensor: Option<MonitoringSensor>, sensorId: string, i: nat, j: nat,
                          value: nat -> real, temperature: nat -> real)
    requires i != j
    ensures RecordAt(sensor, sensorId, i, value, temperature).id != RecordAt(sensor, sensorId, j, value, temperature).id
  {
    if RecordAt(sensor, sensorId, i, value, temperature).id == RecordAt(sensor, sensorId, j, value, temperature).id {
      assert (sensorId + "_") + NatToString(i) == (sensorId + "_") + NatToString(j);
      PrefixCancel(sensorId + "_", NatToString(i), NatToString(j));
      NatToStringInjective(i, j);
    }
  }

  /** Every record of the series of ST01 of the Kizil dam is danger, whatever its value. */
  lemma KnsSt01AlwaysDanger(sensors: seq<MonitoringSensor>, hours: nat, value: nat -> real,
                            temperature: nat -> real)
    requires LookupSensor(sensors, KnsSt01.id) == Some(KnsSt01)
    ensures forall k :: 0 <= k < hours ==> TimeSeries(sensors, KnsSt01.id, hours, value, temperature)[k].status == Danger
  {
    TimeSeriesShape(sensors, KnsSt01.id, hours, value, temperature);
  }

  /** `a.reverse()`: reverses the array in place. */
  method ReverseInPlace<T>(a: array<T>)
    modifies a
    ensures a[..] == Seqs.Reverse(old(a[..]))
  {
    var i := 0;
    while i < a.Length / 2
      invariant 0 <= i <= a.Length / 2
      invariant forall k :: 0 <= k < i ==> a[k] == old(a[a.Length - 1 - k]) && a[a.Length - 1 - k] == old(a[k])
      invariant forall k :: i <= k < a.Length - i ==> a[k] == old(a[k])
    {
      a[i], a[a.Length - 1 - i] := a[a.Length - 1 - i], a[i];
      i := i + 1;
    }
  }

  /** generateTimeSeries: pushes one record per hour going back from the reference time, looking
      the sensor up in each iteration, and returns the array reversed so that it runs forward in
      time. */
  method GenerateTimeSeries(sensors: seq<MonitoringSensor>, sensorId: string, hours: nat,
                            value: nat -> real, temperature: nat -> real)
    returns (records: seq<MonitoringRecord>)
    ensures records == TimeSeries(sensors, sensorId, hours, value, temperature)
  {
    var pushed: seq<MonitoringRecord> := [];
    for i := 0 to hours
      invariant pushed == Pushed(LookupSensor(sensors, sensorId), sensorId, i, value, temperature)
    {
      var sensor := LookupSensor(sensors, sensorId);
      var status := Normal;
      if sensor.Some? {
        if Abs(value(i)) >= sensor.value.dangerThreshold {
          status := Danger;
        } else if Abs(value(i)) >= sensor.value.warningThreshold {
          status := Warning;
        }
      }
      pushed := pushed + [MonitoringRecord(sensorId + "_" + NatToString(i), sensorId, Now - i * HourMs,
                                           value(i), status, Some(temperature(i)))];
    }
    var a := new MonitoringRecord[|pushed|](k requires 0 <= k < |pushed| => pushed[k]);
    ReverseInPlace(a);
    records := a[..];
  }

  /** getDamById: the first dam with the id, or None. */
  function GetDamById(dams: seq<Dam>, id: string): (r: Option<Dam>)
    ensures r.None? <==> forall i :: 0 <= i < |dams| ==> dams[i].id != id
    ensures r.Some? ==> exists i :: 0 <= i < |dams| && dams[i] == r.value && r.value.id == id
                                    && forall j :: 0 <= j < i ==> dams[j].id != id
  {
    Seqs.Find(dams, (d: Dam) => d.id == id)
  }

  /** getSensorsByDam: exactly the sensors of the dam, in order. */
  function GetSensorsByDam(sensors: seq<MonitoringSensor>, damId: string): (r: seq<MonitoringSensor>)
    ensures forall s :: s in r <==> s in sensors && s.damId == damId
    ensures forall s :: multiset(r)[s] == if s.damId == damId then multiset(sensors)[s] else 0
    ensures Seqs.IsSubsequence(r, sensors)
  {
    Seqs.Filter(sensors, (s: MonitoringSensor) => s.damId == damId)
  }

  /** getRecordsBySensor: exactly the records of the sensor, in order. */
  function GetRecordsBySensor(records: seq<MonitoringRecord>, sensorId: string): (r: seq<MonitoringRecord>)
    ensures forall x :: x in r <==> x in records && x.sensorId == sensorId
    ensures forall x :: multiset(r)[x] == if x.sensorId == sensorId then multiset(records)[x] else 0
    ensures Seqs.IsSubsequence(r, records)
  {
    Seqs.Filter(records, (x: MonitoringRecord) => x.sensorId == sensorId)
  }

  /** getLatestRecord: the last record of the sensor in table order, or None when it has none. */
  function GetLatestRecord(records: seq<MonitoringRecord>, sensorId: string): (r: Option<MonitoringRecord>)
    ensures r.None? <==> forall i :: 0 <= i < |records| ==> records[i].sensorId != sensorId
    ensures r.Some? ==> exists i :: 0 <= i < |records| && records[i] == r.value && r.value.sensorId == sensorId
                                    && forall j :: i < j < |records| ==> records[j].sensorId != sensorId
  {
    var rs := GetRecordsBySensor(records, sensorId);
    if |rs| > 0 then
      Seqs.FilterLast(records, (x: MonitoringRecord) => x.sensorId == sensorId);
      Some(rs[|rs| - 1])
    else
      assert forall i :: 0 <= i < |records| ==> records[i] !in rs;
      None
  }
}
