/** Alert rules and alert instances: the id lookup, the filters over alert instances and the
    level table (src/mock/alertRules.ts). The rule and instance tables are fixtures and are taken
    as parameters. */
module AlertRules {
  import opened Wrappers
  import Seqs

  datatype AlertLevel = Blue | Yellow | Orange | Red
  datatype AlertCategory = Flood | Rainfall | WaterLevel | Dam | Drought | WaterQuality | Ice
  datatype AlertStatus = Active | Acknowledged | Resolved | Expired

  /** The fields of an AlertRule that the lookups use; the thresholds, targets and notification
      settings only travel with the record. */
  datatype AlertRule = AlertRule(id: string, name: string, category: AlertCategory, metric: string,
                                 enabled: bool, priority: int, cooldownMinutes: nat)

  datatype AlertInstance = AlertInstance(id: string, ruleId: string, level: AlertLevel,
                                         category: AlertCategory, title: string, targetId: string,
                                         triggerValue: real, threshold: real, status: AlertStatus)

  datatype LevelInfo = LevelInfo(name: string, color: string, bgColor: string, description: string)

  /** AlertLevelInfo: display name, colours and response grade of each level. */
  const AlertLevelInfo: map<AlertLevel, LevelInfo> := map[
    Blue := LevelInfo("蓝色预警", "#1890ff", "rgba(24,144,255,0.1)", "IV级，一般"),
    Yellow := LevelInfo("黄色预警", "#faad14", "rgba(250,173,20,0.1)", "III级，较重"),
    Orange := LevelInfo("橙色预警", "#fa8c16", "rgba(250,140,22,0.1)", "II级，严重"),
    Red := LevelInfo("红色预警", "#f5222d", "rgba(245,34,45,0.1)", "I级，特别严重")
  ]

  /** Every level has an entry, and the table has no other keys. */
  lemma AlertLevelInfoComplete()
    ensures forall l: AlertLevel :: l in AlertLevelInfo
    ensures AlertLevelInfo.Keys == {Blue, Yellow, Orange, Red}
  {
    forall l: AlertLevel ensures l in AlertLevelInfo {
      match l
      case Blue =>
      case Yellow =>
      case Orange =>
      case Red =>
    }
  }

  /** getRuleById: the first rule with the id, or None (`undefined`). */
  function GetRuleById(rules: seq<AlertRule>, id: string): (r: Option<AlertRule>)
    ensures r.None? <==> forall i :: 0 <= i < |rules| ==> rules[i].id != id
    ensures r.Some? ==> exists i :: 0 <= i < |rules| && rules[i] == r.value && r.value.id == id
                                    && forall j :: 0 <= j < i ==> rules[j].id != id
  {
    Seqs.Find(rules, (x: AlertRule) => x.id == id)
  }

  /** getActiveAlerts: exactly the instances whose status is active, in order. */
  function GetActiveAlerts(alerts: seq<AlertInstance>): (r: seq<AlertInstance>)
    ensures forall a :: a in r <==> a in alerts && a.status == Active
    ensures forall a :: multiset(r)[a] == if a.status == Active then multiset(alerts)[a] else 0
    ensures Seqs.IsSubsequence(r, alerts)
  {
    Seqs.Filter(alerts, (a: AlertInstance) => a.status == Active)
  }

  /** getAlertsByLevel: exactly the instances of the level, in order. */
  function GetAlertsByLevel(alerts: seq<AlertInstance>, level: AlertLevel): (r: seq<AlertInstance>)
    ensures forall a :: a in r <==> a in alerts && a.level == level
    ensures forall a :: multiset(r)[a] == if a.level == level then multiset(alerts)[a] else 0
    ensures Seqs.IsSubsequence(r, alerts)
  {
    Seqs.Filter(alerts, (a: AlertInstance) => a.level == level)
  }

  /** getAlertsByCategory: exactly the instances of the category, in order. */
  function GetAlertsByCategory(alerts: seq<AlertInstance>, category: AlertCategory): (r: seq<AlertInstance>)
    ensures forall a :: a in r <==> a in alerts && a.category == category
    ensures forall a :: multiset(r)[a] == if a.category == category then multiset(alerts)[a] else 0
    ensures Seqs.IsSubsequence(r, alerts)
  {
    Seqs.Filter(alerts, (a: AlertInstance) => a.category == category)
  }

  /** The four level filters split the instances: every instance is in exactly one of them. */
  lemma LevelsPartition(alerts: seq<AlertInstance>)
    ensures |GetAlertsByLevel(alerts, Blue)| + |GetAlertsByLevel(alerts, Yellow)|
            + |GetAlertsByLevel(alerts, Orange)| + |GetAlertsByLevel(alerts, Red)| == |alerts|
  {
    var m := multiset(alerts);
    var b := GetAlertsByLevel(alerts, Blue);
    var y := GetAlertsByLevel(alerts, Yellow);
    var o := GetAlertsByLevel(alerts, Orange);
    var r := GetAlertsByLevel(alerts, Red);
    assert multiset(b) + multiset(y) + multiset(o) + multiset(r) == m;
    assert |multiset(b + y + o + r)| == |m|;
  }
}
