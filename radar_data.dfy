/** Radar reflectivity (dBZ) to precipitation-intensity label
    (src/mock/radarData.ts, getDbzLevel). */
module RadarData {
  import Seqs

  /** The five labels, from lightest to heaviest. */
  const DbzLabels: seq<string> := ["无降水", "小雨", "中雨", "大雨", "暴雨/冰雹"]

  /** Lower bounds (inclusive) of the four labels after the first. */
  const DbzBoundaries: seq<real> := [15.0, 30.0, 40.0, 50.0]

  function DbzLevel(dbz: real): (level: string)
    ensures level in DbzLabels
  {
    if dbz < 15.0 then "无降水"
    else if dbz < 30.0 then "小雨"
    else if dbz < 40.0 then "中雨"
    else if dbz < 50.0 then "大雨"
    else "暴雨/冰雹"
  }

  /** Position of a label on the lightest-to-heaviest scale. */
  function Severity(name: string): (rank: nat)
    ensures name in DbzLabels ==> rank < |DbzLabels| && DbzLabels[rank] == name
  {
    if name == DbzLabels[0] then 0
    else if name == DbzLabels[1] then 1
    else if name == DbzLabels[2] then 2
    else if name == DbzLabels[3] then 3
    else 4
  }

  /** How many band boundaries a reading has reached. */
  function BoundariesReached(dbz: real): (n: nat)
    ensures n <= |DbzBoundaries|
  {
    Seqs.Count(DbzBoundaries, (b: real) => b <= dbz)
  }

  /** The label is the one indexed by the number of boundaries reached: every boundary belongs
      to the heavier band above it, and readings below 15 are 无降水. */
  lemma DbzLevelIsBand(dbz: real)
    ensures DbzLevel(dbz) == DbzLabels[BoundariesReached(dbz)]
    ensures Severity(DbzLevel(dbz)) == BoundariesReached(dbz)
  {
    var p := (b: real) => b <= dbz;
    var bs := DbzBoundaries;
    assert bs[1..] == [30.0, 40.0, 50.0];
    assert bs[1..][1..] == [40.0, 50.0];
    assert bs[1..][1..][1..] == [50.0];
    assert bs[1..][1..][1..][1..] == [];
    assert Seqs.Count(bs, p) == (if p(15.0) then 1 else 0) + (if p(30.0) then 1 else 0)
                                + (if p(40.0) then 1 else 0) + (if p(50.0) then 1 else 0);
  }

  /** A stronger echo never yields a lighter label. */
  lemma DbzLevelMonotone(a: real, b: real)
    requires a <= b
    ensures Severity(DbzLevel(a)) <= Severity(DbzLevel(b))
  {
    DbzLevelIsBand(a);
    DbzLevelIsBand(b);
    Seqs.CountMonotone(DbzBoundaries, (t: real) => t <= a, (t: real) => t <= b);
  }
}
