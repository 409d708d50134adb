/**
 * The per-server stage table: which stage (level) a cycle belongs to, and the
 * full health of the five bosses at each level.
 */
module Stage {

  /** The closed range [lo, hi] of cycles one stage covers. */
  datatype Range = Range(lo: int, hi: int) {
    predicate Covers(cycle: int) {
      lo <= cycle <= hi
    }
  }

  /** `ranges` is the server's level_by_cycle list; `health[lv]` the five full-health values of level lv. */
  datatype StageTable = StageTable(ranges: seq<Range>, health: seq<seq<nat>>)

  /** Every level the lookup can return (including "past every range") has a five-boss health row. */
  predicate WellFormed(t: StageTable) {
    && |t.health| > |t.ranges|
    && forall lv :: 0 <= lv < |t.health| ==> |t.health[lv]| == 5
  }

  /** Every boss of every level starts with some health. */
  predicate PositiveHealth(t: StageTable) {
    forall lv, i :: 0 <= lv < |t.health| && 0 <= i < |t.health[lv]| ==> t.health[lv][i] > 0
  }

  /** The level of `cycle`: the index of the first range covering it, or the number of ranges if none does. */
  function Level(ranges: seq<Range>, cycle: int): (lv: nat)
    ensures lv <= |ranges|
    ensures lv < |ranges| ==> ranges[lv].Covers(cycle)
    ensures forall i :: 0 <= i < lv ==> !ranges[i].Covers(cycle)
  {
    if |ranges| == 0 then 0
    else if ranges[0].Covers(cycle) then 0
    else 1 + Level(ranges[1..], cycle)
  }

  /** _level_by_cycle: walks the ranges, counting, and stops at the first one that covers `cycle`. */
  method LevelByCycle(ranges: seq<Range>, cycle: int) returns (level: nat)
    ensures level == Level(ranges, cycle)
    ensures level < |ranges| <==> exists i :: 0 <= i < |ranges| && ranges[i].Covers(cycle)
  {
    level := 0;
    while level < |ranges|
      invariant level <= |ranges|
      invariant forall i :: 0 <= i < level ==> !ranges[i].Covers(cycle)
    {
      if ranges[level].Covers(cycle) {
        return;
      }
      level := level + 1;
    }
  }

  /** The five full-health values of the bosses in `cycle`. */
  function FullHealth(t: StageTable, cycle: int): (h: seq<nat>)
    requires WellFormed(t)
    ensures |h| == 5
  {
    t.health[Level(t.ranges, cycle)]
  }

  /** The full health of a cycle is the row of the first range covering it, or the row past the last range when none does. */
  lemma FullHealthRow(t: StageTable, cycle: int)
    requires WellFormed(t)
    ensures forall i :: 0 <= i < |t.ranges| && t.ranges[i].Covers(cycle) && (forall j :: 0 <= j < i ==> !t.ranges[j].Covers(cycle))
              ==> FullHealth(t, cycle) == t.health[i]
    ensures (forall i :: 0 <= i < |t.ranges| ==> !t.ranges[i].Covers(cycle)) ==> FullHealth(t, cycle) == t.health[|t.ranges|]
  {
  }
}
