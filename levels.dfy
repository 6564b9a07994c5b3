/**
 * The level table of the progression engine and the scan that turns a
 * point total into a level (index.js, LEVELS and calculateLevel).
 */
module Levels {
  import opened Optional

  /** One row of the level table: a level and the fewest points that reach it. */
  datatype LevelEntry = LevelEntry(level: int, min: int)

  /** The fixed table, ascending in both columns. */
  const LEVELS: seq<LevelEntry> := [
    LevelEntry(1, 0),
    LevelEntry(2, 50),
    LevelEntry(3, 120),
    LevelEntry(4, 250),
    LevelEntry(5, 500)
  ]

  /** Both the levels and their minimums strictly increase down the table. */
  predicate Ascending(table: seq<LevelEntry>) {
    forall i, j :: 0 <= i < j < |table| ==> table[i].min < table[j].min && table[i].level < table[j].level
  }

  /** The entry nearest the end of `table` whose minimum `points` reaches, if there is one. */
  function LastReached(table: seq<LevelEntry>, points: int): (r: Option<LevelEntry>)
    ensures r.Some? ==> r.value in table && r.value.min <= points
    ensures r.None? ==> forall e :: e in table ==> points < e.min
  {
    if table == [] then None
    else if table[|table| - 1].min <= points then Some(table[|table| - 1])
    else
      assert table == table[..|table| - 1] + [table[|table| - 1]];
      LastReached(table[..|table| - 1], points)
  }

  /** The level an entry found by the scan gives; 1 when no entry was reached. */
  function LevelOf(found: Option<LevelEntry>): int {
    match found
    case None => 1
    case Some(e) => e.level
  }

  /**
   * The level for a point total: that of the last table entry whose minimum
   * the total reaches, or the starting level 1 if it reaches none.
   */
  function LevelFor(points: int): (r: int)
    ensures 1 <= r <= 5
    ensures points < LEVELS[1].min ==> r == 1
  {
    LevelOf(LastReached(LEVELS, points))
  }

  /**
   * calculateLevel: start at 1 and walk the table, keeping the level of every
   * entry whose minimum the points reach, so the last such entry wins.
   */
  method CalculateLevel(points: int) returns (current: int)
    ensures current == LevelFor(points)
  {
    current := 1;
    for k := 0 to |LEVELS|
      invariant current == LevelOf(LastReached(LEVELS[..k], points))
    {
      assert LEVELS[..k + 1][..k] == LEVELS[..k];
      if points >= LEVELS[k].min {
        current := LEVELS[k].level;
      }
    }
    assert LEVELS[..|LEVELS|] == LEVELS;
  }

  lemma LevelsAscending()
    ensures Ascending(LEVELS)
  {
  }

  /** In an ascending table, every entry reached has a level no higher than the last one reached. */
  lemma {:induction false} LastReachedIsHighest(table: seq<LevelEntry>, points: int, i: int)
    requires Ascending(table)
    requires 0 <= i < |table| && table[i].min <= points
    ensures LastReached(table, points).Some?
    ensures table[i].level <= LastReached(table, points).value.level
  {
    var n := |table| - 1;
    if table[n].min > points {
      assert i < n;
      LastReachedIsHighest(table[..n], points, i);
    }
  }

  /**
   * LevelFor is exactly "the highest table level whose minimum is at most the
   * points": every reached level is at most it, and for any non-negative
   * total it is itself a reached level.
   */
  lemma LevelForIsHighestReached(points: int)
    ensures forall i :: 0 <= i < |LEVELS| && LEVELS[i].min <= points ==> LEVELS[i].level <= LevelFor(points)
    ensures points >= 0 ==> exists i :: 0 <= i < |LEVELS| && LEVELS[i].min <= points && LEVELS[i].level == LevelFor(points)
  {
    LevelsAscending();
    forall i | 0 <= i < |LEVELS| && LEVELS[i].min <= points
      ensures LEVELS[i].level <= LevelFor(points)
    {
      LastReachedIsHighest(LEVELS, points, i);
    }
    if points >= 0 {
      LastReachedIsHighest(LEVELS, points, 0);
      var e := LastReached(LEVELS, points).value;
      var i :| 0 <= i < |LEVELS| && LEVELS[i] == e;
      assert LEVELS[i].min <= points && LEVELS[i].level == LevelFor(points);
    }
  }

  /** More points never give a lower level. */
  lemma LevelForMonotone(p: int, q: int)
    requires p <= q
    ensures LevelFor(p) <= LevelFor(q)
  {
    match LastReached(LEVELS, p)
    case None =>
    case Some(e) =>
      var i :| 0 <= i < |LEVELS| && LEVELS[i] == e;
      LevelsAscending();
      LastReachedIsHighest(LEVELS, q, i);
  }

  /** The table written out as thresholds: an independent reference for LevelFor. */
  lemma LevelForThresholds(points: int)
    ensures LevelFor(points) ==
      if points >= 500 then 5
      else if points >= 250 then 4
      else if points >= 120 then 3
      else if points >= 50 then 2
      else 1
  {
    var t4, t3, t2, t1 := LEVELS[..4], LEVELS[..3], LEVELS[..2], LEVELS[..1];
    assert t4[..3] == t3 && t3[..2] == t2 && t2[..1] == t1 && t1[..0] == [];
    assert LastReached(LEVELS, points) == if points >= 500 then Some(LEVELS[4]) else LastReached(t4, points);
    assert LastReached(t4, points) == if points >= 250 then Some(LEVELS[3]) else LastReached(t3, points);
    assert LastReached(t3, points) == if points >= 120 then Some(LEVELS[2]) else LastReached(t2, points);
    assert LastReached(t2, points) == if points >= 50 then Some(LEVELS[1]) else LastReached(t1, points);
    assert LastReached(t1, points) == if points >= 0 then Some(LEVELS[0]) else None;
  }

  /**
   * Consecutive minimums are at least 50 apart, so a change of fewer than 50
   * points moves the level by at most one.
   */
  lemma LevelForStep(p: int, d: int)
    requires 0 <= d < 50
    ensures LevelFor(p) <= LevelFor(p + d) <= LevelFor(p) + 1
  {
    LevelForThresholds(p);
    LevelForThresholds(p + d);
  }
}
