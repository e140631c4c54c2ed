/** The course heat map: mean speed and sample count per strike-zone cell, zones 1..9
    laid out row-major on a 3x3 grid (1 top-left, 9 bottom-right). */
module CourseGrid {
  import opened Wrappers
  import opened Swings
  import opened Stats
  import Seqs
  import Metrics

  /** The swings whose Course is `c` (one group of `groupby('Course')`). */
  function CourseSwings(sel: seq<Swing>, c: int): (r: seq<Swing>)
    ensures forall x :: multiset(r)[x] == if x.course == Some(c) then multiset(sel)[x] else 0
  {
    var keep := (x: Swing) => x.course == Some(c);
    Seqs.FilterMultiset(sel, keep);
    Seqs.Filter(sel, keep)
  }

  /** Zone `c`'s entry of `groupby('Course')['Speed'].mean()`, after `reindex`: missing when
      no swing went to `c` or none of them has a speed. */
  function CourseMean(sel: seq<Swing>, c: int): Option<real>
  {
    Mean(Speeds(CourseSwings(sel, c)))
  }

  /** Zone `c`'s entry of `groupby('Course')['Speed'].count()`, after `reindex`: missing when
      no swing went to `c`, otherwise the number of those swings that have a speed. */
  function CourseCount(sel: seq<Swing>, c: int): Option<nat>
  {
    if CourseSwings(sel, c) == [] then None else Some(|Speeds(CourseSwings(sel, c))|)
  }

  /** The cell of zone `c`: row `(c - 1) / 3`, column `(c - 1) % 3`. Every zone has its own
      cell and every cell its zone. */
  function CellOf(c: int): (cell: (int, int))
    requires 1 <= c <= 9
    ensures 0 <= cell.0 < 3 && 0 <= cell.1 < 3
    ensures 3 * cell.0 + cell.1 + 1 == c
  {
    ((c - 1) / 3, (c - 1) % 3)
  }

  /** `.values.reshape(3, 3)`: nine values, row-major. */
  function Reshape<T>(v: seq<T>): (m: seq<seq<T>>)
    requires |v| == 9
    ensures |m| == 3 && forall i :: 0 <= i < 3 ==> |m[i]| == 3
    ensures forall i, j :: 0 <= i < 3 && 0 <= j < 3 ==> m[i][j] == v[3 * i + j]
  {
    [v[0..3], v[3..6], v[6..9]]
  }

  predicate IsGrid<T>(m: seq<seq<T>>)
  {
    |m| == 3 && forall i :: 0 <= i < 3 ==> |m[i]| == 3
  }

  /** The values of zones 1..9, in order (`reindex(range(1, 10))`). */
  function Zones<T>(f: int -> T): (z: seq<T>)
    ensures |z| == 9 && forall k :: 0 <= k < 9 ==> z[k] == f(k + 1)
  {
    seq(9, k => f(k + 1))
  }

  /** The means of zones 1..9, in order. */
  function MeanZones(sel: seq<Swing>): (z: seq<Option<real>>)
    ensures |z| == 9 && forall k :: 0 <= k < 9 ==> z[k] == CourseMean(sel, k + 1)
  {
    Zones(c => CourseMean(sel, c))
  }

  /** The counts of zones 1..9, in order. */
  function CountZones(sel: seq<Swing>): (z: seq<Option<nat>>)
    ensures |z| == 9 && forall k :: 0 <= k < 9 ==> z[k] == CourseCount(sel, k + 1)
  {
    Zones(c => CourseCount(sel, c))
  }

  /** `course_stats`: the mean-speed matrix. */
  function MeanGrid(sel: seq<Swing>): (m: seq<seq<Option<real>>>)
    ensures IsGrid(m)
    ensures forall c :: 1 <= c <= 9 ==> m[CellOf(c).0][CellOf(c).1] == CourseMean(sel, c)
  {
    Reshape(MeanZones(sel))
  }

  /** `course_counts`: the sample-count matrix. */
  function CountGrid(sel: seq<Swing>): (m: seq<seq<Option<nat>>>)
    ensures IsGrid(m)
    ensures forall c :: 1 <= c <= 9 ==> m[CellOf(c).0][CellOf(c).1] == CourseCount(sel, c)
  {
    Reshape(CountZones(sel))
  }

  /** A zone's group is exactly the selected swings with that course. */
  lemma {:induction false} CourseGroup(sel: seq<Swing>, c: int)
    ensures forall x :: x in CourseSwings(sel, c) <==> x in sel && x.course == Some(c)
  {
    var group := CourseSwings(sel, c);
    forall x ensures x in group <==> x in sel && x.course == Some(c) {
      assert x in group <==> multiset(group)[x] > 0;
      assert x in sel <==> multiset(sel)[x] > 0;
    }
  }

  /** The count cell is empty exactly when no swing went to the zone (never a 0 for an empty
      zone); otherwise it counts that zone's swings that have a speed. */
  lemma {:induction false} CountCell(sel: seq<Swing>, c: int)
    ensures CourseCount(sel, c).None? <==> forall x :: x in sel ==> x.course != Some(c)
    ensures CourseCount(sel, c).Some? ==>
      CourseCount(sel, c).value == |Seqs.Filter(CourseSwings(sel, c), HasSpeed)| <= |CourseSwings(sel, c)|
  {
    var group := CourseSwings(sel, c);
    CourseGroup(sel, c);
    SpeedsCount(group);
    if group != [] {
      assert group[0] in group;
    }
  }

  /** The mean cell is empty exactly when none of the zone's swings has a speed (so always
      when the count cell is empty); otherwise it is their speed sum over the count and lies
      at or below the fastest of them. */
  lemma {:induction false} MeanCell(sel: seq<Swing>, c: int)
    ensures CourseMean(sel, c).None? <==> forall x :: x in sel && x.course == Some(c) ==> x.speed.None?
    ensures CourseCount(sel, c).None? ==> CourseMean(sel, c).None?
    ensures CourseMean(sel, c).Some? ==>
      && CourseCount(sel, c).Some?
      && CourseCount(sel, c).value > 0
      && CourseMean(sel, c).value == Sum(Speeds(CourseSwings(sel, c))) / (CourseCount(sel, c).value as real)
      && (exists y :: y in sel && y.course == Some(c) && y.speed.Some? && CourseMean(sel, c).value <= y.speed.value)
  {
    var group := CourseSwings(sel, c);
    var col := Speeds(group);
    CourseGroup(sel, c);
    Metrics.NoSpeeds(group);
    if col != [] {
      Metrics.MaxSpeed(group);
      Metrics.MeanSpeed(group);
      var mean, top := Mean(col).value, Max(col).value;
      var y :| y in group && y.speed == Some(top);
      assert y in sel && y.course == Some(c) && mean <= y.speed.value;
      assert CourseCount(sel, c) == Some(|col|);
    }
  }

  /** A course that has a cell on the grid. */
  predicate OnGrid(x: Swing)
  {
    x.course.Some? && 1 <= x.course.value <= 9
  }

  function OnGridSwings(sel: seq<Swing>): seq<Swing>
  {
    Seqs.Filter(sel, OnGrid)
  }

  lemma {:induction false} OnGridGroup(sel: seq<Swing>, c: int)
    requires 1 <= c <= 9
    ensures CourseSwings(OnGridSwings(sel), c) == CourseSwings(sel, c)
  {
    if sel != [] {
      var head, rest := [sel[0]], sel[1..];
      assert sel == head + rest;
      var kept := if OnGrid(sel[0]) then head else [];
      assert OnGridSwings(sel) == kept + OnGridSwings(rest);
      OnGridGroup(rest, c);
      var keep := (x: Swing) => x.course == Some(c);
      Seqs.FilterAppend(kept, OnGridSwings(rest), keep);
      Seqs.FilterAppend(head, rest, keep);
      if !OnGrid(sel[0]) {
        assert Seqs.Filter(head, keep) == [];
      }
    }
  }

  /** Swings whose course is missing or outside 1..9 never reach a cell: dropping them
      changes neither matrix. */
  lemma {:induction false} OffGridIgnored(sel: seq<Swing>)
    ensures MeanGrid(OnGridSwings(sel)) == MeanGrid(sel)
    ensures CountGrid(OnGridSwings(sel)) == CountGrid(sel)
  {
    var on := OnGridSwings(sel);
    forall k | 0 <= k < 9
      ensures MeanZones(on)[k] == MeanZones(sel)[k]
      ensures CountZones(on)[k] == CountZones(sel)[k]
    {
      OnGridGroup(sel, k + 1);
    }
    assert MeanZones(on) == MeanZones(sel);
    assert CountZones(on) == CountZones(sel);
  }

  /** A zone's mean and count depend only on which swings were selected, not on their order. */
  lemma {:induction false} ZonePermutation(a: seq<Swing>, b: seq<Swing>, c: int)
    requires multiset(a) == multiset(b)
    ensures CourseMean(a, c) == CourseMean(b, c)
    ensures CourseCount(a, c) == CourseCount(b, c)
  {
    var ga, gb := CourseSwings(a, c), CourseSwings(b, c);
    assert multiset(ga) == multiset(gb);
    assert |ga| == |multiset(ga)| == |multiset(gb)| == |gb|;
    SpeedsPermutation(ga, gb);
    var sa, sb := Speeds(ga), Speeds(gb);
    assert |sa| == |multiset(sa)| == |multiset(sb)| == |sb|;
    SumPermutation(sa, sb);
  }

  /** Both matrices depend only on which swings were selected, not on their order. */
  lemma {:induction false} GridPermutation(a: seq<Swing>, b: seq<Swing>)
    requires multiset(a) == multiset(b)
    ensures MeanGrid(a) == MeanGrid(b)
    ensures CountGrid(a) == CountGrid(b)
  {
    forall k | 0 <= k < 9
      ensures MeanZones(a)[k] == MeanZones(b)[k]
      ensures CountZones(a)[k] == CountZones(b)[k]
    {
      ZonePermutation(a, b, k + 1);
    }
    assert MeanZones(a) == MeanZones(b);
    assert CountZones(a) == CountZones(b);
  }
}
