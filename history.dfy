/** The swing-history table: the selected swings' columns Date, Speed, Angle, Dist and Course,
    newest day first and, within a day, fastest first. */
module History {
  import opened Wrappers
  import opened Swings
  import Seqs

  /** One line of the table (the Player column is not shown). */
  datatype HistoryRow = HistoryRow(date: Date, speed: Option<real>, angle: Option<real>, dist: Option<real>, course: Option<int>)

  function ToRow(x: Swing): HistoryRow
  {
    HistoryRow(x.date, x.speed, x.angle, x.dist, x.course)
  }

  /** `p_df[['Date', 'Speed', 'Angle', 'Dist', 'Course']]`, in selection order. */
  function Project(sel: seq<Swing>): (r: seq<HistoryRow>)
    ensures |r| == |sel|
    ensures forall i :: 0 <= i < |sel| ==> r[i] == ToRow(sel[i])
  {
    if sel == [] then [] else [ToRow(sel[0])] + Project(sel[1..])
  }

  /** Speed order within one day: faster first, a missing speed after every present one. */
  predicate SpeedAbove(a: Option<real>, b: Option<real>)
  {
    match a
    case None => false
    case Some(u) =>
      match b
      case None => true
      case Some(v) => u > v
  }

  /** `a` goes strictly before `b` under `sort_values(['Date', 'Speed'], ascending=[False, False])`. */
  predicate Precedes(a: HistoryRow, b: HistoryRow)
  {
    a.date > b.date || (a.date == b.date && SpeedAbove(a.speed, b.speed))
  }

  /** Two rows the sort keys cannot tell apart. */
  predicate SameKey(a: HistoryRow, b: HistoryRow)
  {
    a.date == b.date && a.speed == b.speed
  }

  /** The key order is a strict weak order: never both ways, and neither way exactly for
      rows with the same key; "not after" is transitive. */
  lemma {:induction false} KeyOrder(a: HistoryRow, b: HistoryRow, c: HistoryRow)
    ensures !(Precedes(a, b) && Precedes(b, a))
    ensures !Precedes(a, b) && !Precedes(b, a) <==> SameKey(a, b)
    ensures !Precedes(b, a) && !Precedes(c, b) ==> !Precedes(c, a)
  {
  }

  predicate InHistoryOrder(t: seq<HistoryRow>)
  {
    forall i, j :: 0 <= i < j < |t| ==> !Precedes(t[j], t[i])
  }

  /** Places `x` after the rows that go strictly before it and before all others, so that a
      row from earlier in the input stays ahead of a later row with the same key. */
  function Insert(x: HistoryRow, t: seq<HistoryRow>): seq<HistoryRow>
  {
    if t == [] then [x]
    else if Precedes(t[0], x) then [t[0]] + Insert(x, t[1..])
    else [x] + t
  }

  /** A row that no row of an ordered table goes strictly before can head that table. */
  lemma {:induction false} ConsOrdered(h: HistoryRow, t: seq<HistoryRow>)
    requires InHistoryOrder(t)
    requires forall y :: y in t ==> !Precedes(y, h)
    ensures InHistoryOrder([h] + t)
  {
    var r := [h] + t;
    forall i, j | 0 <= i < j < |r| ensures !Precedes(r[j], r[i]) {
      assert r[j] == t[j - 1];
      if i > 0 {
        assert r[i] == t[i - 1];
      } else {
        assert r[j] in t;
      }
    }
  }

  /** Inserting into an ordered table keeps it ordered and adds exactly `x`. */
  lemma {:induction false} InsertOrdered(x: HistoryRow, t: seq<HistoryRow>)
    requires InHistoryOrder(t)
    ensures InHistoryOrder(Insert(x, t))
    ensures multiset(Insert(x, t)) == multiset(t) + multiset{x}
  {
    if t == [] {
      assert Insert(x, t) == [x] + t;
      ConsOrdered(x, t);
    } else if Precedes(t[0], x) {
      var tail := t[1..];
      var rest := Insert(x, tail);
      assert InHistoryOrder(tail);
      InsertOrdered(x, tail);
      assert t == [t[0]] + tail;
      forall y | y in rest ensures !Precedes(y, t[0]) {
        assert y in multiset(rest);
        if y == x {
          KeyOrder(t[0], x, x);
        } else {
          assert y in tail;
          var k :| 0 <= k < |tail| && tail[k] == y;
          assert t[k + 1] == y;
        }
      }
      ConsOrdered(t[0], rest);
      assert Insert(x, t) == [t[0]] + rest;
    } else {
      forall y | y in t ensures !Precedes(y, x) {
        var j :| 0 <= j < |t| && t[j] == y;
        KeyOrder(x, t[0], t[j]);
      }
      ConsOrdered(x, t);
      assert Insert(x, t) == [x] + t;
    }
  }

  function SortRows(t: seq<HistoryRow>): (r: seq<HistoryRow>)
    ensures InHistoryOrder(r)
    ensures multiset(r) == multiset(t)
  {
    if t == [] then []
    else
      assert t == [t[0]] + t[1..];
      InsertOrdered(t[0], SortRows(t[1..]));
      Insert(t[0], SortRows(t[1..]))
  }

  /** `hist`: the selected swings' rows, newest day first, fastest first within a day,
      rows without a speed last within their day. */
  function SwingHistory(sel: seq<Swing>): (r: seq<HistoryRow>)
    ensures InHistoryOrder(r)
    ensures multiset(r) == multiset(Project(sel))
    ensures |r| == |sel|
  {
    var r := SortRows(Project(sel));
    assert |r| == |multiset(r)| == |multiset(Project(sel))| == |sel|;
    r
  }

  /** The rows whose keys are (`date`, `speed`), in order. */
  function WithKey(t: seq<HistoryRow>, date: Date, speed: Option<real>): seq<HistoryRow>
  {
    if t == [] then []
    else (if t[0].date == date && t[0].speed == speed then [t[0]] else []) + WithKey(t[1..], date, speed)
  }

  lemma {:induction false} WithKeyCons(y: HistoryRow, t: seq<HistoryRow>, date: Date, speed: Option<real>)
    ensures WithKey([y] + t, date, speed) == WithKey([y], date, speed) + WithKey(t, date, speed)
  {
    assert ([y] + t)[1..] == t;
    assert [y][1..] == [];
  }

  lemma {:induction false} PrecedesDiffersInKey(a: HistoryRow, b: HistoryRow)
    requires Precedes(a, b)
    ensures !SameKey(a, b)
  {
  }

  lemma {:induction false} InsertWithKey(x: HistoryRow, t: seq<HistoryRow>, date: Date, speed: Option<real>)
    ensures WithKey(Insert(x, t), date, speed) == WithKey([x], date, speed) + WithKey(t, date, speed)
  {
    if t == [] {
      assert Insert(x, t) == [x] + t;
      WithKeyCons(x, t, date, speed);
    } else if Precedes(t[0], x) {
      var rest := t[1..];
      assert t == [t[0]] + rest;
      InsertWithKey(x, rest, date, speed);
      WithKeyCons(t[0], Insert(x, rest), date, speed);
      WithKeyCons(t[0], rest, date, speed);
      PrecedesDiffersInKey(t[0], x);
      var wh, wx, wr := WithKey([t[0]], date, speed), WithKey([x], date, speed), WithKey(rest, date, speed);
      assert [t[0]][1..] == [] && [x][1..] == [];
      assert wh == [] || wx == [];
      assert wh + (wx + wr) == wx + (wh + wr);
    } else {
      WithKeyCons(x, t, date, speed);
    }
  }

  /** The sort is stable: the rows sharing one key keep their selection order. */
  lemma {:induction false} HistoryStable(sel: seq<Swing>, date: Date, speed: Option<real>)
    ensures WithKey(SwingHistory(sel), date, speed) == WithKey(Project(sel), date, speed)
  {
    SortStable(Project(sel), date, speed);
  }

  lemma {:induction false} SortStable(t: seq<HistoryRow>, date: Date, speed: Option<real>)
    ensures WithKey(SortRows(t), date, speed) == WithKey(t, date, speed)
  {
    if t != [] {
      var tail := t[1..];
      SortStable(tail, date, speed);
      InsertWithKey(t[0], SortRows(tail), date, speed);
      assert SortRows(t) == Insert(t[0], SortRows(tail));
      assert t == [t[0]] + tail;
      WithKeyCons(t[0], tail, date, speed);
    }
  }
}
