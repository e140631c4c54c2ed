/** One tracked swing (a row of the batting frame) and the per-swing barrel classification. */
module Swings {
  import opened Wrappers
  import Seqs

  /** A calendar day, as a day number; later days are larger. */
  type Date = int

  /** A row with columns Player, Date, Speed (km/h), Angle (degrees), Dist (m) and
      Course (zone 1..9). A missing cell is `None`. */
  datatype Swing = Swing(
    player: string,
    date: Date,
    speed: Option<real>,
    angle: Option<real>,
    dist: Option<real>,
    course: Option<int>)

  const BarrelSpeed: real := 140.0
  const BarrelMinAngle: real := 10.0
  const BarrelMaxAngle: real := 30.0

  /** `Speed >= 140` and `Angle.between(10, 30)`: both bounds inclusive, and a comparison
      with a missing value is false. */
  predicate IsBarrel(x: Swing)
  {
    (match x.speed
     case Some(v) => v >= BarrelSpeed
     case None => false)
    &&
    (match x.angle
     case Some(a) => BarrelMinAngle <= a <= BarrelMaxAngle
     case None => false)
  }

  /** Boundary values: 140 km/h and 10 and 30 degrees are barrels; 139.9 km/h, 9.9 and
      30.1 degrees and a missing speed or angle are not. */
  lemma {:induction false} BarrelBoundaries(p: string, d: Date)
    ensures IsBarrel(Swing(p, d, Some(140.0), Some(30.0), None, None))
    ensures IsBarrel(Swing(p, d, Some(140.0), Some(10.0), None, None))
    ensures !IsBarrel(Swing(p, d, Some(139.9), Some(20.0), None, None))
    ensures !IsBarrel(Swing(p, d, Some(150.0), Some(30.1), None, None))
    ensures !IsBarrel(Swing(p, d, Some(150.0), Some(9.9), None, None))
    ensures !IsBarrel(Swing(p, d, Some(150.0), None, None, None))
    ensures !IsBarrel(Swing(p, d, None, Some(20.0), None, None))
  {
  }

  /** The row has a speed (its Speed cell is not missing). */
  predicate HasSpeed(x: Swing)
  {
    x.speed.Some?
  }

  /** The Speed column without its missing cells, in row order. */
  function Speeds(s: seq<Swing>): (r: seq<real>)
    ensures |r| <= |s|
  {
    if s == [] then []
    else
      (match s[0].speed
       case Some(v) => [v]
       case None => []) + Speeds(s[1..])
  }

  /** The Speed column holds one value for each row that has a speed. */
  lemma {:induction false} SpeedsCount(s: seq<Swing>)
    ensures |Speeds(s)| == |Seqs.Filter(s, HasSpeed)|
  {
    if s != [] {
      SpeedsCount(s[1..]);
    }
  }

  /** The Speed column is the speeds of the rows that have one, in row order: its k-th value
      is the speed of the k-th such row. With SpeedsCount this fixes the column exactly. */
  lemma {:induction false} SpeedsInRowOrder(s: seq<Swing>)
    ensures var rows := Seqs.Filter(s, HasSpeed);
      |Speeds(s)| == |rows| &&
      forall k :: 0 <= k < |rows| ==> rows[k].speed == Some(Speeds(s)[k])
  {
    if s != [] {
      SpeedsInRowOrder(s[1..]);
      var rows, tail := Seqs.Filter(s, HasSpeed), Seqs.Filter(s[1..], HasSpeed);
      if HasSpeed(s[0]) {
        assert rows == [s[0]] + tail;
        assert Speeds(s) == [s[0].speed.value] + Speeds(s[1..]);
      } else {
        assert rows == tail;
        assert Speeds(s) == Speeds(s[1..]);
      }
    }
  }

  /** A value is in the Speed column exactly when some row carries it. */
  lemma {:induction false} SpeedsMembers(s: seq<Swing>)
    ensures forall x :: x in s && x.speed.Some? ==> x.speed.value in Speeds(s)
    ensures forall v :: v in Speeds(s) ==> exists x :: x in s && x.speed == Some(v)
  {
    if s != [] {
      SpeedsMembers(s[1..]);
      assert s == [s[0]] + s[1..];
    }
  }

  lemma {:induction false} SpeedsAppend(a: seq<Swing>, b: seq<Swing>)
    ensures Speeds(a + b) == Speeds(a) + Speeds(b)
  {
    if a == [] {
      assert a + b == b;
    } else {
      assert (a + b)[1..] == a[1..] + b;
      SpeedsAppend(a[1..], b);
    }
  }

  /** Reordering the rows reorders the Speed column and nothing more. */
  lemma {:induction false} SpeedsPermutation(a: seq<Swing>, b: seq<Swing>)
    requires multiset(a) == multiset(b)
    ensures multiset(Speeds(a)) == multiset(Speeds(b))
    decreases |a|
  {
    if a == [] {
      assert |multiset(b)| == 0;
      assert b == [];
    } else {
      assert a[0] in multiset(b);
      var i :| 0 <= i < |b| && b[i] == a[0];
      var rest := b[..i] + b[i + 1..];
      Seqs.MultisetRemoveAt(a, b, i);
      SpeedsPermutation(a[1..], rest);
      SpeedsRemoveAt(a, 0);
      SpeedsRemoveAt(b, i);
      assert a[..0] + a[1..] == a[1..];
    }
  }

  /** Taking out the row at `i` takes its speed (if any) out of the column. */
  lemma {:induction false} SpeedsRemoveAt(b: seq<Swing>, i: nat)
    requires i < |b|
    ensures multiset(Speeds(b)) == multiset(Speeds([b[i]])) + multiset(Speeds(b[..i] + b[i + 1..]))
  {
    var left, mid, right := b[..i], [b[i]], b[i + 1..];
    assert b == left + (mid + right);
    SpeedsAppend(left, mid + right);
    SpeedsAppend(mid, right);
    SpeedsAppend(left, right);
    var sl, sm, sr := Speeds(left), Speeds(mid), Speeds(right);
    assert multiset(sl + (sm + sr)) == multiset(sl) + multiset(sm) + multiset(sr);
    assert multiset(sl + sr) == multiset(sl) + multiset(sr);
  }

  /** The Date column, in row order. */
  function Dates(s: seq<Swing>): (r: seq<Date>)
    ensures |r| == |s|
    ensures forall i :: 0 <= i < |s| ==> r[i] == s[i].date
  {
    if s == [] then [] else [s[0].date] + Dates(s[1..])
  }
}
