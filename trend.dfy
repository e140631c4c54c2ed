/** The speed trend: mean and max speed per day over a player's whole history. */
module Trend {
  import opened Wrappers
  import opened Swings
  import opened Stats
  import Seqs
  import Metrics
  import Selection

  /** One row of `groupby('Date')['Speed'].agg(['mean', 'max'])`. */
  datatype TrendPoint = TrendPoint(date: Date, mean: Option<real>, max: Option<real>)

  /** The rows played on day `d`. */
  function DaySwings(rows: seq<Swing>, d: Date): (r: seq<Swing>)
    ensures forall x :: x in r <==> x in rows && x.date == d
    ensures forall x :: multiset(r)[x] == if x.date == d then multiset(rows)[x] else 0
  {
    var keep := (x: Swing) => x.date == d;
    Seqs.FilterMultiset(rows, keep);
    Seqs.Filter(rows, keep)
  }

  function DayPoint(rows: seq<Swing>, d: Date): TrendPoint
  {
    TrendPoint(d, Mean(Speeds(DaySwings(rows, d))), Max(Speeds(DaySwings(rows, d))))
  }

  /** `trend`: one point per group key, keys in ascending order as groupby sorts them. */
  function DailyTrend(rows: seq<Swing>): (r: seq<TrendPoint>)
    ensures |r| == |Selection.DistinctDates(rows)|
    ensures forall i :: 0 <= i < |r| ==> r[i] == DayPoint(rows, Selection.DistinctDates(rows)[i])
  {
    var days := Selection.DistinctDates(rows);
    seq(|days|, i requires 0 <= i < |days| => DayPoint(rows, days[i]))
  }

  /** The trend has exactly one point per day on which the player has a row, oldest first
      (strictly, so no day twice). */
  lemma {:induction false} TrendDays(rows: seq<Swing>)
    ensures forall i, j :: 0 <= i < j < |DailyTrend(rows)| ==> DailyTrend(rows)[i].date < DailyTrend(rows)[j].date
    ensures forall d :: (exists i :: 0 <= i < |DailyTrend(rows)| && DailyTrend(rows)[i].date == d) <==> d in Dates(rows)
  {
    var r, days := DailyTrend(rows), Selection.DistinctDates(rows);
    forall d ensures (exists i :: 0 <= i < |r| && r[i].date == d) <==> d in Dates(rows) {
      if d in days {
        var i :| 0 <= i < |days| && days[i] == d;
        assert r[i].date == d;
      }
    }
  }

  /** Each point summarises its day: the max is the fastest speed of that day, carried by one
      of its rows, and missing only when none of that day's rows has a speed; the mean is
      present with it, never above it, and is the sum of the day's speeds over the number of
      the day's rows that have one. */
  lemma {:induction false} TrendPointValues(rows: seq<Swing>, i: nat)
    requires i < |DailyTrend(rows)|
    ensures var p := DailyTrend(rows)[i];
      && (p.max.None? <==> forall x :: x in rows && x.date == p.date ==> x.speed.None?)
      && (p.max.Some? ==>
           && (exists x :: x in rows && x.date == p.date && x.speed == p.max)
           && (forall x :: x in rows && x.date == p.date && x.speed.Some? ==> x.speed.value <= p.max.value))
      && (p.mean.Some? <==> p.max.Some?)
      && (p.mean.Some? ==> p.mean.value <= p.max.value)
      && (p.mean.Some? ==>
           p.mean.value == Sum(Speeds(DaySwings(rows, p.date))) / (|Seqs.Filter(DaySwings(rows, p.date), HasSpeed)| as real))
  {
    var d := Selection.DistinctDates(rows)[i];
    var day := DaySwings(rows, d);
    Metrics.MaxSpeed(day);
    Metrics.MeanSpeed(day);
    Metrics.MeanOfSpeeds(day);
  }
}
