/** The headline numbers over a selection: max speed, mean speed and barrel rate. */
module Metrics {
  import opened Wrappers
  import opened Swings
  import opened Stats
  import Seqs

  /** How many rows of `s` are barrels. */
  function BarrelCount(s: seq<Swing>): (n: nat)
    ensures n == |Seqs.Filter(s, IsBarrel)| <= |s|
    ensures n == 0 <==> forall x :: x in s ==> !IsBarrel(x)
    ensures n == |s| <==> forall x :: x in s ==> IsBarrel(x)
  {
    if s == [] then 0
    else
      assert s == [s[0]] + s[1..];
      (if IsBarrel(s[0]) then 1 else 0) + BarrelCount(s[1..])
  }

  /** `is_barrel.mean() * 100`: the flag column has no missing cells, so every selected row
      counts in the denominator. Only taken over a non-empty selection. */
  function BarrelRate(s: seq<Swing>): (r: real)
    requires s != []
    ensures 0.0 <= r <= 100.0
    ensures r == 100.0 * ((BarrelCount(s) as real) / (|s| as real))
    ensures r == 100.0 <==> forall x :: x in s ==> IsBarrel(x)
    ensures r == 0.0 <==> forall x :: x in s ==> !IsBarrel(x)
  {
    Percent(BarrelCount(s), |s|)
  }

  /** `part` as a share of a positive `whole`, in percent: between 0 and 100, at the ends
      exactly for none and for all. */
  function Percent(part: nat, whole: nat): (q: real)
    requires part <= whole && whole > 0
    ensures 0.0 <= q <= 100.0
    ensures q * (whole as real) == 100.0 * (part as real)
    ensures q == 100.0 <==> part == whole
    ensures q == 0.0 <==> part == 0
  {
    var q := 100.0 * ((part as real) / (whole as real));
    PercentBounds(part, whole, q);
    q
  }

  lemma {:induction false} PercentBounds(part: nat, whole: nat, q: real)
    requires part <= whole && whole > 0
    requires q == 100.0 * ((part as real) / (whole as real))
    ensures 0.0 <= q <= 100.0
    ensures q * (whole as real) == 100.0 * (part as real)
    ensures q == 100.0 <==> part == whole
    ensures q == 0.0 <==> part == 0
  {
    var p, w := part as real, whole as real;
    assert 0.0 <= p <= w && w > 0.0;
    var f := p / w;
    assert f * w == p;
    if f == 1.0 {
      assert p == w;
    }
    if part == whole {
      assert f == 1.0;
    }
  }

  /** A row without a speed is skipped, so the Speed column is empty exactly when no row
      has a speed. */
  lemma {:induction false} NoSpeeds(s: seq<Swing>)
    ensures Speeds(s) == [] <==> forall x :: x in s ==> x.speed.None?
  {
    SpeedsMembers(s);
    if Speeds(s) != [] {
      var v := Speeds(s)[0];
      assert v in Speeds(s);
      var x :| x in s && x.speed == Some(v);
      assert !x.speed.None?;
    }
  }

  /** What the NaN-skipping `max()` of the Speed column promises: no value exactly when no
      row has a speed; otherwise the largest speed, carried by some row. */
  lemma {:induction false} MaxSpeed(s: seq<Swing>)
    ensures Max(Speeds(s)).None? <==> forall x :: x in s ==> x.speed.None?
    ensures Max(Speeds(s)).Some? ==>
      && (exists x :: x in s && x.speed == Max(Speeds(s)))
      && (forall x :: x in s && x.speed.Some? ==> x.speed.value <= Max(Speeds(s)).value)
  {
    NoSpeeds(s);
    SpeedsMembers(s);
  }

  /** What the NaN-skipping `mean()` of the Speed column promises: present exactly when some
      row has a speed (so exactly when the max is); then it is the sum of the present speeds
      over their number, and never above the max. */
  lemma {:induction false} MeanSpeed(s: seq<Swing>)
    ensures Mean(Speeds(s)).Some? <==> |Seqs.Filter(s, HasSpeed)| > 0
    ensures Mean(Speeds(s)).Some? <==> Max(Speeds(s)).Some?
    ensures Mean(Speeds(s)).Some? ==>
      Mean(Speeds(s)).value == Sum(Speeds(s)) / (|Seqs.Filter(s, HasSpeed)| as real)
    ensures Mean(Speeds(s)).Some? ==> Mean(Speeds(s)).value <= Max(Speeds(s)).value
  {
    MeanOfSpeeds(s);
    MeanAtMostMax(Speeds(s));
  }

  /** The mean of the Speed column is present exactly when some row has a speed, and is then
      the sum of the present speeds over the number of rows that have one. */
  lemma {:induction false} MeanOfSpeeds(s: seq<Swing>)
    ensures Mean(Speeds(s)).Some? <==> |Seqs.Filter(s, HasSpeed)| > 0
    ensures Mean(Speeds(s)).Some? ==>
      Mean(Speeds(s)).value == Sum(Speeds(s)) / (|Seqs.Filter(s, HasSpeed)| as real)
  {
    SpeedsCount(s);
  }

  /** The three metrics shown above the charts. */
  datatype SelectionSummary = SelectionSummary(maxSpeed: Option<real>, meanSpeed: Option<real>, barrelRate: real)

  /** The metrics of a non-empty selection: the max is the largest speed of a selected row
      and is missing only when no row has a speed; the mean is present with it, is the sum of
      the present speeds over their number and never exceeds the max; the barrel rate is the
      share of barrel rows (whose bounds are BarrelRate's contract). */
  function Summarize(sel: seq<Swing>): (r: SelectionSummary)
    requires sel != []
    ensures r.maxSpeed.None? <==> forall x :: x in sel ==> x.speed.None?
    ensures r.maxSpeed.Some? ==>
      && (exists x :: x in sel && x.speed == r.maxSpeed)
      && (forall x :: x in sel && x.speed.Some? ==> x.speed.value <= r.maxSpeed.value)
    ensures r.meanSpeed.Some? <==> r.maxSpeed.Some?
    ensures r.meanSpeed.Some? ==>
      r.meanSpeed.value == Sum(Speeds(sel)) / (|Seqs.Filter(sel, HasSpeed)| as real)
    ensures r.meanSpeed.Some? ==> r.meanSpeed.value <= r.maxSpeed.value
    ensures r.barrelRate == BarrelRate(sel)
  {
    MaxSpeed(sel);
    MeanSpeed(sel);
    MeanOfSpeeds(sel);
    SelectionSummary(Max(Speeds(sel)), Mean(Speeds(sel)), BarrelRate(sel))
  }
}
