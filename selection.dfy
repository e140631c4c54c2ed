/** Choosing a player and narrowing that player's rows to a date scope. */
module Selection {
  import opened Swings
  import Seqs

  // ---------------------------------------------------------------------------
  // The player list: distinct names in ascending code-point order.
  // ---------------------------------------------------------------------------

  /** Python's string order: lexicographic by code point, a proper prefix first. */
  predicate LexLess(a: string, b: string)
  {
    if |a| == 0 then |b| > 0
    else if |b| == 0 then false
    else if a[0] < b[0] then true
    else a[0] == b[0] && LexLess(a[1..], b[1..])
  }

  lemma {:induction false} LexIrreflexive(a: string)
    ensures !LexLess(a, a)
  {
    if |a| > 0 {
      LexIrreflexive(a[1..]);
    }
  }

  lemma {:induction false} LexTransitive(a: string, b: string, c: string)
    requires LexLess(a, b) && LexLess(b, c)
    ensures LexLess(a, c)
  {
    if |a| > 0 && |b| > 0 && |c| > 0 && a[0] == b[0] == c[0] {
      LexTransitive(a[1..], b[1..], c[1..]);
    }
  }

  /** Any two different names are ordered one way or the other. */
  lemma {:induction false} LexTotal(a: string, b: string)
    requires a != b
    ensures LexLess(a, b) || LexLess(b, a)
  {
    if |a| > 0 && |b| > 0 && a[0] == b[0] {
      assert a == [a[0]] + a[1..] && b == [b[0]] + b[1..];
      LexTotal(a[1..], b[1..]);
    }
  }

  predicate NamesAscending(t: seq<string>)
  {
    forall i, j :: 0 <= i < j < |t| ==> LexLess(t[i], t[j])
  }

  /** The Player column, in row order. */
  function PlayerColumn(s: seq<Swing>): (r: seq<string>)
    ensures |r| == |s|
    ensures forall i :: 0 <= i < |s| ==> r[i] == s[i].player
  {
    if s == [] then [] else [s[0].player] + PlayerColumn(s[1..])
  }

  function InsertName(p: string, t: seq<string>): (r: seq<string>)
    requires NamesAscending(t)
    ensures NamesAscending(r)
    ensures forall q :: q in r <==> q == p || q in t
  {
    if t == [] then [p]
    else if p == t[0] then t
    else if LexLess(p, t[0]) then
      assert forall j :: 0 < j < |t| ==> LexLess(p, t[j]) by {
        forall j | 0 < j < |t| ensures LexLess(p, t[j]) {
          LexTransitive(p, t[0], t[j]);
        }
      }
      [p] + t
    else
      LexTotal(p, t[0]);
      var rest := InsertName(p, t[1..]);
      assert forall q :: q in rest ==> LexLess(t[0], q);
      [t[0]] + rest
  }

  /** `sorted(df['Player'].unique())`: the player names to choose from. */
  function PlayerChoices(df: seq<Swing>): (r: seq<string>)
    ensures NamesAscending(r)
    ensures forall p :: p in r <==> p in PlayerColumn(df)
  {
    if df == [] then []
    else
      assert PlayerColumn(df) == [df[0].player] + PlayerColumn(df[1..]);
      InsertName(df[0].player, PlayerChoices(df[1..]))
  }

  /** The player list holds no name twice. */
  lemma {:induction false} PlayerChoicesDistinct(df: seq<Swing>)
    ensures forall i, j :: 0 <= i < j < |PlayerChoices(df)| ==> PlayerChoices(df)[i] != PlayerChoices(df)[j]
  {
    var r := PlayerChoices(df);
    forall i, j | 0 <= i < j < |r| ensures r[i] != r[j] {
      if r[i] == r[j] {
        LexIrreflexive(r[i]);
      }
    }
  }

  /** `df[df['Player'] == player]`: every row of that player, in frame order. */
  function PlayerRows(df: seq<Swing>, player: string): (r: seq<Swing>)
    ensures forall x :: x in r ==> x.player == player
    ensures forall x :: multiset(r)[x] == if x.player == player then multiset(df)[x] else 0
  {
    var keep := (x: Swing) => x.player == player;
    Seqs.FilterMultiset(df, keep);
    Seqs.Filter(df, keep)
  }

  /** A name offered in the player list has at least one row. */
  lemma {:induction false} ChosenPlayerHasRows(df: seq<Swing>, player: string)
    requires player in PlayerChoices(df)
    ensures PlayerRows(df, player) != []
  {
    var i :| 0 <= i < |df| && PlayerColumn(df)[i] == player;
    assert df[i] in df;
    assert multiset(PlayerRows(df, player))[df[i]] > 0;
  }

  // ---------------------------------------------------------------------------
  // The date list: a player's distinct dates, newest first.
  // ---------------------------------------------------------------------------

  predicate Ascending(t: seq<Date>)
  {
    forall i, j :: 0 <= i < j < |t| ==> t[i] < t[j]
  }

  predicate Descending(t: seq<Date>)
  {
    forall i, j :: 0 <= i < j < |t| ==> t[i] > t[j]
  }

  /** Every later element of an ascending list is above its head. */
  lemma {:induction false} TailAbove(t: seq<Date>)
    requires Ascending(t) && t != []
    ensures forall e :: e in t[1..] ==> t[0] < e
  {
    forall e | e in t[1..] ensures t[0] < e {
      var k :| 0 <= k < |t| - 1 && t[1..][k] == e;
      assert t[k + 1] == e;
    }
  }

  /** A date below every element of an ascending list can go in front of it. */
  lemma {:induction false} ConsAscending(h: Date, t: seq<Date>)
    requires Ascending(t)
    requires forall e :: e in t ==> h < e
    ensures Ascending([h] + t)
  {
    var r := [h] + t;
    forall i, j | 0 <= i < j < |r| ensures r[i] < r[j] {
      assert r[j] == t[j - 1];
      if i == 0 {
        assert t[j - 1] in t;
      } else {
        assert r[i] == t[i - 1];
      }
    }
  }

  function InsertDate(d: Date, t: seq<Date>): (r: seq<Date>)
    requires Ascending(t)
    ensures Ascending(r)
    ensures forall e :: e in r <==> e == d || e in t
  {
    if t == [] then [d]
    else
      assert t == [t[0]] + t[1..];
      TailAbove(t);
      if d == t[0] then t
      else if d < t[0] then
        ConsAscending(d, t);
        [d] + t
      else
        var rest := InsertDate(d, t[1..]);
        ConsAscending(t[0], rest);
        [t[0]] + rest
  }

  /** The distinct dates of `rows`, oldest first (the group keys of a groupby on Date). */
  function DistinctDates(rows: seq<Swing>): (r: seq<Date>)
    ensures Ascending(r)
    ensures forall d :: d in r <==> d in Dates(rows)
  {
    if rows == [] then []
    else
      assert Dates(rows) == [rows[0].date] + Dates(rows[1..]);
      InsertDate(rows[0].date, DistinctDates(rows[1..]))
  }

  /** `sorted(full_p_df['Date'].unique(), reverse=True)`: the dates offered for selection,
      strictly newest first (hence free of duplicates), exactly the dates on which the player
      has rows. */
  function DateChoices(rows: seq<Swing>): (r: seq<Date>)
    ensures Descending(r)
    ensures forall d :: d in r <==> d in Dates(rows)
  {
    var asc := DistinctDates(rows);
    ReversedDescending(asc);
    Seqs.ReversedMembers(asc);
    Seqs.Reversed(asc)
  }

  /** An ascending list read backwards is descending. */
  lemma {:induction false} ReversedDescending(asc: seq<Date>)
    requires Ascending(asc)
    ensures Descending(Seqs.Reversed(asc))
  {
    var r, n := Seqs.Reversed(asc), |asc|;
    forall i, j | 0 <= i < j < n ensures r[i] > r[j] {
      assert r[i] == asc[n - 1 - i] && r[j] == asc[n - 1 - j];
    }
  }

  /** `default=[player_dates[0]]`: the newest date alone. */
  function DefaultDates(rows: seq<Swing>): (r: seq<Date>)
    requires rows != []
    ensures |r| == 1 && r[0] in Dates(rows)
    ensures forall x :: x in rows ==> x.date <= r[0]
  {
    assert Dates(rows)[0] in Dates(rows);
    var choices := DateChoices(rows);
    assert forall x :: x in rows ==> x.date in choices by {
      forall x | x in rows ensures x.date in choices {
        var i :| 0 <= i < |rows| && rows[i] == x;
        assert Dates(rows)[i] == x.date;
      }
    }
    [choices[0]]
  }

  /** The rows dated on the newest day: the rows no other row is later than. */
  predicate OnNewestDay(x: Swing, rows: seq<Swing>)
  {
    forall y :: y in rows ==> y.date <= x.date
  }

  // ---------------------------------------------------------------------------
  // The analysis scope.
  // ---------------------------------------------------------------------------

  /** "All period", or "specific dates" with the dates picked in the multiselect. */
  datatype Scope = AllPeriod | SpecificDates(chosen: seq<Date>)

  predicate InScope(x: Swing, scope: Scope)
  {
    match scope
    case AllPeriod => true
    case SpecificDates(chosen) => x.date in chosen
  }

  /** `p_df`: the player's rows narrowed to the scope (`isin` on Date, or the whole history). */
  function Select(full: seq<Swing>, scope: Scope): (r: seq<Swing>)
    ensures forall x :: multiset(r)[x] == if InScope(x, scope) then multiset(full)[x] else 0
    ensures scope.AllPeriod? ==> r == full
  {
    match scope
    case AllPeriod => full
    case SpecificDates(chosen) =>
      var keep := (x: Swing) => x.date in chosen;
      Seqs.FilterMultiset(full, keep);
      Seqs.Filter(full, keep)
  }

  /** The selection holds exactly the chosen player's rows that fall in the scope, each as
      often as in the frame; in particular never a row of another player, and with
      "all period" every row of the player. */
  lemma {:induction false} SelectionContents(df: seq<Swing>, player: string, scope: Scope)
    ensures forall x :: x in Select(PlayerRows(df, player), scope) ==> x.player == player && InScope(x, scope)
    ensures forall x :: multiset(Select(PlayerRows(df, player), scope))[x] ==
                        if x.player == player && InScope(x, scope) then multiset(df)[x] else 0
    ensures scope.AllPeriod? ==> Select(PlayerRows(df, player), scope) == PlayerRows(df, player)
  {
  }

  /** Keeping the default date choice selects exactly the rows of the newest day, and there
      is at least one. */
  lemma {:induction false} DefaultScopeIsNewestDay(full: seq<Swing>)
    requires full != []
    ensures forall x :: x in Select(full, SpecificDates(DefaultDates(full))) <==> x in full && OnNewestDay(x, full)
    ensures Select(full, SpecificDates(DefaultDates(full))) != []
  {
    var newest := DefaultDates(full);
    assert newest == [newest[0]];
    var i :| 0 <= i < |full| && Dates(full)[i] == newest[0];
    NewestDaySelection(full, newest[0], i);
  }

  /** Selecting the one date `day`, which some row carries and no row is later than, keeps
      exactly the rows of the newest day. */
  lemma {:induction false} NewestDaySelection(full: seq<Swing>, day: Date, i: nat)
    requires i < |full| && full[i].date == day
    requires forall y :: y in full ==> y.date <= day
    ensures forall x :: x in Select(full, SpecificDates([day])) <==> x in full && OnNewestDay(x, full)
    ensures Select(full, SpecificDates([day])) != []
  {
    var sel := Select(full, SpecificDates([day]));
    assert forall x :: x in sel <==> x in full && x.date == day;
    var top := full[i];
    assert top in full;
    forall x | x in full ensures OnNewestDay(x, full) <==> x.date == day {
      if OnNewestDay(x, full) {
        assert top.date <= x.date;
      }
    }
    assert top in sel;
  }
}
