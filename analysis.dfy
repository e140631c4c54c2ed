/** The per-player analysis page: from the whole frame, a player and a scope to the numbers
    the page shows. Widgets become parameters; charts and tables are left to the caller. */
module PlayerAnalysis {
  import opened Wrappers
  import opened Swings
  import opened Selection
  import opened Metrics
  import opened CourseGrid
  import opened Trend
  import opened History

  datatype PlayerReport = PlayerReport(
    summary: SelectionSummary,
    meanGrid: seq<seq<Option<real>>>,
    countGrid: seq<seq<Option<nat>>>,
    trend: seq<TrendPoint>,
    history: seq<HistoryRow>)

  /** Everything below the scope selector. When the selection is empty the page shows
      nothing (`if not p_df.empty`). */
  function Analyze(df: seq<Swing>, player: string, scope: Scope): (r: Option<PlayerReport>)
    ensures r.None? <==> forall x :: x in df ==> !(x.player == player && InScope(x, scope))
  {
    var full := PlayerRows(df, player);
    var sel := Select(full, scope);
    SelectionContents(df, player, scope);
    if sel == [] then
      None
    else
      assert sel[0] in sel;
      Some(PlayerReport(Summarize(sel), MeanGrid(sel), CountGrid(sel), DailyTrend(full), SwingHistory(sel)))
  }

  /** The trend is drawn over the player's whole history: whatever the scope, it is the same,
      one point per day the player has rows. */
  lemma {:induction false} TrendIgnoresScope(df: seq<Swing>, player: string, s1: Scope, s2: Scope)
    requires Select(PlayerRows(df, player), s1) != [] && Select(PlayerRows(df, player), s2) != []
    ensures Analyze(df, player, s1).Some? && Analyze(df, player, s2).Some?
    ensures Analyze(df, player, s1).value.trend == Analyze(df, player, s2).value.trend
    ensures Analyze(df, player, s1).value.trend == DailyTrend(PlayerRows(df, player))
  {
  }

  /** Every panel of a shown page is computed from the scoped selection: the metrics, both
      grids and the history table are those of `Select(PlayerRows(df, player), scope)`. */
  lemma {:induction false} PageOfSelection(df: seq<Swing>, player: string, scope: Scope)
    requires Select(PlayerRows(df, player), scope) != []
    ensures Analyze(df, player, scope).Some?
    ensures var sel := Select(PlayerRows(df, player), scope);
      var page := Analyze(df, player, scope).value;
      && page.summary == Summarize(sel)
      && page.meanGrid == MeanGrid(sel)
      && page.countGrid == CountGrid(sel)
      && page.history == SwingHistory(sel)
  {
  }

  /** The history table lists every selected swing once, in history order. */
  lemma {:induction false} HistoryOfSelection(df: seq<Swing>, player: string, scope: Scope)
    requires Select(PlayerRows(df, player), scope) != []
    ensures Analyze(df, player, scope).Some?
    ensures var h := Analyze(df, player, scope).value.history;
      && InHistoryOrder(h)
      && multiset(h) == multiset(Project(Select(PlayerRows(df, player), scope)))
  {
  }

  /** Picking a listed player and keeping the default date choice always gives a
      non-empty page, over exactly that player's rows from their newest day. */
  lemma {:induction false} DefaultViewShown(df: seq<Swing>, player: string)
    requires player in PlayerChoices(df)
    ensures PlayerRows(df, player) != []
    ensures var full := PlayerRows(df, player);
      var scope := SpecificDates(DefaultDates(full));
      && Analyze(df, player, scope).Some?
      && forall x :: x in Select(full, scope) <==> x in df && x.player == player && OnNewestDay(x, full)
  {
    ChosenPlayerHasRows(df, player);
    var full := PlayerRows(df, player);
    var scope := SpecificDates(DefaultDates(full));
    DefaultScopeIsNewestDay(full);
    var x := Select(full, scope)[0];
    assert x in Select(full, scope);
    SelectionContents(df, player, scope);
    assert multiset(df)[x] > 0;
    forall y ensures y in full <==> y in df && y.player == player {
      assert y in full <==> multiset(full)[y] > 0;
    }
  }
}
