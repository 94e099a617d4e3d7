/** The budget-over-time chart of budget_time.py: the query text built from the selected
    genres and the rows the chart plots. */
module BudgetTime {
  import opened Results
  import opened Strs
  import opened Seqs
  import opened Movies

  /** The query `plot_altair` builds for a non-empty selection:
      "genres == 'g0' or genres == 'g1' ...". */
  function QueryText(genres: seq<string>): (q: string)
    requires genres != []
    ensures q != [] && q[|q| - 1] == '\''
    decreases |genres|
  {
    if |genres| == 1 then "genres == '" + genres[0] + "'"
    else QueryText(genres[..|genres| - 1]) + " or genres == '" + genres[|genres| - 1] + "'"
  }

  /** Splitting after a trailing separator replaces the last (empty) piece. */
  lemma SplitAfterSeparator(t: string, x: string, sep: char)
    requires t != [] && t[|t| - 1] == sep
    ensures var p := Split(t, sep); Split(t + x, sep) == p[..|p| - 1] + Split(x, sep)
  {
    var t' := t[..|t| - 1];
    assert t == t' + [sep] + "";
    assert t + x == t' + [sep] + x;
    SplitAround(t', "", sep);
    SplitAround(t', x, sep);
  }

  lemma QuotedParts(g: string)
    requires '\'' !in g
    ensures Split(g + ['\''] + "", '\'') == [g, ""]
  {
    SplitAround(g, "", '\'');
    SplitWithoutSeparator(g, '\'');
  }

  lemma PrefixParts(prefix: string, tail: string)
    requires '\'' !in prefix
    ensures Split(prefix + ['\''] + tail, '\'') == [prefix] + Split(tail, '\'')
  {
    SplitAround(prefix, tail, '\'');
    SplitWithoutSeparator(prefix, '\'');
  }

  /** A clause `prefix 'g'` splits on the quote into the prefix, the genre and "". */
  lemma ClauseParts(prefix: string, g: string)
    requires '\'' !in prefix && '\'' !in g
    ensures Split(prefix + "'" + g + "'", '\'') == [prefix, g, ""]
  {
    var tail := g + ['\''] + "";
    QuotedParts(g);
    PrefixParts(prefix, tail);
    assert prefix + "'" + g + "'" == prefix + ['\''] + tail;
  }

  /** The pieces a query over `genres` falls into when split on the quote:
      "genres == ", g0, "" for one genre; each further genre replaces the final ""
      by " or genres == ", its name and a new "". */
  function QueryParts(genres: seq<string>): (parts: seq<string>)
    requires genres != []
    ensures |parts| == 2 * |genres| + 1
    decreases |genres|
  {
    if |genres| == 1 then ["genres == ", genres[0], ""]
    else
      var p := QueryParts(genres[..|genres| - 1]);
      p[..|p| - 1] + [" or genres == ", genres[|genres| - 1], ""]
  }

  /** The pieces alternate between the clause openings and the genres, in order, and
      end with the empty piece after the last quote. */
  lemma {:induction false} QueryPartsShape(genres: seq<string>)
    requires genres != []
    ensures var parts := QueryParts(genres);
      && parts[2 * |genres|] == ""
      && (forall i :: 0 <= i < |genres| ==> parts[2 * i + 1] == genres[i])
      && (forall i :: 0 <= i < |genres| ==> parts[2 * i] == if i == 0 then "genres == " else " or genres == ")
    decreases |genres|
  {
    if |genres| > 1 {
      var init := genres[..|genres| - 1];
      QueryPartsShape(init);
      var p, parts := QueryParts(init), QueryParts(genres);
      forall i | 0 <= i < |genres|
        ensures parts[2 * i + 1] == genres[i]
        ensures parts[2 * i] == if i == 0 then "genres == " else " or genres == "
      {
        if i < |init| {
          assert parts[2 * i + 1] == p[2 * i + 1] && parts[2 * i] == p[2 * i];
        }
      }
    }
  }

  /** The query names every selected genre, in order, one clause each: split on the
      quote it reads "genres == ", g0, " or genres == ", g1, ..., g(n-1), "". */
  lemma QueryNamesGenres(genres: seq<string>)
    requires genres != []
    requires forall i :: 0 <= i < |genres| ==> '\'' !in genres[i]
    ensures Split(QueryText(genres), '\'') == QueryParts(genres)
    ensures var parts := Split(QueryText(genres), '\'');
      && |parts| == 2 * |genres| + 1
      && (forall i :: 0 <= i < |genres| ==> parts[2 * i + 1] == genres[i])
      && (forall i :: 0 < i < |genres| ==> parts[2 * i] == " or genres == ")
      && parts[0] == "genres == " && parts[2 * |genres|] == ""
  {
    QuerySplits(genres, QueryText(genres));
    QueryPartsShape(genres);
  }

  lemma {:induction false} QuerySplits(genres: seq<string>, query: string)
    requires genres != []
    requires forall i :: 0 <= i < |genres| ==> '\'' !in genres[i]
    requires query == QueryText(genres)
    ensures Split(query, '\'') == QueryParts(genres)
    decreases |genres|
  {
    if |genres| == 1 {
      OneGenreQuery(genres, query);
    } else {
      var init, g := genres[..|genres| - 1], genres[|genres| - 1];
      var query0 := QueryText(init);
      assert genres == init + [g];
      QuerySplits(init, query0);
      QueryTextExtend(init, g, query0, query);
    }
  }

  lemma OneGenreQuery(genres: seq<string>, query: string)
    requires |genres| == 1 && '\'' !in genres[0]
    requires query == QueryText(genres)
    ensures Split(query, '\'') == QueryParts(genres)
  {
    var g := genres[0];
    assert genres == [g];
    FirstClause(g, query);
    FirstClauseParts(g);
  }

  lemma FirstClause(g: string, query: string)
    requires query == QueryText([g])
    ensures query == "genres == " + "'" + g + "'"
  {
  }

  lemma FirstClauseParts(g: string)
    requires '\'' !in g
    ensures Split("genres == " + "'" + g + "'", '\'') == ["genres == ", g, ""]
  {
    assert '\'' !in "genres == ";
    ClauseParts("genres == ", g);
  }

  /** Adding a genre adds its clause, and its three quote-separated pieces. */
  lemma QueryTextExtend(init: seq<string>, g: string, query: string, query': string)
    requires init != [] && '\'' !in g
    requires query == QueryText(init) && query' == QueryText(init + [g])
    ensures var p := Split(query, '\'');
      Split(query', '\'') == p[..|p| - 1] + [" or genres == ", g, ""]
  {
    assert (init + [g])[..|init|] == init;
    assert query' == query + (" or genres == " + "'" + g + "'");
    ClauseAppended(query, g);
  }

  lemma ClauseAppended(t: string, g: string)
    requires t != [] && t[|t| - 1] == '\'' && '\'' !in g
    ensures var p := Split(t, '\'');
      Split(t + (" or genres == " + "'" + g + "'"), '\'') == p[..|p| - 1] + [" or genres == ", g, ""]
  {
    SplitAfterSeparator(t, " or genres == " + "'" + g + "'", '\'');
    assert '\'' !in " or genres == ";
    ClauseParts(" or genres == ", g);
  }

  predicate IsPlottedGenre(x: Movie)
  {
    x.genres == "Drama" || x.genres == "Action" || x.genres == "Comedy" || x.genres == "Animation"
  }

  /** `processed.query("genres == 'Drama' or genres == 'Action' or genres == 'Comedy' or
      genres == 'Animation'")`. */
  function FourGenreRows(processed: seq<Movie>): (r: seq<Movie>)
    ensures forall x :: x in r <==>
      x in processed && (x.genres == "Drama" || x.genres == "Action" || x.genres == "Comedy" || x.genres == "Animation")
    ensures forall x :: multiset(r)[x] == if IsPlottedGenre(x) then multiset(processed)[x] else 0
    ensures IsSubsequence(r, processed)
  {
    Filter(processed, IsPlottedGenre)
  }

  /** `plot_altair(genres)` up to the chart: the query text it builds (and only prints)
      and the rows it plots. With a selection the plotted rows are the four fixed genres,
      whichever genres were selected; without one they are the whole table. */
  method PlotAltair(processed: seq<Movie>, genres: seq<string>) returns (query: Option<string>, plotted: seq<Movie>)
    ensures genres == [] ==> query == None && plotted == processed
    ensures genres != [] ==> query == Some(QueryText(genres)) && plotted == FourGenreRows(processed)
  {
    if |genres| >= 1 {
      var q := "genres == '" + genres[0] + "'";
      assert genres[..1] == [genres[0]];
      for i := 1 to |genres|
        invariant q == QueryText(genres[..i])
      {
        assert genres[..i + 1][..i] == genres[..i];
        q := q + " or genres == '" + genres[i] + "'";
      }
      assert genres[..|genres|] == genres;
      query := Some(q);
      plotted := FourGenreRows(processed);
    } else {
      query := None;
      plotted := processed;
    }
  }
}
