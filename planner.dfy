/** The filters and the actor table of the dashboard in src/app.py. */
module Planner {
  import opened Strs
  import opened Seqs
  import opened Movies
  import opened Actors

  /** The two ends of the year range slider, both included. */
  type YearRange = (int, int)

  predicate Selected(x: Movie, genres: seq<string>, years: YearRange)
  {
    years.0 <= x.releaseYear <= years.1 && x.genres in genres
  }

  /** `data.query("release_date >= @years[0] & release_date <= @years[1] & genres in @genres")`:
      the rows of the selected genres released within the year range. */
  function SelectedRows(data: seq<Movie>, genres: seq<string>, years: YearRange): (r: seq<Movie>)
    ensures forall x :: x in r <==> x in data && years.0 <= x.releaseYear <= years.1 && x.genres in genres
    ensures forall x :: multiset(r)[x] == if Selected(x, genres, years) then multiset(data)[x] else 0
    ensures IsSubsequence(r, data)
  {
    Filter(data, x => Selected(x, genres, years))
  }

  /** With no genre selected no row is left. */
  lemma NoGenreSelected(data: seq<Movie>, years: YearRange)
    ensures SelectedRows(data, [], years) == []
  {
  }

  /** Selecting more genres, or widening the year range, never loses a row. */
  lemma SelectionWidens(data: seq<Movie>, genres: seq<string>, genres': seq<string>, years: YearRange, years': YearRange)
    requires forall g :: g in genres ==> g in genres'
    requires years'.0 <= years.0 && years.1 <= years'.1
    ensures IsSubsequence(SelectedRows(data, genres, years), SelectedRows(data, genres', years'))
  {
    FilterWeaker(data, x => Selected(x, genres, years), x => Selected(x, genres', years'));
  }

  /** The cast column of the rows. */
  function Casts(rows: seq<Movie>): (r: seq<string>)
    ensures |r| == |rows| && forall i :: 0 <= i < |rows| ==> r[i] == rows[i].cast
  {
    seq(|rows|, i requires 0 <= i < |rows| => rows[i].cast)
  }

  /** `generate_actor_table(genres, years)`: the (actor, count) lines the table shows;
      none when no genre is selected. */
  function ActorTable(data: seq<Movie>, genres: seq<string>, years: YearRange): (shown: seq<Entry>)
    ensures |shown| <= 5
    ensures genres == [] ==> shown == []
  {
    NoGenreSelected(data, years);
    ActorLines(Casts(SelectedRows(data, genres, years)))
  }
}
