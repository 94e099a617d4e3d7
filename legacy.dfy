/** The chart filters of the first dashboard, app.py. */
module Legacy {
  import opened Seqs
  import opened Movies

  predicate FromYear(x: Movie, year: int)
  {
    x.releaseYear >= year
  }

  predicate OfGenre(x: Movie, genre: string)
  {
    x.genres == genre
  }

  /** `plot_heatmap(year)`: the rows released in `year` or later; there is no upper bound. */
  function HeatmapRows(processed: seq<Movie>, year: int): (r: seq<Movie>)
    ensures forall x :: x in r <==> x in processed && x.releaseYear >= year
    ensures forall x :: multiset(r)[x] == if x.releaseYear >= year then multiset(processed)[x] else 0
    ensures IsSubsequence(r, processed)
  {
    Filter(processed, x => FromYear(x, year))
  }

  /** `plot_release(year, genre_type)`: the heatmap rows of one genre. */
  function ReleaseRows(processed: seq<Movie>, year: int, genreType: string): (r: seq<Movie>)
    ensures forall x :: x in r <==> x in processed && x.releaseYear >= year && x.genres == genreType
    ensures forall x :: multiset(r)[x] == (if OfGenre(x, genreType) && FromYear(x, year) then multiset(processed)[x] else 0)
    ensures IsSubsequence(r, HeatmapRows(processed, year)) && IsSubsequence(r, processed)
  {
    var r := Filter(HeatmapRows(processed, year), x => OfGenre(x, genreType));
    SubsequenceTransitive(r, HeatmapRows(processed, year), processed);
    r
  }

  /** Moving the year slider later never adds a row. */
  lemma LaterYearFewerRows(processed: seq<Movie>, year: int, year': int)
    requires year <= year'
    ensures IsSubsequence(HeatmapRows(processed, year'), HeatmapRows(processed, year))
  {
    FilterWeaker(processed, x => FromYear(x, year'), x => FromYear(x, year));
  }
}
