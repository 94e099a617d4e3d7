# Movie dashboard pipeline, modelled in Dafny

The movie production planner dashboards load a table of TMDB movies and chart it.
Underneath the Dash layout and the Altair charts is a small deterministic pipeline,
and that pipeline is what this project models and proves things about:

- `read_data` (src/data.py, repeated at module level in app.py):
  - drops the rows whose adjusted revenue or adjusted budget is zero;
  - parses the release date with the format `%m/%d/%Y` and derives `release_month`
    and `profit = revenue_adj - budget_adj`;
  - splits the `|`-separated genres and `explode`s the table into one row per genre.
- `explode`, modelled twice:
  - as written: `np.repeat` of the other columns, `np.concatenate` of the non-empty
    genre lists, the appended empty-list rows, `sort_index` and `reset_index`;
  - as a reference: each row's genres in turn.
  A theorem shows the two agree for any increasing index labels. It also states when
  the code raises: exactly when no row has a non-empty genre list, which includes the
  empty frame.
- The row filters of the dashboards:
  - year range plus genre set (src/app.py, app_temp.py);
  - single genre, year range and budget range (app_temp.py);
  - lower year bound and genre equality (app.py);
  - the fixed four-genre subset (budget_time.py).
- The actor ranking: the cast lists joined with `|`, split, counted with
  `value_counts`, and the lines at positions 1 to 5 shown.
- The UI helpers:
  - `update_genres`, which builds dropdown options in a loop;
  - `toggle_collapse`;
  - the query text that `plot_altair` builds in a loop.

Modules:

- `Results`: the exceptions the pipeline can raise.
- `Strs`: Python's `str.split`/`str.join` and decimal digits.
- `Seqs`: filtering, subsequences, a stable sort by key.
- `Movies`: rows and release dates.
- `MovieData`: src/data.py.
- `Actors`: the shared ranking.
- `Planner`: src/app.py.
- `PlannerTemp`: app_temp.py.
- `Legacy`: app.py.
- `BudgetTime`: budget_time.py.

Money is modelled as `int`, and a release date as a `Date` with year, month and day.
The `data` frame that src/app.py and app_temp.py load through `read_data_2` and
`temp_data.read_data` is taken as a parameter: a processed table of `Movie` rows.
Neither of those loaders is part of this model.

## Model

| member | source | states |
|---|---|---|
| MovieData.Cleaned | src/data.py:11-12 | the two zero filters keep no more rows than were read, each with non-zero revenue_adj and budget_adj |
| MovieData.CleanedRows | src/data.py:11-12 | cleaning keeps exactly the rows with non-zero revenue_adj and budget_adj, with their multiplicities, as a subsequence of the raw rows |
| MovieData.KeptLabels | src/data.py:8-12 | the index labels left after the two filters are as many as the kept rows and strictly increasing |
| Movies.ParseDate | src/data.py:15-17 | a parsed date is a calendar date within the Timestamp range, and a failure names the text |
| Movies.ParseDateMeaning | src/data.py:15-17 | a text parses to `d` iff `d` is within the Timestamp range and the text is month, day and year fields in the `%m/%d/%Y` form that name `d` (unpadded "1/5/2000" included); every other text fails |
| Movies.ParseFormattedDate | src/data.py:15-17 | every valid date written as MM/DD/YYYY parses back to itself |
| MovieData.ParseDates | src/data.py:15-17 | converting the column succeeds iff every value parses, giving each value's date in place; otherwise the error names the first text that does not parse |
| MovieData.Normalized | src/data.py:18-21 | release_month is the parsed date's month, profit is exactly revenue_adj - budget_adj, every other column is copied |
| MovieData.NormalizeAll | src/data.py:15-21 | one derived row per cleaned row, in order, each with its own parsed date |
| MovieData.SplitGenres | src/data.py:24 | each row's genres column becomes the `str.split("\|")` tokens of its text; one row per row, in order |
| MovieData.ReadData | src/data.py:6-32 | the step-by-step load returns the row-by-row reference table `ProcessedTable`, or its error |
| MovieData.ProcessedTableFails | src/data.py:11-25 | loading fails iff some kept row's release date does not parse or no row survives cleaning |
| MovieData.ProcessedTableError | src/data.py:15-25 | the error is the empty concatenation iff no row survives cleaning; otherwise it names the release date of the first kept row whose date does not parse |
| MovieData.ProcessedRowsWellFormed | src/data.py:11-25 | every processed row has non-zero revenue and budget, profit exactly revenue minus budget, a valid date, release_month equal to the date's month in 1..12, and a genre without `\|` |
| MovieData.ProcessedRowSource | src/data.py:18-25 | each processed row comes from a cleaned row: same other columns, the parse of that row's date, and one of its `\|`-separated genres |
| MovieData.ProcessedRowCount | src/data.py:23-25 | the processed table has one row per genre token of each cleaned row |
| Strs.Split | src/data.py:24 | Python's `str.split` on one separator: at least one token, none holding the separator |
| Strs.JoinSplitRoundTrip | src/app.py:82 | `"\|".join` undoes the split: joining a text's tokens gives the text back |
| Strs.SplitJoinRoundTrip | src/app.py:82 | the split undoes `"\|".join` on parts without the separator |
| Strs.SplitCount | src/data.py:24 | a text with k separators splits into k + 1 tokens |
| MovieData.ExpandSplitRow | src/data.py:24 | a row's genre text gives k + 1 rows for k separators; an empty text gives exactly that row, with genre "" |
| MovieData.ExplodedRowCount | src/data.py:47-57 | the exploded table has one row per list element plus one per empty list |
| MovieData.ExplodedRowOrigin | src/data.py:49-53 | every exploded row agrees with a source row off the genre column, and its genre is an element of that row's list, or the fill value for an empty list |
| MovieData.Explode | src/data.py:36-63 | explode as written raises, with the empty concatenation, exactly when no row has a non-empty list |
| MovieData.ExplodeIsReference | src/data.py:36-63 | with increasing index labels, explode as written returns each row's expansion grouped in source order and renumbered; it raises exactly when no row has a non-empty list |
| MovieData.GenresList | src/data.py:27-29 | the genres list holds exactly the `\|`-separated pieces of the genre values |
| MovieData.ProcessedGenresList | src/data.py:26-29 | on the processed table the genres list is exactly the set of genre values |
| MovieData.GenresListIsGenreValues | app.py:60 | when no genre value holds `\|`, splitting again leaves the set of genre values |
| Movies.GenreValues | budget_time.py:15 | `genre_list` holds a genre iff some row has it |
| Strs.SplitJoin | src/app.py:82 | joining cast lists with `\|` and splitting gives each list's own names in turn |
| Actors.CastTokens | src/app.py:82 | the cast tokens are at least one name, none holding `\|` |
| Actors.CastTokensOfCasts | src/app.py:82 | the cast tokens are each list's names in turn; with no movie they are the single name "" |
| Actors.ValueCounts | app_temp.py:83 | the ranking is a permutation of the (name, count) pairs of the distinct names, sorted by count, largest first |
| Actors.ValueCountsOrdered | app_temp.py:83 | counts never increase down the ranking |
| Actors.ValueCountsEntries | app_temp.py:82-85 | each entry's count is its name's number of occurrences, at least 1; a name is ranked iff it occurs; no name twice |
| Actors.ValueCountsTotal | app_temp.py:82-85 | the counts add up to the number of tokens |
| Actors.DisplaySlice | app_temp.py:102 | the shown lines are ranking positions 1 to 5, as far as the ranking goes |
| Actors.DisplayedLines | src/app.py:92 | the shown lines are positions 1..5 with true counts, distinct names and non-increasing counts, never the top-ranked name |
| Actors.EmptySelectionRanking | app_temp.py:83-102 | with no movie the ranking is the single entry ("", 1) and nothing is shown |
| Actors.ActorLines | src/app.py:81-92 | an actor table has at most 5 lines, none for no movie |
| Actors.ActorLinesOfCasts | src/app.py:81-83 | for every selection, including none, the table ranks the names of the cast lists split one by one |
| Planner.SelectedRows | src/app.py:78-80 | a row is kept iff years[0] <= release year <= years[1] and its genre is selected, with its multiplicity, in order |
| Planner.NoGenreSelected | app_temp.py:29-31 | no genre selected leaves no row |
| Planner.SelectionWidens | app_temp.py:29-31 | more genres or a wider year range never lose a row |
| Planner.ActorTable | src/app.py:74-95 | at most 5 lines, and none when no genre is selected |
| PlannerTemp.ActorRows | app_temp.py:79-81 | a row is kept iff it is in the year range, has the selected genre and its budget is in the budget range, every copy, in order |
| PlannerTemp.ActorRowsWithinSelection | app_temp.py:79-81 | the actor rows are a subsequence of that genre's chart rows |
| PlannerTemp.ActorTable | app_temp.py:77-105 | at most 5 lines, and none for an empty budget range |
| PlannerTemp.UpdateGenres | app_temp.py:141-145 | one {label, value} option per selected genre in order, the first genre as default value; an empty selection raises an index error |
| PlannerTemp.ToggleCollapse | app_temp.py:168-171 | the panel flips iff the click count is truthy |
| PlannerTemp.ToggleTwice | app_temp.py:168-171 | two toggles with the same click count restore the panel |
| Legacy.HeatmapRows | app.py:63 | a row is kept iff release_year >= year, with no upper bound, in order |
| Legacy.ReleaseRows | app.py:73-74 | a row is kept iff release_year >= year and its genre is genre_type; they are a subsequence of the heatmap rows |
| Legacy.LaterYearFewerRows | app.py:63 | a later year never adds a row |
| BudgetTime.QueryText | budget_time.py:20-23 | the query of a non-empty selection ends with a quote |
| BudgetTime.QueryNamesGenres | budget_time.py:20-23 | split on quotes, the query is "genres == ", g0, then " or genres == ", gi for each later genre, then "": one clause per genre, in order |
| BudgetTime.QueryPartsShape | budget_time.py:21-23 | the pieces alternate between clause openings and the selected genres, ending with "" |
| BudgetTime.FourGenreRows | budget_time.py:24 | a row is plotted iff its genre is Drama, Action, Comedy or Animation, every copy, in order |
| BudgetTime.PlotAltair | budget_time.py:18-27 | the loop builds exactly the query text of the selection; the plotted rows are the four fixed genres for any selection, and the whole table without one |

## Left out

- Reading and writing CSV files: the model starts from the raw rows in memory, and `to_csv` is not modelled.
- Dash app construction, layouts, callbacks and `run_server`, the Altair chart specifications, `to_html`, and the HTML cells around the actor table.
- Floating-point money: `budget_adj` and `revenue_adj` are integers, so comparison with zero and the profit subtraction are exact.
- NaN cells: pandas missing-value semantics are not modelled. This covers NaN genres or cast, and a missing `release_date`, which `pd.to_datetime` turns into NaT without raising.
- `init_genres` (app_temp.py:132-133): it uses `random.sample`, which is random.
- The year filters compare `release_date` with integer years through pandas coercion; the model compares the integer `release_year` instead.
- The year and budget slider values are pairs; a shorter list, which would raise an index error, is not modelled.
- `pd.to_datetime` internals: the format is modelled as one- or two-digit month and day fields (a day may also be a space and a digit) and a four-digit year, all ASCII. Non-ASCII digits and the rest of strptime's leniency are not modelled.
- `explode`'s `preserve_index=True` branch: read_data never uses it.
- `explode` with a list-valued `lst_cols`: the genres column is the only list column.
- MovieData.ExplodeIsReference: models `sort_index` as a stable sort by label. Labels are unique per source row, so only the order of one movie's genres could differ under an unstable sort. pandas skips the sort for an already monotonic index, and that is the case here.
- MovieData.ReadData: the index labels are the positions of the rows in the file, as `read_csv` numbers them.
- Actors.ValueCounts: the order among equal counts is not stated; only the non-increasing order and the counts are.
- The `reset_index(inplace=True)` that turns the actor index into a column is modelled as (name, count) pairs.
- `toggle_collapse` is defined five times with the same body (app_temp.py:168-171 and after); it is modelled once.
- app.py repeats the cleaning, derivation and `explode` of src/data.py at module level; one model covers both.
- `plot_altair` only prints its query text; the printing is left out and the text is returned.
- The layout call `plot_altair('abc')` passes a string, whose characters Python reads as three genres; the model takes a sequence of genre names.
- The `print(budget)` call of app_temp.py.
