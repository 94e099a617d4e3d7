/** The actor filter, the genre dropdown and the help-text toggle of app_temp.py. */
module PlannerTemp {
  import opened Results
  import opened Seqs
  import opened Movies
  import opened Actors
  import opened Planner

  /** The two ends of the budget range slider, both included. */
  type BudgetRange = (int, int)

  predicate ActorSelected(x: Movie, genre: string, years: YearRange, budget: BudgetRange)
  {
    && years.0 <= x.releaseYear <= years.1
    && x.genres == genre
    && budget.0 <= x.budgetAdj <= budget.1
  }

  /** The query of `generate_actor_table(selected_genre, years, budget)`: one genre, the
      year range and the budget range, all ends included. */
  function ActorRows(data: seq<Movie>, genre: string, years: YearRange, budget: BudgetRange): (r: seq<Movie>)
    ensures forall x :: x in r <==>
      x in data && years.0 <= x.releaseYear <= years.1 && x.genres == genre && budget.0 <= x.budgetAdj <= budget.1
    ensures forall x :: multiset(r)[x] == if ActorSelected(x, genre, years, budget) then multiset(data)[x] else 0
    ensures IsSubsequence(r, data)
  {
    Filter(data, x => ActorSelected(x, genre, years, budget))
  }

  /** The actor rows are the chart rows of that one genre, narrowed by budget. */
  lemma ActorRowsWithinSelection(data: seq<Movie>, genre: string, years: YearRange, budget: BudgetRange)
    ensures IsSubsequence(ActorRows(data, genre, years, budget), SelectedRows(data, [genre], years))
  {
    FilterWeaker(data, x => ActorSelected(x, genre, years, budget), x => Selected(x, [genre], years));
  }

  /** `generate_actor_table(selected_genre, years, budget)`: the lines the table shows. */
  function ActorTable(data: seq<Movie>, genre: string, years: YearRange, budget: BudgetRange): (shown: seq<Entry>)
    ensures |shown| <= 5
    ensures budget.1 < budget.0 ==> shown == []
  {
    var rows := ActorRows(data, genre, years, budget);
    assert rows != [] ==> rows[0] in rows;
    ActorLines(Casts(rows))
  }

  /** One entry of a dropdown's option list. */
  datatype DropdownOption = DropdownOption(labelText: string, value: string)

  /** `update_genres(genres)`: one option per selected genre, in order, and the first
      genre as the default value; `options_list[0]` fails on an empty selection. */
  method UpdateGenres(genres: seq<string>) returns (r: Result<(seq<DropdownOption>, string), Failure>)
    ensures genres == [] <==> r == Err(IndexOutOfRange)
    ensures r.Ok? ==> |r.value.0| == |genres| && r.value.1 == genres[0]
    ensures r.Ok? ==> forall i :: 0 <= i < |genres| ==> r.value.0[i] == DropdownOption(genres[i], genres[i])
  {
    var options: seq<DropdownOption> := [];
    for k := 0 to |genres|
      invariant |options| == k
      invariant forall i :: 0 <= i < k ==> options[i] == DropdownOption(genres[i], genres[i])
    {
      options := options + [DropdownOption(genres[k], genres[k])];
    }
    if |options| == 0 {
      return Err(IndexOutOfRange);
    }
    return Ok((options, options[0].labelText));
  }

  /** The `n_clicks` of a button: None until it is first clicked. */
  datatype Clicks = NotClicked | Clicked(n: int)

  predicate Truthy(n: Clicks)
  {
    n.Clicked? && n.n != 0
  }

  /** `toggle_collapse(n, is_open)`: a click flips the panel, no click leaves it. */
  function ToggleCollapse(n: Clicks, isOpen: bool): (r: bool)
    ensures r != isOpen <==> Truthy(n)
  {
    if Truthy(n) then !isOpen else isOpen
  }

  /** Two toggles by a clicked button bring the panel back to where it was. */
  lemma ToggleTwice(n: Clicks, isOpen: bool)
    ensures ToggleCollapse(n, ToggleCollapse(n, isOpen)) == isOpen
  {
  }
}
