/** Loading and processing the movie table: `read_data` and `explode` of src/data.py
    (the same code stands at module level in app.py). */
module MovieData {
  import opened Results
  import opened Strs
  import opened Seqs
  import opened Movies

  // ---------------------------------------------------------------------------
  // Cleaning

  predicate HasRevenue(r: RawRow) { r.revenueAdj != 0 }

  predicate HasBudget(r: RawRow) { r.budgetAdj != 0 }

  /** The rows left after the two zero filters of `read_data`: no more rows than were
      read, each with a non-zero revenue and budget (CleanedRows states exactly which). */
  function Cleaned(raw: seq<RawRow>): (r: seq<RawRow>)
    ensures |r| <= |raw|
    ensures forall x :: x in r ==> x.revenueAdj != 0 && x.budgetAdj != 0
  {
    Filter(Filter(raw, HasRevenue), HasBudget)
  }

  /** Cleaning keeps, in their order and with every duplicate, exactly the rows with a
      non-zero adjusted revenue and a non-zero adjusted budget. */
  lemma CleanedRows(raw: seq<RawRow>)
    ensures forall x :: multiset(Cleaned(raw))[x] == (if HasRevenue(x) && HasBudget(x) then multiset(raw)[x] else 0)
    ensures forall x :: x in Cleaned(raw) <==> x in raw && x.revenueAdj != 0 && x.budgetAdj != 0
    ensures IsSubsequence(Cleaned(raw), raw)
  {
    SubsequenceTransitive(Cleaned(raw), Filter(raw, HasRevenue), raw);
  }

  // ---------------------------------------------------------------------------
  // Release dates, month and profit

  function ReleaseDates(rows: seq<RawRow>): (r: seq<string>)
    ensures |r| == |rows| && forall i :: 0 <= i < |rows| ==> r[i] == rows[i].releaseDate
  {
    seq(|rows|, i requires 0 <= i < |rows| => rows[i].releaseDate)
  }

  /** `pd.to_datetime` on a whole column: every value is converted, or the first value
      that does not match the format makes the conversion raise. */
  function ParseDates(texts: seq<string>): (r: Result<seq<Date>, Failure>)
    ensures r.Ok? <==> forall i :: 0 <= i < |texts| ==> ParseDate(texts[i]).Ok?
    ensures r.Ok? ==> |r.value| == |texts|
    ensures r.Ok? ==> forall i :: 0 <= i < |texts| ==> ParseDate(texts[i]) == Ok(r.value[i])
    ensures r.Err? ==> exists i :: 0 <= i < |texts| && FirstUnparseable(texts, i) && r.error == UnparseableDate(texts[i])
  {
    if texts == [] then Ok([])
    else
      match ParseDate(texts[0])
      case Err(e) => Err(e)
      case Ok(d) =>
        match ParseDates(texts[1..])
        case Err(e) =>
          assert exists i :: 0 <= i < |texts| && FirstUnparseable(texts, i) && e == UnparseableDate(texts[i]) by {
            var i :| 0 <= i < |texts[1..]| && FirstUnparseable(texts[1..], i) && e == UnparseableDate(texts[1..][i]);
            assert texts[1..][i] == texts[i + 1];
            forall j | 0 <= j < i + 1 ensures ParseDate(texts[j]).Ok? {
              if j > 0 {
                assert texts[j] == texts[1..][j - 1];
              }
            }
            assert FirstUnparseable(texts, i + 1);
          }
          Err(e)
        case Ok(ds) => Ok([d] + ds)
  }

  /** `texts[i]` is the first value that does not parse. */
  predicate FirstUnparseable(texts: seq<string>, i: int)
    requires 0 <= i < |texts|
  {
    ParseDate(texts[i]).Err? && forall j :: 0 <= j < i ==> ParseDate(texts[j]).Ok?
  }

  /** The row with its parsed release date, `release_month` taken from the date and
      `profit = revenue_adj - budget_adj`. */
  function Normalized(row: RawRow, date: Date): (m: Row<string>)
    ensures m.releaseDate == date && m.releaseMonth == date.month
    ensures m.profit == row.revenueAdj - row.budgetAdj
    ensures m.title == row.title && m.cast == row.cast && m.director == row.director && m.genres == row.genres
    ensures m.releaseYear == row.releaseYear && m.budgetAdj == row.budgetAdj && m.revenueAdj == row.revenueAdj
  {
    Row(row.title, row.cast, row.director, row.genres, date, row.releaseYear,
        row.budgetAdj, row.revenueAdj, date.month, row.revenueAdj - row.budgetAdj)
  }

  function NormalizeAll(rows: seq<RawRow>, dates: seq<Date>): (r: seq<Row<string>>)
    requires |dates| == |rows|
    ensures |r| == |rows| && forall i :: 0 <= i < |rows| ==> r[i] == Normalized(rows[i], dates[i])
  {
    seq(|rows|, i requires 0 <= i < |rows| => Normalized(rows[i], dates[i]))
  }

  /** `df.assign(genres=df.genres.str.split("|"))`. */
  function SplitGenres(rows: seq<Row<string>>): (r: seq<Row<seq<string>>>)
    ensures |r| == |rows|
    ensures forall i :: 0 <= i < |rows| ==> r[i] == WithGenre(rows[i], Split(rows[i].genres, '|'))
  {
    seq(|rows|, i requires 0 <= i < |rows| => WithGenre(rows[i], Split(rows[i].genres, '|')))
  }

  // ---------------------------------------------------------------------------
  // explode, as the reference: one row per genre of each row, rows kept in order

  /** The rows a row with a non-empty genre list stands for, one per list element. */
  function PerGenre(r: Row<seq<string>>): (out: seq<Movie>)
    ensures |out| == |r.genres|
    ensures forall j :: 0 <= j < |out| ==> out[j] == WithGenre(r, r.genres[j])
  {
    seq(|r.genres|, j requires 0 <= j < |r.genres| => WithGenre(r, r.genres[j]))
  }

  /** One output row per genre; a row with an empty list is kept once, with `fill`. */
  function ExpandRow(r: Row<seq<string>>, fill: string): seq<Movie>
  {
    if r.genres == [] then [WithGenre(r, fill)] else PerGenre(r)
  }

  /** The exploded table: each row's expansion, in the order of the rows. */
  function ExplodedRows(df: seq<Row<seq<string>>>, fill: string): seq<Movie>
  {
    if df == [] then [] else ExpandRow(df[0], fill) + ExplodedRows(df[1..], fill)
  }

  /** Rows an exploded table has: one per list element, and one per empty list. */
  function ExpandedCount(df: seq<Row<seq<string>>>): nat
  {
    if df == [] then 0
    else (if df[0].genres == [] then 1 else |df[0].genres|) + ExpandedCount(df[1..])
  }

  lemma {:induction false} ExplodedRowCount(df: seq<Row<seq<string>>>, fill: string)
    ensures |ExplodedRows(df, fill)| == ExpandedCount(df)
  {
    if df != [] {
      ExplodedRowCount(df[1..], fill);
    }
  }

  /** Every exploded row copies a source row in every column but genres, and its genre
      is an element of that row's list, or `fill` for an empty list. */
  lemma {:induction false} ExplodedRowOrigin(df: seq<Row<seq<string>>>, fill: string, x: Movie)
    requires x in ExplodedRows(df, fill)
    ensures exists i :: (0 <= i < |df| && AgreesOffGenre(x, df[i]) &&
      (if df[i].genres == [] then x.genres == fill else x.genres in df[i].genres))
  {
    var first := ExpandRow(df[0], fill);
    if x in first {
      var j :| 0 <= j < |first| && first[j] == x;
      assert AgreesOffGenre(x, df[0]);
    } else {
      ExplodedRowOrigin(df[1..], fill, x);
      var i :| 0 <= i < |df[1..]| && AgreesOffGenre(x, df[1..][i]) &&
        (if df[1..][i].genres == [] then x.genres == fill else x.genres in df[1..][i].genres);
      assert df[1..][i] == df[i + 1];
    }
  }

  // ---------------------------------------------------------------------------
  // explode, as written: np.repeat, np.concatenate, DataFrame.append, sort_index

  /** A row tagged with the index label of the row it came from. */
  type Keyed = (int, Movie)

  function Index(e: Keyed): int { e.0 }

  /** Index labels in strictly increasing order, as the labels of a filtered RangeIndex are. */
  predicate Increasing(labels: seq<int>)
  {
    forall i, j :: 0 <= i < j < |labels| ==> labels[i] < labels[j]
  }

  lemma IncreasingTail(labels: seq<int>)
    requires Increasing(labels) && labels != []
    ensures Increasing(labels[1..])
    ensures forall x :: x in labels[1..] ==> labels[0] < x
  {
    forall x | x in labels[1..] ensures labels[0] < x {
      var j :| 0 <= j < |labels[1..]| && labels[1..][j] == x;
      assert labels[j + 1] == x;
    }
  }

  /** `df[lst_cols[0]].str.len()`. */
  function Lens(df: seq<Row<seq<string>>>): (r: seq<nat>)
    ensures |r| == |df| && forall i :: 0 <= i < |df| ==> r[i] == |df[i].genres|
  {
    seq(|df|, i requires 0 <= i < |df| => |df[i].genres|)
  }

  function Sum(s: seq<nat>): nat
  {
    if s == [] then 0 else s[0] + Sum(s[1..])
  }

  function Copies<T>(x: T, n: nat): (r: seq<T>)
    ensures |r| == n && forall i :: 0 <= i < n ==> r[i] == x
  {
    seq(n, _ => x)
  }

  /** `np.repeat(xs, lens)`: each `xs[i]` written `lens[i]` times. */
  function Repeat<T>(xs: seq<T>, lens: seq<nat>): (r: seq<T>)
    requires |xs| == |lens|
    ensures |r| == Sum(lens)
  {
    if xs == [] then [] else Copies(xs[0], lens[0]) + Repeat(xs[1..], lens[1..])
  }

  /** `df.loc[lens > 0, "genres"].values`: the non-empty lists, in row order. */
  function NonEmptyLists(df: seq<Row<seq<string>>>): (r: seq<seq<string>>)
    ensures r == [] <==> forall i :: 0 <= i < |df| ==> df[i].genres == []
    ensures |Flatten(r)| == Sum(Lens(df))
  {
    if df == [] then []
    else
      var rest := NonEmptyLists(df[1..]);
      assert Lens(df)[1..] == Lens(df[1..]);
      assert forall i :: 0 < i < |df| ==> df[i] == df[1..][i - 1];
      if df[0].genres == [] then rest
      else
        assert ([df[0].genres] + rest)[1..] == rest;
        [df[0].genres] + rest
  }

  /** `np.concatenate(arrays)`, which raises when it is given no array at all. */
  function Concatenate(arrays: seq<seq<string>>): (r: Result<seq<string>, Failure>)
    ensures r.Ok? <==> arrays != []
    ensures r.Ok? ==> r.value == Flatten(arrays)
  {
    if arrays == [] then Err(NothingToConcatenate) else Ok(Flatten(arrays))
  }

  /** `pd.DataFrame({col: np.repeat(df[col].values, lens) ...}, index=idx).assign(genres=...)`. */
  function AssignGenres(idx: seq<int>, rows: seq<Row<seq<string>>>, genres: seq<string>): (r: seq<Keyed>)
    requires |idx| == |rows| == |genres|
    ensures |r| == |idx|
    ensures forall j :: 0 <= j < |idx| ==> r[j] == (idx[j], WithGenre(rows[j], genres[j]))
  {
    seq(|idx|, j requires 0 <= j < |idx| => (idx[j], WithGenre(rows[j], genres[j])))
  }

  /** `df.loc[lens == 0, idx_cols]`, appended with its index labels and given `fill_value`
      as genre. */
  function EmptyListRows(df: seq<Row<seq<string>>>, labels: seq<int>, fill: string): (r: seq<Keyed>)
    requires |labels| == |df|
    ensures forall j :: 0 <= j < |r| ==> r[j].0 in labels
    ensures r == [] <==> forall i :: 0 <= i < |df| ==> df[i].genres != []
  {
    if df == [] then []
    else
      assert forall i :: 0 < i < |df| ==> df[i] == df[1..][i - 1];
      assert forall x :: x in labels[1..] ==> x in labels;
      (if df[0].genres == [] then [(labels[0], WithGenre(df[0], fill))] else [])
      + EmptyListRows(df[1..], labels[1..], fill)
  }

  /** `res.reset_index(drop=True)`: the index labels are dropped and the rows renumbered
      0..n-1 by their position. */
  function ResetIndex(rows: seq<Keyed>): (r: seq<Movie>)
    ensures |r| == |rows| && forall j :: 0 <= j < |rows| ==> r[j] == rows[j].1
  {
    seq(|rows|, j requires 0 <= j < |rows| => rows[j].1)
  }

  /** `explode(df, "genres", fill_value=fill)` with `preserve_index=False`, on a frame whose
      index labels are `labels`. */
  function Explode(df: seq<Row<seq<string>>>, labels: seq<int>, fill: string): (r: Result<seq<Movie>, Failure>)
    requires |labels| == |df|
    ensures r.Err? <==> forall i :: 0 <= i < |df| ==> df[i].genres == []
    ensures r.Err? ==> r.error == NothingToConcatenate
  {
    var lens := Lens(df);
    var idx := Repeat(labels, lens);
    match Concatenate(NonEmptyLists(df))
    case Err(e) => Err(e)
    case Ok(genres) =>
      var res := AssignGenres(idx, Repeat(df, lens), genres);
      var res := if 0 in lens then res + EmptyListRows(df, labels, fill) else res;
      Ok(ResetIndex(SortBy(res, Index)))
  }

  // ---------------------------------------------------------------------------
  // The two definitions of explode agree

  /** A row's expansion tagged with the index label of its row. */
  function Tag(k: int, rows: seq<Movie>): (r: seq<Keyed>)
    ensures |r| == |rows| && forall j :: 0 <= j < |rows| ==> r[j] == (k, rows[j])
  {
    seq(|rows|, j requires 0 <= j < |rows| => (k, rows[j]))
  }

  /** The reference result with each row tagged by the label of its source row. */
  function KeyedRows(df: seq<Row<seq<string>>>, labels: seq<int>, fill: string): (r: seq<Keyed>)
    requires |labels| == |df|
    ensures forall j :: 0 <= j < |r| ==> r[j].0 in labels
  {
    if df == [] then []
    else
      assert forall x :: x in labels[1..] ==> x in labels;
      Tag(labels[0], ExpandRow(df[0], fill)) + KeyedRows(df[1..], labels[1..], fill)
  }

  /** The rows np.repeat and np.concatenate build: each non-empty list's elements,
      tagged with the label of their source row. */
  function KeyedPerGenre(df: seq<Row<seq<string>>>, labels: seq<int>): (r: seq<Keyed>)
    requires |labels| == |df|
    ensures forall j :: 0 <= j < |r| ==> r[j].0 in labels
  {
    if df == [] then []
    else
      assert forall x :: x in labels[1..] ==> x in labels;
      Tag(labels[0], PerGenre(df[0])) + KeyedPerGenre(df[1..], labels[1..])
  }

  lemma AssignGenresAppend(i1: seq<int>, i2: seq<int>, r1: seq<Row<seq<string>>>, r2: seq<Row<seq<string>>>,
                           g1: seq<string>, g2: seq<string>)
    requires |i1| == |r1| == |g1| && |i2| == |r2| == |g2|
    ensures AssignGenres(i1 + i2, r1 + r2, g1 + g2) == AssignGenres(i1, r1, g1) + AssignGenres(i2, r2, g2)
  {
  }

  lemma AssignGenresOneRow(k: int, r: Row<seq<string>>)
    ensures AssignGenres(Copies(k, |r.genres|), Copies(r, |r.genres|), r.genres) == Tag(k, PerGenre(r))
  {
  }

  /** The columns np.repeat and np.concatenate build line up: the j-th repeated label,
      the j-th repeated row and the j-th concatenated genre come from the same source row. */
  lemma {:induction false} RepeatedColumns(df: seq<Row<seq<string>>>, labels: seq<int>)
    requires |labels| == |df|
    ensures |Repeat(labels, Lens(df))| == |Repeat(df, Lens(df))| == |Flatten(NonEmptyLists(df))|
    ensures AssignGenres(Repeat(labels, Lens(df)), Repeat(df, Lens(df)), Flatten(NonEmptyLists(df)))
      == KeyedPerGenre(df, labels)
  {
    if df != [] {
      var lens := Lens(df);
      var n := |df[0].genres|;
      assert lens[1..] == Lens(df[1..]);
      var idx' := Repeat(labels[1..], Lens(df[1..]));
      var rows' := Repeat(df[1..], Lens(df[1..]));
      var genres' := Flatten(NonEmptyLists(df[1..]));
      assert Repeat(labels, lens) == Copies(labels[0], n) + idx';
      assert Repeat(df, lens) == Copies(df[0], n) + rows';
      assert Flatten(NonEmptyLists(df)) == df[0].genres + genres' by {
        if df[0].genres != [] {
          assert NonEmptyLists(df)[1..] == NonEmptyLists(df[1..]);
        }
      }
      RepeatedColumns(df[1..], labels[1..]);
      AssignGenresAppend(Copies(labels[0], n), idx', Copies(df[0], n), rows', df[0].genres, genres');
      AssignGenresOneRow(labels[0], df[0]);
    }
  }

  lemma {:induction false} KeyFilterTag(k0: int, rows: seq<Movie>, k: int)
    ensures KeyFilter(Tag(k0, rows), Index, k) == if k == k0 then Tag(k0, rows) else []
  {
    if rows != [] {
      KeyFilterTag(k0, rows[1..], k);
      assert Tag(k0, rows)[1..] == Tag(k0, rows[1..]);
      assert Tag(k0, rows) == [(k0, rows[0])] + Tag(k0, rows[1..]);
      KeyFilterCons((k0, rows[0]), Tag(k0, rows[1..]), Index, k);
    }
  }

  lemma KeyFilterOutside(s: seq<Keyed>, labels: seq<int>, k: int)
    requires k !in labels
    requires forall j :: 0 <= j < |s| ==> s[j].0 in labels
    ensures KeyFilter(s, Index, k) == []
  {
    KeyFilterNone(s, Index, k);
  }

  /** A row's own expansion is its per-genre rows followed by its empty-list row. */
  lemma ExpandRowParts(r: Row<seq<string>>, k: int, fill: string)
    ensures Tag(k, ExpandRow(r, fill))
         == Tag(k, PerGenre(r)) + (if r.genres == [] then [(k, WithGenre(r, fill))] else [])
  {
  }

  /** For every index label, the rows built by repeat-and-append carry it in the
      same order as the reference. */
  lemma {:induction false} KeyFiltersAgree(df: seq<Row<seq<string>>>, labels: seq<int>, fill: string, k: int)
    requires |labels| == |df| && Increasing(labels)
    ensures KeyFilter(KeyedRows(df, labels, fill), Index, k)
         == KeyFilter(KeyedPerGenre(df, labels) + EmptyListRows(df, labels, fill), Index, k)
  {
    if df == [] {
      assert KeyedPerGenre(df, labels) + EmptyListRows(df, labels, fill) == [];
    } else {
      var k0, labels' := labels[0], labels[1..];
      var rest := KeyedRows(df[1..], labels', fill);
      var ne, ne' := Tag(k0, PerGenre(df[0])), KeyedPerGenre(df[1..], labels');
      var em := if df[0].genres == [] then [(k0, WithGenre(df[0], fill))] else [];
      var em' := EmptyListRows(df[1..], labels', fill);
      ExpandRowParts(df[0], k0, fill);
      assert KeyedRows(df, labels, fill) == (ne + em) + rest;
      assert KeyedPerGenre(df, labels) + EmptyListRows(df, labels, fill) == (ne + ne') + (em + em');
      IncreasingTail(labels);
      if k == k0 {
        KeyFilterOutside(ne', labels', k);
        KeyFilterOutside(em', labels', k);
      } else {
        KeyFilterTag(k0, PerGenre(df[0]), k);
        KeyFilterTag(k0, ExpandRow(df[0], fill), k);
        KeyFilterAppend(ne, em, Index, k);
      }
      KeyFilterRegroup(ne, ne', em, em', Index, k);
      KeyFilterAppend(ne + em, rest, Index, k);
      KeyFiltersAgree(df[1..], labels', fill, k);
    }
  }

  lemma {:induction false} KeyedRowsSorted(df: seq<Row<seq<string>>>, labels: seq<int>, fill: string)
    requires |labels| == |df| && Increasing(labels)
    ensures SortedBy(KeyedRows(df, labels, fill), Index)
  {
    if df != [] {
      IncreasingTail(labels);
      KeyedRowsSorted(df[1..], labels[1..], fill);
      var head := Tag(labels[0], ExpandRow(df[0], fill));
      var rest := KeyedRows(df[1..], labels[1..], fill);
      var all := head + rest;
      forall i, j | 0 <= i < j < |all| ensures Index(all[i]) <= Index(all[j]) {
        if j < |head| {
        } else if i < |head| {
          assert all[j] == rest[j - |head|];
        } else {
          assert all[i] == rest[i - |head|] && all[j] == rest[j - |head|];
        }
      }
    }
  }

  lemma {:induction false} ResetKeyedRows(df: seq<Row<seq<string>>>, labels: seq<int>, fill: string)
    requires |labels| == |df|
    ensures ResetIndex(KeyedRows(df, labels, fill)) == ExplodedRows(df, fill)
  {
    if df != [] {
      ResetKeyedRows(df[1..], labels[1..], fill);
      var head := Tag(labels[0], ExpandRow(df[0], fill));
      var rest := KeyedRows(df[1..], labels[1..], fill);
      assert ResetIndex(head + rest) == ResetIndex(head) + ResetIndex(rest);
      assert ResetIndex(head) == ExpandRow(df[0], fill);
    }
  }

  /** `explode` as written returns the reference expansion whatever the (increasing) index
      labels: every row's genres in turn, one output row each (one row with `fill` for an
      empty list), grouped by source row in source order and renumbered from 0. It raises
      exactly when no row has a non-empty list, since np.concatenate is then given nothing. */
  lemma ExplodeIsReference(df: seq<Row<seq<string>>>, labels: seq<int>, fill: string)
    requires |labels| == |df| && Increasing(labels)
    ensures Explode(df, labels, fill) ==
      if forall i :: 0 <= i < |df| ==> df[i].genres == [] then Err(NothingToConcatenate)
      else Ok(ExplodedRows(df, fill))
  {
    var lens := Lens(df);
    if NonEmptyLists(df) != [] {
      RepeatedColumns(df, labels);
      var res := KeyedPerGenre(df, labels);
      var full := res + EmptyListRows(df, labels, fill);
      assert (if 0 in lens then full else res) == full by {
        if 0 !in lens {
          assert forall i :: 0 <= i < |df| ==> df[i].genres != [] by {
            forall i | 0 <= i < |df| ensures df[i].genres != [] {
              assert lens[i] in lens;
            }
          }
          assert full == res;
        }
      }
      var sorted := SortBy(full, Index);
      var reference := KeyedRows(df, labels, fill);
      forall k ensures KeyFilter(sorted, Index, k) == KeyFilter(reference, Index, k) {
        SortByStable(full, Index, k);
        KeyFiltersAgree(df, labels, fill, k);
      }
      KeyedRowsSorted(df, labels, fill);
      SortedUnique(sorted, reference, Index);
      ResetKeyedRows(df, labels, fill);
    }
  }

  // ---------------------------------------------------------------------------
  // read_data

  /** Cleaning drops or keeps the first row and goes on with the rest. */
  lemma CleanedCons(raw: seq<RawRow>)
    requires raw != []
    ensures Cleaned(raw) == (if HasRevenue(raw[0]) && HasBudget(raw[0]) then [raw[0]] else []) + Cleaned(raw[1..])
  {
    assert raw == [raw[0]] + raw[1..];
    var rest := Filter(raw[1..], HasRevenue);
    if HasRevenue(raw[0]) {
      assert ([raw[0]] + rest)[1..] == rest;
    }
  }

  /** The index labels the cleaned frame keeps: the file is read with the labels
      `base, base + 1, ...` and the filters keep the labels of the rows they keep. */
  function KeptLabels(raw: seq<RawRow>, base: int): (r: seq<int>)
    ensures |r| == |Cleaned(raw)|
    ensures forall j :: 0 <= j < |r| ==> base <= r[j]
    ensures Increasing(r)
    decreases |raw|
  {
    if raw == [] then []
    else
      var rest := KeptLabels(raw[1..], base + 1);
      KeptLabelsStep(raw, base, rest);
      if HasRevenue(raw[0]) && HasBudget(raw[0]) then [base] + rest else rest
  }

  lemma KeptLabelsStep(raw: seq<RawRow>, base: int, rest: seq<int>)
    requires raw != [] && |rest| == |Cleaned(raw[1..])| && Increasing(rest)
    requires forall j :: 0 <= j < |rest| ==> base + 1 <= rest[j]
    ensures var r := if HasRevenue(raw[0]) && HasBudget(raw[0]) then [base] + rest else rest;
      |r| == |Cleaned(raw)| && Increasing(r) && forall j :: 0 <= j < |r| ==> base <= r[j]
  {
    CleanedCons(raw);
    IncreasingCons(base, rest);
  }

  lemma IncreasingCons(x: int, rest: seq<int>)
    requires Increasing(rest)
    requires forall j :: 0 <= j < |rest| ==> x < rest[j]
    ensures Increasing([x] + rest)
  {
    var r := [x] + rest;
    forall i, j | 0 <= i < j < |r| ensures r[i] < r[j] {
      assert r[j] == rest[j - 1];
      if i > 0 {
        assert r[i] == rest[i - 1];
      }
    }
  }

  /** `df.assign(genres=df.genres.str.split("|"))` after the month and profit columns are
      added: the frame `explode` is given. */
  function Prepared(cleaned: seq<RawRow>, dates: seq<Date>): (r: seq<Row<seq<string>>>)
    requires |dates| == |cleaned|
    ensures |r| == |cleaned|
  {
    SplitGenres(NormalizeAll(cleaned, dates))
  }

  /** What `read_data` returns, stated row by row: the cleaned rows with parsed dates,
      month and profit, each expanded into one row per '|'-separated genre, in order. */
  function ProcessedTable(raw: seq<RawRow>): Result<seq<Movie>, Failure>
  {
    var cleaned := Cleaned(raw);
    match ParseDates(ReleaseDates(cleaned))
    case Err(e) => Err(e)
    case Ok(dates) =>
      if cleaned == [] then Err(NothingToConcatenate) else Ok(ExplodedRows(Prepared(cleaned, dates), ""))
  }

  /** `read_data` step by step: the two zero filters, the date conversion, the month and
      profit columns, the genre split and `explode`. */
  method ReadData(raw: seq<RawRow>) returns (r: Result<seq<Movie>, Failure>)
    ensures r == ProcessedTable(raw)
  {
    var processed := Filter(raw, HasRevenue);
    processed := Filter(processed, HasBudget);
    var labels := KeptLabels(raw, 0);
    var dates := ParseDates(ReleaseDates(processed));
    if dates.Err? {
      return Err(dates.error);
    }
    var normalized := NormalizeAll(processed, dates.value);
    var split := SplitGenres(normalized);
    ExplodeIsReference(split, labels, "");
    assert (forall i :: 0 <= i < |split| ==> split[i].genres == []) <==> split == [] by {
      if split != [] {
        assert split[0].genres == Split(processed[0].genres, '|');
      }
    }
    r := Explode(split, labels, "");
  }

  /** Loading fails exactly when a kept row's release date does not parse, or when
      cleaning keeps no row at all (np.concatenate is then given nothing). */
  lemma ProcessedTableFails(raw: seq<RawRow>)
    ensures ProcessedTable(raw).Err? <==>
      (exists i :: 0 <= i < |Cleaned(raw)| && ParseDate(Cleaned(raw)[i].releaseDate).Err?) || Cleaned(raw) == []
  {
    DatesParse(Cleaned(raw));
  }

  lemma DatesParse(rows: seq<RawRow>)
    ensures ParseDates(ReleaseDates(rows)).Err? <==> exists i :: 0 <= i < |rows| && ParseDate(rows[i].releaseDate).Err?
  {
    var texts := ReleaseDates(rows);
    if ParseDates(texts).Err? {
      var i :| 0 <= i < |texts| && ParseDate(texts[i]).Err?;
      assert ParseDate(rows[i].releaseDate).Err?;
    } else {
      forall i | 0 <= i < |rows| ensures ParseDate(rows[i].releaseDate).Ok? {
        assert texts[i] == rows[i].releaseDate;
      }
    }
  }

  /** The error is the empty concatenation exactly when cleaning keeps no row; otherwise
      it names the release date of the first kept row whose date does not parse. */
  lemma ProcessedTableError(raw: seq<RawRow>)
    requires ProcessedTable(raw).Err?
    ensures ProcessedTable(raw).error == NothingToConcatenate <==> Cleaned(raw) == []
    ensures Cleaned(raw) != [] ==> exists i :: (0 <= i < |Cleaned(raw)| &&
      FirstUnparseable(ReleaseDates(Cleaned(raw)), i) &&
      ProcessedTable(raw).error == UnparseableDate(Cleaned(raw)[i].releaseDate))
  {
    var cleaned := Cleaned(raw);
    var texts := ReleaseDates(cleaned);
    var parsed := ParseDates(texts);
    if parsed.Err? {
      var j :| 0 <= j < |texts| && FirstUnparseable(texts, j) && parsed.error == UnparseableDate(texts[j]);
      assert texts[j] == cleaned[j].releaseDate;
    }
  }

  /** Every row of the processed table has a non-zero revenue and budget, an exact
      profit, a month taken from its valid release date, and a single genre. */
  lemma ProcessedRowsWellFormed(raw: seq<RawRow>)
    requires ProcessedTable(raw).Ok?
    ensures forall x :: x in ProcessedTable(raw).value ==>
      && x.revenueAdj != 0 && x.budgetAdj != 0
      && x.profit == x.revenueAdj - x.budgetAdj
      && IsValidDate(x.releaseDate) && x.releaseMonth == x.releaseDate.month && 1 <= x.releaseMonth <= 12
      && '|' !in x.genres
  {
    var cleaned := Cleaned(raw);
    CleanedRows(raw);
    var dates := ParseDates(ReleaseDates(cleaned)).value;
    forall x | x in ProcessedTable(raw).value
      ensures x.revenueAdj != 0 && x.budgetAdj != 0 && x.profit == x.revenueAdj - x.budgetAdj
      ensures IsValidDate(x.releaseDate) && x.releaseMonth == x.releaseDate.month && '|' !in x.genres
    {
      var i := ProcessedRowSource(raw, x);
      assert cleaned[i] in cleaned;
      assert ParseDate(cleaned[i].releaseDate) == Ok(dates[i]);
    }
  }

  /** The cleaned row a processed row comes from: it agrees with it on every column but
      genres, its date is the parse of that row's text, and its genre is one of that
      row's '|'-separated genres. */
  lemma ProcessedRowSource(raw: seq<RawRow>, x: Movie) returns (i: nat)
    requires ProcessedTable(raw).Ok? && x in ProcessedTable(raw).value
    ensures i < |Cleaned(raw)|
    ensures var c := Cleaned(raw)[i];
      && x.title == c.title && x.cast == c.cast && x.director == c.director
      && x.releaseYear == c.releaseYear && x.budgetAdj == c.budgetAdj && x.revenueAdj == c.revenueAdj
      && ParseDate(c.releaseDate) == Ok(x.releaseDate)
      && x.releaseMonth == x.releaseDate.month && x.profit == c.revenueAdj - c.budgetAdj
      && x.genres in Split(c.genres, '|')
  {
    var cleaned := Cleaned(raw);
    var dates := ParseDates(ReleaseDates(cleaned)).value;
    var df := Prepared(cleaned, dates);
    ExplodedRowOrigin(df, "", x);
    var k :| 0 <= k < |df| && AgreesOffGenre(x, df[k]) &&
      (if df[k].genres == [] then x.genres == "" else x.genres in df[k].genres);
    assert df[k] == WithGenre(Normalized(cleaned[k], dates[k]), Split(cleaned[k].genres, '|'));
    i := k;
  }

  /** Genre tokens over the cleaned rows: a genre text with k separators counts k + 1. */
  function TokenCount(rows: seq<RawRow>): (n: nat)
    ensures n >= |rows|
  {
    if rows == [] then 0 else multiset(rows[0].genres)['|'] + 1 + TokenCount(rows[1..])
  }

  lemma {:induction false} PreparedCount(cleaned: seq<RawRow>, dates: seq<Date>)
    requires |dates| == |cleaned|
    ensures ExpandedCount(Prepared(cleaned, dates)) == TokenCount(cleaned)
  {
    if cleaned != [] {
      var df := Prepared(cleaned, dates);
      assert df[1..] == Prepared(cleaned[1..], dates[1..]);
      assert df[0].genres == Split(cleaned[0].genres, '|');
      SplitCount(cleaned[0].genres, '|');
      PreparedCount(cleaned[1..], dates[1..]);
    }
  }

  /** The processed table has one row per genre token of each cleaned row. */
  lemma ProcessedRowCount(raw: seq<RawRow>)
    requires ProcessedTable(raw).Ok?
    ensures |ProcessedTable(raw).value| == TokenCount(Cleaned(raw))
  {
    var cleaned := Cleaned(raw);
    var dates := ParseDates(ReleaseDates(cleaned)).value;
    ExplodedRowCount(Prepared(cleaned, dates), "");
    PreparedCount(cleaned, dates);
  }

  /** A row's genre text gives one output row per token; an empty genre text gives
      exactly one row, whose genre is "". */
  lemma ExpandSplitRow(r: Movie)
    ensures |ExpandRow(WithGenre(r, Split(r.genres, '|')), "")| == multiset(r.genres)['|'] + 1
    ensures r.genres == "" ==> ExpandRow(WithGenre(r, Split(r.genres, '|')), "") == [r]
  {
    SplitCount(r.genres, '|');
    if r.genres == "" {
      assert WithGenre(WithGenre(r, Split(r.genres, '|')), "") == r;
    }
  }

  /** `set(df["genres"].str.split("|", expand=True).stack().values.tolist())`: every
      '|'-separated piece of every genre value. */
  function GenresList(table: seq<Movie>): (r: set<string>)
    ensures forall g :: g in r <==> exists i :: 0 <= i < |table| && g in Split(table[i].genres, '|')
  {
    set i, g | 0 <= i < |table| && g in Split(table[i].genres, '|') :: g
  }

  /** Once no genre value holds a '|', splitting again changes nothing: the genres list
      is the set of genre values. */
  lemma GenresListIsGenreValues(table: seq<Movie>)
    requires forall i :: 0 <= i < |table| ==> '|' !in table[i].genres
    ensures GenresList(table) == GenreValues(table)
  {
    forall i | 0 <= i < |table| ensures Split(table[i].genres, '|') == [table[i].genres] {
      SplitWithoutSeparator(table[i].genres, '|');
    }
    forall g ensures g in GenresList(table) <==> g in GenreValues(table) {
      if g in GenresList(table) {
        var i :| 0 <= i < |table| && g in Split(table[i].genres, '|');
        assert table[i].genres == g;
      }
      if g in GenreValues(table) {
        var i :| 0 <= i < |table| && table[i].genres == g;
        assert g in Split(table[i].genres, '|');
      }
    }
  }

  /** The genres list of the processed table is exactly its set of genre values. */
  lemma ProcessedGenresList(raw: seq<RawRow>)
    requires ProcessedTable(raw).Ok?
    ensures GenresList(ProcessedTable(raw).value) == GenreValues(ProcessedTable(raw).value)
  {
    var table := ProcessedTable(raw).value;
    ProcessedRowsWellFormed(raw);
    assert forall i :: 0 <= i < |table| ==> table[i] in table;
    GenresListIsGenreValues(table);
  }
}
