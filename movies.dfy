/** The movie table's rows and the release-date format they are read with. */
module Movies {
  import opened Results
  import opened Strs

  /** A calendar date as `pd.to_datetime` yields it (the time of day is always midnight). */
  datatype Date = Date(year: int, month: int, day: int)

  predicate IsLeapYear(y: int)
  {
    y % 4 == 0 && (y % 100 != 0 || y % 400 == 0)
  }

  function DaysInMonth(y: int, m: int): int
    requires 1 <= m <= 12
  {
    if m == 2 then (if IsLeapYear(y) then 29 else 28)
    else if m == 4 || m == 6 || m == 9 || m == 11 then 30
    else 31
  }

  predicate IsCalendarDate(d: Date)
  {
    1 <= d.month <= 12 && 1 <= d.day <= DaysInMonth(d.year, d.month)
  }

  /** A pandas Timestamp counts nanoseconds in 64 bits: the whole days it can hold
      run from 1677-09-22 to 2262-04-11. */
  predicate InTimestampRange(d: Date)
  {
    && (d.year > 1677 || (d.year == 1677 && (d.month > 9 || (d.month == 9 && d.day >= 22))))
    && (d.year < 2262 || (d.year == 2262 && (d.month < 4 || (d.month == 4 && d.day <= 11))))
  }

  predicate IsValidDate(d: Date)
  {
    IsCalendarDate(d) && InTimestampRange(d)
  }

  // The three fields of the format "%m/%d/%Y".

  /** `%m`: one or two digits naming a month 1..12 ("1", "01", "12"). */
  predicate MonthField(f: string)
  {
    1 <= |f| <= 2 && AllDigits(f) && 1 <= NumberValue(f) <= 12
  }

  /** `%d`: one or two digits naming a day 1..31, or a space and a digit 1..9. */
  predicate DayField(f: string)
  {
    || (1 <= |f| <= 2 && AllDigits(f) && 1 <= NumberValue(f) <= 31)
    || (|f| == 2 && f[0] == ' ' && IsDigit(f[1]) && f[1] != '0')
  }

  function DayValue(f: string): nat
    requires DayField(f)
  {
    if f[0] == ' ' then DigitValue(f[1]) else NumberValue(f)
  }

  /** `%Y`: exactly four digits. */
  predicate YearField(f: string)
  {
    |f| == 4 && AllDigits(f)
  }

  /** `pd.to_datetime(text, format="%m/%d/%Y")` on one value: the whole text must match
      the format and name a date a Timestamp can hold, or the conversion raises. */
  function ParseDate(text: string): (r: Result<Date, Failure>)
    ensures r.Ok? ==> IsValidDate(r.value)
    ensures r.Err? ==> r.error == UnparseableDate(text)
  {
    var f := Split(text, '/');
    if |f| == 3 && MonthField(f[0]) && DayField(f[1]) && YearField(f[2]) then
      var d := Date(NumberValue(f[2]), NumberValue(f[0]), DayValue(f[1]));
      if IsValidDate(d) then Ok(d) else Err(UnparseableDate(text))
    else Err(UnparseableDate(text))
  }

  /** A date written as "MM/DD/YYYY", the way the data file writes it. */
  function FormatDate(d: Date): string
    requires IsValidDate(d)
  {
    Padded(d.month, 2) + "/" + Padded(d.day, 2) + "/" + Padded(d.year, 4)
  }

  /** Every date a Timestamp can hold is read back from its "MM/DD/YYYY" text. */
  lemma ParseFormattedDate(d: Date)
    requires IsValidDate(d)
    ensures ParseDate(FormatDate(d)) == Ok(d)
  {
    var m, dd, y := Padded(d.month, 2), Padded(d.day, 2), Padded(d.year, 4);
    var f := Split(FormatDate(d), '/');
    FormattedFields(d);
    FieldsWithoutSlash(m, dd, y);
    SplitThreeFields(m, dd, y);
    assert f == [m, dd, y];
    assert MonthField(f[0]) && DayField(f[1]) && YearField(f[2]);
    assert Date(NumberValue(f[2]), NumberValue(f[0]), DayValue(f[1])) == d;
  }

  lemma SplitThreeFields(a: string, b: string, c: string)
    requires '/' !in a && '/' !in b && '/' !in c
    ensures Split(a + "/" + b + "/" + c, '/') == [a, b, c]
  {
    SplitWithoutSeparator(a, '/');
    SplitWithoutSeparator(b, '/');
    SplitWithoutSeparator(c, '/');
    SplitAround(b, c, '/');
    SplitAround(a, b + "/" + c, '/');
    assert a + "/" + b + "/" + c == a + ['/'] + (b + ['/'] + c);
  }

  /** `text` is written in the format "%m/%d/%Y" and its three fields name `d`. */
  ghost predicate WritesDate(text: string, d: Date)
  {
    exists m, dd, y :: MonthField(m) && DayField(dd) && YearField(y) &&
      text == m + "/" + dd + "/" + y &&
      NumberValue(m) == d.month && DayValue(dd) == d.day && NumberValue(y) == d.year
  }

  /** The parser reads exactly the texts written in the format: a text parses to `d` iff
      `d` is a date a Timestamp can hold and the text's month, day and year fields name it.
      Every other text (a missing field, a stray character, an impossible day) fails. */
  lemma ParseDateMeaning(text: string, d: Date)
    ensures ParseDate(text) == Ok(d) <==> IsValidDate(d) && WritesDate(text, d)
  {
    if ParseDate(text) == Ok(d) {
      var f := Split(text, '/');
      JoinSplitRoundTrip(text, '/');
      assert f[1..][1..] == [f[2]];
      assert Join(f[1..], '/') == f[1] + ['/'] + f[2];
      assert text == f[0] + ['/'] + (f[1] + ['/'] + f[2]);
      assert text == f[0] + "/" + f[1] + "/" + f[2];
      assert MonthField(f[0]) && DayField(f[1]) && YearField(f[2]);
    }
    if IsValidDate(d) && WritesDate(text, d) {
      var m, dd, y :| MonthField(m) && DayField(dd) && YearField(y) &&
        text == m + "/" + dd + "/" + y &&
        NumberValue(m) == d.month && DayValue(dd) == d.day && NumberValue(y) == d.year;
      FieldsWithoutSlash(m, dd, y);
      SplitThreeFields(m, dd, y);
    }
  }

  lemma FieldsWithoutSlash(m: string, dd: string, y: string)
    requires MonthField(m) && DayField(dd) && YearField(y)
    ensures '/' !in m && '/' !in dd && '/' !in y
  {
    assert !IsDigit('/');
    if '/' in dd {
      var i :| 0 <= i < |dd| && dd[i] == '/';
    }
  }

  lemma FormattedFields(d: Date)
    requires IsValidDate(d)
    ensures MonthField(Padded(d.month, 2)) && NumberValue(Padded(d.month, 2)) == d.month
    ensures DayField(Padded(d.day, 2)) && DayValue(Padded(d.day, 2)) == d.day
    ensures YearField(Padded(d.year, 4)) && NumberValue(Padded(d.year, 4)) == d.year
  {
    assert Pow10(2) == 100 && Pow10(4) == 10000 by {
      assert Pow10(1) == 10;
      assert Pow10(3) == 1000;
    }
    var dd := Padded(d.day, 2);
    assert IsDigit(dd[0]);
  }

  /** A row of the data file as it is read, with the release date still text. */
  datatype RawRow = RawRow(
    title: string,
    cast: string,          // actor names separated by '|'
    director: string,
    genres: string,        // genre names separated by '|'
    releaseDate: string,   // "MM/DD/YYYY"
    releaseYear: int,
    budgetAdj: int,        // budget adjusted for inflation
    revenueAdj: int)       // revenue adjusted for inflation

  /** A processed row. `G` is the type of the genres column: the '|'-separated text,
      the list it is split into, or a single genre after the table is exploded. */
  datatype Row<G> = Row(
    title: string,
    cast: string,
    director: string,
    genres: G,
    releaseDate: Date,
    releaseYear: int,
    budgetAdj: int,
    revenueAdj: int,
    releaseMonth: int,
    profit: int)

  /** A row of the processed table: one movie and one genre. */
  type Movie = Row<string>

  /** The same row with another value in the genres column. */
  function WithGenre<G, H>(r: Row<G>, g: H): (r': Row<H>)
    ensures r'.genres == g && AgreesOffGenre(r', r)
  {
    Row(r.title, r.cast, r.director, g, r.releaseDate, r.releaseYear,
        r.budgetAdj, r.revenueAdj, r.releaseMonth, r.profit)
  }

  /** The two rows hold the same value in every column except genres. */
  predicate AgreesOffGenre<G, H>(a: Row<G>, b: Row<H>)
  {
    && a.title == b.title && a.cast == b.cast && a.director == b.director
    && a.releaseDate == b.releaseDate && a.releaseYear == b.releaseYear
    && a.budgetAdj == b.budgetAdj && a.revenueAdj == b.revenueAdj
    && a.releaseMonth == b.releaseMonth && a.profit == b.profit
  }

  /** The distinct values of the genres column, `set(df["genres"].tolist())`. */
  function GenreValues(table: seq<Movie>): (r: set<string>)
    ensures forall g :: g in r <==> exists i :: 0 <= i < |table| && table[i].genres == g
  {
    set i | 0 <= i < |table| :: table[i].genres
  }
}
