/** The actor ranking of the dashboards: the cast lists of the selected movies are
    joined with '|', split into names, counted and ranked by count. */
module Actors {
  import opened Strs
  import opened Seqs

  /** One line of the ranking: an actor and the number of times the name occurs. */
  type Entry = (string, nat)

  /** `pd.Series(df["cast"].str.cat(sep="|").split("|"))`: at least one name, none
      holding the separator. */
  function CastTokens(casts: seq<string>): (names: seq<string>)
    ensures |names| >= 1
    ensures forall i :: 0 <= i < |names| ==> '|' !in names[i]
  {
    Split(Join(casts, '|'), '|')
  }

  /** The names are each cast list's own names, in order; with no movie at all the
      joined text is "" and the one name is "". */
  lemma CastTokensOfCasts(casts: seq<string>)
    ensures casts == [] ==> CastTokens(casts) == [""]
    ensures casts != [] ==> CastTokens(casts) == SplitEach(casts, '|')
  {
    if casts != [] {
      SplitJoin(casts, '|');
    }
  }

  /** The distinct values of `s`, each at its first occurrence. */
  function Distinct(s: seq<string>): (r: seq<string>)
    ensures forall x :: x in r <==> x in s
    ensures NoDuplicates(r)
    decreases |s|
  {
    if s == [] then []
    else
      var d := Distinct(s[..|s| - 1]);
      var x := s[|s| - 1];
      assert s == s[..|s| - 1] + [x];
      if x in d then d else d + [x]
  }

  /** Each name with its number of occurrences in `tokens`. */
  function Counted(names: seq<string>, tokens: seq<string>): (r: seq<Entry>)
    ensures |r| == |names|
    ensures forall i :: 0 <= i < |names| ==> r[i] == (names[i], multiset(tokens)[names[i]])
  {
    seq(|names|, i requires 0 <= i < |names| => (names[i], multiset(tokens)[names[i]]))
  }

  function NegCount(e: Entry): int { -(e.1 as int) }

  /** `Series.value_counts()`: one entry per distinct value with its count, the largest
      counts first. */
  function ValueCounts(tokens: seq<string>): (r: seq<Entry>)
    ensures multiset(r) == multiset(Counted(Distinct(tokens), tokens))
    ensures SortedBy(r, NegCount)
  {
    SortBy(Counted(Distinct(tokens), tokens), NegCount)
  }

  /** The ranking never goes up. */
  lemma ValueCountsOrdered(tokens: seq<string>)
    ensures var r := ValueCounts(tokens);
      forall i, j :: 0 <= i < j < |r| ==> r[i].1 >= r[j].1
  {
    var r := ValueCounts(tokens);
    forall i, j | 0 <= i < j < |r| ensures r[i].1 >= r[j].1 {
      assert NegCount(r[i]) <= NegCount(r[j]);
    }
  }

  /** Every entry's count is the number of occurrences of its name; every name occurs,
      and each name has exactly one entry. */
  lemma ValueCountsEntries(tokens: seq<string>)
    ensures var r := ValueCounts(tokens);
      && (forall i :: 0 <= i < |r| ==> r[i].1 == multiset(tokens)[r[i].0] >= 1)
      && (forall n :: n in tokens <==> exists i :: 0 <= i < |r| && r[i].0 == n)
      && (forall i, j :: 0 <= i < j < |r| ==> r[i].0 != r[j].0)
  {
    var names := Distinct(tokens);
    var c := Counted(names, tokens);
    var r := ValueCounts(tokens);
    forall i | 0 <= i < |r| ensures r[i].1 == multiset(tokens)[r[i].0] >= 1 {
      assert r[i] in multiset(c);
      var k :| 0 <= k < |c| && c[k] == r[i];
      assert names[k] in tokens;
    }
    forall n ensures n in tokens <==> exists i :: 0 <= i < |r| && r[i].0 == n {
      if n in tokens {
        var k :| 0 <= k < |names| && names[k] == n;
        assert c[k] in multiset(r);
        var i :| 0 <= i < |r| && r[i] == c[k];
        assert r[i].0 == n;
      }
      if exists i :: 0 <= i < |r| && r[i].0 == n {
        var i :| 0 <= i < |r| && r[i].0 == n;
        assert r[i] in multiset(c);
        var k :| 0 <= k < |c| && c[k] == r[i];
        assert names[k] in names;
      }
    }
    assert NoDuplicates(c) by {
      forall i, j | 0 <= i < j < |c| ensures c[i] != c[j] {
        assert names[i] != names[j];
      }
    }
    NoDuplicatesPermutation(c, r);
    forall i, j | 0 <= i < j < |r| ensures r[i].0 != r[j].0 {
      assert r[i] != r[j];
    }
  }

  /** The sum of the counts of a ranking. */
  function TotalCount(r: seq<Entry>): nat
  {
    if r == [] then 0 else r[0].1 + TotalCount(r[1..])
  }

  lemma {:induction false} TotalCountAppend(a: seq<Entry>, b: seq<Entry>)
    ensures TotalCount(a + b) == TotalCount(a) + TotalCount(b)
  {
    if a != [] {
      assert (a + b)[1..] == a[1..] + b;
      TotalCountAppend(a[1..], b);
    } else {
      assert a + b == b;
    }
  }

  /** Reordering the entries leaves the total unchanged. */
  lemma {:induction false} TotalCountPermutation(s: seq<Entry>, t: seq<Entry>)
    requires multiset(s) == multiset(t)
    ensures TotalCount(s) == TotalCount(t)
    decreases |s|
  {
    if s == [] {
      assert |t| == |multiset(t)| == 0;
    } else {
      assert s == [s[0]] + s[1..];
      assert s[0] in multiset(t);
      var k :| 0 <= k < |t| && t[k] == s[0];
      var rest := t[..k] + t[k + 1..];
      MultisetRemove(s, t, k);
      TotalCountPermutation(s[1..], rest);
      TotalCountAppend(t[..k], [t[k]] + t[k + 1..]);
      TotalCountAppend(t[..k], t[k + 1..]);
      assert ([t[k]] + t[k + 1..])[1..] == t[k + 1..];
      assert t[..k] + ([t[k]] + t[k + 1..]) == t;
    }
  }

  /** One more token adds one to the total over the names, if it is one of them. */
  lemma {:induction false} CountedSnoc(names: seq<string>, p: seq<string>, x: string)
    requires NoDuplicates(names)
    ensures TotalCount(Counted(names, p + [x])) == TotalCount(Counted(names, p)) + (if x in names then 1 else 0)
  {
    if names != [] {
      assert Counted(names, p + [x])[1..] == Counted(names[1..], p + [x]);
      assert Counted(names, p)[1..] == Counted(names[1..], p);
      assert NoDuplicates(names[1..]) by {
        forall i, j | 0 <= i < j < |names[1..]| ensures names[1..][i] != names[1..][j] {
          assert names[1..][i] == names[i + 1] && names[1..][j] == names[j + 1];
        }
      }
      CountedSnoc(names[1..], p, x);
      assert multiset(p + [x]) == multiset(p) + multiset{x};
      assert names == [names[0]] + names[1..];
      if names[0] == x {
        assert x !in names[1..];
      }
    }
  }

  /** The counts of the distinct names add up to the number of tokens. */
  lemma {:induction false} DistinctCountsTotal(tokens: seq<string>)
    ensures TotalCount(Counted(Distinct(tokens), tokens)) == |tokens|
    decreases |tokens|
  {
    if tokens != [] {
      var p, x := tokens[..|tokens| - 1], tokens[|tokens| - 1];
      assert tokens == p + [x];
      var d := Distinct(p);
      DistinctCountsTotal(p);
      CountedSnoc(d, p, x);
      if x !in d {
        assert Counted(d + [x], tokens) == Counted(d, tokens) + [(x, multiset(tokens)[x])];
        TotalCountAppend(Counted(d, tokens), [(x, multiset(tokens)[x])]);
        assert multiset(tokens)[x] == multiset(p)[x] + 1;
        assert x !in p;
      }
    }
  }

  /** The counts of the ranking add up to the number of tokens. */
  lemma ValueCountsTotal(tokens: seq<string>)
    ensures TotalCount(ValueCounts(tokens)) == |tokens|
  {
    TotalCountPermutation(ValueCounts(tokens), Counted(Distinct(tokens), tokens));
    DistinctCountsTotal(tokens);
  }

  /** `top_actors[1:6]`: positions 1 to 5 of the ranking, as far as it goes. */
  function DisplaySlice(r: seq<Entry>): (shown: seq<Entry>)
    ensures |shown| <= 5
    ensures |shown| == if |r| <= 1 then 0 else if |r| >= 6 then 5 else |r| - 1
    ensures forall i :: 0 <= i < |shown| ==> shown[i] == r[i + 1]
  {
    if |r| <= 1 then [] else r[1..if |r| >= 6 then 6 else |r|]
  }

  /** The shown lines are positions 1 to 5 of the ranking: each with the true count
      of its name, no name twice, counts never going up, never the top-ranked name. */
  lemma DisplayedLines(tokens: seq<string>)
    ensures var ranking := ValueCounts(tokens);
      var shown := DisplaySlice(ranking);
      && (forall i :: 0 <= i < |shown| ==> shown[i] == ranking[i + 1])
      && (forall i :: 0 <= i < |shown| ==> shown[i].1 == multiset(tokens)[shown[i].0] >= 1)
      && (forall i, j :: 0 <= i < j < |shown| ==> shown[i].0 != shown[j].0 && shown[i].1 >= shown[j].1)
      && (forall i :: 0 <= i < |shown| ==> shown[i].0 != ranking[0].0)
  {
    var ranking := ValueCounts(tokens);
    var shown := DisplaySlice(ranking);
    ValueCountsEntries(tokens);
    ValueCountsOrdered(tokens);
    forall i, j | 0 <= i < j < |shown| ensures shown[i].0 != shown[j].0 && shown[i].1 >= shown[j].1 {
      assert shown[i] == ranking[i + 1] && shown[j] == ranking[j + 1];
    }
  }

  /** With no movie selected the ranking is the single entry ("", 1) and nothing is shown. */
  lemma EmptySelectionRanking()
    ensures ValueCounts(CastTokens([])) == [("", 1)]
    ensures DisplaySlice(ValueCounts(CastTokens([]))) == []
  {
    CastTokensOfCasts([]);
    assert Distinct([""]) == [""] by {
      assert [""][..0] == [];
    }
    assert Counted([""], [""]) == [("", 1)];
  }

  /** The lines of an actor table: ranking positions 1 to 5 of the names in the cast lists. */
  function ActorLines(casts: seq<string>): (shown: seq<Entry>)
    ensures |shown| <= 5
    ensures casts == [] ==> shown == []
  {
    EmptySelectionRanking();
    DisplaySlice(ValueCounts(CastTokens(casts)))
  }

  /** The ranked names are the cast lists' own names, list by list (a name in several
      lists counts once per list). */
  lemma ActorLinesOfCasts(casts: seq<string>)
    ensures ActorLines(casts) == DisplaySlice(ValueCounts(SplitEach(casts, '|')))
  {
    CastTokensOfCasts(casts);
    if casts == [] {
      assert SplitEach(casts, '|') == [];
      assert Distinct([]) == [];
    }
  }
}
