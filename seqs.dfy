/** Sequence operations that stand for the pandas row operations of the pipeline:
    boolean-mask filtering, concatenation and a stable sort on an integer key. */
module Seqs {

  /** `r` can be obtained from `s` by deleting elements, keeping the order of the rest. */
  predicate IsSubsequence<T(==,!new)>(r: seq<T>, s: seq<T>)
    decreases |s|
  {
    r == [] || (s != [] && ((r[0] == s[0] && IsSubsequence(r[1..], s[1..])) || IsSubsequence(r, s[1..])))
  }

  lemma {:induction false} SubsequenceTransitive<T(!new)>(a: seq<T>, b: seq<T>, c: seq<T>)
    requires IsSubsequence(a, b) && IsSubsequence(b, c)
    ensures IsSubsequence(a, c)
    decreases |b| + |c|
  {
    if a != [] {
      if IsSubsequence(b, c[1..]) {
        SubsequenceTransitive(a, b, c[1..]);
      } else if IsSubsequence(a, b[1..]) {
        SubsequenceTransitive(a, b[1..], c[1..]);
      } else {
        SubsequenceTransitive(a[1..], b[1..], c[1..]);
      }
    }
  }

  /** `df[mask]`: the elements that satisfy `keep`, in their original order. Every
      copy of a kept element survives and no other element does. */
  function Filter<T(==,!new)>(s: seq<T>, keep: T -> bool): (r: seq<T>)
    ensures |r| <= |s|
    ensures forall x :: multiset(r)[x] == if keep(x) then multiset(s)[x] else 0
    ensures forall x :: x in r <==> x in s && keep(x)
    ensures IsSubsequence(r, s)
    decreases |s|
  {
    if s == [] then []
    else
      assert s == [s[0]] + s[1..];
      var rest := Filter(s[1..], keep);
      if keep(s[0]) then
        assert ([s[0]] + rest)[1..] == rest;
        [s[0]] + rest
      else rest
  }

  /** A weaker condition keeps at least the same elements, in the same order. */
  lemma {:induction false} FilterWeaker<T(!new)>(s: seq<T>, p: T -> bool, q: T -> bool)
    requires forall x :: p(x) ==> q(x)
    ensures IsSubsequence(Filter(s, p), Filter(s, q))
    decreases |s|
  {
    if s != [] {
      FilterWeaker(s[1..], p, q);
      var fp, fq := Filter(s[1..], p), Filter(s[1..], q);
      if p(s[0]) {
        assert ([s[0]] + fp)[1..] == fp && ([s[0]] + fq)[1..] == fq;
      } else if q(s[0]) {
        assert ([s[0]] + fq)[1..] == fq;
      }
    }
  }

  /** All the inner sequences, one after the other (`np.concatenate`). */
  function Flatten<T(==,!new)>(xss: seq<seq<T>>): seq<T>
  {
    if xss == [] then [] else xss[0] + Flatten(xss[1..])
  }

  lemma {:induction false} FlattenAppend<T(!new)>(a: seq<seq<T>>, b: seq<seq<T>>)
    ensures Flatten(a + b) == Flatten(a) + Flatten(b)
  {
    if a != [] {
      assert (a + b)[0] == a[0];
      assert (a + b)[1..] == a[1..] + b;
      FlattenAppend(a[1..], b);
      assert Flatten(a + b) == a[0] + Flatten(a[1..] + b);
    } else {
      assert a + b == b;
    }
  }

  // Sorting on an integer key

  predicate SortedBy<T(==,!new)>(s: seq<T>, key: T -> int)
  {
    forall i, j :: 0 <= i < j < |s| ==> key(s[i]) <= key(s[j])
  }

  /** The elements whose key is `k`, in their order in `s`. */
  function KeyFilter<T(==,!new)>(s: seq<T>, key: T -> int, k: int): (r: seq<T>)
    ensures forall x :: x in r <==> x in s && key(x) == k
    decreases |s|
  {
    if s == [] then []
    else (if key(s[0]) == k then [s[0]] else []) + KeyFilter(s[1..], key, k)
  }

  lemma {:induction false} KeyFilterAppend<T(!new)>(a: seq<T>, b: seq<T>, key: T -> int, k: int)
    ensures KeyFilter(a + b, key, k) == KeyFilter(a, key, k) + KeyFilter(b, key, k)
  {
    if a == [] {
      assert a + b == b;
    } else {
      assert (a + b)[1..] == a[1..] + b;
      KeyFilterAppend(a[1..], b, key, k);
    }
  }

  /** When a key occurs only in the two front parts, or only in the two back parts,
      the parts can be regrouped without changing which elements carry it. */
  lemma KeyFilterRegroup<T(!new)>(a: seq<T>, a': seq<T>, b: seq<T>, b': seq<T>, key: T -> int, k: int)
    requires (KeyFilter(a', key, k) == [] && KeyFilter(b', key, k) == [])
          || (KeyFilter(a, key, k) == [] && KeyFilter(b, key, k) == [])
    ensures KeyFilter((a + a') + (b + b'), key, k) == KeyFilter(a + b, key, k) + KeyFilter(a' + b', key, k)
  {
    var fa, fa', fb, fb' := KeyFilter(a, key, k), KeyFilter(a', key, k), KeyFilter(b, key, k), KeyFilter(b', key, k);
    KeyFilterAppend(a + a', b + b', key, k);
    KeyFilterAppend(a, a', key, k);
    KeyFilterAppend(b, b', key, k);
    KeyFilterAppend(a, b, key, k);
    KeyFilterAppend(a', b', key, k);
    if fa' == [] && fb' == [] {
      assert fa + fa' == fa && fb + fb' == fb && fa' + fb' == [];
      assert (fa + fb) + [] == fa + fb;
    } else {
      assert fa + fa' == fa' && fb + fb' == fb' && fa + fb == [];
      assert [] + (fa' + fb') == fa' + fb';
    }
  }

  lemma KeyFilterNone<T(!new)>(s: seq<T>, key: T -> int, k: int)
    requires forall i :: 0 <= i < |s| ==> key(s[i]) != k
    ensures KeyFilter(s, key, k) == []
  {
  }

  lemma {:induction false} KeyFilterCons<T(!new)>(y: T, t: seq<T>, key: T -> int, k: int)
    ensures KeyFilter([y] + t, key, k) == (if key(y) == k then [y] else []) + KeyFilter(t, key, k)
  {
    assert ([y] + t)[1..] == t;
  }

  lemma SortedCons<T(!new)>(y: T, t: seq<T>, key: T -> int)
    requires SortedBy(t, key)
    requires forall j :: 0 <= j < |t| ==> key(y) <= key(t[j])
    ensures SortedBy([y] + t, key)
  {
    var r := [y] + t;
    forall i, j | 0 <= i < j < |r| ensures key(r[i]) <= key(r[j]) {
      assert r[j] == t[j - 1];
      if i > 0 {
        assert r[i] == t[i - 1];
      }
    }
  }

  lemma SortedHeadLeast<T(!new)>(s: seq<T>, key: T -> int, x: T)
    requires SortedBy(s, key) && x in s
    ensures key(s[0]) <= key(x)
  {
    var i :| 0 <= i < |s| && s[i] == x;
    assert i == 0 || key(s[0]) <= key(s[i]);
  }

  /** Puts `x` in front of the first element whose key is not smaller, so that `x`
      stays ahead of the elements with an equal key. */
  function InsertBy<T(==,!new)>(x: T, s: seq<T>, key: T -> int): (r: seq<T>)
    requires SortedBy(s, key)
    ensures SortedBy(r, key)
    ensures multiset(r) == multiset(s) + multiset{x}
    decreases |s|
  {
    if s == [] || key(x) <= key(s[0]) then
      assert forall j :: 0 <= j < |s| ==> key(x) <= key(s[j]) by {
        forall j | 0 <= j < |s| ensures key(x) <= key(s[j]) {
          SortedHeadLeast(s, key, s[j]);
        }
      }
      SortedCons(x, s, key);
      [x] + s
    else
      var rest := InsertBy(x, s[1..], key);
      assert s == [s[0]] + s[1..];
      assert forall j :: 0 <= j < |rest| ==> key(s[0]) <= key(rest[j]) by {
        forall j | 0 <= j < |rest| ensures key(s[0]) <= key(rest[j]) {
          assert rest[j] in multiset(rest);
          if rest[j] != x {
            assert rest[j] in s;
            SortedHeadLeast(s, key, rest[j]);
          }
        }
      }
      SortedCons(s[0], rest, key);
      [s[0]] + rest
  }

  /** Inserting keeps `x` ahead of the elements of `s` that share its key. */
  lemma {:induction false} InsertByStable<T(!new)>(x: T, s: seq<T>, key: T -> int, k: int)
    requires SortedBy(s, key)
    ensures KeyFilter(InsertBy(x, s, key), key, k) == KeyFilter([x] + s, key, k)
    decreases |s|
  {
    if s != [] && key(x) > key(s[0]) {
      var rest := InsertBy(x, s[1..], key);
      assert InsertBy(x, s, key) == [s[0]] + rest;
      InsertByStable(x, s[1..], key, k);
      assert s == [s[0]] + s[1..];
      PassKeyFilter(x, s[0], s[1..], rest, key, k);
    }
  }

  /** Moving `x` behind an element with a smaller key changes no key's elements. */
  lemma PassKeyFilter<T(!new)>(x: T, y: T, t: seq<T>, rest: seq<T>, key: T -> int, k: int)
    requires key(x) > key(y)
    requires KeyFilter(rest, key, k) == KeyFilter([x] + t, key, k)
    ensures KeyFilter([y] + rest, key, k) == KeyFilter([x] + ([y] + t), key, k)
  {
    var hx := if key(x) == k then [x] else [];
    var hy := if key(y) == k then [y] else [];
    var tail := KeyFilter(t, key, k);
    KeyFilterCons(y, rest, key, k);
    KeyFilterCons(x, t, key, k);
    KeyFilterCons(x, [y] + t, key, k);
    KeyFilterCons(y, t, key, k);
    assert hx == [] || hy == [];
    assert hy + (hx + tail) == hx + (hy + tail);
  }

  /** A stable sort on `key`: insertion sort, where earlier elements stay ahead of
      later ones with an equal key. */
  function SortBy<T(==,!new)>(s: seq<T>, key: T -> int): (r: seq<T>)
    ensures SortedBy(r, key)
    ensures multiset(r) == multiset(s)
    decreases |s|
  {
    if s == [] then []
    else
      assert s == [s[0]] + s[1..];
      InsertBy(s[0], SortBy(s[1..], key), key)
  }

  /** The sort is stable: for every key, the elements carrying it keep their order. */
  lemma {:induction false} SortByStable<T(!new)>(s: seq<T>, key: T -> int, k: int)
    ensures KeyFilter(SortBy(s, key), key, k) == KeyFilter(s, key, k)
    decreases |s|
  {
    if s != [] {
      assert s == [s[0]] + s[1..];
      InsertByStable(s[0], SortBy(s[1..], key), key, k);
      KeyFilterCons(s[0], SortBy(s[1..], key), key, k);
      SortByStable(s[1..], key, k);
      KeyFilterCons(s[0], s[1..], key, k);
    }
  }

  /** Two sequences sorted on a key that agree, key by key, on which elements carry
      that key and in which order, are equal: a stable sort has only one possible result. */
  lemma {:induction false} SortedUnique<T(!new)>(a: seq<T>, b: seq<T>, key: T -> int)
    requires SortedBy(a, key) && SortedBy(b, key)
    requires forall k :: KeyFilter(a, key, k) == KeyFilter(b, key, k)
    ensures a == b
    decreases |a|
  {
    assert a != [] ==> a[0] in KeyFilter(a, key, key(a[0]));
    assert b != [] ==> b[0] in KeyFilter(b, key, key(b[0]));
    if a != [] && b != [] {
      var ka, kb := key(a[0]), key(b[0]);
      assert b[0] in KeyFilter(b, key, kb);
      assert a[0] in KeyFilter(a, key, ka);
      SortedHeadLeast(a, key, b[0]);
      SortedHeadLeast(b, key, a[0]);
      assert ka == kb;
      forall k
        ensures KeyFilter(a[1..], key, k) == KeyFilter(b[1..], key, k)
      {
        TailKeyFilters(a, b, key, k);
      }
      TailKeyFilters(a, b, key, ka);
      SortedTail(a, key);
      SortedTail(b, key);
      SortedUnique(a[1..], b[1..], key);
      assert a == [a[0]] + a[1..];
      assert b == [b[0]] + b[1..];
    }
  }

  lemma TailKeyFilters<T(!new)>(a: seq<T>, b: seq<T>, key: T -> int, k: int)
    requires a != [] && b != [] && key(a[0]) == key(b[0])
    requires KeyFilter(a, key, k) == KeyFilter(b, key, k)
    ensures KeyFilter(a[1..], key, k) == KeyFilter(b[1..], key, k)
    ensures k == key(a[0]) ==> a[0] == b[0]
  {
    var fa, fb := KeyFilter(a[1..], key, k), KeyFilter(b[1..], key, k);
    assert KeyFilter(a, key, k) == (if key(a[0]) == k then [a[0]] else []) + fa;
    assert KeyFilter(b, key, k) == (if key(b[0]) == k then [b[0]] else []) + fb;
    if k == key(a[0]) {
      assert ([a[0]] + fa)[0] == a[0] && ([a[0]] + fa)[1..] == fa;
      assert ([b[0]] + fb)[1..] == fb;
    } else {
      assert [] + fa == fa && [] + fb == fb;
    }
  }

  lemma SortedTail<T(!new)>(s: seq<T>, key: T -> int)
    requires SortedBy(s, key) && s != []
    ensures SortedBy(s[1..], key)
  {
    forall i, j | 0 <= i < j < |s| - 1 ensures key(s[1..][i]) <= key(s[1..][j]) {
      assert s[1..][i] == s[i + 1] && s[1..][j] == s[j + 1];
    }
  }

  // Duplicates

  predicate NoDuplicates<T(==,!new)>(s: seq<T>)
  {
    forall i, j :: 0 <= i < j < |s| ==> s[i] != s[j]
  }

  lemma {:induction false} NoDuplicatesCount<T(!new)>(s: seq<T>, x: T)
    requires NoDuplicates(s)
    ensures multiset(s)[x] <= 1
  {
    if s != [] {
      assert s == [s[0]] + s[1..];
      assert NoDuplicates(s[1..]) by {
        forall i, j | 0 <= i < j < |s[1..]| ensures s[1..][i] != s[1..][j] {
          assert s[1..][i] == s[i + 1] && s[1..][j] == s[j + 1];
        }
      }
      NoDuplicatesCount(s[1..], x);
      if s[0] == x {
        assert x !in s[1..];
      }
    }
  }

  /** A permutation of a sequence without duplicates has none either. */
  lemma NoDuplicatesPermutation<T(!new)>(s: seq<T>, t: seq<T>)
    requires multiset(s) == multiset(t) && NoDuplicates(s)
    ensures NoDuplicates(t)
  {
    forall i, j | 0 <= i < j < |t| ensures t[i] != t[j] {
      if t[i] == t[j] {
        assert t == t[..i] + [t[i]] + t[i + 1..j] + [t[j]] + t[j + 1..];
        assert multiset(t)[t[i]] >= 2;
        NoDuplicatesCount(s, t[i]);
        assert false;
      }
    }
  }

  /** Taking the same element out of two permutations of each other leaves permutations. */
  lemma MultisetRemove<T(!new)>(s: seq<T>, t: seq<T>, k: nat)
    requires multiset(s) == multiset(t) && s != [] && k < |t| && t[k] == s[0]
    ensures multiset(s[1..]) == multiset(t[..k] + t[k + 1..])
  {
    assert s == [s[0]] + s[1..];
    assert t == t[..k] + [t[k]] + t[k + 1..];
    calc {
      multiset(s[1..]);
      multiset(s) - multiset{s[0]};
      multiset(t) - multiset{t[k]};
      multiset(t[..k]) + multiset(t[k + 1..]);
      multiset(t[..k] + t[k + 1..]);
    }
  }
}
