/** Stable sorting by a score, the one primitive behind every ranking in the
    core: Python's `sorted(xs, key=f)` and `xs.sort(key=f)` are stable, and
    `reverse=True` keeps equal elements in their original order as well, so
    a descending sort is a stable ascending sort on the negated score. */
module Ranking {
  import opened PyText

  /** `s` is ordered by `key`, smallest first. */
  ghost predicate Ascending<T>(s: seq<T>, key: T -> real)
  {
    forall i, j :: 0 <= i < j < |s| ==> key(s[i]) <= key(s[j])
  }

  /** The elements of `s` whose key is `c`, in the order they appear. */
  function WithKey<T>(s: seq<T>, key: T -> real, c: real): seq<T>
  {
    if s == [] then []
    else WithKey(s[..|s| - 1], key, c) + (if key(s[|s| - 1]) == c then [s[|s| - 1]] else [])
  }

  /** Inserts `x` into the ordered `s` behind every element whose key is not
      greater than that of `x`, so that `x` follows its equals. */
  function Insert<T>(x: T, s: seq<T>, key: T -> real): (r: seq<T>)
    requires Ascending(s, key)
    ensures |r| == |s| + 1 && multiset(r) == multiset(s) + multiset{x}
    ensures Ascending(r, key)
    ensures r[|r| - 1] == x || (s != [] && r[|r| - 1] == s[|s| - 1])
  {
    if s == [] || key(s[|s| - 1]) <= key(x) then s + [x]
    else
      var init := s[..|s| - 1];
      assert s == init + [s[|s| - 1]];
      Insert(x, init, key) + [s[|s| - 1]]
  }

  /** Python's stable `sorted(s, key=key)`, as an insertion sort. */
  function StableSort<T>(s: seq<T>, key: T -> real): (r: seq<T>)
    ensures |r| == |s| && multiset(r) == multiset(s)
    ensures Ascending(r, key)
  {
    if s == [] then []
    else
      assert s == s[..|s| - 1] + [s[|s| - 1]];
      Insert(s[|s| - 1], StableSort(s[..|s| - 1], key), key)
  }

  lemma WithKeySnoc<T>(s: seq<T>, x: T, key: T -> real, c: real)
    ensures WithKey(s + [x], key, c) == WithKey(s, key, c) + (if key(x) == c then [x] else [])
  {
    assert (s + [x])[..|s|] == s;
  }

  lemma {:induction false} InsertKeepsTies<T>(x: T, s: seq<T>, key: T -> real, c: real)
    requires Ascending(s, key)
    ensures WithKey(Insert(x, s, key), key, c)
         == WithKey(s, key, c) + (if key(x) == c then [x] else [])
    decreases |s|
  {
    if s == [] || key(s[|s| - 1]) <= key(x) {
      WithKeySnoc(s, x, key, c);
    } else {
      var init, last := s[..|s| - 1], s[|s| - 1];
      assert s == init + [last];
      var r' := Insert(x, init, key);
      InsertKeepsTies(x, init, key, c);
      WithKeySnoc(r', last, key, c);
      WithKeySnoc(init, last, key, c);
      var wx: seq<T> := if key(x) == c then [x] else [];
      var wl: seq<T> := if key(last) == c then [last] else [];
      assert wx == [] || wl == [];
      calc {
        WithKey(Insert(x, s, key), key, c);
        WithKey(r' + [last], key, c);
        WithKey(init, key, c) + wx + wl;
        WithKey(init, key, c) + wl + wx;
        WithKey(s, key, c) + wx;
      }
    }
  }

  /** Stability: for every score, the elements with that score come out in
      the order they went in. */
  lemma {:induction false} StableSortKeepsTies<T>(s: seq<T>, key: T -> real, c: real)
    ensures WithKey(StableSort(s, key), key, c) == WithKey(s, key, c)
    decreases |s|
  {
    if s != [] {
      var init, last := s[..|s| - 1], s[|s| - 1];
      StableSortKeepsTies(init, key, c);
      InsertKeepsTies(last, StableSort(init, key), key, c);
    }
  }

  lemma {:induction false} WithKeyEmpty<T>(s: seq<T>, key: T -> real, c: real)
    ensures WithKey(s, key, c) == [] <==> forall i :: 0 <= i < |s| ==> key(s[i]) != c
    decreases |s|
  {
    if s != [] {
      var init := s[..|s| - 1];
      WithKeyEmpty(init, key, c);
      assert forall i :: 0 <= i < |init| ==> init[i] == s[i];
    }
  }

  /** `a` is a prefix of `b`. */
  ghost predicate IsPrefix<T>(a: seq<T>, b: seq<T>)
  {
    |a| <= |b| && a == b[..|a|]
  }

  /** The elements of a prefix with a given key are a prefix of the
      elements of the whole with that key. */
  lemma {:induction false} WithKeyPrefix<T>(s: seq<T>, k: nat, key: T -> real, c: real)
    requires k <= |s|
    ensures IsPrefix(WithKey(s[..k], key, c), WithKey(s, key, c))
    decreases |s|
  {
    if k < |s| {
      var init := s[..|s| - 1];
      assert init[..k] == s[..k];
      WithKeyPrefix(init, k, key, c);
      var a, b := WithKey(s[..k], key, c), WithKey(init, key, c);
      var w := WithKey(s, key, c);
      assert w == b + (if key(s[|s| - 1]) == c then [s[|s| - 1]] else []);
      assert w[..|b|] == b;
      assert w[..|a|] == b[..|a|];
    } else {
      assert s[..k] == s;
    }
  }

  /** Two ordered sequences that agree on the elements of every key are
      equal: order plus stability leaves no choice. */
  lemma {:induction false} AscendingTiesUnique<T>(r: seq<T>, t: seq<T>, key: T -> real)
    requires Ascending(r, key) && Ascending(t, key)
    requires forall c :: WithKey(r, key, c) == WithKey(t, key, c)
    ensures r == t
    decreases |r|
  {
    if r == [] || t == [] {
      if r != [] {
        WithKeyEmpty(r, key, key(r[0]));
        WithKeyEmpty(t, key, key(r[0]));
      }
      if t != [] {
        WithKeyEmpty(r, key, key(t[0]));
        WithKeyEmpty(t, key, key(t[0]));
      }
    } else {
      var r', x := r[..|r| - 1], r[|r| - 1];
      var t', y := t[..|t| - 1], t[|t| - 1];
      assert key(x) <= key(y) by {
        assert WithKey(r, key, key(x)) != [];
        WithKeyEmpty(t, key, key(x));
      }
      assert key(y) <= key(x) by {
        assert WithKey(t, key, key(y)) != [];
        WithKeyEmpty(r, key, key(y));
      }
      var c := key(x);
      assert WithKey(r, key, c) == WithKey(r', key, c) + [x];
      assert WithKey(t, key, c) == WithKey(t', key, c) + [y];
      var w := WithKey(r, key, c);
      assert w == WithKey(t, key, c);
      assert x == w[|w| - 1] == y;
      assert WithKey(r', key, c) == w[..|w| - 1] == WithKey(t', key, c);
      forall c' ensures WithKey(r', key, c') == WithKey(t', key, c') {
        if c' != c {
          assert WithKey(r, key, c') == WithKey(r', key, c');
          assert WithKey(t, key, c') == WithKey(t', key, c');
        }
      }
      AscendingTiesUnique(r', t', key);
    }
  }

  /** `StableSort` is the only ordering of `s` that is sorted by `key` and
      keeps every key's elements in their original order. */
  lemma StableSortUnique<T>(s: seq<T>, r: seq<T>, key: T -> real)
    requires Ascending(r, key)
    requires forall c :: WithKey(r, key, c) == WithKey(s, key, c)
    ensures r == StableSort(s, key)
  {
    forall c ensures WithKey(r, key, c) == WithKey(StableSort(s, key), key, c) {
      StableSortKeepsTies(s, key, c);
    }
    AscendingTiesUnique(r, StableSort(s, key), key);
  }

  /** Top-k selection: the first `k` elements of the sorted sequence (Python
      slice semantics for any `k`) come from `s`, are in order, and no
      element of `s` that is left out sorts before one that is kept. */
  lemma SortedPrefixTop<T>(s: seq<T>, key: T -> real, k: int)
    ensures var r := PyPrefix(StableSort(s, key), k);
      && (forall x :: x in r ==> x in s)
      && Ascending(r, key)
      && (forall x, y :: x in r && y in s && y !in r ==> key(x) <= key(y))
  {
    var ranked := StableSort(s, key);
    var r := PyPrefix(ranked, k);
    forall x | x in r ensures x in s {
      assert x in multiset(ranked);
    }
    forall x, y | x in r && y in s && y !in r ensures key(x) <= key(y) {
      assert y in multiset(ranked);
      var iy :| 0 <= iy < |ranked| && ranked[iy] == y;
      var ix :| 0 <= ix < |r| && r[ix] == x;
      assert ranked[ix] == x;
    }
  }

  /** Selection, by position: the first `k` of the sorted sequence are
      drawn from `s`, and every element after the cut sorts no earlier than
      every element before it. */
  lemma SortedPrefixCut<T>(s: seq<T>, key: T -> real, k: int)
    ensures var ranked := StableSort(s, key);
      var r := PyPrefix(ranked, k);
      && multiset(r) <= multiset(s)
      && (forall i, j :: 0 <= i < |r| <= j < |ranked| ==> key(r[i]) <= key(ranked[j]))
  {
    var ranked := StableSort(s, key);
    var r := PyPrefix(ranked, k);
    assert ranked == r + ranked[|r|..];
    assert multiset(ranked) == multiset(r) + multiset(ranked[|r|..]);
  }

  /** Stability of the selection: each key's elements among the first `k`
      of the sorted sequence are the first elements of that key in `s`. */
  lemma SortedPrefixTies<T>(s: seq<T>, key: T -> real, k: int, c: real)
    ensures IsPrefix(WithKey(PyPrefix(StableSort(s, key), k), key, c), WithKey(s, key, c))
  {
    var ranked := StableSort(s, key);
    WithKeyPrefix(ranked, |PyPrefix(ranked, k)|, key, c);
    StableSortKeepsTies(s, key, c);
  }
}
