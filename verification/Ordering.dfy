/** Sequence operations behind SELECT: filtering, mapping and ORDER BY. */
module Ordering {

  function Filter<T>(s: seq<T>, keep: T -> bool): seq<T> {
    if s == [] then []
    else Filter(s[..|s| - 1], keep) + if keep(s[|s| - 1]) then [s[|s| - 1]] else []
  }

  function Map<S, T>(s: seq<S>, f: S -> T): (r: seq<T>)
    ensures |r| == |s|
    ensures forall i :: 0 <= i < |s| ==> r[i] == f(s[i])
  {
    seq(|s|, i requires 0 <= i < |s| => f(s[i]))
  }

  function FlatMap<S, T>(s: seq<S>, f: S -> seq<T>): seq<T> {
    if s == [] then [] else FlatMap(s[..|s| - 1], f) + f(s[|s| - 1])
  }

  /** Inserts after every element whose key is not larger. */
  function Insert<T>(s: seq<T>, x: T, key: T -> nat): (r: seq<T>)
    ensures |r| == |s| + 1
  {
    if s == [] || key(s[|s| - 1]) <= key(x) then s + [x]
    else Insert(s[..|s| - 1], x, key) + [s[|s| - 1]]
  }

  /** ORDER BY key. */
  function SortBy<T>(s: seq<T>, key: T -> nat): (r: seq<T>)
    ensures |r| == |s|
  {
    if s == [] then [] else Insert(SortBy(s[..|s| - 1], key), s[|s| - 1], key)
  }

  ghost predicate Sorted<T>(s: seq<T>, key: T -> nat) {
    forall i, j :: 0 <= i <= j < |s| ==> key(s[i]) <= key(s[j])
  }

  ghost predicate DistinctBy<T>(s: seq<T>, key: T -> nat) {
    forall i, j :: 0 <= i < j < |s| ==> key(s[i]) != key(s[j])
  }

  lemma {:induction false} InsertElements<T(!new)>(s: seq<T>, x: T, key: T -> nat)
    ensures multiset(Insert(s, x, key)) == multiset(s) + multiset{x}
    ensures forall y :: y in Insert(s, x, key) <==> y in s || y == x
  {
    if s != [] && key(s[|s| - 1]) > key(x) {
      InsertElements(s[..|s| - 1], x, key);
      assert s == s[..|s| - 1] + [s[|s| - 1]];
    }
  }

  lemma {:induction false} InsertSorts<T(!new)>(s: seq<T>, x: T, key: T -> nat)
    requires Sorted(s, key)
    ensures Sorted(Insert(s, x, key), key)
  {
    if s != [] && key(s[|s| - 1]) > key(x) {
      var init, last := s[..|s| - 1], s[|s| - 1];
      InsertSorts(init, x, key);
      InsertElements(init, x, key);
      var r := Insert(init, x, key);
      forall i | 0 <= i < |r| ensures key(r[i]) <= key(last) {
        assert r[i] in r;
      }
    }
  }

  lemma {:induction false} SortBySorts<T(!new)>(s: seq<T>, key: T -> nat)
    ensures Sorted(SortBy(s, key), key)
    ensures multiset(SortBy(s, key)) == multiset(s)
  {
    if s != [] {
      SortBySorts(s[..|s| - 1], key);
      InsertSorts(SortBy(s[..|s| - 1], key), s[|s| - 1], key);
      InsertElements(SortBy(s[..|s| - 1], key), s[|s| - 1], key);
      assert s == s[..|s| - 1] + [s[|s| - 1]];
    }
  }

  lemma SameElements<T(!new)>(s: seq<T>, key: T -> nat)
    ensures forall x :: x in SortBy(s, key) <==> x in s
  {
    SortBySorts(s, key);
    assert forall x :: x in SortBy(s, key) <==> x in multiset(SortBy(s, key));
  }

  lemma {:induction false} SortOfSorted<T(!new)>(s: seq<T>, key: T -> nat)
    requires Sorted(s, key)
    ensures SortBy(s, key) == s
  {
    if s != [] {
      SortOfSorted(s[..|s| - 1], key);
    }
  }

  lemma SortIdempotent<T(!new)>(s: seq<T>, key: T -> nat)
    ensures SortBy(SortBy(s, key), key) == SortBy(s, key)
  {
    SortBySorts(s, key);
    SortOfSorted(SortBy(s, key), key);
  }

  lemma {:induction false} InsertCommutesWithMap<S(!new), T(!new)>(s: seq<S>, x: S, f: S -> T, keyS: S -> nat,
      keyT: T -> nat)
    requires forall y :: y in s || y == x ==> keyT(f(y)) == keyS(y)
    ensures Map(Insert(s, x, keyS), f) == Insert(Map(s, f), f(x), keyT)
  {
    if s != [] && keyS(s[|s| - 1]) > keyS(x) {
      InsertCommutesWithMap(s[..|s| - 1], x, f, keyS, keyT);
      assert Map(s, f)[..|s| - 1] == Map(s[..|s| - 1], f);
      assert Map(Insert(s, x, keyS), f) == Map(Insert(s[..|s| - 1], x, keyS), f) + [f(s[|s| - 1])];
    } else {
      assert Map(s + [x], f) == Map(s, f) + [f(x)];
    }
  }

  /** Ordering before or after a key-preserving map is the same. */
  lemma {:induction false} SortCommutesWithMap<S(!new), T(!new)>(s: seq<S>, f: S -> T, keyS: S -> nat, keyT: T -> nat)
    requires forall x :: x in s ==> keyT(f(x)) == keyS(x)
    ensures Map(SortBy(s, keyS), f) == SortBy(Map(s, f), keyT)
  {
    if s != [] {
      var init := s[..|s| - 1];
      SortCommutesWithMap(init, f, keyS, keyT);
      SameElements(init, keyS);
      InsertCommutesWithMap(SortBy(init, keyS), s[|s| - 1], f, keyS, keyT);
      assert Map(s, f)[..|s| - 1] == Map(init, f);
    }
  }

  lemma {:induction false} SortKeepsDistinct<T(!new)>(s: seq<T>, key: T -> nat)
    requires DistinctBy(s, key)
    ensures DistinctBy(SortBy(s, key), key)
  {
    if s != [] {
      var init, last := s[..|s| - 1], s[|s| - 1];
      SortKeepsDistinct(init, key);
      SameElements(init, key);
      InsertKeepsDistinct(SortBy(init, key), last, key);
    }
  }

  lemma {:induction false} InsertKeepsDistinct<T(!new)>(s: seq<T>, x: T, key: T -> nat)
    requires DistinctBy(s, key) && forall y :: y in s ==> key(y) != key(x)
    ensures DistinctBy(Insert(s, x, key), key)
    ensures forall y :: y in Insert(s, x, key) <==> y in s || y == x
  {
    if s != [] && key(s[|s| - 1]) > key(x) {
      InsertKeepsDistinct(s[..|s| - 1], x, key);
      assert s == s[..|s| - 1] + [s[|s| - 1]];
      var r := Insert(s[..|s| - 1], x, key);
      forall i | 0 <= i < |r| ensures key(r[i]) != key(s[|s| - 1]) {
        assert r[i] in r;
      }
    }
  }

  lemma {:induction false} FilterConcat<T(!new)>(a: seq<T>, b: seq<T>, keep: T -> bool)
    ensures Filter(a + b, keep) == Filter(a, keep) + Filter(b, keep)
  {
    if b == [] {
      assert a + b == a;
    } else {
      var init, last := b[..|b| - 1], b[|b| - 1];
      var kept := if keep(last) then [last] else [];
      FilterConcat(a, init, keep);
      assert (a + b)[..|a + b| - 1] == a + init && (a + b)[|a + b| - 1] == last;
      assert Filter(a + b, keep) == Filter(a + init, keep) + kept;
      assert Filter(b, keep) == Filter(init, keep) + kept;
    }
  }

  lemma {:induction false} FilterElements<T(!new)>(s: seq<T>, keep: T -> bool)
    ensures forall x :: x in Filter(s, keep) <==> x in s && keep(x)
  {
    if s != [] {
      FilterElements(s[..|s| - 1], keep);
      assert s == s[..|s| - 1] + [s[|s| - 1]];
    }
  }

  /** A filter keeps every copy of what it keeps. */
  lemma {:induction false} FilterCount<T(!new)>(s: seq<T>, keep: T -> bool, x: T)
    ensures multiset(Filter(s, keep))[x] == if keep(x) then multiset(s)[x] else 0
  {
    if s != [] {
      var init, last := s[..|s| - 1], s[|s| - 1];
      FilterCount(init, keep, x);
      assert s == init + [last];
    }
  }

  lemma {:induction false} FilterAll<T(!new)>(s: seq<T>, keep: T -> bool)
    requires forall i :: 0 <= i < |s| ==> keep(s[i])
    ensures Filter(s, keep) == s
  {
    if s != [] { FilterAll(s[..|s| - 1], keep); }
  }

  lemma {:induction false} FilterNone<T(!new)>(s: seq<T>, keep: T -> bool)
    requires forall i :: 0 <= i < |s| ==> !keep(s[i])
    ensures Filter(s, keep) == []
  {
    if s != [] { FilterNone(s[..|s| - 1], keep); }
  }

  /** When a filter keeps all that one element contributes and nothing that another does. */
  lemma {:induction false} FilterFlatMap<S(!new), T(!new)>(s: seq<S>, i: nat, f: S -> seq<T>, keep: T -> bool)
    requires i < |s|
    requires forall j, x :: 0 <= j < |s| && x in f(s[j]) ==> (keep(x) <==> j == i)
    ensures Filter(FlatMap(s, f), keep) == f(s[i])
  {
    hide Filter;
    var n := |s| - 1;
    var init, last := s[..n], s[n];
    FilterConcat(FlatMap(init, f), f(last), keep);
    if i < n {
      FilterFlatMap(init, i, f, keep);
      FilterNone(f(last), keep);
    } else {
      FlatMapAll(init, f, (x: T) => !keep(x));
      FilterNone(FlatMap(init, f), keep);
      FilterAll(f(last), keep);
    }
  }

  lemma {:induction false} FlatMapAll<S(!new), T(!new)>(s: seq<S>, f: S -> seq<T>, ok: T -> bool)
    requires forall j, x :: 0 <= j < |s| && x in f(s[j]) ==> ok(x)
    ensures forall k :: 0 <= k < |FlatMap(s, f)| ==> ok(FlatMap(s, f)[k])
  {
    if s != [] {
      FlatMapAll(s[..|s| - 1], f, ok);
    }
  }

  lemma {:induction false} FilterCommutesWithMap<S(!new), T(!new)>(s: seq<S>, f: S -> T, keepS: S -> bool,
      keepT: T -> bool)
    requires forall x :: x in s ==> keepT(f(x)) == keepS(x)
    ensures Map(Filter(s, keepS), f) == Filter(Map(s, f), keepT)
  {
    if s != [] {
      FilterCommutesWithMap(s[..|s| - 1], f, keepS, keepT);
      assert Map(s, f)[..|s| - 1] == Map(s[..|s| - 1], f);
      assert Map(s[..|s| - 1], f) + [f(s[|s| - 1])] == Map(s, f);
    }
  }

  lemma {:induction false} FilterKeepsSorted<T(!new)>(s: seq<T>, keep: T -> bool, key: T -> nat)
    requires Sorted(s, key)
    ensures Sorted(Filter(s, keep), key)
  {
    if s != [] {
      FilterKeepsSorted(s[..|s| - 1], keep, key);
      FilterElements(s[..|s| - 1], keep);
      var before := Filter(s[..|s| - 1], keep);
      forall i | 0 <= i < |before| ensures key(before[i]) <= key(s[|s| - 1]) {
        assert before[i] in before;
      }
    }
  }
}
