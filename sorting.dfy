/**
 * A stable sort of records by a string key, standing in for Rust's
 * `Vec<String>::sort` and for JavaScript's stable `Array.prototype.sort`
 * with a name comparator. Strings are ordered lexicographically by code point.
 */
module Sorting {

  /** Lexicographic order on strings by code point (a prefix comes first). */
  predicate LexLe(a: string, b: string)
    decreases |a|
  {
    if a == [] then true
    else if b == [] then false
    else if a[0] != b[0] then a[0] < b[0]
    else LexLe(a[1..], b[1..])
  }

  lemma {:induction false} LexLeTotal(a: string, b: string)
    ensures LexLe(a, b) || LexLe(b, a)
    decreases |a|
  {
    if a != [] && b != [] && a[0] == b[0] {
      LexLeTotal(a[1..], b[1..]);
    }
  }

  lemma {:induction false} LexLeTransitive(a: string, b: string, c: string)
    requires LexLe(a, b) && LexLe(b, c)
    ensures LexLe(a, c)
    decreases |a|
  {
    if a != [] && b != [] && c != [] && a[0] == b[0] && b[0] == c[0] {
      LexLeTransitive(a[1..], b[1..], c[1..]);
    }
  }

  lemma {:induction false} LexLeAntisymmetric(a: string, b: string)
    requires LexLe(a, b) && LexLe(b, a)
    ensures a == b
    decreases |a|
  {
    if a != [] && b != [] {
      LexLeAntisymmetric(a[1..], b[1..]);
      assert a == [a[0]] + a[1..];
      assert b == [b[0]] + b[1..];
    }
  }

  /** `s` is in non-decreasing key order. */
  ghost predicate SortedBy<T>(s: seq<T>, key: T -> string) {
    forall i, j :: 0 <= i < j < |s| ==> LexLe(key(s[i]), key(s[j]))
  }

  /** Inserts `x` after every element whose key is not greater than its own. */
  function Insert<T>(x: T, s: seq<T>, key: T -> string): seq<T>
  {
    if s == [] then [x]
    else if LexLe(key(x), key(s[0])) && key(x) != key(s[0]) then [x] + s
    else [s[0]] + Insert(x, s[1..], key)
  }

  /** Stable insertion sort: elements with equal keys keep their input order. */
  function SortBy<T>(s: seq<T>, key: T -> string): seq<T>
  {
    if s == [] then [] else Insert(s[|s| - 1], SortBy(s[..|s| - 1], key), key)
  }

  lemma {:induction false} InsertPermutes<T>(x: T, s: seq<T>, key: T -> string)
    ensures multiset(Insert(x, s, key)) == multiset(s) + multiset{x}
    decreases |s|
  {
    if s != [] && !(LexLe(key(x), key(s[0])) && key(x) != key(s[0])) {
      InsertPermutes(x, s[1..], key);
      assert s == [s[0]] + s[1..];
    }
  }

  /** A lower bound of `x` and of every element of `s` bounds every element of `Insert(x, s)`. */
  lemma InsertBound<T>(b: string, x: T, s: seq<T>, key: T -> string)
    requires LexLe(b, key(x))
    requires forall j :: 0 <= j < |s| ==> LexLe(b, key(s[j]))
    ensures forall j :: 0 <= j < |Insert(x, s, key)| ==> LexLe(b, key(Insert(x, s, key)[j]))
  {
    var r := Insert(x, s, key);
    InsertPermutes(x, s, key);
    forall j | 0 <= j < |r| ensures LexLe(b, key(r[j])) {
      assert r[j] in multiset(r);
      if r[j] != x {
        assert r[j] in multiset(s);
        var k :| 0 <= k < |s| && s[k] == r[j];
      }
    }
  }

  lemma {:induction false} InsertSorted<T>(x: T, s: seq<T>, key: T -> string)
    requires SortedBy(s, key)
    ensures SortedBy(Insert(x, s, key), key)
    decreases |s|
  {
    if s == [] {
    } else if LexLe(key(x), key(s[0])) && key(x) != key(s[0]) {
      var r := [x] + s;
      forall i, j | 0 <= i < j < |r| ensures LexLe(key(r[i]), key(r[j])) {
        if i == 0 && j > 1 {
          LexLeTransitive(key(x), key(s[0]), key(s[j - 1]));
        }
      }
    } else {
      LexLeTotal(key(x), key(s[0]));
      assert LexLe(key(s[0]), key(x)) by {
        if key(x) == key(s[0]) {
          LexLeTotal(key(x), key(x));
        }
      }
      InsertSorted(x, s[1..], key);
      InsertBound(key(s[0]), x, s[1..], key);
      var tail := Insert(x, s[1..], key);
      var r := [s[0]] + tail;
      forall i, j | 0 <= i < j < |r| ensures LexLe(key(r[i]), key(r[j])) {
        if i > 0 {
          assert r[i] == tail[i - 1] && r[j] == tail[j - 1];
        }
      }
    }
  }

  /** The sorted sequence is a permutation of the input. */
  lemma {:induction false} SortByPermutes<T>(s: seq<T>, key: T -> string)
    ensures multiset(SortBy(s, key)) == multiset(s)
    decreases |s|
  {
    if s != [] {
      var init := s[..|s| - 1];
      SortByPermutes(init, key);
      InsertPermutes(s[|s| - 1], SortBy(init, key), key);
      assert s == init + [s[|s| - 1]];
    }
  }

  /** The sorted sequence is in key order. */
  lemma {:induction false} SortBySorted<T>(s: seq<T>, key: T -> string)
    ensures SortedBy(SortBy(s, key), key)
    decreases |s|
  {
    if s != [] {
      SortBySorted(s[..|s| - 1], key);
      InsertSorted(s[|s| - 1], SortBy(s[..|s| - 1], key), key);
    }
  }

  /** Sorting keeps the length and the elements. */
  lemma SortByElements<T>(s: seq<T>, key: T -> string)
    ensures |SortBy(s, key)| == |s|
    ensures forall x :: x in SortBy(s, key) <==> x in s
  {
    SortByPermutes(s, key);
    var r := SortBy(s, key);
    assert |multiset(r)| == |r| && |multiset(s)| == |s|;
    forall x ensures x in r <==> x in s {
      assert x in r <==> x in multiset(r);
      assert x in s <==> x in multiset(s);
    }
  }

  /** The sum of `f` over `s`. */
  function SumBy<T>(s: seq<T>, f: T -> nat): nat
  {
    if s == [] then 0 else SumBy(s[..|s| - 1], f) + f(s[|s| - 1])
  }

  lemma {:induction false} SumByAppend<T>(s: seq<T>, t: seq<T>, f: T -> nat)
    ensures SumBy(s + t, f) == SumBy(s, f) + SumBy(t, f)
    decreases |t|
  {
    if t == [] {
      assert s + t == s;
    } else {
      assert (s + t)[..|s + t| - 1] == s + t[..|t| - 1];
      assert (s + t)[|s + t| - 1] == t[|t| - 1];
      SumByAppend(s, t[..|t| - 1], f);
    }
  }

  lemma {:induction false} InsertSum<T>(x: T, s: seq<T>, key: T -> string, f: T -> nat)
    ensures SumBy(Insert(x, s, key), f) == SumBy(s, f) + f(x)
    decreases |s|
  {
    if s == [] {
      assert SumBy([x], f) == SumBy([x][..0], f) + f(x);
    } else if LexLe(key(x), key(s[0])) && key(x) != key(s[0]) {
      SumByAppend([x], s, f);
      assert SumBy([x], f) == SumBy([x][..0], f) + f(x);
    } else {
      InsertSum(x, s[1..], key, f);
      SumByAppend([s[0]], Insert(x, s[1..], key), f);
      SumByAppend([s[0]], s[1..], f);
      assert SumBy([s[0]], f) == SumBy([s[0]][..0], f) + f(s[0]);
      assert s == [s[0]] + s[1..];
    }
  }

  /** Sorting keeps any sum over the elements. */
  lemma {:induction false} SortBySum<T>(s: seq<T>, key: T -> string, f: T -> nat)
    ensures SumBy(SortBy(s, key), f) == SumBy(s, f)
    decreases |s|
  {
    if s != [] {
      SortBySum(s[..|s| - 1], key, f);
      InsertSum(s[|s| - 1], SortBy(s[..|s| - 1], key), key, f);
    }
  }
}
