/**
 * The ordering the report store applies for `order("date", { ascending:
 * false })`: strings compare by code point, lexicographically, and rows are
 * put in non-increasing order of their key. Rows with equal keys keep the
 * order in which they were inserted.
 */
module Order {

  /** `a <= b` in code-point lexicographic order. */
  predicate StrLe(a: string, b: string)
    decreases |a|
  {
    if a == [] then true
    else if b == [] then false
    else if a[0] != b[0] then a[0] < b[0]
    else StrLe(a[1..], b[1..])
  }

  lemma {:induction false} StrLeTotal(a: string, b: string)
    ensures StrLe(a, b) || StrLe(b, a)
    decreases |a|
  {
    if a != [] && b != [] && a[0] == b[0] {
      StrLeTotal(a[1..], b[1..]);
    }
  }

  lemma {:induction false} StrLeTrans(a: string, b: string, c: string)
    ensures StrLe(a, b) && StrLe(b, c) ==> StrLe(a, c)
    decreases |a|
  {
    if a != [] && b != [] && c != [] && a[0] == b[0] && b[0] == c[0] {
      StrLeTrans(a[1..], b[1..], c[1..]);
    }
  }

  lemma {:induction false} StrLeAntisymmetric(a: string, b: string)
    ensures StrLe(a, b) && StrLe(b, a) ==> a == b
    decreases |a|
  {
    if a != [] && b != [] && a[0] == b[0] {
      StrLeAntisymmetric(a[1..], b[1..]);
      assert a == [a[0]] + a[1..] && b == [b[0]] + b[1..];
    }
  }

  lemma StrLeReflexive(a: string)
    ensures StrLe(a, a)
  {
  }

  /** Keys are non-increasing from left to right. */
  ghost predicate SortedDesc<T>(s: seq<T>, key: T -> string) {
    forall i, j :: 0 <= i < j < |s| ==> StrLe(key(s[j]), key(s[i]))
  }

  /**
   * Inserts `x`, which comes after every element of `s` in insertion order,
   * after the last element whose key is not smaller than its own.
   */
  function Insert<T>(s: seq<T>, x: T, key: T -> string): (r: seq<T>)
    ensures multiset(r) == multiset(s) + multiset{x}
    ensures |r| == |s| + 1
    decreases |s|
  {
    if s == [] then [x]
    else if StrLe(key(x), key(s[|s| - 1])) then s + [x]
    else
      var r := Insert(s[..|s| - 1], x, key) + [s[|s| - 1]];
      assert s == s[..|s| - 1] + [s[|s| - 1]];
      r
  }

  /** Insertion sort into non-increasing key order, stable. */
  function SortDesc<T>(s: seq<T>, key: T -> string): (r: seq<T>)
    ensures multiset(r) == multiset(s)
    ensures |r| == |s|
    decreases |s|
  {
    if s == [] then []
    else
      var r := Insert(SortDesc(s[..|s| - 1], key), s[|s| - 1], key);
      assert s == s[..|s| - 1] + [s[|s| - 1]];
      r
  }

  /** Appending an element whose key is at most the last key keeps the order. */
  lemma SortedSnoc<T>(s: seq<T>, x: T, key: T -> string)
    requires SortedDesc(s, key) && (s == [] || StrLe(key(x), key(s[|s| - 1])))
    ensures SortedDesc(s + [x], key)
  {
    var r := s + [x];
    forall i, j | 0 <= i < j < |r|
      ensures StrLe(key(r[j]), key(r[i]))
    {
      if j == |s| {
        assert r[i] == s[i];
        StrLeTrans(key(x), key(s[|s| - 1]), key(s[i]));
      } else {
        assert r[i] == s[i] && r[j] == s[j];
      }
    }
  }

  lemma {:induction false} InsertSorted<T>(s: seq<T>, x: T, key: T -> string)
    requires SortedDesc(s, key)
    ensures SortedDesc(Insert(s, x, key), key)
    ensures s != [] && !StrLe(key(x), key(s[|s| - 1])) ==> Insert(s, x, key)[|s|] == s[|s| - 1]
    ensures s == [] || StrLe(key(x), key(s[|s| - 1])) ==> Insert(s, x, key)[|s|] == x
    decreases |s|
  {
    if s != [] && !StrLe(key(x), key(s[|s| - 1])) {
      var init := s[..|s| - 1];
      var last := s[|s| - 1];
      assert SortedDesc(init, key);
      InsertSorted(init, x, key);
      var r0 := Insert(init, x, key);
      StrLeTotal(key(x), key(last));
      // The last element of `r0` is either `x` or the last element of `init`; both keys are at least `last`'s.
      assert StrLe(key(last), key(r0[|init|])) by {
        if init != [] && !StrLe(key(x), key(init[|init| - 1])) {
          assert r0[|init|] == init[|init| - 1];
        }
      }
      SortedSnoc(r0, last, key);
    } else {
      SortedSnoc(s, x, key);
    }
  }

  lemma {:induction false} SortDescSorted<T>(s: seq<T>, key: T -> string)
    ensures SortedDesc(SortDesc(s, key), key)
    decreases |s|
  {
    if s != [] {
      SortDescSorted(s[..|s| - 1], key);
      InsertSorted(SortDesc(s[..|s| - 1], key), s[|s| - 1], key);
    }
  }

  /** Sorting what is already in non-increasing order changes nothing, ties included. */
  lemma {:induction false} SortDescOfSorted<T>(s: seq<T>, key: T -> string)
    requires SortedDesc(s, key)
    ensures SortDesc(s, key) == s
    decreases |s|
  {
    if s != [] {
      var init := s[..|s| - 1];
      assert SortedDesc(init, key);
      SortDescOfSorted(init, key);
      if init != [] {
        assert StrLe(key(s[|s| - 1]), key(init[|init| - 1]));
      }
      assert init + [s[|s| - 1]] == s;
    }
  }
}
