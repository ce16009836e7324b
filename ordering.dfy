/** The orderings the pages sort by. A sort key is a sequence of integers
    compared lexicographically (LINQ OrderBy compares strings by character
    code here, numbers and enums by value); `SortBy` is the stable sort that
    OrderBy and OrderByDescending perform. */
module Ordering {
  import opened Seqs

  /** Strict lexicographic order on sort keys. */
  predicate LexLess(a: seq<int>, b: seq<int>)
    decreases |a|
  {
    |b| > 0 && (|a| == 0 || a[0] < b[0] || (a[0] == b[0] && LexLess(a[1..], b[1..])))
  }

  lemma {:induction false} LexLessIrreflexive(a: seq<int>)
    ensures !LexLess(a, a)
    decreases |a|
  {
    if |a| > 0 {
      LexLessIrreflexive(a[1..]);
    }
  }

  lemma {:induction false} LexLessTransitive(a: seq<int>, b: seq<int>, c: seq<int>)
    requires LexLess(a, b) && LexLess(b, c)
    ensures LexLess(a, c)
    decreases |a|
  {
    if |a| > 0 && a[0] == b[0] && b[0] == c[0] {
      LexLessTransitive(a[1..], b[1..], c[1..]);
    }
  }

  lemma {:induction false} LexLessTotal(a: seq<int>, b: seq<int>)
    ensures a == b || LexLess(a, b) || LexLess(b, a)
    decreases |a|
  {
    if |a| > 0 && |b| > 0 && a[0] == b[0] {
      LexLessTotal(a[1..], b[1..]);
      if a[1..] == b[1..] {
        assert a == [a[0]] + a[1..] && b == [b[0]] + b[1..];
      }
    }
  }

  lemma LexLessAsymmetric(a: seq<int>, b: seq<int>)
    requires LexLess(a, b)
    ensures !LexLess(b, a)
  {
    if LexLess(b, a) {
      LexLessTransitive(a, b, a);
      LexLessIrreflexive(a);
    }
  }

  /** "not strictly less" is transitive, since the order is total. */
  lemma LexNotLessTransitive(a: seq<int>, b: seq<int>, c: seq<int>)
    requires !LexLess(b, a) && !LexLess(c, b)
    ensures !LexLess(c, a)
  {
    LexLessTotal(a, b);
    LexLessTotal(b, c);
    if LexLess(a, b) && LexLess(b, c) {
      LexLessTransitive(a, b, c);
      LexLessAsymmetric(a, c);
    } else if LexLess(a, b) {
      LexLessAsymmetric(a, b);
    } else if LexLess(b, c) {
      LexLessAsymmetric(b, c);
    } else {
      LexLessIrreflexive(a);
    }
  }

  /** Key a comes strictly before key b in the chosen direction. */
  predicate Precedes(a: seq<int>, b: seq<int>, ascending: bool)
  {
    if ascending then LexLess(a, b) else LexLess(b, a)
  }

  /** "a is not after b" is transitive in either direction. */
  lemma NotAfterTransitive(a: seq<int>, b: seq<int>, c: seq<int>, ascending: bool)
    requires !Precedes(b, a, ascending) && !Precedes(c, b, ascending)
    ensures !Precedes(c, a, ascending)
  {
    if ascending {
      LexNotLessTransitive(a, b, c);
    } else {
      LexNotLessTransitive(c, b, a);
    }
  }

  /** No element of s has a key after the next and every element is in key order. */
  ghost predicate Sorted<T>(s: seq<T>, key: T -> seq<int>, ascending: bool)
  {
    forall i, j :: 0 <= i < j < |s| ==> !Precedes(key(s[j]), key(s[i]), ascending)
  }

  /** The filter that keeps the elements whose key is k. */
  function KeyIs<T>(key: T -> seq<int>, k: seq<int>): T -> bool
  {
    y => key(y) == k
  }

  /** Places x before the first element of s whose key is not strictly before x's. */
  function Insert<T>(x: T, s: seq<T>, key: T -> seq<int>, ascending: bool): seq<T>
    decreases |s|
  {
    if s == [] || !Precedes(key(s[0]), key(x), ascending) then [x] + s
    else [s[0]] + Insert(x, s[1..], key, ascending)
  }

  lemma {:induction false} InsertPermutes<T>(x: T, s: seq<T>, key: T -> seq<int>, ascending: bool)
    ensures multiset(Insert(x, s, key, ascending)) == multiset(s) + multiset{x}
    decreases |s|
  {
    if s != [] && Precedes(key(s[0]), key(x), ascending) {
      InsertPermutes(x, s[1..], key, ascending);
      assert s == [s[0]] + s[1..];
    }
  }

  lemma {:induction false} InsertSorted<T>(x: T, s: seq<T>, key: T -> seq<int>, ascending: bool)
    requires Sorted(s, key, ascending)
    ensures Sorted(Insert(x, s, key, ascending), key, ascending)
    decreases |s|
  {
    var r := Insert(x, s, key, ascending);
    if s == [] || !Precedes(key(s[0]), key(x), ascending) {
      forall i, j | 0 <= i < j < |r|
        ensures !Precedes(key(r[j]), key(r[i]), ascending)
      {
        if i == 0 && j > 1 {
          NotAfterTransitive(key(x), key(s[0]), key(s[j - 1]), ascending);
        }
      }
    } else {
      var t := Insert(x, s[1..], key, ascending);
      InsertSorted(x, s[1..], key, ascending);
      InsertPermutes(x, s[1..], key, ascending);
      forall j | 0 <= j < |t|
        ensures !Precedes(key(t[j]), key(s[0]), ascending)
      {
        assert t[j] in multiset(t);
        if t[j] == x {
          if ascending {
            LexLessAsymmetric(key(s[0]), key(x));
          } else {
            LexLessAsymmetric(key(x), key(s[0]));
          }
        } else {
          assert t[j] in multiset(s[1..]);
          var k :| 0 <= k < |s[1..]| && s[1..][k] == t[j];
          assert s[k + 1] == t[j];
        }
      }
      assert r == [s[0]] + t;
    }
  }

  /** Inserting x keeps, among the elements with any one key, their order. */
  lemma {:induction false} InsertKeepsKeyOrder<T(!new)>(x: T, s: seq<T>, key: T -> seq<int>, ascending: bool, k: seq<int>)
    ensures Filter(Insert(x, s, key, ascending), KeyIs(key, k))
         == (if key(x) == k then [x] else []) + Filter(s, KeyIs(key, k))
    decreases |s|
  {
    var r := Insert(x, s, key, ascending);
    if s == [] || !Precedes(key(s[0]), key(x), ascending) {
      assert r[0] == x && r[1..] == s;
    } else {
      InsertKeepsKeyOrder(x, s[1..], key, ascending, k);
      assert r[0] == s[0] && r[1..] == Insert(x, s[1..], key, ascending);
      if key(x) == k {
        LexLessIrreflexive(key(x));
        assert key(s[0]) != k;
      }
    }
  }

  /** `OrderBy(key)` (ascending) or `OrderByDescending(key)`: a stable sort. */
  function SortBy<T(==, !new)>(s: seq<T>, key: T -> seq<int>, ascending: bool): (r: seq<T>)
    ensures multiset(r) == multiset(s)
    ensures Sorted(r, key, ascending)
    decreases |s|
  {
    if s == [] then []
    else
      var rest := SortBy(s[1..], key, ascending);
      InsertPermutes(s[0], rest, key, ascending);
      InsertSorted(s[0], rest, key, ascending);
      assert s == [s[0]] + s[1..];
      Insert(s[0], rest, key, ascending)
  }

  /** The sort is stable: elements with equal keys keep their relative order. */
  lemma {:induction false} SortByIsStable<T(!new)>(s: seq<T>, key: T -> seq<int>, ascending: bool, k: seq<int>)
    ensures Filter(SortBy(s, key, ascending), KeyIs(key, k)) == Filter(s, KeyIs(key, k))
    decreases |s|
  {
    if s != [] {
      SortByIsStable(s[1..], key, ascending, k);
      InsertKeepsKeyOrder(s[0], SortBy(s[1..], key, ascending), key, ascending, k);
    }
  }

  /** Sort key of a text: its character codes. */
  function TextKey(s: string): (k: seq<int>)
    ensures |k| == |s|
    ensures forall i :: 0 <= i < |s| ==> k[i] == s[i] as int
  {
    seq(|s|, i requires 0 <= i < |s| => s[i] as int)
  }
}
