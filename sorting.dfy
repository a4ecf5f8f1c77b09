/** Ordering used by the database's `order(...)` clauses and by `Array.prototype.sort`. Sort keys
    are sequences of integers compared lexicographically: a timestamp is the one-element key
    `[t]`, a string is the key of its character codes. Sorting is stable, as `Array.prototype.sort`
    is. */
module Sorting {

  /** Lexicographic order on keys (a prefix comes first). */
  predicate LexLeq(a: seq<int>, b: seq<int>)
    decreases |a|
  {
    a == [] || (b != [] && (a[0] < b[0] || (a[0] == b[0] && LexLeq(a[1..], b[1..]))))
  }

  lemma {:induction false} LexLeqTotal(a: seq<int>, b: seq<int>)
    ensures LexLeq(a, b) || LexLeq(b, a)
    decreases |a|
  {
    if a != [] && b != [] && a[0] == b[0] {
      LexLeqTotal(a[1..], b[1..]);
    }
  }

  lemma {:induction false} LexLeqTrans(a: seq<int>, b: seq<int>, c: seq<int>)
    requires LexLeq(a, b) && LexLeq(b, c)
    ensures LexLeq(a, c)
    decreases |a|
  {
    if a != [] && a[0] == b[0] && b[0] == c[0] {
      LexLeqTrans(a[1..], b[1..], c[1..]);
    }
  }

  lemma {:induction false} LexLeqAntisym(a: seq<int>, b: seq<int>)
    requires LexLeq(a, b) && LexLeq(b, a)
    ensures a == b
    decreases |a|
  {
    if a != [] {
      LexLeqAntisym(a[1..], b[1..]);
      assert a == [a[0]] + a[1..] && b == [b[0]] + b[1..];
    }
  }

  /** On one-element keys (timestamps) the order is the numeric order. */
  lemma LexLeqSingle(x: int, y: int)
    ensures LexLeq([x], [y]) <==> x <= y
  {
    assert [x][1..] == [] && [y][1..] == [];
  }

  /** The key of a string: its character codes. */
  function Codes(s: string): (k: seq<int>)
    ensures |k| == |s| && forall i :: 0 <= i < |s| ==> k[i] == s[i] as int
  {
    seq(|s|, i requires 0 <= i < |s| => s[i] as int)
  }

  lemma CodesInjective(s: string, t: string)
    requires Codes(s) == Codes(t)
    ensures s == t
  {
    assert forall i :: 0 <= i < |s| ==> s[i] as int == t[i] as int;
  }

  /** `x` may precede `y` in a listing by `key`, ascending or (when `desc`) descending. */
  predicate InOrder<T>(key: T -> seq<int>, desc: bool, x: T, y: T) {
    if desc then LexLeq(key(y), key(x)) else LexLeq(key(x), key(y))
  }

  lemma InOrderTotal<T>(key: T -> seq<int>, desc: bool, x: T, y: T)
    ensures InOrder(key, desc, x, y) || InOrder(key, desc, y, x)
  {
    LexLeqTotal(key(x), key(y));
  }

  lemma InOrderTrans<T>(key: T -> seq<int>, desc: bool, x: T, y: T, z: T)
    requires InOrder(key, desc, x, y) && InOrder(key, desc, y, z)
    ensures InOrder(key, desc, x, z)
  {
    if desc {
      LexLeqTrans(key(z), key(y), key(x));
    } else {
      LexLeqTrans(key(x), key(y), key(z));
    }
  }

  /** Every element may precede every later one. */
  predicate SortedBy<T>(s: seq<T>, key: T -> seq<int>, desc: bool) {
    forall i, j :: 0 <= i < j < |s| ==> InOrder(key, desc, s[i], s[j])
  }

  /** Puts `x` before the first element it may precede. */
  function Insert<T>(x: T, s: seq<T>, key: T -> seq<int>, desc: bool): (r: seq<T>)
    requires SortedBy(s, key, desc)
    ensures SortedBy(r, key, desc)
    ensures multiset(r) == multiset(s) + multiset{x}
    decreases |s|
  {
    if s == [] then [x]
    else if InOrder(key, desc, x, s[0]) then
      var r := [x] + s;
      assert forall j :: 1 <= j < |r| ==> InOrder(key, desc, x, r[j]) by {
        forall j | 1 <= j < |r| ensures InOrder(key, desc, x, r[j]) {
          if j > 1 { InOrderTrans(key, desc, x, s[0], s[j - 1]); }
        }
      }
      r
    else
      InOrderTotal(key, desc, x, s[0]);
      var t := Insert(x, s[1..], key, desc);
      assert s == [s[0]] + s[1..];
      var r := [s[0]] + t;
      assert forall j :: 0 <= j < |t| ==> InOrder(key, desc, s[0], t[j]) by {
        forall j | 0 <= j < |t| ensures InOrder(key, desc, s[0], t[j]) {
          assert t[j] in multiset(t);
          if t[j] != x {
            assert t[j] in multiset(s[1..]);
            var m :| 0 <= m < |s[1..]| && s[1..][m] == t[j];
            assert s[m + 1] == t[j];
          }
        }
      }
      r
  }

  /** The listing of `s` in the order `key`/`desc` gives: ordered, and a permutation of `s`. */
  function SortBy<T>(s: seq<T>, key: T -> seq<int>, desc: bool): (r: seq<T>)
    ensures SortedBy(r, key, desc)
    ensures multiset(r) == multiset(s)
    ensures |r| == |s|
    decreases |s|
  {
    if s == [] then []
    else
      assert s == [s[0]] + s[1..];
      Insert(s[0], SortBy(s[1..], key, desc), key, desc)
  }
}
