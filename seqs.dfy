/** List operations the components write with `filter`, `map` and `new Set(...)`, and the facts
    the model needs about them. */
module Seqs {

  /** `s.filter(p)`: the elements satisfying `p`, in their original order. */
  function Filter<T(!new)>(s: seq<T>, p: T -> bool): (r: seq<T>)
    ensures |r| <= |s|
    ensures forall i :: 0 <= i < |r| ==> p(r[i])
    ensures forall x :: multiset(r)[x] == if p(x) then multiset(s)[x] else 0
    decreases |s|
  {
    if s == [] then []
    else
      var rest := Filter(s[1..], p);
      assert s == [s[0]] + s[1..];
      if p(s[0]) then [s[0]] + rest else rest
  }

  /** Membership in a filtered list. */
  lemma FilterMembership<T(!new)>(s: seq<T>, p: T -> bool, x: T)
    ensures x in Filter(s, p) <==> x in s && p(x)
  {
    assert x in Filter(s, p) <==> x in multiset(Filter(s, p));
    assert x in s <==> x in multiset(s);
  }

  /** Filtering keeps the relative order: it distributes over concatenation. */
  lemma {:induction false} FilterConcat<T(!new)>(a: seq<T>, b: seq<T>, p: T -> bool)
    ensures Filter(a + b, p) == Filter(a, p) + Filter(b, p)
    decreases |a|
  {
    if a == [] {
      assert a + b == b;
    } else {
      assert (a + b)[1..] == a[1..] + b;
      FilterConcat(a[1..], b, p);
    }
  }

  /** When every element satisfies exactly one of `p` and `q`, the two filters split the list. */
  lemma {:induction false} FilterPartition<T(!new)>(s: seq<T>, p: T -> bool, q: T -> bool)
    requires forall i :: 0 <= i < |s| ==> p(s[i]) != q(s[i])
    ensures |Filter(s, p)| + |Filter(s, q)| == |s|
    decreases |s|
  {
    if s != [] {
      FilterPartition(s[1..], p, q);
    }
  }

  /** When every element satisfies exactly one of three predicates, the three filters split it. */
  lemma {:induction false} FilterPartition3<T(!new)>(s: seq<T>, p: T -> bool, q: T -> bool, u: T -> bool)
    requires forall i :: 0 <= i < |s| ==>
      (p(s[i]) && !q(s[i]) && !u(s[i])) || (!p(s[i]) && q(s[i]) && !u(s[i])) || (!p(s[i]) && !q(s[i]) && u(s[i]))
    ensures |Filter(s, p)| + |Filter(s, q)| + |Filter(s, u)| == |s|
    decreases |s|
  {
    if s != [] {
      FilterPartition3(s[1..], p, q, u);
    }
  }

  /** A filter keeps nothing exactly when no element satisfies `p`. */
  lemma FilterNone<T(!new)>(s: seq<T>, p: T -> bool)
    ensures |Filter(s, p)| == 0 <==> forall i :: 0 <= i < |s| ==> !p(s[i])
  {
    var r := Filter(s, p);
    if r != [] {
      assert multiset(r)[r[0]] > 0;
      assert r[0] in s;
    }
    forall i | 0 <= i < |s| && p(s[i])
      ensures r != []
    {
      assert multiset(s)[s[i]] > 0;
      assert multiset(r)[s[i]] > 0;
    }
  }

  /** A filter keeps everything exactly when every element satisfies `p`. */
  lemma FilterAll<T(!new)>(s: seq<T>, p: T -> bool)
    ensures |Filter(s, p)| == |s| <==> forall i :: 0 <= i < |s| ==> p(s[i])
  {
    if forall i :: 0 <= i < |s| ==> p(s[i]) {
      FilterKeepsAll(s, p);
    } else {
      var i :| 0 <= i < |s| && !p(s[i]);
      FilterDropsOne(s, p, i);
    }
  }

  lemma {:induction false} FilterKeepsAll<T(!new)>(s: seq<T>, p: T -> bool)
    requires forall i :: 0 <= i < |s| ==> p(s[i])
    ensures Filter(s, p) == s
    decreases |s|
  {
    if s != [] {
      FilterKeepsAll(s[1..], p);
    }
  }

  lemma {:induction false} FilterDropsOne<T(!new)>(s: seq<T>, p: T -> bool, i: int)
    requires 0 <= i < |s| && !p(s[i])
    ensures |Filter(s, p)| < |s|
    decreases |s|
  {
    if i > 0 {
      assert s[1..][i - 1] == s[i];
      FilterDropsOne(s[1..], p, i - 1);
    }
  }

  /** `r` is `s` with some elements left out, the rest in their order. */
  predicate IsSubsequence<T(==)>(r: seq<T>, s: seq<T>)
    decreases |s|
  {
    r == [] || (s != [] && ((r[0] == s[0] && IsSubsequence(r[1..], s[1..])) || IsSubsequence(r, s[1..])))
  }

  /** Filtering keeps the relative order of what it keeps. */
  lemma {:induction false} FilterIsSubsequence<T(!new)>(s: seq<T>, p: T -> bool)
    ensures IsSubsequence(Filter(s, p), s)
    decreases |s|
  {
    if s != [] {
      FilterIsSubsequence(s[1..], p);
      var rest := Filter(s[1..], p);
      if p(s[0]) {
        var r := [s[0]] + rest;
        assert r[1..] == rest;
        assert Filter(s, p) == r;
      }
    }
  }

  /** No two elements share a key. */
  predicate DistinctBy<T>(s: seq<T>, key: T -> string) {
    forall i, j :: 0 <= i < j < |s| ==> key(s[i]) != key(s[j])
  }

  /** `s.map(y => key(y) === key(x) ? x : y)`: every element with the key of `x` becomes `x`. */
  function ReplaceByKey<T>(s: seq<T>, key: T -> string, x: T): (r: seq<T>)
    ensures |r| == |s|
    ensures forall i :: 0 <= i < |s| && key(s[i]) == key(x) ==> r[i] == x
    ensures forall i :: 0 <= i < |s| && key(s[i]) != key(x) ==> r[i] == s[i]
  {
    seq(|s|, i requires 0 <= i < |s| => if key(s[i]) == key(x) then x else s[i])
  }

  /** Some element has key `k`. */
  predicate HasKey<T>(s: seq<T>, key: T -> string, k: string) {
    exists i :: 0 <= i < |s| && key(s[i]) == k
  }

  /** An `UPDATE ... WHERE key = k`: every element with key `k` becomes `f` of itself, the others
      stay where and as they are. */
  function UpdateWhere<T>(s: seq<T>, key: T -> string, k: string, f: T -> T): (r: seq<T>)
    ensures |r| == |s|
    ensures forall i :: 0 <= i < |s| && key(s[i]) == k ==> r[i] == f(s[i])
    ensures forall i :: 0 <= i < |s| && key(s[i]) != k ==> r[i] == s[i]
  {
    seq(|s|, i requires 0 <= i < |s| => if key(s[i]) == k then f(s[i]) else s[i])
  }

  /** An update that keeps the key keeps the keys distinct, and finds nothing to do when the key
      is absent. */
  lemma UpdateWhereFacts<T>(s: seq<T>, key: T -> string, k: string, f: T -> T)
    requires forall i :: 0 <= i < |s| ==> key(f(s[i])) == key(s[i])
    ensures forall i :: 0 <= i < |s| ==> key(UpdateWhere(s, key, k, f)[i]) == key(s[i])
    ensures DistinctBy(s, key) ==> DistinctBy(UpdateWhere(s, key, k, f), key)
    ensures !HasKey(s, key, k) ==> UpdateWhere(s, key, k, f) == s
  {
  }

  /** `s.filter(y => key(y) !== k)`: the elements with another key, in their order. */
  function RemoveByKey<T>(s: seq<T>, key: T -> string, k: string): (r: seq<T>)
    ensures |r| <= |s|
    ensures forall i :: 0 <= i < |r| ==> key(r[i]) != k && r[i] in s
    ensures forall i :: 0 <= i < |s| && key(s[i]) != k ==> s[i] in r
    decreases |s|
  {
    if s == [] then []
    else
      var rest := RemoveByKey(s[1..], key, k);
      assert forall i :: 1 <= i < |s| ==> s[i] == s[1..][i - 1];
      if key(s[0]) == k then rest else [s[0]] + rest
  }

  /** The predicate `y => key(y) !== k`. */
  function KeyIsNot<T>(key: T -> string, k: string): T -> bool {
    (y: T) => key(y) != k
  }

  /** `RemoveByKey` is the filter it stands for, so it keeps the order of what it keeps. */
  lemma {:induction false} RemoveByKeyIsFilter<T(!new)>(s: seq<T>, key: T -> string, k: string)
    ensures RemoveByKey(s, key, k) == Filter(s, KeyIsNot(key, k))
    decreases |s|
  {
    if s != [] {
      RemoveByKeyIsFilter(s[1..], key, k);
    }
  }

  /** Mapping commutes with removal by key when the mapping keeps the key. */
  lemma {:induction false} MapRemoveByKey<T, U>(s: seq<T>, f: T -> U, key: T -> string, fkey: U -> string, k: string)
    requires forall x :: fkey(f(x)) == key(x)
    ensures MapSeq(RemoveByKey(s, key, k), f) == RemoveByKey(MapSeq(s, f), fkey, k)
    decreases |s|
  {
    if s != [] {
      MapRemoveByKey(s[1..], f, key, fkey, k);
      var m := MapSeq(s, f);
      assert m[1..] == MapSeq(s[1..], f);
      if key(s[0]) != k {
        MapConcat([s[0]], RemoveByKey(s[1..], key, k), f);
      }
    }
  }

  /** Replacing by the key of `x` keeps the keys distinct and, when some element has that key,
      puts `x` in the list. */
  lemma ReplaceByKeyFacts<T>(s: seq<T>, key: T -> string, x: T)
    ensures forall i :: 0 <= i < |s| ==> key(ReplaceByKey(s, key, x)[i]) == key(s[i])
    ensures DistinctBy(s, key) ==> DistinctBy(ReplaceByKey(s, key, x), key)
    ensures !HasKey(s, key, key(x)) ==> ReplaceByKey(s, key, x) == s
    ensures HasKey(s, key, key(x)) ==> x in ReplaceByKey(s, key, x)
  {
    if HasKey(s, key, key(x)) {
      var i :| 0 <= i < |s| && key(s[i]) == key(x);
      assert ReplaceByKey(s, key, x)[i] == x;
    }
  }

  /** Removing a key no element has leaves the list as it is. */
  lemma {:induction false} RemoveAbsentKey<T>(s: seq<T>, key: T -> string, k: string)
    requires forall i :: 0 <= i < |s| ==> key(s[i]) != k
    ensures RemoveByKey(s, key, k) == s
    decreases |s|
  {
    if s != [] {
      RemoveAbsentKey(s[1..], key, k);
      assert s == [s[0]] + s[1..];
    }
  }

  /** In a list with distinct keys, removing a present key drops exactly one element, and the keys
      stay distinct. */
  lemma {:induction false} RemoveDistinctKey<T>(s: seq<T>, key: T -> string, k: string)
    requires DistinctBy(s, key)
    ensures DistinctBy(RemoveByKey(s, key, k), key)
    ensures (exists i :: 0 <= i < |s| && key(s[i]) == k) ==> |RemoveByKey(s, key, k)| == |s| - 1
    ensures (forall i :: 0 <= i < |s| ==> key(s[i]) != k) ==> |RemoveByKey(s, key, k)| == |s|
    decreases |s|
  {
    if s != [] {
      assert DistinctBy(s[1..], key);
      RemoveDistinctKey(s[1..], key, k);
      var r := RemoveByKey(s[1..], key, k);
      if key(s[0]) == k {
        assert forall i :: 0 <= i < |s[1..]| ==> key(s[1..][i]) != k;
        RemoveAbsentKey(s[1..], key, k);
      } else {
        assert DistinctBy([s[0]] + r, key) by {
          forall i, j | 0 <= i < j < |[s[0]] + r| ensures key(([s[0]] + r)[i]) != key(([s[0]] + r)[j]) {
            if i == 0 {
              assert r[j - 1] in s[1..];
              var m :| 0 <= m < |s[1..]| && s[1..][m] == r[j - 1];
              assert s[m + 1] == r[j - 1];
            }
          }
        }
        if exists i :: 0 <= i < |s| && key(s[i]) == k {
          var i :| 0 <= i < |s| && key(s[i]) == k;
          assert key(s[1..][i - 1]) == k;
        }
      }
    }
  }

  /** `s.map(f)`. */
  function MapSeq<T, U>(s: seq<T>, f: T -> U): (r: seq<U>)
    ensures |r| == |s| && forall i :: 0 <= i < |s| ==> r[i] == f(s[i])
  {
    seq(|s|, i requires 0 <= i < |s| => f(s[i]))
  }

  lemma MapConcat<T, U>(x: seq<T>, y: seq<T>, f: T -> U)
    ensures MapSeq(x + y, f) == MapSeq(x, f) + MapSeq(y, f)
  {
  }

  /** A property of every element survives a permutation. */
  lemma PermutationKeeps<T>(a: seq<T>, b: seq<T>, p: T -> bool)
    requires multiset(a) == multiset(b)
    requires forall i :: 0 <= i < |b| ==> p(b[i])
    ensures forall i :: 0 <= i < |a| ==> p(a[i])
  {
    forall i | 0 <= i < |a| ensures p(a[i]) {
      assert a[i] in multiset(b);
      var k :| 0 <= k < |b| && b[k] == a[i];
    }
  }

  /** Taking the first element of `a` and its copy at `j` in `b` out of two permutations leaves
      two permutations. */
  lemma CancelFirst<T>(a: seq<T>, b: seq<T>, j: int)
    requires multiset(a) == multiset(b) && a != [] && 0 <= j < |b| && b[j] == a[0]
    ensures multiset(a[1..]) == multiset(b[..j] + b[j + 1..])
  {
    var x, y := b[..j], b[j + 1..];
    assert a == [a[0]] + a[1..];
    assert b == x + [b[j]] + y;
    var ma, mr := multiset(a[1..]), multiset(x + y);
    assert multiset(a) == ma + multiset{a[0]};
    assert multiset(b) == mr + multiset{a[0]};
    forall z ensures ma[z] == mr[z] {
      assert (ma + multiset{a[0]})[z] == (mr + multiset{a[0]})[z];
    }
  }

  /** Mapping two permutations of one list gives two permutations of one list. */
  lemma {:induction false} MapPermutation<T, U>(a: seq<T>, b: seq<T>, f: T -> U)
    requires multiset(a) == multiset(b)
    ensures multiset(MapSeq(a, f)) == multiset(MapSeq(b, f))
    decreases |a|
  {
    if a != [] {
      assert a[0] in multiset(b);
      var j :| 0 <= j < |b| && b[j] == a[0];
      var x, y := b[..j], b[j + 1..];
      CancelFirst(a, b, j);
      MapPermutation(a[1..], x + y, f);
      assert [a[0]] + a[1..] == a;
      assert x + [a[0]] + y == b;
      MapConcat([a[0]], a[1..], f);
      MapConcat(x + [a[0]], y, f);
      MapConcat(x, [a[0]], f);
      MapConcat(x, y, f);
    }
  }

  /** `new Set(s.map(f))`. */
  function Image<T, U>(s: seq<T>, f: T -> U): set<U> {
    set i | 0 <= i < |s| :: f(s[i])
  }

  /** `new Set(s.map(f)).size` never exceeds `s.length`, and is positive for a non-empty list. */
  lemma {:induction false} ImageSizeBound<T, U>(s: seq<T>, f: T -> U)
    ensures |Image(s, f)| <= |s|
    ensures |s| > 0 ==> |Image(s, f)| >= 1
    decreases |s|
  {
    if s != [] {
      var n := |s| - 1;
      var init := s[..n];
      ImageSizeBound(init, f);
      var whole := Image(s, f);
      var part := Image(init, f);
      assert whole == part + {f(s[n])} by {
        forall y | y in whole ensures y in part + {f(s[n])} {
          var i :| 0 <= i < |s| && f(s[i]) == y;
          if i < n { assert init[i] == s[i]; }
        }
        forall y | y in part ensures y in whole {
          var i :| 0 <= i < |init| && f(init[i]) == y;
          assert s[i] == init[i];
        }
      }
    }
  }
}
