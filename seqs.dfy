/** Generic sequence operations that the storefront uses through the built-in
    Array methods: `filter`, first-wins deduplication through a Map keyed by a
    property, and the stable comparator sort of Array.prototype.sort. */
module Seqs {

  /** Array.prototype.filter: the elements satisfying `p`, in their order. */
  function Keep<T(==)>(s: seq<T>, p: T -> bool): (r: seq<T>)
    ensures |r| <= |s|
  {
    if s == [] then []
    else
      var init := s[..|s| - 1];
      assert s == init + [s[|s| - 1]];
      Keep(init, p) + (if p(s[|s| - 1]) then [s[|s| - 1]] else [])
  }

  /** `filter` keeps exactly the elements that satisfy `p`. */
  lemma {:induction false} KeepMembers<T>(s: seq<T>, p: T -> bool)
    ensures forall i :: 0 <= i < |Keep(s, p)| ==> Keep(s, p)[i] in s && p(Keep(s, p)[i])
    ensures forall i :: 0 <= i < |s| && p(s[i]) ==> s[i] in Keep(s, p)
  {
    if s != [] {
      var init, x := s[..|s| - 1], s[|s| - 1];
      KeepMembers(init, p);
      var r, r' := Keep(s, p), Keep(init, p);
      forall i | 0 <= i < |r|
        ensures r[i] in s && p(r[i])
      {
        if i < |r'| {
          assert r[i] == r'[i] && r'[i] in init;
        }
      }
      forall i | 0 <= i < |s| && p(s[i])
        ensures s[i] in r
      {
        if i < |init| {
          assert s[i] == init[i] && init[i] in r';
        } else {
          assert r[|r| - 1] == x;
        }
      }
    }
  }

  lemma {:induction false} KeepAppend<T>(a: seq<T>, b: seq<T>, p: T -> bool)
    ensures Keep(a + b, p) == Keep(a, p) + Keep(b, p)
    decreases |b|
  {
    if b == [] {
      assert a + b == a;
    } else {
      var b' := b[..|b| - 1];
      assert (a + b)[..|a + b| - 1] == a + b';
      KeepAppend(a, b', p);
    }
  }

  /** Filtering depends only on what the predicate answers. */
  lemma {:induction false} KeepSameAnswers<T>(s: seq<T>, p: T -> bool, q: T -> bool)
    requires forall i :: 0 <= i < |s| ==> p(s[i]) == q(s[i])
    ensures Keep(s, p) == Keep(s, q)
  {
    if s != [] {
      KeepSameAnswers(s[..|s| - 1], p, q);
    }
  }

  /** Filtering with a predicate that every element satisfies changes nothing. */
  lemma {:induction false} KeepAll<T>(s: seq<T>, p: T -> bool)
    requires forall i :: 0 <= i < |s| ==> p(s[i])
    ensures Keep(s, p) == s
  {
    if s != [] {
      var init := s[..|s| - 1];
      KeepAll(init, p);
      assert s == init + [s[|s| - 1]];
    }
  }

  /** The keys that occur in `s`. */
  function KeysOf<T(==), K>(s: seq<T>, key: T -> K): set<K> {
    set x | x in s :: key(x)
  }

  /** The position of the first element of `s` whose key is `k`. */
  function FirstIndex<T(==), K(==)>(s: seq<T>, key: T -> K, k: K): (i: nat)
    requires k in KeysOf(s, key)
    ensures i < |s| && key(s[i]) == k
    ensures forall j :: 0 <= j < i ==> key(s[j]) != k
  {
    if key(s[0]) == k then 0
    else
      assert k in KeysOf(s[1..], key) by {
        var x :| x in s && key(x) == k;
        assert x in s[1..];
      }
      1 + FirstIndex(s[1..], key, k)
  }

  /** First-wins deduplication by `key` (a Map filled with `if (!has) set`,
      read back with `values()`): scanning left to right, an element is kept
      when no earlier element has its key. */
  function FirstPerKey<T(==), K(==)>(s: seq<T>, key: T -> K): (r: seq<T>)
    ensures |r| <= |s|
  {
    if s == [] then []
    else
      var r := FirstPerKey(s[..|s| - 1], key);
      if key(s[|s| - 1]) in KeysOf(r, key) then r else r + [s[|s| - 1]]
  }

  lemma FirstIndexOfPrefix<T, K>(s: seq<T>, n: nat, key: T -> K, k: K)
    requires n <= |s| && k in KeysOf(s[..n], key)
    ensures k in KeysOf(s, key)
    ensures FirstIndex(s, key, k) == FirstIndex(s[..n], key, k)
  {
    var x :| x in s[..n] && key(x) == k;
    assert x in s;
    var a, b := FirstIndex(s, key, k), FirstIndex(s[..n], key, k);
    assert s[..n][b] == s[b];
  }

  lemma KeysOfAppend<T, K>(s: seq<T>, x: T, key: T -> K)
    ensures KeysOf(s + [x], key) == KeysOf(s, key) + {key(x)}
  {
    forall k | k in KeysOf(s + [x], key)
      ensures k in KeysOf(s, key) + {key(x)}
    {
      var y :| y in s + [x] && key(y) == k;
      if y != x {
        assert y in s;
      }
    }
    assert forall y :: y in s ==> y in s + [x];
  }

  /** Deduplication keeps every key of the input. */
  lemma {:induction false} FirstPerKeyKeys<T, K>(s: seq<T>, key: T -> K)
    ensures KeysOf(FirstPerKey(s, key), key) == KeysOf(s, key)
  {
    if s != [] {
      var init, x := s[..|s| - 1], s[|s| - 1];
      assert s == init + [x];
      FirstPerKeyKeys(init, key);
      KeysOfAppend(init, x, key);
      KeysOfAppend(FirstPerKey(init, key), x, key);
    }
  }

  /** Deduplication keeps each key at most once. */
  lemma {:induction false} FirstPerKeyDistinct<T, K>(s: seq<T>, key: T -> K)
    ensures forall i, j :: 0 <= i < j < |FirstPerKey(s, key)| ==>
      key(FirstPerKey(s, key)[i]) != key(FirstPerKey(s, key)[j])
  {
    if s != [] {
      var init, x := s[..|s| - 1], s[|s| - 1];
      FirstPerKeyDistinct(init, key);
      var r' := FirstPerKey(init, key);
      if key(x) !in KeysOf(r', key) {
        forall i | 0 <= i < |r'|
          ensures key(r'[i]) != key(x)
        {
          assert r'[i] in r';
        }
      }
    }
  }

  /** Each kept element is the first occurrence of its key, and the kept
      elements are ordered by where their keys first appear. */
  lemma {:induction false} FirstPerKeyFirst<T, K>(s: seq<T>, key: T -> K)
    ensures forall j :: 0 <= j < |FirstPerKey(s, key)| ==>
      key(FirstPerKey(s, key)[j]) in KeysOf(s, key) &&
      FirstPerKey(s, key)[j] == s[FirstIndex(s, key, key(FirstPerKey(s, key)[j]))]
    ensures forall i, j :: 0 <= i < j < |FirstPerKey(s, key)| ==>
      key(FirstPerKey(s, key)[i]) in KeysOf(s, key) &&
      key(FirstPerKey(s, key)[j]) in KeysOf(s, key) &&
      FirstIndex(s, key, key(FirstPerKey(s, key)[i])) < FirstIndex(s, key, key(FirstPerKey(s, key)[j]))
  {
    if s != [] {
      var init, x := s[..|s| - 1], s[|s| - 1];
      assert s == init + [x];
      FirstPerKeyFirst(init, key);
      FirstPerKeyKeys(init, key);
      KeysOfAppend(init, x, key);
      var r' := FirstPerKey(init, key);
      var r := FirstPerKey(s, key);
      forall k | k in KeysOf(init, key)
        ensures k in KeysOf(s, key) && FirstIndex(s, key, k) == FirstIndex(init, key, k)
      {
        FirstIndexOfPrefix(s, |s| - 1, key, k);
      }
      if key(x) !in KeysOf(r', key) {
        assert r == r' + [x];
        assert FirstIndex(s, key, key(x)) == |s| - 1;
        forall j | 0 <= j < |r'|
          ensures key(r'[j]) in KeysOf(init, key)
        {
          assert r'[j] in r';
        }
      }
    }
  }






  /** Deduplication keeps only elements of the input. */
  lemma {:induction false} FirstPerKeySubset<T, K>(s: seq<T>, key: T -> K)
    ensures forall y :: y in FirstPerKey(s, key) ==> y in s
  {
    if s != [] {
      FirstPerKeySubset(s[..|s| - 1], key);
      assert forall y :: y in s[..|s| - 1] ==> y in s;
    }
  }

  lemma KeysOfConcat<T, K>(a: seq<T>, b: seq<T>, key: T -> K)
    ensures KeysOf(a + b, key) == KeysOf(a, key) + KeysOf(b, key)
  {
    forall k | k in KeysOf(a + b, key)
      ensures k in KeysOf(a, key) + KeysOf(b, key)
    {
      var y :| y in a + b && key(y) == k;
    }
    assert forall y :: y in a ==> y in a + b;
    assert forall y :: y in b ==> y in a + b;
  }

  /** The order a stable comparator sort produces: `x` goes in front of the
      first element it does not follow. */
  function Insert<T(==)>(x: T, t: seq<T>, le: (T, T) -> bool): (r: seq<T>)
    ensures multiset(r) == multiset(t) + multiset{x}
  {
    if t == [] || le(x, t[0]) then [x] + t
    else
      assert t == [t[0]] + t[1..];
      [t[0]] + Insert(x, t[1..], le)
  }

  /** Array.prototype.sort with a comparator, which is stable: an element
      never moves past an earlier one that it ties with. `le(a, b)` means the
      comparator does not put `b` before `a`. */
  function SortBy<T(==)>(s: seq<T>, le: (T, T) -> bool): (r: seq<T>)
    ensures multiset(r) == multiset(s)
  {
    if s == [] then []
    else
      assert s == [s[0]] + s[1..];
      Insert(s[0], SortBy(s[1..], le), le)
  }

  ghost predicate TotalPreorder<T(!new)>(le: (T, T) -> bool) {
    (forall a, b :: le(a, b) || le(b, a)) &&
    (forall a, b, c :: le(a, b) && le(b, c) ==> le(a, c))
  }

  ghost predicate Sorted<T>(t: seq<T>, le: (T, T) -> bool) {
    forall i, j :: 0 <= i < j < |t| ==> le(t[i], t[j])
  }

  lemma {:induction false} InsertSorted<T(!new)>(x: T, t: seq<T>, le: (T, T) -> bool)
    requires TotalPreorder(le) && Sorted(t, le)
    ensures Sorted(Insert(x, t, le), le)
  {
    if t != [] && !le(x, t[0]) {
      InsertSorted(x, t[1..], le);
      var rest := Insert(x, t[1..], le);
      assert le(t[0], x);
      forall y | y in rest
        ensures le(t[0], y)
      {
        assert y in multiset(rest);
        if y != x {
          assert y in t[1..];
        }
      }
      var r := [t[0]] + rest;
      forall i, j | 0 <= i < j < |r|
        ensures le(r[i], r[j])
      {
        if i == 0 {
          assert r[j] in rest;
        } else {
          assert r[i] == rest[i - 1] && r[j] == rest[j - 1];
        }
      }
    }
  }

  /** A comparator sort under a total preorder yields a sorted permutation. */
  lemma {:induction false} SortBySorted<T(!new)>(s: seq<T>, le: (T, T) -> bool)
    requires TotalPreorder(le)
    ensures Sorted(SortBy(s, le), le)
    ensures multiset(SortBy(s, le)) == multiset(s)
  {
    if s != [] {
      SortBySorted(s[1..], le);
      InsertSorted(s[0], SortBy(s[1..], le), le);
    }
  }

  /** Array.prototype.indexOf, with |s| standing for -1. */
  function IndexOf<T(==)>(s: seq<T>, x: T): (i: nat)
    ensures i <= |s|
    ensures i < |s| ==> s[i] == x
    ensures forall j :: 0 <= j < i ==> s[j] != x
  {
    if s == [] then 0 else if s[0] == x then 0 else 1 + IndexOf(s[1..], x)
  }

  /** No two positions hold the same key. */
  ghost predicate DistinctKeys<T, K>(s: seq<T>, key: T -> K) {
    forall i, j :: 0 <= i < j < |s| ==> key(s[i]) != key(s[j])
  }

  /** Appending keeps the keys distinct exactly when the new key is fresh. */
  lemma DistinctKeysAppend<T, K>(init: seq<T>, x: T, key: T -> K)
    ensures DistinctKeys(init + [x], key) <==> DistinctKeys(init, key) && key(x) !in KeysOf(init, key)
  {
    var s := init + [x];
    if DistinctKeys(s, key) {
      forall i, j | 0 <= i < j < |init|
        ensures key(init[i]) != key(init[j])
      {
        assert s[i] == init[i] && s[j] == init[j];
      }
      forall y | y in init
        ensures key(y) != key(x)
      {
        var i :| 0 <= i < |init| && init[i] == y;
        assert s[i] == y && s[|s| - 1] == x;
      }
    }
    if DistinctKeys(init, key) && key(x) !in KeysOf(init, key) {
      forall i, j | 0 <= i < j < |s|
        ensures key(s[i]) != key(s[j])
      {
        assert s[i] == init[i];
        if j == |s| - 1 {
          assert init[i] in init;
        } else {
          assert s[j] == init[j];
        }
      }
    }
  }

  lemma {:induction false} DistinctKeysCount<T, K>(s: seq<T>, key: T -> K)
    ensures |KeysOf(s, key)| <= |s|
    ensures DistinctKeys(s, key) <==> |KeysOf(s, key)| == |s|
  {
    if s == [] {
      assert KeysOf(s, key) == {};
    } else {
      var init, x := s[..|s| - 1], s[|s| - 1];
      assert s == init + [x];
      DistinctKeysCount(init, key);
      KeysOfAppend(init, x, key);
      DistinctKeysAppend(init, x, key);
      if key(x) in KeysOf(init, key) {
        assert KeysOf(s, key) == KeysOf(init, key);
      } else {
        assert |KeysOf(s, key)| == |KeysOf(init, key)| + 1;
      }
    }
  }


  /** Reordering a sequence keeps its keys distinct. */
  lemma PermutationKeepsDistinct<T, K>(a: seq<T>, b: seq<T>, key: T -> K)
    requires multiset(a) == multiset(b) && DistinctKeys(a, key)
    ensures DistinctKeys(b, key)
  {
    assert |a| == |multiset(a)| == |multiset(b)| == |b|;
    forall x
      ensures x in a <==> x in b
    {
      assert x in a <==> x in multiset(a);
      assert x in b <==> x in multiset(b);
    }
    assert KeysOf(a, key) == KeysOf(b, key);
    DistinctKeysCount(a, key);
    DistinctKeysCount(b, key);
  }

  /** `x` passes over a run of elements it follows and stops before the
      first one it does not. */
  lemma {:induction false} InsertAfter<T>(x: T, a: seq<T>, b: seq<T>, le: (T, T) -> bool)
    requires forall i :: 0 <= i < |a| ==> !le(x, a[i])
    requires b == [] || le(x, b[0])
    ensures Insert(x, a + b, le) == a + [x] + b
  {
    if a == [] {
      assert a + b == b;
    } else {
      var ab := a + b;
      assert ab[0] == a[0] && ab[1..] == a[1..] + b;
      assert !le(x, ab[0]);
      assert Insert(x, ab, le) == [a[0]] + Insert(x, a[1..] + b, le);
      InsertAfter(x, a[1..], b, le);
      assert a + [x] + b == [a[0]] + (a[1..] + [x] + b);
    }
  }

  lemma {:induction false} KeepCons<T>(x: T, rest: seq<T>, p: T -> bool)
    ensures Keep([x] + rest, p) == (if p(x) then [x] else []) + Keep(rest, p)
  {
    KeepAppend([x], rest, p);
    assert [x][..0] == [];
    assert Keep([x], p) == (if p(x) then [x] else []);
  }

  /** A comparator that only puts the elements of class `c` before the
      others sorts into that class followed by the rest, each in input order. */
  lemma {:induction false} SortByClassFirst<T>(s: seq<T>, le: (T, T) -> bool, c: T -> bool, d: T -> bool)
    requires forall a, b :: le(a, b) == (c(a) || !c(b))
    requires forall a :: d(a) == !c(a)
    ensures SortBy(s, le) == Keep(s, c) + Keep(s, d)
  {
    if s != [] {
      var x, rest := s[0], s[1..];
      assert s == [x] + rest;
      SortByClassFirst(rest, le, c, d);
      KeepCons(x, rest, c);
      KeepCons(x, rest, d);
      KeepMembers(rest, c);
      KeepMembers(rest, d);
      ClassFirstInsert(x, Keep(rest, c), Keep(rest, d), le, c, d);
    }
  }

  lemma ClassFirstInsert<T>(x: T, kc: seq<T>, kd: seq<T>, le: (T, T) -> bool, c: T -> bool, d: T -> bool)
    requires forall a, b :: le(a, b) == (c(a) || !c(b))
    requires forall a :: d(a) == !c(a)
    requires forall i :: 0 <= i < |kc| ==> c(kc[i])
    requires forall i :: 0 <= i < |kd| ==> d(kd[i])
    ensures Insert(x, kc + kd, le) ==
      ((if c(x) then [x] else []) + kc) + ((if d(x) then [x] else []) + kd)
  {
    if c(x) {
      InsertAfter(x, [], kc + kd, le);
      assert [] + [x] + (kc + kd) == [x] + kc + kd;
    } else {
      assert kd == [] || le(x, kd[0]) by {
        if kd != [] {
          assert d(kd[0]);
        }
      }
      InsertAfter(x, kc, kd, le);
    }
  }
}
