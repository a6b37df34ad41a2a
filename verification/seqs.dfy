/**
 * Order-preserving filtering, as `Array.prototype.filter` does it, and a
 * stable sort on an integer key, as a numeric comparator gives it.
 */
module Seqs {

  /** `s` can be obtained from `t` by deleting elements, keeping the rest in order. */
  predicate IsSubsequence<T(==,!new)>(s: seq<T>, t: seq<T>)
    decreases |t|
  {
    if s == [] then true
    else if t == [] then false
    else if s[0] == t[0] then IsSubsequence(s[1..], t[1..])
    else IsSubsequence(s, t[1..])
  }

  /**
   * `s.filter(keep)`: the elements `keep` accepts, in their original order and
   * with their original multiplicities, and nothing else.
   */
  function Filter<T(==,!new)>(s: seq<T>, keep: T -> bool): (r: seq<T>)
    ensures forall x :: multiset(r)[x] == if keep(x) then multiset(s)[x] else 0
    ensures IsSubsequence(r, s)
    ensures |r| <= |s|
  {
    if s == [] then []
    else
      var rest := Filter(s[1..], keep);
      assert s == [s[0]] + s[1..];
      if keep(s[0]) then [s[0]] + rest else rest
  }

  /** A filter that accepts everything keeps the whole sequence. */
  lemma {:induction false} FilterAll<T(!new)>(s: seq<T>, keep: T -> bool)
    requires forall x :: x in s ==> keep(x)
    ensures Filter(s, keep) == s
  {
    if s != [] {
      FilterAll(s[1..], keep);
    }
  }

  /** An element is kept exactly when it occurs and passes the test. */
  lemma FilterMember<T(!new)>(s: seq<T>, keep: T -> bool, x: T)
    ensures x in Filter(s, keep) <==> x in s && keep(x)
  {
    assert x in Filter(s, keep) <==> multiset(Filter(s, keep))[x] > 0;
    assert x in s <==> multiset(s)[x] > 0;
  }

  /** Ascending in `key`. */
  predicate SortedOn<T>(s: seq<T>, key: T -> int) {
    forall i, j :: 0 <= i < j < |s| ==> key(s[i]) <= key(s[j])
  }

  /** `x` placed after every entry whose key is not larger than its own. */
  function InsertOn<T>(x: T, s: seq<T>, key: T -> int): (r: seq<T>)
    requires SortedOn(s, key)
    ensures SortedOn(r, key)
    ensures multiset(r) == multiset(s) + multiset{x}
    ensures |r| == |s| + 1
    decreases |s|
  {
    if s == [] then [x]
    else if key(x) < key(s[0]) then
      assert forall k :: 0 <= k < |s| ==> key(x) <= key(s[k]) by {
        assert forall k :: 0 < k < |s| ==> key(s[0]) <= key(s[k]);
      }
      ConsSorted(x, s, key);
      [x] + s
    else
      var rest := InsertOn(x, s[1..], key);
      assert s == [s[0]] + s[1..];
      BelowAll(s[0], x, s[1..], rest, key);
      ConsSorted(s[0], rest, key);
      [s[0]] + rest
  }

  /** An entry no larger than everything in a sorted sequence can go in front of it. */
  lemma ConsSorted<T>(a: T, s: seq<T>, key: T -> int)
    requires SortedOn(s, key)
    requires forall k :: 0 <= k < |s| ==> key(a) <= key(s[k])
    ensures SortedOn([a] + s, key)
  {
    var r := [a] + s;
    forall i, j | 0 <= i < j < |r|
      ensures key(r[i]) <= key(r[j])
    {
      if i > 0 {
        assert r[i] == s[i - 1] && r[j] == s[j - 1];
      } else {
        assert r[j] == s[j - 1];
      }
    }
  }

  /** An entry whose key is at most that of `x` and of everything in `s` is at most everything in a permutation of `s + [x]`. */
  lemma BelowAll<T>(first: T, x: T, s: seq<T>, rest: seq<T>, key: T -> int)
    requires key(first) <= key(x)
    requires forall m :: 0 <= m < |s| ==> key(first) <= key(s[m])
    requires multiset(rest) == multiset(s) + multiset{x}
    ensures forall k :: 0 <= k < |rest| ==> key(first) <= key(rest[k])
  {
    forall k | 0 <= k < |rest|
      ensures key(first) <= key(rest[k])
    {
      var y := rest[k];
      assert y in multiset(rest);
      if y != x {
        assert y in multiset(s);
        var m :| 0 <= m < |s| && s[m] == y;
      }
    }
  }

  /** The entries of `s` whose key is `k`, in their order in `s`. */
  function WithKey<T>(s: seq<T>, key: T -> int, k: int): seq<T>
    decreases |s|
  {
    if s == [] then [] else (if key(s[0]) == k then [s[0]] else []) + WithKey(s[1..], key, k)
  }

  /**
   * A stable insertion sort on `key`: a permutation of `s` ordered by the key,
   * in which entries with equal keys keep their order — for every key value,
   * the entries with that key come out in the order they went in.
   */
  function SortOn<T>(s: seq<T>, key: T -> int): (r: seq<T>)
    ensures SortedOn(r, key)
    ensures multiset(r) == multiset(s)
    ensures forall k :: WithKey(r, key, k) == WithKey(s, key, k)
    decreases |s|
  {
    if s == [] then []
    else
      var init, last := s[..|s| - 1], s[|s| - 1];
      var sorted := SortOn(init, key);
      assert s == init + [last];
      assert multiset(s) == multiset(init) + multiset{last};
      var r := InsertOn(last, sorted, key);
      assert forall k :: WithKey(r, key, k) == WithKey(s, key, k) by {
        forall k ensures WithKey(r, key, k) == WithKey(s, key, k) {
          InsertWithKey(last, sorted, key, k);
          WithKeyAppend(init, [last], key, k);
        }
      }
      r
  }

  /** Selecting by key distributes over concatenation. */
  lemma {:induction false} WithKeyAppend<T>(a: seq<T>, b: seq<T>, key: T -> int, k: int)
    ensures WithKey(a + b, key, k) == WithKey(a, key, k) + WithKey(b, key, k)
    decreases |a|
  {
    if a == [] {
      assert a + b == b;
    } else {
      assert (a + b)[0] == a[0] && (a + b)[1..] == a[1..] + b;
      WithKeyAppend(a[1..], b, key, k);
      AppendAssoc(if key(a[0]) == k then [a[0]] else [], WithKey(a[1..], key, k), WithKey(b, key, k));
    }
  }

  /** A sequence whose keys all exceed `k` has no entry with key `k`. */
  lemma {:induction false} WithKeyNone<T>(s: seq<T>, key: T -> int, k: int)
    requires forall m :: 0 <= m < |s| ==> key(s[m]) > k
    ensures WithKey(s, key, k) == []
    decreases |s|
  {
    if s != [] {
      WithKeyNone(s[1..], key, k);
    }
  }

  /**
   * Inserting into a sorted sequence puts `x` after every entry with the same
   * key: among the entries of any one key, `x` comes last.
   */
  lemma {:induction false} InsertWithKey<T>(x: T, t: seq<T>, key: T -> int, k: int)
    requires SortedOn(t, key)
    ensures WithKey(InsertOn(x, t, key), key, k) == WithKey(t, key, k) + WithKey([x], key, k)
    decreases |t|
  {
    if t == [] {
      assert [x][1..] == [];
    } else if key(x) < key(t[0]) {
      InsertFront(x, t, key, k);
    } else {
      InsertWithKey(x, t[1..], key, k);
      InsertBehind(x, t, key, k);
    }
  }

  /** `x` below the whole of `t` goes in front, and `t` has no entry of its key. */
  lemma InsertFront<T>(x: T, t: seq<T>, key: T -> int, k: int)
    requires SortedOn(t, key) && t != [] && key(x) < key(t[0])
    ensures WithKey(InsertOn(x, t, key), key, k) == WithKey(t, key, k) + WithKey([x], key, k)
  {
    var r := [x] + t;
    assert InsertOn(x, t, key) == r;
    assert r[0] == x && r[1..] == t && [x][1..] == [];
    if key(x) == k {
      assert forall m :: 0 <= m < |t| ==> key(t[0]) <= key(t[m]);
      WithKeyNone(t, key, k);
    }
  }

  /** `x` not below the first entry of `t` goes behind it. */
  lemma InsertBehind<T>(x: T, t: seq<T>, key: T -> int, k: int)
    requires SortedOn(t, key) && t != [] && key(x) >= key(t[0])
    requires WithKey(InsertOn(x, t[1..], key), key, k) == WithKey(t[1..], key, k) + WithKey([x], key, k)
    ensures WithKey(InsertOn(x, t, key), key, k) == WithKey(t, key, k) + WithKey([x], key, k)
  {
    InsertOnBehind(x, t, key);
    ConsWithKey(InsertOn(x, t[1..], key), t, InsertOn(x, t, key), key, k, WithKey([x], key, k));
  }

  /** `x` not below the first entry goes somewhere behind it. */
  lemma InsertOnBehind<T>(x: T, t: seq<T>, key: T -> int)
    requires SortedOn(t, key) && t != [] && key(x) >= key(t[0])
    ensures InsertOn(x, t, key) == [t[0]] + InsertOn(x, t[1..], key)
  {
  }

  /** Putting the first entry of `v` in front of `s` keeps an equation between the selections of `s` and of the rest of `v`. */
  lemma ConsWithKey<T>(s: seq<T>, v: seq<T>, u: seq<T>, key: T -> int, k: int, extra: seq<T>)
    requires v != [] && u == [v[0]] + s
    requires WithKey(s, key, k) == WithKey(v[1..], key, k) + extra
    ensures WithKey(u, key, k) == WithKey(v, key, k) + extra
  {
    assert u[0] == v[0] && u[1..] == s;
    var h := if key(v[0]) == k then [v[0]] else [];
    AppendAssoc(h, WithKey(v[1..], key, k), extra);
  }

  lemma AppendAssoc<T>(a: seq<T>, b: seq<T>, c: seq<T>)
    ensures a + (b + c) == (a + b) + c
  {
  }

  /** Insertion among entries of equal keys appends: nothing overtakes an equal. */
  lemma {:induction false} InsertEqualKeys<T>(x: T, s: seq<T>, key: T -> int)
    requires forall m :: 0 <= m < |s| ==> key(s[m]) == key(x)
    ensures SortedOn(s, key) && InsertOn(x, s, key) == s + [x]
    decreases |s|
  {
    if s != [] {
      InsertEqualKeys(x, s[1..], key);
      assert [s[0]] + (s[1..] + [x]) == s + [x];
    }
  }

  /** A key that is the same for everything leaves the order alone, since the sort is stable. */
  lemma {:induction false} SortEqualKeys<T>(s: seq<T>, key: T -> int, c: int)
    requires forall a :: key(a) == c
    ensures SortOn(s, key) == s
    decreases |s|
  {
    if s != [] {
      var init, last := s[..|s| - 1], s[|s| - 1];
      assert init + [last] == s;
      SortEqualKeys(init, key, c);
      assert SortOn(s, key) == InsertOn(last, init, key);
      InsertEqualKeys(last, init, key);
    }
  }
}
