/** Sorting by a timestamp key, newest first, keeping the input order among
    equal timestamps. Both sides of the system order records this way: the
    browser with `Array.prototype.sort` and a comparator `b - a` on creation
    times (stable since ECMAScript 2019), the backend with
    `ORDER BY created_at DESC`. */
module Sorting {

  /** Places `x` before the first element whose key does not exceed its own. */
  function Insert<T>(x: T, s: seq<T>, key: T -> int): seq<T>
  {
    if s == [] || key(x) >= key(s[0]) then [x] + s else [s[0]] + Insert(x, s[1..], key)
  }

  /** Insertion sort, newest (largest key) first. */
  function SortNewestFirst<T>(s: seq<T>, key: T -> int): seq<T>
  {
    if s == [] then [] else Insert(s[0], SortNewestFirst(s[1..], key), key)
  }

  ghost predicate Descending<T>(s: seq<T>, key: T -> int)
  {
    forall i, j :: 0 <= i < j < |s| ==> key(s[i]) >= key(s[j])
  }

  ghost predicate AllAtMost<T>(s: seq<T>, key: T -> int, bound: int)
  {
    forall i :: 0 <= i < |s| ==> key(s[i]) <= bound
  }

  /** The elements of `s` whose key is `k`, in their order in `s`. */
  function WithKey<T>(s: seq<T>, key: T -> int, k: int): seq<T>
  {
    if s == [] then [] else (if key(s[0]) == k then [s[0]] else []) + WithKey(s[1..], key, k)
  }

  lemma DescendingCons<T>(h: T, t: seq<T>, key: T -> int)
    ensures Descending([h] + t, key) <==> AllAtMost(t, key, key(h)) && Descending(t, key)
  {
    var s := [h] + t;
    if AllAtMost(t, key, key(h)) && Descending(t, key) {
      forall i, j | 0 <= i < j < |s| ensures key(s[i]) >= key(s[j]) {
        if i > 0 { assert s[i] == t[i - 1] && s[j] == t[j - 1]; }
        else { assert s[j] == t[j - 1]; }
      }
    }
    if Descending(s, key) {
      forall i | 0 <= i < |t| ensures key(t[i]) <= key(h) {
        assert s[i + 1] == t[i];
        assert key(s[0]) >= key(s[i + 1]);
      }
      forall i, j | 0 <= i < j < |t| ensures key(t[i]) >= key(t[j]) { assert s[i + 1] == t[i] && s[j + 1] == t[j]; }
    }
  }

  lemma {:induction false} InsertMultiset<T>(x: T, s: seq<T>, key: T -> int)
    ensures multiset(Insert(x, s, key)) == multiset(s) + multiset{x}
  {
    if s != [] && key(x) < key(s[0]) {
      InsertMultiset(x, s[1..], key);
      assert s == [s[0]] + s[1..];
    }
  }

  lemma {:induction false} InsertBound<T>(x: T, s: seq<T>, key: T -> int, b: int)
    requires AllAtMost(s, key, b) && key(x) <= b
    ensures AllAtMost(Insert(x, s, key), key, b)
  {
    var r := Insert(x, s, key);
    if s == [] || key(x) >= key(s[0]) {
      forall i | 0 <= i < |r| ensures key(r[i]) <= b {
        if i > 0 { assert r[i] == s[i - 1]; }
      }
    } else {
      var t := s[1..];
      forall i | 0 <= i < |t| ensures key(t[i]) <= b { assert t[i] == s[i + 1]; }
      InsertBound(x, t, key, b);
      forall i | 0 <= i < |r| ensures key(r[i]) <= b {
        if i > 0 { assert r[i] == Insert(x, t, key)[i - 1]; }
      }
    }
  }

  lemma {:induction false} InsertDescending<T>(x: T, s: seq<T>, key: T -> int)
    requires Descending(s, key)
    ensures Descending(Insert(x, s, key), key)
  {
    if s == [] || key(x) >= key(s[0]) {
      forall i | 0 <= i < |s| ensures key(s[i]) <= key(x) {
        if i > 0 { assert key(s[0]) >= key(s[i]); }
      }
      DescendingCons(x, s, key);
    } else {
      var t := s[1..];
      assert s == [s[0]] + t;
      DescendingCons(s[0], t, key);
      InsertDescending(x, t, key);
      InsertBound(x, t, key, key(s[0]));
      DescendingCons(s[0], Insert(x, t, key), key);
    }
  }

  /** Inserting into a descending sequence puts `x` ahead of every element
      with its own key. */
  lemma {:induction false} InsertWithKey<T>(x: T, s: seq<T>, key: T -> int, k: int)
    requires Descending(s, key)
    ensures WithKey(Insert(x, s, key), key, k) == (if key(x) == k then [x] else []) + WithKey(s, key, k)
  {
    if s == [] || key(x) >= key(s[0]) {
      assert ([x] + s)[1..] == s;
    } else {
      var t := s[1..];
      assert s == [s[0]] + t;
      DescendingCons(s[0], t, key);
      InsertWithKey(x, t, key, k);
      assert ([s[0]] + Insert(x, t, key))[1..] == Insert(x, t, key);
      if key(x) == k {
        assert key(s[0]) != k;
      }
    }
  }

  /** The sort's result is newest first, is a permutation of its input, and
      keeps the input order among equal keys. */
  lemma {:induction false} SortFacts<T>(s: seq<T>, key: T -> int)
    ensures Descending(SortNewestFirst(s, key), key)
    ensures multiset(SortNewestFirst(s, key)) == multiset(s)
    ensures forall k :: WithKey(SortNewestFirst(s, key), key, k) == WithKey(s, key, k)
  {
    if s != [] {
      var t := SortNewestFirst(s[1..], key);
      SortFacts(s[1..], key);
      InsertDescending(s[0], t, key);
      InsertMultiset(s[0], t, key);
      assert s == [s[0]] + s[1..];
      forall k ensures WithKey(SortNewestFirst(s, key), key, k) == WithKey(s, key, k) {
        InsertWithKey(s[0], t, key, k);
      }
    }
  }

  lemma {:induction false} WithKeyMembers<T>(s: seq<T>, key: T -> int, k: int)
    ensures forall i :: 0 <= i < |WithKey(s, key, k)| ==> key(WithKey(s, key, k)[i]) == k
    ensures (exists i :: 0 <= i < |s| && key(s[i]) == k) ==> WithKey(s, key, k) != []
  {
    if s != [] {
      WithKeyMembers(s[1..], key, k);
      if key(s[0]) != k && exists i :: 0 <= i < |s| && key(s[i]) == k {
        var i :| 0 <= i < |s| && key(s[i]) == k;
        assert s[1..][i - 1] == s[i];
      }
    }
  }

  lemma FirstHasGroup<T>(s: seq<T>, key: T -> int)
    ensures s != [] ==> WithKey(s, key, key(s[0])) != []
  {
  }

  /** Two descending sequences with the same elements, in the same order, at
      every key are equal. */
  lemma {:induction false} SameGroupsEqual<T>(a: seq<T>, b: seq<T>, key: T -> int)
    requires Descending(a, key) && Descending(b, key)
    requires forall k :: WithKey(a, key, k) == WithKey(b, key, k)
    ensures a == b
    decreases |a|
  {
    if a == [] || b == [] {
      // the first element of a non-empty one has a non-empty group in it
      FirstHasGroup(a, key);
      FirstHasGroup(b, key);
    } else {
      var ka, kb := key(a[0]), key(b[0]);
      WithKeyMembers(a, key, kb);
      WithKeyMembers(b, key, ka);
      assert ka == kb by {
        if ka > kb {
          var w := WithKey(b, key, ka);
          assert w != [];
          WithKeyOrigin(b, key, ka, 0);
        } else if ka < kb {
          var w := WithKey(a, key, kb);
          assert w != [];
          WithKeyOrigin(a, key, kb, 0);
        }
      }
      assert a == [a[0]] + a[1..] && b == [b[0]] + b[1..];
      DescendingCons(a[0], a[1..], key);
      DescendingCons(b[0], b[1..], key);
      assert WithKey(a, key, ka)[0] == a[0];
      assert WithKey(b, key, ka)[0] == b[0];
      assert a[0] == b[0];
      forall k ensures WithKey(a[1..], key, k) == WithKey(b[1..], key, k) {
        if k == ka {
          assert WithKey(a, key, k) == [a[0]] + WithKey(a[1..], key, k);
          assert WithKey(b, key, k) == [b[0]] + WithKey(b[1..], key, k);
          assert WithKey(a[1..], key, k) == WithKey(a, key, k)[1..];
          assert WithKey(b[1..], key, k) == WithKey(b, key, k)[1..];
        } else {
          assert WithKey(a, key, k) == WithKey(a[1..], key, k);
          assert WithKey(b, key, k) == WithKey(b[1..], key, k);
        }
      }
      SameGroupsEqual(a[1..], b[1..], key);
    }
  }

  /** Every element of `WithKey(s, key, k)` comes from `s`; the `n`-th one sits
      at or after position `n` of `s`. */
  lemma {:induction false} WithKeyOrigin<T>(s: seq<T>, key: T -> int, k: int, n: nat)
    requires n < |WithKey(s, key, k)|
    ensures exists i :: n <= i < |s| && s[i] == WithKey(s, key, k)[n]
  {
    if key(s[0]) == k {
      if n == 0 {
        assert s[0] == WithKey(s, key, k)[0];
      } else {
        WithKeyOrigin(s[1..], key, k, n - 1);
        var i :| n - 1 <= i < |s| - 1 && s[1..][i] == WithKey(s[1..], key, k)[n - 1];
        assert s[i + 1] == WithKey(s, key, k)[n];
      }
    } else {
      WithKeyOrigin(s[1..], key, k, n);
      var i :| n <= i < |s| - 1 && s[1..][i] == WithKey(s[1..], key, k)[n];
      assert s[i + 1] == WithKey(s, key, k)[n];
    }
  }

  /** The sort is the only descending order that keeps the input order among
      equal keys: it is exactly what a stable sort by descending key yields. */
  lemma SortIsTheStableOrder<T>(s: seq<T>, r: seq<T>, key: T -> int)
    requires Descending(r, key)
    requires forall k :: WithKey(r, key, k) == WithKey(s, key, k)
    ensures r == SortNewestFirst(s, key)
  {
    SortFacts(s, key);
    SameGroupsEqual(r, SortNewestFirst(s, key), key);
  }

  /** Selecting by key distributes over concatenation. */
  lemma {:induction false} WithKeyAppend<T>(a: seq<T>, b: seq<T>, key: T -> int, k: int)
    ensures WithKey(a + b, key, k) == WithKey(a, key, k) + WithKey(b, key, k)
  {
    if a != [] {
      assert (a + b)[1..] == a[1..] + b;
      WithKeyAppend(a[1..], b, key, k);
    } else {
      assert a + b == b;
    }
  }
}
