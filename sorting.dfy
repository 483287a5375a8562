/**
  `Array.prototype.sort` with a comparator on one string key of each element, as the
  dashboard uses it: a stable sort, here a stable insertion sort on sequences.
*/
module Sorting {

  /** Lexicographic order on strings, character by character. */
  predicate LexLe(a: string, b: string)
    decreases |a|
  {
    a == [] || (b != [] && (a[0] < b[0] || (a[0] == b[0] && LexLe(a[1..], b[1..]))))
  }

  lemma {:induction false} LexLeTotal(a: string, b: string)
    ensures LexLe(a, b) || LexLe(b, a)
    decreases |a|
  {
    if a != [] && b != [] && a[0] == b[0] {
      LexLeTotal(a[1..], b[1..]);
    }
  }

  lemma {:induction false} LexLeTransitive(a: string, b: string, c: string)
    requires LexLe(a, b) && LexLe(b, c)
    ensures LexLe(a, c)
    decreases |a|
  {
    if a != [] && a[0] == b[0] && b[0] == c[0] {
      LexLeTransitive(a[1..], b[1..], c[1..]);
    }
  }

  /** `x` may stand before `y`: ascending by key, or descending when `descending` holds. */
  predicate InOrder<T>(x: T, y: T, key: T -> string, descending: bool)
  {
    if descending then LexLe(key(y), key(x)) else LexLe(key(x), key(y))
  }

  lemma InOrderTotal<T>(x: T, y: T, key: T -> string, descending: bool)
    ensures InOrder(x, y, key, descending) || InOrder(y, x, key, descending)
  {
    LexLeTotal(key(x), key(y));
  }

  lemma InOrderTransitive<T>(x: T, y: T, z: T, key: T -> string, descending: bool)
    requires InOrder(x, y, key, descending) && InOrder(y, z, key, descending)
    ensures InOrder(x, z, key, descending)
  {
    if descending {
      LexLeTransitive(key(z), key(y), key(x));
    } else {
      LexLeTransitive(key(x), key(y), key(z));
    }
  }

  ghost predicate SortedBy<T>(s: seq<T>, key: T -> string, descending: bool)
  {
    forall i, j :: 0 <= i < j < |s| ==> InOrder(s[i], s[j], key, descending)
  }

  /** Insert `x` into sorted `t` after every element that may stand before it. */
  function Insert<T>(t: seq<T>, x: T, key: T -> string, descending: bool): seq<T>
    decreases |t|
  {
    if t == [] then [x]
    else if InOrder(t[0], x, key, descending) then [t[0]] + Insert(t[1..], x, key, descending)
    else [x] + t
  }

  /** The stable sort of `s` by `key`. */
  function SortBy<T>(s: seq<T>, key: T -> string, descending: bool): seq<T>
    decreases |s|
  {
    if s == [] then []
    else Insert(SortBy(s[..|s| - 1], key, descending), s[|s| - 1], key, descending)
  }

  lemma {:induction false} InsertPermutation<T>(t: seq<T>, x: T, key: T -> string, descending: bool)
    ensures multiset(Insert(t, x, key, descending)) == multiset(t) + multiset{x}
    decreases |t|
  {
    if t != [] && InOrder(t[0], x, key, descending) {
      InsertPermutation(t[1..], x, key, descending);
      assert t == [t[0]] + t[1..];
    }
  }

  lemma {:induction false} InsertSorted<T>(t: seq<T>, x: T, key: T -> string, descending: bool)
    requires SortedBy(t, key, descending)
    ensures SortedBy(Insert(t, x, key, descending), key, descending)
    decreases |t|
  {
    if t == [] {
    } else if InOrder(t[0], x, key, descending) {
      var rest := Insert(t[1..], x, key, descending);
      InsertSorted(t[1..], x, key, descending);
      InsertPermutation(t[1..], x, key, descending);
      forall k | 0 <= k < |rest|
        ensures InOrder(t[0], rest[k], key, descending)
      {
        assert rest[k] in multiset(rest);
        if rest[k] != x {
          assert rest[k] in multiset(t[1..]);
          var j :| 0 <= j < |t[1..]| && t[1..][j] == rest[k];
          assert t[j + 1] == rest[k];
        }
      }
    } else {
      InOrderTotal(t[0], x, key, descending);
      forall k | 0 <= k < |t|
        ensures InOrder(x, t[k], key, descending)
      {
        if k > 0 {
          InOrderTransitive(x, t[0], t[k], key, descending);
        }
      }
      var r := [x] + t;
      assert forall i, j :: 0 <= i < j < |r| ==> InOrder(r[i], r[j], key, descending) by {
        forall i, j | 0 <= i < j < |r|
          ensures InOrder(r[i], r[j], key, descending)
        {
          if i == 0 {
            assert r[j] == t[j - 1];
          } else {
            assert r[i] == t[i - 1] && r[j] == t[j - 1];
          }
        }
      }
    }
  }

  /** The sorted result is ordered by key and is a permutation of the input. */
  lemma {:induction false} SortBySortedPermutation<T>(s: seq<T>, key: T -> string, descending: bool)
    ensures SortedBy(SortBy(s, key, descending), key, descending)
    ensures multiset(SortBy(s, key, descending)) == multiset(s)
    ensures |SortBy(s, key, descending)| == |s|
    decreases |s|
  {
    if s != [] {
      var init := s[..|s| - 1];
      SortBySortedPermutation(init, key, descending);
      InsertSorted(SortBy(init, key, descending), s[|s| - 1], key, descending);
      InsertPermutation(SortBy(init, key, descending), s[|s| - 1], key, descending);
      assert s == init + [s[|s| - 1]];
      assert |multiset(SortBy(s, key, descending))| == |multiset(s)|;
    }
  }

  lemma {:induction false} LexLeReflexive(a: string)
    ensures LexLe(a, a)
    decreases |a|
  {
    if a != [] {
      LexLeReflexive(a[1..]);
    }
  }

  /** The elements of `s` whose key is `k`, in the order of `s`. */
  function WithKey<T>(s: seq<T>, key: T -> string, k: string): (r: seq<T>)
    ensures forall i :: 0 <= i < |r| ==> key(r[i]) == k
    decreases |s|
  {
    if s == [] then []
    else (if key(s[0]) == k then [s[0]] else []) + WithKey(s[1..], key, k)
  }

  lemma {:induction false} WithKeyAppend<T>(a: seq<T>, b: seq<T>, key: T -> string, k: string)
    ensures WithKey(a + b, key, k) == WithKey(a, key, k) + WithKey(b, key, k)
    decreases |a|
  {
    if a == [] {
      assert a + b == b;
    } else {
      var head := if key(a[0]) == k then [a[0]] else [];
      calc {
        WithKey(a + b, key, k);
        { assert (a + b)[0] == a[0] && (a + b)[1..] == a[1..] + b; }
        head + WithKey(a[1..] + b, key, k);
        { WithKeyAppend(a[1..], b, key, k); }
        head + (WithKey(a[1..], key, k) + WithKey(b, key, k));
        WithKey(a, key, k) + WithKey(b, key, k);
      }
    }
  }

  lemma {:induction false} WithKeyNone<T>(t: seq<T>, key: T -> string, k: string)
    requires forall j :: 0 <= j < |t| ==> key(t[j]) != k
    ensures WithKey(t, key, k) == []
    decreases |t|
  {
    if t != [] {
      WithKeyNone(t[1..], key, k);
    }
  }

  /**
    Inserting into a sorted sequence puts the new element after every element with the
    same key.
  */
  lemma {:induction false} InsertStable<T>(t: seq<T>, x: T, key: T -> string, descending: bool, k: string)
    requires SortedBy(t, key, descending)
    ensures WithKey(Insert(t, x, key, descending), key, k)
      == WithKey(t, key, k) + (if key(x) == k then [x] else [])
    decreases |t|, 1
  {
    if t == [] {
    } else if InOrder(t[0], x, key, descending) {
      InsertStablePast(t, x, key, descending, k);
    } else {
      assert Insert(t, x, key, descending) == [x] + t;
      WithKeyAppend([x], t, key, k);
      if key(x) == k {
        NoTieAfterRefusal(t, x, key, descending);
        WithKeyNone(t, key, k);
      }
    }
  }

  /** `InsertStable` where `x` goes past the head of `t`. */
  lemma {:induction false} InsertStablePast<T>(t: seq<T>, x: T, key: T -> string, descending: bool, k: string)
    requires SortedBy(t, key, descending) && t != [] && InOrder(t[0], x, key, descending)
    ensures WithKey(Insert(t, x, key, descending), key, k)
      == WithKey(t, key, k) + (if key(x) == k then [x] else [])
    decreases |t|, 0
  {
    var r := Insert(t[1..], x, key, descending);
    var head := WithKey([t[0]], key, k);
    var tail := if key(x) == k then [x] else [];
    assert SortedBy(t[1..], key, descending);
    calc {
      WithKey(Insert(t, x, key, descending), key, k);
      { assert Insert(t, x, key, descending) == [t[0]] + r; }
      WithKey([t[0]] + r, key, k);
      { WithKeyAppend([t[0]], r, key, k); }
      head + WithKey(r, key, k);
      { InsertStable(t[1..], x, key, descending, k); }
      head + (WithKey(t[1..], key, k) + tail);
      (head + WithKey(t[1..], key, k)) + tail;
      { WithKeyAppend([t[0]], t[1..], key, k); assert [t[0]] + t[1..] == t; }
      WithKey(t, key, k) + tail;
    }
  }

  /** When `x` may not stand after the head of a sorted sequence, no element there shares its key. */
  lemma NoTieAfterRefusal<T>(t: seq<T>, x: T, key: T -> string, descending: bool)
    requires SortedBy(t, key, descending) && t != [] && !InOrder(t[0], x, key, descending)
    ensures forall j :: 0 <= j < |t| ==> key(t[j]) != key(x)
  {
    forall j | 0 <= j < |t|
      ensures key(t[j]) != key(x)
    {
      if key(t[j]) == key(x) {
        LexLeReflexive(key(x));
        assert InOrder(t[j], x, key, descending);
        if j > 0 {
          InOrderTransitive(t[0], t[j], x, key, descending);
        }
      }
    }
  }

  /**
    The sort is stable: the elements with any one key come out in the order they went in.
  */
  lemma {:induction false} SortByStable<T>(s: seq<T>, key: T -> string, descending: bool, k: string)
    ensures WithKey(SortBy(s, key, descending), key, k) == WithKey(s, key, k)
    decreases |s|
  {
    if s != [] {
      var init, last := s[..|s| - 1], s[|s| - 1];
      calc {
        WithKey(SortBy(s, key, descending), key, k);
        WithKey(Insert(SortBy(init, key, descending), last, key, descending), key, k);
        { SortBySortedPermutation(init, key, descending);
          InsertStable(SortBy(init, key, descending), last, key, descending, k); }
        WithKey(SortBy(init, key, descending), key, k) + WithKey([last], key, k);
        { SortByStable(init, key, descending, k); }
        WithKey(init, key, k) + WithKey([last], key, k);
        { WithKeyAppend(init, [last], key, k); assert s == init + [last]; }
        WithKey(s, key, k);
      }
    }
  }
}
