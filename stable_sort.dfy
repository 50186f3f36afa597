/**
 * `Array.prototype.sort(compare)` with `compare(a, b) = key(a) - key(b)`.
 * ECMAScript (since 2019) requires the sort to be stable, so the result is
 * fully determined: ascending in `key`, and elements with equal keys keep
 * their input order. `Sort` is that result, written as an insertion sort.
 */
module StableSort {

  /** `s` is non-decreasing in `key`: each element's key is at most the next one's. */
  ghost predicate SortedBy<T>(s: seq<T>, key: T -> int)
    decreases |s|
  {
    |s| < 2 || (key(s[0]) <= key(s[1]) && SortedBy(s[1..], key))
  }

  /** In a sorted sequence every earlier key is at most every later key. */
  lemma {:induction false} SortedByPairs<T>(s: seq<T>, key: T -> int)
    requires SortedBy(s, key)
    ensures forall i, j :: 0 <= i < j < |s| ==> key(s[i]) <= key(s[j])
  {
    if |s| >= 2 {
      SortedByPairs(s[1..], key);
      forall i, j | 0 <= i < j < |s| ensures key(s[i]) <= key(s[j]) {
        assert s[j] == s[1..][j - 1];
        if i > 0 {
          assert s[i] == s[1..][i - 1];
        }
      }
    }
  }

  /** Places `x` after every element whose key is at most `key(x)`. */
  function Insert<T>(x: T, s: seq<T>, key: T -> int): (r: seq<T>)
    ensures |r| == |s| + 1
    ensures multiset(r) == multiset(s) + multiset{x}
    ensures r[0] == x || (s != [] && r[0] == s[0])
    ensures SortedBy(s, key) ==> SortedBy(r, key)
  {
    if s == [] || key(x) < key(s[0]) then
      assert ([x] + s)[1..] == s;
      [x] + s
    else
      var rest := Insert(x, s[1..], key);
      assert s == [s[0]] + s[1..];
      assert ([s[0]] + rest)[1..] == rest;
      [s[0]] + rest
  }

  /** The stable sort of `s` by ascending `key`. */
  function Sort<T>(s: seq<T>, key: T -> int): (r: seq<T>)
    ensures |r| == |s|
    ensures SortedBy(r, key)
    ensures multiset(r) == multiset(s)
  {
    if s == [] then []
    else
      assert s == s[..|s| - 1] + [s[|s| - 1]];
      Insert(s[|s| - 1], Sort(s[..|s| - 1], key), key)
  }

  /** The elements of `s` whose key is `k`, in order: the tie class of `k`. */
  function WithKey<T>(s: seq<T>, key: T -> int, k: int): seq<T> {
    if s == [] then []
    else (if key(s[0]) == k then [s[0]] else []) + WithKey(s[1..], key, k)
  }

  /** The tie class of `[h] + t` is `h` (when its key is `k`) followed by the tie class of `t`. */
  lemma WithKeyCons<T>(h: T, t: seq<T>, key: T -> int, k: int)
    ensures WithKey([h] + t, key, k) == (if key(h) == k then [h] else []) + WithKey(t, key, k)
  {
    assert ([h] + t)[0] == h && ([h] + t)[1..] == t;
  }

  lemma {:induction false} WithKeyConcat<T>(a: seq<T>, b: seq<T>, key: T -> int, k: int)
    ensures WithKey(a + b, key, k) == WithKey(a, key, k) + WithKey(b, key, k)
  {
    if a == [] {
      assert a + b == b;
    } else {
      var head := if key(a[0]) == k then [a[0]] else [];
      assert a + b == [a[0]] + (a[1..] + b);
      WithKeyCons(a[0], a[1..] + b, key, k);
      WithKeyConcat(a[1..], b, key, k);
      assert a == [a[0]] + a[1..];
      WithKeyCons(a[0], a[1..], key, k);
    }
  }

  /** In a sorted sequence, `Insert` puts `x` after every element of its own tie class. */
  lemma {:induction false} InsertWithKey<T>(x: T, s: seq<T>, key: T -> int, k: int)
    requires SortedBy(s, key)
    ensures WithKey(Insert(x, s, key), key, k)
         == WithKey(s, key, k) + (if key(x) == k then [x] else [])
  {
    if s == [] || key(x) < key(s[0]) {
      InsertInFront(x, s, key, k);
    } else {
      InsertWithKey(x, s[1..], key, k);
      InsertBehind(x, s, key, k);
    }
  }

  /** `x` goes in front: its tie class gains `x`, which is alone in it when `s` is sorted. */
  lemma InsertInFront<T>(x: T, s: seq<T>, key: T -> int, k: int)
    requires SortedBy(s, key)
    requires s == [] || key(x) < key(s[0])
    ensures WithKey(Insert(x, s, key), key, k)
         == WithKey(s, key, k) + (if key(x) == k then [x] else [])
  {
    assert Insert(x, s, key) == [x] + s;
    WithKeyCons(x, s, key, k);
    if key(x) == k {
      NoneWithKey(s, key, k);
    }
  }

  /** Unfolding `Insert` once when `x` goes behind `s[0]`. */
  lemma InsertStep<T>(x: T, s: seq<T>, key: T -> int)
    requires s != [] && key(s[0]) <= key(x)
    ensures Insert(x, s, key) == [s[0]] + Insert(x, s[1..], key)
  {
  }

  /** `x` goes behind `s[0]`: the step from the tail's tie class to the whole one. */
  lemma InsertBehind<T>(x: T, s: seq<T>, key: T -> int, k: int)
    requires s != [] && key(s[0]) <= key(x)
    requires WithKey(Insert(x, s[1..], key), key, k)
          == WithKey(s[1..], key, k) + (if key(x) == k then [x] else [])
    ensures WithKey(Insert(x, s, key), key, k)
         == WithKey(s, key, k) + (if key(x) == k then [x] else [])
  {
    InsertStep(x, s, key);
    ConsKeepsTail(s[0], Insert(x, s[1..], key), s[1..], key, k, if key(x) == k then [x] else []);
    assert s == [s[0]] + s[1..];
  }

  /** Putting the same element in front of both sides keeps a tie-class equation. */
  lemma ConsKeepsTail<T>(h: T, r: seq<T>, t: seq<T>, key: T -> int, k: int, tail: seq<T>)
    requires WithKey(r, key, k) == WithKey(t, key, k) + tail
    ensures WithKey([h] + r, key, k) == WithKey([h] + t, key, k) + tail
  {
    var head := if key(h) == k then [h] else [];
    WithKeyCons(h, r, key, k);
    WithKeyCons(h, t, key, k);
    assert head + (WithKey(t, key, k) + tail) == (head + WithKey(t, key, k)) + tail;
  }

  /** A sorted sequence whose first key exceeds `k` has an empty tie class for `k`. */
  lemma {:induction false} NoneWithKey<T>(s: seq<T>, key: T -> int, k: int)
    requires SortedBy(s, key)
    requires s != [] ==> k < key(s[0])
    ensures WithKey(s, key, k) == []
  {
    if s != [] {
      NoneWithKey(s[1..], key, k);
    }
  }

  /** Stability: every tie class of the output is the same tie class of the input, in the same order. */
  lemma {:induction false} SortStable<T>(s: seq<T>, key: T -> int, k: int)
    ensures WithKey(Sort(s, key), key, k) == WithKey(s, key, k)
  {
    if s != [] {
      var init, last := s[..|s| - 1], s[|s| - 1];
      var tail := if key(last) == k then [last] else [];
      calc {
        WithKey(Sort(s, key), key, k);
        WithKey(Insert(last, Sort(init, key), key), key, k);
        { InsertWithKey(last, Sort(init, key), key, k); }
        WithKey(Sort(init, key), key, k) + tail;
        { SortStable(init, key, k); }
        WithKey(init, key, k) + tail;
        { assert WithKey([last], key, k) == tail + WithKey([], key, k); }
        WithKey(init, key, k) + WithKey([last], key, k);
        { WithKeyConcat(init, [last], key, k); }
        WithKey(init + [last], key, k);
        { assert s == init + [last]; }
        WithKey(s, key, k);
      }
    }
  }

  /** Inserting an element whose key is at least every key of `s` appends it. */
  lemma {:induction false} InsertAtEnd<T>(x: T, s: seq<T>, key: T -> int)
    requires forall i :: 0 <= i < |s| ==> key(s[i]) <= key(x)
    ensures Insert(x, s, key) == s + [x]
  {
    if s != [] {
      InsertAtEnd(x, s[1..], key);
    }
  }

  /** Sorting an already sorted sequence changes nothing. */
  lemma {:induction false} SortOfSorted<T>(s: seq<T>, key: T -> int)
    requires SortedBy(s, key)
    ensures Sort(s, key) == s
  {
    if s != [] {
      var init, last := s[..|s| - 1], s[|s| - 1];
      calc {
        Sort(s, key);
        Insert(last, Sort(init, key), key);
        { InitSorted(s, key); SortOfSorted(init, key); }
        Insert(last, init, key);
        { InitSorted(s, key); InsertAtEnd(last, init, key); }
        init + [last];
        s;
      }
    }
  }

  /** Dropping the last element of a sorted sequence leaves it sorted, below that element. */
  lemma {:induction false} InitSorted<T>(s: seq<T>, key: T -> int)
    requires SortedBy(s, key) && s != []
    ensures SortedBy(s[..|s| - 1], key)
    ensures forall i :: 0 <= i < |s| - 1 ==> key(s[i]) <= key(s[|s| - 1])
  {
    SortedByPairs(s, key);
    if |s| >= 2 {
      InitSorted(s[1..], key);
      assert s[..|s| - 1][1..] == s[1..][..|s| - 2];
    }
  }

  /** Sorting is idempotent. */
  lemma SortIdempotent<T>(s: seq<T>, key: T -> int)
    ensures Sort(Sort(s, key), key) == Sort(s, key)
  {
    SortOfSorted(Sort(s, key), key);
  }
}
