/** A stable sort by a numeric key, the behaviour ECMAScript requires of
    `Array.prototype.sort` when the comparator is a key difference `key(a) - key(b)`.
    `InsertionSort` is the specification; `InsertionSortInPlace` sorts an array in
    place and is proved to produce exactly that sequence. */
module StableSort {

  /** Non-decreasing in the key. */
  predicate SortedBy<T>(s: seq<T>, key: T -> real)
  {
    forall i, j :: 0 <= i < j < |s| ==> key(s[i]) <= key(s[j])
  }

  /** The elements of `s` whose key is `v`, in their order in `s`. */
  function WithKey<T>(s: seq<T>, key: T -> real, v: real): seq<T>
  {
    if s == [] then []
    else WithKey(s[..|s| - 1], key, v) + (if key(s[|s| - 1]) == v then [s[|s| - 1]] else [])
  }

  /** Inserts `x` after every element whose key is not greater than its own,
      scanning from the back. */
  function Insert<T>(s: seq<T>, x: T, key: T -> real): (r: seq<T>)
    ensures |r| == |s| + 1
  {
    if s == [] || key(s[|s| - 1]) <= key(x) then s + [x]
    else Insert(s[..|s| - 1], x, key) + [s[|s| - 1]]
  }

  /** Sorting the first n - 1 elements and inserting the n-th. */
  function InsertionSort<T>(s: seq<T>, key: T -> real): (r: seq<T>)
    ensures |r| == |s|
  {
    if s == [] then [] else Insert(InsertionSort(s[..|s| - 1], key), s[|s| - 1], key)
  }

  lemma {:induction false} InsertPermutes<T>(s: seq<T>, x: T, key: T -> real)
    ensures multiset(Insert(s, x, key)) == multiset(s) + multiset{x}
  {
    if s != [] && key(s[|s| - 1]) > key(x) {
      InsertPermutes(s[..|s| - 1], x, key);
      assert s == s[..|s| - 1] + [s[|s| - 1]];
    }
  }

  /** The elements `Insert` puts after `x` are those of `s` with a greater key. */
  lemma {:induction false} InsertSorted<T>(s: seq<T>, x: T, key: T -> real)
    requires SortedBy(s, key)
    ensures SortedBy(Insert(s, x, key), key)
  {
    var n := |s|;
    if s != [] && key(s[n - 1]) > key(x) {
      var init := s[..n - 1];
      InsertSorted(init, x, key);
      InsertPermutes(init, x, key);
      var r := Insert(init, x, key);
      var last := s[n - 1];
      forall i | 0 <= i < |r| ensures key(r[i]) <= key(last) {
        assert r[i] in multiset(r);
        if r[i] != x {
          assert r[i] in multiset(init);
          var j :| 0 <= j < |init| && init[j] == r[i];
          assert init[j] == s[j];
        }
      }
      assert Insert(s, x, key) == r + [last];
    }
  }

  lemma {:induction false} WithKeyConcat<T>(a: seq<T>, b: seq<T>, key: T -> real, v: real)
    ensures WithKey(a + b, key, v) == WithKey(a, key, v) + WithKey(b, key, v)
  {
    if b == [] {
      assert a + b == a;
    } else {
      assert (a + b)[..|a + b| - 1] == a + b[..|b| - 1];
      WithKeyConcat(a, b[..|b| - 1], key, v);
    }
  }

  /** Into a sorted sequence, `Insert` places `x` after every element with the same
      key: among elements of one key, `x` comes last. */
  lemma {:induction false} InsertWithKey<T>(s: seq<T>, x: T, key: T -> real, v: real)
    requires SortedBy(s, key)
    ensures WithKey(Insert(s, x, key), key, v) == WithKey(s, key, v) + (if key(x) == v then [x] else [])
  {
    var n := |s|;
    if s == [] || key(s[n - 1]) <= key(x) {
      WithKeyConcat(s, [x], key, v);
      assert [x][..0] == [];
    } else {
      var init, last := s[..n - 1], s[n - 1];
      assert SortedBy(init, key);
      InsertWithKey(init, x, key, v);
      var r := Insert(init, x, key);
      assert Insert(s, x, key) == r + [last];
      assert (r + [last])[..|r + [last]| - 1] == r;
      assert s == init + [last];
      WithKeyConcat(init, [last], key, v);
      assert [last][..0] == [];
    }
  }

  /** The sorted output is a permutation of the input. */
  lemma {:induction false} SortPermutes<T>(s: seq<T>, key: T -> real)
    ensures multiset(InsertionSort(s, key)) == multiset(s)
  {
    if s != [] {
      SortPermutes(s[..|s| - 1], key);
      InsertPermutes(InsertionSort(s[..|s| - 1], key), s[|s| - 1], key);
      assert s == s[..|s| - 1] + [s[|s| - 1]];
    }
  }

  /** The sorted output is non-decreasing in the key. */
  lemma {:induction false} SortSorted<T>(s: seq<T>, key: T -> real)
    ensures SortedBy(InsertionSort(s, key), key)
  {
    if s != [] {
      SortSorted(s[..|s| - 1], key);
      InsertSorted(InsertionSort(s[..|s| - 1], key), s[|s| - 1], key);
    }
  }

  /** Stability: for every key value, the elements with that key appear in the
      output in the same order as in the input. */
  lemma {:induction false} SortStable<T>(s: seq<T>, key: T -> real, v: real)
    ensures WithKey(InsertionSort(s, key), key, v) == WithKey(s, key, v)
  {
    if s != [] {
      var init := s[..|s| - 1];
      SortStable(init, key, v);
      SortSorted(init, key);
      InsertWithKey(InsertionSort(init, key), s[|s| - 1], key, v);
    }
  }

  lemma {:induction false} WithKeyNone<T>(s: seq<T>, key: T -> real, v: real)
    requires forall i :: 0 <= i < |s| ==> key(s[i]) != v
    ensures WithKey(s, key, v) == []
  {
    if s != [] {
      WithKeyNone(s[..|s| - 1], key, v);
    }
  }

  /** A sorted sequence whose keys take only the values lo < hi is its lo-keyed
      elements followed by its hi-keyed elements. */
  lemma {:induction false} SortedTwoKeys<T>(t: seq<T>, key: T -> real, lo: real, hi: real)
    requires lo < hi && SortedBy(t, key)
    requires forall i :: 0 <= i < |t| ==> key(t[i]) == lo || key(t[i]) == hi
    ensures t == WithKey(t, key, lo) + WithKey(t, key, hi)
  {
    if t != [] {
      var init, last := t[..|t| - 1], t[|t| - 1];
      InitKeys(t, init, key, lo, hi);
      SortedTwoKeys(init, key, lo, hi);
      if key(last) == lo {
        WithKeyNone(init, key, hi);
      }
      AppendLast(init, last, key, lo, hi);
      LastSplit(t);
    }
  }

  lemma LastSplit<T>(t: seq<T>)
    requires t != []
    ensures t == t[..|t| - 1] + [t[|t| - 1]]
  {
  }

  /** The split into lo- and hi-keyed parts survives appending an element, when the
      element is hi-keyed or nothing before it is. */
  lemma AppendLast<T>(init: seq<T>, last: T, key: T -> real, lo: real, hi: real)
    requires lo < hi && init == WithKey(init, key, lo) + WithKey(init, key, hi)
    requires key(last) == hi || (key(last) == lo && WithKey(init, key, hi) == [])
    ensures init + [last] == WithKey(init + [last], key, lo) + WithKey(init + [last], key, hi)
  {
    var t := init + [last];
    var L, H := WithKey(init, key, lo), WithKey(init, key, hi);
    assert t[..|t| - 1] == init && t[|t| - 1] == last;
    if key(last) == hi {
      assert WithKey(t, key, lo) == L + [] && WithKey(t, key, hi) == H + [last];
      calc {
        L + [] + (H + [last]);
        L + H + [last];
        t;
      }
    } else {
      assert WithKey(t, key, lo) == L + [last] && WithKey(t, key, hi) == [] + [];
      calc {
        L + [last] + ([] + []);
        (L + []) + [last];
        t;
      }
    }
  }

  /** Dropping the last element keeps the sequence sorted with keys lo or hi; when
      the last key is lo, no earlier key is hi. */
  lemma InitKeys<T>(t: seq<T>, init: seq<T>, key: T -> real, lo: real, hi: real)
    requires t != [] && init == t[..|t| - 1] && lo < hi && SortedBy(t, key)
    requires forall i :: 0 <= i < |t| ==> key(t[i]) == lo || key(t[i]) == hi
    ensures SortedBy(init, key)
    ensures forall i :: 0 <= i < |init| ==> key(init[i]) == lo || key(init[i]) == hi
    ensures key(t[|t| - 1]) == lo ==> forall i :: 0 <= i < |init| ==> key(init[i]) != hi
  {
    var n := |t| - 1;
    assert forall i :: 0 <= i < n ==> init[i] == t[i];
    if key(t[n]) == lo {
      forall i | 0 <= i < n ensures key(init[i]) != hi {
        assert key(t[i]) <= key(t[n]);
      }
    }
  }

  /** When the elements from position j on all have keys greater than x's and the
      one before (if any) does not, `Insert` puts x at position j. */
  lemma {:induction false} InsertAt<T>(S: seq<T>, x: T, key: T -> real, j: nat)
    requires j <= |S|
    requires forall k :: j <= k < |S| ==> key(S[k]) > key(x)
    requires j == 0 || key(S[j - 1]) <= key(x)
    ensures Insert(S, x, key) == S[..j] + [x] + S[j..]
    decreases |S|
  {
    if |S| > j {
      var init := S[..|S| - 1];
      InsertAt(init, x, key, j);
      assert init[..j] == S[..j];
      assert init[j..] + [S[|S| - 1]] == S[j..];
    }
  }

  /** Moves `a[i]` left past every element of `a[..i]` with a strictly greater key;
      the elements after position i are not touched. */
  method InsertInPlace<T>(a: array<T>, i: nat, key: T -> real)
    requires i < a.Length
    modifies a
    ensures a[..i + 1] == Insert(old(a[..i]), old(a[i]), key)
    ensures forall k :: i < k < a.Length ==> a[k] == old(a[k])
  {
    var x := a[i];
    ghost var S := a[..i];
    var j := i;
    while j > 0 && key(a[j - 1]) > key(x)
      invariant 0 <= j <= i
      invariant forall k :: 0 <= k < j ==> a[k] == S[k]
      invariant forall k :: j < k <= i ==> a[k] == S[k - 1]
      invariant forall k :: i < k < a.Length ==> a[k] == old(a[k])
      invariant forall k :: j <= k < i ==> key(S[k]) > key(x)
    {
      a[j] := a[j - 1];
      j := j - 1;
    }
    a[j] := x;
    InsertAt(S, x, key, j);
    ghost var t := S[..j] + [x] + S[j..];
    forall k | 0 <= k <= i
      ensures a[k] == t[k]
    {
      if k > j {
        assert t[k] == S[j..][k - j - 1] == S[k - 1];
      }
    }
    assert a[..i + 1] == t;
  }

  lemma SortPrefixStep<T>(s: seq<T>, i: nat, key: T -> real)
    requires i < |s|
    ensures InsertionSort(s[..i + 1], key) == Insert(InsertionSort(s[..i], key), s[i], key)
  {
    assert s[..i + 1][..i] == s[..i];
  }

  /** Sorts `a` in place by straight insertion: each element in turn is moved left
      past every element with a strictly greater key. */
  method InsertionSortInPlace<T>(a: array<T>, key: T -> real)
    modifies a
    ensures a[..] == InsertionSort(old(a[..]), key)
  {
    ghost var input := a[..];
    var i := 0;
    while i < a.Length
      invariant 0 <= i <= a.Length
      invariant a[..i] == InsertionSort(input[..i], key)
      invariant forall k :: i <= k < a.Length ==> a[k] == input[k]
    {
      SortPrefixStep(input, i, key);
      InsertInPlace(a, i, key);
      i := i + 1;
    }
    assert a[..] == a[..a.Length];
    assert input[..a.Length] == input;
  }
}
