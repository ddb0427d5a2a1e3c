/** Sequence idioms the storefront builds its state from: `Array.prototype.filter`,
    `slice(0, n)` and the "add if absent, remove if present" toggle, with the facts
    about them that the page models rely on. */
module Seqs {

  datatype Option<T> = None | Some(value: T)

  /** `s.filter(f)`: the elements of `s` that satisfy `f`, in their original order. */
  function Filter<T>(s: seq<T>, f: T -> bool): (r: seq<T>)
    ensures |r| <= |s|
    ensures forall x :: x in r ==> x in s && f(x)
    ensures forall x :: x in s && f(x) ==> x in r
  {
    if s == [] then [] else (if f(s[0]) then [s[0]] else []) + Filter(s[1..], f)
  }

  /** `s.slice(0, n)` for n >= 0. */
  function Take<T>(s: seq<T>, n: nat): (r: seq<T>)
    ensures |r| == if |s| <= n then |s| else n
    ensures r <= s
  {
    if |s| <= n then s else s[..n]
  }

  /** `a` is obtained from `b` by deleting elements: an order-preserving subsequence. */
  predicate IsSubseq<T(==)>(a: seq<T>, b: seq<T>)
    decreases |b|
  {
    if a == [] then true
    else if b == [] then false
    else (a[0] == b[0] && IsSubseq(a[1..], b[1..])) || IsSubseq(a, b[1..])
  }

  /** No element occurs twice. */
  predicate Distinct<T(==)>(s: seq<T>)
  {
    forall i, j :: 0 <= i < j < |s| ==> s[i] != s[j]
  }

  /** `s.filter(y => y !== x)`: every occurrence of `x` deleted, the rest in order. */
  function Except<T(==)>(s: seq<T>, x: T): (r: seq<T>)
    ensures |r| <= |s|
    ensures forall y :: y in r ==> y in s && y != x
    ensures forall y :: y in s && y != x ==> y in r
  {
    if s == [] then [] else (if s[0] != x then [s[0]] else []) + Except(s[1..], x)
  }

  /** `s.includes(x) ? s.filter(y => y !== x) : [...s, x]`: flips the membership
      of `x` and of nothing else. */
  function Toggle<T(==)>(s: seq<T>, x: T): (r: seq<T>)
    ensures x in r <==> x !in s
    ensures forall i :: 0 <= i < |r| ==> r[i] == x || r[i] in s
    ensures forall i :: 0 <= i < |s| && s[i] != x ==> s[i] in r
  {
    if x in s then Except(s, x) else s + [x]
  }

  lemma {:induction false} FilterConcat<T>(a: seq<T>, b: seq<T>, f: T -> bool)
    ensures Filter(a + b, f) == Filter(a, f) + Filter(b, f)
  {
    if a == [] {
      assert a + b == b;
    } else {
      var h := if f(a[0]) then [a[0]] else [];
      assert (a + b)[0] == a[0] && (a + b)[1..] == a[1..] + b;
      FilterConcat(a[1..], b, f);
      calc {
        Filter(a + b, f);
        h + Filter(a[1..] + b, f);
        h + (Filter(a[1..], f) + Filter(b, f));
        (h + Filter(a[1..], f)) + Filter(b, f);
        Filter(a, f) + Filter(b, f);
      }
    }
  }

  /** A filter that every element passes changes nothing. */
  lemma {:induction false} FilterAll<T>(s: seq<T>, f: T -> bool)
    requires forall x :: x in s ==> f(x)
    ensures Filter(s, f) == s
  {
    if s != [] {
      FilterAll(s[1..], f);
    }
  }

  /** A filter that no element passes yields the empty sequence. */
  lemma FilterNone<T>(s: seq<T>, f: T -> bool)
    requires forall x :: x in s ==> !f(x)
    ensures Filter(s, f) == []
  {
    if Filter(s, f) != [] {
      assert Filter(s, f)[0] in Filter(s, f);
    }
  }

  /** Filters that agree on the elements of `s` give the same result. */
  lemma {:induction false} FilterExt<T>(s: seq<T>, f: T -> bool, g: T -> bool)
    requires forall x :: x in s ==> f(x) == g(x)
    ensures Filter(s, f) == Filter(s, g)
  {
    if s != [] {
      FilterExt(s[1..], f, g);
    }
  }

  /** Two successive filters are one filter by the conjunction. */
  lemma {:induction false} FilterFilter<T>(s: seq<T>, f: T -> bool, g: T -> bool, h: T -> bool)
    requires forall x :: h(x) == (f(x) && g(x))
    ensures Filter(Filter(s, f), g) == Filter(s, h)
  {
    if s != [] {
      FilterFilter(s[1..], f, g, h);
      var t := Filter(s[1..], f);
      if f(s[0]) {
        assert Filter(s, f) == [s[0]] + t;
        FilterConcat([s[0]], t, g);
        assert [s[0]][1..] == [];
        assert Filter([s[0]], g) == if g(s[0]) then [s[0]] else [];
      } else {
        assert Filter(s, f) == t;
      }
      assert Filter(s, h) == (if h(s[0]) then [s[0]] else []) + Filter(s[1..], h);
    }
  }

  /** A filter neither invents nor duplicates an element. */
  lemma {:induction false} FilterMultiset<T>(s: seq<T>, f: T -> bool)
    ensures multiset(Filter(s, f)) <= multiset(s)
  {
    if s != [] {
      FilterMultiset(s[1..], f);
      assert s == [s[0]] + s[1..];
    }
  }

  /** A filter stage guarded by `guard` (`if (guard) result = result.filter(f)`)
      after filtering by `g` is one filter by `g` and, when the guard holds, `f`. */
  lemma FilterStage<T>(s: seq<T>, g: T -> bool, guard: bool, f: T -> bool, h: T -> bool)
    requires forall x :: h(x) == (g(x) && (guard ==> f(x)))
    ensures (if guard then Filter(Filter(s, g), f) else Filter(s, g)) == Filter(s, h)
  {
    if guard {
      FilterFilter(s, g, f, h);
    } else {
      FilterExt(s, g, h);
    }
  }

  lemma {:induction false} FilterIsSubseq<T>(s: seq<T>, f: T -> bool)
    ensures IsSubseq(Filter(s, f), s)
  {
    if s != [] {
      FilterIsSubseq(s[1..], f);
      var r := Filter(s, f);
      if f(s[0]) {
        assert r[0] == s[0] && r[1..] == Filter(s[1..], f);
      } else {
        assert r == Filter(s[1..], f);
      }
    }
  }

  lemma {:induction false} PrefixIsSubseq<T>(a: seq<T>, b: seq<T>)
    requires a <= b
    ensures IsSubseq(a, b)
  {
    if a != [] {
      PrefixIsSubseq(a[1..], b[1..]);
    }
  }

  /** A subsequence of a subsequence is a subsequence. */
  lemma {:induction false} SubseqTrans<T>(a: seq<T>, b: seq<T>, c: seq<T>)
    requires IsSubseq(a, b) && IsSubseq(b, c)
    ensures IsSubseq(a, c)
    decreases |c|
  {
    if a != [] {
      if IsSubseq(b, c[1..]) {
        SubseqTrans(a, b, c[1..]);
      } else if a[0] == b[0] && IsSubseq(a[1..], b[1..]) {
        SubseqTrans(a[1..], b[1..], c[1..]);
      } else {
        SubseqTrans(a, b[1..], c[1..]);
      }
    }
  }

  /** Taking the first n results of a filter is filtering a prefix of the input: the
      prefix ends after the n-th passing element, or is the whole input. */
  lemma {:induction false} TakeFilterIsPrefixFilter<T>(s: seq<T>, f: T -> bool, n: nat)
    ensures exists k :: 0 <= k <= |s| && Take(Filter(s, f), n) == Filter(s[..k], f)
                        && (k == |s| || |Filter(s[..k], f)| == n)
  {
    if s == [] || n == 0 {
      assert s[..0] == [];
      assert Take(Filter(s, f), n) == Filter(s[..0], f);
    } else {
      var m := if f(s[0]) then n - 1 else n;
      TakeFilterIsPrefixFilter(s[1..], f, m);
      var k' :| 0 <= k' <= |s[1..]| && Take(Filter(s[1..], f), m) == Filter(s[1..][..k'], f)
                && (k' == |s[1..]| || |Filter(s[1..][..k'], f)| == m);
      TakeFilterStep(s, f, n, k');
      assert k' + 1 == |s| || |Filter(s[..k' + 1], f)| == n;
    }
  }

  /** One step of the induction above: a prefix witness for the tail extends by the
      head. */
  lemma TakeFilterStep<T>(s: seq<T>, f: T -> bool, n: nat, k': nat)
    requires s != [] && n > 0 && k' <= |s| - 1
    requires Take(Filter(s[1..], f), if f(s[0]) then n - 1 else n) == Filter(s[1..][..k'], f)
    ensures Take(Filter(s, f), n) == Filter(s[..k' + 1], f)
    ensures |Filter(s[..k' + 1], f)| == |Filter(s[1..][..k'], f)| + (if f(s[0]) then 1 else 0)
  {
    var head := if f(s[0]) then [s[0]] else [];
    var m := if f(s[0]) then n - 1 else n;
    var t := s[..k' + 1];
    assert t != [] && t[0] == s[0] && t[1..] == s[1..][..k'];
    assert Filter(t, f) == head + Filter(s[1..][..k'], f);
    assert Filter(s, f) == head + Filter(s[1..], f);
    TakeCons(head, Filter(s[1..], f), n, m);
  }

  /** Taking n from a list with a head of length n - m is keeping the head and
      taking m from the rest. */
  lemma TakeCons<T>(head: seq<T>, rest: seq<T>, n: nat, m: nat)
    requires |head| <= 1 && n == m + |head|
    ensures Take(head + rest, n) == head + Take(rest, m)
  {
    if |rest| > m {
      assert (head + rest)[..n] == head + rest[..m];
    }
  }

  /** `s.filter(f).slice(0, n)`: at most n elements of `s` that pass `f`, in
      their order in `s`, and they are the first n that pass (all of them when
      fewer pass). */
  lemma FirstMatches<T>(s: seq<T>, f: T -> bool, n: nat)
    ensures |Take(Filter(s, f), n)| <= n
    ensures forall x :: x in Take(Filter(s, f), n) ==> x in s && f(x)
    ensures IsSubseq(Take(Filter(s, f), n), s)
    ensures exists k :: 0 <= k <= |s| && Take(Filter(s, f), n) == Filter(s[..k], f)
                        && (k == |s| || |Take(Filter(s, f), n)| == n)
  {
    TakeFilterIsPrefixFilter(s, f, n);
    FilterIsSubseq(s, f);
    PrefixIsSubseq(Take(Filter(s, f), n), Filter(s, f));
    SubseqTrans(Take(Filter(s, f), n), Filter(s, f), s);
  }

  lemma {:induction false} ExceptConcat<T>(a: seq<T>, b: seq<T>, x: T)
    ensures Except(a + b, x) == Except(a, x) + Except(b, x)
  {
    if a == [] {
      assert a + b == b;
    } else {
      assert (a + b)[1..] == a[1..] + b;
      ExceptConcat(a[1..], b, x);
    }
  }

  /** Deleting a value that does not occur changes nothing. */
  lemma {:induction false} ExceptAbsent<T>(s: seq<T>, x: T)
    requires x !in s
    ensures Except(s, x) == s
  {
    if s != [] {
      ExceptAbsent(s[1..], x);
    }
  }

  /** Toggling the same value twice restores the membership of every value, and
      restores the list itself when the value was absent. */
  lemma ToggleTwice<T>(s: seq<T>, x: T)
    ensures forall y :: y in Toggle(Toggle(s, x), x) <==> y in s
    ensures x !in s ==> Toggle(Toggle(s, x), x) == s
  {
    if x !in s {
      ExceptConcat(s, [x], x);
      ExceptAbsent(s, x);
      assert Except([x], x) == [];
    }
  }

  /** Deleting one position keeps a duplicate-free list duplicate-free. */
  lemma DistinctRemoveAt<T>(s: seq<T>, i: nat)
    requires Distinct(s) && i < |s|
    ensures Distinct(s[..i] + s[i + 1..])
  {
    var r := s[..i] + s[i + 1..];
    forall p, q | 0 <= p < q < |r|
      ensures r[p] != r[q]
    {
      var p' := if p < i then p else p + 1;
      var q' := if q < i then q else q + 1;
      assert r[p] == s[p'] && r[q] == s[q'];
    }
  }

  /** In a duplicate-free list the value at `i` occurs neither before nor after `i`. */
  lemma DistinctNotElsewhere<T>(s: seq<T>, i: nat)
    requires Distinct(s) && i < |s|
    ensures s[i] !in s[..i] && s[i] !in s[i + 1..]
  {
    forall p | 0 <= p < i ensures s[..i][p] != s[i] {
      assert s[..i][p] == s[p];
    }
    forall p | i < p < |s| ensures s[p] != s[i] {
      assert s[i + 1..][p - i - 1] == s[p];
    }
  }

  /** Deleting a value that occurs only at position `i` removes that one position. */
  lemma ExceptAt<T>(s: seq<T>, i: nat)
    requires i < |s| && s[i] !in s[..i] && s[i] !in s[i + 1..]
    ensures Except(s, s[i]) == s[..i] + s[i + 1..]
  {
    var x := s[i];
    var pre, post := s[..i], s[i + 1..];
    assert s[..i + 1] == pre + [x];
    assert s == s[..i + 1] + post;
    ExceptMid(pre, x, post);
  }

  lemma ExceptMid<T>(pre: seq<T>, x: T, post: seq<T>)
    requires x !in pre && x !in post
    ensures Except(pre + [x] + post, x) == pre + post
  {
    calc {
      Except(pre + [x] + post, x);
      { ExceptConcat(pre + [x], post, x); }
      Except(pre + [x], x) + Except(post, x);
      { ExceptConcat(pre, [x], x); }
      Except(pre, x) + Except([x], x) + Except(post, x);
      { ExceptAbsent(pre, x); ExceptAbsent(post, x); ExceptOne(x); }
      pre + [] + post;
      { assert pre + [] == pre; }
      pre + post;
    }
  }

  lemma ExceptOne<T>(x: T)
    ensures Except([x], x) == []
  {
    assert [x][1..] == [];
  }

  /** A duplicate-free list stays duplicate-free, and its length moves by exactly one. */
  lemma ToggleDistinct<T>(s: seq<T>, x: T)
    requires Distinct(s)
    ensures Distinct(Toggle(s, x))
    ensures |Toggle(s, x)| == if x in s then |s| - 1 else |s| + 1
  {
    if x in s {
      var i :| 0 <= i < |s| && s[i] == x;
      DistinctNotElsewhere(s, i);
      ExceptAt(s, i);
      DistinctRemoveAt(s, i);
    } else {
      var r := s + [x];
      forall p, q | 0 <= p < q < |r|
        ensures r[p] != r[q]
      {
        if q == |s| {
          assert r[p] == s[p];
        } else {
          assert r[p] == s[p] && r[q] == s[q];
        }
      }
    }
  }
}
