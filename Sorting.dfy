/** `Array.prototype.sort(compareFn)` on a copy: a stable sort by a comparator
    that returns a negative, zero or positive number. Insertion sort is the
    model: each element, taken from the back, is placed before the first element
    it does not compare greater than, so elements that compare equal keep their
    input order. */
module Sorting {
  import opened Seqs

  function InsertBy<T>(x: T, r: seq<T>, cmp: (T, T) -> int): (out: seq<T>)
    ensures multiset(out) == multiset(r) + multiset{x}
    ensures |out| == |r| + 1
  {
    if r == [] || cmp(x, r[0]) <= 0 then [x] + r
    else
      assert r == [r[0]] + r[1..];
      [r[0]] + InsertBy(x, r[1..], cmp)
  }

  function SortBy<T>(s: seq<T>, cmp: (T, T) -> int): (r: seq<T>)
    ensures multiset(r) == multiset(s)
    ensures |r| == |s|
  {
    if s == [] then []
    else
      assert s == [s[0]] + s[1..];
      InsertBy(s[0], SortBy(s[1..], cmp), cmp)
  }

  /** Every element is in the domain `ok` on which the comparator is a difference of keys. */
  predicate AllIn<T>(s: seq<T>, ok: T -> bool)
  {
    forall i :: 0 <= i < |s| ==> ok(s[i])
  }

  /** On `ok` elements, `cmp(a, b)` is `key(b) - key(a)`: larger keys sort first. */
  ghost predicate DescendingComparator<T(!new)>(cmp: (T, T) -> int, key: T -> int, ok: T -> bool)
  {
    forall a, b :: ok(a) && ok(b) ==> cmp(a, b) == key(b) - key(a)
  }

  /** Keys never increase along the sequence. */
  ghost predicate Descending<T>(s: seq<T>, key: T -> int)
  {
    forall i, j :: 0 <= i < j < |s| ==> key(s[i]) >= key(s[j])
  }

  /** Every element of `s` is `ok` with a key of at most `v`. */
  ghost predicate AllAtMost<T>(s: seq<T>, key: T -> int, ok: T -> bool, v: int)
  {
    forall i :: 0 <= i < |s| ==> ok(s[i]) && key(s[i]) <= v
  }

  lemma AllInTail<T>(s: seq<T>, ok: T -> bool)
    requires s != [] && AllIn(s, ok)
    ensures AllIn(s[1..], ok)
  {
    forall i | 0 <= i < |s[1..]| ensures ok(s[1..][i]) {
      assert s[1..][i] == s[i + 1];
    }
  }

  lemma {:induction false} InsertAtMost<T>(x: T, r: seq<T>, cmp: (T, T) -> int, key: T -> int, ok: T -> bool, v: int)
    requires AllAtMost(r, key, ok, v) && ok(x) && key(x) <= v
    ensures AllAtMost(InsertBy(x, r, cmp), key, ok, v)
  {
    if r != [] && cmp(x, r[0]) > 0 {
      assert AllAtMost(r[1..], key, ok, v) by {
        forall i | 0 <= i < |r[1..]| ensures ok(r[1..][i]) && key(r[1..][i]) <= v {
          assert r[1..][i] == r[i + 1];
        }
      }
      InsertAtMost(x, r[1..], cmp, key, ok, v);
      var out := InsertBy(x, r, cmp);
      assert out == [r[0]] + InsertBy(x, r[1..], cmp);
      forall i | 0 <= i < |out| ensures ok(out[i]) && key(out[i]) <= v {
        if i > 0 { assert out[i] == InsertBy(x, r[1..], cmp)[i - 1]; }
      }
    }
  }

  /** A descending sequence with a head of at least every key in front stays descending. */
  lemma ConsDescending<T>(h: T, tail: seq<T>, key: T -> int, ok: T -> bool)
    requires AllAtMost(tail, key, ok, key(h)) && Descending(tail, key)
    ensures Descending([h] + tail, key)
  {
    var s := [h] + tail;
    forall i, j | 0 <= i < j < |s| ensures key(s[i]) >= key(s[j]) {
      assert s[j] == tail[j - 1];
      if i > 0 { assert s[i] == tail[i - 1]; }
    }
  }

  lemma DescendingTail<T>(r: seq<T>, key: T -> int, ok: T -> bool)
    requires r != [] && AllIn(r, ok) && Descending(r, key)
    ensures AllAtMost(r[1..], key, ok, key(r[0])) && Descending(r[1..], key)
  {
    forall i | 0 <= i < |r[1..]| ensures ok(r[1..][i]) && key(r[1..][i]) <= key(r[0]) {
      assert r[1..][i] == r[i + 1];
    }
    forall i, j | 0 <= i < j < |r[1..]| ensures key(r[1..][i]) >= key(r[1..][j]) {
      assert r[1..][i] == r[i + 1] && r[1..][j] == r[j + 1];
    }
  }

  /** Inserting an `ok` element into a descending sequence of `ok` elements keeps it descending. */
  lemma {:induction false} InsertKeepsDescending<T(!new)>(x: T, r: seq<T>, cmp: (T, T) -> int, key: T -> int, ok: T -> bool)
    requires DescendingComparator(cmp, key, ok)
    requires ok(x) && AllIn(r, ok) && Descending(r, key)
    ensures AllIn(InsertBy(x, r, cmp), ok) && Descending(InsertBy(x, r, cmp), key)
  {
    var out := InsertBy(x, r, cmp);
    if r == [] || cmp(x, r[0]) <= 0 {
      assert out == [x] + r;
      if r != [] {
        DescendingTail(r, key, ok);
        assert AllAtMost(r, key, ok, key(x)) by {
          forall i | 0 <= i < |r| ensures ok(r[i]) && key(r[i]) <= key(x) {
            if i > 0 { assert r[i] == r[1..][i - 1]; }
          }
        }
        ConsDescending(x, r, key, ok);
      }
      forall i | 0 <= i < |out| ensures ok(out[i]) {
        if i > 0 { assert out[i] == r[i - 1]; }
      }
    } else {
      var tail := InsertBy(x, r[1..], cmp);
      DescendingTail(r, key, ok);
      AllInTail(r, ok);
      InsertKeepsDescending(x, r[1..], cmp, key, ok);
      InsertAtMost(x, r[1..], cmp, key, ok, key(r[0]));
      assert out == [r[0]] + tail;
      ConsDescending(r[0], tail, key, ok);
      forall i | 0 <= i < |out| ensures ok(out[i]) {
        if i > 0 { assert out[i] == tail[i - 1]; }
      }
    }
  }

  /** Sorting elements from the comparator's domain orders them by descending key. */
  lemma {:induction false} SortIsDescending<T(!new)>(s: seq<T>, cmp: (T, T) -> int, key: T -> int, ok: T -> bool)
    requires DescendingComparator(cmp, key, ok) && AllIn(s, ok)
    ensures AllIn(SortBy(s, cmp), ok) && Descending(SortBy(s, cmp), key)
  {
    if s != [] {
      AllInTail(s, ok);
      SortIsDescending(s[1..], cmp, key, ok);
      InsertKeepsDescending(s[0], SortBy(s[1..], cmp), cmp, key, ok);
    }
  }

  /** The elements whose key is `k`. */
  function KeyIs<T, K(==)>(key: T -> K, k: K): T -> bool
  {
    (t: T) => key(t) == k
  }

  /** The elements of key `k` at the front of `[x] + r`. */
  lemma FilterFront<T, K>(x: T, r: seq<T>, key: T -> K, k: K)
    ensures Filter([x] + r, KeyIs(key, k)) == (if key(x) == k then [x] else []) + Filter(r, KeyIs(key, k))
  {
    assert ([x] + r)[0] == x && ([x] + r)[1..] == r;
  }

  /** When `cmp` tells apart only elements of different keys, the insertion step
      keeps the elements of each key in their order. */
  lemma {:induction false} InsertStable<T, K>(x: T, r: seq<T>, cmp: (T, T) -> int, key: T -> K, k: K)
    requires forall a, b :: cmp(a, b) != 0 ==> key(a) != key(b)
    ensures Filter(InsertBy(x, r, cmp), KeyIs(key, k)) == (if key(x) == k then [x] else []) + Filter(r, KeyIs(key, k))
  {
    if r == [] || cmp(x, r[0]) <= 0 {
      FilterFront(x, r, key, k);
    } else {
      assert key(x) != key(r[0]);
      InsertStable(x, r[1..], cmp, key, k);
      InsertPastHead(x, r, cmp, key, k);
    }
  }

  /** Two sequences of which one is empty can trade places in front of a third. */
  lemma SwapEmpty<T>(a: seq<T>, b: seq<T>, c: seq<T>)
    requires a == [] || b == []
    ensures a + (b + c) == b + (a + c)
  {
    if a == [] {
      assert a + (b + c) == b + c;
    } else {
      assert b + (a + c) == a + c;
    }
  }

  /** The insertion step past the head `r[0]`, which has a different key from `x`. */
  lemma InsertPastHead<T, K>(x: T, r: seq<T>, cmp: (T, T) -> int, key: T -> K, k: K)
    requires r != [] && cmp(x, r[0]) > 0 && key(x) != key(r[0])
    requires Filter(InsertBy(x, r[1..], cmp), KeyIs(key, k)) == (if key(x) == k then [x] else []) + Filter(r[1..], KeyIs(key, k))
    ensures Filter(InsertBy(x, r, cmp), KeyIs(key, k)) == (if key(x) == k then [x] else []) + Filter(r, KeyIs(key, k))
  {
    var h, tail, p := r[0], InsertBy(x, r[1..], cmp), KeyIs(key, k);
    var hs: seq<T> := if key(h) == k then [h] else [];
    var xs: seq<T> := if key(x) == k then [x] else [];
    var rest := Filter(r[1..], p);
    assert InsertBy(x, r, cmp) == [h] + tail;
    FilterFront(h, tail, key, k);
    assert Filter([h] + tail, p) == hs + (xs + rest);
    SwapEmpty(hs, xs, rest);
    FilterFront(h, r[1..], key, k);
    assert [h] + r[1..] == r;
  }

  /** The sort is stable: for every key, the elements of that key appear in the
      result in their input order, provided only elements of different keys
      compare unequal. */
  lemma {:induction false} SortIsStable<T, K>(s: seq<T>, cmp: (T, T) -> int, key: T -> K, k: K)
    requires forall a, b :: cmp(a, b) != 0 ==> key(a) != key(b)
    ensures Filter(SortBy(s, cmp), KeyIs(key, k)) == Filter(s, KeyIs(key, k))
  {
    if s != [] {
      SortIsStable(s[1..], cmp, key, k);
      InsertStable(s[0], SortBy(s[1..], cmp), cmp, key, k);
      FilterFront(s[0], s[1..], key, k);
      assert [s[0]] + s[1..] == s;
    }
  }
}
