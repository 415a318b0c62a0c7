/** Python's key-based sorting (`sorted(xs, key=f)` and `xs.sort(key=f)`): a stable sort
    by the key of each element. Keys are lists of integers compared with Python's `<` on
    lists (lexicographic, a proper prefix first); a scalar key `n` is the one-element list
    `[n]`. Python computes every key before comparing; a key that raises is handled by the
    callers before they sort. */
module StableSort {

  /** Python's `a < b` on lists of integers. */
  predicate LexLess(a: seq<int>, b: seq<int>)
    decreases |a|
  {
    |b| > 0 && (|a| == 0 || a[0] < b[0] || (a[0] == b[0] && LexLess(a[1..], b[1..])))
  }

  lemma {:induction false} LexLessIrreflexive(a: seq<int>)
    ensures !LexLess(a, a)
    decreases |a|
  {
    if |a| > 0 {
      LexLessIrreflexive(a[1..]);
    }
  }

  lemma {:induction false} LexLessTransitive(a: seq<int>, b: seq<int>, c: seq<int>)
    requires LexLess(a, b) && LexLess(b, c)
    ensures LexLess(a, c)
    decreases |a|
  {
    if |a| > 0 && a[0] == b[0] && b[0] == c[0] {
      LexLessTransitive(a[1..], b[1..], c[1..]);
    }
  }

  /** Python's list comparison is total: two lists are equal or one is less. */
  lemma {:induction false} LexLessTotal(a: seq<int>, b: seq<int>)
    ensures a == b || LexLess(a, b) || LexLess(b, a)
    decreases |a|
  {
    if |a| > 0 && |b| > 0 && a[0] == b[0] {
      LexLessTotal(a[1..], b[1..]);
      if a[1..] == b[1..] {
        assert a == [a[0]] + a[1..] && b == [b[0]] + b[1..];
      }
    }
  }

  /** On one-element keys the order is the order of the integers. */
  lemma ScalarKeys(m: int, n: int)
    ensures LexLess([m], [n]) <==> m < n
  {
    assert [m][1..] == [];
  }

  /** Inserts `x` after every element whose key is not greater than its own. */
  function Insert<T>(x: T, s: seq<T>, key: T -> seq<int>): (r: seq<T>)
    ensures |r| == |s| + 1
  {
    if |s| == 0 || LexLess(key(x), key(s[0])) then [x] + s else [s[0]] + Insert(x, s[1..], key)
  }

  lemma {:induction false} InsertPermutes<T>(x: T, s: seq<T>, key: T -> seq<int>)
    ensures multiset(Insert(x, s, key)) == multiset(s) + multiset{x}
    decreases |s|
  {
    if |s| > 0 && !LexLess(key(x), key(s[0])) {
      InsertPermutes(x, s[1..], key);
      assert s == [s[0]] + s[1..];
    }
  }

  /** The stable sort of `xs` by key. */
  function SortBy<T>(xs: seq<T>, key: T -> seq<int>): (r: seq<T>)
    ensures |r| == |xs|
  {
    if |xs| == 0 then [] else Insert(xs[|xs| - 1], SortBy(xs[..|xs| - 1], key), key)
  }

  /** Sorting rearranges the elements and neither adds nor drops any. */
  lemma {:induction false} SortByPermutes<T>(xs: seq<T>, key: T -> seq<int>)
    ensures multiset(SortBy(xs, key)) == multiset(xs)
    decreases |xs|
  {
    if |xs| > 0 {
      SortByPermutes(xs[..|xs| - 1], key);
      InsertPermutes(xs[|xs| - 1], SortBy(xs[..|xs| - 1], key), key);
      assert xs == xs[..|xs| - 1] + [xs[|xs| - 1]];
    }
  }

  /** No element has a key less than that of an element before it. */
  predicate Sorted<T>(s: seq<T>, key: T -> seq<int>) {
    forall i, j :: 0 <= i < j < |s| ==> !LexLess(key(s[j]), key(s[i]))
  }

  /** The elements of `s` whose key is `k`, in their order in `s`. */
  function WithKey<T>(s: seq<T>, key: T -> seq<int>, k: seq<int>): seq<T> {
    if |s| == 0 then [] else (if key(s[0]) == k then [s[0]] else []) + WithKey(s[1..], key, k)
  }

  lemma {:induction false} WithKeyAppend<T>(s: seq<T>, t: seq<T>, key: T -> seq<int>, k: seq<int>)
    ensures WithKey(s + t, key, k) == WithKey(s, key, k) + WithKey(t, key, k)
    decreases |s|
  {
    if |s| > 0 {
      assert (s + t)[0] == s[0] && (s + t)[1..] == s[1..] + t;
      WithKeyAppend(s[1..], t, key, k);
    } else {
      assert s + t == t;
    }
  }

  lemma {:induction false} InsertSorted<T>(x: T, s: seq<T>, key: T -> seq<int>)
    requires Sorted(s, key)
    ensures Sorted(Insert(x, s, key), key)
    decreases |s|
  {
    if |s| == 0 {
    } else if LexLess(key(x), key(s[0])) {
      LexLessIrreflexive(key(s[0]));
      forall j | 0 <= j < |s|
        ensures !LexLess(key(s[j]), key(x))
      {
        if LexLess(key(s[j]), key(x)) {
          LexLessTransitive(key(s[j]), key(x), key(s[0]));
        }
      }
    } else {
      InsertSorted(x, s[1..], key);
      var t := Insert(x, s[1..], key);
      forall j | 0 <= j < |t|
        ensures !LexLess(key(t[j]), key(s[0]))
      {
        InsertPermutes(x, s[1..], key);
        assert t[j] in multiset(s[1..]) + multiset{x};
        if t[j] != x {
          assert t[j] in s[1..];
        }
      }
    }
  }

  /** Sorting leaves no key less than a key before it. */
  lemma {:induction false} SortBySorted<T>(xs: seq<T>, key: T -> seq<int>)
    ensures Sorted(SortBy(xs, key), key)
    decreases |xs|
  {
    if |xs| > 0 {
      SortBySorted(xs[..|xs| - 1], key);
      InsertSorted(xs[|xs| - 1], SortBy(xs[..|xs| - 1], key), key);
    }
  }

  lemma {:induction false} SmallerKeyAbsent<T>(s: seq<T>, key: T -> seq<int>, k: seq<int>, lo: seq<int>)
    requires forall i :: 0 <= i < |s| ==> !LexLess(key(s[i]), lo)
    requires LexLess(k, lo)
    ensures WithKey(s, key, k) == []
    decreases |s|
  {
    if |s| > 0 {
      SmallerKeyAbsent(s[1..], key, k, lo);
    }
  }

  lemma SortedTail<T>(s: seq<T>, key: T -> seq<int>)
    requires Sorted(s, key) && |s| > 0
    ensures Sorted(s[1..], key)
  {
    var rest := s[1..];
    forall i, j | 0 <= i < j < |rest| ensures !LexLess(key(rest[j]), key(rest[i])) {
      assert rest[j] == s[j + 1] && rest[i] == s[i + 1];
    }
  }

  /** Inserting `x` into a sorted sequence puts it after every element with the same key. */
  lemma {:induction false} InsertStable<T>(x: T, s: seq<T>, key: T -> seq<int>, k: seq<int>)
    requires Sorted(s, key)
    ensures WithKey(Insert(x, s, key), key, k) == WithKey(s, key, k) + WithKey([x], key, k)
    decreases |s|
  {
    if |s| == 0 {
      assert Insert(x, s, key) == [x];
    } else if LexLess(key(x), key(s[0])) {
      InsertStableFront(x, s, key, k);
    } else {
      SortedTail(s, key);
      InsertStable(x, s[1..], key, k);
      InsertStableStep(x, s, key, k);
    }
  }

  lemma InsertStableFront<T>(x: T, s: seq<T>, key: T -> seq<int>, k: seq<int>)
    requires Sorted(s, key) && |s| > 0 && LexLess(key(x), key(s[0]))
    ensures WithKey(Insert(x, s, key), key, k) == WithKey(s, key, k) + WithKey([x], key, k)
  {
    assert Insert(x, s, key) == [x] + s;
    WithKeyAppend([x], s, key, k);
    if key(x) == k {
      LexLessIrreflexive(key(s[0]));
      SmallerKeyAbsent(s, key, k, key(s[0]));
    } else {
      assert WithKey([x], key, k) == [];
    }
  }

  lemma InsertStableStep<T>(x: T, s: seq<T>, key: T -> seq<int>, k: seq<int>)
    requires |s| > 0 && !LexLess(key(x), key(s[0]))
    requires WithKey(Insert(x, s[1..], key), key, k) == WithKey(s[1..], key, k) + WithKey([x], key, k)
    ensures WithKey(Insert(x, s, key), key, k) == WithKey(s, key, k) + WithKey([x], key, k)
  {
    var tail := Insert(x, s[1..], key);
    var t := [s[0]] + tail;
    assert t[0] == s[0] && t[1..] == tail;
    var head := if key(s[0]) == k then [s[0]] else [];
    assert WithKey(t, key, k) == head + WithKey(tail, key, k);
    assert WithKey(s, key, k) == head + WithKey(s[1..], key, k);
  }

  /** Stability: the elements sharing a key keep their relative order. */
  lemma {:induction false} SortByStable<T>(xs: seq<T>, key: T -> seq<int>, k: seq<int>)
    ensures WithKey(SortBy(xs, key), key, k) == WithKey(xs, key, k)
    decreases |xs|
  {
    if |xs| > 0 {
      SortByStable(xs[..|xs| - 1], key, k);
      SortByStableStep(xs, key, k);
    }
  }

  lemma SortByStableStep<T>(xs: seq<T>, key: T -> seq<int>, k: seq<int>)
    requires |xs| > 0
    requires WithKey(SortBy(xs[..|xs| - 1], key), key, k) == WithKey(xs[..|xs| - 1], key, k)
    ensures WithKey(SortBy(xs, key), key, k) == WithKey(xs, key, k)
  {
    SortBySorted(xs[..|xs| - 1], key);
    InsertStable(xs[|xs| - 1], SortBy(xs[..|xs| - 1], key), key, k);
    WithKeyLast(xs, key, k);
  }

  lemma WithKeyLast<T>(xs: seq<T>, key: T -> seq<int>, k: seq<int>)
    requires |xs| > 0
    ensures WithKey(xs, key, k) == WithKey(xs[..|xs| - 1], key, k) + WithKey([xs[|xs| - 1]], key, k)
  {
    assert xs[..|xs| - 1] + [xs[|xs| - 1]] == xs;
    WithKeyAppend(xs[..|xs| - 1], [xs[|xs| - 1]], key, k);
  }

  lemma {:induction false} InsertLast<T>(x: T, s: seq<T>, key: T -> seq<int>)
    requires forall i :: 0 <= i < |s| ==> !LexLess(key(x), key(s[i]))
    ensures Insert(x, s, key) == s + [x]
    decreases |s|
  {
    if |s| > 0 {
      InsertLast(x, s[1..], key);
      assert s == [s[0]] + s[1..];
    }
  }

  /** Sorting an already sorted sequence changes nothing. */
  lemma {:induction false} SortByOfSorted<T>(xs: seq<T>, key: T -> seq<int>)
    requires Sorted(xs, key)
    ensures SortBy(xs, key) == xs
    decreases |xs|
  {
    if |xs| > 0 {
      var pre := xs[..|xs| - 1];
      assert Sorted(pre, key);
      SortByOfSorted(pre, key);
      InsertLast(xs[|xs| - 1], pre, key);
      assert pre + [xs[|xs| - 1]] == xs;
    }
  }
}
