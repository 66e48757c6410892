/** Sequence helpers: `Array.prototype.filter`, counting, order-preserving
    subsequences, and the stable sort that `Array.prototype.sort` performs
    with a comparator of the form `(a, b) => key(b) - key(a)`. */
module Seqs {

  function Filter<T>(s: seq<T>, p: T -> bool): (r: seq<T>)
    ensures |r| <= |s|
    ensures forall i :: 0 <= i < |r| ==> p(r[i])
  {
    if s == [] then [] else (if p(s[0]) then [s[0]] else []) + Filter(s[1..], p)
  }

  lemma {:induction false} FilterAppend<T>(a: seq<T>, b: seq<T>, p: T -> bool)
    ensures Filter(a + b, p) == Filter(a, p) + Filter(b, p)
    decreases |a|
  {
    if a == [] {
      assert a + b == b;
    } else {
      assert (a + b)[1..] == a[1..] + b;
      FilterAppend(a[1..], b, p);
    }
  }

  lemma {:induction false} FilterMembership<T>(s: seq<T>, p: T -> bool, x: T)
    ensures x in Filter(s, p) <==> x in s && p(x)
    decreases |s|
  {
    if s != [] {
      FilterMembership(s[1..], p, x);
      assert s == [s[0]] + s[1..];
    }
  }

  /** Filtering drops no element that satisfies `p` and never duplicates one. */
  lemma {:induction false} FilterMultiset<T>(s: seq<T>, p: T -> bool)
    ensures forall x :: multiset(Filter(s, p))[x] == if p(x) then multiset(s)[x] else 0
    decreases |s|
  {
    if s != [] {
      FilterMultiset(s[1..], p);
      assert s == [s[0]] + s[1..];
    }
  }

  lemma {:induction false} FilterAll<T>(s: seq<T>, p: T -> bool)
    requires forall i :: 0 <= i < |s| ==> p(s[i])
    ensures Filter(s, p) == s
    decreases |s|
  {
    if s != [] { FilterAll(s[1..], p); }
  }

  lemma {:induction false} FilterTwice<T>(s: seq<T>, p: T -> bool, q: T -> bool)
    ensures Filter(Filter(s, p), q) == Filter(s, x => p(x) && q(x))
    decreases |s|
  {
    if s != [] {
      FilterTwice(s[1..], p, q);
      var head := if p(s[0]) then [s[0]] else [];
      FilterAppend(head, Filter(s[1..], p), q);
      if p(s[0]) { assert head[1..] == []; }
    }
  }

  lemma {:induction false} FilterSame<T>(s: seq<T>, p: T -> bool, q: T -> bool)
    requires forall i :: 0 <= i < |s| ==> p(s[i]) == q(s[i])
    ensures Filter(s, p) == Filter(s, q)
    decreases |s|
  {
    if s != [] { FilterSame(s[1..], p, q); }
  }

  /** `a` is `b` with some elements removed, the rest kept in order. */
  predicate Subseq<T(==)>(a: seq<T>, b: seq<T>)
    decreases |b|
  {
    if b == [] then a == []
    else if a != [] && a[0] == b[0] then Subseq(a[1..], b[1..])
    else Subseq(a, b[1..])
  }

  lemma {:induction false} SubseqDropHead<T>(a: seq<T>, c: seq<T>)
    requires a != [] && Subseq(a, c)
    ensures Subseq(a[1..], c)
    decreases |c|
  {
    if c != [] {
      if a[0] == c[0] {
        if a[1..] != [] && a[1] == c[0] {
          SubseqDropHead(a[1..], c[1..]);
        }
      } else {
        SubseqDropHead(a, c[1..]);
        if a[1..] != [] && a[1] == c[0] {
          SubseqDropHead(a[1..], c[1..]);
        }
      }
    }
  }

  lemma {:induction false} SubseqNil<T>(c: seq<T>)
    ensures Subseq([], c)
    decreases |c|
  {
    if c != [] {
      SubseqNil(c[1..]);
    }
  }

  lemma {:induction false} SubseqTrans<T>(a: seq<T>, b: seq<T>, c: seq<T>)
    requires Subseq(a, b) && Subseq(b, c)
    ensures Subseq(a, c)
    decreases |c|
  {
    if a == [] {
      SubseqNil(c);
    } else if c != [] {
      if b[0] == c[0] {
        if a[0] == b[0] {
          SubseqTrans(a[1..], b[1..], c[1..]);
        } else {
          SubseqTrans(a, b[1..], c[1..]);
        }
      } else {
        SubseqTrans(a, b, c[1..]);
        if a[0] == c[0] {
          SubseqDropHead(a, c[1..]);
        }
      }
    }
  }

  /** A prefix grown by one element. */
  lemma TakeOneMore<T>(s: seq<T>, i: int)
    requires 0 <= i < |s|
    ensures s[..i + 1] == s[..i] + [s[i]]
  {
  }

  lemma {:induction false} SubseqRefl<T>(s: seq<T>)
    ensures Subseq(s, s)
    decreases |s|
  {
    if s != [] { SubseqRefl(s[1..]); }
  }

  lemma {:induction false} FilterSubseq<T>(s: seq<T>, p: T -> bool)
    ensures Subseq(Filter(s, p), s)
    decreases |s|
  {
    if s != [] {
      FilterSubseq(s[1..], p);
      var r := Filter(s, p);
      if p(s[0]) {
        assert r[0] == s[0] && r[1..] == Filter(s[1..], p);
      } else {
        assert r == Filter(s[1..], p);
      }
    }
  }

  function Count<T>(s: seq<T>, p: T -> bool): nat
  {
    if s == [] then 0 else (if p(s[0]) then 1 else 0) + Count(s[1..], p)
  }

  lemma {:induction false} CountIsFilterLength<T>(s: seq<T>, p: T -> bool)
    ensures Count(s, p) == |Filter(s, p)|
    decreases |s|
  {
    if s != [] { CountIsFilterLength(s[1..], p); }
  }

  lemma {:induction false} CountAppend<T>(a: seq<T>, b: seq<T>, p: T -> bool)
    ensures Count(a + b, p) == Count(a, p) + Count(b, p)
    decreases |a|
  {
    if a == [] {
      assert a + b == b;
    } else {
      assert (a + b)[1..] == a[1..] + b;
      CountAppend(a[1..], b, p);
    }
  }

  function Map<T, U>(s: seq<T>, f: T -> U): (r: seq<U>)
    ensures |r| == |s| && forall i :: 0 <= i < |s| ==> r[i] == f(s[i])
  {
    if s == [] then [] else [f(s[0])] + Map(s[1..], f)
  }

  // ---- stable sort, highest key first ----

  predicate SortedDesc<T>(s: seq<T>, key: T -> int) {
    forall i, j :: 0 <= i < j < |s| ==> key(s[i]) >= key(s[j])
  }

  /** Puts `x` in front of the first element whose key does not exceed its own. */
  function InsertDesc<T>(x: T, s: seq<T>, key: T -> int): seq<T>
  {
    if s == [] || key(s[0]) <= key(x) then [x] + s else [s[0]] + InsertDesc(x, s[1..], key)
  }

  /** The elements of `s` whose key is `k`, in order. */
  function WithKey<T>(s: seq<T>, key: T -> int, k: int): seq<T>
  {
    Filter(s, y => key(y) == k)
  }

  /** The stable sort by `key`, largest first: equal keys keep their input order. */
  function SortDesc<T>(s: seq<T>, key: T -> int): seq<T>
  {
    if s == [] then [] else InsertDesc(s[0], SortDesc(s[1..], key), key)
  }

  lemma {:induction false} InsertDescMultiset<T>(x: T, s: seq<T>, key: T -> int)
    ensures multiset(InsertDesc(x, s, key)) == multiset(s) + multiset{x}
    decreases |s|
  {
    if s != [] && key(s[0]) > key(x) {
      InsertDescMultiset(x, s[1..], key);
      assert s == [s[0]] + s[1..];
    }
  }

  lemma {:induction false} InsertDescSorted<T>(x: T, s: seq<T>, key: T -> int)
    requires SortedDesc(s, key)
    ensures SortedDesc(InsertDesc(x, s, key), key)
    decreases |s|
  {
    if s != [] && key(s[0]) > key(x) {
      InsertDescSorted(x, s[1..], key);
      InsertDescMultiset(x, s[1..], key);
      var t := InsertDesc(x, s[1..], key);
      var r := [s[0]] + t;
      assert s == [s[0]] + s[1..];
      forall j | 0 < j < |r| ensures key(r[0]) >= key(r[j]) {
        assert r[j] == t[j - 1];
        assert t[j - 1] in multiset(t);
        assert r[j] == x || r[j] in multiset(s[1..]);
        if r[j] != x {
          var i :| 0 <= i < |s[1..]| && s[1..][i] == r[j];
          assert s[i + 1] == r[j];
        }
      }
    }
  }

  lemma {:induction false} InsertDescFilter<T>(x: T, s: seq<T>, key: T -> int, k: int)
    requires SortedDesc(s, key)
    ensures WithKey(InsertDesc(x, s, key), key, k) == (if key(x) == k then [x] else []) + WithKey(s, key, k)
    decreases |s|
  {
    var r := InsertDesc(x, s, key);
    if s == [] || key(s[0]) <= key(x) {
      assert r[1..] == s;
    } else {
      InsertDescFilter(x, s[1..], key, k);
      assert r[1..] == InsertDesc(x, s[1..], key);
    }
  }

  /** `WithKey` is any filter that agrees with "key is k" on the elements. */
  lemma {:induction false} WithKeyIsFilter<T>(s: seq<T>, key: T -> int, k: int, p: T -> bool)
    requires forall i :: 0 <= i < |s| ==> (key(s[i]) == k) == p(s[i])
    ensures WithKey(s, key, k) == Filter(s, p)
    decreases |s|
  {
    if s != [] { WithKeyIsFilter(s[1..], key, k, p); }
  }

  lemma {:induction false} SortDescPermutes<T>(s: seq<T>, key: T -> int)
    ensures multiset(SortDesc(s, key)) == multiset(s)
    decreases |s|
  {
    if s != [] {
      SortDescPermutes(s[1..], key);
      InsertDescMultiset(s[0], SortDesc(s[1..], key), key);
      assert s == [s[0]] + s[1..];
    }
  }

  lemma {:induction false} SortDescSorted<T>(s: seq<T>, key: T -> int)
    ensures SortedDesc(SortDesc(s, key), key)
    decreases |s|
  {
    if s != [] {
      SortDescSorted(s[1..], key);
      InsertDescSorted(s[0], SortDesc(s[1..], key), key);
    }
  }

  /** Stability: among elements with the same key, the input order survives. */
  lemma {:induction false} SortDescStable<T>(s: seq<T>, key: T -> int, k: int)
    ensures WithKey(SortDesc(s, key), key, k) == WithKey(s, key, k)
    decreases |s|
  {
    if s != [] {
      SortDescStable(s[1..], key, k);
      SortDescSorted(s[1..], key);
      InsertDescFilter(s[0], SortDesc(s[1..], key), key, k);
    }
  }

  /** With a key that only takes the values 0 and 1, the stable sort puts the
      1-keyed elements first and the 0-keyed ones after, each in input order. */
  lemma {:induction false} SortDescTwoKeys<T>(s: seq<T>, key: T -> int)
    requires forall i :: 0 <= i < |s| ==> key(s[i]) == 0 || key(s[i]) == 1
    ensures SortDesc(s, key) == WithKey(s, key, 1) + WithKey(s, key, 0)
    decreases |s|
  {
    if s != [] {
      SortDescTwoKeys(s[1..], key);
      var t := SortDesc(s[1..], key);
      var ones, zeros := WithKey(s[1..], key, 1), WithKey(s[1..], key, 0);
      if key(s[0]) == 1 {
        assert SortDesc(s, key) == [s[0]] + t;
      } else {
        InsertAfterOnes(s[0], ones, zeros, key);
      }
    }
  }

  lemma {:induction false} InsertAfterOnes<T>(x: T, ones: seq<T>, zeros: seq<T>, key: T -> int)
    requires key(x) == 0
    requires forall i :: 0 <= i < |ones| ==> key(ones[i]) == 1
    requires forall i :: 0 <= i < |zeros| ==> key(zeros[i]) == 0
    ensures InsertDesc(x, ones + zeros, key) == ones + [x] + zeros
    decreases |ones|
  {
    if ones == [] {
      assert ones + zeros == zeros;
    } else {
      assert (ones + zeros)[1..] == ones[1..] + zeros;
      InsertAfterOnes(x, ones[1..], zeros, key);
    }
  }
}
