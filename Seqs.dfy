/** Generic sequence operations used by the screens: `filter`, `map`,
    `flatMap`, `slice(0, n)`, counting, and the stable `Array.prototype.sort`
    with a numeric comparator (`(a, b) => key(a) - key(b)`). */
module Seqs {
  import opened Wrappers

  // ----- order-preserving sub-sequences -----

  /** `a` can be obtained from `b` by deleting elements (order kept). */
  predicate IsSubseq<T(==)>(a: seq<T>, b: seq<T>)
    decreases |b|
  {
    a == [] || (b != [] && if a[0] == b[0] then IsSubseq(a[1..], b[1..]) else IsSubseq(a, b[1..]))
  }

  /** A prefix is a sub-sequence. */
  lemma {:induction false} PrefixSubseq<T>(a: seq<T>, b: seq<T>)
    requires |a| <= |b| && a == b[..|a|]
    ensures IsSubseq(a, b)
    decreases |b|
  {
    if a != [] {
      assert a[1..] == b[1..][..|a| - 1];
      PrefixSubseq(a[1..], b[1..]);
    }
  }

  /** Dropping the first element of a sub-sequence leaves a sub-sequence. */
  lemma {:induction false} SubseqTail<T>(a: seq<T>, c: seq<T>)
    requires a != [] && IsSubseq(a, c)
    ensures IsSubseq(a[1..], c)
    decreases |c|, 1
  {
    if a[1..] != [] {
      if a[0] == c[0] {
        SubseqTail(a[1..], c[1..]);
        SubseqCons(a[1..], c);
      } else {
        SubseqTail(a, c[1..]);
        SubseqCons(a[1..], c);
      }
    }
  }

  /** A sub-sequence of the tail is a sub-sequence of the whole. */
  lemma {:induction false} SubseqCons<T>(a: seq<T>, c: seq<T>)
    requires c != [] && IsSubseq(a, c[1..])
    ensures IsSubseq(a, c)
    decreases |c|, 0
  {
    if a != [] && a[0] == c[0] {
      SubseqTail(a, c[1..]);
    }
  }

  /** Sub-sequences compose. */
  lemma {:induction false} SubseqTrans<T>(a: seq<T>, b: seq<T>, c: seq<T>)
    requires IsSubseq(a, b) && IsSubseq(b, c)
    ensures IsSubseq(a, c)
    decreases |c|
  {
    if a != [] {
      if b[0] == c[0] {
        if a[0] == b[0] {
          SubseqTrans(a[1..], b[1..], c[1..]);
        } else {
          SubseqTrans(a, b[1..], c[1..]);
        }
      } else {
        SubseqTrans(a, b, c[1..]);
        SubseqCons(a, c);
      }
    }
  }

  // ----- filter -----

  /** `xs.filter(p)`. */
  function Filter<T(==,!new)>(p: T -> bool, xs: seq<T>): (r: seq<T>)
    ensures |r| <= |xs|
    ensures forall x :: x in r <==> x in xs && p(x)
    ensures IsSubseq(r, xs)
  {
    if xs == [] then []
    else if p(xs[0]) then
      var rest := Filter(p, xs[1..]);
      assert ([xs[0]] + rest)[1..] == rest;
      [xs[0]] + rest
    else Filter(p, xs[1..])
  }

  lemma {:induction false} FilterAppend<T(!new)>(p: T -> bool, a: seq<T>, b: seq<T>)
    ensures Filter(p, a + b) == Filter(p, a) + Filter(p, b)
    decreases |a|
  {
    if a == [] {
      assert a + b == b;
    } else {
      assert (a + b)[0] == a[0] && (a + b)[1..] == a[1..] + b;
      FilterAppend(p, a[1..], b);
    }
  }

  /** Filtering keeps everything exactly when every element passes. */
  lemma {:induction false} FilterAll<T(!new)>(p: T -> bool, xs: seq<T>)
    requires forall x :: x in xs ==> p(x)
    ensures Filter(p, xs) == xs
    decreases |xs|
  {
    if xs != [] {
      FilterAll(p, xs[1..]);
    }
  }

  /** Filters by predicates that agree on the elements are equal. */
  lemma {:induction false} FilterExt<T(!new)>(p: T -> bool, q: T -> bool, xs: seq<T>)
    requires forall x :: x in xs ==> p(x) == q(x)
    ensures Filter(p, xs) == Filter(q, xs)
    decreases |xs|
  {
    if xs != [] {
      FilterExt(p, q, xs[1..]);
    }
  }

  /** Number of elements satisfying `p` (`xs.filter(p).length`). */
  function Count<T(==,!new)>(p: T -> bool, xs: seq<T>): (n: nat)
    ensures n <= |xs|
    ensures n == 0 <==> forall x :: x in xs ==> !p(x)
  {
    var r := Filter(p, xs);
    assert |r| == 0 <==> r == [];
    assert r != [] ==> r[0] in r;
    |r|
  }

  lemma CountAppend<T(!new)>(p: T -> bool, a: seq<T>, b: seq<T>)
    ensures Count(p, a + b) == Count(p, a) + Count(p, b)
  {
    FilterAppend(p, a, b);
  }

  /** Every element passes `p` or its negation, never both. */
  lemma {:induction false} CountComplement<T(!new)>(p: T -> bool, q: T -> bool, xs: seq<T>)
    requires forall x :: q(x) == !p(x)
    ensures Count(p, xs) + Count(q, xs) == |xs|
    decreases |xs|
  {
    if xs != [] {
      CountComplement(p, q, xs[1..]);
    }
  }

  // ----- map and flatMap -----

  function Map<T, U>(f: T -> U, xs: seq<T>): (r: seq<U>)
    ensures |r| == |xs|
    ensures forall k :: 0 <= k < |xs| ==> r[k] == f(xs[k])
  {
    seq(|xs|, k requires 0 <= k < |xs| => f(xs[k]))
  }

  /** Mapping over a sequence with a first element. */
  lemma MapCons<T, U>(f: T -> U, x: T, xs: seq<T>)
    ensures Map(f, [x] + xs) == [f(x)] + Map(f, xs)
  {
    var l := Map(f, [x] + xs);
    var r := [f(x)] + Map(f, xs);
    forall k | 0 <= k < |l|
      ensures l[k] == r[k]
    {
      if k > 0 {
        assert ([x] + xs)[k] == xs[k - 1];
      }
    }
  }

  /** `xs.flatMap(f)`. */
  function FlatMap<T, U>(f: T -> seq<U>, xs: seq<T>): (r: seq<U>)
  {
    if xs == [] then [] else f(xs[0]) + FlatMap(f, xs[1..])
  }

  lemma {:induction false} FlatMapMember<T, U>(f: T -> seq<U>, xs: seq<T>, y: U)
    ensures y in FlatMap(f, xs) <==> exists x :: x in xs && y in f(x)
    decreases |xs|
  {
    if xs != [] {
      FlatMapMember(f, xs[1..], y);
      assert forall x :: x in xs <==> x == xs[0] || x in xs[1..];
    }
  }

  lemma {:induction false} FlatMapAppend<T, U>(f: T -> seq<U>, a: seq<T>, b: seq<T>)
    ensures FlatMap(f, a + b) == FlatMap(f, a) + FlatMap(f, b)
    decreases |a|
  {
    if a == [] {
      assert a + b == b;
    } else {
      assert (a + b)[0] == a[0] && (a + b)[1..] == a[1..] + b;
      FlatMapAppend(f, a[1..], b);
    }
  }

  // ----- slice(0, n) -----

  /** `xs.slice(0, n)`. */
  function Take<T>(xs: seq<T>, n: nat): (r: seq<T>)
    ensures |r| == if |xs| < n then |xs| else n
    ensures r == xs[..|r|]
  {
    if |xs| <= n then xs else xs[..n]
  }

  // ----- stable sort by an integer key -----

  predicate SortedBy<T>(xs: seq<T>, key: T -> int) {
    forall i, j :: 0 <= i < j < |xs| ==> key(xs[i]) <= key(xs[j])
  }

  /** Puts `x` in front of the first element whose key is not smaller, so
      that `x`, which came first in the input, stays ahead of equal keys. */
  function Insert<T>(x: T, xs: seq<T>, key: T -> int): seq<T>
  {
    if xs == [] || key(x) <= key(xs[0]) then [x] + xs
    else [xs[0]] + Insert(x, xs[1..], key)
  }

  /** `xs.slice().sort((a, b) => key(a) - key(b))`: ascending and stable. */
  function SortBy<T>(xs: seq<T>, key: T -> int): seq<T>
  {
    if xs == [] then [] else Insert(xs[0], SortBy(xs[1..], key), key)
  }

  /** Inserting keeps a lower bound on the keys. */
  lemma {:induction false} InsertBound<T>(x: T, xs: seq<T>, key: T -> int, m: int)
    requires key(x) >= m
    requires forall k :: 0 <= k < |xs| ==> key(xs[k]) >= m
    ensures |Insert(x, xs, key)| == |xs| + 1
    ensures forall k :: 0 <= k < |Insert(x, xs, key)| ==> key(Insert(x, xs, key)[k]) >= m
    decreases |xs|
  {
    if !(xs == [] || key(x) <= key(xs[0])) {
      InsertBound(x, xs[1..], key, m);
    }
  }

  lemma {:induction false} InsertProps<T>(x: T, xs: seq<T>, key: T -> int)
    requires SortedBy(xs, key)
    ensures SortedBy(Insert(x, xs, key), key)
    ensures multiset(Insert(x, xs, key)) == multiset(xs) + multiset{x}
    decreases |xs|
  {
    InsertSorted(x, xs, key);
    InsertPerm(x, xs, key);
  }

  lemma {:induction false} InsertSorted<T>(x: T, xs: seq<T>, key: T -> int)
    requires SortedBy(xs, key)
    ensures SortedBy(Insert(x, xs, key), key)
    decreases |xs|
  {
    if !(xs == [] || key(x) <= key(xs[0])) {
      InsertSorted(x, xs[1..], key);
      InsertBound(x, xs[1..], key, key(xs[0]));
      ConsSorted(xs[0], Insert(x, xs[1..], key), key);
    }
  }

  /** A sorted sequence stays sorted behind a head no larger than any of it. */
  lemma ConsSorted<T>(h: T, r: seq<T>, key: T -> int)
    requires SortedBy(r, key)
    requires forall k :: 0 <= k < |r| ==> key(r[k]) >= key(h)
    ensures SortedBy([h] + r, key)
  {
    var s := [h] + r;
    forall i, j | 0 <= i < j < |s|
      ensures key(s[i]) <= key(s[j])
    {
      assert s[j] == r[j - 1];
      if i > 0 {
        assert s[i] == r[i - 1];
      }
    }
  }

  lemma {:induction false} InsertPerm<T>(x: T, xs: seq<T>, key: T -> int)
    ensures multiset(Insert(x, xs, key)) == multiset(xs) + multiset{x}
    decreases |xs|
  {
    if !(xs == [] || key(x) <= key(xs[0])) {
      InsertPerm(x, xs[1..], key);
      assert xs == [xs[0]] + xs[1..];
    }
  }

  /** The sort orders by the key and keeps every element exactly as often as before. */
  lemma {:induction false} SortByProps<T>(xs: seq<T>, key: T -> int)
    ensures SortedBy(SortBy(xs, key), key)
    ensures multiset(SortBy(xs, key)) == multiset(xs)
    ensures |SortBy(xs, key)| == |xs|
    decreases |xs|
  {
    if xs != [] {
      SortByProps(xs[1..], key);
      InsertProps(xs[0], SortBy(xs[1..], key), key);
      assert xs == [xs[0]] + xs[1..];
    }
  }

  /** The sort keeps exactly the elements it was given. */
  lemma SortByMember<T>(xs: seq<T>, key: T -> int, x: T)
    ensures x in SortBy(xs, key) <==> x in xs
  {
    SortByProps(xs, key);
    assert x in SortBy(xs, key) <==> x in multiset(SortBy(xs, key));
  }

  /** Filtering a sorted sequence keeps it sorted. */
  lemma {:induction false} FilterSorted<T(!new)>(p: T -> bool, xs: seq<T>, key: T -> int)
    requires SortedBy(xs, key)
    ensures SortedBy(Filter(p, xs), key)
    decreases |xs|
  {
    if xs != [] {
      var rest := Filter(p, xs[1..]);
      FilterSorted(p, xs[1..], key);
      if p(xs[0]) {
        forall k | 0 <= k < |rest|
          ensures key(rest[k]) >= key(xs[0])
        {
          assert rest[k] in rest;
          var j :| 0 <= j < |xs[1..]| && xs[1..][j] == rest[k];
          assert xs[j + 1] == rest[k];
        }
        ConsSorted(xs[0], rest, key);
      }
    }
  }

  /** The first element with the smallest key (the head of the stable sort). */
  function FirstMin<T>(xs: seq<T>, key: T -> int): (i: nat)
    requires xs != []
    ensures i < |xs|
    ensures forall k :: 0 <= k < |xs| ==> key(xs[i]) <= key(xs[k])
    ensures forall k :: 0 <= k < i ==> key(xs[k]) > key(xs[i])
  {
    if |xs| == 1 then 0
    else
      var j := FirstMin(xs[1..], key);
      if key(xs[0]) <= key(xs[1..][j]) then 0 else j + 1
  }

  lemma {:induction false} InsertHead<T>(x: T, xs: seq<T>, key: T -> int)
    ensures Insert(x, xs, key) != []
    ensures Insert(x, xs, key)[0] == if xs == [] || key(x) <= key(xs[0]) then x else xs[0]
  {
  }

  /** The head of the stable sort is the first element with the smallest key:
      ties keep their input order. */
  lemma {:induction false} SortByHead<T>(xs: seq<T>, key: T -> int)
    requires xs != []
    ensures SortBy(xs, key) != []
    ensures SortBy(xs, key)[0] == xs[FirstMin(xs, key)]
    decreases |xs|
  {
    if |xs| > 1 {
      SortByHead(xs[1..], key);
      SortByProps(xs[1..], key);
      InsertHead(xs[0], SortBy(xs[1..], key), key);
    } else {
      assert SortBy(xs[1..], key) == [];
    }
  }

  // ----- `[0]` of a filtered, sorted copy -----

  /** `xs[0]`, which is `undefined` on an empty array. */
  function First<T>(xs: seq<T>): Option<T>
  {
    if xs == [] then None else Some(xs[0])
  }

  /** `xs.filter(q).sort((a, b) => key(a) - key(b))[0]`: the selector the
      screens use for "latest realised" and "earliest planned". */
  function SortedHead<T(==,!new)>(q: T -> bool, key: T -> int, xs: seq<T>): Option<T>
  {
    First(SortBy(Filter(q, xs), key))
  }

  /** The selector yields nothing exactly when no element passes; otherwise
      a passing element of `xs` with the smallest key, and the first such
      one in the filtered order (index `m`). */
  lemma SortedHeadSpec<T(!new)>(q: T -> bool, key: T -> int, xs: seq<T>) returns (m: nat)
    ensures SortedHead(q, key, xs).None? <==> forall x :: x in xs ==> !q(x)
    ensures SortedHead(q, key, xs).Some? ==>
      var c := Filter(q, xs);
      var h := SortedHead(q, key, xs).value;
      m < |c| && h == c[m] && h in xs && q(h) &&
      (forall x :: x in xs && q(x) ==> key(h) <= key(x)) &&
      (forall k :: 0 <= k < m ==> key(c[k]) > key(h))
  {
    var c := Filter(q, xs);
    if c == [] {
      m := 0;
    } else {
      assert c[0] in c;
      SortByHead(c, key);
      m := FirstMin(c, key);
      assert c[m] in c;
      forall x | x in xs && q(x)
        ensures key(c[m]) <= key(x)
      {
        assert x in c;
        var k :| 0 <= k < |c| && c[k] == x;
      }
    }
  }
}
