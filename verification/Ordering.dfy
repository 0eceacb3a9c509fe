/** Python's `sorted`: a stable sort by a total preorder, and the unique order it gives a set of keys. */
module Ordering {

  ghost predicate Total<T(!new)>(leq: (T, T) -> bool) {
    forall x, y :: leq(x, y) || leq(y, x)
  }

  ghost predicate Transitive<T(!new)>(leq: (T, T) -> bool) {
    forall x, y, z :: leq(x, y) && leq(y, z) ==> leq(x, z)
  }

  ghost predicate AntiSymmetric<T(!new)>(leq: (T, T) -> bool) {
    forall x, y :: leq(x, y) && leq(y, x) ==> x == y
  }

  ghost predicate WeakOrder<T(!new)>(leq: (T, T) -> bool) {
    Total(leq) && Transitive(leq)
  }

  ghost predicate LinearOrder<T(!new)>(leq: (T, T) -> bool) {
    WeakOrder(leq) && AntiSymmetric(leq)
  }

  ghost predicate SortedBy<T>(leq: (T, T) -> bool, xs: seq<T>) {
    forall i, j :: 0 <= i < j < |xs| ==> leq(xs[i], xs[j])
  }

  ghost predicate Distinct<T>(xs: seq<T>) {
    forall i, j :: 0 <= i < j < |xs| ==> xs[i] != xs[j]
  }

  function Insert<T>(leq: (T, T) -> bool, x: T, xs: seq<T>): (r: seq<T>)
    ensures |r| == |xs| + 1
  {
    if xs == [] || leq(x, xs[0]) then [x] + xs else [xs[0]] + Insert(leq, x, xs[1..])
  }

  /** Insertion keeps `x` before the later elements it ties with, so the sort is stable. */
  function Sort<T>(leq: (T, T) -> bool, xs: seq<T>): (r: seq<T>)
    ensures |r| == |xs|
  {
    if xs == [] then [] else Insert(leq, xs[0], Sort(leq, xs[1..]))
  }

  lemma {:induction false} InsertIsPermutation<T>(leq: (T, T) -> bool, x: T, xs: seq<T>)
    ensures multiset(Insert(leq, x, xs)) == multiset{x} + multiset(xs)
  {
    if xs == [] || leq(x, xs[0]) {
    } else {
      InsertIsPermutation(leq, x, xs[1..]);
      assert xs == [xs[0]] + xs[1..];
    }
  }

  lemma {:induction false} InsertSorts<T(!new)>(leq: (T, T) -> bool, x: T, xs: seq<T>)
    requires WeakOrder(leq) && SortedBy(leq, xs)
    ensures SortedBy(leq, Insert(leq, x, xs))
  {
    if xs == [] {
    } else if leq(x, xs[0]) {
      assert forall j :: 0 <= j < |xs| ==> leq(x, xs[j]);
    } else {
      InsertSorts(leq, x, xs[1..]);
      InsertIsPermutation(leq, x, xs[1..]);
      var tail := Insert(leq, x, xs[1..]);
      assert forall y :: y in multiset(tail) ==> y == x || y in multiset(xs[1..]);
      forall j | 0 <= j < |tail| ensures leq(xs[0], tail[j]) {
        assert tail[j] in multiset(tail);
        if tail[j] != x {
          assert tail[j] in xs[1..];
          var k :| 0 <= k < |xs[1..]| && xs[1..][k] == tail[j];
          assert xs[k + 1] == tail[j];
        }
      }
    }
  }

  /** `x` stands before `y`. */
  ghost predicate Precedes<T>(xs: seq<T>, x: T, y: T) {
    exists i, j :: 0 <= i < j < |xs| && xs[i] == x && xs[j] == y
  }

  /** `s` is in order, and ties are in the order of `xs`. */
  ghost predicate StableBy<T>(leq: (T, T) -> bool, xs: seq<T>, s: seq<T>) {
    forall i, j :: 0 <= i < j < |s| ==> leq(s[i], s[j]) && (leq(s[j], s[i]) ==> Precedes(xs, s[i], s[j]))
  }

  lemma {:induction false} InsertIsStable<T(!new)>(leq: (T, T) -> bool, xs: seq<T>, s: seq<T>)
    requires WeakOrder(leq) && xs != [] && StableBy(leq, xs[1..], s) && forall y :: y in s ==> y in xs[1..]
    ensures StableBy(leq, xs, Insert(leq, xs[0], s))
    decreases |s|
  {
    var x, r := xs[0], Insert(leq, xs[0], s);
    forall y, z | Precedes(xs[1..], y, z) ensures Precedes(xs, y, z) { PrecedesLater(xs, y, z); }
    if s == [] || leq(x, s[0]) {
      assert r == [x] + s;
      forall j | 0 < j < |r| ensures leq(x, r[j]) && Precedes(xs, x, r[j]) {
        assert s[0] == r[1] && (j > 1 ==> leq(s[0], s[j - 1]));
        assert r[j] in s;
        FirstPrecedes(xs, r[j]);
      }
    } else {
      assert StableBy(leq, xs[1..], s[1..]);
      InsertIsStable(leq, xs, s[1..]);
      InsertIsPermutation(leq, x, s[1..]);
      forall j | 0 < j < |r| ensures leq(r[0], r[j]) && (leq(r[j], r[0]) ==> Precedes(xs, r[0], r[j])) {
        assert r[j] in multiset(r[1..]);
        if r[j] in s[1..] {
          var k :| 0 <= k < |s[1..]| && s[1..][k] == r[j];
          assert s[k + 1] == r[j];
        }
      }
    }
  }

  lemma PrecedesLater<T>(xs: seq<T>, y: T, z: T)
    requires xs != [] && Precedes(xs[1..], y, z)
    ensures Precedes(xs, y, z)
  {
    var i, j :| 0 <= i < j < |xs[1..]| && xs[1..][i] == y && xs[1..][j] == z;
    assert xs[i + 1] == y && xs[j + 1] == z;
  }

  lemma FirstPrecedes<T>(xs: seq<T>, y: T)
    requires xs != [] && y in xs[1..]
    ensures Precedes(xs, xs[0], y)
  {
    var j :| 0 <= j < |xs[1..]| && xs[1..][j] == y;
    assert xs[j + 1] == y;
  }

  /** The sort is stable. */
  lemma {:induction false} SortIsStable<T(!new)>(leq: (T, T) -> bool, xs: seq<T>)
    requires WeakOrder(leq)
    ensures StableBy(leq, xs, Sort(leq, xs))
  {
    if xs != [] {
      SortIsStable(leq, xs[1..]);
      SortIsPermutation(leq, xs[1..]);
      InsertIsStable(leq, xs, Sort(leq, xs[1..]));
    }
  }

  lemma {:induction false} SortIsPermutation<T>(leq: (T, T) -> bool, xs: seq<T>)
    ensures multiset(Sort(leq, xs)) == multiset(xs)
    ensures forall x :: x in Sort(leq, xs) <==> x in xs
  {
    if xs != [] {
      SortIsPermutation(leq, xs[1..]);
      InsertIsPermutation(leq, xs[0], Sort(leq, xs[1..]));
      assert xs == [xs[0]] + xs[1..];
    }
    assert forall x :: x in Sort(leq, xs) <==> x in multiset(Sort(leq, xs));
    assert forall x :: x in xs <==> x in multiset(xs);
  }

  lemma {:induction false} SortSorts<T(!new)>(leq: (T, T) -> bool, xs: seq<T>)
    requires WeakOrder(leq)
    ensures SortedBy(leq, Sort(leq, xs))
  {
    if xs != [] {
      SortSorts(leq, xs[1..]);
      InsertSorts(leq, xs[0], Sort(leq, xs[1..]));
    }
  }

  lemma SortCons<T>(leq: (T, T) -> bool, x: T, xs: seq<T>)
    ensures Sort(leq, [x] + xs) == Insert(leq, x, Sort(leq, xs))
  {
    assert ([x] + xs)[1..] == xs;
  }

  lemma DistinctConcat<T(!new)>(a: seq<T>, b: seq<T>)
    requires Distinct(a) && Distinct(b) && forall x :: x in a ==> x !in b
    ensures Distinct(a + b)
  {
    forall i, j | 0 <= i < |a| && 0 <= j < |b| ensures a[i] != b[j] { assert a[i] in a; }
  }

  lemma BeyondPrefix<T>(xs: seq<T>, k: nat, j: nat)
    requires k <= |xs| && j < |xs| && xs[j] !in xs[..k]
    ensures j >= k
  {
    assert forall i :: 0 <= i < k ==> xs[..k][i] == xs[i];
  }

  lemma NoMembers<T(!new)>(xs: seq<T>)
    ensures xs == [] <==> forall x :: x !in xs
  {
    if xs != [] { assert xs[0] in xs; }
  }

  lemma SortedPlaces<T(!new)>(leq: (T, T) -> bool, xs: seq<T>, i: nat, j: nat)
    requires SortedBy(leq, xs) && i < |xs| && j < |xs| && i != j && !leq(xs[i], xs[j])
    ensures j < i
  {
  }

  lemma {:induction false} SortOfSorted<T(!new)>(leq: (T, T) -> bool, xs: seq<T>)
    requires WeakOrder(leq) && SortedBy(leq, xs)
    ensures Sort(leq, xs) == xs
  {
    if xs != [] {
      SortOfSorted(leq, xs[1..]);
      assert |xs| > 1 ==> leq(xs[0], xs[1]);
    }
  }

  /** A multiset that holds no element twice has only distinct sequences. */
  lemma DistinctFromMultiset<T>(xs: seq<T>, ys: seq<T>)
    requires multiset(xs) == multiset(ys) && Distinct(xs)
    ensures Distinct(ys)
  {
    forall i, j | 0 <= i < j < |ys| ensures ys[i] != ys[j] {
      if ys[i] == ys[j] {
        assert ys == ys[..i] + [ys[i]] + ys[i + 1..j] + [ys[j]] + ys[j + 1..];
        assert multiset(ys)[ys[i]] >= 2;
        CountsOne(xs, ys[i]);
      }
    }
  }

  lemma {:induction false} CountsOne<T>(xs: seq<T>, x: T)
    requires Distinct(xs)
    ensures multiset(xs)[x] <= 1
  {
    if xs != [] {
      assert xs == [xs[0]] + xs[1..];
      CountsOne(xs[1..], x);
      if x == xs[0] {
        assert forall k :: 0 <= k < |xs[1..]| ==> xs[1..][k] == xs[k + 1];
        assert x !in xs[1..];
      }
    }
  }

  /** The only sorted enumeration of a finite set. */
  function InOrder<T(==, !new)>(leq: (T, T) -> bool, s: set<T>): (r: seq<T>)
    requires LinearOrder(leq)
    ensures SortedBy(leq, r) && Distinct(r) && |r| == |s|
    ensures forall x :: x in r <==> x in s
  {
    if s == {} then []
    else
      assert exists x :: x in s && forall y :: y in s ==> leq(x, y) by { HasLeast(leq, s); }
      var x :| x in s && forall y :: y in s ==> leq(x, y);
      [x] + InOrder(leq, s - {x})
  }

  lemma {:induction false} HasLeast<T(!new)>(leq: (T, T) -> bool, s: set<T>)
    requires LinearOrder(leq) && s != {}
    ensures exists x :: x in s && forall y :: y in s ==> leq(x, y)
    decreases |s|
  {
    var x :| x in s;
    if s - {x} == {} {
      assert s == {x};
      assert leq(x, x);
    } else {
      HasLeast(leq, s - {x});
      var m :| m in s - {x} && forall y :: y in s - {x} ==> leq(m, y);
      var least := if leq(x, m) then x else m;
      forall y | y in s ensures leq(least, y) {
        assert y == x || y in s - {x};
        assert leq(x, x);
      }
    }
  }

  lemma {:induction false} SortedIsUnique<T(!new)>(leq: (T, T) -> bool, xs: seq<T>, ys: seq<T>)
    requires LinearOrder(leq)
    requires SortedBy(leq, xs) && Distinct(xs) && SortedBy(leq, ys) && Distinct(ys)
    requires forall x :: x in xs <==> x in ys
    ensures xs == ys
  {
    if xs == [] {
      assert forall k :: 0 <= k < |ys| ==> ys[k] in xs;
    } else {
      assert xs[0] in ys;
      assert ys[0] in xs;
      assert leq(xs[0], ys[0]) && leq(ys[0], xs[0]);
      forall x ensures x in xs[1..] <==> x in ys[1..] {
        TailMembers(xs, x);
        TailMembers(ys, x);
      }
      SortedIsUnique(leq, xs[1..], ys[1..]);
      assert xs == [xs[0]] + xs[1..] && ys == [ys[0]] + ys[1..];
    }
  }

  lemma TailMembers<T>(xs: seq<T>, x: T)
    requires xs != [] && Distinct(xs)
    ensures x in xs[1..] <==> x in xs && x != xs[0]
  {
    if x in xs[1..] {
      var k :| 0 <= k < |xs[1..]| && xs[1..][k] == x;
      assert xs[k + 1] == x;
    }
    if x in xs && x != xs[0] {
      var k :| 0 <= k < |xs| && xs[k] == x;
      assert xs[1..][k - 1] == x;
    }
  }

  lemma {:induction false} DistinctSize<T>(xs: seq<T>, s: set<T>)
    requires Distinct(xs) && forall x :: x in xs <==> x in s
    ensures |xs| == |s|
  {
    if xs == [] {
      assert s == {};
    } else {
      forall x ensures x in xs[1..] <==> x in s - {xs[0]} { TailMembers(xs, x); }
      DistinctSize(xs[1..], s - {xs[0]});
    }
  }

  /** Sorting any enumeration of a set gives its one sorted order. */
  lemma SortOfKeys<T(!new)>(leq: (T, T) -> bool, xs: seq<T>, s: set<T>)
    requires LinearOrder(leq) && Distinct(xs)
    requires forall x :: x in xs <==> x in s
    ensures Sort(leq, xs) == InOrder(leq, s)
    ensures Distinct(Sort(leq, xs))
  {
    SortIsPermutation(leq, xs);
    SortSorts(leq, xs);
    DistinctFromMultiset(xs, Sort(leq, xs));
    SortedIsUnique(leq, Sort(leq, xs), InOrder(leq, s));
  }

  /** The keys of a dictionary, in the order an iteration happens to visit them. */
  method KeyList<V>(m: map<string, V>) returns (keys: seq<string>)
    ensures Distinct(keys) && |keys| == |m|
    ensures forall k :: k in keys <==> k in m
  {
    keys := [];
    var left := m.Keys;
    while left != {}
      invariant left <= m.Keys && Distinct(keys)
      invariant forall k :: k in keys <==> k in m && k !in left
      invariant |keys| + |left| == |m|
      decreases left
    {
      var k :| k in left;
      keys, left := keys + [k], left - {k};
    }
  }
}
