/**
 Python's order on strings (by code point) and what `sorted` promises: a stable
 sorted permutation. Every module that sorts names, ids or keys uses this one.
 */
module Order {

  predicate StringLeq(a: string, b: string) {
    a == [] || (b != [] && (a[0] < b[0] || (a[0] == b[0] && StringLeq(a[1..], b[1..]))))
  }

  predicate StringLess(a: string, b: string) {
    StringLeq(a, b) && a != b
  }

  lemma {:induction false} StringLeqTotal(a: string, b: string)
    ensures StringLeq(a, b) || StringLeq(b, a)
  {
    if a != [] && b != [] {
      StringLeqTotal(a[1..], b[1..]);
    }
  }

  lemma {:induction false} StringLeqAntisymmetric(a: string, b: string)
    requires StringLeq(a, b) && StringLeq(b, a)
    ensures a == b
  {
    if a != [] {
      StringLeqAntisymmetric(a[1..], b[1..]);
      assert a == [a[0]] + a[1..];
      assert b == [b[0]] + b[1..];
    }
  }

  lemma {:induction false} StringLeqTransitive(a: string, b: string, c: string)
    requires StringLeq(a, b) && StringLeq(b, c)
    ensures StringLeq(a, c)
  {
    if a != [] && a[0] == b[0] == c[0] {
      StringLeqTransitive(a[1..], b[1..], c[1..]);
    }
  }

  lemma StringOrderIsTotal()
    ensures TotalOrder(StringLeq) && Antisymmetric(StringLeq)
  {
    forall a: string, b: string ensures StringLeq(a, b) || StringLeq(b, a) {
      StringLeqTotal(a, b);
    }
    forall a: string, b: string, c: string | StringLeq(a, b) && StringLeq(b, c)
      ensures StringLeq(a, c)
    {
      StringLeqTransitive(a, b, c);
    }
    forall a: string, b: string | StringLeq(a, b) && StringLeq(b, a) ensures a == b {
      StringLeqAntisymmetric(a, b);
    }
  }

  ghost predicate TotalOrder<T(!new)>(leq: (T, T) -> bool) {
    && (forall a, b :: leq(a, b) || leq(b, a))
    && (forall a, b, c :: leq(a, b) && leq(b, c) ==> leq(a, c))
  }

  ghost predicate Antisymmetric<T(!new)>(leq: (T, T) -> bool) {
    forall a, b :: leq(a, b) && leq(b, a) ==> a == b
  }

  ghost predicate Sorted<T>(leq: (T, T) -> bool, s: seq<T>) {
    forall i, j :: 0 <= i < j < |s| ==> leq(s[i], s[j])
  }

  function Insert<T(!new)>(leq: (T, T) -> bool, x: T, s: seq<T>): (r: seq<T>)
    requires TotalOrder(leq) && Sorted(leq, s)
    ensures Sorted(leq, r) && multiset(r) == multiset{x} + multiset(s)
  {
    if s == [] || leq(x, s[0]) then
      [x] + s
    else
      var r := Insert(leq, x, s[1..]);
      assert s == [s[0]] + s[1..];
      InsertedAreLater(leq, x, s, r);
      [s[0]] + r
  }

  lemma InsertedAreLater<T(!new)>(leq: (T, T) -> bool, x: T, s: seq<T>, r: seq<T>)
    requires TotalOrder(leq) && s != [] && Sorted(leq, s) && !leq(x, s[0])
    requires multiset(r) == multiset{x} + multiset(s[1..])
    ensures forall k :: 0 <= k < |r| ==> leq(s[0], r[k])
  {
    forall k | 0 <= k < |r| ensures leq(s[0], r[k]) {
      assert r[k] in multiset(r);
      if r[k] != x {
        assert r[k] in s[1..];
      }
    }
  }

  /** `sorted`: equal keys keep their input order. */
  function Sort<T(!new)>(leq: (T, T) -> bool, s: seq<T>): (r: seq<T>)
    requires TotalOrder(leq)
    ensures Sorted(leq, r) && multiset(r) == multiset(s) && |r| == |s|
  {
    if s == [] then [] else
      assert s == [s[0]] + s[1..];
      var r := Insert(leq, s[0], Sort(leq, s[1..]));
      assert |r| == |multiset(r)| && |s| == |multiset(s)|;
      r
  }

  lemma SortMembers<T(!new)>(leq: (T, T) -> bool, s: seq<T>)
    requires TotalOrder(leq)
    ensures forall x :: x in Sort(leq, s) <==> x in s
  {
    var r := Sort(leq, s);
    forall x ensures x in r <==> x in s {
      assert x in multiset(r) <==> x in r;
      assert x in multiset(s) <==> x in s;
    }
  }

  lemma LeastFirst<T(!new)>(leq: (T, T) -> bool, s: seq<T>, x: T)
    requires TotalOrder(leq) && Sorted(leq, s) && x in multiset(s)
    ensures leq(s[0], x)
  {
    var i :| 0 <= i < |s| && s[i] == x;
    assert leq(s[0], s[0]);
  }

  lemma DropHead<T>(s: seq<T>)
    requires s != []
    ensures multiset(s[1..]) == multiset(s) - multiset{s[0]}
  {
    assert s == [s[0]] + s[1..];
  }

  /** A sorted arrangement is determined by its elements when the order has no ties. */
  lemma {:induction false} SortedUnique<T(!new)>(leq: (T, T) -> bool, a: seq<T>, b: seq<T>)
    requires TotalOrder(leq) && Antisymmetric(leq)
    requires Sorted(leq, a) && Sorted(leq, b) && multiset(a) == multiset(b)
    ensures a == b
  {
    assert |multiset(a)| == |a| && |multiset(b)| == |b|;
    if a != [] {
      assert a[0] in multiset(a) && b[0] in multiset(b);
      LeastFirst(leq, a, b[0]);
      LeastFirst(leq, b, a[0]);
      assert a[0] == b[0];
      DropHead(a);
      DropHead(b);
      SortedUnique(leq, a[1..], b[1..]);
    }
  }

  /** The list without its element at `i`. */
  function Without<T>(s: seq<T>, i: nat): (r: seq<T>)
    requires i < |s|
    ensures |r| == |s| - 1
  {
    s[..i] + s[i + 1..]
  }

  lemma WithoutOne<T>(s: seq<T>, i: nat)
    requires i < |s|
    ensures multiset(s) == multiset(Without(s, i)) + multiset{s[i]}
    ensures multiset(Without(s, i)) == multiset(s) - multiset{s[i]}
  {
    assert s == s[..i] + [s[i]] + s[i + 1..];
  }

  lemma WithoutLater<T>(s: seq<T>, i: nat)
    requires 0 < i < |s|
    ensures Without(s, i) == [s[0]] + Without(s[1..], i - 1)
  {
  }

  lemma PrefixCons<T>(s: seq<T>, n: nat)
    requires 0 < n <= |s|
    ensures s[..n] == [s[0]] + s[1..][..n - 1]
  {
  }

  lemma SameSize<T>(a: seq<T>, b: seq<T>)
    requires multiset(a) == multiset(b)
    ensures |a| == |b|
  {
    assert |multiset(a)| == |a| && |multiset(b)| == |b|;
  }

  // ----- Stability -----------------------------------------------------------------------

  /** The elements that tie with `x`, in order. */
  function Ties<T>(leq: (T, T) -> bool, s: seq<T>, x: T): seq<T> {
    if s == [] then []
    else (if leq(s[0], x) && leq(x, s[0]) then [s[0]] else []) + Ties(leq, s[1..], x)
  }

  lemma TiesHead<T>(leq: (T, T) -> bool, s: seq<T>, x: T)
    requires s != []
    ensures Ties(leq, s, x) == Ties(leq, [s[0]], x) + Ties(leq, s[1..], x)
  {
    assert [s[0]][1..] == [];
  }

  /** An element passed over does not tie with the one inserted. */
  lemma TieSwap<T(!new)>(leq: (T, T) -> bool, y: T, z: T, x: T)
    requires TotalOrder(leq) && !leq(y, z)
    ensures Ties(leq, [z], x) + Ties(leq, [y], x) == Ties(leq, [y], x) + Ties(leq, [z], x)
  {
    assert leq(y, x) && leq(x, z) ==> leq(y, z);
  }

  lemma {:induction false} InsertStable<T(!new)>(leq: (T, T) -> bool, y: T, s: seq<T>, x: T)
    requires TotalOrder(leq) && Sorted(leq, s)
    ensures Ties(leq, Insert(leq, y, s), x) == Ties(leq, [y], x) + Ties(leq, s, x)
  {
    if s == [] || leq(y, s[0]) {
      TiesHead(leq, [y] + s, x);
      assert ([y] + s)[1..] == s;
    } else {
      InsertLater(leq, y, s);
      InsertStable(leq, y, s[1..], x);
      TieSwap(leq, y, s[0], x);
      TiesMoved(leq, Ties(leq, [s[0]], x), Ties(leq, [y], x), s, Insert(leq, y, s), x);
    }
  }

  lemma InsertLater<T(!new)>(leq: (T, T) -> bool, y: T, s: seq<T>)
    requires TotalOrder(leq) && Sorted(leq, s) && s != [] && !leq(y, s[0])
    ensures Insert(leq, y, s) == [s[0]] + Insert(leq, y, s[1..])
  {
  }

  lemma TiesMoved<T>(leq: (T, T) -> bool, a: seq<T>, b: seq<T>, s: seq<T>, r: seq<T>, x: T)
    requires s != [] && r != [] && r[0] == s[0] && a == Ties(leq, [s[0]], x) && a + b == b + a
    requires Ties(leq, r[1..], x) == b + Ties(leq, s[1..], x)
    ensures Ties(leq, r, x) == b + Ties(leq, s, x)
  {
    TiesHead(leq, r, x);
    TiesHead(leq, s, x);
    assert a + (b + Ties(leq, s[1..], x)) == (a + b) + Ties(leq, s[1..], x);
    assert b + (a + Ties(leq, s[1..], x)) == (b + a) + Ties(leq, s[1..], x);
  }

  /** Sorting leaves tied elements in their input order. */
  lemma {:induction false} SortStable<T(!new)>(leq: (T, T) -> bool, s: seq<T>, x: T)
    requires TotalOrder(leq)
    ensures Ties(leq, Sort(leq, s), x) == Ties(leq, s, x)
  {
    if s != [] {
      var rest := Sort(leq, s[1..]);
      SortStable(leq, s[1..], x);
      InsertStable(leq, s[0], rest, x);
      TiesHead(leq, s, x);
      assert Sort(leq, s) == Insert(leq, s[0], rest);
    }
  }

  // ----- Repetition ------------------------------------------------------------------------

  ghost predicate NoDuplicates<T>(s: seq<T>) {
    forall i, j :: 0 <= i < j < |s| ==> s[i] != s[j]
  }

  lemma {:induction false} OnceEach<T>(s: seq<T>, x: T)
    requires NoDuplicates(s)
    ensures multiset(s)[x] == if x in s then 1 else 0
  {
    if s != [] {
      assert s == [s[0]] + s[1..];
      OnceEach(s[1..], x);
      if x == s[0] {
        assert x !in s[1..];
      }
    }
  }

  lemma TwiceCounted<T>(s: seq<T>, i: nat, j: nat)
    requires i < j < |s| && s[i] == s[j]
    ensures multiset(s)[s[i]] >= 2
  {
    assert s == s[..i] + [s[i]] + s[i + 1..j] + [s[j]] + s[j + 1..];
  }

  /** A rearrangement of a list without repetitions has none either. */
  lemma RearrangedDistinct<T>(s: seq<T>, r: seq<T>)
    requires NoDuplicates(s) && multiset(s) == multiset(r)
    ensures NoDuplicates(r)
  {
    forall i, j | 0 <= i < j < |r| ensures r[i] != r[j] {
      if r[i] == r[j] {
        TwiceCounted(r, i, j);
        OnceEach(s, r[i]);
      }
    }
  }

  // ----- Mapping -----------------------------------------------------------------------------

  function Map<T, U>(f: T -> U, s: seq<T>): (r: seq<U>)
    ensures |r| == |s| && forall i :: 0 <= i < |s| ==> r[i] == f(s[i])
  {
    seq(|s|, i requires 0 <= i < |s| => f(s[i]))
  }

  lemma MapHead<T, U>(f: T -> U, s: seq<T>)
    requires s != []
    ensures multiset(Map(f, s)) == multiset{f(s[0])} + multiset(Map(f, s[1..]))
  {
    assert Map(f, s) == [f(s[0])] + Map(f, s[1..]);
  }

  lemma MapWithout<T, U>(f: T -> U, s: seq<T>, i: nat)
    requires i < |s|
    ensures multiset(Map(f, s)) == multiset{f(s[i])} + multiset(Map(f, Without(s, i)))
  {
    WithoutOne(Map(f, s), i);
    assert Map(f, Without(s, i)) == Without(Map(f, s), i);
  }

  /** Mapping a rearranged list gives a rearranged result. */
  lemma {:induction false} MapRearranged<T, U>(f: T -> U, a: seq<T>, b: seq<T>)
    requires multiset(a) == multiset(b)
    ensures multiset(Map(f, a)) == multiset(Map(f, b))
  {
    SameSize(a, b);
    if a == [] {
      assert Map(f, a) == Map(f, b);
    } else {
      assert a[0] in multiset(b);
      var i :| 0 <= i < |b| && b[i] == a[0];
      WithoutOne(b, i);
      DropHead(a);
      MapRearranged(f, a[1..], Without(b, i));
      MapHead(f, a);
      MapWithout(f, b, i);
    }
  }
}
