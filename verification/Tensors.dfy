/** Dense row-major tensors of any rank, as the frame's payload lays them out. */
module Tensors {
  import opened Wrappers

  datatype Tensor<T> = Tensor(shape: seq<nat>, data: seq<T>)

  function Product(shape: seq<nat>): nat {
    if shape == [] then 1 else shape[0] * Product(shape[1..])
  }

  predicate WellSized<T>(t: Tensor<T>) { |t.data| == Product(t.shape) }

  predicate InBounds(shape: seq<nat>, index: seq<nat>) {
    |index| == |shape| && forall k :: 0 <= k < |shape| ==> index[k] < shape[k]
  }

  lemma StepWithin(i: nat, n: nat, m: nat, j: nat)
    requires i < n && j < m
    ensures i * m + j < n * m
  {
    assert i * m + m == (i + 1) * m <= n * m;
  }

  /** C order: the last index moves fastest. */
  function Offset(shape: seq<nat>, index: seq<nat>): (r: nat)
    requires InBounds(shape, index)
    ensures r < Product(shape)
  {
    if shape == [] then 0
    else
      StepWithin(index[0], shape[0], Product(shape[1..]), Offset(shape[1..], index[1..]));
      index[0] * Product(shape[1..]) + Offset(shape[1..], index[1..])
  }

  function At<T>(t: Tensor<T>, index: seq<nat>): T
    requires WellSized(t) && InBounds(t.shape, index)
  {
    t.data[Offset(t.shape, index)]
  }

  lemma SameRowAndColumn(i: nat, j: nat, p: nat, q: nat, m: nat)
    requires j < m && q < m && i * m + j == p * m + q
    ensures i == p && j == q
  {
    if i < p {
      StepWithin(i, p, m, j);
    } else if p < i {
      StepWithin(p, i, m, q);
    }
  }

  /** Distinct indices address distinct elements. */
  lemma {:induction false} OffsetInjective(shape: seq<nat>, a: seq<nat>, b: seq<nat>)
    requires InBounds(shape, a) && InBounds(shape, b)
    requires Offset(shape, a) == Offset(shape, b)
    ensures a == b
  {
    if shape != [] {
      SameRowAndColumn(a[0], Offset(shape[1..], a[1..]), b[0], Offset(shape[1..], b[1..]), Product(shape[1..]));
      OffsetInjective(shape[1..], a[1..], b[1..]);
      assert a == [a[0]] + a[1..] && b == [b[0]] + b[1..];
    }
  }

  lemma Monotone(a: nat, b: nat, m: nat)
    requires a <= b
    ensures a * m <= b * m
  {
  }

  lemma OffsetCons(shape: seq<nat>, row: nat, tail: seq<nat>)
    requires shape != [] && row < shape[0] && InBounds(shape[1..], tail)
    ensures InBounds(shape, [row] + tail)
    ensures Offset(shape, [row] + tail) == row * Product(shape[1..]) + Offset(shape[1..], tail)
  {
    assert ([row] + tail)[1..] == tail;
  }

  lemma RowAndColumn(k: nat, n: nat, m: nat) returns (row: nat, column: nat)
    requires k < n * m
    ensures row < n && column < m && row * m + column == k
  {
    assert m != 0;
    row, column := k / m, k % m;
    if row >= n {
      Monotone(n, row, m);
    }
  }

  /** Every stored element has an index. */
  lemma {:induction false} OffsetOnto(shape: seq<nat>, k: nat) returns (index: seq<nat>)
    requires k < Product(shape)
    ensures InBounds(shape, index) && Offset(shape, index) == k
  {
    if shape == [] {
      index := [];
    } else {
      var row, column := RowAndColumn(k, shape[0], Product(shape[1..]));
      var tail := OffsetOnto(shape[1..], column);
      index := [row] + tail;
      OffsetCons(shape, row, tail);
    }
  }

  // ----- Rows laid end to end ------------------------------------------------------------

  function Concat<T>(rows: seq<seq<T>>): seq<T> {
    if rows == [] then [] else rows[0] + Concat(rows[1..])
  }

  predicate Uniform<T>(rows: seq<seq<T>>, m: nat) {
    forall i :: 0 <= i < |rows| ==> |rows[i]| == m
  }

  lemma {:induction false} ConcatLength<T>(rows: seq<seq<T>>, m: nat)
    requires Uniform(rows, m)
    ensures |Concat(rows)| == |rows| * m
  {
    if rows != [] {
      ConcatLength(rows[1..], m);
      assert |rows| * m == m + (|rows| - 1) * m;
    }
  }

  lemma {:induction false} ConcatAt<T>(rows: seq<seq<T>>, m: nat, i: nat, j: nat)
    requires Uniform(rows, m) && i < |rows| && j < m
    ensures i * m + j < |Concat(rows)|
    ensures Concat(rows)[i * m + j] == rows[i][j]
  {
    ConcatLength(rows, m);
    StepWithin(i, |rows|, m, j);
    if i > 0 {
      assert i * m + j == m + ((i - 1) * m + j);
      ConcatAt(rows[1..], m, i - 1, j);
    }
  }

  lemma {:induction false} ConcatSnoc<T>(rows: seq<seq<T>>, row: seq<T>)
    ensures Concat(rows + [row]) == Concat(rows) + row
  {
    if rows == [] {
      assert Concat([row]) == row + Concat([]);
    } else {
      ConcatSnoc(rows[1..], row);
      assert (rows + [row])[1..] == rows[1..] + [row];
    }
  }

  /** Cutting the laid-out rows back into runs of `m` returns them. */
  function Chunk<T>(s: seq<T>, m: nat): (r: seq<seq<T>>)
    requires m > 0
    ensures Uniform(r, m)
    decreases |s|
  {
    if |s| < m then [] else [s[..m]] + Chunk(s[m..], m)
  }

  lemma OneRowMore(n: nat, m: nat)
    requires 0 < m <= n
    ensures n / m == 1 + (n - m) / m
  {
    var q, r := (n - m) / m, (n - m) % m;
    assert n - m == q * m + r;
    SameRowAndColumn(n / m, n % m, q + 1, r, m);
  }

  lemma {:induction false} ChunkLength<T>(s: seq<T>, m: nat)
    requires m > 0
    ensures |Chunk(s, m)| == |s| / m
    decreases |s|
  {
    if |s| < m {
      assert |s| / m == 0;
    } else {
      ChunkLength(s[m..], m);
      OneRowMore(|s|, m);
    }
  }

  lemma {:induction false} ChunkConcat<T>(rows: seq<seq<T>>, m: nat)
    requires Uniform(rows, m) && m > 0
    ensures Chunk(Concat(rows), m) == rows
  {
    if rows != [] {
      ChunkConcat(rows[1..], m);
      var s := Concat(rows);
      assert s[..m] == rows[0] && s[m..] == Concat(rows[1..]);
      assert rows == [rows[0]] + rows[1..];
    }
  }

  // ----- Reshaping ---------------------------------------------------------------------------

  /** The product of the dimensions that are given, and how many are left to be inferred. */
  function Known(shape: seq<int>): nat {
    if shape == [] then 1 else (if shape[0] < 0 then 1 else shape[0]) * Known(shape[1..])
  }

  function Inferred(shape: seq<int>): nat {
    if shape == [] then 0 else (if shape[0] < 0 then 1 else 0) + Inferred(shape[1..])
  }

  function Filled(shape: seq<int>, n: nat): (r: seq<nat>)
    ensures |r| == |shape|
  {
    if shape == [] then [] else [if shape[0] < 0 then n else shape[0]] + Filled(shape[1..], n)
  }

  /** `reshape` of `count` elements: at most one negative dimension, which is inferred. */
  function Reshape(shape: seq<int>, count: nat): (r: Option<seq<nat>>)
    ensures r.Some? ==> |r.value| == |shape| && Product(r.value) == count
  {
    if Inferred(shape) == 0 then
      FilledProduct(shape, 0);
      if Known(shape) == count then Some(Filled(shape, 0)) else None
    else if Inferred(shape) > 1 || Known(shape) == 0 || count % Known(shape) != 0 then None
    else
      FilledProduct(shape, count / Known(shape));
      Some(Filled(shape, count / Known(shape)))
  }

  lemma Regroup(a: nat, b: nat, c: nat)
    ensures a * (b * c) == a * b * c && a * b * c == b * (a * c)
  {
  }

  lemma {:induction false} FilledProduct(shape: seq<int>, n: nat)
    requires Inferred(shape) <= 1
    ensures Inferred(shape) == 0 ==> Product(Filled(shape, n)) == Known(shape)
    ensures Inferred(shape) == 1 ==> Product(Filled(shape, n)) == Known(shape) * n
  {
    if shape != [] {
      var tail := shape[1..];
      FilledProduct(tail, n);
      assert Filled(shape, n)[1..] == Filled(tail, n);
      if shape[0] >= 0 {
        Regroup(shape[0], Known(tail), n);
      } else {
        assert Known(shape) == Known(tail);
      }
    }
  }

  /** A shape without negative dimensions is taken as it is. */
  lemma {:induction false} ReshapeExplicit(shape: seq<nat>)
    ensures Inferred(shape) == 0 && Known(shape) == Product(shape) && Filled(shape, 0) == shape
    ensures Reshape(shape, Product(shape)) == Some(shape)
  {
    if shape != [] {
      ReshapeExplicit(shape[1..]);
      assert shape == [shape[0]] + shape[1..];
    }
  }
}
