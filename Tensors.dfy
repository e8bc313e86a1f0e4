/** Rows, tables and the element-wise arithmetic that the tensors of the
    training code perform. A `Row` is one batch row (one value per agent,
    or one hidden vector); a `Table` is a (rows x columns) tensor. */
module Tensors {

  type Row = seq<real>
  type Table = seq<Row>

  /** `t` has exactly `rows` rows, each of `cols` columns. */
  predicate IsTable(t: Table, rows: nat, cols: nat) {
    |t| == rows && forall i :: 0 <= i < |t| ==> |t[i]| == cols
  }

  /** Tensor `size()` equality: same number of rows, same row lengths. */
  predicate SameShape(a: Table, b: Table) {
    |a| == |b| && forall i :: 0 <= i < |a| ==> |a[i]| == |b[i]|
  }

  function Zeros(n: nat): (r: Row)
    ensures |r| == n && forall k :: 0 <= k < n ==> r[k] == 0.0
  {
    seq(n, _ => 0.0)
  }

  predicate IsZero(v: Row) {
    forall k :: 0 <= k < |v| ==> v[k] == 0.0
  }

  function Add(u: Row, v: Row): (r: Row)
    requires |u| == |v|
    ensures |r| == |u| && forall k :: 0 <= k < |u| ==> r[k] == u[k] + v[k]
  {
    seq(|u|, k requires 0 <= k < |u| => u[k] + v[k])
  }

  function Sub(u: Row, v: Row): (r: Row)
    requires |u| == |v|
    ensures |r| == |u| && forall k :: 0 <= k < |u| ==> r[k] == u[k] - v[k]
  {
    seq(|u|, k requires 0 <= k < |u| => u[k] - v[k])
  }

  function Scale(c: real, v: Row): (r: Row)
    ensures |r| == |v| && forall k :: 0 <= k < |v| ==> r[k] == c * v[k]
  {
    seq(|v|, k requires 0 <= k < |v| => c * v[k])
  }

  /** Element-wise difference of two tables of the same shape. */
  function TableSub(a: Table, b: Table): (r: Table)
    requires SameShape(a, b)
    ensures SameShape(r, a)
    ensures forall i, k :: 0 <= i < |a| && 0 <= k < |a[i]| ==> r[i][k] == a[i][k] - b[i][k]
  {
    seq(|a|, i requires 0 <= i < |a| => Sub(a[i], b[i]))
  }

  /** Element-wise negation (`-t`). */
  function Negated(t: Table): (r: Table)
    ensures SameShape(r, t)
    ensures forall i, k :: 0 <= i < |t| && 0 <= k < |t[i]| ==> r[i][k] == -t[i][k]
  {
    seq(|t|, i requires 0 <= i < |t| => Scale(-1.0, t[i]))
  }

  /** Sum of a row, peeling the last element. */
  function SumRow(v: Row): real
  {
    if |v| == 0 then 0.0 else SumRow(v[..|v| - 1]) + v[|v| - 1]
  }

  /** Sum of every element of a table (`t.sum()`). */
  function SumTable(t: Table): real
  {
    if |t| == 0 then 0.0 else SumTable(t[..|t| - 1]) + SumRow(t[|t| - 1])
  }

  /** Element-wise product of two tables of the same shape. */
  function TableMul(a: Table, b: Table): (r: Table)
    requires SameShape(a, b)
    ensures SameShape(r, a)
    ensures forall i, k :: 0 <= i < |a| && 0 <= k < |a[i]| ==> r[i][k] == a[i][k] * b[i][k]
  {
    seq(|a|, i requires 0 <= i < |a| => seq(|a[i]|, k requires 0 <= k < |a[i]| => a[i][k] * b[i][k]))
  }

  predicate AllNonNegative(t: Table) {
    forall i, k :: 0 <= i < |t| && 0 <= k < |t[i]| ==> t[i][k] >= 0.0
  }

  predicate AllZero(t: Table) {
    forall i, k :: 0 <= i < |t| && 0 <= k < |t[i]| ==> t[i][k] == 0.0
  }

  lemma {:induction false} SumRowNonNegative(v: Row)
    requires forall k :: 0 <= k < |v| ==> v[k] >= 0.0
    ensures SumRow(v) >= 0.0
    ensures SumRow(v) == 0.0 <==> IsZero(v)
  {
    if |v| > 0 {
      SumRowNonNegative(v[..|v| - 1]);
      if SumRow(v) == 0.0 {
        forall k | 0 <= k < |v| ensures v[k] == 0.0 {
          if k < |v| - 1 { assert v[..|v| - 1][k] == v[k]; }
        }
      }
    }
  }

  /** A table of non-negative elements sums to a non-negative value, and to
      zero exactly when every element is zero. */
  lemma {:induction false} SumTableNonNegative(t: Table)
    requires AllNonNegative(t)
    ensures SumTable(t) >= 0.0
    ensures SumTable(t) == 0.0 <==> AllZero(t)
  {
    if |t| > 0 {
      var init := t[..|t| - 1];
      var last := t[|t| - 1];
      assert AllNonNegative(init) by {
        forall i, k | 0 <= i < |init| && 0 <= k < |init[i]| ensures init[i][k] >= 0.0 {
          assert init[i] == t[i];
        }
      }
      SumTableNonNegative(init);
      SumRowNonNegative(last);
      if SumTable(t) == 0.0 {
        forall i, k | 0 <= i < |t| && 0 <= k < |t[i]| ensures t[i][k] == 0.0 {
          if i < |t| - 1 { assert init[i] == t[i]; }
        }
      }
    }
  }

  /** A table whose every element is zero sums to zero. */
  lemma {:induction false} SumTableOfZero(t: Table)
    requires AllZero(t)
    ensures SumTable(t) == 0.0
  {
    assert AllNonNegative(t);
    SumTableNonNegative(t);
  }
}
