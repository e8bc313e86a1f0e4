/** The credit-assignment engine (rl_algorithms.py): the discounted returns
    of REINFORCE, the discounted temporal-difference deltas of ActorCritic,
    and the aggregation of both into an action loss and a value loss.

    A batch is ordered by time; row `i` holds one transition for all agents.
    Network outputs (values, next values, log-probabilities and the raw
    action output) are inputs here. */
module RlAlgorithms {
  import opened Wrappers
  import opened Tensors

  /** The columns of a batch that the loss engine reads. */
  datatype Batch = Batch(rewards: Table, startStep: seq<bool>, lastStep: seq<bool>)

  /** The three columns have one entry per batch row. */
  predicate Aligned(b: Batch) {
    |b.startStep| == |b.rewards| && |b.lastStep| == |b.rewards|
  }

  /** Aligned, and every reward row holds one reward per agent. */
  predicate WellFormed(b: Batch, n: nat) {
    Aligned(b) && IsTable(b.rewards, |b.rewards|, n)
  }

  /** The rows of `t` all have the same length (what `torch.tensor` demands). */
  predicate Rectangular(t: Table) {
    forall i :: 0 <= i < |t| ==> |t[i]| == |t[0]|
  }

  /** The backward returns loop reads its running return before setting it
      unless the last row (the first one it visits) is a `last_step` row. */
  predicate EndsAtBoundary(b: Batch) {
    |b.lastStep| > 0 ==> b.lastStep[|b.lastStep| - 1]
  }

  /** The forward deltas loop reads `I` before setting it unless the first
      row is a `start_step` row. */
  predicate StartsAtBoundary(b: Batch) {
    |b.startStep| > 0 ==> b.startStep[0]
  }

  function Pow(x: real, k: nat): real
  {
    if k == 0 then 1.0 else x * Pow(x, k - 1)
  }

  // ---------------------------------------------------------------------
  // REINFORCE returns
  // ---------------------------------------------------------------------

  /** The return of row `i`: its reward plus `gamma` times the running return,
      which is reset to 0 on a `last_step` row. */
  function ReturnAt(b: Batch, gamma: real, n: nat, i: nat): (r: Row)
    requires WellFormed(b, n) && EndsAtBoundary(b) && i < |b.rewards|
    ensures |r| == n
    decreases |b.rewards| - i
  {
    var prev := if b.lastStep[i] then Zeros(n) else ReturnAt(b, gamma, n, i + 1);
    Add(b.rewards[i], Scale(gamma, prev))
  }

  /** The whole returns table. */
  function ReturnsOf(b: Batch, gamma: real, n: nat): (r: Table)
    requires WellFormed(b, n) && EndsAtBoundary(b)
    ensures IsTable(r, |b.rewards|, n)
  {
    seq(|b.rewards|, i requires 0 <= i < |b.rewards| => ReturnAt(b, gamma, n, i))
  }

  /** The recurrence a returns table satisfies: the reward alone on a
      `last_step` row, the reward plus the discounted next return otherwise. */
  lemma ReturnRecurrence(b: Batch, gamma: real, n: nat, i: nat)
    requires WellFormed(b, n) && EndsAtBoundary(b) && i < |b.rewards|
    ensures b.lastStep[i] ==> ReturnAt(b, gamma, n, i) == b.rewards[i]
    ensures !b.lastStep[i] ==>
              i + 1 < |b.rewards| &&
              ReturnAt(b, gamma, n, i) == Add(b.rewards[i], Scale(gamma, ReturnAt(b, gamma, n, i + 1)))
  {
    if b.lastStep[i] {
      assert ReturnAt(b, gamma, n, i) == b.rewards[i];
    }
  }

  /** The first `last_step` row at or after row `i`. */
  function NextBoundary(lastStep: seq<bool>, i: nat): (e: nat)
    requires i < |lastStep| && lastStep[|lastStep| - 1]
    ensures i <= e < |lastStep| && lastStep[e]
    ensures forall k :: i <= k < e ==> !lastStep[k]
    decreases |lastStep| - i
  {
    if lastStep[i] then i else NextBoundary(lastStep, i + 1)
  }

  /** Column `a` of a table. */
  function Column(t: Table, n: nat, a: nat): (c: seq<real>)
    requires IsTable(t, |t|, n) && a < n
    ensures |c| == |t| && forall k :: 0 <= k < |t| ==> c[k] == t[k][a]
  {
    seq(|t|, k requires 0 <= k < |t| => t[k][a])
  }

  /** The discounted sum  col[i] + gamma*col[i+1] + ... + gamma^(j-1-i)*col[j-1]
      of a window of a column, in Horner form. */
  function DiscountedSum(col: seq<real>, gamma: real, i: nat, j: nat): real
    requires i <= j <= |col|
    decreases j - i
  {
    if i == j then 0.0 else col[i] + gamma * DiscountedSum(col, gamma, i + 1, j)
  }

  /** Closed form: the return of row `i` for agent `a` is the discounted sum of
      that agent's rewards from row `i` up to and including the first
      `last_step` row at or after `i`. */
  lemma ReturnClosedForm(b: Batch, gamma: real, n: nat, i: nat, a: nat)
    requires WellFormed(b, n) && EndsAtBoundary(b) && i < |b.rewards| && a < n
    ensures ReturnAt(b, gamma, n, i)[a]
         == DiscountedSum(Column(b.rewards, n, a), gamma, i, NextBoundary(b.lastStep, i) + 1)
  {
    var col := Column(b.rewards, n, a);
    ReturnColumn(b, gamma, n, i, a);
    ColumnReturnClosedForm(col, b.lastStep, gamma, i);
  }

  /** The returns loop seen on one agent's column of rewards. */
  function ColumnReturn(col: seq<real>, lastStep: seq<bool>, gamma: real, i: nat): real
    requires |lastStep| == |col| && i < |col| && lastStep[|col| - 1]
    decreases |col| - i
  {
    if lastStep[i] then col[i] else col[i] + gamma * ColumnReturn(col, lastStep, gamma, i + 1)
  }

  lemma {:induction false} ReturnColumn(b: Batch, gamma: real, n: nat, i: nat, a: nat)
    requires WellFormed(b, n) && EndsAtBoundary(b) && i < |b.rewards| && a < n
    ensures ReturnAt(b, gamma, n, i)[a] == ColumnReturn(Column(b.rewards, n, a), b.lastStep, gamma, i)
    decreases |b.rewards| - i
  {
    var col := Column(b.rewards, n, a);
    ReturnEntry(b, gamma, n, i, a);
    assert col[i] == b.rewards[i][a];
    if !b.lastStep[i] {
      ReturnColumn(b, gamma, n, i + 1, a);
    }
  }

  lemma {:induction false} ColumnReturnClosedForm(col: seq<real>, lastStep: seq<bool>, gamma: real, i: nat)
    requires |lastStep| == |col| && i < |col| && lastStep[|col| - 1]
    ensures ColumnReturn(col, lastStep, gamma, i) == DiscountedSum(col, gamma, i, NextBoundary(lastStep, i) + 1)
    decreases |col| - i
  {
    var e := NextBoundary(lastStep, i);
    var rest := DiscountedSum(col, gamma, i + 1, e + 1);
    if lastStep[i] {
      assert rest == 0.0;
    } else {
      ColumnReturnClosedForm(col, lastStep, gamma, i + 1);
      assert NextBoundary(lastStep, i + 1) == e;
    }
  }

  /** One entry of the recurrence of `ReturnAt`. */
  lemma ReturnEntry(b: Batch, gamma: real, n: nat, i: nat, a: nat)
    requires WellFormed(b, n) && EndsAtBoundary(b) && i < |b.rewards| && a < n
    ensures b.lastStep[i] ==> ReturnAt(b, gamma, n, i)[a] == b.rewards[i][a] + gamma * 0.0
    ensures !b.lastStep[i] ==>
              i + 1 < |b.rewards| && ReturnAt(b, gamma, n, i)[a] == b.rewards[i][a] + gamma * ReturnAt(b, gamma, n, i + 1)[a]
  {
  }

  /** The return of row `i` depends only on the rewards of rows `i` to the
      first `last_step` row at or after `i`: no return leaks across an
      episode boundary. */
  lemma {:induction false} ReturnLocality(b: Batch, b': Batch, gamma: real, n: nat, i: nat)
    requires WellFormed(b, n) && WellFormed(b', n) && EndsAtBoundary(b)
    requires b'.lastStep == b.lastStep && i < |b.rewards|
    requires forall k :: i <= k <= NextBoundary(b.lastStep, i) ==> b'.rewards[k] == b.rewards[k]
    ensures ReturnAt(b', gamma, n, i) == ReturnAt(b, gamma, n, i)
    decreases |b.rewards| - i
  {
    if !b.lastStep[i] {
      ReturnLocality(b, b', gamma, n, i + 1);
    }
  }

  /** One agent, gamma = 0.9, rewards 1, 1, 1, 0 and the episode ending on the
      last row: the returns are 2.71, 1.9, 1.0, 0.0. */
  lemma ReturnsExample()
    ensures ReturnsOf(Batch([[1.0], [1.0], [1.0], [0.0]], [true, false, false, false],
                            [false, false, false, true]), 0.9, 1)
         == [[2.71], [1.9], [1.0], [0.0]]
  {
    var b := Batch([[1.0], [1.0], [1.0], [0.0]], [true, false, false, false], [false, false, false, true]);
    assert ReturnAt(b, 0.9, 1, 3) == [0.0];
    assert ReturnAt(b, 0.9, 1, 2) == [1.0];
    assert ReturnAt(b, 0.9, 1, 1) == [1.9];
    assert ReturnAt(b, 0.9, 1, 0) == [2.71];
  }

  /** One iteration of the backward returns loop: reset the running return
      on a `last_step` row, then add the discounted running return to the
      row's rewards. */
  method ReturnStep(b: Batch, gamma: real, n: nat, i: nat, prevReturn: Option<Row>) returns (row: Row)
    requires WellFormed(b, n) && EndsAtBoundary(b) && i < |b.rewards|
    requires i + 1 < |b.rewards| ==> prevReturn == Some(ReturnAt(b, gamma, n, i + 1))
    ensures row == ReturnAt(b, gamma, n, i)
  {
    var prev := prevReturn;
    if b.lastStep[i] {
      prev := Some(Zeros(n));
    } else {
      assert i + 1 < |b.rewards|;
    }
    row := Add(b.rewards[i], Scale(gamma, prev.value));
  }

  /** The rows `len - 1` down to `i`, in that order. */
  function RowsDown(len: nat, i: nat): (r: seq<nat>)
    requires i <= len
    ensures |r| == len - i && forall j :: 0 <= j < |r| ==> r[j] == len - 1 - j
    decreases len - i
  {
    if i == len then [] else RowsDown(len, i + 1) + [i]
  }

  /** The rows `0` up to `i - 1`, in that order. */
  function RowsUp(i: nat): (r: seq<nat>)
    ensures |r| == i && forall j :: 0 <= j < i ==> r[j] == j
  {
    if i == 0 then [] else RowsUp(i - 1) + [i - 1]
  }

  /** Rows `i` onwards of `t` hold their returns. */
  ghost predicate ReturnsFrom(t: Table, b: Batch, gamma: real, n: nat, i: nat)
    requires WellFormed(b, n) && EndsAtBoundary(b)
  {
    |t| == |b.rewards| && forall k :: i <= k < |t| ==> t[k] == ReturnAt(b, gamma, n, k)
  }

  lemma ReturnsFromStep(t: Table, b: Batch, gamma: real, n: nat, i: nat, row: Row)
    requires WellFormed(b, n) && EndsAtBoundary(b) && i < |t|
    requires ReturnsFrom(t, b, gamma, n, i + 1) && row == ReturnAt(b, gamma, n, i)
    ensures ReturnsFrom(t[i := row], b, gamma, n, i)
  {
  }

  /** The backward returns loop of `REINFORCE.get_loss`: a zero table written
      row by row from the last row to the first, carrying the running return.
      `order` lists the rows in the order they are written: each row once,
      last row first. */
  method ComputeReturns(b: Batch, gamma: real, n: nat) returns (discounted: Table, ghost order: seq<nat>)
    requires WellFormed(b, n) && EndsAtBoundary(b)
    ensures IsTable(discounted, |b.rewards|, n)
    ensures forall i :: 0 <= i < |discounted| ==> discounted[i] == ReturnAt(b, gamma, n, i)
    ensures order == RowsDown(|b.rewards|, 0)
  {
    var table := seq(|b.rewards|, _ => Zeros(n));
    order := [];
    var prevReturn: Option<Row> := None;
    var i := |b.rewards|;
    while i > 0
      invariant 0 <= i <= |b.rewards|
      invariant order == RowsDown(|b.rewards|, i)
      invariant i < |b.rewards| ==> prevReturn == Some(ReturnAt(b, gamma, n, i))
      invariant ReturnsFrom(table, b, gamma, n, i)
    {
      i := i - 1;
      var row := ReturnStep(b, gamma, n, i, prevReturn);
      ReturnsFromStep(table, b, gamma, n, i, row);
      table := table[i := row];
      order := order + [i];
      prevReturn := Some(row);
    }
    discounted := table;
    assert ReturnsFrom(discounted, b, gamma, n, 0);
  }

  // ---------------------------------------------------------------------
  // ActorCritic deltas
  // ---------------------------------------------------------------------

  /** The latest `start_step` row at or before row `i`. */
  function LatestStart(startStep: seq<bool>, i: nat): (s: nat)
    requires i < |startStep| && startStep[0]
    ensures s <= i && startStep[s]
    ensures forall k :: s < k <= i ==> !startStep[k]
  {
    if startStep[i] then i else LatestStart(startStep, i - 1)
  }

  /** The discount `I` in force at row `i`: gamma to the number of rows since
      the latest `start_step` row. */
  function Discount(startStep: seq<bool>, gamma: real, i: nat): real
    requires i < |startStep| && startStep[0]
  {
    Pow(gamma, i - LatestStart(startStep, i))
  }

  /** `I` is 1 on a `start_step` row and is multiplied by gamma on every other. */
  lemma DiscountSteps(startStep: seq<bool>, gamma: real, i: nat)
    requires i < |startStep| && startStep[0]
    ensures startStep[i] ==> Discount(startStep, gamma, i) == 1.0
    ensures !startStep[i] ==> i > 0 && Discount(startStep, gamma, i) == gamma * Discount(startStep, gamma, i - 1)
  {
    if !startStep[i] {
      assert LatestStart(startStep, i) == LatestStart(startStep, i - 1);
    }
  }

  lemma {:induction false} PowBounds(x: real, k: nat)
    requires 0.0 <= x <= 1.0
    ensures 0.0 <= Pow(x, k) <= 1.0
  {
    if k > 0 {
      PowBounds(x, k - 1);
      ScaleBelow(x, Pow(x, k - 1));
    }
  }

  /** Scaling a non-negative value by a factor in [0, 1] keeps it in [0, that value]. */
  lemma ScaleBelow(a: real, c: real)
    requires 0.0 <= a <= 1.0 && 0.0 <= c
    ensures 0.0 <= a * c <= c
  {
  }

  /** For a discount factor in [0, 1] the discount `I` stays in [0, 1]. */
  lemma DiscountBounds(startStep: seq<bool>, gamma: real, i: nat)
    requires i < |startStep| && startStep[0] && 0.0 <= gamma <= 1.0
    ensures 0.0 <= Discount(startStep, gamma, i) <= 1.0
  {
    PowBounds(gamma, i - LatestStart(startStep, i));
  }

  /** How the loop's running discount moves from row `i` to row `i + 1`. */
  lemma DiscountAdvance(startStep: seq<bool>, gamma: real, i: nat, d: real)
    requires i + 1 < |startStep| && startStep[0]
    requires d == Pow(gamma, i - LatestStart(startStep, i))
    ensures (if startStep[i + 1] then 1.0 else d * gamma) == Discount(startStep, gamma, i + 1)
  {
    if !startStep[i + 1] {
      var s := LatestStart(startStep, i);
      assert LatestStart(startStep, i + 1) == s;
      assert Pow(gamma, i + 1 - s) == gamma * Pow(gamma, i - s);
    }
  }

  /** The delta of row `i`: the discounted TD error, without the bootstrap
      term on a `last_step` row. */
  function DeltaAt(b: Batch, values: Table, nextValues: Table, gamma: real, n: nat, i: nat): (r: Row)
    requires WellFormed(b, n) && StartsAtBoundary(b) && i < |b.rewards|
    requires IsTable(values, |b.rewards|, n) && IsTable(nextValues, |b.rewards|, n)
    ensures |r| == n
  {
    var target := if b.lastStep[i] then b.rewards[i] else Add(b.rewards[i], Scale(gamma, nextValues[i]));
    Scale(Discount(b.startStep, gamma, i), Sub(target, values[i]))
  }

  function DeltasOf(b: Batch, values: Table, nextValues: Table, gamma: real, n: nat): (r: Table)
    requires WellFormed(b, n) && StartsAtBoundary(b)
    requires IsTable(values, |b.rewards|, n) && IsTable(nextValues, |b.rewards|, n)
    ensures IsTable(r, |b.rewards|, n)
  {
    seq(|b.rewards|, i requires 0 <= i < |b.rewards| => DeltaAt(b, values, nextValues, gamma, n, i))
  }

  /** One iteration of the forward deltas loop: reset `I` to 1 on a
      `start_step` row, write the discounted TD error of row `i`, then
      multiply `I` by gamma. */
  method DeltaStep(b: Batch, values: Table, nextValues: Table, gamma: real, n: nat, i: nat, discount: Option<real>)
    returns (row: Row, next: Option<real>)
    requires WellFormed(b, n) && StartsAtBoundary(b) && i < |b.rewards|
    requires IsTable(values, |b.rewards|, n) && IsTable(nextValues, |b.rewards|, n)
    requires !b.startStep[i] ==> discount == Some(Discount(b.startStep, gamma, i))
    ensures row == DeltaAt(b, values, nextValues, gamma, n, i)
    ensures i + 1 < |b.rewards| && !b.startStep[i + 1] ==> next == Some(Discount(b.startStep, gamma, i + 1))
  {
    var d := if b.startStep[i] then 1.0 else discount.value;
    assert d == Discount(b.startStep, gamma, i);
    if b.lastStep[i] {
      row := Scale(d, Sub(b.rewards[i], values[i]));
    } else {
      row := Scale(d, Sub(Add(b.rewards[i], Scale(gamma, nextValues[i])), values[i]));
    }
    if i + 1 < |b.rewards| {
      DiscountAdvance(b.startStep, gamma, i, d);
    }
    next := Some(d * gamma);
  }

  /** Rows before `i` of `t` hold their deltas. */
  ghost predicate DeltasUpTo(t: Table, b: Batch, values: Table, nextValues: Table, gamma: real, n: nat, i: nat)
    requires WellFormed(b, n) && StartsAtBoundary(b)
    requires IsTable(values, |b.rewards|, n) && IsTable(nextValues, |b.rewards|, n)
  {
    |t| == |b.rewards| && forall k :: 0 <= k < i && k < |t| ==> t[k] == DeltaAt(b, values, nextValues, gamma, n, k)
  }

  lemma DeltasUpToStep(t: Table, b: Batch, values: Table, nextValues: Table, gamma: real, n: nat, i: nat, row: Row)
    requires WellFormed(b, n) && StartsAtBoundary(b) && i < |t|
    requires IsTable(values, |b.rewards|, n) && IsTable(nextValues, |b.rewards|, n)
    requires DeltasUpTo(t, b, values, nextValues, gamma, n, i) && row == DeltaAt(b, values, nextValues, gamma, n, i)
    ensures DeltasUpTo(t[i := row], b, values, nextValues, gamma, n, i + 1)
  {
  }

  /** The forward deltas loop of `ActorCritic.get_loss`: a zero table written
      row by row from the first row, carrying the discount `I`. `order` lists
      the rows in the order they are written: each row once, first row first. */
  method ComputeDeltas(b: Batch, values: Table, nextValues: Table, gamma: real, n: nat)
    returns (deltas: Table, ghost order: seq<nat>)
    requires WellFormed(b, n) && StartsAtBoundary(b)
    requires IsTable(values, |b.rewards|, n) && IsTable(nextValues, |b.rewards|, n)
    ensures IsTable(deltas, |b.rewards|, n)
    ensures forall i :: 0 <= i < |deltas| ==> deltas[i] == DeltaAt(b, values, nextValues, gamma, n, i)
    ensures order == RowsUp(|b.rewards|)
  {
    var table := seq(|values|, _ => Zeros(n));
    order := [];
    var discount: Option<real> := None;
    var i := 0;
    while i < |b.rewards|
      invariant 0 <= i <= |b.rewards|
      invariant order == RowsUp(i)
      invariant i < |b.rewards| && !b.startStep[i] ==> discount == Some(Discount(b.startStep, gamma, i))
      invariant DeltasUpTo(table, b, values, nextValues, gamma, n, i)
    {
      var row;
      row, discount := DeltaStep(b, values, nextValues, gamma, n, i, discount);
      DeltasUpToStep(table, b, values, nextValues, gamma, n, i, row);
      table := table[i := row];
      order := order + [i];
      i := i + 1;
    }
    deltas := table;
    assert DeltasUpTo(deltas, b, values, nextValues, gamma, n, |deltas|);
  }

  // ---------------------------------------------------------------------
  // Loss aggregation
  // ---------------------------------------------------------------------

  datatype LossError =
    | ReturnsShapeMismatch     // `returns.size() != rewards.size()`
    | NextValuesShapeMismatch  // `values.size() != next_values.size()`
    | LogProbShapeMismatch     // `log_prob.size() != advantages.size()`
    | LogitsUnbound            // `log_p_a` returned without being assigned
    | RunningReturnUnbound     // `prev_coop_return` read before any `last_step` row set it
    | DiscountUnbound          // `I` read before any `start_step` row set it

  /** What `get_loss` returns: the action loss, the value loss and the
      discrete action output `log_p_a` (absent in the corrected aggregation
      for continuous actions, where the source never assigns it). */
  datatype LossOutput = LossOutput(actionLoss: real, valueLoss: real, logPA: Option<seq<Table>>)

  /** With every advantage zero, every term of the action loss is zero. */
  lemma ActionTermsZero(advantages: Table, logProb: Table)
    requires SameShape(logProb, advantages) && AllZero(advantages)
    ensures SumTable(TableMul(Negated(advantages), logProb)) == 0.0
  {
    var terms := TableMul(Negated(advantages), logProb);
    assert AllZero(terms) by {
      forall i, k | 0 <= i < |terms| && 0 <= k < |terms[i]| ensures terms[i][k] == 0.0 {
        assert terms[i][k] == Negated(advantages)[i][k] * logProb[i][k];
      }
    }
    SumTableOfZero(terms);
  }

  /** Non-negative advantages against non-positive log-probabilities give
      non-negative terms. */
  lemma ActionTermsNonNegative(advantages: Table, logProb: Table)
    requires SameShape(logProb, advantages)
    requires AllNonNegative(advantages) && AllNonNegative(Negated(logProb))
    ensures SumTable(TableMul(Negated(advantages), logProb)) >= 0.0
  {
    var terms := TableMul(Negated(advantages), logProb);
    assert AllNonNegative(terms) by {
      forall i, k | 0 <= i < |terms| && 0 <= k < |terms[i]| ensures terms[i][k] >= 0.0 {
        var x, y := advantages[i][k], logProb[i][k];
        assert Negated(logProb)[i][k] == -y;
        assert terms[i][k] == -x * y;
        assert -x * y == x * -y;
      }
    }
    SumTableNonNegative(terms);
  }

  /** Dividing by the batch size keeps zero and the sign. */
  lemma BatchMean(total: real, n: real)
    requires n > 0.0
    ensures total == 0.0 ==> total / n == 0.0
    ensures total >= 0.0 ==> total / n >= 0.0
  {
  }

  /** `sum(-advantages * log_prob) / batch_size` */
  function ActionLoss(advantages: Table, logProb: Table): real
    requires |advantages| > 0 && SameShape(logProb, advantages)
  {
    SumTable(TableMul(Negated(advantages), logProb)) / |advantages| as real
  }

  /** The action loss vanishes when every advantage is zero, and is
      non-negative when the advantages are non-negative and the
      log-probabilities are (as they are) non-positive. */
  lemma ActionLossFacts(advantages: Table, logProb: Table)
    requires |advantages| > 0 && SameShape(logProb, advantages)
    ensures AllZero(advantages) ==> ActionLoss(advantages, logProb) == 0.0
    ensures AllNonNegative(advantages) && AllNonNegative(Negated(logProb)) ==> ActionLoss(advantages, logProb) >= 0.0
  {
    var total := SumTable(TableMul(Negated(advantages), logProb));
    var n := |advantages| as real;
    if AllZero(advantages) {
      ActionTermsZero(advantages, logProb);
      BatchMean(total, n);
    }
    if AllNonNegative(advantages) && AllNonNegative(Negated(logProb)) {
      ActionTermsNonNegative(advantages, logProb);
      BatchMean(total, n);
    }
  }

  lemma SquarePositive(x: real)
    requires x != 0.0
    ensures 0.0 < x * x
  {
    if x < 0.0 {
      var y := -x;
      calc {
        0.0;
      <
        y * y;
      ==
        x * x;
      }
    }
  }

  lemma SquaresFacts(deltas: Table)
    ensures AllNonNegative(TableMul(deltas, deltas))
    ensures AllZero(TableMul(deltas, deltas)) <==> AllZero(deltas)
  {
    var squares := TableMul(deltas, deltas);
    forall i, k | 0 <= i < |deltas| && 0 <= k < |deltas[i]|
      ensures squares[i][k] >= 0.0 && (squares[i][k] == 0.0 <==> deltas[i][k] == 0.0)
    {
      var x := deltas[i][k];
      if x == 0.0 {
        calc {
          squares[i][k];
        ==
          x * x;
        ==
          0.0 * 0.0;
        ==
          0.0;
        }
      } else {
        SquarePositive(x);
        calc {
          0.0;
        <
          x * x;
        ==
          squares[i][k];
        }
      }
    }
  }

  /** `sum(deltas ** 2) / batch_size`: never negative, and zero exactly when
      every delta is zero. */
  function ValueLoss(deltas: Table): (r: real)
    requires |deltas| > 0
    ensures r >= 0.0
    ensures r == 0.0 <==> AllZero(deltas)
  {
    var squares := TableMul(deltas, deltas);
    SquaresFacts(deltas);
    SumTableNonNegative(squares);
    SumTable(squares) / (|deltas| as real)
  }

  /** The REINFORCE value loss is zero exactly when every value estimate
      equals its return. */
  lemma ReinforceValueLossZero(discounted: Table, values: Table)
    requires |discounted| > 0 && SameShape(discounted, values)
    ensures ValueLoss(TableSub(discounted, values)) == 0.0 <==> discounted == values
  {
    var d := TableSub(discounted, values);
    if AllZero(d) {
      forall i | 0 <= i < |discounted| ensures discounted[i] == values[i] {
        assert forall k :: 0 <= k < |discounted[i]| ==> d[i][k] == discounted[i][k] - values[i][k];
      }
    }
  }

  /** What the behaviour network hands to `get_loss` besides the values:
      for continuous actions the table `normal_log_density` computes; for
      discrete actions the log-probabilities `log_p_a` and the values
      `multinomials_log_density` computes from them, in row-major order. */
  datatype PolicyOut =
    | ContinuousOut(logProb: Table)
    | DiscreteOut(logPA: seq<Table>, density: Row)

  /** `density.contiguous().view(-1, 1)`: one column, one row per value. */
  function OneColumn(density: Row): (t: Table)
    ensures IsTable(t, |density|, 1)
    ensures forall i :: 0 <= i < |density| ==> t[i] == [density[i]]
  {
    seq(|density|, i requires 0 <= i < |density| => [density[i]])
  }

  lemma RowEnd(i: nat, rows: nat, n: nat)
    requires i < rows
    ensures i * n + n <= rows * n
  {
    var d := rows - i - 1;
    assert rows * n == i * n + n + d * n;
    assert d * n >= 0;
  }

  /** Row `i` of `density.contiguous().view(-1, n)`: values `i * n` to
      `i * n + n - 1`. */
  function RowAt(density: Row, rows: nat, n: nat, i: nat): (row: Row)
    requires |density| == rows * n && i < rows
    ensures |row| == n
  {
    RowEnd(i, rows, n);
    density[i * n .. i * n + n]
  }

  /** `density.contiguous().view(-1, n)` for `rows * n` values: one row per
      batch element, one column per agent. */
  function RowsOf(density: Row, rows: nat, n: nat): (t: Table)
    requires |density| == rows * n
    ensures IsTable(t, rows, n)
    ensures forall i :: 0 <= i < rows ==> t[i] == RowAt(density, rows, n, i)
  {
    seq(rows, i requires 0 <= i < rows => RowAt(density, rows, n, i))
  }

  /** With one agent, the per-agent view is the one-column view. */
  lemma RowsOfOneAgent(density: Row)
    ensures RowsOf(density, |density|, 1) == OneColumn(density)
  {
    var t, c := RowsOf(density, |density|, 1), OneColumn(density);
    forall i | 0 <= i < |density| ensures t[i] == c[i] {
      assert t[i] == density[i .. i + 1];
    }
  }

  /** The `log_prob` table of lines 68 and 71 as written. */
  function LogProbAsWritten(out: PolicyOut): Table {
    match out
    case ContinuousOut(logProb) => logProb
    case DiscreteOut(_, density) => OneColumn(density)
  }

  /** The one-column discrete `log_prob` has the advantages' shape exactly
      when there is one agent and one value per row, and then it is the
      per-agent layout. */
  lemma OneColumnFits(out: PolicyOut, deltas: Table, n: nat)
    requires |deltas| > 0 && IsTable(deltas, |deltas|, n)
    ensures out.DiscreteOut? ==>
              (SameShape(LogProbAsWritten(out), deltas) <==> n == 1 && |out.density| == |deltas|)
    ensures out.DiscreteOut? ==> RowsOf(out.density, |out.density|, 1) == OneColumn(out.density)
  {
    if out.DiscreteOut? {
      var t := OneColumn(out.density);
      if |t| == |deltas| {
        assert |t[0]| == 1 && |deltas[0]| == n;
      }
      RowsOfOneAgent(out.density);
    }
  }

  /** The log-probabilities supply one value per batch row and agent. */
  predicate LogProbFits(out: PolicyOut, rows: nat, n: nat) {
    match out
    case ContinuousOut(logProb) => IsTable(logProb, rows, n)
    case DiscreteOut(_, density) => |density| == rows * n
  }

  /** Loss aggregation shared by REINFORCE and ActorCritic, corrected: the
      discrete log-densities are laid out one column per agent, like the
      advantages, and `log_p_a` is returned only where it exists. It fails
      exactly when the log-probabilities do not supply one value per row
      and agent. */
  /** The log-probabilities in the corrected layout: continuous ones as
      given, discrete densities one column per agent (`view(-1, n)`). */
  function LogProbFor(out: PolicyOut, rows: nat, n: nat): (t: Table)
    requires LogProbFits(out, rows, n)
    ensures IsTable(t, rows, n)
  {
    if out.ContinuousOut? then out.logProb else RowsOf(out.density, rows, n)
  }

  function Aggregate(deltas: Table, out: PolicyOut, n: nat): (r: Result<LossOutput, LossError>)
    requires |deltas| > 0 && IsTable(deltas, |deltas|, n)
    ensures r.Success? <==> LogProbFits(out, |deltas|, n)
    ensures r.Failure? ==> r.error == LogProbShapeMismatch
    ensures r.Success? ==> r.value.valueLoss >= 0.0 && (r.value.valueLoss == 0.0 <==> AllZero(deltas))
    ensures r.Success? && AllZero(deltas) ==> r.value.actionLoss == 0.0
    ensures r.Success? && AllNonNegative(deltas) && AllNonNegative(Negated(LogProbFor(out, |deltas|, n)))
      ==> r.value.actionLoss >= 0.0
    ensures r.Success? ==> (r.value.logPA.Some? <==> out.DiscreteOut?)
  {
    if !LogProbFits(out, |deltas|, n) then Failure(LogProbShapeMismatch)
    else
      var logProb := LogProbFor(out, |deltas|, n);
      var logPA := if out.ContinuousOut? then None else Some(out.logPA);
      ActionLossFacts(deltas, logProb);
      Success(LossOutput(ActionLoss(deltas, logProb), ValueLoss(deltas), logPA))
  }

  /** The aggregation as the source writes it (lines 65-76 and 118-129):
      the discrete log-densities are viewed as one column, so the shape
      assertion fails for every agent count other than one; and `log_p_a`
      is assigned only in the discrete branch but returned in both, so a
      continuous batch that passes the assertion still raises. Wherever it
      succeeds it agrees with the corrected aggregation. */
  function AggregateAsWritten(deltas: Table, out: PolicyOut, n: nat): (r: Result<LossOutput, LossError>)
    requires |deltas| > 0 && IsTable(deltas, |deltas|, n)
    ensures !SameShape(LogProbAsWritten(out), deltas) ==> r == Failure(LogProbShapeMismatch)
    ensures out.ContinuousOut? ==> r.Failure?
    ensures out.ContinuousOut? && SameShape(out.logProb, deltas) ==> r == Failure(LogitsUnbound)
    ensures out.DiscreteOut? && n != 1 ==> r == Failure(LogProbShapeMismatch)
    ensures out.DiscreteOut? && n == 1 ==> (r.Success? <==> |out.density| == |deltas|)
    ensures r.Success? ==> r == Aggregate(deltas, out, n)
  {
    var logProb := LogProbAsWritten(out);
    OneColumnFits(out, deltas, n);
    if !SameShape(logProb, deltas) then Failure(LogProbShapeMismatch)
    else if out.ContinuousOut? then Failure(LogitsUnbound)
    else Success(LossOutput(ActionLoss(deltas, logProb), ValueLoss(deltas), Some(out.logPA)))
  }

  /** A one-row, one-agent continuous batch: the source raises where the
      corrected aggregation returns both losses. */
  lemma ContinuousLogitsUnboundWitness()
    ensures AggregateAsWritten([[1.0]], ContinuousOut([[-0.5]]), 1) == Failure(LogitsUnbound)
    ensures Aggregate([[1.0]], ContinuousOut([[-0.5]]), 1).Success?
  {
  }

  /** A one-row, two-agent discrete batch: the one-column `log_prob` fails
      the shape assertion where the per-agent layout passes. */
  lemma DiscreteColumnWitness()
    ensures AggregateAsWritten([[0.5, 0.5]], DiscreteOut([], [-0.5, -0.5]), 2) == Failure(LogProbShapeMismatch)
    ensures Aggregate([[0.5, 0.5]], DiscreteOut([], [-0.5, -0.5]), 2).Success?
  {
  }

  /** `REINFORCE.get_loss` with the aggregation corrected: it succeeds
      exactly when the rewards have one column per agent, the batch ends an
      episode and the log-probabilities fit; its value loss is zero exactly
      when every value estimate equals its return. */
  function ReinforceLoss(b: Batch, values: Table, out: PolicyOut, gamma: real, n: nat)
    : (r: Result<LossOutput, LossError>)
    requires Aligned(b) && Rectangular(b.rewards) && |b.rewards| > 0
    requires IsTable(values, |b.rewards|, n)
    ensures r.Success? <==> IsTable(b.rewards, |b.rewards|, n) && EndsAtBoundary(b) && LogProbFits(out, |b.rewards|, n)
    ensures r.Success? ==> (r.value.valueLoss == 0.0 <==> ReturnsOf(b, gamma, n) == values)
    ensures r.Success? ==> (r.value.logPA.Some? <==> out.DiscreteOut?)
  {
    if |b.rewards[0]| != n then Failure(ReturnsShapeMismatch)
    else if !b.lastStep[|b.rewards| - 1] then Failure(RunningReturnUnbound)
    else
      var discounted := ReturnsOf(b, gamma, n);
      ReinforceValueLossZero(discounted, values);
      Aggregate(TableSub(discounted, values), out, n)
  }

  /** `ActorCritic.get_loss` with the aggregation corrected: it succeeds
      exactly when the next values have the values' shape, the batch starts
      an episode and the log-probabilities fit; its value loss is zero
      exactly when every TD error is zero. */
  function ActorCriticLoss(b: Batch, values: Table, nextValues: Table, out: PolicyOut, gamma: real, n: nat)
    : (r: Result<LossOutput, LossError>)
    requires WellFormed(b, n) && |b.rewards| > 0
    requires IsTable(values, |b.rewards|, n)
    ensures r.Success? <==> SameShape(values, nextValues) && StartsAtBoundary(b) && LogProbFits(out, |b.rewards|, n)
    ensures r.Success? ==> (r.value.valueLoss == 0.0 <==> AllZero(DeltasOf(b, values, nextValues, gamma, n)))
    ensures r.Success? ==> (r.value.logPA.Some? <==> out.DiscreteOut?)
  {
    if !SameShape(values, nextValues) then Failure(NextValuesShapeMismatch)
    else if !b.startStep[0] then Failure(DiscountUnbound)
    else Aggregate(DeltasOf(b, values, nextValues, gamma, n), out, n)
  }

  /** `REINFORCE.get_loss` as written: shape assertion, backward returns
      loop, then the aggregation with `deltas = returns - values`. Wherever
      it succeeds it agrees with the corrected `ReinforceLoss`. */
  method ReinforceGetLoss(b: Batch, values: Table, out: PolicyOut, gamma: real, n: nat)
    returns (r: Result<LossOutput, LossError>)
    requires Aligned(b) && Rectangular(b.rewards) && |b.rewards| > 0
    requires IsTable(values, |b.rewards|, n)
    ensures !IsTable(b.rewards, |b.rewards|, n) ==> r == Failure(ReturnsShapeMismatch)
    ensures IsTable(b.rewards, |b.rewards|, n) && !b.lastStep[|b.rewards| - 1] ==> r == Failure(RunningReturnUnbound)
    ensures IsTable(b.rewards, |b.rewards|, n) && b.lastStep[|b.rewards| - 1] ==>
      r == AggregateAsWritten(TableSub(ReturnsOf(b, gamma, n), values), out, n)
    ensures r.Success? ==> r == ReinforceLoss(b, values, out, gamma, n)
  {
    if |b.rewards[0]| != n {
      return Failure(ReturnsShapeMismatch);
    }
    if !b.lastStep[|b.rewards| - 1] {
      return Failure(RunningReturnUnbound);
    }
    var discounted, _ := ComputeReturns(b, gamma, n);
    assert discounted == ReturnsOf(b, gamma, n);
    var deltas := TableSub(discounted, values);
    r := AggregateAsWritten(deltas, out, n);
  }

  /** `ActorCritic.get_loss` as written: next-value shape assertion, forward
      deltas loop, then the aggregation. Wherever it succeeds it agrees with
      the corrected `ActorCriticLoss`. */
  method ActorCriticGetLoss(b: Batch, values: Table, nextValues: Table, out: PolicyOut, gamma: real, n: nat)
    returns (r: Result<LossOutput, LossError>)
    requires WellFormed(b, n) && |b.rewards| > 0
    requires IsTable(values, |b.rewards|, n)
    ensures !SameShape(values, nextValues) ==> r == Failure(NextValuesShapeMismatch)
    ensures SameShape(values, nextValues) && !b.startStep[0] ==> r == Failure(DiscountUnbound)
    ensures SameShape(values, nextValues) && b.startStep[0] ==>
      r == AggregateAsWritten(DeltasOf(b, values, nextValues, gamma, n), out, n)
    ensures r.Success? ==> r == ActorCriticLoss(b, values, nextValues, out, gamma, n)
  {
    if !SameShape(values, nextValues) {
      return Failure(NextValuesShapeMismatch);
    }
    if !b.startStep[0] {
      return Failure(DiscountUnbound);
    }
    var deltas, _ := ComputeDeltas(b, values, nextValues, gamma, n);
    assert deltas == DeltasOf(b, values, nextValues, gamma, n);
    r := AggregateAsWritten(deltas, out, n);
  }
}
