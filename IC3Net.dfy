/** The communication-gated recurrent policy (models/ic3net.py): the
    configuration check on the number of communication rounds, the fixed
    self-exclusion mask, one communication round and the policy loop that
    runs the rounds.

    Shapes follow the source: a hidden state is a (batch * agents) x hid
    table, viewed as batch x agents x hid while messages are formed. The
    gate of each round (the rounded sigmoid of a learned map) and the
    recurrent cell are given: the gates as 0/1 values, the cell as a
    function. */
module IC3Net {
  import opened Wrappers
  import opened Tensors

  // ---------------------------------------------------------------------
  // Configuration check
  // ---------------------------------------------------------------------

  datatype ConfigError =
    | CommItersBelowOne      // comm iters must be at least 1
    | UseIndependentIC3Net   // one round: the non-communicating variant
    | UseIC3Net              // more than one round: the communicating variant

  /** `IC3Net.identifier`: accepts two or more rounds; zero is "below one",
      every other value below two is sent to the independent variant. */
  function Identifier(commIters: int): (r: Outcome<ConfigError>)
    ensures r == Pass <==> commIters >= 2
    ensures r == Fail(CommItersBelowOne) <==> commIters == 0
    ensures r == Fail(UseIndependentIC3Net) <==> commIters < 2 && commIters != 0
  {
    if commIters == 0 then Fail(CommItersBelowOne)
    else if commIters < 2 then Fail(UseIndependentIC3Net)
    else Pass
  }

  /** `IndependentIC3Net.identifier` as written: it rejects zero and more
      than one round, so every negative count is accepted. */
  function IndependentIdentifier(commIters: int): (r: Outcome<ConfigError>)
    ensures r == Pass <==> commIters == 1 || commIters < 0
    ensures r == Fail(CommItersBelowOne) <==> commIters == 0
    ensures r == Fail(UseIC3Net) <==> commIters > 1
  {
    if commIters == 0 then Fail(CommItersBelowOne)
    else if commIters > 1 then Fail(UseIC3Net)
    else Pass
  }

  /** The check both variants evidently intend, as one validation with an
      `independent` flag: fewer than one round is always "below one"; the
      independent variant takes exactly one round, IC3Net two or more. */
  function ValidateCommIters(commIters: int, independent: bool): (r: Outcome<ConfigError>)
    ensures r == Pass <==> (if independent then commIters == 1 else commIters >= 2)
    ensures r == Fail(CommItersBelowOne) <==> commIters < 1
  {
    if commIters < 1 then Fail(CommItersBelowOne)
    else if independent && commIters > 1 then Fail(UseIC3Net)
    else if !independent && commIters < 2 then Fail(UseIndependentIC3Net)
    else Pass
  }

  /** On every non-negative count the corrected check gives exactly the
      verdict, and the error, of the source's two identifiers. */
  lemma ValidateAgreesOnNonNegative(commIters: int)
    requires commIters >= 0
    ensures ValidateCommIters(commIters, false) == Identifier(commIters)
    ensures ValidateCommIters(commIters, true) == IndependentIdentifier(commIters)
  {
  }

  /** Under the corrected check every count of at least one round is
      accepted by exactly one of the two variants, and no other count by
      either. */
  lemma VariantsPartition(commIters: int)
    ensures commIters >= 1 ==>
              (ValidateCommIters(commIters, false) == Pass) != (ValidateCommIters(commIters, true) == Pass)
    ensures commIters < 1 ==>
              ValidateCommIters(commIters, false) == Fail(CommItersBelowOne) &&
              ValidateCommIters(commIters, true) == Fail(CommItersBelowOne)
  {
  }

  /** With comm iters = -1, IC3Net sends the caller to IndependentIC3Net,
      which accepts the count; the corrected check rejects it as below one. */
  lemma NegativeCommItersWitness()
    ensures Identifier(-1) == Fail(UseIndependentIC3Net)
    ensures IndependentIdentifier(-1) == Pass
    ensures ValidateCommIters(-1, true) == Fail(CommItersBelowOne)
  {
  }

  // ---------------------------------------------------------------------
  // Communication mask
  // ---------------------------------------------------------------------

  function Ones(n: nat): (t: Table)
    ensures IsTable(t, n, n)
  {
    seq(n, _ => seq(n, _ => 1.0))
  }

  function Eye(n: nat): (t: Table)
    ensures IsTable(t, n, n)
  {
    seq(n, i => seq(n, k => if i == k then 1.0 else 0.0))
  }

  /** `ones(n, n) - eye(n, n)`: zero on the diagonal, one everywhere else,
      so no agent ever receives its own hidden state. */
  function CommMask(n: nat): (m: Table)
    ensures IsTable(m, n, n)
    ensures forall i, k :: 0 <= i < n && 0 <= k < n ==> m[i][k] == if i == k then 0.0 else 1.0
  {
    TableSub(Ones(n), Eye(n))
  }

  /** A model that passed its check: the agent count, the hidden size, the
      number of rounds and the fixed communication mask. */
  datatype Model = Model(n: nat, hid: nat, commIters: nat, commMask: Table)

  /** Construction: the (corrected) round-count check, then `construct_model`. */
  function Construct(n: nat, hid: nat, commIters: int, independent: bool): (r: Result<Model, ConfigError>)
    ensures r.Success? <==> ValidateCommIters(commIters, independent) == Pass
    ensures r.Success? ==> r.value.commIters >= 1 && r.value.commIters == commIters
    ensures r.Success? ==> r.value.commMask == CommMask(n) && r.value.n == n && r.value.hid == hid
    ensures r.Failure? ==> Fail(r.error) == ValidateCommIters(commIters, independent)
  {
    match ValidateCommIters(commIters, independent)
    case Fail(e) => Failure(e)
    case Pass => Success(Model(n, hid, commIters, CommMask(n)))
  }

  // ---------------------------------------------------------------------
  // Shapes and views
  // ---------------------------------------------------------------------

  /** batch x agents x width */
  type Block = seq<Table>

  predicate IsBlock(x: Block, batch: nat, n: nat, width: nat) {
    |x| == batch && forall b :: 0 <= b < batch ==> IsTable(x[b], n, width)
  }

  /** `flat.view(batch, n, width)`: consecutive runs of `n` rows become
      the agents of one batch element. */
  function View(flat: Table, batch: nat, n: nat): (x: Block)
    requires |flat| == batch * n
    ensures |x| == batch
    ensures forall b :: 0 <= b < batch ==> |x[b]| == n
    decreases batch
  {
    if batch == 0 then []
    else
      assert batch * n == n + (batch - 1) * n;
      [flat[..n]] + View(flat[n..], batch - 1, n)
  }

  /** `x.contiguous().view(batch * n, width)`: the agents of every batch
      element laid out one after the other. */
  function Flatten(x: Block): (flat: Table)
  {
    if |x| == 0 then [] else x[0] + Flatten(x[1..])
  }

  lemma {:induction false} FlattenShape(x: Block, batch: nat, n: nat, width: nat)
    requires IsBlock(x, batch, n, width)
    ensures IsTable(Flatten(x), batch * n, width)
    decreases batch
  {
    if batch > 0 {
      FlattenShape(x[1..], batch - 1, n, width);
      assert batch * n == n + (batch - 1) * n;
    }
  }

  lemma {:induction false} ViewShape(flat: Table, batch: nat, n: nat, width: nat)
    requires IsTable(flat, batch * n, width)
    ensures IsBlock(View(flat, batch, n), batch, n, width)
    decreases batch
  {
    if batch > 0 {
      assert batch * n == n + (batch - 1) * n;
      ViewShape(flat[n..], batch - 1, n, width);
    }
  }

  /** Viewing a flattened block gives the block back. */
  lemma {:induction false} ViewOfFlatten(x: Block, batch: nat, n: nat, width: nat)
    requires IsBlock(x, batch, n, width)
    ensures |Flatten(x)| == batch * n
    ensures View(Flatten(x), batch, n) == x
    decreases batch
  {
    FlattenShape(x, batch, n, width);
    if batch > 0 {
      ViewOfFlatten(x[1..], batch - 1, n, width);
      assert Flatten(x)[..n] == x[0];
      assert Flatten(x)[n..] == Flatten(x[1..]);
    }
  }

  /** Flattening a view gives the flat table back. */
  lemma {:induction false} FlattenOfView(flat: Table, batch: nat, n: nat)
    requires |flat| == batch * n
    ensures Flatten(View(flat, batch, n)) == flat
    decreases batch
  {
    if batch > 0 {
      assert batch * n == n + (batch - 1) * n;
      FlattenOfView(flat[n..], batch - 1, n);
      assert View(flat, batch, n)[1..] == View(flat[n..], batch - 1, n);
      assert flat == flat[..n] + flat[n..];
    }
  }

  // ---------------------------------------------------------------------
  // Gates
  // ---------------------------------------------------------------------

  /** `torch.round` on a value in [0, 1]: ties go to the even integer, so
      exactly one half rounds down. */
  function RoundUnit(x: real): (r: real)
    requires 0.0 <= x <= 1.0
    ensures r == 0.0 || r == 1.0
    ensures r == 1.0 <==> x > 0.5
  {
    if x > 0.5 then 1.0 else 0.0
  }

  predicate IsUnitTable(p: Table, n: nat) {
    IsTable(p, n, n) && forall i, k :: 0 <= i < n && 0 <= k < n ==> 0.0 <= p[i][k] <= 1.0
  }

  /** One batch element's gate: `round((ones - eye) * sigmoid(...))`, for
      given sigmoid outputs `prob`. */
  function GateOf(prob: Table, n: nat): (g: Table)
    requires IsUnitTable(prob, n)
    ensures IsTable(g, n, n)
    ensures forall i, k :: 0 <= i < n && 0 <= k < n ==>
              (g[i][k] == 0.0 || g[i][k] == 1.0) &&
              (g[i][k] == 1.0 <==> i != k && prob[i][k] > 0.5)
  {
    var mask := CommMask(n);
    seq(n, i requires 0 <= i < n =>
      seq(n, k requires 0 <= k < n => GateEntry(mask[i][k], prob[i][k])))
  }

  /** One gate entry: a mask entry times a probability, rounded. */
  function GateEntry(m: real, p: real): (g: real)
    requires (m == 0.0 || m == 1.0) && 0.0 <= p <= 1.0
    ensures g == 0.0 || g == 1.0
    ensures g == 1.0 <==> m == 1.0 && p > 0.5
  {
    RoundUnit(m * p)
  }

  predicate IsUnitBlock(p: Block, batch: nat, n: nat) {
    |p| == batch && forall b :: 0 <= b < batch ==> IsUnitTable(p[b], n)
  }

  function BatchGate(prob: Block, batch: nat, n: nat): (g: Block)
    requires IsUnitBlock(prob, batch, n)
    ensures IsBlock(g, batch, n, n)
    ensures forall b :: 0 <= b < batch ==> g[b] == GateOf(prob[b], n)
  {
    seq(batch, b requires 0 <= b < batch => GateOf(prob[b], n))
  }

  // ---------------------------------------------------------------------
  // One communication round
  // ---------------------------------------------------------------------

  function Ind(b: bool): real {
    if b then 1.0 else 0.0
  }

  /** `num_agents_alive`, taken to be the number of live agents. */
  function NumAlive(alive: seq<bool>): (r: nat)
    ensures r <= |alive|
  {
    if |alive| == 0 then 0
    else NumAlive(alive[..|alive| - 1]) + (if alive[|alive| - 1] then 1 else 0)
  }

  /** The shapes of one batch element during a round. */
  predicate Shaped(h: Table, gate: Table, mask: Table, alive: seq<bool>, hid: nat) {
    IsTable(h, |alive|, hid) && IsTable(gate, |alive|, |alive|) && IsTable(mask, |alive|, |alive|)
  }

  /** The factor with which sender `i`'s hidden state reaches receiver `k`:
      the gate, the communication mask and both agents' alive flags. */
  function Weight(gate: Table, mask: Table, alive: seq<bool>, i: nat, k: nat): real
    requires i < |alive| && k < |alive|
    requires IsTable(gate, |alive|, |alive|) && IsTable(mask, |alive|, |alive|)
  {
    gate[i][k] * mask[i][k] * Ind(alive[i]) * Ind(alive[k])
  }

  /** What `i` sends to `k`: its weighted hidden state, divided by the
      number of other live agents when more than one agent is alive. */
  function Message(h: Table, gate: Table, mask: Table, alive: seq<bool>, hid: nat, i: nat, k: nat): (msg: Row)
    requires Shaped(h, gate, mask, alive, hid) && i < |alive| && k < |alive|
    ensures |msg| == hid
  {
    var raw := Scale(Weight(gate, mask, alive, i, k), h[i]);
    var alive := NumAlive(alive);
    if alive > 1 then Scale(1.0 / (alive - 1) as real, raw) else raw
  }

  /** The sum of the messages from senders `0 .. upto - 1` to `k`. */
  function Incoming(h: Table, gate: Table, mask: Table, alive: seq<bool>, hid: nat, k: nat, upto: nat): (c: Row)
    requires Shaped(h, gate, mask, alive, hid) && k < |alive| && upto <= |alive|
    ensures |c| == hid
    decreases upto
  {
    if upto == 0 then Zeros(hid)
    else Add(Incoming(h, gate, mask, alive, hid, k, upto - 1), Message(h, gate, mask, alive, hid, upto - 1, k))
  }

  /** `c = h_.sum(dim=1)` for one batch element: the communication vector
      of every receiver. */
  function Communicate(h: Table, gate: Table, mask: Table, alive: seq<bool>, hid: nat): (c: Table)
    requires Shaped(h, gate, mask, alive, hid)
    ensures IsTable(c, |alive|, hid)
    ensures forall k :: 0 <= k < |alive| ==> c[k] == Incoming(h, gate, mask, alive, hid, k, |alive|)
  {
    seq(|alive|, k requires 0 <= k < |alive| => Incoming(h, gate, mask, alive, hid, k, |alive|))
  }

  /** The communication vectors of a whole batch; every batch element
      shares the one alive vector. */
  function CommRound(h: Block, gate: Block, mask: Table, alive: seq<bool>, batch: nat, hid: nat): (c: Block)
    requires IsBlock(h, batch, |alive|, hid) && IsBlock(gate, batch, |alive|, |alive|)
    requires IsTable(mask, |alive|, |alive|)
    ensures IsBlock(c, batch, |alive|, hid)
    ensures forall b :: 0 <= b < batch ==> c[b] == Communicate(h[b], gate[b], mask, alive, hid)
  {
    seq(batch, b requires 0 <= b < batch => Communicate(h[b], gate[b], mask, alive, hid))
  }

  // ---------------------------------------------------------------------
  // Properties of a round
  // ---------------------------------------------------------------------

  lemma ScaleZeros(c: real, n: nat)
    ensures Scale(c, Zeros(n)) == Zeros(n)
  {
  }

  /** A sender whose weight towards `k` is zero has no influence on what `k`
      hears: replacing its hidden state changes nothing. */
  lemma {:induction false} SilentSenderIrrelevant(h: Table, gate: Table, mask: Table, alive: seq<bool>, hid: nat,
                                                  i: nat, v: Row, k: nat, upto: nat)
    requires Shaped(h, gate, mask, alive, hid) && i < |alive| && k < |alive| && upto <= |alive|
    requires |v| == hid && Weight(gate, mask, alive, i, k) == 0.0
    ensures Shaped(h[i := v], gate, mask, alive, hid)
    ensures Incoming(h[i := v], gate, mask, alive, hid, k, upto) == Incoming(h, gate, mask, alive, hid, k, upto)
    decreases upto
  {
    var h' := h[i := v];
    if upto > 0 {
      SilentSenderIrrelevant(h, gate, mask, alive, hid, i, v, k, upto - 1);
      var j := upto - 1;
      if j == i {
        var w := Weight(gate, mask, alive, i, k);
        assert Scale(w, v) == Zeros(hid);
        assert Scale(w, h[i]) == Zeros(hid);
        if NumAlive(alive) > 1 {
          ScaleZeros(1.0 / (NumAlive(alive) - 1) as real, hid);
        }
      }
      assert Message(h', gate, mask, alive, hid, j, k) == Message(h, gate, mask, alive, hid, j, k);
    }
  }

  /** Every receiver hears nothing of its own hidden state. */
  lemma OwnStateExcluded(h: Table, gate: Table, alive: seq<bool>, hid: nat, k: nat, v: Row)
    requires Shaped(h, gate, CommMask(|alive|), alive, hid) && k < |alive| && |v| == hid
    ensures Shaped(h[k := v], gate, CommMask(|alive|), alive, hid)
    ensures Incoming(h[k := v], gate, CommMask(|alive|), alive, hid, k, |alive|)
         == Incoming(h, gate, CommMask(|alive|), alive, hid, k, |alive|)
  {
    SilentSenderIrrelevant(h, gate, CommMask(|alive|), alive, hid, k, v, k, |alive|);
  }

  /** A dead agent's hidden state reaches nobody. */
  lemma DeadSenderSilent(h: Table, gate: Table, mask: Table, alive: seq<bool>, hid: nat, i: nat, v: Row)
    requires Shaped(h, gate, mask, alive, hid) && i < |alive| && !alive[i] && |v| == hid
    ensures Shaped(h[i := v], gate, mask, alive, hid)
    ensures Communicate(h[i := v], gate, mask, alive, hid) == Communicate(h, gate, mask, alive, hid)
  {
    forall k | 0 <= k < |alive|
      ensures Incoming(h[i := v], gate, mask, alive, hid, k, |alive|) == Incoming(h, gate, mask, alive, hid, k, |alive|)
    {
      SilentSenderIrrelevant(h, gate, mask, alive, hid, i, v, k, |alive|);
    }
  }

  /** A receiver that every sender reaches with weight zero hears the zero
      vector. */
  lemma {:induction false} NoSenderNoMessage(h: Table, gate: Table, mask: Table, alive: seq<bool>, hid: nat,
                                             k: nat, upto: nat)
    requires Shaped(h, gate, mask, alive, hid) && k < |alive| && upto <= |alive|
    requires forall i :: 0 <= i < upto ==> Weight(gate, mask, alive, i, k) == 0.0
    ensures Incoming(h, gate, mask, alive, hid, k, upto) == Zeros(hid)
    decreases upto
  {
    if upto > 0 {
      NoSenderNoMessage(h, gate, mask, alive, hid, k, upto - 1);
      var j := upto - 1;
      assert Scale(Weight(gate, mask, alive, j, k), h[j]) == Zeros(hid);
      if NumAlive(alive) > 1 {
        ScaleZeros(1.0 / (NumAlive(alive) - 1) as real, hid);
      }
      assert Message(h, gate, mask, alive, hid, j, k) == Zeros(hid);
    }
  }

  /** A dead receiver hears the zero vector. */
  lemma DeadReceiverHearsNothing(h: Table, gate: Table, mask: Table, alive: seq<bool>, hid: nat, k: nat)
    requires Shaped(h, gate, mask, alive, hid) && k < |alive| && !alive[k]
    ensures Communicate(h, gate, mask, alive, hid)[k] == Zeros(hid)
  {
    NoSenderNoMessage(h, gate, mask, alive, hid, k, |alive|);
  }

  lemma {:induction false} AtMostOneAlive(alive: seq<bool>, i: nat, k: nat)
    requires i < |alive| && k < |alive| && alive[i] && alive[k] && i != k
    ensures NumAlive(alive) >= 2
  {
    var m := |alive| - 1;
    if i == m {
      AliveCounted(alive[..m], k);
    } else if k == m {
      AliveCounted(alive[..m], i);
    } else {
      AtMostOneAlive(alive[..m], i, k);
    }
  }

  lemma {:induction false} AliveCounted(alive: seq<bool>, i: nat)
    requires i < |alive| && alive[i]
    ensures NumAlive(alive) >= 1
  {
    var m := |alive| - 1;
    if i < m {
      AliveCounted(alive[..m], i);
    }
  }

  /** With at most one agent alive every communication vector is zero. */
  lemma LoneSurvivorHearsNothing(h: Table, gate: Table, alive: seq<bool>, hid: nat)
    requires Shaped(h, gate, CommMask(|alive|), alive, hid) && NumAlive(alive) <= 1
    ensures forall k :: 0 <= k < |alive| ==> Communicate(h, gate, CommMask(|alive|), alive, hid)[k] == Zeros(hid)
  {
    var mask := CommMask(|alive|);
    forall k | 0 <= k < |alive|
      ensures Incoming(h, gate, mask, alive, hid, k, |alive|) == Zeros(hid)
    {
      forall i | 0 <= i < |alive|
        ensures Weight(gate, mask, alive, i, k) == 0.0
      {
        if i != k && alive[i] && alive[k] {
          AtMostOneAlive(alive, i, k);
        }
      }
      NoSenderNoMessage(h, gate, mask, alive, hid, k, |alive|);
    }
  }

  /** With exactly two agents alive the divisor `num_agents_alive - 1` is
      one: a message is the weighted hidden state itself. */
  lemma TwoAliveUndivided(h: Table, gate: Table, mask: Table, alive: seq<bool>, hid: nat, i: nat, k: nat)
    requires Shaped(h, gate, mask, alive, hid) && i < |alive| && k < |alive| && NumAlive(alive) == 2
    ensures Message(h, gate, mask, alive, hid, i, k) == Scale(Weight(gate, mask, alive, i, k), h[i])
  {
    var raw := Scale(Weight(gate, mask, alive, i, k), h[i]);
    assert 1.0 / (NumAlive(alive) - 1) as real == 1.0;
    assert Scale(1.0, raw) == raw;
  }

  /** The sum of the hidden states of senders `0 .. upto - 1` other than `k`. */
  function SumOthers(h: Table, hid: nat, k: nat, upto: nat): (s: Row)
    requires IsTable(h, |h|, hid) && upto <= |h|
    ensures |s| == hid
    decreases upto
  {
    if upto == 0 then Zeros(hid)
    else Add(SumOthers(h, hid, k, upto - 1), if upto - 1 == k then Zeros(hid) else h[upto - 1])
  }

  lemma {:induction false} AllAliveCount(alive: seq<bool>)
    requires forall i :: 0 <= i < |alive| ==> alive[i]
    ensures NumAlive(alive) == |alive|
  {
    if |alive| > 0 {
      AllAliveCount(alive[..|alive| - 1]);
    }
  }

  lemma ScaleAdd(c: real, u: Row, v: Row)
    requires |u| == |v|
    ensures Scale(c, Add(u, v)) == Add(Scale(c, u), Scale(c, v))
  {
    forall t | 0 <= t < |u|
      ensures Scale(c, Add(u, v))[t] == Add(Scale(c, u), Scale(c, v))[t]
    {
      calc {
        Scale(c, Add(u, v))[t];
        c * (u[t] + v[t]);
        c * u[t] + c * v[t];
      }
    }
  }

  /** With every agent alive and every gate towards `k` open, `k` receives
      the mean of the other agents' hidden states. */
  lemma {:induction false} OpenGatesAverage(h: Table, gate: Table, alive: seq<bool>, hid: nat, k: nat, upto: nat)
    requires Shaped(h, gate, CommMask(|alive|), alive, hid) && k < |alive| && upto <= |alive|
    requires |alive| >= 2 && forall i :: 0 <= i < |alive| ==> alive[i]
    requires forall i :: 0 <= i < |alive| && i != k ==> gate[i][k] == 1.0
    ensures Incoming(h, gate, CommMask(|alive|), alive, hid, k, upto)
         == Scale(1.0 / (|alive| - 1) as real, SumOthers(h, hid, k, upto))
    decreases upto
  {
    var n := |alive|;
    var c := 1.0 / (n - 1) as real;
    var mask := CommMask(n);
    if upto == 0 {
      ScaleZeros(c, hid);
    } else {
      OpenGatesAverage(h, gate, alive, hid, k, upto - 1);
      AllAliveCount(alive);
      var j := upto - 1;
      var x := if j == k then Zeros(hid) else h[j];
      if j == k {
        assert Scale(Weight(gate, mask, alive, j, k), h[j]) == Zeros(hid);
        ScaleZeros(c, hid);
      } else {
        assert Weight(gate, mask, alive, j, k) == 1.0;
        assert Scale(1.0, h[j]) == h[j];
      }
      assert Message(h, gate, mask, alive, hid, j, k) == Scale(c, x);
      ScaleAdd(c, SumOthers(h, hid, k, j), x);
    }
  }

  /** The communication vector of `k` when everyone is alive and every gate
      towards `k` is open. */
  lemma OpenGatesMean(h: Table, gate: Table, alive: seq<bool>, hid: nat, k: nat)
    requires Shaped(h, gate, CommMask(|alive|), alive, hid) && k < |alive|
    requires |alive| >= 2 && forall i :: 0 <= i < |alive| ==> alive[i]
    requires forall i :: 0 <= i < |alive| && i != k ==> gate[i][k] == 1.0
    ensures Communicate(h, gate, CommMask(|alive|), alive, hid)[k]
         == Scale(1.0 / (|alive| - 1) as real, SumOthers(h, hid, k, |alive|))
  {
    OpenGatesAverage(h, gate, alive, hid, k, |alive|);
  }

  // ---------------------------------------------------------------------
  // The policy loop
  // ---------------------------------------------------------------------

  function ZeroTable(rows: nat, cols: nat): (t: Table)
    ensures IsTable(t, rows, cols) && AllZero(t)
  {
    seq(rows, _ => Zeros(cols))
  }

  /** `init_hidden`: the hidden and the cell state start as all-zero
      (batch * n) x hid tables. */
  function InitHidden(batch: nat, n: nat, hid: nat): (r: (Table, Table))
    ensures IsTable(r.0, batch * n, hid) && AllZero(r.0)
    ensures IsTable(r.1, batch * n, hid) && AllZero(r.1)
  {
    (ZeroTable(batch * n, hid), ZeroTable(batch * n, hid))
  }

  function BlockAdd(x: Block, y: Block, batch: nat, n: nat, width: nat): (z: Block)
    requires IsBlock(x, batch, n, width) && IsBlock(y, batch, n, width)
    ensures IsBlock(z, batch, n, width)
    ensures forall b, a :: 0 <= b < batch && 0 <= a < n ==> z[b][a] == Add(x[b][a], y[b][a])
  {
    seq(batch, b requires 0 <= b < batch =>
      seq(n, a requires 0 <= a < n => Add(x[b][a], y[b][a])))
  }

  /** The recurrent cell (an LSTM cell in the source) maps an input, a
      hidden and a cell state to the next hidden and cell state. */
  type Cell = (Table, Table, Table) -> (Table, Table)

  ghost predicate KeepsShape(cell: Cell, rows: nat, hid: nat) {
    forall x: Table, h: Table, c: Table ::
      IsTable(x, rows, hid) && IsTable(h, rows, hid) && IsTable(c, rows, hid) ==>
        IsTable(cell(x, h, c).0, rows, hid) && IsTable(cell(x, h, c).1, rows, hid)
  }

  /** Everything one forward pass of the policy is given: the model, the
      batch size, the encoded observations `e`, the alive flags, the
      sigmoid outputs of the gate of every round and the recurrent cell. */
  ghost predicate PolicyInputs(m: Model, batch: nat, e: Block, alive: seq<bool>, prob: seq<Block>, cell: Cell) {
    m.commMask == CommMask(m.n) && |alive| == m.n &&
    IsBlock(e, batch, m.n, m.hid) &&
    |prob| == m.commIters && (forall r :: 0 <= r < |prob| ==> IsUnitBlock(prob[r], batch, m.n)) &&
    KeepsShape(cell, batch * m.n, m.hid)
  }

  /** Round `r` of the loop: view the flat hidden state, gate, communicate,
      add the encoded observation, flatten and step the cell. */
  function RoundStep(m: Model, batch: nat, e: Block, alive: seq<bool>, prob: seq<Block>, cell: Cell,
                     r: nat, state: (Table, Table)): (next: (Table, Table))
    requires PolicyInputs(m, batch, e, alive, prob, cell) && r < m.commIters
    requires IsTable(state.0, batch * m.n, m.hid) && IsTable(state.1, batch * m.n, m.hid)
    ensures IsTable(next.0, batch * m.n, m.hid) && IsTable(next.1, batch * m.n, m.hid)
  {
    ViewShape(state.0, batch, m.n, m.hid);
    var h := View(state.0, batch, m.n);
    var gate := BatchGate(prob[r], batch, m.n);
    var c := CommRound(h, gate, m.commMask, alive, batch, m.hid);
    var inp := BlockAdd(e, c, batch, m.n, m.hid);
    FlattenShape(inp, batch, m.n, m.hid);
    cell(Flatten(inp), state.0, state.1)
  }

  /** The hidden and cell state after the first `r` rounds. */
  function Rounds(m: Model, batch: nat, e: Block, alive: seq<bool>, prob: seq<Block>, cell: Cell, r: nat): (state: (Table, Table))
    requires PolicyInputs(m, batch, e, alive, prob, cell) && r <= m.commIters
    ensures IsTable(state.0, batch * m.n, m.hid) && IsTable(state.1, batch * m.n, m.hid)
    ensures r == 0 ==> state == InitHidden(batch, m.n, m.hid)
  {
    if r == 0 then InitHidden(batch, m.n, m.hid)
    else RoundStep(m, batch, e, alive, prob, cell, r - 1, Rounds(m, batch, e, alive, prob, cell, r - 1))
  }

  /** The communication part of `IC3Net.policy`: exactly `comm_iters`
      rounds from the zero state; the result is the final hidden state
      viewed as batch x agents x hid (the input of the action head), and
      with a batch of one the gate of the last round is reported. */
  method Policy(m: Model, batch: nat, e: Block, alive: seq<bool>, prob: seq<Block>, cell: Cell)
    returns (h: Block, commGate: Option<Block>)
    requires PolicyInputs(m, batch, e, alive, prob, cell)
    requires batch == 1 ==> m.commIters >= 1
    ensures IsBlock(h, batch, m.n, m.hid)
    ensures h == View(Rounds(m, batch, e, alive, prob, cell, m.commIters).0, batch, m.n)
    ensures commGate.Some? <==> batch == 1
    ensures commGate.Some? ==> commGate.value == BatchGate(prob[m.commIters - 1], batch, m.n)
  {
    var state := InitHidden(batch, m.n, m.hid);
    var lastGate: Option<Block> := None;
    var r := 0;
    while r < m.commIters
      invariant 0 <= r <= m.commIters
      invariant state == Rounds(m, batch, e, alive, prob, cell, r)
      invariant lastGate.Some? <==> r > 0
      invariant r > 0 ==> lastGate == Some(BatchGate(prob[r - 1], batch, m.n))
    {
      ViewShape(state.0, batch, m.n, m.hid);
      var h' := View(state.0, batch, m.n);
      var gate := BatchGate(prob[r], batch, m.n);
      var c := CommRound(h', gate, m.commMask, alive, batch, m.hid);
      var inp := BlockAdd(e, c, batch, m.n, m.hid);
      FlattenShape(inp, batch, m.n, m.hid);
      state := cell(Flatten(inp), state.0, state.1);
      lastGate := Some(gate);
      r := r + 1;
    }
    ViewShape(state.0, batch, m.n, m.hid);
    h := View(state.0, batch, m.n);
    if batch == 1 {
      commGate := Some(lastGate.value);
    } else {
      commGate := None;
    }
  }
}
