/** The trainers' bookkeeping (utilities/trainer.py).

    `PGTrainer` runs, per agent, a backward pass on that agent's loss and
    keeps a copy of the agent optimizer's parameter list; it then replays
    the lists to the optimizers in agent order. The gradient computation
    and the optimizers are foreign (PyTorch), so the model records the
    calls the trainer makes as events on a `trace`, with the losses passed
    to `backward` and the identity of the parameter list each optimizer
    takes its gradients from.

    `QTrainer.train_online` is one episode of interaction: it counts steps
    and episodes, keeps a running mean of the per-step mean reward, stores
    transitions in the replay buffer and triggers behaviour and target
    updates. */
module Trainer {
  import opened Tensors

  // ---------------------------------------------------------------------
  // Gradient clipping
  // ---------------------------------------------------------------------

  /** `clamp_(-1, 1)` on one element. */
  function Clamp(x: real): real {
    if x < -1.0 then -1.0 else if x > 1.0 then 1.0 else x
  }

  /** Every element clamped into [-1, 1]: elements in range are kept, the
      others go to the nearer bound. */
  function ClampAll(v: seq<real>): (r: seq<real>)
    ensures |r| == |v|
    ensures forall k :: 0 <= k < |v| ==> -1.0 <= r[k] <= 1.0
    ensures forall k :: 0 <= k < |v| && -1.0 <= v[k] <= 1.0 ==> r[k] == v[k]
    ensures forall k :: 0 <= k < |v| && v[k] < -1.0 ==> r[k] == -1.0
    ensures forall k :: 0 <= k < |v| && v[k] > 1.0 ==> r[k] == 1.0
  {
    seq(|v|, k requires 0 <= k < |v| => Clamp(v[k]))
  }

  /** Clipping twice is clipping once. */
  lemma ClampAllIdempotent(v: seq<real>)
    ensures ClampAll(ClampAll(v)) == ClampAll(v)
  {
  }

  /** `param.grad.data.clamp_(-1, 1)`: clamps one gradient in place. */
  method ClampInPlace(g: array<real>)
    modifies g
    ensures g[..] == ClampAll(old(g[..]))
  {
    var k := 0;
    while k < g.Length
      invariant 0 <= k <= g.Length
      invariant g[..k] == ClampAll(old(g[..]))[..k]
      invariant g[k..] == old(g[k..])
    {
      g[k] := Clamp(g[k]);
      k := k + 1;
    }
  }

  /** `grad_clip`: clamps the gradient of every parameter in place. The
      gradients are distinct tensors. */
  method GradClip(grads: seq<array<real>>)
    requires forall p, q :: 0 <= p < q < |grads| ==> grads[p] != grads[q]
    modifies set p | 0 <= p < |grads| :: grads[p]
    ensures forall p :: 0 <= p < |grads| ==> grads[p][..] == ClampAll(old(grads[p][..]))
  {
    var p := 0;
    while p < |grads|
      invariant 0 <= p <= |grads|
      invariant forall q :: 0 <= q < p ==> grads[q][..] == ClampAll(old(grads[q][..]))
      invariant forall q :: p <= q < |grads| ==> grads[q][..] == old(grads[q][..])
    {
      ClampInPlace(grads[p]);
      p := p + 1;
    }
  }

  // ---------------------------------------------------------------------
  // PGTrainer: per-agent backward passes, snapshot and replay
  // ---------------------------------------------------------------------

  datatype Head = ActionHead | ValueHead

  /** A call the trainer makes into the autodiff and optimizer library.
      `AssignGrads(h, j, s)` is the loop that sets the gradients of
      optimizer `j`'s parameters from the parameter list copied right
      after agent `s`'s backward pass. */
  datatype Event =
    | ZeroGrad(head: Head, optimizer: nat)
    | Backward(head: Head, agent: nat, retainGraph: bool, loss: real)
    | AssignGrads(head: Head, optimizer: nat, snapshot: nat)
    | ClipGrads(head: Head, optimizer: nat)
    | Step(head: Head, optimizer: nat)

  /** `retain_graph = False if i == agent_num - 1 else True` */
  function RetainGraph(i: nat, agentNum: nat): bool {
    i != agentNum - 1
  }

  /** The events of the first loop for agents `0 .. upto - 1`. */
  function BackwardPhase(head: Head, losses: seq<real>, upto: nat): seq<Event>
    requires upto <= |losses|
  {
    if upto == 0 then []
    else
      var i := upto - 1;
      BackwardPhase(head, losses, i) + [ZeroGrad(head, i), Backward(head, i, RetainGraph(i, |losses|), losses[i])]
  }

  /** What one pass of the second loop does for optimizer `j`, given the
      list it pops. */
  function ReplayEvents(head: Head, j: nat, snapshot: nat, clip: bool): seq<Event> {
    [AssignGrads(head, j, snapshot)] + (if clip then [ClipGrads(head, j)] else []) + [Step(head, j)]
  }

  /** The events of the second loop for optimizers `0 .. upto - 1` when
      every optimizer pops the list of its own agent. */
  function ReplayPhase(head: Head, clip: bool, upto: nat): seq<Event> {
    if upto == 0 then [] else ReplayPhase(head, clip, upto - 1) + ReplayEvents(head, upto - 1, upto - 1, clip)
  }

  /** The calls of one transition process, one loss per agent. */
  function ProtocolTrace(head: Head, losses: seq<real>, clip: bool): seq<Event> {
    BackwardPhase(head, losses, |losses|) + ReplayPhase(head, clip, |losses|)
  }

  /** The first loop: for each agent in turn, its optimizer is zeroed and
      then its loss runs backward, keeping the graph unless it is the last
      agent's. */
  lemma {:induction false} BackwardPhaseCalls(head: Head, losses: seq<real>, upto: nat)
    requires upto <= |losses|
    ensures |BackwardPhase(head, losses, upto)| == 2 * upto
    ensures forall i :: 0 <= i < upto ==>
              BackwardPhase(head, losses, upto)[2 * i] == ZeroGrad(head, i) &&
              BackwardPhase(head, losses, upto)[2 * i + 1] == Backward(head, i, i != |losses| - 1, losses[i])
  {
    if upto > 0 {
      var prev := BackwardPhase(head, losses, upto - 1);
      BackwardPhaseCalls(head, losses, upto - 1);
      var t := BackwardPhase(head, losses, upto);
      assert t == prev + [ZeroGrad(head, upto - 1), Backward(head, upto - 1, upto - 1 != |losses| - 1, losses[upto - 1])];
      forall i | 0 <= i < upto - 1
        ensures t[2 * i] == ZeroGrad(head, i) && t[2 * i + 1] == Backward(head, i, i != |losses| - 1, losses[i])
      {
        assert t[2 * i] == prev[2 * i] && t[2 * i + 1] == prev[2 * i + 1];
      }
    }
  }

  /** The second loop with clipping on: for each optimizer in turn, it
      takes the gradients of its own agent's list, clips them, and steps. */
  lemma {:induction false} ClippedReplayCalls(head: Head, upto: nat)
    ensures |ReplayPhase(head, true, upto)| == 3 * upto
    ensures forall j :: 0 <= j < upto ==>
              ReplayPhase(head, true, upto)[3 * j] == AssignGrads(head, j, j) &&
              ReplayPhase(head, true, upto)[3 * j + 1] == ClipGrads(head, j) &&
              ReplayPhase(head, true, upto)[3 * j + 2] == Step(head, j)
  {
    if upto > 0 {
      var k := upto - 1;
      var prev := ReplayPhase(head, true, k);
      ClippedReplayCalls(head, k);
      var t := ReplayPhase(head, true, upto);
      assert ReplayEvents(head, k, k, true) == [AssignGrads(head, k, k), ClipGrads(head, k), Step(head, k)];
      assert t == prev + [AssignGrads(head, k, k), ClipGrads(head, k), Step(head, k)];
      forall j | 0 <= j < k
        ensures t[3 * j] == AssignGrads(head, j, j) && t[3 * j + 1] == ClipGrads(head, j) && t[3 * j + 2] == Step(head, j)
      {
        assert t[3 * j] == prev[3 * j] && t[3 * j + 1] == prev[3 * j + 1] && t[3 * j + 2] == prev[3 * j + 2];
      }
    }
  }

  /** The second loop with clipping off: for each optimizer in turn, it
      takes the gradients of its own agent's list and steps. */
  lemma {:induction false} UnclippedReplayCalls(head: Head, upto: nat)
    ensures |ReplayPhase(head, false, upto)| == 2 * upto
    ensures forall j :: 0 <= j < upto ==>
              ReplayPhase(head, false, upto)[2 * j] == AssignGrads(head, j, j) &&
              ReplayPhase(head, false, upto)[2 * j + 1] == Step(head, j)
  {
    if upto > 0 {
      var k := upto - 1;
      var prev := ReplayPhase(head, false, k);
      UnclippedReplayCalls(head, k);
      var t := ReplayPhase(head, false, upto);
      assert ReplayEvents(head, k, k, false) == [AssignGrads(head, k, k), Step(head, k)];
      assert t == prev + [AssignGrads(head, k, k), Step(head, k)];
      forall j | 0 <= j < k
        ensures t[2 * j] == AssignGrads(head, j, j) && t[2 * j + 1] == Step(head, j)
      {
        assert t[2 * j] == prev[2 * j] && t[2 * j + 1] == prev[2 * j + 1];
      }
    }
  }

  /** The calls of one transition process over `n` agents, in full: the
      `n` zero/backward pairs in agent order, only the last backward pass
      releasing the graph; then per optimizer, in agent order, the
      gradients of the list copied after its own agent's backward pass,
      clipping exactly when configured, and one step. So every optimizer
      is zeroed once and stepped once per call. */
  lemma ProtocolOrder(head: Head, losses: seq<real>, clip: bool, t: seq<Event>)
    requires t == ProtocolTrace(head, losses, clip)
    ensures |t| == (if clip then 5 * |losses| else 4 * |losses|)
    ensures forall i :: 0 <= i < |losses| ==>
              t[2 * i] == ZeroGrad(head, i) && t[2 * i + 1] == Backward(head, i, i != |losses| - 1, losses[i])
    ensures clip ==> forall j :: 0 <= j < |losses| ==>
              t[2 * |losses| + 3 * j] == AssignGrads(head, j, j) &&
              t[2 * |losses| + 3 * j + 1] == ClipGrads(head, j) &&
              t[2 * |losses| + 3 * j + 2] == Step(head, j)
    ensures !clip ==> forall j :: 0 <= j < |losses| ==>
              t[2 * |losses| + 2 * j] == AssignGrads(head, j, j) && t[2 * |losses| + 2 * j + 1] == Step(head, j)
  {
    var n := |losses|;
    var back, replay := BackwardPhase(head, losses, n), ReplayPhase(head, clip, n);
    assert t == back + replay;
    BackwardPhaseCalls(head, losses, n);
    BackwardPrefix(back, replay, head, losses);
    if clip {
      ClippedReplayCalls(head, n);
      ClippedSuffix(back, replay, head, n);
    } else {
      UnclippedReplayCalls(head, n);
      UnclippedSuffix(back, replay, head, n);
    }
  }

  lemma BackwardPrefix(back: seq<Event>, replay: seq<Event>, head: Head, losses: seq<real>)
    requires |back| == 2 * |losses|
    requires forall i :: 0 <= i < |losses| ==>
               back[2 * i] == ZeroGrad(head, i) && back[2 * i + 1] == Backward(head, i, i != |losses| - 1, losses[i])
    ensures forall i :: 0 <= i < |losses| ==>
               (back + replay)[2 * i] == ZeroGrad(head, i) &&
               (back + replay)[2 * i + 1] == Backward(head, i, i != |losses| - 1, losses[i])
  {
    forall i | 0 <= i < |losses|
      ensures (back + replay)[2 * i] == ZeroGrad(head, i) &&
              (back + replay)[2 * i + 1] == Backward(head, i, i != |losses| - 1, losses[i])
    {
      assert (back + replay)[2 * i] == back[2 * i] && (back + replay)[2 * i + 1] == back[2 * i + 1];
    }
  }

  lemma ClippedSuffix(back: seq<Event>, replay: seq<Event>, head: Head, n: nat)
    requires |back| == 2 * n && |replay| == 3 * n
    requires forall j :: 0 <= j < n ==>
               replay[3 * j] == AssignGrads(head, j, j) && replay[3 * j + 1] == ClipGrads(head, j) &&
               replay[3 * j + 2] == Step(head, j)
    ensures forall j :: 0 <= j < n ==>
               (back + replay)[2 * n + 3 * j] == AssignGrads(head, j, j) &&
               (back + replay)[2 * n + 3 * j + 1] == ClipGrads(head, j) &&
               (back + replay)[2 * n + 3 * j + 2] == Step(head, j)
  {
    forall j | 0 <= j < n
      ensures (back + replay)[2 * n + 3 * j] == AssignGrads(head, j, j) &&
              (back + replay)[2 * n + 3 * j + 1] == ClipGrads(head, j) &&
              (back + replay)[2 * n + 3 * j + 2] == Step(head, j)
    {
      assert (back + replay)[2 * n + 3 * j] == replay[3 * j];
      assert (back + replay)[2 * n + 3 * j + 1] == replay[3 * j + 1];
      assert (back + replay)[2 * n + 3 * j + 2] == replay[3 * j + 2];
    }
  }

  lemma UnclippedSuffix(back: seq<Event>, replay: seq<Event>, head: Head, n: nat)
    requires |back| == 2 * n && |replay| == 2 * n
    requires forall j :: 0 <= j < n ==>
               replay[2 * j] == AssignGrads(head, j, j) && replay[2 * j + 1] == Step(head, j)
    ensures forall j :: 0 <= j < n ==>
               (back + replay)[2 * n + 2 * j] == AssignGrads(head, j, j) &&
               (back + replay)[2 * n + 2 * j + 1] == Step(head, j)
  {
    forall j | 0 <= j < n
      ensures (back + replay)[2 * n + 2 * j] == AssignGrads(head, j, j) &&
              (back + replay)[2 * n + 2 * j + 1] == Step(head, j)
    {
      assert (back + replay)[2 * n + 2 * j] == replay[2 * j];
      assert (back + replay)[2 * n + 2 * j + 1] == replay[2 * j + 1];
    }
  }

  lemma BackwardPhaseStep(head: Head, losses: seq<real>, i: nat, t0: seq<Event>, before: seq<Event>, after: seq<Event>)
    requires i < |losses|
    requires before == t0 + BackwardPhase(head, losses, i)
    requires after == before + [ZeroGrad(head, i), Backward(head, i, RetainGraph(i, |losses|), losses[i])]
    ensures after == t0 + BackwardPhase(head, losses, i + 1)
  {
    var step := [ZeroGrad(head, i), Backward(head, i, RetainGraph(i, |losses|), losses[i])];
    assert BackwardPhase(head, losses, i + 1) == BackwardPhase(head, losses, i) + step;
    assert t0 + BackwardPhase(head, losses, i) + step == t0 + (BackwardPhase(head, losses, i) + step);
  }

  lemma ReplayPhaseStep(head: Head, clip: bool, j: nat, t0: seq<Event>, before: seq<Event>, after: seq<Event>)
    requires before == t0 + ReplayPhase(head, clip, j)
    requires after == before + ReplayEvents(head, j, j, clip)
    ensures after == t0 + ReplayPhase(head, clip, j + 1)
  {
    var step := ReplayEvents(head, j, j, clip);
    assert ReplayPhase(head, clip, j + 1) == ReplayPhase(head, clip, j) + step;
    assert t0 + ReplayPhase(head, clip, j) + step == t0 + (ReplayPhase(head, clip, j) + step);
  }

  function Range(n: nat): (r: seq<nat>)
    ensures |r| == n && forall t :: 0 <= t < n ==> r[t] == t
  {
    seq(n, t => t)
  }

  /** `list.reverse()` */
  function Reversed<T>(s: seq<T>): (r: seq<T>)
    ensures |r| == |s|
    ensures forall t :: 0 <= t < |s| ==> r[t] == s[|s| - 1 - t]
  {
    if |s| == 0 then [] else [s[|s| - 1]] + Reversed(s[..|s| - 1])
  }

  /** The action loss passed to `backward` for one agent: the entropy
      bonus is subtracted only for discrete actions and a positive
      coefficient `entr`. A non-negative entropy never raises the loss, and
      the loss is left as it is exactly when the rule is off or there is no
      entropy to reward. */
  function EffectiveActionLoss(loss: real, entropy: real, entr: real, continuous: bool): (r: real)
    ensures entropy >= 0.0 ==> r <= loss
    ensures r == loss <==> continuous || entr <= 0.0 || entropy == 0.0
  {
    if !continuous && entr > 0.0 then
      EntropyBonusFacts(entr, entropy);
      loss - entr * entropy
    else loss
  }

  lemma EntropyBonusFacts(entr: real, entropy: real)
    requires entr > 0.0
    ensures entropy >= 0.0 ==> entr * entropy >= 0.0
    ensures entr * entropy == 0.0 <==> entropy == 0.0
  {
    if entropy > 0.0 {
      assert entr * entropy > 0.0;
    } else if entropy < 0.0 {
      assert entr * (-entropy) > 0.0;
    }
  }

  function EffectiveActionLosses(losses: seq<real>, entropies: seq<real>, entr: real, continuous: bool): (r: seq<real>)
    requires |entropies| == |losses|
    ensures |r| == |losses|
    ensures forall i :: 0 <= i < |losses| ==> r[i] == EffectiveActionLoss(losses[i], entropies[i], entr, continuous)
  {
    seq(|losses|, i requires 0 <= i < |losses| => EffectiveActionLoss(losses[i], entropies[i], entr, continuous))
  }

  /** The policy-gradient trainer: the entropy coefficient, which grows by
      `entrInc` per run, and the calls made so far. */
  class PGTrainer {
    const agentNum: nat
    const continuous: bool
    const gradClip: bool
    const entrInc: real
    var entr: real
    var trace: seq<Event>

    constructor (agentNum: nat, continuous: bool, gradClip: bool, entr: real, entrInc: real)
      ensures this.agentNum == agentNum && this.continuous == continuous && this.gradClip == gradClip
      ensures this.entr == entr && this.entrInc == entrInc && trace == []
    {
      this.agentNum := agentNum;
      this.continuous := continuous;
      this.gradClip := gradClip;
      this.entr := entr;
      this.entrInc := entrInc;
      trace := [];
    }

    /** The shared body of `action_transition_process` and
        `value_transition_process`: one backward pass per agent (zeroing
        that agent's optimizer first, keeping the graph for all but the last
        agent) with a copy of the optimizer's parameter list appended after
        each; then the list is reversed and every optimizer, in order, pops
        a list, takes its gradients from it, is clipped when configured and
        steps. The list is empty at the end. */
    method TransitionProcess(head: Head, losses: seq<real>) returns (ghost remaining: seq<nat>)
      requires |losses| == agentNum
      modifies this
      ensures trace == old(trace) + ProtocolTrace(head, losses, gradClip)
      ensures entr == old(entr)
      ensures remaining == []
    {
      var snapshots := BackwardLoop(head, losses);
      snapshots := Reversed(snapshots);
      remaining := ReplayLoop(head, snapshots);
    }

    /** The first loop: the backward passes, and the list of copied
        parameter lists, agent by agent. */
    method BackwardLoop(head: Head, losses: seq<real>) returns (snapshots: seq<nat>)
      requires |losses| == agentNum
      modifies this
      ensures snapshots == Range(agentNum)
      ensures trace == old(trace) + BackwardPhase(head, losses, agentNum)
      ensures entr == old(entr)
    {
      snapshots := [];
      var i := 0;
      while i < agentNum
        invariant 0 <= i <= agentNum
        invariant snapshots == Range(i)
        invariant trace == old(trace) + BackwardPhase(head, losses, i)
        invariant entr == old(entr)
      {
        var retainGraph := RetainGraph(i, agentNum);
        ghost var before := trace;
        trace := trace + [ZeroGrad(head, i), Backward(head, i, retainGraph, losses[i])];
        BackwardPhaseStep(head, losses, i, old(trace), before, trace);
        snapshots := snapshots + [i];
        i := i + 1;
      }
    }

    /** The second loop: every optimizer in order pops a list, takes its
        gradients from it, is clipped when configured and steps. Given the
        reversed agent order, optimizer `j` pops agent `j`'s list and the
        list ends empty. */
    method ReplayLoop(head: Head, reversed: seq<nat>) returns (remaining: seq<nat>)
      requires |reversed| == agentNum
      requires forall t :: 0 <= t < agentNum ==> reversed[t] == agentNum - 1 - t
      modifies this
      ensures trace == old(trace) + ReplayPhase(head, gradClip, agentNum)
      ensures entr == old(entr)
      ensures remaining == []
    {
      var snapshots := reversed;
      var j := 0;
      while j < agentNum
        invariant 0 <= j <= agentNum
        invariant snapshots == reversed[..agentNum - j]
        invariant trace == old(trace) + ReplayPhase(head, gradClip, j)
        invariant entr == old(entr)
      {
        ghost var before := trace;
        var snapshot := snapshots[|snapshots| - 1];
        assert snapshot == j;
        snapshots := snapshots[..|snapshots| - 1];
        assert snapshots == reversed[..agentNum - (j + 1)];
        ReplayOne(head, j, snapshot);
        ReplayPhaseStep(head, gradClip, j, old(trace), before, trace);
        j := j + 1;
      }
      remaining := snapshots;
    }

    /** One pass of the second loop: optimizer `j` takes the gradients of
        the list `snapshot` it popped, is clipped when configured and steps. */
    method ReplayOne(head: Head, j: nat, snapshot: nat)
      modifies this
      ensures trace == old(trace) + ReplayEvents(head, j, snapshot, gradClip)
      ensures entr == old(entr)
    {
      trace := trace + [AssignGrads(head, j, snapshot)];
      if gradClip {
        trace := trace + [ClipGrads(head, j)];
      }
      trace := trace + [Step(head, j)];
    }

    /** `action_transition_process`, given each agent's action loss and the
        entropy of its action distribution. */
    method ActionTransitionProcess(actionLoss: seq<real>, entropy: seq<real>)
      requires |actionLoss| == agentNum && |entropy| == agentNum
      modifies this
      ensures trace == old(trace)
                     + ProtocolTrace(ActionHead, EffectiveActionLosses(actionLoss, entropy, entr, continuous), gradClip)
      ensures entr == old(entr)
    {
      var losses := EffectiveActionLosses(actionLoss, entropy, entr, continuous);
      var _ := TransitionProcess(ActionHead, losses);
    }

    /** `value_transition_process`, given each agent's value loss. */
    method ValueTransitionProcess(valueLoss: seq<real>)
      requires |valueLoss| == agentNum
      modifies this
      ensures trace == old(trace) + ProtocolTrace(ValueHead, valueLoss, gradClip)
      ensures entr == old(entr)
    {
      var _ := TransitionProcess(ValueHead, valueLoss);
    }

    /** `run`: the entropy coefficient grows by exactly `entrInc`. The
        training pass `run` makes first belongs to the behaviour network and
        is not part of this model, so no call is recorded here. */
    method Run()
      modifies this
      ensures entr == old(entr) + entrInc
      ensures trace == old(trace)
    {
      entr := entr + entrInc;
    }
  }

  // ---------------------------------------------------------------------
  // QTrainer: one episode of online training
  // ---------------------------------------------------------------------

  /** The hyperparameters `train_online` reads. */
  datatype QConfig = QConfig(maxSteps: nat, replay: bool, target: bool, replayWarmup: int, batchSize: int,
                             behaviourUpdateFreq: nat, targetUpdateFreq: nat, gradClip: bool)

  /** The update frequencies are divisors: zero would raise. */
  predicate ValidConfig(c: QConfig) {
    c.behaviourUpdateFreq > 0 && (c.target ==> c.targetUpdateFreq > 0)
  }

  /** A stored transition: the step's rewards, the environment's `done` and
      the episode-end flag `done or t == max_steps - 1`. */
  datatype Transition = Transition(reward: Row, done: bool, lastStep: bool)

  /** A behaviour update (from the replay buffer or from the current
      transition) or a target update, tagged with the value of `steps` when
      its condition was checked, and the calls of `transition_process`. */
  datatype QEvent =
    | ReplayUpdate(step: nat)
    | OnlineUpdate(step: nat)
    | TargetUpdate(step: nat)
    | QZeroGrad
    | QBackward(loss: real)
    | QClipGrads
    | QStep

  /** `transition_process`: zero the gradients, back-propagate the loss,
      clip when configured, step the optimizer. */
  function UpdateEvents(loss: real, clip: bool): seq<QEvent> {
    [QZeroGrad, QBackward(loss)] + (if clip then [QClipGrads] else []) + [QStep]
  }

  /** `n % f == 0`, by repeated subtraction: the update conditions are
      stated with it so that reasoning about them needs no non-linear
      arithmetic; `MultipleIsMod` ties it to `%`. */
  predicate Multiple(n: nat, f: nat)
    requires f > 0
    decreases n
  {
    if n < f then n == 0 else Multiple(n - f, f)
  }

  lemma {:induction false} MultipleIsMod(n: nat, f: nat)
    requires f > 0
    ensures Multiple(n, f) <==> n % f == 0
    decreases n
  {
    if n >= f {
      MultipleIsMod(n - f, f);
      var q, r := (n - f) / f, (n - f) % f;
      assert n == (q + 1) * f + r;
      ModUnique(n, f, q + 1, r);
    }
  }

  /** The remainder is the `r` of any `n == q * f + r` with `0 <= r < f`. */
  lemma ModUnique(n: int, f: int, q: int, r: int)
    requires f > 0 && 0 <= r < f && n == q * f + r
    ensures n % f == r
  {
    var q', r' := n / f, n % f;
    if q > q' {
      MulSub(q, q', f);
      MulAtLeast(q - q', f);
    } else if q < q' {
      MulSub(q', q, f);
      MulAtLeast(q' - q, f);
    }
  }

  lemma MulSub(a: int, b: int, f: int)
    ensures (a - b) * f == a * f - b * f
  {
  }

  lemma MulAtLeast(d: int, f: int)
    requires d >= 1 && f > 0
    ensures d * f >= f
  {
    assert (d - 1) * f >= 0;
  }

  /** The replay update condition, checked before `steps` grows. */
  predicate ReplayCond(c: QConfig, steps: nat, bufferLen: nat)
    requires c.behaviourUpdateFreq > 0
  {
    steps > c.replayWarmup && bufferLen >= c.batchSize && Multiple(steps, c.behaviourUpdateFreq)
  }

  /** The online update condition, checked before `steps` grows. */
  predicate OnlineCond(c: QConfig, steps: nat)
    requires c.behaviourUpdateFreq > 0
  {
    Multiple(steps, c.behaviourUpdateFreq)
  }

  /** The target update condition, checked before `steps` grows. */
  predicate TargetCond(c: QConfig, steps: nat)
    requires c.targetUpdateFreq > 0
  {
    Multiple(steps, c.targetUpdateFreq)
  }

  /** The calls of one step, given which conditions hold: the behaviour
      update's marker and `transition_process` when it fires, then the
      target update when it fires. */
  function StepCalls(replay: bool, behaviourFires: bool, targetFires: bool, steps: nat, loss: real, clip: bool)
    : seq<QEvent>
  {
    var behaviour :=
      if !behaviourFires then []
      else [if replay then ReplayUpdate(steps) else OnlineUpdate(steps)] + UpdateEvents(loss, clip);
    behaviour + (if targetFires then [TargetUpdate(steps)] else [])
  }

  /** Whether the behaviour update of step `steps` fires: the replay
      condition when replay is on, the online one otherwise. */
  predicate BehaviourFires(c: QConfig, steps: nat, bufferLen: nat)
    requires ValidConfig(c)
  {
    if c.replay then ReplayCond(c, steps, bufferLen) else OnlineCond(c, steps)
  }

  /** Whether the target update of step `steps` fires. */
  predicate TargetFires(c: QConfig, steps: nat)
    requires ValidConfig(c)
  {
    c.target && TargetCond(c, steps)
  }

  /** The calls of step `steps`, the buffer holding `bufferLen` transitions
      after this step's one was added. */
  function StepEvents(c: QConfig, steps: nat, bufferLen: nat, loss: real): seq<QEvent>
    requires ValidConfig(c)
  {
    StepCalls(c.replay, BehaviourFires(c, steps, bufferLen), TargetFires(c, steps), steps, loss, c.gradClip)
  }

  /** The calls of the first `t` steps of an episode that starts with
      `steps0` steps taken and `buffer0` transitions stored. */
  function EpisodeEvents(c: QConfig, steps0: nat, buffer0: nat, losses: seq<real>, t: nat): seq<QEvent>
    requires ValidConfig(c) && t <= |losses|
  {
    if t == 0 then []
    else
      var s := t - 1;
      EpisodeEvents(c, steps0, buffer0, losses, s) + StepEvents(c, steps0 + s, buffer0 + s + 1, losses[s])
  }

  /** The number of loop iterations from `t` on: the loop stops after the
      first step that is done or is step `max_steps - 1`. */
  function EpisodeLengthFrom(dones: seq<bool>, maxSteps: nat, t: nat): (m: nat)
    requires |dones| >= maxSteps && t <= maxSteps
    ensures t + m <= maxSteps
    ensures t < maxSteps ==> m >= 1
    ensures forall s :: t <= s < t + m - 1 ==> !dones[s]
    ensures t + m < maxSteps ==> dones[t + m - 1]
    decreases maxSteps - t
  {
    if t == maxSteps then 0
    else if dones[t] || t == maxSteps - 1 then 1
    else 1 + EpisodeLengthFrom(dones, maxSteps, t + 1)
  }

  /** The number of steps of one `train_online` call: at most `max_steps`,
      at least one when `max_steps > 0`, ended by the first `done` or by
      the step limit. */
  function EpisodeLength(dones: seq<bool>, maxSteps: nat): (n: nat)
    requires |dones| >= maxSteps
    ensures n <= maxSteps
    ensures maxSteps > 0 ==> n >= 1
    ensures forall s :: 0 <= s < n - 1 ==> !dones[s]
    ensures n < maxSteps ==> n == 0 || dones[n - 1]
  {
    EpisodeLengthFrom(dones, maxSteps, 0)
  }

  /** The transitions one episode stores, one per step. */
  function EpisodeTransitions(rewards: seq<Row>, dones: seq<bool>, maxSteps: nat, t: nat): (r: seq<Transition>)
    requires t <= |rewards| && t <= |dones|
    ensures |r| == t
    ensures forall s :: 0 <= s < t ==> r[s] == Transition(rewards[s], dones[s], dones[s] || s == maxSteps - 1)
  {
    seq(t, s requires 0 <= s < t => Transition(rewards[s], dones[s], dones[s] || s == maxSteps - 1))
  }

  /** Of the transitions of one episode exactly the last is marked as an
      episode end, so the episode forms one return segment. */
  lemma EpisodeEndsOnce(rewards: seq<Row>, dones: seq<bool>, maxSteps: nat)
    requires |rewards| >= maxSteps && |dones| >= maxSteps
    ensures var n := EpisodeLength(dones, maxSteps);
            var ts := EpisodeTransitions(rewards, dones, maxSteps, n);
            (n > 0 ==> ts[n - 1].lastStep) && forall s :: 0 <= s < n - 1 ==> !ts[s].lastStep
  {
  }

  /** `np.mean(reward)` */
  function StepMean(reward: Row): real
    requires |reward| > 0
  {
    SumRow(reward) / |reward| as real
  }

  function StepMeans(rewards: seq<Row>, t: nat): (r: seq<real>)
    requires t <= |rewards| && forall s :: 0 <= s < t ==> |rewards[s]| > 0
    ensures |r| == t && forall s :: 0 <= s < t ==> r[s] == StepMean(rewards[s])
  {
    seq(t, s requires 0 <= s < t => StepMean(rewards[s]))
  }

  lemma StepMeansSnoc(rewards: seq<Row>, t: nat)
    requires t < |rewards| && forall s :: 0 <= s <= t ==> |rewards[s]| > 0
    ensures StepMeans(rewards, t + 1) == StepMeans(rewards, t) + [StepMean(rewards[t])]
  {
  }

  lemma EpisodeTransitionsSnoc(rewards: seq<Row>, dones: seq<bool>, maxSteps: nat, t: nat)
    requires t < |rewards| && t < |dones|
    ensures EpisodeTransitions(rewards, dones, maxSteps, t + 1)
         == EpisodeTransitions(rewards, dones, maxSteps, t) + [Transition(rewards[t], dones[t], dones[t] || t == maxSteps - 1)]
  {
  }

  /** The trainer state `train_online` works on; `history` holds the
      per-step mean rewards of every step taken. */
  datatype QState = QState(steps: nat, buffer: seq<Transition>, trace: seq<QEvent>, history: seq<real>)

  /** The state `now` after the first `t` steps of an episode that started
      in state `start`. */
  ghost predicate EpisodeState(c: QConfig, now: QState, start: QState, t: nat,
                               rewards: seq<Row>, dones: seq<bool>, losses: seq<real>)
  {
    ValidConfig(c) &&
    t <= |rewards| && t <= |dones| && t <= |losses| && (forall s :: 0 <= s < t ==> |rewards[s]| > 0) &&
    now.steps == start.steps + t &&
    now.history == start.history + StepMeans(rewards, t) &&
    now.buffer == (if c.replay then start.buffer + EpisodeTransitions(rewards, dones, c.maxSteps, t) else start.buffer) &&
    now.trace == start.trace + EpisodeEvents(c, start.steps, |start.buffer|, losses, t)
  }

  /** Step `t` of the episode, done from the state after `t` steps, gives
      the state after `t + 1` steps. */
  lemma EpisodeStateStep(c: QConfig, before: QState, after: QState, start: QState, t: nat,
                         rewards: seq<Row>, dones: seq<bool>, losses: seq<real>)
    requires EpisodeState(c, before, start, t, rewards, dones, losses)
    requires t < |rewards| && t < |dones| && t < |losses| && |rewards[t]| > 0
    requires after.steps == before.steps + 1
    requires after.history == before.history + [StepMean(rewards[t])]
    requires after.buffer == if c.replay then before.buffer + [Transition(rewards[t], dones[t], dones[t] || t == c.maxSteps - 1)]
                             else before.buffer
    requires after.trace == before.trace + StepEvents(c, before.steps, |start.buffer| + t + 1, losses[t])
    ensures EpisodeState(c, after, start, t + 1, rewards, dones, losses)
  {
    StepMeansSnoc(rewards, t);
    assert after.history == start.history + StepMeans(rewards, t + 1) by {
      assert start.history + StepMeans(rewards, t) + [StepMean(rewards[t])]
          == start.history + (StepMeans(rewards, t) + [StepMean(rewards[t])]);
    }
    if c.replay {
      EpisodeTransitionsSnoc(rewards, dones, c.maxSteps, t);
      var last := Transition(rewards[t], dones[t], dones[t] || t == c.maxSteps - 1);
      assert start.buffer + EpisodeTransitions(rewards, dones, c.maxSteps, t) + [last]
          == start.buffer + (EpisodeTransitions(rewards, dones, c.maxSteps, t) + [last]);
    }
    EpisodeEventsSnoc(c, start.steps, |start.buffer|, losses, t, start.trace, before.trace, after.trace);
  }

  lemma EpisodeEventsSnoc(c: QConfig, steps0: nat, buffer0: nat, losses: seq<real>, t: nat,
                          trace0: seq<QEvent>, before: seq<QEvent>, after: seq<QEvent>)
    requires ValidConfig(c) && t < |losses|
    requires before == trace0 + EpisodeEvents(c, steps0, buffer0, losses, t)
    requires after == before + StepEvents(c, steps0 + t, buffer0 + t + 1, losses[t])
    ensures after == trace0 + EpisodeEvents(c, steps0, buffer0, losses, t + 1)
  {
    var prefix := EpisodeEvents(c, steps0, buffer0, losses, t);
    var step := StepEvents(c, steps0 + t, buffer0 + t + 1, losses[t]);
    assert EpisodeEvents(c, steps0, buffer0, losses, t + 1) == prefix + step;
    assert trace0 + prefix + step == trace0 + (prefix + step);
  }

  /** The arithmetic mean, zero for no values. */
  function Average(xs: seq<real>): real {
    if |xs| == 0 then 0.0 else SumRow(xs) / |xs| as real
  }

  lemma MeanStep(s: real, n: real, x: real)
    requires n > 0.0
    ensures (s + x) / (n + 1.0) == s / n + 1.0 / (n + 1.0) * (x - s / n)
  {
    var a := s / n;
    var m := n + 1.0;
    assert a * n == s;
    assert 1.0 / m * (x - a) == (x - a) / m;
    assert a == a * m / m;
    calc {
      a + (x - a) / m;
      a * m / m + (x - a) / m;
      (a * m + x - a) / m;
      { assert a * m - a == a * n; }
      (a * n + x) / m;
      (s + x) / m;
    }
  }

  /** The update `mean += 1/steps * (x - mean)` with the new step count
      keeps `mean` the arithmetic mean of all values so far. */
  lemma IncrementalMean(xs: seq<real>, x: real)
    ensures Average(xs + [x]) == Average(xs) + 1.0 / (|xs| + 1) as real * (x - Average(xs))
  {
    assert (xs + [x])[..|xs|] == xs;
    assert SumRow(xs + [x]) == SumRow(xs) + x;
    if |xs| > 0 {
      MeanStep(SumRow(xs), |xs| as real, x);
    }
  }

  /** The calls of one step are those of its behaviour update followed by
      those of its target update. */
  lemma StepCallsSplit(replay: bool, behaviourFires: bool, targetFires: bool, steps: nat, loss: real, clip: bool)
    ensures StepCalls(replay, behaviourFires, targetFires, steps, loss, clip)
         == StepCalls(replay, behaviourFires, false, steps, loss, clip)
            + StepCalls(replay, false, targetFires, steps, 0.0, clip)
  {
  }

  /** Which update markers the calls of one step contain. */
  lemma StepCallsMarkers(replay: bool, behaviourFires: bool, targetFires: bool, steps: nat, loss: real, clip: bool,
                         x: nat)
    ensures ReplayUpdate(x) in StepCalls(replay, behaviourFires, targetFires, steps, loss, clip)
        <==> replay && behaviourFires && x == steps
    ensures OnlineUpdate(x) in StepCalls(replay, behaviourFires, targetFires, steps, loss, clip)
        <==> !replay && behaviourFires && x == steps
    ensures TargetUpdate(x) in StepCalls(replay, behaviourFires, targetFires, steps, loss, clip)
        <==> targetFires && x == steps
  {
  }

  /** The calls of a non-empty prefix of an episode: those of the shorter
      prefix, then those of its last step. */
  lemma EpisodeEventsLast(c: QConfig, steps0: nat, buffer0: nat, losses: seq<real>, t: nat)
    returns (prev: seq<QEvent>, last: seq<QEvent>)
    requires ValidConfig(c) && 0 < t <= |losses|
    ensures prev == EpisodeEvents(c, steps0, buffer0, losses, t - 1)
    ensures last == StepCalls(c.replay, BehaviourFires(c, steps0 + t - 1, buffer0 + t), TargetFires(c, steps0 + t - 1),
                              steps0 + t - 1, losses[t - 1], c.gradClip)
    ensures EpisodeEvents(c, steps0, buffer0, losses, t) == prev + last
  {
    prev := EpisodeEvents(c, steps0, buffer0, losses, t - 1);
    last := StepEvents(c, steps0 + t - 1, buffer0 + t, losses[t - 1]);
  }

  lemma {:induction false} ReplayFiresOnlyIf(c: QConfig, steps0: nat, buffer0: nat, losses: seq<real>, t: nat, x: nat)
    requires ValidConfig(c) && t <= |losses|
    requires ReplayUpdate(x) in EpisodeEvents(c, steps0, buffer0, losses, t)
    ensures c.replay && steps0 <= x < steps0 + t && ReplayCond(c, x, buffer0 + (x - steps0) + 1)
  {
    if t > 0 {
      var prev, last := EpisodeEventsLast(c, steps0, buffer0, losses, t);
      if ReplayUpdate(x) in prev {
        ReplayFiresOnlyIf(c, steps0, buffer0, losses, t - 1, x);
      } else {
        assert ReplayUpdate(x) in last;
        StepCallsMarkers(c.replay, BehaviourFires(c, steps0 + t - 1, buffer0 + t), TargetFires(c, steps0 + t - 1),
                         steps0 + t - 1, losses[t - 1], c.gradClip, x);
      }
    }
  }

  lemma {:induction false} ReplayFiresIf(c: QConfig, steps0: nat, buffer0: nat, losses: seq<real>, t: nat, x: nat)
    requires ValidConfig(c) && t <= |losses|
    requires c.replay && steps0 <= x < steps0 + t && ReplayCond(c, x, buffer0 + (x - steps0) + 1)
    ensures ReplayUpdate(x) in EpisodeEvents(c, steps0, buffer0, losses, t)
  {
    var prev, last := EpisodeEventsLast(c, steps0, buffer0, losses, t);
    if x < steps0 + t - 1 {
      ReplayFiresIf(c, steps0, buffer0, losses, t - 1, x);
      assert ReplayUpdate(x) in prev;
    } else {
      assert x == steps0 + t - 1 && BehaviourFires(c, steps0 + t - 1, buffer0 + t);
      assert last[0] == ReplayUpdate(x);
    }
  }

  /** A replay update of step `x` happens in an episode exactly when replay
      is on, `x` is one of the episode's step counts and, with the buffer
      as it was at that step, `x > replay_warmup`, the buffer holds at least
      `batch_size` transitions and `x` is a multiple of the behaviour update
      frequency. */
  lemma ReplayFiresIff(c: QConfig, steps0: nat, buffer0: nat, losses: seq<real>, t: nat, x: nat)
    requires ValidConfig(c) && t <= |losses|
    ensures ReplayUpdate(x) in EpisodeEvents(c, steps0, buffer0, losses, t)
        <==> c.replay && steps0 <= x < steps0 + t && ReplayCond(c, x, buffer0 + (x - steps0) + 1)
  {
    if ReplayUpdate(x) in EpisodeEvents(c, steps0, buffer0, losses, t) {
      ReplayFiresOnlyIf(c, steps0, buffer0, losses, t, x);
    }
    if c.replay && steps0 <= x < steps0 + t && ReplayCond(c, x, buffer0 + (x - steps0) + 1) {
      ReplayFiresIf(c, steps0, buffer0, losses, t, x);
    }
  }

  lemma {:induction false} OnlineFiresOnlyIf(c: QConfig, steps0: nat, buffer0: nat, losses: seq<real>, t: nat, x: nat)
    requires ValidConfig(c) && t <= |losses|
    requires OnlineUpdate(x) in EpisodeEvents(c, steps0, buffer0, losses, t)
    ensures !c.replay && steps0 <= x < steps0 + t && OnlineCond(c, x)
  {
    if t > 0 {
      var prev, last := EpisodeEventsLast(c, steps0, buffer0, losses, t);
      if OnlineUpdate(x) in prev {
        OnlineFiresOnlyIf(c, steps0, buffer0, losses, t - 1, x);
      } else {
        assert OnlineUpdate(x) in last;
        StepCallsMarkers(c.replay, BehaviourFires(c, steps0 + t - 1, buffer0 + t), TargetFires(c, steps0 + t - 1),
                         steps0 + t - 1, losses[t - 1], c.gradClip, x);
        assert !c.replay && x == steps0 + t - 1 && BehaviourFires(c, x, buffer0 + t);
      }
    }
  }

  lemma {:induction false} OnlineFiresIf(c: QConfig, steps0: nat, buffer0: nat, losses: seq<real>, t: nat, x: nat)
    requires ValidConfig(c) && t <= |losses|
    requires !c.replay && steps0 <= x < steps0 + t && OnlineCond(c, x)
    ensures OnlineUpdate(x) in EpisodeEvents(c, steps0, buffer0, losses, t)
  {
    var prev, last := EpisodeEventsLast(c, steps0, buffer0, losses, t);
    if x < steps0 + t - 1 {
      OnlineFiresIf(c, steps0, buffer0, losses, t - 1, x);
      assert OnlineUpdate(x) in prev;
    } else {
      assert x == steps0 + t - 1 && BehaviourFires(c, steps0 + t - 1, buffer0 + t);
      assert last[0] == OnlineUpdate(x);
    }
  }

  /** An online update of step `x` happens exactly when replay is off, `x`
      is one of the episode's step counts and a multiple of the behaviour
      update frequency. */
  lemma OnlineFiresIff(c: QConfig, steps0: nat, buffer0: nat, losses: seq<real>, t: nat, x: nat)
    requires ValidConfig(c) && t <= |losses|
    ensures OnlineUpdate(x) in EpisodeEvents(c, steps0, buffer0, losses, t)
        <==> !c.replay && steps0 <= x < steps0 + t && OnlineCond(c, x)
  {
    if OnlineUpdate(x) in EpisodeEvents(c, steps0, buffer0, losses, t) {
      OnlineFiresOnlyIf(c, steps0, buffer0, losses, t, x);
    }
    if !c.replay && steps0 <= x < steps0 + t && OnlineCond(c, x) {
      OnlineFiresIf(c, steps0, buffer0, losses, t, x);
    }
  }

  lemma {:induction false} TargetFiresOnlyIf(c: QConfig, steps0: nat, buffer0: nat, losses: seq<real>, t: nat, x: nat)
    requires ValidConfig(c) && t <= |losses|
    requires TargetUpdate(x) in EpisodeEvents(c, steps0, buffer0, losses, t)
    ensures c.target && steps0 <= x < steps0 + t && TargetCond(c, x)
  {
    if t > 0 {
      var prev, last := EpisodeEventsLast(c, steps0, buffer0, losses, t);
      if TargetUpdate(x) in prev {
        TargetFiresOnlyIf(c, steps0, buffer0, losses, t - 1, x);
      } else {
        assert TargetUpdate(x) in last;
        StepCallsMarkers(c.replay, BehaviourFires(c, steps0 + t - 1, buffer0 + t), TargetFires(c, steps0 + t - 1),
                         steps0 + t - 1, losses[t - 1], c.gradClip, x);
      }
    }
  }

  lemma {:induction false} TargetFiresIf(c: QConfig, steps0: nat, buffer0: nat, losses: seq<real>, t: nat, x: nat)
    requires ValidConfig(c) && t <= |losses|
    requires c.target && steps0 <= x < steps0 + t && TargetCond(c, x)
    ensures TargetUpdate(x) in EpisodeEvents(c, steps0, buffer0, losses, t)
  {
    var prev, last := EpisodeEventsLast(c, steps0, buffer0, losses, t);
    if x < steps0 + t - 1 {
      TargetFiresIf(c, steps0, buffer0, losses, t - 1, x);
      assert TargetUpdate(x) in prev;
    } else {
      assert x == steps0 + t - 1 && TargetFires(c, steps0 + t - 1);
      assert last[|last| - 1] == TargetUpdate(x);
    }
  }

  /** A target update of step `x` happens exactly when target networks are
      on, `x` is one of the episode's step counts and a multiple of the
      target update frequency. */
  lemma TargetFiresIff(c: QConfig, steps0: nat, buffer0: nat, losses: seq<real>, t: nat, x: nat)
    requires ValidConfig(c) && t <= |losses|
    ensures TargetUpdate(x) in EpisodeEvents(c, steps0, buffer0, losses, t)
        <==> c.target && steps0 <= x < steps0 + t && TargetCond(c, x)
  {
    if TargetUpdate(x) in EpisodeEvents(c, steps0, buffer0, losses, t) {
      TargetFiresOnlyIf(c, steps0, buffer0, losses, t, x);
    }
    if c.target && steps0 <= x < steps0 + t && TargetCond(c, x) {
      TargetFiresIf(c, steps0, buffer0, losses, t, x);
    }
  }

  /** While no earlier step ended the episode, step `t` is taken, and it is
      the last one exactly when it ends the episode. */
  lemma EpisodeLengthAt(dones: seq<bool>, maxSteps: nat, t: nat)
    requires |dones| >= maxSteps && t < maxSteps
    requires forall s :: 0 <= s < t ==> !dones[s] && s < maxSteps - 1
    ensures t < EpisodeLength(dones, maxSteps)
    ensures dones[t] || t == maxSteps - 1 <==> EpisodeLength(dones, maxSteps) == t + 1
  {
    EpisodeLengthSkip(dones, maxSteps, 0, t);
  }

  /** Steps that do not end the episode each add one iteration. */
  lemma {:induction false} EpisodeLengthSkip(dones: seq<bool>, maxSteps: nat, u: nat, t: nat)
    requires |dones| >= maxSteps && u <= t < maxSteps
    requires forall s :: u <= s < t ==> !dones[s] && s < maxSteps - 1
    ensures EpisodeLengthFrom(dones, maxSteps, u) == t - u + EpisodeLengthFrom(dones, maxSteps, t)
    decreases t - u
  {
    if u < t {
      EpisodeLengthSkip(dones, maxSteps, u + 1, t);
    }
  }

  /** The value-based trainer: step and episode counters, the running mean
      reward, the replay buffer (its transitions in arrival order) and the
      calls made so far. `rewardHistory` holds the per-step mean rewards
      of every step taken. */
  class QTrainer {
    const config: QConfig
    var steps: nat
    var episodes: nat
    var meanReward: real
    var buffer: seq<Transition>
    var trace: seq<QEvent>
    ghost var rewardHistory: seq<real>

    /** `mean_reward` is the arithmetic mean of the per-step mean rewards
        of all steps so far. */
    ghost predicate Valid()
      reads this
    {
      ValidConfig(config) && |rewardHistory| == steps && meanReward == Average(rewardHistory)
    }

    constructor (config: QConfig)
      requires ValidConfig(config)
      ensures Valid() && this.config == config
      ensures steps == 0 && episodes == 0 && meanReward == 0.0 && buffer == [] && trace == []
    {
      this.config := config;
      steps := 0;
      episodes := 0;
      meanReward := 0.0;
      buffer := [];
      trace := [];
      rewardHistory := [];
    }

    /** `transition_process`, given the loss of the transition or batch. */
    method TransitionProcess(loss: real)
      modifies this
      ensures trace == old(trace) + UpdateEvents(loss, config.gradClip)
      ensures steps == old(steps) && episodes == old(episodes) && meanReward == old(meanReward)
      ensures buffer == old(buffer) && rewardHistory == old(rewardHistory)
    {
      trace := trace + [QZeroGrad, QBackward(loss)];
      if config.gradClip {
        trace := trace + [QClipGrads];
      }
      trace := trace + [QStep];
    }

    /** The fields `train_online` works on, as a value. */
    ghost function State(): (st: QState)
      reads this
      ensures st.steps == steps && st.buffer == buffer && st.trace == trace && st.history == rewardHistory
    {
      QState(steps, buffer, trace, rewardHistory)
    }

    /** `train_online`: one episode, given the environment's rewards and
        done flags and the loss each behaviour update would compute, one of
        each per step the environment can take. */
    method TrainOnline(rewards: seq<Row>, dones: seq<bool>, losses: seq<real>)
      requires Valid()
      requires |rewards| >= config.maxSteps && |dones| >= config.maxSteps && |losses| >= config.maxSteps
      requires forall t :: 0 <= t < config.maxSteps ==> |rewards[t]| > 0
      modifies this
      ensures Valid()
      ensures steps == old(steps) + EpisodeLength(dones, config.maxSteps)
      ensures episodes == old(episodes) + 1
      ensures rewardHistory == old(rewardHistory) + StepMeans(rewards, EpisodeLength(dones, config.maxSteps))
      ensures buffer == if config.replay
                        then old(buffer) + EpisodeTransitions(rewards, dones, config.maxSteps, EpisodeLength(dones, config.maxSteps))
                        else old(buffer)
      ensures trace == old(trace) + EpisodeEvents(config, old(steps), |old(buffer)|, losses, EpisodeLength(dones, config.maxSteps))
    {
      ghost var n := EpisodeLength(dones, config.maxSteps);
      ghost var start := State();
      var t := 0;
      while t < config.maxSteps
        invariant 0 <= t <= n
        invariant forall s :: 0 <= s < t ==> !dones[s] && s < config.maxSteps - 1
        invariant Valid() && episodes == old(episodes)
        invariant EpisodeState(config, State(), start, t, rewards, dones, losses)
        decreases config.maxSteps - t
      {
        EpisodeLengthAt(dones, config.maxSteps, t);
        var lastStep := TakeStep(rewards, dones, losses, t, start);
        t := t + 1;
        if lastStep {
          break;
        }
      }
      assert t == n && EpisodeState(config, State(), start, n, rewards, dones, losses);
      episodes := episodes + 1;
    }

    /** The body of the loop of `train_online` for step `t`. */
    method TakeStep(rewards: seq<Row>, dones: seq<bool>, losses: seq<real>, t: nat, ghost start: QState)
      returns (lastStep: bool)
      requires Valid() && t < config.maxSteps
      requires |rewards| >= config.maxSteps && |dones| >= config.maxSteps && |losses| >= config.maxSteps
      requires forall s :: 0 <= s < config.maxSteps ==> |rewards[s]| > 0
      requires EpisodeState(config, State(), start, t, rewards, dones, losses)
      modifies this
      ensures Valid() && episodes == old(episodes)
      ensures EpisodeState(config, State(), start, t + 1, rewards, dones, losses)
      ensures lastStep <==> dones[t] || t == config.maxSteps - 1
    {
      lastStep := dones[t] || t == config.maxSteps - 1;
      ghost var before := State();
      OnlineStep(Transition(rewards[t], dones[t], lastStep), losses[t], |start.buffer| + t + 1);
      EpisodeStateStep(config, before, State(), start, t, rewards, dones, losses);
    }

    /** One iteration of the loop of `train_online`: store the transition
        when replay is on, run the behaviour update whose condition holds
        and the target update when due, all against the step count before
        it grows; then count the step and fold its mean reward into
        `mean_reward`. `bufferLen` is the buffer length the conditions see
        when replay is on. */
    method OnlineStep(trans: Transition, loss: real, ghost bufferLen: nat)
      requires Valid() && |trans.reward| > 0
      requires config.replay ==> bufferLen == |buffer| + 1
      modifies this
      ensures Valid()
      ensures steps == old(steps) + 1 && episodes == old(episodes)
      ensures rewardHistory == old(rewardHistory) + [StepMean(trans.reward)]
      ensures buffer == if config.replay then old(buffer) + [trans] else old(buffer)
      ensures trace == old(trace) + StepEvents(config, old(steps), bufferLen, loss)
    {
      ghost var calls := trace;
      UpdateBehaviour(trans, loss, bufferLen);
      ghost var behaviour := StepCalls(config.replay, BehaviourFires(config, steps, bufferLen), false, steps, loss,
                                       config.gradClip);
      UpdateTarget();
      ghost var target := StepCalls(config.replay, false, TargetFires(config, steps), steps, 0.0, config.gradClip);
      StepCallsSplit(config.replay, BehaviourFires(config, steps, bufferLen), TargetFires(config, steps), steps, loss,
                     config.gradClip);
      assert calls + behaviour + target == calls + (behaviour + target);
      CountStep(StepMean(trans.reward));
    }

    /** Store the transition when replay is on, then run the behaviour
        update whose condition holds. */
    method UpdateBehaviour(trans: Transition, loss: real, ghost bufferLen: nat)
      requires ValidConfig(config)
      requires config.replay ==> bufferLen == |buffer| + 1
      modifies this
      ensures buffer == if config.replay then old(buffer) + [trans] else old(buffer)
      ensures trace == old(trace) + StepCalls(config.replay, BehaviourFires(config, steps, bufferLen), false, steps, loss,
                                             config.gradClip)
      ensures steps == old(steps) && episodes == old(episodes) && meanReward == old(meanReward)
      ensures rewardHistory == old(rewardHistory)
    {
      if config.replay {
        buffer := buffer + [trans];
        MultipleIsMod(steps, config.behaviourUpdateFreq);
        var replayCond := steps > config.replayWarmup && |buffer| >= config.batchSize
                          && steps % config.behaviourUpdateFreq == 0;
        if replayCond {
          trace := trace + [ReplayUpdate(steps)];
          TransitionProcess(loss);
        }
      } else {
        MultipleIsMod(steps, config.behaviourUpdateFreq);
        var onlineCond := steps % config.behaviourUpdateFreq == 0;
        if onlineCond {
          trace := trace + [OnlineUpdate(steps)];
          TransitionProcess(loss);
        }
      }
    }

    /** Run the target update when target networks are on and it is due. */
    method UpdateTarget()
      requires ValidConfig(config)
      modifies this
      ensures trace == old(trace) + StepCalls(config.replay, false, TargetFires(config, steps), steps, 0.0, config.gradClip)
      ensures steps == old(steps) && episodes == old(episodes) && meanReward == old(meanReward)
      ensures buffer == old(buffer) && rewardHistory == old(rewardHistory)
    {
      if config.target {
        MultipleIsMod(steps, config.targetUpdateFreq);
        var targetCond := steps % config.targetUpdateFreq == 0;
        if targetCond {
          trace := trace + [TargetUpdate(steps)];
        }
      }
    }

    /** `steps += 1` and the incremental update of `mean_reward` with the
        step's mean reward `x`. */
    method CountStep(x: real)
      requires Valid()
      modifies this
      ensures Valid()
      ensures steps == old(steps) + 1 && rewardHistory == old(rewardHistory) + [x]
      ensures episodes == old(episodes) && buffer == old(buffer) && trace == old(trace)
    {
      IncrementalMean(rewardHistory, x);
      steps := steps + 1;
      meanReward := meanReward + 1.0 / steps as real * (x - meanReward);
      rewardHistory := rewardHistory + [x];
    }
  }
}
