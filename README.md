# SQDDPG training core in Dafny

SQDDPG is a multi-agent reinforcement learning framework: several agents
act in one environment, and each agent has its own policy network and value
network, trained with PyTorch. This project models three pieces of its core
and proves properties about them.

- **The loss engine** (`rl_algorithms.py`, module `RlAlgorithms`).
  - `REINFORCE.get_loss` turns a batch of transitions into discounted
    returns. It walks the rows backwards and restarts at every `last_step`
    row.
  - `ActorCritic.get_loss` turns a batch into discounted TD errors. It
    walks the rows forwards and restarts the discount `I` at every
    `start_step` row.
  - Both then aggregate an action loss `sum(-advantages * log_prob) / batch`
    and a value loss `sum(deltas^2) / batch`.
- **IC3Net communication** (`models/ic3net.py`, module `IC3Net`).
  - The configuration check of the communicating and the independent
    variant, and the communication mask (ones minus the identity).
  - One round of gated communication: every agent receives the sum of the
    other live agents' hidden states, gated, masked and divided by
    `alive - 1`.
  - The loop of `comm_iters` rounds around a recurrent cell, the zero
    initial state, and the `comm_gate` statistic.
- **The trainers** (`utilities/trainer.py`, module `Trainer`).
  - `PGTrainer` runs a backward pass per agent and copies that agent
    optimizer's parameter list. It then reverses the lists, and every
    optimizer in turn pops one, takes its gradients, is clipped when
    configured and steps. The model covers this protocol, gradient
    clipping, the entropy bonus and the entropy schedule of `run`.
  - `QTrainer.train_online` runs one episode. The model covers the step
    and episode counters, the running mean reward, the replay buffer, and
    the behaviour and target update conditions. `transition_process` is
    also modelled.

Supporting modules: `Wrappers` holds `Option`, `Result` and `Outcome`.
`Tensors` holds rows and tables of reals with element-wise arithmetic and
sums.

Neural network outputs are parameters of the model:

- values and next values;
- the log-densities of the taken actions, and the discrete log-probabilities `log_p_a`;
- the sigmoid outputs of the gate;
- the recurrent cell, as a function.

Calls into the autodiff and optimizer library (`zero_grad`, `backward`,
`step`, gradient assignment, clipping, target update) are recorded as
events on a `trace`. Each trainer's contracts state that trace exactly.

## Model

| member | source | states |
|---|---|---|
| RlAlgorithms.ReturnRecurrence | rl_algorithms.py:57-61 | The return of a `last_step` row is its reward. Any other row's return is its reward plus gamma times the next row's return, and that next row exists. |
| RlAlgorithms.ReturnClosedForm | rl_algorithms.py:57-61 | For every agent, the return at row i is the gamma-discounted sum of that agent's rewards from i through the first `last_step` row at or after i. |
| RlAlgorithms.ReturnLocality | rl_algorithms.py:57-61 | The return at row i depends only on the rewards from i to the end of its episode segment. Changing rewards elsewhere leaves it unchanged. |
| RlAlgorithms.ReturnsExample | rl_algorithms.py:57-61 | One agent, rewards 1, 1, 1, 0, gamma 0.9, the last row a `last_step`: the returns are 2.71, 1.9, 1.0, 0.0. |
| RlAlgorithms.ComputeReturns | rl_algorithms.py:56-61 | The backward loop writes every row of the returns table with that row's return (the recurrence above). The rows are visited last to first. |
| RlAlgorithms.DiscountSteps | rl_algorithms.py:109-115 | The discount `I` is 1 on a `start_step` row. On any other row it is gamma times the previous row's discount. |
| RlAlgorithms.DiscountBounds | rl_algorithms.py:109-115 | With 0 <= gamma <= 1, the discount of every row lies in [0, 1]. |
| RlAlgorithms.ComputeDeltas | rl_algorithms.py:106-115 | The forward loop writes every row of the deltas table with `I * (r - v)` on a `last_step` row and `I * (r + gamma * v' - v)` otherwise. The rows are visited first to last. |
| RlAlgorithms.ActionLossFacts | rl_algorithms.py:73-74 | `sum(-advantages * log_prob) / batch` is 0 when every advantage is 0. It is non-negative when the advantages are non-negative and the log-probabilities non-positive. |
| RlAlgorithms.ValueLoss | rl_algorithms.py:75 | `sum(deltas^2) / batch` is non-negative, and it is zero exactly when every delta is zero. |
| RlAlgorithms.ReinforceValueLossZero | rl_algorithms.py:63-75 | The REINFORCE value loss is zero exactly when the values equal the returns. |
| RlAlgorithms.OneColumnFits | rl_algorithms.py:71-72 | The discrete `log_prob`, viewed as one column, has the advantages' shape exactly when there is one agent and one log-density per row. |
| RlAlgorithms.Aggregate | rl_algorithms.py:65-76 | Corrected aggregation: discrete log-densities are laid out one column per agent. It fails, with the shape error, exactly when the log-probabilities do not give one value per row and agent. On success, the value loss is non-negative and zero exactly when every delta is zero. The action loss is zero when every delta is, and non-negative when the deltas are non-negative and the log-probabilities non-positive. `log_p_a` is returned exactly for discrete actions. |
| RlAlgorithms.AggregateAsWritten | rl_algorithms.py:65-76 | Aggregation as written. A `log_prob` of another shape fails the assertion. Discrete actions fail it for every agent count other than 1, since `log_prob` is one column. Continuous actions always fail, with an unbound `log_p_a` once the assertion passes. Wherever it succeeds it equals `Aggregate`. |
| RlAlgorithms.ContinuousLogitsUnboundWitness | rl_algorithms.py:65-76 | One concrete continuous batch fails as written and succeeds under the corrected aggregation. |
| RlAlgorithms.DiscreteColumnWitness | rl_algorithms.py:71-72 | One concrete two-agent discrete batch fails the shape assertion as written and succeeds under the corrected aggregation. |
| RlAlgorithms.ReinforceLoss | rl_algorithms.py:40-76 | Corrected REINFORCE loss. It succeeds exactly when the rewards have n columns, the last row is `last_step` and the log-probabilities fit. Its value loss is zero exactly when the values equal the returns, and `log_p_a` is returned exactly for discrete actions. |
| RlAlgorithms.ActorCriticLoss | rl_algorithms.py:88-129 | Corrected ActorCritic loss. It succeeds exactly when the next values have the values' shape, the first row is `start_step` and the log-probabilities fit. Its value loss is zero exactly when every TD error is zero. |
| RlAlgorithms.ReinforceGetLoss | rl_algorithms.py:40-76 | As written. Results in order: rewards not n per row give the shape assertion. A final row that is not `last_step` gives an unbound `prev_coop_return`. Otherwise the result is the as-written aggregation of returns minus values. Every success equals the corrected `ReinforceLoss`. |
| RlAlgorithms.ActorCriticGetLoss | rl_algorithms.py:88-129 | As written. Results in order: next values of another shape give the shape assertion. A first row that is not `start_step` gives an unbound `I`. Otherwise the result is the as-written aggregation of the deltas. Every success equals the corrected `ActorCriticLoss`. |
| IC3Net.Identifier | models/ic3net.py:20-24 | `IC3Net.identifier` accepts exactly comm_iters >= 2. It reports "below one" exactly for 0, and sends every other value below 2 to the independent variant. |
| IC3Net.IndependentIdentifier | models/ic3net.py:111-115 | `IndependentIC3Net.identifier` accepts exactly 1 and every negative value. It reports "below one" exactly for 0, and sends values above 1 to the communicating variant. |
| IC3Net.ValidateCommIters | models/ic3net.py:111-115 | Corrected check. The independent variant accepts exactly 1 and the communicating one exactly >= 2. Every value below 1 is reported as "below one". |
| IC3Net.ValidateAgreesOnNonNegative | models/ic3net.py:20-24 | On non-negative comm_iters the corrected check returns what `IC3Net.identifier` returns. For the independent variant it returns what `IndependentIC3Net.identifier` (lines 111-115) returns. |
| IC3Net.VariantsPartition | models/ic3net.py:111-115 | Under the corrected check `ValidateCommIters`, every comm_iters >= 1 is accepted by exactly one variant, and both variants reject every value below 1 as below one. |
| IC3Net.NegativeCommItersWitness | models/ic3net.py:111-115 | comm_iters = -1 passes `IndependentIC3Net.identifier` as written and is rejected by the corrected check. |
| IC3Net.CommMask | models/ic3net.py:39-40 | The communication mask is n x n, 0 on the diagonal and 1 everywhere else. |
| IC3Net.Construct | models/ic3net.py:12-17 | Corrected construction, built on the corrected check `ValidateCommIters`. It succeeds exactly when that check passes. On success the model keeps comm_iters (at least 1) and holds the mask above. On failure it reports the check's error. |
| IC3Net.ViewOfFlatten | models/ic3net.py:54 | Flattening a batch x n x width block to (batch*n) x width and viewing it back gives the block. |
| IC3Net.FlattenOfView | models/ic3net.py:82 | Viewing a (batch*n)-row table as a block and flattening it gives the table. |
| IC3Net.GateOf | models/ic3net.py:56-58 | Every gate entry is 0 or 1. Entry (i, k) is 1 exactly when i != k and the sigmoid output exceeds 0.5. |
| IC3Net.Communicate | models/ic3net.py:60-77 | Each receiver's communication vector is the sum over senders of the sender's hidden state, weighted by gate, mask and both alive flags, and divided by the number of live agents minus one when more than one agent is alive. It has the hidden size. |
| IC3Net.SilentSenderIrrelevant | models/ic3net.py:71-77 | A sender whose weight towards receiver k is zero can change its hidden state without changing what k receives. |
| IC3Net.OwnStateExcluded | models/ic3net.py:57-71 | Under the communication mask, an agent's own hidden state never reaches its own communication vector. |
| IC3Net.DeadSenderSilent | models/ic3net.py:73 | A dead agent's hidden state changes nobody's communication vector. |
| IC3Net.DeadReceiverHearsNothing | models/ic3net.py:73-77 | A dead agent's communication vector is zero. |
| IC3Net.LoneSurvivorHearsNothing | models/ic3net.py:73-75 | With at most one live agent, every communication vector is zero, and no division happens. |
| IC3Net.TwoAliveUndivided | models/ic3net.py:75 | With exactly two live agents, each message is the weighted hidden state undivided, since alive - 1 is 1. |
| IC3Net.OpenGatesMean | models/ic3net.py:71-77 | With every agent alive and every gate towards k open, k receives the mean of the other agents' hidden states. |
| IC3Net.InitHidden | models/ic3net.py:95-98 | The initial hidden and cell states are (batch*n) x hid tables of zeros. |
| IC3Net.Policy | models/ic3net.py:44-87 | The loop runs exactly comm_iters rounds from the zero state. The result is the final hidden state viewed as batch x n x hid. `comm_gate` is reported exactly when the batch is one, and it is the last round's gate. |
| Trainer.ClampAll | utilities/trainer.py:64-67 | Every element ends in [-1, 1]. Elements in range are kept and the others go to the nearer bound. |
| Trainer.ClampAllIdempotent | utilities/trainer.py:64-67 | Clipping twice is clipping once. |
| Trainer.ClampInPlace | utilities/trainer.py:67 | The gradient array is replaced by its clamped contents. |
| Trainer.GradClip | utilities/trainer.py:64-67 | Every gradient in the parameter list is replaced by its clamped contents. |
| Trainer.EffectiveActionLoss | utilities/trainer.py:52-59 | With a non-negative entropy the loss passed to `backward` never exceeds the action loss. It is unchanged exactly for continuous actions, `entr <= 0`, or zero entropy. |
| Trainer.BackwardPhaseCalls | utilities/trainer.py:83-89 | The first loop makes 2n calls: for agent i, the zeroing of optimizer i, then the backward pass of loss i, keeping the graph unless i is the last agent. |
| Trainer.ClippedReplayCalls | utilities/trainer.py:92-100 | With clipping, the second loop makes 3n calls: optimizer j takes agent j's gradients, is clipped, then steps. |
| Trainer.UnclippedReplayCalls | utilities/trainer.py:92-100 | Without clipping, the second loop makes 2n calls: optimizer j takes agent j's gradients, then steps. |
| Trainer.ProtocolOrder | utilities/trainer.py:79-102 | A whole transition process makes 5n calls with clipping and 4n without. The backward passes come first, in agent order. Every optimizer is then replayed from its own agent's copy, at the stated positions. |
| Trainer.PGTrainer.constructor | utilities/trainer.py:14-46 | A new trainer keeps the agent count, the action kind, the clipping flag, `entr` and `entr_inc`, and has made no calls. |
| Trainer.PGTrainer.TransitionProcess | utilities/trainer.py:83-100 | It appends exactly the protocol trace for the given losses and leaves `entr` unchanged. The popped list is empty at the end. |
| Trainer.PGTrainer.BackwardLoop | utilities/trainer.py:83-89 | It appends the first loop's calls and returns the copied lists in agent order 0..n-1. |
| Trainer.PGTrainer.ReplayLoop | utilities/trainer.py:90-100 | Given the reversed list, every optimizer pops its own agent's list. It appends the second loop's calls and leaves the list empty. |
| Trainer.PGTrainer.ActionTransitionProcess | utilities/trainer.py:79-102 | It appends the protocol trace for the action head, each loss carrying the entropy rule. |
| Trainer.PGTrainer.ValueTransitionProcess | utilities/trainer.py:104-127 | It appends the protocol trace for the value head with the value losses. |
| Trainer.PGTrainer.Run | utilities/trainer.py:129-131 | `entr` grows by exactly `entr_inc`. The training pass `train_process` that `run` makes first is not modelled, so the trace is unchanged. |
| Trainer.MultipleIsMod | utilities/trainer.py:195-207 | The divisibility predicate used by the update conditions holds exactly when `steps % freq == 0`. |
| Trainer.EpisodeLength | utilities/trainer.py:174-212 | An episode takes at most `max_steps` steps, and at least one when `max_steps > 0`. No step before the last is done, and an episode shorter than the limit ends on a done step. |
| Trainer.EpisodeLengthAt | utilities/trainer.py:174-212 | While no earlier step ended the episode, step t is taken. It is the last step exactly when it is done or is step `max_steps - 1`. |
| Trainer.EpisodeEndsOnce | utilities/trainer.py:184-192 | Exactly the last transition of an episode carries the `done_` flag. |
| Trainer.IncrementalMean | utilities/trainer.py:208-209 | `mean += 1/steps * (x - mean)` with the new step count turns the mean of the earlier values into the mean of all values. |
| Trainer.ReplayFiresIff | utilities/trainer.py:193-199 | A replay update at step count x happens exactly when replay is on, x is a step count of the episode, and, with the buffer as it stood then, `x > replay_warmup`, the buffer holds `batch_size` transitions and `x % behaviour_update_freq == 0`. |
| Trainer.OnlineFiresIff | utilities/trainer.py:200-203 | An online update at step count x happens exactly when replay is off, x is a step count of the episode and `x % behaviour_update_freq == 0`. |
| Trainer.TargetFiresIff | utilities/trainer.py:204-207 | A target update at step count x happens exactly when target networks are on, x is a step count of the episode and `x % target_update_freq == 0`. |
| Trainer.QTrainer.constructor | utilities/trainer.py:166-168 | A new trainer has zero steps and zero episodes, a zero mean reward, an empty buffer and no calls. |
| Trainer.QTrainer.TransitionProcess | utilities/trainer.py:233-241 | It appends zero-grad, backward, clip when configured, and step, and changes nothing else. |
| Trainer.QTrainer.TrainOnline | utilities/trainer.py:170-214 | One episode adds the episode length to `steps` and one to `episodes`. The buffer gains the episode's transitions exactly when replay is on, and the calls are those of every step taken. `mean_reward` stays the mean of all per-step mean rewards. |
| Trainer.QTrainer.OnlineStep | utilities/trainer.py:193-209 | One loop iteration: it stores the transition when replay is on, then makes the behaviour and target update calls whose conditions hold at the old step count, counts the step and keeps `mean_reward` the running mean. |
| Trainer.QTrainer.UpdateBehaviour | utilities/trainer.py:193-203 | It stores the transition when replay is on. It runs the replay or online update exactly when its condition holds at the current step count. |
| Trainer.QTrainer.UpdateTarget | utilities/trainer.py:204-207 | It runs the target update exactly when target networks are on and the step count is a multiple of the target update frequency. |
| Trainer.QTrainer.CountStep | utilities/trainer.py:208-209 | `steps` grows by one, and `mean_reward` stays the arithmetic mean of all per-step mean rewards. |

## Left out

- Floating point: tensors are unbounded reals, so float32 rounding and overflow are not modelled.
- Neural network layers (encoder, gate module, LSTM cell, action and value heads) and the log-density functions are not modelled. Their outputs are parameters, and the cell is a given function that keeps shapes.
- Autodiff and the optimizers: `zero_grad`, `backward`, gradient assignment, clipping and `step` are events on a trace, without values.
- The gradient norms (`get_grad_norm`) and the statistics built from them are not modelled.
- `PGTrainer`: the `param[i].grad = param_[i].grad` loop only records which copied list each optimizer reads. The copy is shallow, so the model does not claim that gradient values are frozen between the loops.
- `PGTrainer`: the per-agent losses reach the transition process as given numbers. How `get_loss`'s output is indexed per agent is not modelled.
- Trainer.PGTrainer.Run: the training pass `self.behaviour_net.train_process(stat, self)` (trainer.py:130) belongs to the model classes, which are not part of this model. `Run` records no call for it.
- Trainer.PGTrainer.ReplayLoop: assumes one optimizer per agent. The source pops once per optimizer in `self.action_optimizers`, so another count would pop from an empty list or leave copies behind.
- `PGTrainer`: `get_loss`, the replay-process wrappers, `logging`, `print_info` and the `stat` dictionary are not modelled. They are library calls and output.
- `QTrainer`: `run`, `logging`, `print_info`, `stat`, the environment, action selection and observation preprocessing are not modelled. Per-step rewards, done flags and losses are parameters.
- `QTrainer`: the replay buffer is an unbounded sequence in arrival order. Capacity eviction and batch sampling are not modelled.
- `QTrainer`: `done` is a single flag. The reduction of a list of done flags by summation is not modelled.
- Trainer.QTrainer.TrainOnline: requires a non-empty reward vector for every step, since the mean of an empty vector is NaN.
- Trainer.QTrainer.constructor: requires positive update frequencies, since a zero frequency would raise at the first `%`.
- `get_agent_mask` is not modelled. The alive flags are a parameter.
- IC3Net.Message: divides by `NumAlive(alive) - 1`. This assumes the `num_agents_alive` that `get_agent_mask` returns equals the number of live agents in the alive mask.
- IC3Net.Construct: composes the corrected check `ValidateCommIters`, not the identifiers as written. A negative comm_iters therefore fails for both variants with "below one". As written, `IndependentIC3Net` accepts it, and `IC3Net` raises "use IndependentIC3Net". `IC3Net.Identifier` and `IC3Net.IndependentIdentifier` model those outcomes.
- The DDPG loss, the other models, `arguments.py` and the value network of IC3Net are not modelled.
- RlAlgorithms.ReinforceGetLoss: requires a non-empty batch, aligned flag lists and rectangular rewards. Ragged rows make `torch.tensor` raise. An empty batch raises `IndexError` at `list(zip(*batch.action))[0]` (rl_algorithms.py:48) before any loss is computed. Neither error is modelled. The same requires holds for `ReinforceLoss`.
- RlAlgorithms.ActorCriticGetLoss: requires a non-empty batch with n rewards per row. An empty batch raises at line 96. A reward row of another length either broadcasts against the values (a single reward) or makes the tensor arithmetic raise, and neither is modelled. The same requires holds for `ActorCriticLoss`.
- RlAlgorithms.ActionLossFacts: states the sign and the zero case of the action loss, not its value.
- The log-densities `normal_log_density` and `multinomials_log_density` compute are parameters. For discrete actions they are taken as one value per row and agent, in row-major order.
- IC3Net.Policy: requires at least one round when the batch is one. With zero rounds the source would read an unbound `gate_`, and `Construct` never yields such a model.
- The returns and deltas tables are sequences whose rows are replaced one at a time, not tensors updated in place.

## Findings

| source | as written | input that shows it | evidently intended | confidence | as-written member | corrected member |
|---|---|---|---|---|---|---|
| rl_algorithms.py:65-76 (and 118-129) | `log_p_a` is bound only in the discrete branch but is returned in both, so a continuous batch raises an unbound-local error | continuous actions, one row, one agent, `log_prob` shaped like the advantages | unclear: trainer.py:87 slices `log_p_a` for every agent, so the trainer needs some per-agent action output even for continuous actions; the corrected model only removes the crash in `get_loss` and returns no `log_p_a` | not executed; read from the code | RlAlgorithms.AggregateAsWritten, RlAlgorithms.ContinuousLogitsUnboundWitness | RlAlgorithms.Aggregate |
| models/ic3net.py:111-115 | `IndependentIC3Net.identifier` rejects only 0 and values above 1, so negative comm_iters pass | comm_iters = -1 | reject every value below 1, as the "at least 1" message says | not executed; read from the code | IC3Net.IndependentIdentifier, IC3Net.NegativeCommItersWitness | IC3Net.ValidateCommIters |
| rl_algorithms.py:71-72 (and 124-125) | the discrete `log_prob` is viewed as one column (`view(-1, 1)`) while the advantages have one column per agent, so the shape assertion fails for every agent count of 2 or more | discrete actions, two agents, one row, log-densities -0.5, -0.5 | a per-agent layout (`view(-1, n)`) that matches the advantages | not executed; the layout is inferred from the advantages' shape | RlAlgorithms.AggregateAsWritten, RlAlgorithms.DiscreteColumnWitness | RlAlgorithms.Aggregate |
