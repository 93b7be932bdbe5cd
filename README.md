# DDPG replay buffer, training loop and reward plotter, in Dafny

This project models the bookkeeping of a Deep Deterministic Policy Gradient
trainer. It proves properties of that model.

- `replay_buffer.dfy`, module `ReplayBuffers`: the experience replay buffer
  (`ReplayBuffer` in `ddpg.py`). It is a deque bounded by a capacity. It holds
  transition records `(state, action, reward, next_state, done)`. A store into
  a full buffer evicts the oldest record and then appends the new one.
  `sample_batch` draws `min(len, batch_size)` distinct records with
  `random.sample` and unzips them into one sequence per field. The model is a
  class holding a `seq<Transition>` and a `capacity`. The random choice is a
  caller-supplied sequence of distinct positions (`IsSampleOf`). The field-wise
  `torch.cat` over `zip(*records)` is the pure transpose `Unzip`.
- `training.dfy`, module `Training`: the control skeleton of `DDPG.train` and
  `get_reward_list`. The environment and the actor's action choice form one
  oracle (`Environment`). `reset(e)` gives the first observation of episode
  `e`. `step(e, t, s)` gives the action, next observation, reward and
  terminated/truncated flags at time `t` in state `s`. `Episode` and
  `Experience` are the reference definitions of which steps the loop takes.
  `Trainer.Train` is proved to store exactly those steps and to record one
  reward total per episode. `GetRewardList` returns `None` until `Train` has run,
  as the source's `None` field does.
- `plotting.dfy`, module `Plotting`: the reward accumulators of
  `DDPG/Plotter.py`. These are a fixed-length table of per-episode reward
  lists, an evaluation list, and the per-episode totals that `plot_rewards`
  draws.
- `builtins.dfy`, module `Builtins`: Python's `sum` (a left fold from 0), `min`, `range(n)`
  and the length of `range(n)`.

Capacity, batch size and the per-episode step cap come from a configuration
module in the source. Here they are constructor parameters. Rewards are
unbounded integers.

How the source fails:
- Sampling an empty buffer is not a dedicated error. `transition()` is then
  called with no fields and raises a `TypeError` (`NoFieldsToStack`). A batch
  size of 0 raises the same error on a non-empty buffer. A negative batch size
  makes `random.sample` raise (`NegativeSampleSize`).
- `store_transition` does not check the dimensions of the record's fields.
- A capacity of 0 is accepted by the deque. The first store then fails in
  `popleft` (`PopFromEmptyDeque`).

## Model

| member | source | states |
|---|---|---|
| `ReplayBuffers.ReplayBuffer.constructor` | ddpg.py:12-13 | a new buffer is empty and has the given capacity |
| `ReplayBuffers.ReplayBuffer.StoreTransition` | ddpg.py:15-21 | below capacity the record is appended and every old record keeps its position; at capacity the result is exactly `old[1..] + [new]`; with capacity 0 the store fails and the buffer is unchanged; the length never exceeds the capacity |
| `ReplayBuffers.Window` | ddpg.py:13 | what a deque bounded by the capacity keeps of a sequence: as many elements as fit, and the whole sequence when it fits |
| `ReplayBuffers.Push` | ddpg.py:16-21 | one store keeps the last `min(len + 1, capacity)` records of `old + [new]` |
| `ReplayBuffers.StoreAll` | ddpg.py:13-17 | after any sequence of stores the buffer length is at most the capacity |
| `ReplayBuffers.StoreAllKeepsNewest` | ddpg.py:13-21 | after any sequence of stores the buffer holds exactly the newest records that fit, in the order they were stored |
| `ReplayBuffers.StoreAllConcat` | ddpg.py:15-21 | storing `xs` and then `ys` leaves the same buffer as storing `xs + ys` |
| `ReplayBuffers.StoreBeyondCapacity` | ddpg.py:16-21 | storing more records than fit into an empty buffer evicts the oldest and keeps the newest `capacity` records in order |
| `ReplayBuffers.StoreFourIntoThree` | ddpg.py:15-21 | with capacity 3, storing `T1..T4` leaves `[T2, T3, T4]` |
| `ReplayBuffers.ReplayBuffer.SampleBatch` | ddpg.py:23-27 | succeeds exactly when the buffer is non-empty and the batch size positive; the error says which case failed; a batch has `min(len, batch_size)` entries in every field, and entry `i` of every field comes from the same record, the one at sampled position `i`; the buffer is only read |
| `ReplayBuffers.Unzip` | ddpg.py:24-26 | the transpose has one entry per record in every field, and entry `i` of each field is that field of record `i` |
| `ReplayBuffers.ZipUnzip` | ddpg.py:24-26 | zipping an unzipped batch gives back the records |
| `ReplayBuffers.UnzipZip` | ddpg.py:24-26 | every batch whose fields have equal lengths is the unzipping of its zipped records |
| `ReplayBuffers.IsSampleOf` | ddpg.py:26 | what `random.sample(buffer, min(len, batch_size))` may return: distinct positions of the buffer, never more than it holds or than the batch size asks for, and none for a batch size of 0 or less |
| `ReplayBuffers.Select` | ddpg.py:26 | the sample has one record per picked position, record `i` being the one at position `picks[i]` |
| `ReplayBuffers.SampleExists` | ddpg.py:26 | for every buffer length and batch size the random source has a valid choice of distinct positions |
| `ReplayBuffers.SampleIsSubMultiset` | ddpg.py:26 | sampling is without replacement: the sampled records form a sub-multiset of the buffer, and a sample of every position is a permutation of it |
| `Training.StepTransition` | ddpg.py:51-60 | the stored record starts in the current state, and its done flag is `terminated or truncated` |
| `Training.EpisodeFrom` | ddpg.py:50-101 | the steps taken from time `t` on: no more than the remaining budget, and none exactly when the budget is spent |
| `Training.Episode` | ddpg.py:45-101 | the steps of one episode: at most `MAX_TIME_STEPS` of them, and none exactly when that cap is not positive |
| `Training.Experience` | ddpg.py:45-101 | the records stored over `n` episodes: at most `n * MAX_TIME_STEPS`, and at least one per episode when the cap is positive |
| `Training.EpisodeFromShape` | ddpg.py:50-101 | an episode takes at most `MAX_TIME_STEPS` steps, and at least one when the cap is positive; every step before the last is not done; an episode that ends before the cap ends on a done step; each step starts in the state the previous step led to, the first in the reset state; step `i` is the record the environment gives at time `t + i` in that state |
| `Training.ImmediateTermination` | ddpg.py:50-101 | when the first step terminates, the episode takes exactly that step and its total is that step's reward |
| `Training.TakeStep` | ddpg.py:51-101 | one pass of the inner loop extends the steps taken by one record and adds that record's reward to the running total; a done step completes the episode |
| `Training.StepRewardsAreRewardField` | ddpg.py:54-57 | the rewards the loop accumulates are the reward field of the unzipped records |
| `Training.StepRewardsConcat` | ddpg.py:54 | the rewards of two runs of steps, concatenated, are the rewards of the concatenated runs |
| `Training.EpisodeReward` | ddpg.py:48-54 | the final `episode_reward`: the sum of the rewards of the steps the episode took, 0 when the step cap leaves no step |
| `Training.EpisodeRewards` | ddpg.py:103 | the reward list after `n` episodes has `n` entries |
| `Training.EpisodeRewardsAt` | ddpg.py:48-103 | entry `e` of the reward list is the sum of the rewards of the steps episode `e` took |
| `Training.EpisodeRewardsAddUp` | ddpg.py:48-54 | the episode totals add up to the sum of all stored rewards: each step's reward is counted in exactly one episode |
| `Training.Trainer.constructor` | ddpg.py:31-39 | the trainer starts with an empty buffer of the configured capacity and no reward list |
| `Training.Trainer.GetRewardList` | ddpg.py:107-109 | returns the trainer's reward list: `None` before `Train`, afterwards the list `Train` promises |
| `Training.Trainer.RunEpisode` | ddpg.py:46-101 | one episode stores exactly the records of `Episode`, in order, and returns the sum of their rewards; its body proves that every sample, drawn right after a store, succeeds |
| `Training.Trainer.Train` | ddpg.py:41-105 | afterwards the reward list has one entry per episode of `range(max_episodes)`, entry `e` being episode `e`'s total; the buffer equals the old buffer after storing every step of every episode in order |
| `Builtins.Sum` | DDPG/Plotter.py:18 | `sum` starts from 0, so an empty list sums to 0 |
| `Builtins.SumConcat` | DDPG/Plotter.py:18 | the sum of a concatenation is the sum of the sums |
| `Builtins.SumSnoc` | ddpg.py:54 | adding one more reward raises the sum by that reward |
| `Builtins.Range` | ddpg.py:45 | `range(n)` yields `0, 1, ..., n - 1` in order, `RangeLength(n)` values in all, none for a negative `n` |
| `Builtins.Min` | ddpg.py:26 | `min` is at most both arguments and equals one of them |
| `Plotting.Totals` | DDPG/Plotter.py:18 | there is one total per episode list |
| `Plotting.TotalsAt` | DDPG/Plotter.py:18 | total `e` is the sum of list `e` |
| `Plotting.AppendRaisesOneTotal` | DDPG/Plotter.py:9-18 | appending a reward to list `e` raises total `e` by that reward and leaves every other total unchanged |
| `Plotting.Plotter.constructor` | DDPG/Plotter.py:5-7 | the table holds one empty list per element of `range(num_episodes)`, and the evaluation list is empty |
| `Plotting.Plotter.AddTrainingReward` | DDPG/Plotter.py:9-10 | the reward is appended to the end of list `episode` only; the table keeps its length; every other list and the evaluation list are unchanged |
| `Plotting.Plotter.AddEvaluationReward` | DDPG/Plotter.py:12-13 | the reward is appended to the end of the evaluation list; the training table is unchanged |
| `Plotting.Plotter.PlotRewards` | DDPG/Plotter.py:15-24 | the training series has one entry per episode, entry `e` being the sum of list `e`; the evaluation series is the evaluation list |

## Left out

- Critic and actor updates (ddpg.py:64-84) are left out: the TD target, the losses, `backward()` and the optimizer steps are float tensor computations in a library.
- The Polyak soft update of the target networks (ddpg.py:86-93) is left out: it is elementwise floating-point arithmetic over network parameters.
- `env.reset`, `env.step` and `actor.select_action` (ddpg.py:46, 51-52) are replaced by the `Environment` oracle, a fixed function of episode, time and state. `env.close()` (ddpg.py:105) is left out.
- Tensor construction, `device` and `dtype` (ddpg.py:47, 56-58) are left out. Observations and actions are the abstract types `S` and `A`. The done flag is stored as a boolean, not as a 0/1 float tensor.
- Rewards are unbounded integers, not floating-point numbers. With floats, `EpisodeRewardsAddUp` holds only up to rounding.
- The `print` logging (ddpg.py:44, 96-100) and the plotting calls (DDPG/Plotter.py:16-24) are I/O and are left out.
- The `params` module is not part of this model. It holds the constants and the `transition` named tuple.
- `Main.py` and `main.py` only wire scripts together and are not part of this model.
- Training.Trainer.Train: requires a positive capacity and a positive batch size. The source raises at the first step of the first episode: with capacity 0 in `popleft`, with batch size 0 in `transition()` (TypeError), with a negative batch size in `random.sample` (ValueError). The requires also excludes calls that take no step (`max_episodes <= 0` or `MAX_TIME_STEPS <= 0`), for which the source returns normally whatever the capacity and batch size.
- Training.Trainer.Train: the environment and actor oracle is fixed when the trainer is built. A second `Train` call therefore replays the same episodes, while in the source it resets the environment again and acts with networks and noise that the first call has changed. Every caller in the repository trains once.
- ReplayBuffers.ReplayBuffer.constructor: the capacity is a `nat`. A negative `maxlen` makes `deque` raise `ValueError` (ddpg.py:13); that error is not modelled.
- Training.Trainer.constructor: the capacity is a `nat`, as for the buffer's constructor. The `ValueError` that `deque` raises for a negative capacity (ddpg.py:13, reached from ddpg.py:38) is not modelled.
- Training.Trainer.RunEpisode: requires a positive capacity and a positive batch size, like `Train`. With capacity 0 the source raises at the first store; with batch size 0 or a negative one, at the first sample (TypeError or ValueError). An episode with `MAX_TIME_STEPS <= 0` takes no step and would not raise, but it is excluded too.
- Training.Trainer.RunEpisode: the sampled batch is a ghost, chosen nondeterministically among valid samples. It is drawn only to prove that sampling succeeds. Its use by the network updates is left out.
- Training.Trainer.GetRewardList: the result is a sequence value. The source hands out the list object itself (ddpg.py:108-109), so a caller's `append` to it would change the trainer's list. That aliasing is not modelled.
- The default arguments `max_episodes=MAX_EPISODES` (ddpg.py:41) and `batch_size=BATCH_SIZE` (ddpg.py:23) are not modelled. `Train` takes the episode count as an argument, and `SampleBatch` takes the batch size as one.
- Plotting.Plotter.AddTrainingReward: requires `0 <= episode`. Python would wrap a negative index around to the end of the table.
