/** The control skeleton of `DDPG.train`: episodes of at most `maxTimeSteps` steps,
    each step storing one transition and then sampling a batch, one reward total
    per episode. The environment, together with the actor's choice of action, is
    an oracle; the network updates are not modelled. */
module Training {
  import opened Builtins
  import opened ReplayBuffers

  datatype Option<T> = None | Some(value: T)

  /** What one step yields: the action the actor selected and what `env.step` returned. */
  datatype StepResult<S, A> = StepResult(action: A, nextState: S, reward: int, terminated: bool, truncated: bool)

  /** The environment and the actor as an oracle: `reset(e)` is the first observation
      of episode e, `step(e, t, s)` what happens at time t of episode e in state s. */
  datatype Environment<!S, A> = Environment(reset: nat -> S, step: (nat, nat, S) -> StepResult<S, A>)

  /** The record stored for time t of episode e in state `state`; done is terminated or truncated. */
  function StepTransition<S, A>(env: Environment<S, A>, e: nat, t: nat, state: S): (tr: Transition<S, A>)
    ensures tr.state == state
    ensures tr.done <==> env.step(e, t, state).terminated || env.step(e, t, state).truncated
  {
    var o := env.step(e, t, state);
    Transition(state, o.action, o.reward, o.nextState, o.terminated || o.truncated)
  }

  /** The transitions of episode e from time t on, in state `state`: one per step
      until the step budget is spent or a step is done. */
  function EpisodeFrom<S, A>(env: Environment<S, A>, maxTimeSteps: int, e: nat, t: nat, state: S): (ep: seq<Transition<S, A>>)
    ensures |ep| <= RangeLength(maxTimeSteps - t)
    ensures ep == [] <==> maxTimeSteps <= t
    decreases maxTimeSteps - t
  {
    if t >= maxTimeSteps then []
    else
      var tr := StepTransition(env, e, t, state);
      [tr] + if tr.done then [] else EpisodeFrom(env, maxTimeSteps, e, t + 1, tr.nextState)
  }

  /** The transitions of episode e, from the state `reset` gives. */
  function Episode<S, A>(env: Environment<S, A>, maxTimeSteps: int, e: nat): (ep: seq<Transition<S, A>>)
    ensures |ep| <= RangeLength(maxTimeSteps)
    ensures ep == [] <==> maxTimeSteps <= 0
  {
    EpisodeFrom(env, maxTimeSteps, e, 0, env.reset(e))
  }

  /** The step rewards of a run of transitions, in order. */
  function StepRewards<S, A>(ts: seq<Transition<S, A>>): (r: seq<int>)
    ensures |r| == |ts|
  {
    if ts == [] then [] else StepRewards(ts[..|ts| - 1]) + [ts[|ts| - 1].reward]
  }

  /** The step rewards are the reward field of the unzipped batch. */
  lemma {:induction false} StepRewardsAreRewardField<S, A>(ts: seq<Transition<S, A>>)
    ensures StepRewards(ts) == Unzip(ts).rewards
  {
    if ts != [] {
      StepRewardsAreRewardField(ts[..|ts| - 1]);
    }
  }

  lemma {:induction false} StepRewardsConcat<S, A>(ts: seq<Transition<S, A>>, us: seq<Transition<S, A>>)
    ensures StepRewards(ts + us) == StepRewards(ts) + StepRewards(us)
    decreases |us|
  {
    if us == [] {
      assert ts + us == ts;
    } else {
      var init := us[..|us| - 1];
      assert (ts + us)[..|ts + us| - 1] == ts + init;
      StepRewardsConcat(ts, init);
    }
  }

  /** The reward total of episode e: the sum of the rewards of the steps it took. */
  function EpisodeReward<S, A>(env: Environment<S, A>, maxTimeSteps: int, e: nat): (r: int)
    ensures maxTimeSteps <= 0 ==> r == 0
  {
    Sum(StepRewards(Episode(env, maxTimeSteps, e)))
  }

  /** Every transition of the first n episodes, in the order they were stored. */
  function Experience<S, A>(env: Environment<S, A>, maxTimeSteps: int, n: nat): (r: seq<Transition<S, A>>)
    ensures |r| <= n * RangeLength(maxTimeSteps)
    ensures 0 < n && 0 < maxTimeSteps ==> n <= |r|
  {
    if n == 0 then [] else Experience(env, maxTimeSteps, n - 1) + Episode(env, maxTimeSteps, n - 1)
  }

  /** An episode from time t takes at most the remaining step budget, and at least
      one step when any is left; it stops at the first done step, so only an
      episode that spends its whole budget may end on a step that is not done;
      and each step starts in the state the previous one led to. */
  lemma {:induction false} EpisodeFromShape<S, A>(env: Environment<S, A>, maxTimeSteps: int, e: nat, t: nat, state: S)
    ensures var ep := EpisodeFrom(env, maxTimeSteps, e, t, state);
      && |ep| <= RangeLength(maxTimeSteps - t)
      && (ep == [] <==> maxTimeSteps <= t)
      && (forall i :: 0 <= i < |ep| - 1 ==> !ep[i].done)
      && (ep != [] ==> ep[|ep| - 1].done || |ep| == maxTimeSteps - t)
      && (ep != [] ==> ep[0].state == state)
      && (forall i :: 0 <= i < |ep| - 1 ==> ep[i + 1].state == ep[i].nextState)
      && (forall i :: 0 <= i < |ep| ==> ep[i] == StepTransition(env, e, t + i, ep[i].state))
    decreases maxTimeSteps - t
  {
    if t < maxTimeSteps {
      var tr := StepTransition(env, e, t, state);
      if !tr.done {
        var rest := EpisodeFrom(env, maxTimeSteps, e, t + 1, tr.nextState);
        EpisodeFromShape(env, maxTimeSteps, e, t + 1, tr.nextState);
        assert EpisodeFrom(env, maxTimeSteps, e, t, state) == [tr] + rest;
      } else {
        assert EpisodeFrom(env, maxTimeSteps, e, t, state) == [tr];
      }
    }
  }

  /** An episode whose first step terminates takes that one step, and its total is that step's reward. */
  lemma ImmediateTermination<S, A>(env: Environment<S, A>, maxTimeSteps: int, e: nat)
    requires 0 < maxTimeSteps
    requires env.step(e, 0, env.reset(e)).terminated
    ensures |Episode(env, maxTimeSteps, e)| == 1
    ensures EpisodeReward(env, maxTimeSteps, e) == env.step(e, 0, env.reset(e)).reward
  {
    var tr := StepTransition(env, e, 0, env.reset(e));
    assert Episode(env, maxTimeSteps, e) == [tr] + [];
    assert StepRewards([tr]) == [] + [tr.reward];
    SumSnoc([], tr.reward);
  }

  /** The reward list after n episodes: one total per episode, in episode order. */
  function EpisodeRewards<S, A>(env: Environment<S, A>, maxTimeSteps: int, n: nat): (r: seq<int>)
    ensures |r| == n
  {
    if n == 0 then [] else EpisodeRewards(env, maxTimeSteps, n - 1) + [EpisodeReward(env, maxTimeSteps, n - 1)]
  }

  /** Entry e of the reward list is the total of episode e. */
  lemma {:induction false} EpisodeRewardsAt<S, A>(env: Environment<S, A>, maxTimeSteps: int, n: nat, e: nat)
    requires e < n
    ensures EpisodeRewards(env, maxTimeSteps, n)[e] == EpisodeReward(env, maxTimeSteps, e)
  {
    if e < n - 1 {
      EpisodeRewardsAt(env, maxTimeSteps, n - 1, e);
    }
  }

  /** The per-episode totals add up to the sum of every reward stored: each step's
      reward is counted in exactly one episode. */
  lemma {:induction false} EpisodeRewardsAddUp<S, A>(env: Environment<S, A>, maxTimeSteps: int, n: nat)
    ensures Sum(EpisodeRewards(env, maxTimeSteps, n)) == Sum(StepRewards(Experience(env, maxTimeSteps, n)))
  {
    if n > 0 {
      var earlier := Experience(env, maxTimeSteps, n - 1);
      var last := Episode(env, maxTimeSteps, n - 1);
      EpisodeRewardsAddUp(env, maxTimeSteps, n - 1);
      SumSnoc(EpisodeRewards(env, maxTimeSteps, n - 1), EpisodeReward(env, maxTimeSteps, n - 1));
      StepRewardsConcat(earlier, last);
      SumConcat(StepRewards(earlier), StepRewards(last));
    }
  }

  /** An episode from a time within budget starts with that time's record. */
  lemma EpisodeFromStep<S, A>(env: Environment<S, A>, maxTimeSteps: int, e: nat, t: nat, state: S)
    requires t < maxTimeSteps
    ensures var tr := StepTransition(env, e, t, state);
      EpisodeFrom(env, maxTimeSteps, e, t, state)
        == [tr] + (if tr.done then [] else EpisodeFrom(env, maxTimeSteps, e, t + 1, tr.nextState))
  {
  }

  /** One step of the inner loop: the record stored extends the steps taken, and
      the episode goes on from the next state unless that step was done. */
  lemma TakeStep<S, A>(env: Environment<S, A>, maxTimeSteps: int, e: nat, t: nat, state: S, taken: seq<Transition<S, A>>)
    requires t < maxTimeSteps
    requires taken + EpisodeFrom(env, maxTimeSteps, e, t, state) == Episode(env, maxTimeSteps, e)
    ensures var tr := StepTransition(env, e, t, state);
      && (tr.done ==> taken + [tr] == Episode(env, maxTimeSteps, e))
      && (!tr.done ==> (taken + [tr]) + EpisodeFrom(env, maxTimeSteps, e, t + 1, tr.nextState) == Episode(env, maxTimeSteps, e))
      && Sum(StepRewards(taken + [tr])) == Sum(StepRewards(taken)) + tr.reward
  {
    var tr := StepTransition(env, e, t, state);
    EpisodeFromStep(env, maxTimeSteps, e, t, state);
    if !tr.done {
      var next := EpisodeFrom(env, maxTimeSteps, e, t + 1, tr.nextState);
      assert (taken + [tr]) + next == taken + ([tr] + next);
    }
    assert (taken + [tr])[..|taken|] == taken;
    SumSnoc(StepRewards(taken), tr.reward);
  }

  /** The trainer: owns the replay buffer and the list of episode rewards. */
  class Trainer<S, A> {
    const env: Environment<S, A>
    const replayBuffer: ReplayBuffer<S, A>
    const maxTimeSteps: int
    const batchSize: int
    var trainRewardsList: Option<seq<int>>

    ghost predicate Valid()
      reads this, replayBuffer
    {
      replayBuffer.Valid()
    }

    /** A trainer with an empty buffer of the given capacity and no reward list yet. */
    constructor(env: Environment<S, A>, capacity: nat, maxTimeSteps: int, batchSize: int)
      ensures Valid() && fresh(replayBuffer)
      ensures this.env == env && this.maxTimeSteps == maxTimeSteps && this.batchSize == batchSize
      ensures replayBuffer.capacity == capacity && replayBuffer.buffer == []
      ensures trainRewardsList == None
    {
      this.env := env;
      this.maxTimeSteps := maxTimeSteps;
      this.batchSize := batchSize;
      replayBuffer := new ReplayBuffer(capacity);
      trainRewardsList := None;
    }

    /** `get_reward_list`: the trainer's own reward list, None until `Train` has run. */
    function GetRewardList(): (r: Option<seq<int>>)
      reads this
      ensures r == trainRewardsList
    {
      trainRewardsList
    }

    /** One pass of the outer loop body: up to `maxTimeSteps` steps, each storing its
        record and then sampling a batch, until a step is done. Every sample is drawn
        right after a store, so it never meets an empty buffer. */
    method RunEpisode(episode: nat) returns (episodeReward: int)
      requires Valid()
      requires 0 < replayBuffer.capacity && 0 < batchSize
      modifies replayBuffer
      ensures Valid()
      ensures episodeReward == EpisodeReward(env, maxTimeSteps, episode)
      ensures replayBuffer.buffer
           == StoreAll(old(replayBuffer.buffer), replayBuffer.capacity, Episode(env, maxTimeSteps, episode))
    {
      ghost var start := replayBuffer.buffer;
      var state := env.reset(episode);
      episodeReward := 0;
      ghost var taken: seq<Transition<S, A>> := [];
      var time := 0;
      while time < maxTimeSteps
        invariant 0 <= time
        invariant taken + EpisodeFrom(env, maxTimeSteps, episode, time, state) == Episode(env, maxTimeSteps, episode)
        invariant episodeReward == Sum(StepRewards(taken))
        invariant replayBuffer.Valid()
        invariant replayBuffer.buffer == StoreAll(start, replayBuffer.capacity, taken)
      {
        var o := env.step(episode, time, state);
        var done := o.terminated || o.truncated;
        episodeReward := episodeReward + o.reward;
        ghost var tr := StepTransition(env, episode, time, state);
        TakeStep(env, maxTimeSteps, episode, time, state, taken);
        StoreAllSnoc(start, replayBuffer.capacity, taken, tr);
        var stored := replayBuffer.StoreTransition(state, o.action, o.reward, o.nextState, done);
        taken := taken + [tr];
        state := o.nextState;

        SampleExists(|replayBuffer.buffer|, batchSize);
        ghost var picks :| IsSampleOf(picks, |replayBuffer.buffer|, batchSize);
        ghost var batch := replayBuffer.SampleBatch(batchSize, picks);
        assert batch.Ok?;

        if done {
          assert taken == Episode(env, maxTimeSteps, episode);
          break;
        }
        time := time + 1;
      }
      if time >= maxTimeSteps {
        assert taken + [] == Episode(env, maxTimeSteps, episode);
      }
      assert taken == Episode(env, maxTimeSteps, episode);
      assert replayBuffer.buffer == StoreAll(start, replayBuffer.capacity, taken);
      assert episodeReward == Sum(StepRewards(taken));
    }

    /** `train`: runs `maxEpisodes` episodes and records one reward total per episode. */
    method Train(maxEpisodes: int)
      requires Valid()
      requires 0 < replayBuffer.capacity && 0 < batchSize
      modifies this, replayBuffer
      ensures Valid()
      ensures GetRewardList() == Some(EpisodeRewards(env, maxTimeSteps, RangeLength(maxEpisodes)))
      ensures replayBuffer.buffer
           == StoreAll(old(replayBuffer.buffer), replayBuffer.capacity, Experience(env, maxTimeSteps, RangeLength(maxEpisodes)))
    {
      ghost var start := replayBuffer.buffer;
      var rewards: seq<int> := [];
      trainRewardsList := Some(rewards);
      var episode := 0;
      while episode < maxEpisodes
        invariant 0 <= episode <= RangeLength(maxEpisodes)
        invariant replayBuffer.Valid()
        invariant trainRewardsList == Some(rewards)
        invariant rewards == EpisodeRewards(env, maxTimeSteps, episode)
        invariant replayBuffer.buffer == StoreAll(start, replayBuffer.capacity, Experience(env, maxTimeSteps, episode))
      {
        StoreAllConcat(start, replayBuffer.capacity, Experience(env, maxTimeSteps, episode), Episode(env, maxTimeSteps, episode));
        var episodeReward := RunEpisode(episode);
        rewards := rewards + [episodeReward];
        trainRewardsList := Some(rewards);
        episode := episode + 1;
      }
    }
  }
}
