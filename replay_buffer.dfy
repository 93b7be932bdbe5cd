/** The experience replay buffer of the DDPG trainer: a bounded FIFO store of
    transition records, sampled without replacement and unzipped field by field. */
module ReplayBuffers {
  import opened Builtins

  /** One environment step. The observation type S and the action type A stand
      for the tensors the trainer stores; the reward and the done flag are the
      values it wraps into one-element tensors. */
  datatype Transition<S, A> = Transition(state: S, action: A, reward: int, nextState: S, done: bool)

  /** A sampled batch: one sequence per field of Transition, stacked along the batch dimension. */
  datatype Batch<S, A> = Batch(states: seq<S>, actions: seq<A>, rewards: seq<int>, nextStates: seq<S>, dones: seq<bool>)

  /** Why storing fails: `popleft` on an empty deque (a buffer of capacity 0). */
  datatype StoreError = PopFromEmptyDeque

  /** Why sampling fails: `random.sample` refuses a negative size, and a sample of
      no records leaves `transition(...)` without any of its five fields. */
  datatype SampleError = NegativeSampleSize | NoFieldsToStack

  datatype Outcome<E> = Pass | Fail(error: E)

  datatype Result<T, E> = Ok(value: T) | Err(error: E)

  /** Every field sequence of the batch has the same length. */
  predicate Aligned<S, A>(b: Batch<S, A>)
  {
    && |b.actions| == |b.states|
    && |b.rewards| == |b.states|
    && |b.nextStates| == |b.states|
    && |b.dones| == |b.states|
  }

  /** `zip(*records)`: turns a sequence of records into a record of sequences. */
  function Unzip<S, A>(ts: seq<Transition<S, A>>): (b: Batch<S, A>)
    ensures Aligned(b) && |b.states| == |ts|
    ensures forall i :: 0 <= i < |ts| ==>
              && b.states[i] == ts[i].state
              && b.actions[i] == ts[i].action
              && b.rewards[i] == ts[i].reward
              && b.nextStates[i] == ts[i].nextState
              && b.dones[i] == ts[i].done
  {
    if ts == [] then Batch([], [], [], [], [])
    else
      var rest := Unzip(ts[1..]);
      Batch([ts[0].state] + rest.states, [ts[0].action] + rest.actions, [ts[0].reward] + rest.rewards,
            [ts[0].nextState] + rest.nextStates, [ts[0].done] + rest.dones)
  }

  /** The inverse of Unzip: reassembles record i from entry i of every field. */
  function Zip<S, A>(b: Batch<S, A>): (ts: seq<Transition<S, A>>)
    requires Aligned(b)
    ensures |ts| == |b.states|
  {
    seq(|b.states|, i requires 0 <= i < |b.states| =>
      Transition(b.states[i], b.actions[i], b.rewards[i], b.nextStates[i], b.dones[i]))
  }

  /** Unzipping loses nothing: zipping the batch back gives the records. */
  lemma ZipUnzip<S, A>(ts: seq<Transition<S, A>>)
    ensures Zip(Unzip(ts)) == ts
  {
  }

  /** Every aligned batch is the unzipping of its zipped records. */
  lemma UnzipZip<S, A>(b: Batch<S, A>)
    requires Aligned(b)
    ensures Unzip(Zip(b)) == b
  {
    var c := Unzip(Zip(b));
    assert c.states == b.states;
    assert c.actions == b.actions;
    assert c.rewards == b.rewards;
    assert c.nextStates == b.nextStates;
    assert c.dones == b.dones;
  }

  predicate InRange(picks: seq<nat>, n: nat)
  {
    forall i :: 0 <= i < |picks| ==> picks[i] < n
  }

  predicate Distinct(picks: seq<nat>)
  {
    forall i, j :: 0 <= i < j < |picks| ==> picks[i] != picks[j]
  }

  /** What `random.sample(buffer, k)` may pick among n records: k distinct positions
      (none at all when k is negative, since it then raises before picking). */
  predicate IsSampleOf(picks: seq<nat>, n: nat, batchSize: int): (b: bool)
    ensures b ==> |picks| <= n && (0 <= batchSize ==> |picks| <= batchSize)
    ensures b && batchSize <= 0 ==> picks == []
  {
    && |picks| == RangeLength(Min(n, batchSize))
    && InRange(picks, n)
    && Distinct(picks)
  }

  /** The records at the picked positions, in the order picked. */
  function Select<T>(s: seq<T>, picks: seq<nat>): (r: seq<T>)
    requires InRange(picks, |s|)
    ensures |r| == |picks|
    ensures forall i :: 0 <= i < |picks| ==> r[i] == s[picks[i]]
  {
    if picks == [] then [] else [s[picks[0]]] + Select(s, picks[1..])
  }

  /** A sample of every position always exists: the first k positions. */
  lemma SampleExists(n: nat, batchSize: int)
    ensures exists picks :: IsSampleOf(picks, n, batchSize)
  {
    var k := RangeLength(Min(n, batchSize));
    var first: seq<nat> := seq(k, i requires 0 <= i < k => i as nat);
    assert IsSampleOf(first, n, batchSize);
  }

  /** Positions after removing position p from a sequence: those above p move down by one. */
  function Shifted(picks: seq<nat>, p: nat): (r: seq<nat>)
    ensures |r| == |picks|
  {
    seq(|picks|, i requires 0 <= i < |picks| => if picks[i] > p then picks[i] - 1 else picks[i])
  }

  /** Picking among s without position p is picking the shifted positions. */
  lemma SelectAfterRemoval<T>(s: seq<T>, p: nat, picks: seq<nat>)
    requires p < |s| && InRange(picks, |s|) && Distinct(picks)
    requires forall i :: 0 <= i < |picks| ==> picks[i] != p
    ensures InRange(Shifted(picks, p), |s| - 1) && Distinct(Shifted(picks, p))
    ensures Select(s[..p] + s[p + 1..], Shifted(picks, p)) == Select(s, picks)
  {
    var s' := s[..p] + s[p + 1..];
    var q := Shifted(picks, p);
    forall i | 0 <= i < |q|
      ensures q[i] < |s'| && s'[q[i]] == s[picks[i]]
    {
      if picks[i] < p {
        assert s'[q[i]] == s[..p][picks[i]];
      } else {
        assert s'[q[i]] == s[p + 1..][picks[i] - 1 - p];
      }
    }
    assert Distinct(q);
    assert Select(s', q) == Select(s, picks);
  }

  lemma MultisetWithout<T>(s: seq<T>, p: nat)
    requires p < |s|
    ensures multiset(s) == multiset(s[..p] + s[p + 1..]) + multiset{s[p]}
  {
    assert s == s[..p] + [s[p]] + s[p + 1..];
  }

  /** Sampling is without replacement: the sampled records are a sub-multiset of
      the buffer, and a sample of every position is a permutation of it. */
  lemma {:induction false} SampleIsSubMultiset<T>(s: seq<T>, picks: seq<nat>)
    requires InRange(picks, |s|) && Distinct(picks)
    ensures multiset(Select(s, picks)) <= multiset(s)
    ensures |picks| == |s| ==> multiset(Select(s, picks)) == multiset(s)
    decreases |picks|
  {
    if picks != [] {
      var p := picks[0];
      var tail := picks[1..];
      forall i | 0 <= i < |tail| ensures tail[i] != p {
        assert picks[0] != picks[i + 1];
      }
      SelectAfterRemoval(s, p, tail);
      var s' := s[..p] + s[p + 1..];
      SampleIsSubMultiset(s', Shifted(tail, p));
      MultisetWithout(s, p);
      assert Select(s, picks) == [s[p]] + Select(s, tail);
    }
  }

  /** The last min(|s|, capacity) elements of s: what a deque bounded by capacity keeps. */
  function Window<T>(s: seq<T>, capacity: nat): (r: seq<T>)
    ensures |r| == Min(|s|, capacity)
    ensures |s| <= capacity ==> r == s
  {
    s[|s| - Min(|s|, capacity)..]
  }

  /** One `store_transition` into contents that fit the capacity: evict the oldest
      record when full, then append. */
  function Push<T>(contents: seq<T>, capacity: nat, t: T): (r: seq<T>)
    requires 0 < capacity && |contents| <= capacity
    ensures |r| == Min(|contents| + 1, capacity)
    ensures r == Window(contents + [t], capacity)
  {
    if |contents| >= capacity then contents[1..] + [t] else contents + [t]
  }

  /** The contents after storing ts in order. */
  function StoreAll<T>(contents: seq<T>, capacity: nat, ts: seq<T>): (r: seq<T>)
    requires 0 < capacity && |contents| <= capacity
    ensures |r| <= capacity
    decreases |ts|
  {
    if ts == [] then contents
    else Push(StoreAll(contents, capacity, ts[..|ts| - 1]), capacity, ts[|ts| - 1])
  }

  lemma StoreAllSnoc<T>(contents: seq<T>, capacity: nat, ts: seq<T>, t: T)
    requires 0 < capacity && |contents| <= capacity
    ensures StoreAll(contents, capacity, ts + [t]) == Push(StoreAll(contents, capacity, ts), capacity, t)
  {
    assert (ts + [t])[..|ts|] == ts;
  }

  /** Storing xs and then ys is storing xs + ys. */
  lemma {:induction false} StoreAllConcat<T>(contents: seq<T>, capacity: nat, xs: seq<T>, ys: seq<T>)
    requires 0 < capacity && |contents| <= capacity
    ensures StoreAll(StoreAll(contents, capacity, xs), capacity, ys) == StoreAll(contents, capacity, xs + ys)
    decreases |ys|
  {
    if ys == [] {
      assert xs + ys == xs;
    } else {
      var init := ys[..|ys| - 1];
      StoreAllConcat(contents, capacity, xs, init);
      assert (xs + ys)[..|xs + ys| - 1] == xs + init;
    }
  }

  lemma WindowOfWindow<T>(x: seq<T>, y: seq<T>, capacity: nat)
    ensures Window(Window(x, capacity) + y, capacity) == Window(x + y, capacity)
  {
    var m := Min(|x|, capacity);
    assert Window(x, capacity) + y == (x + y)[|x| - m..];
  }

  /** After any sequence of stores the buffer holds exactly the newest records,
      as many as fit, in the order they were stored. */
  lemma {:induction false} StoreAllKeepsNewest<T>(contents: seq<T>, capacity: nat, ts: seq<T>)
    requires 0 < capacity && |contents| <= capacity
    ensures StoreAll(contents, capacity, ts) == Window(contents + ts, capacity)
    decreases |ts|
  {
    if ts != [] {
      var init := ts[..|ts| - 1];
      StoreAllKeepsNewest(contents, capacity, init);
      WindowOfWindow(contents + init, [ts[|ts| - 1]], capacity);
      assert contents + init + [ts[|ts| - 1]] == contents + ts;
    }
  }

  /** Storing more records than fit into an empty buffer evicts the oldest ones
      and keeps the newest `capacity` of them in order. */
  lemma StoreBeyondCapacity<T>(capacity: nat, ts: seq<T>)
    requires 0 < capacity < |ts|
    ensures StoreAll([], capacity, ts) == ts[|ts| - capacity..]
  {
    calc {
      StoreAll([], capacity, ts);
    == { StoreAllKeepsNewest([], capacity, ts); }
      Window([] + ts, capacity);
    == { assert [] + ts == ts; }
      Window(ts, capacity);
    }
  }

  /** The buffer object: a deque bounded by `capacity`. */
  class ReplayBuffer<S, A> {
    const capacity: nat
    var buffer: seq<Transition<S, A>>

    ghost predicate Valid()
      reads this
    {
      |buffer| <= capacity
    }

    constructor(capacity: nat)
      ensures Valid()
      ensures this.capacity == capacity && buffer == []
    {
      this.capacity := capacity;
      buffer := [];
    }

    /** Builds the record and stores it, evicting the oldest record when full. */
    method StoreTransition(state: S, action: A, reward: int, nextState: S, done: bool)
      returns (r: Outcome<StoreError>)
      requires Valid()
      modifies this
      ensures Valid()
      ensures r.Fail? <==> capacity == 0
      ensures r.Fail? ==> buffer == old(buffer)
      ensures r.Pass? && old(|buffer|) < capacity ==>
                buffer == old(buffer) + [Transition(state, action, reward, nextState, done)]
      ensures r.Pass? && old(|buffer|) >= capacity ==>
                buffer == old(buffer)[1..] + [Transition(state, action, reward, nextState, done)]
    {
      if |buffer| >= capacity {
        if buffer == [] {
          return Fail(PopFromEmptyDeque);
        }
        buffer := buffer[1..];
      }
      buffer := buffer + [Transition(state, action, reward, nextState, done)];
      r := Pass;
    }

    /** `sample_batch`: the records at the positions `picks` chosen by the random
        source, unzipped into one sequence per field. */
    function SampleBatch(batchSize: int, picks: seq<nat>): (r: Result<Batch<S, A>, SampleError>)
      reads this
      requires IsSampleOf(picks, |buffer|, batchSize)
      ensures r.Err? <==> buffer == [] || batchSize <= 0
      ensures r.Err? ==> (r.error == NegativeSampleSize <==> batchSize < 0)
      ensures r.Ok? ==> Aligned(r.value) && |r.value.states| == Min(|buffer|, batchSize)
      ensures r.Ok? ==> forall i :: 0 <= i < |picks| ==>
                && r.value.states[i] == buffer[picks[i]].state
                && r.value.actions[i] == buffer[picks[i]].action
                && r.value.rewards[i] == buffer[picks[i]].reward
                && r.value.nextStates[i] == buffer[picks[i]].nextState
                && r.value.dones[i] == buffer[picks[i]].done
    {
      var k := Min(|buffer|, batchSize);
      if k < 0 then Err(NegativeSampleSize)
      else if k == 0 then Err(NoFieldsToStack)
      else Ok(Unzip(Select(buffer, picks)))
    }
  }

  /** Capacity 3, four records stored in order: the first is evicted. */
  method StoreFourIntoThree<S, A>(t1: Transition<S, A>, t2: Transition<S, A>, t3: Transition<S, A>, t4: Transition<S, A>)
    returns (contents: seq<Transition<S, A>>)
    ensures contents == [t2, t3, t4]
  {
    var b := new ReplayBuffer<S, A>(3);
    var r := b.StoreTransition(t1.state, t1.action, t1.reward, t1.nextState, t1.done);
    assert r.Pass? && b.buffer == [t1];
    r := b.StoreTransition(t2.state, t2.action, t2.reward, t2.nextState, t2.done);
    assert r.Pass? && b.buffer == [t1] + [t2];
    r := b.StoreTransition(t3.state, t3.action, t3.reward, t3.nextState, t3.done);
    assert r.Pass? && b.buffer == [t1, t2] + [t3];
    r := b.StoreTransition(t4.state, t4.action, t4.reward, t4.nextState, t4.done);
    assert r.Pass? && b.buffer == [t1, t2, t3][1..] + [t4];
    contents := b.buffer;
  }
}
