/** The reward accumulators of the plotter: a fixed-length table of per-episode
    training reward lists and a list of evaluation rewards, appended to in place,
    and the per-episode totals it plots. The drawing itself is not modelled. */
module Plotting {
  import opened Builtins

  /** One total per episode list, in episode order. */
  function Totals(table: seq<seq<int>>): (r: seq<int>)
    ensures |r| == |table|
  {
    if table == [] then [] else Totals(table[..|table| - 1]) + [Sum(table[|table| - 1])]
  }

  /** Entry e of the totals is the sum of list e. */
  lemma {:induction false} TotalsAt(table: seq<seq<int>>, e: nat)
    requires e < |table|
    ensures Totals(table)[e] == Sum(table[e])
  {
    if e < |table| - 1 {
      TotalsAt(table[..|table| - 1], e);
    }
  }

  /** Appending a reward to list e raises total e by that reward and leaves every
      other total as it was. */
  lemma AppendRaisesOneTotal(table: seq<seq<int>>, episode: nat, reward: int, e: nat)
    requires episode < |table| && e < |table|
    ensures Totals(table[episode := table[episode] + [reward]])[e]
         == Totals(table)[e] + (if e == episode then reward else 0)
  {
    var updated := table[episode := table[episode] + [reward]];
    TotalsAt(updated, e);
    TotalsAt(table, e);
    SumSnoc(table[episode], reward);
  }

  class Plotter {
    var trainingRewards: seq<seq<int>>
    var evaluationRewards: seq<int>

    /** One empty reward list per episode of `range(numEpisodes)`, no evaluation rewards. */
    constructor(numEpisodes: int)
      ensures |trainingRewards| == RangeLength(numEpisodes)
      ensures forall e :: 0 <= e < |trainingRewards| ==> trainingRewards[e] == []
      ensures evaluationRewards == []
    {
      trainingRewards := seq(RangeLength(numEpisodes), _ => []);
      evaluationRewards := [];
    }

    /** `add_trainingReward`: appends to the list of one episode only. */
    method AddTrainingReward(reward: int, episode: int)
      requires 0 <= episode < |trainingRewards|
      modifies this
      ensures |trainingRewards| == |old(trainingRewards)|
      ensures trainingRewards[episode] == old(trainingRewards)[episode] + [reward]
      ensures forall e :: 0 <= e < |trainingRewards| && e != episode ==> trainingRewards[e] == old(trainingRewards)[e]
      ensures evaluationRewards == old(evaluationRewards)
    {
      trainingRewards := trainingRewards[episode := trainingRewards[episode] + [reward]];
    }

    /** `add_evaluationReward`: appends to the evaluation list; the training table is untouched. */
    method AddEvaluationReward(reward: int)
      modifies this
      ensures evaluationRewards == old(evaluationRewards) + [reward]
      ensures trainingRewards == old(trainingRewards)
    {
      evaluationRewards := evaluationRewards + [reward];
    }

    /** The two series `plot_rewards` hands to the plotting library: the total of
        each episode's list, and the evaluation rewards as they are. */
    method PlotRewards() returns (trainingTotals: seq<int>, evaluation: seq<int>)
      ensures |trainingTotals| == |trainingRewards|
      ensures forall e :: 0 <= e < |trainingRewards| ==> trainingTotals[e] == Sum(trainingRewards[e])
      ensures evaluation == evaluationRewards
    {
      trainingTotals := Totals(trainingRewards);
      forall e | 0 <= e < |trainingRewards|
        ensures trainingTotals[e] == Sum(trainingRewards[e])
      {
        TotalsAt(trainingRewards, e);
      }
      evaluation := evaluationRewards;
    }
  }
}
