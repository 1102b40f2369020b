/**
 * The client's view of its game (RLGameModel): the current state, the actions and rewards
 * the server last offered, the terminal flag, and the episode's running reward, step count
 * and success verdict.
 */
module ClientModel {
  import opened Wrappers

  /** An episode whose reward reaches this much counts as a success. */
  const SuccessRewardThreshold: real := 60.0

  datatype Model = Model(
    stateId: int,
    availableActions: Option<seq<int>>,
    availableRewards: Option<seq<real>>,
    isTerminal: bool,
    cumulativeReward: real,
    stepsThisEpisode: int,
    success: bool)

  /** The constructor's model; stepsThisEpisode is not assigned and keeps Java's 0. */
  const Initial: Model := Model(0, Some([]), Some([]), false, 0.0, 0, false)

  /** updateReward: the reward is added to the running total; nothing else moves. */
  function Rewarded(m: Model, reward: real): (r: Model)
    ensures r.cumulativeReward - m.cumulativeReward == reward
    ensures r.(cumulativeReward := m.cumulativeReward) == m
  {
    m.(cumulativeReward := m.cumulativeReward + reward)
  }

  /**
   * setTerminal: the flag is stored; when it is raised the episode's success is decided by the
   * reward so far against the threshold, and when it is lowered the verdict stays.
   */
  function Terminated(m: Model, terminal: bool): (r: Model)
    ensures r.isTerminal == terminal
    ensures terminal ==> (r.success <==> m.cumulativeReward >= SuccessRewardThreshold)
    ensures !terminal ==> r.success == m.success
    ensures r.(isTerminal := m.isTerminal, success := m.success) == m
  {
    var flagged := m.(isTerminal := terminal);
    if terminal then flagged.(success := m.cumulativeReward >= SuccessRewardThreshold) else flagged
  }

  /** resetCumulativeReward: the total goes back to 0 and the verdict to false; nothing else moves. */
  function Cleared(m: Model): (r: Model)
    ensures r.cumulativeReward == 0.0 && !r.success
    ensures r.(cumulativeReward := m.cumulativeReward, success := m.success) == m
  {
    m.(cumulativeReward := 0.0, success := false)
  }

  /** The sum of a run of rewards. */
  function Sum(rewards: seq<real>): real
  {
    if rewards == [] then 0.0 else rewards[0] + Sum(rewards[1..])
  }

  /** updateReward called once per reward, in order. */
  function Accumulated(m: Model, rewards: seq<real>): (r: Model)
    ensures r.cumulativeReward == m.cumulativeReward + Sum(rewards)
    ensures r.(cumulativeReward := m.cumulativeReward) == m
    decreases |rewards|
  {
    if rewards == [] then m else Accumulated(Rewarded(m, rewards[0]), rewards[1..])
  }

  /**
   * An episode that starts from a reset, receives its rewards and then turns terminal is a
   * success exactly when its rewards add up to the threshold or more.
   */
  lemma EpisodeSuccessIff(m: Model, rewards: seq<real>)
    ensures Terminated(Accumulated(Cleared(m), rewards), true).success <==> Sum(rewards) >= SuccessRewardThreshold
  {
  }

  /** A reset followed at once by the terminal flag never reports success. */
  lemma ResetThenTerminalFails(m: Model)
    ensures !Terminated(Cleared(m), true).success
  {
  }

  /** Lowering the terminal flag keeps the verdict, so raising and lowering it leaves success as decided. */
  lemma LoweringKeepsVerdict(m: Model)
    ensures Terminated(Terminated(m, true), false).success == (m.cumulativeReward >= SuccessRewardThreshold)
    ensures !Terminated(Terminated(m, true), false).isTerminal
  {
  }

  class RLGameModel {
    var stateId: int
    var availableActions: Option<seq<int>>
    var availableRewards: Option<seq<real>>
    var isTerminal: bool
    var cumulativeReward: real
    var stepsThisEpisode: int
    var success: bool

    function Get(): Model
      reads this
    {
      Model(stateId, availableActions, availableRewards, isTerminal, cumulativeReward, stepsThisEpisode, success)
    }

    constructor ()
      ensures Get() == Initial
    {
      stateId, availableActions, availableRewards := 0, Some([]), Some([]);
      isTerminal, cumulativeReward, stepsThisEpisode, success := false, 0.0, 0, false;
    }

    method UpdateState(s: int)
      modifies this
      ensures Get() == old(Get()).(stateId := s)
    {
      stateId := s;
    }

    method UpdateAvailableActions(actions: Option<seq<int>>)
      modifies this
      ensures Get() == old(Get()).(availableActions := actions)
    {
      availableActions := actions;
    }

    method UpdateAvailableRewards(rewards: Option<seq<real>>)
      modifies this
      ensures Get() == old(Get()).(availableRewards := rewards)
    {
      availableRewards := rewards;
    }

    method UpdateReward(reward: real)
      modifies this
      ensures Get() == Rewarded(old(Get()), reward)
    {
      cumulativeReward := cumulativeReward + reward;
    }

    method SetTerminal(terminal: bool)
      modifies this
      ensures Get() == Terminated(old(Get()), terminal)
    {
      isTerminal := terminal;
      if terminal {
        success := cumulativeReward >= SuccessRewardThreshold;
      }
    }

    method SetCumulativeReward(reward: real)
      modifies this
      ensures Get() == old(Get()).(cumulativeReward := reward)
    {
      cumulativeReward := reward;
    }

    method SetStepsThisEpisode(steps: int)
      modifies this
      ensures Get() == old(Get()).(stepsThisEpisode := steps)
    {
      stepsThisEpisode := steps;
    }

    method ResetCumulativeReward()
      modifies this
      ensures Get() == Cleared(old(Get()))
    {
      cumulativeReward := 0.0;
      success := false;
    }
  }
}
