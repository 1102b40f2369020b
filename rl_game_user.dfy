/**
 * A player's episode bookkeeping on the server (RLGameUser): the agent's position, the
 * reward of the last step, and the step, reward and episode counters, over a puddle world.
 */
module Users {
  import opened Wrappers
  import opened JavaInt
  import opened Grid
  import Actions
  import opened PuddleWorld

  /** Training ends after this many episodes. */
  const MaxEpisodes: int := 2
  /** The user checks positions against a fixed 5-by-5 grid, whatever the world's size. */
  const UserGridSize: int := 5

  /** The fields of a user that an episode changes. */
  datatype Episode = Episode(
    stateId: int,
    lastReward: real,
    isTerminal: bool,
    steps: int,
    cumulative: real,
    total: int,
    successful: int)

  /** isValidPosition of the row and column Java's `/` and `%` give on the 5-by-5 grid. */
  predicate ValidPosition(stateId: int)
  {
    var row, col := Div(stateId, UserGridSize), Rem(stateId, UserGridSize);
    0 <= row < UserGridSize && 0 <= col < UserGridSize
  }

  /** mapActionStringToIndex: a switch on the name; null cannot be switched on. */
  function MapActionStringToIndex(actionStr: Option<string>): (r: Result<int>)
    ensures actionStr.None? ==> r == Err(NullReference)
    ensures actionStr.Some? && actionStr.value !in Actions.Names ==> r == Err(IllegalArgument)
    ensures actionStr.Some? && actionStr.value in Actions.Names ==>
      r.Ok? && 0 <= r.value < |Actions.Names| && Actions.Names[r.value] == actionStr.value
  {
    match actionStr
    case None => Err(NullReference)
    case Some(s) =>
      var i := Actions.NameToIndex(s);
      if i == -1 then Err(IllegalArgument) else Ok(i)
  }

  /**
   * concludeEpisode: one more episode, one more success iff the episode's reward reached the
   * threshold; the game is reset unless training is now complete; then the episode's
   * steps, reward and terminal flag are cleared.
   */
  function Conclude(e: Episode, threshold: real): (r: Episode)
    ensures r.total == e.total + 1
    ensures r.successful == if e.cumulative >= threshold then e.successful + 1 else e.successful
    ensures r.steps == 0 && r.cumulative == 0.0 && !r.isTerminal
    ensures r.total < MaxEpisodes ==> r.stateId == 0 && r.lastReward == 0.0
    ensures r.total >= MaxEpisodes ==> r.stateId == e.stateId && r.lastReward == e.lastReward
  {
    var counted := e.(total := e.total + 1,
                      successful := if e.cumulative >= threshold then e.successful + 1 else e.successful);
    var afterReset := if counted.total >= MaxEpisodes then counted
                      else counted.(stateId := 0, lastReward := 0.0, isTerminal := false);
    afterReset.(steps := 0, cumulative := 0.0, isTerminal := false)
  }

  /**
   * The episode after the world has moved the agent to `next` with `reward`: the step is
   * recorded, then the episode concludes if the new position is off the 5-by-5 grid, is the
   * world's goal, or used up the step budget.
   */
  function AfterStep(e: Episode, next: int, reward: real, goal: int, maxSteps: int, threshold: real): Episode
  {
    var moved := e.(stateId := next, lastReward := reward, steps := e.steps + 1, cumulative := e.cumulative + reward);
    if !ValidPosition(next) then Conclude(moved, threshold)
    else if next == goal then Conclude(moved.(isTerminal := true), threshold)
    else if moved.steps >= maxSteps then Conclude(moved.(isTerminal := true), threshold)
    else moved
  }

  class RLGameUser {
    const userName: string
    const world: RLWorld

    var currentStateId: int
    var lastReward: real
    var isTerminal: bool
    var maxStepsPerEpisode: int
    var totalEpisodes: int
    var successfulEpisodes: int
    var cumulativeReward: real
    var stepsThisEpisode: int
    var successRewardThreshold: real

    ghost predicate Valid()
      reads this, world
    {
      world.Valid()
    }

    function Snapshot(): Episode
      reads this
    {
      Episode(currentStateId, lastReward, isTerminal, stepsThisEpisode, cumulativeReward,
              totalEpisodes, successfulEpisodes)
    }

    predicate IsTrainingComplete()
      reads this
    {
      totalEpisodes >= MaxEpisodes
    }

    /** The constructor starts the game at once, which resets the world. */
    constructor (name: string, w: RLWorld)
      requires w.Valid()
      modifies w
      ensures Valid() && userName == name && world == w
      ensures Snapshot() == Episode(0, 0.0, false, 0, 0.0, 0, 0)
      ensures maxStepsPerEpisode == 10 && successRewardThreshold == 1.0
      ensures w.currentStateId == 0
    {
      userName, world := name, w;
      currentStateId, lastReward, isTerminal := 0, 0.0, false;
      maxStepsPerEpisode := 10;
      totalEpisodes, successfulEpisodes := 0, 0;
      cumulativeReward, stepsThisEpisode := 0.0, 0;
      successRewardThreshold := 1.0;
      new;
      InitializeGame();
    }

    /** initializeGame: the world is reset and the agent stands on state 0 with no reward. */
    method InitializeGame()
      requires Valid()
      modifies this`currentStateId, this`lastReward, this`isTerminal, world
      ensures Valid()
      ensures currentStateId == 0 && lastReward == 0.0 && !isTerminal
      ensures world.currentStateId == 0
    {
      world.Reset();
      currentStateId := 0;
      lastReward := 0.0;
      isTerminal := false;
    }

    /** resetGame: initializeGame, and the episode's reward and steps start again from 0. */
    method ResetGame()
      requires Valid()
      modifies this`currentStateId, this`lastReward, this`isTerminal,
               this`cumulativeReward, this`stepsThisEpisode, world
      ensures Valid()
      ensures Snapshot() == old(Snapshot()).(stateId := 0, lastReward := 0.0, isTerminal := false,
                                             steps := 0, cumulative := 0.0)
      ensures world.currentStateId == 0
    {
      InitializeGame();
      cumulativeReward := 0.0;
      stepsThisEpisode := 0;
      isTerminal := false;
    }

    method ConcludeEpisode()
      requires Valid()
      modifies this`currentStateId, this`lastReward, this`isTerminal, this`cumulativeReward,
               this`stepsThisEpisode, this`totalEpisodes, this`successfulEpisodes, world
      ensures Valid()
      ensures Snapshot() == Conclude(old(Snapshot()), successRewardThreshold)
      ensures IsTrainingComplete() ==> unchanged(world)
      ensures !IsTrainingComplete() ==> world.currentStateId == 0
    {
      totalEpisodes := totalEpisodes + 1;
      if cumulativeReward >= successRewardThreshold {
        successfulEpisodes := successfulEpisodes + 1;
      }
      if !IsTrainingComplete() {
        ResetGame();
      }
      stepsThisEpisode := 0;
      cumulativeReward := 0.0;
      isTerminal := false;
    }

    /**
     * takeAction: nothing happens once the episode is terminal; an unknown or null action
     * throws before any field changes; otherwise the world moves the agent (or the episode
     * concludes at once if the agent stands off the 5-by-5 grid) and the step is recorded.
     */
    method TakeAction(actionStr: Option<string>) returns (outcome: Outcome)
      requires Valid()
      modifies this`currentStateId, this`lastReward, this`isTerminal, this`cumulativeReward,
               this`stepsThisEpisode, this`totalEpisodes, this`successfulEpisodes, world
      ensures Valid()
      ensures old(isTerminal) || MapActionStringToIndex(actionStr).Err? ==>
        Snapshot() == old(Snapshot()) && unchanged(world)
        && outcome == if old(isTerminal) then Normal else Threw(MapActionStringToIndex(actionStr).fault)
      ensures !old(isTerminal) && MapActionStringToIndex(actionStr).Ok? && !ValidPosition(old(currentStateId)) ==>
        outcome == Normal && Snapshot() == Conclude(old(Snapshot()), successRewardThreshold)
      ensures !old(isTerminal) && MapActionStringToIndex(actionStr).Ok? && ValidPosition(old(currentStateId)) ==>
        var next := Step(old(currentStateId), actionStr.value, world.gridSize);
        outcome == Normal
        && Snapshot() == AfterStep(old(Snapshot()), next, old(world.Reward(next)), Goal(world.gridSize),
                                   maxStepsPerEpisode, successRewardThreshold)
    {
      if isTerminal {
        return Normal;
      }
      var actionIndex := MapActionStringToIndex(actionStr);
      if actionIndex.Err? {
        return Threw(actionIndex.fault);
      }
      if !ValidPosition(currentStateId) {
        ConcludeEpisode();
        return Normal;
      }
      var newStateId := world.MoveAgentWithIndex(currentStateId, actionIndex.value);
      var reward := world.lastReward;
      currentStateId := newStateId;
      lastReward := reward;
      stepsThisEpisode := stepsThisEpisode + 1;
      cumulativeReward := cumulativeReward + lastReward;
      if !ValidPosition(newStateId) {
        ConcludeEpisode();
        return Normal;
      }
      if world.IsTerminalState(currentStateId) {
        isTerminal := true;
        ConcludeEpisode();
      } else if stepsThisEpisode >= maxStepsPerEpisode {
        isTerminal := true;
        ConcludeEpisode();
      }
      return Normal;
    }

    /** cleanup: the world is cleaned up; the user's own fields stay. */
    method Cleanup()
      requires Valid()
      modifies world
      ensures Valid() && world.puddlePositions == [] && world.currentStateId == 0
    {
      world.Cleanup();
    }

    method SetTerminal(terminal: bool)
      modifies this`isTerminal
      ensures isTerminal == terminal
    {
      isTerminal := terminal;
    }

    method SetStateId(stateId: int)
      modifies this`currentStateId
      ensures currentStateId == stateId
    {
      currentStateId := stateId;
    }

    method SetMaxStepsPerEpisode(steps: int)
      modifies this`maxStepsPerEpisode
      ensures maxStepsPerEpisode == steps
    {
      maxStepsPerEpisode := steps;
    }

    method SetTotalEpisodes(total: int)
      modifies this`totalEpisodes
      ensures totalEpisodes == total
    {
      totalEpisodes := total;
    }

    method SetSuccessfulEpisodes(successful: int)
      modifies this`successfulEpisodes
      ensures successfulEpisodes == successful
    {
      successfulEpisodes := successful;
    }

    method SetCumulativeReward(reward: real)
      modifies this`cumulativeReward
      ensures cumulativeReward == reward
    {
      cumulativeReward := reward;
    }

    method SetStepsThisEpisode(steps: int)
      modifies this`stepsThisEpisode
      ensures stepsThisEpisode == steps
    {
      stepsThisEpisode := steps;
    }

    method SetSuccessRewardThreshold(threshold: real)
      modifies this`successRewardThreshold
      ensures successRewardThreshold == threshold
    {
      successRewardThreshold := threshold;
    }

    method IncrementEpisodes()
      modifies this`totalEpisodes
      ensures totalEpisodes == old(totalEpisodes) + 1
    {
      totalEpisodes := totalEpisodes + 1;
    }

    method IncrementSuccessfulEpisodes()
      modifies this`successfulEpisodes
      ensures successfulEpisodes == old(successfulEpisodes) + 1
    {
      successfulEpisodes := successfulEpisodes + 1;
    }

    /** updateRewards and addToCumulativeReward. */
    method UpdateRewards(reward: real)
      modifies this`cumulativeReward
      ensures cumulativeReward == old(cumulativeReward) + reward
    {
      cumulativeReward := cumulativeReward + reward;
    }

    /** updateSteps and updateStepsThisEpisode. */
    method UpdateSteps(steps: int)
      modifies this`stepsThisEpisode
      ensures stepsThisEpisode == old(stepsThisEpisode) + steps
    {
      stepsThisEpisode := stepsThisEpisode + steps;
    }
  }

  /** The user's 5-by-5 position check accepts exactly the states 0 .. 24. */
  lemma ValidPositionRange(stateId: int)
    ensures ValidPosition(stateId) <==> 0 <= stateId < UserGridSize * UserGridSize
  {
    if 0 <= stateId < UserGridSize * UserGridSize {
      CellOf(stateId, UserGridSize);
    } else if stateId < 0 {
      assert Rem(stateId, UserGridSize) < 0 || Div(stateId, UserGridSize) < 0 by {
        DivRem(stateId, UserGridSize);
      }
    } else {
      assert Div(stateId, UserGridSize) >= UserGridSize by {
        DivRem(stateId, UserGridSize);
      }
    }
  }

  /**
   * A step concludes the episode exactly when the new position is off the 5-by-5 grid, is the
   * goal, or exhausts the step budget; then the episode count grows by exactly one, and
   * otherwise the step is recorded and no counter changes.
   */
  lemma EpisodeEndsIff(e: Episode, next: int, reward: real, goal: int, maxSteps: int, threshold: real)
    ensures var r := AfterStep(e, next, reward, goal, maxSteps, threshold);
      (r.total == e.total + 1 <==> !ValidPosition(next) || next == goal || e.steps + 1 >= maxSteps)
      && (r.total == e.total <==> ValidPosition(next) && next != goal && e.steps + 1 < maxSteps)
    ensures var r := AfterStep(e, next, reward, goal, maxSteps, threshold);
      ValidPosition(next) && next != goal && e.steps + 1 < maxSteps ==>
        r == e.(stateId := next, lastReward := reward, steps := e.steps + 1, cumulative := e.cumulative + reward)
  {
  }

  /** takeAction never leaves the episode terminal: the flag is only raised right before concludeEpisode clears it. */
  lemma NotTerminalAfterStep(e: Episode, next: int, reward: real, goal: int, maxSteps: int, threshold: real)
    requires !e.isTerminal
    ensures !AfterStep(e, next, reward, goal, maxSteps, threshold).isTerminal
  {
  }

  /** Through takeAction and concludeEpisode alone, successes never outnumber episodes. */
  lemma SuccessesWithinEpisodes(e: Episode, next: int, reward: real, goal: int, maxSteps: int, threshold: real)
    requires 0 <= e.successful <= e.total
    ensures var c := Conclude(e, threshold); 0 <= c.successful <= c.total
    ensures var r := AfterStep(e, next, reward, goal, maxSteps, threshold); 0 <= r.successful <= r.total
  {
  }

  /**
   * With a step budget of at least one, the step count stays below the budget after every
   * step, whatever it was before: reaching the budget concludes the episode at once.
   */
  lemma StepsBelowBudget(e: Episode, next: int, reward: real, goal: int, maxSteps: int, threshold: real)
    requires maxSteps >= 1
    ensures AfterStep(e, next, reward, goal, maxSteps, threshold).steps < maxSteps
  {
  }
}
