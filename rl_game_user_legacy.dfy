/**
 * The older user of target/classes: a step is taken through simulateAction and getReward
 * without the world's own move, and reaching the goal resets the game at once. The
 * counters change only through the explicit increment and update methods.
 */
module UsersLegacy {
  import opened Wrappers
  import opened Grid
  import Actions
  import PuddleWorldLegacy

  class RLGameUser {
    const userName: string
    const world: PuddleWorldLegacy.RLWorld

    var currentStateId: int
    var lastReward: real
    var isTerminal: bool
    var totalEpisodes: int
    var successfulEpisodes: int
    var cumulativeReward: real
    var stepsThisEpisode: int
    var successRewardThreshold: real

    ghost predicate Valid()
      reads this, world
    {
      world.Valid()
    }

    constructor (name: string, w: PuddleWorldLegacy.RLWorld)
      requires w.Valid()
      modifies w
      ensures Valid() && userName == name && world == w
      ensures currentStateId == 0 && lastReward == 0.0 && !isTerminal
      ensures totalEpisodes == 0 && successfulEpisodes == 0
      ensures cumulativeReward == 0.0 && stepsThisEpisode == 0 && successRewardThreshold == 1.0
    {
      userName, world := name, w;
      currentStateId, lastReward, isTerminal := 0, 0.0, false;
      totalEpisodes, successfulEpisodes := 0, 0;
      cumulativeReward, stepsThisEpisode := 0.0, 0;
      successRewardThreshold := 1.0;
      new;
      InitializeGame();
    }

    /** initializeGame: the world is reset and the agent takes the world's state, which is 0. */
    method InitializeGame()
      requires Valid()
      modifies this`currentStateId, this`lastReward, this`isTerminal, world
      ensures Valid()
      ensures currentStateId == world.currentStateId == 0 && lastReward == 0.0 && !isTerminal
    {
      world.Reset();
      currentStateId := world.currentStateId;
      lastReward := 0.0;
      isTerminal := false;
    }

    /** resetGame: initializeGame, and the episode's reward and steps go back to 0. */
    method ResetGame()
      requires Valid()
      modifies this`currentStateId, this`lastReward, this`isTerminal,
               this`cumulativeReward, this`stepsThisEpisode, world
      ensures Valid()
      ensures currentStateId == world.currentStateId == 0 && lastReward == 0.0 && !isTerminal
      ensures cumulativeReward == 0.0 && stepsThisEpisode == 0
    {
      InitializeGame();
      cumulativeReward := 0.0;
      stepsThisEpisode := 0;
    }

    /**
     * takeAction: nothing happens once terminal or for a name other than the four actions
     * (a null name throws); otherwise the agent moves to the clamped neighbour with its
     * reward, and reaching the goal resets the game. Counters never change here.
     */
    method TakeAction(actionStr: Option<string>) returns (outcome: Outcome)
      requires Valid()
      modifies this`currentStateId, this`lastReward, this`isTerminal,
               this`cumulativeReward, this`stepsThisEpisode, world
      ensures Valid()
      ensures totalEpisodes == old(totalEpisodes) && successfulEpisodes == old(successfulEpisodes)
      ensures !old(isTerminal) && actionStr.None? ==> outcome == Threw(NullReference)
      ensures old(isTerminal) || actionStr.None? || actionStr.value !in Actions.Names ==>
        currentStateId == old(currentStateId) && lastReward == old(lastReward)
        && isTerminal == old(isTerminal) && cumulativeReward == old(cumulativeReward)
        && stepsThisEpisode == old(stepsThisEpisode) && unchanged(world)
      ensures old(isTerminal) || (actionStr.Some? && actionStr.value !in Actions.Names) ==> outcome == Normal
      ensures !old(isTerminal) && actionStr.Some? && actionStr.value in Actions.Names ==>
        var next := Step(old(currentStateId), actionStr.value, PuddleWorldLegacy.GridSize);
        outcome == Normal
        && (next != PuddleWorldLegacy.GoalStateId ==>
              currentStateId == next && !isTerminal
              && lastReward == PuddleWorldLegacy.Reward(old(world.puddlePositions), next)
              && cumulativeReward == old(cumulativeReward) && stepsThisEpisode == old(stepsThisEpisode)
              && unchanged(world))
        && (next == PuddleWorldLegacy.GoalStateId ==>
              currentStateId == world.currentStateId == 0 && lastReward == 0.0 && !isTerminal
              && cumulativeReward == 0.0 && stepsThisEpisode == 0)
    {
      if isTerminal {
        return Normal;
      }
      if actionStr.None? {
        return Threw(NullReference);
      }
      var action := actionStr.value;
      if !(action == "UP" || action == "DOWN" || action == "LEFT" || action == "RIGHT") {
        return Normal;
      }
      var nextStateId := Step(currentStateId, action, PuddleWorldLegacy.GridSize);
      lastReward := world.GetReward(currentStateId, action, nextStateId);
      currentStateId := nextStateId;
      if PuddleWorldLegacy.IsTerminalState(currentStateId) {
        isTerminal := true;
        ResetGame();
      }
      return Normal;
    }

    /** cleanup: the world is cleaned up (reset, then no puddles). */
    method Cleanup()
      requires Valid()
      modifies world
      ensures Valid() && world.puddlePositions == [] && world.currentStateId == 0
    {
      world.Cleanup();
    }

    method SetTerminal(terminal: bool)
      modifies this`isTerminal
      ensures isTerminal == terminal
    {
      isTerminal := terminal;
    }

    method SetStateId(stateId: int)
      modifies this`currentStateId
      ensures currentStateId == stateId
    {
      currentStateId := stateId;
    }

    method IncrementEpisodes()
      modifies this`totalEpisodes
      ensures totalEpisodes == old(totalEpisodes) + 1
    {
      totalEpisodes := totalEpisodes + 1;
    }

    method IncrementSuccessfulEpisodes()
      modifies this`successfulEpisodes
      ensures successfulEpisodes == old(successfulEpisodes) + 1
    {
      successfulEpisodes := successfulEpisodes + 1;
    }

    method UpdateRewards(reward: real)
      modifies this`cumulativeReward
      ensures cumulativeReward == old(cumulativeReward) + reward
    {
      cumulativeReward := cumulativeReward + reward;
    }

    /** updateSteps and updateStepsThisEpisode. */
    method UpdateSteps(steps: int)
      modifies this`stepsThisEpisode
      ensures stepsThisEpisode == old(stepsThisEpisode) + steps
    {
      stepsThisEpisode := stepsThisEpisode + steps;
    }
  }
}
