/**
 * The older 20-by-20 puddle world kept under target/classes: fixed constants, no (0, 0)
 * exclusion when drawing puddles, and puddles that block the agent instead of letting it in.
 */
module PuddleWorldLegacy {
  import opened Wrappers
  import opened JavaInt
  import opened Grid
  import Actions

  const GridSize: int := 20
  const MaxPuddles: int := 4
  const PuddleSize: int := 2
  const GoalStateId: int := GridSize * GridSize - 1
  const DefaultReward: real := 0.01
  const PuddleReward: real := -1.0
  const GoalReward: real := 1.0

  /** An anchor `random.nextInt(gridSize - puddleSize + 1)` can produce, twice over. */
  predicate Drawable(a: Anchor)
  {
    0 <= a.row <= GridSize - PuddleSize && 0 <= a.col <= GridSize - PuddleSize
  }

  /** The reward for entering `next`: the goal first, then a puddle, else the default. */
  function Reward(puddles: seq<Anchor>, next: int): real
  {
    if next == GoalStateId then GoalReward
    else if InPuddle(puddles, PuddleSize, GridSize, next) then PuddleReward
    else DefaultReward
  }

  class RLWorld {
    var qTable: map<int, seq<real>>
    var vTable: map<int, real>
    var puddlePositions: seq<Anchor>
    var currentStateId: int
    /** The (row, col) pairs the world's Random object will still draw, in order. */
    var randomDraws: seq<Anchor>

    ghost predicate Valid()
      reads this`qTable, this`puddlePositions, this`randomDraws
    {
      && (forall s :: s in qTable <==> 0 <= s < GridSize * GridSize)
      && (forall s :: s in qTable ==> |qTable[s]| == |Actions.Names|)
      && Placed(puddlePositions, PuddleSize, GridSize)
      && forall i :: 0 <= i < |randomDraws| ==> Drawable(randomDraws[i])
    }

    /**
     * Both constructors: a Q-row of four random values and a V-value of 0 for every state,
     * then initializePuddles and reset. `random(s, a)` stands for random.nextDouble().
     */
    constructor (draws: seq<Anchor>, random: (int, int) -> real)
      requires forall i :: 0 <= i < |draws| ==> Drawable(draws[i])
      ensures Valid()
      ensures forall s :: s in qTable ==> forall a :: 0 <= a < 4 ==> qTable[s][a] == random(s, a)
      ensures forall s :: s in vTable <==> 0 <= s < GridSize * GridSize
      ensures forall s :: s in vTable ==> vTable[s] == 0.0
      ensures currentStateId == 0
      ensures |puddlePositions| <= MaxPuddles && (|puddlePositions| < MaxPuddles ==> randomDraws == [])
      ensures forall i :: 0 <= i < |puddlePositions| ==> Drawable(puddlePositions[i])
    {
      qTable, vTable, puddlePositions := map[], map[], [];
      currentStateId := 0;
      randomDraws := draws;
      new;
      InitializeQTable(random);
      InitializeVTable();
      InitializePuddles();
      Reset();
    }

    method InitializeQTable(random: (int, int) -> real)
      requires qTable == map[]
      modifies this`qTable
      ensures forall s :: s in qTable <==> 0 <= s < GridSize * GridSize
      ensures forall s :: s in qTable ==> |qTable[s]| == 4 && forall a :: 0 <= a < 4 ==> qTable[s][a] == random(s, a)
    {
      var i := 0;
      while i < GridSize * GridSize
        invariant 0 <= i <= GridSize * GridSize
        invariant forall s :: s in qTable <==> 0 <= s < i
        invariant forall s :: s in qTable ==> |qTable[s]| == 4 && forall a :: 0 <= a < 4 ==> qTable[s][a] == random(s, a)
      {
        var actionValues := new real[4];
        var j := 0;
        while j < 4
          invariant 0 <= j <= 4
          invariant forall k :: 0 <= k < j ==> actionValues[k] == random(i, k)
          modifies actionValues
        {
          actionValues[j] := random(i, j);
          j := j + 1;
        }
        qTable := qTable[i := actionValues[..]];
        i := i + 1;
      }
    }

    method InitializeVTable()
      requires vTable == map[]
      modifies this`vTable
      ensures forall s :: s in vTable <==> 0 <= s < GridSize * GridSize
      ensures forall s :: s in vTable ==> vTable[s] == 0.0
    {
      var i := 0;
      while i < GridSize * GridSize
        invariant 0 <= i <= GridSize * GridSize
        invariant forall s :: s in vTable <==> 0 <= s < i
        invariant forall s :: s in vTable ==> vTable[s] == 0.0
      {
        vTable := vTable[i := 0.0];
        i := i + 1;
      }
    }

    /**
     * initializePuddles: clears the list and draws until four squares are accepted, skipping
     * a square that overlaps an accepted one or covers the goal. Unlike the current world,
     * (0, 0) may be drawn. The model stops if the draws run out.
     */
    method InitializePuddles()
      requires Valid()
      modifies this`puddlePositions, this`randomDraws
      ensures Valid()
      ensures |puddlePositions| <= MaxPuddles
      ensures |puddlePositions| < MaxPuddles ==> randomDraws == []
      ensures forall i :: 0 <= i < |puddlePositions| ==> Drawable(puddlePositions[i])
    {
      puddlePositions := [];
      while |puddlePositions| < MaxPuddles && randomDraws != []
        invariant Valid()
        invariant |puddlePositions| <= MaxPuddles
        invariant forall i :: 0 <= i < |puddlePositions| ==> Drawable(puddlePositions[i])
        decreases |randomDraws|
      {
        var puddle := randomDraws[0];
        randomDraws := randomDraws[1..];
        var overlapping := IsOverlapping(puddle);
        if !overlapping {
          GoalCell(GridSize);
          var goalRow, goalCol := Div(GoalStateId, GridSize), Rem(GoalStateId, GridSize);
          if !(puddle.row <= goalRow < puddle.row + PuddleSize && puddle.col <= goalCol < puddle.col + PuddleSize) {
            PlacedAppend(puddlePositions, puddle, PuddleSize, GridSize);
            puddlePositions := puddlePositions + [puddle];
          }
        }
      }
    }

    /** isOverlapping: overlap with an accepted square, or an accepted square on the goal. */
    method IsOverlapping(candidate: Anchor) returns (overlapping: bool)
      ensures overlapping <==>
        (exists i :: 0 <= i < |puddlePositions| && Overlap(candidate, puddlePositions[i], PuddleSize))
        || (exists i :: 0 <= i < |puddlePositions| && CoversGoal(puddlePositions[i], PuddleSize, GridSize))
    {
      overlapping := AnyOverlap(puddlePositions, candidate, PuddleSize);
      if overlapping {
        return;
      }
      GoalCell(GridSize);
      var goalRow, goalCol := Div(GoalStateId, GridSize), Rem(GoalStateId, GridSize);
      var i := 0;
      while i < |puddlePositions|
        invariant 0 <= i <= |puddlePositions|
        invariant forall k :: 0 <= k < i ==> !CoversGoal(puddlePositions[k], PuddleSize, GridSize)
      {
        var p := puddlePositions[i];
        if goalRow >= p.row && goalRow < p.row + PuddleSize && goalCol >= p.col && goalCol < p.col + PuddleSize {
          return true;
        }
        i := i + 1;
      }
    }

    /** reset: the agent goes back to state 0 first, then the puddles are redrawn. */
    method Reset()
      requires Valid()
      modifies this`puddlePositions, this`randomDraws, this`currentStateId
      ensures Valid()
      ensures currentStateId == 0
      ensures |puddlePositions| <= MaxPuddles
      ensures |puddlePositions| < MaxPuddles ==> randomDraws == []
      ensures forall i :: 0 <= i < |puddlePositions| ==> Drawable(puddlePositions[i])
    {
      currentStateId := 0;
      InitializePuddles();
    }

    /** cleanup: reset, then no puddles at all. */
    method Cleanup()
      requires Valid()
      modifies this`puddlePositions, this`randomDraws, this`currentStateId
      ensures Valid()
      ensures currentStateId == 0 && puddlePositions == []
    {
      Reset();
      puddlePositions := [];
    }

    /** setQValue: writes entry [stateId][action] only when the row exists and the index fits it. */
    method SetQValue(stateId: int, action: int, qValue: real)
      requires Valid()
      modifies this`qTable
      ensures Valid()
      ensures qTable == if stateId in old(qTable) && 0 <= action < |old(qTable)[stateId]|
                        then old(qTable)[stateId := old(qTable)[stateId][action := qValue]]
                        else old(qTable)
    {
      if stateId in qTable {
        var currentQ := qTable[stateId];
        if 0 <= action < |currentQ| {
          currentQ := currentQ[action := qValue];
          qTable := qTable[stateId := currentQ];
        }
      }
    }

    /** setVValue: writes any key, present or not. */
    method SetVValue(stateId: int, vValue: real)
      modifies this`vTable
      ensures vTable == old(vTable)[stateId := vValue]
    {
      vTable := vTable[stateId := vValue];
    }

    /** isPuddle: whether some 2-by-2 puddle covers the state's cell. */
    method IsPuddle(stateId: int) returns (inPuddle: bool)
      ensures inPuddle <==> InPuddle(puddlePositions, PuddleSize, GridSize, stateId)
    {
      inPuddle := ScanPuddles(puddlePositions, PuddleSize, GridSize, stateId);
    }

    /** getReward: the reward for entering nextStateId. */
    method GetReward(stateId: int, action: string, nextStateId: int) returns (reward: real)
      ensures reward == Reward(puddlePositions, nextStateId)
    {
      if nextStateId == GoalStateId {
        return GoalReward;
      }
      var inPuddle := IsPuddle(nextStateId);
      if inPuddle {
        return PuddleReward;
      }
      return DefaultReward;
    }

    /**
     * moveAgentWithAction: an unknown index reports the agent's own state; a step into a
     * puddle is refused (the agent stays and the Q-entry of the refused move is rewritten by
     * updateQTable, whose temporal-difference value is passed in as `learned`); any other
     * step moves the agent. updateQTable on a state with no Q-row throws.
     */
    method MoveAgentWithIndex(stateId: int, action: int, learned: real) returns (r: Result<int>)
      requires Valid()
      modifies this`currentStateId, this`qTable
      ensures Valid()
      ensures !(0 <= action < 4) ==>
        r == Ok(old(currentStateId)) && currentStateId == old(currentStateId) && qTable == old(qTable)
      ensures 0 <= action < 4 && InPuddle(puddlePositions, PuddleSize, GridSize, Step(stateId, Actions.Names[action], GridSize)) ==>
        currentStateId == old(currentStateId)
        && (if stateId in old(qTable)
            then r == Ok(stateId) && qTable == old(qTable)[stateId := old(qTable)[stateId][action := learned]]
            else r == Err(NullReference) && qTable == old(qTable))
      ensures 0 <= action < 4 && !InPuddle(puddlePositions, PuddleSize, GridSize, Step(stateId, Actions.Names[action], GridSize)) ==>
        r == Ok(Step(stateId, Actions.Names[action], GridSize))
        && currentStateId == Step(stateId, Actions.Names[action], GridSize) && qTable == old(qTable)
    {
      var actionStr := Actions.IndexToName(action);
      if actionStr.None? {
        return Ok(currentStateId);
      }
      var newStateId := Step(stateId, actionStr.value, GridSize);
      var inPuddle := IsPuddle(newStateId);
      if inPuddle {
        if stateId !in qTable {
          return Err(NullReference);
        }
        var currentQ := qTable[stateId];
        qTable := qTable[stateId := currentQ[action := learned]];
        return Ok(stateId);
      }
      currentStateId := newStateId;
      return Ok(currentStateId);
    }

    /** setPuddlePositions: the same validation as the current world, on the fixed 20-by-20 grid. */
    method SetPuddlePositions(puddles: Option<seq<Option<seq<int>>>>) returns (outcome: Outcome)
      requires Valid()
      modifies this`puddlePositions
      ensures Valid()
      ensures puddles.None? ==> outcome == Threw(IllegalArgument) && puddlePositions == old(puddlePositions)
      ensures puddles.Some? ==>
        puddlePositions == Accept([], puddles.value, PuddleSize, GridSize).0
        && outcome == if Accept([], puddles.value, PuddleSize, GridSize).1 then Normal else Threw(IllegalArgument)
    {
      if puddles.None? {
        return Threw(IllegalArgument);
      }
      var accepted, ok := AcceptLoop(puddles.value, PuddleSize, GridSize);
      AcceptPlaced([], puddles.value, PuddleSize, GridSize);
      puddlePositions := accepted;
      outcome := if ok then Normal else Threw(IllegalArgument);
    }
  }

  /** isTerminalState: state 399 only. */
  predicate IsTerminalState(stateId: int)
  {
    stateId == GoalStateId
  }

  /** getAvailableActions: every state offers all four actions, whatever the edges. */
  function AvailableActions(stateId: int): (r: seq<string>)
    ensures forall a :: a in r <==> a in Actions.Names
    ensures |r| == 4 && forall i :: 0 <= i < 4 ==> Actions.NameToIndex(r[i]) == i
  {
    Actions.Names
  }

  /** The moves the world's unit tests expect on the 20-by-20 grid. */
  lemma SimulateExamples()
    ensures Step(25, "UP", GridSize) == 5 && Step(5, "DOWN", GridSize) == 25
    ensures Step(5, "LEFT", GridSize) == 4 && Step(5, "RIGHT", GridSize) == 6
  {
  }

  /** The tests' puddle anchored at (1, 1) covers states 21 and 22 and not 0. */
  lemma PuddleExamples()
    ensures InPuddle([Anchor(1, 1)], PuddleSize, GridSize, 21)
    ensures InPuddle([Anchor(1, 1)], PuddleSize, GridSize, 22)
    ensures !InPuddle([Anchor(1, 1)], PuddleSize, GridSize, 0)
  {
    var puddles := [Anchor(1, 1)];
    assert Covers(puddles[0], PuddleSize, Row(21, GridSize), Col(21, GridSize));
    assert Covers(puddles[0], PuddleSize, Row(22, GridSize), Col(22, GridSize));
  }

  /** The goal pays 1.0 even inside a puddle, a puddle cell -1.0, any other cell 0.01; and a valid layout never covers the goal. */
  lemma RewardPriority(puddles: seq<Anchor>, next: int)
    ensures Reward(puddles, GoalStateId) == GoalReward
    ensures next != GoalStateId && InPuddle(puddles, PuddleSize, GridSize, next) ==> Reward(puddles, next) == PuddleReward
    ensures next != GoalStateId && !InPuddle(puddles, PuddleSize, GridSize, next) ==> Reward(puddles, next) == DefaultReward
    ensures Placed(puddles, PuddleSize, GridSize) ==> !InPuddle(puddles, PuddleSize, GridSize, GoalStateId)
  {
    if Placed(puddles, PuddleSize, GridSize) {
      PlacedGoalDry(puddles, PuddleSize, GridSize);
    }
  }

  /** The only terminal state is the bottom-right cell (19, 19). */
  lemma TerminalIsBottomRight(s: int)
    requires 0 <= s < GridSize * GridSize
    ensures IsTerminalState(s) <==> Row(s, GridSize) == 19 && Col(s, GridSize) == 19
  {
    CellOf(s, GridSize);
    GoalCell(GridSize);
  }
}
