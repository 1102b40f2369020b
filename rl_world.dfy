/**
 * The server's puddle world (RLWorld): a g-by-g grid whose configuration comes from the
 * environment, with random puddles, a Q-table and a V-table indexed by state id.
 */
module PuddleWorld {
  import opened Wrappers
  import opened JavaInt
  import opened Grid
  import Actions
  import Text

  /** The reward both moveAgentWithAction overloads record for an unusable action. */
  const InvalidActionPenalty: real := -0.1

  /**
   * The Q-table after setQValue: entry [stateId][action] holds the value when the row exists
   * and the index fits it; every other entry, and every row's length, stays.
   */
  function QWrite(q: map<int, seq<real>>, stateId: int, action: int, value: real): (r: map<int, seq<real>>)
    ensures r.Keys == q.Keys
    ensures forall s :: s in q ==> |r[s]| == |q[s]|
    ensures stateId in q && 0 <= action < |q[stateId]| ==> r[stateId][action] == value
    ensures forall s, a :: s in q && 0 <= a < |q[s]| && (s != stateId || a != action) ==> r[s][a] == q[s][a]
    ensures !(stateId in q && 0 <= action < |q[stateId]|) ==> r == q
  {
    if stateId in q && 0 <= action < |q[stateId]| then q[stateId := q[stateId][action := value]] else q
  }

  /** The V-table after setVValue: an existing state takes the value; nothing else changes. */
  function VWrite(v: map<int, real>, stateId: int, value: real): (r: map<int, real>)
    ensures r.Keys == v.Keys
    ensures stateId in v ==> r[stateId] == value
    ensures forall s :: s in v && s != stateId ==> r[s] == v[s]
  {
    if stateId in v then v[stateId := value] else v
  }

  class RLWorld {
    const gridSize: int
    const maxPuddles: int
    const puddleSize: int
    const defaultReward: real
    const puddleReward: real
    const goalReward: real

    var qTable: map<int, seq<real>>
    var vTable: map<int, real>
    var puddlePositions: seq<Anchor>
    var currentStateId: int
    var lastReward: real
    var isTerminal: bool
    /** The (row, col) pairs the world's Random object will still draw, in order. */
    var randomDraws: seq<Anchor>

    /** An anchor `random.nextInt(gridSize - puddleSize + 1)` can produce, twice over. */
    predicate Drawable(a: Anchor)
    {
      0 <= a.row <= gridSize - puddleSize && 0 <= a.col <= gridSize - puddleSize
    }

    /** Every listed anchor is one initializePuddles may keep: drawable and not (0, 0). */
    predicate DrawnLayout()
      reads this`puddlePositions
    {
      forall i :: 0 <= i < |puddlePositions| ==> puddlePositions[i] != Anchor(0, 0) && Drawable(puddlePositions[i])
    }

    ghost predicate Valid()
      reads this`puddlePositions, this`randomDraws
    {
      && 1 <= puddleSize <= gridSize
      && 0 <= maxPuddles
      && Placed(puddlePositions, puddleSize, gridSize)
      && forall i :: 0 <= i < |randomDraws| ==> Drawable(randomDraws[i])
    }

    /**
     * Both constructors: the configuration (read from the environment), then a Q-row of
     * four random values and a V-value of 0 for every state, then initializePuddles and reset.
     * `random(s, a)` stands for the Math.random() value drawn for state s and action a.
     */
    constructor (g: int, maxP: int, size: int, defaultR: real, puddleR: real, goalR: real,
                 draws: seq<Anchor>, random: (int, int) -> real)
      requires 1 <= size <= g && 0 <= maxP
      requires forall i :: 0 <= i < |draws| ==> 0 <= draws[i].row <= g - size && 0 <= draws[i].col <= g - size
      ensures Valid()
      ensures gridSize == g && maxPuddles == maxP && puddleSize == size
      ensures defaultReward == defaultR && puddleReward == puddleR && goalReward == goalR
      ensures forall s :: s in qTable <==> 0 <= s < g * g
      ensures forall s :: s in qTable ==> |qTable[s]| == 4 && forall a :: 0 <= a < 4 ==> qTable[s][a] == random(s, a)
      ensures forall s :: s in vTable <==> 0 <= s < g * g
      ensures forall s :: s in vTable ==> vTable[s] == 0.0
      ensures currentStateId == 0 && lastReward == 0.0 && !isTerminal
    {
      gridSize, maxPuddles, puddleSize := g, maxP, size;
      defaultReward, puddleReward, goalReward := defaultR, puddleR, goalR;
      qTable, vTable, puddlePositions := map[], map[], [];
      currentStateId, lastReward, isTerminal := 0, 0.0, false;
      randomDraws := draws;
      new;
      InitializeQTable(random);
      InitializeVTable();
      InitializePuddles();
      Reset();
    }

    /** initializeQTable: four random values for each state 0 .. g*g - 1. */
    method InitializeQTable(random: (int, int) -> real)
      requires gridSize >= 1 && qTable == map[]
      modifies this`qTable
      ensures forall s :: s in qTable <==> 0 <= s < gridSize * gridSize
      ensures forall s :: s in qTable ==> |qTable[s]| == 4 && forall a :: 0 <= a < 4 ==> qTable[s][a] == random(s, a)
    {
      var state := 0;
      while state < gridSize * gridSize
        invariant 0 <= state <= gridSize * gridSize
        invariant forall s :: s in qTable <==> 0 <= s < state
        invariant forall s :: s in qTable ==> |qTable[s]| == 4 && forall a :: 0 <= a < 4 ==> qTable[s][a] == random(s, a)
      {
        var actions := new real[4];
        var a := 0;
        while a < 4
          invariant 0 <= a <= 4
          invariant forall k :: 0 <= k < a ==> actions[k] == random(state, k)
          modifies actions
        {
          actions[a] := random(state, a);
          a := a + 1;
        }
        qTable := qTable[state := actions[..]];
        state := state + 1;
      }
    }

    /** initializeVTable: value 0 for each state 0 .. g*g - 1. */
    method InitializeVTable()
      requires gridSize >= 1 && vTable == map[]
      modifies this`vTable
      ensures forall s :: s in vTable <==> 0 <= s < gridSize * gridSize
      ensures forall s :: s in vTable ==> vTable[s] == 0.0
    {
      var state := 0;
      while state < gridSize * gridSize
        invariant 0 <= state <= gridSize * gridSize
        invariant forall s :: s in vTable <==> 0 <= s < state
        invariant forall s :: s in vTable ==> vTable[s] == 0.0
      {
        vTable := vTable[state := 0.0];
        state := state + 1;
      }
    }

    /**
     * initializePuddles: clears the list, then draws anchors until it holds maxPuddles,
     * skipping (0, 0), any anchor whose square overlaps an accepted one, and any square
     * covering the goal. Java keeps drawing for ever; the model stops if the draws run out.
     */
    method InitializePuddles()
      requires Valid()
      modifies this`puddlePositions, this`randomDraws
      ensures Valid()
      ensures |puddlePositions| <= maxPuddles
      ensures |puddlePositions| < maxPuddles ==> randomDraws == []
      ensures DrawnLayout()
      ensures |randomDraws| <= |old(randomDraws)|
      ensures randomDraws == old(randomDraws)[|old(randomDraws)| - |randomDraws|..]
    {
      puddlePositions := [];
      while |puddlePositions| < maxPuddles && randomDraws != []
        invariant Valid()
        invariant |puddlePositions| <= maxPuddles
        invariant DrawnLayout()
        invariant |randomDraws| <= |old(randomDraws)|
        invariant randomDraws == old(randomDraws)[|old(randomDraws)| - |randomDraws|..]
        decreases |randomDraws|
      {
        var puddle := randomDraws[0];
        randomDraws := randomDraws[1..];
        if puddle.row == 0 && puddle.col == 0 {
          continue;
        }
        var overlapping := IsOverlapping(puddle);
        if !overlapping {
          GoalCell(gridSize);
          var goalRow, goalCol := Div(Goal(gridSize), gridSize), Rem(Goal(gridSize), gridSize);
          if !(puddle.row <= goalRow < puddle.row + puddleSize && puddle.col <= goalCol < puddle.col + puddleSize) {
            PlacedAppend(puddlePositions, puddle, puddleSize, gridSize);
            puddlePositions := puddlePositions + [puddle];
          }
        }
      }
    }

    /**
     * isOverlapping: the candidate square overlaps an existing one, or an existing square
     * covers the goal (which the layout invariant rules out).
     */
    method IsOverlapping(candidate: Anchor) returns (overlapping: bool)
      requires gridSize >= 1
      ensures overlapping <==>
        (exists i :: 0 <= i < |puddlePositions| && Overlap(candidate, puddlePositions[i], puddleSize))
        || (exists i :: 0 <= i < |puddlePositions| && CoversGoal(puddlePositions[i], puddleSize, gridSize))
    {
      overlapping := AnyOverlap(puddlePositions, candidate, puddleSize);
      if overlapping {
        return;
      }
      GoalCell(gridSize);
      var goalRow, goalCol := Div(Goal(gridSize), gridSize), Rem(Goal(gridSize), gridSize);
      var i := 0;
      while i < |puddlePositions|
        invariant 0 <= i <= |puddlePositions|
        invariant forall k :: 0 <= k < i ==> !CoversGoal(puddlePositions[k], puddleSize, gridSize)
      {
        var p := puddlePositions[i];
        if goalRow >= p.row && goalRow < p.row + puddleSize && goalCol >= p.col && goalCol < p.col + puddleSize {
          return true;
        }
        i := i + 1;
      }
    }

    /** reset: redraws the puddles and puts the agent back on state 0. */
    method Reset()
      requires Valid()
      modifies this`puddlePositions, this`randomDraws, this`currentStateId
      ensures Valid()
      ensures currentStateId == 0
      ensures |puddlePositions| <= maxPuddles
      ensures |puddlePositions| < maxPuddles ==> randomDraws == []
      ensures DrawnLayout()
    {
      InitializePuddles();
      currentStateId := 0;
    }

    /** cleanup: reset, then no puddles at all. */
    method Cleanup()
      requires Valid()
      modifies this`puddlePositions, this`randomDraws, this`currentStateId
      ensures Valid()
      ensures currentStateId == 0 && puddlePositions == []
    {
      Reset();
      puddlePositions := [];
    }

    /** setQValue: writes entry [stateId][action] only when the row exists and the index fits it. */
    method SetQValue(stateId: int, action: int, qValue: real)
      modifies this`qTable
      ensures qTable == QWrite(old(qTable), stateId, action, qValue)
    {
      if stateId in qTable {
        var currentQ := qTable[stateId];
        if 0 <= action < |currentQ| {
          currentQ := currentQ[action := qValue];
          qTable := qTable[stateId := currentQ];
        }
      }
    }

    /** setVValue: writes only a state that is already a key. */
    method SetVValue(stateId: int, vValue: real)
      modifies this`vTable
      ensures vTable == VWrite(old(vTable), stateId, vValue)
    {
      if stateId in vTable {
        vTable := vTable[stateId := vValue];
      }
    }

    /** isTerminalState: the goal, g*g - 1. */
    predicate IsTerminalState(stateId: int)
    {
      stateId == gridSize * gridSize - 1
    }

    /** The reward for entering `next`: the goal first, then a puddle, else the default. */
    function Reward(next: int): real
      requires gridSize >= 1
      reads this
    {
      if next == Goal(gridSize) then goalReward
      else if InPuddle(puddlePositions, puddleSize, gridSize, next) then puddleReward
      else defaultReward
    }

    /** isPuddle: whether some puddle square covers the state's cell. */
    method IsPuddle(stateId: int) returns (inPuddle: bool)
      requires gridSize >= 1
      ensures inPuddle <==> InPuddle(puddlePositions, puddleSize, gridSize, stateId)
    {
      inPuddle := ScanPuddles(puddlePositions, puddleSize, gridSize, stateId);
    }

    /** getReward: the reward for entering nextStateId; the other two arguments are unused. */
    method GetReward(stateId: int, action: string, nextStateId: int) returns (reward: real)
      requires gridSize >= 1
      ensures reward == Reward(nextStateId)
    {
      if nextStateId == Goal(gridSize) {
        return goalReward;
      }
      var inPuddle := IsPuddle(nextStateId);
      if inPuddle {
        return puddleReward;
      }
      return defaultReward;
    }

    /**
     * moveAgentWithAction(int, int): an index outside 0..3 costs the penalty and ends the
     * episode in place; otherwise the agent takes the clamped step, the reward of the new
     * cell is recorded, the episode ends iff it is the goal, and the agent's state moves.
     */
    method MoveAgentWithIndex(stateId: int, action: int) returns (next: int)
      requires gridSize >= 1
      modifies this`lastReward, this`isTerminal, this`currentStateId
      ensures !(0 <= action < 4) ==>
        next == stateId && lastReward == InvalidActionPenalty && isTerminal
        && currentStateId == old(currentStateId)
      ensures 0 <= action < 4 ==>
        next == Step(stateId, Actions.Names[action], gridSize)
        && lastReward == Reward(next) && (isTerminal <==> next == Goal(gridSize))
        && currentStateId == next
    {
      var actionStr := Actions.IndexToName(action);
      if actionStr.None? {
        lastReward := InvalidActionPenalty;
        isTerminal := true;
        return stateId;
      }
      next := Step(stateId, actionStr.value, gridSize);
      var reward := defaultReward;
      if next == Goal(gridSize) {
        reward := goalReward;
      } else {
        var inPuddle := IsPuddle(next);
        if inPuddle {
          reward := puddleReward;
        }
      }
      lastReward := reward;
      isTerminal := IsTerminalState(next);
      currentStateId := next;
    }

    /**
     * moveAgentWithAction(int, String): the name is upper-cased first; an unknown name costs
     * the penalty without ending the episode. Unlike the index overload it never moves the
     * agent's own state: it only reports the new state.
     */
    method MoveAgentWithName(stateId: int, actionStr: string) returns (next: int)
      requires gridSize >= 1
      modifies this`lastReward, this`isTerminal
      ensures Text.ToUpper(actionStr) !in Actions.Names ==>
        next == stateId && lastReward == InvalidActionPenalty && !isTerminal
      ensures Text.ToUpper(actionStr) in Actions.Names ==>
        next == Step(stateId, Text.ToUpper(actionStr), gridSize)
        && lastReward == Reward(next) && (isTerminal <==> next == Goal(gridSize))
    {
      var upper := Text.ToUpper(actionStr);
      var index := Actions.FindIndex(upper);
      if index == -1 {
        lastReward := InvalidActionPenalty;
        isTerminal := false;
        return stateId;
      }
      next := Step(stateId, upper, gridSize);
      var reward := defaultReward;
      if next == Goal(gridSize) {
        reward := goalReward;
      } else {
        var inPuddle := IsPuddle(next);
        if inPuddle {
          reward := puddleReward;
        }
      }
      lastReward := reward;
      isTerminal := IsTerminalState(next);
    }

    /**
     * setPuddlePositions: a null list throws before anything changes; otherwise the list is
     * cleared and the entries are appended one by one until one is refused, which throws.
     */
    method SetPuddlePositions(puddles: Option<seq<Option<seq<int>>>>) returns (outcome: Outcome)
      requires Valid()
      modifies this`puddlePositions
      ensures Valid()
      ensures puddles.None? ==> outcome == Threw(IllegalArgument) && puddlePositions == old(puddlePositions)
      ensures puddles.Some? ==>
        puddlePositions == Accept([], puddles.value, puddleSize, gridSize).0
        && outcome == if Accept([], puddles.value, puddleSize, gridSize).1 then Normal else Threw(IllegalArgument)
    {
      if puddles.None? {
        return Threw(IllegalArgument);
      }
      var accepted, ok := AcceptLoop(puddles.value, puddleSize, gridSize);
      AcceptPlaced([], puddles.value, puddleSize, gridSize);
      puddlePositions := accepted;
      outcome := if ok then Normal else Threw(IllegalArgument);
    }
  }

  /** The terminal state is the goal, the bottom-right cell, and entering it pays the goal reward even inside a puddle. */
  lemma TerminalIsGoal(w: RLWorld, s: int)
    requires w.gridSize >= 1 && 0 <= s < w.gridSize * w.gridSize
    ensures w.IsTerminalState(s) <==> Row(s, w.gridSize) == w.gridSize - 1 && Col(s, w.gridSize) == w.gridSize - 1
    ensures w.IsTerminalState(s) ==> w.Reward(s) == w.goalReward
  {
    CellOf(s, w.gridSize);
    GoalCell(w.gridSize);
    if Row(s, w.gridSize) == w.gridSize - 1 && Col(s, w.gridSize) == w.gridSize - 1 {
      assert s == (w.gridSize - 1) * w.gridSize + (w.gridSize - 1);
    }
  }
}
