/**
 * The client agent's learning state and action choice (RLGamePlayer): its own Q- and
 * V-tables over the 400 states of a 20-by-20 grid, the greedy choice among the actions the
 * server offers, and the epsilon-greedy decision. Math.random() values are parameters.
 */
module Player {
  import opened Wrappers

  /** The client's tables cover states 0 .. 399. */
  const ClientStates: int := 400

  /** An entry of availableActions the Q-row can be indexed with. */
  predicate InRow(row: seq<real>, action: int)
  {
    0 <= action < |row|
  }

  /**
   * The greedy choice: among the offered actions that index the row, the first whose Q-value
   * is strictly greatest; the first offered action when none of them indexes the row.
   */
  ghost predicate Greedy(row: seq<real>, actions: seq<int>, choice: int)
    requires |actions| > 0
  {
    if forall i :: 0 <= i < |actions| ==> !InRow(row, actions[i]) then choice == actions[0]
    else exists i :: 0 <= i < |actions| && actions[i] == choice && GreedyAt(row, actions, i)
  }

  /** Entry i indexes the row, no entry beats it, and every entry before it is strictly below it. */
  ghost predicate GreedyAt(row: seq<real>, actions: seq<int>, i: int)
    requires 0 <= i < |actions|
  {
    && InRow(row, actions[i])
    && (forall j :: 0 <= j < |actions| && InRow(row, actions[j]) ==> row[actions[j]] <= row[actions[i]])
    && (forall j :: 0 <= j < i && InRow(row, actions[j]) ==> row[actions[j]] < row[actions[i]])
  }

  /** The greedy choice is one of the offered actions. */
  lemma GreedyIsOffered(row: seq<real>, actions: seq<int>, choice: int)
    requires |actions| > 0 && Greedy(row, actions, choice)
    ensures choice in actions
  {
    if exists i :: 0 <= i < |actions| && InRow(row, actions[i]) {
      var i :| 0 <= i < |actions| && actions[i] == choice && GreedyAt(row, actions, i);
      assert actions[i] in actions;
    }
  }

  /** The greedy choice is determined by the row and the offered actions. */
  lemma GreedyUnique(row: seq<real>, actions: seq<int>, c1: int, c2: int)
    requires |actions| > 0 && Greedy(row, actions, c1) && Greedy(row, actions, c2)
    ensures c1 == c2
  {
    if exists i :: 0 <= i < |actions| && InRow(row, actions[i]) {
      var i1 :| 0 <= i1 < |actions| && actions[i1] == c1 && GreedyAt(row, actions, i1);
      var i2 :| 0 <= i2 < |actions| && actions[i2] == c2 && GreedyAt(row, actions, i2);
      if i1 < i2 {
        assert false;
      } else if i2 < i1 {
        assert false;
      }
    }
  }

  class RLGamePlayer {
    var qTable: map<int, seq<real>>
    var vTable: map<int, real>
    const alpha: real
    const gamma: real
    const epsilon: real

    /**
     * The constructor's learning part: learning parameters 0.1, 0.9 and 1, then both tables
     * filled. `random(s, a)` stands for the Math.random() value drawn for state s and action a.
     */
    constructor (random: (int, int) -> real)
      ensures alpha == 0.1 && gamma == 0.9 && epsilon == 1.0
      ensures forall s :: s in qTable <==> 0 <= s < ClientStates
      ensures forall s :: s in qTable ==> |qTable[s]| == 4 && forall a :: 0 <= a < 4 ==> qTable[s][a] == random(s, a)
      ensures forall s :: s in vTable <==> 0 <= s < ClientStates
      ensures forall s :: s in vTable ==> vTable[s] == 0.0
    {
      alpha, gamma, epsilon := 0.1, 0.9, 1.0;
      qTable, vTable := map[], map[];
      new;
      InitializeQTable(random);
      InitializeVTable();
    }

    /** initializeQTable: a row of four random values for each state 0 .. 399. */
    method InitializeQTable(random: (int, int) -> real)
      requires qTable == map[]
      modifies this`qTable
      ensures forall s :: s in qTable <==> 0 <= s < ClientStates
      ensures forall s :: s in qTable ==> |qTable[s]| == 4 && forall a :: 0 <= a < 4 ==> qTable[s][a] == random(s, a)
    {
      var state := 0;
      while state < ClientStates
        invariant 0 <= state <= ClientStates
        invariant forall s :: s in qTable <==> 0 <= s < state
        invariant forall s :: s in qTable ==> |qTable[s]| == 4 && forall a :: 0 <= a < 4 ==> qTable[s][a] == random(s, a)
      {
        var actions := new real[4];
        var a := 0;
        while a < 4
          invariant 0 <= a <= 4
          invariant forall k :: 0 <= k < a ==> actions[k] == random(state, k)
          modifies actions
        {
          actions[a] := random(state, a);
          a := a + 1;
        }
        qTable := qTable[state := actions[..]];
        state := state + 1;
      }
    }

    /** initializeVTable: value 0 for each state 0 .. 399. */
    method InitializeVTable()
      requires vTable == map[]
      modifies this`vTable
      ensures forall s :: s in vTable <==> 0 <= s < ClientStates
      ensures forall s :: s in vTable ==> vTable[s] == 0.0
    {
      var state := 0;
      while state < ClientStates
        invariant 0 <= state <= ClientStates
        invariant forall s :: s in vTable <==> 0 <= s < state
        invariant forall s :: s in vTable ==> vTable[s] == 0.0
      {
        vTable := vTable[state := 0.0];
        state := state + 1;
      }
    }

    /**
     * getMaxQ: the largest value of the row; an empty row gives negative infinity, written
     * here as None.
     */
    method GetMaxQ(qValues: seq<real>) returns (max: Option<real>)
      ensures max.None? <==> qValues == []
      ensures max.Some? ==> max.value in qValues && forall q :: q in qValues ==> q <= max.value
    {
      max := None;
      var i := 0;
      while i < |qValues|
        invariant 0 <= i <= |qValues|
        invariant max.None? <==> i == 0
        invariant max.Some? ==> max.value in qValues[..i]
        invariant max.Some? ==> forall k :: 0 <= k < i ==> qValues[k] <= max.value
      {
        var q := qValues[i];
        if max.None? || q > max.value {
          max := Some(q);
        }
        i := i + 1;
      }
      assert qValues[..i] == qValues;
    }

    /**
     * getBestAvailableAction: no offered action, or no Q-row for the state, throws; otherwise
     * the greedy choice, skipping entries that do not index the row.
     */
    method GetBestAvailableAction(stateId: int, availableActions: seq<int>) returns (r: Result<int>)
      ensures availableActions == [] ==> r == Err(IllegalArgument)
      ensures availableActions != [] && stateId !in qTable ==> r == Err(IllegalState)
      ensures availableActions != [] && stateId in qTable ==> r.Ok? && Greedy(qTable[stateId], availableActions, r.value)
    {
      if |availableActions| == 0 {
        return Err(IllegalArgument);
      }
      if stateId !in qTable {
        return Err(IllegalState);
      }
      var actions := qTable[stateId];
      var maxQ: Option<real> := None;
      var bestAction := availableActions[0];
      ghost var bestAt := 0;
      var i := 0;
      while i < |availableActions|
        invariant 0 <= i <= |availableActions|
        invariant maxQ.None? <==> forall k :: 0 <= k < i ==> !InRow(actions, availableActions[k])
        invariant maxQ.None? ==> bestAction == availableActions[0]
        invariant maxQ.Some? ==>
          && 0 <= bestAt < i && availableActions[bestAt] == bestAction
          && InRow(actions, bestAction) && maxQ.value == actions[bestAction]
          && (forall k :: 0 <= k < i && InRow(actions, availableActions[k]) ==> actions[availableActions[k]] <= maxQ.value)
          && (forall k :: 0 <= k < bestAt && InRow(actions, availableActions[k]) ==> actions[availableActions[k]] < maxQ.value)
      {
        var action := availableActions[i];
        if action < 0 || action >= |actions| {
          i := i + 1;
          continue;
        }
        if maxQ.None? || actions[action] > maxQ.value {
          maxQ := Some(actions[action]);
          bestAction := action;
          bestAt := i;
        }
        i := i + 1;
      }
      if maxQ.Some? {
        assert GreedyAt(actions, availableActions, bestAt);
      }
      return Ok(bestAction);
    }

    /** A draw in [0, 1) scaled by the number of offered actions floors to a valid index. */
    static lemma ScaledPickInRange(pick: real, n: nat)
      requires 0.0 <= pick < 1.0 && 0 < n
      ensures 0 <= (pick * n as real).Floor < n
    {
      var x := pick * n as real;
      assert x < n as real by {
        assert (1.0 - pick) * n as real > 0.0;
      }
      assert 0.0 <= x;
      assert x.Floor as real <= x;
    }

    /** (int)(pick * n): the index a Math.random() value `pick` selects among n entries. */
    static function RandomIndex(pick: real, n: nat): (i: nat)
      requires 0.0 <= pick < 1.0 && 0 < n
      ensures i < n && i as real <= pick * n as real < (i + 1) as real
    {
      ScaledPickInRange(pick, n);
      (pick * n as real).Floor
    }

    /**
     * getRandomAvailableAction: the entry at (int)(pick * length), `pick` standing for a
     * Math.random() value; no offered action throws.
     */
    method GetRandomAvailableAction(availableActions: Option<seq<int>>, pick: real) returns (r: Result<int>)
      requires 0.0 <= pick < 1.0
      ensures availableActions.None? || availableActions.value == [] ==> r == Err(IllegalArgument)
      ensures availableActions.Some? && availableActions.value != [] ==>
        && r.Ok? && r.value in availableActions.value
        && r.value == availableActions.value[RandomIndex(pick, |availableActions.value|)]
    {
      if availableActions.None? || |availableActions.value| == 0 {
        return Err(IllegalArgument);
      }
      var n := |availableActions.value|;
      return Ok(availableActions.value[RandomIndex(pick, n)]);
    }

    /**
     * decideAction: no offered action throws (after asking the server for a reset); a draw
     * below epsilon picks at random, any other draw picks greedily.
     */
    method DecideAction(stateId: int, availableActions: Option<seq<int>>, draw: real, pick: real)
      returns (r: Result<int>)
      requires 0.0 <= pick < 1.0
      ensures availableActions.None? || availableActions.value == [] ==> r == Err(IllegalArgument)
      ensures availableActions.Some? && availableActions.value != [] && draw < epsilon ==>
        && r.Ok? && r.value in availableActions.value
        && r.value == availableActions.value[RandomIndex(pick, |availableActions.value|)]
      ensures epsilon == 1.0 && 0.0 <= draw < 1.0 && availableActions.Some? && availableActions.value != [] ==>
        r == Ok(availableActions.value[RandomIndex(pick, |availableActions.value|)])
      ensures availableActions.Some? && availableActions.value != [] && draw >= epsilon ==>
        if stateId in qTable then r.Ok? && Greedy(qTable[stateId], availableActions.value, r.value)
        else r == Err(IllegalState)
    {
      if availableActions.None? || |availableActions.value| == 0 {
        return Err(IllegalArgument);
      }
      if draw < epsilon {
        r := GetRandomAvailableAction(availableActions, pick);
      } else {
        r := GetBestAvailableAction(stateId, availableActions.value);
      }
    }
  }
}
