/**
 * The decision logic of the server's request handler (RLGameRequestHandler): which requests
 * reach a handler, which state-action pairs a batch update may touch, how a Q- or V-batch
 * lands in the world's tables, the available-actions reply, and the guards and episode-end
 * test around a move.
 */
module RequestHandler {
  import opened Wrappers
  import opened Grid
  import opened Sfs
  import Actions
  import Messages
  import PuddleWorld
  import Users

  /** The replies the model distinguishes: an error text, or a response object. */
  datatype Reply = Error(message: string) | Response(params: SFSObject)

  // ---------------------------------------------------------------- dispatch

  /** What handleClientRequest does with a request before any handler runs. */
  datatype Route =
    | Refused(message: string)      // an error reply; nothing is dispatched
    | Failed(fault: Fault)          // an exception escapes the handler
    | TrainingOver                  // the training-complete reply; nothing is dispatched
    | Dispatched(messageType: string)
    | Unknown(messageType: string)  // the "Unknown message type" error reply

  /** The message types the switch hands to a handler. */
  const Handled: seq<string> := [
    Messages.GAME_STATE, Messages.GAME_ACTION_MOVE, Messages.GAME_RESET,
    Messages.GAME_AVAILABLE_ACTIONS, Messages.GAME_AVAILABLE_REWARDS, Messages.GAME_TRAINING_COMPLETE,
    Messages.GAME_ACTION_REWARD, Messages.GAME_Q_UPDATE, Messages.GAME_V_UPDATE, Messages.GAME_INFO]

  /**
   * handleClientRequest's checks, in order: parameters present, the user in RLRoom, a message
   * type, a game manager; then a user whose training is complete gets the training-complete
   * reply and nothing else; only then is the type switched on.
   */
  function RouteRequest(params: Option<SFSObject>, inRoom: bool, managerReady: bool, trainingComplete: bool): (r: Route)
    ensures params.None? ==> r == Refused("No parameters provided.")
    ensures r.Dispatched? || r.Unknown? ==>
      && params.Some? && inRoom && managerReady && !trainingComplete
      && "messageType" in params.value && params.value["messageType"] == UtfString(r.messageType)
    ensures r.Dispatched? ==> r.messageType in Handled
    ensures r.Unknown? ==> r.messageType !in Handled
  {
    if params.None? then Refused("No parameters provided.")
    else if !inRoom then Refused("User is not in RLRoom.")
    else
      var mt := GetUtfString(params.value, "messageType");
      if mt.Err? then Failed(mt.fault)
      else if mt.value.None? then Refused("Missing message type.")
      else if !managerReady then Refused("GameManager is not initialized.")
      else if trainingComplete then TrainingOver
      else if mt.value.value in Handled then Dispatched(mt.value.value)
      else Unknown(mt.value.value)
  }

  /**
   * Once a user's training is complete no message type reaches a handler, and a well-formed
   * request gets the training-complete reply.
   */
  lemma TrainingCompleteStopsDispatch(params: Option<SFSObject>, inRoom: bool, managerReady: bool)
    ensures var r := RouteRequest(params, inRoom, managerReady, true);
      r.Refused? || r.Failed? || r.TrainingOver?
    ensures params.Some? && inRoom && managerReady && "messageType" in params.value
            && params.value["messageType"].UtfString? ==>
      RouteRequest(params, inRoom, managerReady, true) == TrainingOver
  {
  }

  /** A request that passes every check is dispatched exactly when its type is one of the ten handled. */
  lemma DispatchIff(params: SFSObject, t: string)
    requires "messageType" in params && params["messageType"] == UtfString(t)
    ensures RouteRequest(Some(params), true, true, false) == (if t in Handled then Dispatched(t) else Unknown(t))
  {
  }

  // ---------------------------------------------------------------- validity

  /**
   * isValidStateAction, with `g` the GRID_SIZE setting (default 5): a state of the g-by-g
   * grid and an action index the handler can name.
   */
  function IsValidStateAction(stateId: int, action: int, g: int): (ok: bool)
    ensures ok <==> IsValidState(stateId, g) && Actions.IndexToName(action).Some?
  {
    if stateId < 0 || stateId >= g * g then false
    else if action < 0 || action >= 4 then false
    else true
  }

  /** isValidState: the state half of isValidStateAction. */
  predicate IsValidState(stateId: int, g: int)
  {
    stateId >= 0 && stateId < g * g
  }

  /** On a grid of at least one cell the valid states are exactly those with a row and column inside it. */
  lemma ValidStateIsCell(stateId: int, g: int)
    requires g >= 1
    ensures IsValidState(stateId, g) <==> 0 <= stateId && 0 <= Row(stateId, g) < g && 0 <= Col(stateId, g) < g
  {
    if IsValidState(stateId, g) {
      CellOf(stateId, g);
    } else if 0 <= stateId {
      JavaInt.EuclidNonNegative(stateId, g);
      if stateId / g < g {
        JavaInt.MulMonotone(stateId / g, g - 1, g);
        assert false;
      }
    }
  }

  // ---------------------------------------------------------------- Q and V batches

  /**
   * The Q-table after the loop of handleQUpdate: the triples in order, each valid one
   * written with setQValue, each invalid one skipped.
   */
  function QApplied(q: map<int, seq<real>>, ids: seq<int>, acts: seq<int>, vals: seq<real>, g: int)
    : (r: map<int, seq<real>>)
    requires |ids| == |acts| == |vals|
    ensures r.Keys == q.Keys
    ensures forall s :: s in q ==> |r[s]| == |q[s]|
    decreases |ids|
  {
    if ids == [] then q
    else
      var n := |ids| - 1;
      var prev := QApplied(q, ids[..n], acts[..n], vals[..n], g);
      if IsValidStateAction(ids[n], acts[n], g) then PuddleWorld.QWrite(prev, ids[n], acts[n], vals[n]) else prev
  }

  /** The V-table after the loop of handleVUpdate: valid states written in order, others skipped. */
  function VApplied(v: map<int, real>, ids: seq<int>, vals: seq<real>, g: int): (r: map<int, real>)
    requires |ids| == |vals|
    ensures r.Keys == v.Keys
    decreases |ids|
  {
    if ids == [] then v
    else
      var n := |ids| - 1;
      var prev := VApplied(v, ids[..n], vals[..n], g);
      if IsValidState(ids[n], g) then PuddleWorld.VWrite(prev, ids[n], vals[n]) else prev
  }

  /** A table with a row of four entries for every state of the g-by-g grid, as the world builds it. */
  predicate FullQ(q: map<int, seq<real>>, g: int)
  {
    forall s :: 0 <= s < g * g ==> s in q && |q[s]| == 4
  }

  /**
   * On a full table a valid triple always lands, and the last valid triple naming a
   * (state, action) pair decides its entry.
   */
  lemma {:induction false} QLastWriteWins(q: map<int, seq<real>>, ids: seq<int>, acts: seq<int>, vals: seq<real>, g: int, k: int)
    requires |ids| == |acts| == |vals| && FullQ(q, g)
    requires 0 <= k < |ids| && IsValidStateAction(ids[k], acts[k], g)
    requires forall j :: k < j < |ids| ==> !(ids[j] == ids[k] && acts[j] == acts[k])
    ensures ids[k] in QApplied(q, ids, acts, vals, g)
    ensures 0 <= acts[k] < |QApplied(q, ids, acts, vals, g)[ids[k]]|
    ensures QApplied(q, ids, acts, vals, g)[ids[k]][acts[k]] == vals[k]
  {
    var n := |ids| - 1;
    var prev := QApplied(q, ids[..n], acts[..n], vals[..n], g);
    if k < n {
      QLastWriteWins(q, ids[..n], acts[..n], vals[..n], g, k);
    }
  }

  /** An entry no valid triple names keeps its value. */
  lemma {:induction false} QUntouched(q: map<int, seq<real>>, ids: seq<int>, acts: seq<int>, vals: seq<real>, g: int, s: int, a: int)
    requires |ids| == |acts| == |vals|
    requires s in q && 0 <= a < |q[s]|
    requires forall j :: 0 <= j < |ids| && IsValidStateAction(ids[j], acts[j], g) ==> !(ids[j] == s && acts[j] == a)
    ensures QApplied(q, ids, acts, vals, g)[s][a] == q[s][a]
  {
    if ids != [] {
      var n := |ids| - 1;
      QUntouched(q, ids[..n], acts[..n], vals[..n], g, s, a);
    }
  }

  /** On a table keyed by every state of the grid, the last valid pair naming a state decides its value. */
  lemma {:induction false} VLastWriteWins(v: map<int, real>, ids: seq<int>, vals: seq<real>, g: int, k: int)
    requires |ids| == |vals| && forall s :: 0 <= s < g * g ==> s in v
    requires 0 <= k < |ids| && IsValidState(ids[k], g)
    requires forall j :: k < j < |ids| ==> ids[j] != ids[k]
    ensures ids[k] in VApplied(v, ids, vals, g) && VApplied(v, ids, vals, g)[ids[k]] == vals[k]
  {
    var n := |ids| - 1;
    if k < n {
      VLastWriteWins(v, ids[..n], vals[..n], g, k);
    }
  }

  /** A state no valid pair names keeps its value. */
  lemma {:induction false} VUntouched(v: map<int, real>, ids: seq<int>, vals: seq<real>, g: int, s: int)
    requires |ids| == |vals| && s in v
    requires forall j :: 0 <= j < |ids| && IsValidState(ids[j], g) ==> ids[j] != s
    ensures VApplied(v, ids, vals, g)[s] == v[s]
  {
    if ids != [] {
      var n := |ids| - 1;
      VUntouched(v, ids[..n], vals[..n], g, s);
    }
  }

  /** The three Q arrays the handler reads back are all present and of one length. */
  predicate QBatch(f: Messages.Fields)
  {
    && f.qStateIds.Some? && f.qActionIndices.Some? && f.qValues.Some?
    && |f.qStateIds.value| == |f.qActionIndices.value| && |f.qStateIds.value| == |f.qValues.value|
  }

  predicate VBatch(f: Messages.Fields)
  {
    f.vStateIds.Some? && f.vValues.Some? && |f.vStateIds.value| == |f.vValues.value|
  }

  /**
   * handleQUpdate: the request is decoded into a new message; a decoding exception is caught
   * and reported; a missing array or a length mismatch rejects the batch; otherwise the
   * triples are applied in order. `g` is the GRID_SIZE setting.
   */
  method HandleQUpdate(world: PuddleWorld.RLWorld, params: SFSObject, g: int) returns (error: Option<string>)
    modifies world`qTable
    ensures var d := Messages.Decode(Messages.Blank, params);
      if d.outcome.Threw? then error == Some("Failed to process Q-Update.") && world.qTable == old(world.qTable)
      else if !QBatch(d.fields) then error == Some("Invalid Q-Update data received.") && world.qTable == old(world.qTable)
      else error == None
           && world.qTable == QApplied(old(world.qTable), d.fields.qStateIds.value,
                                       d.fields.qActionIndices.value, d.fields.qValues.value, g)
  {
    var msg := new Messages.RLGameMessage();
    var outcome := msg.FromSFSObject(params);
    if outcome.Threw? {
      return Some("Failed to process Q-Update.");
    }
    var qStateIds, qActionIndices, qValues := msg.qStateIds, msg.qActionIndices, msg.qValues;
    if qStateIds.None? || qActionIndices.None? || qValues.None?
       || |qStateIds.value| != |qActionIndices.value| || |qStateIds.value| != |qValues.value| {
      return Some("Invalid Q-Update data received.");
    }
    ApplyQUpdates(world, qStateIds.value, qActionIndices.value, qValues.value, g);
    return None;
  }

  /** handleQUpdate's loop: each valid (state, action) pair written in order, the others skipped. */
  method ApplyQUpdates(world: PuddleWorld.RLWorld, ids: seq<int>, acts: seq<int>, vals: seq<real>, g: int)
    requires |ids| == |acts| == |vals|
    modifies world`qTable
    ensures world.qTable == QApplied(old(world.qTable), ids, acts, vals, g)
  {
    var i := 0;
    while i < |ids|
      invariant 0 <= i <= |ids|
      invariant world.qTable == QApplied(old(world.qTable), ids[..i], acts[..i], vals[..i], g)
    {
      assert ids[..i + 1][..i] == ids[..i] && acts[..i + 1][..i] == acts[..i] && vals[..i + 1][..i] == vals[..i];
      if IsValidStateAction(ids[i], acts[i], g) {
        world.SetQValue(ids[i], acts[i], vals[i]);
      }
      i := i + 1;
    }
    assert ids[..i] == ids && acts[..i] == acts && vals[..i] == vals;
  }

  /** handleVUpdate: as handleQUpdate, with (state, value) pairs and isValidState. */
  method HandleVUpdate(world: PuddleWorld.RLWorld, params: SFSObject, g: int) returns (error: Option<string>)
    modifies world`vTable
    ensures var d := Messages.Decode(Messages.Blank, params);
      if d.outcome.Threw? then error == Some("Failed to process V-Update.") && world.vTable == old(world.vTable)
      else if !VBatch(d.fields) then error == Some("Invalid V-Update data received.") && world.vTable == old(world.vTable)
      else error == None
           && world.vTable == VApplied(old(world.vTable), d.fields.vStateIds.value, d.fields.vValues.value, g)
  {
    var msg := new Messages.RLGameMessage();
    var outcome := msg.FromSFSObject(params);
    if outcome.Threw? {
      return Some("Failed to process V-Update.");
    }
    var vStateIds, vValues := msg.vStateIds, msg.vValues;
    if vStateIds.None? || vValues.None? || |vStateIds.value| != |vValues.value| {
      return Some("Invalid V-Update data received.");
    }
    ApplyVUpdates(world, vStateIds.value, vValues.value, g);
    return None;
  }

  /** handleVUpdate's loop: each valid state written in order, the others skipped. */
  method ApplyVUpdates(world: PuddleWorld.RLWorld, ids: seq<int>, vals: seq<real>, g: int)
    requires |ids| == |vals|
    modifies world`vTable
    ensures world.vTable == VApplied(old(world.vTable), ids, vals, g)
  {
    var i := 0;
    while i < |ids|
      invariant 0 <= i <= |ids|
      invariant world.vTable == VApplied(old(world.vTable), ids[..i], vals[..i], g)
    {
      assert ids[..i + 1][..i] == ids[..i] && vals[..i + 1][..i] == vals[..i];
      if IsValidState(ids[i], g) {
        world.SetVValue(ids[i], vals[i]);
      }
      i := i + 1;
    }
    assert ids[..i] == ids && vals[..i] == vals;
  }

  /**
   * The "missing array" test of handleQUpdate never fires: decoding a Q_UPDATE request
   * that does not throw yields all three arrays, and a missing key yields an empty one.
   */
  lemma QUpdateArraysNeverNull(params: SFSObject)
    requires "messageType" in params && params["messageType"] == UtfString(Messages.GAME_Q_UPDATE)
    requires Messages.Decode(Messages.Blank, params).outcome.Normal?
    ensures var f := Messages.Decode(Messages.Blank, params).fields;
      && f.qStateIds.Some? && f.qActionIndices.Some? && f.qValues.Some?
      && ("qStateIds" !in params ==> f.qStateIds.value == [])
      && ("qActionIndices" !in params ==> f.qActionIndices.value == [])
      && ("qValues" !in params ==> f.qValues.value == [])
  {
  }

  // ---------------------------------------------------------------- available actions

  /** The index of every name, in order (the unguarded loops of the other handlers). */
  function IndicesOf(names: seq<string>): (r: seq<int>)
    ensures |r| == |names|
    ensures forall i :: 0 <= i < |names| ==> r[i] == Actions.NameToIndex(names[i])
  {
    if names == [] then [] else [Actions.NameToIndex(names[0])] + IndicesOf(names[1..])
  }

  /**
   * The loop of handleAvailableActionsRequest: each name mapped to its index, the whole
   * reply abandoned at the first name that maps to -1.
   */
  method ActionIndices(names: seq<string>) returns (indices: Option<seq<int>>)
    ensures indices.None? <==> exists i :: 0 <= i < |names| && names[i] !in Actions.Names
    ensures indices.Some? ==> indices.value == IndicesOf(names)
  {
    var result := [];
    var i := 0;
    while i < |names|
      invariant 0 <= i <= |names|
      invariant |result| == i
      invariant forall k :: 0 <= k < i ==> result[k] == Actions.NameToIndex(names[k])
      invariant forall k :: 0 <= k < i ==> names[k] in Actions.Names
    {
      var index := Actions.NameToIndex(names[i]);
      if index == -1 {
        return None;
      }
      result := result + [index];
      i := i + 1;
    }
    return Some(result);
  }

  /** The list a world offers never aborts the reply, and its indices come out in increasing order. */
  lemma AvailableIndices(s: int, g: int)
    requires g > 0
    ensures forall i :: 0 <= i < |Available(s, g)| ==> Available(s, g)[i] in Actions.Names
    ensures var r := IndicesOf(Available(s, g));
      && (forall i :: 0 <= i < |r| ==> 0 <= r[i] < 4)
      && (forall i, j :: 0 <= i < j < |r| ==> r[i] < r[j])
  {
    var names := Available(s, g);
    forall i | 0 <= i < |names|
      ensures names[i] in Actions.Names
    {
      assert names[i] in names;
    }
  }

  /** Only a one-cell grid offers no action at all. */
  lemma NoActionsIffSingleCell(s: int, g: int)
    requires g >= 1 && 0 <= s < g * g
    ensures Available(s, g) == [] <==> g == 1
  {
    CellOf(s, g);
    if g == 1 {
      assert Row(s, g) == 0 && Col(s, g) == 0;
    } else if Row(s, g) == 0 {
      assert "DOWN" in Available(s, g);
    } else {
      assert "UP" in Available(s, g);
    }
  }

  /**
   * handleAvailableActionsRequest: the stateId is read (an exception is caught and reported),
   * an empty list is an error, and otherwise the reply carries the indices of the world's
   * available actions, in the world's order.
   */
  method HandleAvailableActions(world: PuddleWorld.RLWorld, params: SFSObject) returns (reply: Reply)
    requires world.gridSize >= 1
    ensures var s := Unbox(GetInt(params, "stateId"));
      && (s.Err? ==> reply == Error("An unexpected error occurred."))
      && (s.Ok? && Available(s.value, world.gridSize) == [] ==>
            reply == Error("No available actions for the current state."))
      && (s.Ok? && Available(s.value, world.gridSize) != [] ==>
            reply == Response(map["messageType" := UtfString(Messages.GAME_AVAILABLE_ACTIONS_RESPONSE),
                                  "availableActions" := IntArray(IndicesOf(Available(s.value, world.gridSize)))]))
  {
    var s := Unbox(GetInt(params, "stateId"));
    if s.Err? {
      return Error("An unexpected error occurred.");
    }
    var stateId := s.value;
    var availableActions := Available(stateId, world.gridSize);
    if |availableActions| == 0 {
      return Error("No available actions for the current state.");
    }
    var indices := ActionIndices(availableActions);
    if indices.None? {
      AvailableIndices(stateId, world.gridSize);
      assert false;
      return Error("Invalid action received.");
    }
    var actionsList := IntList(indices.value);
    var response: SFSObject := map[];
    response := response["messageType" := UtfString(Messages.GAME_AVAILABLE_ACTIONS_RESPONSE)];
    response := response["availableActions" := IntArray(actionsList)];
    return Response(response);
  }

  // ---------------------------------------------------------------- moves

  /** What handleActionMove ends with. */
  datatype MoveReply =
    | MoveFailed(fault: Fault)   // reading the request threw; nothing changed
    | Mismatch                   // "State ID mismatch."
    | InvalidIndex(action: int)  // "Invalid action index: <action>"
    | Moved(action: int, reward: real, nextStateId: int, episodeEnded: bool)

  /** The handler's end test after a move: terminal, or (STOP_METHOD 0) the step budget reached. */
  predicate EpisodeEnds(e: Users.Episode, maxSteps: int, stopMethod: int)
  {
    e.isTerminal || (stopMethod == 0 && e.steps >= maxSteps)
  }

  /**
   * handleActionMove: the action and the stateId are read (a missing one throws); a stateId
   * other than the user's current state, or an index with no name, changes nothing; otherwise
   * the user takes the action and the reply carries the new state and reward; if the end test
   * holds, the episode is concluded (and, unless training is complete, the game is reset for
   * the next one). `moved` is the user's episode right after takeAction.
   */
  method HandleActionMove(rlUser: Users.RLGameUser, params: SFSObject, stopMethod: int)
    returns (reply: MoveReply, ghost moved: Users.Episode)
    requires rlUser.Valid()
    modifies rlUser`currentStateId, rlUser`lastReward, rlUser`isTerminal, rlUser`cumulativeReward,
             rlUser`stepsThisEpisode, rlUser`totalEpisodes, rlUser`successfulEpisodes, rlUser.world
    ensures rlUser.Valid()
    ensures var a := Unbox(GetInt(params, "action"));
            var s := Unbox(GetInt(params, "stateId"));
      && (a.Err? ==> reply == MoveFailed(a.fault))
      && (a.Ok? && s.Err? ==> reply == MoveFailed(s.fault))
      && (a.Ok? && s.Ok? && s.value != old(rlUser.currentStateId) ==> reply == Mismatch)
      && (a.Ok? && s.Ok? && s.value == old(rlUser.currentStateId) && Actions.IndexToName(a.value).None? ==>
            reply == InvalidIndex(a.value))
      && (a.Ok? && s.Ok? && s.value == old(rlUser.currentStateId) && Actions.IndexToName(a.value).Some? ==>
            reply.Moved? && reply.action == a.value)
    ensures !reply.Moved? ==> rlUser.Snapshot() == old(rlUser.Snapshot()) && unchanged(rlUser.world)
    ensures reply.Moved? ==>
      var e := old(rlUser.Snapshot());
      var g := rlUser.world.gridSize;
      var next := Step(e.stateId, Actions.Names[reply.action], g);
      && 0 <= reply.action < 4
      && (e.isTerminal ==> moved == e)
      && (!e.isTerminal && !Users.ValidPosition(e.stateId) ==>
            moved == Users.Conclude(e, rlUser.successRewardThreshold))
      && (!e.isTerminal && Users.ValidPosition(e.stateId) ==>
            moved == Users.AfterStep(e, next, old(rlUser.world.Reward(next)), Goal(g),
                                     rlUser.maxStepsPerEpisode, rlUser.successRewardThreshold))
    ensures reply.Moved? ==>
      && reply.nextStateId == moved.stateId && reply.reward == moved.lastReward
      && (reply.episodeEnded <==> EpisodeEnds(moved, rlUser.maxStepsPerEpisode, stopMethod))
      && rlUser.Snapshot() == if reply.episodeEnded then Users.Conclude(moved, rlUser.successRewardThreshold) else moved
  {
    moved := rlUser.Snapshot();
    var a := Unbox(GetInt(params, "action"));
    if a.Err? {
      return MoveFailed(a.fault), moved;
    }
    var s := Unbox(GetInt(params, "stateId"));
    if s.Err? {
      return MoveFailed(s.fault), moved;
    }
    var action, stateId := a.value, s.value;
    if stateId != rlUser.currentStateId {
      return Mismatch, moved;
    }
    var actionStr := Actions.IndexToName(action);
    if actionStr.None? {
      return InvalidIndex(action), moved;
    }
    var _ := rlUser.TakeAction(actionStr);
    moved := rlUser.Snapshot();
    var updatedStateId, reward := rlUser.currentStateId, rlUser.lastReward;
    var ended := rlUser.isTerminal || (stopMethod == 0 && rlUser.stepsThisEpisode >= rlUser.maxStepsPerEpisode);
    if ended {
      rlUser.ConcludeEpisode();
      if !rlUser.IsTrainingComplete() {
        rlUser.ResetGame();
      }
    }
    reply := Moved(action, reward, updatedStateId, ended);
  }

  /**
   * The end test never holds after a move from a non-terminal episode with a step budget of
   * at least one: takeAction has already concluded such an episode and cleared its flag and
   * its step count.
   */
  lemma EpisodeEndTestNeverHolds(e: Users.Episode, next: int, reward: real, goal: int, maxSteps: int,
                                 threshold: real, stopMethod: int)
    requires !e.isTerminal && maxSteps >= 1
    ensures !EpisodeEnds(Users.AfterStep(e, next, reward, goal, maxSteps, threshold), maxSteps, stopMethod)
    ensures !EpisodeEnds(Users.Conclude(e, threshold), maxSteps, stopMethod)
  {
    Users.StepsBelowBudget(e, next, reward, goal, maxSteps, threshold);
    Users.NotTerminalAfterStep(e, next, reward, goal, maxSteps, threshold);
  }
}
