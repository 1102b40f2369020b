/**
 * The server's message object (RLGameMessage): plain fields, written into an SFSObject by
 * toSFSObject and read back by fromSFSObject, each switched on the message type. Java
 * references that may be null (the type, the user name, the arrays) are options.
 */
module Messages {
  import opened Wrappers
  import opened Sfs

  const GAME_STATE := "GAME_STATE"
  const GAME_AVAILABLE_ACTIONS := "GAME_AVAILABLE_ACTIONS"
  const GAME_AVAILABLE_REWARDS := "GAME_AVAILABLE_REWARDS"
  const GAME_ACTION_MOVE := "GAME_ACTION_MOVE"
  const GAME_ACTION_REWARD := "GAME_ACTION_REWARD"
  const GAME_FINAL_STATE := "GAME_FINAL_STATE"
  const GAME_RESET := "GAME_RESET"
  const GAME_Q_UPDATE := "GAME_Q_UPDATE"
  const GAME_V_UPDATE := "GAME_V_UPDATE"
  const GAME_INFO := "GAME_INFO"
  const FORWARD_ACTION := "FORWARD_ACTION"
  const GAME_STATE_RESPONSE := "GAME_STATE_RESPONSE"
  const GAME_AVAILABLE_ACTIONS_RESPONSE := "GAME_AVAILABLE_ACTIONS_RESPONSE"
  const GAME_AVAILABLE_REWARDS_RESPONSE := "GAME_AVAILABLE_REWARDS_RESPONSE"
  const GAME_ACTION_REWARD_RESPONSE := "GAME_ACTION_REWARD_RESPONSE"
  const GAME_FINAL_STATE_RESPONSE := "GAME_FINAL_STATE_RESPONSE"
  const GAME_RESET_RESPONSE := "GAME_RESET_RESPONSE"
  const GAME_ERROR := "GAME_ERROR"
  const GAME_INFO_RESPONSE := "GAME_INFO_RESPONSE"
  const GAME_TRAINING_COMPLETE := "GAME_TRAINING_COMPLETE"

  /** The fields of one message. */
  datatype Fields = Fields(
    messageType: Option<string>,
    userName: Option<string>,
    stateId: int,
    action: int,
    reward: real,
    nextStateId: int,
    availableActions: Option<seq<int>>,
    availableRewards: Option<seq<real>>,
    isTerminal: bool,
    steps: int,
    cumulativeReward: real,
    stepsThisEpisode: int,
    totalEpisodes: int,
    successfulEpisodes: int,
    qStateIds: Option<seq<int>>,
    qActionIndices: Option<seq<int>>,
    qValues: Option<seq<real>>,
    vStateIds: Option<seq<int>>,
    vValues: Option<seq<real>>,
    errorMessage: Option<string>)

  /** What Java gives the fields a constructor does not assign: null, 0 and false. */
  const Unassigned: Fields :=
    Fields(None, None, 0, 0, 0.0, 0, None, None, false, 0, 0.0, 0, 0, 0, None, None, None, None, None, None)

  /** The no-argument constructor: empty type and name, empty arrays, zero scalars. */
  const Blank: Fields :=
    Unassigned.(messageType := Some(""), userName := Some(""), availableActions := Some([]),
                availableRewards := Some([]), qStateIds := Some([]), qActionIndices := Some([]),
                qValues := Some([]), vStateIds := Some([]), vValues := Some([]))

  /** The `userName != null && !userName.isEmpty()` test. */
  predicate HasText(s: Option<string>)
  {
    s.Some? && s.value != ""
  }

  /** The keys every encoding starts with: the type, and the user name when it has text. */
  function Header(messageType: string, userName: Option<string>): (params: SFSObject)
    ensures "messageType" in params && params["messageType"] == UtfString(messageType)
    ensures "userName" in params <==> HasText(userName)
    ensures HasText(userName) ==> params["userName"] == UtfString(userName.value)
    ensures params.Keys <= {"messageType", "userName"}
  {
    var typed := map["messageType" := UtfString(messageType)];
    if HasText(userName) then typed["userName" := UtfString(userName.value)] else typed
  }

  /** toSFSObject: the header, then the keys of the message type. */
  function Encode(f: Fields): Result<SFSObject>
  {
    if f.messageType.None? then Err(IllegalArgument)
    else EncodeBody(f.messageType.value, f, Header(f.messageType.value, f.userName))
  }

  function EncodeBody(t: string, f: Fields, params: SFSObject): Result<SFSObject>
  {
    if t == GAME_STATE_RESPONSE then Ok(params["stateId" := Int(f.stateId)])
    else if t == GAME_AVAILABLE_ACTIONS_RESPONSE then
      if f.availableActions.None? then Err(NullReference)
      else Ok(params["availableActions" := IntArray(f.availableActions.value)])
    else if t == GAME_AVAILABLE_REWARDS_RESPONSE then
      if f.availableRewards.None? then Err(NullReference)
      else Ok(params["availableRewards" := DoubleArray(f.availableRewards.value)])
    else if t == GAME_ACTION_MOVE then
      Ok(params["action" := Int(f.action)]["stateId" := Int(f.stateId)])
    else if t == GAME_ACTION_REWARD_RESPONSE then
      Ok(params["action" := Int(f.action)]["reward" := Double(f.reward)]["nextStateId" := Int(f.nextStateId)])
    else if t == GAME_FINAL_STATE_RESPONSE then
      Ok(params["isTerminal" := Bool(f.isTerminal)]["cumulativeReward" := Double(f.cumulativeReward)]
                ["stepsThisEpisode" := Int(f.stepsThisEpisode)])
    else if t == GAME_RESET then PutUtfString(params, "userName", f.userName)
    else if t == GAME_Q_UPDATE then
      if f.qStateIds.None? || f.qActionIndices.None? || f.qValues.None? then Err(NullReference)
      else Ok(params["qStateIds" := IntArray(f.qStateIds.value)]
                    ["qActionIndices" := IntArray(f.qActionIndices.value)]
                    ["qValues" := DoubleArray(f.qValues.value)])
    else if t == GAME_V_UPDATE then
      if f.vStateIds.None? || f.vValues.None? then Err(NullReference)
      else Ok(params["vStateIds" := IntArray(f.vStateIds.value)]["vValues" := DoubleArray(f.vValues.value)])
    else if t == GAME_INFO_RESPONSE then
      Ok(params["cumulativeReward" := Double(f.cumulativeReward)]["stepsThisEpisode" := Int(f.stepsThisEpisode)]
                ["totalEpisodes" := Int(f.totalEpisodes)]["successfulEpisodes" := Int(f.successfulEpisodes)])
    else if t == GAME_ERROR then
      Ok(if HasText(f.userName) then params["errorMessage" := UtfString(f.userName.value)] else params)
    else Ok(params)
  }

  /** The fields after fromSFSObject, and whether it returned or threw part-way. */
  datatype Decoded = Decoded(fields: Fields, outcome: Outcome)

  /**
   * fromSFSObject: the type and the user name are read first (both may be null); then the
   * keys of the type are read into their fields, one after the other.
   */
  function Decode(f: Fields, params: SFSObject): Decoded
  {
    var mt := GetUtfString(params, "messageType");
    if mt.Err? then Decoded(f, Threw(mt.fault))
    else
      var typed := f.(messageType := mt.value);
      var un := GetUtfString(params, "userName");
      if un.Err? then Decoded(typed, Threw(un.fault))
      else
        var named := typed.(userName := un.value);
        if mt.value.None? then Decoded(named, Threw(NullReference))
        else DecodeBody(mt.value.value, named, params)
  }

  function DecodeBody(t: string, f: Fields, params: SFSObject): Decoded
  {
    if t == GAME_STATE then DecodeState(f, params)
    else if t == GAME_AVAILABLE_ACTIONS then DecodeAvailableActions(f, params)
    else if t == GAME_AVAILABLE_REWARDS then DecodeAvailableRewards(f, params)
    else if t == GAME_ACTION_MOVE then DecodeActionMove(f, params)
    else if t == GAME_ACTION_REWARD then DecodeActionReward(f, params)
    else if t == GAME_FINAL_STATE_RESPONSE then DecodeFinalState(f, params)
    else if t == GAME_Q_UPDATE then DecodeQUpdate(f, params)
    else if t == GAME_V_UPDATE then DecodeVUpdate(f, params)
    else if t == GAME_INFO_RESPONSE then DecodeInfo(f, params)
    else Decoded(f, Normal)
  }

  function DecodeState(f: Fields, params: SFSObject): Decoded
  {
    if "stateId" !in params then Decoded(f, Normal)
    else
      var s := Unbox(GetInt(params, "stateId"));
      if s.Err? then Decoded(f, Threw(s.fault)) else Decoded(f.(stateId := s.value), Normal)
  }

  /** A missing array decodes as an empty one. */
  function DecodeAvailableActions(f: Fields, params: SFSObject): Decoded
  {
    var a := ReadIntArray(params, "availableActions");
    if a.Err? then Decoded(f, Threw(a.fault)) else Decoded(f.(availableActions := Some(a.value)), Normal)
  }

  function DecodeAvailableRewards(f: Fields, params: SFSObject): Decoded
  {
    var a := ReadDoubleArray(params, "availableRewards");
    if a.Err? then Decoded(f, Threw(a.fault)) else Decoded(f.(availableRewards := Some(a.value)), Normal)
  }

  function DecodeActionMove(f: Fields, params: SFSObject): Decoded
  {
    if !("action" in params && "stateId" in params) then Decoded(f, Normal)
    else
      var a := Unbox(GetInt(params, "action"));
      if a.Err? then Decoded(f, Threw(a.fault))
      else
        var s := Unbox(GetInt(params, "stateId"));
        if s.Err? then Decoded(f.(action := a.value), Threw(s.fault))
        else Decoded(f.(action := a.value, stateId := s.value), Normal)
  }

  function DecodeActionReward(f: Fields, params: SFSObject): Decoded
  {
    if !("action" in params && "reward" in params && "nextStateId" in params) then Decoded(f, Normal)
    else
      var a := Unbox(GetInt(params, "action"));
      if a.Err? then Decoded(f, Threw(a.fault))
      else
        var r := Unbox(GetDouble(params, "reward"));
        if r.Err? then Decoded(f.(action := a.value), Threw(r.fault))
        else
          var n := Unbox(GetInt(params, "nextStateId"));
          if n.Err? then Decoded(f.(action := a.value, reward := r.value), Threw(n.fault))
          else Decoded(f.(action := a.value, reward := r.value, nextStateId := n.value), Normal)
  }

  /** The final-state response: note that "stepsThisEpisode" is read into `steps`. */
  function DecodeFinalState(f: Fields, params: SFSObject): Decoded
  {
    if !("isTerminal" in params && "cumulativeReward" in params && "stepsThisEpisode" in params) then Decoded(f, Normal)
    else
      var t := Unbox(GetBool(params, "isTerminal"));
      if t.Err? then Decoded(f, Threw(t.fault))
      else
        var c := Unbox(GetDouble(params, "cumulativeReward"));
        if c.Err? then Decoded(f.(isTerminal := t.value), Threw(c.fault))
        else
          var s := Unbox(GetInt(params, "stepsThisEpisode"));
          if s.Err? then Decoded(f.(isTerminal := t.value, cumulativeReward := c.value), Threw(s.fault))
          else Decoded(f.(isTerminal := t.value, cumulativeReward := c.value, steps := s.value), Normal)
  }

  function DecodeQUpdate(f: Fields, params: SFSObject): Decoded
  {
    var ids := ReadIntArray(params, "qStateIds");
    if ids.Err? then Decoded(f, Threw(ids.fault))
    else
      var acts := ReadIntArray(params, "qActionIndices");
      if acts.Err? then Decoded(f.(qStateIds := Some(ids.value)), Threw(acts.fault))
      else
        var vals := ReadDoubleArray(params, "qValues");
        if vals.Err? then Decoded(f.(qStateIds := Some(ids.value), qActionIndices := Some(acts.value)), Threw(vals.fault))
        else Decoded(f.(qStateIds := Some(ids.value), qActionIndices := Some(acts.value), qValues := Some(vals.value)), Normal)
  }

  function DecodeVUpdate(f: Fields, params: SFSObject): Decoded
  {
    var ids := ReadIntArray(params, "vStateIds");
    if ids.Err? then Decoded(f, Threw(ids.fault))
    else
      var vals := ReadDoubleArray(params, "vValues");
      if vals.Err? then Decoded(f.(vStateIds := Some(ids.value)), Threw(vals.fault))
      else Decoded(f.(vStateIds := Some(ids.value), vValues := Some(vals.value)), Normal)
  }

  function DecodeInfo(f: Fields, params: SFSObject): Decoded
  {
    if !("cumulativeReward" in params && "stepsThisEpisode" in params
         && "totalEpisodes" in params && "successfulEpisodes" in params) then Decoded(f, Normal)
    else
      var c := Unbox(GetDouble(params, "cumulativeReward"));
      if c.Err? then Decoded(f, Threw(c.fault))
      else
        var s := Unbox(GetInt(params, "stepsThisEpisode"));
        if s.Err? then Decoded(f.(cumulativeReward := c.value), Threw(s.fault))
        else
          var t := Unbox(GetInt(params, "totalEpisodes"));
          if t.Err? then Decoded(f.(cumulativeReward := c.value, stepsThisEpisode := s.value), Threw(t.fault))
          else
            var w := Unbox(GetInt(params, "successfulEpisodes"));
            if w.Err? then
              Decoded(f.(cumulativeReward := c.value, stepsThisEpisode := s.value, totalEpisodes := t.value), Threw(w.fault))
            else
              Decoded(f.(cumulativeReward := c.value, stepsThisEpisode := s.value, totalEpisodes := t.value,
                         successfulEpisodes := w.value), Normal)
  }

  class RLGameMessage {
    var messageType: Option<string>
    var userName: Option<string>
    var stateId: int
    var action: int
    var reward: real
    var nextStateId: int
    var availableActions: Option<seq<int>>
    var availableRewards: Option<seq<real>>
    var isTerminal: bool
    var steps: int
    var cumulativeReward: real
    var stepsThisEpisode: int
    var totalEpisodes: int
    var successfulEpisodes: int
    var qStateIds: Option<seq<int>>
    var qActionIndices: Option<seq<int>>
    var qValues: Option<seq<real>>
    var vStateIds: Option<seq<int>>
    var vValues: Option<seq<real>>
    var errorMessage: Option<string>

    function Get(): Fields
      reads this
    {
      Fields(messageType, userName, stateId, action, reward, nextStateId, availableActions,
             availableRewards, isTerminal, steps, cumulativeReward, stepsThisEpisode, totalEpisodes,
             successfulEpisodes, qStateIds, qActionIndices, qValues, vStateIds, vValues, errorMessage)
    }

    /** The no-argument constructor. */
    constructor ()
      ensures Get() == Blank
    {
      messageType, userName, stateId, action, reward, nextStateId := Some(""), Some(""), 0, 0, 0.0, 0;
      availableActions, availableRewards, isTerminal, steps := Some([]), Some([]), false, 0;
      cumulativeReward, stepsThisEpisode, totalEpisodes, successfulEpisodes := 0.0, 0, 0, 0;
      qStateIds, qActionIndices, qValues, vStateIds, vValues, errorMessage := Some([]), Some([]), Some([]), Some([]), Some([]), None;
    }

    /** The Q-table update constructor: the type and exactly the three given arrays. */
    constructor QUpdate(ids: Option<seq<int>>, actions: Option<seq<int>>, values: Option<seq<real>>)
      ensures Get() == Unassigned.(messageType := Some(GAME_Q_UPDATE), qStateIds := ids,
                                   qActionIndices := actions, qValues := values)
    {
      messageType, userName, stateId, action, reward, nextStateId := Some(GAME_Q_UPDATE), None, 0, 0, 0.0, 0;
      availableActions, availableRewards, isTerminal, steps := None, None, false, 0;
      cumulativeReward, stepsThisEpisode, totalEpisodes, successfulEpisodes := 0.0, 0, 0, 0;
      qStateIds, qActionIndices, qValues, vStateIds, vValues, errorMessage := ids, actions, values, None, None, None;
    }

    /** The V-table update constructor: the type and exactly the two given arrays. */
    constructor VUpdate(ids: Option<seq<int>>, values: Option<seq<real>>)
      ensures Get() == Unassigned.(messageType := Some(GAME_V_UPDATE), vStateIds := ids, vValues := values)
    {
      messageType, userName, stateId, action, reward, nextStateId := Some(GAME_V_UPDATE), None, 0, 0, 0.0, 0;
      availableActions, availableRewards, isTerminal, steps := None, None, false, 0;
      cumulativeReward, stepsThisEpisode, totalEpisodes, successfulEpisodes := 0.0, 0, 0, 0;
      qStateIds, qActionIndices, qValues, vStateIds, vValues, errorMessage := None, None, None, ids, values, None;
    }

    /** The final-state constructor. */
    constructor FinalState(terminal: bool, cumulative: real, stepsTaken: int)
      ensures Get() == Unassigned.(messageType := Some(GAME_FINAL_STATE), isTerminal := terminal,
                                   cumulativeReward := cumulative, stepsThisEpisode := stepsTaken)
    {
      messageType, userName, stateId, action, reward, nextStateId := Some(GAME_FINAL_STATE), None, 0, 0, 0.0, 0;
      availableActions, availableRewards, isTerminal, steps := None, None, terminal, 0;
      cumulativeReward, stepsThisEpisode, totalEpisodes, successfulEpisodes := cumulative, stepsTaken, 0, 0;
      qStateIds, qActionIndices, qValues, vStateIds, vValues, errorMessage := None, None, None, None, None, None;
    }

    /** toSFSObject, put by put; the arrays are copied into lists element by element. */
    method ToSFSObject() returns (r: Result<SFSObject>)
      ensures r == Encode(Get())
    {
      var params: SFSObject := map[];
      var typed := PutUtfString(params, "messageType", messageType);
      if typed.Err? {
        return Err(typed.fault);
      }
      params := typed.value;
      if userName.Some? && userName.value != "" {
        params := params["userName" := UtfString(userName.value)];
      }
      assert params == Header(messageType.value, userName);
      var t := messageType.value;
      if t == GAME_STATE_RESPONSE {
        params := params["stateId" := Int(stateId)];
      } else if t == GAME_AVAILABLE_ACTIONS_RESPONSE {
        if availableActions.None? {
          return Err(NullReference);
        }
        var list := IntList(availableActions.value);
        params := params["availableActions" := IntArray(list)];
      } else if t == GAME_AVAILABLE_REWARDS_RESPONSE {
        if availableRewards.None? {
          return Err(NullReference);
        }
        var list := DoubleList(availableRewards.value);
        params := params["availableRewards" := DoubleArray(list)];
      } else if t == GAME_ACTION_MOVE {
        params := params["action" := Int(action)];
        params := params["stateId" := Int(stateId)];
      } else if t == GAME_ACTION_REWARD_RESPONSE {
        params := params["action" := Int(action)];
        params := params["reward" := Double(reward)];
        params := params["nextStateId" := Int(nextStateId)];
      } else if t == GAME_FINAL_STATE_RESPONSE {
        params := params["isTerminal" := Bool(isTerminal)];
        params := params["cumulativeReward" := Double(cumulativeReward)];
        params := params["stepsThisEpisode" := Int(stepsThisEpisode)];
      } else if t == GAME_RESET {
        var named := PutUtfString(params, "userName", userName);
        if named.Err? {
          return Err(named.fault);
        }
        params := named.value;
      } else if t == GAME_Q_UPDATE {
        if qStateIds.None? {
          return Err(NullReference);
        }
        var stateList := IntList(qStateIds.value);
        params := params["qStateIds" := IntArray(stateList)];
        if qActionIndices.None? {
          return Err(NullReference);
        }
        var actionList := IntList(qActionIndices.value);
        params := params["qActionIndices" := IntArray(actionList)];
        if qValues.None? {
          return Err(NullReference);
        }
        var valueList := DoubleList(qValues.value);
        params := params["qValues" := DoubleArray(valueList)];
      } else if t == GAME_V_UPDATE {
        if vStateIds.None? {
          return Err(NullReference);
        }
        var stateList := IntList(vStateIds.value);
        params := params["vStateIds" := IntArray(stateList)];
        if vValues.None? {
          return Err(NullReference);
        }
        var valueList := DoubleList(vValues.value);
        params := params["vValues" := DoubleArray(valueList)];
      } else if t == GAME_INFO_RESPONSE {
        params := params["cumulativeReward" := Double(cumulativeReward)];
        params := params["stepsThisEpisode" := Int(stepsThisEpisode)];
        params := params["totalEpisodes" := Int(totalEpisodes)];
        params := params["successfulEpisodes" := Int(successfulEpisodes)];
      } else if t == GAME_ERROR {
        if userName.Some? && userName.value != "" {
          params := params["errorMessage" := UtfString(userName.value)];
        }
      }
      return Ok(params);
    }

    /** fromSFSObject: the fields after reading `params`, as far as it got before a throw. */
    method FromSFSObject(params: SFSObject) returns (outcome: Outcome)
      modifies this
      ensures Get() == Decode(old(Get()), params).fields
      ensures outcome == Decode(old(Get()), params).outcome
    {
      var mt := GetUtfString(params, "messageType");
      if mt.Err? {
        return Threw(mt.fault);
      }
      messageType := mt.value;
      var un := GetUtfString(params, "userName");
      if un.Err? {
        return Threw(un.fault);
      }
      userName := un.value;
      if messageType.None? {
        return Threw(NullReference);
      }
      var t := messageType.value;
      if t == GAME_STATE {
        outcome := ReadState(params);
      } else if t == GAME_AVAILABLE_ACTIONS {
        outcome := ReadAvailableActions(params);
      } else if t == GAME_AVAILABLE_REWARDS {
        outcome := ReadAvailableRewards(params);
      } else if t == GAME_ACTION_MOVE {
        outcome := ReadActionMove(params);
      } else if t == GAME_ACTION_REWARD {
        outcome := ReadActionReward(params);
      } else if t == GAME_FINAL_STATE_RESPONSE {
        outcome := ReadFinalState(params);
      } else if t == GAME_Q_UPDATE {
        outcome := ReadQUpdate(params);
      } else if t == GAME_V_UPDATE {
        outcome := ReadVUpdate(params);
      } else if t == GAME_INFO_RESPONSE {
        outcome := ReadInfo(params);
      } else {
        outcome := Normal;
      }
    }

    method ReadState(params: SFSObject) returns (outcome: Outcome)
      modifies this
      ensures Get() == DecodeState(old(Get()), params).fields
      ensures outcome == DecodeState(old(Get()), params).outcome
    {
      if "stateId" in params {
        var s := Unbox(GetInt(params, "stateId"));
        if s.Err? {
          return Threw(s.fault);
        }
        stateId := s.value;
      }
      return Normal;
    }

    method ReadAvailableActions(params: SFSObject) returns (outcome: Outcome)
      modifies this
      ensures Get() == DecodeAvailableActions(old(Get()), params).fields
      ensures outcome == DecodeAvailableActions(old(Get()), params).outcome
    {
      var a := ReadIntArray(params, "availableActions");
      if a.Err? {
        return Threw(a.fault);
      }
      availableActions := Some(a.value);
      return Normal;
    }

    method ReadAvailableRewards(params: SFSObject) returns (outcome: Outcome)
      modifies this
      ensures Get() == DecodeAvailableRewards(old(Get()), params).fields
      ensures outcome == DecodeAvailableRewards(old(Get()), params).outcome
    {
      var a := ReadDoubleArray(params, "availableRewards");
      if a.Err? {
        return Threw(a.fault);
      }
      availableRewards := Some(a.value);
      return Normal;
    }

    method ReadActionMove(params: SFSObject) returns (outcome: Outcome)
      modifies this
      ensures Get() == DecodeActionMove(old(Get()), params).fields
      ensures outcome == DecodeActionMove(old(Get()), params).outcome
    {
      if "action" in params && "stateId" in params {
        var a := Unbox(GetInt(params, "action"));
        if a.Err? {
          return Threw(a.fault);
        }
        action := a.value;
        var s := Unbox(GetInt(params, "stateId"));
        if s.Err? {
          return Threw(s.fault);
        }
        stateId := s.value;
      }
      return Normal;
    }

    method ReadActionReward(params: SFSObject) returns (outcome: Outcome)
      modifies this
      ensures Get() == DecodeActionReward(old(Get()), params).fields
      ensures outcome == DecodeActionReward(old(Get()), params).outcome
    {
      if "action" in params && "reward" in params && "nextStateId" in params {
        var a := Unbox(GetInt(params, "action"));
        if a.Err? {
          return Threw(a.fault);
        }
        action := a.value;
        var r := Unbox(GetDouble(params, "reward"));
        if r.Err? {
          return Threw(r.fault);
        }
        reward := r.value;
        var n := Unbox(GetInt(params, "nextStateId"));
        if n.Err? {
          return Threw(n.fault);
        }
        nextStateId := n.value;
      }
      return Normal;
    }

    method ReadFinalState(params: SFSObject) returns (outcome: Outcome)
      modifies this
      ensures Get() == DecodeFinalState(old(Get()), params).fields
      ensures outcome == DecodeFinalState(old(Get()), params).outcome
    {
      if "isTerminal" in params && "cumulativeReward" in params && "stepsThisEpisode" in params {
        var b := Unbox(GetBool(params, "isTerminal"));
        if b.Err? {
          return Threw(b.fault);
        }
        isTerminal := b.value;
        var c := Unbox(GetDouble(params, "cumulativeReward"));
        if c.Err? {
          return Threw(c.fault);
        }
        cumulativeReward := c.value;
        var n := Unbox(GetInt(params, "stepsThisEpisode"));
        if n.Err? {
          return Threw(n.fault);
        }
        steps := n.value;
      }
      return Normal;
    }

    method ReadQUpdate(params: SFSObject) returns (outcome: Outcome)
      modifies this
      ensures Get() == DecodeQUpdate(old(Get()), params).fields
      ensures outcome == DecodeQUpdate(old(Get()), params).outcome
    {
      var ids := ReadIntArray(params, "qStateIds");
      if ids.Err? {
        return Threw(ids.fault);
      }
      qStateIds := Some(ids.value);
      var acts := ReadIntArray(params, "qActionIndices");
      if acts.Err? {
        return Threw(acts.fault);
      }
      qActionIndices := Some(acts.value);
      var vals := ReadDoubleArray(params, "qValues");
      if vals.Err? {
        return Threw(vals.fault);
      }
      qValues := Some(vals.value);
      return Normal;
    }

    method ReadVUpdate(params: SFSObject) returns (outcome: Outcome)
      modifies this
      ensures Get() == DecodeVUpdate(old(Get()), params).fields
      ensures outcome == DecodeVUpdate(old(Get()), params).outcome
    {
      var ids := ReadIntArray(params, "vStateIds");
      if ids.Err? {
        return Threw(ids.fault);
      }
      vStateIds := Some(ids.value);
      var vals := ReadDoubleArray(params, "vValues");
      if vals.Err? {
        return Threw(vals.fault);
      }
      vValues := Some(vals.value);
      return Normal;
    }

    method ReadInfo(params: SFSObject) returns (outcome: Outcome)
      modifies this
      ensures Get() == DecodeInfo(old(Get()), params).fields
      ensures outcome == DecodeInfo(old(Get()), params).outcome
    {
      if "cumulativeReward" in params && "stepsThisEpisode" in params
         && "totalEpisodes" in params && "successfulEpisodes" in params {
        var c := Unbox(GetDouble(params, "cumulativeReward"));
        if c.Err? {
          return Threw(c.fault);
        }
        cumulativeReward := c.value;
        var s := Unbox(GetInt(params, "stepsThisEpisode"));
        if s.Err? {
          return Threw(s.fault);
        }
        stepsThisEpisode := s.value;
        var n := Unbox(GetInt(params, "totalEpisodes"));
        if n.Err? {
          return Threw(n.fault);
        }
        totalEpisodes := n.value;
        var w := Unbox(GetInt(params, "successfulEpisodes"));
        if w.Err? {
          return Threw(w.fault);
        }
        successfulEpisodes := w.value;
      }
      return Normal;
    }
  }

  /** toSFSObject always writes the type, and the user name exactly when it has text (or for a reset). */
  lemma EncodeHeader(f: Fields)
    requires f.messageType.Some?
    ensures var r := Encode(f);
      r.Ok? ==> "messageType" in r.value && r.value["messageType"] == UtfString(f.messageType.value)
    ensures var r := Encode(f);
      r.Ok? && f.messageType.value != GAME_RESET ==>
        ("userName" in r.value <==> HasText(f.userName))
        && (HasText(f.userName) ==> r.value["userName"] == UtfString(f.userName.value))
    ensures Encode(f).Err? <==>
      || (f.messageType.value == GAME_AVAILABLE_ACTIONS_RESPONSE && f.availableActions.None?)
      || (f.messageType.value == GAME_AVAILABLE_REWARDS_RESPONSE && f.availableRewards.None?)
      || (f.messageType.value == GAME_RESET && f.userName.None?)
      || (f.messageType.value == GAME_Q_UPDATE && (f.qStateIds.None? || f.qActionIndices.None? || f.qValues.None?))
      || (f.messageType.value == GAME_V_UPDATE && (f.vStateIds.None? || f.vValues.None?))
  {
  }

  /** A Q-table update survives encoding and decoding element for element. */
  lemma QUpdateRoundTrip(f: Fields, g: Fields)
    requires f.messageType == Some(GAME_Q_UPDATE)
    requires f.qStateIds.Some? && f.qActionIndices.Some? && f.qValues.Some?
    ensures Encode(f).Ok?
    ensures var d := Decode(g, Encode(f).value);
      d.outcome == Normal && d.fields.messageType == f.messageType
      && d.fields.qStateIds == f.qStateIds && d.fields.qActionIndices == f.qActionIndices
      && d.fields.qValues == f.qValues
  {
  }

  /** A V-table update survives encoding and decoding element for element. */
  lemma VUpdateRoundTrip(f: Fields, g: Fields)
    requires f.messageType == Some(GAME_V_UPDATE)
    requires f.vStateIds.Some? && f.vValues.Some?
    ensures Encode(f).Ok?
    ensures var d := Decode(g, Encode(f).value);
      d.outcome == Normal && d.fields.messageType == f.messageType
      && d.fields.vStateIds == f.vStateIds && d.fields.vValues == f.vValues
  {
  }

  /** A move survives encoding and decoding: its action and state. */
  lemma ActionMoveRoundTrip(f: Fields, g: Fields)
    requires f.messageType == Some(GAME_ACTION_MOVE)
    ensures Encode(f).Ok?
    ensures var d := Decode(g, Encode(f).value);
      d.outcome == Normal && d.fields.action == f.action && d.fields.stateId == f.stateId
  {
  }

  /** An info response survives encoding and decoding: its reward and three counters. */
  lemma InfoResponseRoundTrip(f: Fields, g: Fields)
    requires f.messageType == Some(GAME_INFO_RESPONSE)
    ensures Encode(f).Ok?
    ensures var d := Decode(g, Encode(f).value);
      d.outcome == Normal
      && d.fields.cumulativeReward == f.cumulativeReward && d.fields.stepsThisEpisode == f.stepsThisEpisode
      && d.fields.totalEpisodes == f.totalEpisodes && d.fields.successfulEpisodes == f.successfulEpisodes
  {
  }

  /**
   * A final-state response keeps its flag and reward, but the step count comes back in
   * `steps`: the decoded stepsThisEpisode is whatever the receiving object held before.
   */
  lemma FinalStateStepsMoved(f: Fields, g: Fields)
    requires f.messageType == Some(GAME_FINAL_STATE_RESPONSE)
    ensures Encode(f).Ok?
    ensures var d := Decode(g, Encode(f).value);
      d.outcome == Normal
      && d.fields.isTerminal == f.isTerminal && d.fields.cumulativeReward == f.cumulativeReward
      && d.fields.steps == f.stepsThisEpisode && d.fields.stepsThisEpisode == g.stepsThisEpisode
  {
  }

  /**
   * An error message is encoded under "errorMessage" with the user name's value, only when
   * the name has text; the errorMessage field itself never reaches the encoding.
   */
  lemma ErrorEncoding(f: Fields, message: Option<string>)
    requires f.messageType == Some(GAME_ERROR)
    ensures Encode(f).Ok?
    ensures "errorMessage" in Encode(f).value <==> HasText(f.userName)
    ensures HasText(f.userName) ==> Encode(f).value["errorMessage"] == UtfString(f.userName.value)
    ensures Encode(f.(errorMessage := message)) == Encode(f)
  {
  }

  /** An empty user name is not written, so it decodes as null. */
  lemma EmptyUserNameComesBackNull(f: Fields, g: Fields)
    requires f.messageType.Some? && f.messageType.value != GAME_RESET && f.userName == Some("")
    requires Encode(f).Ok?
    ensures Decode(g, Encode(f).value).fields.userName.None?
  {
    var t := f.messageType.value;
    EncodeBodyKeepsUserName(t, f, Header(t, f.userName));
    var p := Encode(f).value;
    assert "userName" !in p;
    assert GetUtfString(p, "userName") == Ok(None);
    DecodeBodyKeepsUserName(t, g.(messageType := Some(t), userName := None), p);
  }

  /** Apart from a reset, the body of an encoding leaves the "userName" key as the header wrote it. */
  lemma EncodeBodyKeepsUserName(t: string, f: Fields, params: SFSObject)
    requires t != GAME_RESET
    ensures EncodeBody(t, f, params).Ok? ==> ("userName" in EncodeBody(t, f, params).value <==> "userName" in params)
  {
  }

  /** Decoding the body of a message never touches the user name. */
  lemma DecodeBodyKeepsUserName(t: string, f: Fields, params: SFSObject)
    ensures DecodeBody(t, f, params).fields.userName == f.userName
  {
  }

  /**
   * Decoding a type with required scalar keys leaves every field but the type and the user
   * name as it was when one of the keys is missing.
   */
  lemma MissingScalarKeepsFields(f: Fields, params: SFSObject, t: string)
    requires GetUtfString(params, "messageType") == Ok(Some(t))
    requires GetUtfString(params, "userName").Ok?
    requires || (t == GAME_STATE && "stateId" !in params)
             || (t == GAME_ACTION_MOVE && ("action" !in params || "stateId" !in params))
             || (t == GAME_ACTION_REWARD && ("action" !in params || "reward" !in params || "nextStateId" !in params))
             || (t == GAME_FINAL_STATE_RESPONSE
                 && ("isTerminal" !in params || "cumulativeReward" !in params || "stepsThisEpisode" !in params))
             || (t == GAME_INFO_RESPONSE
                 && ("cumulativeReward" !in params || "stepsThisEpisode" !in params
                     || "totalEpisodes" !in params || "successfulEpisodes" !in params))
    ensures Decode(f, params) ==
      Decoded(f.(messageType := Some(t), userName := GetUtfString(params, "userName").value), Normal)
  {
  }

  /** The key is absent or holds an int array. */
  predicate IntsOrAbsent(params: SFSObject, key: string)
  {
    key !in params || params[key].IntArray?
  }

  /** The key is absent or holds a double array. */
  predicate DoublesOrAbsent(params: SFSObject, key: string)
  {
    key !in params || params[key].DoubleArray?
  }

  /**
   * A missing array key never makes decoding throw and never leaves its array null: it
   * decodes as an empty array, for the two list requests and for each key of the two updates
   * (once decoding gets to that key).
   */
  lemma MissingArraysAreEmpty(f: Fields, params: SFSObject, t: string)
    requires GetUtfString(params, "messageType") == Ok(Some(t))
    requires GetUtfString(params, "userName").Ok?
    ensures var d := Decode(f, params);
      && (t == GAME_AVAILABLE_ACTIONS && "availableActions" !in params ==>
            d.outcome == Normal && d.fields.availableActions == Some([]))
      && (t == GAME_AVAILABLE_REWARDS && "availableRewards" !in params ==>
            d.outcome == Normal && d.fields.availableRewards == Some([]))
    ensures var d := Decode(f, params);
      t == GAME_Q_UPDATE ==>
        && ("qStateIds" !in params ==> d.fields.qStateIds == Some([]))
        && (IntsOrAbsent(params, "qStateIds") && "qActionIndices" !in params ==> d.fields.qActionIndices == Some([]))
        && (IntsOrAbsent(params, "qStateIds") && IntsOrAbsent(params, "qActionIndices") && "qValues" !in params ==>
              d.fields.qValues == Some([]))
        && (d.outcome == Normal <==>
              IntsOrAbsent(params, "qStateIds") && IntsOrAbsent(params, "qActionIndices") && DoublesOrAbsent(params, "qValues"))
    ensures var d := Decode(f, params);
      t == GAME_V_UPDATE ==>
        && ("vStateIds" !in params ==> d.fields.vStateIds == Some([]))
        && (IntsOrAbsent(params, "vStateIds") && "vValues" !in params ==> d.fields.vValues == Some([]))
        && (d.outcome == Normal <==> IntsOrAbsent(params, "vStateIds") && DoublesOrAbsent(params, "vValues"))
  {
    var named := f.(messageType := Some(t), userName := GetUtfString(params, "userName").value);
    assert Decode(f, params) == DecodeBody(t, named, params);
  }
}
