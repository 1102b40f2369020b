/**
 * The client's message object (RLClientGameMessage): nine fields, written into an SFSObject
 * by toSFSObject and read back by fromSFSObject, both switched on the message type. Only the
 * seven client-to-server types carry a body; every other type, the server's responses among
 * them, travels as its type and user name alone.
 */
module ClientMessages {
  import opened Wrappers
  import opened Sfs
  import Messages

  const GAME_STATE := "GAME_STATE"
  const GAME_AVAILABLE_ACTIONS := "GAME_AVAILABLE_ACTIONS"
  const GAME_AVAILABLE_REWARDS := "GAME_AVAILABLE_REWARDS"
  const GAME_ACTION_MOVE := "GAME_ACTION_MOVE"
  const GAME_ACTION_REWARD := "GAME_ACTION_REWARD"
  const GAME_FINAL_STATE := "GAME_FINAL_STATE"
  const GAME_RESET := "GAME_RESET"

  const GAME_STATE_RESPONSE := "GAME_STATE_RESPONSE"
  const GAME_AVAILABLE_ACTIONS_RESPONSE := "GAME_AVAILABLE_ACTIONS_RESPONSE"
  const GAME_AVAILABLE_REWARDS_RESPONSE := "GAME_AVAILABLE_REWARDS_RESPONSE"
  const GAME_ACTION_REWARD_RESPONSE := "GAME_ACTION_REWARD_RESPONSE"
  const GAME_FINAL_STATE_RESPONSE := "GAME_FINAL_STATE_RESPONSE"
  const GAME_RESET_RESPONSE := "GAME_RESET_RESPONSE"
  const GAME_ERROR := "GAME_ERROR"
  const GAME_INFO := "GAME_INFO"

  /** The seven types the switches of toSFSObject and fromSFSObject name. */
  const ClientTypes: set<string> :=
    {GAME_STATE, GAME_AVAILABLE_ACTIONS, GAME_AVAILABLE_REWARDS, GAME_ACTION_MOVE,
     GAME_ACTION_REWARD, GAME_FINAL_STATE, GAME_RESET}

  datatype Fields = Fields(
    messageType: Option<string>,
    userName: Option<string>,
    stateId: int,
    action: int,
    reward: real,
    nextStateId: int,
    availableActions: Option<seq<int>>,
    availableRewards: Option<seq<real>>,
    isTerminal: bool)

  /**
   * The no-argument constructor, which every other constructor calls first: an empty type,
   * -1 for the three ids, empty arrays; the user name is left null.
   */
  const Default: Fields := Fields(Some(""), None, -1, -1, 0.0, -1, Some([]), Some([]), false)

  /** toSFSObject: the type and user name as the server's messages write them, then the keys of the type. */
  function Encode(f: Fields): Result<SFSObject>
  {
    if f.messageType.None? then Err(IllegalArgument)
    else EncodeBody(f.messageType.value, f, Messages.Header(f.messageType.value, f.userName))
  }

  function EncodeBody(t: string, f: Fields, params: SFSObject): Result<SFSObject>
  {
    if t == GAME_STATE then Ok(params["stateId" := Int(f.stateId)])
    else if t == GAME_AVAILABLE_ACTIONS then
      if f.availableActions.None? then Err(NullReference)
      else Ok(params["availableActions" := IntArray(f.availableActions.value)])
    else if t == GAME_AVAILABLE_REWARDS then
      if f.availableRewards.None? then Err(NullReference)
      else Ok(params["availableRewards" := DoubleArray(f.availableRewards.value)])
    else if t == GAME_ACTION_MOVE then Ok(params["action" := Int(f.action)]["stateId" := Int(f.stateId)])
    else if t == GAME_ACTION_REWARD then
      Ok(params["action" := Int(f.action)]["reward" := Double(f.reward)]["nextStateId" := Int(f.nextStateId)])
    else if t == GAME_FINAL_STATE then Ok(params["isTerminal" := Bool(f.isTerminal)])
    else if t == GAME_RESET then PutUtfString(params, "userName", f.userName)
    else Ok(params)
  }

  /** The fields after fromSFSObject, and whether it returned or threw part-way. */
  datatype Decoded = Decoded(fields: Fields, outcome: Outcome)

  /**
   * fromSFSObject: the type and the user name are read first; a null type cannot be switched
   * on; then each key of the type is read with no presence test, so a missing scalar throws
   * on unboxing, while a missing array gives an empty one.
   */
  function Decode(f: Fields, params: SFSObject): Decoded
  {
    var mt := GetUtfString(params, "messageType");
    if mt.Err? then Decoded(f, Threw(mt.fault))
    else
      var typed := f.(messageType := mt.value);
      var un := GetUtfString(params, "userName");
      if un.Err? then Decoded(typed, Threw(un.fault))
      else
        var named := typed.(userName := un.value);
        if mt.value.None? then Decoded(named, Threw(NullReference))
        else DecodeBody(mt.value.value, named, params)
  }

  function DecodeBody(t: string, f: Fields, params: SFSObject): Decoded
  {
    if t == GAME_STATE then
      var s := Unbox(GetInt(params, "stateId"));
      if s.Err? then Decoded(f, Threw(s.fault)) else Decoded(f.(stateId := s.value), Normal)
    else if t == GAME_AVAILABLE_ACTIONS then
      var a := ReadIntArray(params, "availableActions");
      if a.Err? then Decoded(f, Threw(a.fault)) else Decoded(f.(availableActions := Some(a.value)), Normal)
    else if t == GAME_AVAILABLE_REWARDS then
      var a := ReadDoubleArray(params, "availableRewards");
      if a.Err? then Decoded(f, Threw(a.fault)) else Decoded(f.(availableRewards := Some(a.value)), Normal)
    else if t == GAME_ACTION_MOVE then
      var a := Unbox(GetInt(params, "action"));
      if a.Err? then Decoded(f, Threw(a.fault))
      else
        var s := Unbox(GetInt(params, "stateId"));
        if s.Err? then Decoded(f.(action := a.value), Threw(s.fault))
        else Decoded(f.(action := a.value, stateId := s.value), Normal)
    else if t == GAME_ACTION_REWARD then
      var a := Unbox(GetInt(params, "action"));
      if a.Err? then Decoded(f, Threw(a.fault))
      else
        var r := Unbox(GetDouble(params, "reward"));
        if r.Err? then Decoded(f.(action := a.value), Threw(r.fault))
        else
          var n := Unbox(GetInt(params, "nextStateId"));
          if n.Err? then Decoded(f.(action := a.value, reward := r.value), Threw(n.fault))
          else Decoded(f.(action := a.value, reward := r.value, nextStateId := n.value), Normal)
    else if t == GAME_FINAL_STATE then
      var b := Unbox(GetBool(params, "isTerminal"));
      if b.Err? then Decoded(f, Threw(b.fault)) else Decoded(f.(isTerminal := b.value), Normal)
    else Decoded(f, Normal)
  }

  class RLClientGameMessage {
    var messageType: Option<string>
    var userName: Option<string>
    var stateId: int
    var action: int
    var reward: real
    var nextStateId: int
    var availableActions: Option<seq<int>>
    var availableRewards: Option<seq<real>>
    var isTerminal: bool

    function Get(): Fields
      reads this
    {
      Fields(messageType, userName, stateId, action, reward, nextStateId, availableActions,
             availableRewards, isTerminal)
    }

    constructor ()
      ensures Get() == Default
    {
      messageType, userName, stateId, action, reward := Some(""), None, -1, -1, 0.0;
      nextStateId, availableActions, availableRewards, isTerminal := -1, Some([]), Some([]), false;
    }

    /** The type-only constructor. */
    constructor Typed(t: Option<string>)
      ensures Get() == Default.(messageType := t)
    {
      messageType, userName, stateId, action, reward := t, None, -1, -1, 0.0;
      nextStateId, availableActions, availableRewards, isTerminal := -1, Some([]), Some([]), false;
    }

    constructor State(s: int)
      ensures Get() == Default.(messageType := Some(GAME_STATE), stateId := s)
    {
      messageType, userName, stateId, action, reward := Some(GAME_STATE), None, s, -1, 0.0;
      nextStateId, availableActions, availableRewards, isTerminal := -1, Some([]), Some([]), false;
    }

    constructor AvailableActions(actions: Option<seq<int>>)
      ensures Get() == Default.(messageType := Some(GAME_AVAILABLE_ACTIONS), availableActions := actions)
    {
      messageType, userName, stateId, action, reward := Some(GAME_AVAILABLE_ACTIONS), None, -1, -1, 0.0;
      nextStateId, availableActions, availableRewards, isTerminal := -1, actions, Some([]), false;
    }

    constructor AvailableRewards(rewards: Option<seq<real>>)
      ensures Get() == Default.(messageType := Some(GAME_AVAILABLE_REWARDS), availableRewards := rewards)
    {
      messageType, userName, stateId, action, reward := Some(GAME_AVAILABLE_REWARDS), None, -1, -1, 0.0;
      nextStateId, availableActions, availableRewards, isTerminal := -1, Some([]), rewards, false;
    }

    constructor ActionMove(a: int, s: int)
      ensures Get() == Default.(messageType := Some(GAME_ACTION_MOVE), action := a, stateId := s)
    {
      messageType, userName, stateId, action, reward := Some(GAME_ACTION_MOVE), None, s, a, 0.0;
      nextStateId, availableActions, availableRewards, isTerminal := -1, Some([]), Some([]), false;
    }

    constructor ActionReward(a: int, r: real, next: int)
      ensures Get() == Default.(messageType := Some(GAME_ACTION_REWARD), action := a, reward := r, nextStateId := next)
    {
      messageType, userName, stateId, action, reward := Some(GAME_ACTION_REWARD), None, -1, a, r;
      nextStateId, availableActions, availableRewards, isTerminal := next, Some([]), Some([]), false;
    }

    constructor FinalState(terminal: bool)
      ensures Get() == Default.(messageType := Some(GAME_FINAL_STATE), isTerminal := terminal)
    {
      messageType, userName, stateId, action, reward := Some(GAME_FINAL_STATE), None, -1, -1, 0.0;
      nextStateId, availableActions, availableRewards, isTerminal := -1, Some([]), Some([]), terminal;
    }

    /** resetMessage: a GAME_RESET message carrying the given user name. */
    static method ResetMessage(name: Option<string>) returns (msg: RLClientGameMessage)
      ensures fresh(msg)
      ensures msg.Get() == Default.(messageType := Some(GAME_RESET), userName := name)
    {
      msg := new RLClientGameMessage.Typed(Some(GAME_RESET));
      msg.SetUserName(name);
    }

    method SetUserName(name: Option<string>)
      modifies this`userName
      ensures userName == name
    {
      userName := name;
    }

    /** toSFSObject, put by put; the arrays are copied into lists element by element. */
    method ToSFSObject() returns (r: Result<SFSObject>)
      ensures r == Encode(Get())
    {
      var params: SFSObject := map[];
      var typed := PutUtfString(params, "messageType", messageType);
      if typed.Err? {
        return Err(typed.fault);
      }
      params := typed.value;
      if userName.Some? && userName.value != "" {
        params := params["userName" := UtfString(userName.value)];
      }
      assert params == Messages.Header(messageType.value, userName);
      var t := messageType.value;
      if t == GAME_STATE {
        params := params["stateId" := Int(stateId)];
      } else if t == GAME_AVAILABLE_ACTIONS {
        if availableActions.None? {
          return Err(NullReference);
        }
        var actionList := IntList(availableActions.value);
        params := params["availableActions" := IntArray(actionList)];
      } else if t == GAME_AVAILABLE_REWARDS {
        if availableRewards.None? {
          return Err(NullReference);
        }
        var rewardList := DoubleList(availableRewards.value);
        params := params["availableRewards" := DoubleArray(rewardList)];
      } else if t == GAME_ACTION_MOVE {
        params := params["action" := Int(action)];
        params := params["stateId" := Int(stateId)];
      } else if t == GAME_ACTION_REWARD {
        params := params["action" := Int(action)];
        params := params["reward" := Double(reward)];
        params := params["nextStateId" := Int(nextStateId)];
      } else if t == GAME_FINAL_STATE {
        params := params["isTerminal" := Bool(isTerminal)];
      } else if t == GAME_RESET {
        var named := PutUtfString(params, "userName", userName);
        if named.Err? {
          return Err(named.fault);
        }
        params := named.value;
      }
      return Ok(params);
    }

    /** fromSFSObject: the fields after reading `params`, as far as it got before a throw. */
    method FromSFSObject(params: SFSObject) returns (outcome: Outcome)
      modifies this
      ensures Get() == Decode(old(Get()), params).fields
      ensures outcome == Decode(old(Get()), params).outcome
    {
      var mt := GetUtfString(params, "messageType");
      if mt.Err? {
        return Threw(mt.fault);
      }
      messageType := mt.value;
      var un := GetUtfString(params, "userName");
      if un.Err? {
        return Threw(un.fault);
      }
      userName := un.value;
      if messageType.None? {
        return Threw(NullReference);
      }
      var t := messageType.value;
      if t == GAME_STATE {
        var s := Unbox(GetInt(params, "stateId"));
        if s.Err? {
          return Threw(s.fault);
        }
        stateId := s.value;
      } else if t == GAME_AVAILABLE_ACTIONS {
        var a := ReadIntArray(params, "availableActions");
        if a.Err? {
          return Threw(a.fault);
        }
        availableActions := Some(a.value);
      } else if t == GAME_AVAILABLE_REWARDS {
        var a := ReadDoubleArray(params, "availableRewards");
        if a.Err? {
          return Threw(a.fault);
        }
        availableRewards := Some(a.value);
      } else if t == GAME_ACTION_MOVE {
        var a := Unbox(GetInt(params, "action"));
        if a.Err? {
          return Threw(a.fault);
        }
        action := a.value;
        var s := Unbox(GetInt(params, "stateId"));
        if s.Err? {
          return Threw(s.fault);
        }
        stateId := s.value;
      } else if t == GAME_ACTION_REWARD {
        var a := Unbox(GetInt(params, "action"));
        if a.Err? {
          return Threw(a.fault);
        }
        action := a.value;
        var r := Unbox(GetDouble(params, "reward"));
        if r.Err? {
          return Threw(r.fault);
        }
        reward := r.value;
        var n := Unbox(GetInt(params, "nextStateId"));
        if n.Err? {
          return Threw(n.fault);
        }
        nextStateId := n.value;
      } else if t == GAME_FINAL_STATE {
        var b := Unbox(GetBool(params, "isTerminal"));
        if b.Err? {
          return Threw(b.fault);
        }
        isTerminal := b.value;
      }
      return Normal;
    }
  }

  /**
   * A reset message is refused for a null name; otherwise its encoding carries the name under
   * "userName", even an empty one, which the header alone would have left out.
   */
  lemma ResetCarriesUserName(name: Option<string>)
    ensures var r := Encode(Default.(messageType := Some(GAME_RESET), userName := name));
      && (r.Err? <==> name.None?)
      && (r.Err? ==> r.fault == IllegalArgument)
      && (r.Ok? ==> "userName" in r.value && r.value["userName"] == UtfString(name.value)
                    && r.value["messageType"] == UtfString(GAME_RESET))
  {
  }

  /** A state request survives encoding and decoding: its state id. */
  lemma StateRoundTrip(f: Fields, g: Fields)
    requires f.messageType == Some(GAME_STATE)
    ensures Encode(f).Ok?
    ensures var d := Decode(g, Encode(f).value);
      d.outcome == Normal && d.fields.messageType == f.messageType && d.fields.stateId == f.stateId
  {
  }

  /** A move survives encoding and decoding: its action and state. */
  lemma ActionMoveRoundTrip(f: Fields, g: Fields)
    requires f.messageType == Some(GAME_ACTION_MOVE)
    ensures Encode(f).Ok?
    ensures var d := Decode(g, Encode(f).value);
      d.outcome == Normal && d.fields.action == f.action && d.fields.stateId == f.stateId
  {
  }

  /** An action-reward message survives encoding and decoding: action, reward and next state. */
  lemma ActionRewardRoundTrip(f: Fields, g: Fields)
    requires f.messageType == Some(GAME_ACTION_REWARD)
    ensures Encode(f).Ok?
    ensures var d := Decode(g, Encode(f).value);
      d.outcome == Normal && d.fields.action == f.action && d.fields.reward == f.reward
      && d.fields.nextStateId == f.nextStateId
  {
  }

  /** A final-state message survives encoding and decoding: its terminal flag. */
  lemma FinalStateRoundTrip(f: Fields, g: Fields)
    requires f.messageType == Some(GAME_FINAL_STATE)
    ensures Encode(f).Ok?
    ensures var d := Decode(g, Encode(f).value);
      d.outcome == Normal && d.fields.isTerminal == f.isTerminal
  {
  }

  /** The two list messages survive encoding and decoding element for element. */
  lemma AvailableListsRoundTrip(f: Fields, g: Fields)
    requires f.messageType == Some(GAME_AVAILABLE_ACTIONS) || f.messageType == Some(GAME_AVAILABLE_REWARDS)
    requires f.availableActions.Some? && f.availableRewards.Some?
    ensures Encode(f).Ok?
    ensures var d := Decode(g, Encode(f).value);
      && d.outcome == Normal
      && (f.messageType == Some(GAME_AVAILABLE_ACTIONS) ==> d.fields.availableActions == f.availableActions)
      && (f.messageType == Some(GAME_AVAILABLE_REWARDS) ==> d.fields.availableRewards == f.availableRewards)
  {
  }

  /** A list message whose array key is missing decodes as an empty array. */
  lemma MissingListIsEmpty(f: Fields, params: SFSObject)
    requires GetUtfString(params, "userName").Ok?
    ensures var p := params["messageType" := UtfString(GAME_AVAILABLE_ACTIONS)] - {"availableActions"};
      Decode(f, p).outcome == Normal && Decode(f, p).fields.availableActions == Some([])
    ensures var p := params["messageType" := UtfString(GAME_AVAILABLE_REWARDS)] - {"availableRewards"};
      Decode(f, p).outcome == Normal && Decode(f, p).fields.availableRewards == Some([])
  {
    var p := params["messageType" := UtfString(GAME_AVAILABLE_ACTIONS)] - {"availableActions"};
    assert GetUtfString(p, "userName") == GetUtfString(params, "userName");
    var q := params["messageType" := UtfString(GAME_AVAILABLE_REWARDS)] - {"availableRewards"};
    assert GetUtfString(q, "userName") == GetUtfString(params, "userName");
  }

  /** The key is absent or holds an int. */
  predicate IntOrAbsent(params: SFSObject, key: string)
  {
    key !in params || params[key].Int?
  }

  /** The key is absent or holds a double. */
  predicate DoubleOrAbsent(params: SFSObject, key: string)
  {
    key !in params || params[key].Double?
  }

  /**
   * Unlike the server's decoder, a missing scalar key makes the client's decoder throw: on
   * unboxing the null it reads, unless a key read before it already held a value of another
   * type and threw a cast error.
   */
  lemma MissingScalarThrows(f: Fields, params: SFSObject, t: string)
    requires GetUtfString(params, "messageType") == Ok(Some(t))
    requires GetUtfString(params, "userName").Ok?
    requires || (t == GAME_STATE && "stateId" !in params)
             || (t == GAME_ACTION_MOVE && ("action" !in params || "stateId" !in params))
             || (t == GAME_ACTION_REWARD && ("action" !in params || "reward" !in params || "nextStateId" !in params))
             || (t == GAME_FINAL_STATE && "isTerminal" !in params)
    ensures Decode(f, params).outcome.Threw?
    ensures && (t == GAME_ACTION_MOVE ==> IntOrAbsent(params, "action") && IntOrAbsent(params, "stateId"))
            && (t == GAME_ACTION_REWARD ==>
                  IntOrAbsent(params, "action") && DoubleOrAbsent(params, "reward") && IntOrAbsent(params, "nextStateId"))
            ==> Decode(f, params).outcome == Threw(NullReference)
  {
  }

  /**
   * Any type outside the seven, every server response among them, decodes to its type and
   * user name alone: a decoded GAME_STATE_RESPONSE keeps the receiver's state id.
   */
  lemma OtherTypesSetOnlyHeader(f: Fields, params: SFSObject, t: string)
    requires GetUtfString(params, "messageType") == Ok(Some(t)) && t !in ClientTypes
    requires GetUtfString(params, "userName").Ok?
    ensures Decode(f, params) == Decoded(f.(messageType := Some(t), userName := GetUtfString(params, "userName").value), Normal)
  {
  }

  /** The server's state response, read by a fresh client message, leaves the state id at -1. */
  lemma StateResponseKeepsDefault(stateId: int)
    ensures var params := map["messageType" := UtfString(GAME_STATE_RESPONSE), "stateId" := Int(stateId)];
      var d := Decode(Default, params);
      d.outcome == Normal && d.fields.stateId == -1 && d.fields.messageType == Some(GAME_STATE_RESPONSE)
  {
    var params := map["messageType" := UtfString(GAME_STATE_RESPONSE), "stateId" := Int(stateId)];
    OtherTypesSetOnlyHeader(Default, params, GAME_STATE_RESPONSE);
  }
}
