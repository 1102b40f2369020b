/**
 * The server's user registry (RLGameManager): one RLGameUser, each with its own world,
 * per user name.
 */
module Managers {
  import opened Grid
  import opened PuddleWorld
  import opened Users

  /** The world configuration every new user's RLWorld reads from the environment. */
  datatype WorldConfig = WorldConfig(
    gridSize: int, maxPuddles: int, puddleSize: int,
    defaultReward: real, puddleReward: real, goalReward: real)
  {
    ghost predicate Valid()
    {
      1 <= puddleSize <= gridSize && 0 <= maxPuddles
    }

    predicate CanDraw(draws: seq<Anchor>)
    {
      forall i :: 0 <= i < |draws| ==>
        0 <= draws[i].row <= gridSize - puddleSize && 0 <= draws[i].col <= gridSize - puddleSize
    }
  }

  class RLGameManager {
    const config: WorldConfig
    var userMap: map<string, RLGameUser>

    /** The worlds of the registered users. */
    ghost function Worlds(): set<RLWorld>
      reads this
    {
      set name | name in userMap :: userMap[name].world
    }

    /** Every entry is keyed by its user's name and owns a consistent world. */
    ghost predicate Valid()
      reads this, userMap.Values, Worlds()
    {
      && config.Valid()
      && forall name :: name in userMap ==> userMap[name].userName == name && userMap[name].world.Valid()
    }

    constructor (cfg: WorldConfig)
      requires cfg.Valid()
      ensures Valid() && config == cfg && userMap == map[]
    {
      config := cfg;
      userMap := map[];
    }

    /**
     * addUser: a name already present is refused and nothing changes; otherwise a new world
     * and a new session for the user are created and stored under the name.
     */
    method AddUser(name: string, draws: seq<Anchor>, random: (int, int) -> real) returns (added: bool)
      requires Valid() && config.CanDraw(draws)
      modifies this
      ensures Valid()
      ensures added <==> name !in old(userMap)
      ensures !added ==> userMap == old(userMap)
      ensures added ==>
        name in userMap && fresh(userMap[name]) && fresh(userMap[name].world)
        && userMap == old(userMap)[name := userMap[name]]
        && |userMap| == |old(userMap)| + 1
    {
      if name in userMap {
        return false;
      }
      var world := new RLWorld(config.gridSize, config.maxPuddles, config.puddleSize,
                               config.defaultReward, config.puddleReward, config.goalReward,
                               draws, random);
      var rlUser := new RLGameUser(name, world);
      userMap := userMap[name := rlUser];
      return true;
    }

    /** removeUser: true iff the name was present; the entry goes and its session is cleaned up. */
    method RemoveUser(name: string) returns (removed: bool)
      requires Valid()
      modifies this, Worlds()
      ensures Valid()
      ensures removed <==> name in old(userMap)
      ensures userMap == old(userMap) - {name}
      ensures removed ==> |userMap| == |old(userMap)| - 1
      ensures removed ==> Cleaned(old(userMap)[name].world)
    {
      if name !in userMap {
        return false;
      }
      var removedUser := userMap[name];
      userMap := userMap - {name};
      removedUser.Cleanup();
      forall n | n in userMap
        ensures userMap[n].userName == n && userMap[n].world.Valid()
      {
        assert n in old(userMap);
      }
      return true;
    }

    /** getUser: the session stored under exactly this name, or null. */
    function GetUser(name: string): (r: Option<RLGameUser>)
      reads this
      ensures r.Some? <==> name in userMap
      ensures r.Some? ==> r.value == userMap[name]
    {
      if name in userMap then Some(userMap[name]) else None
    }

    /** hasUser: exactly when getUser finds an entry. */
    predicate HasUser(name: string)
      reads this
      ensures HasUser(name) <==> GetUser(name).Some?
    {
      name in userMap
    }

    /** getActiveUserCount: the number of entries, 0 exactly when there are none. */
    function GetActiveUserCount(): (n: nat)
      reads this
      ensures n == 0 <==> userMap == map[]
    {
      |userMap|
    }

    /** getAllUsers: the user of every entry, one per entry, in some order. */
    method GetAllUsers() returns (names: seq<string>)
      requires Valid()
      ensures |names| == |userMap|
      ensures forall name :: name in names <==> name in userMap
    {
      names := [];
      var pending := userMap.Keys;
      while pending != {}
        invariant pending <= userMap.Keys
        invariant |names| + |pending| == |userMap|
        invariant forall name :: name in names <==> name in userMap && name !in pending
        decreases |pending|
      {
        var key :| key in pending;
        names := names + [userMap[key].userName];
        pending := pending - {key};
      }
    }

    /** clearAllUsers: every session is cleaned up, then the map is emptied. */
    method ClearAllUsers()
      requires Valid()
      modifies this, Worlds()
      ensures Valid() && userMap == map[]
      ensures forall name :: name in old(userMap) ==> Cleaned(old(userMap)[name].world)
    {
      forall u | u in userMap.Values
        ensures u.Valid() && u.world in Worlds()
      {
        var name :| name in userMap && userMap[name] == u;
      }
      CleanupUsers(userMap.Values);
      userMap := map[];
    }
  }

  /** The loop of clearAllUsers over the map's values: each session is cleaned up in turn. */
  method CleanupUsers(users: set<RLGameUser>)
    requires forall u :: u in users ==> u.Valid()
    modifies set u | u in users :: u.world
    ensures forall u :: u in users ==> Cleaned(u.world)
  {
    var pending := users;
    while pending != {}
      invariant pending <= users
      invariant forall u :: u in users ==> u.Valid()
      invariant forall u :: u in users && u !in pending ==> Cleaned(u.world)
      decreases |pending|
    {
      var u :| u in pending;
      u.Cleanup();
      pending := pending - {u};
    }
  }

  /** The state cleanup leaves a world in. */
  predicate Cleaned(w: RLWorld)
    reads w
  {
    w.puddlePositions == [] && w.currentStateId == 0
  }

  import opened Wrappers
}
