/**
 * The older user registry of target/classes: every operation keys on the user's name
 * trimmed and lower-cased, and the learning parameters come from the `.env` file.
 */
module ManagersLegacy {
  import opened Wrappers
  import opened Grid
  import Text
  import Env
  import PuddleWorldLegacy
  import UsersLegacy

  /** The map key of a user name: name.trim().toLowerCase(). */
  function NormalizeKey(name: string): (key: string)
    ensures |key| <= |name|
  {
    Text.ToLower(Text.JavaTrim(name))
  }

  /** A key has no upper-case letter and no blank at either end. */
  lemma NormalizeKeyShape(name: string)
    ensures var key := NormalizeKey(name);
      && (forall i :: 0 <= i < |key| ==> !('A' <= key[i] <= 'Z'))
      && (key == [] || (!Text.JavaBlank(key[0]) && !Text.JavaBlank(key[|key| - 1])))
  {
    Text.JavaTrimEnds(name);
  }

  /** A key is its own normal form, so looking a stored key up again finds the same entry. */
  lemma NormalizeKeyIdempotent(name: string)
    ensures NormalizeKey(NormalizeKey(name)) == NormalizeKey(name)
  {
    var t := Text.JavaTrim(name);
    Text.TrimLowerCommute(t);
    Text.JavaTrimIdempotent(name);
    Text.ToLowerIdempotent(t);
  }

  /** Names that differ only in the case of their letters denote the same user. */
  lemma SameUserIgnoringCase(a: string, b: string)
    requires Text.ToLower(a) == Text.ToLower(b)
    ensures NormalizeKey(a) == NormalizeKey(b)
  {
    Text.TrimLowerCommute(a);
    Text.TrimLowerCommute(b);
  }

  /** Names that differ only in surrounding blanks denote the same user. */
  lemma SameUserIgnoringBlanks(pre: string, name: string, post: string)
    requires forall i :: 0 <= i < |pre| ==> Text.JavaBlank(pre[i])
    requires forall i :: 0 <= i < |post| ==> Text.JavaBlank(post[i])
    ensures NormalizeKey(pre + name + post) == NormalizeKey(name)
  {
    Text.JavaTrimIgnoresSurroundingBlanks(pre, name, post);
  }

  /** Double.parseDouble(ENV.getOrDefault(key, fallback)); `parse` stands for parseDouble. */
  function Setting(env: map<string, string>, key: string, fallback: string, parse: string -> real): (r: real)
    ensures key in env ==> r == parse(env[key])
    ensures key !in env ==> r == parse(fallback)
  {
    parse(Env.GetOrDefault(env, key, fallback))
  }

  class RLGameManager {
    const alpha: real
    const gamma: real
    const epsilon: real
    var userMap: map<string, UsersLegacy.RLGameUser>

    ghost function Worlds(): set<PuddleWorldLegacy.RLWorld>
      reads this
    {
      set key | key in userMap :: userMap[key].world
    }

    /** Every entry owns a consistent world. */
    ghost predicate Valid()
      reads this, userMap.Values, Worlds()
    {
      forall key :: key in userMap ==> userMap[key].world.Valid()
    }

    /**
     * Both constructors: alpha, gamma and epsilon are read from the loaded `.env` settings
     * with defaults "0.1", "0.9" and "1"; the constructor's own arguments are ignored.
     */
    constructor (env: map<string, string>, parse: string -> real)
      ensures Valid() && userMap == map[]
      ensures alpha == Setting(env, "ALPHA", "0.1", parse)
      ensures gamma == Setting(env, "GAMMA", "0.9", parse)
      ensures epsilon == Setting(env, "EPSILON", "1", parse)
    {
      alpha := Setting(env, "ALPHA", "0.1", parse);
      gamma := Setting(env, "GAMMA", "0.9", parse);
      epsilon := Setting(env, "EPSILON", "1", parse);
      userMap := map[];
    }

    /**
     * addUser: refused when the normalised name is present; otherwise a new world and session
     * are stored under the normalised name.
     */
    method AddUser(name: string, draws: seq<Anchor>, random: (int, int) -> real) returns (added: bool)
      requires Valid()
      requires forall i :: 0 <= i < |draws| ==> PuddleWorldLegacy.Drawable(draws[i])
      modifies this
      ensures Valid()
      ensures added <==> NormalizeKey(name) !in old(userMap)
      ensures !added ==> userMap == old(userMap)
      ensures added ==>
        var key := NormalizeKey(name);
        key in userMap && fresh(userMap[key]) && fresh(userMap[key].world)
        && userMap[key].userName == name
        && userMap == old(userMap)[key := userMap[key]]
        && |userMap| == |old(userMap)| + 1
    {
      var key := NormalizeKey(name);
      if key in userMap {
        return false;
      }
      var world := new PuddleWorldLegacy.RLWorld(draws, random);
      var rlUser := new UsersLegacy.RLGameUser(name, world);
      userMap := userMap[key := rlUser];
      return true;
    }

    /** getUserByUsername: null for a null name, else the entry under the normalised name. */
    function GetUserByUsername(name: Option<string>): (r: Option<UsersLegacy.RLGameUser>)
      reads this
      ensures name.None? ==> r.None?
      ensures name.Some? ==> r == GetUser(name.value)
    {
      match name
      case None => None
      case Some(n) => GetUser(n)
    }

    /** getUser: the entry stored under the normalised name, or null. */
    function GetUser(name: string): (r: Option<UsersLegacy.RLGameUser>)
      reads this
      ensures r.Some? <==> NormalizeKey(name) in userMap
      ensures r.Some? ==> r.value == userMap[NormalizeKey(name)]
    {
      var key := NormalizeKey(name);
      if key in userMap then Some(userMap[key]) else None
    }

    /** hasUser: exactly when getUser finds an entry. */
    predicate HasUser(name: string)
      reads this
      ensures HasUser(name) <==> GetUser(name).Some?
    {
      NormalizeKey(name) in userMap
    }

    function GetActiveUserCount(): (n: nat)
      reads this
      ensures n == 0 <==> userMap == map[]
    {
      |userMap|
    }

    /** removeUser: true iff the normalised name was present; the entry goes and is cleaned up. */
    method RemoveUser(name: string) returns (removed: bool)
      requires Valid()
      modifies this, Worlds()
      ensures Valid()
      ensures removed <==> NormalizeKey(name) in old(userMap)
      ensures userMap == old(userMap) - {NormalizeKey(name)}
      ensures removed ==> |userMap| == |old(userMap)| - 1
      ensures removed ==> Cleaned(old(userMap)[NormalizeKey(name)].world)
    {
      var key := NormalizeKey(name);
      if key !in userMap {
        return false;
      }
      var removedUser := userMap[key];
      userMap := userMap - {key};
      removedUser.Cleanup();
      forall n | n in userMap
        ensures userMap[n].world.Valid()
      {
        assert n in old(userMap);
      }
      return true;
    }

    /** getAllUsers: the user of every entry, one per entry, in some order. */
    method GetAllUsers() returns (names: seq<string>)
      ensures |names| == |userMap|
      ensures forall key :: key in userMap ==> userMap[key].userName in names
      ensures forall n :: n in names ==> exists key :: key in userMap && userMap[key].userName == n
    {
      names := [];
      ghost var keys: seq<string> := [];
      var pending := userMap.Keys;
      while pending != {}
        invariant pending <= userMap.Keys
        invariant |names| + |pending| == |userMap|
        invariant |keys| == |names|
        invariant forall i :: 0 <= i < |keys| ==> keys[i] in userMap && names[i] == userMap[keys[i]].userName
        invariant forall key :: key in userMap ==> key in pending || key in keys
        decreases |pending|
      {
        var key :| key in pending;
        names := names + [userMap[key].userName];
        keys := keys + [key];
        pending := pending - {key};
      }
      forall key | key in userMap
        ensures userMap[key].userName in names
      {
        var i :| 0 <= i < |keys| && keys[i] == key;
        assert names[i] == userMap[key].userName;
      }
    }

    /** clearAllUsers: every session is cleaned up, then the map is emptied. */
    method ClearAllUsers()
      requires Valid()
      modifies this, Worlds()
      ensures Valid() && userMap == map[] && GetActiveUserCount() == 0
      ensures forall key :: key in old(userMap) ==> Cleaned(old(userMap)[key].world)
    {
      forall u | u in userMap.Values
        ensures u.Valid() && u.world in Worlds()
      {
        var key :| key in userMap && userMap[key] == u;
      }
      CleanupUsers(userMap.Values);
      userMap := map[];
    }
  }

  /** The loop of clearAllUsers over the map's values: each session is cleaned up in turn. */
  method CleanupUsers(users: set<UsersLegacy.RLGameUser>)
    requires forall u :: u in users ==> u.Valid()
    modifies set u | u in users :: u.world
    ensures forall u :: u in users ==> Cleaned(u.world)
  {
    var pending := users;
    while pending != {}
      invariant pending <= users
      invariant forall u :: u in users ==> u.Valid()
      invariant forall u :: u in users && u !in pending ==> Cleaned(u.world)
      decreases |pending|
    {
      var u :| u in pending;
      u.Cleanup();
      pending := pending - {u};
    }
  }

  /** The state cleanup leaves a world in. */
  predicate Cleaned(w: PuddleWorldLegacy.RLWorld)
    reads w
  {
    w.puddlePositions == [] && w.currentStateId == 0
  }
}
