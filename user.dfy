/** Users and the game master (src/user.py). The manager keeps users by id in
    insertion order and remembers the game master separately. */
module Users {
  import opened Common

  datatype Role = GM | Player

  /** A user; `id` is a fresh uuid in the source, so it is given here. */
  datatype User = User(id: string, username: string, role: Role)

  /** `User(username)`: the role defaults to PLAYER. */
  function NewUser(id: string, username: string): (u: User)
    ensures u.role == Player && u.id == id && u.username == username
  {
    User(id, username, Player)
  }

  /** The case-insensitive name test of `find_user_by_name`. */
  predicate NameMatches(u: User, username: string) {
    Lower(u.username) == Lower(username)
  }

  class UserManager {
    var users: ODict<User>
    var gm: Option<User>

    /** Users are stored under their own ids, and every stored GM-role user
        is the remembered game master. */
    ghost predicate Valid()
      reads this
    {
      && users.Valid()
      && (forall k | k in users.entries :: users.entries[k].id == k)
      && (forall k | k in users.entries && users.entries[k].role == GM :: gm == Some(users.entries[k]))
    }

    constructor ()
      ensures Valid() && users == EmptyDict() && gm == None
    {
      users := EmptyDict();
      gm := None;
    }

    /** `add_user(user)`. A GM while a game master is set raises ValueError
        and changes nothing. Otherwise a GM becomes the game master first, and
        only then is the id checked: a taken id raises ValueError but the new
        game master stays set. A fresh id is stored last. */
    method AddUser(user: User) returns (r: Result<User>)
      requires Valid()
      modifies this
      ensures Valid()
      ensures user.role == GM && old(gm).Some? ==> r == Err(ValueError) && users == old(users) && gm == old(gm)
      ensures !(user.role == GM && old(gm).Some?) ==>
        && gm == (if user.role == GM then Some(user) else old(gm))
        && (user.id in old(users.entries) ==> r == Err(ValueError) && users == old(users))
        && (user.id !in old(users.entries) ==> r == Ok(user) && users == old(users).Put(user.id, user))
    {
      if user.role == GM {
        if gm.Some? {
          return Err(ValueError);
        }
        gm := Some(user);
      }
      if user.id in users.entries {
        return Err(ValueError);
      }
      users := users.Put(user.id, user);
      return Ok(user);
    }

    /** `remove_user(user_id)`: returns the removed user or None; removing
        the game master clears it. */
    method RemoveUser(userId: string) returns (removed: Option<User>)
      requires Valid()
      modifies this
      ensures Valid()
      ensures removed == old(users).Get(userId)
      ensures users == old(users).Pop(userId)
      ensures gm == (if removed.Some? && removed.value.role == GM then None else old(gm))
    {
      removed := users.Get(userId);
      users := users.Pop(userId);
      if removed.Some? && removed.value.role == GM {
        gm := None;
      }
    }

    /** `get_user(user_id)`: None for an unknown id. */
    function GetUser(userId: string): (u: Option<User>)
      reads this
      ensures u.Some? <==> userId in users.entries
      ensures u.Some? ==> u.value == users.entries[userId]
    {
      users.Get(userId)
    }

    /** `get_gm()` */
    function GetGm(): (g: Option<User>)
      reads this
      requires Valid()
      ensures g.None? ==> forall k | k in users.entries :: users.entries[k].role != GM
      ensures forall k | k in users.entries && users.entries[k].role == GM :: g == Some(users.entries[k])
    {
      gm
    }

    /** `list_users()`: the users in insertion order. */
    function ListUsers(): (us: seq<User>)
      reads this
      requires Valid()
      ensures |us| == |users.keys|
      ensures forall i | 0 <= i < |us| :: us[i] == users.entries[users.keys[i]] && us[i].id == users.keys[i]
    {
      users.Values()
    }

    /** `find_user_by_name(username)`: the first user, in insertion order,
        whose name equals the argument ignoring case; None if there is none. */
    method FindUserByName(username: string) returns (found: Option<User>)
      requires Valid()
      ensures found.None? <==> forall i | 0 <= i < |users.keys| :: !NameMatches(users.entries[users.keys[i]], username)
      ensures found.Some? ==> exists i | 0 <= i < |users.keys| ::
        && found.value == users.entries[users.keys[i]]
        && NameMatches(found.value, username)
        && forall j | 0 <= j < i :: !NameMatches(users.entries[users.keys[j]], username)
    {
      var all := users.Values();
      var i := 0;
      while i < |all|
        invariant 0 <= i <= |all|
        invariant forall j | 0 <= j < i :: !NameMatches(all[j], username)
      {
        if Lower(all[i].username) == Lower(username) {
          return Some(all[i]);
        }
        i := i + 1;
      }
      return None;
    }
  }

  /** However users are added and removed, at most one GM-role user is
      stored. */
  lemma AtMostOneGm(um: UserManager, a: string, b: string)
    requires um.Valid()
    requires a in um.users.entries && b in um.users.entries
    requires um.users.entries[a].role == GM && um.users.entries[b].role == GM
    ensures a == b
  {
  }
}
