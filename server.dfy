/** The websocket session bookkeeping of src/server.py: which clients are
    connected, in connection order, and which one is the game master. The
    websockets themselves are opaque handles; sending is left out, only the
    choice of recipients is modelled. */
module Sessions {
  import opened Common
  import opened Users

  /** An accepted websocket, known only by identity. */
  datatype Socket = Socket(handle: nat)

  /** Python truthiness of `gm_client_id`: None and "" are false. */
  predicate Truthy(id: Option<string>) {
    id.Some? && id.value != ""
  }

  class SessionManager {
    var connections: ODict<Socket>
    var gmClientId: Option<string>

    /** The game master, when set, is a connected client. */
    ghost predicate Valid()
      reads this
    {
      connections.Valid() && (gmClientId.Some? ==> gmClientId.value in connections.entries)
    }

    constructor ()
      ensures Valid() && connections == EmptyDict() && gmClientId == None
    {
      connections := EmptyDict();
      gmClientId := None;
    }

    /** `connect(websocket, client_id)`: registers the client (a reconnect
        keeps its place), and makes it the game master when none is set. */
    method Connect(socket: Socket, clientId: string)
      requires Valid()
      modifies this
      ensures Valid()
      ensures connections == old(connections).Put(clientId, socket)
      ensures !Truthy(old(gmClientId)) ==> gmClientId == Some(clientId)
      ensures Truthy(old(gmClientId)) ==> gmClientId == old(gmClientId)
    {
      connections := connections.Put(clientId, socket);
      if !(gmClientId.Some? && gmClientId.value != "") {
        gmClientId := Some(clientId);
      }
    }

    /** `disconnect(client_id)`: forgets the client; if it was the game
        master the seat is left empty and nobody is promoted. An unknown
        client changes nothing. */
    method Disconnect(clientId: string)
      requires Valid()
      modifies this
      ensures Valid()
      ensures connections == old(connections).Pop(clientId)
      ensures gmClientId == (if old(gmClientId) == Some(clientId) then None else old(gmClientId))
      ensures clientId !in old(connections.entries) ==>
                connections == old(connections) && gmClientId == old(gmClientId)
    {
      if clientId !in connections.entries {
        RemoveAllAbsent(connections.keys, clientId);
        assert connections.entries - {clientId} == connections.entries;
      }
      connections := connections.Pop(clientId);
      if gmClientId == Some(clientId) {
        gmClientId := None;
      }
    }

    /** `is_gm(client_id)` */
    function IsGm(clientId: string): (b: bool)
      reads this
      ensures b <==> gmClientId.Some? && gmClientId.value == clientId
    {
      gmClientId == Some(clientId)
    }

    /** The socket `send_personal_message` writes to: none for an unknown
        client. */
    function PersonalRecipient(clientId: string): (s: Option<Socket>)
      reads this
      ensures s.Some? <==> clientId in connections.entries
      ensures s.Some? ==> s.value == connections.entries[clientId]
    {
      connections.Get(clientId)
    }

    /** The clients `broadcast(message, exclude_client_id)` writes to, in
        connection order: every connected client except the excluded one. */
    method Broadcast(exclude: Option<string>) returns (recipients: seq<string>)
      requires Valid()
      ensures recipients == if exclude.Some? then RemoveAll(connections.keys, exclude.value) else connections.keys
      ensures forall c :: c in recipients <==> c in connections.entries && exclude != Some(c)
    {
      var keys := connections.keys;
      recipients := [];
      var i := 0;
      while i < |keys|
        invariant 0 <= i <= |keys|
        invariant recipients + Excluding(keys[i..], exclude) == Excluding(keys, exclude)
      {
        var clientId := keys[i];
        ExcludingStep(recipients, keys, i, exclude);
        if Some(clientId) != exclude {
          recipients := recipients + [clientId];
        }
        i := i + 1;
      }
      assert keys[|keys|..] == [];
      ExcludingMembers(keys, exclude);
    }

    /** The role choice of the websocket endpoint: connect, then register a
        user named "Player-<client id>" who is GM exactly when this client
        became the session's game master. */
    method Join(users: UserManager, socket: Socket, clientId: string, userId: string)
      returns (r: Result<User>)
      requires Valid() && users.Valid()
      modifies this, users
      ensures Valid() && users.Valid()
      ensures connections == old(connections).Put(clientId, socket)
      ensures gmClientId == if Truthy(old(gmClientId)) then old(gmClientId) else Some(clientId)
      ensures var user := User(userId, "Player-" + clientId, if gmClientId == Some(clientId) then GM else Player);
        if user.role == GM && old(users.gm).Some? then
          r == Err(ValueError) && users.users == old(users.users) && users.gm == old(users.gm)
        else
          && users.gm == (if user.role == GM then Some(user) else old(users.gm))
          && (userId in old(users.users.entries) ==> r == Err(ValueError) && users.users == old(users.users))
          && (userId !in old(users.users.entries) ==> r == Ok(user) && users.users == old(users.users).Put(userId, user))
      ensures r.Ok? ==> (r.value.role == GM <==> IsGm(clientId))
    {
      Connect(socket, clientId);
      var isGm := IsGm(clientId);
      var role := if isGm then GM else Player;
      var user := User(userId, "Player-" + clientId, role);
      r := users.AddUser(user);
    }
  }

  /** `exclude` removed from `ids`, order kept; no exclusion keeps all. */
  function Excluding(ids: seq<string>, exclude: Option<string>): seq<string> {
    if exclude.Some? then RemoveAll(ids, exclude.value) else ids
  }

  /** The loop step of `broadcast`: client `i` is sent to unless excluded. */
  lemma ExcludingStep(sent: seq<string>, ids: seq<string>, i: nat, exclude: Option<string>)
    requires i < |ids|
    ensures sent + Excluding(ids[i..], exclude)
         == (if Some(ids[i]) != exclude then sent + [ids[i]] else sent) + Excluding(ids[i + 1..], exclude)
  {
    assert ids[i..] == [ids[i]] + ids[i + 1..];
  }

  /** The recipients are exactly the listed clients other than the excluded one. */
  lemma ExcludingMembers(ids: seq<string>, exclude: Option<string>)
    ensures forall c :: c in Excluding(ids, exclude) <==> c in ids && exclude != Some(c)
  {
  }
}
