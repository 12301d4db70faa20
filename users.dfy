/** UserService: the user store keyed by nickname, and presence (ONLINE/OFFLINE). */
module Users {
  import opened Types
  import Exceptions

  datatype Status = Online | Offline

  datatype User = User(
    nickName: string,
    firstName: string,
    lastName: string,
    email: string,
    password: string,
    status: Status)

  /** The store is keyed by the @Id field: each record sits under its own nickname. */
  predicate KeyedByNickName(users: map<string, User>) {
    forall n :: n in users ==> users[n].nickName == n
  }

  /** userRepository.findAllByStatus(ONLINE), as a set: the store keeps no order. */
  function ConnectedUsers(users: map<string, User>): (r: set<User>)
    requires KeyedByNickName(users)
    ensures forall n :: n in users && users[n].status == Online ==> users[n] in r
    ensures forall u :: u in r ==> u.status == Online && u.nickName in users && users[u.nickName] == u
  {
    set n | n in users && users[n].status == Online :: users[n]
  }

  /** The record disconnect stores: the stored one, not the payload, with status OFFLINE. */
  function Disconnected(users: map<string, User>, nickName: string): map<string, User>
    requires nickName in users
  {
    users[nickName := users[nickName].(status := Offline)]
  }

  /** After a disconnect the user is not among the connected users, and every other
      connected user still is. */
  lemma DisconnectedLeavesConnectedUsers(users: map<string, User>, nickName: string)
    requires KeyedByNickName(users) && nickName in users
    ensures KeyedByNickName(Disconnected(users, nickName))
    ensures forall u :: u in ConnectedUsers(Disconnected(users, nickName)) ==> u.nickName != nickName
    ensures ConnectedUsers(Disconnected(users, nickName)) == ConnectedUsers(users) - {users[nickName]}
  {
    var after := Disconnected(users, nickName);
    var before := ConnectedUsers(users);
    var now := ConnectedUsers(after);
    forall u | u in now ensures u in before - {users[nickName]} {
      assert u.nickName != nickName;
      assert users[u.nickName] == u;
    }
    forall u | u in before - {users[nickName]} ensures u in now {
      assert u.nickName != nickName;
      assert after[u.nickName] == u;
    }
  }

  class UserService {
    var users: map<string, User>
    /** passwordEncoder.encode: the hash function is not modelled. */
    const encode: string -> string

    ghost predicate Valid()
      reads this
    {
      KeyedByNickName(users)
    }

    constructor (encode: string -> string)
      ensures Valid() && users == map[] && this.encode == encode
    {
      users := map[];
      this.encode := encode;
    }

    /** saveUser: encodes the password in the payload, then upserts it by nickname. */
    method SaveUser(user: User) returns (saved: User)
      requires Valid()
      modifies this
      ensures Valid()
      ensures saved == user.(password := encode(user.password))
      ensures users == old(users)[user.nickName := saved]
    {
      saved := user.(password := encode(user.password));
      users := users[saved.nickName := saved];
    }

    /** updateUser: encodes the password, sets the status to ONLINE, then upserts. */
    method UpdateUser(user: User) returns (saved: User)
      requires Valid()
      modifies this
      ensures Valid()
      ensures saved == user.(password := encode(user.password), status := Online)
      ensures users == old(users)[user.nickName := saved]
      ensures saved in ConnectedUsers(users)
    {
      saved := user.(password := encode(user.password));
      saved := saved.(status := Online);
      users := users[saved.nickName := saved];
      assert users[saved.nickName] == saved;
    }

    /** disconnect: find-then-update. An unknown nickname raises UserNotFoundException and
        changes nothing; a known one has its stored record set OFFLINE. */
    method Disconnect(user: User) returns (thrown: Option<Exceptions.Exception>)
      requires Valid()
      modifies this
      ensures Valid()
      ensures user.nickName !in old(users) ==>
        thrown == Some(Exceptions.Exception(Exceptions.UserNotFound, Some("User not found: " + user.nickName))) &&
        users == old(users)
      ensures user.nickName in old(users) ==>
        thrown == None && users == Disconnected(old(users), user.nickName)
      ensures forall u :: u in ConnectedUsers(users) ==> u.nickName != user.nickName
    {
      if user.nickName !in users {
        thrown := Some(Exceptions.Exception(Exceptions.UserNotFound, Some("User not found: " + user.nickName)));
        return;
      }
      var storedUser := users[user.nickName];
      DisconnectedLeavesConnectedUsers(users, user.nickName);
      storedUser := storedUser.(status := Offline);
      users := users[storedUser.nickName := storedUser];
      thrown := None;
    }

    /** findConnectedUsers: the stored users whose status is ONLINE. */
    method FindConnectedUsers() returns (connected: set<User>)
      requires Valid()
      ensures connected == ConnectedUsers(users)
    {
      connected := ConnectedUsers(users);
    }
  }
}
