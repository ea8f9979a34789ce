/**
 * The client's state store (frontend/src/stores/poker.ts): the room the page is in,
 * who the user is, the roster last received from the room, the reveal state and the
 * connection status, with the two entries it keeps in the browser's local storage.
 * The computed getters are functions of the roster; the actions are methods of
 * `PokerStore`, each changing only the fields it names.
 */
module PokerStore {
  import opened Wrappers
  import opened Text
  import opened RoomTypes

  /** A participant as the client receives it; `joinedAt` may be absent. */
  datatype ClientUser = ClientUser(id: string, name: string, vote: Option<string>, connected: bool,
                                   joinedAt: Option<string>)

  /** The local-storage keys of the remembered room and user name. */
  const RoomIdKey: string := "poker_room_id"
  const UserNameKey: string := "poker_username"

  /** Local storage: `getItem` gives null for a key that was never set. */
  type Storage = map<string, string>

  function GetItem(storage: Storage, key: string): Option<string>
  {
    if key in storage then Some(storage[key]) else None
  }

  /** `setItem` then `getItem`: the key gives back the value written, every other key what it held. */
  lemma SetThenGetItem(storage: Storage, key: string, value: string, other: string)
    ensures GetItem(storage[key := value], key) == Some(value)
    ensures other != key ==> GetItem(storage[key := value], other) == GetItem(storage, other)
  {
  }

  /** The two keys the store writes are different keys. */
  lemma StorageKeysDiffer()
    ensures RoomIdKey != UserNameKey
  {
    assert RoomIdKey[6] != UserNameKey[6];
  }

  /** `users.find(u => u.id === id)`: the first participant with that id. */
  function Find(users: seq<ClientUser>, id: string): (o: Option<ClientUser>)
    ensures o.None? <==> forall i :: 0 <= i < |users| ==> users[i].id != id
    ensures o.Some? ==> exists i :: 0 <= i < |users| && users[i] == o.value && users[i].id == id &&
                                    forall j :: 0 <= j < i ==> users[j].id != id
  {
    if users == [] then None
    else if users[0].id == id then Some(users[0])
    else
      var o := Find(users[1..], id);
      assert forall i :: 1 <= i < |users| ==> users[i] == users[1..][i - 1];
      o
  }

  /** `myVote`: the own card by `userId`, null when not in the roster or not voted ("" is not a vote). */
  function MyVote(users: seq<ClientUser>, userId: string): (v: Option<string>)
    ensures v.Some? ==> v.value != ""
    ensures v.Some? ==> exists i :: 0 <= i < |users| && users[i].id == userId && users[i].vote == v
  {
    match Find(users, userId)
    case None => None
    case Some(me) => if Truthy(me.vote) then me.vote else None
  }

  /** `allVoted`: someone is present and nobody's vote is null. */
  predicate AllVoted(users: seq<ClientUser>)
  {
    |users| > 0 && forall i :: 0 <= i < |users| ==> users[i].vote.Some?
  }

  /** `totalUsers`. */
  function TotalUsers(users: seq<ClientUser>): nat
  {
    |users|
  }

  /** `votedCount`: how many participants have a non-null vote. */
  function VotedCount(users: seq<ClientUser>): (n: nat)
    ensures n <= TotalUsers(users)
  {
    if users == [] then 0
    else (if users[0].vote.Some? then 1 else 0) + VotedCount(users[1..])
  }

  /** The vote of the FIRST participant with the own id is the one shown, even if it is absent. */
  lemma {:induction false} MyVoteIsFirstMatch(users: seq<ClientUser>, userId: string, k: nat)
    requires k < |users| && users[k].id == userId
    requires forall j :: 0 <= j < k ==> users[j].id != userId
    ensures MyVote(users, userId) == (if Truthy(users[k].vote) then users[k].vote else None)
    decreases k
  {
    if k > 0 {
      MyVoteIsFirstMatch(users[1..], userId, k - 1);
      assert users[1..][k - 1] == users[k];
    }
  }

  /** Without the own id in the roster there is no own vote. */
  lemma MyVoteWhenAbsent(users: seq<ClientUser>, userId: string)
    requires forall i :: 0 <= i < |users| ==> users[i].id != userId
    ensures MyVote(users, userId) == None
  {
  }

  /** The count reaches the roster size exactly when every participant has voted. */
  lemma {:induction false} FullCountIffEveryoneVoted(users: seq<ClientUser>)
    ensures VotedCount(users) == TotalUsers(users) <==> forall i :: 0 <= i < |users| ==> users[i].vote.Some?
  {
    if users != [] {
      FullCountIffEveryoneVoted(users[1..]);
      assert forall i :: 1 <= i < |users| ==> users[i] == users[1..][i - 1];
    }
  }

  /** `allVoted` is the same as a non-empty roster whose voted count is its size. */
  lemma AllVotedIffFullCount(users: seq<ClientUser>)
    ensures AllVoted(users) <==> TotalUsers(users) > 0 && VotedCount(users) == TotalUsers(users)
  {
    FullCountIffEveryoneVoted(users);
  }

  /** Nobody has voted exactly when the count is zero. */
  lemma {:induction false} ZeroCountIffNobodyVoted(users: seq<ClientUser>)
    ensures VotedCount(users) == 0 <==> forall i :: 0 <= i < |users| ==> users[i].vote.None?
  {
    if users != [] {
      ZeroCountIffNobodyVoted(users[1..]);
      assert forall i :: 1 <= i < |users| ==> users[i] == users[1..][i - 1];
    }
  }

  /** `if (saved) field = saved`: a missing or empty stored value keeps the current one. */
  function Restored(saved: Option<string>, current: string): string
  {
    if Truthy(saved) then saved.value else current
  }

  /**
   * `setRoomId(id)` and `setUserName(name)`, in either order, then `loadFromStorage` on a
   * store whose fields are `room` and `user`: each non-empty saved value comes back.
   */
  lemma {:induction false} SavedSessionRestored(storage: Storage, id: string, name: string, room: string, user: string)
    ensures Restored(GetItem(storage[RoomIdKey := id][UserNameKey := name], RoomIdKey), room) == (if id != "" then id else room)
    ensures Restored(GetItem(storage[UserNameKey := name][RoomIdKey := id], RoomIdKey), room) == (if id != "" then id else room)
    ensures Restored(GetItem(storage[RoomIdKey := id][UserNameKey := name], UserNameKey), user) == (if name != "" then name else user)
    ensures Restored(GetItem(storage[UserNameKey := name][RoomIdKey := id], UserNameKey), user) == (if name != "" then name else user)
  {
    StorageKeysDiffer();
    SetThenGetItem(storage, RoomIdKey, id, UserNameKey);
    SetThenGetItem(storage[RoomIdKey := id], UserNameKey, name, RoomIdKey);
    SetThenGetItem(storage, UserNameKey, name, RoomIdKey);
    SetThenGetItem(storage[UserNameKey := name], RoomIdKey, id, UserNameKey);
  }

  /** The store's state; `storage` is the browser's local storage as the store sees it. */
  class PokerStore {
    var roomId: string
    var userName: string
    var userId: string
    var users: seq<ClientUser>
    var revealed: bool
    var stats: Option<Stats>
    var connected: bool
    var error: Option<string>
    var storage: Storage

    /** A fresh store over whatever the page's local storage already holds. */
    constructor (saved: Storage)
      ensures roomId == "" && userName == "" && userId == "" && users == []
      ensures !revealed && stats == None && !connected && error == None
      ensures storage == saved
    {
      roomId, userName, userId, users := "", "", "", [];
      revealed, stats, connected, error := false, None, false, None;
      storage := saved;
    }

    /** Enters a room and remembers it for the next visit. */
    method SetRoomId(id: string)
      modifies this`roomId, this`storage
      ensures roomId == id && storage == old(storage)[RoomIdKey := id]
      ensures GetItem(storage, UserNameKey) == GetItem(old(storage), UserNameKey)
    {
      roomId := id;
      storage := storage[RoomIdKey := id];
      StorageKeysDiffer();
      SetThenGetItem(old(storage), RoomIdKey, id, UserNameKey);
    }

    /** Sets the display name and remembers it for the next visit. */
    method SetUserName(name: string)
      modifies this`userName, this`storage
      ensures userName == name && storage == old(storage)[UserNameKey := name]
      ensures GetItem(storage, RoomIdKey) == GetItem(old(storage), RoomIdKey)
    {
      userName := name;
      storage := storage[UserNameKey := name];
      StorageKeysDiffer();
      SetThenGetItem(old(storage), UserNameKey, name, RoomIdKey);
    }

    method SetUserId(id: string)
      modifies this`userId
      ensures userId == id
    {
      userId := id;
    }

    /** Takes a copy of the roster the room sent. */
    method UpdateUsers(newUsers: seq<ClientUser>)
      modifies this`users
      ensures users == newUsers
      ensures TotalUsers(users) == |newUsers|
    {
      users := newUsers;
    }

    method SetRevealed(value: bool)
      modifies this`revealed
      ensures revealed == value
    {
      revealed := value;
    }

    method SetStats(newStats: Option<Stats>)
      modifies this`stats
      ensures stats == newStats
    {
      stats := newStats;
    }

    method SetConnected(value: bool)
      modifies this`connected
      ensures connected == value
    {
      connected := value;
    }

    method SetError(message: Option<string>)
      modifies this`error
      ensures error == message
    {
      error := message;
    }

    /** Back to an unrevealed round: only `revealed` and `stats` change. */
    method Reset()
      modifies this`revealed, this`stats
      ensures !revealed && stats == None
    {
      revealed := false;
      stats := None;
    }

    /** Restores the remembered room and name; a missing or empty entry leaves its field as it was. */
    method LoadFromStorage()
      modifies this`roomId, this`userName
      ensures roomId == Restored(GetItem(storage, RoomIdKey), old(roomId))
      ensures userName == Restored(GetItem(storage, UserNameKey), old(userName))
    {
      var savedRoomId := GetItem(storage, RoomIdKey);
      var savedUserName := GetItem(storage, UserNameKey);
      if Truthy(savedRoomId) {
        roomId := savedRoomId.value;
      }
      if Truthy(savedUserName) {
        userName := savedUserName.value;
      }
    }
  }
}
