/**
 * The room protocol of `PokerRoom` (worker/src/poker-room.ts) as transitions over a
 * room value. Every `ws.send` appends `(recipient, response)` to the outbox; every
 * database insert appends a record to the log. The class in poker_room.dfy is proved
 * to perform exactly these transitions.
 */
module RoomMachine {
  import opened Wrappers
  import opened Text
  import opened RoomTypes
  import opened Registry
  import opened Masking
  import opened VoteStats

  /** A row the room hands to the database. */
  datatype Record =
    | SessionRow(sessionId: string, roomId: string, createdAt: string)
    | RoundRow(roundId: string, sessionId: string, roundNumber: nat, revealedAt: string,
               averageTenths: int, median: real)
    | VoteRow(roundId: string, userName: string, vote: string, votedAt: string)

  /** What a handler draws from the clock and the UUID generator. */
  datatype Fresh = Fresh(joinedAt: string, sessionUuid: string, sessionCreatedAt: string,
                         roundUuid: string, revealedAt: string)

  /** `roomState` together with everything the room has sent and stored so far. */
  datatype Room = Room(roomId: string, revealed: bool, roundNumber: nat, sessionId: Option<string>,
                       users: Entries, outbox: seq<(Conn, Response)>, log: seq<Record>)

  /** The socket map has one entry per socket. */
  predicate Valid(r: Room)
  {
    Distinct(Keys(r.users))
  }

  /** The state the constructor sets up. */
  function Initial(roomId: string): (r: Room)
    ensures Valid(r) && r.users == [] && !r.revealed && r.roundNumber == 0 && r.sessionId == None
  {
    Room(roomId, false, 0, None, [], [], [])
  }

  /** `getUsersArray`. */
  function Roster(r: Room): seq<User>
  {
    MaskRoster(r.revealed, Values(r.users))
  }

  function Fanout(recipients: seq<Conn>, msg: Response): seq<(Conn, Response)>
  {
    seq(|recipients|, i requires 0 <= i < |recipients| => (recipients[i], msg))
  }

  /** Appending a fan-out keeps what was sent and adds `msg` for each recipient, in order. */
  lemma FanoutAppended(out: seq<(Conn, Response)>, recipients: seq<Conn>, msg: Response)
    ensures var out' := out + Fanout(recipients, msg);
      && |out'| == |out| + |recipients| && out'[..|out|] == out
      && forall k :: |out| <= k < |out'| ==>
        out'[k].1 == msg && out'[k].0 == recipients[k - |out|] && out'[k].0 in recipients
  {
    var out' := out + Fanout(recipients, msg);
    assert out'[..|out|] == out;
    forall k | |out| <= k < |out'|
      ensures out'[k].1 == msg && out'[k].0 == recipients[k - |out|] && out'[k].0 in recipients
    {
      assert out'[k] == (recipients[k - |out|], msg);
    }
  }

  /** Every recipient of a fan-out gets its copy after what was already sent. */
  lemma FanoutCovers(out: seq<(Conn, Response)>, recipients: seq<Conn>, msg: Response)
    ensures forall c :: c in recipients ==> (c, msg) in (out + Fanout(recipients, msg))[|out|..]
  {
    var sends := Fanout(recipients, msg);
    assert (out + sends)[|out|..] == sends;
    forall c | c in recipients ensures (c, msg) in sends {
      var i :| 0 <= i < |recipients| && recipients[i] == c;
      assert sends[i] == (c, msg);
    }
  }

  /** `broadcast`: one copy of `msg` to every attached socket, in join order, and to nobody else. */
  function Broadcast(r: Room, msg: Response): (r': Room)
    ensures r' == r.(outbox := r'.outbox)
    ensures |r'.outbox| == |r.outbox| + |r.users| && r'.outbox[..|r.outbox|] == r.outbox
    ensures forall k :: |r.outbox| <= k < |r'.outbox| ==>
      r'.outbox[k].1 == msg && r'.outbox[k].0 == Keys(r.users)[k - |r.outbox|] && r'.outbox[k].0 in Keys(r.users)
    ensures forall c :: c in Keys(r.users) ==> (c, msg) in r'.outbox[|r.outbox|..]
  {
    var sends := Fanout(Keys(r.users), msg);
    FanoutAppended(r.outbox, Keys(r.users), msg);
    FanoutCovers(r.outbox, Keys(r.users), msg);
    r.(outbox := r.outbox + sends)
  }

  /** `broadcastUsers`. */
  function BroadcastUsers(r: Room): Room
  {
    Broadcast(r, UsersMsg(Roster(r)))
  }

  /** `sendError`: one error message, to the sender only. */
  function SendError(r: Room, ws: Conn, error: string): Room
  {
    r.(outbox := r.outbox + [(ws, ErrorMsg(error))])
  }

  /** `createSession`: the session row, unless no session id is set. */
  function CreateSession(r: Room, createdAt: string): Room
  {
    if !Truthy(r.sessionId) then r
    else r.(log := r.log + [SessionRow(r.sessionId.value, r.roomId, createdAt)])
  }

  /** The vote rows `saveRound` inserts: one per user with a non-empty vote, in join order. */
  function VoteRows(users: seq<User>, roundId: string, at: string): seq<Record>
  {
    if users == [] then []
    else
      var u := users[|users| - 1];
      VoteRows(users[..|users| - 1], roundId, at)
      + (if Truthy(u.vote) then [VoteRow(roundId, u.name, u.vote.value, at)] else [])
  }

  /** How many users have a non-empty vote. */
  function CountVoted(users: seq<User>): nat
  {
    if users == [] then 0
    else CountVoted(users[..|users| - 1]) + (if Truthy(users[|users| - 1].vote) then 1 else 0)
  }

  /**
   * The vote rows are exactly the voters, in join order: there are as many rows as
   * voters, and the voter at position `i` gives the row after those of earlier voters.
   */
  lemma {:induction false} VoteRowsInJoinOrder(users: seq<User>, roundId: string, at: string)
    ensures |VoteRows(users, roundId, at)| == CountVoted(users)
    ensures forall i :: 0 <= i < |users| && Truthy(users[i].vote) ==>
      CountVoted(users[..i]) < CountVoted(users) &&
      VoteRows(users, roundId, at)[CountVoted(users[..i])]
        == VoteRow(roundId, users[i].name, users[i].vote.value, at)
  {
    if users != [] {
      var n := |users| - 1;
      var init := users[..n];
      VoteRowsInJoinOrder(init, roundId, at);
      forall i | 0 <= i < |users| && Truthy(users[i].vote)
        ensures CountVoted(users[..i]) < CountVoted(users)
        ensures VoteRows(users, roundId, at)[CountVoted(users[..i])]
          == VoteRow(roundId, users[i].name, users[i].vote.value, at)
      {
        if i < n {
          assert users[..i] == init[..i];
          assert init[i] == users[i];
        } else {
          assert users[..i] == init;
        }
      }
    }
  }

  /** The rows `saveRound` inserts for a round, or none when no session id is set. */
  function SaveRecords(sessionId: Option<string>, roundNumber: nat, stats: Stats, users: seq<User>,
                       roundId: string, at: string): seq<Record>
  {
    if !Truthy(sessionId) then []
    else
      [RoundRow(roundId, sessionId.value, roundNumber, at, stats.averageTenths, stats.median)]
      + VoteRows(users, roundId, at)
  }

  /** `saveRound`. */
  function SaveRound(r: Room, stats: Stats, roundId: string, at: string): Room
  {
    r.(log := r.log + SaveRecords(r.sessionId, r.roundNumber, stats, Values(r.users), roundId, at))
  }

  /** The user a valid join registers. */
  function NewUser(m: Message, f: Fresh): User
    requires Truthy(m.id) && Truthy(m.name)
  {
    User(m.id.value, m.name.value, None, true, f.joinedAt)
  }

  /** A valid join that leaves one user in the map while no session id is set opens a session. */
  predicate OpensSession(r: Room, ws: Conn, m: Message, f: Fresh)
  {
    Truthy(m.id) && Truthy(m.name) && |Set(r.users, ws, NewUser(m, f))| == 1 && !Truthy(r.sessionId)
  }

  /** The map holds one entry after the join exactly when it was empty or held only this socket. */
  lemma OpensSessionWhenAlone(r: Room, ws: Conn, m: Message, f: Fresh)
    requires Valid(r) && Truthy(m.id) && Truthy(m.name)
    ensures OpensSession(r, ws, m, f) <==> !Truthy(r.sessionId) && (r.users == [] || Keys(r.users) == [ws])
  {
    SetSpec(r.users, ws, NewUser(m, f));
    if Keys(r.users) == [ws] {
      assert ws in Keys(r.users);
    }
    if ws in Keys(r.users) && |r.users| == 1 {
      assert Keys(r.users) == [Keys(r.users)[0]];
    }
  }

  /** `handleJoin`. */
  function Join(r: Room, ws: Conn, m: Message, f: Fresh): (r': Room)
    ensures r'.revealed == r.revealed && r'.roundNumber == r.roundNumber && r'.roomId == r.roomId
    ensures !(Truthy(m.id) && Truthy(m.name)) ==> r' == SendError(r, ws, MissingIdOrName)
    ensures r'.sessionId == if OpensSession(r, ws, m, f) then Some(f.sessionUuid) else r.sessionId
    ensures r'.log == if OpensSession(r, ws, m, f) && f.sessionUuid != ""
      then r.log + [SessionRow(f.sessionUuid, r.roomId, f.sessionCreatedAt)] else r.log
    ensures Valid(r) ==> Valid(r')
    ensures Valid(r) && Truthy(m.id) && Truthy(m.name) ==>
      && Get(r'.users, ws) == Some(NewUser(m, f))
      && (forall d :: d != ws ==> Get(r'.users, d) == Get(r.users, d))
      && Keys(r'.users) == (if ws in Keys(r.users) then Keys(r.users) else Keys(r.users) + [ws])
    ensures Truthy(m.id) && Truthy(m.name) ==> r'.outbox == r.outbox + Fanout(Keys(r'.users), UsersMsg(Roster(r')))
  {
    if !Truthy(m.id) || !Truthy(m.name) then SendError(r, ws, MissingIdOrName)
    else
      SetSpec(r.users, ws, NewUser(m, f));
      var r1 := r.(users := Set(r.users, ws, NewUser(m, f)));
      var r2 := if |r1.users| == 1 && !Truthy(r1.sessionId)
        then CreateSession(r1.(sessionId := Some(f.sessionUuid)), f.sessionCreatedAt)
        else r1;
      BroadcastUsers(r2)
  }

  /** `handleVote`. */
  function Vote(r: Room, ws: Conn, m: Message): (r': Room)
    ensures r'.revealed == r.revealed && r'.roundNumber == r.roundNumber && r'.roomId == r.roomId
    ensures r'.sessionId == r.sessionId && r'.log == r.log
    ensures ws !in Keys(r.users) ==> r' == r
    ensures ws in Keys(r.users) && r.revealed ==> r' == SendError(r, ws, VotingClosed)
    ensures ws in Keys(r.users) && !r.revealed && !Truthy(m.card) ==> r' == SendError(r, ws, MissingCard)
    ensures Valid(r) ==> Valid(r') && Keys(r'.users) == Keys(r.users)
    ensures Valid(r) && ws in Keys(r.users) && !r.revealed && Truthy(m.card) ==>
      && Get(r'.users, ws) == Some(Get(r.users, ws).value.(vote := m.card))
      && (forall d :: d != ws ==> Get(r'.users, d) == Get(r.users, d))
    ensures ws in Keys(r.users) && !r.revealed && Truthy(m.card) ==>
      r'.outbox == r.outbox + Fanout(Keys(r'.users), UsersMsg(Roster(r')))
  {
    match Get(r.users, ws)
    case None => r
    case Some(u) =>
      if r.revealed then SendError(r, ws, VotingClosed)
      else if !Truthy(m.card) then SendError(r, ws, MissingCard)
      else
        SetSpec(r.users, ws, u.(vote := m.card));
        BroadcastUsers(r.(users := Set(r.users, ws, u.(vote := m.card))))
  }

  /** `handleReveal`: a no-op once revealed; otherwise the next round is closed, saved and announced. */
  function Reveal(r: Room, roundId: string, at: string): (r': Room)
    requires !r.revealed ==> NumericCards(Values(r.users))
    ensures r.revealed ==> r' == r
    ensures !r.revealed ==>
      && r'.revealed && r'.roundNumber == r.roundNumber + 1
      && r'.users == r.users && r'.sessionId == r.sessionId && r'.roomId == r.roomId
      && var stats := CalculateStats(Values(r.users));
      && r'.log == r.log + SaveRecords(r.sessionId, r.roundNumber + 1, stats, Values(r.users), roundId, at)
      && r'.outbox == r.outbox + Fanout(Keys(r.users), RevealedMsg(Values(r.users), stats))
  {
    if r.revealed then r
    else
      var r1 := r.(revealed := true, roundNumber := r.roundNumber + 1);
      var stats := CalculateStats(Values(r1.users));
      var r2 := SaveRound(r1, stats, roundId, at);
      Broadcast(r2, RevealedMsg(Roster(r2), stats))
  }

  /** The `forEach` of `handleReset`: every vote back to null. */
  function ClearVotes(e: Entries): Entries
  {
    seq(|e|, i requires 0 <= i < |e| => (e[i].0, e[i].1.(vote := None)))
  }

  /** `handleReset`. */
  function Reset(r: Room): (r': Room)
    ensures !r'.revealed && r'.roundNumber == r.roundNumber && r'.roomId == r.roomId
    ensures r'.sessionId == r.sessionId && r'.log == r.log
    ensures Keys(r'.users) == Keys(r.users)
    ensures forall i :: 0 <= i < |r.users| ==> Values(r'.users)[i] == Values(r.users)[i].(vote := None)
    ensures Valid(r) ==> Valid(r')
    ensures r'.outbox == r.outbox + Fanout(Keys(r.users), ResetMsg(Values(r'.users)))
  {
    var r1 := r.(revealed := false, users := ClearVotes(r.users));
    assert Keys(r1.users) == Keys(r.users);
    UnvotedRosterUnmasked(false, Values(r1.users));
    Broadcast(r1, ResetMsg(Roster(r1)))
  }

  /** `handleDisconnect`, reached by a `leave` message and by the socket's close and error events. */
  function Disconnect(r: Room, ws: Conn): (r': Room)
    ensures r'.revealed == r.revealed && r'.roundNumber == r.roundNumber && r'.roomId == r.roomId
    ensures r'.sessionId == r.sessionId && r'.log == r.log
    ensures r'.users == Delete(r.users, ws)
    ensures ws !in Keys(r.users) ==> r'.users == r.users
    ensures Valid(r) ==> Valid(r') && ws !in Keys(r'.users)
    ensures Valid(r) ==> forall d :: d != ws ==> Get(r'.users, d) == Get(r.users, d)
    ensures r'.outbox == r.outbox + Fanout(Keys(r'.users), UsersMsg(Roster(r')))
  {
    DeleteSpec(r.users, ws);
    BroadcastUsers(r.(users := Delete(r.users, ws)))
  }

  predicate IsReveal(input: Inbound)
  {
    input.Decoded? && input.msg.kind.Reveal?
  }

  /** Statistics can be computed whenever this input would trigger them. */
  predicate CanHandle(r: Room, input: Inbound)
  {
    IsReveal(input) && !r.revealed ==> NumericCards(Values(r.users))
  }

  /** The error an input earns, reported to its sender only. */
  function Rejection(r: Room, ws: Conn, input: Inbound): Option<string>
  {
    match input
    case Undecodable => Some(InvalidFormat)
    case Decoded(m) =>
      if m.kind.Join? && !(Truthy(m.id) && Truthy(m.name)) then Some(MissingIdOrName)
      else if m.kind.Vote? && ws in Keys(r.users) && r.revealed then Some(VotingClosed)
      else if m.kind.Vote? && ws in Keys(r.users) && !Truthy(m.card) then Some(MissingCard)
      else None
  }

  /**
   * `handleMessage`, with the message listener's catch as `Undecodable`: text that is not
   * JSON, and the JSON value `null`. Any other JSON value without a handled `type` is `Other`.
   */
  function HandleMessage(r: Room, ws: Conn, input: Inbound, f: Fresh): (r': Room)
    requires CanHandle(r, input)
    ensures Valid(r) ==> Valid(r')
    ensures r'.roomId == r.roomId
    ensures r'.roundNumber == r.roundNumber + (if IsReveal(input) && !r.revealed then 1 else 0)
    ensures Truthy(r.sessionId) ==> r'.sessionId == r.sessionId
  {
    match input
    case Undecodable => SendError(r, ws, InvalidFormat)
    case Decoded(m) =>
      match m.kind
      case Join => Join(r, ws, m, f)
      case Vote => Vote(r, ws, m)
      case Reveal => Reveal(r, f.roundUuid, f.revealedAt)
      case Reset => Reset(r)
      case Leave => Disconnect(r, ws)
      case Other(_) => r
  }

  lemma AppendKeepsPrefix<T>(a: seq<T>, b: seq<T>)
    ensures |a + b| >= |a| && (a + b)[..|a|] == a
  {
  }

  /** A message is answered by appending: nothing sent or stored before is changed. */
  lemma HandleMessageAppends(r: Room, ws: Conn, input: Inbound, f: Fresh)
    requires CanHandle(r, input)
    ensures var r' := HandleMessage(r, ws, input, f);
      && |r'.outbox| >= |r.outbox| && r'.outbox[..|r.outbox|] == r.outbox
      && |r'.log| >= |r.log| && r'.log[..|r.log|] == r.log
  {
    if input.Decoded? && input.msg.kind.Join? {
      AppendKeepsPrefix(r.log, [SessionRow(f.sessionUuid, r.roomId, f.sessionCreatedAt)]);
    } else if input.Decoded? && input.msg.kind.Reveal? && !r.revealed {
      var stats := CalculateStats(Values(r.users));
      AppendKeepsPrefix(r.log, SaveRecords(r.sessionId, r.roundNumber + 1, stats, Values(r.users), f.roundUuid, f.revealedAt));
    }
    if Rejection(r, ws, input).Some? {
      RejectedInputAnswersSender(r, ws, input, f);
    } else {
      AcceptedInputNotifiesMembers(r, ws, input, f);
    }
  }

  /** A rejected message earns one error to its sender and changes nothing else; an unknown tag changes nothing. */
  lemma RejectedInputAnswersSender(r: Room, ws: Conn, input: Inbound, f: Fresh)
    requires CanHandle(r, input)
    ensures Rejection(r, ws, input).Some? ==>
      HandleMessage(r, ws, input, f) == SendError(r, ws, Rejection(r, ws, input).value)
    ensures input.Decoded? && input.msg.kind.Other? ==> HandleMessage(r, ws, input, f) == r
  {
  }

  /**
   * An accepted message sends no error, and whatever it sends goes to sockets that are in
   * the map once it is handled; the sending prefix is kept.
   */
  lemma AcceptedInputNotifiesMembers(r: Room, ws: Conn, input: Inbound, f: Fresh)
    requires CanHandle(r, input) && Rejection(r, ws, input).None?
    ensures var r' := HandleMessage(r, ws, input, f);
      && |r'.outbox| >= |r.outbox| && r'.outbox[..|r.outbox|] == r.outbox
      && forall k :: |r.outbox| <= k < |r'.outbox| ==>
        !r'.outbox[k].1.ErrorMsg? && r'.outbox[k].0 in Keys(r'.users)
  {
    var r' := HandleMessage(r, ws, input, f);
    var m := input.msg;
    match m.kind
    case Join =>
      FanoutAppended(r.outbox, Keys(r'.users), UsersMsg(Roster(r')));
    case Vote =>
      if ws in Keys(r.users) {
        FanoutAppended(r.outbox, Keys(r'.users), UsersMsg(Roster(r')));
      }
    case Reveal =>
      if !r.revealed {
        FanoutAppended(r.outbox, Keys(r.users), RevealedMsg(Values(r.users), CalculateStats(Values(r.users))));
      }
    case Reset =>
      FanoutAppended(r.outbox, Keys(r.users), ResetMsg(Values(r'.users)));
    case Leave =>
      FanoutAppended(r.outbox, Keys(r'.users), UsersMsg(Roster(r')));
    case Other(_) =>
  }
}
