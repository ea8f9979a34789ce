/**
 * The `PokerRoom` durable object (worker/src/poker-room.ts) as a class whose fields are
 * `roomState`, the messages it has sent and the rows it has handed to the database.
 * Every handler is proved to perform the matching transition of `RoomMachine`, so the
 * lemmas of room_machine.dfy and room_traces.dfy are facts about this class.
 */
module PokerRoomActor {
  import opened Wrappers
  import opened Text
  import opened RoomTypes
  import opened Registry
  import opened Masking
  import opened VoteStats
  import opened RoomMachine

  /** The HTTP status `fetch` answers with: 101 for a WebSocket upgrade, 426 otherwise. */
  const SwitchingProtocols: nat := 101
  const UpgradeRequired: nat := 426

  class PokerRoom {
    var roomId: string
    var revealed: bool
    var roundNumber: nat
    var sessionId: Option<string>
    /** The socket map, in insertion order. */
    var users: Entries
    /** Every `ws.send`, in order. */
    var outbox: seq<(Conn, Response)>
    /** Every database insert, in order. */
    var log: seq<Record>

    function State(): Room
      reads this
    {
      Room(roomId, revealed, roundNumber, sessionId, users, outbox, log)
    }

    constructor()
      ensures State() == Initial("")
    {
      roomId := "";
      revealed := false;
      roundNumber := 0;
      sessionId := None;
      users := [];
      outbox := [];
      log := [];
    }

    /**
     * `fetch`: the room id is the last path segment; only a WebSocket upgrade is accepted.
     * The socket pairing and `handleSession` are the runtime's.
     */
    method Fetch(path: string, upgrade: Option<string>) returns (status: nat)
      modifies this`roomId
      ensures roomId == LastPiece(path, '/')
      ensures forall a: string, id: string :: '/' !in id && path == a + "/" + id ==> roomId == id
      ensures status == if upgrade == Some("websocket") then SwitchingProtocols else UpgradeRequired
    {
      roomId := LastPiece(path, '/');
      forall a: string, id: string | '/' !in id && path == a + "/" + id
        ensures roomId == id
      {
        LastPieceAfterSeparator(a, id, '/');
      }
      if upgrade != Some("websocket") {
        return UpgradeRequired;
      }
      status := SwitchingProtocols;
    }

    /** `broadcast`: the `forEach` over the socket map. */
    method Broadcast(msg: Response)
      modifies this`outbox
      ensures State() == RoomMachine.Broadcast(old(State()), msg)
    {
      var i := 0;
      while i < |users|
        invariant 0 <= i <= |users|
        invariant outbox == old(outbox) + Fanout(Keys(users)[..i], msg)
      {
        assert Fanout(Keys(users)[..i + 1], msg) == Fanout(Keys(users)[..i], msg) + [(users[i].0, msg)];
        outbox := outbox + [(users[i].0, msg)];
        i := i + 1;
      }
      assert Keys(users)[..i] == Keys(users);
    }

    /** `sendError`. */
    method SendError(ws: Conn, error: string)
      modifies this`outbox
      ensures State() == RoomMachine.SendError(old(State()), ws, error)
    {
      outbox := outbox + [(ws, ErrorMsg(error))];
    }

    /** `broadcastUsers`. */
    method BroadcastUsers()
      modifies this`outbox
      ensures State() == RoomMachine.BroadcastUsers(old(State()))
    {
      Broadcast(UsersMsg(MaskRoster(revealed, Values(users))));
    }

    /** `createSession`. */
    method CreateSession(createdAt: string)
      modifies this`log
      ensures State() == RoomMachine.CreateSession(old(State()), createdAt)
    {
      if !Truthy(sessionId) {
        return;
      }
      log := log + [SessionRow(sessionId.value, roomId, createdAt)];
    }

    /** `saveRound`: the round row, then one vote row per user with a vote. */
    method SaveRound(stats: Stats, roundId: string, at: string)
      modifies this`log
      ensures State() == RoomMachine.SaveRound(old(State()), stats, roundId, at)
    {
      if !Truthy(sessionId) {
        return;
      }
      log := log + [RoundRow(roundId, sessionId.value, roundNumber, at, stats.averageTenths, stats.median)];
      var all := Values(users);
      var i := 0;
      while i < |all|
        invariant 0 <= i <= |all|
        invariant log == old(log) + [RoundRow(roundId, sessionId.value, roundNumber, at, stats.averageTenths, stats.median)]
          + VoteRows(all[..i], roundId, at)
      {
        assert all[..i + 1][..i] == all[..i];
        var user := all[i];
        if Truthy(user.vote) {
          log := log + [VoteRow(roundId, user.name, user.vote.value, at)];
        }
        i := i + 1;
      }
      assert all[..i] == all;
    }

    /** `handleJoin`. */
    method HandleJoin(ws: Conn, m: Message, f: Fresh)
      modifies this`users, this`sessionId, this`log, this`outbox
      ensures State() == RoomMachine.Join(old(State()), ws, m, f)
    {
      ghost var r := State();
      if !Truthy(m.id) || !Truthy(m.name) {
        SendError(ws, MissingIdOrName);
        return;
      }
      users := Registry.Set(users, ws, NewUser(m, f));
      ghost var r1 := State();
      assert r1 == r.(users := Registry.Set(r.users, ws, NewUser(m, f)));
      if |users| == 1 && !Truthy(sessionId) {
        sessionId := Some(f.sessionUuid);
        CreateSession(f.sessionCreatedAt);
      }
      assert State() == if |r1.users| == 1 && !Truthy(r1.sessionId)
        then RoomMachine.CreateSession(r1.(sessionId := Some(f.sessionUuid)), f.sessionCreatedAt)
        else r1;
      BroadcastUsers();
    }

    /** `handleVote`. */
    method HandleVote(ws: Conn, m: Message)
      modifies this`users, this`outbox
      ensures State() == RoomMachine.Vote(old(State()), ws, m)
    {
      var user := Get(users, ws);
      if user.None? {
        return;
      }
      if revealed {
        SendError(ws, VotingClosed);
        return;
      }
      if !Truthy(m.card) {
        SendError(ws, MissingCard);
        return;
      }
      users := Registry.Set(users, ws, user.value.(vote := m.card));
      BroadcastUsers();
    }

    /** `handleReveal`. */
    method HandleReveal(roundId: string, at: string)
      requires !revealed ==> NumericCards(Values(users))
      modifies this`revealed, this`roundNumber, this`log, this`outbox
      ensures State() == RoomMachine.Reveal(old(State()), roundId, at)
    {
      if revealed {
        return;
      }
      revealed := true;
      roundNumber := roundNumber + 1;
      var stats := CalculateStats(Values(users));
      SaveRound(stats, roundId, at);
      Broadcast(RevealedMsg(MaskRoster(revealed, Values(users)), stats));
    }

    /** `handleReset`: the votes are cleared one user at a time, in map order. */
    method HandleReset()
      modifies this`revealed, this`users, this`outbox
      ensures State() == RoomMachine.Reset(old(State()))
    {
      revealed := false;
      var i := 0;
      while i < |users|
        modifies this`users
        invariant 0 <= i <= |users| == |old(users)|
        invariant forall j :: 0 <= j < i ==> users[j] == (old(users)[j].0, old(users)[j].1.(vote := None))
        invariant forall j :: i <= j < |users| ==> users[j] == old(users)[j]
      {
        users := users[i := (users[i].0, users[i].1.(vote := None))];
        i := i + 1;
      }
      assert users == ClearVotes(old(users));
      Broadcast(ResetMsg(MaskRoster(revealed, Values(users))));
    }

    /** `handleDisconnect`; closing the socket is the runtime's. */
    method HandleDisconnect(ws: Conn)
      modifies this`users, this`outbox
      ensures State() == RoomMachine.Disconnect(old(State()), ws)
    {
      users := Delete(users, ws);
      BroadcastUsers();
    }

    /**
     * `handleMessage`, with the listener's `Invalid message format` reply for text that is not
     * JSON and for the JSON value `null`; any other JSON value without a handled `type` does nothing.
     */
    method HandleMessage(ws: Conn, input: Inbound, f: Fresh)
      requires CanHandle(State(), input)
      modifies this`revealed, this`roundNumber, this`sessionId, this`users, this`log, this`outbox
      ensures State() == RoomMachine.HandleMessage(old(State()), ws, input, f)
    {
      if input.Undecodable? {
        SendError(ws, InvalidFormat);
        return;
      }
      var m := input.msg;
      match m.kind {
        case Join => HandleJoin(ws, m, f);
        case Vote => HandleVote(ws, m);
        case Reveal => HandleReveal(f.roundUuid, f.revealedAt);
        case Reset => HandleReset();
        case Leave => HandleDisconnect(ws);
        case Other(_) =>
      }
    }
  }
}
