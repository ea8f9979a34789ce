/**
 * Runs of the room: the socket events of `handleSession` (messages, and the close and
 * error listeners that both end in `handleDisconnect`) applied one at a time, and what
 * stays true along any run.
 */
module RoomTraces {
  import opened Wrappers
  import opened Text
  import opened RoomTypes
  import opened Registry
  import opened VoteStats
  import opened RoomMachine

  /** One event on one socket. */
  datatype Event = Deliver(ws: Conn, input: Inbound, stamp: Fresh) | Closed(ws: Conn)

  /** A vote that would be counted carries a numeral. */
  predicate Readable(e: Event)
  {
    (e.Deliver? && e.input.Decoded? && e.input.msg.kind.Vote? && Counts(e.input.msg.card))
    ==> IsNumeral(e.input.msg.card.value)
  }

  predicate Invariant(r: Room)
  {
    Valid(r) && NumericCards(Values(r.users))
  }

  lemma NumericCardsUpdate(s: seq<User>, k: nat, u: User)
    requires NumericCards(s) && k < |s| && (Counts(u.vote) ==> IsNumeral(u.vote.value))
    ensures NumericCards(s[k := u])
  {
  }

  lemma NumericCardsSlices(s: seq<User>, k: nat)
    requires NumericCards(s) && k < |s|
    ensures NumericCards(s[..k] + s[k + 1..])
  {
    NumericCardsConcat(s[..k], s[k + 1..]);
  }

  lemma JoinKeepsInvariant(r: Room, ws: Conn, m: Message, f: Fresh)
    requires Invariant(r)
    ensures Invariant(RoomMachine.Join(r, ws, m, f))
  {
    if Truthy(m.id) && Truthy(m.name) {
      var vs, u := Values(r.users), NewUser(m, f);
      ValuesSet(r.users, ws, u);
      if ws in Keys(r.users) {
        NumericCardsUpdate(vs, IndexOf(r.users, ws), u);
      } else {
        NumericCardsConcat(vs, [u]);
      }
      assert Values(RoomMachine.Join(r, ws, m, f).users) == Values(Set(r.users, ws, u));
    }
  }

  lemma VoteKeepsInvariant(r: Room, ws: Conn, m: Message)
    requires Invariant(r) && (Counts(m.card) ==> IsNumeral(m.card.value))
    ensures Invariant(RoomMachine.Vote(r, ws, m))
  {
    if ws in Keys(r.users) && !r.revealed && Truthy(m.card) {
      var u := Get(r.users, ws).value.(vote := m.card);
      ValuesSet(r.users, ws, u);
      NumericCardsUpdate(Values(r.users), IndexOf(r.users, ws), u);
      assert Values(RoomMachine.Vote(r, ws, m).users) == Values(Set(r.users, ws, u));
    }
  }

  lemma ResetKeepsInvariant(r: Room)
    requires Invariant(r)
    ensures Invariant(RoomMachine.Reset(r))
  {
    var r' := RoomMachine.Reset(r);
    assert forall i :: 0 <= i < |Values(r'.users)| ==> Values(r'.users)[i].vote == None;
  }

  lemma DisconnectKeepsInvariant(r: Room, ws: Conn)
    requires Invariant(r)
    ensures Invariant(Disconnect(r, ws))
  {
    ValuesDelete(r.users, ws);
    if ws in Keys(r.users) { NumericCardsSlices(Values(r.users), IndexOf(r.users, ws)); }
  }

  lemma StepKeepsInvariant(r: Room, e: Event)
    requires Invariant(r) && Readable(e)
    ensures e.Deliver? ==> Invariant(HandleMessage(r, e.ws, e.input, e.stamp))
    ensures e.Closed? ==> Invariant(Disconnect(r, e.ws))
  {
    if e.Closed? {
      DisconnectKeepsInvariant(r, e.ws);
    } else if e.input.Decoded? {
      var m := e.input.msg;
      match m.kind {
        case Join => JoinKeepsInvariant(r, e.ws, m, e.stamp);
        case Vote => VoteKeepsInvariant(r, e.ws, m);
        case Reset => ResetKeepsInvariant(r);
        case Leave => DisconnectKeepsInvariant(r, e.ws);
        case _ =>
      }
    }
  }

  /** One event. */
  function Step(r: Room, e: Event): (r': Room)
    requires Invariant(r) && Readable(e)
    ensures Invariant(r')
    ensures |r'.outbox| >= |r.outbox| && r'.outbox[..|r.outbox|] == r.outbox
    ensures |r'.log| >= |r.log| && r'.log[..|r.log|] == r.log
  {
    StepKeepsInvariant(r, e);
    match e
    case Deliver(ws, input, f) =>
      HandleMessageAppends(r, ws, input, f);
      HandleMessage(r, ws, input, f)
    case Closed(ws) =>
      var r' := Disconnect(r, ws);
      FanoutAppended(r.outbox, Keys(r'.users), UsersMsg(Roster(r')));
      r'
  }

  predicate AllReadable(evs: seq<Event>)
  {
    forall i :: 0 <= i < |evs| ==> Readable(evs[i])
  }

  /** A run of events, one at a time. */
  function Run(r: Room, evs: seq<Event>): (r': Room)
    requires Invariant(r) && AllReadable(evs)
    ensures Invariant(r')
    decreases |evs|
  {
    if evs == [] then r
    else
      assert AllReadable(evs[1..]) by {
        forall i | 0 <= i < |evs[1..]| ensures Readable(evs[1..][i]) { assert evs[1..][i] == evs[i + 1]; }
      }
      Run(Step(r, evs[0]), evs[1..])
  }

  predicate IsRevealEvent(e: Event)
  {
    e.Deliver? && IsReveal(e.input)
  }

  /** How many events of a run are reveals that arrive while the round is hidden. */
  function EffectiveReveals(r: Room, evs: seq<Event>): nat
    requires Invariant(r) && AllReadable(evs)
    decreases |evs|
  {
    if evs == [] then 0
    else
      assert AllReadable(evs[1..]) by {
        forall i | 0 <= i < |evs[1..]| ensures Readable(evs[1..][i]) { assert evs[1..][i] == evs[i + 1]; }
      }
      (if IsRevealEvent(evs[0]) && !r.revealed then 1 else 0) + EffectiveReveals(Step(r, evs[0]), evs[1..])
  }

  function CountReveals(evs: seq<Event>): nat
  {
    if evs == [] then 0 else (if IsRevealEvent(evs[0]) then 1 else 0) + CountReveals(evs[1..])
  }

  /**
   * Along any run the round number grows by exactly one per effective reveal, so it never
   * goes down and never grows by more than the number of reveal messages.
   */
  lemma {:induction false} RoundNumberCountsReveals(r: Room, evs: seq<Event>)
    requires Invariant(r) && AllReadable(evs)
    ensures Run(r, evs).roundNumber == r.roundNumber + EffectiveReveals(r, evs)
    ensures EffectiveReveals(r, evs) <= CountReveals(evs)
    decreases |evs|
  {
    if evs != [] {
      assert AllReadable(evs[1..]) by {
        forall i | 0 <= i < |evs[1..]| ensures Readable(evs[1..][i]) { assert evs[1..][i] == evs[i + 1]; }
      }
      RoundNumberCountsReveals(Step(r, evs[0]), evs[1..]);
    }
  }

  /** Once a session id is set, no run replaces it. */
  lemma {:induction false} SessionIdIsStable(r: Room, evs: seq<Event>)
    requires Invariant(r) && AllReadable(evs)
    ensures Truthy(r.sessionId) ==> Run(r, evs).sessionId == r.sessionId
    decreases |evs|
  {
    if evs != [] {
      assert AllReadable(evs[1..]) by {
        forall i | 0 <= i < |evs[1..]| ensures Readable(evs[1..][i]) { assert evs[1..][i] == evs[i + 1]; }
      }
      SessionIdIsStable(Step(r, evs[0]), evs[1..]);
    }
  }

  /** What has been sent or stored stays: a run only appends to the outbox and to the log. */
  lemma {:induction false} RunOnlyAppends(r: Room, evs: seq<Event>)
    requires Invariant(r) && AllReadable(evs)
    ensures |Run(r, evs).outbox| >= |r.outbox| && Run(r, evs).outbox[..|r.outbox|] == r.outbox
    ensures |Run(r, evs).log| >= |r.log| && Run(r, evs).log[..|r.log|] == r.log
    decreases |evs|
  {
    if evs != [] {
      assert AllReadable(evs[1..]) by {
        forall i | 0 <= i < |evs[1..]| ensures Readable(evs[1..][i]) { assert evs[1..][i] == evs[i + 1]; }
      }
      var r1 := Step(r, evs[0]);
      RunOnlyAppends(r1, evs[1..]);
      var rn := Run(r1, evs[1..]);
      assert rn.outbox[..|r.outbox|] == rn.outbox[..|r1.outbox|][..|r.outbox|];
      assert rn.log[..|r.log|] == rn.log[..|r1.log|][..|r.log|];
    }
  }

  /** Leaving twice is leaving once: the second leave removes nothing and reports no error. */
  lemma LeaveTwiceIsLeaveOnce(r: Room, ws: Conn)
    requires Valid(r)
    ensures var once := Disconnect(r, ws);
      && Disconnect(once, ws).users == once.users
      && Disconnect(once, ws).outbox == once.outbox + Fanout(Keys(once.users), UsersMsg(Roster(once)))
  {
  }

  /** A second reveal changes nothing: no second round is counted, saved or announced. */
  lemma RevealTwiceIsRevealOnce(r: Room, id1: string, at1: string, id2: string, at2: string)
    requires !r.revealed ==> NumericCards(Values(r.users))
    ensures RoomMachine.Reveal(RoomMachine.Reveal(r, id1, at1), id2, at2) == RoomMachine.Reveal(r, id1, at1)
  {
  }

  /** A reset after a reset leaves the same users with no votes, hidden. */
  lemma ResetTwiceIsResetOnce(r: Room)
    ensures RoomMachine.Reset(RoomMachine.Reset(r)).users == RoomMachine.Reset(r).users && !RoomMachine.Reset(RoomMachine.Reset(r)).revealed
  {
    var once, twice := RoomMachine.Reset(r), RoomMachine.Reset(RoomMachine.Reset(r));
    assert Keys(twice.users) == Keys(once.users);
    forall i | 0 <= i < |once.users|
      ensures twice.users[i] == once.users[i]
    {
      assert Keys(twice.users)[i] == Keys(once.users)[i];
      assert Values(twice.users)[i] == Values(once.users)[i];
    }
  }
}
