/**
 * `getUsersArray` (worker/src/poker-room.ts): the roster every broadcast carries.
 * While the round is hidden a set vote shows as the hidden-card marker and an unset
 * or empty one as null; once revealed the votes go out as stored.
 */
module Masking {
  import opened Wrappers
  import opened Text
  import opened RoomTypes

  const HiddenCard: string := "\U{1F0CF}"

  function MaskVote(revealed: bool, vote: Option<string>): Option<string>
  {
    if revealed then vote else if Truthy(vote) then Some(HiddenCard) else None
  }

  /** The roster as broadcast: same users, same order, votes masked while hidden. */
  function MaskRoster(revealed: bool, users: seq<User>): (roster: seq<User>)
    ensures |roster| == |users|
    ensures forall i :: 0 <= i < |users| ==>
      && roster[i].id == users[i].id && roster[i].name == users[i].name
      && roster[i].connected == users[i].connected && roster[i].joinedAt == users[i].joinedAt
    ensures revealed ==> roster == users
    ensures !revealed ==> forall i :: 0 <= i < |users| ==>
      roster[i].vote == (if Truthy(users[i].vote) then Some(HiddenCard) else None)
  {
    if users == [] then []
    else [users[0].(vote := MaskVote(revealed, users[0].vote))] + MaskRoster(revealed, users[1..])
  }

  /** A roster in which nobody has voted goes out unchanged, hidden or not. */
  lemma UnvotedRosterUnmasked(revealed: bool, users: seq<User>)
    requires forall i :: 0 <= i < |users| ==> users[i].vote == None
    ensures MaskRoster(revealed, users) == users
  {
    var roster := MaskRoster(revealed, users);
    forall i | 0 <= i < |users|
      ensures roster[i] == users[i]
    {
      assert roster[i].vote == users[i].vote;
    }
  }

  /** Users that agree on everything except the value of the votes they have cast. */
  predicate SameUpToVoteValues(a: seq<User>, b: seq<User>)
  {
    && |a| == |b|
    && forall i :: 0 <= i < |a| ==>
      && a[i].(vote := None) == b[i].(vote := None)
      && Truthy(a[i].vote) == Truthy(b[i].vote)
  }

  /**
   * While hidden, the roster tells who has voted and nothing about what: rosters that
   * differ only in the values of cast votes are broadcast identically.
   */
  lemma HiddenRosterRevealsNoVote(a: seq<User>, b: seq<User>)
    requires SameUpToVoteValues(a, b)
    ensures MaskRoster(false, a) == MaskRoster(false, b)
  {
    var ra, rb := MaskRoster(false, a), MaskRoster(false, b);
    forall i | 0 <= i < |a|
      ensures ra[i] == rb[i]
    {
      assert a[i].(vote := None).id == b[i].(vote := None).id;
      assert a[i].(vote := None).name == b[i].(vote := None).name;
      assert a[i].(vote := None).connected == b[i].(vote := None).connected;
      assert a[i].(vote := None).joinedAt == b[i].(vote := None).joinedAt;
    }
  }
}
