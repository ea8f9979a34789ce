/**
 * The worker's wire and state records (worker/src/types.ts): a participant, the
 * decoded inbound message, the outbound responses and the reveal statistics.
 */
module RoomTypes {
  import opened Wrappers

  /** An attached socket, as an opaque handle. */
  type Conn = nat

  /** A participant of the room; `vote` is null until a card is chosen. */
  datatype User = User(id: string, name: string, vote: Option<string>, connected: bool, joinedAt: string)

  /** The `type` tag of an inbound message; `Other` is any tag no handler serves (e.g. "ping"). */
  datatype Kind = Join | Vote | Reveal | Reset | Leave | Other(tag: string)

  /** An inbound message after JSON decoding: the tag and the optional fields. */
  datatype Message = Message(kind: Kind, id: Option<string>, name: Option<string>, card: Option<string>)

  /**
   * What arrives on a socket. `Undecodable` is what the listener's catch answers: text that
   * is not JSON, and the JSON value `null` (whose `type` cannot be read). Any other JSON
   * value, an object, array, number, string or boolean, is `Decoded`, with kind `Other`
   * when its `type` is missing or names no handler.
   */
  datatype Inbound = Decoded(msg: Message) | Undecodable

  /**
   * Reveal statistics, computed exactly: `averageTenths` is the average times ten,
   * rounded (so 2.8 is 28); `median` is exact; `total` counts the votes used.
   */
  datatype Stats = Stats(averageTenths: int, median: real, total: nat)

  /** The room's outbound messages. */
  datatype Response =
    | UsersMsg(users: seq<User>)
    | RevealedMsg(users: seq<User>, stats: Stats)
    | ResetMsg(users: seq<User>)
    | ErrorMsg(error: string)

  const MissingIdOrName: string := "Missing user id or name"
  const VotingClosed: string := "Voting closed - round already revealed"
  const MissingCard: string := "Missing vote card"
  const InvalidFormat: string := "Invalid message format"
}
