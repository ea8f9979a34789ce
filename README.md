# Planning poker: the room protocol and its history, in Dafny

This project models the core of a planning-poker application. The application has:

- a Cloudflare worker whose `PokerRoom` durable object keeps one room;
- the worker's HTTP entry point, which routes requests and exports history;
- the browser's state store.

A room holds a map from socket to participant, in insertion order, plus three values:
- whether the current round is revealed;
- the round number;
- the id of the database session that the room's first participant opened.

Participants send `join`, `vote`, `reveal`, `reset` and `leave` messages. The room answers by broadcasting the roster to every joined socket, with votes hidden until the round is revealed. On a reveal it computes the statistics of the counted votes and stores the round with its votes.

The model has these parts:

- `room_types.dfy` holds the participant, the decoded message, the outbound responses and the statistics record.
- `registry.dfy` is the insertion-ordered map. `Set` keeps a present key in place, `Delete` removes an entry, and iteration follows insertion order.
- `masking.dfy` is the roster as broadcast, `getUsersArray`.
- `vote_stats.dfy` is `calculateStats`, computed exactly:
  - the average is held in integer tenths, rounded half up;
  - the median is a real;
  - votes are strings of decimal digits.
- `room_machine.dfy` describes each handler as a function from room to room:
  - every `ws.send` appends a `(recipient, response)` pair to an outbox;
  - every database insert appends a record to a log.
- `poker_room.dfy` is the `PokerRoom` class, with the state fields and loops of the source. Each method is proved to perform the matching transition of `room_machine.dfy`.
- `room_traces.dfy` runs sequences of socket events and proves what holds along every run.
- `routing.dfy` is the route choice of the worker's `fetch`.
- `history.dfy` covers two functions:
  - `getHistory` is a method with its loop, proved equal to a grouping defined run by run;
  - `exportHistoryCSV` is a method with its three nested loops.
- `poker_store.dfy` is the client store. Its getters are functions of the roster; its actions are methods of a class with a local-storage map.
- `text.dfy` holds JavaScript truthiness and `split`/`join` for a one-character separator, with their round trips.

Fresh UUIDs and ISO timestamps are parameters: the `Fresh` record for the room and plain arguments elsewhere. The SQL results of the history queries are inputs:
- the joined rows;
- a table from round id to votes.

The worker and the durable object read the room id differently:
- the worker takes path segment 2 (`split('/')[2]`);
- the durable object takes the last segment.

The two agree on a plain `/room/<id>` path (`Routing.RoomNameAgreesWithLastSegment`). They disagree once something follows the id: `/room/abc/` reaches the room `abc`, whose last segment is empty (`Routing.TrailingSlashSplitsRoomName`).

## Model

| member | source | states |
|---|---|---|
| Text.Split | worker/src/index.ts:23 | `split` gives at least one piece, and no piece holds the separator |
| Text.SplitJoin | worker/src/index.ts:152 | joining pieces that hold no separator, then splitting, gives the pieces back |
| Text.JoinSplit | worker/src/index.ts:158 | splitting, then joining, gives the string back |
| Text.LastPiece | worker/src/poker-room.ts:23 | `split('/').pop()` holds no separator |
| Text.LastPieceAfterSeparator | worker/src/poker-room.ts:23 | the last piece of `a + sep + p` is `p` when `p` has no separator |
| Text.Truthy | worker/src/poker-room.ts:85 | definition: JavaScript truthiness of an optional string, present and non-empty; no contract of its own |
| Text.Join | worker/src/index.ts:158 | definition of `join`; its round trips with `split` are Text.SplitJoin and Text.JoinSplit |
| Registry.Keys | worker/src/poker-room.ts:214-221 | definition of `map.keys()`, the sockets in insertion order; Registry.SetSpec, Registry.DeleteSpec and Registry.DeletedKeys state how `set` and `delete` change it |
| Registry.Values | worker/src/poker-room.ts:200 | definition of `map.values()`, the users in insertion order; Registry.GetAt, Registry.ValuesSet and Registry.ValuesDelete relate it to `get`, `set` and `delete` |
| Registry.IndexOf | worker/src/poker-room.ts:110 | the position found holds the key, and no earlier entry does |
| Registry.Get | worker/src/poker-room.ts:110 | `map.get` finds nothing exactly when no entry has the socket, and what it finds is an entry of the map for that socket |
| Registry.GetFindsEntry | worker/src/poker-room.ts:110 | with distinct keys, `get` gives `u` exactly when the map holds the entry `(socket, u)` |
| Registry.GetAt | worker/src/poker-room.ts:98 | with distinct keys, the user at position k is what `get` returns for that position's key |
| Registry.Set | worker/src/poker-room.ts:98 | after `set` the map holds the entry `(socket, user)`, and it grows by one entry exactly when the socket was absent |
| Registry.SetSpec | worker/src/poker-room.ts:98 | `map.set` keeps keys distinct and binds the socket to the new user. Other sockets keep their binding. A present key keeps its position, and a new key goes last |
| Registry.ValuesSet | worker/src/poker-room.ts:98 | after `set`, the users are the old list with one position replaced, or with the new user appended |
| Registry.Delete | worker/src/poker-room.ts:166 | `delete` removes one entry exactly when the socket was present, and every remaining entry was there before |
| Registry.DeletedKeys | worker/src/poker-room.ts:166 | deleting a present key leaves distinct keys without it |
| Registry.DeletedOtherPresent | worker/src/poker-room.ts:166 | deleting one socket keeps every other present socket's user |
| Registry.DeletedOtherAbsent | worker/src/poker-room.ts:166 | deleting one socket adds no key |
| Registry.DeleteSpec | worker/src/poker-room.ts:166 | `map.delete` removes exactly that socket, keeps keys distinct, and a second delete changes nothing |
| Registry.ValuesDelete | worker/src/poker-room.ts:166 | after `delete`, the users are the old list without that position, in order; an absent key changes nothing |
| Masking.MaskRoster | worker/src/poker-room.ts:199-204 | the roster has the same length and order and keeps every field except the vote. Revealed: it is unchanged. Hidden: a non-empty vote becomes the hidden-card marker, and a null or empty one becomes null |
| Masking.MaskVote | worker/src/poker-room.ts:202 | definition of the vote ternary; Masking.MaskRoster and Masking.HiddenRosterRevealsNoVote state what it keeps and hides |
| Masking.UnvotedRosterUnmasked | worker/src/poker-room.ts:199-204 | a roster in which nobody voted goes out unchanged |
| Masking.HiddenRosterRevealsNoVote | worker/src/poker-room.ts:199-204 | while hidden, rosters that differ only in the values of cast votes are broadcast identically |
| VoteStats.Counts | worker/src/poker-room.ts:177 | definition of the filter: truthy, and neither `?` nor the coffee card; VoteStats.UncountedVoteDropped and VoteStats.UncountedVoteIsIgnored state that a vote failing it is ignored |
| VoteStats.Numeral | worker/src/poker-room.ts:178 | the decimal numeral of a number is a digit string |
| VoteStats.ParseNumeral | worker/src/poker-room.ts:178 | definition of `parseInt` on a digit string; its round trip with `Numeral` is VoteStats.ParseNumeralOfNumeral |
| VoteStats.ParseNumeralOfNumeral | worker/src/poker-room.ts:178 | `parseInt` of a number's numeral is that number |
| VoteStats.CountedVotes | worker/src/poker-room.ts:176-178 | the filter keeps at most one number per user |
| VoteStats.NumericCardsConcat | worker/src/poker-room.ts:176-178 | a roster's counted votes are all numerals exactly when both of its parts' are |
| VoteStats.CountedVotesConcat | worker/src/poker-room.ts:176-178 | the counted votes of two rosters in a row are the first's, then the second's, in order |
| VoteStats.UncountedHead | worker/src/poker-room.ts:176-178 | a leading user whose vote is not counted adds no vote |
| VoteStats.UncountedVoteDropped | worker/src/poker-room.ts:176-178 | taking out a user whose vote is null, empty, `?` or the coffee card, from anywhere in the roster, leaves the counted votes unchanged |
| VoteStats.UncountedVoteIsIgnored | worker/src/poker-room.ts:175-197 | such a user does not change the statistics |
| VoteStats.Insert | worker/src/poker-room.ts:187 | inserting into an ascending sequence gives an ascending sequence with one more copy of the value |
| VoteStats.SortAscending | worker/src/poker-room.ts:187 | the numeric sort is ascending, a permutation of the votes, and the same length |
| VoteStats.Min | worker/src/poker-room.ts:175-197 | the least vote is among the votes and no larger than any of them |
| VoteStats.Max | worker/src/poker-room.ts:175-197 | the greatest vote is among the votes and no smaller than any of them |
| VoteStats.Sum | worker/src/poker-room.ts:184 | definition of the `reduce` sum; VoteStats.SumBetween bounds it by the least and greatest vote |
| VoteStats.Median | worker/src/poker-room.ts:188-190 | definition on a sorted sequence; VoteStats.MedianFormula, VoteStats.MedianWithin and VoteStats.MedianOfSortedOrder state its properties |
| VoteStats.MedianFormula | worker/src/poker-room.ts:188-190 | an odd count gives the middle value, an even count the mean of the two middle values |
| VoteStats.RoundTenths | worker/src/poker-room.ts:193 | the result r satisfies `(2r-1)n <= 20*sum < (2r+1)n`: ten times the mean, rounded to the nearest integer with halves going up |
| VoteStats.RoundTenthsBetween | worker/src/poker-room.ts:193 | rounding keeps the tenths between ten times any lower and upper bound of the votes |
| VoteStats.TenthsAtLeast | worker/src/poker-room.ts:193 | rounded tenths are at least ten times any lower bound of the votes |
| VoteStats.TenthsAtMost | worker/src/poker-room.ts:193 | rounded tenths are at most ten times any upper bound of the votes |
| VoteStats.RoundsToTenthsUnique | worker/src/poker-room.ts:193 | only one number of tenths satisfies the rounding condition for a given sum and count |
| VoteStats.AverageBetween | worker/src/poker-room.ts:184-193 | the rounded average lies between the least and the greatest vote |
| VoteStats.MedianWithin | worker/src/poker-room.ts:188-190 | the median of an ascending sequence lies between its first and last values |
| VoteStats.MedianBetween | worker/src/poker-room.ts:187-190 | the median lies between the least and the greatest vote |
| VoteStats.LowerHalfAtMostMedian | worker/src/poker-room.ts:188-190 | at least half of a sorted sequence is at most its median |
| VoteStats.UpperHalfAtLeastMedian | worker/src/poker-room.ts:188-190 | at least half of a sorted sequence is at least its median |
| VoteStats.MedianSplitsSorted | worker/src/poker-room.ts:188-190 | both halves of a sorted sequence are on their side of the median |
| VoteStats.CountWherePermutation | worker/src/poker-room.ts:187 | counting votes that meet a condition does not depend on their order |
| VoteStats.MedianSplitsVotes | worker/src/poker-room.ts:187-190 | at least half of the unsorted votes lie on each side of the median |
| VoteStats.SortedUnique | worker/src/poker-room.ts:187 | two ascending sequences with the same elements are equal: the sorted order of the votes is unique |
| VoteStats.MedianOfSortedOrder | worker/src/poker-room.ts:187-190 | for any ascending arrangement of the votes, the median is its middle value (odd count) or the mean of its two middle values (even count) |
| VoteStats.MedianOfEverySortedOrder | worker/src/poker-room.ts:187-190 | the same, for every ascending arrangement at once |
| VoteStats.CalculateStats | worker/src/poker-room.ts:175-197 | `total` is the number of counted votes, and no counted vote gives `{0, 0, 0}`. Otherwise the average is the half-up rounded mean in tenths, and the average and median lie between the least and greatest vote. At least half of the votes are on each side of the median. For every ascending arrangement of the counted votes, the median is its middle value (odd count) or the mean of its two middle values (even count) |
| VoteStats.StatsOfAscendingVotes | worker/src/poker-room.ts:175-197 | when the counted votes are already ascending, the count, the rounding and the median read off them directly |
| VoteStats.DigitVoterFirst | worker/src/poker-room.ts:176-178 | a user holding a one-digit card puts that digit's value ahead of the rest's counted votes |
| VoteStats.OneTwoThreeFiveVotes | worker/src/poker-room.ts:176-178 | cards 1, 2, 3 and 5 count as the votes 1, 2, 3, 5 |
| VoteStats.FiveEightVotes | worker/src/poker-room.ts:176-178 | cards 5 and 8 count as the votes 5, 8 |
| VoteStats.StatsOfOneTwoThreeFive | worker/src/poker-room.ts:175-197 | cards 1, 2, 3 and 5 give average 2.8 (28 tenths), median 2.5 and total 4 |
| VoteStats.StatsOfFiveEight | worker/src/poker-room.ts:175-197 | cards 5 and 8 give average 6.5 (65 tenths), median 6.5 and total 2 |
| RoomMachine.Initial | worker/src/poker-room.ts:12-18 | a new room has no users, is hidden, is at round 0 and has no session |
| RoomMachine.Roster | worker/src/poker-room.ts:199-204 | definition: the users in join order, masked; Masking.MaskRoster states what the masking keeps and hides |
| RoomMachine.SendError | worker/src/poker-room.ts:223-231 | definition: one error to the one socket; RoomMachine.RejectedInputAnswersSender states that each rejected input sends exactly that and changes nothing else |
| RoomMachine.FanoutAppended | worker/src/poker-room.ts:216-220 | sending to every recipient keeps what was sent and adds exactly that message, once per recipient, in the recipients' order |
| RoomMachine.FanoutCovers | worker/src/poker-room.ts:216-220 | every recipient gets its copy |
| RoomMachine.Broadcast | worker/src/poker-room.ts:214-221 | `broadcast` changes only the outbox. It adds one copy per joined socket, in join order, only to joined sockets, and to every joined socket |
| RoomMachine.BroadcastUsers | worker/src/poker-room.ts:206-212 | definition: `broadcast` of the roster message; RoomMachine.Broadcast states who receives it |
| RoomMachine.CreateSession | worker/src/poker-room.ts:233-249 | definition: the session row when a session id is set; RoomMachine.Join states when it is written |
| RoomMachine.VoteRows | worker/src/poker-room.ts:273-288 | definition of the vote-row loop; RoomMachine.VoteRowsInJoinOrder states its rows |
| RoomMachine.SaveRecords | worker/src/poker-room.ts:251-292 | definition: the round row and then the vote rows, or nothing without a session; RoomMachine.Reveal states what a reveal stores |
| RoomMachine.SaveRound | worker/src/poker-room.ts:251-292 | definition: appends those records to the log; RoomMachine.Reveal and PokerRoomActor.PokerRoom.SaveRound state its effect |
| RoomMachine.VoteRowsInJoinOrder | worker/src/poker-room.ts:273-288 | there is one vote row per user with a non-empty vote, in join order, carrying that user's name and vote |
| RoomMachine.OpensSessionWhenAlone | worker/src/poker-room.ts:101-104 | a join opens a session exactly when no session is set and the map was empty or held only this socket |
| RoomMachine.NewUser | worker/src/poker-room.ts:90-96 | definition of the joining user: the message's id and name, a null vote, connected, the join time; RoomMachine.Join states where it is stored |
| RoomMachine.Join | worker/src/poker-room.ts:84-107 | an empty id or name sends one error to the sender and changes nothing else. Otherwise the socket maps to a fresh user with a null vote, at its old position or last, and other sockets keep their user. The session id and its one session row appear only when the join opens a session. The new roster goes to every joined socket |
| RoomMachine.Vote | worker/src/poker-room.ts:109-125 | a vote from a socket with no user does nothing at all. While revealed, or with an empty card, it sends one error to the sender and nothing else. Otherwise only the sender's vote changes, and the roster goes to every joined socket |
| RoomMachine.ClearVotes | worker/src/poker-room.ts:152-154 | definition of the clearing loop; RoomMachine.Reset states that every vote becomes null and nothing else changes |
| RoomMachine.Reveal | worker/src/poker-room.ts:127-146 | while revealed it changes nothing (no state, broadcast or save). Otherwise it reveals, adds exactly 1 to the round number, saves that round with its statistics and votes, and broadcasts one revealed message with the unmasked roster and the statistics |
| RoomMachine.Reset | worker/src/poker-room.ts:148-163 | the round is hidden and every vote is null. The round number, the session, the log and the sockets stay; one reset message goes to every socket |
| RoomMachine.Disconnect | worker/src/poker-room.ts:165-173 | removes just that socket's user, and nothing when it never joined; the new roster goes to the sockets still in the map |
| RoomMachine.HandleMessage | worker/src/poker-room.ts:64-82 | dispatch keeps sockets distinct and keeps the room id. The round number grows by 1 exactly on a reveal while hidden, and a set session id stays |
| RoomMachine.HandleMessageAppends | worker/src/poker-room.ts:64-82 | handling a message only appends to what was sent and stored |
| RoomMachine.RejectedInputAnswersSender | worker/src/poker-room.ts:46-125 | malformed JSON, a join without id or name, a late vote and a vote without a card each send exactly one error to the sender and change nothing else. An unknown type such as `ping` has no effect |
| RoomMachine.AcceptedInputNotifiesMembers | worker/src/poker-room.ts:64-173 | an accepted message sends no error, and everything it sends goes to sockets in the map afterwards (never to a leaver or to a socket that never joined) |
| RoomTraces.JoinKeepsInvariant | worker/src/poker-room.ts:84-107 | a join keeps sockets distinct and counted votes numeric |
| RoomTraces.VoteKeepsInvariant | worker/src/poker-room.ts:109-125 | a readable vote keeps sockets distinct and counted votes numeric |
| RoomTraces.ResetKeepsInvariant | worker/src/poker-room.ts:148-163 | a reset keeps the invariant |
| RoomTraces.DisconnectKeepsInvariant | worker/src/poker-room.ts:165-173 | a disconnect keeps the invariant |
| RoomTraces.StepKeepsInvariant | worker/src/poker-room.ts:46-61 | every socket event keeps the invariant |
| RoomTraces.Step | worker/src/poker-room.ts:46-61 | one event keeps the invariant and only appends to the outbox and the log |
| RoomTraces.Run | worker/src/poker-room.ts:43-61 | any run of readable events keeps the invariant |
| RoomTraces.RoundNumberCountsReveals | worker/src/poker-room.ts:127-131 | along any run the round number grows by exactly one per effective reveal, and never by more than the number of reveal messages |
| RoomTraces.SessionIdIsStable | worker/src/poker-room.ts:100-104 | once a session id is set, no run reassigns it |
| RoomTraces.RunOnlyAppends | worker/src/poker-room.ts:206-292 | no run changes anything already sent or stored |
| RoomTraces.LeaveTwiceIsLeaveOnce | worker/src/poker-room.ts:165-173 | a second leave removes nobody and raises no error; it only rebroadcasts the roster |
| RoomTraces.RevealTwiceIsRevealOnce | worker/src/poker-room.ts:127-146 | a second reveal changes nothing |
| RoomTraces.ResetTwiceIsResetOnce | worker/src/poker-room.ts:148-163 | a second reset leaves the same users, all unvoted, and the round hidden |
| PokerRoomActor.PokerRoom.constructor | worker/src/poker-room.ts:8-19 | the room starts in the initial state |
| PokerRoomActor.PokerRoom.Fetch | worker/src/poker-room.ts:21-41 | the room id becomes the last path segment (`id` for a path ending in `/id`). The status is 101 for a WebSocket upgrade and 426 otherwise |
| PokerRoomActor.PokerRoom.Broadcast | worker/src/poker-room.ts:214-221 | the `forEach` loop sends exactly `RoomMachine.Broadcast` |
| PokerRoomActor.PokerRoom.SendError | worker/src/poker-room.ts:223-231 | performs `RoomMachine.SendError` |
| PokerRoomActor.PokerRoom.BroadcastUsers | worker/src/poker-room.ts:206-212 | performs `RoomMachine.BroadcastUsers` |
| PokerRoomActor.PokerRoom.CreateSession | worker/src/poker-room.ts:233-249 | records nothing without a session id, otherwise exactly the session row |
| PokerRoomActor.PokerRoom.SaveRound | worker/src/poker-room.ts:251-292 | records nothing without a session id, otherwise the round row and then, in a loop, one vote row per voter |
| PokerRoomActor.PokerRoom.HandleJoin | worker/src/poker-room.ts:84-107 | performs `RoomMachine.Join` |
| PokerRoomActor.PokerRoom.HandleVote | worker/src/poker-room.ts:109-125 | performs `RoomMachine.Vote` |
| PokerRoomActor.PokerRoom.HandleReveal | worker/src/poker-room.ts:127-146 | performs `RoomMachine.Reveal` |
| PokerRoomActor.PokerRoom.HandleReset | worker/src/poker-room.ts:148-163 | the `forEach` loop clears every vote in place; the method performs `RoomMachine.Reset` |
| PokerRoomActor.PokerRoom.HandleDisconnect | worker/src/poker-room.ts:165-173 | performs `RoomMachine.Disconnect` |
| PokerRoomActor.PokerRoom.HandleMessage | worker/src/poker-room.ts:64-82 | performs `RoomMachine.HandleMessage` |
| Routing.Route | worker/src/index.ts:13-90 | OPTIONS gets the CORS headers before any path check. A room prefix with an empty segment 2 gets 400 `Room ID required`; with a non-empty one, `/room/` reaches the room, `/history/` the history and `/export/` the CSV export of the room named by segment 2. `/health` reaches the health handler. A path matching no prefix and not `/health` gets the 200 informational reply. A handler is reached only with a non-empty segment-2 room id |
| Routing.PrefixesExclusive | worker/src/index.ts:22-58 | a path starts with at most one of `/room/`, `/history/` and `/export/` |
| Routing.RoomSegment | worker/src/index.ts:23 | definition of `split('/')[2]`; Routing.RoomSegmentOf states which segment it picks |
| Routing.IdLeadsRest | worker/src/index.ts:23 | the id is the first segment of `<id><tail>` when the tail is empty or starts with a slash |
| Routing.KindLeadsPath | worker/src/index.ts:23 | `/<kind>/<rest>` splits into an empty segment, the kind, and the segments of the rest |
| Routing.RoomSegmentOf | worker/src/index.ts:23 | segment 2 of `/<kind>/<id><tail>` is `id` |
| Routing.RoomRequestReachesRoom | worker/src/index.ts:22-34 | `/room/<id>...` with a non-empty id reaches the room named `id` |
| Routing.HistoryRequestNamesRoom | worker/src/index.ts:37-55 | `/history/<id>...` is served the history of `id` |
| Routing.ExportRequestNamesRoom | worker/src/index.ts:58-77 | `/export/<id>...` is served the CSV of `id` |
| Routing.EmptyRoomIdRefused | worker/src/index.ts:22-63 | an empty room segment gets 400 under every prefix, before any lookup |
| Routing.RoomNameAgreesWithLastSegment | worker/src/poker-room.ts:21-24 | for `/room/<id>`, the worker's segment 2 and the room's last segment are both `id` |
| Routing.TrailingSlashSplitsRoomName | worker/src/poker-room.ts:21-24 | for `/room/abc/`, the worker's segment 2 is `abc` while the room's last segment is empty |
| History.GetHistory | worker/src/index.ts:93-141 | the loop returns exactly the grouping of the rows, and no rows give the empty list |
| History.VotesOf | worker/src/index.ts:125-128 | definition of the votes query, the votes table's entry for the round id; History.GroupedKeepsRounds states that each round carries them |
| History.RoundOf | worker/src/index.ts:130-136 | definition of the pushed round record; History.GroupedKeepsRounds states that the history holds one per row with a round id, in row order |
| History.NewSession | worker/src/index.ts:115-120 | definition of the opened session record; History.OpensNewSession states when and with which dates it is opened |
| History.Fold | worker/src/index.ts:113 | definition of the `for` loop over the rows on values; History.FoldIsGrouped proves it equal to the run grouping |
| History.Absorb | worker/src/index.ts:114-136 | definition of one loop step on values; History.LoopBodyAbsorbs ties it to the loop body |
| History.OpenSession | worker/src/index.ts:114-122 | the loop body's first `if` opens a session exactly as History.Opened says: a new one, last, for a row whose id differs from the open session's |
| History.PushRound | worker/src/index.ts:124-136 | the loop body's second `if` pushes the row's round onto the open session exactly as History.Pushed says, and only for a row with a round id |
| History.Opened | worker/src/index.ts:114-122 | after the first update of the loop body a session is open |
| History.LoopBodyAbsorbs | worker/src/index.ts:113-138 | opening a session, then pushing a round, is one step of the grouping |
| History.RunLength | worker/src/index.ts:113-122 | a run has between one row and all of them |
| History.RunIsMaximal | worker/src/index.ts:113-122 | every row of the run has the first row's id, and the row after it does not |
| History.Grouped | worker/src/index.ts:113-138 | the grouping has no more sessions than rows, is empty exactly when the rows are, and starts with the first row's session |
| History.FoldAt | worker/src/index.ts:113 | the loop takes the rows one at a time, in order |
| History.SameIdExtends | worker/src/index.ts:124-136 | a row with the open session's id adds its round to that session |
| History.RunAbsorbed | worker/src/index.ts:113-137 | the rows of a run add their rounds to the open session, in order, and open nothing |
| History.OpensNewSession | worker/src/index.ts:114-122 | a row with a new id opens a session dated by that row |
| History.OpenedSessionIsRun | worker/src/index.ts:114-136 | the session opened by a run's first row and filled by its rest is the run's session |
| History.FirstRunOpens | worker/src/index.ts:113-137 | the first run becomes exactly one session |
| History.FoldIsGrouped | worker/src/index.ts:113-138 | the loop appends one session per maximal run of equal ids, in row order, with `created_at` and `completed_at` from the run's first row |
| History.GroupedSessionsDiffer | worker/src/index.ts:113-122 | neighbouring sessions have different ids, so no run is split |
| History.GroupedRounds | worker/src/index.ts:124-136 | the history's rounds are the first run's rounds, then the rest's |
| History.GroupedKeepsRounds | worker/src/index.ts:124-136 | the history's rounds, session by session, are exactly the rows with a round id, in row order, each with its round's votes |
| History.PushVoteLines | worker/src/index.ts:150-154 | the inner loop appends one line per vote of the round, in order |
| History.PushRoundLines | worker/src/index.ts:149-155 | the middle loop appends the lines of every round of the session, in order |
| History.PushSessionLines | worker/src/index.ts:148-156 | the outer loop appends the lines of every session, in order |
| History.CsvFields | worker/src/index.ts:153 | definition of the template's seven fields in column order; History.CsvLineSplits gives them back from the line |
| History.VoteLines | worker/src/index.ts:150-154 | definition of the inner loop's lines; History.PushVoteLines ties the loop to it and History.VoteLinesCount counts them |
| History.RoundLines | worker/src/index.ts:149-155 | definition of the middle loop's lines; History.PushRoundLines ties the loop to it and History.RoundLinesCount counts them |
| History.CsvLine | worker/src/index.ts:152 | definition of a vote's line; History.CsvLineSplits states its fields |
| History.CsvLines | worker/src/index.ts:148-156 | definition of the line list; History.OneLinePerVote and History.ExportHistoryCsv state its count and its use |
| History.ExportHistoryCsv | worker/src/index.ts:143-159 | the export is the fixed header followed by the vote lines in session, round, vote order, joined by newlines |
| History.VoteLinesCount | worker/src/index.ts:150-154 | a round has as many lines as votes |
| History.RoundLinesCount | worker/src/index.ts:149-155 | a session has as many lines as its rounds' votes |
| History.OneLinePerVote | worker/src/index.ts:148-156 | the export has exactly one line per vote of the history |
| History.NoVotesExportsHeader | worker/src/index.ts:146-158 | a history without votes, and so an empty one, exports just the header |
| History.CsvLineSplits | worker/src/index.ts:152 | a vote's line is its seven fields, unquoted, in column order: splitting it on commas gives them back when no field holds a comma |
| History.HeaderHasNoNewline | worker/src/index.ts:146 | the header is a single line |
| History.ExportSplitsIntoLines | worker/src/index.ts:158 | splitting the export on newlines gives the header and the vote lines, with no trailing newline |
| PokerStore.GetItem | frontend/src/stores/poker.ts:71-72 | definition of `getItem`; PokerStore.SetThenGetItem states what it reads back after a write |
| PokerStore.SetThenGetItem | frontend/src/stores/poker.ts:31-39 | after writing a key, reading it gives the written value, and reading any other key gives what it gave before |
| PokerStore.StorageKeysDiffer | frontend/src/stores/poker.ts:33-38 | the room-id and user-name storage keys are different |
| PokerStore.Find | frontend/src/stores/poker.ts:18 | `find` fails exactly when no user has the id; otherwise it gives the first such user |
| PokerStore.MyVote | frontend/src/stores/poker.ts:17-20 | the own vote, when there is one, is non-empty and belongs to a user with the own id |
| PokerStore.AllVoted | frontend/src/stores/poker.ts:22-24 | definition; PokerStore.AllVotedIffFullCount ties it to the counts |
| PokerStore.TotalUsers | frontend/src/stores/poker.ts:26 | definition; PokerStore.FullCountIffEveryoneVoted and PokerStore.VotedCount relate it to `votedCount` |
| PokerStore.VotedCount | frontend/src/stores/poker.ts:26-28 | `votedCount` never exceeds `totalUsers` |
| PokerStore.MyVoteIsFirstMatch | frontend/src/stores/poker.ts:17-20 | `myVote` is the vote of the first user with the own id, or null when that vote is missing or empty |
| PokerStore.MyVoteWhenAbsent | frontend/src/stores/poker.ts:17-20 | without the own id in the roster, `myVote` is null |
| PokerStore.FullCountIffEveryoneVoted | frontend/src/stores/poker.ts:26-28 | `votedCount == totalUsers` exactly when every vote is non-null |
| PokerStore.AllVotedIffFullCount | frontend/src/stores/poker.ts:22-28 | `allVoted` holds exactly when the roster is non-empty and `votedCount == totalUsers` |
| PokerStore.ZeroCountIffNobodyVoted | frontend/src/stores/poker.ts:28 | `votedCount` is 0 exactly when every vote is null |
| PokerStore.Restored | frontend/src/stores/poker.ts:74-75 | definition of one restore step; PokerStore.SavedSessionRestored and PokerStore.PokerStore.LoadFromStorage state its effect |
| PokerStore.SavedSessionRestored | frontend/src/stores/poker.ts:31-76 | after `setRoomId` and `setUserName` in either order, `loadFromStorage` restores each non-empty value |
| PokerStore.PokerStore.constructor | frontend/src/stores/poker.ts:7-14 | the store starts empty, disconnected, hidden, with no stats or error |
| PokerStore.PokerStore.SetRoomId | frontend/src/stores/poker.ts:31-34 | sets the field and the room-id key, and only those; the user-name key is untouched |
| PokerStore.PokerStore.SetUserName | frontend/src/stores/poker.ts:36-39 | sets the field and the user-name key, and only those; the room-id key is untouched |
| PokerStore.PokerStore.SetUserId | frontend/src/stores/poker.ts:41-43 | sets the user id only |
| PokerStore.PokerStore.UpdateUsers | frontend/src/stores/poker.ts:45-47 | replaces the roster wholesale with the given users |
| PokerStore.PokerStore.SetRevealed | frontend/src/stores/poker.ts:49-51 | sets the revealed flag only |
| PokerStore.PokerStore.SetStats | frontend/src/stores/poker.ts:53-55 | sets the stats only |
| PokerStore.PokerStore.SetConnected | frontend/src/stores/poker.ts:57-59 | sets the connected flag only |
| PokerStore.PokerStore.SetError | frontend/src/stores/poker.ts:61-63 | sets the error only |
| PokerStore.PokerStore.Reset | frontend/src/stores/poker.ts:65-68 | hides the round and clears the stats; the roster, room, name, user id, connection and error are untouched |
| PokerStore.PokerStore.LoadFromStorage | frontend/src/stores/poker.ts:70-76 | each field takes its non-empty stored value, and a missing or empty entry leaves it unchanged |

## Left out

- WebSocket plumbing is not modelled: the upgrade pairing, `accept`, the event listeners and `ws.close`. These belong to the runtime. Sockets are opaque numbers, and inbound messages arrive already decoded; text that is not JSON, and the JSON value `null`, arrive as `Undecodable`; any other JSON value without a handled `type` arrives as `Decoded` with kind `Other` and has no effect.
- Exceptions from `ws.send` and from the database are swallowed by the source. The model records every send and insert as made and never failing.
- JSON encoding of the outbound messages is not modelled: a response is a datatype value.
- The vote row's own `crypto.randomUUID()` is not recorded. The round's UUID, the session's UUID and the timestamps are parameters.
- Async interleaving across the `await`s of `handleJoin`, `handleReveal` and `saveRound` is not modelled, and neither is durable-object scheduling. Each handler is atomic.
- Floating point (`Math.round` on doubles, `parseInt`, `NaN`) is not modelled. The average is exact integer tenths rounded half up, and the median is an exact real.
- VoteStats.CalculateStats requires every counted vote to be a string of decimal digits. The source also accepts other cards, such as T-shirt sizes, where `parseInt` gives `NaN` or reads a numeric prefix; those cases are not modelled.
- RoomMachine.Reveal: the same digit-string requirement applies to the votes of a round being revealed.
- RoomMachine.HandleMessage: the same digit-string requirement applies through `CanHandle`; `RoomTraces` requires it of every vote in a run.
- PokerRoomActor.PokerRoom.HandleReveal and PokerRoomActor.PokerRoom.HandleMessage: the same digit-string requirement applies.
- Routing.Route names the handler a request goes to. It does not build that handler's response: the JSON body and headers of `/history/`, the CSV attachment headers of `/export/`, the 500 replies on database failure, and the timestamped `/health` JSON.
- The SQL of `getHistory` is not modelled, including its filtering by room and its ordering. The rows are an input in query order, votes come from a table indexed by round id, and numeric columns are carried as the text the CSV template renders.
- The shared `currentSession` object that `getHistory` mutates through the `history` array is modelled by replacing the last session of the sequence.
- Fields that hold a comma or a newline break the CSV's line and field structure. The round-trip lemmas state their results only when no field holds one.
- PokerRoomActor.PokerRoom.Fetch models no response body ("Expected WebSocket"), only the status code and the room id.
- localStorage quota errors and other tabs are not modelled, and the store's Vue reactivity is not modelled. `updateUsers`'s copy is the new sequence value.
- The other frontend files (composables, utilities, router, configuration) are not part of this model: they hold network, timer, DOM and configuration code.
