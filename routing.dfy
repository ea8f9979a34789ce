/**
 * The worker's request routing (`fetch` in worker/src/index.ts): a preflight answer,
 * three `/<kind>/<roomId>` prefixes, a health check and an informational fallback.
 */
module Routing {
  import opened Wrappers
  import opened Text

  type Headers = seq<(string, string)>

  const CorsHeaders: Headers := [
    ("Access-Control-Allow-Origin", "*"),
    ("Access-Control-Allow-Methods", "GET, POST, OPTIONS"),
    ("Access-Control-Allow-Headers", "Content-Type, Upgrade, Connection")
  ]

  const RoomIdRequired: string := "Room ID required"
  const ApiInfo: string := "Poker Planning API - Use /room/{id} for WebSocket connection"

  const RoomPrefix: string := "/room/"
  const HistoryPrefix: string := "/history/"
  const ExportPrefix: string := "/export/"
  const HealthPath: string := "/health"

  /** Where a request goes: a reply built here, or the handler that builds it. */
  datatype Outcome =
    | Reply(status: nat, body: Option<string>, headers: Headers)
    | ToRoom(roomId: string)
    | ToHistory(roomId: string)
    | ToExport(roomId: string)
    | ToHealth

  /** `url.pathname.split('/')[2]`, with a missing segment as "" (both are falsy). */
  function RoomSegment(path: string): string
  {
    var parts := Split(path, '/');
    if |parts| > 2 then parts[2] else ""
  }

  predicate HasRoomPrefix(path: string)
  {
    RoomPrefix <= path || HistoryPrefix <= path || ExportPrefix <= path
  }

  /** A path starts with at most one of the three room prefixes: they differ at their second character. */
  lemma PrefixesExclusive(path: string)
    ensures RoomPrefix <= path ==> !(HistoryPrefix <= path) && !(ExportPrefix <= path)
    ensures HistoryPrefix <= path ==> !(ExportPrefix <= path)
  {
    if RoomPrefix <= path { assert path[1] == RoomPrefix[1] == 'r'; }
    if HistoryPrefix <= path { assert path[1] == HistoryPrefix[1] == 'h'; }
  }

  /** The routing decision of `fetch`. */
  function Route(verb: string, path: string): (o: Outcome)
    ensures verb == "OPTIONS" ==> o == Reply(200, None, CorsHeaders)
    ensures verb != "OPTIONS" && HasRoomPrefix(path) && RoomSegment(path) == "" ==>
      o == Reply(400, Some(RoomIdRequired), [])
    ensures verb != "OPTIONS" && RoomPrefix <= path && RoomSegment(path) != "" ==> o == ToRoom(RoomSegment(path))
    ensures verb != "OPTIONS" && HistoryPrefix <= path && RoomSegment(path) != "" ==> o == ToHistory(RoomSegment(path))
    ensures verb != "OPTIONS" && ExportPrefix <= path && RoomSegment(path) != "" ==> o == ToExport(RoomSegment(path))
    ensures verb != "OPTIONS" && path == HealthPath ==> o == ToHealth
    ensures verb != "OPTIONS" && !HasRoomPrefix(path) && path != HealthPath ==>
      o == Reply(200, Some(ApiInfo), CorsHeaders)
    ensures o.ToRoom? || o.ToHistory? || o.ToExport? ==>
      verb != "OPTIONS" && o.roomId == RoomSegment(path) && o.roomId != ""
  {
    PrefixesExclusive(path);
    if verb == "OPTIONS" then Reply(200, None, CorsHeaders)
    else if RoomPrefix <= path then
      if RoomSegment(path) == "" then Reply(400, Some(RoomIdRequired), []) else ToRoom(RoomSegment(path))
    else if HistoryPrefix <= path then
      if RoomSegment(path) == "" then Reply(400, Some(RoomIdRequired), []) else ToHistory(RoomSegment(path))
    else if ExportPrefix <= path then
      if RoomSegment(path) == "" then Reply(400, Some(RoomIdRequired), []) else ToExport(RoomSegment(path))
    else if path == HealthPath then ToHealth
    else Reply(200, Some(ApiInfo), CorsHeaders)
  }

  /** The id is the first segment of `<id><tail>` when the tail is empty or starts with a slash. */
  lemma IdLeadsRest(id: string, tail: string)
    requires '/' !in id
    requires tail == "" || tail[0] == '/'
    ensures Split(id + tail, '/')[0] == id
  {
    SplitAfterPiece(id, tail, '/');
    if tail != "" {
      assert tail == ['/'] + tail[1..];
      SplitAtSeparator(tail[1..], '/');
    }
  }

  /** `/<kind>/<rest>` splits into "", `kind` and the segments of `rest`. */
  lemma KindLeadsPath(kind: string, rest: string)
    requires '/' !in kind
    ensures Split(['/'] + (kind + ['/'] + rest), '/') == ["", kind] + Split(rest, '/')
  {
    SplitAtSeparator(kind + ['/'] + rest, '/');
    SplitAround(kind, rest, '/');
    SplitOfPiece(kind, '/');
  }

  /** Concatenation regrouped to the shape the two lemmas above take. */
  lemma PathRegrouped(kind: string, id: string, tail: string)
    ensures "/" + kind + "/" + id + tail == ['/'] + (kind + ['/'] + (id + tail))
  {
  }

  /**
   * Segment 2 of `/<kind>/<id><tail>` is `id` when the tail is empty or starts a new
   * segment: the room id ends at the next slash.
   */
  lemma RoomSegmentOf(kind: string, id: string, tail: string)
    requires '/' !in kind && '/' !in id
    requires tail == "" || tail[0] == '/'
    ensures RoomSegment("/" + kind + "/" + id + tail) == id
  {
    PathRegrouped(kind, id, tail);
    KindLeadsPath(kind, id + tail);
    IdLeadsRest(id, tail);
  }

  /** A request for `/room/<id>...` with a non-empty id reaches the room named `id`. */
  lemma RoomRequestReachesRoom(verb: string, id: string, tail: string)
    requires verb != "OPTIONS" && id != "" && '/' !in id
    requires tail == "" || tail[0] == '/'
    ensures Route(verb, RoomPrefix + id + tail) == ToRoom(id)
  {
    RoomSegmentOf("room", id, tail);
    assert "/" + "room" + "/" + id + tail == RoomPrefix + id + tail;
  }

  /** A request for `/history/<id>...` with a non-empty id is served the history of `id`. */
  lemma HistoryRequestNamesRoom(verb: string, id: string, tail: string)
    requires verb != "OPTIONS" && id != "" && '/' !in id
    requires tail == "" || tail[0] == '/'
    ensures Route(verb, HistoryPrefix + id + tail) == ToHistory(id)
  {
    RoomSegmentOf("history", id, tail);
    assert "/" + "history" + "/" + id + tail == HistoryPrefix + id + tail;
    assert !(RoomPrefix <= HistoryPrefix + id + tail) by {
      assert (HistoryPrefix + id + tail)[1] == 'h';
    }
  }

  /** A request for `/export/<id>...` with a non-empty id is served the CSV of `id`. */
  lemma ExportRequestNamesRoom(verb: string, id: string, tail: string)
    requires verb != "OPTIONS" && id != "" && '/' !in id
    requires tail == "" || tail[0] == '/'
    ensures Route(verb, ExportPrefix + id + tail) == ToExport(id)
  {
    RoomSegmentOf("export", id, tail);
    assert "/" + "export" + "/" + id + tail == ExportPrefix + id + tail;
    assert (ExportPrefix + id + tail)[1] == 'e';
  }

  /** An empty room segment is refused before any room is looked up, under every prefix. */
  lemma EmptyRoomIdRefused(verb: string, kind: string, tail: string)
    requires verb != "OPTIONS" && (kind == "room" || kind == "history" || kind == "export")
    requires tail == "" || tail[0] == '/'
    ensures Route(verb, "/" + kind + "/" + tail) == Reply(400, Some(RoomIdRequired), [])
  {
    RoomSegmentOf(kind, "", tail);
    var path := "/" + kind + "/" + tail;
    assert path == "/" + kind + "/" + "" + tail;
    assert path[..|kind| + 2] == "/" + kind + "/";
  }

  /**
   * For a plain room path the worker and the room agree on the name: segment 2, which
   * picks the room, is also the last segment, which the room records as its id.
   */
  lemma RoomNameAgreesWithLastSegment(id: string)
    requires '/' !in id
    ensures RoomSegment(RoomPrefix + id) == LastPiece(RoomPrefix + id, '/') == id
  {
    RoomSegmentOf("room", id, "");
    assert "/" + "room" + "/" + id + "" == RoomPrefix + id;
    assert RoomPrefix + id == "/room" + ['/'] + id;
    LastPieceAfterSeparator("/room", id, '/');
  }

  /**
   * With a trailing slash the two readings part: the worker routes `/room/abc/` to the
   * room `abc`, while that room's last path segment, which it records as its id, is empty.
   */
  lemma TrailingSlashSplitsRoomName()
    ensures RoomSegment("/room/abc/") == "abc"
    ensures LastPiece("/room/abc/", '/') == ""
  {
    RoomSegmentOf("room", "abc", "/");
    assert "/" + "room" + "/" + "abc" + "/" == "/room/abc/";
    LastPieceAfterSeparator("/room/abc", "", '/');
    assert "/room/abc" + ['/'] + "" == "/room/abc/";
  }
}
