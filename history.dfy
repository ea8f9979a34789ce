/**
 * The room history of the worker (worker/src/index.ts): `getHistory` groups the rows of
 * the sessions-rounds join into sessions holding their rounds, and `exportHistoryCSV`
 * flattens that history to one CSV line per vote. The query result is an input sequence
 * of rows and the per-round vote query is a table from round id to votes.
 */
module History {
  import opened Wrappers
  import opened Text

  /**
   * One row of the join, sessions newest first and rounds by number within a session.
   * A session without rounds gives one row with no round id. Numeric columns are held
   * as the text a template literal renders for them.
   */
  datatype Row = Row(id: string, createdAt: string, completedAt: Option<string>, roundId: Option<string>,
                     roundNumber: string, revealedAt: string, average: string, median: string)

  /** One row of the votes query. */
  datatype VoteEntry = VoteEntry(userName: string, vote: string)

  datatype RoundHistory = RoundHistory(roundNumber: string, revealedAt: string, average: string,
                                       median: string, votes: seq<VoteEntry>)

  datatype SessionHistory = SessionHistory(id: string, createdAt: string, completedAt: Option<string>,
                                           rounds: seq<RoundHistory>)

  /** The votes table, by round id. */
  type VoteTable = map<string, seq<VoteEntry>>

  /** `SELECT user_name, vote FROM votes WHERE round_id = ?`. */
  function VotesOf(db: VoteTable, roundId: string): seq<VoteEntry>
  {
    if roundId in db then db[roundId] else []
  }

  function RoundOf(row: Row, db: VoteTable): RoundHistory
    requires Truthy(row.roundId)
  {
    RoundHistory(row.roundNumber, row.revealedAt, row.average, row.median, VotesOf(db, row.roundId.value))
  }

  function NewSession(row: Row): SessionHistory
  {
    SessionHistory(row.id, row.createdAt, row.completedAt, [])
  }

  /** The round a row contributes: one when it carries a round id, none otherwise. */
  function RowRounds(row: Row, db: VoteTable): seq<RoundHistory>
  {
    if Truthy(row.roundId) then [RoundOf(row, db)] else []
  }

  /**
   * One pass of the loop body: a row whose id differs from the open session's opens a
   * new session; either way the row's round goes to the open session.
   */
  function Absorb(h: seq<SessionHistory>, row: Row, db: VoteTable): seq<SessionHistory>
  {
    if h == [] || h[|h| - 1].id != row.id then h + [NewSession(row).(rounds := RowRounds(row, db))]
    else h[..|h| - 1] + [h[|h| - 1].(rounds := h[|h| - 1].rounds + RowRounds(row, db))]
  }

  /** The loop over the rows, from a partial history. */
  function Fold(h: seq<SessionHistory>, rows: seq<Row>, db: VoteTable): seq<SessionHistory>
    decreases |rows|
  {
    if rows == [] then h else Fold(Absorb(h, rows[0], db), rows[1..], db)
  }

  /** `getHistory`. */
  method GetHistory(rows: seq<Row>, db: VoteTable) returns (history: seq<SessionHistory>)
    ensures history == Grouped(rows, db)
  {
    if |rows| == 0 {
      return [];
    }
    history := [];
    var i := 0;
    while i < |rows|
      invariant 0 <= i <= |rows|
      invariant Fold(history, rows[i..], db) == Fold([], rows, db)
    {
      var row := rows[i];
      ghost var before := history;
      history := OpenSession(history, row);
      history := PushRound(history, row, db);
      LoopBodyAbsorbs(before, row, db);
      FoldAt(before, rows, i, db);
      i := i + 1;
    }
    FoldIsGrouped([], rows, db);
  }

  /** The loop body's first update, in place of the source's reassignment of `currentSession`. */
  method OpenSession(history: seq<SessionHistory>, row: Row) returns (h: seq<SessionHistory>)
    ensures h == Opened(history, row)
  {
    h := history;
    if h == [] || h[|h| - 1].id != row.id {
      h := h + [NewSession(row)];
    }
  }

  /** The loop body's second update: `currentSession.rounds.push(...)` on the open session. */
  method PushRound(history: seq<SessionHistory>, row: Row, db: VoteTable) returns (h: seq<SessionHistory>)
    requires history != []
    ensures h == Pushed(history, row, db)
  {
    h := history;
    if Truthy(row.roundId) {
      var current := h[|h| - 1];
      h := h[..|h| - 1] + [current.(rounds := current.rounds + [RoundOf(row, db)])];
    }
  }

  /** The first update of the loop body: a row with a new id opens a session. */
  function Opened(h: seq<SessionHistory>, row: Row): (h': seq<SessionHistory>)
    ensures h' != []
  {
    if h == [] || h[|h| - 1].id != row.id then h + [NewSession(row)] else h
  }

  /** The second update: a row with a round id pushes its round onto the open session. */
  function Pushed(h: seq<SessionHistory>, row: Row, db: VoteTable): seq<SessionHistory>
    requires h != []
  {
    if Truthy(row.roundId)
    then h[..|h| - 1] + [h[|h| - 1].(rounds := h[|h| - 1].rounds + [RoundOf(row, db)])]
    else h
  }

  /** The two updates of the loop body, opening a session and pushing a round, make one `Absorb`. */
  lemma LoopBodyAbsorbs(h: seq<SessionHistory>, row: Row, db: VoteTable)
    ensures Absorb(h, row, db) == Pushed(Opened(h, row), row, db)
  {
    if h == [] || h[|h| - 1].id != row.id {
      assert (h + [NewSession(row)])[..|h|] == h;
      if Truthy(row.roundId) {
        assert [] + [RoundOf(row, db)] == [RoundOf(row, db)];
      }
    } else {
      assert h == h[..|h| - 1] + [h[|h| - 1]];
      assert h[|h| - 1].rounds + [] == h[|h| - 1].rounds;
    }
  }

  /** The rounds of the rows that carry a round, in row order. */
  function RoundsOf(rows: seq<Row>, db: VoteTable): seq<RoundHistory>
  {
    if rows == [] then []
    else RowRounds(rows[0], db) + RoundsOf(rows[1..], db)
  }

  /** The length of the maximal run of rows that share the first row's id. */
  function RunLength(rows: seq<Row>): (k: nat)
    requires rows != []
    ensures 1 <= k <= |rows|
  {
    if |rows| == 1 || rows[1].id != rows[0].id then 1 else 1 + RunLength(rows[1..])
  }

  /** `RunLength` measures a maximal run: every row in it has the first id, the row after it does not. */
  lemma {:induction false} RunIsMaximal(rows: seq<Row>)
    requires rows != []
    ensures forall i :: 0 <= i < RunLength(rows) ==> rows[i].id == rows[0].id
    ensures RunLength(rows) < |rows| ==> rows[RunLength(rows)].id != rows[0].id
  {
    if !(|rows| == 1 || rows[1].id != rows[0].id) {
      var tail := rows[1..];
      RunIsMaximal(tail);
      forall i | 0 <= i < RunLength(rows) ensures rows[i].id == rows[0].id {
        if i > 0 { assert rows[i] == tail[i - 1]; }
      }
      if RunLength(rows) < |rows| {
        assert rows[RunLength(rows)] == tail[RunLength(tail)];
      }
    }
  }

  /** The session a run of rows describes: named and dated by its first row, with the run's rounds. */
  function SessionOf(run: seq<Row>, db: VoteTable): SessionHistory
    requires run != []
  {
    SessionHistory(run[0].id, run[0].createdAt, run[0].completedAt, RoundsOf(run, db))
  }

  /** The history by definition: one session per maximal run of equal ids, in row order. */
  function Grouped(rows: seq<Row>, db: VoteTable): (g: seq<SessionHistory>)
    ensures |g| <= |rows|
    ensures g == [] <==> rows == []
    ensures g != [] ==> g[0].id == rows[0].id
    decreases |rows|
  {
    if rows == [] then []
    else
      var k := RunLength(rows);
      [SessionOf(rows[..k], db)] + Grouped(rows[k..], db)
  }

  /** One step of the loop. */
  lemma FoldStep(h: seq<SessionHistory>, rows: seq<Row>, db: VoteTable)
    requires rows != []
    ensures Fold(h, rows, db) == Fold(Absorb(h, rows[0], db), rows[1..], db)
  {
  }

  /** One step of the loop, at position `i` of the rows. */
  lemma FoldAt(h: seq<SessionHistory>, rows: seq<Row>, i: nat, db: VoteTable)
    requires i < |rows|
    ensures Fold(h, rows[i..], db) == Fold(Absorb(h, rows[i], db), rows[i + 1..], db)
  {
    assert rows[i..][0] == rows[i] && rows[i..][1..] == rows[i + 1..];
    FoldStep(h, rows[i..], db);
  }

  /** A row with the open session's id adds its round to that session. */
  lemma SameIdExtends(h: seq<SessionHistory>, s: SessionHistory, run: seq<Row>, rest: seq<Row>, db: VoteTable)
    requires run != [] && run[0].id == s.id
    ensures Fold(h + [s], run + rest, db)
      == Fold(h + [s.(rounds := s.rounds + RowRounds(run[0], db))], run[1..] + rest, db)
  {
    assert (run + rest)[0] == run[0] && (run + rest)[1..] == run[1..] + rest;
    assert (h + [s])[..|h|] == h && (h + [s])[|h|] == s;
    FoldStep(h + [s], run + rest, db);
  }

  /** Rows sharing the open session's id add their rounds to it and open nothing. */
  lemma {:induction false} RunAbsorbed(h: seq<SessionHistory>, s: SessionHistory, run: seq<Row>, rest: seq<Row>,
                                       db: VoteTable)
    requires forall i :: 0 <= i < |run| ==> run[i].id == s.id
    ensures Fold(h + [s], run + rest, db) == Fold(h + [s.(rounds := s.rounds + RoundsOf(run, db))], rest, db)
    decreases |run|
  {
    if run == [] {
      assert run + rest == rest;
      assert s.(rounds := s.rounds + []) == s;
    } else {
      var b, c := RowRounds(run[0], db), RoundsOf(run[1..], db);
      var s1 := s.(rounds := s.rounds + b);
      SameIdExtends(h, s, run, rest, db);
      assert forall i :: 0 <= i < |run[1..]| ==> run[1..][i].id == s1.id by {
        forall i | 0 <= i < |run[1..]| ensures run[1..][i].id == s1.id { assert run[1..][i] == run[i + 1]; }
      }
      RunAbsorbed(h, s1, run[1..], rest, db);
      assert RoundsOf(run, db) == b + c;
      AppendAssoc(s.rounds, b, c);
    }
  }

  /** Cutting a sequence after its head and again at `k`. */
  lemma SliceAfterHead<T>(s: seq<T>, k: nat)
    requires 1 <= k <= |s|
    ensures s[1..] == s[1..k] + s[k..]
  {
  }

  /** The rows after the first one of a run share its id. */
  lemma RunTail(rows: seq<Row>, k: nat)
    requires rows != [] && k == RunLength(rows)
    ensures forall i :: 0 <= i < k - 1 ==> rows[1..k][i].id == rows[0].id
  {
    RunIsMaximal(rows);
    forall i | 0 <= i < k - 1 ensures rows[1..k][i].id == rows[0].id { assert rows[1..k][i] == rows[i + 1]; }
  }

  /** The session the first row opens, filled with the rounds of the rest of its run, is the run's session. */
  lemma OpenedSessionIsRun(rows: seq<Row>, db: VoteTable)
    requires rows != []
    ensures var k := RunLength(rows);
      var s1 := NewSession(rows[0]).(rounds := RowRounds(rows[0], db));
      s1.(rounds := s1.rounds + RoundsOf(rows[1..k], db)) == SessionOf(rows[..k], db)
  {
    var k := RunLength(rows);
    assert rows[..k][0] == rows[0] && rows[..k][1..] == rows[1..k];
    assert RoundsOf(rows[..k], db) == RowRounds(rows[0], db) + RoundsOf(rows[1..k], db);
    assert [] + RowRounds(rows[0], db) == RowRounds(rows[0], db);
  }

  /** A row whose id differs from the open session's opens a new session. */
  lemma OpensNewSession(h: seq<SessionHistory>, row: Row, db: VoteTable)
    requires h == [] || h[|h| - 1].id != row.id
    ensures Absorb(h, row, db) == h + [NewSession(row).(rounds := RowRounds(row, db))]
  {
  }

  /** The first row opens a session, and the rest of its run fills it. */
  lemma FirstRunOpens(h: seq<SessionHistory>, rows: seq<Row>, db: VoteTable)
    requires rows != [] && (h == [] || h[|h| - 1].id != rows[0].id)
    ensures Fold(h, rows, db) == Fold(h + [SessionOf(rows[..RunLength(rows)], db)], rows[RunLength(rows)..], db)
  {
    var k := RunLength(rows);
    var s1 := NewSession(rows[0]).(rounds := RowRounds(rows[0], db));
    FoldStep(h, rows, db);
    OpensNewSession(h, rows[0], db);
    RunTail(rows, k);
    assert s1.id == rows[0].id;
    SliceAfterHead(rows, k);
    RunAbsorbed(h, s1, rows[1..k], rows[k..], db);
    OpenedSessionIsRun(rows, db);
  }

  /** The loop, started on a history whose open session (if any) differs from the first row, appends the grouping. */
  lemma {:induction false} FoldIsGrouped(h: seq<SessionHistory>, rows: seq<Row>, db: VoteTable)
    requires h == [] || rows == [] || h[|h| - 1].id != rows[0].id
    ensures Fold(h, rows, db) == h + Grouped(rows, db)
    decreases |rows|
  {
    if rows == [] {
      assert h + [] == h;
    } else {
      var k := RunLength(rows);
      var run := SessionOf(rows[..k], db);
      FirstRunOpens(h, rows, db);
      RunIsMaximal(rows);
      assert (h + [run])[|h + [run]| - 1] == run;
      FoldIsGrouped(h + [run], rows[k..], db);
      GroupedRun(rows, db);
      AppendAssoc(h, [run], Grouped(rows[k..], db));
    }
  }

  lemma GroupedRun(rows: seq<Row>, db: VoteTable)
    requires rows != []
    ensures Grouped(rows, db) == [SessionOf(rows[..RunLength(rows)], db)] + Grouped(rows[RunLength(rows)..], db)
  {
  }

  lemma AppendAssoc<T>(a: seq<T>, b: seq<T>, c: seq<T>)
    ensures a + b + c == a + (b + c)
  {
  }

  /** Neighbouring sessions of the history have different ids: no run is split in two. */
  lemma {:induction false} GroupedSessionsDiffer(rows: seq<Row>, db: VoteTable)
    ensures forall j :: 0 <= j < |Grouped(rows, db)| - 1 ==> Grouped(rows, db)[j].id != Grouped(rows, db)[j + 1].id
    decreases |rows|
  {
    if rows != [] {
      var k := RunLength(rows);
      RunIsMaximal(rows);
      GroupedSessionsDiffer(rows[k..], db);
      var g := Grouped(rows, db);
      GroupedRun(rows, db);
      forall j | 0 <= j < |g| - 1
        ensures g[j].id != g[j + 1].id
      {
        if j > 0 {
          assert g[j] == Grouped(rows[k..], db)[j - 1] && g[j + 1] == Grouped(rows[k..], db)[j];
        }
      }
    }
  }

  lemma {:induction false} RoundsOfConcat(a: seq<Row>, b: seq<Row>, db: VoteTable)
    ensures RoundsOf(a + b, db) == RoundsOf(a, db) + RoundsOf(b, db)
    decreases |a|
  {
    if a == [] {
      assert a + b == b;
    } else {
      assert (a + b)[1..] == a[1..] + b && (a + b)[0] == a[0];
      RoundsOfConcat(a[1..], b, db);
      AppendAssoc(RowRounds(a[0], db), RoundsOf(a[1..], db), RoundsOf(b, db));
    }
  }

  /** All rounds of a history, session by session. */
  function AllRounds(h: seq<SessionHistory>): seq<RoundHistory>
  {
    if h == [] then [] else h[0].rounds + AllRounds(h[1..])
  }

  /** The rounds of the grouping are those of the first run, then those of the rest. */
  lemma GroupedRounds(rows: seq<Row>, db: VoteTable)
    requires rows != []
    ensures AllRounds(Grouped(rows, db))
      == RoundsOf(rows[..RunLength(rows)], db) + AllRounds(Grouped(rows[RunLength(rows)..], db))
  {
    var k := RunLength(rows);
    var g, tail := Grouped(rows, db), Grouped(rows[k..], db);
    GroupedRun(rows, db);
    assert g[0] == SessionOf(rows[..k], db) && g[1..] == tail;
  }

  /**
   * Grouping loses and reorders no round: the history's rounds, session by session,
   * are exactly the rows that carry a round id, in row order.
   */
  lemma {:induction false} GroupedKeepsRounds(rows: seq<Row>, db: VoteTable)
    ensures AllRounds(Grouped(rows, db)) == RoundsOf(rows, db)
    decreases |rows|
  {
    if rows != [] {
      var k := RunLength(rows);
      var run, rest := rows[..k], rows[k..];
      assert run + rest == rows;
      calc {
        AllRounds(Grouped(rows, db));
        == { GroupedRounds(rows, db); }
        RoundsOf(run, db) + AllRounds(Grouped(rest, db));
        == { GroupedKeepsRounds(rest, db); }
        RoundsOf(run, db) + RoundsOf(rest, db);
        == { RoundsOfConcat(run, rest, db); }
        RoundsOf(rows, db);
      }
    }
  }

  /** The column names of the export, in order. */
  const CsvColumns: seq<string> := ["Timestamp", "Session", "Round", "User", "Vote", "Average", "Median"]

  /** The first line of the export: the column names joined by commas. */
  const CsvHeader: string := Join(CsvColumns, ',')

  /** The seven fields of a vote's line, in column order. */
  function CsvFields(s: SessionHistory, r: RoundHistory, v: VoteEntry): seq<string>
  {
    [r.revealedAt, s.id, r.roundNumber, v.userName, v.vote, r.average, r.median]
  }

  /** The line the template literal renders for one vote: its seven fields with a comma between each two. */
  function CsvLine(s: SessionHistory, r: RoundHistory, v: VoteEntry): string
  {
    Join(CsvFields(s, r, v), ',')
  }

  /** The lines of some votes of a round, in vote order. */
  function VoteLines(s: SessionHistory, r: RoundHistory, votes: seq<VoteEntry>): seq<string>
  {
    if votes == [] then []
    else VoteLines(s, r, votes[..|votes| - 1]) + [CsvLine(s, r, votes[|votes| - 1])]
  }

  /** The lines of some rounds of a session, round by round. */
  function RoundLines(s: SessionHistory, rounds: seq<RoundHistory>): seq<string>
  {
    if rounds == [] then []
    else
      var r := rounds[|rounds| - 1];
      RoundLines(s, rounds[..|rounds| - 1]) + VoteLines(s, r, r.votes)
  }

  /** The lines of a history, session by session. */
  function CsvLines(h: seq<SessionHistory>): seq<string>
  {
    if h == [] then []
    else
      var s := h[|h| - 1];
      CsvLines(h[..|h| - 1]) + RoundLines(s, s.rounds)
  }

  /** The innermost loop of `exportHistoryCSV`: one line per vote of a round. */
  method PushVoteLines(lines: seq<string>, session: SessionHistory, round: RoundHistory)
    returns (lines': seq<string>)
    ensures lines' == lines + VoteLines(session, round, round.votes)
  {
    lines' := lines;
    var k := 0;
    while k < |round.votes|
      invariant 0 <= k <= |round.votes|
      invariant lines' == lines + VoteLines(session, round, round.votes[..k])
    {
      assert round.votes[..k + 1][..k] == round.votes[..k];
      lines' := lines' + [CsvLine(session, round, round.votes[k])];
      k := k + 1;
    }
    assert round.votes[..k] == round.votes;
  }

  /** The middle loop of `exportHistoryCSV`: the lines of a session, round by round. */
  method PushRoundLines(lines: seq<string>, session: SessionHistory) returns (lines': seq<string>)
    ensures lines' == lines + RoundLines(session, session.rounds)
  {
    lines' := lines;
    var j := 0;
    while j < |session.rounds|
      invariant 0 <= j <= |session.rounds|
      invariant lines' == lines + RoundLines(session, session.rounds[..j])
    {
      var round := session.rounds[j];
      assert session.rounds[..j + 1][..j] == session.rounds[..j];
      lines' := PushVoteLines(lines', session, round);
      j := j + 1;
    }
    assert session.rounds[..j] == session.rounds;
  }

  /** The outer loop of `exportHistoryCSV`: the lines of a history, session by session. */
  method PushSessionLines(lines: seq<string>, history: seq<SessionHistory>) returns (lines': seq<string>)
    ensures lines' == lines + CsvLines(history)
  {
    lines' := lines;
    var i := 0;
    while i < |history|
      invariant 0 <= i <= |history|
      invariant lines' == lines + CsvLines(history[..i])
    {
      assert history[..i + 1][..i] == history[..i];
      lines' := PushRoundLines(lines', history[i]);
      i := i + 1;
    }
    assert history[..i] == history;
  }

  /** `exportHistoryCSV`: the header, then the loops over sessions, rounds and votes, joined by newlines. */
  method ExportHistoryCsv(rows: seq<Row>, db: VoteTable) returns (csv: string)
    ensures csv == Join([CsvHeader] + CsvLines(Grouped(rows, db)), '\n')
  {
    var history := GetHistory(rows, db);
    var lines := PushSessionLines([CsvHeader], history);
    csv := Join(lines, '\n');
  }

  /** How many votes a history holds. */
  function VoteCount(h: seq<SessionHistory>): nat
  {
    if h == [] then 0 else VoteCount(h[..|h| - 1]) + RoundVoteCount(h[|h| - 1].rounds)
  }

  function RoundVoteCount(rounds: seq<RoundHistory>): nat
  {
    if rounds == [] then 0 else RoundVoteCount(rounds[..|rounds| - 1]) + |rounds[|rounds| - 1].votes|
  }

  lemma {:induction false} VoteLinesCount(s: SessionHistory, r: RoundHistory, votes: seq<VoteEntry>)
    ensures |VoteLines(s, r, votes)| == |votes|
    decreases |votes|
  {
    if votes != [] {
      VoteLinesCount(s, r, votes[..|votes| - 1]);
    }
  }

  lemma {:induction false} RoundLinesCount(s: SessionHistory, rounds: seq<RoundHistory>)
    ensures |RoundLines(s, rounds)| == RoundVoteCount(rounds)
    decreases |rounds|
  {
    if rounds != [] {
      RoundLinesCount(s, rounds[..|rounds| - 1]);
      VoteLinesCount(s, rounds[|rounds| - 1], rounds[|rounds| - 1].votes);
    }
  }

  /** One CSV line per vote: the export has a line for every vote of the history and no other. */
  lemma {:induction false} OneLinePerVote(h: seq<SessionHistory>)
    ensures |CsvLines(h)| == VoteCount(h)
    decreases |h|
  {
    if h != [] {
      OneLinePerVote(h[..|h| - 1]);
      RoundLinesCount(h[|h| - 1], h[|h| - 1].rounds);
    }
  }

  /** A history without votes, and in particular an empty one, exports the header alone. */
  lemma NoVotesExportsHeader(h: seq<SessionHistory>)
    requires VoteCount(h) == 0
    ensures Join([CsvHeader] + CsvLines(h), '\n') == CsvHeader
  {
    OneLinePerVote(h);
    assert [CsvHeader] + CsvLines(h) == [CsvHeader];
  }

  /** A line splits back into its seven fields when no field holds a comma. */
  lemma CsvLineSplits(s: SessionHistory, r: RoundHistory, v: VoteEntry)
    requires forall i :: 0 <= i < 7 ==> ',' !in CsvFields(s, r, v)[i]
    ensures Split(CsvLine(s, r, v), ',') == CsvFields(s, r, v)
    ensures |Split(CsvLine(s, r, v), ',')| == |CsvColumns|
  {
    SplitJoin(CsvFields(s, r, v), ',');
  }

  lemma HeaderHasNoNewline()
    ensures '\n' !in CsvHeader
  {
    assert forall i :: 0 <= i < |CsvColumns| ==> '\n' !in CsvColumns[i];
    JoinAvoids(CsvColumns, ',', '\n');
  }

  /**
   * With no newline in any line, splitting the export on newlines gives back the header
   * and the vote lines: there is no blank line and no trailing newline.
   */
  lemma ExportSplitsIntoLines(h: seq<SessionHistory>)
    requires forall i :: 0 <= i < |CsvLines(h)| ==> '\n' !in CsvLines(h)[i]
    ensures Split(Join([CsvHeader] + CsvLines(h), '\n'), '\n') == [CsvHeader] + CsvLines(h)
  {
    var body := CsvLines(h);
    var lines := [CsvHeader] + body;
    HeaderHasNoNewline();
    assert forall i :: 0 <= i < |lines| ==> '\n' !in lines[i] by {
      forall i | 0 <= i < |lines| ensures '\n' !in lines[i] {
        if i > 0 { assert lines[i] == body[i - 1]; }
      }
    }
    SplitJoin(lines, '\n');
  }
}
