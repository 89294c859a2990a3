/**
 The stored rows of a copilot session as every reader sees them: sorted by `created_at`, the
 start of the transaction that wrote the row and not the moment it was stored.
 */
module TurnHistory {
  import opened CopilotHistory

  datatype Row = Row(turn: nat, role: Role, created: nat)

  /** Strict alternation, beginning with the user. */
  predicate Alternating(rows: seq<Row>) {
    forall k :: 0 <= k < |rows| ==> rows[k].role == if k % 2 == 0 then User else Assistant
  }

  /** All rows were written by transactions that began before the stamp. */
  predicate Above(rows: seq<Row>, stamp: nat) {
    forall k :: 0 <= k < |rows| ==> rows[k].created < stamp
  }

  /** The transaction of each reply began behind those of all rows stored before it. */
  predicate RepliesOnTop(rows: seq<Row>) {
    forall j, k :: 0 <= j < k < |rows| && rows[k].role == Assistant ==> rows[j].created < rows[k].created
  }

  /** The transaction of each user row began behind that of the reply stored before it. */
  predicate UsersBehind(rows: seq<Row>) {
    forall k :: 0 < k < |rows| && rows[k].role == User ==> rows[k - 1].created < rows[k].created
  }

  predicate SortedByStart(rows: seq<Row>) {
    forall j, k :: 0 <= j < k < |rows| ==> rows[j].created <= rows[k].created
  }

  /** What ORDER BY created_at may return: rows of one stamp come in any order. */
  ghost predicate IsReading(history: seq<Row>, rows: seq<Row>) {
    multiset(history) == multiset(rows) && SortedByStart(history)
  }

  ghost predicate AlternatesAsRead(rows: seq<Row>) {
    forall history :: IsReading(history, rows) ==> Alternating(history)
  }

  ghost predicate ReadAsStored(rows: seq<Row>) {
    forall history :: IsReading(history, rows) ==> history == rows
  }

  // ---- one reading --------------------------------------------------------------------

  function Insert(history: seq<Row>, row: Row): (more: seq<Row>)
    ensures |more| == |history| + 1
  {
    var last := |history| - 1;
    if history == [] || history[last].created < row.created then history + [row]
    else Insert(history[..last], row) + [history[last]]
  }

  /** The reading that puts a later row before those of the same stamp. */
  function History(rows: seq<Row>): (history: seq<Row>)
    ensures |history| == |rows|
  {
    if rows == [] then [] else Insert(History(rows[..|rows| - 1]), rows[|rows| - 1])
  }

  lemma FrontAndLast(rows: seq<Row>)
    requires rows != []
    ensures multiset(rows) == multiset(rows[..|rows| - 1]) + multiset{rows[|rows| - 1]}
  {
    assert rows == rows[..|rows| - 1] + [rows[|rows| - 1]];
  }

  predicate UpTo(rows: seq<Row>, stamp: nat) {
    forall k :: 0 <= k < |rows| ==> rows[k].created <= stamp
  }

  lemma {:induction false} InsertBelow(history: seq<Row>, row: Row, stamp: nat)
    requires UpTo(history, stamp) && row.created <= stamp
    ensures UpTo(Insert(history, row), stamp)
  {
    if history != [] && history[|history| - 1].created >= row.created {
      InsertBelow(history[..|history| - 1], row, stamp);
    }
  }

  lemma {:induction false} InsertSorts(history: seq<Row>, row: Row)
    requires SortedByStart(history)
    ensures SortedByStart(Insert(history, row))
  {
    var last := |history| - 1;
    if history != [] && history[last].created >= row.created {
      InsertSorts(history[..last], row);
      InsertBelow(history[..last], row, history[last].created);
    }
  }

  lemma {:induction false} InsertKeeps(history: seq<Row>, row: Row)
    ensures multiset(Insert(history, row)) == multiset(history + [row])
  {
    if history != [] && history[|history| - 1].created >= row.created {
      InsertKeeps(history[..|history| - 1], row);
      FrontAndLast(history);
    }
  }

  lemma {:induction false} HistoryReads(rows: seq<Row>)
    ensures IsReading(History(rows), rows)
  {
    if rows != [] {
      HistoryReads(rows[..|rows| - 1]);
      InsertSorts(History(rows[..|rows| - 1]), rows[|rows| - 1]);
      InsertKeeps(History(rows[..|rows| - 1]), rows[|rows| - 1]);
      FrontAndLast(rows);
    }
  }

  // ---- when the reading is the stored order -------------------------------------------

  predicate Increasing(rows: seq<Row>) {
    forall j, k :: 0 <= j < k < |rows| ==> rows[j].created < rows[k].created
  }

  lemma IncreasingExactly(rows: seq<Row>)
    requires Alternating(rows) && RepliesOnTop(rows)
    ensures UsersBehind(rows) <==> Increasing(rows)
  {
    if UsersBehind(rows) {
      forall j, k | 0 <= j < k < |rows| ensures rows[j].created < rows[k].created {
        assert rows[k].role == User ==> rows[k - 1].role == Assistant && rows[k - 1].created < rows[k].created;
      }
    }
  }

  /** The last row of a reading is the latest one. */
  lemma LatestReadLast(history: seq<Row>, rows: seq<Row>)
    requires rows != [] && Increasing(rows) && IsReading(history, rows)
    ensures history != [] && history[|history| - 1] == rows[|rows| - 1]
  {
    var latest := rows[|rows| - 1];
    assert latest in multiset(rows);
    assert latest in history;
    var last := history[|history| - 1];
    assert last in multiset(history);
    assert last in rows;
  }

  lemma Cancel(a: multiset<Row>, b: multiset<Row>, row: Row)
    requires a + multiset{row} == b + multiset{row}
    ensures a == b
  {
    assert a == a + multiset{row} - multiset{row};
    assert b == b + multiset{row} - multiset{row};
  }

  lemma {:induction false} OnlyReading(history: seq<Row>, rows: seq<Row>)
    requires Increasing(rows) && IsReading(history, rows)
    ensures history == rows
  {
    if rows == [] {
      assert |multiset(history)| == |multiset(rows)|;
    } else {
      LatestReadLast(history, rows);
      FrontAndLast(history);
      FrontAndLast(rows);
      Cancel(multiset(history[..|history| - 1]), multiset(rows[..|rows| - 1]), rows[|rows| - 1]);
      OnlyReading(history[..|history| - 1], rows[..|rows| - 1]);
    }
  }

  lemma OneMoreRow(history: seq<Row>, row: Row)
    ensures Alternating(history + [row]) <==>
            Alternating(history) && row.role == if |history| % 2 == 0 then User else Assistant
  {
    var more := history + [row];
    assert more[|history|] == row;
    assert forall k :: 0 <= k < |history| ==> more[k] == history[k];
  }

  lemma Fronts(rows: seq<Row>)
    requires rows != [] && Alternating(rows) && RepliesOnTop(rows)
    ensures Alternating(rows[..|rows| - 1]) && RepliesOnTop(rows[..|rows| - 1])
    ensures UsersBehind(rows) ==> UsersBehind(rows[..|rows| - 1])
  {
    var front := rows[..|rows| - 1];
    assert forall k :: 0 <= k < |front| ==> front[k] == rows[k];
  }

  /** A row that began behind all rows before it is read behind them. */
  lemma ReadLast(history: seq<Row>, rows: seq<Row>, row: Row)
    requires IsReading(history, rows) && Above(rows, row.created)
    ensures Insert(history, row) == history + [row]
  {
    if history != [] {
      assert history[|history| - 1] in multiset(history);
      assert history[|history| - 1] in rows;
    }
  }

  /** A user row that began before the last reply is read before it, and the reply stands in its place. */
  lemma EarlyUserRow(history: seq<Row>, row: Row)
    requires history != [] && |history| % 2 == 0
    requires history[|history| - 1].role == Assistant && row.created <= history[|history| - 1].created
    ensures !Alternating(Insert(history, row))
  {
    assert Insert(history, row)[|history|] == history[|history| - 1];
  }

  /** The last reply is read last. */
  lemma ReplyReadLast(rows: seq<Row>)
    requires RepliesOnTop(rows) && rows != [] && rows[|rows| - 1].role == Assistant
    ensures History(rows) == History(rows[..|rows| - 1]) + [rows[|rows| - 1]]
  {
    HistoryReads(rows[..|rows| - 1]);
    ReadLast(History(rows[..|rows| - 1]), rows[..|rows| - 1], rows[|rows| - 1]);
  }

  lemma UserRowStep(rows: seq<Row>, front: seq<Row>, row: Row)
    requires rows == front + [row] && Alternating(rows) && RepliesOnTop(front) && front != [] && row.role == User
    requires Alternating(History(front)) <==> UsersBehind(front)
    ensures Alternating(Insert(History(front), row)) <==> UsersBehind(rows)
  {
    var reply := front[|front| - 1];
    assert reply == rows[|front| - 1] && row == rows[|front|];
    ReplyReadLast(front);
    if row.created <= reply.created {
      EarlyUserRow(History(front), row);
    } else {
      AppendedStep(History(front), rows, front, row);
    }
  }

  lemma AppendedStep(history: seq<Row>, rows: seq<Row>, front: seq<Row>, row: Row)
    requires rows == front + [row] && Alternating(rows) && |history| == |front|
    requires Alternating(history) <==> UsersBehind(front)
    requires front != [] && row.role == User ==> front[|front| - 1].created < row.created
    ensures Alternating(history + [row]) <==> UsersBehind(rows)
  {
    OneMoreRow(history, row);
    OneMoreBehind(rows, front, row);
    assert row == rows[|front|];
  }

  lemma OneMoreBehind(rows: seq<Row>, front: seq<Row>, row: Row)
    requires rows == front + [row] && (front != [] && row.role == User ==> front[|front| - 1].created < row.created)
    ensures UsersBehind(rows) <==> UsersBehind(front)
  {
    if UsersBehind(rows) {
      assert forall k :: 0 <= k < |front| ==> front[k] == rows[k];
    }
  }

  lemma {:induction false} HistoryExactly(rows: seq<Row>)
    requires Alternating(rows) && RepliesOnTop(rows)
    ensures Alternating(History(rows)) <==> UsersBehind(rows)
  {
    if rows != [] {
      Fronts(rows);
      HistoryExactly(rows[..|rows| - 1]);
      var front, row := rows[..|rows| - 1], rows[|rows| - 1];
      if row.role == User && front != [] {
        UserRowStep(rows, front, row);
      } else {
        assert History(rows) == History(front) + [row] by {
          if row.role == Assistant { ReplyReadLast(rows); }
        }
        AppendedStep(History(front), rows, front, row);
      }
    }
  }

  /** The next row is read at its place among rows that are read as they were stored. */
  lemma HistoryOfNext(rows: seq<Row>, row: Row)
    requires Alternating(rows) && RepliesOnTop(rows) && UsersBehind(rows)
    ensures History(rows + [row]) == Insert(rows, row)
  {
    IncreasingExactly(rows);
    HistoryReads(rows);
    OnlyReading(History(rows), rows);
    assert (rows + [row])[..|rows|] == rows;
  }

  /**
   Rows stored in alternation, with every reply on top, are read in alternation if and only if
   each user row's transaction began behind that of the reply before it; and the same condition
   decides whether they are read in the order in which they were stored.
   */
  lemma ReadExactly(rows: seq<Row>)
    requires Alternating(rows) && RepliesOnTop(rows)
    ensures UsersBehind(rows) <==> AlternatesAsRead(rows)
    ensures UsersBehind(rows) <==> ReadAsStored(rows)
  {
    HistoryReads(rows);
    HistoryExactly(rows);
    IncreasingExactly(rows);
    if UsersBehind(rows) {
      forall history | IsReading(history, rows) ensures history == rows {
        OnlyReading(history, rows);
      }
    }
  }

  /** A user row that began before the reply stored in front of it is read in front of that reply. */
  lemma EarlyRowRead(rows: seq<Row>, reply: Row, early: Row, history: seq<Row>)
    requires Increasing(rows) && Above(rows, early.created) && early.created < reply.created
    requires IsReading(history, rows + [reply, early])
    ensures history == rows + [early, reply]
  {
    assert multiset(rows + [reply, early]) == multiset(rows + [early, reply]);
    OnlyReading(history, rows + [early, reply]);
  }

  // ---- the prompt built from a reading ------------------------------------------------

  predicate HaveRoles(messages: seq<Message>, rows: seq<Row>) {
    |messages| == |rows| && forall k :: 0 <= k < |messages| ==> messages[k].role == rows[k].role
  }

  lemma SuffixAlternates(messages: seq<Message>, rows: seq<Row>, n: nat)
    requires Alternating(rows) && HaveRoles(messages, rows) && n <= |messages|
    ensures Alternates(messages[n..])
  {
    var rest := messages[n..];
    forall k | 0 <= k < |rest| - 1 ensures rest[k].role != rest[k + 1].role {
      assert rest[k] == messages[n + k] && rest[k + 1] == messages[n + k + 1];
    }
  }

  /** The trimmed window is a suffix that drops no user message among the last forty rows. */
  lemma WindowIsSuffix(messages: seq<Message>, k: nat) returns (n: nat)
    requires k < |messages| && messages[k].role == User && |messages| - MAX_HISTORY_MESSAGES <= k
    ensures n <= k && Trimmed(Window(messages)) == messages[n..]
  {
    var window := Window(messages);
    var dropped := |messages| - |window|;
    n := TrimmedIsSuffix(window, k - dropped);
    assert window[n..] == messages[dropped + n..];
    n := dropped + n;
  }

  /** An alternating history that ends in a user row: the trimmed window is the prompt, whatever the rows say. */
  lemma NoRepairNeeded(messages: seq<Message>, history: seq<Row>)
    requires Alternating(history) && HaveRoles(messages, history)
    requires messages != [] && messages[|messages| - 1].role == User
    ensures Repaired(Trimmed(Window(messages))) == Trimmed(Window(messages))
    ensures Alternates(Trimmed(Window(messages)))
  {
    var n := WindowIsSuffix(messages, |messages| - 1);
    SuffixAlternates(messages, history, n);
    NothingToRepair(messages[n..]);
  }

  /** Two adjacent user rows in the window give the repair something to do. */
  lemma RepairNeeded(messages: seq<Message>, k: nat)
    requires k + 1 < |messages| && |messages| - MAX_HISTORY_MESSAGES <= k
    requires messages[k].role == User && messages[k + 1].role == User
    ensures Repaired(Trimmed(Window(messages))) != Trimmed(Window(messages))
  {
    var n := WindowIsSuffix(messages, k);
    RepairedAlternation(messages[n..]);
    assert messages[n..][k - n] == messages[k] && messages[n..][k - n + 1] == messages[k + 1];
  }
}
