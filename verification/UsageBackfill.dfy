/**
 Migration 0019: the tool-call summary columns of agent_runs and the tool_call_events rows
 are both filled from the tool_calls JSON, which is then dropped. The upgrade commits at
 its concurrent index builds, so an attempt can stop half-way and be repeated.
 */
module UsageBackfill {
  import opened Options

  /** A number read with NULLIF(text, '')::int; Malformed makes the cast raise. */
  datatype Number = Absent | Number(n: int) | Malformed

  /** One element of a tool_calls array; `failed` is the "error..." test on its result. */
  datatype Call = Call(tool: string, failed: bool, duration: Number, step: Number)

  /** The tool_calls column: NULL, a JSON value that is no array, or an array. */
  datatype Calls = Null | NotArray | Array(calls: seq<Call>)

  datatype Summary = Summary(count: int, errors: int, duration: int)

  /** `summary` is None while the three columns are NULL. */
  datatype AgentRun = AgentRun(calls: Calls, summary: Option<Summary>)

  datatype Event = Event(run: nat, tool: string, failed: bool, duration: Option<int>)

  /** A run is known by its place; `jsonb` says that agent_runs still has its tool_calls column. */
  datatype Db = Db(jsonb: bool, runs: seq<AgentRun>, events: seq<Event>)

  // ---- what the statements compute ----------------------------------------------------

  function Value(x: Number): Option<int> {
    if x.Number? then Some(x.n) else None
  }

  function Plus(total: Summary, failed: bool, duration: Option<int>): Summary {
    Summary(total.count + 1,
            total.errors + (if failed then 1 else 0),
            total.duration + (if duration.Some? then duration.value else 0))
  }

  /** COUNT, COUNT FILTER and COALESCE(SUM, 0) over an array. */
  function Total(calls: seq<Call>): Summary {
    if calls == [] then Summary(0, 0, 0) else
      var last := calls[|calls| - 1];
      Plus(Total(calls[..|calls| - 1]), last.failed, Value(last.duration))
  }

  function CallsOf(run: AgentRun): seq<Call> {
    if run.calls.Array? then run.calls.calls else []
  }

  predicate MalformedDuration(run: AgentRun) {
    exists k :: 0 <= k < |CallsOf(run)| && CallsOf(run)[k].duration.Malformed?
  }

  predicate MalformedStep(run: AgentRun) {
    exists k :: 0 <= k < |CallsOf(run)| && CallsOf(run)[k].step.Malformed?
  }

  /** The summary UPDATE raises. */
  predicate BadDuration(db: Db) {
    db.jsonb && exists id :: 0 <= id < |db.runs| && MalformedDuration(db.runs[id])
  }

  /** The INSERT raises. */
  predicate BadStep(db: Db) {
    db.jsonb && exists id :: 0 <= id < |db.runs| && MalformedStep(db.runs[id])
  }

  /** The summary UPDATE: a run that fans out to no element is not in its FROM. */
  function Summarized(jsonb: bool, run: AgentRun): AgentRun {
    if jsonb && CallsOf(run) != [] then run.(summary := Some(Total(CallsOf(run)))) else run
  }

  /** The zero-out UPDATE. */
  function Zeroed(run: AgentRun): AgentRun {
    if run.summary.None? then run.(summary := Some(Summary(0, 0, 0))) else run
  }

  function EventsOfCalls(id: nat, calls: seq<Call>): seq<Event> {
    if calls == [] then [] else
      var last := calls[|calls| - 1];
      EventsOfCalls(id, calls[..|calls| - 1]) + [Event(id, last.tool, last.failed, Value(last.duration))]
  }

  /** What the INSERT selects: one row per element of every array. */
  function Selected(runs: seq<AgentRun>): seq<Event> {
    if runs == [] then [] else
      Selected(runs[..|runs| - 1]) + EventsOfCalls(|runs| - 1, CallsOf(runs[|runs| - 1]))
  }

  // ---- one attempt --------------------------------------------------------------------

  /**
   The last commit an attempt reaches: none, the one before the indexes of agent_runs, of
   tool_call_events, of orchestration_runs, or the end of the migration.
   */
  datatype Reached = Nothing | Summaries | EventTable | Inserted | Everything

  function CommitSummaries(db: Db): Db {
    db.(runs := seq(|db.runs|, k requires 0 <= k < |db.runs| => Zeroed(Summarized(db.jsonb, db.runs[k]))))
  }

  function CommitEvents(db: Db): Db {
    if db.jsonb then db.(events := db.events + Selected(db.runs)) else db
  }

  function CommitDrop(db: Db): Db {
    Db(false, seq(|db.runs|, k requires 0 <= k < |db.runs| => db.runs[k].(calls := Null)), db.events)
  }

  /** What is committed when an attempt stops behind the given commit, or where a cast raises. */
  function Attempt(db: Db, stop: Reached): (Reached, Db) {
    if stop.Nothing? || BadDuration(db) then (Nothing, db)
    else
      var db1 := CommitSummaries(db);
      if stop.Summaries? then (Summaries, db1)
      else if stop.EventTable? || BadStep(db) then (EventTable, db1)
      else if stop.Inserted? then (Inserted, CommitEvents(db1))
      else (Everything, CommitDrop(CommitEvents(db1)))
  }

  /** Attempts, one after the other. */
  function Attempts(db: Db, stops: seq<Reached>): Db {
    if stops == [] then db else Attempt(Attempts(db, stops[..|stops| - 1]), stops[|stops| - 1]).1
  }

  /** How many of the attempts got as far as committing the INSERT. */
  function Inserts(stops: seq<Reached>): nat {
    if stops == [] then 0 else Inserts(stops[..|stops| - 1]) + if stops[|stops| - 1].Inserted? then 1 else 0
  }

  /** No call of any array has a duration or a step that is no number. */
  predicate Castable(runs: seq<AgentRun>) {
    forall id, k :: 0 <= id < |runs| && runs[id].calls.Array? && 0 <= k < |runs[id].calls.calls| ==>
      !runs[id].calls.calls[k].duration.Malformed? && !runs[id].calls.calls[k].step.Malformed?
  }

  lemma CastableExactly(db: Db)
    ensures !BadDuration(db) && !BadStep(db) <==> (db.jsonb ==> Castable(db.runs))
  {
    if id, k :| 0 <= id < |db.runs| && db.runs[id].calls.Array? && 0 <= k < |db.runs[id].calls.calls| &&
                (db.runs[id].calls.calls[k].duration.Malformed? || db.runs[id].calls.calls[k].step.Malformed?) {
      var call := CallsOf(db.runs[id])[k];
      assert call.duration.Malformed? ==> MalformedDuration(db.runs[id]);
      assert call.step.Malformed? ==> MalformedStep(db.runs[id]);
    }
  }

  /** The upgrade's statements against the tables, with the commits between them. */
  class Tables {
    var db: Db

    method Upgrade(stop: Reached) returns (reached: Reached)
      modifies this
      ensures (reached, db) == Attempt(old(db), stop)
      ensures reached.Everything? <==> stop.Everything? && (old(db).jsonb ==> Castable(old(db).runs))
    {
      CastableExactly(db);
      if stop.Nothing? || BadDuration(db) { return Nothing; }
      ghost var start := db;
      var jsonb, runs := db.jsonb, db.runs;
      runs := seq(|runs|, k requires 0 <= k < |runs| => Summarized(jsonb, runs[k]));
      runs := seq(|runs|, k requires 0 <= k < |runs| => Zeroed(runs[k]));
      db := db.(runs := runs);
      assert db.runs == CommitSummaries(start).runs;
      SummariesKeepCalls(start);
      if stop.Summaries? { return Summaries; }
      if stop.EventTable? || BadStep(db) { return EventTable; }
      db := CommitEvents(db);
      if stop.Inserted? { return Inserted; }
      db := CommitDrop(db);
      return Everything;
    }
  }

  lemma SummariesKeepCalls(db: Db)
    ensures
      var next := CommitSummaries(db);
      && BadStep(next) == BadStep(db) && BadDuration(next) == BadDuration(db)
      && Selected(next.runs) == Selected(db.runs)
  {
    var next := CommitSummaries(db);
    assert forall id :: 0 <= id < |db.runs| ==> CallsOf(next.runs[id]) == CallsOf(db.runs[id]);
    assert forall id :: 0 <= id < |db.runs| ==> MalformedStep(next.runs[id]) == MalformedStep(db.runs[id]);
    assert forall id :: 0 <= id < |db.runs| ==> MalformedDuration(next.runs[id]) == MalformedDuration(db.runs[id]);
    SameSelection(next.runs, db.runs);
  }

  lemma SummariesIdempotent(db: Db)
    ensures CommitSummaries(CommitSummaries(db)) == CommitSummaries(db)
  {
    var once := CommitSummaries(db);
    forall id | 0 <= id < |db.runs|
      ensures Zeroed(Summarized(db.jsonb, once.runs[id])) == once.runs[id]
    {
      assert once.runs[id] == Zeroed(Summarized(db.jsonb, db.runs[id]));
    }
    assert CommitSummaries(once).runs == once.runs;
  }

  lemma {:induction false} SameSelection(a: seq<AgentRun>, b: seq<AgentRun>)
    requires |a| == |b| && forall id :: 0 <= id < |a| ==> CallsOf(a[id]) == CallsOf(b[id])
    ensures Selected(a) == Selected(b)
  {
    if a != [] { SameSelection(a[..|a| - 1], b[..|b| - 1]); }
  }

  // ---- the rows of one run ------------------------------------------------------------

  /** The same three aggregates over the event rows of one run. */
  function TotalOf(events: seq<Event>, id: nat): Summary {
    if events == [] then Summary(0, 0, 0) else
      var last := events[|events| - 1];
      var front := TotalOf(events[..|events| - 1], id);
      if last.run == id then Plus(front, last.failed, last.duration) else front
  }

  function Add(a: Summary, b: Summary): Summary {
    Summary(a.count + b.count, a.errors + b.errors, a.duration + b.duration)
  }

  /** `x` added up `n` times. */
  function Multiple(n: nat, x: int): int {
    if n == 0 then 0 else Multiple(n - 1, x) + x
  }

  function Times(n: nat, a: Summary): Summary {
    Summary(Multiple(n, a.count), Multiple(n, a.errors), Multiple(n, a.duration))
  }

  lemma {:induction false} TotalOfConcat(a: seq<Event>, b: seq<Event>, id: nat)
    ensures TotalOf(a + b, id) == Add(TotalOf(a, id), TotalOf(b, id))
  {
    if b == [] {
      assert a + b == a;
    } else {
      assert (a + b)[..|a + b| - 1] == a + b[..|b| - 1];
      TotalOfConcat(a, b[..|b| - 1], id);
    }
  }

  lemma {:induction false} TotalOfCalls(id: nat, calls: seq<Call>, other: nat)
    ensures TotalOf(EventsOfCalls(id, calls), other) == if other == id then Total(calls) else Summary(0, 0, 0)
  {
    if calls != [] {
      var last := calls[|calls| - 1];
      var front := EventsOfCalls(id, calls[..|calls| - 1]);
      TotalOfCalls(id, calls[..|calls| - 1], other);
      var e := Event(id, last.tool, last.failed, Value(last.duration));
      assert (front + [e])[..|front|] == front;
    }
  }

  lemma TotalOfBoth(a: seq<Event>, b: seq<Event>, id: nat, total: Summary)
    requires
      || (TotalOf(a, id) == total && TotalOf(b, id) == Summary(0, 0, 0))
      || (TotalOf(a, id) == Summary(0, 0, 0) && TotalOf(b, id) == total)
    ensures TotalOf(a + b, id) == total
  {
    TotalOfConcat(a, b, id);
  }

  /** Per run, the INSERT adds exactly what the summary UPDATE counted. */
  lemma {:induction false} TotalOfSelected(runs: seq<AgentRun>, id: nat)
    ensures TotalOf(Selected(runs), id) == TotalAt(runs, id)
  {
    if runs != [] {
      var last := |runs| - 1;
      TotalOfSelected(runs[..last], id);
      TotalOfCalls(last, CallsOf(runs[last]), id);
      TotalAtFront(runs, id);
      TotalOfBoth(Selected(runs[..last]), EventsOfCalls(last, CallsOf(runs[last])), id, TotalAt(runs, id));
    }
  }

  function TotalAt(runs: seq<AgentRun>, id: nat): Summary {
    if id < |runs| then Total(CallsOf(runs[id])) else Summary(0, 0, 0)
  }

  lemma TotalAtFront(runs: seq<AgentRun>, id: nat)
    requires runs != []
    ensures
      var last := |runs| - 1;
      && TotalAt(runs[..last], id) == (if id == last then Summary(0, 0, 0) else TotalAt(runs, id))
      && (id != last || TotalAt(runs, id) == Total(CallsOf(runs[last])))
  {
  }

  // ---- what the totals and the rows are -----------------------------------------------

  lemma {:induction false} ErrorsCounted(calls: seq<Call>)
    ensures Total(calls).errors == |set k | 0 <= k < |calls| && calls[k].failed|
  {
    var failed := set k | 0 <= k < |calls| && calls[k].failed;
    if calls == [] {
      assert failed == {};
    } else {
      var last := |calls| - 1;
      ErrorsCounted(calls[..last]);
      var before := set k | 0 <= k < |calls[..last]| && calls[..last][k].failed;
      assert failed == before + if calls[last].failed then {last} else {};
    }
  }

  lemma TotalOfOne(call: Call)
    ensures Total([call]) ==
      Summary(1, if call.failed then 1 else 0, if call.duration.Number? then call.duration.n else 0)
  {
    assert [call][..0] == [];
  }

  lemma {:induction false} TotalConcat(a: seq<Call>, b: seq<Call>)
    ensures Total(a + b).count == Total(a).count + Total(b).count
    ensures Total(a + b).errors == Total(a).errors + Total(b).errors
    ensures Total(a + b).duration == Total(a).duration + Total(b).duration
  {
    if b == [] {
      assert a + b == a;
    } else {
      assert (a + b)[..|a + b| - 1] == a + b[..|b| - 1];
      TotalConcat(a, b[..|b| - 1]);
    }
  }

  /** The k-th event of a run carries what its k-th call says. */
  lemma {:induction false} EventAt(id: nat, calls: seq<Call>, k: nat)
    requires k < |calls|
    ensures |EventsOfCalls(id, calls)| == |calls|
    ensures EventsOfCalls(id, calls)[k] ==
      Event(id, calls[k].tool, calls[k].failed,
            if calls[k].duration.Number? then Some(calls[k].duration.n) else None)
  {
    var last := |calls| - 1;
    if k < last {
      EventAt(id, calls[..last], k);
    } else if last > 0 {
      EventAt(id, calls[..last], 0);
    }
  }

  /** The event rows of one run, in the order in which they were inserted. */
  function RowsOf(events: seq<Event>, id: nat): seq<Event> {
    if events == [] then [] else
      RowsOf(events[..|events| - 1], id) + if events[|events| - 1].run == id then [events[|events| - 1]] else []
  }

  lemma {:induction false} RowsOfConcat(a: seq<Event>, b: seq<Event>, id: nat)
    ensures RowsOf(a + b, id) == RowsOf(a, id) + RowsOf(b, id)
  {
    if b == [] {
      assert a + b == a;
    } else {
      assert (a + b)[..|a + b| - 1] == a + b[..|b| - 1];
      RowsOfConcat(a, b[..|b| - 1], id);
    }
  }

  lemma {:induction false} RowsOfCalls(id: nat, calls: seq<Call>, other: nat)
    ensures RowsOf(EventsOfCalls(id, calls), other) == if other == id then EventsOfCalls(id, calls) else []
  {
    if calls != [] {
      var last := calls[|calls| - 1];
      var front := EventsOfCalls(id, calls[..|calls| - 1]);
      RowsOfCalls(id, calls[..|calls| - 1], other);
      assert (front + [Event(id, last.tool, last.failed, Value(last.duration))])[..|front|] == front;
    }
  }

  function RowsAt(runs: seq<AgentRun>, id: nat): seq<Event> {
    if id < |runs| then EventsOfCalls(id, CallsOf(runs[id])) else []
  }

  lemma RowsOfBoth(a: seq<Event>, b: seq<Event>, id: nat, rows: seq<Event>)
    requires (RowsOf(a, id) == rows && RowsOf(b, id) == []) || (RowsOf(a, id) == [] && RowsOf(b, id) == rows)
    ensures RowsOf(a + b, id) == rows
  {
    RowsOfConcat(a, b, id);
  }

  lemma RowsAtFront(runs: seq<AgentRun>, id: nat)
    requires runs != []
    ensures
      var last := |runs| - 1;
      && RowsAt(runs[..last], id) == (if id == last then [] else RowsAt(runs, id))
      && (id == last ==> RowsAt(runs, id) == EventsOfCalls(last, CallsOf(runs[last])))
  {
  }

  lemma {:induction false} RowsOfSelected(runs: seq<AgentRun>, id: nat)
    ensures RowsOf(Selected(runs), id) == RowsAt(runs, id)
  {
    if runs != [] {
      var last := |runs| - 1;
      RowsOfSelected(runs[..last], id);
      RowsOfCalls(last, CallsOf(runs[last]), id);
      RowsAtFront(runs, id);
      RowsOfBoth(Selected(runs[..last]), EventsOfCalls(last, CallsOf(runs[last])), id, RowsAt(runs, id));
    }
  }

  // ---- conservation -------------------------------------------------------------------

  /** The state in which the migration finds a database: JSON there, no typed columns, no events. */
  predicate Fresh(db: Db) {
    db.jsonb && db.events == [] && forall id :: 0 <= id < |db.runs| ==> db.runs[id].summary.None?
  }

  /** A run's three columns agree with its event rows. */
  predicate Consistent(db: Db, id: nat)
    requires id < |db.runs|
  {
    db.runs[id].summary == Some(TotalOf(db.events, id))
  }

  /** What interrupted attempts on a fresh database can have left. */
  ghost predicate Between(start: Db, db: Db, inserts: nat) {
    && db.jsonb && |db.runs| == |start.runs|
    && (forall id :: 0 <= id < |db.runs| ==>
          && db.runs[id].calls == start.runs[id].calls
          && (db.runs[id].summary.None? || db.runs[id].summary == Some(Total(CallsOf(start.runs[id])))))
    && (forall id :: 0 <= id < |db.runs| ==>
          TotalOf(db.events, id) == Times(inserts, Total(CallsOf(start.runs[id]))))
  }

  lemma BetweenKeepsBad(start: Db, db: Db, inserts: nat)
    requires start.jsonb && Between(start, db, inserts)
    ensures BadDuration(db) == BadDuration(start) && BadStep(db) == BadStep(start)
  {
    assert forall id :: 0 <= id < |db.runs| ==> CallsOf(db.runs[id]) == CallsOf(start.runs[id]);
    assert forall id :: 0 <= id < |db.runs| ==> MalformedDuration(db.runs[id]) == MalformedDuration(start.runs[id]);
    assert forall id :: 0 <= id < |db.runs| ==> MalformedStep(db.runs[id]) == MalformedStep(start.runs[id]);
  }

  lemma SummariesBetween(start: Db, db: Db, inserts: nat)
    requires Between(start, db, inserts)
    ensures Between(start, CommitSummaries(db), inserts)
    ensures
      var next := CommitSummaries(db);
      forall id :: 0 <= id < |next.runs| ==> next.runs[id].summary == Some(Total(CallsOf(start.runs[id])))
  {
    var next := CommitSummaries(db);
    forall id | 0 <= id < |next.runs|
      ensures next.runs[id].summary == Some(Total(CallsOf(start.runs[id])))
      ensures next.runs[id].calls == start.runs[id].calls
    {
      assert CallsOf(db.runs[id]) == CallsOf(start.runs[id]);
    }
  }

  lemma TimesPlusOne(n: nat, a: Summary)
    ensures Add(Times(n, a), a) == Times(n + 1, a)
  {
  }

  lemma InsertAt(start: Db, db: Db, inserts: nat, id: nat)
    requires id < |db.runs| && |db.runs| == |start.runs| && db.jsonb
    requires db.runs[id].calls == start.runs[id].calls
    requires TotalOf(db.events, id) == Times(inserts, Total(CallsOf(start.runs[id])))
    ensures TotalOf(CommitEvents(db).events, id) == Times(inserts + 1, Total(CallsOf(start.runs[id])))
  {
    TotalOfConcat(db.events, Selected(db.runs), id);
    TotalOfSelected(db.runs, id);
    TimesPlusOne(inserts, Total(CallsOf(start.runs[id])));
  }

  lemma InsertBetween(start: Db, db: Db, inserts: nat)
    requires Between(start, db, inserts)
    ensures Between(start, CommitEvents(db), inserts + 1)
  {
    forall id | 0 <= id < |db.runs|
      ensures TotalOf(CommitEvents(db).events, id) == Times(inserts + 1, Total(CallsOf(start.runs[id])))
    {
      InsertAt(start, db, inserts, id);
    }
  }

  /** An attempt that stopped before it committed the INSERT. */
  lemma AttemptWithoutInsert(start: Db, db: Db, inserts: nat, stop: Reached)
    requires Fresh(start) && !BadDuration(start) && !BadStep(start) && Between(start, db, inserts)
    requires !stop.Everything? && !stop.Inserted?
    ensures Between(start, Attempt(db, stop).1, inserts)
  {
    SummariesBetween(start, db, inserts);
  }

  /** An attempt that stopped behind it. */
  lemma AttemptWithInsert(start: Db, db: Db, inserts: nat)
    requires Fresh(start) && !BadDuration(start) && !BadStep(start) && Between(start, db, inserts)
    ensures Between(start, Attempt(db, Inserted).1, inserts + 1)
  {
    BetweenKeepsBad(start, db, inserts);
    SummariesBetween(start, db, inserts);
    InsertBetween(start, CommitSummaries(db), inserts);
    assert Attempt(db, Inserted).1 == CommitEvents(CommitSummaries(db));
  }

  lemma {:induction false} AttemptBetween(start: Db, db: Db, inserts: nat, stop: Reached, after: nat)
    requires Fresh(start) && !BadDuration(start) && !BadStep(start) && Between(start, db, inserts)
    requires !stop.Everything? && after == inserts + InsertsOf(stop)
    ensures Between(start, Attempt(db, stop).1, after)
  {
    if stop.Inserted? {
      AttemptWithInsert(start, db, inserts);
    } else {
      AttemptWithoutInsert(start, db, inserts, stop);
    }
  }

  function InsertsOf(stop: Reached): nat {
    if stop.Inserted? then 1 else 0
  }

  lemma AttemptsSnoc(db: Db, stops: seq<Reached>)
    requires stops != []
    ensures Attempts(db, stops) == Attempt(Attempts(db, stops[..|stops| - 1]), stops[|stops| - 1]).1
  {
  }

  lemma InsertsSnoc(stops: seq<Reached>)
    requires stops != []
    ensures Inserts(stops) == Inserts(stops[..|stops| - 1]) + InsertsOf(stops[|stops| - 1])
  {
  }

  lemma {:induction false} InterruptedAttempts(start: Db, stops: seq<Reached>)
    requires Fresh(start) && !BadDuration(start) && !BadStep(start)
    requires Reached.Everything !in stops
    ensures Between(start, Attempts(start, stops), Inserts(stops))
  {
    if stops != [] {
      var front := stops[..|stops| - 1];
      InterruptedAttempts(start, front);
      InsertsSnoc(stops);
      AttemptBetween(start, Attempts(start, front), Inserts(front), stops[|stops| - 1], Inserts(stops));
      AttemptsSnoc(start, stops);
    } else {
      assert Times(0, Summary(0, 0, 0)) == Summary(0, 0, 0);
    }
  }

  /** A complete attempt behind interrupted ones: one more INSERT, and nothing left of the JSON. */
  lemma {:induction false} LastAttempt(start: Db, db: Db, inserts: nat, id: nat)
    requires Fresh(start) && !BadDuration(start) && !BadStep(start) && Between(start, db, inserts)
    requires id < |start.runs|
    ensures
      var end := Attempt(db, Everything).1;
      && !end.jsonb && |end.runs| == |start.runs|
      && end.runs[id].summary == Some(Total(CallsOf(start.runs[id])))
      && TotalOf(end.events, id) == Times(inserts + 1, Total(CallsOf(start.runs[id])))
  {
    BetweenKeepsBad(start, db, inserts);
    SummariesBetween(start, db, inserts);
    InsertBetween(start, CommitSummaries(db), inserts);
    var filled := CommitEvents(CommitSummaries(db));
    assert Attempt(db, Everything).1 == CommitDrop(filled);
    assert TotalOf(filled.events, id) == Times(inserts + 1, Total(CallsOf(start.runs[id])));
  }

  /**
   After any number of interrupted attempts, which left `db`, and a complete one: every summary
   is the total of its run's calls, and the event rows of a run are those of its calls, once
   per attempt that committed the INSERT.
   */
  lemma {:induction false} UpgradeAfterCrashes(start: Db, stops: seq<Reached>, db: Db, inserts: nat, id: nat)
    requires Fresh(start) && !BadDuration(start) && !BadStep(start)
    requires Reached.Everything !in stops && db == Attempts(start, stops) && inserts == Inserts(stops)
    requires id < |start.runs|
    ensures
      var end := Attempt(db, Everything).1;
      && !end.jsonb && |end.runs| == |start.runs|
      && end.runs[id].summary == Some(Total(CallsOf(start.runs[id])))
      && TotalOf(end.events, id) == Times(inserts + 1, Total(CallsOf(start.runs[id])))
  {
    InterruptedAttempts(start, stops);
    LastAttempt(start, db, inserts, id);
  }

  lemma {:induction false} TotalCounts(calls: seq<Call>)
    ensures Total(calls).count == |calls|
  {
    if calls != [] { TotalCounts(calls[..|calls| - 1]); }
  }

  /**
   What a finished upgrade stores for a run, whatever was interrupted before it: the number of its
   calls, of those that failed, and the sum of the durations given as numbers; zeros for a run
   without an array of calls.
   */
  lemma {:induction false} SummaryMeans(start: Db, stops: seq<Reached>, db: Db, id: nat)
    requires Fresh(start) && Castable(start.runs)
    requires Reached.Everything !in stops && db == Attempts(start, stops)
    requires id < |start.runs|
    ensures
      var end := Attempt(db, Everything).1;
      && |end.runs| == |start.runs| && end.runs[id].summary.Some?
      && var summary := end.runs[id].summary.value;
         match start.runs[id].calls
         case Array(calls) =>
           && summary.count == |calls|
           && summary.errors == |set k | 0 <= k < |calls| && calls[k].failed|
           && summary == Total(calls)
         case _ => summary == Summary(0, 0, 0)
  {
    CastableExactly(start);
    UpgradeAfterCrashes(start, stops, db, Inserts(stops), id);
    TotalCounts(CallsOf(start.runs[id]));
    ErrorsCounted(CallsOf(start.runs[id]));
  }

  /** The events an uninterrupted upgrade leaves of a run are those of its calls, one by one and in order. */
  lemma EventsMean(start: Db, id: nat, k: nat)
    requires Fresh(start) && Castable(start.runs) && id < |start.runs|
    requires start.runs[id].calls.Array? && k < |start.runs[id].calls.calls|
    ensures
      var rows, calls := RowsOf(Attempt(start, Everything).1.events, id), start.runs[id].calls.calls;
      && |rows| == |calls|
      && rows[k] == Event(id, calls[k].tool, calls[k].failed,
                          if calls[k].duration.Number? then Some(calls[k].duration.n) else None)
  {
    CastableExactly(start);
    SummariesKeepCalls(start);
    RowsOfSelected(start.runs, id);
    EventAt(id, start.runs[id].calls.calls, k);
    var end := Attempt(start, Everything).1;
    assert end.events == [] + Selected(start.runs) == Selected(start.runs);
  }

  lemma TotalOfNone(calls: seq<Call>)
    ensures Total(calls) == Summary(0, 0, 0) || calls != []
  {
  }

  lemma {:induction false} MultipleOfNothing(n: nat, x: int)
    requires x == 0
    ensures Multiple(n, x) == 0
  {
    if n > 0 { MultipleOfNothing(n - 1, x); }
  }

  lemma {:induction false} MultipleGrows(n: nat, x: int)
    requires x > 0
    ensures Multiple(n, x) >= 0 && (n > 0 ==> Multiple(n, x) > 0)
  {
    if n > 0 { MultipleGrows(n - 1, x); }
  }

  lemma OneTime(x: int)
    ensures Multiple(1, x) == x
  {
    assert Multiple(0, x) == 0;
  }

  lemma SameMultipleExactly(total: Summary, n: nat)
    requires total.count >= 0 && (total.count == 0 ==> total == Summary(0, 0, 0))
    ensures Times(n + 1, total) == total <==> total.count == 0 || n == 0
  {
    if total.count > 0 {
      MultipleGrows(n, total.count);
      if n == 0 {
        OneTime(total.count);
        OneTime(total.errors);
        OneTime(total.duration);
      }
    } else {
      MultipleOfNothing(n + 1, total.count);
      MultipleOfNothing(n + 1, total.errors);
      MultipleOfNothing(n + 1, total.duration);
    }
  }

  lemma ConsistentWhen(end: Db, id: nat, calls: seq<Call>, n: nat)
    requires id < |end.runs| && end.runs[id].summary == Some(Total(calls))
    requires TotalOf(end.events, id) == Times(n + 1, Total(calls))
    ensures Consistent(end, id) <==> calls == [] || n == 0
  {
    TotalCounts(calls);
    TotalOfNone(calls);
    SameMultipleExactly(Total(calls), n);
  }

  /** A run's columns agree with its events exactly when it had no calls, or no earlier attempt committed the INSERT. */
  lemma {:induction false} ConsistentExactly(start: Db, stops: seq<Reached>, db: Db, inserts: nat, id: nat)
    requires Fresh(start) && !BadDuration(start) && !BadStep(start)
    requires Reached.Everything !in stops && db == Attempts(start, stops) && inserts == Inserts(stops)
    requires id < |start.runs|
    ensures
      var end := Attempt(db, Everything).1;
      |end.runs| == |start.runs| && (Consistent(end, id) <==> CallsOf(start.runs[id]) == [] || inserts == 0)
  {
    UpgradeAfterCrashes(start, stops, db, inserts, id);
    ConsistentWhen(Attempt(db, Everything).1, id, CallsOf(start.runs[id]), inserts);
  }

  /** The uninterrupted upgrade conserves every run's totals. */
  lemma UninterruptedConserves(start: Db, id: nat)
    requires Fresh(start) && !BadDuration(start) && !BadStep(start) && id < |start.runs|
    ensures
      var end := Attempt(start, Everything).1;
      |end.runs| == |start.runs| && Consistent(end, id)
  {
    ConsistentExactly(start, [], start, 0, id);
  }

  /** Behind the column drop, further attempts change nothing. */
  lemma RerunAfterDrop(db: Db, stop: Reached)
    requires Attempt(db, Everything).0 == Everything
    ensures
      var end := Attempt(db, Everything).1;
      Attempt(end, stop).1 == end
  {
    var end := Attempt(db, Everything).1;
    var again := CommitSummaries(end);
    assert again.runs == end.runs;
    assert CommitDrop(again).runs == end.runs;
  }

  lemma BadStepStopsAttempt(start: Db, db: Db, stop: Reached)
    requires !BadDuration(start) && BadStep(start) && (db == start || db == CommitSummaries(start))
    ensures Attempt(db, stop).1 == db || Attempt(db, stop).1 == CommitSummaries(start)
  {
    SummariesKeepCalls(start);
    SummariesIdempotent(start);
  }

  /**
   A malformed duration stops every attempt before its first commit. A malformed step does
   not: it leaves the summaries committed and no events, in every attempt.
   */
  lemma {:induction false} MalformedNumbersStop(start: Db, stops: seq<Reached>)
    requires Fresh(start)
    ensures BadDuration(start) ==> Attempts(start, stops) == start
    ensures !BadDuration(start) && BadStep(start) ==>
      && (Attempts(start, stops) == start || Attempts(start, stops) == CommitSummaries(start))
      && Attempts(start, stops).events == [] && Attempts(start, stops).jsonb
  {
    if stops != [] {
      var front := stops[..|stops| - 1];
      MalformedNumbersStop(start, front);
      if !BadDuration(start) && BadStep(start) {
        BadStepStopsAttempt(start, Attempts(start, front), stops[|stops| - 1]);
      }
    }
  }
}
