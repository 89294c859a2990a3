/**
 Who owns a row of ai.indexed_sources: graph re-enrichment marks and unmarks rows while
 indexing tasks claim and finish them, users reset, cancel and remove them, and the
 watchdog recovers orphans. Every write is one scoped UPDATE.
 */
module IndexedSources {
  import opened Options

  datatype Status = Pending | Indexing | Indexed | Failed | Cancelled

  type RowId = nat
  type TaskId = nat

  datatype Row = Row(kb: nat, status: Status, owner: Option<TaskId>, error: bool, attempts: nat, dispatched: nat)

  type Table = map<RowId, Row>

  const STALENESS_SECONDS: nat := 120

  /** The optional "AND id = :id" of the scoped statements. */
  datatype Scope = Scope(kb: nat, only: Option<RowId>)

  predicate InScope(scope: Scope, id: RowId, row: Row) {
    row.kb == scope.kb && (scope.only.None? || scope.only.value == id)
  }

  /** One statement, by what issues it. */
  datatype Write =
    | Mark(scope: Scope, task: TaskId)              // _mark_reenriching
    | Restore(scope: Scope, task: TaskId)           // _unmark_reenriching, and early exits of the worker
    | Complete(scope: Scope, task: TaskId)          // completion by the worker
    | Reset(ids: set<RowId>)                        // /reindex, or adding a source again
    | Insert(id: RowId, kb: nat)
    | Remove(id: RowId)
    | Cancel(id: RowId)
    | FailUnfenced(id: RowId)                       // a failed dispatch, or a missing source
    | Claim(id: RowId, task: TaskId)
    | FinishIndexed(id: RowId, task: TaskId)
    | FinishFailed(id: RowId, task: TaskId)
    | Requeue(id: RowId, task: TaskId)              // storage error within the attempts bound
    | WatchdogFail(id: RowId)
    | WatchdogReset(ids: set<RowId>)

  /** The WHERE clause. */
  predicate Matches(w: Write, id: RowId, row: Row) {
    match w
    case Mark(scope, _) => InScope(scope, id, row) && row.status == Indexed
    case Restore(scope, task) => InScope(scope, id, row) && row.owner == Some(task) && row.status == Indexing
    case Complete(scope, task) => InScope(scope, id, row) && row.owner == Some(task) && row.status == Indexing
    case Reset(ids) => id in ids
    case Insert(_, _) => false
    case Remove(other) => id == other
    case Cancel(other) => id == other
    case FailUnfenced(other) => id == other
    case Claim(other, _) => id == other && row.status == Pending
    case FinishIndexed(other, task) => id == other && row.owner == Some(task)
    case FinishFailed(other, task) => id == other && row.owner == Some(task)
    case Requeue(other, task) => id == other && row.owner == Some(task)
    case WatchdogFail(other) => id == other && row.status == Indexing
    case WatchdogReset(ids) => id in ids && row.status == Indexing
  }

  /** The SET clause. */
  function Updated(w: Write, row: Row, now: nat): Row {
    match w
    case Mark(_, task) => row.(status := Indexing, owner := Some(task), error := false, dispatched := now)
    case Restore(_, _) => row.(status := Indexed, owner := None)
    case Complete(_, _) => row.(status := Indexed, owner := None, error := false)
    case Reset(_) => row.(status := Pending, owner := None, error := false, attempts := 0, dispatched := now)
    case Cancel(_) => row.(status := Cancelled, error := true)
    case FailUnfenced(_) => row.(status := Failed, error := true)
    case Claim(_, task) =>
      row.(status := Indexing, owner := Some(task), attempts := row.attempts + 1, dispatched := now)
    case FinishIndexed(_, _) => row.(status := Indexed, error := false)
    case FinishFailed(_, _) => row.(status := Failed, error := true)
    case Requeue(_, _) => row.(status := Pending, owner := None, error := false)
    case WatchdogFail(_) => row.(status := Failed, error := true)
    case WatchdogReset(_) => row.(status := Pending, error := false, dispatched := now)
    case _ => row
  }

  function Apply(table: Table, w: Write, now: nat): Table {
    match w
    case Insert(id, kb) =>
      if id in table then table else table[id := Row(kb, Pending, None, false, 0, now)]
    case Remove(id) => table - {id}
    case _ => map id | id in table :: if Matches(w, id, table[id]) then Updated(w, table[id], now) else table[id]
  }

  /** The rows a statement writes. */
  function Touched(table: Table, w: Write): set<RowId> {
    (set id | id in table && Matches(w, id, table[id])) + (if w.Insert? && w.id !in table then {w.id} else {})
  }

  /** The statement neither marks nor claims rows under the id `t`, which is fresh: nobody else knows it. */
  predicate Foreign(w: Write, t: TaskId) {
    !(w.Mark? && w.task == t) && !(w.Claim? && w.task == t)
  }

  predicate MarkedBy(row: Row, t: TaskId) {
    row.status == Indexing && row.owner == Some(t)
  }

  /** Statements with the time each is issued at. */
  type Trace = seq<(Write, nat)>

  function After(table: Table, trace: Trace): Table {
    if trace == [] then table else
      Apply(After(table, trace[..|trace| - 1]), trace[|trace| - 1].0, trace[|trace| - 1].1)
  }

  function TouchedIn(table: Table, trace: Trace): set<RowId> {
    if trace == [] then {} else
      TouchedIn(table, trace[..|trace| - 1]) + Touched(After(table, trace[..|trace| - 1]), trace[|trace| - 1].0)
  }

  ghost predicate FreshId(table: Table, t: TaskId) {
    forall id :: id in table ==> table[id].owner != Some(t)
  }

  /** A new row is pending, unowned and untried; a removed one is gone; no other row changes. */
  lemma RowsComeAndGo(table: Table, id: RowId, kb: nat, now: nat)
    ensures Apply(table, Insert(id, kb), now) ==
            if id in table then table else table[id := Row(kb, Pending, None, false, 0, now)]
    ensures forall other ::
      && (other in Apply(table, Remove(id), now) <==> other in table && other != id)
      && (other in table && other != id ==> Apply(table, Remove(id), now)[other] == table[other])
  {
  }

  // ---- mark, anything, unmark ---------------------------------------------------------

  /** No foreign statement puts a row into the state that a mark by `t` leaves. */
  lemma ForeignNeverMarks(table: Table, w: Write, now: nat, t: TaskId, id: RowId)
    requires Foreign(w, t) && id in Apply(table, w, now)
    ensures MarkedBy(Apply(table, w, now)[id], t) ==>
      id in table && id !in Touched(table, w) && Apply(table, w, now)[id] == table[id]
    ensures id !in Touched(table, w) ==> id in table && Apply(table, w, now)[id] == table[id]
  {
  }

  lemma {:induction false} MarkSurvivesUntouched(table: Table, scope: Scope, t: TaskId, now: nat,
                                                 trace: Trace, id: RowId)
    requires FreshId(table, t)
    requires forall k :: 0 <= k < |trace| ==> Foreign(trace[k].0, t)
    ensures
      var marked := Apply(table, Mark(scope, t), now);
      var end := After(marked, trace);
      && (id in end && MarkedBy(end[id], t) <==>
            id in table && Matches(Mark(scope, t), id, table[id]) && id !in TouchedIn(marked, trace))
      && (id in end && MarkedBy(end[id], t) ==> end[id] == marked[id])
      && (id in marked && id !in TouchedIn(marked, trace) ==> id in end && end[id] == marked[id])
  {
    var marked := Apply(table, Mark(scope, t), now);
    if trace != [] {
      var before := trace[..|trace| - 1];
      var (w, at) := trace[|trace| - 1];
      MarkSurvivesUntouched(table, scope, t, now, before, id);
      if id in Apply(After(marked, before), w, at) {
        ForeignNeverMarks(After(marked, before), w, at, t, id);
      }
    }
  }

  /**
   Mark under a fresh id, any foreign statements, unmark: rows that nobody wrote in between
   are 'indexed' again, without owner, and every other row is exactly as the others left it.
   */
  lemma UnmarkUndoesOnlyOwnMark(table: Table, scope: Scope, t: TaskId, now: nat, trace: Trace, later: nat)
    requires FreshId(table, t)
    requires forall k :: 0 <= k < |trace| ==> Foreign(trace[k].0, t)
    ensures
      var marked := Apply(table, Mark(scope, t), now);
      var end := After(marked, trace);
      Apply(end, Restore(scope, t), later) ==
        map id | id in end ::
          if id in table && Matches(Mark(scope, t), id, table[id]) && id !in TouchedIn(marked, trace)
          then Row(table[id].kb, Indexed, None, false, table[id].attempts, now)
          else end[id]
  {
    var marked := Apply(table, Mark(scope, t), now);
    var end := After(marked, trace);
    forall id | id in end
      ensures
        Apply(end, Restore(scope, t), later)[id] ==
          if id in table && Matches(Mark(scope, t), id, table[id]) && id !in TouchedIn(marked, trace)
          then Row(table[id].kb, Indexed, None, false, table[id].attempts, now)
          else end[id]
    {
      MarkSurvivesUntouched(table, scope, t, now, trace, id);
    }
  }

  /**
   The mark takes nothing from anyone: a queued row can still be claimed by its task, and a
   row that a live task owns still lets that task finish.
   */
  lemma MarkLeavesOthersWorking(table: Table, scope: Scope, t: TaskId, now: nat, id: RowId, u: TaskId)
    requires id in table && (table[id].status == Pending || MarkedBy(table[id], u))
    ensures
      var marked := Apply(table, Mark(scope, t), now);
      && id in marked && marked[id] == table[id]
      && (table[id].status == Pending ==> id in Touched(marked, Claim(id, u)))
      && (MarkedBy(table[id], u) ==> id in Touched(marked, FinishIndexed(id, u)))
  {
  }

  // ---- the watchdog's view ------------------------------------------------------------

  /** ORPHAN_QUERY; `alive` holds ids of index_source tasks only. */
  predicate Orphan(row: Row, now: nat, alive: set<TaskId>) {
    row.status == Indexing && row.dispatched + STALENESS_SECONDS < now && row.owner.Some? && row.owner.value !in alive
  }

  /** A marked row is out of the watchdog's reach for exactly two minutes, whatever task runs behind it. */
  lemma MarkDefersWatchdog(table: Table, scope: Scope, t: TaskId, now: nat, id: RowId, later: nat, alive: set<TaskId>)
    requires id in table && Matches(Mark(scope, t), id, table[id]) && t !in alive
    ensures Orphan(Apply(table, Mark(scope, t), now)[id], later, alive) <==> later > now + 120
  {
  }

  // ---- request, task and everybody else -----------------------------------------------

  /** The request: before its mark, marked, undoing a failed dispatch, answered, or dead in between. */
  datatype Request = Start | Dispatched | Marked | Undoing | Accepted | Rejected | Killed

  /** The re-enrichment task; it restores what it marked unless it dies before that. */
  datatype Task = NotQueued | Queued | Running | Finished(restored: bool)

  /**
   Beside the table, what happened to it: the table the mark found, the rows others wrote
   since, and whether a closing write (undo, completion or restore) came after the mark.
   */
  datatype System = System(table: Table, request: Request, task: Task, now: nat,
                           found: Option<Table>, touched: set<RowId>, closed: bool)

  datatype Config = Config(scope: Scope, t: TaskId, markFirst: bool)

  datatype Action =
    | DoMark
    | Dispatch
    | DispatchRaises(queued: bool)
    | Undo
    | RequestDies
    | TaskStarts
    | TaskRetries
    | TaskEnds(completed: bool)
    | TaskDies               // storage retries exhausted, worker killed, or its last write failed
    | Elapse(seconds: nat)
    | Other(w: Write)

  function Marking(c: Config, s: System): System {
    s.(table := Apply(s.table, Mark(c.scope, c.t), s.now), found := Some(s.table), touched := {}, closed := false)
  }

  function Closing(c: Config, s: System, completed: bool): System {
    var w := if completed then Complete(c.scope, c.t) else Restore(c.scope, c.t);
    s.(table := Apply(s.table, w, s.now), closed := true)
  }

  function Exec(c: Config, s: System, a: Action): System {
    match a
    case DoMark =>
      if s.request == (if c.markFirst then Start else Dispatched) then
        Marking(c, s).(request := if c.markFirst then Marked else Accepted)
      else s
    case Dispatch =>
      if s.request == (if c.markFirst then Marked else Start) then
        s.(task := Queued, request := if c.markFirst then Accepted else Dispatched)
      else s
    case DispatchRaises(queued) =>
      if s.request == (if c.markFirst then Marked else Start) then
        s.(task := if queued then Queued else NotQueued, request := if c.markFirst then Undoing else Rejected)
      else s
    case Undo => if s.request.Undoing? then Closing(c, s, false).(request := Rejected) else s
    case RequestDies => if s.request.Accepted? || s.request.Rejected? then s else s.(request := Killed)
    case TaskStarts => if s.task.Queued? then s.(task := Running) else s
    case TaskRetries => if s.task.Running? then s.(task := Queued) else s
    case TaskEnds(completed) => if s.task.Running? then Closing(c, s, completed).(task := Finished(true)) else s
    case TaskDies => if s.task.Running? then s.(task := Finished(false)) else s
    case Elapse(seconds) => s.(now := s.now + seconds)
    case Other(w) =>
      if Foreign(w, c.t) then
        s.(table := Apply(s.table, w, s.now), touched := s.touched + Touched(s.table, w))
      else s
  }

  function Run(c: Config, table: Table, now: nat, actions: seq<Action>): System {
    if actions == [] then System(table, Start, NotQueued, now, None, {}, false)
    else Exec(c, Run(c, table, now, actions[..|actions| - 1]), actions[|actions| - 1])
  }

  /** The request is answered or gone, and its task is not, or no longer, anywhere. */
  predicate Quiescent(s: System) {
    (s.request.Accepted? || s.request.Rejected? || s.request.Killed?) && (s.task.NotQueued? || s.task.Finished?)
  }

  predicate LeftMarked(s: System, t: TaskId, id: RowId) {
    id in s.table && MarkedBy(s.table[id], t)
  }

  /** The mark matched the row, and neither anybody else nor a closing write has touched it since. */
  predicate StillOurs(c: Config, s: System, id: RowId) {
    && s.found.Some? && id in s.found.value && Matches(Mark(c.scope, c.t), id, s.found.value[id])
    && id !in s.touched && !s.closed
  }

  ghost predicate Inv(c: Config, s: System) {
    && (forall id :: LeftMarked(s, c.t, id) <==> StillOurs(c, s, id))
    && (forall id :: LeftMarked(s, c.t, id) ==> InScope(c.scope, id, s.table[id]))
  }

  lemma MarkingStep(c: Config, s: System)
    requires Inv(c, s) && s.found.None?
    ensures Inv(c, Marking(c, s))
  {
    var next := Marking(c, s);
    forall id ensures LeftMarked(next, c.t, id) <==> StillOurs(c, next, id) {
      assert !LeftMarked(s, c.t, id);
    }
  }

  lemma ClosingStep(c: Config, s: System, completed: bool)
    requires Inv(c, s)
    ensures Inv(c, Closing(c, s, completed))
  {
    var next := Closing(c, s, completed);
    forall id ensures !LeftMarked(next, c.t, id) {
      assert LeftMarked(next, c.t, id) ==> LeftMarked(s, c.t, id);
    }
  }

  lemma OtherStep(c: Config, s: System, w: Write)
    requires Inv(c, s) && Foreign(w, c.t)
    ensures Inv(c, Exec(c, s, Other(w)))
  {
    var next := Exec(c, s, Other(w));
    forall id ensures LeftMarked(next, c.t, id) <==> LeftMarked(s, c.t, id) && id !in Touched(s.table, w) {
      if id in next.table { ForeignNeverMarks(s.table, w, s.now, c.t, id); }
      if id in s.table && id !in Touched(s.table, w) { assert next.table[id] == s.table[id]; }
    }
    forall id | LeftMarked(next, c.t, id) ensures InScope(c.scope, id, next.table[id]) {
      ForeignNeverMarks(s.table, w, s.now, c.t, id);
    }
    forall id ensures StillOurs(c, next, id) <==> StillOurs(c, s, id) && id !in Touched(s.table, w) {
    }
  }

  /** Where the request stands says whether the mark was made. */
  ghost predicate Stage(c: Config, s: System) {
    && (s.request.Start? || s.request.Dispatched? ==> s.found.None?)
    && (c.markFirst ==>
          && !s.request.Dispatched?
          && (s.request.Start? || s.request.Marked? ==> s.task.NotQueued?)
          && (s.request.Marked? || s.request.Undoing? || s.request.Accepted? || s.request.Rejected? ==> s.found.Some?)
          && (s.request.Accepted? ==> !s.task.NotQueued?)
          && (s.found.None? ==> s.task.NotQueued?)
          && (s.found.Some? ==> (s.closed <==> s.task == Finished(true) || s.request.Rejected?)))
  }

  /** Steps of request and task alone. */
  lemma OnlyProgress(c: Config, s: System, next: System)
    requires Inv(c, s)
    requires next.table == s.table && next.found == s.found && next.touched == s.touched && next.closed == s.closed
    ensures Inv(c, next)
  {
    assert forall id :: LeftMarked(next, c.t, id) <==> LeftMarked(s, c.t, id);
    assert forall id :: StillOurs(c, next, id) <==> StillOurs(c, s, id);
  }

  lemma StageStep(c: Config, s: System, a: Action)
    requires Stage(c, s)
    ensures Stage(c, Exec(c, s, a))
  {
  }

  /** Every step keeps: a row is left marked exactly if the mark matched it and nobody wrote it since. */
  lemma InvStep(c: Config, s: System, a: Action)
    requires Inv(c, s) && Stage(c, s)
    ensures Inv(c, Exec(c, s, a))
  {
    var next := Exec(c, s, a);
    match a
    case DoMark =>
      if next != s {
        MarkingStep(c, s);
        OnlyProgress(c, Marking(c, s), next);
      }
    case Undo =>
      if next != s {
        ClosingStep(c, s, false);
        OnlyProgress(c, Closing(c, s, false), next);
      }
    case TaskEnds(completed) =>
      if next != s {
        ClosingStep(c, s, completed);
        OnlyProgress(c, Closing(c, s, completed), next);
      }
    case Other(w) => if Foreign(w, c.t) { OtherStep(c, s, w); }
    case _ => OnlyProgress(c, s, next);
  }

  lemma {:induction false} InvAlways(c: Config, table: Table, now: nat, actions: seq<Action>)
    requires FreshId(table, c.t)
    ensures Inv(c, Run(c, table, now, actions)) && Stage(c, Run(c, table, now, actions))
  {
    if actions != [] {
      InvAlways(c, table, now, actions[..|actions| - 1]);
      InvStep(c, Run(c, table, now, actions[..|actions| - 1]), actions[|actions| - 1]);
      StageStep(c, Run(c, table, now, actions[..|actions| - 1]), actions[|actions| - 1]);
    }
  }

  /**
   In every interleaving, and in either order of mark and dispatch, a row is left 'indexing'
   under the id if and only if the mark matched it, nobody else wrote it since, and no closing
   write came after the mark.
   */
  lemma LeftMarkedExactly(c: Config, table: Table, now: nat, actions: seq<Action>, id: RowId)
    requires FreshId(table, c.t)
    ensures LeftMarked(Run(c, table, now, actions), c.t, id) <==> StillOurs(c, Run(c, table, now, actions), id)
  {
    InvAlways(c, table, now, actions);
  }

  /**
   Mark first, then dispatch under the same id: once request and task are at rest, a row is
   left behind if and only if the mark matched it, nobody else wrote it since, and either the
   task died without its closing write or the request was killed between mark and dispatch
   (or before it could undo a dispatch that had failed).
   */
  lemma MarkFirstLeavesExactly(c: Config, table: Table, now: nat, actions: seq<Action>, id: RowId)
    requires c.markFirst && FreshId(table, c.t) && Quiescent(Run(c, table, now, actions))
    ensures
      var s := Run(c, table, now, actions);
      LeftMarked(s, c.t, id) <==>
        && s.found.Some? && id in s.found.value && Matches(Mark(c.scope, c.t), id, s.found.value[id])
        && id !in s.touched
        && (s.task == Finished(false) || s.task.NotQueued?) && !s.request.Rejected?
    ensures
      var s := Run(c, table, now, actions);
      LeftMarked(s, c.t, id) && s.task.NotQueued? ==> s.request.Killed?
  {
    InvAlways(c, table, now, actions);
  }

  /** Behind a closing write, the rows that the mark matched and nobody else wrote are as before, without owner. */
  ghost predicate Restored(c: Config, s: System) {
    s.closed && s.found.Some? ==>
      forall id :: id in s.found.value && Matches(Mark(c.scope, c.t), id, s.found.value[id]) && id !in s.touched ==>
        && id in s.table && s.table[id].kb == s.found.value[id].kb
        && s.table[id].status == Indexed && s.table[id].owner == None && !s.table[id].error
        && s.table[id].attempts == s.found.value[id].attempts
  }

  /** Until then they are under the mark. */
  ghost predicate UnderMark(c: Config, s: System) {
    !s.closed && s.found.Some? ==>
      forall id :: id in s.found.value && Matches(Mark(c.scope, c.t), id, s.found.value[id]) && id !in s.touched ==>
        && id in s.table && s.table[id].kb == s.found.value[id].kb
        && s.table[id].status == Indexing && s.table[id].owner == Some(c.t) && !s.table[id].error
        && s.table[id].attempts == s.found.value[id].attempts
  }

  lemma RestoredStep(c: Config, s: System, a: Action)
    requires Restored(c, s) && UnderMark(c, s)
    ensures Restored(c, Exec(c, s, a)) && UnderMark(c, Exec(c, s, a))
  {
    match a
    case Other(w) => if Foreign(w, c.t) { OthersElsewhere(c, s, w); }
    case _ =>
  }

  lemma OthersElsewhere(c: Config, s: System, w: Write)
    requires Restored(c, s) && UnderMark(c, s) && Foreign(w, c.t)
    ensures Restored(c, Exec(c, s, Other(w))) && UnderMark(c, Exec(c, s, Other(w)))
  {
    forall id | id in s.table && id !in Touched(s.table, w)
      ensures id in Apply(s.table, w, s.now) && Apply(s.table, w, s.now)[id] == s.table[id]
    {
    }
  }

  lemma {:induction false} RestoredAlways(c: Config, table: Table, now: nat, actions: seq<Action>)
    ensures Restored(c, Run(c, table, now, actions)) && UnderMark(c, Run(c, table, now, actions))
  {
    if actions != [] {
      RestoredAlways(c, table, now, actions[..|actions| - 1]);
      RestoredStep(c, Run(c, table, now, actions[..|actions| - 1]), actions[|actions| - 1]);
    }
  }

  /**
   The proper ends: mark first, and once the task has ended or the failed dispatch is undone, every
   row that was indexed and in scope, and that nobody else wrote since, is indexed again, without
   owner and error and with the attempts it had.
   */
  lemma ProperEndRestores(c: Config, table: Table, now: nat, actions: seq<Action>, id: RowId)
    requires c.markFirst && FreshId(table, c.t)
    requires
      var s := Run(c, table, now, actions);
      && (s.task == Finished(true) || s.request.Rejected?)
      && s.found.Some? && id in s.found.value && id !in s.touched
      && s.found.value[id].kb == c.scope.kb && (c.scope.only.None? || c.scope.only.value == id)
      && s.found.value[id].status == Indexed
    ensures
      var s := Run(c, table, now, actions);
      id in s.table &&
      s.table[id] == Row(s.found.value[id].kb, Indexed, None, false, s.found.value[id].attempts, s.table[id].dispatched)
  {
    InvAlways(c, table, now, actions);
    RestoredAlways(c, table, now, actions);
  }

  lemma Snoc(c: Config, table: Table, now: nat, actions: seq<Action>, a: Action)
    ensures Run(c, table, now, actions + [a]) == Exec(c, Run(c, table, now, actions), a)
  {
    assert (actions + [a])[..|actions|] == actions;
  }

  ghost predicate Reachable(c: Config, table: Table, now: nat, s: System) {
    exists actions :: Run(c, table, now, actions) == s
  }

  lemma Reach(c: Config, table: Table, now: nat, s: System, a: Action)
    requires Reachable(c, table, now, s)
    ensures Reachable(c, table, now, Exec(c, s, a))
  {
    var actions :| Run(c, table, now, actions) == s;
    Snoc(c, table, now, actions, a);
  }

  /** Dispatch first, then mark: the task can be finished, closing write and all, before the mark lands. */
  lemma MarkAfterDispatchStrands(c: Config, table: Table, now: nat, id: RowId)
    requires !c.markFirst && FreshId(table, c.t)
    requires id in table && Matches(Mark(c.scope, c.t), id, table[id])
    ensures exists s ::
      && Reachable(c, table, now, s) && Quiescent(s) && LeftMarked(s, c.t, id)
      && s.request.Accepted? && s.task == Finished(true)
  {
    var s0 := Run(c, table, now, []);
    var s1 := Exec(c, s0, Dispatch);
    Reach(c, table, now, s0, Dispatch);
    var s2 := Exec(c, s1, TaskStarts);
    Reach(c, table, now, s1, TaskStarts);
    var s3 := Exec(c, s2, TaskEnds(false));
    Reach(c, table, now, s2, TaskEnds(false));
    assert s3.table == table && s3.request.Dispatched?;
    Reach(c, table, now, s3, DoMark);
    assert LeftMarked(Exec(c, s3, DoMark), c.t, id);
  }

  lemma MarkedState(c: Config, table: Table, now: nat, id: RowId) returns (s: System)
    requires c.markFirst
    requires id in table && Matches(Mark(c.scope, c.t), id, table[id])
    ensures Reachable(c, table, now, s) && LeftMarked(s, c.t, id) && s.request.Marked? && s.task.NotQueued?
  {
    var s0 := Run(c, table, now, []);
    Reach(c, table, now, s0, DoMark);
    s := Exec(c, s0, DoMark);
  }

  /** The first gap is real: a task whose storage retries run out leaves its rows behind. */
  lemma DyingTaskStrands(c: Config, table: Table, now: nat, id: RowId)
    requires c.markFirst
    requires id in table && Matches(Mark(c.scope, c.t), id, table[id])
    ensures exists s :: Reachable(c, table, now, s) && Quiescent(s) && LeftMarked(s, c.t, id) && s.request.Accepted?
  {
    var s := MarkedState(c, table, now, id);
    Reach(c, table, now, s, Dispatch);
    s := Exec(c, s, Dispatch);
    Reach(c, table, now, s, TaskStarts);
    s := Exec(c, s, TaskStarts);
    Reach(c, table, now, s, TaskDies);
    assert LeftMarked(Exec(c, s, TaskDies), c.t, id);
  }

  /** A task that is retried starts again and ends properly, whichever way. */
  lemma RetriedTaskRestores(c: Config, table: Table, now: nat, id: RowId, completed: bool)
    requires c.markFirst
    requires id in table && Matches(Mark(c.scope, c.t), id, table[id])
    ensures exists s ::
      && Reachable(c, table, now, s) && Quiescent(s) && s.request.Accepted? && s.task == Finished(true)
      && id in s.table && s.table[id] == Row(table[id].kb, Indexed, None, false, table[id].attempts, now)
  {
    var s := Exec(c, Run(c, table, now, []), DoMark);
    Reach(c, table, now, Run(c, table, now, []), DoMark);
    Reach(c, table, now, s, Dispatch);
    s := Exec(c, s, Dispatch);
    assert s.task.Queued?;
    Reach(c, table, now, s, TaskStarts);
    s := Exec(c, s, TaskStarts);
    Reach(c, table, now, s, TaskRetries);
    s := Exec(c, s, TaskRetries);
    Reach(c, table, now, s, TaskStarts);
    s := Exec(c, s, TaskStarts);
    assert s.table == Apply(table, Mark(c.scope, c.t), now) && s.now == now;
    Reach(c, table, now, s, TaskEnds(completed));
    s := Exec(c, s, TaskEnds(completed));
    assert s.table[id] == Row(table[id].kb, Indexed, None, false, table[id].attempts, now);
  }

  /**
   A dispatch that raises may have queued the task or not: either way the rows are restored and the
   request is rejected, and the task is there exactly if it was queued.
   */
  lemma RaisedDispatchRestores(c: Config, table: Table, now: nat, id: RowId, queued: bool)
    requires c.markFirst
    requires id in table && Matches(Mark(c.scope, c.t), id, table[id])
    ensures exists s ::
      && Reachable(c, table, now, s) && s.request.Rejected? && s.task == (if queued then Queued else NotQueued)
      && id in s.table && s.table[id] == Row(table[id].kb, Indexed, None, false, table[id].attempts, now)
  {
    var s := Exec(c, Run(c, table, now, []), DoMark);
    Reach(c, table, now, Run(c, table, now, []), DoMark);
    Reach(c, table, now, s, DispatchRaises(queued));
    s := Exec(c, s, DispatchRaises(queued));
    Reach(c, table, now, s, Undo);
    s := Exec(c, s, Undo);
    assert s.table[id] == Row(table[id].kb, Indexed, None, false, table[id].attempts, now);
  }

  /** So is the second: the mark is committed before anything is queued. */
  lemma KilledRequestStrands(c: Config, table: Table, now: nat, id: RowId)
    requires c.markFirst
    requires id in table && Matches(Mark(c.scope, c.t), id, table[id])
    ensures exists s :: Reachable(c, table, now, s) && Quiescent(s) && LeftMarked(s, c.t, id) && s.task.NotQueued?
  {
    var s := MarkedState(c, table, now, id);
    Reach(c, table, now, s, RequestDies);
    assert LeftMarked(Exec(c, s, RequestDies), c.t, id);
  }

  // ---- the routes ---------------------------------------------------------------------

  datatype Answer = Ok | NotFound | Conflict | ServerError

  class Database {
    var rows: Table
    var now: nat

    /** The tasks that Celery was told to revoke. */
    var revoked: set<TaskId>

    method MarkReenriching(scope: Scope, task: TaskId)
      modifies this`rows
      ensures rows.Keys == old(rows).Keys
      ensures forall id :: id in rows ==>
        var row := old(rows)[id];
        rows[id] == if row.kb == scope.kb && (scope.only.None? || scope.only.value == id) && row.status == Indexed
                    then Row(row.kb, Indexing, Some(task), false, row.attempts, now) else row
    {
      rows := Apply(rows, Mark(scope, task), now);
    }

    method UnmarkReenriching(scope: Scope, task: TaskId)
      modifies this`rows
      ensures rows.Keys == old(rows).Keys
      ensures forall id :: id in rows ==>
        var row := old(rows)[id];
        rows[id] == if row.kb == scope.kb && (scope.only.None? || scope.only.value == id) && MarkedBy(row, task)
                    then Row(row.kb, Indexed, None, row.error, row.attempts, row.dispatched) else row
    {
      rows := Apply(rows, Restore(scope, task), now);
    }

    /**
     `run_graph_reenrichment` from the mark on: `tid` is minted here, and a dispatch that
     raises is undone. Nobody else writes meanwhile.
     */
    method RunGraphReenrichment(scope: Scope, tid: TaskId, dispatchRaises: bool) returns (answer: Answer)
      requires FreshId(rows, tid)
      modifies this`rows
      ensures answer == if dispatchRaises then ServerError else Ok
      ensures rows.Keys == old(rows).Keys
      ensures forall id :: id in rows ==>
        var row := old(rows)[id];
        if !(row.kb == scope.kb && (scope.only.None? || scope.only.value == id) && row.status == Indexed)
        then rows[id] == row
        else if dispatchRaises then rows[id] == Row(row.kb, Indexed, None, false, row.attempts, now)
        else MarkedBy(rows[id], tid) && rows[id].dispatched == now
    {
      MarkReenriching(scope, tid);
      if dispatchRaises {
        UnmarkReenriching(scope, tid);
        return ServerError;
      }
      return Ok;
    }

    /** `_claim_indexed_source`: the new attempts count, or None if the row was not pending. */
    method ClaimIndexedSource(id: RowId, task: TaskId) returns (attempts: Option<nat>)
      modifies this`rows
      ensures attempts ==
        if id in old(rows) && old(rows)[id].status == Pending then Some(old(rows)[id].attempts + 1) else None
      ensures rows ==
        if attempts.None? then old(rows)
        else old(rows)[id := Row(old(rows)[id].kb, Indexing, Some(task), old(rows)[id].error, attempts.value, now)]
    {
      attempts := if id in rows && rows[id].status == Pending then Some(rows[id].attempts + 1) else None;
      rows := Apply(rows, Claim(id, task), now);
    }

    /** `_fenced_mark_indexed` and `_fenced_mark_failed`: the owner's result, and nobody else's. */
    method FencedMark(id: RowId, task: TaskId, failed: bool) returns (matched: nat)
      modifies this`rows
      ensures matched == if id in old(rows) && old(rows)[id].owner == Some(task) then 1 else 0
      ensures rows ==
        if matched == 0 then old(rows)
        else
          var row := old(rows)[id];
          var status := if failed then Failed else Indexed;
          old(rows)[id := Row(row.kb, status, Some(task), failed, row.attempts, row.dispatched)]
    {
      matched := if id in rows && rows[id].owner == Some(task) then 1 else 0;
      rows := Apply(rows, if failed then FinishFailed(id, task) else FinishIndexed(id, task), now);
    }

    /**
     `_handle_storage_error`: within the bound the owner's row goes back to pending, without owner,
     and is dispatched again; at the bound it fails. A superseded task changes and dispatches nothing.
     */
    method HandleStorageError(id: RowId, task: TaskId, maxAttempts: nat) returns (dispatched: bool)
      modifies this`rows
      ensures dispatched <==>
        id in old(rows) && old(rows)[id].owner == Some(task) && old(rows)[id].attempts < maxAttempts
      ensures rows ==
        if id !in old(rows) || old(rows)[id].owner != Some(task) then old(rows)
        else
          var row := old(rows)[id];
          old(rows)[id :=
            if row.attempts < maxAttempts then Row(row.kb, Pending, None, false, row.attempts, row.dispatched)
            else Row(row.kb, Failed, Some(task), true, row.attempts, row.dispatched)]
    {
      var attempts := if id in rows then rows[id].attempts else maxAttempts;
      dispatched := false;
      if attempts < maxAttempts {
        dispatched := id in rows && rows[id].owner == Some(task);
        rows := Apply(rows, Requeue(id, task), now);
      } else {
        var matched := FencedMark(id, task, true);
      }
    }

    /** `_mark_indexed_source_failed`: no fence, so whoever owns the row. */
    method MarkIndexedSourceFailed(id: RowId)
      modifies this`rows
      ensures rows ==
        if id in old(rows) then old(rows)[id := old(rows)[id].(status := Failed, error := true)] else old(rows)
    {
      rows := Apply(rows, FailUnfenced(id), now);
    }

    /** The completion of a re-enrichment: the rows the task still owns are indexed, without owner and error. */
    method CompleteReenrichment(scope: Scope, task: TaskId)
      modifies this`rows
      ensures rows.Keys == old(rows).Keys
      ensures forall id :: id in rows ==>
        var row := old(rows)[id];
        rows[id] == if row.kb == scope.kb && (scope.only.None? || scope.only.value == id) && MarkedBy(row, task)
                    then Row(row.kb, Indexed, None, false, row.attempts, row.dispatched) else row
    {
      rows := Apply(rows, Complete(scope, task), now);
    }

    /** The watchdog's terminal writes, one row at a time. */
    method FailExhausted(exhausted: set<RowId>)
      modifies this`rows
      ensures rows.Keys == old(rows).Keys
      ensures forall id :: id in rows ==>
        rows[id] == if id in exhausted && old(rows)[id].status == Indexing
                    then old(rows)[id].(status := Failed, error := true) else old(rows)[id]
    {
      ghost var done: set<RowId> := {};
      var todo := exhausted;
      while todo != {}
        invariant done + todo == exhausted && done !! todo && rows.Keys == old(rows).Keys
        invariant forall id :: id in rows ==>
          rows[id] == if id in done && old(rows)[id].status == Indexing
                      then old(rows)[id].(status := Failed, error := true) else old(rows)[id]
        decreases todo
      {
        var id :| id in todo;
        rows := Apply(rows, WatchdogFail(id), now);
        todo, done := todo - {id}, done + {id};
      }
      assert done == exhausted;
    }

    /**
     `_find_and_recover_orphans`: a row that is indexing, was dispatched more than two minutes ago
     and names an owner that is not alive fails if its attempts are used up, and is pending again
     otherwise, under its old owner's id; no other row changes.
     */
    method RecoverOrphans(alive: set<TaskId>, maxAttempts: nat) returns (recovered: set<RowId>)
      modifies this`rows
      ensures rows.Keys == old(rows).Keys
      ensures forall id :: id in rows ==>
        var row := old(rows)[id];
        var orphan :=
          row.status == Indexing && row.dispatched + 120 < now && row.owner.Some? && row.owner.value !in alive;
        && (id in recovered <==> orphan && row.attempts < maxAttempts)
        && rows[id] == if !orphan then row
                       else if row.attempts < maxAttempts then Row(row.kb, Pending, row.owner, false, row.attempts, now)
                       else Row(row.kb, Failed, row.owner, true, row.attempts, row.dispatched)
    {
      var exhausted := set id | id in rows && Orphan(rows[id], now, alive) && rows[id].attempts >= maxAttempts;
      recovered := set id | id in rows && Orphan(rows[id], now, alive) && rows[id].attempts < maxAttempts;
      FailExhausted(exhausted);
      rows := Apply(rows, WatchdogReset(recovered), now);
    }

    /** `reindex_kb` over the rows it selected; the other rows keep everything. */
    method ResetForReindex(ids: set<RowId>)
      modifies this`rows
      ensures rows.Keys == old(rows).Keys
      ensures forall id :: id in rows ==>
        rows[id] == if id in ids then Row(old(rows)[id].kb, Pending, None, false, 0, now) else old(rows)[id]
    {
      rows := Apply(rows, Reset(ids), now);
    }

    /**
     `cancel_indexing`: only a pending or running row is cancelled; its owner stays recorded,
     and is told to stop unless the broker cannot be reached.
     */
    method CancelIndexing(kb: nat, id: RowId, revokeRaises: bool) returns (answer: Answer)
      modifies this`rows, this`revoked
      ensures answer ==
        if id !in old(rows) || old(rows)[id].kb != kb then NotFound
        else if old(rows)[id].status in {Pending, Indexing} then Ok else Conflict
      ensures answer != Ok ==> rows == old(rows) && revoked == old(revoked)
      ensures answer == Ok ==>
        && rows == old(rows)[id := old(rows)[id].(status := Cancelled, error := true)]
        && revoked == old(revoked) +
             (if old(rows)[id].owner.Some? && !revokeRaises then {old(rows)[id].owner.value} else {})
    {
      if id !in rows || rows[id].kb != kb {
        return NotFound;
      }
      if rows[id].status != Pending && rows[id].status != Indexing {
        return Conflict;
      }
      if rows[id].owner.Some? && !revokeRaises {
        revoked := revoked + {rows[id].owner.value};
      }
      rows := Apply(rows, Cancel(id), now);
      return Ok;
    }
  }
}
