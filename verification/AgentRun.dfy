/**
 A streamed agent run as a step system. The program points are the yields of the SSE
 generator and the code between them; the ReAct worker thread, the LLM generator, the
 background finisher and the client take the other steps. Any order of steps is a run.
 Database writes succeed; everything else may raise.
 */
module AgentRun {
  import opened Options
  import opened AgentEvents

  datatype Status = Running | Completed | Failed

  datatype Row = Absent | Row(status: Status, content: string)

  /** One entry per committed status write, and one per posted agent_run charge. */
  datatype Entry = Committed(status: Status) | Posted

  /** `orphan` says that the "run was never persisted" disconnect branch was taken. */
  datatype Database = Database(row: Row, log: seq<Entry>, runPersisted: bool, orphan: bool)

  /** The worker appends a result, appends an error, or dies on a BaseException. */
  datatype WorkerEnd = Returned(success: bool, content: Option<string>) | Raised | Vanished

  datatype Worker = Unstarted | Working | Ended(end: WorkerEnd)

  /** Everything the worker ever put on the queue, and what the drain made of it so far. */
  datatype Queue = Queue(emitted: seq<Event>, taken: nat, contentBuffer: string, eventsForDb: seq<Event>)

  /** The value of the StopIteration that ends the LLM generator. */
  datatype LlmEnd = Output(success: bool) | NoOutput

  datatype Phase = NotCreated | Live | Spent

  /** Every chunk produced, the chunks kept, the place of a chunk nobody kept, and what the chat loop saw at the end. */
  datatype Llm =
    Llm(phase: Phase, produced: seq<string>, contentChunks: seq<string>, lost: Option<nat>, end: Option<LlmEnd>)

  /**
   Aborted: an exception ended the thread before its commit; it is logged and nothing is written.
   `billed` says that a charge, if it was due, was posted.
   */
  datatype Finisher =
    | NotStarted | Draining | Deciding(end: LlmEnd) | Settling(end: LlmEnd)
    | Stopped(end: LlmEnd, billed: bool) | Aborted

  /** The final content and what the `chunk` and `complete` frames carried. */
  datatype Sent = Sent(final: string, chunk: Option<string>, complete: Option<string>)

  datatype Pc =
    | Setup
    | ReactStart | ReactLaunch | ReactGet | ReactFrame | ReactJoin
    | ReactChunk | ReactPersist | ReactCharge(success: bool) | ReactComplete
    | ChatStart(drops: nat) | ChatNext | ChatDelta(left: nat, inFlight: string) | ChatChunk
    | ChatTail(left: nat, extra: nat, end: LlmEnd) | ChatFinal(extra: nat, end: LlmEnd)
    | ChatExtra(left: nat, end: LlmEnd) | ChatPersist(end: LlmEnd)
    | ChatCharge(success: bool) | ChatComplete
    | ErrorFrame | Gone
  {
    /** Suspended at a yield inside the generator's try block. */
    predicate GuardedYield() {
      ReactStart? || ReactFrame? || ReactChunk? || ReactComplete? || ChatStart? || ChatDelta? ||
      ChatChunk? || ChatTail? || ChatFinal? || ChatExtra? || ChatComplete?
    }

    /** Running code of the try block between two yields. */
    predicate Executing() {
      Setup? || ReactLaunch? || ReactGet? || ReactJoin? || ReactPersist? || ReactCharge? ||
      ChatNext? || ChatPersist? || ChatCharge?
    }

    /** The run row exists and its terminal status has not been written yet. */
    predicate BeforePersist() {
      InReactDrain() || ReactChunk? || ReactPersist? || ChatStart? || InChatLoop() ||
      ChatTail? || ChatFinal? || ChatExtra? || ChatPersist?
    }

    predicate InReactDrain() {
      ReactStart? || ReactLaunch? || ReactGet? || ReactFrame? || ReactJoin?
    }

    predicate InReact() {
      InReactDrain() || ReactChunk? || ReactPersist? || ReactCharge? || ReactComplete?
    }

    predicate InChatLoop() {
      ChatNext? || ChatDelta? || ChatChunk?
    }

    predicate AfterChatLoop() {
      ChatTail? || ChatFinal? || ChatExtra? || ChatPersist? || ChatCharge? || ChatComplete?
    }
  }

  datatype State = State(pc: Pc, db: Database, worker: Worker, queue: Queue, llm: Llm, finisher: Finisher, sent: Sent)

  /** What does not change during a run: the streaming switch and citation parsing. */
  datatype Env = Env(streaming: bool, parse: string -> string)

  datatype Action =
    | BeginReact | BeginChat(drops: nat)
    | Resume | Disconnect | Raise(posted: bool)
    | LaunchWorker | Emit(event: Event) | EndWorker(outcome: WorkerEnd)
    | GetEvent | Join | Persist | Charge
    | LlmYields(chunk: string, deltas: nat) | LlmEnds(end: LlmEnd, deltas: nat, extra: nat) | LlmRaises
    | FinisherChunk(chunk: string) | FinisherEnd(end: LlmEnd) | FinisherRaises | FinisherCommit
    | FinisherCharge(raises: bool, posted: bool)
  {
    predicate OfClient() { Disconnect? || Raise? || BeginReact? || BeginChat? }
    predicate OfGenerator() { GetEvent? || Join? || Persist? || Charge? }
    predicate OfLlm() { LlmYields? || LlmEnds? || LlmRaises? }
  }

  const INIT := State(Setup, Database(Absent, [], false, false), Unstarted, Queue([], 0, "", []),
                      Llm(NotCreated, [], [], None, None), NotStarted, Sent("", None, None))

  function JoinText(chunks: seq<string>): string {
    if chunks == [] then "" else JoinText(chunks[..|chunks| - 1]) + chunks[|chunks| - 1]
  }

  /** `update_agent_run` with a status and, when given, a content; committed. */
  function Write(db: Database, status: Status, content: Option<string>): Database {
    if db.row.Absent? then db else
      db.(row := Row(status, if content.Some? then content.value else db.row.content),
          log := db.log + [Committed(status)])
  }

  /** The early persist: the run is committed as RUNNING. */
  function Created(db: Database): Database {
    Database(Row(Running, ""), db.log + [Committed(Running)], true, db.orphan)
  }

  function Bill(db: Database, success: bool): Database {
    if success then db.(log := db.log + [Posted]) else db
  }

  /** `except Exception`: mark the run FAILED, then yield the error frame. */
  function Handle(s: State): State {
    s.(pc := ErrorFrame, db := Write(s.db, Failed, None))
  }

  /** The generator is closed at a yield of the try block. */
  function Close(s: State): State {
    if s.pc.ChatDelta? then
      s.(pc := Gone, finisher := Draining, llm := s.llm.(lost := Some(|s.llm.contentChunks|)))
    else if s.pc.ChatChunk? || !s.llm.phase.NotCreated? then
      s.(pc := Gone, finisher := Draining)
    else if s.db.runPersisted then
      s.(pc := Gone, db := Write(s.db, Failed, None))
    else
      s.(pc := Gone, db := Database(Row(Failed, ""), s.db.log + [Committed(Failed)], false, true))
  }

  function OutputText(w: Worker): Option<string> {
    if w.Ended? && w.end.Returned? then w.end.content else None
  }

  function AfterFinal(s: State, extra: nat, end: LlmEnd): State {
    s.(pc := if extra > 0 then ChatExtra(extra - 1, end) else ChatPersist(end))
  }

  function AfterTail(env: Env, s: State, extra: nat, end: LlmEnd): State {
    var final := env.parse(JoinText(s.llm.contentChunks));
    if env.streaming && final != "" then
      s.(pc := ChatFinal(extra, end), sent := Sent(final, Some(final), s.sent.complete))
    else
      AfterFinal(s.(sent := s.sent.(final := final)), extra, end)
  }

  function KeepChunk(llm: Llm, chunk: string): Llm {
    llm.(contentChunks := llm.contentChunks + [chunk])
  }

  /** The client asks for the next frame of the ReAct branch, or of the error handler. */
  function ResumedReact(s: State): State {
    match s.pc
    case ReactStart => s.(pc := ReactLaunch)
    case ReactFrame => s.(pc := ReactGet)
    case ReactChunk => s.(pc := ReactPersist)
    case ReactComplete => s.(pc := Gone)
    case ErrorFrame => s.(pc := Gone)
    case _ => s
  }

  /** The client asks for the next frame of the chat branch. */
  function ResumedChat(env: Env, s: State): State {
    match s.pc
    case ChatStart(drops) =>
      if drops > 0 then s.(pc := ChatStart(drops - 1)) else s.(pc := ChatNext, llm := s.llm.(phase := Live))
    case ChatDelta(left, chunk) =>
      if left > 0 then s.(pc := ChatDelta(left - 1, chunk))
      else s.(pc := ChatNext, llm := KeepChunk(s.llm, chunk))
    case ChatChunk => s.(pc := ChatNext)
    case ChatTail(left, extra, end) =>
      if left > 0 then s.(pc := ChatTail(left - 1, extra, end)) else AfterTail(env, s, extra, end)
    case ChatFinal(extra, end) => AfterFinal(s, extra, end)
    case ChatExtra(left, end) => AfterFinal(s, left, end)
    case ChatComplete => s.(pc := Gone)
    case _ => s
  }

  function Took(q: Queue): Queue
    requires q.taken < |q.emitted|
  {
    var e := q.emitted[q.taken];
    q.(taken := q.taken + 1,
       contentBuffer := if e.ContentDelta? then q.contentBuffer + e.delta else q.contentBuffer,
       eventsForDb := if Persists(Agents, e) then q.eventsForDb + [e] else q.eventsForDb)
  }

  /** `event_queue.get(timeout=30)`: an event, the sentinel behind the last event, or a timeout. */
  function Got(s: State): State {
    if s.queue.taken < |s.queue.emitted| then s.(pc := ReactFrame, queue := Took(s.queue))
    else if s.worker.Ended? then s.(pc := ReactJoin)
    else s.(pc := ReactFrame)
  }

  function Joined(env: Env, s: State): State {
    if s.worker.Ended? && s.worker.end.Returned? then
      var final := AgentFinal(env.streaming, s.queue.contentBuffer, OutputText(s.worker), s.queue.eventsForDb);
      s.(pc := ReactChunk, sent := Sent(final, Some(final), s.sent.complete))
    else
      Handle(s)
  }

  function StatusOf(success: bool): Status {
    if success then Completed else Failed
  }

  function Succeeded(end: LlmEnd): bool {
    end.Output? && end.success
  }

  function Persisting(env: Env, s: State): State {
    match s.pc
    case ReactPersist =>
      var success := s.worker.Ended? && s.worker.end.Returned? && s.worker.end.success;
      var final := env.parse(s.sent.final);
      s.(pc := ReactCharge(success), sent := s.sent.(final := final),
         db := Write(s.db, StatusOf(success), Some(final)))
    case ChatPersist(end) =>
      s.(pc := ChatCharge(Succeeded(end)), db := Write(s.db, StatusOf(Succeeded(end)), Some(s.sent.final)))
    case _ => s
  }

  /** Charge on success only, then send the `complete` frame. */
  function Charging(s: State): State {
    match s.pc
    case ReactCharge(success) =>
      s.(pc := ReactComplete, db := Bill(s.db, success), sent := s.sent.(complete := Some(s.sent.final)))
    case ChatCharge(success) =>
      s.(pc := ChatComplete, db := Bill(s.db, success), sent := s.sent.(complete := Some(s.sent.final)))
    case _ => s
  }

  /** An exception between two yields; a charge may already have been posted. */
  function Raising(s: State, posted: bool): State {
    if (s.pc.ReactCharge? || s.pc.ChatCharge?) && posted then
      Handle(s.(db := Bill(s.db, s.pc.success)))
    else
      Handle(s)
  }

  /** `next(llm_gen)` gives a chunk; its callbacks queued `deltas` frames. */
  function Chunk(env: Env, s: State, chunk: string, deltas: nat): State {
    var llm := s.llm.(produced := s.llm.produced + [chunk]);
    if env.streaming then
      if deltas > 0 then s.(pc := ChatDelta(deltas - 1, chunk), llm := llm)
      else s.(llm := KeepChunk(llm, chunk))
    else
      s.(pc := ChatChunk, llm := KeepChunk(llm, chunk))
  }

  /** `next(llm_gen)` stops; `extra` reasoning and error frames follow the terminal chunk. */
  function EndOfLlm(env: Env, s: State, end: LlmEnd, deltas: nat, extra: nat): State {
    var s := s.(llm := s.llm.(phase := Spent, end := Some(end)));
    if env.streaming && deltas > 0 then s.(pc := ChatTail(deltas - 1, extra, end))
    else AfterTail(env, s, extra, end)
  }

  function FinisherStep(env: Env, s: State, a: Action): State {
    match a
    case FinisherChunk(chunk) =>
      if s.finisher.Draining? && s.llm.phase.Live? then
        s.(llm := KeepChunk(s.llm.(produced := s.llm.produced + [chunk]), chunk))
      else s
    case FinisherEnd(end) =>
      if s.finisher.Draining? then
        s.(llm := s.llm.(phase := Spent), finisher := Deciding(if s.llm.phase.Live? then end else NoOutput))
      else s
    case FinisherCommit =>
      if s.finisher.Deciding? then
        s.(db := Write(s.db, StatusOf(Succeeded(s.finisher.end)), Some(env.parse(JoinText(s.llm.contentChunks)))),
           finisher := Settling(s.finisher.end))
      else s
    case FinisherRaises =>
      if s.finisher.Draining? || s.finisher.Deciding? then s.(finisher := Aborted) else s
    case FinisherCharge(raises, posted) =>
      if s.finisher.Settling? then
        s.(finisher := Stopped(s.finisher.end, !raises || posted),
           db := Bill(s.db, Succeeded(s.finisher.end) && (!raises || posted)))
      else s
    case _ => s
  }

  function WorkerStep(s: State, a: Action): State {
    match a
    case LaunchWorker => if s.pc.ReactLaunch? then s.(pc := ReactGet, worker := Working) else s
    case Emit(e) =>
      if s.worker.Working? then s.(queue := s.queue.(emitted := s.queue.emitted + [e])) else s
    case EndWorker(outcome) => if s.worker.Working? then s.(worker := Ended(outcome)) else s
    case _ => s
  }

  function Exec(env: Env, s: State, a: Action): State {
    match a
    case BeginReact => if s.pc.Setup? then s.(pc := ReactStart, db := Created(s.db)) else s
    case BeginChat(drops) => if s.pc.Setup? then s.(pc := ChatStart(drops), db := Created(s.db)) else s
    case Resume => if s.pc.InReact() || s.pc.ErrorFrame? then ResumedReact(s) else ResumedChat(env, s)
    case Disconnect =>
      if s.pc.GuardedYield() then Close(s)
      else if s.pc.ErrorFrame? then s.(pc := Gone)
      else s
    case Raise(posted) => if s.pc.Executing() then Raising(s, posted) else s
    case GetEvent => if s.pc.ReactGet? then Got(s) else s
    case Join => if s.pc.ReactJoin? then Joined(env, s) else s
    case Persist => Persisting(env, s)
    case Charge => Charging(s)
    case LlmYields(chunk, deltas) => if s.pc.ChatNext? then Chunk(env, s, chunk, deltas) else s
    case LlmEnds(end, deltas, extra) => if s.pc.ChatNext? then EndOfLlm(env, s, end, deltas, extra) else s
    case LlmRaises =>
      if s.pc.ChatNext? then Handle(s.(llm := s.llm.(phase := Spent)))
      else if s.finisher.Draining? then s.(llm := s.llm.(phase := Spent), finisher := Deciding(NoOutput))
      else s
    case FinisherChunk(_) => FinisherStep(env, s, a)
    case FinisherEnd(_) => FinisherStep(env, s, a)
    case FinisherCommit => FinisherStep(env, s, a)
    case FinisherRaises => FinisherStep(env, s, a)
    case FinisherCharge(_, _) => FinisherStep(env, s, a)
    case LaunchWorker => WorkerStep(s, a)
    case Emit(_) => WorkerStep(s, a)
    case EndWorker(_) => WorkerStep(s, a)
  }

  function Run(env: Env, actions: seq<Action>): State {
    if actions == [] then INIT
    else Exec(env, Run(env, actions[..|actions| - 1]), actions[|actions| - 1])
  }

  /** The generator is closed, no worker is running and the finisher has committed or is gone. */
  predicate Quiescent(s: State) {
    s.pc.Gone? && !s.worker.Working? && !s.finisher.Draining? && !s.finisher.Deciding?
  }

  function Charges(log: seq<Entry>): nat {
    multiset(log)[Posted]
  }

  /** A charge at this place directly follows the commit of a COMPLETED status. */
  predicate FollowsCompletion(log: seq<Entry>, k: nat)
    requires k < |log|
  {
    log[k] == Posted ==> k > 0 && log[k - 1] == Committed(Completed)
  }

  ghost predicate ChargesFollowCompletion(log: seq<Entry>) {
    forall k :: 0 <= k < |log| ==> FollowsCompletion(log, k)
  }

  /** RUNNING is committed first and never again. */
  ghost predicate RunningOnce(log: seq<Entry>) {
    forall k :: 0 <= k < |log| ==> (log[k] == Committed(Running) <==> k == 0)
  }

  /** A terminal status was committed. */
  predicate Settled(log: seq<Entry>) {
    Committed(Completed) in log || Committed(Failed) in log
  }

  /** The row's status is the last one committed. */
  ghost predicate LastWrite(row: Row, log: seq<Entry>) {
    && row.Row? && log != []
    && (log[|log| - 1].Committed? ==> log[|log| - 1].status == row.status)
    && (log[|log| - 1].Posted? ==> row.status == Completed)
  }

  /** The chunks the LLM produced, without the lost one. */
  function Kept(produced: seq<string>, lost: Option<nat>): seq<string> {
    if lost.Some? && lost.value < |produced| then produced[..lost.value] + produced[lost.value + 1..]
    else produced
  }

  // ---- the row ------------------------------------------------------------------------

  ghost predicate RowInv(s: State) {
    && s.db.runPersisted == s.db.row.Row?
    && !s.db.orphan
    && (s.db.row.Absent? ==>
         s.db.log == [] && (s.pc.Setup? || s.pc.ErrorFrame? || s.pc.Gone?) && s.llm.phase.NotCreated? &&
         s.worker.Unstarted? && s.finisher.NotStarted?)
    && (s.db.row.Row? ==> !s.pc.Setup? && LastWrite(s.db.row, s.db.log) && RunningOnce(s.db.log))
    && (s.db.row.Row? && s.db.row.status.Running? ==>
         s.pc.BeforePersist() || s.finisher.Draining? || s.finisher.Deciding? || s.finisher.Aborted?)
    && (s.pc.ReactCharge? || s.pc.ChatCharge? ==> s.db.row.Row? && s.db.row.status == StatusOf(s.pc.success))
    && (s.finisher.Settling? ==> s.db.row.Row? && s.db.row.status == StatusOf(Succeeded(s.finisher.end)))
    && (!s.finisher.NotStarted? ==> s.pc.Gone? && s.db.row.Row? && !s.llm.phase.NotCreated?)
    && (s.finisher.Deciding? || s.finisher.Settling? || s.finisher.Stopped? ==> s.llm.phase.Spent?)
    && (s.pc.InReact() || s.pc.ChatStart? ==> s.llm.phase.NotCreated?)
    && (s.pc.InChatLoop() ==> s.llm.phase.Live?)
    && (s.pc.AfterChatLoop() ==> s.llm.phase.Spent?)
  }

  lemma RowResumedReact(env: Env, s: State)
    requires RowInv(s)
    ensures RowInv(ResumedReact(s))
  {
  }

  lemma RowResumedChat(env: Env, s: State)
    requires RowInv(s)
    ensures RowInv(ResumedChat(env, s))
  {
  }

  lemma RowResume(env: Env, s: State)
    requires RowInv(s)
    ensures RowInv(Exec(env, s, Resume))
  {
    RowResumedReact(env, s);
    RowResumedChat(env, s);
  }

  lemma RunningOnceAppended(log: seq<Entry>, e: Entry)
    requires RunningOnce(log) && log != [] && e != Committed(Running)
    ensures RunningOnce(log + [e])
  {
  }

  /** A later write keeps the first RUNNING the only one. */
  lemma RowWritten(db: Database, status: Status, content: Option<string>)
    requires db.row.Row? && RunningOnce(db.log) && db.log != [] && status != Running
    ensures
      var next := Write(db, status, content);
      RunningOnce(next.log) && LastWrite(next.row, next.log) && next.row.status == status
  {
    RunningOnceAppended(db.log, Committed(status));
  }

  lemma RowBilled(db: Database, success: bool)
    requires db.row.Row? && RunningOnce(db.log) && LastWrite(db.row, db.log) && db.row.status == StatusOf(success)
    ensures RunningOnce(Bill(db, success).log) && LastWrite(db.row, Bill(db, success).log)
  {
    RunningOnceAppended(db.log, Posted);
  }

  lemma RowHandle(s: State)
    requires RowInv(s) && s.pc.Executing()
    ensures RowInv(Handle(s))
  {
    if s.db.row.Row? { RowWritten(s.db, Failed, None); }
  }

  lemma RowRaise(s: State, posted: bool)
    requires RowInv(s) && s.pc.Executing()
    ensures RowInv(Raising(s, posted))
  {
    RowHandle(s);
    if s.pc.ReactCharge? || s.pc.ChatCharge? {
      RowBilled(s.db, s.pc.success);
      RowWritten(Bill(s.db, s.pc.success), Failed, None);
    }
  }

  lemma RowClose(s: State)
    requires RowInv(s) && s.pc.GuardedYield()
    ensures RowInv(Close(s))
  {
    RowWritten(s.db, Failed, None);
  }

  lemma RowClient(env: Env, s: State, a: Action)
    requires RowInv(s) && a.OfClient()
    ensures RowInv(Exec(env, s, a))
  {
    if a.Disconnect? && s.pc.GuardedYield() {
      RowClose(s);
    } else if a.Raise? && s.pc.Executing() {
      RowRaise(s, a.posted);
    }
  }

  lemma RowJoin(env: Env, s: State)
    requires RowInv(s) && s.pc.ReactJoin?
    ensures RowInv(Joined(env, s))
  {
    RowHandle(s);
  }

  lemma RowPersist(env: Env, s: State)
    requires RowInv(s)
    ensures RowInv(Persisting(env, s))
  {
    if s.pc.ReactPersist? {
      var success := s.worker.Ended? && s.worker.end.Returned? && s.worker.end.success;
      RowWritten(s.db, StatusOf(success), Some(env.parse(s.sent.final)));
    } else if s.pc.ChatPersist? {
      RowWritten(s.db, StatusOf(Succeeded(s.pc.end)), Some(s.sent.final));
    }
  }

  lemma RowCharging(s: State)
    requires RowInv(s)
    ensures RowInv(Charging(s))
  {
    if s.pc.ReactCharge? || s.pc.ChatCharge? { RowBilled(s.db, s.pc.success); }
  }

  lemma RowGenerator(env: Env, s: State, a: Action)
    requires RowInv(s) && a.OfGenerator()
    ensures RowInv(Exec(env, s, a))
  {
    match a {
      case GetEvent =>
      case Join => if s.pc.ReactJoin? { RowJoin(env, s); }
      case Persist => RowPersist(env, s);
      case Charge => RowCharging(s);
    }
  }

  lemma RowLlmRaises(env: Env, s: State)
    requires RowInv(s)
    ensures RowInv(Exec(env, s, LlmRaises))
  {
    if s.pc.ChatNext? { RowWritten(s.db, Failed, None); }
  }

  lemma RowLlm(env: Env, s: State, a: Action)
    requires RowInv(s) && a.OfLlm()
    ensures RowInv(Exec(env, s, a))
  {
    if a.LlmRaises? { RowLlmRaises(env, s); }
  }

  lemma RowFinisher(env: Env, s: State, a: Action)
    requires RowInv(s)
    ensures RowInv(FinisherStep(env, s, a))
  {
    if a.FinisherCommit? && s.finisher.Deciding? {
      RowWritten(s.db, StatusOf(Succeeded(s.finisher.end)), Some(env.parse(JoinText(s.llm.contentChunks))));
    } else if a.FinisherCharge? && s.finisher.Settling? {
      RowBilled(s.db, Succeeded(s.finisher.end));
    }
  }

  lemma RowThreads(env: Env, s: State, a: Action)
    requires RowInv(s)
    ensures RowInv(FinisherStep(env, s, a)) && RowInv(WorkerStep(s, a))
  {
    RowFinisher(env, s, a);
  }

  lemma RowStep(env: Env, s: State, a: Action)
    requires RowInv(s)
    ensures RowInv(Exec(env, s, a))
  {
    if a.Resume? {
      RowResume(env, s);
    } else if a.OfClient() {
      RowClient(env, s, a);
    } else if a.OfGenerator() {
      RowGenerator(env, s, a);
    } else if a.OfLlm() {
      RowLlm(env, s, a);
    } else {
      RowThreads(env, s, a);
    }
  }

  // ---- the charge ---------------------------------------------------------------------

  ghost predicate ChargeInv(s: State) {
    && ChargesFollowCompletion(s.db.log)
    && Charges(s.db.log) <= 1
    && (Charges(s.db.log) == 1 ==>
         && (s.pc.ReactComplete? || s.pc.ChatComplete? || s.pc.ErrorFrame? || s.pc.Gone?)
         && (s.finisher.Draining? ==> s.llm.phase.Spent?)
         && (s.finisher.Deciding? ==> s.finisher.end.NoOutput?)
         && (s.finisher.Settling? ==> s.finisher.end.NoOutput?))
    && (s.pc.ReactCharge? || s.pc.ChatCharge? ==>
         s.db.log != [] && s.db.log[|s.db.log| - 1] == Committed(StatusOf(s.pc.success)))
    && (s.finisher.Settling? ==>
         s.db.log != [] && s.db.log[|s.db.log| - 1] == Committed(StatusOf(Succeeded(s.finisher.end))))
    && (s.db.row.Row? && s.db.row.status.Completed? ==>
         && (s.pc.ReactCharge? || s.pc.ChatCharge? || s.pc.ReactComplete? || s.pc.ChatComplete? || s.pc.Gone?)
         && (s.finisher.Draining? ==> s.llm.phase.Spent?)
         && (s.finisher.Deciding? ==> s.finisher.end.NoOutput?))
  }

  lemma LogAppended(log: seq<Entry>, e: Entry)
    requires ChargesFollowCompletion(log)
    requires e.Posted? ==> log != [] && log[|log| - 1] == Committed(Completed)
    ensures ChargesFollowCompletion(log + [e])
    ensures Charges(log + [e]) == Charges(log) + if e.Posted? then 1 else 0
  {
    forall k | 0 <= k < |log + [e]|
      ensures FollowsCompletion(log + [e], k)
    {
      assert k < |log| ==> FollowsCompletion(log, k);
    }
  }

  lemma Billed(db: Database, success: bool)
    requires ChargesFollowCompletion(db.log)
    requires db.log != [] && db.log[|db.log| - 1] == Committed(StatusOf(success))
    ensures ChargesFollowCompletion(Bill(db, success).log)
    ensures Charges(Bill(db, success).log) == Charges(db.log) + if success then 1 else 0
  {
    if success { LogAppended(db.log, Posted); }
  }

  lemma ChargeResumedReact(env: Env, s: State)
    requires RowInv(s) && ChargeInv(s)
    ensures ChargeInv(ResumedReact(s))
  {
  }

  lemma ChargeResumedChat(env: Env, s: State)
    requires RowInv(s) && ChargeInv(s)
    ensures ChargeInv(ResumedChat(env, s))
  {
  }

  lemma ChargeResume(env: Env, s: State)
    requires RowInv(s) && ChargeInv(s)
    ensures ChargeInv(Exec(env, s, Resume))
  {
    ChargeResumedReact(env, s);
    ChargeResumedChat(env, s);
  }

  lemma ChargeRaise(env: Env, s: State, posted: bool)
    requires RowInv(s) && ChargeInv(s) && s.pc.Executing()
    ensures ChargeInv(Raising(s, posted))
  {
    LogAppended(s.db.log, Committed(Failed));
    if s.pc.ReactCharge? || s.pc.ChatCharge? {
      Billed(s.db, s.pc.success);
      LogAppended(Bill(s.db, s.pc.success).log, Committed(Failed));
    }
  }

  lemma ChargeClose(s: State)
    requires RowInv(s) && ChargeInv(s) && s.pc.GuardedYield()
    ensures ChargeInv(Close(s))
  {
    LogAppended(s.db.log, Committed(Failed));
  }

  lemma ChargeClient(env: Env, s: State, a: Action)
    requires RowInv(s) && ChargeInv(s) && a.OfClient()
    ensures ChargeInv(Exec(env, s, a))
  {
    if a.BeginReact? || a.BeginChat? {
      LogAppended(s.db.log, Committed(Running));
    } else if a.Disconnect? && s.pc.GuardedYield() {
      ChargeClose(s);
    } else if a.Raise? && s.pc.Executing() {
      ChargeRaise(env, s, a.posted);
    }
  }

  /** A terminal status that is not COMPLETED, or whose charge is still to come, keeps the log in order. */
  lemma ChargeWritten(db: Database, status: Status, content: Option<string>)
    requires ChargesFollowCompletion(db.log)
    ensures ChargesFollowCompletion(Write(db, status, content).log)
    ensures Charges(Write(db, status, content).log) == Charges(db.log)
  {
    LogAppended(db.log, Committed(status));
  }

  lemma ChargePersist(env: Env, s: State)
    requires RowInv(s) && ChargeInv(s)
    ensures ChargeInv(Persisting(env, s))
  {
    if s.pc.ReactPersist? {
      var success := s.worker.Ended? && s.worker.end.Returned? && s.worker.end.success;
      ChargeWritten(s.db, StatusOf(success), Some(env.parse(s.sent.final)));
    } else if s.pc.ChatPersist? {
      ChargeWritten(s.db, StatusOf(Succeeded(s.pc.end)), Some(s.sent.final));
    }
  }

  lemma ChargeJoin(env: Env, s: State)
    requires RowInv(s) && ChargeInv(s)
    ensures ChargeInv(Exec(env, s, Join))
  {
    LogAppended(s.db.log, Committed(Failed));
  }

  lemma ChargeCharging(s: State)
    requires RowInv(s) && ChargeInv(s)
    ensures ChargeInv(Charging(s))
  {
    if s.pc.ReactCharge? || s.pc.ChatCharge? { Billed(s.db, s.pc.success); }
  }

  lemma ChargeGenerator(env: Env, s: State, a: Action)
    requires RowInv(s) && ChargeInv(s) && a.OfGenerator()
    ensures ChargeInv(Exec(env, s, a))
  {
    match a {
      case Persist => ChargePersist(env, s);
      case Join => ChargeJoin(env, s);
      case Charge => ChargeCharging(s);
      case GetEvent =>
    }
  }

  lemma ChargeLlmRaises(env: Env, s: State)
    requires RowInv(s) && ChargeInv(s)
    ensures ChargeInv(Exec(env, s, LlmRaises))
  {
    if s.pc.ChatNext? { ChargeWritten(s.db, Failed, None); }
  }

  lemma ChargeLlmEnds(env: Env, s: State, end: LlmEnd, deltas: nat, extra: nat)
    requires RowInv(s) && ChargeInv(s) && s.pc.ChatNext?
    ensures ChargeInv(EndOfLlm(env, s, end, deltas, extra))
  {
  }

  lemma ChargeLlm(env: Env, s: State, a: Action)
    requires RowInv(s) && ChargeInv(s) && a.OfLlm()
    ensures ChargeInv(Exec(env, s, a))
  {
    match a {
      case LlmYields(_, _) =>
      case LlmEnds(end, deltas, extra) => if s.pc.ChatNext? { ChargeLlmEnds(env, s, end, deltas, extra); }
      case LlmRaises => ChargeLlmRaises(env, s);
    }
  }

  lemma ChargeCommit(env: Env, s: State)
    requires RowInv(s) && ChargeInv(s) && s.finisher.Deciding?
    ensures ChargeInv(FinisherStep(env, s, FinisherCommit))
  {
    ChargeWritten(s.db, StatusOf(Succeeded(s.finisher.end)), Some(env.parse(JoinText(s.llm.contentChunks))));
  }

  lemma ChargeSettle(env: Env, s: State, raises: bool, posted: bool)
    requires RowInv(s) && ChargeInv(s) && s.finisher.Settling?
    ensures ChargeInv(FinisherStep(env, s, FinisherCharge(raises, posted)))
  {
    Billed(s.db, Succeeded(s.finisher.end));
  }

  lemma ChargeFinisher(env: Env, s: State, a: Action)
    requires RowInv(s) && ChargeInv(s)
    ensures ChargeInv(FinisherStep(env, s, a))
  {
    if a.FinisherCommit? && s.finisher.Deciding? {
      ChargeCommit(env, s);
    } else if a.FinisherCharge? && s.finisher.Settling? {
      ChargeSettle(env, s, a.raises, a.posted);
    }
  }

  lemma ChargeThreads(env: Env, s: State, a: Action)
    requires RowInv(s) && ChargeInv(s)
    ensures ChargeInv(FinisherStep(env, s, a)) && ChargeInv(WorkerStep(s, a))
  {
    ChargeFinisher(env, s, a);
  }

  lemma ChargeStep(env: Env, s: State, a: Action)
    requires RowInv(s) && ChargeInv(s)
    ensures ChargeInv(Exec(env, s, a))
  {
    if a.Resume? {
      ChargeResume(env, s);
    } else if a.OfClient() {
      ChargeClient(env, s, a);
    } else if a.OfGenerator() {
      ChargeGenerator(env, s, a);
    } else if a.OfLlm() {
      ChargeLlm(env, s, a);
    } else {
      ChargeThreads(env, s, a);
    }
  }

  // ---- the queue and the answer -------------------------------------------------------

  /** The agent's answer for everything the worker emitted. */
  function Answer(env: Env, s: State): string {
    AgentFinal(env.streaming, DeltaText(s.queue.emitted), OutputText(s.worker), Persisted(Agents, s.queue.emitted))
  }

  ghost predicate Drained(q: Queue) {
    && q.taken <= |q.emitted|
    && q.contentBuffer == DeltaText(q.emitted[..q.taken])
    && q.eventsForDb == Persisted(Agents, q.emitted[..q.taken])
  }

  ghost predicate DrainInv(env: Env, s: State) {
    && Drained(s.queue)
    && (s.pc.InReact() && !s.pc.ReactStart? && !s.pc.ReactLaunch? && !s.pc.ReactGet? && !s.pc.ReactFrame? ==>
         s.worker.Ended? && s.queue.taken == |s.queue.emitted|)
    && (s.pc.ReactChunk? || s.pc.ReactPersist? ==>
         s.worker.end.Returned? && s.sent.final == Answer(env, s) && s.sent.chunk == Some(s.sent.final))
    && (s.pc.ReactCharge? || s.pc.ReactComplete? ==>
         && s.worker.end.Returned? && s.sent.chunk == Some(Answer(env, s))
         && s.sent.final == env.parse(Answer(env, s))
         && s.db.row.Row? && s.db.row.content == s.sent.final)
  }

  lemma TookOne(q: Queue)
    requires Drained(q) && q.taken < |q.emitted|
    ensures Drained(Took(q))
  {
    var e := q.emitted[q.taken];
    assert q.emitted[..q.taken + 1] == q.emitted[..q.taken] + [e];
    SnocText(q.emitted[..q.taken], e);
    SnocPersisted(Agents, q.emitted[..q.taken], e);
  }

  lemma DrainResumedReact(env: Env, s: State)
    requires RowInv(s) && DrainInv(env, s)
    ensures DrainInv(env, ResumedReact(s))
  {
  }

  lemma DrainResumedChat(env: Env, s: State)
    requires RowInv(s) && DrainInv(env, s)
    ensures DrainInv(env, ResumedChat(env, s))
  {
  }

  lemma DrainResume(env: Env, s: State)
    requires RowInv(s) && DrainInv(env, s)
    ensures DrainInv(env, Exec(env, s, Resume))
  {
    DrainResumedReact(env, s);
    DrainResumedChat(env, s);
  }

  lemma DrainClient(env: Env, s: State, a: Action)
    requires RowInv(s) && DrainInv(env, s) && a.OfClient()
    ensures DrainInv(env, Exec(env, s, a))
  {
  }

  lemma DrainGenerator(env: Env, s: State, a: Action)
    requires RowInv(s) && DrainInv(env, s) && a.OfGenerator()
    ensures DrainInv(env, Exec(env, s, a))
  {
    if a.GetEvent? && s.queue.taken < |s.queue.emitted| {
      TookOne(s.queue);
    }
    assert s.queue.emitted[..|s.queue.emitted|] == s.queue.emitted;
  }

  lemma DrainLlm(env: Env, s: State, a: Action)
    requires RowInv(s) && DrainInv(env, s) && a.OfLlm()
    ensures DrainInv(env, Exec(env, s, a))
  {
  }

  lemma DrainThreads(env: Env, s: State, a: Action)
    requires RowInv(s) && DrainInv(env, s)
    ensures DrainInv(env, FinisherStep(env, s, a)) && DrainInv(env, WorkerStep(s, a))
  {
    if a.Emit? {
      assert (s.queue.emitted + [a.event])[..s.queue.taken] == s.queue.emitted[..s.queue.taken];
    }
  }

  lemma DrainStep(env: Env, s: State, a: Action)
    requires RowInv(s) && DrainInv(env, s)
    ensures DrainInv(env, Exec(env, s, a))
  {
    if a.Resume? {
      DrainResume(env, s);
    } else if a.OfClient() {
      DrainClient(env, s, a);
    } else if a.OfGenerator() {
      DrainGenerator(env, s, a);
    } else if a.OfLlm() {
      DrainLlm(env, s, a);
    } else {
      DrainThreads(env, s, a);
    }
  }

  // ---- the stored content -------------------------------------------------------------

  ghost predicate ContentInv(env: Env, s: State) {
    && (s.llm.lost.Some? ==> s.llm.lost.value < |s.llm.produced| && !s.finisher.NotStarted?)
    && (if s.pc.ChatDelta? then s.llm.produced == s.llm.contentChunks + [s.pc.inFlight]
        else s.llm.contentChunks == Kept(s.llm.produced, s.llm.lost))
    && (s.pc.AfterChatLoop() && !s.pc.ChatTail? ==> s.sent.final == env.parse(JoinText(s.llm.contentChunks)))
    && (s.pc.ChatCharge? || s.pc.ChatComplete? ==> s.db.row.Row? && s.db.row.content == s.sent.final)
    && (s.finisher.Settling? || s.finisher.Stopped? ==>
         s.db.row.Row? && s.db.row.content == env.parse(JoinText(s.llm.contentChunks)))
  }

  ghost predicate SentInv(env: Env, s: State) {
    && (s.sent.chunk.Some? ==> !s.llm.phase.Live? && !s.pc.Setup? && !s.pc.ChatStart? && !s.pc.ChatTail?)
    && (s.pc.AfterChatLoop() && s.sent.chunk.Some? ==> s.sent.chunk.value == s.sent.final)
    && (s.sent.complete.Some? ==>
         && (s.pc.ReactComplete? || s.pc.ChatComplete? || s.pc.Gone?)
         && s.db.row.Row? && s.db.row.content == s.sent.complete.value
         && match s.llm.phase {
              case NotCreated =>
                && s.worker.Ended? && s.worker.end.Returned? && s.sent.chunk == Some(Answer(env, s))
                && s.sent.complete.value == env.parse(Answer(env, s))
              case Live => false
              case Spent =>
                && s.sent.complete.value == env.parse(JoinText(s.llm.contentChunks))
                && (s.sent.chunk.Some? ==> s.sent.chunk.value == s.sent.complete.value)
            })
  }

  lemma ContentDelivered(env: Env, s: State)
    requires RowInv(s) && ContentInv(env, s) && s.pc.ChatDelta?
    ensures ContentInv(env, ResumedChat(env, s))
  {
  }

  lemma ContentTail(env: Env, s: State)
    requires RowInv(s) && ContentInv(env, s) && s.pc.AfterChatLoop()
    ensures ContentInv(env, ResumedChat(env, s))
  {
  }

  lemma ContentResume(env: Env, s: State)
    requires RowInv(s) && ContentInv(env, s)
    ensures ContentInv(env, Exec(env, s, Resume))
  {
    if s.pc.ChatDelta? {
      ContentDelivered(env, s);
    } else if s.pc.AfterChatLoop() {
      ContentTail(env, s);
    }
  }

  lemma ContentClose(env: Env, s: State)
    requires RowInv(s) && ContentInv(env, s) && s.pc.GuardedYield()
    ensures ContentInv(env, Close(s))
  {
  }

  lemma ContentRaise(env: Env, s: State, posted: bool)
    requires RowInv(s) && ContentInv(env, s) && s.pc.Executing()
    ensures ContentInv(env, Raising(s, posted))
  {
  }

  lemma ContentClient(env: Env, s: State, a: Action)
    requires RowInv(s) && ContentInv(env, s) && a.OfClient()
    ensures ContentInv(env, Exec(env, s, a))
  {
    if a.Disconnect? && s.pc.GuardedYield() {
      ContentClose(env, s);
    } else if a.Raise? && s.pc.Executing() {
      ContentRaise(env, s, a.posted);
    }
  }

  lemma ContentGenerator(env: Env, s: State, a: Action)
    requires RowInv(s) && ContentInv(env, s) && a.OfGenerator()
    ensures ContentInv(env, Exec(env, s, a))
  {
  }

  lemma KeptSnoc(produced: seq<string>, lost: Option<nat>, chunk: string)
    requires lost.Some? ==> lost.value < |produced|
    ensures Kept(produced + [chunk], lost) == Kept(produced, lost) + [chunk]
  {
    if lost.Some? {
      assert (produced + [chunk])[lost.value + 1..] == produced[lost.value + 1..] + [chunk];
    }
  }

  lemma ContentChunk(env: Env, s: State, chunk: string, deltas: nat)
    requires RowInv(s) && ContentInv(env, s) && s.pc.ChatNext?
    ensures ContentInv(env, Chunk(env, s, chunk, deltas))
  {
    KeptSnoc(s.llm.produced, s.llm.lost, chunk);
  }

  lemma ContentEnds(env: Env, s: State, end: LlmEnd, deltas: nat, extra: nat)
    requires RowInv(s) && ContentInv(env, s) && s.pc.ChatNext?
    ensures ContentInv(env, EndOfLlm(env, s, end, deltas, extra))
  {
  }

  lemma ContentLlm(env: Env, s: State, a: Action)
    requires RowInv(s) && ContentInv(env, s) && a.OfLlm()
    ensures ContentInv(env, Exec(env, s, a))
  {
    match a {
      case LlmYields(chunk, deltas) => if s.pc.ChatNext? { ContentChunk(env, s, chunk, deltas); }
      case LlmEnds(end, deltas, extra) => if s.pc.ChatNext? { ContentEnds(env, s, end, deltas, extra); }
      case LlmRaises =>
    }
  }

  lemma ContentFinisher(env: Env, s: State, a: Action)
    requires RowInv(s) && ContentInv(env, s)
    ensures ContentInv(env, FinisherStep(env, s, a))
  {
    if a.FinisherChunk? { KeptSnoc(s.llm.produced, s.llm.lost, a.chunk); }
  }

  lemma ContentWorker(env: Env, s: State, a: Action)
    requires RowInv(s) && ContentInv(env, s)
    ensures ContentInv(env, WorkerStep(s, a))
  {
  }

  lemma ContentThreads(env: Env, s: State, a: Action)
    requires RowInv(s) && ContentInv(env, s)
    ensures ContentInv(env, FinisherStep(env, s, a)) && ContentInv(env, WorkerStep(s, a))
  {
    ContentFinisher(env, s, a);
    ContentWorker(env, s, a);
  }

  lemma ContentStep(env: Env, s: State, a: Action)
    requires RowInv(s) && ContentInv(env, s)
    ensures ContentInv(env, Exec(env, s, a))
  {
    if a.Resume? {
      ContentResume(env, s);
    } else if a.OfClient() {
      ContentClient(env, s, a);
    } else if a.OfGenerator() {
      ContentGenerator(env, s, a);
    } else if a.OfLlm() {
      ContentLlm(env, s, a);
    } else {
      ContentThreads(env, s, a);
    }
  }

  lemma SentResume(env: Env, s: State)
    requires RowInv(s) && DrainInv(env, s) && ContentInv(env, s) && SentInv(env, s)
    ensures SentInv(env, Exec(env, s, Resume))
  {
  }

  lemma SentClient(env: Env, s: State, a: Action)
    requires RowInv(s) && DrainInv(env, s) && ContentInv(env, s) && SentInv(env, s) && a.OfClient()
    ensures SentInv(env, Exec(env, s, a))
  {
  }

  lemma SentGenerator(env: Env, s: State, a: Action)
    requires RowInv(s) && DrainInv(env, s) && ContentInv(env, s) && SentInv(env, s) && a.OfGenerator()
    ensures SentInv(env, Exec(env, s, a))
  {
  }

  lemma SentLlm(env: Env, s: State, a: Action)
    requires RowInv(s) && DrainInv(env, s) && ContentInv(env, s) && SentInv(env, s) && a.OfLlm()
    ensures SentInv(env, Exec(env, s, a))
  {
  }

  lemma SentFinisher(env: Env, s: State, a: Action)
    requires RowInv(s) && DrainInv(env, s) && ContentInv(env, s) && SentInv(env, s)
    ensures SentInv(env, FinisherStep(env, s, a))
  {
  }

  lemma SentWorker(env: Env, s: State, a: Action)
    requires RowInv(s) && DrainInv(env, s) && ContentInv(env, s) && SentInv(env, s)
    ensures SentInv(env, WorkerStep(s, a))
  {
  }

  lemma SentThreads(env: Env, s: State, a: Action)
    requires RowInv(s) && DrainInv(env, s) && ContentInv(env, s) && SentInv(env, s)
    ensures SentInv(env, FinisherStep(env, s, a)) && SentInv(env, WorkerStep(s, a))
  {
    SentFinisher(env, s, a);
    SentWorker(env, s, a);
  }

  lemma SentStep(env: Env, s: State, a: Action)
    requires RowInv(s) && DrainInv(env, s) && ContentInv(env, s) && SentInv(env, s)
    ensures SentInv(env, Exec(env, s, a))
  {
    if a.Resume? {
      SentResume(env, s);
    } else if a.OfClient() {
      SentClient(env, s, a);
    } else if a.OfGenerator() {
      SentGenerator(env, s, a);
    } else if a.OfLlm() {
      SentLlm(env, s, a);
    } else {
      SentThreads(env, s, a);
    }
  }

  // ---- the outcome --------------------------------------------------------------------

  /** The agent's loop returned, and its output is a success. */
  predicate AgentSucceeded(w: Worker) {
    w.Ended? && w.end.Returned? && w.end.success
  }

  /** Where the row and the log stand, by what worker and LLM generator came to. */
  ghost predicate OutcomeInv(env: Env, s: State) {
    && (s.pc.BeforePersist() || (s.finisher.Draining? && s.llm.phase.Live?) ==> s.db.log == [Committed(Running)])
    && (s.pc.ReactCharge? ==>
         && s.pc.success == AgentSucceeded(s.worker)
         && s.db.log == [Committed(Running), Committed(if s.pc.success then Completed else Failed)])
    && (s.pc.ReactComplete? ==>
         s.db.log == if AgentSucceeded(s.worker) then [Committed(Running), Committed(Completed), Posted]
                     else [Committed(Running), Committed(Failed)])
    && (s.pc.ChatTail? || s.pc.ChatFinal? || s.pc.ChatExtra? || s.pc.ChatPersist? ==> s.llm.end == Some(s.pc.end))
    && (s.pc.ChatCharge? || s.pc.ChatComplete? ==> s.llm.end.Some?)
    && (s.pc.ChatCharge? ==>
         && s.pc.success == (s.llm.end == Some(Output(true)))
         && s.db.log == [Committed(Running), Committed(if s.pc.success then Completed else Failed)])
    && (s.pc.ChatComplete? ==>
         s.db.log == if s.llm.end == Some(Output(true)) then [Committed(Running), Committed(Completed), Posted]
                     else [Committed(Running), Committed(Failed)])
    && (s.pc.AfterChatLoop() && !s.pc.ChatTail? ==> (s.sent.chunk.Some? <==> env.streaming && s.sent.final != ""))
  }

  ghost predicate EndInv(s: State) {
    && (s.finisher.Settling? || s.finisher.Stopped? ==>
         s.db.row.Row? && s.db.row.status == if s.finisher.end == Output(true) then Completed else Failed)
    && (s.finisher.Settling? ==> s.db.log != [] && s.db.log[|s.db.log| - 1] == Committed(s.db.row.status))
    && (s.finisher.Stopped? ==> s.db.log != [])
    && (s.finisher.Stopped? ==>
         (s.db.log[|s.db.log| - 1] == Posted <==> s.finisher.end == Output(true) && s.finisher.billed))
    && (s.db.row.Row? && s.db.row.status.Completed? ==>
         || (s.llm.phase.NotCreated? && AgentSucceeded(s.worker))
         || s.llm.end == Some(Output(true))
         || ((s.finisher.Settling? || s.finisher.Stopped?) && s.finisher.end == Output(true)))
  }

  lemma OutcomeResume(env: Env, s: State)
    requires RowInv(s) && SentInv(env, s) && OutcomeInv(env, s) && EndInv(s)
    ensures OutcomeInv(env, Exec(env, s, Resume)) && EndInv(Exec(env, s, Resume))
  {
  }

  lemma OutcomeClose(env: Env, s: State)
    requires RowInv(s) && OutcomeInv(env, s) && EndInv(s) && s.pc.GuardedYield()
    ensures OutcomeInv(env, Close(s)) && EndInv(Close(s))
  {
  }

  lemma OutcomeRaise(env: Env, s: State, posted: bool)
    requires RowInv(s) && OutcomeInv(env, s) && EndInv(s) && s.pc.Executing()
    ensures OutcomeInv(env, Raising(s, posted)) && EndInv(Raising(s, posted))
  {
  }

  lemma OutcomeClient(env: Env, s: State, a: Action)
    requires RowInv(s) && ChargeInv(s) && OutcomeInv(env, s) && EndInv(s) && a.OfClient()
    ensures OutcomeInv(env, Exec(env, s, a)) && EndInv(Exec(env, s, a))
  {
    if a.Disconnect? && s.pc.GuardedYield() {
      OutcomeClose(env, s);
    } else if a.Raise? && s.pc.Executing() {
      OutcomeRaise(env, s, a.posted);
    }
  }

  lemma OutcomePersist(env: Env, s: State)
    requires RowInv(s) && DrainInv(env, s) && OutcomeInv(env, s) && EndInv(s)
    ensures OutcomeInv(env, Persisting(env, s)) && EndInv(Persisting(env, s))
  {
  }

  lemma OutcomeGenerator(env: Env, s: State, a: Action)
    requires RowInv(s) && DrainInv(env, s) && OutcomeInv(env, s) && EndInv(s) && a.OfGenerator()
    ensures OutcomeInv(env, Exec(env, s, a)) && EndInv(Exec(env, s, a))
  {
    match a {
      case Persist => OutcomePersist(env, s);
      case GetEvent =>
      case Join =>
      case Charge =>
    }
  }

  lemma OutcomeLlm(env: Env, s: State, a: Action)
    requires RowInv(s) && SentInv(env, s) && OutcomeInv(env, s) && EndInv(s) && a.OfLlm()
    ensures OutcomeInv(env, Exec(env, s, a)) && EndInv(Exec(env, s, a))
  {
  }

  lemma OutcomeFinisher(env: Env, s: State, a: Action)
    requires RowInv(s) && ChargeInv(s) && OutcomeInv(env, s) && EndInv(s)
    ensures OutcomeInv(env, FinisherStep(env, s, a)) && EndInv(FinisherStep(env, s, a))
  {
  }

  lemma OutcomeWorker(env: Env, s: State, a: Action)
    requires RowInv(s) && DrainInv(env, s) && OutcomeInv(env, s) && EndInv(s)
    ensures OutcomeInv(env, WorkerStep(s, a)) && EndInv(WorkerStep(s, a))
  {
  }

  lemma OutcomeStep(env: Env, s: State, a: Action)
    requires RowInv(s) && ChargeInv(s) && DrainInv(env, s) && SentInv(env, s) && OutcomeInv(env, s) && EndInv(s)
    ensures OutcomeInv(env, Exec(env, s, a)) && EndInv(Exec(env, s, a))
  {
    if a.Resume? {
      OutcomeResume(env, s);
    } else if a.OfClient() {
      OutcomeClient(env, s, a);
    } else if a.OfGenerator() {
      OutcomeGenerator(env, s, a);
    } else if a.OfLlm() {
      OutcomeLlm(env, s, a);
    } else {
      OutcomeFinisher(env, s, a);
      OutcomeWorker(env, s, a);
    }
  }

  // ---- every run ----------------------------------------------------------------------

  ghost predicate Inv(env: Env, s: State) {
    && RowInv(s) && ChargeInv(s) && DrainInv(env, s) && ContentInv(env, s) && SentInv(env, s)
    && OutcomeInv(env, s) && EndInv(s)
  }

  lemma {:induction false} InvAlways(env: Env, actions: seq<Action>)
    ensures Inv(env, Run(env, actions))
  {
    if actions != [] {
      var s := Run(env, actions[..|actions| - 1]);
      var a := actions[|actions| - 1];
      InvAlways(env, actions[..|actions| - 1]);
      RowStep(env, s, a);
      ChargeStep(env, s, a);
      DrainStep(env, s, a);
      ContentStep(env, s, a);
      SentStep(env, s, a);
      OutcomeStep(env, s, a);
    }
  }

  lemma RunningIffUnsettled(row: Row, log: seq<Entry>)
    requires LastWrite(row, log) && RunningOnce(log) && ChargesFollowCompletion(log)
    ensures row.status == Running <==> !Settled(log)
  {
    var last := |log| - 1;
    assert FollowsCompletion(log, last);
    if row.status == Running {
      assert log[last] == Committed(Running);
      assert last == 0;
    } else if log[last].Committed? {
      assert log[last] in log;
    } else {
      assert log[last - 1] in log;
    }
  }

  /**
   Once everything has stopped, a run that was ever committed is COMPLETED or FAILED, except
   in exactly one case: it is still RUNNING if an exception ended the finisher before its
   commit and no terminal status had been committed. The disconnect branch for a run that was
   never persisted is not taken.
   */
  lemma EveryRunSettles(env: Env, actions: seq<Action>)
    ensures
      var s := Run(env, actions);
      && !s.db.orphan && (s.pc.GuardedYield() ==> s.db.runPersisted && s.db.row.Row?)
      && (Quiescent(s) && s.db.row.Row? ==>
            (s.db.row.status == Running <==> s.finisher.Aborted? && !Settled(s.db.log)))
      && (s.db.row.Row? <==> s.db.log != [])
  {
    InvAlways(env, actions);
    var s := Run(env, actions);
    if s.db.row.Row? { RunningIffUnsettled(s.db.row, s.db.log); }
  }

  ghost predicate Reachable(env: Env, s: State) {
    exists actions :: Run(env, actions) == s
  }

  lemma Reach(env: Env, s: State, a: Action) returns (next: State)
    requires Reachable(env, s)
    ensures next == Exec(env, s, a) && Reachable(env, next)
  {
    var actions :| Run(env, actions) == s;
    assert (actions + [a])[..|actions|] == actions;
    next := Run(env, actions + [a]);
  }

  lemma StopsAfterRaise(env: Env, s: State)
    ensures
      var next := Exec(env, Exec(env, s, Raise(false)), Disconnect);
      next.pc.Gone? && next.worker == s.worker
  {
    assert s.pc.Executing() || s.pc.GuardedYield() || s.pc.ErrorFrame? || s.pc.Gone?;
  }

  lemma ClientLeaves(env: Env, s: State) returns (next: State)
    requires Reachable(env, s)
    ensures Reachable(env, next) && next.pc.Gone?
  {
    StopsAfterRaise(env, s);
    next := Reach(env, s, Raise(false));
    next := Reach(env, next, Disconnect);
  }

  lemma WorkerStops(env: Env, s: State) returns (next: State)
    requires Reachable(env, s) && s.pc.Gone?
    ensures Reachable(env, next) && next.pc.Gone? && !next.worker.Working?
  {
    next := Reach(env, s, EndWorker(Raised));
  }

  lemma ThreadsStop(env: Env, s: State) returns (next: State)
    requires Reachable(env, s) && s.pc.Gone?
    ensures Reachable(env, next) && Quiescent(next)
  {
    next := WorkerStops(env, s);
    next := Reach(env, next, FinisherEnd(NoOutput));
    assert next.pc.Gone? && !next.worker.Working? && !next.finisher.Draining?;
    next := Reach(env, next, FinisherCommit);
  }

  /** No run can be stuck: every reachable state can be brought to rest. */
  lemma EveryRunCanStop(env: Env, s: State)
    requires Reachable(env, s)
    ensures exists next :: Reachable(env, next) && Quiescent(next)
  {
    var next := ClientLeaves(env, s);
    next := ThreadsStop(env, next);
  }

  /** Wherever the finisher still owes the first terminal status, an exception leaves the row RUNNING for good. */
  lemma AbortStrandsRunningRow(env: Env, s: State)
    requires Reachable(env, s) && s.db.row.Row? && !Settled(s.db.log) && !s.worker.Working?
    requires s.finisher.Draining? || s.finisher.Deciding?
    ensures
      var next := Exec(env, s, FinisherRaises);
      Reachable(env, next) && Quiescent(next) && next.db == s.db && next.db.row.status == Running
  {
    var actions :| Run(env, actions) == s;
    InvAlways(env, actions);
    var next := Reach(env, s, FinisherRaises);
    EveryRunSettles(env, actions + [FinisherRaises]);
    assert (actions + [FinisherRaises])[..|actions|] == actions;
  }

  lemma ChatRunIsLeft(env: Env, chunk: string) returns (s: State)
    ensures Reachable(env, s) && s.finisher.Draining? && !s.worker.Working? && s.db == Created(INIT.db)
  {
    s := ChatRunStarts(env);
    s := Reach(env, s, LlmYields(chunk, 1));
    s := Reach(env, s, Disconnect);
  }

  /** Such a run exists: the client leaves in the middle, and the finisher raises behind its drain. */
  lemma RunMayStayRunning(env: Env, chunk: string)
    ensures exists s :: Reachable(env, s) && Quiescent(s) && s.db.row.Row? && s.db.row.status == Running
  {
    var s := ChatRunIsLeft(env, chunk);
    assert s.db.log == [Committed(Running)];
    s := Reach(env, s, FinisherEnd(Output(true)));
    assert s.finisher.Deciding? && s.db.log == [Committed(Running)] && !s.worker.Working?;
    AbortStrandsRunningRow(env, s);
  }

  /**
   The terminal status, in every run. A ReAct run that shows its `complete` frame is COMPLETED
   and charged if the worker returned a successful output, and FAILED without a charge if it
   returned any other; a chat run likewise by the value the LLM generator ended with. The
   terminal chunk of a chat run goes out exactly if the run streams and has text.
   */
  lemma TerminalStatus(env: Env, actions: seq<Action>)
    ensures
      var s := Run(env, actions);
      && (s.pc.ReactComplete? ==>
            && s.db.row.Row? && s.worker.Ended? && s.worker.end.Returned?
            && (if s.worker.end.success then
                  s.db.row.status == Completed && s.db.log == [Committed(Running), Committed(Completed), Posted]
                else s.db.row.status == Failed && s.db.log == [Committed(Running), Committed(Failed)]))
      && (s.pc.ChatComplete? ==>
            && s.db.row.Row? && s.llm.end.Some?
            && (if s.llm.end == Some(Output(true)) then
                  s.db.row.status == Completed && s.db.log == [Committed(Running), Committed(Completed), Posted]
                else s.db.row.status == Failed && s.db.log == [Committed(Running), Committed(Failed)])
            && (s.sent.chunk.Some? <==> env.streaming && s.db.row.content != ""))
  {
    InvAlways(env, actions);
    StatusShown(env, Run(env, actions));
  }

  lemma StatusShown(env: Env, s: State)
    requires RowInv(s) && DrainInv(env, s) && ContentInv(env, s) && OutcomeInv(env, s)
    ensures s.pc.ReactComplete? ==>
      && s.db.row.Row? && s.worker.Ended? && s.worker.end.Returned?
      && s.db.row.status == if s.worker.end.success then Completed else Failed
    ensures s.pc.ChatComplete? ==>
      && s.db.row.Row? && s.db.row.status == (if s.llm.end == Some(Output(true)) then Completed else Failed)
      && (s.sent.chunk.Some? <==> env.streaming && s.db.row.content != "")
  {
    var log := s.db.log;
    assert s.db.row.Row? ==> LastWrite(s.db.row, log);
  }

  /**
   COMPLETED is never written for anything but a success: of the worker, of the chat loop, or of
   what the finisher drained. A finisher that has committed wrote COMPLETED exactly if it drained
   a success, and charged exactly then unless the charge raised before it was posted.
   */
  lemma CompletedMeansSuccess(env: Env, actions: seq<Action>)
    ensures
      var s := Run(env, actions);
      && (s.db.row.Row? && s.db.row.status == Completed ==>
            || (s.worker.Ended? && s.worker.end.Returned? && s.worker.end.success)
            || s.llm.end == Some(Output(true))
            || ((s.finisher.Settling? || s.finisher.Stopped?) && s.finisher.end == Output(true)))
      && (s.finisher.Stopped? ==>
            && s.db.row.Row? && s.db.log != []
            && s.db.row.status == (if s.finisher.end == Output(true) then Completed else Failed)
            && (s.db.log[|s.db.log| - 1] == Posted <==> s.finisher.end == Output(true) && s.finisher.billed))
  {
    InvAlways(env, actions);
  }

  /** At most one charge, and only directly behind the commit of COMPLETED. */
  lemma ChargedOnceAfterCompletion(env: Env, actions: seq<Action>)
    ensures
      var log := Run(env, actions).db.log;
      && Charges(log) <= 1
      && forall k :: 0 <= k < |log| && log[k] == Posted ==> k > 0 && log[k - 1] == Committed(Completed)
  {
    InvAlways(env, actions);
    var log := Run(env, actions).db.log;
    forall k | 0 <= k < |log| && log[k] == Posted
      ensures k > 0 && log[k - 1] == Committed(Completed)
    {
      assert FollowsCompletion(log, k);
    }
  }

  predicate ChargedButFailed(db: Database) {
    Charges(db.log) == 1 && db.row.Row? && db.row.status == Failed
  }

  /** A disconnect at the last ReAct frame, an exception while charging, the finisher of a spent generator. */
  predicate Demotes(s: State, a: Action) {
    || (a.Disconnect? && s.pc.ReactComplete?)
    || (a.Raise? && (s.pc.ReactCharge? || s.pc.ChatCharge?))
    || (a.FinisherCommit? && s.finisher.Deciding?)
  }

  predicate KeepsCompletion(env: Env, s: State, a: Action) {
    var row := Exec(env, s, a).db.row;
    row.Row? && row.status == if Demotes(s, a) then Failed else Completed
  }

  lemma ClientDemotes(env: Env, s: State, a: Action)
    requires RowInv(s) && ChargeInv(s) && s.db.row.Row? && s.db.row.status == Completed && a.OfClient()
    ensures KeepsCompletion(env, s, a)
  {
  }

  lemma GeneratorDemotes(env: Env, s: State, a: Action)
    requires RowInv(s) && ChargeInv(s) && s.db.row.Row? && s.db.row.status == Completed
    requires a.OfGenerator() || a.OfLlm() || a.Resume?
    ensures KeepsCompletion(env, s, a)
  {
  }

  /** The steps that turn a COMPLETED row into a FAILED one, exactly; the others leave it COMPLETED. */
  lemma DemotingSteps(env: Env, actions: seq<Action>, a: Action)
    requires Run(env, actions).db.row.Row? && Run(env, actions).db.row.status == Completed
    ensures KeepsCompletion(env, Run(env, actions), a)
  {
    InvAlways(env, actions);
    if a.OfClient() {
      ClientDemotes(env, Run(env, actions), a);
    } else if a.OfGenerator() || a.OfLlm() || a.Resume? {
      GeneratorDemotes(env, Run(env, actions), a);
    }
  }

  lemma ReactRunStarts(env: Env) returns (s: State)
    ensures Reachable(env, s) && s.pc.ReactGet? && s.worker.Working? && s.queue == INIT.queue
    ensures s.db == Created(INIT.db) && s.llm.phase.NotCreated? && s.finisher.NotStarted?
  {
    assert Run(env, []) == INIT;
    s := Reach(env, INIT, BeginReact);
    s := Reach(env, s, Resume);
    s := Reach(env, s, LaunchWorker);
  }

  lemma ReactRunAnswers(env: Env, answer: string) returns (s: State)
    ensures Reachable(env, s) && s.pc.ReactPersist? && s.worker == Ended(Returned(true, Some(answer)))
    ensures s.db == Created(INIT.db) && s.llm.phase.NotCreated? && s.finisher.NotStarted?
  {
    s := ReactRunStarts(env);
    s := Reach(env, s, EndWorker(Returned(true, Some(answer))));
    s := Reach(env, s, GetEvent);
    s := Reach(env, s, Join);
    s := Reach(env, s, Resume);
  }

  lemma CommitsCompleted(env: Env, s: State) returns (next: State)
    requires Reachable(env, s) && s.db == Created(INIT.db)
    requires
      || (s.pc.ReactPersist? && s.worker.Ended? && s.worker.end.Returned? && s.worker.end.success)
      || s.pc == ChatPersist(Output(true))
    ensures Reachable(env, next) && next.worker == s.worker && next.llm == s.llm && next.finisher == s.finisher
    ensures next.pc == if s.pc.ReactPersist? then ReactCharge(true) else ChatCharge(true)
    ensures next.db.runPersisted && next.db.row.Row? && next.db.log == [Committed(Running), Committed(Completed)]
  {
    next := Reach(env, s, Persist);
  }

  lemma Completes(env: Env, s: State) returns (next: State)
    requires Reachable(env, s) && s.db == Created(INIT.db)
    requires
      || (s.pc.ReactPersist? && s.worker.Ended? && s.worker.end.Returned? && s.worker.end.success)
      || s.pc == ChatPersist(Output(true))
    ensures Reachable(env, next) && next.worker == s.worker && next.llm == s.llm && next.finisher == s.finisher
    ensures next.pc == if s.pc.ReactPersist? then ReactComplete else ChatComplete
    ensures next.db.runPersisted && next.db.row.Row?
    ensures next.db.log == [Committed(Running), Committed(Completed), Posted]
  {
    next := CommitsCompleted(env, s);
    next := Reach(env, next, Charge);
  }

  lemma ChargedReactRunIsShown(env: Env, answer: string) returns (s: State)
    ensures Reachable(env, s) && s.pc.ReactComplete? && s.worker.Ended? && s.finisher.NotStarted?
    ensures s.llm.phase.NotCreated? && s.db.runPersisted && s.db.row.Row?
    ensures s.db.log == [Committed(Running), Committed(Completed), Posted]
  {
    s := ReactRunAnswers(env, answer);
    s := Completes(env, s);
  }

  /** A charged ReAct run ends FAILED when the client leaves at the `complete` frame. */
  lemma ChargedReactRunMayEndFailed(env: Env, answer: string)
    ensures exists s :: Reachable(env, s) && Quiescent(s) && ChargedButFailed(s.db)
  {
    var s := ChargedReactRunIsShown(env, answer);
    s := Reach(env, s, Disconnect);
    assert Charges(s.db.log) == 1;
  }

  lemma ChatRunStarts(env: Env) returns (s: State)
    ensures Reachable(env, s) && s.pc.ChatNext? && s.db == Created(INIT.db)
    ensures s.llm == Llm(Live, [], [], None, None) && s.worker.Unstarted?
  {
    assert Run(env, []) == INIT;
    s := Reach(env, INIT, BeginChat(0));
    s := Reach(env, s, Resume);
  }

  lemma ChatRunAnswers(env: Env) returns (s: State)
    ensures Reachable(env, s) && s.pc == ChatPersist(Output(true)) && s.worker.Unstarted? && s.llm.phase.Spent?
    ensures s.db == Created(INIT.db)
  {
    s := ChatRunStarts(env);
    s := Reach(env, s, LlmEnds(Output(true), 0, 0));
    if s.pc.ChatFinal? { s := Reach(env, s, Resume); }
  }

  lemma ChargedChatRunIsLeft(env: Env) returns (s: State)
    ensures Reachable(env, s) && s.pc.Gone? && s.worker.Unstarted? && s.finisher.Draining? && s.llm.phase.Spent?
    ensures s.db.row.Row? && s.db.log == [Committed(Running), Committed(Completed), Posted]
  {
    s := ChatRunAnswers(env);
    s := Completes(env, s);
    s := Reach(env, s, Disconnect);
  }

  lemma SpentGeneratorGivesNothing(env: Env) returns (s: State)
    ensures Reachable(env, s) && s.pc.Gone? && s.worker.Unstarted? && s.finisher == Deciding(NoOutput)
    ensures s.db.row.Row? && s.db.log == [Committed(Running), Committed(Completed), Posted]
  {
    s := ChargedChatRunIsLeft(env);
    s := Reach(env, s, FinisherEnd(Output(true)));
  }

  /** So does a charged chat run: the finisher drains a generator that is already spent. */
  lemma ChargedChatRunMayEndFailed(env: Env)
    ensures exists s :: Reachable(env, s) && Quiescent(s) && ChargedButFailed(s.db)
  {
    var s := SpentGeneratorGivesNothing(env);
    s := Reach(env, s, FinisherCommit);
    assert Charges(s.db.log) == 1;
  }

  /**
   From the `complete` frame on, whatever happens to the status, the stored content is the
   content of that frame; in the ReAct branch it is the parsed answer to everything the
   worker emitted, and the terminal chunk carried that answer.
   */
  lemma CompleteFrameIsStored(env: Env, actions: seq<Action>)
    requires Run(env, actions).sent.complete.Some?
    ensures
      var s := Run(env, actions);
      && s.db.row.Row? && s.db.row.content == s.sent.complete.value
      && (s.llm.phase.NotCreated? ==>
            s.sent.chunk == Some(Answer(env, s)) && s.db.row.content == env.parse(Answer(env, s)))
      && (!s.llm.phase.NotCreated? && s.sent.chunk.Some? ==> s.sent.chunk.value == s.db.row.content)
  {
    InvAlways(env, actions);
  }

  /**
   The text of a ReAct run, from the `complete` frame on and whatever happens to the status: the
   parsed output of the worker if the run does not stream or a PreResponse hook edited an answer
   that has content, and otherwise the parsed concatenation of all deltas the worker emitted.
   */
  lemma ReactTextExactly(env: Env, actions: seq<Action>)
    requires Run(env, actions).sent.complete.Some? && Run(env, actions).llm.phase.NotCreated?
    ensures
      var s := Run(env, actions);
      && s.worker.Ended? && s.worker.end.Returned? && s.db.row.Row?
      && var output := s.worker.end.content;
         && (env.streaming && !(Edited(s.queue.emitted) && output.Some?) ==>
               s.db.row.content == env.parse(DeltaText(s.queue.emitted)))
         && (env.streaming && Edited(s.queue.emitted) && output.Some? ==> s.db.row.content == env.parse(output.value))
         && (!env.streaming ==> s.db.row.content == env.parse(if output.Some? then output.value else ""))
  {
    CompleteFrameIsStored(env, actions);
    InvAlways(env, actions);
    var s := Run(env, actions);
    EditedSurvives(Agents, s.queue.emitted);
  }

  /** At every point the buffer and the kept events are those of the events taken so far. */
  lemma DrainKeepsUp(env: Env, actions: seq<Action>)
    ensures
      var q := Run(env, actions).queue;
      && q.taken <= |q.emitted|
      && q.contentBuffer == DeltaText(q.emitted[..q.taken])
      && q.eventsForDb == Persisted(Agents, q.emitted[..q.taken])
  {
    InvAlways(env, actions);
  }

  // ---- exceptions and a client that leaves ---------------------------------------------

  /** An exception in the try block, the LLM's included, ends in the error frame: the row FAILED, its content kept. */
  lemma ExceptionFails(env: Env, s: State, a: Action)
    requires Reachable(env, s) && s.db.row.Row?
    requires
      || (a.Raise? && s.pc.Executing()) || (a.LlmRaises? && s.pc.ChatNext?)
      || (a.Join? && s.pc.ReactJoin? && (s.worker == Ended(Raised) || s.worker == Ended(Vanished)))
    ensures
      var next := Exec(env, s, a);
      && next.pc.ErrorFrame? && next.db.row == Row(Failed, s.db.row.content) && next.finisher.NotStarted?
  {
    var actions :| Run(env, actions) == s;
    InvAlways(env, actions);
  }

  /**
   A client that leaves in the ReAct branch, or before the chat stream, leaves a FAILED row at
   once; one that leaves in the chat loop or behind it leaves the row as it is to the finisher.
   */
  lemma LeavingSays(env: Env, s: State)
    requires Reachable(env, s) && s.pc.GuardedYield()
    ensures
      var next := Exec(env, s, Disconnect);
      && next.pc.Gone? && s.db.row.Row?
      && if s.pc.InReact() || s.pc.ChatStart?
         then next.db.row == Row(Failed, s.db.row.content) && next.finisher.NotStarted?
         else next.db == s.db && next.finisher.Draining?
  {
    var actions :| Run(env, actions) == s;
    InvAlways(env, actions);
  }

  /** A generator that raises under the finisher leaves the text it gave and a FAILED row. */
  lemma RaisingDrainFails(env: Env, s: State)
    requires Reachable(env, s) && s.finisher.Draining?
    ensures
      var next := Exec(env, Exec(env, s, LlmRaises), FinisherCommit);
      next.db.row == Row(Failed, env.parse(JoinText(s.llm.contentChunks))) && next.finisher == Settling(NoOutput)
  {
    var actions :| Run(env, actions) == s;
    InvAlways(env, actions);
  }

  // ---- every run that goes well -------------------------------------------------------

  lemma {:induction false} EmitAll(env: Env, s: State, es: seq<Event>) returns (next: State)
    requires Reachable(env, s) && s.pc.ReactGet? && s.worker.Working?
    ensures Reachable(env, next) && next == s.(queue := s.queue.(emitted := s.queue.emitted + es))
    decreases |es|
  {
    next := s;
    if es == [] {
      assert s.queue.emitted + es == s.queue.emitted;
    } else {
      next := Reach(env, s, Emit(es[0]));
      next := EmitAll(env, next, es[1..]);
      assert s.queue.emitted + [es[0]] + es[1..] == s.queue.emitted + es;
    }
  }

  lemma {:induction false} DrainAll(env: Env, s: State) returns (next: State)
    requires Reachable(env, s) && s.pc.ReactGet? && s.worker.Ended? && s.queue.taken <= |s.queue.emitted|
    ensures Reachable(env, next) && next.pc.ReactJoin?
    ensures next.worker == s.worker && next.queue.emitted == s.queue.emitted
    decreases |s.queue.emitted| - s.queue.taken
  {
    next := Reach(env, s, GetEvent);
    if s.queue.taken < |s.queue.emitted| {
      next := Reach(env, next, Resume);
      next := DrainAll(env, next);
    }
  }

  lemma ReactShows(env: Env, s: State) returns (next: State)
    requires Reachable(env, s) && s.pc.ReactJoin? && s.worker.Ended? && s.worker.end.Returned?
    ensures Reachable(env, next) && next.pc.ReactComplete?
    ensures next.worker == s.worker && next.queue == s.queue && next.sent.complete.Some?
  {
    next := Reach(env, s, Join);
    next := Reach(env, next, Resume);
    next := Reach(env, next, Persist);
    next := Reach(env, next, Charge);
  }

  /** Whatever the worker emits and returns, a client that stays gets to the `complete` frame. */
  lemma ReactRunDelivers(env: Env, es: seq<Event>, success: bool, content: Option<string>)
    ensures exists s :: Reachable(env, s) && s.pc.ReactComplete? && s.sent.complete.Some? &&
                        s.queue.emitted == es && s.worker == Ended(Returned(success, content))
  {
    var s := ReactRunStarts(env);
    s := EmitAll(env, s, es);
    s := Reach(env, s, EndWorker(Returned(success, content)));
    s := DrainAll(env, s);
    s := ReactShows(env, s);
    assert s.queue.emitted == [] + es == es;
  }

  lemma {:induction false} DeltasShown(env: Env, s: State) returns (next: State)
    requires Reachable(env, s) && s.pc.ChatDelta?
    ensures Reachable(env, next) && next == s.(pc := ChatNext, llm := KeepChunk(s.llm, s.pc.inFlight))
    decreases s.pc.left
  {
    next := Reach(env, s, Resume);
    if s.pc.left > 0 { next := DeltasShown(env, next); }
  }

  /** The client asks for the next frame `n` times. */
  function ResumedTimes(env: Env, s: State, n: nat): State {
    if n == 0 then s else Exec(env, ResumedTimes(env, s, n - 1), Resume)
  }

  lemma {:induction false} DeltaFramesLeft(env: Env, s: State, m: nat)
    requires s.pc.ChatDelta? && m <= s.pc.left + 1
    ensures ResumedTimes(env, s, m) ==
      if m <= s.pc.left then s.(pc := ChatDelta(s.pc.left - m, s.pc.inFlight))
      else s.(pc := ChatNext, llm := KeepChunk(s.llm, s.pc.inFlight))
  {
    if m > 0 { DeltaFramesLeft(env, s, m - 1); }
  }

  lemma {:induction false} TailFramesLeft(env: Env, s: State, m: nat)
    requires s.pc.ChatTail? && m <= s.pc.left
    ensures ResumedTimes(env, s, m) == s.(pc := ChatTail(s.pc.left - m, s.pc.extra, s.pc.end))
  {
    if m > 0 { TailFramesLeft(env, s, m - 1); }
  }

  lemma {:induction false} ExtraFramesLeft(env: Env, s: State, m: nat)
    requires s.pc.ChatExtra? && m <= s.pc.left + 1
    ensures ResumedTimes(env, s, m) ==
      s.(pc := if m <= s.pc.left then ChatExtra(s.pc.left - m, s.pc.end) else ChatPersist(s.pc.end))
  {
    if m > 0 { ExtraFramesLeft(env, s, m - 1); }
  }

  lemma {:induction false} DropFramesLeft(env: Env, s: State, m: nat)
    requires s.pc.ChatStart? && m <= s.pc.drops + 1
    ensures ResumedTimes(env, s, m) ==
      if m <= s.pc.drops then s.(pc := ChatStart(s.pc.drops - m)) else s.(pc := ChatNext, llm := s.llm.(phase := Live))
  {
    if m > 0 { DropFramesLeft(env, s, m - 1); }
  }

  /**
   Every delta that a streamed chunk queued goes out as one frame, and the chunk is kept when the
   client comes back for more behind the last of them; then the chat loop goes on.
   */
  lemma DeltaFrames(env: Env, s: State, chunk: string, deltas: nat, m: nat)
    requires env.streaming && s.pc.ChatNext? && m <= deltas
    ensures
      var next := ResumedTimes(env, Exec(env, s, LlmYields(chunk, deltas)), m);
      && (m < deltas ==> next.pc.ChatDelta? && next.llm.contentChunks == s.llm.contentChunks)
      && (m == deltas ==> next.pc.ChatNext? && next.llm.contentChunks == s.llm.contentChunks + [chunk])
  {
    if deltas > 0 { DeltaFramesLeft(env, Exec(env, s, LlmYields(chunk, deltas)), m); }
  }

  /** The frames before the first chunk: one for the start and one per dropped message. */
  lemma StartFrames(env: Env, s: State, drops: nat, m: nat)
    requires s.pc.Setup? && m <= drops + 1
    ensures ResumedTimes(env, Exec(env, s, BeginChat(drops)), m).pc.ChatStart? <==> m <= drops
    ensures m == drops + 1 ==> ResumedTimes(env, Exec(env, s, BeginChat(drops)), m).pc.ChatNext?
  {
    DropFramesLeft(env, Exec(env, s, BeginChat(drops)), m);
  }

  /** The frames behind the last chunk: one per delta still queued, and one per reasoning or error event. */
  lemma EndFrames(env: Env, s: State, end: LlmEnd, deltas: nat, extra: nat, m: nat)
    requires s.pc.ChatNext?
    ensures env.streaming && m <= deltas ==>
      (ResumedTimes(env, Exec(env, s, LlmEnds(end, deltas, extra)), m).pc.ChatTail? <==> m < deltas)
    ensures !env.streaming && m <= extra ==>
      var next := ResumedTimes(env, Exec(env, s, LlmEnds(end, deltas, extra)), m);
      if m < extra then next.pc.ChatExtra? else next.pc == ChatPersist(end)
  {
    var ended := Exec(env, s, LlmEnds(end, deltas, extra));
    if env.streaming && 0 < deltas && m <= deltas {
      TailFramesLeft(env, ended, if m < deltas then m else deltas - 1);
    } else if !env.streaming && 0 < extra && m <= extra {
      ExtraFramesLeft(env, ended, m);
    }
  }

  lemma ChunkShown(env: Env, s: State, chunk: string, deltas: nat) returns (next: State)
    requires Reachable(env, s) && s.pc.ChatNext?
    ensures Reachable(env, next) && next.pc.ChatNext? && next.db == s.db
    ensures next.llm.produced == s.llm.produced + [chunk] && next.llm.contentChunks == s.llm.contentChunks + [chunk]
  {
    next := Reach(env, s, LlmYields(chunk, deltas));
    if env.streaming && deltas > 0 {
      next := DeltasShown(env, next);
    } else if !env.streaming {
      next := Reach(env, next, Resume);
    }
  }

  lemma {:induction false} ChunksShown(env: Env, s: State, chunks: seq<string>, deltas: nat) returns (next: State)
    requires Reachable(env, s) && s.pc.ChatNext?
    ensures Reachable(env, next) && next.pc.ChatNext? && next.db == s.db
    ensures next.llm.produced == s.llm.produced + chunks && next.llm.contentChunks == s.llm.contentChunks + chunks
    decreases |chunks|
  {
    next := s;
    if chunks == [] {
      assert s.llm.produced + chunks == s.llm.produced && s.llm.contentChunks + chunks == s.llm.contentChunks;
    } else {
      next := ChunkShown(env, s, chunks[0], deltas);
      next := ChunksShown(env, next, chunks[1..], deltas);
      assert s.llm.produced + [chunks[0]] + chunks[1..] == s.llm.produced + chunks;
      assert s.llm.contentChunks + [chunks[0]] + chunks[1..] == s.llm.contentChunks + chunks;
    }
  }

  lemma {:induction false} TailShown(env: Env, s: State) returns (next: State)
    requires Reachable(env, s)
    requires s.pc.ChatTail? || s.pc.ChatFinal? || s.pc.ChatExtra? || s.pc.ChatPersist?
    ensures Reachable(env, next) && next.pc == ChatPersist(s.pc.end) && next.llm == s.llm && next.db == s.db
    decreases if s.pc.ChatTail? then 3 else if s.pc.ChatFinal? then 2 else if s.pc.ChatExtra? then 1 else 0,
              if s.pc.ChatTail? || s.pc.ChatExtra? then s.pc.left else 0
  {
    next := s;
    if !s.pc.ChatPersist? {
      next := Reach(env, s, Resume);
      next := TailShown(env, next);
    }
  }

  lemma ChatShows(env: Env, s: State) returns (next: State)
    requires Reachable(env, s) && s.pc.ChatPersist?
    ensures Reachable(env, next) && next.pc.ChatComplete? && next.sent.complete.Some? && next.llm == s.llm
  {
    next := Reach(env, s, Persist);
    next := Reach(env, next, Charge);
  }

  lemma NothingLostBefore(env: Env, s: State)
    requires Reachable(env, s) && !s.pc.Gone?
    ensures s.llm.lost.None?
  {
    var actions :| Run(env, actions) == s;
    InvAlways(env, actions);
  }

  lemma {:induction false} DropsShown(env: Env, s: State) returns (next: State)
    requires Reachable(env, s) && s.pc.ChatStart?
    ensures Reachable(env, next) && next == s.(pc := ChatNext, llm := s.llm.(phase := Live))
    decreases s.pc.drops
  {
    next := Reach(env, s, Resume);
    if s.pc.drops > 0 { next := DropsShown(env, next); }
  }

  /** Whatever chunks the LLM gives and however it ends, a client that stays gets to the `complete` frame. */
  lemma ChatRunDelivers(env: Env, drops: nat, chunks: seq<string>, deltas: nat, end: LlmEnd, extra: nat)
    ensures exists s :: Reachable(env, s) && s.pc.ChatComplete? && s.sent.complete.Some? &&
                        s.llm.produced == chunks && s.llm.lost.None? && s.llm.end == Some(end)
  {
    assert Run(env, []) == INIT;
    var s := Reach(env, INIT, BeginChat(drops));
    s := DropsShown(env, s);
    s := ChunksShown(env, s, chunks, deltas);
    s := Reach(env, s, LlmEnds(end, deltas, extra));
    s := TailShown(env, s);
    s := ChatShows(env, s);
    NothingLostBefore(env, s);
    assert s.llm.produced == [] + chunks == chunks;
  }

  lemma {:induction false} RestDrained(env: Env, s: State, rest: seq<string>) returns (next: State)
    requires Reachable(env, s) && s.finisher.Draining? && s.llm.phase.Live?
    ensures Reachable(env, next)
    ensures next == s.(llm := s.llm.(produced := s.llm.produced + rest, contentChunks := s.llm.contentChunks + rest))
    decreases |rest|
  {
    next := s;
    if rest == [] {
      assert s.llm.produced + rest == s.llm.produced && s.llm.contentChunks + rest == s.llm.contentChunks;
    } else {
      next := Reach(env, s, FinisherChunk(rest[0]));
      next := RestDrained(env, next, rest[1..]);
      assert s.llm.produced + [rest[0]] + rest[1..] == s.llm.produced + rest;
      assert s.llm.contentChunks + [rest[0]] + rest[1..] == s.llm.contentChunks + rest;
    }
  }

  lemma LeftRunIsSettled(env: Env, s: State, end: LlmEnd) returns (next: State)
    requires Reachable(env, s) && s.pc.Gone? && s.finisher.Draining? && s.llm.phase.Live? && s.worker.Unstarted?
    requires s.db == Created(INIT.db)
    ensures Reachable(env, next) && Quiescent(next) && next.finisher == Stopped(end, true)
    ensures next.llm.produced == s.llm.produced && next.llm.lost == s.llm.lost && next.db.row.Row?
    ensures next.db.log ==
      if end == Output(true) then [Committed(Running), Committed(Completed), Posted]
      else [Committed(Running), Committed(Failed)]
  {
    next := Reach(env, s, FinisherEnd(end));
    next := Reach(env, next, FinisherCommit);
    next := Reach(env, next, FinisherCharge(false, false));
  }

  /**
   A client that leaves in the middle of a chat run leaves the rest to the finisher: it drains
   what the LLM still gives, and the run is COMPLETED and charged, or FAILED, by how that ends.
   */
  lemma LeftRunIsFinished(env: Env, first: string, rest: seq<string>, end: LlmEnd)
    ensures exists s ::
      && Reachable(env, s) && Quiescent(s) && s.db.row.Row?
      && s.db.row.status == (if end == Output(true) then Completed else Failed)
      && s.db.row.content == env.parse(JoinText(Kept([first] + rest, s.llm.lost)))
      && s.db.log == if end == Output(true) then [Committed(Running), Committed(Completed), Posted]
                     else [Committed(Running), Committed(Failed)]
  {
    var s := ChatRunStarts(env);
    s := Reach(env, s, LlmYields(first, 1));
    s := Reach(env, s, Disconnect);
    s := RestDrained(env, s, rest);
    assert s.llm.produced == [first] + rest;
    s := LeftRunIsSettled(env, s, end);
    var actions :| Run(env, actions) == s;
    InvAlways(env, actions);
    FinisherStoresKeptChunks(env, actions);
  }

  /** An exception while charging: what was posted stays posted, and the row is FAILED all the same. */
  lemma RaisingChargeIsKept(env: Env, answer: string, posted: bool)
    ensures exists s ::
      && Reachable(env, s) && s.pc.ErrorFrame? && s.db.row.Row? && s.db.row.status == Failed
      && s.db.log ==
           [Committed(Running), Committed(Completed)] + (if posted then [Posted] else []) + [Committed(Failed)]
  {
    var s := ReactRunAnswers(env, answer);
    s := CommitsCompleted(env, s);
    s := Reach(env, s, Raise(posted));
  }

  // ---- the chunk in flight ------------------------------------------------------------

  /** What the finisher stores: every chunk the LLM produced but the lost one. */
  lemma FinisherStoresKeptChunks(env: Env, actions: seq<Action>)
    requires Run(env, actions).finisher.Settling? || Run(env, actions).finisher.Stopped?
    ensures
      var s := Run(env, actions);
      s.db.row.Row? && s.db.row.content == env.parse(JoinText(Kept(s.llm.produced, s.llm.lost)))
  {
    InvAlways(env, actions);
  }

  /** The client left at a delta frame, its chunk still in flight. */
  predicate LeavesAtDelta(s: State, a: Action) {
    a.Disconnect? && s.pc.ChatDelta?
  }

  ghost predicate LeftAtDelta(env: Env, actions: seq<Action>) {
    exists n :: 0 <= n < |actions| && LeavesAtDelta(Run(env, actions[..n]), actions[n])
  }

  lemma LeftEarlier(env: Env, actions: seq<Action>)
    requires actions != []
    ensures LeftAtDelta(env, actions) <==>
      var last := |actions| - 1;
      LeftAtDelta(env, actions[..last]) || LeavesAtDelta(Run(env, actions[..last]), actions[last])
  {
    var before, last := actions[..|actions| - 1], |actions| - 1;
    forall n | 0 <= n < last
      ensures LeavesAtDelta(Run(env, before[..n]), before[n]) <==> LeavesAtDelta(Run(env, actions[..n]), actions[n])
    {
      assert before[..n] == actions[..n];
    }
  }

  /** A chunk is lost exactly when the client leaves at a delta frame. */
  lemma {:induction false} ChunkLostIffLeftAtDelta(env: Env, actions: seq<Action>)
    ensures Run(env, actions).llm.lost.Some? <==> LeftAtDelta(env, actions)
  {
    if actions != [] {
      var before, a := actions[..|actions| - 1], actions[|actions| - 1];
      ChunkLostIffLeftAtDelta(env, before);
      LeftEarlier(env, actions);
      if !LeavesAtDelta(Run(env, before), a) {
        OnlyDeltaLoses(env, Run(env, before), a);
      }
    }
  }

  lemma OnlyDeltaLoses(env: Env, s: State, a: Action)
    requires !LeavesAtDelta(s, a)
    ensures Exec(env, s, a).llm.lost == s.llm.lost
  {
  }

  /** The chunks are joined in their order. */
  lemma {:induction false} JoinTextConcat(a: seq<string>, b: seq<string>)
    ensures JoinText(a + b) == JoinText(a) + JoinText(b)
    ensures |a| == 1 ==> JoinText(a) == a[0]
  {
    if |a| == 1 { assert a[..0] == []; }
    if b == [] {
      assert a + b == a;
    } else {
      assert (a + b)[..|a + b| - 1] == a + b[..|b| - 1];
      JoinTextConcat(a, b[..|b| - 1]);
    }
  }

  lemma MiddleGone(a: string, b: string, c: string)
    ensures a + c == a + (b + c) <==> b == ""
  {
    assert |a + (b + c)| == |a| + |b| + |c|;
    if b == "" { assert b + c == c; }
  }

  /** The stored text is the produced text exactly when nothing was lost but an empty chunk. */
  lemma LostChunkShortensText(produced: seq<string>, k: nat)
    requires k < |produced|
    ensures |JoinText(Kept(produced, Some(k)))| + |produced[k]| == |JoinText(produced)|
    ensures JoinText(Kept(produced, Some(k))) == JoinText(produced) <==> produced[k] == ""
  {
    var front, rest := produced[..k], produced[k + 1..];
    assert produced == front + ([produced[k]] + rest);
    JoinTextConcat(front, [produced[k]] + rest);
    JoinTextConcat([produced[k]], rest);
    JoinTextConcat(front, rest);
    assert JoinText([produced[k]]) == produced[k] by { assert [produced[k]][..0] == []; }
    assert Kept(produced, Some(k)) == front + rest;
    MiddleGone(JoinText(front), produced[k], JoinText(rest));
  }

  // ---- the background finisher as code ------------------------------------------------

  /** The run's row, its status commits and its charges, as the finisher updates them. */
  class RunRecord {
    var db: Database

    /**
     `_finish_run_in_background`: `kept` is what the generator had appended, `rest` what the
     LLM generator still gives, and `stop` how it ends; None when it raises. `aborts` says
     that something between the drain and the commit raises, `posted` that a charge that
     raises had been posted.
     */
    method FinishInBackground(env: Env, kept: seq<string>, rest: seq<string>, stop: Option<LlmEnd>,
                              aborts: bool, chargeRaises: bool, posted: bool)
      requires db.row.Row?
      modifies this
      ensures aborts ==> db == old(db)
      ensures !aborts ==>
        var success := stop == Some(Output(true));
        && db.row == Row(if success then Completed else Failed, env.parse(JoinText(kept) + JoinText(rest)))
        && db.log == old(db.log) + [Committed(if success then Completed else Failed)] +
                     (if success && (!chargeRaises || posted) then [Posted] else [])
        && db.runPersisted == old(db.runPersisted) && db.orphan == old(db.orphan)
    {
      var contentChunks := kept;
      for k := 0 to |rest|
        invariant contentChunks == kept + rest[..k]
      {
        contentChunks := contentChunks + [rest[k]];
      }
      if aborts { return; }
      JoinTextConcat(kept, rest);
      assert contentChunks == kept + rest;
      var success := stop.Some? && Succeeded(stop.value);
      db := Write(db, StatusOf(success), Some(env.parse(JoinText(contentChunks))));
      if success && (!chargeRaises || posted) {
        db := Bill(db, true);
      }
    }
  }
}
