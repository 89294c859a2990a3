/**
 The in-flight turn lock of the two copilots, and the turns of one session that race for
 it: HTTP handlers, worker threads, response teardown, time and crashes take steps in any
 order. Tokens are fresh per turn. A turn's transaction begins before it asks for the lock, and
 with it the time stamp of its user row.
 */
module TurnLock {
  import opened CopilotHistory
  import opened Options
  import opened TurnHistory

  const TURN_LOCK_TTL_SECONDS: nat := 360

  datatype Held = Held(token: nat, expires: nat)

  /** SET NX EX: what the key holds afterwards, and whether this call set it. */
  function SetIfAbsent(lock: Option<Held>, now: nat, token: nat): (Option<Held>, bool) {
    if lock.Some? && now < lock.value.expires then (lock, false)
    else (Some(Held(token, now + TURN_LOCK_TTL_SECONDS)), true)
  }

  /** The compare-and-delete script. */
  function CompareAndDelete(lock: Option<Held>, now: nat, token: nat): Option<Held> {
    if lock.Some? && now < lock.value.expires && lock.value.token == token then None else lock
  }

  function HolderOf(lock: Option<Held>, now: nat): Option<nat> {
    if lock.Some? && now < lock.value.expires then Some(lock.value.token) else None
  }

  /** The Redis keys of all sessions. */
  class Redis {
    var locks: map<string, Held>
    var now: nat
    var up: bool

    function Lock(key: string): Option<Held>
      reads this
    {
      if key in locks then Some(locks[key]) else None
    }

    /** `_try_acquire_turn_lock`: fails open when Redis does. */
    method TryAcquire(key: string, uuid: nat) returns (token: Option<nat>)
      modifies this`locks
      ensures !up ==> token == Some(uuid) && locks == old(locks)
      ensures up ==>
        && token == (if old(HolderOf(Lock(key), now)).None? then Some(uuid) else None)
        && HolderOf(Lock(key), now) == (if token.Some? then token else old(HolderOf(Lock(key), now)))
        && (token.Some? ==> locks[key].expires == now + 360)
      ensures forall other :: other != key ==> Lock(other) == old(Lock(other))
    {
      if !up {
        return Some(uuid);
      }
      var (lock, acquired) := SetIfAbsent(Lock(key), now, uuid);
      locks := locks[key := lock.value];
      return if acquired then Some(uuid) else None;
    }

    /** `_release_turn_lock`: a token that is not the holder's removes nothing. */
    method Release(key: string, token: nat)
      modifies this`locks
      ensures HolderOf(Lock(key), now) ==
        if up && old(HolderOf(Lock(key), now)) == Some(token) then None else old(HolderOf(Lock(key), now))
      ensures old(HolderOf(Lock(key), now)) != Some(token) || !up ==> locks == old(locks)
      ensures forall other :: other != key ==> Lock(other) == old(Lock(other))
    {
      if up && CompareAndDelete(Lock(key), now, token) != Lock(key) {
        locks := locks - {key};
      }
    }
  }

  // ---- the turns of one session -------------------------------------------------------

  /**
   Where a turn stands; `began` is the start of the transaction that its next row belongs to.
   Ready: the response exists, its generator has not started.
   */
  datatype Phase =
    | Begun(began: nat)                   // the session was looked up, the lock not asked for
    | Acquired(began: nat)
    | UserStored
    | Ready
    | Working(began: nat)
    | ReplyStored
    | ReplyLost
    | Over
  {
    /** The transaction of the turn's next row has begun. */
    predicate Writes() { Begun? || Acquired? || Working? }

    /** The turn may still store its reply. */
    predicate Open() { Acquired? || UserStored? || Ready? || Working? }

    /** The turn's user row is stored and its reply is not. */
    predicate Owes() { UserStored? || Ready? || Working? }
  }

  /** Redis and the database have clocks of their own: `now` and `clock`. Rows stand as they were stored. */
  datatype State = State(now: nat, clock: nat, lock: Option<Held>, turns: map<nat, Phase>, rows: seq<Row>)

  datatype Action =
    | Tick(seconds: nat)
    | Elapse(micros: nat)
    | Begin(t: nat)                       // the SELECT of the session opens the transaction of the user row
    | Acquire(t: nat, redisUp: bool)
    | Refuse(t: nat)                      // the credit gate or a failure before the user row
    | StoreUser(t: nat)
    | Prepare(t: nat, ok: bool)           // the rest of the handler; a failure releases
    | StartWorker(t: nat)
    | BeginReply(t: nat)                  // the worker's next transaction, its first or one after a commit
    | StoreReply(t: nat) | LoseReply(t: nat)
    | WorkerRelease(t: nat, redisUp: bool)
    | CloseResponse(t: nat, redisUp: bool)
    | Crash(t: nat)

  const INIT := State(0, 0, None, map[], [])

  function Released(s: State, t: nat, redisUp: bool): State {
    if redisUp then s.(lock := CompareAndDelete(s.lock, s.now, t)) else s
  }

  function Move(s: State, t: nat, phase: Phase): State {
    s.(turns := s.turns[t := phase])
  }

  /** INSERT and COMMIT: the row carries its transaction's start, and the commit takes time. */
  function Store(s: State, row: Row): State {
    s.(rows := s.rows + [row], clock := s.clock + 1)
  }

  function Exec(s: State, a: Action): State {
    match a
    case Tick(seconds) => s.(now := s.now + seconds)
    case Elapse(micros) => s.(clock := s.clock + micros)
    case Begin(t) => if t in s.turns then s else Move(s, t, Begun(s.clock))
    case Acquire(t, redisUp) =>
      if t !in s.turns || !s.turns[t].Begun? then s
      else if !redisUp then Move(s, t, Acquired(s.turns[t].began))
      else if SetIfAbsent(s.lock, s.now, t).1 then
        Move(s, t, Acquired(s.turns[t].began)).(lock := SetIfAbsent(s.lock, s.now, t).0)
      else Move(s, t, Over)
    case Refuse(t) =>
      if t in s.turns && s.turns[t].Acquired? then Move(Released(s, t, true), t, Over) else s
    case StoreUser(t) =>
      if t in s.turns && s.turns[t].Acquired?
      then Store(Move(s, t, UserStored), Row(t, User, s.turns[t].began)) else s
    case Prepare(t, ok) =>
      if t in s.turns && s.turns[t].UserStored? then
        if ok then Move(s, t, Ready) else Move(Released(s, t, true), t, Over)
      else s
    case StartWorker(t) => if t in s.turns && s.turns[t].Ready? then Move(s, t, Working(s.clock)) else s
    case BeginReply(t) => if t in s.turns && s.turns[t].Working? then Move(s, t, Working(s.clock)) else s
    case StoreReply(t) =>
      if t in s.turns && s.turns[t].Working?
      then Store(Move(s, t, ReplyStored), Row(t, Assistant, s.turns[t].began)) else s
    case LoseReply(t) => if t in s.turns && s.turns[t].Working? then Move(s, t, ReplyLost) else s
    case WorkerRelease(t, redisUp) =>
      if t in s.turns && (s.turns[t].ReplyStored? || s.turns[t].ReplyLost?)
      then Move(Released(s, t, redisUp), t, Over) else s
    case CloseResponse(t, redisUp) =>
      if t in s.turns && s.turns[t].Ready? then Move(Released(s, t, redisUp), t, Over)
      else if t in s.turns && !s.turns[t].Begun? && !s.turns[t].Acquired? && !s.turns[t].UserStored?
      then Released(s, t, redisUp)
      else s
    case Crash(t) => if t in s.turns then Move(s, t, Over) else s
  }

  /** Any steps in any order, from any state. */
  function Run(s: State, actions: seq<Action>): State
    decreases |actions|
  {
    if actions == [] then s else Run(Exec(s, actions[0]), actions[1..])
  }

  /** The turn that a step belongs to; time belongs to none. */
  function Actor(a: Action): Option<nat> {
    match a
    case Tick(_) => None
    case Elapse(_) => None
    case Begin(t) => Some(t)
    case Acquire(t, _) => Some(t)
    case Refuse(t) => Some(t)
    case StoreUser(t) => Some(t)
    case Prepare(t, _) => Some(t)
    case StartWorker(t) => Some(t)
    case BeginReply(t) => Some(t)
    case StoreReply(t) => Some(t)
    case LoseReply(t) => Some(t)
    case WorkerRelease(t, _) => Some(t)
    case CloseResponse(t, _) => Some(t)
    case Crash(t) => Some(t)
  }

  /**
   A live lock leaves its holder only by the holder's own step or by its expiry: no step of
   another turn, however stale its token, removes or replaces it.
   */
  lemma ForeignLockKept(s: State, a: Action)
    requires HolderOf(s.lock, s.now).Some? && Actor(a) != HolderOf(s.lock, s.now)
    ensures a.Tick? || Exec(s, a).lock == s.lock
    ensures a.Tick? ==>
      (HolderOf(Exec(s, a).lock, Exec(s, a).now) == HolderOf(s.lock, s.now) <==>
         s.now + a.seconds < s.lock.value.expires)
  {
  }

  // ---- steady and careful runs --------------------------------------------------------

  /**
   A step takes no lock away from a turn that still owes its reply, lets no turn go ahead
   without the lock, and kills no turn between its two rows.
   */
  predicate Steady(s: State, a: Action) {
    match a
    case Tick(seconds) =>
      s.lock.Some? && s.lock.value.token in s.turns && s.turns[s.lock.value.token].Open() ==>
        s.now + seconds < s.lock.value.expires
    case Acquire(t, redisUp) => redisUp || !Asks(s, t)
    case Prepare(t, ok) => ok || t !in s.turns || !s.turns[t].UserStored?
    case LoseReply(t) => t in s.turns ==> !s.turns[t].Working?
    case CloseResponse(t, redisUp) => t in s.turns ==> !s.turns[t].Ready? && (s.turns[t].Working? ==> !redisUp)
    case Crash(t) => t in s.turns ==> !s.turns[t].Owes()
    case _ => true
  }

  /** The turn has begun and may ask for the lock. */
  predicate Asks(s: State, t: nat) {
    t in s.turns && s.turns[t].Begun?
  }

  /** A turn that gets the lock began its transaction behind those of all stored rows. */
  predicate Punctual(s: State, a: Action) {
    a.Acquire? && Asks(s, a.t) && HolderOf(s.lock, s.now).None? ==> Above(s.rows, s.turns[a.t].began)
  }

  predicate Careful(s: State, a: Action) {
    Steady(s, a) && Punctual(s, a)
  }

  predicate SteadyFrom(s: State, actions: seq<Action>)
    decreases |actions|
  {
    actions == [] || (Steady(s, actions[0]) && SteadyFrom(Exec(s, actions[0]), actions[1..]))
  }

  predicate CarefulFrom(s: State, actions: seq<Action>)
    decreases |actions|
  {
    actions == [] || (Careful(s, actions[0]) && CarefulFrom(Exec(s, actions[0]), actions[1..]))
  }

  ghost predicate AtMostOneWorker(s: State) {
    forall t, u :: t in s.turns && u in s.turns && s.turns[t].Working? && s.turns[u].Working? ==> t == u
  }

  /** Every open turn is the live holder, and whoever holds the lock is a turn that asked for it. */
  ghost predicate Exclusive(s: State) {
    && (s.lock.Some? ==> s.lock.value.token in s.turns && !s.turns[s.lock.value.token].Begun?)
    && (forall t :: t in s.turns && s.turns[t].Open() ==> HolderOf(s.lock, s.now) == Some(t))
  }

  /** The rows alternate as stored, and are odd in number exactly while a reply is owed. */
  ghost predicate InStep(s: State) {
    Alternating(s.rows) && (|s.rows| % 2 == 1 <==> exists t :: t in s.turns && s.turns[t].Owes())
  }

  /** Transactions have begun when their rows are stored, and a worker's behind all rows it found. */
  ghost predicate Stamped(s: State) {
    && Above(s.rows, s.clock)
    && RepliesOnTop(s.rows)
    && (forall t :: t in s.turns && s.turns[t].Writes() ==> s.turns[t].began <= s.clock)
    && (forall t :: t in s.turns && s.turns[t].Working? ==> Above(s.rows, s.turns[t].began))
  }

  ghost predicate Serialized(s: State) {
    Exclusive(s) && InStep(s) && Stamped(s)
  }

  /** The stored rows are in the order of their transactions, and so is the row of an accepted turn. */
  ghost predicate Ordered(s: State) {
    && UsersBehind(s.rows)
    && (forall t :: t in s.turns && s.turns[t].Acquired? ==> Above(s.rows, s.turns[t].began))
  }

  /** A step that takes the lock away from no open turn, and lets none in without it. Turns may die. */
  predicate KeepsLock(s: State, a: Action) {
    match a
    case Tick(_) => Steady(s, a)
    case Acquire(t, redisUp) => Steady(s, a)
    case CloseResponse(t, redisUp) => t in s.turns && s.turns[t].Working? ==> !redisUp
    case _ => true
  }

  lemma ExclusiveStep(s: State, a: Action)
    requires Exclusive(s) && KeepsLock(s, a)
    ensures Exclusive(Exec(s, a))
  {
  }

  lemma SteadyKeepsLock(s: State, a: Action)
    requires Steady(s, a)
    ensures KeepsLock(s, a)
  {
  }

  lemma NobodyOwes(s: State, turns: map<nat, Phase>)
    requires InStep(s)
    requires forall t :: t in turns && turns[t].Owes() ==> t in s.turns && s.turns[t].Owes()
    requires forall t :: t in s.turns && s.turns[t].Owes() ==> t in turns && turns[t].Owes()
    ensures |s.rows| % 2 == 1 <==> exists t :: t in turns && turns[t].Owes()
  {
  }

  lemma UserRowInStep(s: State, t: nat)
    requires Exclusive(s) && InStep(s) && t in s.turns && s.turns[t].Acquired?
    ensures InStep(Exec(s, StoreUser(t)))
  {
    assert forall u :: u in s.turns && s.turns[u].Owes() ==> Some(u) == Some(t);
    assert Exec(s, StoreUser(t)).turns[t].Owes();
  }

  lemma ReplyInStep(s: State, t: nat)
    requires Exclusive(s) && InStep(s) && t in s.turns && s.turns[t].Working?
    ensures InStep(Exec(s, StoreReply(t)))
  {
    var next := Exec(s, StoreReply(t));
    assert s.turns[t].Owes();
    assert forall u :: u in next.turns && next.turns[u].Owes() ==> u in s.turns && Some(u) == Some(t);
  }

  /** The turn goes on and still owes its reply. */
  lemma StillOwes(s: State, t: nat, phase: Phase)
    requires InStep(s) && t in s.turns && s.turns[t].Owes() && phase.Owes()
    ensures InStep(Move(s, t, phase))
  {
    assert Move(s, t, phase).turns[t].Owes();
  }

  lemma InStepStep(s: State, a: Action)
    requires Exclusive(s) && InStep(s) && Steady(s, a)
    ensures InStep(Exec(s, a))
  {
    match a
    case StoreUser(t) => if t in s.turns && s.turns[t].Acquired? { UserRowInStep(s, t); }
    case StoreReply(t) => if t in s.turns && s.turns[t].Working? { ReplyInStep(s, t); }
    case Prepare(t, _) => if t in s.turns && s.turns[t].UserStored? { StillOwes(s, t, Ready); }
    case StartWorker(t) => if t in s.turns && s.turns[t].Ready? { StillOwes(s, t, Working(s.clock)); }
    case BeginReply(t) => if t in s.turns && s.turns[t].Working? { StillOwes(s, t, Working(s.clock)); }
    case _ => NobodyOwes(s, Exec(s, a).turns);
  }

  /** An open turn is the only one. */
  lemma OnlyOpen(s: State, t: nat)
    requires Exclusive(s) && t in s.turns && s.turns[t].Open()
    ensures forall u :: u in s.turns && s.turns[u].Open() ==> u == t
  {
    assert forall u :: u in s.turns && s.turns[u].Open() ==> Some(u) == Some(t);
  }

  lemma UserRowStamped(s: State, t: nat)
    requires Exclusive(s) && Stamped(s) && t in s.turns && s.turns[t].Acquired?
    ensures Stamped(Exec(s, StoreUser(t)))
  {
    OnlyOpen(s, t);
  }

  lemma ReplyStamped(s: State, t: nat)
    requires Exclusive(s) && Stamped(s) && t in s.turns && s.turns[t].Working?
    ensures Stamped(Exec(s, StoreReply(t)))
  {
    OnlyOpen(s, t);
  }

  /** Other steps store nothing, and no transaction begins before the clock. */
  lemma NothingStored(s: State, next: State)
    requires Stamped(s) && next.rows == s.rows && s.clock <= next.clock
    requires forall t :: t in next.turns && next.turns[t].Writes() ==>
      || next.turns[t].began == s.clock
      || (t in s.turns && s.turns[t].Writes() && s.turns[t].began == next.turns[t].began
          && (next.turns[t].Working? ==> s.turns[t].Working?))
    ensures Stamped(next)
  {
  }

  lemma StampedStep(s: State, a: Action)
    requires Exclusive(s) && Stamped(s)
    ensures Stamped(Exec(s, a))
  {
    match a
    case StoreUser(t) => if t in s.turns && s.turns[t].Acquired? { UserRowStamped(s, t); }
    case StoreReply(t) => if t in s.turns && s.turns[t].Working? { ReplyStamped(s, t); }
    case _ => NothingStored(s, Exec(s, a));
  }

  /** Every steady step keeps turns and rows serialized. */
  lemma SerializedStep(s: State, a: Action)
    requires Serialized(s) && Steady(s, a)
    ensures Serialized(Exec(s, a))
  {
    SteadyKeepsLock(s, a);
    ExclusiveStep(s, a);
    InStepStep(s, a);
    StampedStep(s, a);
  }

  lemma UserRowOrdered(s: State, t: nat)
    requires Serialized(s) && Ordered(s) && t in s.turns && s.turns[t].Acquired?
    ensures Ordered(Exec(s, StoreUser(t)))
  {
    OnlyOpen(s, t);
  }

  lemma ReplyOrdered(s: State, t: nat)
    requires Serialized(s) && Ordered(s) && t in s.turns && s.turns[t].Working?
    ensures Ordered(Exec(s, StoreReply(t)))
  {
    OnlyOpen(s, t);
  }

  /** Every careful step keeps the stored rows in the order of their transactions as well. */
  lemma OrderedStep(s: State, a: Action)
    requires Serialized(s) && Ordered(s) && Careful(s, a)
    ensures Ordered(Exec(s, a))
  {
    match a
    case StoreUser(t) => if t in s.turns && s.turns[t].Acquired? { UserRowOrdered(s, t); }
    case StoreReply(t) => if t in s.turns && s.turns[t].Working? { ReplyOrdered(s, t); }
    case _ => assert Exec(s, a).rows == s.rows;
  }

  lemma {:induction false} SteadyRunsSerialize(s: State, actions: seq<Action>)
    requires Serialized(s) && SteadyFrom(s, actions)
    ensures Serialized(Run(s, actions))
    decreases |actions|
  {
    if actions != [] {
      SerializedStep(s, actions[0]);
      SteadyRunsSerialize(Exec(s, actions[0]), actions[1..]);
    }
  }

  lemma {:induction false} CarefulRunsOrder(s: State, actions: seq<Action>)
    requires Serialized(s) && Ordered(s) && CarefulFrom(s, actions)
    ensures Serialized(Run(s, actions)) && Ordered(Run(s, actions))
    decreases |actions|
  {
    if actions != [] {
      SerializedStep(s, actions[0]);
      OrderedStep(s, actions[0]);
      CarefulRunsOrder(Exec(s, actions[0]), actions[1..]);
    }
  }

  /**
   In every steady run at most one worker is in flight, a turn that asks while another owes its
   reply is turned away, and the rows are stored in strict alternation. They are read in
   alternation, and in the order in which they were stored, if and only if each user row's
   transaction began behind that of the reply before it.
   */
  lemma TurnsAreSerialized(actions: seq<Action>)
    requires SteadyFrom(INIT, actions)
    ensures
      var s := Run(INIT, actions);
      && AtMostOneWorker(s)
      && Alternating(s.rows)
      && (forall t, u :: t in s.turns && s.turns[t].Owes() && Asks(s, u) ==>
            Exec(s, Acquire(u, true)) == Move(s, u, Over))
      && (UsersBehind(s.rows) <==> AlternatesAsRead(s.rows))
      && (UsersBehind(s.rows) <==> ReadAsStored(s.rows))
  {
    SteadyRunsSerialize(INIT, actions);
    OthersTurnedAway(Run(INIT, actions));
    SerializedReads(Run(INIT, actions));
  }

  lemma OthersTurnedAway(s: State)
    requires Exclusive(s)
    ensures AtMostOneWorker(s)
    ensures forall t, u :: t in s.turns && s.turns[t].Owes() && Asks(s, u) ==>
              Exec(s, Acquire(u, true)) == Move(s, u, Over)
  {
  }

  lemma SerializedReads(s: State)
    requires Serialized(s)
    ensures UsersBehind(s.rows) <==> AlternatesAsRead(s.rows)
    ensures UsersBehind(s.rows) <==> ReadAsStored(s.rows)
  {
    ReadExactly(s.rows);
  }

  /** One worker at a time, and rows that every reader sees alternate. */
  ghost predicate Sound(s: State) {
    AtMostOneWorker(s) && AlternatesAsRead(s.rows)
  }

  lemma OrderedIsSound(s: State)
    requires Serialized(s) && Ordered(s)
    ensures Sound(s)
  {
    SerializedReads(s);
  }

  // ---- careless steps -----------------------------------------------------------------

  /** Careful steps can end in rows that a reader does not see alternate. */
  ghost predicate CanBreak(s: State) {
    exists actions :: CarefulFrom(s, actions) && !AlternatesAsRead(Run(s, actions).rows)
  }

  lemma BrokenNow(s: State)
    requires !Alternating(History(s.rows))
    ensures CanBreak(s)
  {
    HistoryReads(s.rows);
    assert CarefulFrom(s, []) && Run(s, []) == s;
  }

  lemma BreaksLater(s: State, a: Action)
    requires Careful(s, a) && CanBreak(Exec(s, a))
    ensures CanBreak(s)
  {
    var rest :| CarefulFrom(Exec(s, a), rest) && !AlternatesAsRead(Run(Exec(s, a), rest).rows);
    var actions := [a] + rest;
    assert actions[0] == a && actions[1..] == rest;
    assert CarefulFrom(s, actions) && Run(s, actions) == Run(Exec(s, a), rest);
  }

  lemma UnusedTurn(turns: map<nat, Phase>) returns (t: nat)
    ensures t !in turns
  {
    t := AboveAll(turns.Keys);
  }

  lemma AboveAll(ts: set<nat>) returns (n: nat)
    ensures forall t :: t in ts ==> t < n
  {
    n := 0;
    if t :| t in ts {
      var rest := ts - {t};
      n := AboveAll(rest);
      if n <= t { n := t + 1; }
      assert forall u :: u in ts ==> u == t || u in rest;
    }
  }

  /** The rows are read as they were stored, and a new transaction comes behind them. */
  ghost predicate Tidy(s: State) {
    Alternating(s.rows) && RepliesOnTop(s.rows) && UsersBehind(s.rows) && Above(s.rows, s.clock)
  }

  predicate EndsInUser(rows: seq<Row>) {
    rows != [] && rows[|rows| - 1].role == User
  }

  /** A user row behind a user row. */
  lemma SecondUserRow(s: State, t: nat)
    requires t in s.turns && s.turns[t].Acquired? && Tidy(s) && EndsInUser(s.rows)
    ensures CanBreak(s)
  {
    var row := Row(t, User, s.turns[t].began);
    HistoryOfNext(s.rows, row);
    TwoUsersLast(s.rows, row);
    BrokenNow(Exec(s, StoreUser(t)));
    BreaksLater(s, StoreUser(t));
  }

  /** Behind an odd number of alternating rows there is no place for another user row. */
  lemma TwoUsersLast(rows: seq<Row>, row: Row)
    requires Alternating(rows) && EndsInUser(rows) && row.role == User
    ensures !Alternating(Insert(rows, row))
  {
    var more := Insert(rows, row);
    assert more[|rows|] == row || more[|rows|] == rows[|rows| - 1];
  }

  /** A user row whose transaction began before the last reply's. */
  lemma EarlyRowBreaks(s: State, t: nat)
    requires t in s.turns && s.turns[t].Acquired? && Tidy(s)
    requires s.rows != [] && s.rows[|s.rows| - 1].role == Assistant
    requires s.turns[t].began <= s.rows[|s.rows| - 1].created
    ensures CanBreak(s)
  {
    var row := Row(t, User, s.turns[t].began);
    HistoryOfNext(s.rows, row);
    EarlyUserRow(s.rows, row);
    BrokenNow(Exec(s, StoreUser(t)));
    BreaksLater(s, StoreUser(t));
  }

  /** A new turn finds the lock free. */
  function Entered(s: State, u: nat): State {
    Exec(Exec(s, Begin(u)), Acquire(u, true))
  }

  lemma EntryBreaks(s: State, u: nat)
    requires u !in s.turns && HolderOf(s.lock, s.now).None? && Above(s.rows, s.clock)
    requires CanBreak(Entered(s, u))
    ensures CanBreak(s)
  {
    BreaksLater(Exec(s, Begin(u)), Acquire(u, true));
    BreaksLater(s, Begin(u));
  }

  /** Whoever is accepted when the last row is a user row adds another one. */
  lemma NextTurnBreaks(s: State)
    requires HolderOf(s.lock, s.now).None? && Tidy(s) && EndsInUser(s.rows)
    ensures CanBreak(s)
  {
    var u := UnusedTurn(s.turns);
    SecondUserRow(Entered(s, u), u);
    EntryBreaks(s, u);
  }

  /** A lock whose turn has nothing left to store may expire; then the next turn is accepted. */
  lemma NextTurnBreaksAfterExpiry(s: State)
    requires Tidy(s) && EndsInUser(s.rows)
    requires s.lock.Some? && s.lock.value.token in s.turns ==> !s.turns[s.lock.value.token].Open()
    ensures CanBreak(s)
  {
    var wait := Tick(if s.lock.Some? then s.lock.value.expires else 0);
    NextTurnBreaks(Exec(s, wait));
    BreaksLater(s, wait);
  }

  /** An accepted turn stores its user row behind tidy rows. */
  lemma StoredTidy(s: State, t: nat)
    requires t in s.turns && s.turns[t].Acquired? && Tidy(s) && |s.rows| % 2 == 0
    requires Above(s.rows, s.turns[t].began) && s.turns[t].began <= s.clock
    ensures Tidy(Exec(s, StoreUser(t))) && EndsInUser(Exec(s, StoreUser(t)).rows)
  {
  }

  /** Two turns that both go ahead to their user row. */
  lemma TwoAcquiredBreak(s: State, t: nat, u: nat)
    requires t in s.turns && u in s.turns && t != u && s.turns[t].Acquired? && s.turns[u].Acquired?
    requires Tidy(s) && |s.rows| % 2 == 0 && Above(s.rows, s.turns[t].began) && s.turns[t].began <= s.clock
    ensures CanBreak(s)
  {
    StoredTidy(s, t);
    SecondUserRow(Exec(s, StoreUser(t)), u);
    BreaksLater(s, StoreUser(t));
  }

  /** In a serialized state the last row is a user row exactly while a reply is owed. */
  lemma OwedIsLast(s: State, t: nat)
    requires Serialized(s) && t in s.turns && s.turns[t].Owes()
    ensures EndsInUser(s.rows)
  {
    assert |s.rows| % 2 == 1;
  }

  /** While a turn is accepted and its user row not stored, no reply is owed. */
  lemma NothingOwed(s: State, t: nat)
    requires Serialized(s) && t in s.turns && s.turns[t].Acquired?
    ensures |s.rows| % 2 == 0
  {
    assert forall u :: u in s.turns && s.turns[u].Owes() ==> Some(u) == Some(t);
  }

  /** The lifetime of a turn's lock is over before the turn has stored what it owes. */
  lemma ExpiryBreaks(s: State, seconds: nat)
    requires Serialized(s) && Ordered(s) && !Careful(s, Tick(seconds))
    ensures CanBreak(Exec(s, Tick(seconds)))
  {
    var t := s.lock.value.token;
    var next := Exec(s, Tick(seconds));
    if s.turns[t].Owes() {
      OwedIsLast(s, t);
      NextTurnBreaks(next);
    } else {
      var u := UnusedTurn(next.turns);
      NothingOwed(s, t);
      TwoAcquiredBreak(Entered(next, u), t, u);
      EntryBreaks(next, u);
    }
  }

  /** A turn that goes ahead when no other is open, whatever its stamp and whoever holds the lock. */
  lemma LonelyTurnBreaks(s: State, t: nat)
    requires t in s.turns && s.turns[t].Acquired? && Tidy(s) && |s.rows| % 2 == 0
    requires s.turns[t].began <= s.clock
    requires s.lock.Some? ==> s.lock.value.token in s.turns && !s.turns[s.lock.value.token].Open()
    ensures CanBreak(s)
  {
    if Above(s.rows, s.turns[t].began) {
      StoredTidy(s, t);
      NextTurnBreaksAfterExpiry(Exec(s, StoreUser(t)));
      BreaksLater(s, StoreUser(t));
    } else {
      EarlyForLast(s.rows, s.turns[t].began);
      EarlyRowBreaks(s, t);
    }
  }

  /** Who began before some row began before the last reply. */
  lemma EarlyForLast(rows: seq<Row>, began: nat)
    requires Alternating(rows) && RepliesOnTop(rows) && |rows| % 2 == 0 && !Above(rows, began)
    ensures rows != [] && rows[|rows| - 1].role == Assistant && began <= rows[|rows| - 1].created
  {
  }

  /** A turn is let in without the lock, because Redis was down. */
  lemma FailOpenBreaks(s: State, t: nat)
    requires Serialized(s) && Ordered(s) && Asks(s, t)
    ensures CanBreak(Exec(s, Acquire(t, false)))
  {
    var next := Exec(s, Acquire(t, false));
    if s.lock.Some? && s.turns[s.lock.value.token].Open() {
      var u := s.lock.value.token;
      if s.turns[u].Owes() {
        OwedIsLast(s, u);
        SecondUserRow(next, t);
      } else {
        NothingOwed(s, u);
        TwoAcquiredBreak(next, u, t);
      }
    } else {
      assert forall u :: u in s.turns ==> !s.turns[u].Open();
      LonelyTurnBreaks(next, t);
    }
  }

  /** A turn gets the lock whose transaction began before that of the last reply. */
  lemma LateComerBreaks(s: State, t: nat)
    requires Serialized(s) && Ordered(s) && !Punctual(s, Acquire(t, true))
    ensures CanBreak(Exec(s, Acquire(t, true)))
  {
    assert forall u :: u in s.turns ==> !s.turns[u].Open();
    EarlyForLast(s.rows, s.turns[t].began);
    EarlyRowBreaks(Exec(s, Acquire(t, true)), t);
  }

  /** The handler fails behind the user row, the process dies, or the response closes before the worker starts. */
  lemma AbandonedTurnBreaks(s: State, t: nat, a: Action)
    requires Serialized(s) && Ordered(s) && t in s.turns && s.turns[t].Owes()
    requires
      || (a == Prepare(t, false) && s.turns[t].UserStored?)
      || (a.CloseResponse? && a.t == t && s.turns[t].Ready?)
      || a == Crash(t)
    ensures CanBreak(Exec(s, a))
  {
    OwedIsLast(s, t);
    NextTurnBreaksAfterExpiry(Exec(s, a));
  }

  /** The worker's reply is not stored. */
  lemma LostReplyBreaks(s: State, t: nat)
    requires Serialized(s) && Ordered(s) && t in s.turns && s.turns[t].Working?
    ensures CanBreak(Exec(s, LoseReply(t)))
  {
    OwedIsLast(s, t);
    NextTurnBreaksAfterExpiry(Exec(s, LoseReply(t)));
  }

  /** The response closes under a working turn and frees its lock. */
  lemma EarlyReleaseBreaks(s: State, t: nat)
    requires Serialized(s) && Ordered(s) && t in s.turns && s.turns[t].Working?
    ensures CanBreak(Exec(s, CloseResponse(t, true)))
  {
    OwedIsLast(s, t);
    NextTurnBreaks(Exec(s, CloseResponse(t, true)));
  }

  /** Every careless step opens the way to rows that a reader does not see alternate. */
  lemma CarelessStepBreaks(s: State, a: Action)
    requires Serialized(s) && Ordered(s) && !Careful(s, a)
    ensures CanBreak(Exec(s, a))
  {
    match a
    case Tick(seconds) => ExpiryBreaks(s, seconds);
    case Acquire(t, redisUp) => if redisUp { LateComerBreaks(s, t); } else { FailOpenBreaks(s, t); }
    case Prepare(t, _) => AbandonedTurnBreaks(s, t, a);
    case Crash(t) => AbandonedTurnBreaks(s, t, a);
    case LoseReply(t) => LostReplyBreaks(s, t);
    case CloseResponse(t, redisUp) =>
      if s.turns[t].Ready? {
        AbandonedTurnBreaks(s, t, a);
      } else {
        EarlyReleaseBreaks(s, t);
      }
    case _ =>
  }

  /** Every careful continuation has one worker at a time and rows that are read in alternation. */
  ghost predicate StaysSound(s: State) {
    forall rest :: CarefulFrom(s, rest) ==> Sound(Run(s, rest))
  }

  lemma CarefulStaysSound(s: State, a: Action)
    requires Serialized(s) && Ordered(s) && Careful(s, a)
    ensures StaysSound(Exec(s, a))
  {
    SerializedStep(s, a);
    OrderedStep(s, a);
    forall rest | CarefulFrom(Exec(s, a), rest) ensures Sound(Run(Exec(s, a), rest)) {
      CarefulRunsOrder(Exec(s, a), rest);
      OrderedIsSound(Run(Exec(s, a), rest));
    }
  }

  /**
   The condition is exact: after a careful run, a step keeps every careful continuation to one
   worker at a time and to rows that every reader sees alternate if and only if it is careful.
   */
  lemma CarefulExactly(actions: seq<Action>, a: Action)
    requires CarefulFrom(INIT, actions)
    ensures Careful(Run(INIT, actions), a) <==> StaysSound(Exec(Run(INIT, actions), a))
  {
    CarefulRunsOrder(INIT, actions);
    if Careful(Run(INIT, actions), a) {
      CarefulStaysSound(Run(INIT, actions), a);
    } else {
      CarelessStepBreaks(Run(INIT, actions), a);
    }
  }

  // ---- a turn that begins too early ---------------------------------------------------

  /** A turn begins while a worker is in flight, and gets the lock when the worker is done. */
  function EarlyTurn(t: nat, u: nat): seq<Action> {
    [Begin(u), Elapse(1), BeginReply(t), StoreReply(t), WorkerRelease(t, true), Acquire(u, true), StoreUser(u)]
  }

  lemma FirstCarefulStep(s: State, actions: seq<Action>)
    requires actions != [] && Careful(s, actions[0])
    ensures Run(s, actions) == Run(Exec(s, actions[0]), actions[1..])
    ensures CarefulFrom(s, actions) <==> CarefulFrom(Exec(s, actions[0]), actions[1..])
  {
  }

  lemma {:induction false} CarefulIsSteady(s: State, actions: seq<Action>)
    requires CarefulFrom(s, actions)
    ensures SteadyFrom(s, actions)
    decreases |actions|
  {
    if actions != [] { CarefulIsSteady(Exec(s, actions[0]), actions[1..]); }
  }

  lemma FirstStep(s: State, actions: seq<Action>, next: State)
    requires actions != [] && Steady(s, actions[0]) && next == Exec(s, actions[0])
    ensures Run(s, actions) == Run(next, actions[1..])
    ensures SteadyFrom(s, actions) <==> SteadyFrom(next, actions[1..])
  {
  }

  /** The state in which the worker's transaction has begun behind that of turn u. */
  function Overtaken(s: State, t: nat, u: nat): State {
    Move(Move(s, u, Begun(s.clock)), t, Working(s.clock + 1)).(clock := s.clock + 1)
  }

  lemma EarlyTurnBegins(s: State, t: nat, u: nat)
    requires t in s.turns && s.turns[t].Working? && u !in s.turns
    ensures Run(s, EarlyTurn(t, u)) == Run(Overtaken(s, t, u), EarlyTurn(t, u)[3..])
    ensures SteadyFrom(s, EarlyTurn(t, u)) <==> SteadyFrom(Overtaken(s, t, u), EarlyTurn(t, u)[3..])
  {
    var actions := EarlyTurn(t, u);
    var begun := Move(s, u, Begun(s.clock));
    var later := begun.(clock := s.clock + 1);
    FirstStep(s, actions, begun);
    FirstStep(begun, actions[1..], later);
    FirstStep(later, actions[2..], Overtaken(s, t, u));
  }

  /** The reply is stored and the lock released; then the waiting turn gets it and stores its row. */
  lemma EarlyTurnEnds(s: State, t: nat, u: nat)
    requires HolderOf(s.lock, s.now) == Some(t) && t in s.turns && s.turns[t].Working? && Asks(s, u)
    ensures SteadyFrom(s, EarlyTurn(t, u)[3..])
    ensures Run(s, EarlyTurn(t, u)[3..]).rows ==
              s.rows + [Row(t, Assistant, s.turns[t].began), Row(u, User, s.turns[u].began)]
  {
    var actions := EarlyTurn(t, u)[3..];
    var early, reply := Row(u, User, s.turns[u].began), Row(t, Assistant, s.turns[t].began);
    var stored := Store(Move(s, t, ReplyStored), reply);
    var free := Move(stored, t, Over).(lock := None);
    var entered := Exec(free, Acquire(u, true));
    FirstStep(s, actions, stored);
    FirstStep(stored, actions[1..], free);
    FirstStep(free, actions[2..], entered);
    FirstStep(entered, actions[3..], Store(Move(entered, u, UserStored), early));
    assert s.rows + [reply] + [early] == s.rows + [reply, early];
  }

  lemma EarlyTurnRuns(s: State, t: nat, u: nat)
    requires Serialized(s) && t in s.turns && s.turns[t].Working? && u !in s.turns
    ensures SteadyFrom(s, EarlyTurn(t, u))
    ensures Run(s, EarlyTurn(t, u)).rows ==
              s.rows + [Row(t, Assistant, s.clock + 1), Row(u, User, s.clock)]
  {
    EarlyTurnBegins(s, t, u);
    OvertakenHolds(s, t, u, Overtaken(s, t, u));
    EarlyTurnEnds(Overtaken(s, t, u), t, u);
  }

  lemma OvertakenHolds(s: State, t: nat, u: nat, next: State)
    requires Exclusive(s) && t in s.turns && s.turns[t].Working? && u !in s.turns && next == Overtaken(s, t, u)
    ensures HolderOf(next.lock, next.now) == Some(t) && next.rows == s.rows
    ensures t in next.turns && next.turns[t] == Working(s.clock + 1)
    ensures u in next.turns && next.turns[u] == Begun(s.clock)
  {
  }

  /**
   From every serialized state with a worker in flight, steady steps alone store a user row that
   every reader sees in front of the reply it follows, behind the user row of that reply.
   */
  lemma EarlyTurnDisorders(s: State, t: nat, u: nat, history: seq<Row>)
    requires Serialized(s) && Ordered(s) && t in s.turns && s.turns[t].Working? && u !in s.turns
    requires IsReading(history, Run(s, EarlyTurn(t, u)).rows)
    ensures SteadyFrom(s, EarlyTurn(t, u))
    ensures EndsInUser(s.rows)
    ensures history == s.rows + [Row(u, User, s.clock), Row(t, Assistant, s.clock + 1)]
  {
    EarlyTurnRuns(s, t, u);
    OwedIsLast(s, t);
    IncreasingExactly(s.rows);
    EarlyRowRead(s.rows, Row(t, Assistant, s.clock + 1), Row(u, User, s.clock), history);
  }

  /** The prompt then needs the repair, and does not end in the new message. */
  lemma EarlyTurnNeedsRepair(s: State, t: nat, u: nat, history: seq<Row>, messages: seq<Message>)
    requires Serialized(s) && Ordered(s) && t in s.turns && s.turns[t].Working? && u !in s.turns
    requires IsReading(history, Run(s, EarlyTurn(t, u)).rows) && HaveRoles(messages, history)
    ensures messages != [] && messages[|messages| - 1].role == Assistant
    ensures Repaired(Trimmed(Window(messages))) != Trimmed(Window(messages))
  {
    EarlyTurnDisorders(s, t, u, history);
    DisorderedPrompt(s.rows, Row(u, User, s.clock), Row(t, Assistant, s.clock + 1), history, messages);
  }

  lemma DisorderedPrompt(rows: seq<Row>, early: Row, reply: Row, history: seq<Row>, messages: seq<Message>)
    requires EndsInUser(rows) && early.role == User && reply.role == Assistant
    requires history == rows + [early, reply] && HaveRoles(messages, history)
    ensures messages != [] && messages[|messages| - 1].role == Assistant
    ensures Repaired(Trimmed(Window(messages))) != Trimmed(Window(messages))
  {
    assert history[|rows| - 1] == rows[|rows| - 1] && history[|rows|] == early && history[|rows| + 1] == reply;
    RepairNeeded(messages, |rows| - 1);
  }

  lemma {:induction false} Resume(s: State, first: seq<Action>, rest: seq<Action>)
    ensures Run(s, first + rest) == Run(Run(s, first), rest)
    ensures SteadyFrom(s, first + rest) <==> SteadyFrom(s, first) && SteadyFrom(Run(s, first), rest)
    decreases |first|
  {
    if first == [] {
      assert first + rest == rest;
    } else {
      assert (first + rest)[1..] == first[1..] + rest;
      Resume(Exec(s, first[0]), first[1..], rest);
    }
  }

  function FirstTurn(): seq<Action> {
    [Begin(0), Acquire(0, true), StoreUser(0), Prepare(0, true), StartWorker(0)]
  }

  lemma FirstTurnRuns()
    ensures CarefulFrom(INIT, FirstTurn())
    ensures Run(INIT, FirstTurn()) ==
              State(0, 1, Some(Held(0, TURN_LOCK_TTL_SECONDS)), map[0 := Working(1)], [Row(0, User, 0)])
  {
    var actions := FirstTurn();
    var begun := Exec(INIT, actions[0]);
    var acquired := Exec(begun, actions[1]);
    var stored := Exec(acquired, actions[2]);
    var ready := Exec(stored, actions[3]);
    var lock := Some(Held(0, TURN_LOCK_TTL_SECONDS));
    assert ready == State(0, 1, lock, map[0 := Ready], [Row(0, User, 0)]);
    FirstCarefulStep(ready, actions[4..]);
    FirstCarefulStep(stored, actions[3..]);
    FirstCarefulStep(acquired, actions[2..]);
    FirstCarefulStep(begun, actions[1..]);
    FirstCarefulStep(INIT, actions);
  }

  lemma FirstTurnOrdered()
    ensures SteadyFrom(INIT, FirstTurn()) && Serialized(Run(INIT, FirstTurn())) && Ordered(Run(INIT, FirstTurn()))
  {
    FirstTurnRuns();
    CarefulRunsOrder(INIT, FirstTurn());
    CarefulIsSteady(INIT, FirstTurn());
  }

  /** Such a run from the empty session: every reader sees user, user, assistant. */
  lemma EarlyTurnHappens(history: seq<Row>)
    requires IsReading(history, Run(INIT, FirstTurn() + EarlyTurn(0, 1)).rows)
    ensures SteadyFrom(INIT, FirstTurn() + EarlyTurn(0, 1))
    ensures history == [Row(0, User, 0), Row(1, User, 1), Row(0, Assistant, 2)]
  {
    FirstTurnOrdered();
    Resume(INIT, FirstTurn(), EarlyTurn(0, 1));
    EarlyTurnFrom(Run(INIT, FirstTurn()), history);
  }

  lemma EarlyTurnFrom(s: State, history: seq<Row>)
    requires Serialized(s) && Ordered(s) && s == Run(INIT, FirstTurn())
    requires IsReading(history, Run(s, EarlyTurn(0, 1)).rows)
    ensures SteadyFrom(s, EarlyTurn(0, 1))
    ensures history == [Row(0, User, 0), Row(1, User, 1), Row(0, Assistant, 2)]
  {
    FirstTurnRuns();
    EarlyTurnDisorders(s, 0, 1, history);
  }

  // ---- mutual exclusion alone ---------------------------------------------------------

  predicate LockedFrom(s: State, actions: seq<Action>)
    decreases |actions|
  {
    actions == [] || (KeepsLock(s, actions[0]) && LockedFrom(Exec(s, actions[0]), actions[1..]))
  }

  lemma {:induction false} LockedRunsExclude(s: State, actions: seq<Action>)
    requires Exclusive(s) && LockedFrom(s, actions)
    ensures Exclusive(Run(s, actions))
    decreases |actions|
  {
    if actions != [] {
      ExclusiveStep(s, actions[0]);
      LockedRunsExclude(Exec(s, actions[0]), actions[1..]);
    }
  }

  ghost predicate CanDouble(s: State) {
    exists actions :: LockedFrom(s, actions) && !AtMostOneWorker(Run(s, actions))
  }

  lemma DoublesLater(s: State, a: Action)
    requires KeepsLock(s, a) && CanDouble(Exec(s, a))
    ensures CanDouble(s)
  {
    var rest :| LockedFrom(Exec(s, a), rest) && !AtMostOneWorker(Run(Exec(s, a), rest));
    var actions := [a] + rest;
    assert actions[0] == a && actions[1..] == rest;
    assert LockedFrom(s, actions) && Run(s, actions) == Run(Exec(s, a), rest);
  }

  function StepsToWork(phase: Phase): nat {
    match phase
    case Acquired(_) => 3
    case UserStored => 2
    case Ready => 1
    case _ => 0
  }

  /** An open turn goes on to its worker; that needs no lock. */
  function Advance(t: nat, phase: Phase): Action {
    match phase
    case Acquired(_) => StoreUser(t)
    case UserStored => Prepare(t, true)
    case _ => StartWorker(t)
  }

  lemma {:induction false} TwoOpenDouble(s: State, t: nat, u: nat)
    requires t in s.turns && u in s.turns && t != u && s.turns[t].Open() && s.turns[u].Open()
    ensures CanDouble(s)
    decreases StepsToWork(s.turns[t]) + StepsToWork(s.turns[u])
  {
    if !s.turns[t].Working? {
      TwoOpenDouble(Exec(s, Advance(t, s.turns[t])), t, u);
      DoublesLater(s, Advance(t, s.turns[t]));
    } else if !s.turns[u].Working? {
      TwoOpenDouble(Exec(s, Advance(u, s.turns[u])), t, u);
      DoublesLater(s, Advance(u, s.turns[u]));
    } else {
      assert LockedFrom(s, []) && !AtMostOneWorker(Run(s, []));
    }
  }

  /** Whoever finds the lock free goes to work beside an open turn. */
  lemma FreeLockDoubles(s: State, t: nat)
    requires t in s.turns && s.turns[t].Open() && HolderOf(s.lock, s.now).None?
    ensures CanDouble(s)
  {
    var u := UnusedTurn(s.turns);
    TwoOpenDouble(Entered(s, u), t, u);
    DoublesLater(Exec(s, Begin(u)), Acquire(u, true));
    DoublesLater(s, Begin(u));
  }

  lemma LosingTheLockDoubles(s: State, a: Action)
    requires Exclusive(s) && !KeepsLock(s, a)
    ensures CanDouble(Exec(s, a))
  {
    var next := Exec(s, a);
    match a
    case Tick(_) => FreeLockDoubles(next, s.lock.value.token);
    case CloseResponse(t, _) => FreeLockDoubles(next, t);
    case Acquire(t, _) =>
      if s.lock.Some? && s.turns[s.lock.value.token].Open() {
        TwoOpenDouble(next, t, s.lock.value.token);
      } else {
        var wait := Tick(if s.lock.Some? then s.lock.value.expires else 0);
        FreeLockDoubles(Exec(next, wait), t);
        DoublesLater(next, wait);
      }
    case _ =>
  }

  /** Every continuation that takes no lock away has one worker at a time. */
  ghost predicate StaysExclusive(s: State) {
    forall rest :: LockedFrom(s, rest) ==> AtMostOneWorker(Run(s, rest))
  }

  /**
   Mutual exclusion needs less than alternation, and again the condition is exact: a step
   admits a second worker if and only if it takes the lock away from an open turn (expiry, or
   the response closed under its worker) or lets a turn in without it (Redis down).
   */
  lemma ExclusionExactly(actions: seq<Action>, a: Action)
    requires LockedFrom(INIT, actions)
    ensures AtMostOneWorker(Run(INIT, actions))
    ensures KeepsLock(Run(INIT, actions), a) <==> StaysExclusive(Exec(Run(INIT, actions), a))
  {
    var s := Run(INIT, actions);
    LockedRunsExclude(INIT, actions);
    if KeepsLock(s, a) {
      ExclusiveStep(s, a);
      forall rest | LockedFrom(Exec(s, a), rest) ensures AtMostOneWorker(Run(Exec(s, a), rest)) {
        LockedRunsExclude(Exec(s, a), rest);
      }
    } else {
      LosingTheLockDoubles(s, a);
    }
  }

  // ---- a lock comes free ---------------------------------------------------------------

  /** A step in which no turn dies, and no release meets a Redis that is down. */
  predicate Lands(a: Action) {
    !a.Crash? && (a.WorkerRelease? || a.CloseResponse? ==> a.redisUp)
  }

  /** The live holder is a turn that was accepted and is not over. */
  ghost predicate HeldByTurn(s: State) {
    var holder := HolderOf(s.lock, s.now);
    holder.Some? ==> holder.value in s.turns && !s.turns[holder.value].Begun? && !s.turns[holder.value].Over?
  }

  lemma HeldByTurnStep(s: State, a: Action)
    requires HeldByTurn(s) && Lands(a)
    ensures HeldByTurn(Exec(s, a))
  {
  }

  lemma {:induction false} HeldByTurnAlways(s: State, actions: seq<Action>)
    requires HeldByTurn(s) && forall k :: 0 <= k < |actions| ==> Lands(actions[k])
    ensures HeldByTurn(Run(s, actions))
    decreases |actions|
  {
    if actions != [] {
      assert Lands(actions[0]);
      HeldByTurnStep(s, actions[0]);
      HeldByTurnAlways(Exec(s, actions[0]), actions[1..]);
    }
  }

  /**
   In every run in which no turn dies and every release reaches Redis, no turn that is over holds
   the lock: refused, failed behind its user row, closed before its worker, or done. So as soon
   as all turns are over, the next one that asks gets it.
   */
  lemma LockComesFree(actions: seq<Action>, u: nat)
    requires forall k :: 0 <= k < |actions| ==> Lands(actions[k])
    ensures
      var s := Run(INIT, actions);
      && (forall t :: HolderOf(s.lock, s.now) == Some(t) ==> t in s.turns && !s.turns[t].Over?)
      && ((forall t :: t in s.turns ==> s.turns[t].Over? || s.turns[t].Begun?) && u in s.turns && s.turns[u].Begun? ==>
            var next := Exec(s, Acquire(u, true));
            next.turns[u] == Acquired(s.turns[u].began) && HolderOf(next.lock, next.now) == Some(u))
  {
    HeldByTurnAlways(INIT, actions);
  }

  /** A turn that dies keeps its lock: others are turned away until its lifetime is over, and then let in. */
  lemma DeadTurnBlocks(s: State, t: nat, u: nat, seconds: nat)
    requires HolderOf(s.lock, s.now) == Some(t) && t in s.turns && t != u && Asks(s, u)
    ensures
      var dead := Exec(Exec(s, Crash(t)), Tick(seconds));
      var next := Exec(dead, Acquire(u, true));
      && dead.turns[t].Over? && dead.lock == s.lock
      && if s.now + seconds < s.lock.value.expires
         then next.turns[u].Over? && HolderOf(next.lock, next.now) == Some(t)
         else next.turns[u].Acquired? && HolderOf(next.lock, next.now) == Some(u)
  {
  }

  /** A step that ends a turn ends it, and no step brings it back. */
  lemma OverIsFinal(s: State, a: Action, t: nat)
    requires t in s.turns
    requires
      || s.turns[t].Over? || a == Crash(t)
      || (s.turns[t].Acquired? && a == Refuse(t)) || (s.turns[t].UserStored? && a == Prepare(t, false))
      || (s.turns[t].Ready? && a.CloseResponse? && a.t == t)
      || ((s.turns[t].ReplyStored? || s.turns[t].ReplyLost?) && a.WorkerRelease? && a.t == t)
    ensures t in Exec(s, a).turns && Exec(s, a).turns[t].Over?
    ensures |Exec(s, a).rows| > |s.rows| ==> Exec(s, a).rows[|s.rows|].turn != t
  {
  }

  // ---- the rows of one turn -----------------------------------------------------------

  ghost predicate HasUserRow(rows: seq<Row>, n: nat, t: nat)
    requires n <= |rows|
  {
    exists j :: 0 <= j < n && rows[j].turn == t && rows[j].role == User
  }

  /** A turn stores its user row once, then its reply once, and neither before it is accepted. */
  ghost predicate RowsByTurn(s: State) {
    && (forall j, k :: 0 <= j < k < |s.rows| && s.rows[j].turn == s.rows[k].turn ==>
          s.rows[j].role == User && s.rows[k].role == Assistant)
    && (forall k :: 0 <= k < |s.rows| ==>
          && s.rows[k].turn in s.turns
          && !s.turns[s.rows[k].turn].Begun? && !s.turns[s.rows[k].turn].Acquired?
          && (s.turns[s.rows[k].turn].Owes() ==> s.rows[k].role == User))
    && (forall k :: 0 <= k < |s.rows| && s.rows[k].role == Assistant ==> HasUserRow(s.rows, k, s.rows[k].turn))
    && (forall t :: t in s.turns && s.turns[t].Owes() ==> HasUserRow(s.rows, |s.rows|, t))
  }

  lemma HasUserRowStill(rows: seq<Row>, row: Row, n: nat, t: nat)
    requires n <= |rows| && HasUserRow(rows, n, t)
    ensures HasUserRow(rows + [row], n, t) && HasUserRow(rows + [row], |rows| + 1, t)
  {
    var j :| 0 <= j < n && rows[j].turn == t && rows[j].role == User;
    assert (rows + [row])[j] == rows[j];
  }

  lemma StoredByTurn(s: State, t: nat, role: Role, phase: Phase)
    requires RowsByTurn(s) && t in s.turns
    requires role == User ==> s.turns[t].Acquired? && phase.UserStored?
    requires role == Assistant ==> s.turns[t].Working? && phase.ReplyStored?
    ensures RowsByTurn(Store(Move(s, t, phase), Row(t, role, s.turns[t].began)))
  {
    var row := Row(t, role, s.turns[t].began);
    var next := Store(Move(s, t, phase), row);
    assert next.rows[|s.rows|] == row;
    forall k | 0 <= k < |next.rows| && next.rows[k].role == Assistant
      ensures HasUserRow(next.rows, k, next.rows[k].turn)
    {
      if k < |s.rows| {
        HasUserRowStill(s.rows, row, k, s.rows[k].turn);
      } else {
        HasUserRowStill(s.rows, row, |s.rows|, t);
      }
    }
    forall u | u in next.turns && next.turns[u].Owes() ensures HasUserRow(next.rows, |next.rows|, u) {
      if u != t { HasUserRowStill(s.rows, row, |s.rows|, u); }
    }
  }

  lemma NoRowByTurn(s: State, next: State)
    requires RowsByTurn(s) && next.rows == s.rows
    requires forall t :: t in s.turns && !s.turns[t].Begun? && !s.turns[t].Acquired? ==>
      t in next.turns && !next.turns[t].Begun? && !next.turns[t].Acquired?
    requires forall t :: t in next.turns && next.turns[t].Owes() ==> t in s.turns && s.turns[t].Owes()
    ensures RowsByTurn(next)
  {
  }

  lemma RowsByTurnStep(s: State, a: Action)
    requires RowsByTurn(s)
    ensures RowsByTurn(Exec(s, a))
  {
    match a
    case StoreUser(t) => if t in s.turns && s.turns[t].Acquired? { StoredByTurn(s, t, User, UserStored); }
    case StoreReply(t) => if t in s.turns && s.turns[t].Working? { StoredByTurn(s, t, Assistant, ReplyStored); }
    case _ => NoRowByTurn(s, Exec(s, a));
  }

  lemma {:induction false} RowsByTurnAlways(s: State, actions: seq<Action>)
    requires RowsByTurn(s)
    ensures RowsByTurn(Run(s, actions))
    decreases |actions|
  {
    if actions != [] {
      RowsByTurnStep(s, actions[0]);
      RowsByTurnAlways(Exec(s, actions[0]), actions[1..]);
    }
  }

  /**
   In every run, however careless: a turn stores at most one user row and behind it at most one
   reply, and no reply without its user row; one that is not accepted stores nothing.
   */
  lemma RowsPerTurn(actions: seq<Action>)
    ensures
      var s := Run(INIT, actions);
      && (forall j, k :: 0 <= j < k < |s.rows| && s.rows[j].turn == s.rows[k].turn ==>
            s.rows[j].role == User && s.rows[k].role == Assistant)
      && (forall k :: 0 <= k < |s.rows| && s.rows[k].role == Assistant ==>
            exists j :: 0 <= j < k && s.rows[j].turn == s.rows[k].turn && s.rows[j].role == User)
      && (forall k :: 0 <= k < |s.rows| ==> s.rows[k].turn in s.turns && !s.turns[s.rows[k].turn].Begun?)
  {
    RowsByTurnAlways(INIT, actions);
    var s := Run(INIT, actions);
    forall k | 0 <= k < |s.rows| && s.rows[k].role == Assistant
      ensures exists j :: 0 <= j < k && s.rows[j].turn == s.rows[k].turn && s.rows[j].role == User
    {
      assert HasUserRow(s.rows, k, s.rows[k].turn);
    }
  }

  // ---- the prompt of the next turn ----------------------------------------------------

  /**
   After a steady run in which each user row's transaction began behind the reply before it,
   whatever a reader gets that ends in a user row needs no repair: the trimmed window is the prompt.
   */
  lemma HistoryNeedsNoRepair(actions: seq<Action>, history: seq<Row>, messages: seq<Message>)
    requires SteadyFrom(INIT, actions) && UsersBehind(Run(INIT, actions).rows)
    requires IsReading(history, Run(INIT, actions).rows) && HaveRoles(messages, history)
    requires messages != [] && messages[|messages| - 1].role == User
    ensures Repaired(Trimmed(Window(messages))) == Trimmed(Window(messages))
    ensures Alternates(Trimmed(Window(messages)))
  {
    TurnsAreSerialized(actions);
    NoRepairNeeded(messages, history);
  }
}
