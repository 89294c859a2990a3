/**
 The fixed-window rate limit of the docs search: one counter per caller and minute, one
 global counter per minute, each an atomic INCR that arms a 60-second expiry when it
 creates the key. Requests read the clock, then run their two scripts; all steps of all
 requests interleave. Redis is up and shares one monotone clock with the handlers.
 */
module RateLimit {
  const RATE_LIMIT_PER_MIN: nat := 120
  const RATE_LIMIT_GLOBAL_PER_MIN: nat := 600

  datatype Counter = Counter(count: nat, expires: real)

  type Store = map<string, Counter>

  // ---- keys ---------------------------------------------------------------------------

  function Digit(n: nat): char
    requires n < 10
  {
    "0123456789"[n]
  }

  function Decimal(n: nat): string {
    if n < 10 then [Digit(n)] else Decimal(n / 10) + [Digit(n % 10)]
  }

  const PREFIX := "docs_search_rl:"
  const GLOBAL_NAME := "_global"

  function Key(caller: string, minute: nat): string {
    PREFIX + caller + ":" + Decimal(minute)
  }

  lemma DigitsDiffer(m: nat, n: nat)
    requires m < 10 && n < 10 && Digit(m) == Digit(n)
    ensures m == n && Digit(m) != ':'
  {
  }

  lemma {:induction false} DecimalChars(n: nat)
    ensures Decimal(n) != "" && ':' !in Decimal(n)
  {
    DigitsDiffer(n % 10, n % 10);
    if n >= 10 { DecimalChars(n / 10); }
  }

  lemma {:induction false} DecimalInjective(m: nat, n: nat)
    requires Decimal(m) == Decimal(n)
    ensures m == n
  {
    DecimalChars(m / 10);
    DecimalChars(n / 10);
    var d, e := Decimal(m), Decimal(n);
    assert d[|d| - 1] == Digit(m % 10) && e[|e| - 1] == Digit(n % 10);
    DigitsDiffer(m % 10, n % 10);
    if m >= 10 {
      assert n >= 10;
      assert d[..|d| - 1] == Decimal(m / 10) && e[..|e| - 1] == Decimal(n / 10);
      DecimalInjective(m / 10, n / 10);
    }
  }

  /** A key names one caller and one minute, whatever characters the caller's name has. */
  lemma KeyInjective(c: string, m: nat, d: string, n: nat)
    requires Key(c, m) == Key(d, n)
    ensures c == d && m == n
  {
    DecimalChars(m);
    DecimalChars(n);
    var k := Key(c, m);
    var x, y := |PREFIX| + |c|, |PREFIX| + |d|;
    assert k[x] == ':' && k[y] == ':';
    assert forall i :: x < i < |k| ==> k[i] == Decimal(m)[i - x - 1];
    assert forall i :: y < i < |k| ==> k[i] == Decimal(n)[i - y - 1];
    assert x == y;
    assert c == k[|PREFIX|..x] && d == k[|PREFIX|..y];
    assert Decimal(m) == k[x + 1..] && Decimal(n) == k[y + 1..];
    DecimalInjective(m, n);
  }

  // ---- the script ---------------------------------------------------------------------

  predicate Alive(store: Store, key: string, now: real) {
    key in store && now < store[key].expires
  }

  /** INCR, and EXPIRE when the count is 1. */
  function Incremented(store: Store, key: string, now: real): Store {
    store[key := if Alive(store, key, now) then Counter(store[key].count + 1, store[key].expires)
                 else Counter(1, now + 60.0)]
  }

  function EpochMinute(now: real): int {
    (now / 60.0).Floor
  }

  function CallerOf(header: string): string {
    if header == "" then "_unknown" else header
  }

  /** Two headers name one caller only if they are the same, but for a missing one, which counts as "_unknown". */
  lemma CallersDiffer(header: string, other: string)
    ensures header != "" ==> CallerOf(header) == header
    ensures CallerOf(header) == CallerOf(other) <==>
      header == other || (header in {"", "_unknown"} && other in {"", "_unknown"})
  {
  }

  /** How often a key was counted and not forgotten. */
  function CountOf(store: Store, key: string, now: real): nat {
    if Alive(store, key, now) then store[key].count else 0
  }

  /** `_rate_limited` of one request that nobody interleaves with. */
  class Limiter {
    var store: Store

    /**
     The request is refused exactly if 120 requests of its caller or 600 in all were counted
     before it in this minute, and it is counted in both tiers whether it is refused or not; a
     caller named like the global bucket counts twice there. A live counter keeps its expiry.
     */
    method RateLimited(header: string, now: real) returns (limited: bool)
      requires now >= 0.0
      modifies this
      ensures
        var own, all := Key(CallerOf(header), EpochMinute(now)), Key(GLOBAL_NAME, EpochMinute(now));
        && (limited <==>
              || old(CountOf(store, own, now)) >= 120
              || old(CountOf(store, all, now)) + (if own == all then 1 else 0) >= 600)
        && CountOf(store, own, now) == old(CountOf(store, own, now)) + (if own == all then 2 else 1)
        && CountOf(store, all, now) == old(CountOf(store, all, now)) + (if own == all then 2 else 1)
        && (forall key :: key != own && key != all ==>
              (key in store <==> key in old(store)) && (key in store ==> store[key] == old(store)[key]))
        && (forall key | key == own || key == all ::
              && key in store
              && store[key].expires == if old(Alive(store, key, now)) then old(store)[key].expires else now + 60.0)
    {
      var epochMinute: nat := EpochMinute(now);
      var key := Key(CallerOf(header), epochMinute);
      store := Incremented(store, key, now);
      var count := store[key].count;
      var globalKey := Key(GLOBAL_NAME, epochMinute);
      store := Incremented(store, globalKey, now);
      var globalCount := store[globalKey].count;
      limited := count > RATE_LIMIT_PER_MIN || globalCount > RATE_LIMIT_GLOBAL_PER_MIN;
    }
  }

  // ---- concurrent requests ------------------------------------------------------------

  datatype Request = Request(caller: string, minute: nat, begun: real)

  /** One run of the script: for whom, for which minute, when, and what it returned. */
  datatype Eval = Eval(name: string, minute: nat, at: real, count: nat)

  /** `evals` by request and tier; the second component is true for the global tier. */
  datatype State = State(now: real, store: Store, requests: map<nat, Request>, evals: map<(nat, bool), Eval>)

  datatype Action =
    | Tick(seconds: real)
    | Begin(r: nat, header: string)
    | EvalTier(r: nat, global: bool)

  const INIT := State(0.0, map[], map[], map[])

  function NameFor(request: Request, global: bool): string {
    if global then GLOBAL_NAME else request.caller
  }

  function Evaluate(s: State, r: nat, global: bool): State
    requires r in s.requests
  {
    var name, minute := NameFor(s.requests[r], global), s.requests[r].minute;
    var store := Incremented(s.store, Key(name, minute), s.now);
    s.(store := store, evals := s.evals[(r, global) := Eval(name, minute, s.now, store[Key(name, minute)].count)])
  }

  function Exec(s: State, a: Action): State {
    match a
    case Tick(seconds) => if seconds >= 0.0 then s.(now := s.now + seconds) else s
    case Begin(r, header) =>
      if r in s.requests || EpochMinute(s.now) < 0 then s
      else s.(requests := s.requests[r := Request(CallerOf(header), EpochMinute(s.now), s.now)])
    case EvalTier(r, global) =>
      if r in s.requests && (r, global) !in s.evals && (global ==> (r, false) in s.evals)
      then Evaluate(s, r, global) else s
  }

  function Run(actions: seq<Action>): State {
    if actions == [] then INIT else Exec(Run(actions[..|actions| - 1]), actions[|actions| - 1])
  }

  /** Both scripts ran and neither tier refused. */
  predicate Passed(s: State, r: nat) {
    && r in s.requests && (r, false) in s.evals && (r, true) in s.evals
    && s.evals[(r, false)].count <= RATE_LIMIT_PER_MIN
    && s.evals[(r, true)].count <= RATE_LIMIT_GLOBAL_PER_MIN
  }

  predicate CountsFor(e: Eval, name: string, minute: nat) {
    e.name == name && e.minute == minute
  }

  /** The scripts for one name and minute that ran before `until` and returned at most `limit`. */
  function Low(s: State, name: string, minute: nat, limit: nat, until: real): set<(nat, bool)> {
    set x | x in s.evals && CountsFor(s.evals[x], name, minute) && s.evals[x].count <= limit && s.evals[x].at < until
  }

  /** Those that found no live counter and started one. */
  function Starts(s: State, name: string, minute: nat, until: real): set<(nat, bool)> {
    set x | x in s.evals && CountsFor(s.evals[x], name, minute) && s.evals[x].count == 1 && s.evals[x].at < until
  }

  ghost predicate WellTimed(s: State) {
    && s.now >= 0.0
    && (forall r :: r in s.requests ==>
          s.requests[r].begun <= s.now && s.requests[r].minute == EpochMinute(s.requests[r].begun))
    && (forall x :: x in s.evals ==>
          && x.0 in s.requests && s.evals[x].minute == s.requests[x.0].minute
          && s.evals[x].name == NameFor(s.requests[x.0], x.1)
          && 60.0 * s.evals[x].minute as real <= s.evals[x].at <= s.now)
    && (forall key :: key in s.store ==> s.store[key].count >= 1)
  }

  lemma MinuteStarts(t: real)
    ensures 60.0 * EpochMinute(t) as real <= t < 60.0 * (EpochMinute(t) + 1) as real
  {
    var q := t / 60.0;
    assert q.Floor as real <= q < (q.Floor + 1) as real;
    assert t == 60.0 * q;
  }

  lemma WellTimedStep(s: State, a: Action)
    requires WellTimed(s)
    ensures WellTimed(Exec(s, a))
  {
    if a.EvalTier? && a.r in s.requests { MinuteStarts(s.requests[a.r].begun); }
  }

  /** What one more script changes for its own name and minute. */
  lemma OneMoreScript(s: State, r: nat, global: bool, limit: nat, until: real)
    requires r in s.requests && (r, global) !in s.evals
    ensures
      var name, minute := NameFor(s.requests[r], global), s.requests[r].minute;
      var next := Evaluate(s, r, global);
      var e := next.evals[(r, global)];
      && Low(next, name, minute, limit, until) ==
           Low(s, name, minute, limit, until) + (if e.count <= limit && s.now < until then {(r, global)} else {})
      && Starts(next, name, minute, until) ==
           Starts(s, name, minute, until) + (if e.count == 1 && s.now < until then {(r, global)} else {})
  {
  }

  /** It changes nothing for another name or minute: that has another key. */
  lemma OtherScript(s: State, r: nat, global: bool, name: string, minute: nat, limit: nat, until: real)
    requires r in s.requests && (r, global) !in s.evals
    requires NameFor(s.requests[r], global) != name || s.requests[r].minute != minute
    ensures
      var next := Evaluate(s, r, global);
      && Low(next, name, minute, limit, until) == Low(s, name, minute, limit, until)
      && Starts(next, name, minute, until) == Starts(s, name, minute, until)
      && (Key(name, minute) in next.store <==> Key(name, minute) in s.store)
      && (Key(name, minute) in s.store ==> next.store[Key(name, minute)] == s.store[Key(name, minute)])
  {
    var used := Key(NameFor(s.requests[r], global), s.requests[r].minute);
    if used == Key(name, minute) {
      KeyInjective(NameFor(s.requests[r], global), s.requests[r].minute, name, minute);
    }
    assert Evaluate(s, r, global).store == Incremented(s.store, used, s.now);
  }

  // ---- how many scripts return a low count --------------------------------------------

  function Min(a: nat, b: nat): nat {
    if a <= b then a else b
  }

  /** Every start gives room for `limit` low counts; the last one only for as many as its counter has given out. */
  ghost predicate Counted(s: State, name: string, minute: nat, limit: nat, until: real) {
    var low, starts := |Low(s, name, minute, limit, until)|, |Starts(s, name, minute, until)|;
    && low <= limit * starts
    && (s.now < until ==>
          if Key(name, minute) in s.store
          then starts >= 1 && low <= limit * (starts - 1) + Min(s.store[Key(name, minute)].count, limit)
          else low == 0)
  }

  lemma Distribute(limit: nat, n: nat)
    ensures limit * (n + 1) == limit * n + limit
  {
  }

  lemma CountedLate(s: State, r: nat, global: bool, limit: nat, until: real)
    requires r in s.requests && (r, global) !in s.evals && s.now >= until
    requires Counted(s, NameFor(s.requests[r], global), s.requests[r].minute, limit, until)
    ensures Counted(Evaluate(s, r, global), NameFor(s.requests[r], global), s.requests[r].minute, limit, until)
  {
    OneMoreScript(s, r, global, limit, until);
  }

  lemma CountedAlive(s: State, r: nat, global: bool, limit: nat, until: real)
    requires WellTimed(s) && r in s.requests && (r, global) !in s.evals && limit >= 1 && s.now < until
    requires Alive(s.store, Key(NameFor(s.requests[r], global), s.requests[r].minute), s.now)
    requires Counted(s, NameFor(s.requests[r], global), s.requests[r].minute, limit, until)
    ensures Counted(Evaluate(s, r, global), NameFor(s.requests[r], global), s.requests[r].minute, limit, until)
  {
    var starts := |Starts(s, NameFor(s.requests[r], global), s.requests[r].minute, until)|;
    OneMoreScript(s, r, global, limit, until);
    Distribute(limit, starts - 1);
  }

  lemma CountedRestart(s: State, r: nat, global: bool, limit: nat, until: real)
    requires r in s.requests && (r, global) !in s.evals && limit >= 1 && s.now < until
    requires !Alive(s.store, Key(NameFor(s.requests[r], global), s.requests[r].minute), s.now)
    requires Counted(s, NameFor(s.requests[r], global), s.requests[r].minute, limit, until)
    ensures Counted(Evaluate(s, r, global), NameFor(s.requests[r], global), s.requests[r].minute, limit, until)
  {
    var starts := |Starts(s, NameFor(s.requests[r], global), s.requests[r].minute, until)|;
    OneMoreScript(s, r, global, limit, until);
    Distribute(limit, starts);
  }

  lemma CountedOwn(s: State, r: nat, global: bool, limit: nat, until: real)
    requires WellTimed(s) && r in s.requests && (r, global) !in s.evals && limit >= 1
    requires Counted(s, NameFor(s.requests[r], global), s.requests[r].minute, limit, until)
    ensures Counted(Evaluate(s, r, global), NameFor(s.requests[r], global), s.requests[r].minute, limit, until)
  {
    if s.now >= until {
      CountedLate(s, r, global, limit, until);
    } else if Alive(s.store, Key(NameFor(s.requests[r], global), s.requests[r].minute), s.now) {
      CountedAlive(s, r, global, limit, until);
    } else {
      CountedRestart(s, r, global, limit, until);
    }
  }

  lemma CountedStep(s: State, a: Action, name: string, minute: nat, limit: nat, until: real)
    requires WellTimed(s) && Counted(s, name, minute, limit, until) && limit >= 1
    ensures Counted(Exec(s, a), name, minute, limit, until)
  {
    var next := Exec(s, a);
    if a.EvalTier? && next != s {
      if NameFor(s.requests[a.r], a.global) == name && s.requests[a.r].minute == minute {
        CountedOwn(s, a.r, a.global, limit, until);
      } else {
        OtherScript(s, a.r, a.global, name, minute, limit, until);
      }
    } else {
      assert Low(next, name, minute, limit, until) == Low(s, name, minute, limit, until);
      assert Starts(next, name, minute, until) == Starts(s, name, minute, until);
    }
  }

  lemma {:induction false} AlwaysCounted(actions: seq<Action>, name: string, minute: nat, limit: nat, until: real)
    requires limit >= 1
    ensures WellTimed(Run(actions)) && Counted(Run(actions), name, minute, limit, until)
  {
    if actions == [] {
      assert Low(INIT, name, minute, limit, until) == {};
    } else {
      var before := Run(actions[..|actions| - 1]);
      AlwaysCounted(actions[..|actions| - 1], name, minute, limit, until);
      WellTimedStep(before, actions[|actions| - 1]);
      CountedStep(before, actions[|actions| - 1], name, minute, limit, until);
    }
  }

  // ---- when a counter starts over -----------------------------------------------------

  ghost predicate StartedIn(s: State, name: string, minute: nat, x: (nat, bool)) {
    x in s.evals && CountsFor(s.evals[x], name, minute) && s.evals[x].count == 1
  }

  /** Starts lie a minute apart, and the counter lives a minute from the last of them. */
  ghost predicate Spaced(s: State, name: string, minute: nat) {
    var key := Key(name, minute);
    && (forall x, y :: StartedIn(s, name, minute, x) && StartedIn(s, name, minute, y) && x != y ==>
          s.evals[x].at + 60.0 <= s.evals[y].at || s.evals[y].at + 60.0 <= s.evals[x].at)
    && (forall x :: x in s.evals && CountsFor(s.evals[x], name, minute) ==> key in s.store)
    && (key in s.store ==>
          && (forall x :: StartedIn(s, name, minute, x) ==> s.evals[x].at + 60.0 <= s.store[key].expires)
          && (exists x :: StartedIn(s, name, minute, x) && s.evals[x].at + 60.0 == s.store[key].expires))
  }

  lemma SpacedOwn(s: State, r: nat, global: bool)
    requires WellTimed(s) && r in s.requests && (r, global) !in s.evals
    requires Spaced(s, NameFor(s.requests[r], global), s.requests[r].minute)
    ensures Spaced(Evaluate(s, r, global), NameFor(s.requests[r], global), s.requests[r].minute)
  {
    var name, minute := NameFor(s.requests[r], global), s.requests[r].minute;
    var key := Key(name, minute);
    var next := Evaluate(s, r, global);
    forall x | x != (r, global) ensures StartedIn(next, name, minute, x) <==> StartedIn(s, name, minute, x) {
      assert x in s.evals ==> next.evals[x] == s.evals[x];
    }
    if Alive(s.store, key, s.now) {
      assert !StartedIn(next, name, minute, (r, global));
      var x :| StartedIn(s, name, minute, x) && s.evals[x].at + 60.0 == s.store[key].expires;
      assert StartedIn(next, name, minute, x);
    } else {
      assert StartedIn(next, name, minute, (r, global));
    }
  }

  lemma SpacedOther(s: State, r: nat, global: bool, name: string, minute: nat)
    requires r in s.requests && (r, global) !in s.evals && Spaced(s, name, minute)
    requires NameFor(s.requests[r], global) != name || s.requests[r].minute != minute
    ensures Spaced(Evaluate(s, r, global), name, minute)
  {
    OtherScript(s, r, global, name, minute, 1, 0.0);
    var next := Evaluate(s, r, global);
    forall x ensures StartedIn(next, name, minute, x) <==> StartedIn(s, name, minute, x) {
      assert x in s.evals ==> next.evals[x] == s.evals[x];
    }
  }

  lemma SpacedStill(s: State, next: State, name: string, minute: nat)
    requires Spaced(s, name, minute) && next.evals == s.evals && next.store == s.store
    ensures Spaced(next, name, minute)
  {
    assert forall x :: StartedIn(next, name, minute, x) <==> StartedIn(s, name, minute, x);
  }

  lemma SpacedStep(s: State, a: Action, name: string, minute: nat)
    requires WellTimed(s) && Spaced(s, name, minute)
    ensures Spaced(Exec(s, a), name, minute)
  {
    var next := Exec(s, a);
    if !a.EvalTier? || next == s {
      SpacedStill(s, next, name, minute);
    } else if NameFor(s.requests[a.r], a.global) == name && s.requests[a.r].minute == minute {
      SpacedOwn(s, a.r, a.global);
    } else {
      SpacedOther(s, a.r, a.global, name, minute);
    }
  }

  lemma {:induction false} AlwaysSpaced(actions: seq<Action>, name: string, minute: nat)
    ensures WellTimed(Run(actions)) && Spaced(Run(actions), name, minute)
  {
    if actions != [] {
      var before := Run(actions[..|actions| - 1]);
      AlwaysSpaced(actions[..|actions| - 1], name, minute);
      WellTimedStep(before, actions[|actions| - 1]);
      SpacedStep(before, actions[|actions| - 1], name, minute);
    }
  }

  /** In every interleaving, a script starts its counter over exactly if the last start was a minute or more ago. */
  lemma RestartsExactly(actions: seq<Action>, r: nat, global: bool)
    requires r in Run(actions).requests && (r, global) !in Run(actions).evals
    ensures
      var s := Run(actions);
      var name, minute := NameFor(s.requests[r], global), s.requests[r].minute;
      Evaluate(s, r, global).evals[(r, global)].count == 1 <==>
        forall x :: StartedIn(s, name, minute, x) ==> s.evals[x].at + 60.0 <= s.now
  {
    var s := Run(actions);
    AlwaysSpaced(actions, NameFor(s.requests[r], global), s.requests[r].minute);
  }

  /** The expiry never resets a counter inside its own minute. */
  lemma NoResetInsideMinute(actions: seq<Action>, x: (nat, bool))
    requires x in Run(actions).evals
    ensures
      var s := Run(actions);
      var e := s.evals[x];
      s.now < 60.0 * (e.minute + 1) as real ==> Alive(s.store, Key(e.name, e.minute), s.now)
  {
    var s := Run(actions);
    var e := s.evals[x];
    AlwaysSpaced(actions, e.name, e.minute);
    var key := Key(e.name, e.minute);
    var start :| StartedIn(s, e.name, e.minute, start) && s.evals[start].at + 60.0 == s.store[key].expires;
    assert s.evals[start].at >= 60.0 * e.minute as real;
  }

  function MinuteEnd(minute: nat, k: nat): real {
    60.0 * (minute + k) as real
  }

  lemma AtMostOne<T>(items: set<T>)
    requires forall x, y :: x in items && y in items ==> x == y
    ensures |items| <= 1
  {
    if x :| x in items { assert items == {x}; }
  }

  /** Two starts do not fit into one minute. */
  lemma OneStartPerMinute(s: State, name: string, minute: nat, k: nat)
    requires Spaced(s, name, minute)
    ensures |Starts(s, name, minute, MinuteEnd(minute, k + 1)) - Starts(s, name, minute, MinuteEnd(minute, k))| <= 1
  {
    var added := Starts(s, name, minute, MinuteEnd(minute, k + 1)) - Starts(s, name, minute, MinuteEnd(minute, k));
    forall x, y | x in added && y in added ensures x == y {
      assert StartedIn(s, name, minute, x) && StartedIn(s, name, minute, y);
    }
    AtMostOne(added);
  }

  lemma NoStartBefore(s: State, name: string, minute: nat)
    requires WellTimed(s)
    ensures Starts(s, name, minute, MinuteEnd(minute, 0)) == {}
  {
  }

  lemma OneMore<T>(part: set<T>, all: set<T>, n: nat)
    requires |part| <= n && |all - part| <= 1
    ensures |all| <= n + 1
  {
    Subset(all, part + (all - part));
  }

  lemma {:induction false} StartsInMinutes(s: State, name: string, minute: nat, k: nat)
    requires WellTimed(s) && Spaced(s, name, minute)
    ensures |Starts(s, name, minute, MinuteEnd(minute, k))| <= k
  {
    if k == 0 {
      NoStartBefore(s, name, minute);
    } else {
      var j := k - 1;
      StartsInMinutes(s, name, minute, j);
      OneStartPerMinute(s, name, minute, j);
      OneMore(Starts(s, name, minute, MinuteEnd(minute, j)), Starts(s, name, minute, MinuteEnd(minute, j + 1)), j);
    }
  }

  /** A counter is started at most once in each of the minutes from its own on. */
  lemma StartsPerMinute(actions: seq<Action>, name: string, minute: nat, k: nat)
    ensures |Starts(Run(actions), name, minute, MinuteEnd(minute, k))| <= k
  {
    AlwaysSpaced(actions, name, minute);
    StartsInMinutes(Run(actions), name, minute, k);
  }

  lemma Subset<T>(a: set<T>, b: set<T>)
    requires a <= b
    ensures |a| <= |b|
  {
    assert b == a + (b - a);
  }

  // ---- how many requests pass ---------------------------------------------------------

  lemma {:induction false} PairedCount(rs: set<nat>, tier: bool, pairs: set<(nat, bool)>)
    requires forall r :: r in rs ==> (r, tier) in pairs
    ensures |rs| <= |pairs|
  {
    if rs != {} {
      var r :| r in rs;
      PairedCount(rs - {r}, tier, pairs - {(r, tier)});
    }
  }

  /** The requests of a minute that passed, with both scripts run before `until`. */
  function PassedIn(s: State, minute: nat, until: real): set<nat> {
    set r | r in s.requests && s.requests[r].minute == minute && Passed(s, r) &&
            s.evals[(r, false)].at < until && s.evals[(r, true)].at < until
  }

  function PassedOf(s: State, caller: string, minute: nat, until: real): set<nat> {
    set r | r in PassedIn(s, minute, until) && s.requests[r].caller == caller
  }

  /**
   In every interleaving, the requests of a minute that pass are at most 120 of any one caller,
   and 600 in all, for every time the counter was started.
   */
  lemma PassedPerStart(actions: seq<Action>, caller: string, minute: nat, until: real)
    ensures
      var s := Run(actions);
      && |PassedOf(s, caller, minute, until)| <= RATE_LIMIT_PER_MIN * |Starts(s, caller, minute, until)|
      && |PassedIn(s, minute, until)| <= RATE_LIMIT_GLOBAL_PER_MIN * |Starts(s, GLOBAL_NAME, minute, until)|
  {
    var s := Run(actions);
    AlwaysCounted(actions, caller, minute, RATE_LIMIT_PER_MIN, until);
    PairedCount(PassedOf(s, caller, minute, until), false, Low(s, caller, minute, RATE_LIMIT_PER_MIN, until));
    AlwaysCounted(actions, GLOBAL_NAME, minute, RATE_LIMIT_GLOBAL_PER_MIN, until);
    PairedCount(PassedIn(s, minute, until), true, Low(s, GLOBAL_NAME, minute, RATE_LIMIT_GLOBAL_PER_MIN, until));
  }

  lemma TwoOf<T>(items: set<T>) returns (x: T, y: T)
    requires |items| > 1
    ensures x in items && y in items && x != y
  {
    x :| x in items;
    assert |items - {x}| == |items| - 1;
    y :| y in items - {x};
  }

  lemma TwoStarts(s: State, name: string, minute: nat, until: real)
    requires Spaced(s, name, minute) && |Starts(s, name, minute, until)| > 1
    ensures exists x, y ::
      StartedIn(s, name, minute, x) && StartedIn(s, name, minute, y) && s.evals[x].at + 60.0 <= s.evals[y].at
  {
    var x, y := TwoOf(Starts(s, name, minute, until));
    assert StartedIn(s, name, minute, x) && StartedIn(s, name, minute, y);
  }

  /** No more than one allowance passes, ever, unless some script ran a minute or more behind another start. */
  lemma BeyondLimitMeansRestart(actions: seq<Action>, caller: string, minute: nat)
    requires |PassedOf(Run(actions), caller, minute, Run(actions).now + 1.0)| > RATE_LIMIT_PER_MIN
    ensures
      var s := Run(actions);
      exists x, y ::
        StartedIn(s, caller, minute, x) && StartedIn(s, caller, minute, y) && s.evals[x].at + 60.0 <= s.evals[y].at
  {
    PassedPerStart(actions, caller, minute, Run(actions).now + 1.0);
    AlwaysSpaced(actions, caller, minute);
    TwoStarts(Run(actions), caller, minute, Run(actions).now + 1.0);
  }

  /**
   Of the requests of a minute whose scripts run within `k` minutes from its beginning, at
   most k times 120 of any one caller and k times 600 in all pass; also of a caller whose name
   is the global bucket's. With k = 1 this is the documented bound.
   */
  lemma MinuteBound(actions: seq<Action>, caller: string, minute: nat, k: nat)
    ensures |PassedOf(Run(actions), caller, minute, 60.0 * (minute + k) as real)| <= 120 * k
    ensures |PassedIn(Run(actions), minute, 60.0 * (minute + k) as real)| <= 600 * k
  {
    PassedInMinutes(actions, caller, minute, k);
  }

  lemma PassedInMinutes(actions: seq<Action>, caller: string, minute: nat, k: nat)
    ensures |PassedOf(Run(actions), caller, minute, MinuteEnd(minute, k))| <= RATE_LIMIT_PER_MIN * k
    ensures |PassedIn(Run(actions), minute, MinuteEnd(minute, k))| <= RATE_LIMIT_GLOBAL_PER_MIN * k
  {
    PassedPerStart(actions, caller, minute, MinuteEnd(minute, k));
    StartsPerMinute(actions, caller, minute, k);
    StartsPerMinute(actions, GLOBAL_NAME, minute, k);
  }

  /** The requests begun in a window that passed, their scripts run within `k` minutes from their minute's beginning. */
  function PassedWithin(s: State, start: real, k: nat): set<nat> {
    set r | r in s.requests && start <= s.requests[r].begun < start + 60.0 && Passed(s, r) &&
            s.evals[(r, false)].at < MinuteEnd(s.requests[r].minute, k) &&
            s.evals[(r, true)].at < MinuteEnd(s.requests[r].minute, k)
  }

  function PassedOfWithin(s: State, caller: string, start: real, k: nat): set<nat> {
    set r | r in PassedWithin(s, start, k) && s.requests[r].caller == caller
  }

  lemma WindowMinutes(start: real, t: real)
    requires start <= t < start + 60.0
    ensures EpochMinute(t) == EpochMinute(start) || EpochMinute(t) == EpochMinute(start) + 1
  {
    MinuteStarts(start);
    MinuteStarts(t);
  }

  lemma UnionBound(part: set<nat>, a: set<nat>, b: set<nat>, bound: nat)
    requires part <= a + b && |a| <= bound && |b| <= bound
    ensures |part| <= 2 * bound
  {
    Subset(part, a + b);
  }

  /** The window lies in two minutes. */
  lemma WindowSplit(s: State, start: real, k: nat, m: nat)
    requires WellTimed(s) && m == EpochMinute(start)
    ensures PassedWithin(s, start, k) <= PassedIn(s, m, MinuteEnd(m, k)) + PassedIn(s, m + 1, MinuteEnd(m + 1, k))
  {
    forall r | r in PassedWithin(s, start, k)
      ensures r in PassedIn(s, m, MinuteEnd(m, k)) + PassedIn(s, m + 1, MinuteEnd(m + 1, k))
    {
      WindowMinutes(start, s.requests[r].begun);
    }
  }

  lemma WindowSplitOf(s: State, caller: string, start: real, k: nat, m: nat)
    requires WellTimed(s) && m == EpochMinute(start)
    ensures PassedOfWithin(s, caller, start, k) <=
            PassedOf(s, caller, m, MinuteEnd(m, k)) + PassedOf(s, caller, m + 1, MinuteEnd(m + 1, k))
  {
    WindowSplit(s, start, k, m);
  }

  /** Every half-open minute-long window admits at most twice as many. */
  lemma WindowBound(actions: seq<Action>, caller: string, start: real, k: nat)
    requires start >= 0.0
    ensures |PassedOfWithin(Run(actions), caller, start, k)| <= 2 * (120 * k)
    ensures |PassedWithin(Run(actions), start, k)| <= 2 * (600 * k)
  {
    var s := Run(actions);
    MinuteStarts(start);
    var m: nat := EpochMinute(start);
    PassedInMinutes(actions, caller, m, k);
    PassedInMinutes(actions, caller, m + 1, k);
    AlwaysSpaced(actions, caller, m);
    WindowSplit(s, start, k, m);
    var u, v := MinuteEnd(m, k), MinuteEnd(m + 1, k);
    UnionBound(PassedWithin(s, start, k), PassedIn(s, m, u), PassedIn(s, m + 1, v), RATE_LIMIT_GLOBAL_PER_MIN * k);
    WindowSplitOf(s, caller, start, k, m);
    UnionBound(PassedOfWithin(s, caller, start, k), PassedOf(s, caller, m, u), PassedOf(s, caller, m + 1, v),
               RATE_LIMIT_PER_MIN * k);
  }

  // ---- a burst ------------------------------------------------------------------------

  /** `n` requests one after the other at the same moment, request r with header `headers(r)`. */
  function Burst(headers: nat -> string, n: nat): seq<Action> {
    if n == 0 then []
    else
      Burst(headers, n - 1) + [Begin(n - 1, headers(n - 1))] + [EvalTier(n - 1, false)] + [EvalTier(n - 1, true)]
  }

  /** How many of the first `n` requests come from the caller. */
  function FromCaller(headers: nat -> string, n: nat, caller: string): nat {
    if n == 0 then 0 else FromCaller(headers, n - 1, caller) + if headers(n - 1) == caller then 1 else 0
  }

  ghost predicate Counts(store: Store, headers: nat -> string, n: nat) {
    && (forall caller :: caller != GLOBAL_NAME ==>
          CountOf(store, Key(caller, 0), 0.0) == FromCaller(headers, n, caller))
    && CountOf(store, Key(GLOBAL_NAME, 0), 0.0) == n
  }

  /** What the caller of each of the first `n` requests had sent before it. */
  function Before(headers: nat -> string, n: nat): (before: seq<nat>)
    ensures |before| == n
  {
    if n == 0 then [] else Before(headers, n - 1) + [FromCaller(headers, n - 1, headers(n - 1))]
  }

  lemma {:induction false} BeforeAt(headers: nat -> string, n: nat, r: nat)
    requires r < n
    ensures Before(headers, n)[r] == FromCaller(headers, r, headers(r))
  {
    if r < n - 1 { BeforeAt(headers, n - 1, r); }
  }

  ghost predicate InBurst(s: State, before: seq<nat>) {
    && s.now == 0.0
    && (forall r: nat :: r in s.requests <==> r < |before|)
    && (forall r: nat, global :: (r, global) in s.evals <==> r < |before|)
    && (forall r: nat :: r < |before| ==>
          s.evals[(r, false)].count == before[r] + 1 && s.evals[(r, true)].count == r + 1)
  }

  lemma IncrementedCount(store: Store, name: string, other: string)
    requires forall key :: key in store ==> store[key].count >= 1
    ensures
      var next := Incremented(store, Key(name, 0), 0.0);
      && CountOf(next, Key(other, 0), 0.0) == CountOf(store, Key(other, 0), 0.0) + (if other == name then 1 else 0)
      && next[Key(name, 0)].count == CountOf(store, Key(name, 0), 0.0) + 1
  {
    if Key(name, 0) == Key(other, 0) { KeyInjective(name, 0, other, 0); }
  }

  lemma CountsOneMore(store: Store, headers: nat -> string, n: nat)
    requires Counts(store, headers, n) && headers(n) != GLOBAL_NAME
    requires forall key :: key in store ==> store[key].count >= 1
    ensures
      var own := Incremented(store, Key(headers(n), 0), 0.0);
      var next := Incremented(own, Key(GLOBAL_NAME, 0), 0.0);
      && Counts(next, headers, n + 1)
      && own[Key(headers(n), 0)].count == FromCaller(headers, n, headers(n)) + 1
      && next[Key(GLOBAL_NAME, 0)].count == n + 1
  {
    var own := Incremented(store, Key(headers(n), 0), 0.0);
    var next := Incremented(own, Key(GLOBAL_NAME, 0), 0.0);
    forall caller
      ensures CountOf(next, Key(caller, 0), 0.0) == CountOf(store, Key(caller, 0), 0.0) +
                (if caller == headers(n) then 1 else 0) + (if caller == GLOBAL_NAME then 1 else 0)
    {
      IncrementedCount(store, headers(n), caller);
      IncrementedCount(own, GLOBAL_NAME, caller);
    }
    IncrementedCount(store, headers(n), headers(n));
    IncrementedCount(store, headers(n), GLOBAL_NAME);
    IncrementedCount(own, GLOBAL_NAME, GLOBAL_NAME);
  }

  /** The next request of a burst: its two scripts, one after the other. */
  function BurstOne(s: State, n: nat, header: string): State {
    Exec(Exec(Exec(s, Begin(n, header)), EvalTier(n, false)), EvalTier(n, true))
  }

  lemma BurstStep(s: State, header: string, before: seq<nat>, own: nat)
    requires InBurst(s, before) && header != ""
    requires
      var first := Incremented(s.store, Key(header, 0), 0.0);
      && first[Key(header, 0)].count == own + 1
      && Incremented(first, Key(GLOBAL_NAME, 0), 0.0)[Key(GLOBAL_NAME, 0)].count == |before| + 1
    ensures InBurst(BurstOne(s, |before|, header), before + [own])
    ensures BurstOne(s, |before|, header).store ==
            Incremented(Incremented(s.store, Key(header, 0), 0.0), Key(GLOBAL_NAME, 0), 0.0)
  {
    assert EpochMinute(0.0) == 0;
    var n := |before|;
    var begun := Exec(s, Begin(n, header));
    assert begun == s.(requests := s.requests[n := Request(header, 0, 0.0)]);
    var one := Exec(begun, EvalTier(n, false));
    assert one == Evaluate(begun, n, false);
    assert Exec(one, EvalTier(n, true)) == Evaluate(one, n, true);
  }

  lemma BurstUnfolds(headers: nat -> string, n: nat)
    ensures Run(Burst(headers, n + 1)) == BurstOne(Run(Burst(headers, n)), n, headers(n))
  {
    RunSnocs(Burst(headers, n), Begin(n, headers(n)), EvalTier(n, false), EvalTier(n, true));
  }

  lemma {:induction false} BurstRuns(headers: nat -> string, n: nat)
    requires forall r: nat :: r < n ==> headers(r) != "" && headers(r) != GLOBAL_NAME
    ensures InBurst(Run(Burst(headers, n)), Before(headers, n)) && Counts(Run(Burst(headers, n)).store, headers, n)
  {
    if n > 0 {
      var m := n - 1;
      var s := Run(Burst(headers, m));
      BurstRuns(headers, m);
      AlwaysSpaced(Burst(headers, m), GLOBAL_NAME, 0);
      CountsOneMore(s.store, headers, m);
      BurstStep(s, headers(m), Before(headers, m), FromCaller(headers, m, headers(m)));
      BurstUnfolds(headers, m);
    }
  }

  /**
   The limits are met: of requests that come at the same moment, one passes exactly if fewer than
   120 of its caller's and fewer than 600 in all came before it.
   */
  lemma BurstPassesExactly(headers: nat -> string, n: nat, r: nat)
    requires r < n && forall r: nat :: r < n ==> headers(r) != "" && headers(r) != GLOBAL_NAME
    ensures Passed(Run(Burst(headers, n)), r) <==> FromCaller(headers, r, headers(r)) < 120 && r < 600
  {
    BurstRuns(headers, n);
    BeforeAt(headers, n, r);
  }

  // ---- scripts that run late ----------------------------------------------------------

  /** `n` requests of one caller read the clock in minute 0; then `k` of them run their scripts, a minute apart. */
  function Late(n: nat, k: nat): seq<Action>
    requires k <= n
    decreases n, k
  {
    if k > 0 then Late(n, k - 1) + [EvalTier(k - 1, false)] + [EvalTier(k - 1, true)] + [Tick(60.0)]
    else if n > 0 then Late(n - 1, 0) + [Begin(n - 1, "a")]
    else []
  }

  lemma RunSnoc(actions: seq<Action>, a: Action)
    ensures Run(actions + [a]) == Exec(Run(actions), a)
  {
    assert (actions + [a])[..|actions|] == actions;
  }

  lemma RunSnocs(actions: seq<Action>, a: Action, b: Action, c: Action)
    ensures Run(actions + [a] + [b] + [c]) == Exec(Exec(Exec(Run(actions), a), b), c)
  {
    RunSnoc(actions, a);
    RunSnoc(actions + [a], b);
    RunSnoc(actions + [a] + [b], c);
  }

  ghost predicate AllStartOver(s: State, n: nat, k: nat) {
    && s.now == 60.0 * k as real
    && (forall key :: key in s.store ==> s.store[key].expires <= s.now)
    && (forall r: nat :: r in s.requests <==> r < n)
    && (forall r: nat :: r in s.requests ==> s.requests[r] == Request("a", 0, 0.0))
    && (forall r: nat, global :: (r, global) in s.evals <==> r < k)
    && (forall x :: x in s.evals ==> s.evals[x].count == 1)
  }

  lemma StartOverOnce(s: State, n: nat, k: nat)
    requires k < n && AllStartOver(s, n, k)
    ensures AllStartOver(Exec(Exec(Exec(s, EvalTier(k, false)), EvalTier(k, true)), Tick(60.0)), n, k + 1)
  {
    var one := Exec(s, EvalTier(k, false));
    assert one == Evaluate(s, k, false);
    assert one.evals[(k, false)].count == 1;
    assert "a"[0] != GLOBAL_NAME[0];
    if Key("a", 0) == Key(GLOBAL_NAME, 0) { KeyInjective("a", 0, GLOBAL_NAME, 0); }
    var two := Exec(one, EvalTier(k, true));
    assert two == Evaluate(one, k, true);
    assert two.evals[(k, true)].count == 1;
    var three := Exec(two, Tick(60.0));
    assert three.now == s.now + 60.0;
  }

  lemma OneMoreBegins(s: State, n: nat)
    requires AllStartOver(s, n, 0)
    ensures AllStartOver(Exec(s, Begin(n, "a")), n + 1, 0)
  {
    assert EpochMinute(0.0) == 0;
  }

  lemma {:induction false} AllBegin(n: nat)
    ensures AllStartOver(Run(Late(n, 0)), n, 0)
  {
    if n > 0 {
      AllBegin(n - 1);
      OneMoreBegins(Run(Late(n - 1, 0)), n - 1);
      RunSnoc(Late(n - 1, 0), Begin(n - 1, "a"));
    }
  }

  lemma {:induction false} LateStartsOver(n: nat, k: nat)
    requires k <= n
    ensures AllStartOver(Run(Late(n, k)), n, k)
  {
    if k == 0 {
      AllBegin(n);
    } else {
      LateStartsOver(n, k - 1);
      StartOverOnce(Run(Late(n, k - 1)), n, k - 1);
      RunSnocs(Late(n, k - 1), EvalTier(k - 1, false), EvalTier(k - 1, true), Tick(60.0));
    }
  }

  /**
   The bound needs the scripts to run before their minute is over: a request that reads the
   clock and is held up until the counters expired starts them over, so for every `n` some run
   lets `n` requests of one caller and one minute pass.
   */
  lemma LateScriptsPassUnbounded(n: nat)
    ensures forall r: nat :: r < n ==>
      && Passed(Run(Late(n, n)), r)
      && Run(Late(n, n)).requests[r] == Request("a", 0, 0.0)
  {
    LateStartsOver(n, n);
  }
}
