/**
 The drain loop that a streamed agent run and a streamed orchestration run share:
 what it buffers, what it keeps for the database, what it forwards, and which text
 is finally stored.
 */
module AgentEvents {
  import opened Options

  datatype Event =
    | ContentDelta(delta: string)
    | ReasoningDelta(text: string)
    | CitationRegistered(key: nat)
    | HookResult(hookEvent: string, modified: bool, blocked: bool)
    | StepEvent(kind: string, payload: string)

  /** The two routes; only the agent route has a citation registry. */
  datatype Route = Agents | Orchestrations

  /** What one timed `event_queue.get` returns. */
  datatype Get = Timeout | Got(event: Event) | Sentinel

  /** What the generator yields to the client. */
  datatype Frame = Keepalive | Forwarded(event: Event)

  /** How the drain loop is left: sentinel, disconnect at a yield, or not yet. */
  datatype Exit = Finished | Disconnected | Waiting

  predicate Persists(route: Route, e: Event) {
    match e
    case ContentDelta(_) => false
    case ReasoningDelta(_) => false
    case CitationRegistered(_) => route.Orchestrations?
    case HookResult(_, _, _) => true
    case StepEvent(_, _) => true
  }

  function DeltaText(es: seq<Event>): string {
    if es == [] then "" else
      var e := es[|es| - 1];
      DeltaText(es[..|es| - 1]) + (if e.ContentDelta? then e.delta else "")
  }

  function DeltaCount(es: seq<Event>): nat {
    if es == [] then 0 else
      var e := es[|es| - 1];
      DeltaCount(es[..|es| - 1]) + (if e.ContentDelta? || e.ReasoningDelta? then 1 else 0)
  }

  function Persisted(route: Route, es: seq<Event>): seq<Event> {
    if es == [] then [] else
      var e := es[|es| - 1];
      Persisted(route, es[..|es| - 1]) + (if Persists(route, e) then [e] else [])
  }

  /** The events among the results of the gets, in order. */
  function Events(gets: seq<Get>): seq<Event> {
    if gets == [] then [] else
      var g := gets[|gets| - 1];
      Events(gets[..|gets| - 1]) + (if g.Got? then [g.event] else [])
  }

  predicate EditsResponse(e: Event) {
    e.HookResult? && e.hookEvent == "PreResponse" && (e.modified || e.blocked)
  }

  predicate Edited(es: seq<Event>) {
    exists k :: 0 <= k < |es| && EditsResponse(es[k])
  }

  lemma SnocEvents(gets: seq<Get>, k: nat)
    requires k < |gets|
    ensures Events(gets[..k + 1]) == if gets[k].Got? then Events(gets[..k]) + [gets[k].event] else Events(gets[..k])
  {
    assert gets[..k + 1][..k] == gets[..k];
  }

  lemma SnocText(es: seq<Event>, e: Event)
    ensures DeltaText(es + [e]) == if e.ContentDelta? then DeltaText(es) + e.delta else DeltaText(es)
    ensures DeltaCount(es + [e]) == DeltaCount(es) + if e.ContentDelta? || e.ReasoningDelta? then 1 else 0
  {
    assert (es + [e])[..|es|] == es;
  }

  lemma SnocPersisted(route: Route, es: seq<Event>, e: Event)
    ensures Persisted(route, es + [e]) == Persisted(route, es) + if Persists(route, e) then [e] else []
  {
    assert (es + [e])[..|es|] == es;
  }

  /** The three buffers are those of the events among the gets. */
  ghost predicate Reflects(route: Route, gets: seq<Get>,
                           contentBuffer: string, deltaCount: nat, eventsForDb: seq<Event>) {
    && contentBuffer == DeltaText(Events(gets))
    && deltaCount == DeltaCount(Events(gets))
    && eventsForDb == Persisted(route, Events(gets))
  }

  lemma TakeEvent(route: Route, gets: seq<Get>, k: nat, contentBuffer: string, deltaCount: nat, eventsForDb: seq<Event>)
    requires k < |gets| && gets[k].Got? && Reflects(route, gets[..k], contentBuffer, deltaCount, eventsForDb)
    ensures
      var e := gets[k].event;
      Reflects(route, gets[..k + 1],
               contentBuffer + (if e.ContentDelta? then e.delta else ""),
               deltaCount + (if e.ContentDelta? || e.ReasoningDelta? then 1 else 0),
               eventsForDb + (if Persists(route, e) then [e] else []))
  {
    SnocEvents(gets, k);
    SnocText(Events(gets[..k]), gets[k].event);
    SnocPersisted(route, Events(gets[..k]), gets[k].event);
  }

  lemma TakeTimeout(route: Route, gets: seq<Get>, k: nat,
                    contentBuffer: string, deltaCount: nat, eventsForDb: seq<Event>)
    requires k < |gets| && !gets[k].Got? && Reflects(route, gets[..k], contentBuffer, deltaCount, eventsForDb)
    ensures Reflects(route, gets[..k + 1], contentBuffer, deltaCount, eventsForDb)
  {
    SnocEvents(gets, k);
  }

  /** One frame per read, in order: the event itself, or a keep-alive for a read that timed out. */
  ghost predicate Framed(gets: seq<Get>, frames: seq<Frame>) {
    |frames| == |gets| &&
    forall k :: 0 <= k < |gets| ==> frames[k] == if gets[k].Got? then Forwarded(gets[k].event) else Keepalive
  }

  lemma FramedOneMore(gets: seq<Get>, k: nat, frames: seq<Frame>)
    requires k < |gets| && Framed(gets[..k], frames)
    ensures Framed(gets[..k + 1], frames + [if gets[k].Got? then Forwarded(gets[k].event) else Keepalive])
  {
    assert gets[..k + 1] == gets[..k] + [gets[k]];
  }

  /** What the loop does with an event before it forwards it. */
  method Absorb(route: Route, event: Event, buffer: string, count: nat, kept: seq<Event>)
    returns (contentBuffer: string, deltaCount: nat, eventsForDb: seq<Event>)
    ensures contentBuffer == buffer + (if event.ContentDelta? then event.delta else "")
    ensures deltaCount == count + (if event.ContentDelta? || event.ReasoningDelta? then 1 else 0)
    ensures eventsForDb == kept + (if Persists(route, event) then [event] else [])
  {
    contentBuffer, deltaCount, eventsForDb := buffer, count, kept;
    if event.ContentDelta? {
      contentBuffer := contentBuffer + event.delta;
      deltaCount := deltaCount + 1;
    } else if event.ReasoningDelta? {
      deltaCount := deltaCount + 1;
    } else if !(event.CitationRegistered? && route.Agents?) {
      eventsForDb := eventsForDb + [event];
    }
  }

  /**
   The drain loop. `gets` is the schedule of queue reads and `patience` the number of
   frames after which the client is gone: the generator is closed at that yield.
   */
  method Drain(route: Route, gets: seq<Get>, patience: nat)
    returns (contentBuffer: string, deltaCount: nat, eventsForDb: seq<Event>,
             frames: seq<Frame>, taken: nat, exit: Exit)
    ensures taken <= |gets| && Sentinel !in gets[..taken]
    ensures Reflects(route, gets[..taken], contentBuffer, deltaCount, eventsForDb)
    ensures Framed(gets[..taken], frames)
    ensures exit.Finished? ==> taken < |gets| && gets[taken] == Sentinel && taken <= patience
    ensures exit.Disconnected? ==> taken == patience + 1
    ensures exit.Waiting? ==> taken == |gets| && taken <= patience
  {
    contentBuffer, deltaCount, eventsForDb, frames, taken := "", 0, [], [], 0;
    while taken < |gets|
      invariant taken <= |gets| && taken <= patience
      invariant Sentinel !in gets[..taken]
      invariant Reflects(route, gets[..taken], contentBuffer, deltaCount, eventsForDb)
      invariant Framed(gets[..taken], frames)
    {
      FramedOneMore(gets, taken, frames);
      if gets[taken].Timeout? {
        TakeTimeout(route, gets, taken, contentBuffer, deltaCount, eventsForDb);
        frames := frames + [Keepalive];
      } else if gets[taken].Sentinel? {
        exit := Finished;
        return;
      } else {
        var event := gets[taken].event;
        TakeEvent(route, gets, taken, contentBuffer, deltaCount, eventsForDb);
        contentBuffer, deltaCount, eventsForDb := Absorb(route, event, contentBuffer, deltaCount, eventsForDb);
        frames := frames + [Forwarded(event)];
      }
      taken := taken + 1;
      if |frames| > patience {
        exit := Disconnected;
        return;
      }
    }
    exit := Waiting;
  }

  method PreResponseEdited(events: seq<Event>) returns (edited: bool)
    ensures edited <==> exists k :: 0 <= k < |events| && events[k].HookResult? &&
                          events[k].hookEvent == "PreResponse" && (events[k].modified || events[k].blocked)
    ensures edited <==> Edited(events)
  {
    for k := 0 to |events|
      invariant forall j :: 0 <= j < k ==> !EditsResponse(events[j])
    {
      if EditsResponse(events[k]) {
        return true;
      }
    }
    return false;
  }

  /** Every kept event stands exactly where the events kept before it end. */
  lemma {:induction false} PersistedAt(route: Route, es: seq<Event>, k: nat)
    requires k < |es|
    ensures |Persisted(route, es[..k])| <= |Persisted(route, es)|
    ensures es[k].StepEvent? || es[k].HookResult? || (es[k].CitationRegistered? && route == Orchestrations) ==>
      |Persisted(route, es[..k])| < |Persisted(route, es)| &&
      Persisted(route, es)[|Persisted(route, es[..k])|] == es[k]
  {
    if k < |es| - 1 {
      assert es[..|es| - 1][..k] == es[..k];
      PersistedAt(route, es[..|es| - 1], k);
    }
  }

  /**
   Nothing else is kept, and what is kept appears as often as it was emitted: step events and hook
   results in both routes, registered citations in the orchestration route, deltas in none.
   */
  lemma {:induction false} PersistedIsExact(route: Route, es: seq<Event>, e: Event)
    ensures multiset(Persisted(route, es))[e] ==
      if e.StepEvent? || e.HookResult? || (e.CitationRegistered? && route == Orchestrations) then multiset(es)[e] else 0
  {
    if es != [] {
      PersistedIsExact(route, es[..|es| - 1], e);
      assert es == es[..|es| - 1] + [es[|es| - 1]];
    }
  }

  lemma {:induction false} DeltaTextConcat(a: seq<Event>, b: seq<Event>)
    ensures DeltaText(a + b) == DeltaText(a) + DeltaText(b)
    ensures DeltaCount(a + b) == DeltaCount(a) + DeltaCount(b)
  {
    if b == [] {
      assert a + b == a;
    } else {
      assert (a + b)[..|a + b| - 1] == a + b[..|b| - 1];
      DeltaTextConcat(a, b[..|b| - 1]);
    }
  }

  /** A PreResponse edit is seen among the kept events exactly when it was emitted. */
  lemma EditedSurvives(route: Route, es: seq<Event>)
    ensures Edited(Persisted(route, es)) <==> Edited(es)
  {
    if Edited(es) {
      var k :| 0 <= k < |es| && EditsResponse(es[k]);
      PersistedAt(route, es, k);
    }
    if Edited(Persisted(route, es)) {
      var k :| 0 <= k < |Persisted(route, es)| && EditsResponse(Persisted(route, es)[k]);
      var e := Persisted(route, es)[k];
      PersistedIsExact(route, es, e);
      assert e in multiset(Persisted(route, es));
      assert e in es;
    }
  }

  /** `output.content or ""` */
  function Text(output: Option<string>): string {
    if output.Some? then output.value else ""
  }

  /** The text an agent run ends with, before citation parsing. */
  function AgentFinal(streaming: bool, buffer: string, output: Option<string>, events: seq<Event>): string {
    if streaming && output.Some? && Edited(events) then output.value
    else if streaming then buffer
    else Text(output)
  }

  /** The text an orchestration run ends with. */
  function OrchestrationFinal(streaming: bool, buffer: string, output: Option<string>,
                              events: seq<Event>): Option<string> {
    if streaming && output.Some? && Edited(events) then output
    else if streaming then Some(buffer)
    else output
  }

  /**
   When a PreResponse hook edited the answer, the vetted text is what is stored, except
   in exactly one case: a streamed run whose output carries no content keeps the raw
   tokens.
   */
  lemma VettedTextStored(streaming: bool, es: seq<Event>, output: Option<string>)
    requires Edited(es)
    ensures
      var kept := Persisted(Agents, es);
      AgentFinal(streaming, DeltaText(es), output, kept) == (if output.Some? then output.value else "")
      <==> !streaming || output.Some? || DeltaText(es) == ""
    ensures
      var kept := Persisted(Orchestrations, es);
      OrchestrationFinal(streaming, DeltaText(es), output, kept) == output
      <==> !streaming || output.Some?
  {
    EditedSurvives(Agents, es);
    EditedSurvives(Orchestrations, es);
  }

  /** Without streaming, the output's content is stored, edited or not. */
  lemma OutputStored(es: seq<Event>, output: Option<string>)
    ensures AgentFinal(false, DeltaText(es), output, Persisted(Agents, es)) ==
            if output.Some? then output.value else ""
    ensures OrchestrationFinal(false, DeltaText(es), output, Persisted(Orchestrations, es)) == output
  {
  }

  /** The drained text is that of the deltas alone, the count that of both kinds of deltas. */
  lemma DeltasOfOne(e: Event)
    ensures DeltaText([e]) == if e.ContentDelta? then e.delta else ""
    ensures DeltaCount([e]) == if e.ContentDelta? || e.ReasoningDelta? then 1 else 0
  {
    assert [e][..0] == [];
  }

  /** Without an edit, a streamed run stores exactly what the client was sent as deltas. */
  lemma StreamedTextStored(es: seq<Event>, output: Option<string>)
    requires !Edited(es)
    ensures AgentFinal(true, DeltaText(es), output, Persisted(Agents, es)) == DeltaText(es)
    ensures OrchestrationFinal(true, DeltaText(es), output, Persisted(Orchestrations, es)) == Some(DeltaText(es))
  {
    EditedSurvives(Agents, es);
    EditedSurvives(Orchestrations, es);
  }
}
