/**
 The replay of an orchestration session: one loop over its runs that fills the message list,
 the top-level event list and the top-level tool-call list, with the tool calls grouped from
 the child agent runs.
 */
module SessionMessages {
  import opened Options

  /** A persisted reasoning event, with its text if that is a string; any other event. */
  datatype Event = Thought(content: Option<string>) | OtherEvent(body: string)

  datatype Block =
    | ImageRef(path: string, format: string)
    | ImageUrl(mime: string, bytes: string)
    | TextBlock(text: string)
    | OtherBlock(body: string)

  /** A tool call; `blocks` is its result when that is a list. */
  datatype Call = Call(tool: string, blocks: Option<seq<Block>>, rest: string)

  /** What downloading a path gives, base64-encoded; None when it fails. */
  type Storage = string -> Option<string>

  /** An entry of `input_messages`; other JSON values are skipped. */
  datatype Input = Dict(role: Option<string>, content: Option<string>) | NotADict

  datatype Inputs = Absent | One(input: Input) | Many(list: seq<Input>)

  /** Times in microseconds. */
  datatype Run =
    Run(id: nat, runId: string, inputs: Inputs, content: Option<string>, error: Option<string>, events: seq<Event>,
        reasoningRequested: bool, startedAt: Option<int>, completedAt: Option<int>)

  /** A child agent run and its tool calls, in step order. */
  datatype Child = Child(parent: nat, calls: seq<Call>)

  datatype Reasoning = Reasoning(durationMs: Option<int>, summary: Option<string>)

  datatype Message =
    | FromInput(role: string, content: string)
    | Answer(content: string, runId: string, reasoning: Option<Reasoning>, events: seq<Event>, toolCalls: seq<Call>)

  // ---- what the loop is to produce ----------------------------------------------------

  function Or(text: Option<string>, default: string): string {
    if text.Some? then text.value else default
  }

  function InputMessages(list: seq<Input>): seq<Message> {
    if list == [] then []
    else
      var last := list[|list| - 1];
      InputMessages(list[..|list| - 1]) +
      if last.NotADict? then [] else [FromInput(Or(last.role, "user"), Or(last.content, ""))]
  }

  function AsList(inputs: Inputs): seq<Input> {
    match inputs
    case Absent => []
    case One(input) => [input]
    case Many(list) => list
  }

  predicate Truthy(text: Option<string>) {
    text.Some? && text.value != ""
  }

  predicate Answered(run: Run) {
    Truthy(run.content) || Truthy(run.error)
  }

  function AnswerText(run: Run): string {
    if Truthy(run.content) then run.content.value else if Truthy(run.error) then "Error: " + run.error.value else ""
  }

  /** The texts of the reasoning events, in order. */
  function Thoughts(events: seq<Event>): seq<string> {
    if events == [] then []
    else
      var last := events[|events| - 1];
      Thoughts(events[..|events| - 1]) + if last.Thought? && Truthy(last.content) then [last.content.value] else []
  }

  const BLANK_LINE := "\n\n"

  function Join(parts: seq<string>): string {
    if parts == [] then ""
    else if |parts| == 1 then parts[0]
    else Join(parts[..|parts| - 1]) + BLANK_LINE + parts[|parts| - 1]
  }

  /** `int(seconds * 1000)` truncates towards zero. */
  function Millis(micros: int): int {
    if micros >= 0 then micros / 1000 else -(-micros / 1000)
  }

  function DurationOf(run: Run): Option<int> {
    if run.startedAt.Some? && run.completedAt.Some? then Some(Millis(run.completedAt.value - run.startedAt.value))
    else None
  }

  function SummaryOf(events: seq<Event>): Option<string> {
    if Thoughts(events) == [] then None else Some(Join(Thoughts(events)))
  }

  function ReasoningOf(run: Run): Option<Reasoning> {
    if run.reasoningRequested then Some(Reasoning(DurationOf(run), SummaryOf(run.events))) else None
  }

  function ResolvedBlock(block: Block, storage: Storage): Block {
    if !block.ImageRef? then block
    else
      var bytes := storage(block.path);
      if bytes.None? then TextBlock("[Image unavailable: " + block.path + "]")
      else
        ImageUrl(if block.format == "jpg" || block.format == "jpeg" then "image/jpeg" else "image/" + block.format,
                 bytes.value)
  }

  function ResolvedBlocks(blocks: seq<Block>, storage: Storage): seq<Block> {
    if blocks == [] then []
    else ResolvedBlocks(blocks[..|blocks| - 1], storage) + [ResolvedBlock(blocks[|blocks| - 1], storage)]
  }

  function ResolvedCall(call: Call, storage: Storage): Call {
    if call.blocks.None? then call else call.(blocks := Some(ResolvedBlocks(call.blocks.value, storage)))
  }

  function ResolvedCalls(calls: seq<Call>, storage: Storage): seq<Call> {
    if calls == [] then []
    else ResolvedCalls(calls[..|calls| - 1], storage) + [ResolvedCall(calls[|calls| - 1], storage)]
  }

  /** The same children with the images of their tool calls inlined. */
  function ResolvedChildren(children: seq<Child>, storage: Storage): seq<Child> {
    if children == [] then []
    else
      var last := children[|children| - 1];
      ResolvedChildren(children[..|children| - 1], storage) + [last.(calls := ResolvedCalls(last.calls, storage))]
  }

  function Flatten(children: seq<Child>): seq<Call> {
    if children == [] then [] else Flatten(children[..|children| - 1]) + children[|children| - 1].calls
  }

  function ChildrenOf(children: seq<Child>, id: nat): seq<Child> {
    if children == [] then []
    else
      var last := children[|children| - 1];
      ChildrenOf(children[..|children| - 1], id) + if last.parent == id then [last] else []
  }

  function CallsOf(children: seq<Child>, run: Run): seq<Call> {
    Flatten(ChildrenOf(children, run.id))
  }

  function RunMessages(run: Run, children: seq<Child>): seq<Message> {
    InputMessages(AsList(run.inputs)) +
    if !Answered(run) then []
    else [Answer(AnswerText(run), run.runId, ReasoningOf(run), run.events, CallsOf(children, run))]
  }

  function AllMessages(runs: seq<Run>, children: seq<Child>): seq<Message> {
    if runs == [] then [] else AllMessages(runs[..|runs| - 1], children) + RunMessages(runs[|runs| - 1], children)
  }

  function AllEvents(runs: seq<Run>): seq<Event> {
    if runs == [] then [] else AllEvents(runs[..|runs| - 1]) + runs[|runs| - 1].events
  }

  function AllCalls(runs: seq<Run>, children: seq<Child>): seq<Call> {
    if runs == [] then [] else AllCalls(runs[..|runs| - 1], children) + CallsOf(children, runs[|runs| - 1])
  }

  // ---- the loops ----------------------------------------------------------------------

  function Group(groups: map<nat, seq<Child>>, id: nat): seq<Child> {
    if id in groups then groups[id] else []
  }

  lemma ChildrenSnoc(children: seq<Child>, child: Child, id: nat)
    ensures ChildrenOf(children + [child], id) == ChildrenOf(children, id) + if child.parent == id then [child] else []
  {
    assert (children + [child])[..|children|] == children;
  }

  ghost predicate Grouped(groups: map<nat, seq<Child>>, children: seq<Child>) {
    forall id :: Group(groups, id) == ChildrenOf(children, id)
  }

  lemma GroupedOneMore(groups: map<nat, seq<Child>>, children: seq<Child>, child: Child)
    requires Grouped(groups, children)
    ensures Grouped(groups[child.parent := Group(groups, child.parent) + [child]], children + [child])
  {
    var next := groups[child.parent := Group(groups, child.parent) + [child]];
    forall id ensures Group(next, id) == ChildrenOf(children + [child], id) {
      ChildrenSnoc(children, child, id);
      assert Group(groups, id) == ChildrenOf(children, id);
    }
  }

  method GroupByParent(children: seq<Child>) returns (groups: map<nat, seq<Child>>)
    ensures Grouped(groups, children)
  {
    groups := map[];
    for i := 0 to |children|
      invariant Grouped(groups, children[..i])
    {
      var child := children[i];
      assert children[..i + 1] == children[..i] + [child];
      GroupedOneMore(groups, children[..i], child);
      groups := groups[child.parent := Group(groups, child.parent) + [child]];
    }
    assert children[..|children|] == children;
  }

  method CollectCalls(group: seq<Child>) returns (calls: seq<Call>)
    ensures calls == Flatten(group)
  {
    calls := [];
    for i := 0 to |group|
      invariant calls == Flatten(group[..i])
    {
      assert group[..i + 1][..i] == group[..i];
      calls := calls + group[i].calls;
    }
    assert group[..|group|] == group;
  }

  method CollectInputs(list: seq<Input>) returns (messages: seq<Message>)
    ensures messages == InputMessages(list)
  {
    messages := [];
    for i := 0 to |list|
      invariant messages == InputMessages(list[..i])
    {
      assert list[..i + 1][..i] == list[..i];
      if list[i].Dict? {
        messages := messages + [FromInput(Or(list[i].role, "user"), Or(list[i].content, ""))];
      }
    }
    assert list[..|list|] == list;
  }

  /** `_summary_from_events` */
  method SummaryFromEvents(events: seq<Event>) returns (summary: Option<string>)
    ensures summary == SummaryOf(events)
    ensures summary.None? <==> forall e :: e in events ==> !(e.Thought? && Truthy(e.content))
  {
    var parts: seq<string> := [];
    for i := 0 to |events|
      invariant parts == Thoughts(events[..i])
      invariant parts == [] <==> forall k :: 0 <= k < i ==> !(events[k].Thought? && Truthy(events[k].content))
    {
      assert events[..i + 1][..i] == events[..i];
      if events[i].Thought? && Truthy(events[i].content) {
        parts := parts + [events[i].content.value];
      }
    }
    assert events[..|events|] == events;
    summary := if parts == [] then None else Some(Join(parts));
  }

  /** `resolve_tool_call_image_refs`: every reference is replaced in its place. */
  method ResolveImageRefs(calls: seq<Call>, storage: Storage) returns (resolved: seq<Call>)
    ensures resolved == ResolvedCalls(calls, storage)
  {
    resolved := [];
    for i := 0 to |calls|
      invariant resolved == ResolvedCalls(calls[..i], storage)
    {
      assert calls[..i + 1][..i] == calls[..i];
      resolved := resolved + [ResolvedCall(calls[i], storage)];
    }
    assert calls[..|calls|] == calls;
  }

  ghost predicate Collected(runs: seq<Run>, children: seq<Child>,
                            messages: seq<Message>, allEvents: seq<Event>, allToolCalls: seq<Call>) {
    && messages == AllMessages(runs, children)
    && allEvents == AllEvents(runs)
    && allToolCalls == AllCalls(runs, children)
  }

  lemma CollectedOneMore(runs: seq<Run>, run: Run, children: seq<Child>,
                         messages: seq<Message>, allEvents: seq<Event>, allToolCalls: seq<Call>)
    requires Collected(runs, children, messages, allEvents, allToolCalls)
    ensures Collected(runs + [run], children, messages + RunMessages(run, children),
                      allEvents + run.events, allToolCalls + CallsOf(children, run))
  {
    assert (runs + [run])[..|runs|] == runs;
  }

  /** The loop over the runs. */
  method Collect(runs: seq<Run>, children: seq<Child>, storage: Storage)
    returns (messages: seq<Message>, allEvents: seq<Event>, allToolCalls: seq<Call>)
    ensures Collected(runs, ResolvedChildren(children, storage), messages, allEvents, allToolCalls)
  {
    ghost var inlined := ResolvedChildren(children, storage);
    var groups := GroupByParent(children);
    messages, allEvents, allToolCalls := [], [], [];
    for i := 0 to |runs|
      invariant Collected(runs[..i], inlined, messages, allEvents, allToolCalls)
    {
      var run := runs[i];
      assert runs[..i + 1] == runs[..i] + [run];
      CollectedOneMore(runs[..i], run, inlined, messages, allEvents, allToolCalls);
      var inputs := CollectInputs(AsList(run.inputs));
      var runToolCalls := CollectCalls(Group(groups, run.id));
      runToolCalls := ResolveImageRefs(runToolCalls, storage);
      ResolvedOf(children, storage, run);
      assert Group(groups, run.id) == ChildrenOf(children, run.id);
      var answer := AnswerOf(run, runToolCalls);
      messages := messages + (inputs + answer);
      allEvents := allEvents + run.events;
      allToolCalls := allToolCalls + runToolCalls;
    }
    assert runs[..|runs|] == runs;
  }

  /** The assistant message of a run, if it has content or an error. */
  method AnswerOf(run: Run, runToolCalls: seq<Call>) returns (answer: seq<Message>)
    ensures answer ==
      if Answered(run) then [Answer(AnswerText(run), run.runId, ReasoningOf(run), run.events, runToolCalls)] else []
  {
    if !Truthy(run.content) && !Truthy(run.error) {
      return [];
    }
    var content := if Truthy(run.content) then run.content.value else "Error: " + run.error.value;
    var reasoning := None;
    if run.reasoningRequested {
      var summary := SummaryFromEvents(run.events);
      reasoning := Some(Reasoning(DurationOf(run), summary));
    }
    answer := [Answer(content, run.runId, reasoning, run.events, runToolCalls)];
  }

  lemma {:induction false} ResolvedConcat(a: seq<Call>, b: seq<Call>, storage: Storage)
    ensures ResolvedCalls(a + b, storage) == ResolvedCalls(a, storage) + ResolvedCalls(b, storage)
  {
    if b == [] {
      assert a + b == a;
    } else {
      assert (a + b)[..|a + b| - 1] == a + b[..|b| - 1];
      ResolvedConcat(a, b[..|b| - 1], storage);
    }
  }

  /** Inlining the images and flattening are independent. */
  lemma {:induction false} ResolvedFlat(children: seq<Child>, storage: Storage)
    ensures Flatten(ResolvedChildren(children, storage)) == ResolvedCalls(Flatten(children), storage)
  {
    if children != [] {
      var init, last := children[..|children| - 1], children[|children| - 1];
      ResolvedFlat(init, storage);
      ResolvedConcat(Flatten(init), last.calls, storage);
      FlattenSnoc(ResolvedChildren(init, storage), last.(calls := ResolvedCalls(last.calls, storage)));
    }
  }

  lemma FlattenSnoc(children: seq<Child>, child: Child)
    ensures Flatten(children + [child]) == Flatten(children) + child.calls
  {
    assert (children + [child])[..|children|] == children;
  }

  lemma {:induction false} ResolvedGroup(children: seq<Child>, storage: Storage, id: nat)
    ensures ChildrenOf(ResolvedChildren(children, storage), id) == ResolvedChildren(ChildrenOf(children, id), storage)
  {
    if children != [] {
      var init, last := children[..|children| - 1], children[|children| - 1];
      ResolvedGroup(init, storage, id);
      ChildrenSnoc(ResolvedChildren(init, storage), last.(calls := ResolvedCalls(last.calls, storage)), id);
      if last.parent == id {
        ResolvedSnoc(ChildrenOf(init, id), last, storage);
      } else {
        assert ChildrenOf(children, id) == ChildrenOf(init, id);
      }
    }
  }

  lemma ResolvedSnoc(children: seq<Child>, child: Child, storage: Storage)
    ensures ResolvedChildren(children + [child], storage) ==
            ResolvedChildren(children, storage) + [child.(calls := ResolvedCalls(child.calls, storage))]
  {
    assert (children + [child])[..|children|] == children;
  }

  lemma ResolvedOf(children: seq<Child>, storage: Storage, run: Run)
    ensures CallsOf(ResolvedChildren(children, storage), run) == ResolvedCalls(CallsOf(children, run), storage)
  {
    ResolvedGroup(children, storage, run.id);
    ResolvedFlat(ChildrenOf(children, run.id), storage);
  }

  // ---- order --------------------------------------------------------------------------

  /** Children keep their order, and so do their calls. */
  lemma {:induction false} ChildrenConcat(a: seq<Child>, b: seq<Child>, id: nat)
    ensures ChildrenOf(a + b, id) == ChildrenOf(a, id) + ChildrenOf(b, id)
    ensures Flatten(a + b) == Flatten(a) + Flatten(b)
    ensures |a| == 1 ==> ChildrenOf(a, id) == (if a[0].parent == id then a else []) && Flatten(a) == a[0].calls
  {
    if |a| == 1 { assert a[..0] == []; }
    if b == [] {
      assert a + b == a;
    } else {
      assert (a + b)[..|a + b| - 1] == a + b[..|b| - 1];
      ChildrenConcat(a, b[..|b| - 1], id);
    }
  }

  lemma Associative<T>(a: seq<T>, b: seq<T>, c: seq<T>)
    ensures (a + b) + c == a + (b + c)
  {
  }

  lemma RunsSnoc(runs: seq<Run>, run: Run, children: seq<Child>)
    ensures AllEvents(runs + [run]) == AllEvents(runs) + run.events
    ensures AllCalls(runs + [run], children) == AllCalls(runs, children) + CallsOf(children, run)
  {
    assert (runs + [run])[..|runs|] == runs;
  }

  lemma {:induction false} RunsConcat(a: seq<Run>, b: seq<Run>, children: seq<Child>)
    ensures AllEvents(a + b) == AllEvents(a) + AllEvents(b)
    ensures AllCalls(a + b, children) == AllCalls(a, children) + AllCalls(b, children)
  {
    if b == [] {
      assert a + b == a;
    } else {
      var front, last := b[..|b| - 1], b[|b| - 1];
      assert a + b == (a + front) + [last] && b == front + [last];
      RunsConcat(a, front, children);
      RunsSnoc(a + front, last, children);
      RunsSnoc(front, last, children);
      Associative(AllEvents(a), AllEvents(front), last.events);
      Associative(AllCalls(a, children), AllCalls(front, children), CallsOf(children, last));
    }
  }

  /** The top-level lists follow the runs: the events of each, and the calls of its children. */
  lemma TopLevelConcat(a: seq<Run>, b: seq<Run>, children: seq<Child>)
    ensures AllEvents(a + b) == AllEvents(a) + AllEvents(b)
    ensures AllCalls(a + b, children) == AllCalls(a, children) + AllCalls(b, children)
    ensures |a| == 1 ==>
      AllEvents(a) == a[0].events && AllCalls(a, children) == Flatten(ChildrenOf(children, a[0].id))
  {
    if |a| == 1 { assert a[..0] == []; }
    RunsConcat(a, b, children);
  }

  // ---- what a message says ------------------------------------------------------------

  lemma JoinSnoc(parts: seq<string>, last: string)
    requires parts != []
    ensures Join(parts + [last]) == Join(parts) + BLANK_LINE + last
  {
    assert (parts + [last])[..|parts|] == parts;
  }

  lemma Regroup(a: string, b: string, c: string)
    ensures (a + BLANK_LINE + b) + BLANK_LINE + c == a + BLANK_LINE + (b + BLANK_LINE + c)
  {
  }

  /** Parts are set apart by a blank line, in their order, and a single part stands alone. */
  lemma {:induction false} JoinConcat(a: seq<string>, b: seq<string>)
    requires a != [] && b != []
    ensures Join(a + b) == Join(a) + "\n\n" + Join(b)
    ensures |a| == 1 ==> Join(a) == a[0]
  {
    var last := b[|b| - 1];
    if |b| == 1 {
      assert a + b == a + [last];
      JoinSnoc(a, last);
    } else {
      var front := b[..|b| - 1];
      assert a + b == (a + front) + [last] && b == front + [last];
      JoinConcat(a, front);
      JoinSnoc(a + front, last);
      JoinSnoc(front, last);
      Regroup(Join(a), Join(front), last);
    }
  }

  /** The k-th input entry, if it is an object, stands behind the messages of those before it. */
  lemma {:induction false} InputAt(list: seq<Input>, k: nat)
    requires k < |list|
    ensures |InputMessages(list[..k])| <= |InputMessages(list)|
    ensures list[k].Dict? ==>
      && |InputMessages(list[..k])| < |InputMessages(list)|
      && InputMessages(list)[|InputMessages(list[..k])|] ==
           FromInput(if list[k].role.Some? then list[k].role.value else "user",
                     if list[k].content.Some? then list[k].content.value else "")
  {
    if k < |list| - 1 {
      assert list[..|list| - 1][..k] == list[..k];
      InputAt(list[..|list| - 1], k);
    }
  }

  /** There is one message per entry that is an object. */
  lemma {:induction false} InputsCounted(list: seq<Input>)
    ensures |InputMessages(list)| == |set k | 0 <= k < |list| && list[k].Dict?|
  {
    var dicts := set k | 0 <= k < |list| && list[k].Dict?;
    if list == [] {
      assert dicts == {};
    } else {
      var last := |list| - 1;
      InputsCounted(list[..last]);
      var before := set k | 0 <= k < |list[..last]| && list[..last][k].Dict?;
      assert dicts == before + if list[last].Dict? then {last} else {};
    }
  }

  /** The reasoning texts of two stretches of events are those of the first, then those of the second. */
  lemma {:induction false} ThoughtsConcat(a: seq<Event>, b: seq<Event>)
    ensures Thoughts(a + b) == Thoughts(a) + Thoughts(b)
  {
    if b == [] {
      assert a + b == a;
    } else {
      assert (a + b)[..|a + b| - 1] == a + b[..|b| - 1];
      ThoughtsConcat(a, b[..|b| - 1]);
    }
  }

  lemma ThoughtOfOne(e: Event)
    ensures Thoughts([e]) ==
      if e.Thought? && e.content.Some? && e.content.value != "" then [e.content.value] else []
  {
    assert [e][..0] == [];
  }

  /** Whole milliseconds, cut off towards zero. */
  lemma DurationTruncates(run: Run)
    ensures DurationOf(run).Some? <==> run.startedAt.Some? && run.completedAt.Some?
    ensures DurationOf(run).Some? ==>
      var micros, ms := run.completedAt.value - run.startedAt.value, DurationOf(run).value;
      if micros >= 0 then 1000 * ms <= micros < 1000 * ms + 1000 else 1000 * ms - 1000 < micros <= 1000 * ms <= 0
  {
  }

  /**
   The messages of a run end in its answer, if it has content or an error: the content, or the
   error behind its prefix, with the run's id and events; reasoning metadata only where reasoning
   was requested, and then with the joined texts of the reasoning events.
   */
  lemma AnswerSays(run: Run, children: seq<Child>)
    ensures
      var messages := RunMessages(run, children);
      var content := run.content.Some? && run.content.value != "";
      var error := run.error.Some? && run.error.value != "";
      if !content && !error then messages == InputMessages(AsList(run.inputs))
      else
        && messages != [] && messages[..|messages| - 1] == InputMessages(AsList(run.inputs))
        && var last := messages[|messages| - 1];
           && last.Answer? && last.runId == run.runId && last.events == run.events
           && last.toolCalls == Flatten(ChildrenOf(children, run.id))
           && last.content == (if content then run.content.value else "Error: " + run.error.value)
           && (last.reasoning.Some? <==> run.reasoningRequested)
           && (last.reasoning.Some? ==>
                 && last.reasoning.value.durationMs == DurationOf(run)
                 && last.reasoning.value.summary ==
                      if Thoughts(run.events) == [] then None else Some(Join(Thoughts(run.events))))
  {
  }

  /** The messages of two stretches of runs stand one behind the other, and so do those of each run. */
  lemma {:induction false} MessagesConcat(a: seq<Run>, b: seq<Run>, children: seq<Child>)
    ensures AllMessages(a + b, children) == AllMessages(a, children) + AllMessages(b, children)
    ensures |a| == 1 ==> AllMessages(a, children) == RunMessages(a[0], children)
  {
    if |a| == 1 { assert a[..0] == []; }
    if b == [] {
      assert a + b == a;
    } else {
      assert (a + b)[..|a + b| - 1] == a + b[..|b| - 1];
      MessagesConcat(a, b[..|b| - 1], children);
    }
  }

  /** An input that is no list counts as a list of one; no input, as none. */
  lemma InputsListed(run: Run, children: seq<Child>)
    requires !run.inputs.Many? && !Answered(run)
    ensures RunMessages(run, children) ==
      if run.inputs.One? && run.inputs.input.Dict? then
        [FromInput(if run.inputs.input.role.Some? then run.inputs.input.role.value else "user",
                   if run.inputs.input.content.Some? then run.inputs.input.content.value else "")]
      else []
  {
    if run.inputs.One? { assert [run.inputs.input][..0] == []; }
  }

  /** An image that can be read becomes a data URL of its type, one that cannot becomes a notice with its path. */
  lemma BlockSays(block: Block, storage: Storage)
    ensures !block.ImageRef? ==> ResolvedBlock(block, storage) == block
    ensures block.ImageRef? && storage(block.path).None? ==>
      ResolvedBlock(block, storage) == TextBlock("[Image unavailable: " + block.path + "]")
    ensures block.ImageRef? && storage(block.path).Some? ==>
      ResolvedBlock(block, storage) ==
        ImageUrl(if block.format in {"jpg", "jpeg"} then "image/jpeg" else "image/" + block.format,
                 storage(block.path).value)
  {
  }

  // ---- what a reader of the replay relies on ------------------------------------------

  function AnswerEvents(messages: seq<Message>): seq<Event> {
    if messages == [] then []
    else
      var last := messages[|messages| - 1];
      AnswerEvents(messages[..|messages| - 1]) + if last.Answer? then last.events else []
  }

  function AnswerCalls(messages: seq<Message>): seq<Call> {
    if messages == [] then []
    else
      var last := messages[|messages| - 1];
      AnswerCalls(messages[..|messages| - 1]) + if last.Answer? then last.toolCalls else []
  }

  function AnswerIds(messages: seq<Message>): seq<string> {
    if messages == [] then []
    else
      var last := messages[|messages| - 1];
      AnswerIds(messages[..|messages| - 1]) + if last.Answer? then [last.runId] else []
  }

  lemma {:induction false} AnswerEventsConcat(a: seq<Message>, b: seq<Message>)
    ensures AnswerEvents(a + b) == AnswerEvents(a) + AnswerEvents(b)
  {
    if b == [] {
      assert a + b == a;
    } else {
      assert (a + b)[..|a + b| - 1] == a + b[..|b| - 1];
      AnswerEventsConcat(a, b[..|b| - 1]);
    }
  }

  lemma {:induction false} AnswerCallsConcat(a: seq<Message>, b: seq<Message>)
    ensures AnswerCalls(a + b) == AnswerCalls(a) + AnswerCalls(b)
  {
    if b == [] {
      assert a + b == a;
    } else {
      assert (a + b)[..|a + b| - 1] == a + b[..|b| - 1];
      AnswerCallsConcat(a, b[..|b| - 1]);
    }
  }

  lemma {:induction false} AnswerIdsConcat(a: seq<Message>, b: seq<Message>)
    ensures AnswerIds(a + b) == AnswerIds(a) + AnswerIds(b)
  {
    if b == [] {
      assert a + b == a;
    } else {
      assert (a + b)[..|a + b| - 1] == a + b[..|b| - 1];
      AnswerIdsConcat(a, b[..|b| - 1]);
    }
  }

  lemma AnswersConcat(a: seq<Message>, b: seq<Message>)
    ensures AnswerEvents(a + b) == AnswerEvents(a) + AnswerEvents(b)
    ensures AnswerCalls(a + b) == AnswerCalls(a) + AnswerCalls(b)
    ensures AnswerIds(a + b) == AnswerIds(a) + AnswerIds(b)
  {
    AnswerEventsConcat(a, b);
    AnswerCallsConcat(a, b);
    AnswerIdsConcat(a, b);
  }

  lemma {:induction false} InputsAnswerNothing(list: seq<Input>)
    ensures AnswerEvents(InputMessages(list)) == [] && AnswerCalls(InputMessages(list)) == []
    ensures AnswerIds(InputMessages(list)) == []
  {
    if list != [] {
      InputsAnswerNothing(list[..|list| - 1]);
      AnswersConcat(InputMessages(list[..|list| - 1]), InputMessages(list)[|InputMessages(list[..|list| - 1])|..]);
      assert InputMessages(list) ==
             InputMessages(list[..|list| - 1]) + InputMessages(list)[|InputMessages(list[..|list| - 1])|..];
    }
  }

  lemma RunAnswers(run: Run, children: seq<Child>)
    ensures AnswerEvents(RunMessages(run, children)) == if Answered(run) then run.events else []
    ensures AnswerCalls(RunMessages(run, children)) == if Answered(run) then CallsOf(children, run) else []
    ensures AnswerIds(RunMessages(run, children)) == if Answered(run) then [run.runId] else []
  {
    var inputs := InputMessages(AsList(run.inputs));
    var answer := RunMessages(run, children)[|inputs|..];
    assert RunMessages(run, children) == inputs + answer;
    InputsAnswerNothing(AsList(run.inputs));
    AnswersConcat(inputs, answer);
  }

  function AnsweredIds(runs: seq<Run>): seq<string> {
    if runs == [] then []
    else AnsweredIds(runs[..|runs| - 1]) + if Answered(runs[|runs| - 1]) then [runs[|runs| - 1].runId] else []
  }

  /** One assistant message per run with content or an error, in the order of the runs. */
  lemma {:induction false} OneAnswerEach(runs: seq<Run>, children: seq<Child>)
    ensures AnswerIds(AllMessages(runs, children)) == AnsweredIds(runs)
  {
    if runs != [] {
      OneAnswerEach(runs[..|runs| - 1], children);
      RunAnswers(runs[|runs| - 1], children);
      AnswersConcat(AllMessages(runs[..|runs| - 1], children), RunMessages(runs[|runs| - 1], children));
    }
  }

  lemma {:induction false} EventsPerMessage(runs: seq<Run>, children: seq<Child>)
    ensures |AnswerEvents(AllMessages(runs, children))| <= |AllEvents(runs)|
    ensures |AnswerEvents(AllMessages(runs, children))| == |AllEvents(runs)| ==>
      AnswerEvents(AllMessages(runs, children)) == AllEvents(runs)
    ensures |AnswerEvents(AllMessages(runs, children))| == |AllEvents(runs)| <==>
      forall run :: run in runs && run.events != [] ==> Answered(run)
  {
    if runs != [] {
      var init, last := runs[..|runs| - 1], runs[|runs| - 1];
      EventsPerMessage(init, children);
      RunAnswers(last, children);
      AnswersConcat(AllMessages(init, children), RunMessages(last, children));
      assert forall run :: run in runs <==> run in init || run == last;
    }
  }

  lemma {:induction false} CallsPerMessage(runs: seq<Run>, children: seq<Child>)
    ensures |AnswerCalls(AllMessages(runs, children))| <= |AllCalls(runs, children)|
    ensures |AnswerCalls(AllMessages(runs, children))| == |AllCalls(runs, children)| ==>
      AnswerCalls(AllMessages(runs, children)) == AllCalls(runs, children)
    ensures |AnswerCalls(AllMessages(runs, children))| == |AllCalls(runs, children)| <==>
      forall run :: run in runs && CallsOf(children, run) != [] ==> Answered(run)
  {
    if runs != [] {
      var init, last := runs[..|runs| - 1], runs[|runs| - 1];
      CallsPerMessage(init, children);
      RunAnswers(last, children);
      AnswersConcat(AllMessages(init, children), RunMessages(last, children));
      assert forall run :: run in runs <==> run in init || run == last;
    }
  }

  /**
   Read message by message, the replay shows every event and tool call of the top-level lists,
   in the same order, exactly if no run that has some is without both content and error.
   */
  lemma MessagesCarryAllExactly(runs: seq<Run>, children: seq<Child>)
    ensures AnswerEvents(AllMessages(runs, children)) == AllEvents(runs) <==>
            forall run :: run in runs && run.events != [] ==> Answered(run)
    ensures AnswerCalls(AllMessages(runs, children)) == AllCalls(runs, children) <==>
            forall run :: run in runs && CallsOf(children, run) != [] ==> Answered(run)
  {
    EventsPerMessage(runs, children);
    CallsPerMessage(runs, children);
  }

  function Without(children: seq<Child>, id: nat): seq<Child> {
    if children == [] then []
    else
      var last := children[|children| - 1];
      Without(children[..|children| - 1], id) + if last.parent != id then [last] else []
  }

  /** How often a call stands in the tool calls of some children. */
  function Count(children: seq<Child>, call: Call): nat {
    if children == [] then 0
    else Count(children[..|children| - 1], call) + multiset(children[|children| - 1].calls)[call]
  }

  lemma {:induction false} CountFlattened(children: seq<Child>, call: Call)
    ensures multiset(Flatten(children))[call] == Count(children, call)
  {
    if children != [] { CountFlattened(children[..|children| - 1], call); }
  }

  lemma CountSnoc(children: seq<Child>, child: Child, call: Call)
    ensures Count(children + [child], call) == Count(children, call) + multiset(child.calls)[call]
  {
    assert (children + [child])[..|children|] == children;
  }

  lemma {:induction false} SplitCalls(children: seq<Child>, id: nat, call: Call)
    ensures Count(children, call) == Count(ChildrenOf(children, id), call) + Count(Without(children, id), call)
  {
    if children != [] {
      var init, last := children[..|children| - 1], children[|children| - 1];
      SplitCalls(init, id, call);
      CountSnoc(ChildrenOf(init, id), last, call);
      CountSnoc(Without(init, id), last, call);
      if last.parent == id {
        assert ChildrenOf(children, id) == ChildrenOf(init, id) + [last] && Without(children, id) == Without(init, id);
      } else {
        assert ChildrenOf(children, id) == ChildrenOf(init, id) && Without(children, id) == Without(init, id) + [last];
      }
    }
  }

  lemma {:induction false} OthersStay(children: seq<Child>, id: nat, other: nat)
    requires id != other
    ensures ChildrenOf(Without(children, id), other) == ChildrenOf(children, other)
    ensures forall child :: child in Without(children, id) ==> child in children && child.parent != id
  {
    if children != [] {
      var init, last := children[..|children| - 1], children[|children| - 1];
      OthersStay(init, id, other);
      ChildrenSnoc(Without(init, id), last, other);
      if last.parent == id {
        assert Without(children, id) == Without(init, id);
      } else {
        assert Without(children, id) == Without(init, id) + [last];
      }
    }
  }

  lemma {:induction false} SameCalls(runs: seq<Run>, children: seq<Child>, id: nat)
    requires forall run :: run in runs ==> run.id != id
    ensures AllCalls(runs, Without(children, id)) == AllCalls(runs, children)
  {
    if runs != [] {
      SameCalls(runs[..|runs| - 1], children, id);
      OthersStay(children, id, runs[|runs| - 1].id);
    }
  }

  lemma FirstChild(children: seq<Child>) returns (child: Child)
    requires children != []
    ensures child in children
  {
    child := children[0];
  }

  predicate EveryParentListed(runs: seq<Run>, children: seq<Child>) {
    forall child :: child in children ==> exists run :: run in runs && run.id == child.parent
  }

  lemma {:induction false} CallConserved(runs: seq<Run>, children: seq<Child>, call: Call)
    requires forall i, j :: 0 <= i < j < |runs| ==> runs[i].id != runs[j].id
    requires EveryParentListed(runs, children)
    ensures multiset(AllCalls(runs, children))[call] == Count(children, call)
    decreases |runs|
  {
    if runs == [] {
      if children != [] {
        var child := FirstChild(children);
        assert false;
      }
    } else {
      var init, last := runs[..|runs| - 1], runs[|runs| - 1];
      var others := Without(children, last.id);
      OthersStay(children, last.id, last.id + 1);
      forall child | child in others ensures exists run :: run in init && run.id == child.parent {
        var run :| run in runs && run.id == child.parent;
        assert run in init;
      }
      CallConserved(init, others, call);
      SameCalls(init, children, last.id);
      SplitCalls(children, last.id, call);
      CountFlattened(ChildrenOf(children, last.id), call);
    }
  }

  /** Grouping by parent neither loses nor repeats a tool call. */
  lemma ToolCallsConserved(runs: seq<Run>, children: seq<Child>)
    requires forall i, j :: 0 <= i < j < |runs| ==> runs[i].id != runs[j].id
    requires EveryParentListed(runs, children)
    ensures multiset(AllCalls(runs, children)) == multiset(Flatten(children))
  {
    forall call ensures multiset(AllCalls(runs, children))[call] == multiset(Flatten(children))[call] {
      CallConserved(runs, children, call);
      CountFlattened(children, call);
    }
  }

  lemma {:induction false} ResolvedParents(children: seq<Child>, storage: Storage, child: Child)
    requires child in ResolvedChildren(children, storage)
    ensures exists c :: c in children && c.parent == child.parent
  {
    var init, last := children[..|children| - 1], children[|children| - 1];
    if child in ResolvedChildren(init, storage) {
      ResolvedParents(init, storage, child);
    } else {
      assert last in children;
    }
  }

  /** Of the stored tool calls, the replay shows each one, with its images inlined, as often as it was stored. */
  lemma ReplayConservesCalls(runs: seq<Run>, children: seq<Child>, storage: Storage)
    requires forall i, j :: 0 <= i < j < |runs| ==> runs[i].id != runs[j].id
    requires EveryParentListed(runs, children)
    ensures multiset(AllCalls(runs, ResolvedChildren(children, storage))) ==
            multiset(ResolvedCalls(Flatten(children), storage))
  {
    forall child | child in ResolvedChildren(children, storage)
      ensures exists run :: run in runs && run.id == child.parent
    {
      ResolvedParents(children, storage, child);
    }
    ToolCallsConserved(runs, ResolvedChildren(children, storage));
    ResolvedFlat(children, storage);
  }

  /** Every block stays in its place, and no reference is left. */
  lemma {:induction false} NoReferenceLeft(blocks: seq<Block>, storage: Storage, k: nat)
    requires k < |blocks|
    ensures |ResolvedBlocks(blocks, storage)| == |blocks|
    ensures ResolvedBlocks(blocks, storage)[k] == ResolvedBlock(blocks[k], storage)
    ensures !ResolvedBlocks(blocks, storage)[k].ImageRef?
  {
    if k < |blocks| - 1 {
      NoReferenceLeft(blocks[..|blocks| - 1], storage, k);
    } else if k > 0 {
      NoReferenceLeft(blocks[..|blocks| - 1], storage, k - 1);
    }
  }
}
