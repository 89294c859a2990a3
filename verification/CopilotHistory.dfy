/**
 The prompt of a copilot turn: the trailing window of the stored rows, trimmed to a user
 boundary, with a placeholder reply between consecutive user messages. The project copilot
 stops after the trim.
 */
module CopilotHistory {
  datatype Role = User | Assistant

  datatype Message = Message(role: Role, content: string)

  const MAX_HISTORY_MESSAGES: nat := 40

  const PLACEHOLDER := Message(Assistant, "(No reply was recorded for the previous message.)")

  function Window(rows: seq<Message>): seq<Message> {
    if |rows| <= MAX_HISTORY_MESSAGES then rows else rows[|rows| - MAX_HISTORY_MESSAGES..]
  }

  function Trimmed(messages: seq<Message>): seq<Message> {
    if messages != [] && messages[0].role != User then Trimmed(messages[1..]) else messages
  }

  /** The window is the end of the history: its last forty messages, or all of them. */
  lemma WindowIsLatest(rows: seq<Message>)
    ensures |Window(rows)| == if |rows| > 40 then 40 else |rows|
    ensures forall k :: 0 <= k < |Window(rows)| ==> Window(rows)[k] == rows[|rows| - |Window(rows)| + k]
  {
  }

  /** Message k and the one before it are both user messages. */
  predicate Orphaned(messages: seq<Message>, k: nat)
    requires k < |messages|
  {
    k > 0 && messages[k - 1].role == User && messages[k].role == User
  }

  function Repaired(messages: seq<Message>): seq<Message> {
    if messages == [] then [] else
      var last := |messages| - 1;
      Repaired(messages[..last]) + (if Orphaned(messages, last) then [PLACEHOLDER] else []) + [messages[last]]
  }

  method Trim(window: seq<Message>) returns (messages: seq<Message>)
    ensures messages == Trimmed(window)
  {
    messages := window;
    while messages != [] && messages[0].role != User
      invariant Trimmed(messages) == Trimmed(window)
      decreases |messages|
    {
      messages := messages[1..];
    }
  }

  method Repair(messages: seq<Message>) returns (repaired: seq<Message>)
    ensures repaired == Repaired(messages)
  {
    repaired := [];
    for k := 0 to |messages|
      invariant repaired == Repaired(messages[..k])
      invariant k == 0 <==> repaired == []
      invariant k > 0 ==> repaired[|repaired| - 1] == messages[k - 1]
    {
      var m := messages[k];
      assert messages[..k + 1][..k] == messages[..k];
      assert Orphaned(messages[..k + 1], k) == Orphaned(messages, k);
      if repaired != [] && m.role == User && repaired[|repaired| - 1].role == User {
        repaired := repaired + [PLACEHOLDER];
      }
      repaired := repaired + [m];
    }
    assert messages[..|messages|] == messages;
  }

  /**
   The prompt of the workflow copilot. For a history that ends in the new user row it is one
   the provider accepts: it starts with a user message, ends with the new one, and has no two
   user messages in a row; it says what the window said from its first user message on, and
   two replies in a row only where the window had them.
   */
  method BuildPrompt(rows: seq<Message>) returns (prompt: seq<Message>)
    ensures prompt == Repaired(Trimmed(Window(rows)))
    ensures rows != [] && rows[|rows| - 1].role == User ==>
      && prompt != [] && prompt[0].role == User && prompt[|prompt| - 1] == rows[|rows| - 1]
      && NoAdjacent(prompt, User)
      && |prompt| <= 79
      && (Alternates(prompt) <==> NoAdjacent(Trimmed(Window(rows)), Assistant))
      && PlacesInOrder(Trimmed(Window(rows)))
      && PlacesHold(Trimmed(Window(rows)), prompt) && ElsewherePlaceholders(Trimmed(Window(rows)), prompt)
  {
    var messages := Trim(Window(rows));
    prompt := Repair(messages);
    if rows != [] && rows[|rows| - 1].role == User {
      PromptIsValid(rows);
      PlaceholdersRemoved(messages);
    }
  }

  // ---- what the prompt looks like -----------------------------------------------------

  ghost predicate NoAdjacent(messages: seq<Message>, role: Role) {
    forall k :: 0 <= k < |messages| - 1 ==> !(messages[k].role == role && messages[k + 1].role == role)
  }

  ghost predicate Alternates(messages: seq<Message>) {
    NoAdjacent(messages, User) && NoAdjacent(messages, Assistant)
  }

  /** How many placeholders stand before message k. */
  function Gaps(messages: seq<Message>, k: nat): nat
    requires k < |messages|
  {
    (if k == 0 then 0 else Gaps(messages, k - 1)) + (if Orphaned(messages, k) then 1 else 0)
  }

  lemma {:induction false} GapsOfFront(messages: seq<Message>, n: nat, k: nat)
    requires k < n <= |messages|
    ensures Gaps(messages[..n], k) == Gaps(messages, k) <= k
  {
    if k > 0 { GapsOfFront(messages, n, k - 1); }
  }

  /**
   Message k of the input stands at k plus the placeholders before it, and a placeholder
   stands directly before it exactly where the reply was missing.
   */
  lemma {:induction false} RepairedAt(messages: seq<Message>, k: nat)
    requires k < |messages|
    ensures |Repaired(messages)| == |messages| + Gaps(messages, |messages| - 1)
    ensures k + Gaps(messages, k) < |Repaired(messages)|
    ensures Repaired(messages)[k + Gaps(messages, k)] == messages[k]
    ensures Orphaned(messages, k) ==> Repaired(messages)[k + Gaps(messages, k) - 1] == PLACEHOLDER
  {
    var last := |messages| - 1;
    var front := messages[..last];
    if last > 0 {
      RepairedAt(front, if k < last then k else last - 1);
      GapsOfFront(messages, last, last - 1);
      if k < last { GapsOfFront(messages, last, k); }
    }
  }

  /** Every place of the prompt is a message of the input or a placeholder before one. */
  lemma {:induction false} OnlyPlaceholdersAdded(messages: seq<Message>, p: nat) returns (k: nat)
    requires p < |Repaired(messages)|
    ensures k < |messages|
    ensures p == k + Gaps(messages, k) || (Orphaned(messages, k) && p == k + Gaps(messages, k) - 1)
  {
    var last := |messages| - 1;
    RepairedAt(messages, last);
    if p < |Repaired(messages[..last])| {
      k := OnlyPlaceholdersAdded(messages[..last], p);
      GapsOfFront(messages, last, k);
    } else {
      k := last;
      if last > 0 {
        RepairedAt(messages[..last], last - 1);
        GapsOfFront(messages, last, last - 1);
      }
    }
  }

  /** Where message k of the input stands in the repaired prompt. */
  function Place(messages: seq<Message>, k: nat): nat
    requires k < |messages|
  {
    k + Gaps(messages, k)
  }

  ghost predicate Taken(messages: seq<Message>, p: nat) {
    exists k :: 0 <= k < |messages| && p == Place(messages, k)
  }

  ghost predicate PlacesInOrder(messages: seq<Message>) {
    forall j, k :: 0 <= j < k < |messages| ==> Place(messages, j) < Place(messages, k)
  }

  ghost predicate PlacesHold(messages: seq<Message>, repaired: seq<Message>) {
    forall k :: 0 <= k < |messages| ==>
      Place(messages, k) < |repaired| && repaired[Place(messages, k)] == messages[k]
  }

  ghost predicate ElsewherePlaceholders(messages: seq<Message>, repaired: seq<Message>) {
    forall p :: 0 <= p < |repaired| && !Taken(messages, p) ==> repaired[p] == PLACEHOLDER
  }

  lemma Placed(messages: seq<Message>)
    ensures PlacesHold(messages, Repaired(messages))
  {
    forall k | 0 <= k < |messages|
      ensures Place(messages, k) < |Repaired(messages)| && Repaired(messages)[Place(messages, k)] == messages[k]
    {
      RepairedAt(messages, k);
    }
  }

  lemma NothingElse(messages: seq<Message>)
    ensures ElsewherePlaceholders(messages, Repaired(messages))
  {
    forall p | 0 <= p < |Repaired(messages)| && !Taken(messages, p) ensures Repaired(messages)[p] == PLACEHOLDER {
      PlaceholderElsewhere(messages, p);
    }
  }

  /**
   Taking the placeholders out again gives the trimmed window back: its messages stand in the
   prompt in their order, and everywhere else there is a placeholder.
   */
  lemma PlaceholdersRemoved(messages: seq<Message>)
    ensures PlacesInOrder(messages)
    ensures PlacesHold(messages, Repaired(messages)) && ElsewherePlaceholders(messages, Repaired(messages))
  {
    InOrder(messages);
    Placed(messages);
    NothingElse(messages);
  }

  lemma InOrder(messages: seq<Message>)
    ensures PlacesInOrder(messages)
  {
    forall j, k | 0 <= j < k < |messages| ensures Place(messages, j) < Place(messages, k) {
      GapsMonotone(messages, j, k);
    }
  }

  lemma PlaceholderElsewhere(messages: seq<Message>, p: nat)
    requires p < |Repaired(messages)|
    ensures Repaired(messages)[p] == PLACEHOLDER || Taken(messages, p)
  {
    var k := OnlyPlaceholdersAdded(messages, p);
    RepairedAt(messages, k);
    assert p == Place(messages, k) || Repaired(messages)[p] == PLACEHOLDER;
  }

  lemma {:induction false} GapsMonotone(messages: seq<Message>, j: nat, k: nat)
    requires j <= k < |messages|
    ensures Gaps(messages, j) <= Gaps(messages, k)
  {
    if j < k { GapsMonotone(messages, j, k - 1); }
  }

  lemma {:induction false} RepairedEnds(messages: seq<Message>)
    requires messages != []
    ensures Repaired(messages) != []
    ensures Repaired(messages)[0] == messages[0]
    ensures Repaired(messages)[|Repaired(messages)| - 1] == messages[|messages| - 1]
  {
    if |messages| > 1 { RepairedEnds(messages[..|messages| - 1]); }
  }

  /** No two user messages are adjacent, and two assistant messages only where the input had them. */
  lemma {:induction false} RepairedAlternation(messages: seq<Message>)
    ensures NoAdjacent(Repaired(messages), User)
    ensures NoAdjacent(Repaired(messages), Assistant) <==> NoAdjacent(messages, Assistant)
  {
    if messages != [] {
      var last := |messages| - 1;
      var front := messages[..last];
      RepairedAlternation(front);
      if front != [] {
        RepairedEnds(front);
        Snoc(messages, Assistant);
        var r := Repaired(front);
        assert r[|r| - 1] == messages[last - 1];
        if Orphaned(messages, last) {
          assert Repaired(messages) == r + [PLACEHOLDER] + [messages[last]];
          assert (r + [PLACEHOLDER])[|r|] == PLACEHOLDER;
          OneMore(r, PLACEHOLDER, User);
          OneMore(r, PLACEHOLDER, Assistant);
          OneMore(r + [PLACEHOLDER], messages[last], User);
          OneMore(r + [PLACEHOLDER], messages[last], Assistant);
        } else {
          assert Repaired(messages) == r + [messages[last]];
          OneMore(r, messages[last], User);
          OneMore(r, messages[last], Assistant);
        }
      }
    }
  }

  lemma OneMore(messages: seq<Message>, m: Message, role: Role)
    requires messages != []
    ensures NoAdjacent(messages + [m], role) <==>
            NoAdjacent(messages, role) && !(messages[|messages| - 1].role == role && m.role == role)
  {
    Snoc(messages + [m], role);
    assert (messages + [m])[..|messages|] == messages;
  }

  lemma Snoc(messages: seq<Message>, role: Role)
    requires |messages| > 1
    ensures
      var last := |messages| - 1;
      NoAdjacent(messages, role) <==>
        NoAdjacent(messages[..last], role) && !(messages[last - 1].role == role && messages[last].role == role)
  {
    var last := |messages| - 1;
    if NoAdjacent(messages[..last], role) && !(messages[last - 1].role == role && messages[last].role == role) {
      forall k | 0 <= k < last
        ensures !(messages[k].role == role && messages[k + 1].role == role)
      {
        if k < last - 1 {
          assert messages[..last][k] == messages[k] && messages[..last][k + 1] == messages[k + 1];
        }
      }
    }
    if NoAdjacent(messages, role) {
      assert messages[last - 1 + 1] == messages[last];
      forall k | 0 <= k < last - 1
        ensures !(messages[..last][k].role == role && messages[..last][k + 1].role == role)
      {
        assert messages[k + 1] == messages[..last][k + 1];
      }
    }
  }

  lemma {:induction false} TrimmedIsSuffix(messages: seq<Message>, user: nat) returns (n: nat)
    requires user < |messages| && messages[user].role == User
    ensures n <= user && Trimmed(messages) == messages[n..] && messages[n].role == User
    ensures forall k :: 0 <= k < n ==> messages[k].role == Assistant
  {
    if messages[0].role == User {
      n := 0;
    } else {
      n := TrimmedIsSuffix(messages[1..], user - 1);
      n := n + 1;
    }
  }

  /**
   For every stored history that ends in the new user row: the prompt starts and ends with
   a user message, has no two adjacent user messages, has at most 79 messages, and
   alternates strictly exactly when the trimmed window has no two adjacent replies.
   */
  lemma PromptIsValid(rows: seq<Message>)
    requires rows != [] && rows[|rows| - 1].role == User
    ensures
      var prompt := Repaired(Trimmed(Window(rows)));
      && prompt != []
      && prompt[0].role == User
      && prompt[|prompt| - 1] == rows[|rows| - 1]
      && NoAdjacent(prompt, User)
      && |prompt| <= 2 * MAX_HISTORY_MESSAGES - 1
      && (Alternates(prompt) <==> NoAdjacent(Trimmed(Window(rows)), Assistant))
  {
    var window := Window(rows);
    var n := TrimmedIsSuffix(window, |window| - 1);
    var messages := Trimmed(window);
    RepairedEnds(messages);
    RepairedAlternation(messages);
    RepairedAt(messages, |messages| - 1);
    GapsOfFront(messages, |messages|, |messages| - 1);
  }

  /** The bound is met: forty user rows without a single reply give 79 messages. */
  lemma {:induction false} LongestPrompt(rows: seq<Message>)
    requires |rows| > 0 && forall k :: 0 <= k < |rows| ==> rows[k].role == User
    ensures |Repaired(Trimmed(Window(rows)))| == 2 * |Window(rows)| - 1
  {
    var window := Window(rows);
    AllGaps(window, |window| - 1);
    RepairedAt(window, |window| - 1);
  }

  lemma {:induction false} AllGaps(messages: seq<Message>, k: nat)
    requires k < |messages| && forall j :: 0 <= j < |messages| ==> messages[j].role == User
    ensures Gaps(messages, k) == k
  {
    if k > 0 { AllGaps(messages, k - 1); }
  }

  /** Without the repair, an orphan anywhere in the trimmed window makes the prompt invalid. */
  lemma ProjectPromptExactly(rows: seq<Message>)
    requires rows != [] && rows[|rows| - 1].role == User
    ensures
      Trimmed(Window(rows)) == Repaired(Trimmed(Window(rows))) <==> NoAdjacent(Trimmed(Window(rows)), User)
  {
    var n := TrimmedIsSuffix(Window(rows), |Window(rows)| - 1);
    var messages := Trimmed(Window(rows));
    RepairedAlternation(messages);
    if NoAdjacent(messages, User) {
      NothingToRepair(messages);
    }
  }

  lemma {:induction false} NothingToRepair(messages: seq<Message>)
    requires NoAdjacent(messages, User)
    ensures Repaired(messages) == messages
  {
    if messages != [] {
      var last := |messages| - 1;
      if last > 0 {
        Snoc(messages, User);
        NothingToRepair(messages[..last]);
      }
      assert !Orphaned(messages, last);
      assert messages[..last] + [messages[last]] == messages;
    }
  }
}
