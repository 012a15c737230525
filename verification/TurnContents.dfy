/** What a turn's messages carry: what tools gave back, what the model said, and which resources changed. */
module TurnContents {
  import opened Conversation
  import opened TurnLoop

  // ---- what prefixes leave alone ----------------------------------------------------------------

  /** The same block but for the ids of tool uses and tool results. */
  predicate SameButIds(a: ContentBlock, b: ContentBlock)
    decreases a
  {
    match a
    case ToolUse(_, name, input) => b.ToolUse? && b.name == name && b.input == input
    case ToolResult(_, content, isError) =>
      && b.ToolResult? && b.isError == isError && |b.content| == |content|
      && forall i | 0 <= i < |content| :: SameButIds(content[i], b.content[i])
    case _ => a == b
  }

  predicate SameContent(a: seq<ContentBlock>, b: seq<ContentBlock>) {
    |a| == |b| && forall i | 0 <= i < |a| :: SameButIds(a[i], b[i])
  }

  lemma {:induction false} StripIsSame(provider: string, b: ContentBlock)
    ensures SameButIds(b, StripBlock(provider, b))
    decreases b
  {
    if b.ToolResult? {
      forall i | 0 <= i < |b.content| ensures SameButIds(b.content[i], StripBlock(provider, b.content[i])) {
        StripIsSame(provider, b.content[i]);
      }
    }
  }

  /** What is sent to a provider is the history but for ids: same messages, roles and blocks. */
  lemma StripChangesOnlyIds(provider: string, ms: seq<Message>)
    ensures |StripHistory(provider, ms)| == |ms|
    ensures forall i | 0 <= i < |ms| ::
              StripHistory(provider, ms)[i].role == ms[i].role
              && SameContent(ms[i].content, StripHistory(provider, ms)[i].content)
  {
    forall b ensures SameButIds(b, StripBlock(provider, b)) { StripIsSame(provider, b); }
  }

  lemma NamespaceChangesOnlyIds(provider: string, content: seq<ContentBlock>)
    ensures SameContent(content, Namespace(provider, content))
  {
    forall b: ContentBlock ensures SameButIds(b, b) { SameAsItself(b); }
  }

  lemma {:induction false} SameAsItself(b: ContentBlock)
    ensures SameButIds(b, b)
    decreases b
  {
    if b.ToolResult? {
      forall i | 0 <= i < |b.content| ensures SameButIds(b.content[i], b.content[i]) { SameAsItself(b.content[i]); }
    }
  }

  // ---- what tools gave back -----------------------------------------------------------------------

  predicate EndsWith(s: string, tail: string) { |tail| <= |s| && s[|s| - |tail|..] == tail }

  /** The block tells the model how its call went: the blocks of a dispatched tool and whether it failed,
      or, as an error, why the call was refused. */
  predicate Tells(b: ContentBlock, outcome: ToolOutcome) {
    && b.ToolResult?
    && match outcome
       case Done(blocks, _, isError) => SameContent(blocks, b.content) && b.isError == isError
       case Denied(reason) => b.isError && |b.content| == 1 && b.content[0].Text? && EndsWith(b.content[0].text, reason)
  }

  /** The record tells the caller of the turn the same. */
  predicate Records(r: ToolCall, use: ContentBlock, outcome: ToolOutcome)
    requires use.ToolUse?
  {
    && r.name == use.name && r.arguments == use.input
    && match outcome
       case Done(_, payload, isError) => r.result == payload && (r.status == Errored <==> isError)
       case Denied(reason) => r.status == Errored && EndsWith(r.result, reason)
  }

  /** Where the assistant message of iteration `j` stands in the working history; the message answering
      it is the next. */
  function AssistantAt(start: seq<Message>, provider: string, world: World, j: nat): nat
    requires forall i: nat :: i < j ==> Continues(world(i))
  {
    |Before(start, provider, world, j)| + |Injected(world(j).dirty)|
  }

  /** The two messages at `at` are what the model said in an iteration and what its tools gave back. */
  predicate RoundAt(ms: seq<Message>, at: nat, content: seq<ContentBlock>, tools: nat -> ToolOutcome) {
    && at + 1 < |ms|
    && ms[at].role == Role.Assistant && SameContent(content, ms[at].content)
    && ms[at + 1].role == Role.User && |ms[at + 1].content| == |ToolUses(content)|
    && forall k | 0 <= k < |ToolUses(content)| :: Tells(ms[at + 1].content[k], tools(k))
  }

  lemma RoundTells(provider: string, it: Iteration)
    requires Continues(it)
    ensures RoundAt(Round(provider, it), 0, it.call.content, it.tools)
  {
    var content := it.call.content;
    NamespaceChangesOnlyIds(provider, content);
    NamespaceUses(provider, content);
    var answers := Round(provider, it)[1].content;
    forall k | 0 <= k < |ToolUses(content)| ensures Tells(answers[k], it.tools(k)) {
      if it.tools(k).Done? { forall b: ContentBlock ensures SameButIds(b, b) { SameAsItself(b); } }
    }
  }

  lemma RoundAtBehind(front: seq<Message>, round: seq<Message>, content: seq<ContentBlock>, tools: nat -> ToolOutcome)
    requires |round| == 2 && RoundAt(round, 0, content, tools)
    ensures RoundAt(front + round, |front|, content, tools)
  {
    hide Tells, SameContent;
    assert (front + round)[|front|] == round[0] && (front + round)[|front| + 1] == round[1];
  }

  lemma RoundAtInFront(
    ms: seq<Message>, more: seq<Message>, at: nat, content: seq<ContentBlock>, tools: nat -> ToolOutcome)
    requires RoundAt(ms, at, content, tools)
    ensures RoundAt(ms + more, at, content, tools)
  {
    hide Tells, SameContent;
  }

  /** Every earlier iteration stands in the working history: what the model said and, for each tool use in
      order, what became of it. */
  lemma {:induction false} BeforeTells(start: seq<Message>, provider: string, world: World, i: nat, j: nat)
    requires j < i && forall k: nat :: k < i ==> Continues(world(k))
    ensures RoundAt(Before(start, provider, world, i), AssistantAt(start, provider, world, j), world(j).call.content,
                    world(j).tools)
    decreases i
  {
    hide RoundAt, Round, Injected;
    var it := world(i - 1);
    assert Continues(it);
    var front := Before(start, provider, world, i - 1) + Injected(it.dirty);
    if j == i - 1 {
      RoundTells(provider, it);
      TwoMessages(provider, it);
      RoundAtBehind(front, Round(provider, it), it.call.content, it.tools);
    } else {
      BeforeTells(start, provider, world, i - 1, j);
      var at := AssistantAt(start, provider, world, j);
      var content, tools := world(j).call.content, world(j).tools;
      RoundAtInFront(Before(start, provider, world, i - 1), Injected(it.dirty), at, content, tools);
      RoundAtInFront(front, Round(provider, it), at, content, tools);
    }
  }

  lemma TwoMessages(provider: string, it: Iteration)
    requires it.call.Response?
    ensures |Round(provider, it)| == 2
  {}

  /** So it is in what a turn commits, which ends with the model's last answer. */
  lemma CommitTells(start: seq<Message>, provider: string, world: World, n: nat, j: nat)
    requires (forall k: nat :: k < n ==> Continues(world(k))) && world(n).call.Response?
    ensures var out := Committed(start, provider, world, n);
            && out != [] && SameContent(world(n).call.content, out[|out| - 1].content)
            && (j < n ==> RoundAt(out, AssistantAt(start, provider, world, j), world(j).call.content, world(j).tools))
  {
    hide RoundAt, Injected, Before, SameContent;
    NamespaceChangesOnlyIds(provider, world(n).call.content);
    if j < n {
      BeforeTells(start, provider, world, n, j);
      var at, front := AssistantAt(start, provider, world, j), Before(start, provider, world, n);
      RoundAtInFront(front, Injected(world(n).dirty), at, world(j).call.content, world(j).tools);
      var last := [Message(Role.Assistant, Reply(provider, world(n)))];
      RoundAtInFront(front + Injected(world(n).dirty), last, at, world(j).call.content, world(j).tools);
    }
  }

  // ---- and in what the provider is sent --------------------------------------------------------------

  lemma {:induction false} SameChains(a: ContentBlock, b: ContentBlock, c: ContentBlock)
    requires SameButIds(a, b) && SameButIds(b, c)
    ensures SameButIds(a, c)
    decreases a
  {
    if a.ToolResult? {
      forall i | 0 <= i < |a.content| ensures SameButIds(a.content[i], c.content[i]) {
        SameChains(a.content[i], b.content[i], c.content[i]);
      }
    }
  }

  lemma ContentChains(a: seq<ContentBlock>, b: seq<ContentBlock>, c: seq<ContentBlock>)
    requires SameContent(a, b) && SameContent(b, c)
    ensures SameContent(a, c)
  {
    hide SameButIds;
    forall i | 0 <= i < |a| ensures SameButIds(a[i], c[i]) { SameChains(a[i], b[i], c[i]); }
  }

  lemma TellsSame(b: ContentBlock, b': ContentBlock, outcome: ToolOutcome)
    requires Tells(b, outcome) && SameButIds(b, b')
    ensures Tells(b', outcome)
  {
    if outcome.Done? { ContentChains(outcome.blocks, b.content, b'.content); }
  }

  /** Each request carries the earlier rounds of its turn too. */
  lemma RequestTells(start: seq<Message>, provider: string, world: World, i: nat, j: nat)
    requires j < i && forall k: nat :: k < i ==> Continues(world(k))
    ensures RoundAt(Request(start, provider, world, i), AssistantAt(start, provider, world, j), world(j).call.content,
                    world(j).tools)
  {
    hide Before, Injected, Tells, SameContent, SameButIds, StripHistory;
    var content, tools, at := world(j).call.content, world(j).tools, AssistantAt(start, provider, world, j);
    BeforeTells(start, provider, world, i, j);
    var work := Before(start, provider, world, i) + Injected(world(i).dirty);
    RoundAtInFront(Before(start, provider, world, i), Injected(world(i).dirty), at, content, tools);
    StripChangesOnlyIds(provider, work);
    var sent := StripHistory(provider, work);
    ContentChains(content, work[at].content, sent[at].content);
    AnswersSame(work[at + 1].content, sent[at + 1].content, |ToolUses(content)|, tools);
  }

  lemma AnswersSame(a: seq<ContentBlock>, b: seq<ContentBlock>, n: nat, tools: nat -> ToolOutcome)
    requires SameContent(a, b) && |a| == n && forall k | 0 <= k < n :: Tells(a[k], tools(k))
    ensures |b| == n && forall k | 0 <= k < n :: Tells(b[k], tools(k))
  {
    hide SameButIds, Tells;
    forall k | 0 <= k < n ensures Tells(b[k], tools(k)) { TellsSame(a[k], b[k], tools(k)); }
  }

  // ---- the result of a turn -------------------------------------------------------------------------------

  /** The records of a turn tell of every tool use of every iteration, in order. */
  lemma {:induction false} CallsTell(provider: string, world: World, i: nat, j: nat, k: nat)
    requires j < i && forall l: nat :: l < i ==> Continues(world(l))
    requires Continues(world(j)) && k < |ToolUses(world(j).call.content)|
    ensures var at := |CallsBefore(provider, world, j)| + k;
            && at < |CallsBefore(provider, world, i)|
            && Records(CallsBefore(provider, world, i)[at], ToolUses(world(j).call.content)[k], world(j).tools(k))
    decreases i
  {
    hide Records, CallRecords, Continues;
    assert Continues(world(i - 1)) ==> world(i - 1).call.Response? by { ContinuesResponds(world(i - 1)); }
    if j == i - 1 {
      IterationRecords(provider, world(j), k);
    } else {
      CallsTell(provider, world, i - 1, j, k);
    }
  }

  lemma ContinuesResponds(it: Iteration)
    ensures Continues(it) ==> it.call.Response?
  {}

  lemma IterationRecords(provider: string, it: Iteration, k: nat)
    requires it.call.Response? && k < |ToolUses(it.call.content)|
    ensures var records := CallRecords(ToolUses(Reply(provider, it)), it.tools); var uses := ToolUses(it.call.content);
            k < |records| && uses[k].ToolUse? && Records(records[k], uses[k], it.tools(k))
  {
    NamespaceUses(provider, it.call.content);
    assert ToolUses(it.call.content)[k] in ToolUses(it.call.content);
  }

  function Texts(content: seq<ContentBlock>): seq<string> {
    if content == [] then []
    else if content[0].Text? then [content[0].text] + Texts(content[1..])
    else Texts(content[1..])
  }

  function WithBreaks(texts: seq<string>): string {
    if texts == [] then "" else "\n" + texts[0] + WithBreaks(texts[1..])
  }

  /** The text of a turn: its first text block that is not empty, and each later one on a line of its own. */
  lemma {:induction false} TextIs(content: seq<ContentBlock>, k: nat)
    requires k <= |Texts(content)| && forall i | 0 <= i < k :: Texts(content)[i] == ""
    requires k < |Texts(content)| ==> Texts(content)[k] != ""
    ensures JoinText(content, "") ==
            if k == |Texts(content)| then "" else Texts(content)[k] + WithBreaks(Texts(content)[k + 1..])
    decreases |content|
  {
    if content != [] {
      var texts, rest := Texts(content), Texts(content[1..]);
      if !content[0].Text? {
        TextIs(content[1..], k);
      } else {
        assert texts[1..] == rest && texts[0] == content[0].text;
        if k > 0 {
          TextIs(content[1..], k - 1);
          if k < |texts| { assert texts[k + 1..] == rest[k..]; }
        } else {
          TextBehind(content[1..], content[0].text);
        }
      }
    }
  }

  lemma {:induction false} TextBehind(content: seq<ContentBlock>, buf: string)
    requires buf != ""
    ensures JoinText(content, buf) == buf + WithBreaks(Texts(content))
    decreases |content|
  {
    if content != [] {
      hide WithBreaks;
      var rest := Texts(content[1..]);
      if content[0].Text? {
        TextBehind(content[1..], buf + "\n" + content[0].text);
        BreakFirst(content[0].text, rest);
        Regroup(buf, "\n", content[0].text, WithBreaks(rest));
      } else {
        TextBehind(content[1..], buf);
      }
    } else {
      assert WithBreaks([]) == "" && buf + "" == buf;
    }
  }

  lemma BreakFirst(text: string, rest: seq<string>)
    ensures WithBreaks([text] + rest) == "\n" + text + WithBreaks(rest)
  {
    assert ([text] + rest)[1..] == rest;
  }

  lemma Regroup(a: string, b: string, c: string, d: string)
    ensures a + b + c + d == a + (b + c + d)
  {}

  /** A turn that ends well reports its provider calls, its tool calls and the text of the last answer. How it
      fails says why: the limit, a missing provider, a cancel with its reason or an abort, a
      panic, or the provider's own error. */
  lemma FailureSays(provider: string, world: World, limit: nat)
    ensures var n := StopsAt(world, limit, 0); var r := ResultOf(provider, world, limit, n);
            && (r == Err(LoopLimit(limit)) <==> forall i: nat :: i < limit ==> Continues(world(i)))
            && (n < limit ==>
                  var call := world(n).call;
                  && (r.Ok? <==> call.Response?)
                  && (r.Ok? ==> r.iterations == n + 1 && r.toolCalls == CallsBefore(provider, world, n))
                  && (r.Ok? ==> r.text == JoinText(call.content, ""))
                  && (r == Err(NoActiveProvider) <==> call == NotConnected)
                  && (forall reason :: call == CancelReceived(reason) ==> r == Err(Cancelled(reason)))
                  && (call == TaskAborted ==> r.Err? && r.error.Cancelled? && EndsWith(r.error.reason, provider))
                  && (r == Err(Panicked) <==> call == TaskPanicked)
                  && (forall error :: r == Err(ProviderError(error)) <==> call == Failed(error)))
  {}

  /** The message in front of a call names every resource that changed. */
  lemma {:induction false} NoticesName(dirty: seq<string>, k: nat)
    requires k < |dirty|
    ensures exists front, back :: Notices(dirty) == front + dirty[k] + back
    decreases |dirty|
  {
    var line := "[resource updated: " + dirty[0] + "]";
    if k == 0 {
      var back := if |dirty| == 1 then "]" else "]" + "\n" + Notices(dirty[1..]);
      assert Notices(dirty) == "[resource updated: " + dirty[0] + back;
    } else {
      NoticesName(dirty[1..], k - 1);
      var front, back :| Notices(dirty[1..]) == front + dirty[1..][k - 1] + back;
      assert Notices(dirty) == (line + "\n" + front) + dirty[k] + back;
    }
  }
}
