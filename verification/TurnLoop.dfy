/** One user turn: call the provider, run the tools it asks for, repeat, and commit. */
module TurnLoop {
  import opened Conversation

  // ---- the world a turn runs in ------------------------------------------------

  /** How one provider call ends. */
  datatype CallOutcome =
    | NotConnected
    | CancelReceived(reason: string)
    | TaskAborted
    | TaskPanicked
    | Failed(error: string)
    | Response(content: seq<ContentBlock>, stop: StopReason)

  /** How one requested tool call ends: refused by the gate, or dispatched. */
  datatype ToolOutcome = Denied(reason: string) | Done(blocks: seq<ContentBlock>, payload: string, isError: bool)

  /** What an iteration meets: resources updated since the last one, the call, and the outcome
      of each tool use in order. */
  datatype Iteration = Iteration(dirty: seq<string>, call: CallOutcome, tools: nat -> ToolOutcome)

  type World = nat -> Iteration

  // ---- what a turn produces ------------------------------------------------------

  datatype CallStatus = Succeeded | Errored

  datatype ToolCall = ToolCall(name: string, arguments: string, status: CallStatus, result: string)

  datatype TurnError =
    | LoopLimit(limit: nat)
    | NoActiveProvider
    | Cancelled(reason: string)
    | Panicked
    | ProviderError(error: string)

  datatype TurnResult = Ok(text: string, toolCalls: seq<ToolCall>, iterations: nat) | Err(error: TurnError)

  function ResultBlock(use: ContentBlock, outcome: ToolOutcome): ContentBlock
    requires use.ToolUse?
  {
    match outcome
    case Denied(reason) => ToolResult(use.id, [Text("denied by policy: " + reason)], true)
    case Done(blocks, _, isError) => ToolResult(use.id, blocks, isError)
  }

  function CallRecord(use: ContentBlock, outcome: ToolOutcome): ToolCall
    requires use.ToolUse?
  {
    match outcome
    case Denied(reason) => ToolCall(use.name, use.input, Errored, "denied by policy: " + reason)
    case Done(_, payload, isError) => ToolCall(use.name, use.input, if isError then Errored else Succeeded, payload)
  }

  function ResultBlocks(uses: seq<ContentBlock>, tools: nat -> ToolOutcome): seq<ContentBlock>
    requires forall b <- uses :: b.ToolUse?
  {
    seq(|uses|, i requires 0 <= i < |uses| => ResultBlock(uses[i], tools(i)))
  }

  function CallRecords(uses: seq<ContentBlock>, tools: nat -> ToolOutcome): seq<ToolCall>
    requires forall b <- uses :: b.ToolUse?
  {
    seq(|uses|, i requires 0 <= i < |uses| => CallRecord(uses[i], tools(i)))
  }

  function Notices(dirty: seq<string>): string
    requires dirty != []
  {
    var line := "[resource updated: " + dirty[0] + "]";
    if |dirty| == 1 then line else line + "\n" + Notices(dirty[1..])
  }

  function Injected(dirty: seq<string>): seq<Message> {
    if dirty == [] then [] else [Message(User, [Text(Notices(dirty))])]
  }

  function Joined(buf: string, text: string): string { if buf == "" then text else buf + "\n" + text }

  /** Text blocks joined by newlines; a leading run of empty ones leaves no newline behind. */
  function JoinText(content: seq<ContentBlock>, buf: string): string
    decreases |content|
  {
    if content == [] then buf
    else if !content[0].Text? then JoinText(content[1..], buf)
    else JoinText(content[1..], Joined(buf, content[0].text))
  }

  /** The iteration ends with tool uses to run, so the loop goes round again. */
  predicate Continues(it: Iteration) {
    it.call.Response? && ToolUses(it.call.content) != []
  }

  function Reply(provider: string, it: Iteration): seq<ContentBlock>
    requires it.call.Response?
  {
    Namespace(provider, it.call.content)
  }

  function Round(provider: string, it: Iteration): seq<Message>
    requires it.call.Response?
  {
    var content := Reply(provider, it);
    [Message(Role.Assistant, content), Message(User, ResultBlocks(ToolUses(content), it.tools))]
  }

  /** The working history at the start of iteration `i`. */
  function Before(start: seq<Message>, provider: string, world: World, i: nat): seq<Message>
    requires forall j: nat :: j < i ==> Continues(world(j))
  {
    if i == 0 then start
    else
      assert Continues(world(i - 1));
      Before(start, provider, world, i - 1) + Injected(world(i - 1).dirty) + Round(provider, world(i - 1))
  }

  function CallsBefore(provider: string, world: World, i: nat): seq<ToolCall>
    requires forall j: nat :: j < i ==> Continues(world(j))
  {
    if i == 0 then []
    else
      assert Continues(world(i - 1));
      CallsBefore(provider, world, i - 1) + CallRecords(ToolUses(Reply(provider, world(i - 1))), world(i - 1).tools)
  }

  /** What iteration `i` sends to the provider. */
  function Request(start: seq<Message>, provider: string, world: World, i: nat): seq<Message>
    requires forall j: nat :: j < i ==> Continues(world(j))
  {
    StripHistory(provider, Before(start, provider, world, i) + Injected(world(i).dirty))
  }

  /** The first iteration that does not go round again, or the limit. */
  function StopsAt(world: World, limit: nat, i: nat): (n: nat)
    requires i <= limit && forall j: nat :: j < i ==> Continues(world(j))
    ensures i <= n <= limit && (forall j: nat :: j < n ==> Continues(world(j))) && (n < limit ==> !Continues(world(n)))
    decreases limit - i
  {
    if i < limit && Continues(world(i)) then StopsAt(world, limit, i + 1) else i
  }

  function ErrorOf(provider: string, call: CallOutcome): TurnError
    requires !call.Response?
  {
    match call
    case NotConnected => NoActiveProvider
    case CancelReceived(reason) => Cancelled(reason)
    case TaskAborted => Cancelled("provider disconnected: " + provider)
    case TaskPanicked => Panicked
    case Failed(error) => ProviderError(error)
  }

  /** The history a successful turn commits. */
  function Committed(start: seq<Message>, provider: string, world: World, n: nat): seq<Message>
    requires (forall j: nat :: j < n ==> Continues(world(j))) && world(n).call.Response?
  {
    Before(start, provider, world, n) + Injected(world(n).dirty) + [Message(Role.Assistant, Reply(provider, world(n)))]
  }

  function ResultOf(provider: string, world: World, limit: nat, n: nat): TurnResult
    requires n <= limit && (forall j: nat :: j < n ==> Continues(world(j)))
  {
    if n == limit then Err(LoopLimit(limit))
    else if world(n).call.Response? then Ok(JoinText(world(n).call.content, ""), CallsBefore(provider, world, n), n + 1)
    else Err(ErrorOf(provider, world(n).call))
  }

  /** Request `i` is the paired-up history of iteration `i`, in the provider's own ids. */
  ghost predicate Sent(requests: seq<seq<Message>>, start: seq<Message>, provider: string, world: World) {
    && (forall j: nat :: j + 1 < |requests| ==> Continues(world(j)))
    && (forall i: nat :: i < |requests| ==> requests[i] == Request(start, provider, world, i))
  }

  // Unfoldings the turn loop steps through.

  lemma FirstIteration(start: seq<Message>, provider: string, world: World)
    ensures Before(start, provider, world, 0) == start && CallsBefore(provider, world, 0) == []
    ensures Sent([], start, provider, world)
  {}

  lemma OneIteration(start: seq<Message>, provider: string, world: World, limit: nat, i: nat)
    requires i < limit && forall j: nat :: j < i ==> Continues(world(j))
    ensures !Continues(world(i)) ==> StopsAt(world, limit, i) == i
    ensures Continues(world(i)) ==>
              && (forall j: nat :: j < i + 1 ==> Continues(world(j)))
              && StopsAt(world, limit, i) == StopsAt(world, limit, i + 1)
              && Before(start, provider, world, i + 1)
                 == Before(start, provider, world, i) + Injected(world(i).dirty) + Round(provider, world(i))
              && CallsBefore(provider, world, i + 1)
                 == CallsBefore(provider, world, i) + CallRecords(ToolUses(Reply(provider, world(i))), world(i).tools)
  {}

  lemma SentOneMore(requests: seq<seq<Message>>, start: seq<Message>, provider: string, world: World, i: nat)
    requires |requests| == i && Sent(requests, start, provider, world) && forall j: nat :: j < i ==> Continues(world(j))
    ensures var work := Before(start, provider, world, i) + Injected(world(i).dirty);
            Sent(requests + [StripHistory(provider, work)], start, provider, world)
  {}

  lemma AtLimit(world: World, limit: nat)
    requires forall j: nat :: j < limit ==> Continues(world(j))
    ensures StopsAt(world, limit, limit) == limit
  {}

  class Session {
    var messages: seq<Message>

    constructor ()
      ensures messages == []
    {
      messages := [];
    }

    /** Runs one turn on the provider the router picked. `requests` are the histories sent: one
        per iteration entered, except that a missing provider is noticed before anything is sent.
        Success commits the whole working history; any other exit leaves the history as it was. */
    method RunTurn(user: seq<ContentBlock>, provider: string, world: World, maxIterations: nat)
      returns (r: TurnResult, requests: seq<seq<Message>>)
      modifies this
      ensures var start := old(messages) + [Message(User, user)];
              var n := StopsAt(world, maxIterations, 0);
              && |requests| == (if n < maxIterations && !world(n).call.NotConnected? then n + 1 else n) <= maxIterations
              && Sent(requests, start, provider, world)
              && r == ResultOf(provider, world, maxIterations, n)
              && messages == if r.Ok? then Committed(start, provider, world, n) else old(messages)
    {
      hide StopsAt, Before, CallsBefore, Request, Injected, Round, Reply, Sent;
      var work := messages + [Message(User, user)];
      ghost var start := work;
      var toolCalls: seq<ToolCall> := [];
      var iterations: nat := 0;
      requests := [];
      FirstIteration(start, provider, world);
      while iterations < maxIterations
        invariant iterations <= maxIterations && forall j: nat :: j < iterations ==> Continues(world(j))
        invariant StopsAt(world, maxIterations, 0) == StopsAt(world, maxIterations, iterations)
        invariant work == Before(start, provider, world, iterations)
        invariant toolCalls == CallsBefore(provider, world, iterations)
        invariant |requests| == iterations && Sent(requests, start, provider, world)
        invariant messages == old(messages)
      {
        OneIteration(start, provider, world, maxIterations, iterations);
        var it := world(iterations);
        var injected := Inject(it.dirty);
        work := work + injected;
        if it.call.NotConnected? {
          return Err(NoActiveProvider), requests;
        }
        SentOneMore(requests, start, provider, world, iterations);
        requests := requests + [StripHistory(provider, work)];
        iterations := iterations + 1;
        if !it.call.Response? {
          return Err(ErrorOf(provider, it.call)), requests;
        }
        var finished, text, added, records := TakeResponse(provider, it);
        work := work + added;
        if finished {
          messages := work;
          return Ok(text, toolCalls, iterations), requests;
        }
        toolCalls := toolCalls + records;
      }
      AtLimit(world, maxIterations);
      r := Err(LoopLimit(maxIterations));
    }

    /** The user message that tells the model which resources changed, if any did. */
    static method Inject(dirty: seq<string>) returns (added: seq<Message>)
      ensures added == Injected(dirty)
    {
      added := [];
      if dirty != [] {
        added := [Message(User, [Text(Notices(dirty))])];
      }
    }

    /** Appends the assistant message and, if it asks for tools, runs them and appends their results. */
    static method TakeResponse(provider: string, it: Iteration)
      returns (finished: bool, text: string, added: seq<Message>, records: seq<ToolCall>)
      requires it.call.Response?
      ensures finished <==> !Continues(it)
      ensures text == JoinText(it.call.content, "")
      ensures added == if finished then [Message(Role.Assistant, Reply(provider, it))] else Round(provider, it)
      ensures records == CallRecords(ToolUses(Reply(provider, it)), it.tools)
    {
      var namespaced := Namespace(provider, it.call.content);
      SameUseCount(provider, it.call.content);
      JoinNamespaced(provider, it.call.content, "");
      var uses := ToolUses(namespaced);
      finished, text, records := uses == [], JoinText(namespaced, ""), [];
      added := [Message(Role.Assistant, namespaced)];
      if !finished {
        var results;
        results, records := RunTools(uses, it.tools);
        added := added + [Message(User, results)];
      }
    }

    /** Runs the requested tools one after the other. */
    static method RunTools(uses: seq<ContentBlock>, tools: nat -> ToolOutcome)
      returns (results: seq<ContentBlock>, records: seq<ToolCall>)
      requires forall b <- uses :: b.ToolUse?
      ensures results == ResultBlocks(uses, tools) && records == CallRecords(uses, tools)
    {
      results, records := [], [];
      for i := 0 to |uses|
        invariant results == ResultBlocks(uses[..i], tools)
        invariant records == CallRecords(uses[..i], tools)
      {
        match tools(i) {
          case Denied(reason) =>
            var payload := "denied by policy: " + reason;
            results := results + [ToolResult(uses[i].id, [Text(payload)], true)];
            records := records + [ToolCall(uses[i].name, uses[i].input, Errored, payload)];
          case Done(blocks, payload, isError) =>
            results := results + [ToolResult(uses[i].id, blocks, isError)];
            var status := if isError then Errored else Succeeded;
            records := records + [ToolCall(uses[i].name, uses[i].input, status, payload)];
        }
      }
      assert uses[..|uses|] == uses;
    }
  }

  lemma SameUseCount(provider: string, content: seq<ContentBlock>)
    ensures ToolUses(Namespace(provider, content)) == [] <==> ToolUses(content) == []
  {
    NamespaceUses(provider, content);
  }

  lemma {:induction false} JoinNamespaced(provider: string, content: seq<ContentBlock>, buf: string)
    ensures JoinText(Namespace(provider, content), buf) == JoinText(content, buf)
    decreases |content|
  {
    if content != [] {
      assert Namespace(provider, content)[1..] == Namespace(provider, content[1..]);
      JoinNamespaced(provider, content[1..], if content[0].Text? then Joined(buf, content[0].text) else buf);
    }
  }

  // ---- pairing -----------------------------------------------------------------------

  lemma ResultsAnswer(content: seq<ContentBlock>, tools: nat -> ToolOutcome)
    ensures Answers(Message(User, ResultBlocks(ToolUses(content), tools)), UseIds(content))
  {
    var uses := ToolUses(content);
    var results, ids := ResultBlocks(uses, tools), UseIds(content);
    forall k | 0 <= k < |ids|
      ensures results[k].ToolResult? && results[k].toolUseId == ids[k]
    {
      assert results[k] == ResultBlock(uses[k], tools(k));
    }
  }

  lemma RoundIsPaired(provider: string, it: Iteration)
    requires Continues(it)
    ensures Answered(Round(provider, it))
    ensures !HasResults(Message(Role.Assistant, it.call.content)) ==> Expected(Round(provider, it))
  {
    var content := Reply(provider, it);
    NamespaceUses(provider, it.call.content);
    ResultsAnswer(content, it.tools);
    RoundPaired(content, Round(provider, it)[1]);
    if HasResults(Message(Role.Assistant, content)) {
      var b :| b in content && b.ToolResult?;
      var i :| 0 <= i < |content| && content[i] == b;
      assert it.call.content[i] in it.call.content && it.call.content[i].ToolResult?;
    }
  }

  lemma InjectedIsPaired(dirty: seq<string>)
    ensures Answered(Injected(dirty)) && Expected(Injected(dirty))
  {}

  /** At the start of every iteration the working history is paired. */
  lemma {:induction false} BeforeAnswered(start: seq<Message>, provider: string, world: World, i: nat)
    requires Answered(start) && forall j: nat :: j < i ==> Continues(world(j))
    ensures Answered(Before(start, provider, world, i))
  {
    if i > 0 {
      BeforeAnswered(start, provider, world, i - 1);
      var h, inj := Before(start, provider, world, i - 1), Injected(world(i - 1).dirty);
      InjectedIsPaired(world(i - 1).dirty);
      AnsweredConcat(h, inj);
      RoundIsPaired(provider, world(i - 1));
      AnsweredConcat(h + inj, Round(provider, world(i - 1)));
    }
  }

  /** Responses carry no tool results of their own. */
  ghost predicate CleanResponses(world: World) {
    forall i: nat :: world(i).call.Response? ==> !HasResults(Message(Role.Assistant, world(i).call.content))
  }

  lemma {:induction false} BeforeExpected(start: seq<Message>, provider: string, world: World, i: nat)
    requires Expected(start) && CleanResponses(world) && forall j: nat :: j < i ==> Continues(world(j))
    ensures Expected(Before(start, provider, world, i))
  {
    if i > 0 {
      BeforeExpected(start, provider, world, i - 1);
      var h, inj := Before(start, provider, world, i - 1), Injected(world(i - 1).dirty);
      InjectedIsPaired(world(i - 1).dirty);
      ExpectedConcat(h, inj);
      RoundIsPaired(provider, world(i - 1));
      ExpectedConcat(h + inj, Round(provider, world(i - 1)));
    }
  }

  /** Every request sent to the provider is a paired history. */
  lemma RequestsAnswered(history: seq<Message>, user: seq<ContentBlock>, provider: string, world: World, i: nat)
    requires Answered(history) && forall j: nat :: j < i ==> Continues(world(j))
    ensures Answered(Request(history + [Message(User, user)], provider, world, i))
  {
    var start := history + [Message(User, user)];
    AnsweredOne(Message(User, user));
    AnsweredConcat(history, [Message(User, user)]);
    BeforeAnswered(start, provider, world, i);
    InjectedIsPaired(world(i).dirty);
    AnsweredConcat(Before(start, provider, world, i), Injected(world(i).dirty));
    StripKeepsAnswered(provider, Before(start, provider, world, i) + Injected(world(i).dirty));
  }

  /** A successful turn commits the old history, the user message and paired rounds, and ends
      with an assistant message that asks for no tool. */
  lemma CommitIsPaired(history: seq<Message>, user: seq<ContentBlock>, provider: string, world: World, n: nat)
    requires Answered(history) && forall j: nat :: j < n ==> Continues(world(j))
    requires world(n).call.Response? && !Continues(world(n))
    ensures var out := Committed(history + [Message(User, user)], provider, world, n);
            && Answered(out)
            && history + [Message(User, user)] <= out
            && out[|out| - 1].role == Role.Assistant && ToolUses(out[|out| - 1].content) == []
            && (Expected(history) && !HasResults(Message(User, user)) && CleanResponses(world) ==> Expected(out))
  {
    var start := history + [Message(User, user)];
    var front := Before(start, provider, world, n) + Injected(world(n).dirty);
    var last := Message(Role.Assistant, Reply(provider, world(n)));
    NamespaceUses(provider, world(n).call.content);
    AnsweredOne(Message(User, user));
    AnsweredConcat(history, [Message(User, user)]);
    BeforeAnswered(start, provider, world, n);
    InjectedIsPaired(world(n).dirty);
    AnsweredConcat(Before(start, provider, world, n), Injected(world(n).dirty));
    AnsweredOne(last);
    AnsweredConcat(front, [last]);
    BeforeExtends(start, provider, world, n);
    if Expected(history) && !HasResults(Message(User, user)) && CleanResponses(world) {
      ExpectedOne(Message(User, user));
      ExpectedConcat(history, [Message(User, user)]);
      BeforeExpected(start, provider, world, n);
      ExpectedConcat(Before(start, provider, world, n), Injected(world(n).dirty));
      NamespacedHasNoResults(provider, world(n).call.content);
      ExpectedOne(last);
      ExpectedConcat(front, [last]);
    }
  }

  lemma NamespacedHasNoResults(provider: string, content: seq<ContentBlock>)
    requires !HasResults(Message(Role.Assistant, content))
    ensures !HasResults(Message(Role.Assistant, Namespace(provider, content)))
  {
    forall b <- Namespace(provider, content) ensures !b.ToolResult?
    {
      var i :| 0 <= i < |content| && Namespace(provider, content)[i] == b;
      assert content[i] in content;
    }
  }

  lemma {:induction false} BeforeExtends(start: seq<Message>, provider: string, world: World, i: nat)
    requires forall j: nat :: j < i ==> Continues(world(j))
    ensures start <= Before(start, provider, world, i)
  {
    if i > 0 { BeforeExtends(start, provider, world, i - 1); }
  }

  // ---- overlapping turns ----------------------------------------------------------------

  /** Turns copy the history when they start and write theirs over it when they commit; the
      history can also be cleared or replaced by a loaded transcript in between. */
  datatype Sessions = Sessions(messages: seq<Message>, snapshots: map<nat, seq<Message>>)

  datatype SessionStep =
    | Begin(turn: nat)
    | Commit(turn: nat, user: seq<ContentBlock>, provider: string, world: World, limit: nat)
    | Clear
    | Load(transcript: seq<Message>)

  predicate Commits(s: Sessions, step: SessionStep) {
    step.Commit? && step.turn in s.snapshots
    && var n := StopsAt(step.world, step.limit, 0); n < step.limit && step.world(n).call.Response?
  }

  function NextSessions(s: Sessions, step: SessionStep): Sessions {
    match step
    case Begin(t) => s.(snapshots := s.snapshots[t := s.messages])
    case Commit(t, user, provider, world, limit) =>
      if Commits(s, step) then
        var history := s.snapshots[t] + [Message(User, user)];
        Sessions(Committed(history, provider, world, StopsAt(world, limit, 0)), s.snapshots - {t})
      else s.(snapshots := s.snapshots - {t})
    case Clear => s.(messages := [])
    case Load(transcript) => s.(messages := transcript)
  }

  ghost predicate SessionsPaired(s: Sessions) {
    Answered(s.messages) && forall t <- s.snapshots :: Answered(s.snapshots[t])
  }

  /** However turns overlap, the shared history stays paired. */
  lemma OverlapKeepsPairing(s: Sessions, step: SessionStep)
    requires SessionsPaired(s) && (step.Load? ==> Answered(step.transcript))
    ensures SessionsPaired(NextSessions(s, step))
  {
    if Commits(s, step) {
      CommitIsPaired(s.snapshots[step.turn], step.user, step.provider, step.world, StopsAt(step.world, step.limit, 0));
    }
  }

  function RunSessions(s: Sessions, steps: seq<SessionStep>): Sessions
    decreases |steps|
  {
    if steps == [] then s else RunSessions(NextSessions(s, steps[0]), steps[1..])
  }

  /** So it is over any run from an empty session in which only paired transcripts are loaded. */
  lemma {:induction false} OverlapRunIsPaired(s: Sessions, steps: seq<SessionStep>)
    requires SessionsPaired(s) && forall step <- steps :: step.Load? ==> Answered(step.transcript)
    ensures SessionsPaired(RunSessions(s, steps))
    decreases |steps|
  {
    hide NextSessions, SessionsPaired;
    if steps != [] {
      assert steps[0] in steps && forall step <- steps[1..] :: step in steps;
      OverlapKeepsPairing(s, steps[0]);
      OverlapRunIsPaired(NextSessions(s, steps[0]), steps[1..]);
    }
  }

  /** Steps of other turns, clearing and loading leave a turn's snapshot alone. */
  lemma {:induction false} SnapshotStays(s: Sessions, steps: seq<SessionStep>, t: nat)
    requires t in s.snapshots
    requires forall step <- steps :: !((step.Begin? || step.Commit?) && step.turn == t)
    ensures t in RunSessions(s, steps).snapshots && RunSessions(s, steps).snapshots[t] == s.snapshots[t]
    decreases |steps|
  {
    if steps != [] {
      assert steps[0] in steps && forall step <- steps[1..] :: step in steps;
      assert t in NextSessions(s, steps[0]).snapshots && NextSessions(s, steps[0]).snapshots[t] == s.snapshots[t];
      hide NextSessions;
      SnapshotStays(NextSessions(s, steps[0]), steps[1..], t);
    }
  }

  /** Whatever other turns commit, and whatever is cleared or loaded, while a turn runs, its own commit
      is built on the history it began from, and all of that is gone. */
  lemma MeanwhileIsLost(s: Sessions, meanwhile: seq<SessionStep>, commit: SessionStep)
    requires commit.Commit? && forall step <- meanwhile :: !((step.Begin? || step.Commit?) && step.turn == commit.turn)
    requires Commits(RunSessions(NextSessions(s, Begin(commit.turn)), meanwhile), commit)
    ensures NextSessions(RunSessions(NextSessions(s, Begin(commit.turn)), meanwhile), commit).messages ==
            NextSessions(NextSessions(s, Begin(commit.turn)), commit).messages
    ensures s.messages <= NextSessions(NextSessions(s, Begin(commit.turn)), commit).messages
  {
    hide RunSessions, Committed, StopsAt;
    var begun := NextSessions(s, Begin(commit.turn));
    SnapshotStays(begun, meanwhile, commit.turn);
    LastCommitWins(begun, commit, begun.messages);
  }

  /** A commit extends the history its turn began from, and overwrites whatever the shared
      history has become meanwhile: of two overlapping turns only the later commit survives. */
  lemma LastCommitWins(s: Sessions, step: SessionStep, meanwhile: seq<Message>)
    requires Commits(s, step)
    ensures s.snapshots[step.turn] <= NextSessions(s, step).messages
    ensures NextSessions(s.(messages := meanwhile), step) == NextSessions(s, step)
  {
    var n := StopsAt(step.world, step.limit, 0);
    BeforeExtends(s.snapshots[step.turn] + [Message(User, step.user)], step.provider, step.world, n);
  }
}
