/** The subagent loop: a private history, one lease for the whole run, and no iteration limit. */
module Subagent {
  import opened Wrappers
  import opened Conversation
  import opened TurnLoop

  datatype SubCall = SubFailed(error: string) | SubResponse(content: seq<ContentBlock>, stop: StopReason)

  /** What a dispatched tool gives back. */
  datatype Outcome = Outcome(payload: string, isError: bool)

  datatype SubIteration = SubIteration(cancelled: bool, call: SubCall, tools: nat -> Outcome)

  type SubWorld = nat -> SubIteration

  /** `Running` is a run cut off by the end of the observed prefix: the loop itself has no bound. */
  datatype SubResult = Answer(text: string) | Stopped | EmptyOutput | Provider(error: string) | Running

  predicate SubContinues(it: SubIteration) {
    !it.cancelled && it.call.SubResponse? && it.call.stop == ToolUseStop && ToolUses(it.call.content) != []
  }

  function DispatchBlock(allowed: set<string>, use: ContentBlock, outcome: Outcome): ContentBlock
    requires use.ToolUse?
  {
    if use.name !in allowed then ToolResult(use.id, [Text(use.name + " not available to this subagent")], true)
    else ToolResult(use.id, [Text(outcome.payload)], outcome.isError)
  }

  function DispatchBlocks(allowed: set<string>, uses: seq<ContentBlock>, tools: nat -> Outcome): seq<ContentBlock>
    requires forall b <- uses :: b.ToolUse?
  {
    seq(|uses|, i requires 0 <= i < |uses| => DispatchBlock(allowed, uses[i], tools(i)))
  }

  /** The names that actually reach the registry, in order. */
  function Reached(allowed: set<string>, uses: seq<ContentBlock>): seq<string>
    requires forall b <- uses :: b.ToolUse?
  {
    if uses == [] then []
    else (if uses[0].name in allowed then [uses[0].name] else []) + Reached(allowed, uses[1..])
  }

  function SubRound(allowed: set<string>, it: SubIteration): seq<Message>
    requires it.call.SubResponse?
  {
    [Message(Role.Assistant, it.call.content),
     Message(User, DispatchBlocks(allowed, ToolUses(it.call.content), it.tools))]
  }

  /** The private history sent at iteration `i`. */
  function SubBefore(prompt: string, allowed: set<string>, world: SubWorld, i: nat): seq<Message>
    requires forall j: nat :: j < i ==> SubContinues(world(j))
  {
    if i == 0 then [Message(User, [Text(prompt)])]
    else
      assert SubContinues(world(i - 1));
      SubBefore(prompt, allowed, world, i - 1) + SubRound(allowed, world(i - 1))
  }

  /** How a run ends at iteration `it`, if it does. */
  function SubEnd(it: SubIteration): SubResult
    requires !SubContinues(it)
  {
    if it.cancelled then Stopped
    else match it.call
      case SubFailed(error) => Provider(error)
      case SubResponse(content, stop) =>
        // content decides: a ToolUse stop without a tool use ends the run like EndTurn
        if stop == EndTurn || stop == ToolUseStop then
          if JoinText(content, "") == "" then EmptyOutput else Answer(JoinText(content, ""))
        else Provider("subagent: unexpected stop_reason")
  }

  ghost predicate SubSent(requests: seq<seq<Message>>, prompt: string, allowed: set<string>, world: SubWorld) {
    && (forall j: nat :: j + 1 < |requests| ==> SubContinues(world(j)))
    && (forall i: nat :: i < |requests| ==> requests[i] == SubBefore(prompt, allowed, world, i))
  }

  method DispatchTools(allowed: set<string>, uses: seq<ContentBlock>, tools: nat -> Outcome)
    returns (results: seq<ContentBlock>, reached: seq<string>)
    requires forall b <- uses :: b.ToolUse?
    ensures results == DispatchBlocks(allowed, uses, tools)
    ensures reached == Reached(allowed, uses) && forall name <- reached :: name in allowed
  {
    results, reached := [], [];
    for i := 0 to |uses|
      invariant results == DispatchBlocks(allowed, uses[..i], tools)
      invariant reached == Reached(allowed, uses[..i]) && forall name <- reached :: name in allowed
    {
      assert uses[..i + 1] == uses[..i] + [uses[i]];
      ReachedSnoc(allowed, uses[..i], uses[i]);
      DispatchSnoc(allowed, uses[..i], uses[i], tools);
      if uses[i].name !in allowed {
        results := results + [ToolResult(uses[i].id, [Text(uses[i].name + " not available to this subagent")], true)];
      } else {
        reached := reached + [uses[i].name];
        results := results + [ToolResult(uses[i].id, [Text(tools(i).payload)], tools(i).isError)];
      }
    }
    assert uses[..|uses|] == uses;
  }

  lemma DispatchSnoc(allowed: set<string>, a: seq<ContentBlock>, u: ContentBlock, tools: nat -> Outcome)
    requires u.ToolUse? && forall b <- a :: b.ToolUse?
    ensures DispatchBlocks(allowed, a + [u], tools)
            == DispatchBlocks(allowed, a, tools) + [DispatchBlock(allowed, u, tools(|a|))]
  {
    var uses := a + [u];
    assert forall k | 0 <= k < |a| ::
             DispatchBlock(allowed, uses[k], tools(k)) == DispatchBlock(allowed, a[k], tools(k));
  }

  lemma {:induction false} ReachedSnoc(allowed: set<string>, a: seq<ContentBlock>, u: ContentBlock)
    requires u.ToolUse? && forall b <- a :: b.ToolUse?
    ensures Reached(allowed, a + [u]) == Reached(allowed, a) + if u.name in allowed then [u.name] else []
  {
    if a != [] {
      ReachedSnoc(allowed, a[1..], u);
      assert (a + [u])[1..] == a[1..] + [u];
    }
  }

  /** The outcome of the loop over the first `rounds` iterations of a world. */
  ghost predicate RunsAsWorld(r: SubResult, iterations: nat, requests: seq<seq<Message>>, prompt: string,
                              allowed: set<string>, world: SubWorld, rounds: nat) {
    && iterations <= rounds && (forall j: nat :: j < iterations ==> SubContinues(world(j)))
    && (r.Running? ==> iterations == rounds)
    && (!r.Running? ==> iterations < rounds && !SubContinues(world(iterations)) && r == SubEnd(world(iterations)))
    && SubSent(requests, prompt, allowed, world)
    && |requests| == if r.Running? || r.Stopped? then iterations else iterations + 1
  }

  method RunLoop(prompt: string, allowed: set<string>, world: SubWorld, rounds: nat)
    returns (r: SubResult, iterations: nat, requests: seq<seq<Message>>, reached: seq<string>)
    ensures RunsAsWorld(r, iterations, requests, prompt, allowed, world, rounds)
    ensures forall name <- reached :: name in allowed
  {
    hide SubBefore, SubSent, DispatchBlocks, Reached;
    NothingSent(prompt, allowed, world);
    var messages := [Message(User, [Text(prompt)])];
    iterations, requests, reached := 0, [], [];
    while iterations < rounds
      invariant iterations <= rounds && forall j: nat :: j < iterations ==> SubContinues(world(j))
      invariant messages == SubBefore(prompt, allowed, world, iterations)
      invariant |requests| == iterations && SubSent(requests, prompt, allowed, world)
      invariant forall name <- reached :: name in allowed
    {
      var it := world(iterations);
      if it.cancelled {
        return Stopped, iterations, requests, reached;
      }
      SendOne(requests, prompt, allowed, world, iterations);
      requests := requests + [messages];
      if it.call.SubFailed? {
        return Provider(it.call.error), iterations, requests, reached;
      }
      messages := messages + [Message(Role.Assistant, it.call.content)];
      var calls := ToolUses(it.call.content);
      if it.call.stop == EndTurn || (it.call.stop == ToolUseStop && calls == []) {
        var text := JoinText(it.call.content, "");
        r := if text == "" then EmptyOutput else Answer(text);
        return;
      }
      if it.call.stop != ToolUseStop {
        return Provider("subagent: unexpected stop_reason"), iterations, requests, reached;
      }
      var results, names := DispatchTools(allowed, calls, it.tools);
      reached := reached + names;
      messages := messages + [Message(User, results)];
      assert SubContinues(it);
      OneRound(prompt, allowed, world, iterations);
      iterations := iterations + 1;
    }
    r := Running;
  }

  lemma NothingSent(prompt: string, allowed: set<string>, world: SubWorld)
    ensures SubBefore(prompt, allowed, world, 0) == [Message(User, [Text(prompt)])]
    ensures SubSent([], prompt, allowed, world)
  {}

  lemma SendOne(requests: seq<seq<Message>>, prompt: string, allowed: set<string>, world: SubWorld, i: nat)
    requires |requests| == i && SubSent(requests, prompt, allowed, world)
    requires forall j: nat :: j < i ==> SubContinues(world(j))
    ensures SubSent(requests + [SubBefore(prompt, allowed, world, i)], prompt, allowed, world)
  {}

  lemma OneRound(prompt: string, allowed: set<string>, world: SubWorld, i: nat)
    requires forall j: nat :: j < i + 1 ==> SubContinues(world(j))
    ensures SubBefore(prompt, allowed, world, i + 1) ==
            SubBefore(prompt, allowed, world, i) + SubRound(allowed, world(i))
  {}

  /** Runs the subagent for as long as the first `rounds` iterations of its world last. The lease for
      the whole run is taken first; `leaseError` says that there is no provider to lease. */
  method RunSubagent(prompt: string, leaseError: Option<string>, allowed: set<string>, world: SubWorld, rounds: nat)
    returns (r: SubResult, iterations: nat, requests: seq<seq<Message>>, reached: seq<string>)
    ensures leaseError.Some? ==> r == Provider(leaseError.value) && iterations == 0 && requests == [] && reached == []
    ensures leaseError.None? ==> RunsAsWorld(r, iterations, requests, prompt, allowed, world, rounds)
    ensures forall name <- reached :: name in allowed
  {
    if leaseError.Some? {
      return Provider(leaseError.value), 0, [], [];
    }
    r, iterations, requests, reached := RunLoop(prompt, allowed, world, rounds);
  }

  /** Every request of a subagent, however long it runs, is a paired history. */
  lemma {:induction false} SubRequestsAnswered(prompt: string, allowed: set<string>, world: SubWorld, i: nat)
    requires forall j: nat :: j < i ==> SubContinues(world(j))
    ensures Answered(SubBefore(prompt, allowed, world, i))
  {
    if i == 0 {
      AnsweredOne(Message(User, [Text(prompt)]));
    } else {
      SubRequestsAnswered(prompt, allowed, world, i - 1);
      var it := world(i - 1);
      assert SubContinues(it);
      DispatchAnswers(allowed, it.call.content, it.tools);
      RoundPaired(it.call.content, SubRound(allowed, it)[1]);
      AnsweredConcat(SubBefore(prompt, allowed, world, i - 1), SubRound(allowed, it));
    }
  }

  lemma DispatchAnswers(allowed: set<string>, content: seq<ContentBlock>, tools: nat -> Outcome)
    ensures Answers(Message(User, DispatchBlocks(allowed, ToolUses(content), tools)), UseIds(content))
  {
    var uses := ToolUses(content);
    var results, ids := DispatchBlocks(allowed, uses, tools), UseIds(content);
    forall k | 0 <= k < |ids|
      ensures results[k].ToolResult? && results[k].toolUseId == ids[k]
    {
      assert results[k] == DispatchBlock(allowed, uses[k], tools(k));
    }
  }

  // ---- what the subagent is told, and what it tells ------------------------------------------------

  /** The block answers a use with the tool's own output, or, off the list, with an error naming the tool. */
  predicate SubAnswersUse(b: ContentBlock, use: ContentBlock, allowed: set<string>, outcome: Outcome)
    requires use.ToolUse?
  {
    && b.ToolResult? && |b.content| == 1 && b.content[0].Text?
    && if use.name in allowed then b.content[0].text == outcome.payload && b.isError == outcome.isError
       else b.isError && use.name <= b.content[0].text
  }

  /** Every earlier iteration stands in the private history, behind the prompt and in order. */
  lemma {:induction false} SubHistoryTells(prompt: string, allowed: set<string>, world: SubWorld, i: nat, j: nat)
    requires j < i && forall l: nat :: l < i ==> SubContinues(world(l))
    ensures |SubBefore(prompt, allowed, world, i)| == 1 + 2 * i && SubContinues(world(j))
    ensures var out, content := SubBefore(prompt, allowed, world, i), world(j).call.content;
            && out[0] == Message(User, [Text(prompt)])
            && out[1 + 2 * j] == Message(Role.Assistant, content)
            && out[2 + 2 * j].role == User && |out[2 + 2 * j].content| == |ToolUses(content)|
            && forall k | 0 <= k < |ToolUses(content)| ::
                 SubAnswersUse(out[2 + 2 * j].content[k], ToolUses(content)[k], allowed, world(j).tools(k))
    decreases i
  {
    hide SubAnswersUse;
    OneRound(prompt, allowed, world, i - 1);
    SubRoundTells(allowed, world(i - 1));
    if i > 1 {
      hide SubRound, SubContinues;
      SubHistoryTells(prompt, allowed, world, i - 1, if j < i - 1 then j else 0);
    }
  }

  lemma SubRoundTells(allowed: set<string>, it: SubIteration)
    requires SubContinues(it)
    ensures var out, uses := SubRound(allowed, it), ToolUses(it.call.content);
            && |out| == 2 && out[0] == Message(Role.Assistant, it.call.content)
            && out[1].role == User && |out[1].content| == |uses|
            && forall k | 0 <= k < |uses| :: SubAnswersUse(out[1].content[k], uses[k], allowed, it.tools(k))
  {}

  /** A run goes on exactly when it was not cancelled and the model stopped to use tools and asks for one. It
      answers exactly when it was not cancelled and the model ended its turn, by its stop reason or by
      asking for no tool, with some text; without text, and for any other stop reason, the run fails. */
  lemma SubEndSays(it: SubIteration)
    ensures SubContinues(it) <==>
            && !it.cancelled && it.call.SubResponse? && it.call.stop == ToolUseStop
            && exists b <- it.call.content :: b.ToolUse?
    ensures SubContinues(it) || var ended := it.call.SubResponse? && it.call.stop in {EndTurn, ToolUseStop};
            && (SubEnd(it) == Stopped <==> it.cancelled)
            && (forall text :: SubEnd(it) == Answer(text) <==>
                  !it.cancelled && ended && text != "" && text == JoinText(it.call.content, ""))
            && (SubEnd(it) == EmptyOutput <==> !it.cancelled && ended && JoinText(it.call.content, "") == "")
            && (SubEnd(it).Provider? <==> !it.cancelled && !ended)
            && (!it.cancelled && it.call.SubFailed? ==> SubEnd(it) == Provider(it.call.error))
  {
    if it.call.SubResponse? { UsesIff(it.call.content); }
  }

  lemma {:induction false} UsesIff(content: seq<ContentBlock>)
    ensures ToolUses(content) != [] <==> exists b <- content :: b.ToolUse?
    decreases |content|
  {
    if content != [] {
      UsesIff(content[1..]);
      assert content[0] in content && forall b <- content :: b == content[0] || b in content[1..];
      assert forall b <- content[1..] :: b in content;
    }
  }
}
