/** Messages, tool-use pairing, and the provider prefixes on tool-use ids. */
module Conversation {
  import opened Wrappers

  datatype Role = User | Assistant

  datatype ContentBlock =
    | Text(text: string)
    | ToolUse(id: string, name: string, input: string)
    | ToolResult(toolUseId: string, content: seq<ContentBlock>, isError: bool)
    | Html(source: string, state: Option<string>)
    | Media(data: string)

  datatype Message = Message(role: Role, content: seq<ContentBlock>)

  datatype StopReason = EndTurn | ToolUseStop | MaxTokens | StopSequence | Refusal | OtherStop

  /** The ToolUse blocks of a message, in order. */
  function ToolUses(content: seq<ContentBlock>): (uses: seq<ContentBlock>)
    ensures forall b <- uses :: b.ToolUse?
  {
    if content == [] then []
    else if content[0].ToolUse? then [content[0]] + ToolUses(content[1..])
    else ToolUses(content[1..])
  }

  function UseIds(content: seq<ContentBlock>): (ids: seq<string>)
    ensures |ids| == |ToolUses(content)|
  {
    var uses := ToolUses(content);
    seq(|uses|, i requires 0 <= i < |uses| => uses[i].id)
  }

  // ---- pairing ------------------------------------------------------------

  /** `m` answers exactly the tool uses `ids`: one result each, in the same order, nothing else. */
  predicate Answers(m: Message, ids: seq<string>) {
    && m.role == User
    && |m.content| == |ids|
    && forall k :: 0 <= k < |ids| ==> m.content[k].ToolResult? && m.content[k].toolUseId == ids[k]
  }

  predicate AnsweredAt(ms: seq<Message>, i: nat)
    requires i < |ms|
  {
    ms[i].role == Assistant && UseIds(ms[i].content) != [] ==>
      i + 1 < |ms| && Answers(ms[i + 1], UseIds(ms[i].content))
  }

  /** Every assistant message with tool uses is followed at once by the message answering them. */
  predicate Answered(ms: seq<Message>) {
    forall i | 0 <= i < |ms| :: AnsweredAt(ms, i)
  }

  predicate HasResults(m: Message) {
    exists b <- m.content :: b.ToolResult?
  }

  predicate ExpectedAt(ms: seq<Message>, i: nat)
    requires i < |ms|
  {
    HasResults(ms[i]) ==> i > 0 && ms[i - 1].role == Assistant && Answers(ms[i], UseIds(ms[i - 1].content))
  }

  /** No tool result stands anywhere but right after the tool uses it answers. */
  predicate Expected(ms: seq<Message>) {
    forall i | 0 <= i < |ms| :: ExpectedAt(ms, i)
  }

  lemma AnsweredConcat(a: seq<Message>, b: seq<Message>)
    requires Answered(a) && Answered(b)
    ensures Answered(a + b)
  {
    var ms := a + b;
    forall i | 0 <= i < |ms| ensures AnsweredAt(ms, i)
    {
      if i < |a| {
        assert AnsweredAt(a, i) && ms[i] == a[i];
        if i + 1 < |a| { assert ms[i + 1] == a[i + 1]; }
      } else {
        assert AnsweredAt(b, i - |a|) && ms[i] == b[i - |a|];
        if i + 1 < |ms| { assert ms[i + 1] == b[i + 1 - |a|]; }
      }
    }
  }

  lemma ExpectedConcat(a: seq<Message>, b: seq<Message>)
    requires Expected(a) && Expected(b)
    ensures Expected(a + b)
  {
    var ms := a + b;
    forall i | 0 <= i < |ms| ensures ExpectedAt(ms, i)
    {
      if i < |a| {
        assert ExpectedAt(a, i) && ms[i] == a[i];
        if i > 0 { assert ms[i - 1] == a[i - 1]; }
      } else {
        assert ExpectedAt(b, i - |a|) && ms[i] == b[i - |a|];
        if i > |a| { assert ms[i - 1] == b[i - 1 - |a|]; }
      }
    }
  }

  lemma AnsweredOne(m: Message)
    requires m.role == User || ToolUses(m.content) == []
    ensures Answered([m])
  {}

  lemma ExpectedOne(m: Message)
    requires !HasResults(m)
    ensures Expected([m])
  {}

  /** A round: the assistant's tool uses and the message with their results. */
  lemma RoundPaired(content: seq<ContentBlock>, results: Message)
    requires Answers(results, UseIds(content)) && ToolUses(content) != []
    ensures Answered([Message(Assistant, content), results])
    ensures !HasResults(Message(Assistant, content)) ==> Expected([Message(Assistant, content), results])
  {
    var ms := [Message(Assistant, content), results];
    assert AnsweredAt(ms, 0) && AnsweredAt(ms, 1);
  }

  // ---- provider prefixes ----------------------------------------------------

  function Prefix(provider: string): string { provider + ":" }

  function NamespaceId(provider: string, id: string): string {
    if ':' in id then id else Prefix(provider) + id
  }

  function StripId(provider: string, id: string): string {
    if Prefix(provider) <= id then id[|Prefix(provider)|..] else id
  }

  function NamespaceBlock(provider: string, b: ContentBlock): ContentBlock {
    if b.ToolUse? then b.(id := NamespaceId(provider, b.id)) else b
  }

  function Namespace(provider: string, content: seq<ContentBlock>): seq<ContentBlock> {
    seq(|content|, i requires 0 <= i < |content| => NamespaceBlock(provider, content[i]))
  }

  function StripBlock(provider: string, b: ContentBlock): ContentBlock
    decreases b
  {
    match b
    case ToolUse(id, _, _) => b.(id := StripId(provider, id))
    case ToolResult(id, content, isError) =>
      ToolResult(StripId(provider, id),
                 seq(|content|, i requires 0 <= i < |content| => StripBlock(provider, content[i])), isError)
    case _ => b
  }

  function StripContent(provider: string, content: seq<ContentBlock>): seq<ContentBlock> {
    seq(|content|, i requires 0 <= i < |content| => StripBlock(provider, content[i]))
  }

  /** The history as the provider it is sent to sees it. */
  function StripHistory(provider: string, ms: seq<Message>): seq<Message> {
    seq(|ms|, i requires 0 <= i < |ms| => Message(ms[i].role, StripContent(provider, ms[i].content)))
  }

  lemma {:induction false} NamespaceUses(provider: string, content: seq<ContentBlock>)
    ensures |ToolUses(Namespace(provider, content))| == |ToolUses(content)|
    ensures forall k :: 0 <= k < |ToolUses(content)| ==>
              ToolUses(Namespace(provider, content))[k] == NamespaceBlock(provider, ToolUses(content)[k])
  {
    if content != [] {
      NamespaceUses(provider, content[1..]);
      assert Namespace(provider, content)[1..] == Namespace(provider, content[1..]);
    }
  }

  lemma {:induction false} StripUses(provider: string, content: seq<ContentBlock>)
    ensures |ToolUses(StripContent(provider, content))| == |ToolUses(content)|
    ensures forall k :: 0 <= k < |ToolUses(content)| ==>
              ToolUses(StripContent(provider, content))[k] == StripBlock(provider, ToolUses(content)[k])
  {
    if content != [] {
      StripUses(provider, content[1..]);
      assert StripContent(provider, content)[1..] == StripContent(provider, content[1..]);
    }
  }

  lemma StripIds(provider: string, content: seq<ContentBlock>)
    ensures var ids, stripped := UseIds(content), UseIds(StripContent(provider, content));
            |stripped| == |ids| && forall k :: 0 <= k < |ids| ==> stripped[k] == StripId(provider, ids[k])
  {
    hide ToolUses, StripId, StripContent;
    StripUses(provider, content);
    var uses, uses' := ToolUses(content), ToolUses(StripContent(provider, content));
    forall k | 0 <= k < |uses| ensures uses'[k].id == StripId(provider, uses[k].id) {
      assert uses[k] in uses && uses'[k] == StripBlock(provider, uses[k]);
    }
  }

  lemma StripAnswer(provider: string, m: Message, ids: seq<string>, stripped: seq<string>)
    requires Answers(m, ids) && |stripped| == |ids|
    requires forall k :: 0 <= k < |ids| ==> stripped[k] == StripId(provider, ids[k])
    ensures Answers(Message(m.role, StripContent(provider, m.content)), stripped)
  {
    hide StripId;
  }

  /** Stripping a paired history leaves it paired: uses and results lose the prefix alike. */
  lemma StripKeepsAnswered(provider: string, ms: seq<Message>)
    requires Answered(ms)
    ensures Answered(StripHistory(provider, ms))
  {
    hide UseIds, StripContent, Answers;
    var out := StripHistory(provider, ms);
    forall i | 0 <= i < |out| ensures AnsweredAt(out, i)
    {
      assert AnsweredAt(ms, i);
      StripIds(provider, ms[i].content);
      if ms[i].role == Assistant && UseIds(ms[i].content) != [] {
        StripAnswer(provider, ms[i + 1], UseIds(ms[i].content), UseIds(out[i].content));
      }
    }
  }

  /** The provider sees the id it issued, unless that id already began with its own prefix. */
  lemma StripUndoesNamespaceIff(provider: string, id: string)
    ensures StripId(provider, NamespaceId(provider, id)) == id <==> !(Prefix(provider) <= id)
  {
    if Prefix(provider) <= id {
      assert id[|provider|] == ':';
    } else if ':' !in id {
      assert Prefix(provider) <= Prefix(provider) + id;
      assert (Prefix(provider) + id)[|Prefix(provider)|..] == id;
    }
  }

  /** Two ids stay apart unless one is the other with the provider's prefix already on it. */
  lemma NamespaceCollidesIff(provider: string, a: string, b: string)
    ensures NamespaceId(provider, a) == NamespaceId(provider, b)
            <==> a == b || (':' !in a && b == Prefix(provider) + a) || (':' !in b && a == Prefix(provider) + b)
  {
    var p := Prefix(provider);
    assert ':' in p by { assert p[|provider|] == ':'; }
    assert ':' in p + a && ':' in p + b;
    assert (p + a)[|p|..] == a && (p + b)[|p|..] == b;
  }
}
