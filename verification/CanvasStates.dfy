/** What the user did in canvases is saved with the history. The interface numbers canvases as they are
    streamed; the host writes the state of number k into the k-th canvas of the history. */
module CanvasStates {
  import opened Wrappers
  import opened Conversation

  /** A canvas in the history: its source and the state saved with it. */
  datatype Canvas = Canvas(source: string, state: Option<string>)

  /** The canvases at the top level of a message; those inside tool results do not count. */
  function CanvasesIn(content: seq<ContentBlock>): seq<Canvas> {
    if content == [] then [] else CanvasesIn(content[..|content| - 1]) + CanvasOf(content[|content| - 1])
  }

  function CanvasOf(b: ContentBlock): seq<Canvas> { if b.Html? then [Canvas(b.source, b.state)] else [] }

  function Canvases(ms: seq<Message>): seq<Canvas> {
    if ms == [] then [] else Canvases(ms[..|ms| - 1]) + CanvasesIn(ms[|ms| - 1].content)
  }

  lemma CanvasesInUpTo(content: seq<ContentBlock>, j: nat)
    requires j < |content|
    ensures CanvasesIn(content[..j + 1]) == CanvasesIn(content[..j]) + CanvasOf(content[j])
  {
    assert content[..j + 1][..j] == content[..j];
  }

  lemma CanvasesUpTo(ms: seq<Message>, i: nat)
    requires i < |ms|
    ensures Canvases(ms[..i + 1]) == Canvases(ms[..i]) + CanvasesIn(ms[i].content)
  {
    assert ms[..i + 1][..i] == ms[..i];
  }

  // ---- writing the states ---------------------------------------------------------------------

  /** Of several states with one number the last counts. */
  function ByOrdinal(states: seq<(nat, string)>): map<nat, string> {
    if states == [] then map[]
    else
      var (k, blob) := states[|states| - 1];
      ByOrdinal(states[..|states| - 1])[k := blob]
  }

  /** What becomes of block `j` of a message with `base` canvases in front of it. */
  function StatedAt(blobs: map<nat, string>, base: nat, content: seq<ContentBlock>, j: nat): ContentBlock
    requires j < |content|
  {
    var n := base + |CanvasesIn(content[..j])|;
    if content[j].Html? && n in blobs then content[j].(state := Some(blobs[n])) else content[j]
  }

  function StatedContent(blobs: map<nat, string>, base: nat, content: seq<ContentBlock>): seq<ContentBlock> {
    seq(|content|, j requires 0 <= j < |content| => StatedAt(blobs, base, content, j))
  }

  function StatedMessage(blobs: map<nat, string>, ms: seq<Message>, i: nat): Message
    requires i < |ms|
  {
    ms[i].(content := StatedContent(blobs, |Canvases(ms[..i])|, ms[i].content))
  }

  function Stated(blobs: map<nat, string>, ms: seq<Message>): seq<Message> {
    seq(|ms|, i requires 0 <= i < |ms| => StatedMessage(blobs, ms, i))
  }

  class History {
    var messages: seq<Message>

    method SetCanvasStates(states: seq<(nat, string)>)
      modifies this
      ensures messages == Stated(ByOrdinal(states), old(messages))
    {
      hide ByOrdinal, CanvasesIn, Canvases, StatedContent;
      if states == [] {
        NoStates(messages);
        return;
      }
      var blobs := Collect(states);
      ghost var was := messages;
      var ordinal := 0;
      assert Canvases(was[..0]) == [] by { NoCanvases(); }
      for i := 0 to |messages|
        invariant |messages| == |was| && ordinal == |Canvases(was[..i])|
        invariant forall k | 0 <= k < i :: messages[k] == StatedMessage(blobs, was, k)
        invariant forall k | i <= k < |was| :: messages[k] == was[k]
      {
        var content := messages[i].content;
        assert was[i].content == content;
        assert CanvasesIn(content[..0]) == [] by { NoCanvases(); }
        for j := 0 to |content|
          modifies {}
          invariant |content| == |was[i].content|
          invariant ordinal == |Canvases(was[..i])| + |CanvasesIn(was[i].content[..j])|
          invariant forall k | 0 <= k < j ::
                      content[k] == StatedAt(blobs, |Canvases(was[..i])|, was[i].content, k)
          invariant forall k | j <= k < |content| :: content[k] == was[i].content[k]
        {
          var block := content[j];
          CanvasesInUpTo(was[i].content, j);
          if block.Html? {
            if ordinal in blobs {
              content := content[j := block.(state := Some(blobs[ordinal]))];
            }
            ordinal := ordinal + 1;
          }
        }
        assert was[i].content[..|content|] == was[i].content;
        StatedContentIs(blobs, |Canvases(was[..i])|, was[i].content, content);
        CanvasesUpTo(was, i);
        messages := messages[i := messages[i].(content := content)];
      }
      assert was[..|was|] == was;
    }
  }

  lemma NoCanvases()
    ensures Canvases([]) == [] && CanvasesIn([]) == []
  {}

  lemma StatedContentIs(blobs: map<nat, string>, base: nat, content: seq<ContentBlock>, r: seq<ContentBlock>)
    requires |r| == |content| && forall k | 0 <= k < |r| :: r[k] == StatedAt(blobs, base, content, k)
    ensures r == StatedContent(blobs, base, content)
  {}

  method Collect(states: seq<(nat, string)>) returns (blobs: map<nat, string>)
    ensures blobs == ByOrdinal(states)
  {
    blobs := map[];
    for k := 0 to |states|
      invariant blobs == ByOrdinal(states[..k])
    {
      blobs := blobs[states[k].0 := states[k].1];
      assert states[..k + 1][..k] == states[..k];
    }
    assert states[..|states|] == states;
  }

  lemma NoStates(ms: seq<Message>)
    ensures Stated(ByOrdinal([]), ms) == ms
  {
    hide CanvasesIn, Canvases;
    forall i | 0 <= i < |ms| ensures StatedMessage(map[], ms, i) == ms[i] {
      assert StatedContent(map[], |Canvases(ms[..i])|, ms[i].content) == ms[i].content;
    }
  }

  function StatedCanvas(blobs: map<nat, string>, n: nat, c: Canvas): Canvas {
    if n in blobs then c.(state := Some(blobs[n])) else c
  }

  /** `now` is `before` with the states put in, the first canvas having number `base`. */
  predicate PutIn(blobs: map<nat, string>, base: nat, before: seq<Canvas>, now: seq<Canvas>) {
    |now| == |before| && forall n | 0 <= n < |now| :: now[n] == StatedCanvas(blobs, base + n, before[n])
  }

  lemma PutInAppend(
    blobs: map<nat, string>, base: nat, a: seq<Canvas>, a': seq<Canvas>, b: seq<Canvas>, b': seq<Canvas>)
    requires PutIn(blobs, base, a, a') && PutIn(blobs, base + |a|, b, b')
    ensures PutIn(blobs, base, a + b, a' + b')
  {}

  lemma {:induction false} PutInContent(blobs: map<nat, string>, base: nat, content: seq<ContentBlock>, j: nat)
    requires j <= |content|
    ensures PutIn(blobs, base, CanvasesIn(content[..j]), CanvasesIn(StatedContent(blobs, base, content)[..j]))
    decreases j
  {
    hide CanvasesIn, PutIn;
    if j == 0 {
      NoCanvases();
      assert PutIn(blobs, base, [], []) by { PutInNothing(blobs, base); }
    } else {
      var k := j - 1;
      PutInContent(blobs, base, content, k);
      CanvasesInUpTo(content, k);
      CanvasesInUpTo(StatedContent(blobs, base, content), k);
      PutInBlock(blobs, base, content, k);
      PutInAppend(blobs, base, CanvasesIn(content[..k]), CanvasesIn(StatedContent(blobs, base, content)[..k]),
                  CanvasOf(content[k]), CanvasOf(StatedContent(blobs, base, content)[k]));
    }
  }

  lemma PutInNothing(blobs: map<nat, string>, base: nat)
    ensures PutIn(blobs, base, [], [])
  {}

  lemma PutInBlock(blobs: map<nat, string>, base: nat, content: seq<ContentBlock>, k: nat)
    requires k < |content|
    ensures PutIn(blobs, base + |CanvasesIn(content[..k])|, CanvasOf(content[k]),
                  CanvasOf(StatedAt(blobs, base, content, k)))
  {
    hide CanvasesIn;
  }

  lemma {:induction false} PutInUpTo(blobs: map<nat, string>, ms: seq<Message>, i: nat)
    requires i <= |ms|
    ensures PutIn(blobs, 0, Canvases(ms[..i]), Canvases(Stated(blobs, ms)[..i]))
    decreases i
  {
    hide CanvasesIn, Canvases, PutIn, StatedContent;
    if i == 0 {
      NoCanvases();
      PutInNothing(blobs, 0);
    } else {
      var k := i - 1;
      PutInUpTo(blobs, ms, k);
      CanvasesUpTo(ms, k);
      CanvasesUpTo(Stated(blobs, ms), k);
      var content, base := ms[k].content, |Canvases(ms[..k])|;
      PutInContent(blobs, base, content, |content|);
      SameLength(blobs, base, content);
      assert content[..|content|] == content;
      assert StatedContent(blobs, base, content)[..|content|] == StatedContent(blobs, base, content);
      PutInAppend(blobs, 0, Canvases(ms[..k]), Canvases(Stated(blobs, ms)[..k]),
                  CanvasesIn(content), CanvasesIn(StatedContent(blobs, base, content)));
    }
  }

  lemma SameLength(blobs: map<nat, string>, base: nat, content: seq<ContentBlock>)
    ensures |StatedContent(blobs, base, content)| == |content|
  {}

  /** Exactly the canvas with the number of a state gets it; the others, and all sources, stay. */
  lemma CanvasesStated(blobs: map<nat, string>, ms: seq<Message>)
    ensures PutIn(blobs, 0, Canvases(ms), Canvases(Stated(blobs, ms)))
  {
    hide Canvases;
    PutInUpTo(blobs, ms, |ms|);
    assert ms[..|ms|] == ms && Stated(blobs, ms)[..|ms|] == Stated(blobs, ms);
  }

  // ---- a session ------------------------------------------------------------------------------

  /** The history, and for each canvas the interface numbered its source and which canvas of the history
      it is, if any. */
  datatype Session = Session(messages: seq<Message>, sources: seq<string>, shown: seq<Option<nat>>)

  /** A turn with the messages it made or, when it failed, had streamed so far; a save; or the resumption of
      a transcript, which replaces the history and numbers its canvases anew. */
  datatype Event =
    | Turn(added: seq<Message>, committed: bool)
    | Save(states: seq<(nat, string)>)
    | Resume(saved: seq<Message>)

  function Sources(canvases: seq<Canvas>): seq<string> {
    seq(|canvases|, n requires 0 <= n < |canvases| => canvases[n].source)
  }

  function Numbers(base: nat, count: nat): seq<Option<nat>> {
    seq(count, n requires 0 <= n => Some(base + n))
  }

  /** Replaying a saved history numbers its canvases from zero; all are taken to be the assistant's. */
  function Resumed(saved: seq<Message>): Session {
    var canvases := Canvases(saved);
    Session(saved, Sources(canvases), Numbers(0, |canvases|))
  }

  /** A canvas gets its number when its block starts, whatever becomes of the turn. */
  function NextSession(s: Session, e: Event): Session {
    match e
    case Turn(added, committed) =>
      var canvases := Canvases(added);
      Session(
        if committed then s.messages + added else s.messages,
        s.sources + Sources(canvases),
        s.shown + if committed then Numbers(|Canvases(s.messages)|, |canvases|) else seq(|canvases|, _ => None))
    case Save(states) => s.(messages := Stated(ByOrdinal(states), s.messages))
    case Resume(saved) => Resumed(saved)
  }

  function RunSession(s: Session, events: seq<Event>): Session {
    if events == [] then s else NextSession(RunSession(s, events[..|events| - 1]), events[|events| - 1])
  }

  function Streamed(e: Event): nat { if e.Turn? then |Canvases(e.added)| else 0 }

  /** How many numbers are given out after `events`, if `start` were before. */
  function Numbered(start: nat, events: seq<Event>): nat {
    if events == [] then start else NumberedAfter(Numbered(start, events[..|events| - 1]), events[|events| - 1])
  }

  function NumberedAfter(count: nat, e: Event): nat {
    if e.Resume? then |Canvases(e.saved)| else count + Streamed(e)
  }

  predicate Lost(e: Event) { e.Turn? && !e.committed }

  lemma {:induction false} CanvasesAppend(a: seq<Message>, b: seq<Message>)
    ensures Canvases(a + b) == Canvases(a) + Canvases(b)
    decreases |b|
  {
    hide Canvases, CanvasesIn;
    if b == [] {
      assert a + b == a;
      NoCanvases();
    } else {
      var k := |b| - 1;
      CanvasesAppend(a, b[..k]);
      assert (a + b)[..|a| + k] == a + b[..k] && (a + b)[..|a| + k + 1] == a + b && b[..k + 1] == b;
      CanvasesUpTo(a + b, |a| + k);
      CanvasesUpTo(b, k);
    }
  }

  /** A canvas the session knows in the history is there, with the source it was shown with. */
  predicate ShownOk(s: Session) {
    && |s.sources| == |s.shown|
    && forall k | 0 <= k < |s.shown| && s.shown[k].Some? :: ShownAt(s, k, s.shown[k].value)
  }

  predicate ShownAt(s: Session, k: nat, n: nat)
    requires k < |s.sources|
  {
    n <= k && n < |Canvases(s.messages)| && Canvases(s.messages)[n].source == s.sources[k]
  }

  lemma NextShown(s: Session, e: Event)
    requires ShownOk(s) && |Canvases(s.messages)| <= |s.shown|
    ensures ShownOk(NextSession(s, e)) && |Canvases(NextSession(s, e).messages)| <= |NextSession(s, e).shown|
  {
    hide Canvases, Stated;
    var s' := NextSession(s, e);
    match e {
      case Turn(added, committed) => CanvasesAppend(s.messages, added);
      case Save(states) => CanvasesStated(ByOrdinal(states), s.messages);
      case Resume(saved) =>
    }
    forall k | 0 <= k < |s'.shown| && s'.shown[k].Some? ensures ShownAt(s', k, s'.shown[k].value) {
      if !e.Resume? && k < |s.shown| { assert ShownAt(s, k, s.shown[k].value); }
    }
  }

  lemma {:induction false} RunShown(saved: seq<Message>, events: seq<Event>)
    ensures var s := RunSession(Resumed(saved), events);
            && ShownOk(s) && |Canvases(s.messages)| <= |s.shown|
            && |s.shown| == Numbered(|Canvases(saved)|, events)
    decreases |events|
  {
    hide Canvases;
    if events != [] {
      hide NextSession;
      var front := events[..|events| - 1];
      RunShown(saved, front);
      NextShown(RunSession(Resumed(saved), front), events[|events| - 1]);
      NextCount(RunSession(Resumed(saved), front), events[|events| - 1]);
    }
  }

  lemma NextCount(s: Session, e: Event)
    ensures |NextSession(s, e).shown| == NumberedAfter(|s.shown|, e)
    ensures !e.Resume? ==> s.shown <= NextSession(s, e).shown
  {}

  // ---- whose state a canvas is saved with -------------------------------------------------------

  /** Canvas `k` is in the history, and whatever states are saved, if one is that of `k` then it has it. */
  ghost predicate KeepsOwn(s: Session, k: nat) {
    && k < |s.shown| && s.shown[k].Some?
    && forall states: seq<(nat, string)> | k in ByOrdinal(states) ::
         HasState(NextSession(s, Save(states)), s.shown[k].value, ByOrdinal(states)[k])
  }

  predicate HasState(s: Session, n: nat, blob: string) {
    n < |Canvases(s.messages)| && Canvases(s.messages)[n].state == Some(blob)
  }

  /** Since the last resumption, some turn that was not committed streamed canvases with numbers from `k` or
      lower. */
  predicate LostUpTo(start: nat, events: seq<Event>, k: nat) {
    if events == [] then false
    else
      var front, e := events[..|events| - 1], events[|events| - 1];
      !e.Resume? && (LostUpTo(start, front, k) || (Lost(e) && Streamed(e) > 0 && Numbered(start, front) <= k))
  }

  lemma {:induction false} LostFromEnd(start: nat, events: seq<Event>, k: nat, l: nat)
    requires Numbered(start, events) <= k && Numbered(start, events) <= l
    ensures LostUpTo(start, events, k) == LostUpTo(start, events, l)
    decreases |events|
  {
    if events != [] && !events[|events| - 1].Resume? { LostFromEnd(start, events[..|events| - 1], k, l); }
  }

  /** The history has a canvas for every number exactly when no turn with canvases was lost. */
  lemma {:induction false} AllShownIff(saved: seq<Message>, events: seq<Event>)
    ensures var s := RunSession(Resumed(saved), events);
            |Canvases(s.messages)| == |s.shown| <==> !LostUpTo(|Canvases(saved)|, events, |s.shown|)
    decreases |events|
  {
    hide Canvases;
    RunShown(saved, events);
    if events != [] {
      hide NextSession, ShownOk;
      var front, e := events[..|events| - 1], events[|events| - 1];
      var s := RunSession(Resumed(saved), front);
      RunShown(saved, front);
      AllShownIff(saved, front);
      NextCount(s, e);
      if e.Resume? {
        NextResumed(s, e);
      } else {
        NextCanvases(s, e);
        LostFromEnd(|Canvases(saved)|, front, |s.shown|, |NextSession(s, e).shown|);
      }
    }
  }

  lemma NextCanvases(s: Session, e: Event)
    requires !e.Resume?
    ensures |Canvases(NextSession(s, e).messages)| == |Canvases(s.messages)| + if Lost(e) then 0 else Streamed(e)
  {
    hide Canvases, Stated;
    match e
    case Turn(added, committed) => CanvasesAppend(s.messages, added);
    case Save(states) => CanvasesStated(ByOrdinal(states), s.messages);
  }

  lemma NextResumed(s: Session, e: Event)
    requires e.Resume?
    ensures NextSession(s, e) == Resumed(e.saved) && |Canvases(e.saved)| == |Resumed(e.saved).shown|
    ensures forall k | 0 <= k < |Resumed(e.saved).shown| :: Resumed(e.saved).shown[k] == Some(k)
    ensures Resumed(e.saved).messages == e.saved
  {}

  lemma NextNumber(s: Session, e: Event, k: nat)
    requires !e.Resume? && |s.shown| <= k < |NextSession(s, e).shown|
    ensures Streamed(e) > 0
    ensures NextSession(s, e).shown[k] == if Lost(e) then None else Some(|Canvases(s.messages)| + k - |s.shown|)
  {}

  /** A canvas stands in the history at its own number exactly when no earlier canvas, nor it, was lost. */
  lemma {:induction false} OwnNumberIff(saved: seq<Message>, events: seq<Event>, k: nat)
    requires k < |RunSession(Resumed(saved), events).shown|
    ensures RunSession(Resumed(saved), events).shown[k] == Some(k) <==> !LostUpTo(|Canvases(saved)|, events, k)
    decreases |events|
  {
    hide Canvases;
    if events != [] {
      hide NextSession, ShownOk;
      var front, e := events[..|events| - 1], events[|events| - 1];
      var s := RunSession(Resumed(saved), front);
      RunShown(saved, front);
      NextCount(s, e);
      if e.Resume? {
        NextResumed(s, e);
      } else if k < |s.shown| {
        OwnNumberIff(saved, front, k);
      } else {
        NextNumber(s, e, k);
        AllShownIff(saved, front);
        LostFromEnd(|Canvases(saved)|, front, k, |s.shown|);
      }
    }
  }

  /** In every session, a canvas is always saved with its own state exactly when its turn, and every earlier
      turn since the last resumption that streamed a canvas, was committed. */
  lemma KeepsOwnIff(saved: seq<Message>, events: seq<Event>, k: nat)
    requires k < |RunSession(Resumed(saved), events).shown|
    ensures KeepsOwn(RunSession(Resumed(saved), events), k) <==> !LostUpTo(|Canvases(saved)|, events, k)
  {
    hide Canvases, RunSession, LostUpTo;
    var s := RunSession(Resumed(saved), events);
    RunShown(saved, events);
    OwnNumberIff(saved, events, k);
    if s.shown[k] == Some(k) {
      assert ShownAt(s, k, k);
      forall states: seq<(nat, string)> | k in ByOrdinal(states)
        ensures HasState(NextSession(s, Save(states)), k, ByOrdinal(states)[k])
      {
        CanvasesStated(ByOrdinal(states), s.messages);
      }
    } else if s.shown[k].Some? {
      NotOwn(s, k);
    }
  }

  /** What happened before a transcript is resumed no longer matters. */
  lemma {:induction false} ResumeForgets(s: Session, before: seq<Event>, saved: seq<Message>, later: seq<Event>)
    ensures RunSession(s, before + [Resume(saved)] + later) == RunSession(Resumed(saved), later)
    ensures forall start: nat, k: nat ::
              LostUpTo(start, before + [Resume(saved)] + later, k) <==> LostUpTo(|Canvases(saved)|, later, k)
    ensures forall start: nat ::
              Numbered(start, before + [Resume(saved)] + later) == Numbered(|Canvases(saved)|, later)
    decreases |later|
  {
    hide Canvases;
    var all := before + [Resume(saved)] + later;
    if later == [] {
      assert all[|all| - 1] == Resume(saved);
    } else {
      var n := |later| - 1;
      assert all[..|all| - 1] == before + [Resume(saved)] + later[..n] && all[|all| - 1] == later[n];
      ResumeForgets(s, before, saved, later[..n]);
    }
  }

  lemma NotOwn(s: Session, k: nat)
    requires ShownOk(s) && k < |s.shown| && s.shown[k].Some? && s.shown[k].value != k
    ensures !KeepsOwn(s, k)
  {
    hide Canvases, Stated;
    var n := s.shown[k].value;
    assert ShownAt(s, k, n);
    var present := Canvases(s.messages)[n].state;
    var blob := if present == Some("") then "x" else "";
    var states := [(k, blob)];
    assert ByOrdinal(states) == map[k := blob] by { assert ByOrdinal(states[..0]) == map[]; }
    CanvasesStated(ByOrdinal(states), s.messages);
    assert !HasState(NextSession(s, Save(states)), n, blob);
  }

  /** A canvas of a turn that failed takes the place of the first one committed after it. */
  lemma LostTakesPlace(a: string, b: string, x: string, y: string)
    ensures var lost, kept := Message(Assistant, [Html(a, None)]), Message(Assistant, [Html(b, None)]);
            var events := [Turn([lost], false), Turn([kept], true), Save([(0, x), (1, y)])];
            var s := RunSession(Resumed([]), events);
            s.sources == [a, b] && Canvases(s.messages) == [Canvas(b, Some(x))]
  {
    var lost, kept := Message(Assistant, [Html(a, None)]), Message(Assistant, [Html(b, None)]);
    hide Canvases, CanvasesIn, RunSession, Stated, ByOrdinal;
    var e, f, g := Turn([lost], false), Turn([kept], true), Save([(0, x), (1, y)]);
    var s0 := Resumed([]);
    var s1 := NextSession(s0, e);
    var s2 := NextSession(s1, f);
    NoCanvases();
    OneCanvas(lost);
    OneCanvas(kept);
    RunThree(s0, e, f, g);
    assert s1.messages == [] && s1.sources == [a];
    assert s2.messages == [kept] && s2.sources == [a, b];
    TwoStates(x, y);
    CanvasesStated(ByOrdinal(g.states), s2.messages);
  }

  lemma RunThree(s: Session, e: Event, f: Event, g: Event)
    ensures RunSession(s, [e, f, g]) == NextSession(NextSession(NextSession(s, e), f), g)
  {
    hide NextSession;
    assert [e, f, g][..2] == [e, f] && [e, f][..1] == [e] && [e][..0] == [];
    assert RunSession(s, [e]) == NextSession(s, e);
    assert RunSession(s, [e, f]) == NextSession(NextSession(s, e), f);
  }

  lemma OneCanvas(m: Message)
    requires |m.content| == 1 && m.content[0].Html?
    ensures Canvases([m]) == [Canvas(m.content[0].source, m.content[0].state)]
  {
    hide Canvases, CanvasesIn;
    NoCanvases();
    var ms, content := [m], m.content;
    assert ms[..0] == [] && ms[..1] == ms && content[..0] == [] && content[..1] == content;
    CanvasesUpTo(ms, 0);
    CanvasesInUpTo(content, 0);
  }

  lemma TwoStates(x: string, y: string)
    ensures ByOrdinal([(0, x), (1, y)]) == map[0 := x, 1 := y]
  {
    var none: seq<(nat, string)> := [];
    var one: seq<(nat, string)> := [(0, x)];
    var two: seq<(nat, string)> := [(0, x), (1, y)];
    assert one[..0] == none && two[..1] == one;
    assert ByOrdinal(none) == map[];
    assert ByOrdinal(one) == map[0 := x];
    assert ByOrdinal(two) == map[0 := x, 1 := y];
  }
}
