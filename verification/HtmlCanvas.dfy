/** The canvas object: its focus, its snapshots, and its state log standing for a retained document. */
module HtmlCanvas {
  import opened Wrappers
  import opened Dom
  import opened Interceptor
  import opened Canvas

  // ---- focusable elements ---------------------------------------------------------

  predicate IsDigit(b: int) { 0x30 <= b <= 0x39 }

  function Decimal(digits: Text): nat
    requires forall b <- digits :: IsDigit(b)
  {
    if digits == [] then 0
    else
      assert IsDigit(digits[|digits| - 1]);
      Decimal(digits[..|digits| - 1]) * 10 + (digits[|digits| - 1] as int - 0x30)
  }

  /** A 32-bit decimal that is not negative, with an optional sign. */
  predicate NonNegative(t: Text) {
    var signed := t != [] && (t[0] == 0x2B || t[0] == 0x2D);
    var digits := if signed then t[1..] else t;
    && digits != [] && (forall b <- digits :: IsDigit(b))
    && (if signed && t[0] == 0x2D then Decimal(digits) == 0 else Decimal(digits) < 0x8000_0000)
  }

  predicate IsFocusable(d: Doc, id: nat) {
    match TagOf(d, id)
    case None => false
    case Some(A) => AttrOf(d, id, Href).Some?
    case Some(tag) =>
      tag in {Button, Input, Select, Textarea, Summary}
      || (AttrOf(d, id, TabIndex).Some? && NonNegative(AttrOf(d, id, TabIndex).value))
  }

  function FocusOf(d: Doc, ids: seq<nat>): seq<nat> {
    if ids == [] then [] else (if IsFocusable(d, ids[0]) then [ids[0]] else []) + FocusOf(d, ids[1..])
  }

  /** The focusable elements in document order. */
  ghost function Focusables(d: Doc): seq<nat>
    requires WellFormed(d)
  {
    FocusOf(d, PreOrder(d, d.root))
  }

  lemma {:induction false} FocusConcat(d: Doc, a: seq<nat>, b: seq<nat>)
    ensures FocusOf(d, a + b) == FocusOf(d, a) + FocusOf(d, b)
    decreases |a|
  {
    hide IsFocusable;
    if a == [] {
      assert a + b == b;
    } else {
      FocusConcat(d, a[1..], b);
      assert (a + b)[1..] == a[1..] + b;
    }
  }

  lemma FirstFocus(d: Doc, id: nat)
    requires WellFormed(d) && id in d.nodes
    ensures FocusOf(d, [id] + Below(d, id, 0)) == if IsFocusable(d, id) then [id] else []
  {
    hide IsFocusable;
    assert [id] + Below(d, id, 0) == [id];
    assert [id][1..] == [];
  }

  method FocusWalk(d: Doc, id: nat, before: seq<nat>) returns (out: seq<nat>)
    requires WellFormed(d) && id in d.nodes
    ensures out == before + FocusOf(d, PreOrder(d, id))
    decreases d.height - d.nodes[id].depth
  {
    hide FocusOf, PreOrder, Below, IsFocusable, WellFormed;
    out := before;
    if IsFocusable(d, id) {
      out := out + [id];
    }
    FirstFocus(d, id);
    FirstPair(d, id);
    for i := 0 to |d.nodes[id].children|
      invariant out == before + FocusOf(d, [id] + Below(d, id, i))
    {
      NextSubtree(d, id, i);
      DepthBounded(d, id);
      var c := d.nodes[id].children[i];
      FocusConcat(d, [id] + Below(d, id, i), PreOrder(d, c));
      out := FocusWalk(d, c, out);
    }
  }

  lemma {:induction false} FocusOfHas(d: Doc, ids: seq<nat>, id: nat)
    ensures id in FocusOf(d, ids) <==> id in ids && IsFocusable(d, id)
    decreases |ids|
  {
    hide IsFocusable;
    if ids != [] { FocusOfHas(d, ids[1..], id); }
  }

  /** What can be focused: links with an address, buttons, fields and summaries, and any other element but a
      link with a tab index that is not negative. */
  lemma FocusableExactly(d: Doc, id: nat)
    requires WellFormed(d)
    ensures id in Focusables(d) <==>
            || (TagOf(d, id) == Some(A) && AttrOf(d, id, Href).Some?)
            || TagOf(d, id) in {Some(Button), Some(Input), Some(Select), Some(Textarea), Some(Summary)}
            || (TagOf(d, id).Some? && TagOf(d, id) != Some(A) && AttrOf(d, id, TabIndex).Some?
                && NonNegative(AttrOf(d, id, TabIndex).value))
  {
    hide WellFormed, NonNegative, FocusOf, PreOrder, AttrOf;
    RootIn(d);
    FocusOfHas(d, PreOrder(d, d.root), id);
    if id in d.nodes { RootReaches(d, id); }
  }

  /** Digits alone or behind a plus are not negative up to the greatest 32-bit number, and behind a minus only
      when they are zero; without a digit, or with anything else, there is no number. */
  lemma NonNegativeIff(t: Text)
    ensures if forall b <- t :: '0' as int <= b <= '9' as int then
              && (NonNegative(t) <==> t != [] && Decimal(t) <= 2147483647)
              && (NonNegative(['+' as int] + t) <==> t != [] && Decimal(t) <= 2147483647)
              && (NonNegative(['-' as int] + t) <==> t != [] && Decimal(t) == 0)
            else (forall b <- t :: b != '+' as int && b != '-' as int) ==> !NonNegative(t)
  {
    hide Decimal;
    assert (['+' as int] + t)[1..] == t && (['-' as int] + t)[1..] == t;
    if forall b <- t :: IsDigit(b) {
      if t != [] { assert t[0] in t; }
    } else if t != [] {
      assert forall b <- t :: b == t[0] || b in t[1..];
    }
  }

  /** The number the digits say. */
  lemma DecimalReads(t: Text, b: int)
    requires '0' as int <= b <= '9' as int && forall x <- t :: '0' as int <= x <= '9' as int
    ensures Decimal([]) == 0 && Decimal(t + [b]) == 10 * Decimal(t) + (b - '0' as int)
  {
    assert (t + [b])[..|t|] == t;
  }

  /** Replaying a log does not change what can be focused. */
  lemma ReplayKeepsFocusables(p: Doc, s: CanvasState)
    requires WellFormed(p)
    ensures WellFormed(Applied(p, s)) && Focusables(Applied(p, s)) == Focusables(p)
  {
    hide WellFormed, Applied;
    AppliedShape(p, s);
    RootIn(p);
    ShapeKeepsOrder(p, Applied(p, s), p.root);
    ReplayKeepsFocusOf(p, s, PreOrder(p, p.root));
  }

  lemma {:induction false} ReplayKeepsFocusOf(p: Doc, s: CanvasState, ids: seq<nat>)
    ensures FocusOf(Applied(p, s), ids) == FocusOf(p, ids)
    decreases |ids|
  {
    hide Applied, AttrOf, TagOf, NonNegative;
    if ids != [] {
      AppliedAttr(p, s, ids[0], Href);
      AppliedAttr(p, s, ids[0], TabIndex);
      ReplayKeepsFocusOf(p, s, ids[1..]);
    }
  }

  /** The first place of `id` in the cache. */
  function Position(cache: seq<nat>, id: nat): Option<nat> {
    if cache == [] then None
    else if cache[0] == id then Some(0)
    else
      var rest := Position(cache[1..], id);
      if rest.Some? then Some(rest.value + 1) else None
  }

  lemma {:induction false} PositionFinds(cache: seq<nat>, id: nat)
    ensures Position(cache, id).Some? <==> id in cache
    ensures Position(cache, id).Some? ==> Position(cache, id).value < |cache| && cache[Position(cache, id).value] == id
    decreases |cache|
  {
    if cache != [] && cache[0] != id {
      PositionFinds(cache[1..], id);
    }
  }

  // ---- focus and snapshots as functions ----------------------------------------------------

  /** The focus is kept while it is in range; an empty focus is taken from the log. */
  function RenderFocus(focused: Option<nat>, logged: Option<nat>, cache: seq<nat>): Option<nat> {
    if focused.Some? && focused.value < |cache| then focused
    else if logged.Some? then Position(cache, logged.value)
    else None
  }

  function Snapshot(s: CanvasState, focused: Option<nat>, cache: Option<seq<nat>>): Option<CanvasState> {
    var inCache := focused.Some? && cache.Some? && focused.value < |cache.value|;
    var id := if inCache then Some(cache.value[focused.value]) else None;
    var whole := s.(schemaVersion := 1, focused := id);
    if IsEmpty(whole) then None else Some(whole)
  }

  function RestoredFocus(s: CanvasState, focused: Option<nat>, cache: Option<seq<nat>>): Option<nat> {
    if s.focused.Some? && cache.Some? then Position(cache.value, s.focused.value) else focused
  }

  predicate InRange(focused: Option<nat>, cache: Option<seq<nat>>) {
    focused.Some? ==> cache.Some? && focused.value < |cache.value|
  }

  /** A snapshot is taken unless nothing is open, filled in, scrolled or focused; it is the log with the
      element that has the focus. */
  lemma SnapshotIs(s: CanvasState, focused: Option<nat>, cache: seq<nat>)
    requires InRange(focused, Some(cache))
    ensures var snap := Snapshot(s, focused, Some(cache));
            && (snap.None? <==> s.formValues == map[] && s.openDetails == {} && s.scroll == map[] && focused.None?)
            && (snap.Some? ==>
                  && snap.value.formValues == s.formValues && snap.value.openDetails == s.openDetails
                  && snap.value.scroll == s.scroll
                  && snap.value.focused == if focused.Some? then Some(cache[focused.value]) else None)
  {}

  /** After a render the focus is on a focusable element, the one before while there is one, or that of the
      log, or nowhere. */
  lemma RenderFocusIs(focused: Option<nat>, logged: Option<nat>, cache: seq<nat>)
    ensures var f := RenderFocus(focused, logged, cache);
            && InRange(f, Some(cache))
            && (focused.Some? && focused.value < |cache| ==> f == focused)
            && (f != focused && f.Some? ==> logged == Some(cache[f.value]))
  {
    if logged.Some? { PositionFinds(cache, logged.value); }
  }

  /** Restoring a snapshot of one rendered canvas into another with the same focusable elements makes
      the second give the same snapshot exactly when the snapshot has a focus or the second had none:
      a snapshot without focus leaves the old focus in place. */
  lemma RestoreGivesSnapshotIff(s: CanvasState, first: Option<nat>, second: Option<nat>, cache: seq<nat>)
    requires InRange(first, Some(cache)) && InRange(second, Some(cache)) && Snapshot(s, first, Some(cache)).Some?
    ensures var snap := Snapshot(s, first, Some(cache)).value;
            Snapshot(snap, RestoredFocus(snap, second, Some(cache)), Some(cache)) == Some(snap) <==>
            snap.focused.Some? || second.None?
  {
    var snap := Snapshot(s, first, Some(cache)).value;
    if snap.focused.Some? {
      PositionFinds(cache, snap.focused.value);
      assert cache[first.value] in cache;
    }
  }

  /** Into a canvas that was not rendered yet, the snapshot comes back after the first render. */
  lemma RestoreThenRender(s: CanvasState, first: Option<nat>, cache: seq<nat>)
    requires InRange(first, Some(cache)) && Snapshot(s, first, Some(cache)).Some?
    ensures var snap := Snapshot(s, first, Some(cache)).value;
            Snapshot(snap, RenderFocus(RestoredFocus(snap, None, None), snap.focused, cache), Some(cache)) == Some(snap)
  {
    var snap := Snapshot(s, first, Some(cache)).value;
    if snap.focused.Some? {
      PositionFinds(cache, snap.focused.value);
      assert cache[first.value] in cache;
    }
  }

  /** A canvas whose focus was cleared stays without focus at the next render exactly when the log
      names no element that can be focused: a restored focus comes back. */
  lemma ClearedFocusStaysIff(logged: Option<nat>, cache: seq<nat>)
    ensures RenderFocus(None, logged, cache) == None <==> !(logged.Some? && logged.value in cache)
  {
    if logged.Some? { PositionFinds(cache, logged.value); }
  }

  /** One event on a fresh document: replay, intercept, collect. The focus in the log is the host's
      and is carried over. */
  method Replay(source: Doc, s: CanvasState, target: Option<nat>) returns (log: CanvasState, outcome: Outcome)
    requires WellFormed(source)
    ensures log == ClickedLog(source, s, target) && log.focused == s.focused
    ensures WellFormed(Applied(source, s))
    ensures outcome == Outcome(EffectOf(Applied(source, s), target), Mutates(Applied(source, s), target))
  {
    hide WellFormed, Applied, Collected, ClickedDoc, EffectOf, Mutates;
    AppliedShape(source, s);
    ClickShape(Applied(source, s), target);
    var base := new BaseDocument(source);
    ApplyState(base, s);
    outcome := InterceptMut(base, target);
    var collected := CollectState(base.doc);
    log := collected.(focused := s.focused);
  }

  class HtmlCanvas {
    const source: Doc
    var focusableCache: Option<seq<nat>>
    var focused: Option<nat>
    var frozen: bool
    var canvasState: CanvasState
    var lastRenderWidth: Option<nat>
    /** The document a browser would have kept since the last restore. */
    ghost var retained: Doc

    ghost predicate Valid()
      reads this
    {
      && WellFormed(source) && WellFormed(retained) && Stands(source, canvasState, retained)
      && (focusableCache.Some? ==> focusableCache.value == Focusables(source))
      && (focusableCache.Some? <==> lastRenderWidth.Some?)
      && InRange(focused, focusableCache)
    }

    constructor (source: Doc)
      requires WellFormed(source)
      ensures Valid() && this.source == source && retained == Applied(source, DEFAULT)
      ensures canvasState == DEFAULT && focusableCache == None && focused == None && !frozen
    {
      this.source := source;
      focusableCache, focused, frozen, canvasState, lastRenderWidth := None, None, false, DEFAULT, None;
      retained := Applied(source, DEFAULT);
      new;
      StandsFor(source, DEFAULT);
      AppliedShape(source, DEFAULT);
    }

    method Render(width: nat)
      requires Valid()
      modifies this`focusableCache, this`focused, this`lastRenderWidth
      ensures Valid() && focusableCache == Some(Focusables(source))
      ensures lastRenderWidth == Some(if width == 0 then 1 else width)
      ensures focused == RenderFocus(old(focused), canvasState.focused, Focusables(source))
    {
      hide WellFormed, Stands, Applied, FocusOf, PreOrder;
      lastRenderWidth := Some(if width == 0 then 1 else width);
      var base := new BaseDocument(source);
      ApplyState(base, canvasState);
      ReplayKeepsFocusables(source, canvasState);
      RootIn(base.doc);
      var cache := FocusWalk(base.doc, base.doc.root, []);
      focusableCache := Some(cache);
      focused := if focused.Some? && focused.value >= |cache| then None else focused;
      if focused.None? && canvasState.focused.Some? {
        PositionFinds(cache, canvasState.focused.value);
        focused := Position(cache, canvasState.focused.value);
      }
    }

    /** One event whose hit test gave `target`. While frozen, and before the first render, events are
        dropped; otherwise the canvas answers as the retained document does. */
    method Dispatch(target: Option<nat>, rawDirty: bool) returns (effects: seq<Effect>, dirty: bool)
      requires Valid()
      modifies this`canvasState, this`retained
      ensures Valid() && canvasState.focused == old(canvasState).focused
      ensures frozen || lastRenderWidth.None? ==>
                effects == [] && !dirty && canvasState == old(canvasState) && retained == old(retained)
      ensures !frozen && lastRenderWidth.Some? ==>
                && canvasState == ClickedLog(source, old(canvasState), target)
                && retained == ClickedDoc(old(retained), target)
                && effects == (match EffectOf(old(retained), target) case Some(e) => [e] case None => [])
                && dirty == (rawDirty || Mutates(old(retained), target))
    {
      hide WellFormed, Stands, ClickedLog, ClickedDoc, EffectOf, Mutates, Focusables;
      if frozen || lastRenderWidth.None? {
        return [], false;
      }
      ClickSimulates(source, canvasState, retained, target);
      var log, outcome := Replay(source, canvasState, target);
      canvasState := log;
      retained := ClickedDoc(retained, target);
      effects := if outcome.effect.Some? then [outcome.effect.value] else [];
      dirty := rawDirty || outcome.dirty;
    }

    method SetFocus(index: Option<nat>)
      requires Valid()
      modifies this`focused
      ensures Valid()
      ensures focused == if InRange(index, focusableCache) then index else None
    {
      if index.Some? {
        var len := if focusableCache.Some? then |focusableCache.value| else 0;
        if index.value >= len {
          focused := None;
          return;
        }
      }
      focused := index;
    }

    method SetFrozen(frozen: bool)
      requires Valid()
      modifies this`frozen
      ensures Valid() && this.frozen == frozen
    {
      this.frozen := frozen;
    }

    method SnapshotState() returns (snap: Option<CanvasState>)
      requires Valid()
      ensures snap == Snapshot(canvasState, focused, focusableCache)
    {
      var state := canvasState.(schemaVersion := 1, focused := None);
      if focused.Some? && focusableCache.Some? && focused.value < |focusableCache.value| {
        state := state.(focused := Some(focusableCache.value[focused.value]));
      }
      snap := if IsEmpty(state) then None else Some(state);
    }

    /** Takes over a decoded log. */
    method RestoreState(state: CanvasState)
      requires Valid()
      modifies this`focused, this`canvasState, this`retained
      ensures Valid() && canvasState == state && retained == Applied(source, state)
      ensures focused == RestoredFocus(state, old(focused), focusableCache)
    {
      hide WellFormed, Stands, Applied, FocusOf, PreOrder;
      if state.focused.Some? && focusableCache.Some? {
        PositionFinds(focusableCache.value, state.focused.value);
        focused := Position(focusableCache.value, state.focused.value);
      }
      canvasState := state;
      retained := Applied(source, state);
      StandsFor(source, state);
      AppliedShape(source, state);
    }
  }

  lemma RootIn(d: Doc)
    requires WellFormed(d)
    ensures d.root in d.nodes
  {}
}
