/** The HTML canvas. It cannot keep its document, so every event parses the source again, replays
    the state log, applies the event and collects the log anew. */
module Canvas {
  import opened Wrappers
  import opened Dom
  import opened Interceptor

  /** The state log, keyed by node id. */
  datatype CanvasState = CanvasState(
    schemaVersion: nat,
    formValues: map<nat, Text>,
    openDetails: set<nat>,
    scroll: map<nat, (nat, nat)>,
    focused: Option<nat>)

  const DEFAULT := CanvasState(0, map[], {}, map[], None)

  predicate IsEmpty(s: CanvasState) {
    s.formValues == map[] && s.openDetails == {} && s.scroll == map[] && s.focused == None
  }

  // ---- replaying the log -------------------------------------------------------------

  predicate IsDetails(d: Doc, id: nat) { TagOf(d, id) == Some(Details) }

  function EditedNode(n: Node, open: bool, value: Option<Text>): Node {
    if n.element.None? then n
    else
      var a := n.element.value.attrs;
      var b := if open then a[Open := []] else a;
      WithAttrs(n, if value.Some? then b[Value := value.value] else b)
  }

  /** All nodes of `opens` opened and the values of `values` written, at once. */
  function Edited(d: Doc, opens: set<nat>, values: map<nat, Text>): Doc {
    d.(nodes := map id | id in d.nodes ::
         EditedNode(d.nodes[id], id in opens, if id in values then Some(values[id]) else None))
  }

  /** The log replayed; ids that do not name the right kind of element are skipped. */
  function Applied(d: Doc, s: CanvasState): Doc {
    Edited(d, set id | id in s.openDetails && IsDetails(d, id),
           map id | id in s.formValues && IsField(d, id) :: s.formValues[id])
  }

  method ApplyState(base: BaseDocument, s: CanvasState)
    modifies base
    ensures base.doc == Applied(old(base.doc), s)
  {
    hide Edited, SetAttr, IsDetails, IsField;
    ghost var d := base.doc;
    var detailsToOpen := set id | id in s.openDetails && IsDetails(base.doc, id);
    var fieldValues := map id | id in s.formValues && IsField(base.doc, id) :: s.formValues[id];
    EditNothing(d);
    var rest := detailsToOpen;
    ghost var opens: set<nat> := {};
    while rest != {}
      invariant opens + rest == detailsToOpen && base.doc == Edited(d, opens, map[])
      decreases |rest|
    {
      var id :| id in rest;
      EditOpen(d, opens, id);
      base.SetAttribute(id, Open, []);
      rest, opens := rest - {id}, opens + {id};
    }
    assert opens == detailsToOpen;
    WriteValues(base, d, detailsToOpen, fieldValues);
  }

  method WriteValues(base: BaseDocument, ghost d: Doc, ghost opens: set<nat>, fieldValues: map<nat, Text>)
    requires base.doc == Edited(d, opens, map[])
    modifies base
    ensures base.doc == Edited(d, opens, fieldValues)
  {
    hide Edited, SetAttr;
    var rest := fieldValues.Keys;
    ghost var written: map<nat, Text> := map[];
    while rest != {}
      invariant written.Keys + rest == fieldValues.Keys && forall id <- written :: written[id] == fieldValues[id]
      invariant base.doc == Edited(d, opens, written)
      decreases |rest|
    {
      var id :| id in rest;
      EditValue(d, opens, written, id, fieldValues[id]);
      base.SetAttribute(id, Value, fieldValues[id]);
      rest, written := rest - {id}, written[id := fieldValues[id]];
    }
    assert written == fieldValues;
  }

  lemma EditNothing(d: Doc)
    ensures Edited(d, {}, map[]) == d
  {
    forall id <- d.nodes ensures EditedNode(d.nodes[id], false, None) == d.nodes[id] {}
    assert Edited(d, {}, map[]).nodes == d.nodes;
  }

  lemma EditOpen(d: Doc, opens: set<nat>, id: nat)
    ensures SetAttr(Edited(d, opens, map[]), id, Open, []) == Edited(d, opens + {id}, map[])
  {
    var e, f := Edited(d, opens, map[]), Edited(d, opens + {id}, map[]);
    forall x <- d.nodes ensures SetAttr(e, id, Open, []).nodes[x] == f.nodes[x] {
      if x == id && d.nodes[x].element.Some? {
        var a := d.nodes[x].element.value.attrs;
        assert a[Open := []][Open := []] == a[Open := []];
      }
    }
    assert SetAttr(e, id, Open, []).nodes == f.nodes;
  }

  lemma EditValue(d: Doc, opens: set<nat>, values: map<nat, Text>, id: nat, v: Text)
    ensures SetAttr(Edited(d, opens, values), id, Value, v) == Edited(d, opens, values[id := v])
  {
    var e, f := Edited(d, opens, values), Edited(d, opens, values[id := v]);
    forall x <- d.nodes ensures SetAttr(e, id, Value, v).nodes[x] == f.nodes[x] {
      if x == id && d.nodes[x].element.Some? {
        var a := d.nodes[x].element.value.attrs;
        var b := if x in opens then a[Open := []] else a;
        assert x in values ==> b[Value := values[x]][Value := v] == b[Value := v];
      }
    }
    assert SetAttr(e, id, Value, v).nodes == f.nodes;
  }

  // ---- collecting the log ---------------------------------------------------------------

  /** What a walk over `ids` adds to a state. */
  function Extended(s: CanvasState, d: Doc, ids: set<nat>): CanvasState {
    s.(openDetails := s.openDetails + (set id | id in ids && IsOpen(d, id)),
       formValues := s.formValues + (map id | id in ids && NamedField(d, id) :: TextOr(AttrOf(d, id, Value))))
  }

  function Collected(d: Doc): CanvasState {
    CanvasState(1, map id | id in d.nodes && NamedField(d, id) :: TextOr(AttrOf(d, id, Value)),
                set id | id in d.nodes && IsOpen(d, id), map[], None)
  }

  ghost function Elements(ids: seq<nat>): set<nat> { set id <- ids }

  lemma ExtendTwice(s: CanvasState, d: Doc, a: seq<nat>, b: seq<nat>)
    ensures Extended(Extended(s, d, Elements(a)), d, Elements(b)) == Extended(s, d, Elements(a + b))
  {
    hide IsOpen, NamedField;
    assert Elements(a + b) == Elements(a) + Elements(b) by {
      assert forall x <- a :: x in a + b;
      assert forall x <- b :: x in a + b;
    }
  }

  method CollectWalk(d: Doc, id: nat, before: CanvasState) returns (s: CanvasState)
    requires WellFormed(d) && id in d.nodes
    ensures s == Extended(before, d, Elements(PreOrder(d, id)))
    decreases d.height - d.nodes[id].depth
  {
    hide Extended, PreOrder, Below, Elements, NamedField, IsOpen;
    s := before;
    if IsOpen(d, id) {
      s := s.(openDetails := s.openDetails + {id});
    } else if NamedField(d, id) {
      s := s.(formValues := s.formValues[id := TextOr(AttrOf(d, id, Value))]);
    }
    ExtendOne(before, d, id);
    FirstPair(d, id);
    NoSubtrees(d, id);
    for i := 0 to |d.nodes[id].children|
      invariant s == Extended(before, d, Elements([id] + Below(d, id, i)))
    {
      var c := d.nodes[id].children[i];
      NextSubtree(d, id, i);
      ExtendTwice(before, d, [id] + Below(d, id, i), PreOrder(d, c));
      s := CollectWalk(d, c, s);
    }
  }

  lemma NoSubtrees(d: Doc, id: nat)
    requires WellFormed(d) && id in d.nodes
    ensures [id] + Below(d, id, 0) == [id]
  {}

  lemma ExtendOne(s: CanvasState, d: Doc, id: nat)
    ensures Extended(s, d, Elements([id])) ==
            if IsOpen(d, id) then s.(openDetails := s.openDetails + {id})
            else if NamedField(d, id) then s.(formValues := s.formValues[id := TextOr(AttrOf(d, id, Value))])
            else s
  {
    hide AttrOf;
    assert Elements([id]) == {id};
    assert IsOpen(d, id) ==> !NamedField(d, id);
    var added := map x | x in Elements([id]) && NamedField(d, x) :: TextOr(AttrOf(d, x, Value));
    if NamedField(d, id) {
      assert s.formValues + added == s.formValues[id := TextOr(AttrOf(d, id, Value))];
    } else {
      assert s.formValues + added == s.formValues;
    }
    var nowOpen := set x | x in Elements([id]) && IsOpen(d, x);
    assert nowOpen == if IsOpen(d, id) then {id} else {};
  }

  method CollectState(d: Doc) returns (s: CanvasState)
    requires WellFormed(d)
    ensures s == Collected(d)
  {
    s := CollectWalk(d, d.root, CanvasState(1, map[], {}, map[], None));
    WalkIsWhole(d);
  }

  lemma WalkIsWhole(d: Doc)
    requires WellFormed(d)
    ensures Extended(CanvasState(1, map[], {}, map[], None), d, Elements(PreOrder(d, d.root))) == Collected(d)
  {
    hide IsOpen, NamedField, AttrOf;
    var ids := Elements(PreOrder(d, d.root));
    forall id ensures id in ids <==> id in d.nodes {
      if id in d.nodes { RootReaches(d, id); }
      if id in ids { PreOrderInDoc(d, d.root, id); }
    }
    assert ids == d.nodes.Keys;
    var none: map<nat, Text> := map[];
    var values := map id | id in ids && NamedField(d, id) :: TextOr(AttrOf(d, id, Value));
    assert none + values == values;
    assert {} + (set id | id in ids && IsOpen(d, id)) == set id | id in ids && IsOpen(d, id);
  }

  // ---- the log against a retained document --------------------------------------------------

  lemma EditedAttr(d: Doc, opens: set<nat>, values: map<nat, Text>, id: nat, a: Attr)
    ensures TagOf(Edited(d, opens, values), id) == TagOf(d, id)
    ensures AttrOf(Edited(d, opens, values), id, a) ==
            if TagOf(d, id).None? then AttrOf(d, id, a)
            else if a == Open && id in opens then Some([])
            else if a == Value && id in values then Some(values[id])
            else AttrOf(d, id, a)
  {}

  lemma EditedShape(d: Doc, opens: set<nat>, values: map<nat, Text>)
    ensures SameShape(d, Edited(d, opens, values))
  {
    var e := Edited(d, opens, values);
    assert d.nodes.Keys == e.nodes.Keys;
    forall id <- d.nodes ensures SameNode(d.nodes[id], e.nodes[id]) {}
  }

  lemma AppliedShape(d: Doc, s: CanvasState)
    requires WellFormed(d)
    ensures SameShape(d, Applied(d, s)) && WellFormed(Applied(d, s))
  {
    hide WellFormed, Edited, SameShape;
    EditedShape(d, set id | id in s.openDetails && IsDetails(d, id),
                map id | id in s.formValues && IsField(d, id) :: s.formValues[id]);
    ShapeKeepsForm(d, Applied(d, s));
  }

  lemma AppliedAttr(d: Doc, s: CanvasState, id: nat, a: Attr)
    ensures TagOf(Applied(d, s), id) == TagOf(d, id)
    ensures a != Open && a != Value ==> AttrOf(Applied(d, s), id, a) == AttrOf(d, id, a)
    ensures IsField(d, id) ==>
            AttrOf(Applied(d, s), id, Value) ==
            if id in s.formValues then Some(s.formValues[id]) else AttrOf(d, id, Value)
    ensures IsOpen(Applied(d, s), id) <==> IsOpen(d, id) || (id in s.openDetails && IsDetails(d, id))
  {
    hide Edited, AttrOf, TagOf;
    var opens := set id | id in s.openDetails && IsDetails(d, id);
    var values := map id | id in s.formValues && IsField(d, id) :: s.formValues[id];
    EditedAttr(d, opens, values, id, a);
    EditedAttr(d, opens, values, id, Open);
    EditedAttr(d, opens, values, id, Value);
  }

  /** Replaying onto the source the log collected from a document that came from the source gives
      that document back, but for what was open in the source and closed since. */
  lemma ReplayIsAlike(p: Doc, d: Doc)
    requires WellFormed(p) && WellFormed(d) && SameShape(p, d)
    requires forall id, a | id in p.nodes && a != Open && a != Value :: AttrOf(p, id, a) == AttrOf(d, id, a)
    ensures Alike(Applied(p, Collected(d)), d)
    ensures forall id :: IsOpen(Applied(p, Collected(d)), id) <==> IsOpen(p, id) || IsOpen(d, id)
  {
    hide WellFormed, Applied, AttrOf;
    var s := Collected(d);
    var e := Applied(p, s);
    AppliedShape(p, s);
    SameShapeChain(p, d, e);
    forall id, a | id in e.nodes && a != Open && a != Value ensures AttrOf(e, id, a) == AttrOf(d, id, a) {
      AppliedAttr(p, s, id, a);
    }
    forall id <- e.nodes | NamedField(e, id) ensures TextOr(AttrOf(e, id, Value)) == TextOr(AttrOf(d, id, Value)) {
      AppliedAttr(p, s, id, Name);
      ShapeTag(p, d, id);
      assert NamedField(d, id);
    }
    forall id ensures IsOpen(e, id) <==> IsOpen(p, id) || IsOpen(d, id) {
      AppliedAttr(p, s, id, Open);
      ShapeTag(p, d, id);
      OpenInDoc(d, id);
    }
  }

  lemma OpenInDoc(d: Doc, id: nat)
    ensures IsOpen(d, id) ==> id in d.nodes && IsDetails(d, id)
  {}

  lemma SameShapeChain(p: Doc, d: Doc, e: Doc)
    requires SameShape(p, d) && SameShape(p, e)
    ensures SameShape(e, d)
  {
    forall id <- e.nodes ensures SameNode(e.nodes[id], d.nodes[id]) {
      assert SameNode(p.nodes[id], d.nodes[id]) && SameNode(p.nodes[id], e.nodes[id]);
    }
  }

  lemma ShapeTag(d: Doc, e: Doc, id: nat)
    requires SameShape(d, e)
    ensures TagOf(d, id) == TagOf(e, id) && (id in d.nodes <==> id in e.nodes)
  {
    if id in d.nodes { assert SameNode(d.nodes[id], e.nodes[id]); }
  }

  /** No click can toggle a details element that is open in the source. */
  ghost predicate SourceOpenFixed(p: Doc) { forall id :: ToggledBy(p, id).Some? ==> !IsOpen(p, ToggledBy(p, id).value) }

  ghost predicate SameOpen(d: Doc, e: Doc) { forall id :: IsOpen(d, id) <==> IsOpen(e, id) }

  /** The log `s` over source `p` stands for the retained document `r`. */
  ghost predicate Stands(p: Doc, s: CanvasState, r: Doc) {
    Alike(Applied(p, s), r) && (SourceOpenFixed(p) ==> SameOpen(Applied(p, s), r))
  }

  /** The log after a click. */
  function ClickedLog(p: Doc, s: CanvasState, target: Option<nat>): CanvasState {
    Collected(ClickedDoc(Applied(p, s), target)).(focused := s.focused)
  }

  lemma FocusIgnored(p: Doc, s: CanvasState, f: Option<nat>)
    ensures Applied(p, s.(focused := f)) == Applied(p, s)
  {}

  /** One click keeps the log standing for the retained document, with the same answer. */
  lemma ClickSimulates(p: Doc, s: CanvasState, r: Doc, target: Option<nat>)
    requires WellFormed(p) && WellFormed(r) && Stands(p, s, r)
    ensures WellFormed(Applied(p, s)) && EffectOf(Applied(p, s), target) == EffectOf(r, target)
    ensures Mutates(Applied(p, s), target) == Mutates(r, target)
    ensures WellFormed(ClickedDoc(r, target)) && Stands(p, ClickedLog(p, s, target), ClickedDoc(r, target))
  {
    hide WellFormed, Alike, SameShape, ClickedDoc, Applied, Collected, IsOpen, EffectOf, ToggledBy, AttrOf;
    var d := Applied(p, s);
    AppliedShape(p, s);
    AlikeAnswers(d, r, target);
    var d', r' := ClickedDoc(d, target), ClickedDoc(r, target);
    ClickAlike(d, target);
    ClickAlike(r, target);
    ClickShape(d, target);
    ClickShape(r, target);
    SourceAttrs(p, s, target);
    ReplayIsAlike(p, d');
    FocusIgnored(p, Collected(d'), s.focused);
    AlikeRound(Applied(p, Collected(d')), d', d, r, r');
    if SourceOpenFixed(p) {
      OpenRound(p, s, r, target);
    }
  }

  lemma SourceAttrs(p: Doc, s: CanvasState, target: Option<nat>)
    requires WellFormed(p)
    ensures var d' := ClickedDoc(Applied(p, s), target);
            && SameShape(p, d')
            && forall id, a | id in p.nodes && a != Open && a != Value :: AttrOf(p, id, a) == AttrOf(d', id, a)
  {
    hide WellFormed, Applied, AttrOf, ClickedDoc, SameShape;
    var d := Applied(p, s);
    AppliedShape(p, s);
    ClickShape(d, target);
    ShapeTrans(p, d, ClickedDoc(d, target));
    forall id, a | id in p.nodes && a != Open && a != Value
      ensures AttrOf(p, id, a) == AttrOf(ClickedDoc(d, target), id, a) {
      AppliedAttr(p, s, id, a);
      ClickAttr(d, target, id, a);
    }
  }

  lemma ShapeTrans(p: Doc, d: Doc, e: Doc)
    requires SameShape(p, d) && SameShape(d, e)
    ensures SameShape(p, e)
  {
    forall id <- p.nodes ensures SameNode(p.nodes[id], e.nodes[id]) {
      assert SameNode(p.nodes[id], d.nodes[id]) && SameNode(d.nodes[id], e.nodes[id]);
    }
  }

  lemma AlikeTrans(a: Doc, b: Doc, c: Doc)
    requires Alike(a, b) && Alike(b, c)
    ensures Alike(a, c)
  {
    hide AttrOf;
    ShapeTrans(a, b, c);
    forall id, x | id in a.nodes && x != Open && x != Value ensures AttrOf(a, id, x) == AttrOf(c, id, x) {
      assert AttrOf(a, id, x) == AttrOf(b, id, x) == AttrOf(c, id, x);
    }
    forall id <- a.nodes | NamedField(a, id) ensures TextOr(AttrOf(a, id, Value)) == TextOr(AttrOf(c, id, Value)) {
      AlikeNode(a, b, id);
    }
  }

  lemma AlikeSym(a: Doc, b: Doc)
    requires Alike(a, b)
    ensures Alike(b, a)
  {
    hide AttrOf;
    forall id <- b.nodes ensures SameNode(b.nodes[id], a.nodes[id]) {
      assert SameNode(a.nodes[id], b.nodes[id]);
    }
    forall id <- b.nodes | NamedField(b, id) ensures TextOr(AttrOf(b, id, Value)) == TextOr(AttrOf(a, id, Value)) {
      AlikeNode(a, b, id);
    }
  }

  lemma AlikeRound(e: Doc, d': Doc, d: Doc, r: Doc, r': Doc)
    requires Alike(e, d') && Alike(d, d') && Alike(d, r) && Alike(r, r')
    ensures Alike(e, r')
  {
    hide Alike;
    AlikeSym(d, d');
    AlikeTrans(e, d', d);
    AlikeTrans(e, d, r);
    AlikeTrans(e, r, r');
  }

  lemma SourceToggles(p: Doc, s: CanvasState, id: nat)
    requires WellFormed(p)
    ensures ToggledBy(Applied(p, s), id) == ToggledBy(p, id)
  {
    hide Applied;
    AppliedShape(p, s);
    var d := Applied(p, s);
    ShapeTag(p, d, id);
    if id in p.nodes {
      assert SameNode(p.nodes[id], d.nodes[id]);
      if p.nodes[id].parent.Some? { ShapeTag(p, d, p.nodes[id].parent.value); }
    }
  }

  lemma OpenRound(p: Doc, s: CanvasState, r: Doc, target: Option<nat>)
    requires WellFormed(p) && WellFormed(r) && SourceOpenFixed(p)
    requires Alike(Applied(p, s), r) && SameOpen(Applied(p, s), r)
    ensures SameOpen(Applied(p, ClickedLog(p, s, target)), ClickedDoc(r, target))
  {
    hide WellFormed, Alike, SameShape, ClickedDoc, Applied, Collected, IsOpen, ToggledBy, AttrOf;
    var d := Applied(p, s);
    var d' := ClickedDoc(d, target);
    AppliedShape(p, s);
    SourceAttrs(p, s, target);
    ClickShape(d, target);
    ReplayIsAlike(p, d');
    FocusIgnored(p, Collected(d'), s.focused);
    AlikeAnswers(d, r, target);
    if target.Some? { SourceToggles(p, s, target.value); }
    forall id ensures IsOpen(Applied(p, ClickedLog(p, s, target)), id) <==> IsOpen(ClickedDoc(r, target), id) {
      ClickFlips(d, target, id);
      ClickFlips(r, target, id);
      AppliedAttr(p, s, id, Open);
    }
  }

  // ---- any sequence of clicks --------------------------------------------------------------

  function Log(p: Doc, s: CanvasState, targets: seq<Option<nat>>): CanvasState {
    if targets == [] then s else ClickedLog(p, Log(p, s, targets[..|targets| - 1]), targets[|targets| - 1])
  }

  /** The document an ordinary browser would keep: parsed and restored once, then only clicked. */
  function Retained(p: Doc, s: CanvasState, targets: seq<Option<nat>>): Doc {
    if targets == [] then Applied(p, s)
    else ClickedDoc(Retained(p, s, targets[..|targets| - 1]), targets[|targets| - 1])
  }

  lemma {:induction false} LogStands(p: Doc, s: CanvasState, targets: seq<Option<nat>>)
    requires WellFormed(p)
    ensures WellFormed(Retained(p, s, targets)) && Stands(p, Log(p, s, targets), Retained(p, s, targets))
    decreases |targets|
  {
    hide WellFormed, Stands, Applied, ClickedDoc, ClickedLog;
    if targets == [] {
      AppliedShape(p, s);
      StandsFor(p, s);
    } else {
      var n := |targets| - 1;
      LogStands(p, s, targets[..n]);
      ClickSimulates(p, Log(p, s, targets[..n]), Retained(p, s, targets[..n]), targets[n]);
    }
  }

  lemma StandsFor(p: Doc, s: CanvasState)
    ensures Stands(p, s, Applied(p, s))
  {
    hide Applied, Alike;
    AlikeSelf(Applied(p, s));
  }

  lemma AlikeSelf(d: Doc)
    ensures Alike(d, d)
  {}

  /** After any clicks, from any restored log, the next click has the effect it would have on the
      retained document, and every named field shows the same value. */
  lemma SameAnswers(p: Doc, s: CanvasState, targets: seq<Option<nat>>, next: Option<nat>)
    requires WellFormed(p)
    ensures var shown, kept := Applied(p, Log(p, s, targets)), Retained(p, s, targets);
            && WellFormed(shown) && WellFormed(kept)
            && EffectOf(shown, next) == EffectOf(kept, next) && Mutates(shown, next) == Mutates(kept, next)
            && forall id <- p.nodes :: NamedField(p, id) ==>
               TextOr(AttrOf(shown, id, Value)) == TextOr(AttrOf(kept, id, Value))
  {
    hide WellFormed, Applied, EffectOf, Mutates, AttrOf;
    LogStands(p, s, targets);
    ClickSimulates(p, Log(p, s, targets), Retained(p, s, targets), next);
    var shown, kept := Applied(p, Log(p, s, targets)), Retained(p, s, targets);
    AppliedShape(p, Log(p, s, targets));
    forall id <- p.nodes | NamedField(p, id)
      ensures TextOr(AttrOf(shown, id, Value)) == TextOr(AttrOf(kept, id, Value)) {
      AppliedAttr(p, Log(p, s, targets), id, Name);
      ShapeTag(p, shown, id);
    }
  }

  /** What is shown open is what the retained document has open after every sequence of clicks, from
      every restored log, exactly when no summary belongs to a details element that is open in the
      source: such an element would come back open after it was closed. */
  lemma SameOpenIff(p: Doc)
    requires WellFormed(p)
    ensures (forall s, targets :: SameOpen(Applied(p, Log(p, s, targets)), Retained(p, s, targets))) <==>
            SourceOpenFixed(p)
  {
    hide WellFormed, Applied, SameOpen, Log, Retained, ToggledBy, IsOpen;
    if SourceOpenFixed(p) {
      forall s, targets ensures SameOpen(Applied(p, Log(p, s, targets)), Retained(p, s, targets)) {
        LogStands(p, s, targets);
      }
    } else {
      var id :| ToggledBy(p, id).Some? && IsOpen(p, ToggledBy(p, id).value);
      ClosedComesBack(p, DEFAULT, id);
      assert !SameOpen(Applied(p, Log(p, DEFAULT, [Some(id)])), Retained(p, DEFAULT, [Some(id)]));
    }
  }

  lemma ClosedComesBack(p: Doc, s: CanvasState, id: nat)
    requires WellFormed(p) && ToggledBy(p, id).Some? && IsOpen(p, ToggledBy(p, id).value)
    ensures !SameOpen(Applied(p, Log(p, s, [Some(id)])), Retained(p, s, [Some(id)]))
  {
    hide WellFormed, Applied, ToggledBy, IsOpen, ClickedDoc, ClickedLog;
    var targets := [Some(id)];
    var details := ToggledBy(p, id).value;
    assert targets[..0] == [];
    assert Retained(p, s, targets) == ClickedDoc(Applied(p, s), Some(id));
    AppliedShape(p, s);
    SourceToggles(p, s, id);
    AppliedAttr(p, s, details, Open);
    ClickFlips(Applied(p, s), Some(id), details);
    AppliedAttr(p, Log(p, s, targets), details, Open);
  }

  /** A details element that is open in the source, with its summary. */
  const OPEN_IN_SOURCE := Doc(0, map[0 := Node(Some(Element(Details, map[Open := []])), None, [1], 0),
                                     1 := Node(Some(Element(Summary, map[])), Some(0), [], 1)], 1)

  /** One click on its summary: the retained document has it closed, the canvas shows it open again. */
  lemma OpenInSourceExample()
    ensures WellFormed(OPEN_IN_SOURCE) && !SourceOpenFixed(OPEN_IN_SOURCE)
    ensures !SameOpen(Applied(OPEN_IN_SOURCE, Log(OPEN_IN_SOURCE, DEFAULT, [Some(1)])),
                      Retained(OPEN_IN_SOURCE, DEFAULT, [Some(1)]))
  {
    hide Applied, Log, Retained, SameOpen;
    var p := OPEN_IN_SOURCE;
    assert p.nodes[0].children == [1] && p.nodes[1].children == [];
    assert WellFormed(p) by {
      assert ChildrenOk(p, 0) && ParentOk(p, 0) && ChildrenOk(p, 1);
      assert 1 in p.nodes[0].children && ParentOk(p, 1);
    }
    assert ToggledBy(p, 1) == Some(0) && IsOpen(p, 0);
    ClosedComesBack(p, DEFAULT, 1);
  }
}
