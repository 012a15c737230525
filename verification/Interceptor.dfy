/** Default actions of a clicked node: following a link, opening or closing details, submitting a
    form. */
module Interceptor {
  import opened Wrappers
  import opened Dom
  import FormEncoding

  datatype UrlTarget = SystemBrowser | ContinueConversation

  datatype Effect = OpenUrl(url: Text, target: UrlTarget)

  datatype Outcome = Outcome(effect: Option<Effect>, dirty: bool)

  const NO_OP := Outcome(None, false)

  // ---- URLs -----------------------------------------------------------------------

  function Ascii(s: string): Text {
    seq(|s|, i requires 0 <= i < |s| => if s[i] as int < 128 then s[i] as int else 0x3F)
  }

  function Lower(t: Text): Text {
    seq(|t|, i requires 0 <= i < |t| => if 0x41 <= t[i] <= 0x5A then t[i] + 0x20 else t[i])
  }

  predicate Contains(t: Text, part: Text) { exists k | 0 <= k <= |t| :: part <= t[k..] }

  function ClassifyUrl(href: Text): Option<UrlTarget> {
    var lower := Lower(href);
    if Ascii("http://") <= lower || Ascii("https://") <= lower then Some(SystemBrowser)
    else if Ascii("mailto:") <= lower || Ascii("tel:") <= lower || Ascii("sms:") <= lower then Some(SystemBrowser)
    else if Ascii("data:") <= lower || Ascii("javascript:") <= lower || Ascii("file://") <= lower then None
    else if Contains(href, Ascii("://")) then None
    else Some(ContinueConversation)
  }

  function OpenEffect(url: Text): Option<Effect> {
    var target := ClassifyUrl(url);
    if target.Some? then Some(OpenUrl(url, target.value)) else None
  }

  function LinkEffect(d: Doc, id: nat): Option<Effect> {
    var href := AttrOf(d, id, Href);
    if href.Some? then OpenEffect(href.value) else None
  }

  // ---- forms -------------------------------------------------------------------------

  /** The parent, its parent, and so on. */
  ghost function Ancestors(d: Doc, id: nat): seq<nat>
    requires WellFormed(d) && id in d.nodes
    decreases d.nodes[id].depth
  {
    assert ParentOk(d, id);
    match d.nodes[id].parent
    case None => []
    case Some(p) => [p] + Ancestors(d, p)
  }

  ghost function FirstForm(d: Doc, ids: seq<nat>): Option<nat> {
    if ids == [] then None else if TagOf(d, ids[0]) == Some(Form) then Some(ids[0]) else FirstForm(d, ids[1..])
  }

  method FindAncestorForm(d: Doc, start: nat) returns (form: Option<nat>)
    requires WellFormed(d)
    ensures form == if start in d.nodes then FirstForm(d, Ancestors(d, start)) else None
  {
    if start !in d.nodes {
      return None;
    }
    assert ParentOk(d, start);
    var current := d.nodes[start].parent;
    ghost var rest := Ancestors(d, start);
    while current.Some?
      invariant FirstForm(d, Ancestors(d, start)) == FirstForm(d, rest)
      invariant current.None? ==> rest == []
      invariant current.Some? ==> current.value in d.nodes && rest == [current.value] + Ancestors(d, current.value)
      decreases |rest|
    {
      var pid := current.value;
      if TagOf(d, pid) == Some(Form) {
        return Some(pid);
      }
      assert ParentOk(d, pid);
      assert rest[1..] == Ancestors(d, pid);
      rest := Ancestors(d, pid);
      current := d.nodes[pid].parent;
    }
    form := None;
  }

  /** The ancestors are exactly the other nodes whose subtree holds the node. */
  lemma {:induction false} AncestorHolds(d: Doc, x: nat, f: nat)
    requires WellFormed(d) && x in d.nodes && f in Ancestors(d, x)
    ensures f in d.nodes && f != x && d.nodes[f].depth < d.nodes[x].depth && x in PreOrder(d, f)
    decreases d.nodes[x].depth
  {
    assert ParentOk(d, x);
    var p := d.nodes[x].parent.value;
    if f != p {
      AncestorHolds(d, p, f);
    }
    ChildJoins(d, f, p, x);
  }

  lemma {:induction false} HolderIsAncestor(d: Doc, x: nat, f: nat)
    requires WellFormed(d) && x in d.nodes && f in d.nodes && x in PreOrder(d, f) && x != f
    ensures f in Ancestors(d, x)
    decreases d.height - d.nodes[f].depth
  {
    var i := BelowFrom(d, f, |d.nodes[f].children|, x);
    var c := d.nodes[f].children[i];
    assert ChildrenOk(d, f);
    assert f in Ancestors(d, c);
    if x != c {
      HolderIsAncestor(d, x, c);
      AncestorsChain(d, x, c, f);
    }
  }

  lemma {:induction false} AncestorsChain(d: Doc, x: nat, c: nat, f: nat)
    requires WellFormed(d) && x in d.nodes && c in d.nodes && c in Ancestors(d, x) && f in Ancestors(d, c)
    ensures f in Ancestors(d, x)
    decreases d.nodes[x].depth
  {
    assert ParentOk(d, x);
    var p := d.nodes[x].parent.value;
    if c != p { AncestorsChain(d, p, c, f); }
  }

  lemma {:induction false} FirstFormSplits(d: Doc, ids: seq<nat>)
    ensures FirstForm(d, ids).None? ==> forall f <- ids :: TagOf(d, f) != Some(Form)
    ensures FirstForm(d, ids).Some? ==>
              exists k | 0 <= k < |ids| ::
                && ids[k] == FirstForm(d, ids).value && TagOf(d, ids[k]) == Some(Form)
                && forall j | 0 <= j < k :: TagOf(d, ids[j]) != Some(Form)
    decreases |ids|
  {
    if ids != [] && TagOf(d, ids[0]) != Some(Form) {
      FirstFormSplits(d, ids[1..]);
      assert ids == [ids[0]] + ids[1..];
      if FirstForm(d, ids).Some? {
        var k :| 0 <= k < |ids[1..]| && ids[1..][k] == FirstForm(d, ids).value && TagOf(d, ids[1..][k]) == Some(Form)
                 && forall j | 0 <= j < k :: TagOf(d, ids[1..][j]) != Some(Form);
        forall j | 0 <= j < k + 1 ensures TagOf(d, ids[j]) != Some(Form) {
          if j > 0 { assert ids[1..][j - 1] == ids[j]; }
        }
        assert ids[k + 1] == ids[1..][k];
      }
    }
  }

  lemma {:induction false} EarlierAncestorInside(d: Doc, x: nat, k: nat, j: nat)
    requires WellFormed(d) && x in d.nodes && k < j < |Ancestors(d, x)|
    ensures Ancestors(d, x)[k] in d.nodes && Ancestors(d, x)[j] in Ancestors(d, Ancestors(d, x)[k])
    decreases k
  {
    hide Ancestors, WellFormed;
    UpOne(d, x);
    var p, up := d.nodes[x].parent.value, Ancestors(d, d.nodes[x].parent.value);
    assert Ancestors(d, x)[j] == up[j - 1];
    if k > 0 {
      assert Ancestors(d, x)[k] == up[k - 1];
      EarlierAncestorInside(d, p, k - 1, j - 1);
    }
  }

  lemma UpOne(d: Doc, x: nat)
    requires WellFormed(d) && x in d.nodes && Ancestors(d, x) != []
    ensures d.nodes[x].parent.Some? && d.nodes[x].parent.value in d.nodes
    ensures Ancestors(d, x) == [d.nodes[x].parent.value] + Ancestors(d, d.nodes[x].parent.value)
  {
    assert ParentOk(d, x);
  }

  lemma OuterFormHolds(d: Doc, x: nat, k: nat, f: nat)
    requires WellFormed(d) && x in d.nodes && k < |Ancestors(d, x)| && f in d.nodes && f != x && x in PreOrder(d, f)
    requires TagOf(d, f) == Some(Form) && forall j | 0 <= j < k :: TagOf(d, Ancestors(d, x)[j]) != Some(Form)
    ensures Ancestors(d, x)[k] in PreOrder(d, f)
  {
    hide WellFormed, Ancestors, TagOf;
    var up := Ancestors(d, x);
    HolderIsAncestor(d, x, f);
    var j :| 0 <= j < |up| && up[j] == f;
    if j > k {
      EarlierAncestorInside(d, x, k, j);
      AncestorHolds(d, up[k], f);
    } else {
      assert f in PreOrder(d, f);
    }
  }

  /** A control is submitted with the innermost form around it: that form holds the control, and
      any other form around the control holds that form too. */
  lemma InnermostForm(d: Doc, x: nat)
    requires WellFormed(d) && x in d.nodes
    ensures match FirstForm(d, Ancestors(d, x))
            case None => forall f <- d.nodes :: TagOf(d, f) == Some(Form) && f != x ==> x !in PreOrder(d, f)
            case Some(form) =>
              && form in d.nodes && form != x && TagOf(d, form) == Some(Form) && x in PreOrder(d, form)
              && forall f <- d.nodes :: TagOf(d, f) == Some(Form) && f != x && x in PreOrder(d, f) ==>
                 form in PreOrder(d, f)
  {
    hide WellFormed, Ancestors, FirstForm, TagOf, PreOrder;
    var up := Ancestors(d, x);
    FirstFormSplits(d, up);
    match FirstForm(d, up)
    case None =>
      forall f <- d.nodes | TagOf(d, f) == Some(Form) && f != x ensures x !in PreOrder(d, f) {
        if x in PreOrder(d, f) { HolderIsAncestor(d, x, f); }
      }
    case Some(form) =>
      var k :| 0 <= k < |up| && up[k] == form && TagOf(d, up[k]) == Some(Form)
               && forall j | 0 <= j < k :: TagOf(d, up[j]) != Some(Form);
      AncestorHolds(d, x, form);
      forall f <- d.nodes | TagOf(d, f) == Some(Form) && f != x && x in PreOrder(d, f) ensures form in PreOrder(d, f) {
        OuterFormHolds(d, x, k, f);
      }
  }

  function OwnPair(d: Doc, id: nat): seq<FormEncoding.Pair> {
    if NamedField(d, id) then [FormEncoding.Pair(TextOr(AttrOf(d, id, Name)), TextOr(AttrOf(d, id, Value)))] else []
  }

  function PairsOf(d: Doc, ids: seq<nat>): seq<FormEncoding.Pair> {
    if ids == [] then [] else OwnPair(d, ids[0]) + PairsOf(d, ids[1..])
  }

  lemma {:induction false} PairsConcat(d: Doc, a: seq<nat>, b: seq<nat>)
    ensures PairsOf(d, a + b) == PairsOf(d, a) + PairsOf(d, b)
    decreases |a|
  {
    if a == [] {
      assert a + b == b;
    } else {
      PairsConcat(d, a[1..], b);
      assert (a + b)[1..] == a[1..] + b;
    }
  }

  /** The named fields below a form, in document order. */
  ghost function FormPairs(d: Doc, form: nat): seq<FormEncoding.Pair>
    requires WellFormed(d) && form in d.nodes
  {
    PairsOf(d, Below(d, form, |d.nodes[form].children|))
  }

  method CollectFormValues(d: Doc, form: nat) returns (out: seq<FormEncoding.Pair>)
    requires WellFormed(d) && form in d.nodes
    ensures out == FormPairs(d, form)
  {
    out := [];
    var kids := d.nodes[form].children;
    for i := 0 to |kids|
      invariant out == PairsOf(d, Below(d, form, i))
    {
      assert ChildrenOk(d, form);
      PairsConcat(d, Below(d, form, i), PreOrder(d, kids[i]));
      out := WalkInputs(d, kids[i], out);
    }
  }

  lemma NextSubtree(d: Doc, id: nat, i: nat)
    requires WellFormed(d) && id in d.nodes && i < |d.nodes[id].children|
    ensures d.nodes[id].children[i] in d.nodes && d.nodes[d.nodes[id].children[i]].depth == d.nodes[id].depth + 1
    ensures [id] + Below(d, id, i + 1) == [id] + Below(d, id, i) + PreOrder(d, d.nodes[id].children[i])
  {
    assert ChildrenOk(d, id);
  }

  lemma FirstPair(d: Doc, id: nat)
    requires WellFormed(d) && id in d.nodes
    ensures PairsOf(d, [id] + Below(d, id, 0)) == OwnPair(d, id)
    ensures PreOrder(d, id) == [id] + Below(d, id, |d.nodes[id].children|)
  {
    assert [id] + Below(d, id, 0) == [id];
    assert [id][1..] == [];
  }

  method WalkInputs(d: Doc, id: nat, before: seq<FormEncoding.Pair>) returns (out: seq<FormEncoding.Pair>)
    requires WellFormed(d) && id in d.nodes
    ensures out == before + PairsOf(d, PreOrder(d, id))
    decreases d.height - d.nodes[id].depth
  {
    hide PairsOf, PreOrder, Below, NamedField;
    out := before;
    if NamedField(d, id) {
      out := out + [FormEncoding.Pair(TextOr(AttrOf(d, id, Name)), TextOr(AttrOf(d, id, Value)))];
    }
    FirstPair(d, id);
    for i := 0 to |d.nodes[id].children|
      invariant out == before + PairsOf(d, [id] + Below(d, id, i))
    {
      var c := d.nodes[id].children[i];
      NextSubtree(d, id, i);
      PairsConcat(d, [id] + Below(d, id, i), PreOrder(d, c));
      out := WalkInputs(d, c, out);
    }
  }

  predicate IsSubmit(d: Doc, id: nat) {
    var kind := AttrOf(d, id, Type);
    match TagOf(d, id)
    case Some(Button) => kind.None? || Lower(kind.value) == Ascii("submit")
    case Some(Input) => kind.Some? && (Lower(kind.value) == Ascii("submit") || Lower(kind.value) == Ascii("image"))
    case _ => false
  }

  /** The form's action, or "." when there is none. */
  function ActionOf(d: Doc, form: nat): Text {
    var action := AttrOf(d, form, Action);
    if action.Some? && action.value != [] then action.value else Ascii(".")
  }

  function SubmitUrl(action: Text, pairs: seq<FormEncoding.Pair>): Text {
    var query := FormEncoding.EncodeQuery(pairs);
    if query == [] then action else action + Ascii("?") + query
  }

  ghost function SubmitEffect(d: Doc, id: nat): Option<Effect>
    requires WellFormed(d) && id in d.nodes
  {
    var form := FirstForm(d, Ancestors(d, id));
    if !IsSubmit(d, id) || form.None? then None
    else
      FormInDoc(d, id);
      OpenEffect(SubmitUrl(ActionOf(d, form.value), FormPairs(d, form.value)))
  }

  lemma FormInDoc(d: Doc, id: nat)
    requires WellFormed(d) && id in d.nodes
    ensures var form := FirstForm(d, Ancestors(d, id)); form.Some? ==> form.value in d.nodes
  {
    InnermostForm(d, id);
  }

  /** Whatever the fields hold, the part after the action and the '?' parses back to exactly the
      named fields below the form, in document order; without such fields there is no '?'. */
  lemma SubmittedFieldsRecovered(action: Text, pairs: seq<FormEncoding.Pair>)
    ensures pairs == [] ==> SubmitUrl(action, pairs) == action
    ensures pairs != [] ==>
              exists query ::
                SubmitUrl(action, pairs) == action + Ascii("?") + query && FormEncoding.Parse(query) == pairs
  {
    hide FormEncoding.EncodeQuery, FormEncoding.Parse, Ascii;
    FormEncoding.EmptyQueryIff(pairs);
    FormEncoding.ParseInvertsEncode(pairs);
  }

  const MARK := [FormEncoding.QUESTION]

  lemma MarkIs()
    ensures Ascii("?") == MARK
  {}

  /** A URL reader finds exactly the submitted fields in the query, behind the first '?' and before any
      '#', when the action has neither; never when the action has a '?' and no '#'; and when it has a '#'
      only if the action's own query already says the same. */
  lemma SubmittedFieldsReadIff(action: Text, pairs: seq<FormEncoding.Pair>)
    requires pairs != []
    ensures FormEncoding.FieldsOf(SubmitUrl(action, pairs)) == Some(pairs) <==>
            if FormEncoding.HASH in action then FormEncoding.FieldsOf(action) == Some(pairs)
            else FormEncoding.QUESTION !in action
  {
    hide FormEncoding.EncodeQuery, FormEncoding.Parse, FormEncoding.BeforeHash, FormEncoding.AfterQuestion, Ascii;
    var query := FormEncoding.EncodeQuery(pairs);
    MarkIs();
    FormEncoding.EmptyQueryIff(pairs);
    FormEncoding.ParseInvertsEncode(pairs);
    FormEncoding.QueryIsPlain(pairs);
    var url := SubmitUrl(action, pairs);
    assert url == action + (MARK + query);
    FormEncoding.BeforeHashAppend(action, MARK + query);
    if FormEncoding.HASH !in action {
      PlainTail(query);
      FormEncoding.AfterQuestionAppend(action, MARK + query);
      if FormEncoding.QUESTION in action {
        var own := FormEncoding.AfterQuestion(action).value;
        assert own + (MARK + query) == own + MARK + query;
        FormEncoding.MarkInFrontDiffers(own, query);
      }
    }
  }

  lemma PlainTail(query: Text)
    requires FormEncoding.HASH !in query
    ensures FormEncoding.BeforeHash(MARK + query) == MARK + query
    ensures FormEncoding.AfterQuestion(MARK + query) == Some(query)
  {
    FormEncoding.BeforeHashAppend(MARK + query, []);
    assert MARK + query + [] == MARK + query;
    assert (MARK + query)[1..] == query;
  }

  /** For example the action "p?a" with one field. */
  lemma ActionWithQuery(name: Text, value: Text)
    ensures FormEncoding.FieldsOf(SubmitUrl([0x70] + MARK + [0x61], [FormEncoding.Pair(name, value)])) !=
            Some([FormEncoding.Pair(name, value)])
  {
    hide FormEncoding.FieldsOf, SubmitUrl;
    SubmittedFieldsReadIff([0x70] + MARK + [0x61], [FormEncoding.Pair(name, value)]);
  }

  method MaybeSubmitEffect(d: Doc, id: nat) returns (effect: Option<Effect>)
    requires WellFormed(d) && id in d.nodes
    ensures effect == SubmitEffect(d, id)
  {
    if !IsSubmit(d, id) {
      return None;
    }
    var form := FindAncestorForm(d, id);
    if form.None? {
      return None;
    }
    FormInDoc(d, id);
    var values := CollectFormValues(d, form.value);
    effect := OpenEffect(SubmitUrl(ActionOf(d, form.value), values));
  }

  // ---- clicks ------------------------------------------------------------------------------

  /** The details element a click on `id` opens or closes. */
  function ToggledBy(d: Doc, id: nat): Option<nat> {
    if TagOf(d, id) == Some(Summary) && d.nodes[id].parent.Some? && TagOf(d, d.nodes[id].parent.value) == Some(Details)
    then d.nodes[id].parent else None
  }

  function Toggled(d: Doc, p: nat): Doc {
    if AttrOf(d, p, Open).Some? then ClearAttr(d, p, Open) else SetAttr(d, p, Open, [])
  }

  ghost function EffectOf(d: Doc, target: Option<nat>): Option<Effect>
    requires WellFormed(d)
  {
    if target.None? || target.value !in d.nodes then None
    else
      match TagOf(d, target.value)
      case Some(A) => LinkEffect(d, target.value)
      case Some(Button) => SubmitEffect(d, target.value)
      case Some(Input) => SubmitEffect(d, target.value)
      case _ => None
  }

  function ClickedDoc(d: Doc, target: Option<nat>): Doc {
    if target.Some? && ToggledBy(d, target.value).Some? then Toggled(d, ToggledBy(d, target.value).value) else d
  }

  predicate Mutates(d: Doc, target: Option<nat>) { target.Some? && ToggledBy(d, target.value).Some? }

  method InterceptMut(base: BaseDocument, target: Option<nat>) returns (outcome: Outcome)
    requires WellFormed(base.doc)
    modifies base
    ensures base.doc == ClickedDoc(old(base.doc), target)
    ensures outcome == Outcome(EffectOf(old(base.doc), target), Mutates(old(base.doc), target))
  {
    if target.None? {
      return NO_OP;
    }
    var id := target.value;
    match TagOf(base.doc, id) {
      case Some(A) => outcome := Outcome(LinkEffect(base.doc, id), false);
      case Some(Summary) => outcome := ToggleDetailsParent(base, id);
      case Some(Button) =>
        var effect := MaybeSubmitEffect(base.doc, id);
        outcome := Outcome(effect, false);
      case Some(Input) =>
        var effect := MaybeSubmitEffect(base.doc, id);
        outcome := Outcome(effect, false);
      case _ => outcome := NO_OP;
    }
  }

  method ToggleDetailsParent(base: BaseDocument, summary: nat) returns (outcome: Outcome)
    requires TagOf(base.doc, summary) == Some(Summary)
    modifies base
    ensures base.doc == ClickedDoc(old(base.doc), Some(summary))
    ensures outcome == Outcome(None, Mutates(old(base.doc), Some(summary)))
  {
    var parent := base.doc.nodes[summary].parent;
    if parent.None? {
      return NO_OP;
    }
    if TagOf(base.doc, parent.value) != Some(Details) {
      return NO_OP;
    }
    if AttrOf(base.doc, parent.value, Open).Some? {
      base.ClearAttribute(parent.value, Open);
    } else {
      base.SetAttribute(parent.value, Open, []);
    }
    outcome := Outcome(None, true);
  }

  /** The details elements that are open. */
  predicate IsOpen(d: Doc, id: nat) { TagOf(d, id) == Some(Details) && AttrOf(d, id, Open).Some? }

  /** A click keeps the tree and flips at most one details element, the one it toggles. */
  lemma ClickFlips(d: Doc, target: Option<nat>, id: nat)
    requires WellFormed(d)
    ensures SameShape(d, ClickedDoc(d, target)) && WellFormed(ClickedDoc(d, target))
    ensures IsOpen(ClickedDoc(d, target), id) <==>
            if target.Some? && ToggledBy(d, target.value) == Some(id) then !IsOpen(d, id) else IsOpen(d, id)
  {
    hide SetAttr, ClearAttr, SameShape, WellFormed, TagOf, AttrOf;
    ClickShape(d, target);
    if Mutates(d, target) {
      var p := ToggledBy(d, target.value).value;
      ToggledIsDetails(d, target.value);
      AttrAfterEdit(d, p, Open, [], id, Open);
      AttrAfterEdit(d, p, Open, [], p, Open);
    }
  }

  lemma ToggledIsDetails(d: Doc, id: nat)
    ensures ToggledBy(d, id).Some? ==> TagOf(d, ToggledBy(d, id).value) == Some(Details)
  {}

  lemma ClickShape(d: Doc, target: Option<nat>)
    requires WellFormed(d)
    ensures SameShape(d, ClickedDoc(d, target)) && WellFormed(ClickedDoc(d, target))
  {
    hide SetAttr, ClearAttr, WellFormed;
    if Mutates(d, target) {
      EditKeepsShape(d, ToggledBy(d, target.value).value, Open, []);
    }
    ShapeKeepsForm(d, ClickedDoc(d, target));
  }

  // ---- what clicks can see --------------------------------------------------------------------

  /** The same tree with the same attributes, but for which details are open and for whether an empty
      value of a named field is written down. */
  ghost predicate Alike(d: Doc, e: Doc) {
    && SameShape(d, e)
    && (forall id, a | id in d.nodes && a != Open && a != Value :: AttrOf(d, id, a) == AttrOf(e, id, a))
    && (forall id <- d.nodes :: NamedField(d, id) ==> TextOr(AttrOf(d, id, Value)) == TextOr(AttrOf(e, id, Value)))
  }

  lemma AlikeNode(d: Doc, e: Doc, id: nat)
    requires Alike(d, e)
    ensures id in d.nodes <==> id in e.nodes
    ensures TagOf(d, id) == TagOf(e, id) && NamedField(d, id) == NamedField(e, id) && OwnPair(d, id) == OwnPair(e, id)
    ensures forall a | a != Open && a != Value :: AttrOf(d, id, a) == AttrOf(e, id, a)
    ensures id in d.nodes ==> d.nodes[id].parent == e.nodes[id].parent && d.nodes[id].children == e.nodes[id].children
  {
    if id in d.nodes {
      assert SameNode(d.nodes[id], e.nodes[id]);
    }
  }

  lemma {:induction false} AlikePairs(d: Doc, e: Doc, ids: seq<nat>)
    requires Alike(d, e)
    ensures PairsOf(d, ids) == PairsOf(e, ids)
    decreases |ids|
  {
    if ids != [] {
      AlikeNode(d, e, ids[0]);
      AlikePairs(d, e, ids[1..]);
    }
  }

  lemma {:induction false} AlikeForm(d: Doc, e: Doc, id: nat)
    requires WellFormed(d) && WellFormed(e) && Alike(d, e) && id in d.nodes && id in e.nodes
    ensures FirstForm(d, Ancestors(d, id)) == FirstForm(e, Ancestors(e, id))
    decreases d.nodes[id].depth
  {
    assert ParentOk(d, id) && ParentOk(e, id);
    AlikeNode(d, e, id);
    if d.nodes[id].parent.Some? {
      var p := d.nodes[id].parent.value;
      AlikeNode(d, e, p);
      AlikeForm(d, e, p);
      assert ([p] + Ancestors(d, p))[1..] == Ancestors(d, p) && ([p] + Ancestors(e, p))[1..] == Ancestors(e, p);
    }
  }

  /** Documents that are alike answer every click with the same effect and toggle the same element. */
  lemma AlikeAnswers(d: Doc, e: Doc, target: Option<nat>)
    requires WellFormed(d) && WellFormed(e) && Alike(d, e)
    ensures EffectOf(d, target) == EffectOf(e, target)
    ensures target.Some? ==> ToggledBy(d, target.value) == ToggledBy(e, target.value)
    ensures Mutates(d, target) == Mutates(e, target)
  {
    hide Alike, WellFormed, SubmitEffect, OpenEffect, TagOf, AttrOf;
    if target.Some? {
      var id := target.value;
      AlikeNode(d, e, id);
      AlikeToggles(d, e, id);
      if id in d.nodes {
        AlikeSubmit(d, e, id);
      }
    }
  }

  lemma AlikeToggles(d: Doc, e: Doc, id: nat)
    requires Alike(d, e)
    ensures ToggledBy(d, id) == ToggledBy(e, id)
  {
    hide Alike;
    AlikeNode(d, e, id);
    if id in d.nodes && d.nodes[id].parent.Some? { AlikeNode(d, e, d.nodes[id].parent.value); }
  }

  lemma AlikeSubmit(d: Doc, e: Doc, id: nat)
    requires WellFormed(d) && WellFormed(e) && Alike(d, e) && id in d.nodes && id in e.nodes
    ensures SubmitEffect(d, id) == SubmitEffect(e, id)
  {
    hide Alike, WellFormed, FirstForm, Ancestors, OpenEffect, SubmitUrl, Ascii, Lower, TagOf, AttrOf, NamedField;
    AlikeNode(d, e, id);
    AlikeForm(d, e, id);
    FormInDoc(d, id);
    var form := FirstForm(d, Ancestors(d, id));
    if form.Some? {
      AlikeNode(d, e, form.value);
      AlikeFormPairs(d, e, form.value);
    }
  }

  lemma AlikeFormPairs(d: Doc, e: Doc, form: nat)
    requires WellFormed(d) && WellFormed(e) && Alike(d, e) && form in d.nodes && form in e.nodes
    ensures FormPairs(d, form) == FormPairs(e, form)
  {
    AlikeNode(d, e, form);
    ShapeKeepsBelow(d, e, form, |d.nodes[form].children|);
    AlikePairs(d, e, Below(d, form, |d.nodes[form].children|));
  }

  /** Clicking keeps documents alike. */
  lemma ClickAlike(d: Doc, target: Option<nat>)
    requires WellFormed(d)
    ensures Alike(d, ClickedDoc(d, target))
  {
    hide SetAttr, ClearAttr, SameShape, WellFormed, TagOf, AttrOf, NamedField;
    ClickShape(d, target);
    var e := ClickedDoc(d, target);
    forall id, a | id in d.nodes && a != Open && a != Value ensures AttrOf(d, id, a) == AttrOf(e, id, a) {
      ClickAttr(d, target, id, a);
    }
    forall id <- d.nodes ensures AttrOf(d, id, Value) == AttrOf(e, id, Value) {
      ClickAttr(d, target, id, Value);
    }
  }

  lemma ClickAttr(d: Doc, target: Option<nat>, id: nat, a: Attr)
    requires a != Open
    ensures AttrOf(d, id, a) == AttrOf(ClickedDoc(d, target), id, a)
  {
    hide SetAttr, ClearAttr, TagOf, AttrOf;
    if Mutates(d, target) {
      ToggledIsDetails(d, target.value);
      AttrAfterEdit(d, ToggledBy(d, target.value).value, Open, [], id, a);
    }
  }
}
