/** A parsed document: a finite tree of nodes with stable ids, and the attributes of its elements. */
module Dom {
  import opened Wrappers
  import FormEncoding

  /** Attribute values are UTF-8 text. */
  type Text = FormEncoding.Bytes

  /** Local names. */
  datatype Tag = A | Summary | Details | Form | Button | Input | Select | Textarea | Html | OtherTag(name: string)

  datatype Attr = Href | Type | Action | Name | Value | Open | TabIndex | OtherAttr(name: string)

  datatype Element = Element(tag: Tag, attrs: map<Attr, Text>)

  /** Text nodes carry no element. `depth` is the distance from the root. */
  datatype Node = Node(element: Option<Element>, parent: Option<nat>, children: seq<nat>, depth: nat)

  /** The nodes under the root element; `height` bounds their depth. */
  datatype Doc = Doc(root: nat, nodes: map<nat, Node>, height: nat)

  ghost predicate ChildrenOk(d: Doc, id: nat)
    requires id in d.nodes
  {
    forall c <- d.nodes[id].children ::
      c in d.nodes && d.nodes[c].parent == Some(id) && d.nodes[c].depth == d.nodes[id].depth + 1
  }

  ghost predicate ParentOk(d: Doc, id: nat)
    requires id in d.nodes
  {
    match d.nodes[id].parent
    case None => id == d.root
    case Some(p) => p in d.nodes && id in d.nodes[p].children && d.nodes[p].depth < d.nodes[id].depth
  }

  /** Parents and children agree, and every chain of parents ends at the root. */
  ghost predicate WellFormed(d: Doc) {
    && d.root in d.nodes
    && forall id <- d.nodes :: d.nodes[id].depth <= d.height && ChildrenOk(d, id) && ParentOk(d, id)
  }

  function TagOf(d: Doc, id: nat): Option<Tag> {
    if id in d.nodes && d.nodes[id].element.Some? then Some(d.nodes[id].element.value.tag) else None
  }

  function AttrOf(d: Doc, id: nat, a: Attr): Option<Text> {
    if id in d.nodes && d.nodes[id].element.Some? && a in d.nodes[id].element.value.attrs
    then Some(d.nodes[id].element.value.attrs[a]) else None
  }

  function TextOr(t: Option<Text>): Text { if t.Some? then t.value else [] }

  predicate IsField(d: Doc, id: nat) { TagOf(d, id) in {Some(Input), Some(Select), Some(Textarea)} }

  /** A field that counts: it has a non-empty name. */
  predicate NamedField(d: Doc, id: nat) { IsField(d, id) && TextOr(AttrOf(d, id, Name)) != [] }

  // ---- document order ------------------------------------------------------------

  /** The first `n` subtrees below `id`. */
  ghost function Below(d: Doc, id: nat, n: nat): seq<nat>
    requires WellFormed(d) && id in d.nodes && n <= |d.nodes[id].children|
    decreases d.height - d.nodes[id].depth, n
  {
    if n == 0 then []
    else
      var c := d.nodes[id].children[n - 1];
      assert ChildrenOk(d, id);
      Below(d, id, n - 1) + PreOrder(d, c)
  }

  ghost function PreOrder(d: Doc, id: nat): seq<nat>
    requires WellFormed(d) && id in d.nodes
    decreases d.height - d.nodes[id].depth, |d.nodes[id].children| + 1
  {
    [id] + Below(d, id, |d.nodes[id].children|)
  }

  lemma {:induction false} BelowHas(d: Doc, id: nat, n: nat, i: nat, x: nat)
    requires WellFormed(d) && id in d.nodes && i < n <= |d.nodes[id].children|
    requires d.nodes[id].children[i] in d.nodes && x in PreOrder(d, d.nodes[id].children[i])
    ensures x in Below(d, id, n)
    decreases n
  {
    assert ChildrenOk(d, id);
    if i < n - 1 { BelowHas(d, id, n - 1, i, x); }
  }

  /** Every node of a subtree but its top lies in the subtree of one of the top's children. */
  lemma {:induction false} BelowFrom(d: Doc, id: nat, n: nat, x: nat) returns (i: nat)
    requires WellFormed(d) && id in d.nodes && n <= |d.nodes[id].children| && x in Below(d, id, n)
    ensures i < n && d.nodes[id].children[i] in d.nodes && x in PreOrder(d, d.nodes[id].children[i])
    decreases n
  {
    assert ChildrenOk(d, id);
    if x in PreOrder(d, d.nodes[id].children[n - 1]) {
      i := n - 1;
    } else {
      i := BelowFrom(d, id, n - 1, x);
    }
  }

  lemma {:induction false} PreOrderInDoc(d: Doc, id: nat, x: nat)
    requires WellFormed(d) && id in d.nodes && x in PreOrder(d, id)
    ensures x in d.nodes
    decreases d.height - d.nodes[id].depth
  {
    if x != id {
      var i := BelowFrom(d, id, |d.nodes[id].children|, x);
      assert ChildrenOk(d, id);
      PreOrderInDoc(d, d.nodes[id].children[i], x);
    }
  }

  lemma {:induction false} ChildJoins(d: Doc, top: nat, x: nat, c: nat)
    requires WellFormed(d) && top in d.nodes && x in PreOrder(d, top) && x in d.nodes && c in d.nodes[x].children
    ensures c in PreOrder(d, top)
    decreases d.height - d.nodes[top].depth
  {
    var kids := d.nodes[top].children;
    assert ChildrenOk(d, top);
    if x == top {
      var i: nat :| i < |kids| && kids[i] == c;
      BelowHas(d, top, |kids|, i, c);
    } else {
      var i := BelowFrom(d, top, |kids|, x);
      ChildJoins(d, kids[i], x, c);
      BelowHas(d, top, |kids|, i, c);
    }
  }

  /** A walk from the root meets every node. */
  lemma {:induction false} RootReaches(d: Doc, id: nat)
    requires WellFormed(d) && id in d.nodes
    ensures id in PreOrder(d, d.root)
    decreases d.nodes[id].depth
  {
    assert ParentOk(d, id);
    if id != d.root {
      var p := d.nodes[id].parent.value;
      RootReaches(d, p);
      ChildJoins(d, d.root, p, id);
    }
  }

  // ---- documents that differ in attributes only ----------------------------------------

  predicate SameNode(m: Node, n: Node) {
    && m.parent == n.parent && m.children == n.children && m.depth == n.depth
    && (m.element.Some? <==> n.element.Some?)
    && (m.element.Some? ==> m.element.value.tag == n.element.value.tag)
  }

  ghost predicate SameShape(d: Doc, e: Doc) {
    d.root == e.root && d.height == e.height && d.nodes.Keys == e.nodes.Keys
    && forall id <- d.nodes :: SameNode(d.nodes[id], e.nodes[id])
  }

  lemma ShapeKeepsForm(d: Doc, e: Doc)
    requires WellFormed(d) && SameShape(d, e)
    ensures WellFormed(e)
  {
    forall id <- e.nodes ensures e.nodes[id].depth <= e.height && ChildrenOk(e, id) && ParentOk(e, id) {
      assert SameNode(d.nodes[id], e.nodes[id]);
      assert ChildrenOk(d, id) && ParentOk(d, id);
      forall c <- e.nodes[id].children
        ensures c in e.nodes && e.nodes[c].parent == Some(id) && e.nodes[c].depth == e.nodes[id].depth + 1
      {
        assert SameNode(d.nodes[c], e.nodes[c]);
      }
      if e.nodes[id].parent.Some? {
        assert SameNode(d.nodes[e.nodes[id].parent.value], e.nodes[e.nodes[id].parent.value]);
      }
    }
  }

  lemma {:induction false} ShapeKeepsOrder(d: Doc, e: Doc, id: nat)
    requires WellFormed(d) && WellFormed(e) && SameShape(d, e) && id in d.nodes
    ensures PreOrder(d, id) == PreOrder(e, id)
    decreases d.height - d.nodes[id].depth, |d.nodes[id].children| + 1
  {
    assert SameNode(d.nodes[id], e.nodes[id]);
    hide WellFormed, SameShape, SameNode, Below;
    DepthBounded(d, id);
    ShapeKeepsBelow(d, e, id, |d.nodes[id].children|);
  }

  lemma DepthBounded(d: Doc, id: nat)
    requires WellFormed(d) && id in d.nodes
    ensures d.nodes[id].depth <= d.height
  {}

  lemma BelowStep(d: Doc, id: nat, n: nat)
    requires WellFormed(d) && id in d.nodes && n < |d.nodes[id].children|
    ensures var c := d.nodes[id].children[n];
            && c in d.nodes && d.nodes[c].depth == d.nodes[id].depth + 1
            && Below(d, id, n + 1) == Below(d, id, n) + PreOrder(d, c)
  {
    hide PreOrder;
    assert ChildrenOk(d, id);
  }

  lemma NothingBelow(d: Doc, id: nat)
    requires WellFormed(d) && id in d.nodes
    ensures Below(d, id, 0) == []
  {}

  lemma {:induction false} ShapeKeepsBelow(d: Doc, e: Doc, id: nat, n: nat)
    requires WellFormed(d) && WellFormed(e) && SameShape(d, e) && id in d.nodes
    requires d.nodes[id].children == e.nodes[id].children && n <= |d.nodes[id].children|
    ensures Below(d, id, n) == Below(e, id, n)
    decreases d.height - d.nodes[id].depth, n
  {
    assert e.nodes.Keys == d.nodes.Keys;
    hide WellFormed, SameShape, Below, PreOrder;
    DepthBounded(d, id);
    if n == 0 {
      NothingBelow(d, id);
      NothingBelow(e, id);
    } else {
      BelowStep(d, id, n - 1);
      BelowStep(e, id, n - 1);
      ShapeKeepsBelow(d, e, id, n - 1);
      ShapeKeepsOrder(d, e, d.nodes[id].children[n - 1]);
    }
  }

  // ---- edits -----------------------------------------------------------------------------

  function WithAttrs(n: Node, attrs: map<Attr, Text>): Node
    requires n.element.Some?
  {
    n.(element := Some(n.element.value.(attrs := attrs)))
  }

  function SetAttr(d: Doc, id: nat, a: Attr, v: Text): Doc {
    if id in d.nodes && d.nodes[id].element.Some? then
      d.(nodes := d.nodes[id := WithAttrs(d.nodes[id], d.nodes[id].element.value.attrs[a := v])])
    else d
  }

  function ClearAttr(d: Doc, id: nat, a: Attr): Doc {
    if id in d.nodes && d.nodes[id].element.Some? then
      d.(nodes := d.nodes[id := WithAttrs(d.nodes[id], d.nodes[id].element.value.attrs - {a})])
    else d
  }

  lemma EditKeepsShape(d: Doc, id: nat, a: Attr, v: Text)
    ensures SameShape(d, SetAttr(d, id, a, v)) && SameShape(d, ClearAttr(d, id, a))
  {}

  /** What an edit does to every attribute of every node. */
  lemma AttrAfterEdit(d: Doc, p: nat, a: Attr, v: Text, id: nat, b: Attr)
    requires TagOf(d, p).Some?
    ensures TagOf(SetAttr(d, p, a, v), id) == TagOf(d, id) == TagOf(ClearAttr(d, p, a), id)
    ensures AttrOf(SetAttr(d, p, a, v), id, b) == if id == p && a == b then Some(v) else AttrOf(d, id, b)
    ensures AttrOf(ClearAttr(d, p, a), id, b) == if id == p && a == b then None else AttrOf(d, id, b)
  {}

  class BaseDocument {
    var doc: Doc

    constructor (doc: Doc)
      ensures this.doc == doc
    {
      this.doc := doc;
    }

    method SetAttribute(id: nat, a: Attr, v: Text)
      modifies this
      ensures doc == SetAttr(old(doc), id, a, v)
    {
      if id in doc.nodes && doc.nodes[id].element.Some? {
        doc := doc.(nodes := doc.nodes[id := WithAttrs(doc.nodes[id], doc.nodes[id].element.value.attrs[a := v])]);
      }
    }

    method ClearAttribute(id: nat, a: Attr)
      modifies this
      ensures doc == ClearAttr(old(doc), id, a)
    {
      if id in doc.nodes && doc.nodes[id].element.Some? {
        doc := doc.(nodes := doc.nodes[id := WithAttrs(doc.nodes[id], doc.nodes[id].element.value.attrs - {a})]);
      }
    }
  }
}
