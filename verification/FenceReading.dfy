/** What a text with a canvas in it is shown as, and which characters count as blank or white. */
module FenceReading {
  import opened Wrappers
  import opened Fence
  import opened FenceTheory
  import Permissions

  /** Whole lines, none of which opens or closes a fence. */
  predicate PlainLines(inside: bool, s: string)
    decreases |s|
  {
    s == "" ||
    match FindNewline(s)
    case Some(nl) => !IsFenceLine(inside, s[..nl + 1]) && PlainLines(inside, s[nl + 1..])
    case None => false
  }

  lemma {:induction false} LinesShown(inside: bool, s: string, rest: string)
    requires PlainLines(inside, s)
    ensures Whole(inside, s + rest) == Prepend(Tag(inside, s), Whole(inside, rest))
    decreases |s|
  {
    hide IsFenceLine, Whole, FindNewline;
    if s == "" {
      assert s + rest == rest && Tag(inside, s) == [];
    } else {
      var nl := FindNewline(s).value;
      var line, more := s[..nl + 1], s[nl + 1..];
      FindNewlineAppend(s, rest);
      assert (s + rest)[..nl + 1] == line && (s + rest)[nl + 1..] == more + rest;
      WholeLine(inside, s + rest, nl);
      LinesShown(inside, more, rest);
      TagAppend(inside, line, more);
      assert line + more == s;
    }
  }

  lemma MarkerLine(inside: bool, rest: string)
    ensures Whole(inside, FenceLine(inside) + rest) == Whole(!inside, rest)
  {
    hide IsFenceLine, Whole, FindNewline;
    var line := FenceLine(inside);
    FenceLineIs(inside);
    var nl := FindNewline(line).value;
    FindNewlineAppend(line, rest);
    assert (line + rest)[..nl + 1] == line && (line + rest)[nl + 1..] == rest;
    WholeLine(inside, line + rest, nl);
  }

  lemma Markers()
    ensures FenceLine(false) == "```html-canvas\n" && FenceLine(true) == "```\n"
  {
    assert "```html-canvas" + "\n" == "```html-canvas\n" && "```" + "\n" == "```\n";
  }

  /** Text, a canvas between its two markers, and more text: the text is shown as text, what stands between
      the markers as the canvas, and the markers not at all. */
  lemma CanvasIsShown(before: string, body: string, after: string)
    requires PlainLines(false, before) && PlainLines(true, body)
    ensures Whole(false, before + "```html-canvas\n" + body + "```\n" + after) ==
            Prepend(Tag(false, before), Prepend(Tag(true, body), Whole(false, after)))
  {
    hide PlainLines, Whole, Prepend;
    Markers();
    var open, close := FenceLine(false), FenceLine(true);
    LinesShown(false, before, open + (body + (close + after)));
    MarkerLine(false, body + (close + after));
    LinesShown(true, body, close + after);
    MarkerLine(true, after);
    assert before + open + body + close + after == before + (open + (body + (close + after)));
  }

  /** A canvas that is not closed is shown to the end, and reported as open. */
  lemma OpenCanvasIsShown(before: string, body: string)
    requires PlainLines(false, before) && PlainLines(true, body)
    ensures Whole(false, before + "```html-canvas\n" + body) == Outcome(Tag(false, before) + Tag(true, body), true)
  {
    hide PlainLines, Whole;
    Markers();
    var open := FenceLine(false);
    LinesShown(false, before, open + body);
    MarkerLine(false, body);
    LinesShown(true, body, "");
    assert Whole(true, "") == Outcome([], true) by { NothingLeft(); }
    assert body + "" == body && before + open + body == before + (open + body);
  }

  lemma NothingLeft()
    ensures Whole(true, "") == Outcome([], true)
  {
    WholeTail(true, "");
    assert FindNewline("").None? && !HeldFence(true, "") && Tag(true, "") == [];
  }

  /** The characters with the property White_Space of the Unicode standard. */
  const WHITE: set<char> := {
    '\t', '\n', '\U{B}', '\U{C}', '\r', ' ', '\U{85}', '\U{A0}', '\U{1680}', '\U{2000}', '\U{2001}', '\U{2002}',
    '\U{2003}', '\U{2004}', '\U{2005}', '\U{2006}', '\U{2007}', '\U{2008}', '\U{2009}', '\U{200A}', '\U{2028}',
    '\U{2029}', '\U{202F}', '\U{205F}', '\U{3000}'}

  lemma WhitespaceIs(c: char)
    ensures IsWhitespace(c) <==> c in WHITE
    ensures Permissions.IsSpace(c) <==> c in WHITE
  {
    var n := c as int;
    if 0x2000 <= n <= 0x200A || 0x9 <= n <= 0xD {
      assert n in {0x9, 0xA, 0xB, 0xC, 0xD, 0x2000, 0x2001, 0x2002, 0x2003, 0x2004, 0x2005, 0x2006, 0x2007, 0x2008,
                   0x2009, 0x200A};
      CharOf(c);
    }
  }

  lemma CharOf(c: char)
    ensures c == c as int as char
  {}

  /** A partial line is held exactly when it is spaces and tabs and then a part of the marker awaited. */
  lemma HeldIff(inside: bool, s: string)
    ensures Holdable(inside, s) <==>
            exists k :: 0 <= k <= |s| && (forall i | 0 <= i < k :: s[i] == ' ' || s[i] == '\t') &&
                        s[k..] <= if inside then "```" else "```html-canvas"
  {
    HeldShape(inside, s);
  }
}
