/** The streaming parser that cuts `html-canvas` fences out of model output.
    Text is a sequence of characters; whitespace is the Unicode White_Space property. */
module Fence {
  import opened Wrappers

  /** What the parser hands to its caller. */
  datatype FenceChunk = Text(text: string) | Html(text: string)

  /** What happens to one stretch of input: it is shown, or it is a fence line and dropped. */
  datatype Piece = Shown(html: bool, text: string) | Dropped(html: bool, text: string)

  /** One shown character with the kind of chunk it was shown in. */
  datatype Tagged = Tagged(html: bool, ch: char)

  // ---- line tests -------------------------------------------------------

  predicate IsWhitespace(c: char) {
    || '\t' <= c <= '\r' || c == ' ' || c == '\U{85}' || c == '\U{A0}' || c == '\U{1680}'
    || '\U{2000}' <= c <= '\U{200A}' || c == '\U{2028}' || c == '\U{2029}'
    || c == '\U{202F}' || c == '\U{205F}' || c == '\U{3000}'
  }

  predicate IsBlank(c: char) { c == ' ' || c == '\t' }

  function Marker(inside: bool): (m: string)
    ensures |m| >= 3 && m[0] == '`' && forall i :: 0 <= i < |m| ==> !IsWhitespace(m[i])
  {
    if inside then "```" else "```html-canvas"
  }

  function FindNewline(s: string): (r: Option<nat>)
    ensures r.Some? ==> r.value < |s|
  {
    if s == "" then None
    else if s[0] == '\n' then Some(0)
    else match FindNewline(s[1..])
      case None => None
      case Some(i) => Some(i + 1)
  }

  function TrimEnd(s: string): string {
    if s != "" && (s[|s| - 1] == '\n' || s[|s| - 1] == '\r') then TrimEnd(s[..|s| - 1]) else s
  }

  function TrimStart(s: string): string {
    if s != "" && IsWhitespace(s[0]) then TrimStart(s[1..]) else s
  }

  function BlankLength(s: string): (n: nat)
    ensures n <= |s|
  {
    if s != "" && IsBlank(s[0]) then 1 + BlankLength(s[1..]) else 0
  }

  /** A whole line (with or without its newline) that opens or closes a fence. */
  predicate IsFenceLine(inside: bool, line: string) {
    TrimStart(TrimEnd(line)) == Marker(inside)
  }

  /** A partial line that may still grow into a fence line. */
  predicate Holdable(inside: bool, s: string) {
    s[BlankLength(s)..] <= Marker(inside)
  }

  function SplitSafeFlush(tail: string, inside: bool): (r: (string, string))
    ensures r.0 + r.1 == tail && (r.0 == "" || r.1 == "")
    ensures Holdable(inside, r.1)
    ensures Holdable(inside, tail) ==> r.1 == tail
  {
    if Holdable(inside, tail) then ("", tail) else (tail, "")
  }

  // ---- the parser as a function on text ---------------------------------

  function LinePiece(inside: bool, line: string): Piece {
    if IsFenceLine(inside, line) then Dropped(inside, line) else Shown(inside, line)
  }

  function AfterLine(inside: bool, line: string): bool {
    if IsFenceLine(inside, line) then !inside else inside
  }

  /** Parser state and the pieces produced on the way there. */
  datatype Walked = Walked(inside: bool, buf: string, pieces: seq<Piece>)

  /** One push: `s` is the buffer followed by the new fragment. */
  function Walk(inside: bool, s: string): Walked
    decreases |s|
  {
    match FindNewline(s)
    case Some(nl) =>
      var rest := Walk(AfterLine(inside, s[..nl + 1]), s[nl + 1..]);
      rest.(pieces := [LinePiece(inside, s[..nl + 1])] + rest.pieces)
    case None =>
      if Holdable(inside, s) then Walked(inside, s, []) else Walked(inside, "", [Shown(inside, s)])
  }

  function FinishPieces(buf: string, inside: bool): seq<Piece> {
    if buf == "" then [] else [LinePiece(inside, buf)]
  }

  function FinishInside(buf: string, inside: bool): bool {
    if buf == "" then inside else AfterLine(inside, buf)
  }

  /** The characters of the pieces, shown and dropped, in order. */
  function Raw(pieces: seq<Piece>): string {
    if pieces == [] then "" else pieces[0].text + Raw(pieces[1..])
  }

  function Tag(html: bool, s: string): (r: seq<Tagged>)
    ensures |r| == |s|
  {
    seq(|s|, i requires 0 <= i < |s| => Tagged(html, s[i]))
  }

  function TagPiece(p: Piece): seq<Tagged> {
    if p.Shown? then Tag(p.html, p.text) else []
  }

  /** The tagged character stream a list of pieces shows. */
  function Tags(pieces: seq<Piece>): seq<Tagged> {
    if pieces == [] then [] else TagPiece(pieces[0]) + Tags(pieces[1..])
  }

  function TagChunks(chunks: seq<FenceChunk>): seq<Tagged> {
    if chunks == [] then [] else Tag(chunks[0].Html?, chunks[0].text) + TagChunks(chunks[1..])
  }

  // ---- the parser object ------------------------------------------------

  function Chunk(html: bool, s: string): FenceChunk { if html then Html(s) else Text(s) }

  function AppendShown(out: seq<FenceChunk>, html: bool, s: string): seq<FenceChunk> {
    if out != [] && out[|out| - 1].Html? == html then
      out[..|out| - 1] + [Chunk(html, out[|out| - 1].text + s)]
    else
      out + [Chunk(html, s)]
  }

  /** Adjacent pieces of one kind end up in one chunk. */
  function Coalesce(out: seq<FenceChunk>, pieces: seq<Piece>): seq<FenceChunk>
    decreases |pieces|
  {
    if pieces == [] then out
    else
      var p := pieces[0];
      Coalesce(if p.Shown? then AppendShown(out, p.html, p.text) else out, pieces[1..])
  }

  /** Taking one line off the buffer takes its piece off what is still to be shown. */
  lemma WalkStep(inside: bool, s: string, nl: nat, out: seq<FenceChunk>)
    requires FindNewline(s) == Some(nl)
    ensures var w, p := Walk(inside, s), LinePiece(inside, s[..nl + 1]);
            var rest := Walk(AfterLine(inside, s[..nl + 1]), s[nl + 1..]);
            w.inside == rest.inside && w.buf == rest.buf
            && Coalesce(out, w.pieces) == Coalesce(Coalesce(out, [p]), rest.pieces)
  {
    hide IsFenceLine, Holdable;
    var p, rest := LinePiece(inside, s[..nl + 1]), Walk(AfterLine(inside, s[..nl + 1]), s[nl + 1..]);
    assert ([p] + rest.pieces)[1..] == rest.pieces && [p][1..] == [];
    assert Walk(inside, s).pieces == [p] + rest.pieces;
  }

  lemma WalkEnd(inside: bool, s: string, out: seq<FenceChunk>)
    requires FindNewline(s).None?
    ensures Coalesce(out, Walk(inside, s).pieces) == if Holdable(inside, s) then out else AppendShown(out, inside, s)
    ensures Walk(inside, s).inside == inside && Walk(inside, s).buf == if Holdable(inside, s) then s else ""
    ensures Holdable(inside, "")
  {
    assert [Shown(inside, s)][1..] == [];
  }

  class FenceParser {
    var buf: string
    var inside: bool

    constructor ()
      ensures buf == "" && !inside
    {
      buf, inside := "", false;
    }

    method ConsumeLine(line: string, out: seq<FenceChunk>) returns (r: seq<FenceChunk>)
      modifies this`inside
      ensures inside == AfterLine(old(inside), line)
      ensures r == Coalesce(out, [LinePiece(old(inside), line)])
    {
      r := out;
      var trimmed := TrimEnd(line);
      if !inside {
        if TrimStart(trimmed) == "```html-canvas" {
          inside := true;
          return;
        }
        r := AppendShown(out, false, line);
      } else {
        if TrimStart(trimmed) == "```" {
          inside := false;
          return;
        }
        r := AppendShown(out, true, line);
      }
    }

    method Push(fragment: string) returns (out: seq<FenceChunk>)
      modifies this
      ensures var w := Walk(old(inside), old(buf) + fragment);
              inside == w.inside && buf == w.buf && out == Coalesce([], w.pieces)
    {
      hide IsFenceLine, Holdable, Walk, FindNewline, Coalesce, AppendShown;
      out := [];
      buf := buf + fragment;
      ghost var whole := Walk(inside, buf);
      var nl := FindNewline(buf);
      while nl.Some?
        invariant nl == FindNewline(buf)
        invariant var w := Walk(inside, buf);
                  w.inside == whole.inside && w.buf == whole.buf
                  && Coalesce(out, w.pieces) == Coalesce([], whole.pieces)
        decreases |buf|
      {
        var line := buf[..nl.value + 1];
        WalkStep(inside, buf, nl.value, out);
        buf := buf[nl.value + 1..];
        out := ConsumeLine(line, out);
        nl := FindNewline(buf);
      }
      WalkEnd(inside, buf, out);
      var (flushable, hold) := SplitSafeFlush(buf, inside);
      if flushable != "" {
        out := AppendShown(out, inside, flushable);
      }
      buf := hold;
    }

    method Finish() returns (chunks: seq<FenceChunk>, unclosedFence: bool)
      modifies this
      ensures chunks == Coalesce([], FinishPieces(old(buf), old(inside)))
      ensures unclosedFence == inside == FinishInside(old(buf), old(inside))
    {
      chunks := [];
      if buf != "" {
        var line := buf;
        buf := "";
        chunks := ConsumeLine(line, chunks);
      }
      unclosedFence := inside;
    }
  }
}
