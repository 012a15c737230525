/** What the fence parser does with a whole text, however the text is cut into pushes. */
module FenceTheory {
  import opened Fence
  import opened Wrappers

  // ---- streams ------------------------------------------------------------

  /** Everything a caller sees: the tagged characters and the unclosed-fence flag. */
  datatype Outcome = Outcome(stream: seq<Tagged>, unclosed: bool)

  function Prepend(s: seq<Tagged>, o: Outcome): Outcome { Outcome(s + o.stream, o.unclosed) }

  function FinishOutcome(inside: bool, buf: string): Outcome {
    Outcome(Tags(FinishPieces(buf, inside)), FinishInside(buf, inside))
  }

  /** Push every fragment in turn, then finish. */
  function Stream(inside: bool, buf: string, fragments: seq<string>): Outcome
    decreases |fragments|
  {
    if fragments == [] then FinishOutcome(inside, buf)
    else
      var w := Walk(inside, buf + fragments[0]);
      Prepend(Tags(w.pieces), Stream(w.inside, w.buf, fragments[1..]))
  }

  /** One push of `s` followed by finish. */
  function Whole(inside: bool, s: string): Outcome {
    var w := Walk(inside, s);
    Prepend(Tags(w.pieces), FinishOutcome(w.inside, w.buf))
  }

  function Concat(fragments: seq<string>): string {
    if fragments == [] then "" else fragments[0] + Concat(fragments[1..])
  }

  // ---- conservation: no condition on the text -------------------------------

  lemma {:induction false} TagChunksConcat(a: seq<FenceChunk>, c: FenceChunk)
    ensures TagChunks(a + [c]) == TagChunks(a) + Tag(c.Html?, c.text)
  {
    if a == [] {
      assert a + [c] == [c] && [c][1..] == [];
    } else {
      TagChunksConcat(a[1..], c);
      assert (a + [c])[1..] == a[1..] + [c];
    }
  }

  lemma TagChunksAppend(out: seq<FenceChunk>, html: bool, s: string)
    ensures TagChunks(AppendShown(out, html, s)) == TagChunks(out) + Tag(html, s)
  {
    hide TagChunks, Tag;
    if out != [] && out[|out| - 1].Html? == html {
      var init, last := out[..|out| - 1], out[|out| - 1];
      assert out == init + [last];
      TagChunksConcat(init, last);
      TagChunksConcat(init, Chunk(html, last.text + s));
      TagAppend(html, last.text, s);
    } else {
      TagChunksConcat(out, Chunk(html, s));
    }
  }

  /** Chunks show exactly the characters of the pieces they were built from. */
  lemma {:induction false} CoalesceKeepsTags(out: seq<FenceChunk>, pieces: seq<Piece>)
    ensures TagChunks(Coalesce(out, pieces)) == TagChunks(out) + Tags(pieces)
    decreases |pieces|
  {
    if pieces != [] {
      var p := pieces[0];
      var out' := if p.Shown? then AppendShown(out, p.html, p.text) else out;
      if p.Shown? { TagChunksAppend(out, p.html, p.text); }
      CoalesceKeepsTags(out', pieces[1..]);
    }
  }

  /** No chunk is empty and neighbours differ in kind, so a push never splits a run. */
  ghost predicate Alternating(chunks: seq<FenceChunk>) {
    && (forall i :: 0 <= i < |chunks| ==> chunks[i].text != "")
    && (forall i :: 0 < i < |chunks| ==> chunks[i].Html? != chunks[i - 1].Html?)
  }

  lemma {:induction false} CoalesceAlternates(out: seq<FenceChunk>, pieces: seq<Piece>)
    requires Alternating(out)
    requires forall p :: p in pieces ==> p.text != ""
    ensures Alternating(Coalesce(out, pieces))
    decreases |pieces|
  {
    if pieces != [] {
      var p := pieces[0];
      CoalesceAlternates(if p.Shown? then AppendShown(out, p.html, p.text) else out, pieces[1..]);
    }
  }

  // Unfoldings of the parser, so that longer proofs need not look inside it.

  lemma WalkLine(inside: bool, s: string, nl: nat)
    requires FindNewline(s) == Some(nl)
    ensures var rest := Walk(AfterLine(inside, s[..nl + 1]), s[nl + 1..]);
            Walk(inside, s) == Walked(rest.inside, rest.buf, [LinePiece(inside, s[..nl + 1])] + rest.pieces)
  {
    hide IsFenceLine, Holdable, LinePiece, AfterLine, FindNewline;
  }

  lemma WholeLine(inside: bool, s: string, nl: nat)
    requires FindNewline(s) == Some(nl)
    ensures Whole(inside, s)
            == Prepend(TagPiece(LinePiece(inside, s[..nl + 1])), Whole(AfterLine(inside, s[..nl + 1]), s[nl + 1..]))
  {
    hide IsFenceLine, Holdable, Walk, Tags, LinePiece, AfterLine, FinishOutcome, FindNewline, TagPiece;
    WalkLine(inside, s, nl);
    var p, rest := LinePiece(inside, s[..nl + 1]), Walk(AfterLine(inside, s[..nl + 1]), s[nl + 1..]);
    TagsCons(p, rest.pieces);
    assert (TagPiece(p) + Tags(rest.pieces)) + FinishOutcome(rest.inside, rest.buf).stream
           == TagPiece(p) + (Tags(rest.pieces) + FinishOutcome(rest.inside, rest.buf).stream);
  }

  lemma WholeTail(inside: bool, tail: string)
    requires FindNewline(tail).None?
    ensures Whole(inside, tail) ==
            if HeldFence(inside, tail) then Outcome([], !inside) else Outcome(Tag(inside, tail), inside)
  {
    if tail == "" {
      assert Marker(inside) != "";
    } else if !Holdable(inside, tail) {
      TagsOne(Shown(inside, tail));
    } else {
      TagsOne(LinePiece(inside, tail));
    }
  }

  lemma TagsOne(p: Piece)
    ensures Tags([p]) == TagPiece(p)
  {
    assert [p][1..] == [];
  }

  lemma RawOne(p: Piece)
    ensures Raw([p]) == p.text
  {
    assert [p][1..] == [];
  }

  /** Every piece holds text, and every dropped piece is a fence line. */
  ghost predicate Genuine(pieces: seq<Piece>) {
    forall p :: p in pieces ==> p.text != "" && (p.Dropped? ==> IsFenceLine(p.html, p.text))
  }

  lemma GenuineAppend(a: seq<Piece>, b: seq<Piece>)
    requires Genuine(a) && Genuine(b)
    ensures Genuine(a + b)
  {}

  lemma GenuineLine(inside: bool, line: string)
    requires line != ""
    ensures Genuine([LinePiece(inside, line)])
  {}

  /** What stays buffered has no newline and may still grow into a fence line. */
  predicate Pending(inside: bool, buf: string) { '\n' !in buf && Holdable(inside, buf) }

  /** Nothing is lost or invented by a push, whatever the text. */
  lemma {:induction false} WalkConserves(inside: bool, s: string)
    ensures var w := Walk(inside, s);
            Raw(w.pieces) + w.buf == s && Pending(w.inside, w.buf) && Genuine(w.pieces)
    decreases |s|
  {
    hide Walk, IsFenceLine, Holdable, Raw, Genuine, FindNewline, Pending, LinePiece;
    match FindNewline(s)
    case Some(nl) =>
      var line, tail := s[..nl + 1], s[nl + 1..];
      var p, rest := LinePiece(inside, line), Walk(AfterLine(inside, line), tail);
      WalkConserves(AfterLine(inside, line), tail);
      WalkLine(inside, s, nl);
      RawAppend([p], rest.pieces);
      RawOne(p);
      GenuineLine(inside, line);
      GenuineAppend([p], rest.pieces);
      LinePieceText(inside, line);
      assert s == line + tail;
      assert (line + Raw(rest.pieces)) + rest.buf == line + (Raw(rest.pieces) + rest.buf);
    case None =>
      TailConserves(inside, s);
  }

  lemma LinePieceText(inside: bool, line: string)
    ensures LinePiece(inside, line).text == line
  {}

  lemma TailConserves(inside: bool, s: string)
    requires FindNewline(s).None?
    ensures var w := Walk(inside, s);
            Raw(w.pieces) + w.buf == s && Pending(w.inside, w.buf) && Genuine(w.pieces)
  {
    FirstNewline(s);
    WalkTail(inside, s);
    EmptyIsHoldable(inside);
    RawOne(Shown(inside, s));
    assert "" + s == s && s + "" == s;
  }

  /** The pieces of a whole run of pushes. */
  function PushAll(inside: bool, buf: string, fragments: seq<string>): Walked
    decreases |fragments|
  {
    if fragments == [] then Walked(inside, buf, [])
    else
      var w := Walk(inside, buf + fragments[0]);
      var rest := PushAll(w.inside, w.buf, fragments[1..]);
      rest.(pieces := w.pieces + rest.pieces)
  }

  lemma Associates(x: string, y: string, z: string)
    ensures x + (y + z) == (x + y) + z
  {}

  lemma {:induction false} RawAppend(a: seq<Piece>, b: seq<Piece>)
    ensures Raw(a + b) == Raw(a) + Raw(b)
  {
    if a == [] {
      assert a + b == b;
    } else {
      RawAppend(a[1..], b);
      assert (a + b)[1..] == a[1..] + b;
      Associates(a[0].text, Raw(a[1..]), Raw(b));
    }
  }

  /** For every fragmentation: the input so far is the shown and dropped pieces in order,
      followed by the buffer; every dropped piece is a fence line; and the buffer is pending. */
  lemma {:induction false} RunConserves(inside: bool, buf: string, fragments: seq<string>)
    requires Pending(inside, buf)
    ensures var w := PushAll(inside, buf, fragments);
            Raw(w.pieces) + w.buf == buf + Concat(fragments) && Pending(w.inside, w.buf) && Genuine(w.pieces)
    decreases |fragments|
  {
    hide IsFenceLine, Walk, Pending, Raw, Genuine;
    if fragments == [] {
      assert buf + Concat(fragments) == buf;
      NothingYet(buf);
    } else {
      var w := Walk(inside, buf + fragments[0]);
      WalkConserves(inside, buf + fragments[0]);
      RunConserves(w.inside, w.buf, fragments[1..]);
      var rest := PushAll(w.inside, w.buf, fragments[1..]);
      RawAppend(w.pieces, rest.pieces);
      GenuineAppend(w.pieces, rest.pieces);
      calc {
        Raw(w.pieces + rest.pieces) + rest.buf;
        (Raw(w.pieces) + Raw(rest.pieces)) + rest.buf;
        Raw(w.pieces) + (Raw(rest.pieces) + rest.buf);
        Raw(w.pieces) + (w.buf + Concat(fragments[1..]));
        (Raw(w.pieces) + w.buf) + Concat(fragments[1..]);
        (buf + fragments[0]) + Concat(fragments[1..]);
        buf + Concat(fragments);
      }
    }
  }

  lemma NothingYet(buf: string)
    ensures Raw([]) + buf == buf && Genuine([])
  {
    assert "" + buf == buf;
  }

  /** A held buffer is blanks followed by a prefix of the marker for the current state. */
  lemma {:induction false} HeldShape(inside: bool, s: string)
    ensures Holdable(inside, s) <==>
            exists k :: 0 <= k <= |s| && (forall i :: 0 <= i < k ==> IsBlank(s[i])) && s[k..] <= Marker(inside)
  {
    if Holdable(inside, s) {
      BlanksBefore(s);
    } else if k :| 0 <= k <= |s| && (forall i :: 0 <= i < k ==> IsBlank(s[i])) && s[k..] <= Marker(inside) {
      BlankLengthIs(s, k);
    }
  }

  lemma {:induction false} BlanksBefore(s: string)
    ensures forall i :: 0 <= i < BlankLength(s) ==> IsBlank(s[i])
  {
    if s != "" && IsBlank(s[0]) { BlanksBefore(s[1..]); }
  }

  lemma {:induction false} BlankLengthIs(s: string, k: nat)
    requires k <= |s| && (forall i :: 0 <= i < k ==> IsBlank(s[i])) && (k < |s| ==> !IsBlank(s[k]))
    ensures BlankLength(s) == k
  {
    if k > 0 { BlankLengthIs(s[1..], k - 1); }
  }

  // ---- chunk independence ---------------------------------------------------

  /** No eager flush inside `line` leaves a fence line on either side of the cut. */
  predicate LineSafe(inside: bool, line: string)
    requires line != ""
  {
    forall q | 0 <= q < |line| && !Holdable(inside, line[..q]) ::
      !IsFenceLine(inside, line) && !IsFenceLine(inside, line[q..])
  }

  predicate HeldFence(inside: bool, s: string) {
    Holdable(inside, s) && IsFenceLine(inside, s)
  }

  /** The same for the text after the last newline, which is only read at finish. */
  predicate TailSafe(inside: bool, tail: string) {
    forall q | 0 <= q <= |tail| && !Holdable(inside, tail[..q]) :: !HeldFence(inside, tail[q..])
  }

  /** Every line of `s`, read in the state the lines before it leave, is safe to cut. */
  predicate ChunkSafe(inside: bool, s: string)
    decreases |s|
  {
    match FindNewline(s)
    case Some(nl) =>
      LineSafe(inside, s[..nl + 1]) && ChunkSafe(AfterLine(inside, s[..nl + 1]), s[nl + 1..])
    case None => TailSafe(inside, s)
  }

  lemma {:induction false} BlankLengthPrefix(s: string, q: nat)
    requires q <= |s|
    ensures BlankLength(s[..q]) == if BlankLength(s) < q then BlankLength(s) else q
  {
    if s != "" && q > 0 && IsBlank(s[0]) {
      assert s[..q][1..] == s[1..][..q - 1];
      BlankLengthPrefix(s[1..], q - 1);
    }
  }

  /** Once a partial line has diverged from the marker, more text cannot bring it back. */
  lemma HoldablePrefix(inside: bool, s: string, q: nat)
    requires q <= |s| && Holdable(inside, s)
    ensures Holdable(inside, s[..q])
  {
    BlankLengthPrefix(s, q);
    var b := BlankLength(s);
    if b < q {
      assert s[..q][b..] == s[b..][..q - b];
    }
  }

  /** The first newline, if there is one. */
  lemma {:induction false} FirstNewline(s: string)
    ensures FindNewline(s).None? <==> '\n' !in s
    ensures var r := FindNewline(s); r.Some? ==> s[r.value] == '\n' && '\n' !in s[..r.value]
  {
    if s != "" && s[0] != '\n' {
      FirstNewline(s[1..]);
      assert s == [s[0]] + s[1..];
      var r := FindNewline(s[1..]);
      if r.Some? { assert s[..r.value + 1] == [s[0]] + s[1..][..r.value]; }
    }
  }

  lemma FindNewlineAppend(s: string, r: string)
    ensures FindNewline(s).Some? ==> FindNewline(s + r) == FindNewline(s)
    ensures FindNewline(s).None? && FindNewline(r).Some? ==> FindNewline(s + r) == Some(|s| + FindNewline(r).value)
    ensures FindNewline(s).None? && FindNewline(r).None? ==> FindNewline(s + r) == None
  {
    hide FindNewline;
    if FindNewline(s).Some? {
      NewlineInFront(s, r);
    } else if FindNewline(r).Some? {
      NewlineBehind(s, r);
    } else {
      FirstNewline(s);
      FirstNewline(r);
      FirstNewline(s + r);
    }
  }

  lemma NewlineInFront(s: string, r: string)
    requires FindNewline(s).Some?
    ensures FindNewline(s + r) == FindNewline(s)
  {
    FirstNewline(s);
    var i := FindNewline(s).value;
    assert (s + r)[..i] == s[..i];
    NewlineAt(s + r, i);
  }

  lemma NewlineBehind(s: string, r: string)
    requires FindNewline(s).None? && FindNewline(r).Some?
    ensures FindNewline(s + r) == Some(|s| + FindNewline(r).value)
  {
    hide FindNewline;
    FirstNewline(s);
    FirstNewline(r);
    var i := FindNewline(r).value;
    assert (s + r)[..|s| + i] == s + r[..i];
    NewlineAt(s + r, |s| + i);
  }

  lemma NewlineAt(s: string, i: nat)
    requires i < |s| && s[i] == '\n' && '\n' !in s[..i]
    ensures FindNewline(s) == Some(i)
  {
    FirstNewline(s);
    var j := FindNewline(s).value;
    assert !(j < i) by { assert forall k :: 0 <= k < i ==> s[..i][k] == s[k]; }
    assert !(i < j) by { assert forall k :: 0 <= k < j ==> s[..j][k] == s[k]; }
  }

  lemma CutBeforeNewline(s: string, nl: nat, k: nat)
    requires FindNewline(s) == Some(nl) && k <= nl
    ensures '\n' !in s[..k] && FindNewline(s[k..]) == Some(nl - k)
  {
    hide FindNewline;
    FirstNewline(s);
    assert s[..k] == s[..nl][..k] && s[k..][..nl - k] == s[..nl][k..];
    NewlineAt(s[k..], nl - k);
  }

  lemma TagAppend(html: bool, a: string, b: string)
    ensures Tag(html, a + b) == Tag(html, a) + Tag(html, b)
  {}

  lemma TagTwice(html: bool, a: string, b: string, rest: seq<Tagged>)
    ensures Tag(html, a + b) + rest == Tag(html, a) + (Tag(html, b) + rest)
  {
    TagAppend(html, a, b);
  }

  /** Unfoldings of ChunkSafe. */
  lemma ChunkSafeLine(inside: bool, s: string, nl: nat)
    requires FindNewline(s) == Some(nl)
    ensures ChunkSafe(inside, s)
            <==> LineSafe(inside, s[..nl + 1]) && ChunkSafe(AfterLine(inside, s[..nl + 1]), s[nl + 1..])
  {}

  lemma ChunkSafeTail(inside: bool, s: string)
    requires FindNewline(s).None?
    ensures ChunkSafe(inside, s) <==> TailSafe(inside, s)
  {}

  /** The rest of a safe line stays safe after its front was flushed. */
  lemma LineSafeRest(inside: bool, s: string, part: string)
    requires part != "" && !Holdable(inside, s) && LineSafe(inside, s + part)
    ensures LineSafe(inside, part) && !IsFenceLine(inside, s + part) && !IsFenceLine(inside, part)
  {
    var line := s + part;
    assert line[..|s|] == s && line[|s|..] == part;
    forall q | 0 <= q < |part| && !Holdable(inside, part[..q])
      ensures !IsFenceLine(inside, part) && !IsFenceLine(inside, part[q..])
    {
      assert line[..|s| + q] == s + part[..q] && line[|s| + q..] == part[q..];
      StillUnholdable(inside, s, line[..|s| + q]);
    }
  }

  lemma TailSafeRest(inside: bool, s: string, part: string)
    requires !Holdable(inside, s) && TailSafe(inside, s + part)
    ensures TailSafe(inside, part) && !HeldFence(inside, s + part) && !HeldFence(inside, part)
  {
    var tail := s + part;
    assert tail[..|s|] == s && tail[|s|..] == part;
    StillUnholdable(inside, s, tail);
    forall q | 0 <= q <= |part| && !Holdable(inside, part[..q])
      ensures !HeldFence(inside, part[q..])
    {
      assert tail[..|s| + q] == s + part[..q] && tail[|s| + q..] == part[q..];
      StillUnholdable(inside, s, tail[..|s| + q]);
    }
  }

  lemma StillUnholdable(inside: bool, s: string, longer: string)
    requires !Holdable(inside, s) && s <= longer
    ensures !Holdable(inside, longer)
  {
    assert longer[..|s|] == s;
    if Holdable(inside, longer) { HoldablePrefix(inside, longer, |s|); }
  }

  /** After an eager flush of `s`, the rest of a safe text is shown like the rest of its line. */
  lemma FlushThenRest(inside: bool, s: string, r: string)
    requires FindNewline(s).None? && !Holdable(inside, s) && ChunkSafe(inside, s + r)
    ensures ChunkSafe(inside, r)
    ensures Whole(inside, s + r) == Prepend(Tag(inside, s), Whole(inside, r))
  {
    hide Holdable, IsFenceLine, ChunkSafe, Whole, LineSafe, TailSafe, FindNewline;
    FindNewlineAppend(s, r);
    var all := s + r;
    match FindNewline(r)
    case Some(nl) =>
      var part, rest := r[..nl + 1], r[nl + 1..];
      assert all[..|s| + nl + 1] == s + part && all[|s| + nl + 1..] == rest;
      ChunkSafeLine(inside, all, |s| + nl);
      ChunkSafeLine(inside, r, nl);
      LineSafeRest(inside, s, part);
      WholeLine(inside, all, |s| + nl);
      WholeLine(inside, r, nl);
      TagTwice(inside, s, part, Whole(inside, rest).stream);
    case None =>
      ChunkSafeTail(inside, all);
      ChunkSafeTail(inside, r);
      TailSafeRest(inside, s, r);
      WholeTail(inside, all);
      WholeTail(inside, r);
      TagAppend(inside, s, r);
  }

  lemma WalkTail(inside: bool, s: string)
    requires FindNewline(s).None?
    ensures Holdable(inside, s) ==> Walk(inside, s) == Walked(inside, s, [])
    ensures !Holdable(inside, s) ==> Walk(inside, s) == Walked(inside, "", [Shown(inside, s)])
  {}

  /** On a safe text, one push of the front and then the rest is the same as all at once. */
  lemma {:induction false} CutOnce(inside: bool, s: string, r: string)
    requires ChunkSafe(inside, s + r)
    ensures var w := Walk(inside, s);
            && ChunkSafe(w.inside, w.buf + r)
            && Whole(inside, s + r) == Prepend(Tags(w.pieces), Whole(w.inside, w.buf + r))
    decreases |s|
  {
    hide Holdable, IsFenceLine, ChunkSafe, Whole, LineSafe, TailSafe, Walk, FindNewline, Tags;
    FindNewlineAppend(s, r);
    match FindNewline(s)
    case Some(nl) =>
      var line, rest := s[..nl + 1], s[nl + 1..];
      assert (s + r)[..nl + 1] == line && (s + r)[nl + 1..] == rest + r;
      ChunkSafeLine(inside, s + r, nl);
      CutOnce(AfterLine(inside, line), rest, r);
      WholeLine(inside, s + r, nl);
      WalkLine(inside, s, nl);
      TagsCons(LinePiece(inside, line), Walk(AfterLine(inside, line), rest).pieces);
      var w := Walk(AfterLine(inside, line), rest);
      var p := TagPiece(LinePiece(inside, line));
      var shown := Whole(w.inside, w.buf + r).stream;
      assert (p + Tags(w.pieces)) + shown == p + (Tags(w.pieces) + shown);
    case None =>
      WalkTail(inside, s);
      if !Holdable(inside, s) {
        FlushThenRest(inside, s, r);
        assert "" + r == r;
        TagsOne(Shown(inside, s));
      } else {
        NothingShown(Whole(inside, s + r));
      }
  }

  lemma NothingShown(o: Outcome)
    ensures Prepend(Tags([]), o) == o
  {}

  lemma TagsCons(p: Piece, rest: seq<Piece>)
    ensures Tags([p] + rest) == TagPiece(p) + Tags(rest)
  {}

  lemma {:induction false} SafeStream(inside: bool, buf: string, fragments: seq<string>)
    requires ChunkSafe(inside, buf + Concat(fragments)) && Pending(inside, buf)
    ensures Stream(inside, buf, fragments) == Whole(inside, buf + Concat(fragments))
    decreases |fragments|
  {
    hide IsFenceLine, ChunkSafe, Pending, Walk, Whole;
    if fragments == [] {
      assert buf + Concat(fragments) == buf;
      PendingWhole(inside, buf);
    } else {
      var s, r := buf + fragments[0], Concat(fragments[1..]);
      assert buf + Concat(fragments) == s + r;
      CutOnce(inside, s, r);
      WalkConserves(inside, s);
      var w := Walk(inside, s);
      SafeStream(w.inside, w.buf, fragments[1..]);
    }
  }

  lemma PendingWhole(inside: bool, buf: string)
    requires Pending(inside, buf)
    ensures Whole(inside, buf) == FinishOutcome(inside, buf)
  {
    FirstNewline(buf);
    WalkTail(inside, buf);
  }

  /** Two parsers that disagree about being inside a fence never show the same text,
      even when one of them has shown `x` first. */
  lemma Diverge(inside: bool, u: string, x: string)
    requires x != ""
    ensures Whole(!inside, u).stream != Tag(inside, x) + Whole(inside, u).stream
  {
    hide Holdable, Whole, TrimStart, TrimEnd;
    match FindNewline(u)
    case Some(nl) =>
      WholeLine(inside, u, nl);
      WholeLine(!inside, u, nl);
      var line := u[..nl + 1];
      if IsFenceLine(!inside, line) {
        assert |Whole(inside, u).stream| == |line| + |Whole(inside, u[nl + 1..]).stream|;
      } else {
        assert Whole(!inside, u).stream[0].html == !inside;
      }
    case None =>
      WholeTail(!inside, u);
      WholeTail(inside, u);
      var left, right := Whole(!inside, u).stream, Tag(inside, x) + Whole(inside, u).stream;
      assert right[0].html == inside;
      assert left != [] ==> left[0].html == !inside;
  }

  lemma TwoPushes(inside: bool, s: string, r: string)
    ensures var w := Walk(inside, s);
            Stream(inside, "", [s, r]) == Prepend(Tags(w.pieces), Whole(w.inside, w.buf + r))
  {
    hide Walk, FinishOutcome;
    var w := Walk(inside, s);
    assert "" + s == s;
    var w2 := Walk(w.inside, w.buf + r);
    assert [s, r][1..] == [r];
    assert [r][1..] == [];
    assert Stream(w.inside, w.buf, [r]) == Prepend(Tags(w2.pieces), Stream(w2.inside, w2.buf, []));
  }

  /** Pushing `s` up to `k` and then the rest shows something else than pushing `s`. */
  predicate CutShows(inside: bool, s: string, k: nat)
    requires k <= |s|
  {
    Stream(inside, "", [s[..k], s[k..]]).stream != Whole(inside, s).stream
  }

  /** An unsafe text has a place where cutting it in two changes what is shown. */
  lemma {:induction false} BadCut(inside: bool, s: string) returns (k: nat)
    requires !ChunkSafe(inside, s)
    ensures k <= |s| && CutShows(inside, s, k)
    decreases |s|
  {
    hide Whole, Walk, Stream, Holdable, IsFenceLine, CutShows, ChunkSafe, LineSafe;
    match FindNewline(s)
    case Some(nl) =>
      ChunkSafeLine(inside, s, nl);
      var line, rest := s[..nl + 1], s[nl + 1..];
      if LineSafe(inside, line) {
        var j := BadCut(AfterLine(inside, line), rest);
        k := nl + 1 + j;
        CutLater(inside, s, nl, j);
      } else {
        k := BadLineCut(inside, s, nl);
      }
    case None =>
      ChunkSafeTail(inside, s);
      k := BadTailCut(inside, s);
  }

  lemma CutLater(inside: bool, s: string, nl: nat, j: nat)
    requires FindNewline(s) == Some(nl) && j <= |s| - nl - 1
    ensures CutShows(AfterLine(inside, s[..nl + 1]), s[nl + 1..], j) ==> CutShows(inside, s, nl + 1 + j)
  {
    hide Whole, Stream, FindNewline, TagPiece, AfterLine, LinePiece;
    FirstNewline(s);
    var line, rest := s[..nl + 1], s[nl + 1..];
    CutBehindLine(inside, s, nl, j);
    WholeLine(inside, s, nl);
    SameFront(TagPiece(LinePiece(inside, line)), Stream(AfterLine(inside, line), "", [rest[..j], rest[j..]]).stream,
              Whole(AfterLine(inside, line), rest).stream);
  }

  /** A cut behind a complete line is a cut of what follows the line. */
  lemma CutBehindLine(inside: bool, s: string, nl: nat, j: nat)
    requires FindNewline(s) == Some(nl) && j <= |s| - nl - 1
    ensures var line, rest, k := s[..nl + 1], s[nl + 1..], nl + 1 + j;
            Stream(inside, "", [s[..k], s[k..]]) ==
            Prepend(TagPiece(LinePiece(inside, line)), Stream(AfterLine(inside, line), "", [rest[..j], rest[j..]]))
  {
    hide Whole, Walk, Stream, FindNewline, Tags, TagPiece, AfterLine, LinePiece;
    FirstNewline(s);
    var line, rest, k := s[..nl + 1], s[nl + 1..], nl + 1 + j;
    var after := AfterLine(inside, line);
    NewlineAt(s[..k], nl) by { assert s[..k][..nl] == s[..nl]; }
    assert s[k..] == rest[j..];
    assert s[..k][..nl + 1] == line && s[..k][nl + 1..] == rest[..j];
    TwoPushes(inside, s[..k], s[k..]);
    TwoPushes(after, rest[..j], rest[j..]);
    WalkLine(inside, s[..k], nl);
    var w := Walk(after, rest[..j]);
    TagsCons(LinePiece(inside, line), w.pieces);
    var front, tail := TagPiece(LinePiece(inside, line)), Whole(w.inside, w.buf + rest[j..]).stream;
    assert (front + Tags(w.pieces)) + tail == front + (Tags(w.pieces) + tail);
  }

  lemma SameFront<T>(front: seq<T>, a: seq<T>, b: seq<T>)
    ensures front + a == front + b ==> a == b
  {
    assert (front + a)[|front|..] == a && (front + b)[|front|..] == b;
  }

  /** A cut at which the parser flushes: the rest is read as if it began a line. */
  lemma FlushCut(inside: bool, s: string, k: nat)
    requires k <= |s| && !Holdable(inside, s[..k]) && '\n' !in s[..k]
    ensures Stream(inside, "", [s[..k], s[k..]]) == Prepend(Tag(inside, s[..k]), Whole(inside, s[k..]))
  {
    hide Holdable, Whole, Stream, Walk;
    FirstNewline(s[..k]);
    TwoPushes(inside, s[..k], s[k..]);
    WalkTail(inside, s[..k]);
    assert "" + s[k..] == s[k..];
    TagsOne(Shown(inside, s[..k]));
  }

  lemma BadTailCut(inside: bool, s: string) returns (k: nat)
    requires FindNewline(s).None? && !TailSafe(inside, s)
    ensures k <= |s| && CutShows(inside, s, k)
  {
    hide Whole, Walk, Stream, Holdable, IsFenceLine;
    k :| 0 <= k <= |s| && !Holdable(inside, s[..k]) && HeldFence(inside, s[k..]);
    FirstNewline(s);
    FirstNewline(s[k..]);
    FlushCut(inside, s, k);
    WholeTail(inside, s[k..]);
    WholeTail(inside, s);
    StillUnholdable(inside, s[..k], s);
    FenceLineNotEmpty(inside, s[k..]);
    assert |Whole(inside, s).stream| == |s| > k == |Tag(inside, s[..k]) + []|;
  }

  lemma FenceLineNotEmpty(inside: bool, s: string)
    requires IsFenceLine(inside, s)
    ensures s != ""
  {
    assert Marker(inside) != "";
  }

  lemma BadLineCut(inside: bool, s: string, nl: nat) returns (k: nat)
    requires FindNewline(s) == Some(nl) && !LineSafe(inside, s[..nl + 1])
    ensures k <= |s| && CutShows(inside, s, k)
  {
    hide Holdable, IsFenceLine, FindNewline, CutShows;
    var line := s[..nl + 1];
    k :| 0 <= k < |line| && !Holdable(inside, line[..k])
         && (IsFenceLine(inside, line) || IsFenceLine(inside, line[k..]));
    BadLineCutAt(inside, s, nl, k);
  }

  lemma BadLineCutAt(inside: bool, s: string, nl: nat, k: nat)
    requires FindNewline(s) == Some(nl) && k <= nl && !Holdable(inside, s[..nl + 1][..k])
    requires IsFenceLine(inside, s[..nl + 1]) || IsFenceLine(inside, s[..nl + 1][k..])
    ensures CutShows(inside, s, k)
  {
    hide Whole, Walk, Stream, Holdable, IsFenceLine, FindNewline, LinePiece, AfterLine, Tag, TagPiece;
    var line, rest := s[..nl + 1], s[nl + 1..];
    var front, back := line[..k], line[k..];
    assert front == s[..k];
    CutBeforeNewline(s, nl, k);
    FlushCut(inside, s, k);
    assert s[k..][..nl - k + 1] == back && s[k..][nl - k + 1..] == rest;
    WholeLine(inside, s[k..], nl - k);
    WholeLine(inside, s, nl);
    assert line == front + back;
    BadLineShows(inside, front, back, rest);
    var tail := Whole(AfterLine(inside, back), rest).stream;
    assert Tag(inside, front) + (TagPiece(LinePiece(inside, back)) + tail)
           == Tag(inside, front) + TagPiece(LinePiece(inside, back)) + tail;
  }

  /** The two readings of an unsafe line cut at a flush show different things. */
  lemma BadLineShows(inside: bool, front: string, back: string, rest: string)
    requires !Holdable(inside, front) && back != ""
    requires IsFenceLine(inside, front + back) || IsFenceLine(inside, back)
    ensures Tag(inside, front) + TagPiece(LinePiece(inside, back)) + Whole(AfterLine(inside, back), rest).stream
            != TagPiece(LinePiece(inside, front + back)) + Whole(AfterLine(inside, front + back), rest).stream
  {
    hide Whole, Holdable, IsFenceLine;
    var line := front + back;
    EmptyIsHoldable(inside);
    var same, other := Whole(inside, rest).stream, Whole(!inside, rest).stream;
    TagTwice(inside, front, back, same);
    if IsFenceLine(inside, line) {
      Diverge(inside, rest, line);
      if IsFenceLine(inside, back) {
        assert |Tag(inside, front) + [] + other| > |[] + other|;
      } else {
        assert Tag(inside, front) + Tag(inside, back) + same == Tag(inside, line) + same;
        assert [] + other == other;
      }
    } else {
      Diverge(inside, rest, back);
      SameFront(Tag(inside, front), other, Tag(inside, back) + same);
      assert Tag(inside, front) + [] + other == Tag(inside, front) + other;
    }
  }

  lemma EmptyIsHoldable(inside: bool)
    ensures Holdable(inside, "")
  {}

  /** Every way of cutting the text into pushes shows the same stream and reports the same
      unclosed-fence flag as one push of the whole text, exactly when the text is ChunkSafe. */
  lemma ChunkIndependence(s: string)
    ensures (forall fragments | Concat(fragments) == s :: Stream(false, "", fragments) == Whole(false, s))
            <==> ChunkSafe(false, s)
  {
    hide Whole, Stream, ChunkSafe, Walk;
    if ChunkSafe(false, s) {
      forall fragments | Concat(fragments) == s
        ensures Stream(false, "", fragments) == Whole(false, s)
      {
        assert "" + Concat(fragments) == s;
        EmptyIsHoldable(false);
        SafeStream(false, "", fragments);
      }
    } else {
      var k := BadCut(false, s);
      ConcatTwo(s[..k], s[k..]);
      assert s[..k] + s[k..] == s;
    }
  }

  // ---- the condition in plainer words -----------------------------------------

  /** A fence line holds nothing but blanks and its marker before its newline, and the part of
      any other line before a final marker (if it ends with one) is still blanks and a prefix
      of the marker, as in a run of four to six backticks. */
  predicate PlainLine(inside: bool, line: string)
    requires line != ""
  {
    var m, c := Marker(inside), TrimEnd(line);
    if IsFenceLine(inside, line) then Holdable(inside, line[..|line| - 1])
    else |m| <= |c| && c[|c| - |m|..] == m ==> Holdable(inside, c[..|c| - |m|])
  }

  lemma {:induction false} TrimEndSplit(a: string, b: string)
    requires TrimEnd(b) != ""
    ensures TrimEnd(a + b) == a + TrimEnd(b)
    decreases |b|
  {
    var n := |b|;
    assert (a + b)[|a + b| - 1] == b[n - 1];
    if b[n - 1] == '\n' || b[n - 1] == '\r' {
      assert (a + b)[..|a + b| - 1] == a + b[..n - 1];
      TrimEndSplit(a, b[..n - 1]);
    }
  }

  lemma {:induction false} TrimEndPrefix(s: string)
    ensures TrimEnd(s) <= s
    ensures s != "" && s[|s| - 1] == '\n' ==> |TrimEnd(s)| < |s|
    ensures TrimEnd(s) == "" || (TrimEnd(s)[|TrimEnd(s)| - 1] != '\n' && TrimEnd(s)[|TrimEnd(s)| - 1] != '\r')
  {
    if s != "" && (s[|s| - 1] == '\n' || s[|s| - 1] == '\r') { TrimEndPrefix(s[..|s| - 1]); }
  }

  lemma {:induction false} TrimStartSuffix(s: string)
    ensures |TrimStart(s)| <= |s| && s[|s| - |TrimStart(s)|..] == TrimStart(s)
    ensures forall i :: 0 <= i < |s| - |TrimStart(s)| ==> IsWhitespace(s[i])
  {
    if s != "" && IsWhitespace(s[0]) { TrimStartSuffix(s[1..]); }
  }

  lemma {:induction false} TrimEndFixed(s: string)
    requires s != "" && s[|s| - 1] != '\n' && s[|s| - 1] != '\r'
    ensures TrimEnd(s) == s
  {}

  /** A line that ends with its marker has a fence line as a suffix, starting at the marker. */
  lemma MarkerSuffix(inside: bool, line: string)
    requires var m, c := Marker(inside), TrimEnd(line); |m| <= |c| && c[|c| - |m|..] == m
    ensures var q := |TrimEnd(line)| - |Marker(inside)|;
            q < |line| && line[..q] == TrimEnd(line)[..q] && IsFenceLine(inside, line[q..])
  {
    hide TrimEnd, TrimStart;
    var m, c := Marker(inside), TrimEnd(line);
    TrimEndPrefix(line);
    TrimToMarker(line, c, |c| - |m|, m);
    TrimStartNothing(m);
  }

  lemma TrimStartNothing(m: string)
    requires m != "" && !IsWhitespace(m[0])
    ensures TrimStart(m) == m
  {}

  lemma {:induction false} TrimToMarker(line: string, c: string, q: nat, m: string)
    requires c == TrimEnd(line) <= line && q + |m| == |c| && c[q..] == m && m != ""
    ensures TrimEnd(line[q..]) == m
    decreases |line|
  {
    var n := |line|;
    if line[n - 1] == '\n' || line[n - 1] == '\r' {
      TrimEndPrefix(line[..n - 1]);
      assert line[q..][..|line[q..]| - 1] == line[..n - 1][q..];
      TrimToMarker(line[..n - 1], c, q, m);
    } else {
      assert c == line;
    }
  }

  lemma FenceSuffix(inside: bool, line: string, q: nat)
    requires q <= |line| && IsFenceLine(inside, line[q..])
    ensures var m, c := Marker(inside), TrimEnd(line);
            |m| <= |c| && c[|c| - |m|..] == m && q <= |c| - |m| && line[..q] <= c[..|c| - |m|]
  {
    var m, b := Marker(inside), line[q..];
    TrimStartSuffix(TrimEnd(b));
    assert line == line[..q] + b;
    TrimEndSplit(line[..q], b);
    var c := TrimEnd(line);
    var k := |TrimEnd(b)| - |m|;
    assert c[|c| - |m|..] == TrimEnd(b)[k..];
    assert c[..|c| - |m|][..q] == line[..q];
  }

  /** The condition on one line, said without quantifying over cuts. */
  lemma LineSafeIff(inside: bool, line: string)
    requires line != "" && line[|line| - 1] == '\n'
    ensures LineSafe(inside, line) <==> PlainLine(inside, line)
  {
    hide TrimEnd, TrimStart, Holdable;
    var m, c := Marker(inside), TrimEnd(line);
    TrimEndPrefix(line);
    if PlainLine(inside, line) {
      forall q | 0 <= q < |line| && !Holdable(inside, line[..q])
        ensures !IsFenceLine(inside, line) && !IsFenceLine(inside, line[q..])
      {
        if IsFenceLine(inside, line) {
          StillUnholdable(inside, line[..q], line[..|line| - 1]);
        } else if IsFenceLine(inside, line[q..]) {
          FenceSuffix(inside, line, q);
          StillUnholdable(inside, line[..q], c[..|c| - |m|]);
        }
      }
    } else if !IsFenceLine(inside, line) {
      MarkerSuffix(inside, line);
    }
  }

  /** What is held at finish and is a fence line ends with its marker. */
  lemma HeldFenceShape(inside: bool, s: string)
    requires HeldFence(inside, s)
    ensures var m := Marker(inside); |m| <= |s| && s[|s| - |m|..] == m
  {
    hide TrimEnd, TrimStart;
    FenceLineNotEmpty(inside, s);
    BlanksBefore(s);
    var last := s[|s| - 1];
    assert IsWhitespace('\r') && IsWhitespace('\n');
    assert IsBlank(last) || last == s[BlankLength(s)..][|s| - 1 - BlankLength(s)];
    TrimEndFixed(s);
    assert s[0..] == s;
    FenceSuffix(inside, s, 0);
  }

  /** Text after the last newline that ends with the awaited marker has only a holdable part before it. */
  predicate PlainTail(inside: bool, tail: string) {
    var m := Marker(inside);
    |m| <= |tail| && tail[|tail| - |m|..] == m ==> Holdable(inside, tail[..|tail| - |m|])
  }

  /** The same for the text after the last newline. */
  lemma TailSafeIff(inside: bool, tail: string)
    ensures TailSafe(inside, tail) <==> PlainTail(inside, tail)
  {
    hide IsFenceLine, Holdable, HeldFence;
    var m := Marker(inside);
    MarkerIsHeldFence(inside);
    if PlainTail(inside, tail) {
      forall q | 0 <= q <= |tail| && !Holdable(inside, tail[..q]) ensures !HeldFence(inside, tail[q..]) {
        if HeldFence(inside, tail[q..]) {
          HeldFenceShape(inside, tail[q..]);
          assert tail[|tail| - |m|..] == tail[q..][|tail| - q - |m|..];
          StillUnholdable(inside, tail[..q], tail[..|tail| - |m|]);
        }
      }
    }
  }

  lemma MarkerIsHeldFence(inside: bool)
    ensures HeldFence(inside, Marker(inside))
  {
    hide TrimEnd, TrimStart;
    var m := Marker(inside);
    assert IsWhitespace('\n') && IsWhitespace('\r');
    TrimEndFixed(m);
    TrimStartNothing(m);
    BlankLengthIs(m, 0);
  }

  /** Every line, in the state it is read in, is plain, and so is the text after the last newline. */
  predicate PlainText(inside: bool, s: string)
    decreases |s|
  {
    match FindNewline(s)
    case Some(nl) => PlainLine(inside, s[..nl + 1]) && PlainText(AfterLine(inside, s[..nl + 1]), s[nl + 1..])
    case None => PlainTail(inside, s)
  }

  /** The condition of chunk independence for a whole text, said without quantifying over cuts. */
  lemma {:induction false} ChunkSafeIff(inside: bool, s: string)
    ensures ChunkSafe(inside, s) <==> PlainText(inside, s)
    decreases |s|
  {
    hide LineSafe, TailSafe, PlainLine, PlainTail, AfterLine;
    FirstNewline(s);
    match FindNewline(s)
    case Some(nl) =>
      LineSafeIff(inside, s[..nl + 1]);
      ChunkSafeIff(AfterLine(inside, s[..nl + 1]), s[nl + 1..]);
    case None =>
      TailSafeIff(inside, s);
  }

  /** Text whose only whitespace is space, tab and newline, and in which no line other than a
      fence line ends with the marker awaited in its state, may be cut anywhere. */
  predicate OrdinaryText(inside: bool, s: string)
    decreases |s|
  {
    match FindNewline(s)
    case Some(nl) => OrdinaryLine(inside, s[..nl + 1]) && OrdinaryText(AfterLine(inside, s[..nl + 1]), s[nl + 1..])
    case None => OrdinaryLine(inside, s)
  }

  predicate OrdinaryLine(inside: bool, line: string) {
    var m, c := Marker(inside), TrimEnd(line);
    && (forall ch <- line :: IsWhitespace(ch) ==> IsBlank(ch) || ch == '\n')
    && (IsFenceLine(inside, line) || |c| < |m| || c[|c| - |m|..] != m)
  }

  lemma {:induction false} OrdinaryIsSafe(inside: bool, s: string)
    requires OrdinaryText(inside, s)
    ensures ChunkSafe(inside, s)
    decreases |s|
  {
    hide IsFenceLine, LineSafe, TailSafe, OrdinaryLine;
    FirstNewline(s);
    match FindNewline(s)
    case Some(nl) =>
      OrdinaryLineSafe(inside, s[..nl + 1], nl);
      OrdinaryIsSafe(AfterLine(inside, s[..nl + 1]), s[nl + 1..]);
    case None =>
      OrdinaryTailSafe(inside, s);
  }

  lemma OrdinaryLineSafe(inside: bool, line: string, nl: nat)
    requires |line| == nl + 1 && line[nl] == '\n' && '\n' !in line[..nl] && OrdinaryLine(inside, line)
    ensures LineSafe(inside, line)
  {
    hide LineSafe, TrimEnd, TrimStart, Holdable;
    LineSafeIff(inside, line);
    if IsFenceLine(inside, line) {
      var body := line[..nl];
      TrimEndNewline(line);
      OrdinaryFence(inside, body);
    }
  }

  lemma TrimEndNewline(line: string)
    requires line != "" && line[|line| - 1] == '\n'
    ensures TrimEnd(line) == TrimEnd(line[..|line| - 1])
  {}

  /** A fence line without its newline, in ordinary text, may be held. */
  lemma OrdinaryFence(inside: bool, body: string)
    requires IsFenceLine(inside, body)
    requires forall ch <- body :: IsWhitespace(ch) ==> IsBlank(ch)
    ensures Holdable(inside, body)
  {
    hide TrimEnd, TrimStart;
    FenceLineNotEmpty(inside, body);
    var m := Marker(inside);
    assert IsWhitespace('\r') && IsWhitespace('\n');
    assert body[|body| - 1] in body;
    TrimEndFixed(body);
    TrimStartSuffix(body);
    var k := |body| - |m|;
    forall i | 0 <= i < k
      ensures IsBlank(body[i])
    {
      assert body[i] in body;
    }
    assert body[k] == m[0];
    BlankLengthIs(body, k);
  }

  lemma OrdinaryTailSafe(inside: bool, s: string)
    requires OrdinaryLine(inside, s) && '\n' !in s
    ensures TailSafe(inside, s)
  {
    hide TrimEnd, TrimStart, Holdable, IsFenceLine;
    forall q | 0 <= q <= |s| && !Holdable(inside, s[..q])
      ensures !HeldFence(inside, s[q..])
    {
      if IsFenceLine(inside, s[q..]) {
        FenceSuffix(inside, s, q);
        OrdinaryFence(inside, s);
        StillUnholdable(inside, s[..q], s);
      }
    }
  }

  lemma ConcatTwo(a: string, b: string)
    ensures Concat([a, b]) == a + b
  {
    assert [a, b][1..] == [b] && [b][1..] == [];
    assert Concat([b]) == b + "";
  }

  // ---- where the promise fails ------------------------------------------------

  function FenceLine(inside: bool): string { Marker(inside) + "\n" }

  lemma FenceLineIs(inside: bool)
    ensures FindNewline(FenceLine(inside)) == Some(|Marker(inside)|) && IsFenceLine(inside, FenceLine(inside))
  {
    hide TrimStart;
    var m := Marker(inside);
    assert FenceLine(inside)[..|m|] == m;
    assert IsWhitespace('\n') && IsWhitespace('\r');
    NewlineAt(FenceLine(inside), |m|);
    TrimEndNewline(FenceLine(inside));
    TrimEndFixed(m);
    TrimStartNothing(m);
  }

  lemma AfterOtherText(inside: bool, c: char)
    requires !IsWhitespace(c) && c != '`'
    ensures FindNewline([c] + FenceLine(inside)) == Some(|Marker(inside)| + 1)
    ensures !IsFenceLine(inside, [c] + FenceLine(inside)) && !Holdable(inside, [c])
  {
    hide TrimEnd;
    FenceLineIs(inside);
    assert IsWhitespace('\n');
    FirstNewline([c]);
    FindNewlineAppend([c], FenceLine(inside));
    assert TrimEnd(FenceLine(inside)) != "" by { FenceLineTrims(inside); }
    TrimEndSplit([c], FenceLine(inside));
    assert TrimStart([c] + TrimEnd(FenceLine(inside)))[0] == c;
  }

  lemma FenceLineTrims(inside: bool)
    ensures TrimEnd(FenceLine(inside)) == Marker(inside)
  {
    assert IsWhitespace('\n') && IsWhitespace('\r');
    TrimEndNewline(FenceLine(inside));
    assert FenceLine(inside)[..|Marker(inside)|] == Marker(inside);
    TrimEndFixed(Marker(inside));
  }

  /** The promise fails on a line such as "x" followed by a marker: a token boundary after the
      "x" makes the rest open (or close) a fence, while one push shows the line as it is. */
  lemma MidLineCutFlips(inside: bool, c: char)
    requires !IsWhitespace(c) && c != '`'
    ensures Concat([[c], FenceLine(inside)]) == [c] + FenceLine(inside)
    ensures Stream(inside, "", [[c], FenceLine(inside)]) == Outcome(Tag(inside, [c]), !inside)
    ensures Whole(inside, [c] + FenceLine(inside)) == Outcome(Tag(inside, [c] + FenceLine(inside)), inside)
  {
    hide IsFenceLine, Holdable, Whole, Stream, FindNewline, FenceLine;
    var line := FenceLine(inside);
    var s := [c] + line;
    ConcatTwo([c], line);
    FenceLineIs(inside);
    AfterOtherText(inside, c);
    FenceLineEnds(inside);
    assert s[..1] == [c] && s[1..] == line;
    assert IsWhitespace('\n');
    FlushCut(inside, s, 1);
    var n := |Marker(inside)|;
    WholeLine(inside, s, n + 1);
    WholeLine(inside, line, n);
    assert s[..n + 2] == s && s[n + 2..] == "" && line[..n + 1] == line && line[n + 1..] == "";
    EmptyText(inside);
    EmptyText(!inside);
  }

  lemma FenceLineEnds(inside: bool)
    ensures |FenceLine(inside)| == |Marker(inside)| + 1
  {}

  lemma EmptyText(inside: bool)
    ensures Whole(inside, "") == Outcome([], inside)
  {
    FirstNewline("");
    WholeTail(inside, "");
  }

  // ---- what counts as a fence line ------------------------------------------------------

  predicate IsBreak(c: char) { c == '\n' || c == '\r' }

  /** Whitespace, then the marker, then nothing but line breaks. */
  predicate FenceShape(inside: bool, line: string, front: string, back: string) {
    && line == front + Marker(inside) + back
    && (forall c <- front :: IsWhitespace(c))
    && (forall c <- back :: IsBreak(c))
  }

  lemma {:induction false} TrimEndRest(s: string)
    ensures TrimEnd(s) <= s && forall i | |TrimEnd(s)| <= i < |s| :: IsBreak(s[i])
    decreases |s|
  {
    if s != "" && IsBreak(s[|s| - 1]) {
      var front := s[..|s| - 1];
      TrimEndRest(front);
      assert forall i | 0 <= i < |front| :: front[i] == s[i];
    }
  }

  lemma TrimEndOne(s: string, c: char)
    requires IsBreak(c)
    ensures TrimEnd(s + [c]) == TrimEnd(s)
  {
    assert (s + [c])[..|s|] == s;
  }

  lemma {:induction false} TrimEndBreaks(s: string, back: string)
    requires forall c <- back :: IsBreak(c)
    ensures TrimEnd(s + back) == TrimEnd(s)
    decreases |back|
  {
    hide TrimEnd, IsBreak;
    if back == "" {
      assert s + back == s;
    } else {
      var n := |back| - 1;
      assert back[n] in back && forall c <- back[..n] :: c in back;
      TrimEndBreaks(s, back[..n]);
      TrimEndOne(s + back[..n], back[n]);
      assert s + back == (s + back[..n]) + [back[n]];
    }
  }

  lemma {:induction false} TrimStartSpaces(front: string, m: string)
    requires (forall c <- front :: IsWhitespace(c)) && m != "" && !IsWhitespace(m[0])
    ensures TrimStart(front + m) == m
    decreases |front|
  {
    if front == "" {
      assert front + m == m;
    } else {
      assert front[0] in front && forall c <- front[1..] :: c in front;
      assert (front + m)[1..] == front[1..] + m;
      TrimStartSpaces(front[1..], m);
    }
  }

  /** The code's rule for both kinds of fence line: the marker stands alone on its line, behind any
      whitespace and before line breaks only. */
  lemma FenceLineIff(inside: bool, line: string)
    ensures IsFenceLine(inside, line) <==> exists front, back :: FenceShape(inside, line, front, back)
  {
    hide TrimEnd, TrimStart, IsWhitespace;
    if IsFenceLine(inside, line) {
      FenceLineParts(inside, line);
    }
    if front, back :| FenceShape(inside, line, front, back) {
      PartsAreFence(inside, front, back);
    }
  }

  lemma FenceLineParts(inside: bool, line: string)
    requires IsFenceLine(inside, line)
    ensures exists front, back :: FenceShape(inside, line, front, back)
  {
    hide TrimEnd, TrimStart, IsWhitespace;
    var m, t := Marker(inside), TrimEnd(line);
    TrimEndRest(line);
    TrimStartSuffix(t);
    var front, back := t[..|t| - |m|], line[|t|..];
    assert t == front + m && line == t + back;
    assert forall i | 0 <= i < |front| :: front[i] == t[i];
    assert forall i | 0 <= i < |back| :: back[i] == line[|t| + i];
    assert FenceShape(inside, line, front, back);
  }

  lemma PartsAreFence(inside: bool, front: string, back: string)
    requires (forall c <- front :: IsWhitespace(c)) && (forall c <- back :: IsBreak(c))
    ensures IsFenceLine(inside, front + Marker(inside) + back)
  {
    hide TrimEnd, TrimStart;
    var m := Marker(inside);
    TrimEndBreaks(front + m, back);
    assert !IsWhitespace(m[|m| - 1]);
    TrimEndFixed(front + m);
    TrimStartSpaces(front, m);
  }

  /** A line that begins with the opening marker does not open a fence if anything but line breaks
      follows, a blank included; the same goes for closing. */
  lemma MarkerAndMoreIsNoFence(inside: bool, more: string)
    requires exists c :: c in more && !IsBreak(c)
    ensures !IsFenceLine(inside, Marker(inside) + more)
  {
    hide TrimStart;
    var m := Marker(inside);
    TrimEndRest(more);
    var i :| 0 <= i < |more| && !IsBreak(more[i]);
    assert i < |TrimEnd(more)|;
    TrimEndSplit(m, more);
    assert (m + TrimEnd(more))[0] == m[0];
    TrimStartNothing(m + TrimEnd(more));
  }

  /** For example the opening marker with a word behind it; and three backticks behind two blanks,
      which are not exactly the marker, close. */
  lemma MarkerExamples()
    ensures !IsFenceLine(false, Marker(false) + " title\n") && IsFenceLine(true, "  " + Marker(true) + "\n")
  {
    hide IsFenceLine;
    assert " title\n"[1] in " title\n" && !IsBreak(" title\n"[1]);
    MarkerAndMoreIsNoFence(false, " title\n");
    PartsAreFence(true, "  ", "\n");
  }
}
