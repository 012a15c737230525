/** The sensitive-path floor: a scan over the text of a path that amounts to a match of whole path
    segments. */
module SensitivePaths {
  import opened Paths

  const STEMS: seq<string> := [".ssh", ".aws", ".gnupg", ".netrc", ".mozilla", ".config/gh", ".config/google-chrome"]

  predicate EndsWith(p: string, tail: string) { |tail| <= |p| && p[|p| - |tail|..] == tail }

  predicate Contains(p: string, part: string) { exists k | 0 <= k <= |p| :: part <= p[k..] }

  /** The four string tests for one stem. */
  predicate StemMatch(p: string, stem: string) {
    p == stem || stem + "/" <= p || Contains(p, "/" + stem + "/") || EndsWith(p, "/" + stem)
  }

  predicate SegmentMatch(stems: seq<string>, p: string) { exists stem <- stems :: StemMatch(p, stem) }

  /** The text after the last '/'. */
  function LastSegment(p: string): string {
    if p == "" || p[|p| - 1] == '/' then "" else LastSegment(p[..|p| - 1]) + [p[|p| - 1]]
  }

  predicate DotenvName(name: string) { name == ".env" || ".env." <= name }

  predicate DotenvMatch(p: string) { DotenvName(LastSegment(p)) }

  function Normalized(p: string): string { seq(|p|, i requires 0 <= i < |p| => if p[i] == '\\' then '/' else p[i]) }

  predicate IsSensitivePath(p: string) {
    var n := Normalized(p);
    DotenvMatch(n) || SegmentMatch(STEMS, n)
  }

  // ---- the string tests as a segment match -----------------------------------------

  /** `part` is a contiguous run of `whole`. */
  predicate IsRun(part: seq<string>, whole: seq<string>) {
    exists k | 0 <= k <= |whole| :: part <= whole[k..]
  }

  /** One test in place of four: look for the stem between slashes in the path between slashes. */
  lemma StemMatchIsWrapped(p: string, stem: string)
    ensures StemMatch(p, stem) <==> Contains("/" + p + "/", "/" + stem + "/")
  {
    var w, s := "/" + p + "/", "/" + stem + "/";
    if p == stem {
      assert s <= w[0..];
    } else if stem + "/" <= p {
      assert s == "/" + (stem + "/") && w == "/" + (p + "/");
      assert s <= w[0..];
    } else if k :| 0 <= k <= |p| && s <= p[k..] {
      assert w[k + 1..] == p[k..] + "/";
      assert s <= w[k + 1..];
    } else if EndsWith(p, "/" + stem) {
      var k := |p| - |stem| - 1;
      assert w[k + 1..] == p[k..] + "/" == ("/" + stem) + "/";
      assert s <= w[k + 1..];
    }
    if Contains(w, s) {
      var k :| 0 <= k <= |w| && s <= w[k..];
      WrappedOccurrence(p, stem, k);
    }
  }

  lemma WrappedOccurrence(p: string, stem: string, k: nat)
    requires k <= |"/" + p + "/"| && "/" + stem + "/" <= ("/" + p + "/")[k..]
    ensures StemMatch(p, stem)
  {
    hide StemMatch;
    Cut(p, stem, "/", k);
    if p == stem || stem + "/" <= p {
      FrontMatches(p, stem);
    } else if k > 0 && "/" + stem == p[k - 1..] {
      BackMatches(p, stem, k - 1);
    } else {
      InsideMatches(p, stem, k - 1);
    }
  }

  lemma FrontMatches(p: string, stem: string)
    requires p == stem || stem + "/" <= p
    ensures StemMatch(p, stem)
  {}

  lemma BackMatches(p: string, stem: string, k: nat)
    requires k <= |p| && p[k..] == "/" + stem
    ensures StemMatch(p, stem)
  {
    assert k == |p| - |"/" + stem|;
  }

  lemma InsideMatches(p: string, stem: string, k: nat)
    requires k <= |p| && "/" + stem + "/" <= p[k..]
    ensures StemMatch(p, stem)
  {}

  /** Where an occurrence of `c + s + c` in `c + p + c` lies in `p`. */
  lemma Cut(p: string, s: string, c: string, k: nat)
    requires |c| == 1 && k <= |c + p + c| && c + s + c <= (c + p + c)[k..]
    ensures p == s || s + c <= p || (0 < k <= |p| + 1 && (c + s == p[k - 1..] || c + s + c <= p[k - 1..]))
  {
    if k == 0 {
      assert (c + p + c)[0..] == c + p + c;
      assert (c + p + c)[1..] == p + c && (c + s + c)[1..] == s + c;
      PrefixTail(c + s + c, c + p + c);
      PrefixBeforeLast(s, p, c);
    } else {
      assert k <= |p| + 1;
      assert (c + p + c)[k..] == p[k - 1..] + c;
      assert c + s + c == (c + s) + c;
      PrefixBeforeLast(c + s, p[k - 1..], c);
    }
  }

  lemma PrefixTail(a: string, b: string)
    requires a != "" && a <= b
    ensures a[1..] <= b[1..]
  {}

  lemma PrefixBeforeLast(a: string, b: string, c: string)
    requires |c| == 1 && a + c <= b + c
    ensures a == b || a + c <= b
  {
    if |a| == |b| {
      assert (a + c)[..|a|] == a && (b + c)[..|a|] == b;
    } else {
      assert a + c == (b + c)[..|a| + 1] == b[..|a| + 1];
    }
  }

  /** Slash-free segments between slashes start a text exactly when they are its first segments. */
  lemma {:induction false} WrapPrefixIff(part: seq<string>, whole: seq<string>)
    requires SlashFree(part) && SlashFree(whole)
    ensures Wrap(part) <= Wrap(whole) <==> part <= whole
    decreases |part|
  {
    WrapEnds(whole);
    if part != [] {
      if whole == [] {
        WrapEnds(part[1..]);
      } else {
        var a, b := part[0], whole[0];
        assert a in part && b in whole;
        SlashFreeTail(part);
        SlashFreeTail(whole);
        WrapPrefixIff(part[1..], whole[1..]);
        HeadCancels(a, b, Wrap(part[1..]), Wrap(whole[1..]));
        assert part == [a] + part[1..] && whole == [b] + whole[1..];
      }
    }
  }

  lemma SlashFreeTail(segs: seq<string>)
    requires SlashFree(segs) && segs != []
    ensures SlashFree(segs[1..])
  {
    assert forall s <- segs[1..] :: s in segs;
  }

  lemma WrapEnds(segs: seq<string>)
    ensures |Wrap(segs)| >= 1 && Wrap(segs)[0] == '/'
  {}

  lemma HeadCancels(a: string, b: string, x: string, y: string)
    requires '/' !in a && '/' !in b && x != "" && x[0] == '/' && y != "" && y[0] == '/'
    ensures "/" + a + x <= "/" + b + y <==> a == b && x <= y
  {
    var l, r := "/" + a + x, "/" + b + y;
    assert l[|a| + 1] == '/' && r[|b| + 1] == '/';
    if |a| < |b| {
      assert r[|a| + 1] == b[|a|];
      assert b[|a|] in b;
    } else if |b| < |a| {
      assert l[|b| + 1] == a[|b|];
      assert a[|b|] in a;
    } else {
      assert l[1..|a| + 1] == a && r[1..|a| + 1] == b;
      assert l[|a| + 1..] == x && r[|a| + 1..] == y;
      assert l == l[..|a| + 1] + x && r == r[..|a| + 1] + y;
    }
  }

  /** An occurrence in the wrapped text starts at a slash, so at the start of some segment. */
  lemma {:induction false} OccurrenceIsRun(part: seq<string>, whole: seq<string>, k: nat)
    requires SlashFree(part) && SlashFree(whole)
    requires k <= |Wrap(whole)| && Wrap(part) <= Wrap(whole)[k..]
    ensures IsRun(part, whole)
    decreases |whole|
  {
    if k == 0 {
      assert Wrap(whole)[0..] == Wrap(whole);
      WrapPrefixIff(part, whole);
      assert part <= whole[0..];
    } else {
      WrapEnds(part);
      assert Wrap(whole)[k] == '/';
      assert whole != [];
      var a, rest := whole[0], whole[1..];
      assert a in whole;
      SlashFreeTail(whole);
      if k <= |a| {
        NotInside(a, Wrap(rest), k);
        assert false;
      }
      var offset := k - 1 - |a|;
      assert Wrap(whole)[k..] == Wrap(rest)[offset..];
      OccurrenceIsRun(part, rest, offset);
      var j :| 0 <= j <= |rest| && part <= rest[j..];
      assert whole[j + 1..] == rest[j..];
    }
  }

  lemma NotInside(a: string, y: string, k: nat)
    requires '/' !in a && 0 < k <= |a|
    ensures ("/" + a + y)[k] != '/'
  {
    assert a[k - 1] in a;
  }

  lemma {:induction false} RunOccurs(part: seq<string>, whole: seq<string>, k: nat)
    requires SlashFree(part) && SlashFree(whole) && k <= |whole| && part <= whole[k..]
    ensures Contains(Wrap(whole), Wrap(part))
    decreases k
  {
    if k == 0 {
      assert whole[0..] == whole;
      WrapPrefixIff(part, whole);
      assert Wrap(whole)[0..] == Wrap(whole);
    } else {
      var rest := whole[1..];
      SlashFreeTail(whole);
      assert rest[k - 1..] == whole[k..];
      RunOccurs(part, rest, k - 1);
      var j :| 0 <= j <= |Wrap(rest)| && Wrap(part) <= Wrap(rest)[j..];
      assert Wrap(whole)[j + 1 + |whole[0]|..] == Wrap(rest)[j..];
    }
  }

  /** The four tests hold exactly when the segments of the stem are a contiguous run of the
      segments of the path, whatever the stem is. */
  lemma StemMatchIffRun(p: string, stem: string)
    ensures StemMatch(p, stem) <==> IsRun(Split(stem), Split(p))
  {
    hide StemMatch;
    StemMatchIsWrapped(p, stem);
    WrapSplit(p);
    WrapSplit(stem);
    SplitSlashFree(p);
    SplitSlashFree(stem);
    var w, s := Wrap(Split(p)), Wrap(Split(stem));
    if Contains(w, s) {
      var k :| 0 <= k <= |w| && s <= w[k..];
      OccurrenceIsRun(Split(stem), Split(p), k);
    }
    if IsRun(Split(stem), Split(p)) {
      var k :| 0 <= k <= |Split(p)| && Split(stem) <= Split(p)[k..];
      RunOccurs(Split(stem), Split(p), k);
    }
  }

  lemma {:induction false} LastSegmentIsLast(p: string)
    ensures LastSegment(p) == Split(p)[|Split(p)| - 1]
    decreases |p|
  {
    if p != "" {
      var front, c := p[..|p| - 1], p[|p| - 1];
      LastSegmentIsLast(front);
      SplitSnoc(front, c);
      assert p == front + [c];
    }
  }

  /** A list of segments with one more character behind, and one more in front, of the text. */
  function Behind(segs: seq<string>, c: char): seq<string>
    requires segs != []
  {
    var n := |segs| - 1;
    if c == '/' then segs + [""] else segs[..n] + [segs[n] + [c]]
  }

  function InFront(c: char, segs: seq<string>): seq<string>
    requires segs != []
  {
    if c == '/' then [""] + segs else [[c] + segs[0]] + segs[1..]
  }

  lemma FrontThenBehind(x: char, segs: seq<string>, c: char)
    requires segs != []
    ensures Behind(InFront(x, segs), c) == InFront(x, Behind(segs, c))
  {
    if x != '/' && c != '/' && |segs| == 1 {
      assert [x] + (segs[0] + [c]) == ([x] + segs[0]) + [c];
    }
  }

  lemma {:induction false} SplitSnoc(p: string, c: char)
    ensures Split(p + [c]) == Behind(Split(p), c)
    decreases |p|
  {
    hide Split, InFront;
    SplitEmpty();
    SplitCons(p + [c]);
    if p == "" {
      SplitSingle(c);
    } else {
      SplitCons(p);
      SplitSnoc(p[1..], c);
      assert (p + [c])[0] == p[0] && (p + [c])[1..] == p[1..] + [c];
      FrontThenBehind(p[0], Split(p[1..]), c);
      InFrontIs(p[0], Split(p[1..]));
      InFrontIs(p[0], Behind(Split(p[1..]), c));
    }
  }

  lemma SplitSingle(c: char)
    ensures Split("" + [c]) == Behind([""], c)
  {
    assert ("" + [c])[1..] == "" && Split("") == [""];
    assert [c] + "" == [c] && "" + [c] == [c];
  }

  lemma InFrontIs(c: char, segs: seq<string>)
    requires segs != []
    ensures InFront(c, segs) == if c == '/' then [""] + segs else [[c] + segs[0]] + segs[1..]
  {}

  // ---- the floor ---------------------------------------------------------------------

  /** Backslashes separate segments too. */
  function Segments(p: string): seq<string> { Split(Normalized(p)) }

  /** A path is sensitive exactly when its last segment is a dotenv name or the segments of some
      stem occur in it as a contiguous run. */
  lemma SensitiveIff(p: string)
    ensures IsSensitivePath(p) <==> DotenvName(Segments(p)[|Segments(p)| - 1]) || SegmentsMatch(STEMS, Segments(p))
  {
    hide StemMatch, IsRun, DotenvName;
    var n := Normalized(p);
    LastSegmentIsLast(n);
    SegmentMatchIff(STEMS, n);
  }

  predicate SegmentsMatch(stems: seq<string>, segs: seq<string>) { exists stem <- stems :: IsRun(Split(stem), segs) }

  lemma SegmentMatchIff(stems: seq<string>, p: string)
    ensures SegmentMatch(stems, p) <==> SegmentsMatch(stems, Split(p))
  {
    hide StemMatch, IsRun;
    forall stem <- stems ensures StemMatch(p, stem) <==> IsRun(Split(stem), Split(p)) {
      StemMatchIffRun(p, stem);
    }
  }

  lemma RunInside(part: seq<string>, before: seq<string>, whole: seq<string>, after: seq<string>)
    requires IsRun(part, whole)
    ensures IsRun(part, before + whole + after)
  {
    var k :| 0 <= k <= |whole| && part <= whole[k..];
    var big := before + whole + after;
    assert big[|before| + k..] == whole[k..] + after;
  }

  lemma SegmentsJoin(a: string, b: string)
    ensures Segments(a + "/" + b) == Segments(a) + Segments(b)
  {
    assert Normalized(a + "/" + b) == Normalized(a) + "/" + Normalized(b);
    SplitJoin(Normalized(a), Normalized(b));
  }

  lemma MatchInside(stems: seq<string>, before: seq<string>, segs: seq<string>, after: seq<string>)
    requires SegmentsMatch(stems, segs)
    ensures SegmentsMatch(stems, before + segs + after)
  {
    hide IsRun;
    var stem :| stem in stems && IsRun(Split(stem), segs);
    RunInside(Split(stem), before, segs, after);
  }

  /** A sensitive path stays sensitive with any directories in front. */
  lemma FrontKeepsSensitive(dir: string, p: string)
    requires IsSensitivePath(p)
    ensures IsSensitivePath(dir + "/" + p)
  {
    hide IsSensitivePath, SegmentsMatch, DotenvName, Segments;
    SensitiveIff(p);
    SensitiveIff(dir + "/" + p);
    SegmentsJoin(dir, p);
    var d, s := Segments(dir), Segments(p);
    NonEmpty(p);
    assert (d + s)[|d + s| - 1] == s[|s| - 1];
    if SegmentsMatch(STEMS, s) {
      MatchInside(STEMS, d, s, []);
      assert d + s + [] == d + s;
    }
  }

  lemma NonEmpty(p: string)
    ensures Segments(p) != []
  {}

  /** Going below a path is sensitive exactly when what is below ends in a dotenv name or a stem
      occurs in the two together. So a stem shields everything below it, and so does a sensitive
      lower part, but a dotenv name shields only itself. */
  lemma BelowSensitiveIff(p: string, below: string)
    ensures IsSensitivePath(p + "/" + below) <==>
            DotenvName(Segments(below)[|Segments(below)| - 1]) || SegmentsMatch(STEMS, Segments(p) + Segments(below))
    ensures SegmentsMatch(STEMS, Segments(p)) || IsSensitivePath(below) ==> IsSensitivePath(p + "/" + below)
  {
    hide IsSensitivePath, SegmentsMatch, DotenvName, Segments;
    SensitiveIff(p + "/" + below);
    SensitiveIff(below);
    SegmentsJoin(p, below);
    NonEmpty(below);
    var a, b := Segments(p), Segments(below);
    assert (a + b)[|a + b| - 1] == b[|b| - 1];
    if SegmentsMatch(STEMS, a) {
      MatchInside(STEMS, [], a, b);
      assert [] + a + b == a + b;
    }
    if SegmentsMatch(STEMS, b) {
      MatchInside(STEMS, a, b, []);
      assert a + b + [] == a + b;
    }
  }

  lemma {:induction false} LastSegmentWithin(p: string)
    ensures forall c <- LastSegment(p) :: c in p
    decreases |p|
  {
    if p != "" && p[|p| - 1] != '/' {
      var front := p[..|p| - 1];
      LastSegmentWithin(front);
      assert p == front + [p[|p| - 1]];
      forall c <- LastSegment(p) ensures c in p {
        assert c in LastSegment(front) ==> c in front;
      }
    }
  }

  lemma StemWithin(p: string, stem: string)
    requires StemMatch(p, stem) && stem != ""
    ensures stem[0] in p
  {
    if p != stem && !(stem + "/" <= p) {
      if EndsWith(p, "/" + stem) {
        assert p[|p| - |stem|] == p[|p| - |stem| - 1..][1] == ("/" + stem)[1] == stem[0];
      } else {
        var k :| 0 <= k <= |p| && "/" + stem + "/" <= p[k..];
        assert p[k + 1] == p[k..][1] == ("/" + stem + "/")[1] == stem[0];
      }
    } else {
      assert p != stem ==> p[0] == (stem + "/")[0];
    }
  }

  /** A dot and then neither a slash nor the letter of a dotenv name. */
  predicate StemShape(stem: string) { |stem| >= 2 && stem[0] == '.' && stem[1] != '/' && stem[1] != 'e' }

  lemma StemsShaped()
    ensures forall stem <- STEMS :: StemShape(stem)
  {}

  /** Every dotenv name and every stem begins with a dot, so a path without one is never sensitive. */
  lemma DotNeeded(p: string)
    requires '.' !in p
    ensures !IsSensitivePath(p)
  {
    hide StemMatch;
    var n := Normalized(p);
    forall i | 0 <= i < |n| ensures n[i] != '.' { assert p[i] in p; }
    LastSegmentWithin(n);
    var last := LastSegment(n);
    assert last != "" ==> last[0] in last;
    forall stem <- STEMS ensures !StemMatch(n, stem) {
      StemsShaped();
      assert StemShape(stem);
      if StemMatch(n, stem) { StemWithin(n, stem); }
    }
  }

  /** No stem matches a first segment with the second letter of a dotenv name, or a second segment
      without a leading dot. */
  lemma NoStemHere(stems: seq<string>, first: string, second: string)
    requires |first| >= 2 && first[1] == 'e' && (second == "" || second[0] != '.')
    requires forall stem <- stems :: StemShape(stem)
    ensures !SegmentsMatch(stems, [first, second])
  {
    hide IsRun;
    forall stem <- stems ensures !IsRun(Split(stem), [first, second]) {
      assert StemShape(stem);
      SplitStart(stem);
      NoRunFrom(Split(stem), first, second);
    }
  }

  lemma NoRunFrom(part: seq<string>, first: string, second: string)
    requires part != [] && |part[0]| >= 2 && part[0][0] == '.'
    requires |first| >= 2 && part[0][1] != first[1] && (second == "" || second[0] != '.')
    ensures !IsRun(part, [first, second])
  {
    var whole := [first, second];
    forall k | 0 <= k <= |whole| ensures !(part <= whole[k..]) {
      if k < |whole| { assert whole[k..][0] == whole[k]; }
    }
  }

  /** The first segment of a text that begins with two characters that are no slash begins with them. */
  lemma SplitStart(p: string)
    requires |p| >= 2 && p[0] != '/' && p[1] != '/'
    ensures |Split(p)[0]| >= 2 && Split(p)[0][0] == p[0] && Split(p)[0][1] == p[1]
  {
    hide Split;
    SplitCons(p);
    SplitCons(p[1..]);
  }

  /** A dotenv name is sensitive where it stands and not above anything: with a plain name below it,
      it is the lower name that counts. */
  lemma DotenvDirectoryEscapes(name: string)
    requires PlainName(name) && name[0] != '.' && '\\' !in name
    ensures IsSensitivePath(".env") && !IsSensitivePath(".env" + "/" + name)
  {
    hide IsSensitivePath, SegmentsMatch, Split, Normalized;
    SensitiveIff(".env");
    SensitiveIff(".env" + "/" + name);
    SegmentsJoin(".env", name);
    PlainSegments(".env");
    PlainSegments(name);
    assert [".env"] + [name] == [".env", name];
    StemsShaped();
    NoStemHere(STEMS, ".env", name);
  }

  lemma PlainSegments(name: string)
    requires '/' !in name && '\\' !in name
    ensures Segments(name) == [name]
  {
    assert Normalized(name) == name;
    SplitName(name);
  }
}
