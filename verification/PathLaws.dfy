/** How paths read: what each further segment does to the components, where "." and ".." lead, and which
    names the sensitive-path floor knows. */
module PathLaws {
  import opened Wrappers
  import opened Paths
  import opened SensitivePaths

  // ---- components ---------------------------------------------------------------------------------

  /** What one more segment, behind others, adds. */
  function Added(seg: string): seq<Component> {
    if seg == "" || seg == "." then [] else if seg == ".." then [ParentDir] else [Normal(seg)]
  }

  lemma {:induction false} FromBehind(segs: seq<string>, seg: string, i: nat)
    requires i <= |segs| && segs != []
    ensures From(segs + [seg], i) == From(segs, i) + Added(seg)
    decreases |segs| - i
  {
    hide From;
    var more := segs + [seg];
    FromStep(more, i);
    if i == |segs| {
      FromEnd(segs);
      FromEnd(more);
      assert [] + Added(seg) == Added(seg) + [];
    } else {
      FromStep(segs, i);
      FromBehind(segs, seg, i + 1);
      assert more[i] == segs[i];
    }
  }

  /** What segment `i` is read as. */
  function ReadAs(seg: string, i: nat): seq<Component> { if i == 0 && seg == "." then [CurDir] else Added(seg) }

  lemma FromStep(segs: seq<string>, i: nat)
    requires i < |segs|
    ensures From(segs, i) == ReadAs(segs[i], i) + From(segs, i + 1)
  {}

  lemma FromEnd(segs: seq<string>)
    ensures From(segs, |segs|) == []
  {}

  /** The components of any path, one segment after the other: a slash and an empty segment or "." add
      nothing, ".." a step up, and any other segment its name. */
  lemma ComponentsBehind(p: string, seg: string)
    requires p != "" && '/' !in seg
    ensures Components(p + "/" + seg) == Components(p) + Added(seg)
  {
    hide Split, From;
    SplitJoin(p, seg);
    SplitName(seg);
    FromBehind(Split(p), seg, 0);
    assert (p + "/" + seg)[0] == p[0];
  }

  /** And of a path that is one segment, or a slash and one segment. */
  lemma ComponentsStart(seg: string)
    requires '/' !in seg
    ensures Components(seg) == if seg == "." then [CurDir] else Added(seg)
    ensures Components("/" + seg) == [RootDir] + Added(seg)
  {
    hide Split;
    SplitName(seg);
    assert seg != "" ==> seg[0] in seg;
    assert From([seg], 1) == [];
    SplitEmpty();
    assert "" + "/" + seg == "/" + seg;
    SplitJoin("", seg);
    FromBehind([""], seg, 0);
    assert From([""], 1) == [] && From([""], 0) == [];
  }

  // ---- where a relative path leads ------------------------------------------------------------------

  /** A name goes one directory down, "." stays, and ".." takes the last name back, or leaves the root
      when there is none. */
  lemma SegmentLeads(p: string, seg: string)
    requires p != "" && !IsAbsolute(p) && '/' !in seg
    ensures var before, after := Resolve([], Components(p)), Resolve([], Components(p + "/" + seg));
            if before.None? then after.None?
            else if seg == "" || seg == "." then after == before
            else if seg == ".." then
              if before.value == [] then after.None? else after == Some(before.value[..|before.value| - 1])
            else after == Some(before.value + [seg])
  {
    hide Components;
    ComponentsBehind(p, seg);
    var cs := Components(p);
    if Added(seg) == [] {
      assert cs + [] == cs;
    } else {
      ResolveSnoc([], cs, Added(seg)[0]);
      assert Added(seg) == [Added(seg)[0]];
      if Resolve([], cs).Some? { OneStep(Resolve([], cs).value, Added(seg)[0]); }
    }
  }

  lemma OneStep(stack: seq<string>, c: Component)
    ensures Resolve(stack, [c]) ==
            match c
            case Normal(n) => Some(stack + [n])
            case CurDir => Some(stack)
            case ParentDir => if stack == [] then None else Some(stack[..|stack| - 1])
            case RootDir => None
  {
    assert [c][1..] == [];
  }

  lemma FirstLeads(seg: string)
    requires '/' !in seg
    ensures Resolve([], Components(seg)) ==
            if seg == "" || seg == "." then Some([]) else if seg == ".." then None else Some([seg])
  {
    hide Components;
    ComponentsStart(seg);
    OneStep([], CurDir);
    OneStep([], ParentDir);
    OneStep([], Normal(seg));
    assert Resolve([], []) == Some([]) && [] + [seg] == [seg];
  }

  // ---- the names on the floor -------------------------------------------------------------------------

  const NAMES: seq<string> := [".ssh", ".aws", ".gnupg", ".netrc", ".mozilla"]

  predicate Dotenv(name: string) { name == ".env" || (|name| >= 5 && name[..5] == ".env.") }

  /** A single name is sensitive exactly when it is a dotenv name or one of five. */
  lemma NameSensitiveIff(name: string)
    requires '/' !in name && '\\' !in name
    ensures IsSensitivePath(name) <==> Dotenv(name) || name in NAMES
  {
    hide IsSensitivePath, SegmentsMatch, Split, Segments;
    SensitiveIff(name);
    PlainSegments(name);
    StemsIn([name]);
    forall stem: string | '/' !in stem ensures IsRun([stem], [name]) <==> stem == name { OneRun(stem, name); }
    TwoInOne(".config", "gh", name);
    TwoInOne(".config", "google-chrome", name);
  }

  /** Two names one below the other: exactly when the lower is a dotenv name, either is one of the five, or
      they are a known place below ".config". */
  lemma PairSensitiveIff(a: string, b: string)
    requires '/' !in a && '\\' !in a && '/' !in b && '\\' !in b
    ensures IsSensitivePath(a + "/" + b) <==>
            Dotenv(b) || a in NAMES || b in NAMES || (a == ".config" && b in ["gh", "google-chrome"])
  {
    hide IsSensitivePath, SegmentsMatch, Split, Segments;
    SensitiveIff(a + "/" + b);
    SegmentsJoin(a, b);
    PlainSegments(a);
    PlainSegments(b);
    assert [a] + [b] == [a, b];
    StemsIn([a, b]);
    forall stem: string ensures IsRun([stem], [a, b]) <==> stem == a || stem == b { OneRunOfTwo(stem, a, b); }
    TwoRun(".config", "gh", a, b);
    TwoRun(".config", "google-chrome", a, b);
  }

  lemma OneRun(stem: string, name: string)
    ensures IsRun([stem], [name]) <==> stem == name
  {
    if k :| 0 <= k <= |[name]| && [stem] <= [name][k..] { assert [name][k..][0] == [name][k]; }
    if stem == name { assert [stem] <= [name][0..]; }
  }

  lemma TwoInOne(x: string, y: string, name: string)
    ensures !IsRun([x, y], [name])
  {}

  lemma OneRunOfTwo(stem: string, a: string, b: string)
    ensures IsRun([stem], [a, b]) <==> stem == a || stem == b
  {
    if k :| 0 <= k <= |[a, b]| && [stem] <= [a, b][k..] { assert [a, b][k..][0] == [a, b][k]; }
    if stem == a { assert [stem] <= [a, b][0..]; }
    if stem == b { assert [stem] <= [a, b][1..]; }
  }

  lemma TwoRun(x: string, y: string, a: string, b: string)
    ensures IsRun([x, y], [a, b]) <==> x == a && y == b
  {
    var part, whole := [x, y], [a, b];
    assert whole[0..] == whole;
    if k :| 0 <= k <= |whole| && part <= whole[k..] {
      assert k == 0 && part[0] == whole[0] && part[1] == whole[1];
    }
  }

  /** The stems the floor looks for, as names. */
  lemma StemsIn(segs: seq<string>)
    ensures SegmentsMatch(STEMS, segs) <==>
            || (exists name <- NAMES :: IsRun([name], segs))
            || IsRun([".config", "gh"], segs) || IsRun([".config", "google-chrome"], segs)
  {
    hide IsRun, Split;
    SplitStems();
    assert |STEMS| == 7 && STEMS[5] == ".config/gh" && STEMS[6] == ".config/google-chrome";
    assert STEMS[..5] == NAMES;
    if stem :| stem in STEMS && IsRun(Split(stem), segs) {
      var i :| 0 <= i < |STEMS| && STEMS[i] == stem;
      if i < 5 { assert stem == NAMES[i] && NAMES[i] in NAMES; }
    }
    if name :| name in NAMES && IsRun([name], segs) {
      var i :| 0 <= i < |NAMES| && NAMES[i] == name;
      assert STEMS[i] == name && STEMS[i] in STEMS;
    }
    assert STEMS[5] in STEMS && STEMS[6] in STEMS;
  }

  lemma SplitStems()
    ensures forall name <- NAMES :: Split(name) == [name]
    ensures Split(".config/gh") == [".config", "gh"] && Split(".config/google-chrome") == [".config", "google-chrome"]
  {
    hide Split;
    forall name <- NAMES ensures Split(name) == [name] { SplitName(name); }
    SplitName(".config");
    SplitName("gh");
    SplitName("google-chrome");
    SplitJoin(".config", "gh");
    SplitJoin(".config", "google-chrome");
    assert ".config" + "/" + "gh" == ".config/gh";
    assert ".config" + "/" + "google-chrome" == ".config/google-chrome";
    assert [".config"] + ["gh"] == [".config", "gh"];
    assert [".config"] + ["google-chrome"] == [".config", "google-chrome"];
  }
}
