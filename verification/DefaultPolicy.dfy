/** What the policy decides unasked, and which later calls a recorded answer covers. */
module DefaultPolicy {
  import opened Wrappers
  import opened Permissions
  import Paths
  import SensitivePaths

  // ---- unasked -----------------------------------------------------------------------------------

  /** The path is absolute and the root's components begin its own, or relative and following it step by
      step never leaves the root. */
  ghost predicate WithinRoot(p: string, root: string) {
    if Paths.IsAbsolute(p) then exists below :: Paths.Components(p) == Paths.Components(root) + below
    else Paths.Resolve([], Paths.Components(p)).Some?
  }

  /** The calls allowed without a rule and without asking. */
  ghost predicate AllowedUnasked(root: string, tool: string, args: Args) {
    || tool == "read_file" || tool == "list_dir" || tool == "glob"
    || (tool == "write_file" && args.path.Some? && WithinRoot(args.path.value, root))
  }

  /** A call off the floor that no rule is about is allowed exactly when it only looks at files, or writes
      one within the root; any other call is put to the user. */
  lemma UnaskedIff(root: string, front: seq<Rule>, toml: seq<Rule>, tool: string, args: Args)
    requires args.path.Some? ==> !SensitivePaths.IsSensitivePath(args.path.value)
    requires forall r <- front + toml :: r.tool == tool ==> !Matches(r.pattern, args)
    ensures Evaluate(root, front, toml, tool, args) == if AllowedUnasked(root, tool, args) then Allowed else Ask
  {
    hide Matches, SensitivePaths.IsSensitivePath, Paths.Components, Paths.Resolve, Paths.NeverAbove;
    NoHit(front, tool, args);
    NoHit(toml, tool, args);
    if args.path.Some? {
      var p := args.path.value;
      Paths.NeverAboveIffResolves(Paths.Components(p));
      PrefixIff(Paths.Components(root), Paths.Components(p));
    }
  }

  lemma {:induction false} NoHit(rules: seq<Rule>, tool: string, args: Args)
    requires forall r <- rules :: r.tool == tool ==> !Matches(r.pattern, args)
    ensures MatchFirst(rules, tool, args) == None
    decreases |rules|
  {
    if rules != [] {
      assert rules[0] in rules && forall r <- rules[1..] :: r in rules;
      NoHit(rules[1..], tool, args);
    }
  }

  lemma PrefixIff<T(!new)>(a: seq<T>, b: seq<T>)
    ensures a <= b <==> exists rest :: b == a + rest
  {
    if a <= b { assert b == a + b[|a|..]; }
  }

  /** A sensitive path is refused whatever the rules, and the floor refuses nothing else. */
  lemma FloorRefusesIff(root: string, front: seq<Rule>, toml: seq<Rule>, tool: string, args: Args)
    ensures Evaluate(root, front, toml, tool, args) == Refused(Floor) <==>
            args.path.Some? && SensitivePaths.IsSensitivePath(args.path.value)
  {
    hide SensitivePaths.IsSensitivePath, Matches;
  }

  /** Off the floor the first rule that is about the call decides, those of the front matter before those
      of the file. */
  lemma FirstRuleDecides(root: string, front: seq<Rule>, toml: seq<Rule>, tool: string, args: Args, k: nat)
    requires args.path.Some? ==> !SensitivePaths.IsSensitivePath(args.path.value)
    requires k < |front + toml| && (front + toml)[k].tool == tool && Matches((front + toml)[k].pattern, args)
    requires forall j | 0 <= j < k :: (front + toml)[j].tool == tool ==> !Matches((front + toml)[j].pattern, args)
    ensures Evaluate(root, front, toml, tool, args) ==
            if (front + toml)[k].decision == Allow then Allowed
            else Refused(if k < |front| then FrontMatter else PermissionsFile)
  {
    hide SensitivePaths.IsSensitivePath, Matches, DefaultVerdict;
    var all := front + toml;
    if k < |front| {
      forall j | 0 <= j < k ensures front[j].tool == tool ==> !Matches(front[j].pattern, args) {
        assert all[j] == front[j];
      }
      FirstHit(front, tool, args, k);
    } else {
      forall r <- front ensures r.tool == tool ==> !Matches(r.pattern, args) {
        var j :| 0 <= j < |front| && front[j] == r;
        assert all[j] == r;
      }
      NoHit(front, tool, args);
      forall j | 0 <= j < k - |front| ensures toml[j].tool == tool ==> !Matches(toml[j].pattern, args) {
        assert all[|front| + j] == toml[j];
      }
      FirstHit(toml, tool, args, k - |front|);
    }
  }

  lemma {:induction false} FirstHit(rules: seq<Rule>, tool: string, args: Args, k: nat)
    requires k < |rules| && rules[k].tool == tool && Matches(rules[k].pattern, args)
    requires forall j | 0 <= j < k :: rules[j].tool == tool ==> !Matches(rules[j].pattern, args)
    ensures MatchFirst(rules, tool, args) == Some(rules[k].decision)
    decreases |rules|
  {
    hide Matches;
    if k > 0 { FirstHit(rules[1..], tool, args, k - 1); }
  }

  // ---- what a recorded answer covers ------------------------------------------------------------------

  predicate Blank(s: string) { forall c <- s :: IsSpace(c) }

  /** `w` is the first run of characters that are no spaces. */
  ghost predicate IsFirstWord(s: string, w: string) { exists front, back :: WordAt(s, front, w, back) }

  predicate WordAt(s: string, front: string, w: string, back: string) {
    s == front + w + back && Blank(front) && IsWord(w) && (back == "" || IsSpace(back[0]))
  }

  predicate IsWord(w: string) { w != "" && forall c <- w :: !IsSpace(c) }

  lemma {:induction false} SkipsBlank(front: string, rest: string)
    requires Blank(front) && (rest == "" || !IsSpace(rest[0]))
    ensures SkipSpaces(front + rest) == rest
    decreases |front|
  {
    if front == "" {
      assert front + rest == rest;
    } else {
      assert front[0] in front && forall c <- front[1..] :: c in front;
      SkipsBlank(front[1..], rest);
      assert (front + rest)[1..] == front[1..] + rest;
    }
  }

  lemma {:induction false} SkipsTo(s: string) returns (front: string)
    ensures s == front + SkipSpaces(s) && Blank(front)
    ensures SkipSpaces(s) != "" ==> !IsSpace(SkipSpaces(s)[0])
    decreases |s|
  {
    hide IsSpace;
    front := "";
    if s != "" && IsSpace(s[0]) {
      var rest := SkipsTo(s[1..]);
      front := [s[0]] + rest;
    }
  }

  lemma {:induction false} WordIs(w: string, back: string)
    requires (forall c <- w :: !IsSpace(c)) && (back == "" || IsSpace(back[0]))
    ensures Word(w + back) == w
    decreases |w|
  {
    if w == "" {
      assert w + back == back;
    } else {
      assert w[0] in w && forall c <- w[1..] :: c in w;
      WordIs(w[1..], back);
      assert (w + back)[1..] == w[1..] + back;
    }
  }

  lemma {:induction false} WordSplits(s: string) returns (back: string)
    ensures s == Word(s) + back && (back == "" || IsSpace(back[0]))
    ensures forall c <- Word(s) :: !IsSpace(c)
    decreases |s|
  {
    hide IsSpace;
    back := s;
    if s != "" && !IsSpace(s[0]) {
      back := WordSplits(s[1..]);
      WordStep(s, back);
    }
  }

  lemma WordStep(s: string, back: string)
    requires s != "" && !IsSpace(s[0]) && s[1..] == Word(s[1..]) + back
    ensures s == Word(s) + back && Word(s) == [s[0]] + Word(s[1..])
  {
    hide IsSpace;
    assert s == [s[0]] + s[1..];
  }

  lemma FirstWordIff(s: string, w: string)
    ensures FirstWord(s) == Some(w) <==> IsFirstWord(s, w)
    ensures FirstWord(s) == None <==> Blank(s)
  {
    var front := SkipsTo(s);
    var rest := SkipSpaces(s);
    if rest == "" {
      assert s == front;
      if f, b :| WordAt(s, f, w, b) { WordIsNotBlank(s, f, w, b); }
    } else {
      NotBlank(s, front, rest);
      RestHasWord(s, front, rest);
      if f, b :| WordAt(s, f, w, b) {
        hide IsSpace, Blank, IsWord;
        OnlyWord(s, f, w, b);
      }
    }
  }

  lemma NotBlank(s: string, front: string, rest: string)
    requires s == front + rest && rest != "" && !IsSpace(rest[0])
    ensures !Blank(s)
  {
    hide IsSpace;
    assert rest[0] == s[|front|] && s[|front|] in s;
  }

  lemma RestHasWord(s: string, front: string, rest: string)
    requires s == front + rest && Blank(front) && rest != "" && !IsSpace(rest[0])
    ensures IsFirstWord(s, Word(rest))
  {
    hide IsSpace, Blank;
    var back := WordSplits(rest);
    WordStarts(rest);
    hide Word;
    assert s == front + Word(rest) + back;
    assert WordAt(s, front, Word(rest), back);
  }

  /** There is one first word. */
  lemma OnlyWord(s: string, f: string, w: string, b: string)
    requires WordAt(s, f, w, b)
    ensures FirstWord(s) == Some(w)
  {
    hide IsSpace, Blank, SkipSpaces, Word;
    assert w[0] in w && (w + b)[0] == w[0];
    SkipsBlank(f, w + b);
    assert f + w + b == f + (w + b);
    WordIs(w, b);
  }

  lemma WordIsNotBlank(s: string, f: string, w: string, b: string)
    requires WordAt(s, f, w, b)
    ensures !Blank(s)
  {
    hide IsSpace;
    assert w[0] in w;
    assert (f + w + b)[|f|] == w[0];
    assert s[|f|] in s;
  }

  lemma WordStarts(s: string)
    requires s != "" && !IsSpace(s[0])
    ensures Word(s) != ""
  {}

  /** The later calls of the tool that an answer recorded for a call covers: for the four file tools those at
      or below its path; for a command those with its first word; and all of them when the call had
      neither, or is of another tool. */
  lemma RecordedCovers(tool: string, args: Args, later: Args)
    ensures Matches(ForCall(tool, args), later) <==>
            if tool in ["read_file", "write_file", "list_dir", "glob"] then
              args.path.Some? ==>
                later.path.Some? && Paths.Components(args.path.value) <= Paths.Components(later.path.value)
            else if tool == "run" then
              args.command.Some? && !Blank(args.command.value) ==>
                && later.command.Some?
                && exists w :: IsFirstWord(args.command.value, w) && IsFirstWord(later.command.value, w)
            else true
  {
    hide Paths.Components, FirstWord, IsFirstWord, Blank;
    if tool == "run" && args.command.Some? {
      var c := args.command.value;
      FirstWordIff(c, "");
      if FirstWord(c).Some? {
        forall w ensures IsFirstWord(c, w) <==> w == FirstWord(c).value { FirstWordIff(c, w); }
        if later.command.Some? { FirstWordIff(later.command.value, FirstWord(c).value); }
      }
    }
  }

  /** So an answer recorded for good to a command of blanks is one for every command. */
  lemma BlankCommandCoversAll(root: string, c: string, later: string)
    requires Blank(c)
    ensures Evaluate(root, [], [], "run", Args(None, Some(c))) == Ask
    ensures Evaluate(root, [], Permissions.Added([], "run", Args(None, Some(c)), Allow), "run", Args(None, Some(later)))
            == Allowed
  {
    FirstWordIff(c, "");
    hide FirstWord, Blank;
    assert Permissions.Added([], "run", Args(None, Some(c)), Allow) == [Rule("run", Any, Allow)];
  }
}
