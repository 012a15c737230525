/** The layered permission policy: first-match rule lists, their form on disk, and the effect of
    recording a decision. */
module Permissions {
  import opened Wrappers
  import Paths
  import SensitivePaths

  datatype Decision = Allow | Deny

  /** The string-valued arguments the policy looks at. */
  datatype Args = Args(path: Option<string>, command: Option<string>)

  datatype ArgPattern = Any | Path(path: string) | Command(word: string)

  datatype Rule = Rule(tool: string, pattern: ArgPattern, decision: Decision)

  predicate IsSpace(c: char) {
    '\t' <= c <= '\r' || c == ' ' || c == '\U{85}' || c == '\U{A0}' || c == '\U{1680}'
    || '\U{2000}' <= c <= '\U{200A}' || c in {'\U{2028}', '\U{2029}', '\U{202F}', '\U{205F}', '\U{3000}'}
  }

  function SkipSpaces(s: string): string { if s != "" && IsSpace(s[0]) then SkipSpaces(s[1..]) else s }

  function Word(s: string): string { if s == "" || IsSpace(s[0]) then "" else [s[0]] + Word(s[1..]) }

  /** The first whitespace-separated word, if there is any. */
  function FirstWord(s: string): Option<string> {
    var rest := SkipSpaces(s);
    if rest == "" then None else Some(Word(rest))
  }

  const PATH_TOOLS: set<string> := {"read_file", "write_file", "list_dir", "glob"}

  /** The pattern recorded for a call the user decided. */
  function ForCall(tool: string, args: Args): ArgPattern {
    if tool in PATH_TOOLS then
      if args.path.Some? then Path(args.path.value) else Any
    else if tool == "run" then
      match args.command
      case None => Any
      case Some(c) => if FirstWord(c).Some? then Command(FirstWord(c).value) else Any
    else Any
  }

  predicate Matches(pattern: ArgPattern, args: Args) {
    match pattern
    case Any => true
    case Path(want) => args.path.Some? && Paths.StartsWith(args.path.value, want)
    case Command(want) => args.command.Some? && FirstWord(args.command.value) == Some(want)
  }

  predicate Hits(r: Rule, tool: string, args: Args) { r.tool == tool && Matches(r.pattern, args) }

  function MatchFirst(rules: seq<Rule>, tool: string, args: Args): Option<Decision> {
    if rules == [] then None
    else if Hits(rules[0], tool, args) then Some(rules[0].decision)
    else MatchFirst(rules[1..], tool, args)
  }

  // ---- the form on disk ------------------------------------------------------------

  datatype SerializableRule = SerializableRule(tool: string, path: Option<string>, command: Option<string>)

  datatype PermissionsToml = PermissionsToml(allow: seq<SerializableRule>, deny: seq<SerializableRule>)

  function FromSerializable(s: SerializableRule, decision: Decision): Rule {
    Rule(s.tool,
         if s.path.Some? then Path(s.path.value) else if s.command.Some? then Command(s.command.value) else Any,
         decision)
  }

  function ToSerializable(r: Rule): SerializableRule {
    SerializableRule(r.tool, if r.pattern.Path? then Some(r.pattern.path) else None,
                     if r.pattern.Command? then Some(r.pattern.word) else None)
  }

  /** The rules with one decision, in order. */
  function Only(rules: seq<Rule>, d: Decision): seq<Rule> {
    if rules == [] then []
    else Only(rules[..|rules| - 1], d) + if rules[|rules| - 1].decision == d then [rules[|rules| - 1]] else []
  }

  function Serialized(rules: seq<Rule>): seq<SerializableRule> {
    seq(|rules|, i requires 0 <= i < |rules| => ToSerializable(rules[i]))
  }

  function Loaded(rules: seq<SerializableRule>, d: Decision): seq<Rule> {
    seq(|rules|, i requires 0 <= i < |rules| => FromSerializable(rules[i], d))
  }

  method PermissionsFromRules(rules: seq<Rule>) returns (toml: PermissionsToml)
    ensures toml == PermissionsToml(Serialized(Only(rules, Allow)), Serialized(Only(rules, Deny)))
  {
    var allow, deny := [], [];
    for i := 0 to |rules|
      invariant allow == Serialized(Only(rules[..i], Allow))
      invariant deny == Serialized(Only(rules[..i], Deny))
    {
      assert rules[..i + 1][..i] == rules[..i];
      var s := ToSerializable(rules[i]);
      match rules[i].decision {
        case Allow => allow := allow + [s];
        case Deny => deny := deny + [s];
      }
    }
    assert rules[..|rules|] == rules;
    toml := PermissionsToml(allow, deny);
  }

  method RulesFromPermissions(toml: PermissionsToml) returns (rules: seq<Rule>)
    ensures rules == Loaded(toml.allow, Allow) + Loaded(toml.deny, Deny)
  {
    rules := [];
    for i := 0 to |toml.allow|
      invariant rules == Loaded(toml.allow[..i], Allow)
    {
      rules := rules + [FromSerializable(toml.allow[i], Allow)];
    }
    ghost var allowed := rules;
    assert toml.allow[..|toml.allow|] == toml.allow;
    for i := 0 to |toml.deny|
      invariant rules == allowed + Loaded(toml.deny[..i], Deny)
    {
      rules := rules + [FromSerializable(toml.deny[i], Deny)];
    }
    assert toml.deny[..|toml.deny|] == toml.deny;
  }

  /** What is in force after the rules were saved and read back. */
  function Reloaded(rules: seq<Rule>): seq<Rule> {
    Loaded(Serialized(Only(rules, Allow)), Allow) + Loaded(Serialized(Only(rules, Deny)), Deny)
  }

  /** Saving and reading back is the stable partition, the allowing rules first. */
  lemma ReloadPartitions(rules: seq<Rule>)
    ensures Reloaded(rules) == Only(rules, Allow) + Only(rules, Deny)
  {
    LoadSerialized(rules, Allow);
    LoadSerialized(rules, Deny);
  }

  lemma {:induction false} LoadSerialized(rules: seq<Rule>, d: Decision)
    ensures Loaded(Serialized(Only(rules, d)), d) == Only(rules, d)
  {
    OnlyDecides(rules, d);
    var only := Only(rules, d);
    forall i | 0 <= i < |only| ensures Loaded(Serialized(only), d)[i] == only[i] { assert only[i] in only; }
  }

  lemma {:induction false} OnlyDecides(rules: seq<Rule>, d: Decision)
    ensures forall r <- Only(rules, d) :: r in rules && r.decision == d
    decreases |rules|
  {
    if rules != [] {
      var n := |rules| - 1;
      OnlyDecides(rules[..n], d);
      assert rules[n] in rules && forall r <- rules[..n] :: r in rules;
    }
  }

  lemma {:induction false} OnlyAll(rules: seq<Rule>, d: Decision)
    requires forall r <- rules :: r.decision == d
    ensures Only(rules, d) == rules
    decreases |rules|
  {
    if rules != [] {
      var n := |rules| - 1;
      assert rules == rules[..n] + [rules[n]];
      assert forall r <- rules[..n] :: r in rules;
      OnlyAll(rules[..n], d);
    }
  }

  lemma {:induction false} OnlyNone(rules: seq<Rule>, d: Decision)
    requires forall r <- rules :: r.decision != d
    ensures Only(rules, d) == []
    decreases |rules|
  {
    if rules != [] {
      var n := |rules| - 1;
      assert forall r <- rules[..n] :: r in rules;
      OnlyNone(rules[..n], d);
    }
  }

  lemma {:induction false} OnlyConcat(a: seq<Rule>, b: seq<Rule>, d: Decision)
    ensures Only(a + b, d) == Only(a, d) + Only(b, d)
    decreases |b|
  {
    if b == [] {
      assert a + b == a;
    } else {
      var n := |b| - 1;
      OnlyConcat(a, b[..n], d);
      assert (a + b)[..|a + b| - 1] == a + b[..n];
    }
  }

  predicate Partitioned(rules: seq<Rule>) {
    forall i, j | 0 <= i < j < |rules| && rules[i].decision == Deny :: rules[j].decision == Deny
  }

  /** A second save and load changes nothing more. */
  lemma ReloadIdempotent(rules: seq<Rule>)
    ensures Reloaded(Reloaded(rules)) == Reloaded(rules) && Partitioned(Reloaded(rules))
  {
    hide Only, Reloaded, Partitioned;
    ReloadPartitions(rules);
    ReloadPartitions(Reloaded(rules));
    var a, b := Only(rules, Allow), Only(rules, Deny);
    OnlyDecides(rules, Allow);
    OnlyDecides(rules, Deny);
    TwoParts(a, b);
  }

  lemma TwoParts(a: seq<Rule>, b: seq<Rule>)
    requires (forall r <- a :: r.decision == Allow) && (forall r <- b :: r.decision == Deny)
    ensures Only(a + b, Allow) == a && Only(a + b, Deny) == b && Partitioned(a + b)
  {
    hide Only;
    OnlyConcat(a, b, Allow);
    OnlyConcat(a, b, Deny);
    OnlyAll(a, Allow);
    OnlyNone(b, Allow);
    OnlyNone(a, Deny);
    OnlyAll(b, Deny);
    AllowThenDeny(a, b);
  }

  lemma AllowThenDeny(a: seq<Rule>, b: seq<Rule>)
    requires (forall r <- a :: r.decision == Allow) && (forall r <- b :: r.decision == Deny)
    ensures Partitioned(a + b)
  {
    var all := a + b;
    assert forall i | 0 <= i < |a| :: all[i] == a[i] && a[i] in a;
    assert forall j | |a| <= j < |all| :: all[j] == b[j - |a|] && b[j - |a|] in b;
  }

  /** The list survives as it is exactly when no allowing rule stands after a denying one. */
  lemma ReloadIsIdentityIff(rules: seq<Rule>)
    ensures Reloaded(rules) == rules <==> Partitioned(rules)
  {
    hide Only, Reloaded;
    ReloadIdempotent(rules);
    if Partitioned(rules) {
      ReloadPartitions(rules);
      PartitionSplits(rules);
    }
  }

  lemma {:induction false} PartitionSplits(rules: seq<Rule>)
    requires Partitioned(rules)
    ensures Only(rules, Allow) + Only(rules, Deny) == rules
    decreases |rules|
  {
    if rules != [] {
      var n := |rules| - 1;
      PartitionSplits(rules[..n]);
      assert rules == rules[..n] + [rules[n]];
      if rules[n].decision == Allow {
        forall r <- rules ensures r.decision != Deny {
          var i :| 0 <= i < |rules| && rules[i] == r;
          assert i < n ==> rules[n].decision == Deny || rules[i].decision != Deny;
        }
        OnlyAll(rules, Allow);
        OnlyNone(rules, Deny);
      }
    }
  }

  lemma {:induction false} MatchConcat(a: seq<Rule>, b: seq<Rule>, tool: string, args: Args)
    ensures MatchFirst(a + b, tool, args) ==
            if MatchFirst(a, tool, args).Some? then MatchFirst(a, tool, args) else MatchFirst(b, tool, args)
    decreases |a|
  {
    if a == [] {
      assert a + b == b;
    } else {
      assert (a + b)[1..] == a[1..] + b;
      MatchConcat(a[1..], b, tool, args);
    }
  }

  /** Some rule with decision `d` matches the call. */
  predicate SomeHit(rules: seq<Rule>, d: Decision, tool: string, args: Args) {
    exists r <- rules :: r.decision == d && Hits(r, tool, args)
  }

  lemma {:induction false} OnlyMatches(rules: seq<Rule>, d: Decision, tool: string, args: Args)
    ensures MatchFirst(Only(rules, d), tool, args) == if SomeHit(rules, d, tool, args) then Some(d) else None
    decreases |rules|
  {
    if rules != [] {
      var n := |rules| - 1;
      OnlyMatches(rules[..n], d, tool, args);
      SomeHitSnoc(rules[..n], rules[n], d, tool, args);
      assert rules == rules[..n] + [rules[n]];
      if rules[n].decision == d {
        MatchConcat(Only(rules[..n], d), [rules[n]], tool, args);
        assert [rules[n]][1..] == [];
      } else {
        assert Only(rules, d) == Only(rules[..n], d);
      }
    }
  }

  lemma SomeHitSnoc(rules: seq<Rule>, r: Rule, d: Decision, tool: string, args: Args)
    ensures SomeHit(rules + [r], d, tool, args) <==>
            SomeHit(rules, d, tool, args) || (r.decision == d && Hits(r, tool, args))
  {
    assert r in rules + [r] && forall q <- rules :: q in rules + [r];
  }

  lemma {:induction false} FirstMatchIsHit(rules: seq<Rule>, tool: string, args: Args)
    ensures MatchFirst(rules, tool, args).None? <==>
            !SomeHit(rules, Allow, tool, args) && !SomeHit(rules, Deny, tool, args)
    ensures MatchFirst(rules, tool, args).Some? ==> SomeHit(rules, MatchFirst(rules, tool, args).value, tool, args)
    decreases |rules|
  {
    if rules != [] {
      FirstMatchIsHit(rules[1..], tool, args);
      assert rules == [rules[0]] + rules[1..];
      assert rules[0] in rules && forall r <- rules[1..] :: r in rules;
      forall d
        ensures SomeHit(rules, d, tool, args) <==>
                (rules[0].decision == d && Hits(rules[0], tool, args)) || SomeHit(rules[1..], d, tool, args) {}
    }
  }

  /** After a save and a load, a call gets another answer from the list exactly when its first match
      denies and some rule allows it too: then the answer turns into Allow. */
  lemma ReloadChangesAnswerIff(rules: seq<Rule>, tool: string, args: Args)
    ensures MatchFirst(Reloaded(rules), tool, args) != MatchFirst(rules, tool, args) <==>
            MatchFirst(rules, tool, args) == Some(Deny) && SomeHit(rules, Allow, tool, args)
    ensures MatchFirst(Reloaded(rules), tool, args) != MatchFirst(rules, tool, args) ==>
            MatchFirst(Reloaded(rules), tool, args) == Some(Allow)
  {
    hide Reloaded, Only, SomeHit, MatchFirst;
    ReloadPartitions(rules);
    MatchConcat(Only(rules, Allow), Only(rules, Deny), tool, args);
    OnlyMatches(rules, Allow, tool, args);
    OnlyMatches(rules, Deny, tool, args);
    FirstMatchIsHit(rules, tool, args);
    var first := MatchFirst(rules, tool, args);
    if first.Some? && first.value == Allow {
      assert SomeHit(rules, Allow, tool, args);
    } else if first.Some? {
      assert first.value == Deny;
    }
  }

  // ---- recording a decision ------------------------------------------------------------

  /** The rules of another tool or pattern, in order. */
  function Without(rules: seq<Rule>, tool: string, pattern: ArgPattern): seq<Rule> {
    if rules == [] then []
    else
      (if rules[0].tool == tool && rules[0].pattern == pattern then [] else [rules[0]])
      + Without(rules[1..], tool, pattern)
  }

  function Added(rules: seq<Rule>, tool: string, args: Args, d: Decision): seq<Rule> {
    Without(rules, tool, ForCall(tool, args)) + [Rule(tool, ForCall(tool, args), d)]
  }

  predicate SameKey(a: Rule, b: Rule) { a.tool == b.tool && a.pattern == b.pattern }

  predicate DistinctKeys(rules: seq<Rule>) {
    forall i, j | 0 <= i < j < |rules| :: !SameKey(rules[i], rules[j])
  }

  lemma {:induction false} WithoutKeeps(rules: seq<Rule>, tool: string, pattern: ArgPattern)
    ensures forall r :: r in Without(rules, tool, pattern) <==> r in rules && !(r.tool == tool && r.pattern == pattern)
    decreases |rules|
  {
    if rules != [] {
      WithoutKeeps(rules[1..], tool, pattern);
      assert rules == [rules[0]] + rules[1..];
    }
  }

  lemma {:induction false} WithoutDistinct(rules: seq<Rule>, tool: string, pattern: ArgPattern)
    requires DistinctKeys(rules)
    ensures DistinctKeys(Without(rules, tool, pattern))
    decreases |rules|
  {
    if rules != [] {
      var tail := rules[1..];
      assert forall i | 0 <= i < |tail| :: tail[i] == rules[i + 1];
      WithoutDistinct(tail, tool, pattern);
      WithoutKeeps(tail, tool, pattern);
      forall r <- Without(tail, tool, pattern) ensures !SameKey(rules[0], r) {
        var j :| 0 <= j < |tail| && tail[j] == r;
        assert rules[j + 1] == r;
      }
      DistinctCons(rules[0], Without(tail, tool, pattern));
      assert [] + Without(tail, tool, pattern) == Without(tail, tool, pattern);
    }
  }

  lemma DistinctCons(r: Rule, rest: seq<Rule>)
    requires DistinctKeys(rest) && forall q <- rest :: !SameKey(r, q)
    ensures DistinctKeys([r] + rest)
  {
    hide SameKey;
    var all := [r] + rest;
    forall i, j | 0 <= i < j < |all| ensures !SameKey(all[i], all[j]) {
      assert all[j] == rest[j - 1] && rest[j - 1] in rest;
      if i > 0 { assert all[i] == rest[i - 1]; }
    }
  }

  /** The decision recorded for a key, if the list has a rule for it. */
  ghost predicate Records(rules: seq<Rule>, tool: string, pattern: ArgPattern, d: Decision) {
    Rule(tool, pattern, d) in rules
  }

  /** Recording keeps one rule a key, and is an update of the table from keys to decisions: the key
      of the call gets the new decision and no other key changes. */
  lemma AddUpdatesTable(rules: seq<Rule>, tool: string, args: Args, d: Decision)
    requires DistinctKeys(rules)
    ensures DistinctKeys(Added(rules, tool, args, d))
    ensures forall t, p, e :: Records(Added(rules, tool, args, d), t, p, e) <==>
                              if t == tool && p == ForCall(tool, args) then e == d else Records(rules, t, p, e)
  {
    hide ForCall;
    var pattern := ForCall(tool, args);
    var kept, r := Without(rules, tool, pattern), Rule(tool, pattern, d);
    WithoutKeeps(rules, tool, pattern);
    WithoutDistinct(rules, tool, pattern);
    assert forall i | 0 <= i < |kept| :: kept[i] in kept;
    assert r in kept + [r] && forall q <- kept :: q in kept + [r];
    assert forall q <- kept + [r] :: q in kept || q == r;
  }

  /** The recorded pattern matches the very call it was recorded for. */
  lemma PatternMatchesItsCall(tool: string, args: Args)
    ensures Matches(ForCall(tool, args), args)
  {}

  // ---- the layers ----------------------------------------------------------------------

  datatype Layer = Floor | FrontMatter | PermissionsFile

  datatype Verdict = Allowed | Refused(source: Layer) | Ask

  function ToVerdict(d: Decision, source: Layer): Verdict { if d == Allow then Allowed else Refused(source) }

  /** Whether a path that is absolute or not counts as inside the project root. */
  predicate InsideRoot(p: string, root: string) {
    if Paths.IsAbsolute(p) then Paths.StartsWith(p, root) else Paths.NeverAbove(Paths.Components(p))
  }

  function DefaultVerdict(root: string, tool: string, args: Args): Verdict {
    if tool in {"read_file", "list_dir", "glob"} then Allowed
    else if tool == "write_file" && args.path.Some? && InsideRoot(args.path.value, root) then Allowed
    else Ask
  }

  predicate OnFloor(args: Args) { args.path.Some? && SensitivePaths.IsSensitivePath(args.path.value) }

  function Evaluate(root: string, front: seq<Rule>, toml: seq<Rule>, tool: string, args: Args): Verdict {
    if OnFloor(args) then Refused(Floor)
    else
      match MatchFirst(front, tool, args)
      case Some(d) => ToVerdict(d, FrontMatter)
      case None =>
        match MatchFirst(toml, tool, args)
        case Some(d) => ToVerdict(d, PermissionsFile)
        case None => DefaultVerdict(root, tool, args)
  }

  /** Right after the recording, a call that was put to the user gets the recorded answer, and would
      after a restart at that point, whatever rules were there before. */
  lemma PromptedDecisionSticks(root: string, front: seq<Rule>, toml: seq<Rule>, tool: string, args: Args, d: Decision)
    requires Evaluate(root, front, toml, tool, args) == Ask
    ensures Evaluate(root, front, Added(toml, tool, args, d), tool, args) == ToVerdict(d, PermissionsFile)
    ensures Evaluate(root, front, Reloaded(Added(toml, tool, args, d)), tool, args) == ToVerdict(d, PermissionsFile)
  {
    hide OnFloor, DefaultVerdict, Reloaded, ForCall, Matches;
    var kept, r := Without(toml, tool, ForCall(tool, args)), Rule(tool, ForCall(tool, args), d);
    PatternMatchesItsCall(tool, args);
    WithoutKeeps(toml, tool, ForCall(tool, args));
    FirstMatchIsHit(toml, tool, args);
    FirstMatchIsHit(kept, tool, args);
    MatchConcat(kept, [r], tool, args);
    ReloadChangesAnswerIff(kept + [r], tool, args);
    SomeHitSnoc(kept, r, Allow, tool, args);
  }

  /** For any call, the answer after recording `d` is what the user chose exactly when neither the
      floor, nor a front-matter rule, nor an earlier rule for another key says otherwise. */
  lemma RecordedDecisionHoldsIff(root: string, front: seq<Rule>, toml: seq<Rule>, tool: string, args: Args, d: Decision)
    ensures (Evaluate(root, front, Added(toml, tool, args, d), tool, args) == Allowed <==> d == Allow) <==>
            if OnFloor(args) then d == Deny
            else if MatchFirst(front, tool, args).Some? then MatchFirst(front, tool, args) == Some(d)
            else MatchFirst(Without(toml, tool, ForCall(tool, args)), tool, args) in {None, Some(d)}
  {
    hide OnFloor, DefaultVerdict, ForCall, Matches;
    var kept, r := Without(toml, tool, ForCall(tool, args)), Rule(tool, ForCall(tool, args), d);
    PatternMatchesItsCall(tool, args);
    MatchConcat(kept, [r], tool, args);
    assert MatchFirst([r], tool, args) == Some(d);
  }

  // ---- later recordings ---------------------------------------------------------------------

  datatype Recording = Recording(tool: string, args: Args, decision: Decision)

  function RuleOf(rec: Recording): Rule { Rule(rec.tool, ForCall(rec.tool, rec.args), rec.decision) }

  function AddedAll(rules: seq<Rule>, recs: seq<Recording>): seq<Rule>
    decreases |recs|
  {
    if recs == [] then rules else AddedAll(Added(rules, recs[0].tool, recs[0].args, recs[0].decision), recs[1..])
  }

  function WithoutAll(rules: seq<Rule>, recs: seq<Recording>): seq<Rule>
    decreases |recs|
  {
    if recs == [] then rules else WithoutAll(Without(rules, recs[0].tool, RuleOf(recs[0]).pattern), recs[1..])
  }

  /** No later recording replaced the rule of recording `i`. */
  predicate Lasting(recs: seq<Recording>, i: nat) {
    i < |recs| && forall j | i < j < |recs| :: !SameKey(RuleOf(recs[i]), RuleOf(recs[j]))
  }

  /** The rules of the lasting recordings, in order. */
  function Kept(recs: seq<Recording>): seq<Rule> {
    if recs == [] then []
    else (if Lasting(recs, 0) then [RuleOf(recs[0])] else []) + Kept(recs[1..])
  }

  lemma {:induction false} WithoutConcat(a: seq<Rule>, b: seq<Rule>, tool: string, pattern: ArgPattern)
    ensures Without(a + b, tool, pattern) == Without(a, tool, pattern) + Without(b, tool, pattern)
    decreases |a|
  {
    if a == [] {
      assert a + b == b;
    } else {
      assert (a + b)[1..] == a[1..] + b;
      WithoutConcat(a[1..], b, tool, pattern);
    }
  }

  lemma {:induction false} WithoutAllConcat(a: seq<Rule>, b: seq<Rule>, recs: seq<Recording>)
    ensures WithoutAll(a + b, recs) == WithoutAll(a, recs) + WithoutAll(b, recs)
    decreases |recs|
  {
    hide Without, RuleOf;
    if recs != [] {
      WithoutConcat(a, b, recs[0].tool, RuleOf(recs[0]).pattern);
      var tool, pattern := recs[0].tool, RuleOf(recs[0]).pattern;
      WithoutAllConcat(Without(a, tool, pattern), Without(b, tool, pattern), recs[1..]);
    }
  }

  lemma {:induction false} WithoutAllOne(r: Rule, recs: seq<Recording>)
    ensures WithoutAll([r], recs) == if exists j :: 0 <= j < |recs| && SameKey(r, RuleOf(recs[j])) then [] else [r]
    decreases |recs|
  {
    if recs != [] {
      assert [r][1..] == [];
      assert forall j | 0 <= j < |recs[1..]| :: recs[1..][j] == recs[j + 1];
      assert Without([r], recs[0].tool, RuleOf(recs[0]).pattern) == if SameKey(r, RuleOf(recs[0])) then [] else [r];
      if SameKey(r, RuleOf(recs[0])) {
        WithoutAllNone(recs[1..]);
      } else {
        WithoutAllOne(r, recs[1..]);
        if j :| 0 <= j < |recs| && SameKey(r, RuleOf(recs[j])) {
          assert recs[1..][j - 1] == recs[j];
        }
      }
    }
  }

  lemma {:induction false} WithoutAllNone(recs: seq<Recording>)
    ensures WithoutAll([], recs) == []
    decreases |recs|
  {
    if recs != [] { WithoutAllNone(recs[1..]); }
  }

  /** After any recordings the list is what they left of the old rules, and behind it the rules of
      the lasting recordings in the order of recording. */
  lemma {:induction false} AddedAllIs(rules: seq<Rule>, recs: seq<Recording>)
    ensures AddedAll(rules, recs) == WithoutAll(rules, recs) + Kept(recs)
    decreases |recs|
  {
    hide Without, RuleOf, SameKey, ForCall;
    if recs == [] {
      assert rules + [] == rules;
    } else {
      var r, rest := RuleOf(recs[0]), recs[1..];
      var fewer := Without(rules, recs[0].tool, r.pattern);
      AddedIs(rules, recs[0]);
      AddedAllIs(fewer + [r], rest);
      WithoutAllConcat(fewer, [r], rest);
      WithoutAllOne(r, rest);
      LastingFirst(recs);
      assert WithoutAll(fewer, rest) + WithoutAll([r], rest) + Kept(rest) ==
             WithoutAll(fewer, rest) + (WithoutAll([r], rest) + Kept(rest));
    }
  }

  lemma AddedIs(rules: seq<Rule>, rec: Recording)
    ensures Added(rules, rec.tool, rec.args, rec.decision) ==
            Without(rules, rec.tool, RuleOf(rec).pattern) + [RuleOf(rec)]
  {}

  lemma LastingFirst(recs: seq<Recording>)
    requires recs != []
    ensures Lasting(recs, 0) <==> !exists j :: 0 <= j < |recs[1..]| && SameKey(RuleOf(recs[0]), RuleOf(recs[1..][j]))
  {
    hide RuleOf, SameKey;
    assert forall j | 0 <= j < |recs[1..]| :: recs[1..][j] == recs[j + 1];
    if !Lasting(recs, 0) {
      var j :| 0 < j < |recs| && SameKey(RuleOf(recs[0]), RuleOf(recs[j]));
      assert recs[1..][j - 1] == recs[j];
    }
  }

  /** Recording `i` lasts and its rule matches the call. */
  predicate Answers(recs: seq<Recording>, i: nat, tool: string, args: Args) {
    i < |recs| && Lasting(recs, i) && Hits(RuleOf(recs[i]), tool, args)
  }

  /** The decision of the earliest recording that lasts and matches the call. */
  ghost predicate Decides(recs: seq<Recording>, tool: string, args: Args, d: Decision) {
    exists i: nat ::
      Answers(recs, i, tool, args) && recs[i].decision == d && forall j: nat | j < i :: !Answers(recs, j, tool, args)
  }

  lemma AnswersShift(recs: seq<Recording>, i: nat, tool: string, args: Args)
    requires recs != []
    ensures Answers(recs, i + 1, tool, args) <==> Answers(recs[1..], i, tool, args)
  {
    hide RuleOf, SameKey, Hits;
    var rest := recs[1..];
    assert forall j | 0 <= j < |rest| :: rest[j] == recs[j + 1];
    if Lasting(rest, i) {
      forall j | i + 1 < j < |recs| ensures !SameKey(RuleOf(recs[i + 1]), RuleOf(recs[j])) {
        assert rest[j - 1] == recs[j] && rest[i] == recs[i + 1];
      }
    }
    if Lasting(recs, i + 1) {
      forall j | i < j < |rest| ensures !SameKey(RuleOf(rest[i]), RuleOf(rest[j])) {
        assert rest[j] == recs[j + 1] && rest[i] == recs[i + 1];
      }
    }
  }

  lemma {:induction false} KeptMatches(recs: seq<Recording>, tool: string, args: Args)
    ensures forall d :: MatchFirst(Kept(recs), tool, args) == Some(d) <==> Decides(recs, tool, args, d)
    ensures forall d :: SomeHit(Kept(recs), d, tool, args) <==>
                        exists i: nat :: Answers(recs, i, tool, args) && recs[i].decision == d
    decreases |recs|
  {
    hide Hits, RuleOf, Lasting;
    if recs != [] {
      var rest := recs[1..];
      KeptMatches(rest, tool, args);
      var head := if Lasting(recs, 0) then [RuleOf(recs[0])] else [];
      MatchConcat(head, Kept(rest), tool, args);
      HeadMatches(recs, tool, args);
      forall d ensures MatchFirst(Kept(recs), tool, args) == Some(d) <==> Decides(recs, tool, args, d) {
        DecidesCons(recs, tool, args, d);
      }
      forall d
        ensures SomeHit(Kept(recs), d, tool, args) <==>
                exists i: nat :: Answers(recs, i, tool, args) && recs[i].decision == d
      {
        AnswerCons(recs, tool, args, d);
        HitConcat(head, Kept(rest), d, tool, args);
      }
    }
  }

  lemma HeadMatches(recs: seq<Recording>, tool: string, args: Args)
    requires recs != []
    ensures var head := if Lasting(recs, 0) then [RuleOf(recs[0])] else [];
            && MatchFirst(head, tool, args) == (if Answers(recs, 0, tool, args) then Some(recs[0].decision) else None)
            && forall d :: SomeHit(head, d, tool, args) <==> Answers(recs, 0, tool, args) && recs[0].decision == d
  {
    hide Hits, Lasting;
    var r := RuleOf(recs[0]);
    assert [r][1..] == [] && r in [r];
  }

  lemma HitConcat(a: seq<Rule>, b: seq<Rule>, d: Decision, tool: string, args: Args)
    ensures SomeHit(a + b, d, tool, args) <==> SomeHit(a, d, tool, args) || SomeHit(b, d, tool, args)
  {
    hide Hits;
    assert forall r <- a :: r in a + b;
    assert forall r <- b :: r in a + b;
  }

  lemma DecidesCons(recs: seq<Recording>, tool: string, args: Args, d: Decision)
    requires recs != []
    ensures Decides(recs, tool, args, d) <==>
            if Answers(recs, 0, tool, args) then recs[0].decision == d else Decides(recs[1..], tool, args, d)
  {
    hide Answers;
    var rest := recs[1..];
    forall i: nat ensures Answers(recs, i + 1, tool, args) <==> Answers(rest, i, tool, args) {
      AnswersShift(recs, i, tool, args);
    }
    AnswersInRange(recs, tool, args);
    AnswersInRange(rest, tool, args);
    if !Answers(recs, 0, tool, args) {
      if Decides(rest, tool, args, d) {
        var i: nat :| Answers(rest, i, tool, args) && rest[i].decision == d
                      && forall j: nat | j < i :: !Answers(rest, j, tool, args);
        forall j: nat | j < i + 1 ensures !Answers(recs, j, tool, args) {
          if j > 0 { assert !Answers(rest, j - 1, tool, args); }
        }
        assert Answers(recs, i + 1, tool, args);
      }
      if Decides(recs, tool, args, d) {
        var i: nat :| Answers(recs, i, tool, args) && recs[i].decision == d
                      && forall j: nat | j < i :: !Answers(recs, j, tool, args);
        assert i > 0 && Answers(rest, i - 1, tool, args);
        forall j: nat | j < i - 1 ensures !Answers(rest, j, tool, args) { assert !Answers(recs, j + 1, tool, args); }
      }
    }
  }

  lemma AnswersInRange(recs: seq<Recording>, tool: string, args: Args)
    ensures forall i: nat :: Answers(recs, i, tool, args) ==> i < |recs|
  {}

  lemma AnswerCons(recs: seq<Recording>, tool: string, args: Args, d: Decision)
    requires recs != []
    ensures (exists i: nat :: Answers(recs, i, tool, args) && recs[i].decision == d) <==>
            (Answers(recs, 0, tool, args) && recs[0].decision == d)
            || (exists i: nat :: Answers(recs[1..], i, tool, args) && recs[1..][i].decision == d)
  {
    hide Answers;
    var rest := recs[1..];
    forall i: nat ensures Answers(recs, i + 1, tool, args) <==> Answers(rest, i, tool, args) {
      AnswersShift(recs, i, tool, args);
    }
    AnswersInRange(recs, tool, args);
    AnswersInRange(rest, tool, args);
    if i: nat :| Answers(recs, i, tool, args) && recs[i].decision == d {
      if i > 0 { assert Answers(rest, i - 1, tool, args) && rest[i - 1].decision == d; }
    }
    if i: nat :| Answers(rest, i, tool, args) && rest[i].decision == d {
      assert Answers(recs, i + 1, tool, args) && recs[i + 1].decision == d;
    }
  }

  lemma {:induction false} WithoutAllMisses(rules: seq<Rule>, recs: seq<Recording>, tool: string, args: Args)
    requires MatchFirst(rules, tool, args).None?
    ensures MatchFirst(WithoutAll(rules, recs), tool, args).None?
    decreases |recs|
  {
    hide Hits, MatchFirst, RuleOf;
    if recs != [] {
      var fewer := Without(rules, recs[0].tool, RuleOf(recs[0]).pattern);
      WithoutKeeps(rules, recs[0].tool, RuleOf(recs[0]).pattern);
      FirstMatchIsHit(rules, tool, args);
      FirstMatchIsHit(fewer, tool, args);
      WithoutAllMisses(fewer, recs[1..], tool, args);
    }
  }

  /** The call was put to the user, `recs[0]` records the answer to it, and the rest is recorded later. */
  ghost predicate Prompted(root: string, front: seq<Rule>, toml: seq<Rule>, recs: seq<Recording>) {
    recs != [] && Evaluate(root, front, toml, recs[0].tool, recs[0].args) == Ask
  }

  lemma PromptedMatches(root: string, front: seq<Rule>, toml: seq<Rule>, recs: seq<Recording>)
    requires Prompted(root, front, toml, recs)
    ensures var rules, tool, args := AddedAll(toml, recs), recs[0].tool, recs[0].args;
            && !OnFloor(args) && MatchFirst(front, tool, args).None?
            && (forall d :: MatchFirst(rules, tool, args) == Some(d) <==> Decides(recs, tool, args, d))
            && (SomeHit(rules, Allow, tool, args) <==>
                exists i: nat :: Answers(recs, i, tool, args) && recs[i].decision == Allow)
            && MatchFirst(rules, tool, args).Some?
  {
    hide OnFloor, DefaultVerdict, MatchFirst, SomeHit, Answers, Decides, Kept, WithoutAll, AddedAll;
    var tool, args := recs[0].tool, recs[0].args;
    var old' := WithoutAll(toml, recs);
    AddedAllIs(toml, recs);
    WithoutAllMisses(toml, recs, tool, args);
    MatchConcat(old', Kept(recs), tool, args);
    HitConcat(old', Kept(recs), Allow, tool, args);
    FirstMatchIsHit(old', tool, args);
    KeptMatches(recs, tool, args);
    var i := LastOfKey(recs, 0);
    OwnKeyAnswers(recs, i);
    FirstMatchIsHit(Kept(recs), tool, args);
    assert SomeHit(Kept(recs), recs[i].decision, tool, args);
    assert recs[i].decision == Allow || recs[i].decision == Deny;
  }

  lemma {:induction false} LastOfKey(recs: seq<Recording>, i: nat) returns (last: nat)
    requires i < |recs|
    ensures i <= last < |recs| && SameKey(RuleOf(recs[i]), RuleOf(recs[last])) && Lasting(recs, last)
    decreases |recs| - i
  {
    hide RuleOf;
    if Lasting(recs, i) {
      last := i;
    } else {
      var j :| i < j < |recs| && SameKey(RuleOf(recs[i]), RuleOf(recs[j]));
      last := LastOfKey(recs, j);
    }
  }

  lemma OwnKeyAnswers(recs: seq<Recording>, i: nat)
    requires recs != [] && i < |recs| && SameKey(RuleOf(recs[0]), RuleOf(recs[i])) && Lasting(recs, i)
    ensures Answers(recs, i, recs[0].tool, recs[0].args)
  {
    hide Lasting;
    PatternMatchesItsCall(recs[0].tool, recs[0].args);
  }

  /** Whatever is recorded later, the answer to a prompted call holds in memory exactly when it is the
      decision of the earliest recording that lasts and matches the call; so it holds for as long as
      no recording replaces its own rule. */
  lemma AnswerHoldsIff(root: string, front: seq<Rule>, toml: seq<Rule>, recs: seq<Recording>)
    requires Prompted(root, front, toml, recs)
    ensures var call := recs[0];
            Evaluate(root, front, AddedAll(toml, recs), call.tool, call.args) ==
            ToVerdict(call.decision, PermissionsFile)
            <==> Decides(recs, call.tool, call.args, call.decision)
    ensures Lasting(recs, 0) ==> Decides(recs, recs[0].tool, recs[0].args, recs[0].decision)
  {
    hide OnFloor, DefaultVerdict, AddedAll, Decides, Lasting;
    PromptedMatches(root, front, toml, recs);
    if Lasting(recs, 0) { LastingDecides(recs); }
  }

  lemma LastingDecides(recs: seq<Recording>)
    requires recs != [] && Lasting(recs, 0)
    ensures Decides(recs, recs[0].tool, recs[0].args, recs[0].decision)
  {
    OwnKeyAnswers(recs, 0);
  }

  /** After a restart it holds exactly when it is Allow and some recording that lasts and matches the
      call allows, or it is Deny and none does: one later Allow for another pattern undoes a Deny. */
  lemma AnswerSurvivesRestartIff(root: string, front: seq<Rule>, toml: seq<Rule>, recs: seq<Recording>)
    requires Prompted(root, front, toml, recs)
    ensures var call := recs[0];
            Evaluate(root, front, Reloaded(AddedAll(toml, recs)), call.tool, call.args) ==
              ToVerdict(call.decision, PermissionsFile)
            <==> (call.decision == Allow <==>
                  exists i: nat :: Answers(recs, i, call.tool, call.args) && recs[i].decision == Allow)
  {
    hide OnFloor, DefaultVerdict, AddedAll, Decides, Answers, Reloaded, MatchFirst, SomeHit;
    var tool, args := recs[0].tool, recs[0].args;
    PromptedMatches(root, front, toml, recs);
    ReloadAnswers(AddedAll(toml, recs), tool, args);
    assert recs[0].decision == Allow || recs[0].decision == Deny;
  }

  lemma ReloadAnswers(rules: seq<Rule>, tool: string, args: Args)
    requires MatchFirst(rules, tool, args).Some?
    ensures MatchFirst(Reloaded(rules), tool, args) == Some(if SomeHit(rules, Allow, tool, args) then Allow else Deny)
  {
    hide Reloaded, SomeHit, MatchFirst;
    ReloadChangesAnswerIff(rules, tool, args);
    FirstMatchIsHit(rules, tool, args);
    var first := MatchFirst(rules, tool, args).value;
    assert first == Allow || first == Deny;
  }

  // ---- a Deny that a restart undoes -----------------------------------------------------------

  function WriteCall(p: string): Args { Args(Some(p), None) }

  lemma TwoRecordings(p: string, q: string)
    requires p != q
    ensures var deny := Recording("write_file", WriteCall(q), Deny);
            var allow := Recording("write_file", WriteCall(p), Allow);
            && AddedAll([], [deny]) == [Rule("write_file", Path(q), Deny)]
            && AddedAll([], [deny, allow]) == [Rule("write_file", Path(q), Deny), Rule("write_file", Path(p), Allow)]
  {
    var deny, allow := Recording("write_file", WriteCall(q), Deny), Recording("write_file", WriteCall(p), Allow);
    var r := Rule("write_file", Path(q), Deny);
    assert [deny, allow][1..] == [allow] && [allow][1..] == [] && [deny][1..] == [] && [r][1..] == [];
    assert Added([], deny.tool, deny.args, Deny) == [r];
    assert AddedAll([], [deny]) == AddedAll([r], []);
    assert Without([r], "write_file", Path(p)) == [r];
    var r' := Rule("write_file", Path(p), Allow);
    assert Added([r], allow.tool, allow.args, Allow) == [r, r'];
    assert AddedAll([], [deny, allow]) == AddedAll([r], [allow]) == AddedAll([r, r'], []);
  }

  lemma WriteIsAsk(root: string, toml: seq<Rule>, p: string)
    requires '.' !in p && Paths.IsAbsolute(p) && !Paths.StartsWith(p, root)
    requires MatchFirst(toml, "write_file", WriteCall(p)).None?
    ensures Evaluate(root, [], toml, "write_file", WriteCall(p)) == Ask
  {
    hide Paths.StartsWith, SensitivePaths.IsSensitivePath, MatchFirst;
    SensitivePaths.DotNeeded(p);
    assert MatchFirst([], "write_file", WriteCall(p)).None? by { NoRules("write_file", WriteCall(p)); }
  }

  lemma NoRules(tool: string, args: Args)
    ensures MatchFirst([], tool, args).None?
  {}

  /** Writing outside the root is put to the user. Say a write below `p` is denied for good and then a
      write to `p` allowed: the lower path stays refused until a restart and is allowed after it. */
  lemma RestartUndoesDeny(root: string, p: string, name: string)
    requires Paths.IsAbsolute(p) && Paths.PlainName(name) && '.' !in p && '.' !in name
    requires !Paths.StartsWith(p, root) && !Paths.StartsWith(p + "/" + name, root)
    ensures var q := p + "/" + name;
            var deny := Recording("write_file", WriteCall(q), Deny);
            var allow := Recording("write_file", WriteCall(p), Allow);
            && Evaluate(root, [], [], "write_file", WriteCall(q)) == Ask
            && Evaluate(root, [], AddedAll([], [deny]), "write_file", WriteCall(p)) == Ask
            && Evaluate(root, [], AddedAll([], [deny, allow]), "write_file", WriteCall(q)) == Refused(PermissionsFile)
            && Evaluate(root, [], Reloaded(AddedAll([], [deny, allow])), "write_file", WriteCall(q)) == Allowed
  {
    hide Paths.Components, SensitivePaths.IsSensitivePath, Reloaded, AddedAll, DefaultVerdict;
    var q := p + "/" + name;
    var refuse, grant := Rule("write_file", Path(q), Deny), Rule("write_file", Path(p), Allow);
    Paths.ComponentsJoin(p, name);
    TwoRecordings(p, q);
    assert [refuse][1..] == [] && [refuse, grant][1..] == [grant] && [grant][1..] == [];
    WriteIsAsk(root, [], q);
    WriteIsAsk(root, [refuse], p);
    SensitivePaths.DotNeeded(q);
    assert Hits(grant, "write_file", WriteCall(q)) && grant in [refuse, grant];
    ReloadAnswers([refuse, grant], "write_file", WriteCall(q));
  }

  /** For a project in "/r": deny writing "/a/b", then allow writing "/a". */
  lemma RestartUndoesDenyAt()
    ensures var deny := Recording("write_file", WriteCall("/a/b"), Deny);
            var allow := Recording("write_file", WriteCall("/a"), Allow);
            && Evaluate("/r", [], AddedAll([], [deny, allow]), "write_file", WriteCall("/a/b")) ==
               Refused(PermissionsFile)
            && Evaluate("/r", [], Reloaded(AddedAll([], [deny, allow])), "write_file", WriteCall("/a/b")) == Allowed
  {
    hide Paths.Components, Reloaded, AddedAll, Evaluate;
    Paths.TopComponents("a");
    Paths.TopComponents("r");
    assert "/" + "a" == "/a" && "/" + "r" == "/r" && "/a" + "/" + "b" == "/a/b";
    Paths.ComponentsJoin("/a", "b");
    assert Paths.Components("/a")[1] == Paths.Components("/a/b")[1] != Paths.Components("/r")[1];
    RestartUndoesDeny("/r", "/a", "b");
  }

  class PermissionPolicy {
    const projectRoot: string
    const frontMatterRules: seq<Rule>
    var tomlRules: seq<Rule>

    constructor (root: string, front: seq<Rule>, toml: seq<Rule>)
      ensures projectRoot == root && frontMatterRules == front && tomlRules == toml
    {
      projectRoot, frontMatterRules, tomlRules := root, front, toml;
    }

    /** Replaces the rule with the call's key, and returns what is written to the file. */
    method AddRule(tool: string, args: Args, d: Decision) returns (written: PermissionsToml)
      modifies this`tomlRules
      ensures tomlRules == Added(old(tomlRules), tool, args, d)
      ensures Loaded(written.allow, Allow) + Loaded(written.deny, Deny) == Reloaded(tomlRules)
    {
      var newRule := Rule(tool, ForCall(tool, args), d);
      tomlRules := Without(tomlRules, newRule.tool, newRule.pattern) + [newRule];
      written := PermissionsFromRules(tomlRules);
    }
  }
}
