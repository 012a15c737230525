/** The session-wide answer to "may bash use the network?" when the policy is to ask. Reading the
    cached answer and writing it are separate lock sections, with the user's choice in between. */
module NetDecision {
  import opened Wrappers
  import opened PromptGate

  datatype Policy = AskUser | Always | Never

  /** What a choice answers for this call, and what it stores for the session. */
  function Answer(c: Choice): bool { c == Once || c == AlwaysThisSession }

  function Stores(c: Choice): Option<bool> {
    if c == AlwaysThisSession then Some(true) else if c == DenyAlways then Some(false) else None
  }

  /** A resolver first looks at the cache; if it is empty it asks; then it looks again; if it is
      still empty it applies its own choice. */
  datatype Place = Asking | Applying(choice: Choice) | Resolved(allow: bool)

  datatype Net = Net(cache: Option<bool>, resolvers: map<nat, Place>)

  datatype Step =
    | Look(r: nat, interactive: bool)
    | LookAgain(r: nat, choice: Choice)
    | PromptLost(r: nat)
    | Apply(r: nat)

  predicate Enabled(s: Net, step: Step) {
    match step
    case Look(r, _) => r !in s.resolvers
    case LookAgain(r, _) => r in s.resolvers && s.resolvers[r] == Asking
    case PromptLost(r) => r in s.resolvers && s.resolvers[r] == Asking
    case Apply(r) => r in s.resolvers && s.resolvers[r].Applying?
  }

  function Next(s: Net, step: Step): Net {
    if !Enabled(s, step) then s else
    match step
    case Look(r, interactive) =>
      s.(resolvers := s.resolvers[r := if s.cache.Some? then Resolved(s.cache.value)
                                       else if interactive then Asking else Resolved(false)])
    case LookAgain(r, choice) =>
      s.(resolvers := s.resolvers[r := if s.cache.Some? then Resolved(s.cache.value) else Applying(choice)])
    case PromptLost(r) => s.(resolvers := s.resolvers[r := Resolved(false)])
    case Apply(r) =>
      var c := s.resolvers[r].choice;
      Net(if Stores(c).Some? then Stores(c) else s.cache, s.resolvers[r := Resolved(Answer(c))])
  }

  function Run(s: Net, steps: seq<Step>): Net
    decreases |steps|
  {
    if steps == [] then s else Run(Next(s, steps[0]), steps[1..])
  }

  /** A resolver that found the cache empty is about to store the opposite of what is cached now. */
  predicate AboutToFlip(s: Net, r: nat) {
    && s.cache.Some? && r in s.resolvers && s.resolvers[r].Applying?
    && Stores(s.resolvers[r].choice) == Some(!s.cache.value)
  }

  lemma {:induction false} SettledStays(s: Net, steps: seq<Step>)
    requires s.cache.Some? && forall r :: !AboutToFlip(s, r)
    ensures Run(s, steps).cache == s.cache && forall r :: !AboutToFlip(Run(s, steps), r)
    decreases |steps|
  {
    if steps != [] {
      var s' := Next(s, steps[0]);
      if Enabled(s, steps[0]) && steps[0].Apply? { assert !AboutToFlip(s, steps[0].r); }
      forall r ensures !AboutToFlip(s', r) { assert !AboutToFlip(s, r); }
      SettledStays(s', steps[1..]);
    }
  }

  /** A stored session decision can still change exactly when some resolver that found the cache
      empty has yet to store the opposite answer. */
  lemma DecisionCanChangeIff(s: Net)
    requires s.cache.Some?
    ensures (exists steps :: Run(s, steps).cache != s.cache) <==> (exists r :: AboutToFlip(s, r))
  {
    if r :| AboutToFlip(s, r) {
      RunOne(s, [Apply(r)]);
      assert Run(s, [Apply(r)]).cache != s.cache;
    } else {
      hide Run, Next;
      forall steps ensures Run(s, steps).cache == s.cache { SettledStays(s, steps); }
    }
  }

  /** Once the decision is settled every resolver that starts afterwards gets it, interactive or not. */
  lemma LaterCallsGetDecision(s: Net, steps: seq<Step>, r: nat, interactive: bool)
    requires s.cache.Some? && (forall q :: !AboutToFlip(s, q)) && r !in Run(s, steps).resolvers
    ensures Next(Run(s, steps), Look(r, interactive)).resolvers[r] == Resolved(s.cache.value)
  {
    SettledStays(s, steps);
  }

  /** Two prompts answered at the same time overwrite each other: the later write wins and the
      first caller's "always" is gone. */
  lemma ConcurrentAnswersFlip()
    ensures exists before, after ::
              && Run(Net(None, map[]), before).cache == Some(true)
              && Run(Net(None, map[]), before + after).cache == Some(false)
  {
    var s0 := Net(None, map[]);
    var before := [Look(0, true), Look(1, true), LookAgain(0, AlwaysThisSession), LookAgain(1, DenyAlways), Apply(0)];
    var s1 := Next(s0, before[0]);
    var s2 := Next(s1, before[1]);
    var s3 := Next(s2, before[2]);
    var s4 := Next(s3, before[3]);
    var s5 := Next(s4, before[4]);
    assert s5.cache == Some(true) && s5.resolvers[1] == Applying(DenyAlways);
    RunFive(s0, before);
    RunAppend(s0, before, [Apply(1)]);
    assert [Apply(1)][1..] == [];
    assert Run(s5, [Apply(1)]) == Next(s5, Apply(1));
    assert Run(s0, before + [Apply(1)]).cache == Some(false);
  }

  lemma RunFive(s: Net, steps: seq<Step>)
    requires |steps| == 5
    ensures Run(s, steps) == Next(Next(Next(Next(Next(s, steps[0]), steps[1]), steps[2]), steps[3]), steps[4])
  {
    hide Next;
    RunAppend(s, steps[..4], steps[4..]);
    RunAppend(s, steps[..3], steps[3..4]);
    RunAppend(s, steps[..2], steps[2..3]);
    RunAppend(s, steps[..1], steps[1..2]);
    assert steps[..4] + steps[4..] == steps && steps[..3] + steps[3..4] == steps[..4];
    assert steps[..2] + steps[2..3] == steps[..3] && steps[..1] + steps[1..2] == steps[..2];
    RunOne(s, steps[..1]);
    RunOne(Next(s, steps[0]), steps[1..2]);
    RunOne(Next(Next(s, steps[0]), steps[1]), steps[2..3]);
    RunOne(Next(Next(Next(s, steps[0]), steps[1]), steps[2]), steps[3..4]);
    RunOne(Next(Next(Next(Next(s, steps[0]), steps[1]), steps[2]), steps[3]), steps[4..]);
  }

  lemma RunOne(s: Net, steps: seq<Step>)
    requires |steps| == 1
    ensures Run(s, steps) == Next(s, steps[0])
  {
    assert steps[1..] == [];
  }

  lemma {:induction false} RunAppend(s: Net, a: seq<Step>, b: seq<Step>)
    ensures Run(s, a + b) == Run(Run(s, a), b)
    decreases |a|
  {
    if a == [] {
      assert a + b == b;
    } else {
      assert (a + b)[1..] == a[1..] + b;
      RunAppend(Next(s, a[0]), a[1..], b);
    }
  }

  /** At most one resolver at a time is between its first look and its end. */
  predicate Serial(s: Net) {
    forall r, q | r in s.resolvers && q in s.resolvers ::
      !s.resolvers[r].Resolved? && !s.resolvers[q].Resolved? ==> r == q
  }

  ghost predicate SerialRun(s: Net, steps: seq<Step>)
    decreases |steps|
  {
    Serial(s) && (steps == [] || SerialRun(Next(s, steps[0]), steps[1..]))
  }

  /** Nobody holds a choice yet to be applied once a decision is stored. */
  predicate Quiet(s: Net) {
    s.cache.Some? ==> forall r <- s.resolvers :: !s.resolvers[r].Applying?
  }

  lemma {:induction false} SerialStaysQuiet(s: Net, steps: seq<Step>, more: seq<Step>)
    requires Quiet(s) && SerialRun(s, steps + more)
    ensures Quiet(Run(s, steps))
    decreases |steps|
  {
    if steps != [] {
      assert (steps + more)[1..] == steps[1..] + more;
      assert Serial(s);
      assert Quiet(Next(s, steps[0]));
      SerialStaysQuiet(Next(s, steps[0]), steps[1..], more);
    }
  }

  /** Where callers take turns, which the callers of the bash tool are documented to do and nothing
      here enforces, a stored decision is never overwritten. */
  lemma SerialDecisionIsFinal(before: seq<Step>, after: seq<Step>)
    requires SerialRun(Net(None, map[]), before + after) && Run(Net(None, map[]), before).cache.Some?
    ensures Run(Net(None, map[]), before + after).cache == Run(Net(None, map[]), before).cache
  {
    var s0 := Net(None, map[]);
    SerialStaysQuiet(s0, before, after);
    RunAppend(s0, before, after);
    SettledStays(Run(s0, before), after);
  }

  // ---- what a choice means ----------------------------------------------------------------

  /** What one caller on its own does with its choice when nothing is decided yet. */
  function Alone(c: Choice): Net { Run(Net(None, map[]), [Look(0, true), LookAgain(0, c), Apply(0)]) }

  /** The call is let through by the two allowing choices only; the two lasting choices settle it for every
      later caller, and after any other choice the next caller is asked again. */
  lemma ChoiceMeans(c: Choice)
    ensures 0 in Alone(c).resolvers
    ensures Alone(c).resolvers[0] == Resolved(true) <==> c == Once || c == AlwaysThisSession
    ensures Alone(c).resolvers[0] == Resolved(false) <==> c == DenyOnce || c == DenyAlways || c == CancelledPrompt
    ensures var next := Next(Alone(c), Look(1, true)).resolvers;
            && 1 in next
            && (next[1] == Resolved(true) <==> c == AlwaysThisSession)
            && (next[1] == Resolved(false) <==> c == DenyAlways)
            && (next[1] == Asking <==> c == Once || c == DenyOnce || c == CancelledPrompt)
  {
    var s0 := Net(None, map[]);
    var a, b, d := Look(0, true), LookAgain(0, c), Apply(0);
    assert [a, b, d][1..] == [b, d] && [b, d][1..] == [d] && [d][1..] == [];
    assert Alone(c) == Next(Next(Next(s0, a), b), d) by {
      hide Next;
      assert Run(s0, [a, b, d]) == Run(Next(s0, a), [b, d]) == Run(Next(Next(s0, a), b), [d]);
    }
  }

  /** A caller without anyone to ask, or whose prompt is lost, is denied and settles nothing. */
  lemma NobodyToAsk(s: Net, r: nat)
    requires r !in s.resolvers && s.cache.None?
    ensures Next(s, Look(r, false)) == Net(None, s.resolvers[r := Resolved(false)])
    ensures Next(Next(s, Look(r, true)), PromptLost(r)) == Net(None, s.resolvers[r := Resolved(false)])
  {}

  // ---- the policy object -----------------------------------------------------------------

  class BashNetwork {
    const policy: Policy
    var decision: Option<bool>

    constructor (policy: Policy)
      ensures this.policy == policy && decision == None
    {
      this.policy, decision := policy, None;
    }

    /** One caller on its own. Under Ask a stored decision is returned and kept, and the choice is
        used, and stored if it is a lasting one, only when there was none. */
    method Resolve(choice: Choice) returns (allow: bool)
      modifies this`decision
      ensures policy == Always ==> allow && decision == Some(true)
      ensures policy == Never ==> !allow && decision == Some(false)
      ensures policy == AskUser && old(decision).Some? ==> allow == old(decision).value && decision == old(decision)
      ensures policy == AskUser && old(decision).None? ==> allow == Answer(choice) && decision == Stores(choice)
    {
      match policy {
        case Always =>
          decision := Some(true);
          allow := true;
        case Never =>
          decision := Some(false);
          allow := false;
        case AskUser =>
          if decision.Some? {
            return decision.value;
          }
          match choice {
            case Once => allow := true;
            case AlwaysThisSession =>
              decision := Some(true);
              allow := true;
            case DenyOnce => allow := false;
            case CancelledPrompt => allow := false;
            case DenyAlways =>
              decision := Some(false);
              allow := false;
          }
      }
    }
  }
}
