/** Prompts to the user: permission requests and bash-network requests share one id counter, and
    each parks its caller on a one-shot sender until an answer for its id arrives. */
module PromptGate {
  import opened Wrappers

  datatype Kind = Permission | BashNet

  datatype Choice = Once | AlwaysThisSession | DenyOnce | DenyAlways | CancelledPrompt

  datatype Reply = Decision(allow: bool) | NetChoice(choice: Choice)

  datatype Verdict = Allow | Deny | Ask

  /** Where a gated call is. A prompt's id is minted first and its sender stored after that. */
  datatype Gate =
    | Minted(kind: Kind, id: nat)
    | Parked(kind: Kind, id: nat)
    | Passed(asked: Option<nat>)
    | Chosen(id: nat, choice: Choice)
    | Refused

  /** The shared counter and sender tables, the calls, and what has happened so far: whom each id
      was minted for, which replies reached a sender, and which calls the policy let through. */
  datatype Prompts = Prompts(
    nextId: nat,
    pending: map<nat, nat>,
    pendingNet: map<nat, nat>,
    calls: map<nat, Gate>,
    issued: map<nat, (nat, Kind)>,
    delivered: map<nat, Reply>,
    policyAllowed: set<nat>)

  datatype Step =
    | Arrive(call: nat, kind: Kind, verdict: Verdict, interactive: bool)
    | Store(call: nat)
    | SendFailed(call: nat)
    | Resolve(kind: Kind, id: nat, reply: Reply)
    | Wake(call: nat)
    | Abandon(call: nat)

  const START := Prompts(1, map[], map[], map[], map[], map[], {})

  function Table(s: Prompts, kind: Kind): map<nat, nat> { if kind == Permission then s.pending else s.pendingNet }

  function SetTable(s: Prompts, kind: Kind, t: map<nat, nat>): Prompts {
    if kind == Permission then s.(pending := t) else s.(pendingNet := t)
  }

  /** The reply a call of this kind reads from its one-shot receiver. */
  predicate Fits(kind: Kind, reply: Reply) { kind == Permission <==> reply.Decision? }

  predicate Enabled(s: Prompts, step: Step) {
    match step
    case Arrive(c, kind, verdict, _) => c !in s.calls && c !in s.policyAllowed && (kind == BashNet ==> verdict == Ask)
    case Store(c) => c in s.calls && s.calls[c].Minted?
    case SendFailed(c) => c in s.calls && s.calls[c].Parked?
    case Resolve(kind, id, reply) => Fits(kind, reply)
    case Wake(c) => c in s.calls && s.calls[c].Parked? && s.calls[c].id in s.delivered
    case Abandon(c) => c in s.calls
  }

  function Woken(kind: Kind, id: nat, reply: Reply): Gate {
    match reply
    case Decision(allow) => if allow then Passed(Some(id)) else Refused
    case NetChoice(choice) => Chosen(id, choice)
  }

  function Next(s: Prompts, step: Step): Prompts {
    if !Enabled(s, step) then s else
    match step
    case Arrive(c, kind, verdict, interactive) =>
      if verdict == Allow then s.(calls := s.calls[c := Passed(None)], policyAllowed := s.policyAllowed + {c})
      else if verdict == Deny || !interactive then s.(calls := s.calls[c := Refused])
      else s.(nextId := s.nextId + 1, calls := s.calls[c := Minted(kind, s.nextId)],
              issued := s.issued[s.nextId := (c, kind)])
    case Store(c) =>
      var g := s.calls[c];
      SetTable(s, g.kind, Table(s, g.kind)[g.id := c]).(calls := s.calls[c := Parked(g.kind, g.id)])
    case SendFailed(c) =>
      var g := s.calls[c];
      SetTable(s, g.kind, Table(s, g.kind) - {g.id}).(calls := s.calls[c := Refused])
    case Resolve(kind, id, reply) =>
      if id in Table(s, kind) then SetTable(s, kind, Table(s, kind) - {id}).(delivered := s.delivered[id := reply])
      else s
    case Wake(c) =>
      var g := s.calls[c];
      s.(calls := s.calls[c := Woken(g.kind, g.id, s.delivered[g.id])])
    case Abandon(c) => s.(calls := s.calls - {c})
  }

  function Run(s: Prompts, steps: seq<Step>): Prompts
    decreases |steps|
  {
    if steps == [] then s else Run(Next(s, steps[0]), steps[1..])
  }

  // ---- what every step keeps -------------------------------------------------------

  /** Every id below the counter was minted once, for one call of one kind. */
  ghost predicate IdsIssued(s: Prompts) {
    && s.nextId >= 1
    && (forall id :: id in s.issued <==> 1 <= id < s.nextId)
    && (forall c <- s.calls :: s.calls[c].Minted? || s.calls[c].Parked? ==>
          s.calls[c].id in s.issued && s.issued[s.calls[c].id] == (c, s.calls[c].kind))
    && (forall c <- s.calls :: s.calls[c].Minted? ==>
          s.calls[c].id !in s.pending && s.calls[c].id !in s.pendingNet && s.calls[c].id !in s.delivered)
  }

  /** A sender waits in the table of its own kind, under the id minted for its call, until a reply
      of that kind takes it out for good. */
  ghost predicate SendersWait(s: Prompts) {
    && (forall id <- s.pending :: id in s.issued && s.issued[id] == (s.pending[id], Permission) && id !in s.delivered)
    && (forall id <- s.pendingNet ::
          id in s.issued && s.issued[id] == (s.pendingNet[id], BashNet) && id !in s.delivered)
    && (forall id <- s.delivered :: id in s.issued && Fits(s.issued[id].1, s.delivered[id]))
  }

  /** A call is through only by policy, or by the answer Allow to the id minted for it. */
  ghost predicate PassesEarned(s: Prompts) {
    && (forall c <- s.calls :: s.calls[c] == Passed(None) ==> c in s.policyAllowed)
    && (forall c <- s.calls :: s.calls[c].Passed? && s.calls[c].asked.Some? ==>
          var id := s.calls[c].asked.value;
          id in s.issued && s.issued[id] == (c, Permission) && id in s.delivered && s.delivered[id] == Decision(true))
    && (forall c <- s.calls :: s.calls[c].Chosen? ==>
          var id := s.calls[c].id;
          && id in s.issued && s.issued[id] == (c, BashNet) && id in s.delivered
          && s.delivered[id] == NetChoice(s.calls[c].choice))
  }

  ghost predicate Inv(s: Prompts) { IdsIssued(s) && SendersWait(s) && PassesEarned(s) }

  lemma KeepsInv(s: Prompts, step: Step)
    requires Inv(s)
    ensures Inv(Next(s, step))
  {
    hide Next, IdsIssued, SendersWait, PassesEarned;
    match step
    case Arrive(_, _, _, _) => ArriveKeeps(s, step);
    case Store(_) => StoreKeeps(s, step);
    case SendFailed(_) => SendFailedKeeps(s, step);
    case Resolve(_, _, _) => ResolveKeeps(s, step);
    case Wake(_) => WakeKeeps(s, step);
    case Abandon(_) => AbandonKeeps(s, step);
  }

  /** An arriving call is settled by policy, or gets the next id, which nobody has. */
  lemma ArriveKeeps(s: Prompts, step: Step)
    requires step.Arrive? && Inv(s)
    ensures Inv(Next(s, step))
  {
    hide IdsIssued, SendersWait, PassesEarned;
    ArriveKeepsIds(s, step);
    ArriveKeepsSenders(s, step);
    ArriveKeepsPasses(s, step);
  }

  lemma ArriveKeepsIds(s: Prompts, step: Step)
    requires step.Arrive? && IdsIssued(s) && SendersWait(s)
    ensures IdsIssued(Next(s, step))
  {
    hide SendersWait, IdsIssued;
    if Enabled(s, step) {
      if step.verdict == Ask && step.interactive {
        MintKeepsIds(s, step);
      } else {
        var g := if step.verdict == Allow then Passed(None) else Refused;
        SettleKeepsIds(s, step.call, g, if step.verdict == Allow then {step.call} else {});
        assert s.policyAllowed + {} == s.policyAllowed;
      }
    }
  }

  lemma SettleKeepsIds(s: Prompts, c: nat, g: Gate, allowed: set<nat>)
    requires IdsIssued(s) && !g.Minted? && !g.Parked?
    ensures IdsIssued(s.(calls := s.calls[c := g], policyAllowed := s.policyAllowed + allowed))
  {}

  /** The next id was not minted before, so nothing waits or was answered under it. */
  lemma MintKeepsIds(s: Prompts, step: Step)
    requires step.Arrive? && step.verdict == Ask && step.interactive
    requires IdsIssued(s) && SendersWait(s) && Enabled(s, step)
    ensures IdsIssued(Next(s, step))
  {
    assert s.nextId !in s.issued;
    assert s.nextId !in s.pending && s.nextId !in s.pendingNet && s.nextId !in s.delivered;
    hide SendersWait;
    var s' := Next(s, step);
    assert s'.calls == s.calls[step.call := Minted(step.kind, s.nextId)];
    assert s'.issued == s.issued[s.nextId := (step.call, step.kind)];
  }

  lemma ArriveKeepsSenders(s: Prompts, step: Step)
    requires step.Arrive? && IdsIssued(s) && SendersWait(s)
    ensures SendersWait(Next(s, step))
  {
    assert s.nextId !in s.issued;
    hide IdsIssued, Fits;
    var s' := Next(s, step);
    assert s'.pending == s.pending && s'.pendingNet == s.pendingNet && s'.delivered == s.delivered;
    assert forall id <- s.issued :: id in s'.issued && s'.issued[id] == s.issued[id];
  }

  lemma ArriveKeepsPasses(s: Prompts, step: Step)
    requires step.Arrive? && IdsIssued(s) && PassesEarned(s)
    ensures PassesEarned(Next(s, step))
  {
    hide PassesEarned;
    if Enabled(s, step) {
      assert s.nextId !in s.issued;
      PassesCarry(s, Next(s, step), step.call);
    }
  }

  lemma PassesCarry(s: Prompts, s': Prompts, call: nat)
    requires PassesEarned(s)
    requires s'.delivered == s.delivered && s.policyAllowed <= s'.policyAllowed
    requires forall id <- s.issued :: id in s'.issued && s'.issued[id] == s.issued[id]
    requires forall c <- s'.calls | c != call :: c in s.calls && s'.calls[c] == s.calls[c]
    requires call in s'.calls
    requires match s'.calls[call]
             case Passed(asked) => asked.None? && call in s'.policyAllowed
             case Chosen(_, _) => false
             case _ => true
    ensures PassesEarned(s')
  {}

  lemma StoreKeeps(s: Prompts, step: Step)
    requires step.Store? && Inv(s)
    ensures Inv(Next(s, step))
  {
    hide Next, IdsIssued, SendersWait, PassesEarned;
    StoreKeepsIds(s, step);
    StoreKeepsSenders(s, step);
    StoreKeepsPasses(s, step);
  }

  lemma StoreKeepsIds(s: Prompts, step: Step)
    requires step.Store? && IdsIssued(s) && SendersWait(s)
    ensures IdsIssued(Next(s, step))
  {}

  lemma StoreKeepsSenders(s: Prompts, step: Step)
    requires step.Store? && IdsIssued(s) && SendersWait(s)
    ensures SendersWait(Next(s, step))
  {}

  lemma StoreKeepsPasses(s: Prompts, step: Step)
    requires step.Store? && SendersWait(s) && PassesEarned(s)
    ensures PassesEarned(Next(s, step))
  {}

  lemma SendFailedKeeps(s: Prompts, step: Step)
    requires step.SendFailed? && Inv(s)
    ensures Inv(Next(s, step))
  {
    hide Next, IdsIssued, SendersWait, PassesEarned;
    SendFailedKeepsIds(s, step);
    SendFailedKeepsSenders(s, step);
    SendFailedKeepsPasses(s, step);
  }

  lemma SendFailedKeepsIds(s: Prompts, step: Step)
    requires step.SendFailed? && IdsIssued(s) && SendersWait(s)
    ensures IdsIssued(Next(s, step))
  {}

  lemma SendFailedKeepsSenders(s: Prompts, step: Step)
    requires step.SendFailed? && IdsIssued(s) && SendersWait(s)
    ensures SendersWait(Next(s, step))
  {}

  lemma SendFailedKeepsPasses(s: Prompts, step: Step)
    requires step.SendFailed? && SendersWait(s) && PassesEarned(s)
    ensures PassesEarned(Next(s, step))
  {}

  lemma ResolveKeeps(s: Prompts, step: Step)
    requires step.Resolve? && Inv(s)
    ensures Inv(Next(s, step))
  {
    hide Next, IdsIssued, SendersWait, PassesEarned;
    ResolveKeepsIds(s, step);
    ResolveKeepsSenders(s, step);
    ResolveKeepsPasses(s, step);
  }

  lemma ResolveKeepsIds(s: Prompts, step: Step)
    requires step.Resolve? && IdsIssued(s) && SendersWait(s)
    ensures IdsIssued(Next(s, step))
  {}

  lemma ResolveKeepsSenders(s: Prompts, step: Step)
    requires step.Resolve? && IdsIssued(s) && SendersWait(s)
    ensures SendersWait(Next(s, step))
  {}

  lemma ResolveKeepsPasses(s: Prompts, step: Step)
    requires step.Resolve? && SendersWait(s) && PassesEarned(s)
    ensures PassesEarned(Next(s, step))
  {}

  lemma WakeKeeps(s: Prompts, step: Step)
    requires step.Wake? && Inv(s)
    ensures Inv(Next(s, step))
  {}

  lemma AbandonKeeps(s: Prompts, step: Step)
    requires step.Abandon? && Inv(s)
    ensures Inv(Next(s, step))
  {}

  lemma {:induction false} RunInv(s: Prompts, steps: seq<Step>)
    requires Inv(s)
    ensures Inv(Run(s, steps))
    decreases |steps|
  {
    if steps != [] {
      KeepsInv(s, steps[0]);
      RunInv(Next(s, steps[0]), steps[1..]);
    }
  }

  // ---- the promises ------------------------------------------------------------------

  /** Over any run: no id is shared by two prompts of either kind, and a call that has passed was
      allowed by policy, or its own id was answered Allow. */
  lemma GateIsSound(steps: seq<Step>, c: nat)
    ensures var s := Run(START, steps);
            && (c in s.calls && s.calls[c].Passed? ==>
                  if s.calls[c].asked.None? then c in s.policyAllowed
                  else var id := s.calls[c].asked.value;
                       && id in s.issued && s.issued[id] == (c, Permission) && id in s.delivered
                       && s.delivered[id] == Decision(true))
            && (forall c' | c in s.calls && c' in s.calls && Prompting(s.calls[c]) && Prompting(s.calls[c']) ::
                  s.calls[c].id == s.calls[c'].id ==> c == c')
            && s.pending.Keys !! s.pendingNet.Keys
  {
    assert Inv(START);
    RunInv(START, steps);
  }

  predicate Prompting(g: Gate) { g.Minted? || g.Parked? }

  /** What an id was minted for and the reply its sender got never change, and a sender that got a
      reply is not in a table again: it is consumed at most once. */
  lemma {:induction false} RepliesAreFinal(s: Prompts, steps: seq<Step>, id: nat)
    requires Inv(s)
    ensures var later := Run(s, steps);
            && (id in s.issued ==> id in later.issued && later.issued[id] == s.issued[id])
            && (id in s.delivered ==> id in later.delivered && later.delivered[id] == s.delivered[id]
                                      && id !in later.pending && id !in later.pendingNet)
    decreases |steps|
  {
    if steps != [] {
      KeepsInv(s, steps[0]);
      OneReply(s, steps[0], id);
      RepliesAreFinal(Next(s, steps[0]), steps[1..], id);
    }
  }

  lemma OneReply(s: Prompts, step: Step, id: nat)
    requires Inv(s)
    ensures var s' := Next(s, step);
            && (id in s.issued ==> id in s'.issued && s'.issued[id] == s.issued[id])
            && (id in s.delivered ==> id in s'.delivered && s'.delivered[id] == s.delivered[id])
  {
    hide Next, IdsIssued, SendersWait, PassesEarned;
    if id in s.issued { IssuedStays(s, step, id); }
    if id in s.delivered { DeliveredStays(s, step, id); }
  }

  lemma IssuedStays(s: Prompts, step: Step, id: nat)
    requires IdsIssued(s) && id in s.issued
    ensures id in Next(s, step).issued && Next(s, step).issued[id] == s.issued[id]
  {
    assert id != s.nextId;
    hide IdsIssued;
  }

  lemma DeliveredStays(s: Prompts, step: Step, id: nat)
    requires SendersWait(s) && id in s.delivered
    ensures id in Next(s, step).delivered && Next(s, step).delivered[id] == s.delivered[id]
  {
    assert id !in s.pending && id !in s.pendingNet;
    hide SendersWait;
  }

  /** Answering an id nobody waits on, or one answered before, changes nothing. */
  lemma UnknownAnswerIgnored(s: Prompts, kind: Kind, id: nat, reply: Reply)
    requires Inv(s) && (id >= s.nextId || id in s.delivered)
    ensures Next(s, Resolve(kind, id, reply)) == s
  {}

  /** An arriving permission call: a policy Allow lets it through at once and a Deny refuses it at once; to
      ask without anyone to answer refuses it; and otherwise it is not through, but has an id of its own. */
  lemma ArrivalSettles(s: Prompts, c: nat, verdict: Verdict, interactive: bool)
    requires Inv(s) && c !in s.calls && c !in s.policyAllowed
    ensures c in Next(s, Arrive(c, Permission, verdict, interactive)).calls
    ensures var g := Next(s, Arrive(c, Permission, verdict, interactive)).calls[c];
            && (g.Passed? <==> verdict == Allow)
            && (g == Refused <==> verdict == Deny || (verdict == Ask && !interactive))
            && (g.Minted? <==> verdict == Ask && interactive)
            && (g.Minted? ==> g.id !in s.issued)
  {
    hide SendersWait, PassesEarned;
  }

  /** A call that waits is let through by the answer Allow to its id and refused by Deny. */
  lemma AnswerDecides(s: Prompts, c: nat, allow: bool)
    requires c in s.calls && s.calls[c].Parked? && s.calls[c].kind == Permission && s.calls[c].id in s.pending
    ensures var woken := Next(Next(s, Resolve(Permission, s.calls[c].id, Decision(allow))), Wake(c)).calls;
            c in woken && woken[c] == if allow then Passed(Some(s.calls[c].id)) else Refused
  {}

  /** A call that is given up is gone, while its sender stays where it is. */
  lemma AbandonForgets(s: Prompts, c: nat)
    ensures c !in Next(s, Abandon(c)).calls && Next(s, Abandon(c)) == s.(calls := s.calls - {c})
  {
    if c !in s.calls { assert s.calls - {c} == s.calls; }
  }

  /** A settled call is neither asked again nor changed, until it is forgotten. */
  lemma {:induction false} SettledStays(s: Prompts, steps: seq<Step>, c: nat)
    requires c in s.calls && !Prompting(s.calls[c]) && Abandon(c) !in steps
    ensures c in Run(s, steps).calls && Run(s, steps).calls[c] == s.calls[c]
    decreases |steps|
  {
    if steps != [] {
      assert steps[0] in steps && forall step <- steps[1..] :: step in steps;
      SettledStep(s, steps[0], c);
      hide Next;
      SettledStays(Next(s, steps[0]), steps[1..], c);
    }
  }

  lemma SettledStep(s: Prompts, step: Step, c: nat)
    requires c in s.calls && !Prompting(s.calls[c]) && step != Abandon(c)
    ensures c in Next(s, step).calls && Next(s, step).calls[c] == s.calls[c]
  {}

  /** Over any run: once a call that waited has woken it is through exactly when the reply its id got was
      Allow, and refused otherwise; a call that asked about the network has the choice it got. */
  lemma WokenPassesIff(before: seq<Step>, c: nat, after: seq<Step>)
    requires Enabled(Run(START, before), Wake(c)) && Abandon(c) !in after
    ensures var s := Run(START, before); var later := Run(Next(s, Wake(c)), after); var id := s.calls[c].id;
            && c in later.calls && id in later.delivered
            && (s.calls[c].kind == Permission ==>
                  && (later.calls[c].Passed? <==> later.delivered[id] == Decision(true))
                  && (later.calls[c] == Refused <==> later.delivered[id] == Decision(false)))
            && (s.calls[c].kind == BashNet ==>
                  later.calls[c].Chosen? && later.delivered[id] == NetChoice(later.calls[c].choice))
  {
    var s := Run(START, before);
    assert Inv(START);
    RunInv(START, before);
    WokenIs(s, c);
    KeepsInv(s, Wake(c));
    hide Inv, Run, Next;
    SettledStays(Next(s, Wake(c)), after, c);
    RepliesAreFinal(Next(s, Wake(c)), after, s.calls[c].id);
  }

  lemma WokenIs(s: Prompts, c: nat)
    requires Inv(s) && Enabled(s, Wake(c))
    ensures var g, id := Next(s, Wake(c)).calls[c], s.calls[c].id;
            && id in Next(s, Wake(c)).delivered && Next(s, Wake(c)).delivered[id] == s.delivered[id]
            && !Prompting(g)
            && (s.calls[c].kind == Permission ==>
                  && (g.Passed? <==> s.delivered[id] == Decision(true))
                  && (g == Refused <==> s.delivered[id] == Decision(false)))
            && (s.calls[c].kind == BashNet ==> g.Chosen? && s.delivered[id] == NetChoice(g.choice))
  {
    assert s.issued[s.calls[c].id] == (c, s.calls[c].kind);
    hide PassesEarned;
  }

  // ---- the host's fields ------------------------------------------------------------------

  class PromptTables {
    var nextRequestId: nat
    var pending: map<nat, nat>
    var pendingBashNetwork: map<nat, nat>

    constructor ()
      ensures nextRequestId == START.nextId && pending == START.pending && pendingBashNetwork == START.pendingNet
    {
      nextRequestId, pending, pendingBashNetwork := 1, map[], map[];
    }

    ghost predicate Holds(s: Prompts)
      reads this
    {
      nextRequestId == s.nextId && pending == s.pending && pendingBashNetwork == s.pendingNet
    }

    method Mint(ghost s: Prompts, ghost call: nat, ghost kind: Kind) returns (id: nat)
      requires Holds(s) && Enabled(s, Arrive(call, kind, Ask, true))
      modifies this`nextRequestId
      ensures Holds(Next(s, Arrive(call, kind, Ask, true)))
      ensures Next(s, Arrive(call, kind, Ask, true)).calls[call] == Minted(kind, id)
    {
      id := nextRequestId;
      nextRequestId := nextRequestId + 1;
    }

    method Park(ghost s: Prompts, call: nat, kind: Kind, id: nat)
      requires Holds(s) && call in s.calls && s.calls[call] == Minted(kind, id)
      modifies this`pending, this`pendingBashNetwork
      ensures Holds(Next(s, Store(call)))
    {
      if kind == Permission {
        pending := pending[id := call];
      } else {
        pendingBashNetwork := pendingBashNetwork[id := call];
      }
    }

    /** Takes the sender for `id` out; `None` when it is unknown or was taken before. */
    method TakeSender(ghost s: Prompts, kind: Kind, id: nat, ghost reply: Reply) returns (waiting: Option<nat>)
      requires Holds(s) && Fits(kind, reply)
      modifies this`pending, this`pendingBashNetwork
      ensures Holds(Next(s, Resolve(kind, id, reply)))
      ensures waiting == if id in Table(s, kind) then Some(Table(s, kind)[id]) else None
    {
      waiting := None;
      if kind == Permission {
        if id in pending {
          waiting := Some(pending[id]);
          pending := pending - {id};
        }
      } else if id in pendingBashNetwork {
        waiting := Some(pendingBashNetwork[id]);
        pendingBashNetwork := pendingBashNetwork - {id};
      }
    }
  }
}
