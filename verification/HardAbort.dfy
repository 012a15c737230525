/** The last stage of a Force: at its deadline the host takes the abort handles registered under the
    provider id and aborts those provider calls. The table of handles goes by id, not by entry. */
module HardAbort {
  import opened ProviderPool
  import opened PoolProtocol

  /** The handles in the table by provider id; a call's task carries the number of its turn. The order
      in which handles stand under an id is never used. */
  type Handles = map<ProviderId, set<nat>>

  function Of(h: Handles, id: ProviderId): set<nat> { if id in h then h[id] else {} }

  function Pushed(h: Handles, id: ProviderId, t: nat): Handles { h[id := Of(h, id) + {t}] }

  /** The handles of finished tasks are dropped, and with the last one the id. */
  function Cleaned(h: Handles, id: ProviderId, done: set<nat>): Handles {
    if id !in h then h else if h[id] - done == {} then h - {id} else h[id := h[id] - done]
  }

  class TurnHandles {
    var table: Handles

    constructor ()
      ensures table == map[]
    {
      table := map[];
    }

    method Register(id: ProviderId, t: nat)
      modifies this
      ensures table == Pushed(old(table), id, t)
    {
      if id !in table {
        table := table[id := {}];
      }
      table := table[id := table[id] + {t}];
    }

    method CleanUp(id: ProviderId, done: set<nat>)
      modifies this
      ensures table == Cleaned(old(table), id, done)
    {
      if id in table {
        table := table[id := table[id] - done];
        if table[id] == {} {
          table := table - {id};
        }
      }
    }

    method Take(id: ProviderId) returns (taken: set<nat>)
      modifies this
      ensures taken == Of(old(table), id) && table == old(table) - {id}
    {
      taken := {};
      if id in table {
        taken := table[id];
        table := table - {id};
      }
    }
  }

  // ---- the pool protocol with its provider calls ------------------------------------------

  /** The pool protocol, the table, and the calls: those that began, those that registered a handle and
      under which id, those whose task is over, those aborted, and those that have yet to clean up. A
      removal is in `expired` between the test that finds its deadline passed and its abort. */
  datatype Tracked = Tracked(
    sys: System,
    handles: Handles,
    used: set<nat>,
    registered: map<nat, ProviderId>,
    done: set<nat>,
    aborted: set<nat>,
    cleaning: set<nat>,
    expired: set<nat>)

  datatype CallStep =
    | Pool(step: Step)
    | RegisterHandle(turn: nat)
    | TaskEnds(turn: nat)
    | Join(turn: nat, ok: bool)
    | CleanUp(turn: nat)
    | DropTurn(turn: nat)
    | DeadlinePasses(op: nat)
    | AbortAll(op: nat)

  predicate Leasing(s: Tracked, t: nat) { t in s.sys.turns && s.sys.turns[t].Leased? }

  /** A Force that has broadcast and has not left its wait. */
  predicate Waits(s: Tracked, op: nat) {
    op in s.sys.removals && s.sys.removals[op].mode == Force && s.sys.removals[op].phase == Signalled
  }

  /** A poll found leases on the entry and the deadline passed: the abort is next. */
  predicate AtDeadline(s: Tracked, op: nat) { Waits(s, op) && op in s.expired }

  /** The counter of an entry. */
  function Counter(s: System, e: nat): int { if e < |s.sh.activeTurns| then s.sh.activeTurns[e] else 0 }

  /** A call number is used once; a turn listens for a cancel once its handle is in the table; and a Force
      leaves its wait without an abort when a poll, before it looks at the deadline, finds its entry's
      counter at zero. How a lease ends is said by the steps below. */
  predicate Allowed(s: Tracked, step: Step) {
    match step
    case EndTurn(_) => false
    case SubscribeTurn(t, _) => t !in s.used
    case CancelTurn(t) => t in s.registered
    case StopWaiting(op) => Waits(s, op) ==> op !in s.expired && Counter(s.sys, s.sys.removals[op].entry) == 0
    case _ => true
  }

  /** One step; a step that is not enabled changes nothing. The cancel arm leaves its handle behind. */
  function NextCall(s: Tracked, step: CallStep): Tracked
    requires WellFormed(s.sys.sh)
  {
    match step
    case Pool(p) =>
      if Allowed(s, p) && Enabled(s.sys, p) then
        s.(sys := Next(s.sys, p), used := if p.SubscribeTurn? then s.used + {p.turn} else s.used)
      else s
    case RegisterHandle(t) =>
      if Leasing(s, t) && t !in s.registered then
        s.(handles := Pushed(s.handles, s.sys.turns[t].id, t), registered := s.registered[t := s.sys.turns[t].id])
      else s
    case TaskEnds(t) => if Leasing(s, t) || t in s.registered then s.(done := s.done + {t}) else s
    case Join(t, ok) =>
      if Waiting(s, t) then
        s.(sys := Next(s.sys, EndTurn(t)), cleaning := if ok then s.cleaning + {t} else s.cleaning)
      else s
    case CleanUp(t) =>
      if t in s.cleaning && t in s.registered then
        s.(handles := Cleaned(s.handles, s.registered[t], s.done), cleaning := s.cleaning - {t})
      else s
    case DropTurn(t) => if Leasing(s, t) then s.(sys := Next(s.sys, EndTurn(t))) else s
    case DeadlinePasses(op) =>
      if Waits(s, op) && Counter(s.sys, s.sys.removals[op].entry) != 0 then s.(expired := s.expired + {op}) else s
    case AbortAll(op) =>
      if AtDeadline(s, op) then
        var id := s.sys.removals[op].id;
        s.(sys := Next(s.sys, StopWaiting(op)), handles := s.handles - {id},
           aborted := s.aborted + Of(s.handles, id), expired := s.expired - {op})
      else s
  }

  /** The task the turn waits for is over, so its lease is about to go. */
  predicate Waiting(s: Tracked, t: nat) { Leasing(s, t) && t in s.registered && t in s.done }

  // ---- what every step keeps ---------------------------------------------------------------

  /** A handle in the table was registered under its id and has not been taken. */
  predicate HandleOk(s: Tracked, id: ProviderId, t: nat) {
    t in s.registered && s.registered[t] == id && t !in s.aborted
  }

  /** A registered turn that is still there leases under the id it registered, and its handle is in the
      table unless it was taken or its task is over. */
  predicate CallOk(s: Tracked, t: nat)
    requires t in s.registered
  {
    t in s.sys.turns ==>
      && s.sys.turns[t].Leased? && s.sys.turns[t].id == s.registered[t]
      && (t in Of(s.handles, s.registered[t]) || t in s.aborted || t in s.done)
  }

  ghost predicate HandlesInv(s: Tracked) {
    && Inv(s.sys)
    && s.sys.turns.Keys <= s.used && s.registered.Keys <= s.used && s.aborted <= s.registered.Keys
    && (forall id, t | t in Of(s.handles, id) :: HandleOk(s, id, t))
    && (forall t <- s.registered :: CallOk(s, t))
  }

  /** What a step of the pool protocol does to the turns, but for ending one. */
  lemma PoolTurns(s: System, step: Step, t: nat)
    requires WellFormed(s.sh) && t in Next(s, step).turns
    ensures var turn := Next(s, step).turns[t];
            if t in s.turns then
              && turn.id == s.turns[t].id && (s.turns[t].Leased? ==> turn == s.turns[t])
              && (turn.Leased? && s.turns[t].Subscribed? ==> turn.id in s.sh.pool && turn.entry == s.sh.pool[turn.id])
            else Enabled(s, step) && step.SubscribeTurn? && step.turn == t && turn.Subscribed?
  {}

  lemma EndTurns(s: System, t: nat)
    requires WellFormed(s.sh) && t in s.turns && s.turns[t].Leased?
    ensures Next(s, EndTurn(t)).turns == s.turns - {t}
  {}

  lemma StopTurns(s: System, op: nat)
    requires WellFormed(s.sh)
    ensures Next(s, StopWaiting(op)).turns == s.turns && Next(s, StopWaiting(op)).sh == s.sh
  {}

  /** Turns keep their ids and leases, no old number begins anew, and table and calls are as they were,
      but that more tasks may be over. */
  ghost predicate CallsCarried(s: Tracked, s': Tracked) {
    && s.used <= s'.used && s'.registered == s.registered && s'.aborted == s.aborted && s.done <= s'.done
    && s'.handles == s.handles && s'.sys.turns.Keys <= s'.used
    && forall t <- s'.sys.turns ::
         if t in s.sys.turns then
           s'.sys.turns[t].id == s.sys.turns[t].id && (s.sys.turns[t].Leased? ==> s'.sys.turns[t].Leased?)
         else t !in s.used
  }

  lemma CarriedKeeps(s: Tracked, s': Tracked)
    requires HandlesInv(s) && CallsCarried(s, s') && Inv(s'.sys)
    ensures HandlesInv(s')
  {
    hide Inv, Of;
    forall id, t | t in Of(s'.handles, id) ensures HandleOk(s', id, t) { assert HandleOk(s, id, t); }
    forall t <- s'.registered ensures CallOk(s', t) { assert CallOk(s, t); }
  }

  lemma PoolKeeps(s: Tracked, p: Step)
    requires HandlesInv(s)
    ensures HandlesInv(NextCall(s, Pool(p)))
  {
    hide Entries, Channels, Counted, Drained, Cancellable, Senders, Next, HandleOk, CallOk;
    if Allowed(s, p) && Enabled(s.sys, p) {
      var s' := NextCall(s, Pool(p));
      KeepsInv(s.sys, p);
      forall t <- s'.sys.turns
        ensures t in s'.used
        ensures if t in s.sys.turns then
                  s'.sys.turns[t].id == s.sys.turns[t].id && (s.sys.turns[t].Leased? ==> s'.sys.turns[t].Leased?)
                else t !in s.used
      {
        PoolTurns(s.sys, p, t);
      }
      CarriedKeeps(s, s');
    }
  }

  lemma EndKeeps(s: Tracked, s': Tracked, t: nat)
    requires HandlesInv(s) && Leasing(s, t) && s'.sys == Next(s.sys, EndTurn(t))
    requires s' == s.(sys := s'.sys, cleaning := s'.cleaning)
    ensures HandlesInv(s')
  {
    hide Entries, Channels, Counted, Drained, Cancellable, Senders, Next, HandleOk, CallOk;
    KeepsInv(s.sys, EndTurn(t));
    EndTurns(s.sys, t);
    CarriedKeeps(s, s');
  }

  lemma RegisterKeeps(s: Tracked, t: nat)
    requires HandlesInv(s)
    ensures HandlesInv(NextCall(s, RegisterHandle(t)))
  {
    InvOf(s);
    hide Inv;
    if Leasing(s, t) && t !in s.registered {
      var s' := NextCall(s, RegisterHandle(t));
      var own := s.sys.turns[t].id;
      assert t !in s.aborted;
      forall id, u | u in Of(s'.handles, id) ensures HandleOk(s', id, u) {
        if !(u == t && id == own) { assert u in Of(s.handles, id) && HandleOk(s, id, u); }
      }
      forall u <- s'.registered ensures CallOk(s', u) {
        if u != t { assert CallOk(s, u); }
      }
    }
  }

  lemma CleanUpKeeps(s: Tracked, t: nat)
    requires HandlesInv(s)
    ensures HandlesInv(NextCall(s, CleanUp(t)))
  {
    InvOf(s);
    hide Inv;
    if t in s.cleaning && t in s.registered {
      var s' := NextCall(s, CleanUp(t));
      forall id, u ensures u in Of(s'.handles, id) ==> u in Of(s.handles, id) {}
      forall id, u | u in Of(s'.handles, id) ensures HandleOk(s', id, u) { assert HandleOk(s, id, u); }
      forall u <- s'.registered ensures CallOk(s', u) { assert CallOk(s, u); }
    }
  }

  lemma AbortKeeps(s: Tracked, op: nat)
    requires HandlesInv(s)
    ensures HandlesInv(NextCall(s, AbortAll(op)))
  {
    hide Entries, Channels, Counted, Drained, Cancellable, Senders, Next;
    if AtDeadline(s, op) {
      var s' := NextCall(s, AbortAll(op));
      var gone := s.sys.removals[op].id;
      KeepsInv(s.sys, StopWaiting(op));
      StopTurns(s.sys, op);
      hide Inv;
      assert forall u <- Of(s.handles, gone) :: HandleOk(s, gone, u);
      forall id, u | u in Of(s'.handles, id) ensures HandleOk(s', id, u) {
        assert HandleOk(s, id, u);
      }
      forall u <- s'.registered ensures CallOk(s', u) { assert CallOk(s, u); }
    }
  }

  lemma CallKeeps(s: Tracked, step: CallStep)
    requires HandlesInv(s)
    ensures HandlesInv(NextCall(s, step))
  {
    hide Next, HandlesInv;
    assert Inv(s.sys) by { InvOf(s); }
    match step
    case Pool(p) => PoolKeeps(s, p);
    case RegisterHandle(t) => RegisterKeeps(s, t);
    case TaskEnds(t) => DoneKeeps(s, t);
    case Join(t, _) => if Waiting(s, t) { EndKeeps(s, NextCall(s, step), t); }
    case CleanUp(t) => CleanUpKeeps(s, t);
    case DropTurn(t) => if Leasing(s, t) { EndKeeps(s, NextCall(s, step), t); }
    case DeadlinePasses(op) => DeadlineKeeps(s, op);
    case AbortAll(op) => AbortKeeps(s, op);
  }

  lemma InvOf(s: Tracked)
    requires HandlesInv(s)
    ensures Inv(s.sys) && WellFormed(s.sys.sh)
  {}

  lemma DoneKeeps(s: Tracked, t: nat)
    requires HandlesInv(s)
    ensures HandlesInv(NextCall(s, TaskEnds(t)))
  {
    InvOf(s);
    hide Inv, Next, HandleOk, CallOk;
    if t in s.sys.turns || t in s.registered { CarriedKeeps(s, NextCall(s, TaskEnds(t))); }
  }

  lemma DeadlineKeeps(s: Tracked, op: nat)
    requires HandlesInv(s)
    ensures HandlesInv(NextCall(s, DeadlinePasses(op)))
  {
    InvOf(s);
    hide Inv, Next, HandleOk, CallOk;
    CarriedKeeps(s, NextCall(s, DeadlinePasses(op)));
  }

  // ---- runs --------------------------------------------------------------------------------

  function RunCalls(s: Tracked, steps: seq<CallStep>): Tracked
    requires HandlesInv(s)
    decreases |steps|
  {
    if steps == [] then s
    else
      CallKeeps(s, steps[0]);
      RunCalls(NextCall(s, steps[0]), steps[1..])
  }

  lemma {:induction false} RunHandles(s: Tracked, steps: seq<CallStep>)
    requires HandlesInv(s)
    ensures HandlesInv(RunCalls(s, steps))
    decreases |steps|
  {
    hide HandlesInv;
    if steps != [] {
      CallKeeps(s, steps[0]);
      InvOf(s);
      RunHandles(NextCall(s, steps[0]), steps[1..]);
    }
  }

  lemma RunNone(s: Tracked)
    requires HandlesInv(s)
    ensures RunCalls(s, []) == s
  {}

  lemma RunOne(s: Tracked, step: CallStep)
    requires HandlesInv(s)
    ensures WellFormed(s.sys.sh) && RunCalls(s, [step]) == NextCall(s, step)
  {
    hide NextCall;
    CallKeeps(s, step);
    assert [step][1..] == [];
  }

  lemma {:induction false} RunTwo(s: Tracked, a: seq<CallStep>, b: seq<CallStep>)
    requires HandlesInv(s)
    ensures HandlesInv(RunCalls(s, a)) && RunCalls(s, a + b) == RunCalls(RunCalls(s, a), b)
    decreases |a|
  {
    hide HandlesInv, NextCall;
    if a == [] {
      assert a + b == b;
    } else {
      CallKeeps(s, a[0]);
      InvOf(s);
      assert (a + b)[1..] == a[1..] + b;
      RunTwo(NextCall(s, a[0]), a[1..], b);
    }
  }

  /** A host just started with the given providers, with an empty table. */
  function StartCalls(ids: seq<ProviderId>): Tracked { Tracked(Start(ids), map[], {}, map[], {}, {}, {}, {}) }

  lemma StartHandles(ids: seq<ProviderId>)
    ensures HandlesInv(StartCalls(ids))
  {
    hide Inv;
    StartInv(ids);
    assert Start(ids).turns == map[] by { NoTurns(ids); }
  }

  lemma NoTurns(ids: seq<ProviderId>)
    requires Idle(Start(ids))
    ensures Start(ids).turns == map[]
  {}

  /** A state some interleaving reaches. */
  ghost predicate ReachableCalls(s: Tracked) {
    exists ids, steps :: HandlesInv(StartCalls(ids)) && RunCalls(StartCalls(ids), steps) == s
  }

  /** In every reachable state a handle's turn, if it still leases, leases under the handle's id; and a
      registered call that still leases and is neither aborted nor over has its handle in the table. */
  lemma HandlesGoById(s: Tracked, id: ProviderId, t: nat)
    requires ReachableCalls(s)
    ensures HandlesInv(s)
    ensures t in Of(s.handles, id) && t in s.sys.turns ==> s.sys.turns[t].Leased? && s.sys.turns[t].id == id
    ensures Leasing(s, t) && t in s.registered && t !in s.aborted && t !in s.done ==>
              t in Of(s.handles, s.sys.turns[t].id)
  {
    hide Inv;
    var ids, steps :| HandlesInv(StartCalls(ids)) && RunCalls(StartCalls(ids), steps) == s;
    RunHandles(StartCalls(ids), steps);
    if t in Of(s.handles, id) { assert HandleOk(s, id, t); }
    if t in s.registered { assert CallOk(s, t); }
  }

  /** The cancel arm: a registered turn whose receiver returns gives its lease back and leaves its handle where
      it is; a turn that has not registered does not listen yet. */
  lemma CancelLeavesHandle(s: Tracked, t: nat)
    requires HandlesInv(s) && Leasing(s, t)
    ensures var s' := NextCall(s, Pool(CancelTurn(t)));
            && s' == s.(sys := s'.sys)
            && (t in s'.sys.turns <==> !(t in s.registered && Ready(s.sys.sh, s.sys.turns[t].rx)))
  {
    InvOf(s);
    hide Inv, HandlesInv, Ready;
  }

  // ---- the deadline ---------------------------------------------------------------------------

  /** The abort ends a provider call in progress exactly when the call runs under the removed id and has
      registered its handle; it drops no lease itself. */
  lemma AbortHitsIff(s: Tracked, op: nat, t: nat)
    requires HandlesInv(s) && AtDeadline(s, op)
    requires Leasing(s, t) && t !in s.done && t !in s.aborted
    ensures t in NextCall(s, AbortAll(op)).aborted <==> t in s.registered && s.sys.turns[t].id == s.sys.removals[op].id
    ensures NextCall(s, AbortAll(op)).sys.turns == s.sys.turns
  {
    InvOf(s);
    hide Inv, Next;
    StopTurns(s.sys, op);
    var id := s.sys.removals[op].id;
    if t in Of(s.handles, id) { assert HandleOk(s, id, t) && CallOk(s, t); }
    if t in s.registered { assert CallOk(s, t); }
  }

  /** Nothing unregisters a call, undoes an abort or revives a task, and no number is used twice. */
  lemma OnlyMore(s: Tracked, step: CallStep)
    requires HandlesInv(s)
    ensures var s' := NextCall(s, step);
            && s.registered.Keys <= s'.registered.Keys && s.aborted <= s'.aborted && s.done <= s'.done
            && s.used <= s'.used
  {
    InvOf(s);
    hide Inv, Next, HandlesInv;
  }

  lemma {:induction false} RunOnlyMore(s: Tracked, steps: seq<CallStep>)
    requires HandlesInv(s)
    ensures var later := RunCalls(s, steps);
            && s.registered.Keys <= later.registered.Keys && s.aborted <= later.aborted && s.done <= later.done
    decreases |steps|
  {
    hide HandlesInv, NextCall;
    if steps != [] {
      CallKeeps(s, steps[0]);
      InvOf(s);
      OnlyMore(s, steps[0]);
      RunOnlyMore(NextCall(s, steps[0]), steps[1..]);
    }
  }

  /** Every abort has landed, and every turn whose task is over has seen it. */
  predicate Landed(s: Tracked) { s.aborted <= s.done && forall t <- s.sys.turns :: !Waiting(s, t) }

  /** Whatever runs between and after: once the aborts have landed, no turn that was registered under the
      removed id at the deadline holds its lease any more. */
  lemma DeadlineEndsRegistered(s: Tracked, op: nat, steps: seq<CallStep>, t: nat)
    requires HandlesInv(s) && AtDeadline(s, op)
    requires Leasing(s, t) && t in s.registered && s.sys.turns[t].id == s.sys.removals[op].id
    requires Landed(RunCalls(s, [AbortAll(op)] + steps))
    ensures t !in RunCalls(s, [AbortAll(op)] + steps).sys.turns
  {
    InvOf(s);
    hide Inv, Next, RunCalls;
    RunOne(s, AbortAll(op));
    RunTwo(s, [AbortAll(op)], steps);
    var now := NextCall(s, AbortAll(op));
    var later := RunCalls(now, steps);
    assert CallOk(s, t);
    assert t in now.aborted || t in now.done;
    RunOnlyMore(now, steps);
    RunHandles(now, steps);
    assert CallOk(later, t);
  }

  // ---- turns the removal has nothing to do with -------------------------------------------------

  /** A call in progress under the removed id, on another entry than the removed one. */
  predicate OtherCall(s: Tracked, r: Removal, t: nat) {
    && Leasing(s, t) && s.sys.turns[t].id == r.id && s.sys.turns[t].entry != r.entry
    && t !in s.done && t !in s.aborted
  }

  /** The deadline's abort would end a call in progress on another entry. */
  ghost predicate HitsOther(s: Tracked, op: nat) {
    && AtDeadline(s, op) && WellFormed(s.sys.sh)
    && exists t :: t in NextCall(s, AbortAll(op)).aborted && OtherCall(s, s.sys.removals[op], t)
  }

  /** In any state, exactly then when such a call has registered its handle. */
  lemma HitsOtherIff(s: Tracked, op: nat)
    requires HandlesInv(s) && AtDeadline(s, op)
    ensures HitsOther(s, op) <==> exists t :: t in s.registered && OtherCall(s, s.sys.removals[op], t)
  {
    hide HandlesInv, NextCall;
    InvOf(s);
    var r := s.sys.removals[op];
    forall t | OtherCall(s, r, t) ensures t in NextCall(s, AbortAll(op)).aborted <==> t in s.registered {
      AbortHitsIff(s, op, t);
    }
  }

  /** The id is in the pool again, or a call on another of its entries is in progress. */
  ghost predicate Exposed(s: Tracked, r: Removal) { r.id in s.sys.sh.pool || exists t :: OtherCall(s, r, t) }

  /** No addition of the id begins. */
  predicate NoAdd(steps: seq<CallStep>, id: ProviderId) {
    forall step <- steps :: step.Pool? && step.step.StartAdd? ==> step.step.id != id
  }

  lemma NoNewOtherCall(s: Tracked, step: CallStep, r: Removal, t: nat)
    requires HandlesInv(s) && r.id !in s.sys.sh.pool && OtherCall(NextCall(s, step), r, t)
    ensures OtherCall(s, r, t)
  {
    InvOf(s);
    OnlyMore(s, step);
    hide Inv, HandlesInv, Next;
    match step
    case Pool(p) => if Allowed(s, p) && Enabled(s.sys, p) { PoolTurns(s.sys, p, t); }
    case Join(u, _) => if Waiting(s, u) { EndTurns(s.sys, u); }
    case DropTurn(u) => if Leasing(s, u) { EndTurns(s.sys, u); }
    case AbortAll(op) => StopTurns(s.sys, op);
    case _ =>
  }

  lemma PoolOnlyByAdd(s: System, step: Step, id: ProviderId)
    requires WellFormed(s.sh) && id in Next(s, step).sh.pool && id !in s.sh.pool
    ensures step.StartAdd? && step.id == id
  {}

  lemma StaysUnexposed(s: Tracked, step: CallStep, r: Removal)
    requires HandlesInv(s) && !Exposed(s, r) && NoAdd([step], r.id)
    ensures !Exposed(NextCall(s, step), r)
  {
    hide HandlesInv, NextCall, OtherCall, Inv, Next;
    InvOf(s);
    assert step in [step];
    forall t | OtherCall(NextCall(s, step), r, t) ensures OtherCall(s, r, t) { NoNewOtherCall(s, step, r, t); }
    NoNewPool(s, step, r.id);
  }

  lemma NoNewPool(s: Tracked, step: CallStep, id: ProviderId)
    requires HandlesInv(s) && id !in s.sys.sh.pool && (step.Pool? && step.step.StartAdd? ==> step.step.id != id)
    ensures id !in NextCall(s, step).sys.sh.pool
  {
    InvOf(s);
    hide Inv, HandlesInv, Next;
    match step
    case Pool(p) => if id in Next(s.sys, p).sh.pool { PoolOnlyByAdd(s.sys, p, id); }
    case Join(u, _) => if id in Next(s.sys, EndTurn(u)).sh.pool { PoolOnlyByAdd(s.sys, EndTurn(u), id); }
    case DropTurn(u) => if id in Next(s.sys, EndTurn(u)).sh.pool { PoolOnlyByAdd(s.sys, EndTurn(u), id); }
    case AbortAll(op) => StopTurns(s.sys, op);
    case _ =>
  }

  lemma {:induction false} RunUnexposed(s: Tracked, steps: seq<CallStep>, r: Removal)
    requires HandlesInv(s) && !Exposed(s, r) && NoAdd(steps, r.id)
    ensures !Exposed(RunCalls(s, steps), r)
    decreases |steps|
  {
    hide HandlesInv, NextCall, Exposed;
    if steps != [] {
      CallKeeps(s, steps[0]);
      InvOf(s);
      assert steps[0] in steps && forall step <- steps[1..] :: step in steps;
      StaysUnexposed(s, steps[0], r);
      RunUnexposed(NextCall(s, steps[0]), steps[1..], r);
    }
  }

  /** Entry `e` is out of the pool, its last lease is gone, and no removal `op` of it can abort. */
  ghost predicate Spent(s: Tracked, op: nat, e: nat) {
    && Out(s.sys, e) && TurnLeases(s.sys, e) == {} && OtherLeases(s.sys, e) == {}
    && (op in s.expired && op in s.sys.removals ==> s.sys.removals[op].entry != e)
  }

  lemma SpentIff(s: Tracked, op: nat)
    requires HandlesInv(s) && Waits(s, op)
    ensures var e := s.sys.removals[op].entry; Spent(s, op, e) <==> op !in s.expired && Counter(s.sys, e) == 0
  {
    var e := s.sys.removals[op].entry;
    CounterCounts(s.sys, op);
    assert |TurnLeases(s.sys, e)| == 0 <==> TurnLeases(s.sys, e) == {};
    assert |OtherLeases(s.sys, e)| == 0 <==> OtherLeases(s.sys, e) == {};
  }

  lemma CounterCounts(s: System, op: nat)
    requires Inv(s) && op in s.removals
    ensures var e := s.removals[op].entry; Out(s, e) && Counter(s, e) == Outstanding(s, e)
  {
    hide Channels, Cancellable, Senders, Drained, Outstanding;
  }

  /** A step of a call is at most one step of the pool protocol. */
  lemma SystemStep(s: Tracked, step: CallStep) returns (p: Step)
    requires WellFormed(s.sys.sh)
    ensures NextCall(s, step).sys == s.sys || NextCall(s, step).sys == Next(s.sys, p)
  {
    hide Next;
    match step
    case Pool(q) => p := q;
    case Join(t, _) => p := EndTurn(t);
    case DropTurn(t) => p := EndTurn(t);
    case AbortAll(op) => p := StopWaiting(op);
    case _ => p := EndTurn(0);
  }

  /** A removal never gets an entry that is out of the pool already. */
  lemma RemovalTakesFromPool(s: System, p: Step, op: nat)
    requires WellFormed(s.sh) && Entries(s) && op in Next(s, p).removals
    ensures var e := Next(s, p).removals[op].entry; (op in s.removals && s.removals[op].entry == e) || !Out(s, e)
  {}

  lemma OnlyItsDeadline(s: Tracked, step: CallStep, op: nat)
    requires WellFormed(s.sys.sh) && op in NextCall(s, step).expired && op !in s.expired
    ensures step == DeadlinePasses(op) && Waits(s, op) && Counter(s.sys, s.sys.removals[op].entry) != 0
    ensures NextCall(s, step).sys == s.sys
  {
    hide Next;
  }

  lemma StaysSpent(s: Tracked, step: CallStep, op: nat, e: nat)
    requires HandlesInv(s) && Spent(s, op, e)
    ensures Spent(NextCall(s, step), op, e)
  {
    InvOf(s);
    EntriesOf(s.sys);
    var s' := NextCall(s, step);
    var p := SystemStep(s, step);
    if op in s'.expired && op !in s.expired {
      OnlyItsDeadline(s, step, op);
      CounterCounts(s.sys, op);
    } else {
      hide HandlesInv, NextCall, Inv, Next, Out, Entries;
      if s'.sys != s.sys {
        OutOnlyShrinks(s.sys, p, e);
        if op in s'.sys.removals { RemovalTakesFromPool(s.sys, p, op); }
      }
    }
  }

  lemma EntriesOf(s: System)
    requires Inv(s)
    ensures WellFormed(s.sh) && Entries(s)
  {}

  lemma {:induction false} RunSpent(s: Tracked, steps: seq<CallStep>, op: nat, e: nat)
    requires HandlesInv(s) && Spent(s, op, e)
    ensures Spent(RunCalls(s, steps), op, e)
    decreases |steps|
  {
    hide HandlesInv, NextCall, Spent;
    if steps != [] {
      CallKeeps(s, steps[0]);
      InvOf(s);
      StaysSpent(s, steps[0], op, e);
      RunSpent(NextCall(s, steps[0]), steps[1..], op, e);
    }
  }

  /** Some continuation without another addition of the id reaches the deadline of the same removal and
      ends a call that is not on the removed entry. */
  ghost predicate MayHitOther(s: Tracked, op: nat)
    requires HandlesInv(s) && op in s.sys.removals
  {
    exists steps :: NoAdd(steps, s.sys.removals[op].id) && HitsOtherLater(s, op, steps)
  }

  ghost predicate HitsOtherLater(s: Tracked, op: nat, steps: seq<CallStep>)
    requires HandlesInv(s) && op in s.sys.removals
  {
    var later := RunCalls(s, steps);
    op in later.sys.removals && later.sys.removals[op] == s.sys.removals[op] && HitsOther(later, op)
  }

  /** The removal may yet abort: it is about to, or a lease on its entry is left when a poll looks. */
  predicate MayAbort(s: Tracked, op: nat)
    requires op in s.sys.removals
  {
    op in s.expired || Counter(s.sys, s.sys.removals[op].entry) > 0
  }

  /** While a Force waits, its abort may still end a call on another entry of the id, without the id being
      added once more, exactly when the id is in the pool again or such a call is in progress now, and a
      lease on the removed entry is left or the abort is already due. */
  lemma MayHitOtherIff(s: Tracked, op: nat)
    requires HandlesInv(s) && Waits(s, op)
    ensures MayHitOther(s, op) <==> Exposed(s, s.sys.removals[op]) && MayAbort(s, op)
  {
    hide HandlesInv, NextCall, RunCalls, OtherCall, Inv, Counter;
    var r := s.sys.removals[op];
    if MayHitOther(s, op) {
      var steps :| NoAdd(steps, r.id) && HitsOtherLater(s, op, steps);
      if !Exposed(s, r) {
        RunUnexposed(s, steps, r);
        assert false;
      }
      if !MayAbort(s, op) {
        NeverNegative(s, op);
        SpentIff(s, op);
        RunSpent(s, steps, op, r.entry);
        assert false;
      }
    }
    if Exposed(s, r) && MayAbort(s, op) {
      if t :| OtherCall(s, r, t) {
        HitCall(s, op, t);
      } else {
        HitNewCall(s, op);
      }
    }
  }

  lemma NeverNegative(s: Tracked, op: nat)
    requires HandlesInv(s) && op in s.sys.removals
    ensures Counter(s.sys, s.sys.removals[op].entry) >= 0
  {
    CounterCounts(s.sys, op);
  }

  /** Without a lease left on its entry a removal that waits never aborts. */
  lemma NoLeaseNoAbort(s: Tracked, op: nat, steps: seq<CallStep>)
    requires HandlesInv(s) && Waits(s, op) && op !in s.expired && Counter(s.sys, s.sys.removals[op].entry) == 0
    ensures var later := RunCalls(s, steps);
            AtDeadline(later, op) ==> later.sys.removals[op].entry != s.sys.removals[op].entry
  {
    hide HandlesInv, RunCalls, Counter;
    SpentIff(s, op);
    RunSpent(s, steps, op, s.sys.removals[op].entry);
  }

  /** A call in progress on another entry is hit once its handle is in the table and the deadline passes. */
  lemma HitCall(s: Tracked, op: nat, t: nat)
    requires HandlesInv(s) && Waits(s, op) && MayAbort(s, op) && OtherCall(s, s.sys.removals[op], t)
    ensures MayHitOther(s, op)
  {
    hide HandlesInv, RunCalls, Inv, Next;
    InvOf(s);
    var a, b := RegisterHandle(t), DeadlinePasses(op);
    RunOne(s, a);
    RunHandles(s, [a]);
    var s1 := RunCalls(s, [a]);
    RunOne(s1, b);
    RunTwo(s, [a], [b]);
    RunHandles(s1, [b]);
    var later := RunCalls(s1, [b]);
    assert later.sys == s.sys && op in later.expired && t in later.registered;
    assert OtherCall(later, s.sys.removals[op], t);
    HitsOtherIff(later, op);
    assert NoAdd([a] + [b], s.sys.removals[op].id) && HitsOtherLater(s, op, [a] + [b]);
  }

  /** With the id in the pool again a new turn can subscribe, lease and register. */
  lemma HitNewCall(s: Tracked, op: nat)
    requires HandlesInv(s) && Waits(s, op) && MayAbort(s, op) && s.sys.removals[op].id in s.sys.sh.pool
    ensures MayHitOther(s, op)
  {
    hide HandlesInv, RunCalls, Inv, Next, HitsOther, Counter;
    InvOf(s);
    var r := s.sys.removals[op];
    var t := FreshNumber(s.used + s.done + s.aborted);
    var s1 := NewTurn(s, op, t);
    HitCall(s1, op, t);
    var rest :| NoAdd(rest, r.id) && HitsOtherLater(s1, op, rest);
    var two := [Pool(SubscribeTurn(t, r.id)), Pool(LeaseTurn(t))];
    RunTwo(s, two, rest);
    assert NoAdd(two + rest, r.id) && HitsOtherLater(s, op, two + rest);
  }

  lemma {:induction false} FreshNumber(used: set<nat>) returns (t: nat)
    ensures forall u <- used :: u < t
    decreases |used|
  {
    t := 0;
    if used != {} {
      var u :| u in used;
      var less := used - {u};
      t := FreshNumber(less);
      if t <= u { t := u + 1; }
      assert forall v <- used :: v == u || v in less;
    }
  }

  lemma NewTurn(s: Tracked, op: nat, t: nat) returns (s2: Tracked)
    requires HandlesInv(s) && Waits(s, op) && s.sys.removals[op].id in s.sys.sh.pool
    requires t !in s.used && t !in s.done && t !in s.aborted
    ensures HandlesInv(s2) && s2 == RunCalls(s, [Pool(SubscribeTurn(t, s.sys.removals[op].id)), Pool(LeaseTurn(t))])
    ensures s2.sys.removals == s.sys.removals && s2.expired == s.expired && OtherCall(s2, s.sys.removals[op], t)
    ensures Counter(s2.sys, s.sys.removals[op].entry) == Counter(s.sys, s.sys.removals[op].entry)
  {
    hide HandlesInv, RunCalls, Inv, Next, Counter;
    InvOf(s);
    var id := s.sys.removals[op].id;
    var a, b := Pool(SubscribeTurn(t, id)), Pool(LeaseTurn(t));
    RunOne(s, a);
    RunHandles(s, [a]);
    var s1 := RunCalls(s, [a]);
    InvOf(s1);
    RunOne(s1, b);
    RunTwo(s, [a], [b]);
    assert [a] + [b] == [a, b];
    s2 := RunCalls(s1, [b]);
    RunHandles(s1, [b]);
    FreshTurn(s);
    LeaseNew(s.sys, op, t);
  }

  lemma FreshTurn(s: Tracked)
    requires HandlesInv(s)
    ensures s.sys.turns.Keys <= s.used
  {}

  lemma LeaseNew(s: System, op: nat, t: nat)
    requires Inv(s) && t !in s.turns && op in s.removals && s.removals[op].id in s.sh.pool
    ensures var id := s.removals[op].id; var s1 := Next(s, SubscribeTurn(t, id));
            && Enabled(s, SubscribeTurn(t, id)) && s1.turns == s.turns[t := s1.turns[t]] && s1.removals == s.removals
            && WellFormed(s1.sh) && Enabled(s1, LeaseTurn(t))
            && var s2 := Next(s1, LeaseTurn(t));
               t in s2.turns && s2.turns[t].Leased? && s2.turns[t].id == id && s2.turns[t].entry != s.removals[op].entry
               && s2.removals == s.removals && Counter(s2, s.removals[op].entry) == Counter(s, s.removals[op].entry)
  {
    assert Out(s, s.removals[op].entry) && s.owner[s.removals[op].entry] == s.removals[op].id;
    hide Entries, Channels, Counted, Drained, Cancellable, Senders;
  }

  /** It does happen: remove a provider by Force while a subagent holds a lease on it, and add it again
      while the Force waits; a turn on the new entry can then be ended by the abort. */
  lemma ReaddedTurnIsAborted(p: ProviderId)
    ensures exists s, op: nat :: ReachableCalls(s) && HitsOther(s, op)
  {
    hide HandlesInv, RunCalls, HitsOther, Exposed, MayAbort, Inv, NextCall, StartCalls;
    StartHandles([p]);
    var s0 := StartCalls([p]);
    var steps := ReaddSteps(p);
    var s := Readded(p);
    RunHandles(s0, steps);
    MayHitOtherIff(s, 0);
    var rest :| NoAdd(rest, s.sys.removals[0].id) && HitsOtherLater(s, 0, rest);
    RunTwo(s0, steps, rest);
    assert ReachableCalls(RunCalls(s, rest)) && HitsOther(RunCalls(s, rest), 0);
  }

  function ReaddSteps(p: ProviderId): seq<CallStep> {
    [Pool(LeaseOther(0, p))] +
    ([Pool(StartRemove(0, p, Force))] + ([Pool(BroadcastCancel(0))] + [Pool(StartAdd(0, p))]))
  }

  lemma Readded(p: ProviderId) returns (s: Tracked)
    requires HandlesInv(StartCalls([p]))
    ensures s == RunCalls(StartCalls([p]), ReaddSteps(p)) && HandlesInv(s) && Waits(s, 0)
    ensures s.sys.removals[0].id == p && Exposed(s, s.sys.removals[0]) && MayAbort(s, 0)
  {
    hide HandlesInv, RunCalls, Inv, Next, NextCall, Start, Allowed, Enabled, OtherCall, Counter;
    var s0 := StartCalls([p]);
    var a, b, c, d := LeaseOther(0, p), StartRemove(0, p, Force), BroadcastCancel(0), StartAdd(0, p);
    var s1 := PoolStep(s0, a);
    var s2 := PoolStep(s1, b);
    var s3 := PoolStep(s2, c);
    var s4 := PoolStep(s3, d);
    RunTwo(s2, [Pool(c)], [Pool(d)]);
    RunTwo(s1, [Pool(b)], [Pool(c)] + [Pool(d)]);
    RunTwo(s0, [Pool(a)], [Pool(b)] + ([Pool(c)] + [Pool(d)]));
    s := RunCalls(s0, ReaddSteps(p));
    assert s == s4;
    ReaddSys(p, s0.sys, s1.sys, s2.sys, s3.sys, s4.sys);
  }

  /** A step of the pool protocol other than those of turns and waits. */
  lemma PoolStep(s: Tracked, p: Step) returns (s': Tracked)
    requires HandlesInv(s) && (p.LeaseOther? || p.StartRemove? || p.BroadcastCancel? || p.StartAdd?)
    ensures WellFormed(s.sys.sh) && s' == RunCalls(s, [Pool(p)]) && HandlesInv(s') && s'.sys == Next(s.sys, p)
  {
    InvOf(s);
    RunOne(s, Pool(p));
    RunHandles(s, [Pool(p)]);
    hide HandlesInv, RunCalls;
    s' := RunCalls(s, [Pool(p)]);
  }

  lemma ReaddSys(p: ProviderId, s0: System, s1: System, s2: System, s3: System, s4: System)
    requires s0 == Start([p]) && WellFormed(s0.sh) && s1 == Next(s0, LeaseOther(0, p))
    requires WellFormed(s1.sh) && s2 == Next(s1, StartRemove(0, p, Force))
    requires WellFormed(s2.sh) && s3 == Next(s2, BroadcastCancel(0))
    requires WellFormed(s3.sh) && s4 == Next(s3, StartAdd(0, p))
    ensures p in s4.sh.pool && s4.removals == map[0 := Removal(p, 0, Force, Signalled)] && Counter(s4, 0) == 1
  {
    OneProvider(p, s0);
    LeasedSys(p, s0, s1);
    RemovedSys(p, s1, s2);
    assert s3.sh.pool == map[] && s3.adds == map[] && s3.sh.activeTurns == [1];
  }

  lemma OneProvider(p: ProviderId, s: System)
    requires s == Start([p])
    ensures s.sh == Shared(map[p := 0], [0], map[p := 0], [Channel(true, 0)])
    ensures s.adds == map[] && s.removals == map[] && s.others == map[]
  {
    assert [p][..0] == [];
    assert s == Connect(NoProviders(), p);
  }

  lemma LeasedSys(p: ProviderId, s0: System, s1: System)
    requires s0.sh == Shared(map[p := 0], [0], map[p := 0], [Channel(true, 0)]) && s0.others == map[]
    requires WellFormed(s0.sh) && s1 == Next(s0, LeaseOther(0, p))
    ensures s1.sh == Shared(map[p := 0], [1], map[p := 0], [Channel(true, 0)])
    ensures s1.adds == s0.adds && s1.removals == s0.removals
  {}

  lemma RemovedSys(p: ProviderId, s0: System, s1: System)
    requires s0.sh == Shared(map[p := 0], [1], map[p := 0], [Channel(true, 0)]) && s0.removals == map[]
    requires WellFormed(s0.sh) && s1 == Next(s0, StartRemove(0, p, Force))
    ensures s1.removals == map[0 := Removal(p, 0, Force, Taken)] && s1.sh.pool == map[] && s1.adds == s0.adds
    ensures s1.sh.activeTurns == [1]
  {}
}
