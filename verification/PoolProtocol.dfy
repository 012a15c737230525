/** All interleavings of turns, leases, `add_provider` and `remove_provider` over the shared
    fields: every step below is one lock-protected section. */
module PoolProtocol {
  import opened Wrappers
  import opened ProviderPool

  datatype Mode = Drain | Force

  /** Where a turn is inside one provider call: it subscribes first and leases second. */
  datatype Turn = Subscribed(id: ProviderId, rx: Receiver) | Leased(id: ProviderId, rx: Receiver, entry: nat)

  /** A removal has taken its entry out of the pool; then it waits; then it drops the sender. */
  datatype Phase = Taken | Signalled | Ending

  datatype Removal = Removal(id: ProviderId, entry: nat, mode: Mode, phase: Phase)

  /** The shared fields, the place of every task, and what has happened so far:
      `owner[e]` is the id entry `e` was added under, `drained` and `signalled` are the entries a
      Drain has finished waiting for and a Force has broadcast for, and `overlapped` holds the
      ids whose last sender step ran while a removal of the same id was still in flight. */
  datatype System = System(
    sh: Shared,
    turns: map<nat, Turn>,
    others: map<nat, nat>,
    adds: map<nat, ProviderId>,
    removals: map<nat, Removal>,
    owner: seq<ProviderId>,
    drained: set<nat>,
    signalled: set<nat>,
    overlapped: set<ProviderId>)

  datatype Step =
    | StartAdd(op: nat, id: ProviderId)
    | FinishAdd(op: nat)
    | SubscribeTurn(turn: nat, id: ProviderId)
    | LeaseTurn(turn: nat)
    | EndTurn(turn: nat)
    | CancelTurn(turn: nat)
    | LeaseOther(lease: nat, id: ProviderId)
    | DropOther(lease: nat)
    | StartRemove(op: nat, id: ProviderId, mode: Mode)
    | BroadcastCancel(op: nat)
    | StopWaiting(op: nat)
    | FinishRemove(op: nat)

  predicate RemovalInFlight(s: System, id: ProviderId) {
    exists op <- s.removals :: s.removals[op].id == id
  }

  predicate AddInFlight(s: System, id: ProviderId) {
    exists op <- s.adds :: s.adds[op] == id
  }

  predicate Enabled(s: System, step: Step) {
    match step
    case StartAdd(op, id) => op !in s.adds && id !in s.sh.pool
    case FinishAdd(op) => op in s.adds
    case SubscribeTurn(t, _) => t !in s.turns
    case LeaseTurn(t) => t in s.turns && s.turns[t].Subscribed?
    case EndTurn(t) => t in s.turns && s.turns[t].Leased?
    case CancelTurn(t) => t in s.turns && s.turns[t].Leased? && Ready(s.sh, s.turns[t].rx)
    case LeaseOther(l, id) => l !in s.others && id in s.sh.pool
    case DropOther(l) => l in s.others
    case StartRemove(op, id, _) => op !in s.removals && id in s.sh.pool
    case BroadcastCancel(op) => op in s.removals && s.removals[op].mode == Force && s.removals[op].phase == Taken
    // A Drain polls its own entry's counter; a Force also gives up at its deadline.
    case StopWaiting(op) =>
      op in s.removals && var r := s.removals[op];
      if r.mode == Force then r.phase == Signalled
      else r.phase == Taken && r.entry < |s.sh.activeTurns| && s.sh.activeTurns[r.entry] <= 0
    case FinishRemove(op) => op in s.removals && s.removals[op].phase == Ending
  }

  /** One step; a step that is not enabled changes nothing. */
  function Next(s: System, step: Step): System
    requires WellFormed(s.sh)
  {
    if !Enabled(s, step) then s else
    match step
    case StartAdd(op, id) =>
      s.(sh := InsertEntry(s.sh, id), adds := s.adds[op := id], owner := s.owner + [id])
    case FinishAdd(op) =>
      var id := s.adds[op];
      s.(sh := EnsureSender(s.sh, id), adds := s.adds - {op},
         overlapped := if RemovalInFlight(s, id) then s.overlapped + {id} else s.overlapped - {id})
    case SubscribeTurn(t, id) =>
      var (sh, rx) := Subscribe(s.sh, id);
      s.(sh := sh, turns := s.turns[t := Subscribed(id, rx)])
    case LeaseTurn(t) =>
      var (sh, entry) := TakeLease(s.sh, s.turns[t].id);
      if entry.Some? then s.(sh := sh, turns := s.turns[t := Leased(s.turns[t].id, s.turns[t].rx, entry.value)])
      else s.(turns := s.turns - {t})
    case EndTurn(t) => s.(sh := DropLease(s.sh, s.turns[t].entry), turns := s.turns - {t})
    case CancelTurn(t) => s.(sh := DropLease(s.sh, s.turns[t].entry), turns := s.turns - {t})
    case LeaseOther(l, id) => s.(sh := TakeLease(s.sh, id).0, others := s.others[l := s.sh.pool[id]])
    case DropOther(l) => s.(sh := DropLease(s.sh, s.others[l]), others := s.others - {l})
    case StartRemove(op, id, mode) =>
      s.(sh := RemoveEntry(s.sh, id).0, removals := s.removals[op := Removal(id, s.sh.pool[id], mode, Taken)])
    case BroadcastCancel(op) =>
      var r := s.removals[op];
      s.(sh := SendCancel(s.sh, r.id), removals := s.removals[op := r.(phase := Signalled)],
         signalled := s.signalled + {r.entry})
    case StopWaiting(op) =>
      var r := s.removals[op];
      s.(removals := s.removals[op := r.(phase := Ending)],
         drained := if r.mode == Drain then s.drained + {r.entry} else s.drained)
    case FinishRemove(op) => s.(sh := ForgetSender(s.sh, s.removals[op].id), removals := s.removals - {op})
  }

  // ---- what every step keeps ---------------------------------------------------

  /** Entries know the id they were added under, and an entry that was taken out stays out. */
  ghost predicate Entries(s: System)
    requires WellFormed(s.sh)
  {
    && |s.owner| == |s.sh.activeTurns|
    && (forall id <- s.sh.pool :: s.owner[s.sh.pool[id]] == id)
    && (forall t <- s.turns :: s.turns[t].Leased? ==>
          s.turns[t].entry < |s.owner| && s.owner[s.turns[t].entry] == s.turns[t].id)
    && (forall l <- s.others :: s.others[l] < |s.owner|)
    && (forall op <- s.removals :: var r := s.removals[op]; Out(s, r.entry) && s.owner[r.entry] == r.id)
    && (forall e <- s.drained :: Out(s, e))
    && (forall e <- s.signalled :: Out(s, e))
  }

  /** An entry that exists but is no longer in the pool. */
  predicate Out(s: System, e: nat) {
    e < |s.owner| && (s.owner[e] in s.sh.pool ==> s.sh.pool[s.owner[e]] != e)
  }

  /** Each id has its own live channel, and a turn whose channel is live holds a receiver of the
      very channel its provider id would broadcast on now. */
  ghost predicate Channels(s: System)
    requires WellFormed(s.sh)
  {
    && (forall id <- s.sh.cancelSignal :: s.sh.channels[s.sh.cancelSignal[id]].open)
    && (forall id, id' | id in s.sh.cancelSignal && id' in s.sh.cancelSignal && id != id' ::
          s.sh.cancelSignal[id] != s.sh.cancelSignal[id'])
    && (forall t <- s.turns :: Listening(s.sh, s.turns[t]))
  }

  predicate Listening(sh: Shared, turn: Turn) {
    && turn.rx.chan < |sh.channels|
    && turn.rx.from <= sh.channels[turn.rx.chan].sent
    && (sh.channels[turn.rx.chan].open ==> turn.id in sh.cancelSignal && sh.cancelSignal[turn.id] == turn.rx.chan)
  }

  ghost function TurnLeases(s: System, e: nat): set<nat> {
    set t | t in s.turns && s.turns[t].Leased? && s.turns[t].entry == e
  }

  ghost function OtherLeases(s: System, e: nat): set<nat> {
    set l | l in s.others && s.others[l] == e
  }

  ghost function Outstanding(s: System, e: nat): nat { |TurnLeases(s, e)| + |OtherLeases(s, e)| }

  ghost predicate Counted(s: System) {
    forall e: nat :: e < |s.sh.activeTurns| ==> s.sh.activeTurns[e] == Outstanding(s, e)
  }

  ghost predicate Drained(s: System) {
    forall e <- s.drained :: TurnLeases(s, e) == {} && OtherLeases(s, e) == {}
  }

  ghost predicate Cancellable(s: System) {
    forall t <- s.turns :: s.turns[t].Leased? && s.turns[t].entry in s.signalled ==> Ready(s.sh, s.turns[t].rx)
  }

  /** When nobody is adding the id of a pool entry: if its last sender step met no removal in
      flight the sender is there and no removal is; otherwise the sender is gone as soon as
      the removals are. */
  ghost predicate Senders(s: System) {
    forall id <- s.sh.pool :: !AddInFlight(s, id) ==>
      if id in s.overlapped then id in s.sh.cancelSignal ==> RemovalInFlight(s, id)
      else id in s.sh.cancelSignal && !RemovalInFlight(s, id)
  }

  ghost predicate Inv(s: System) {
    WellFormed(s.sh) && Entries(s) && Channels(s) && Counted(s) && Drained(s) && Cancellable(s) && Senders(s)
  }

  // ---- every step keeps the invariant -------------------------------------------

  lemma KeepsEntries(s: System, step: Step)
    requires WellFormed(s.sh) && Entries(s)
    ensures WellFormed(Next(s, step).sh) && Entries(Next(s, step))
  {
    hide Next, Entries;
    match step
    case StartAdd(op, id) => KeepsEntriesAdd(s, op, id);
    case StartRemove(op, id, mode) => KeepsEntriesRemove(s, op, id, mode);
    case LeaseTurn(t) => KeepsEntriesLease(s, t);
    case BroadcastCancel(_) => KeepsEntriesWait(s, step);
    case StopWaiting(_) => KeepsEntriesWait(s, step);
    case FinishAdd(_) => KeepsEntriesSenders(s, step);
    case FinishRemove(_) => KeepsEntriesSenders(s, step);
    case LeaseOther(_, _) => KeepsEntriesOthers(s, step);
    case DropOther(_) => KeepsEntriesOthers(s, step);
    case _ => KeepsEntriesTurns(s, step);
  }

  /** Pool, owners and removals as they were, and no lease but those that were there. */
  ghost predicate Carried(s: System, s': System) {
    && s'.sh.pool == s.sh.pool && s'.owner == s.owner && |s'.sh.activeTurns| == |s.sh.activeTurns|
    && (forall t <- s'.turns :: s'.turns[t].Leased? ==> t in s.turns && s.turns[t] == s'.turns[t])
    && (forall l <- s'.others :: l in s.others && s.others[l] == s'.others[l])
    && (forall op <- s'.removals ::
          op in s.removals && s.removals[op].id == s'.removals[op].id && s.removals[op].entry == s'.removals[op].entry)
    && (forall e <- s'.drained :: e in s.drained || exists op <- s.removals :: s.removals[op].entry == e)
    && (forall e <- s'.signalled :: e in s.signalled || exists op <- s.removals :: s.removals[op].entry == e)
  }

  lemma CarriedEntries(s: System, s': System)
    requires WellFormed(s.sh) && Entries(s) && Carried(s, s') && WellFormed(s'.sh)
    ensures Entries(s')
  {
    assert forall e | Out(s, e) :: Out(s', e);
  }

  lemma KeepsEntriesSenders(s: System, step: Step)
    requires WellFormed(s.sh) && Entries(s) && (step.FinishAdd? || step.FinishRemove?)
    ensures WellFormed(Next(s, step).sh) && Entries(Next(s, step))
  {
    hide Entries;
    SendersCarry(s, step);
    CarriedEntries(s, Next(s, step));
  }

  lemma SendersCarry(s: System, step: Step)
    requires WellFormed(s.sh) && (step.FinishAdd? || step.FinishRemove?)
    ensures WellFormed(Next(s, step).sh) && Carried(s, Next(s, step))
  {}

  lemma KeepsEntriesTurns(s: System, step: Step)
    requires WellFormed(s.sh) && Entries(s) && (step.SubscribeTurn? || step.EndTurn? || step.CancelTurn?)
    ensures WellFormed(Next(s, step).sh) && Entries(Next(s, step))
  {
    hide Next;
    if Enabled(s, step) && !step.SubscribeTurn? { assert s.turns[step.turn].entry < |s.sh.activeTurns|; }
    hide Entries, Carried;
    TurnsCarry(s, step);
    CarriedEntries(s, Next(s, step));
  }

  lemma TurnsCarry(s: System, step: Step)
    requires WellFormed(s.sh) && (step.SubscribeTurn? || step.EndTurn? || step.CancelTurn?)
    requires Enabled(s, step) && !step.SubscribeTurn? ==> s.turns[step.turn].entry < |s.sh.activeTurns|
    ensures WellFormed(Next(s, step).sh) && Carried(s, Next(s, step))
  {}

  lemma KeepsEntriesWait(s: System, step: Step)
    requires WellFormed(s.sh) && Entries(s) && (step.BroadcastCancel? || step.StopWaiting?)
    ensures WellFormed(Next(s, step).sh) && Entries(Next(s, step))
  {
    hide Entries;
    WaitCarries(s, step);
    CarriedEntries(s, Next(s, step));
  }

  lemma WaitCarries(s: System, step: Step)
    requires WellFormed(s.sh) && (step.BroadcastCancel? || step.StopWaiting?)
    ensures WellFormed(Next(s, step).sh) && Carried(s, Next(s, step))
  {}

  lemma KeepsEntriesOthers(s: System, step: Step)
    requires WellFormed(s.sh) && Entries(s) && (step.LeaseOther? || step.DropOther?)
    ensures WellFormed(Next(s, step).sh) && Entries(Next(s, step))
  {}

  lemma KeepsEntriesAdd(s: System, op: nat, id: ProviderId)
    requires WellFormed(s.sh) && Entries(s)
    ensures var s' := Next(s, StartAdd(op, id)); WellFormed(s'.sh) && Entries(s')
  {
    var s' := Next(s, StartAdd(op, id));
    assert forall e | Out(s, e) :: Out(s', e);
  }

  lemma KeepsEntriesRemove(s: System, op: nat, id: ProviderId, mode: Mode)
    requires WellFormed(s.sh) && Entries(s)
    ensures var s' := Next(s, StartRemove(op, id, mode)); WellFormed(s'.sh) && Entries(s')
  {
    var s' := Next(s, StartRemove(op, id, mode));
    assert forall e | Out(s, e) :: Out(s', e);
  }

  lemma KeepsEntriesLease(s: System, t: nat)
    requires WellFormed(s.sh) && Entries(s)
    ensures var s' := Next(s, LeaseTurn(t)); WellFormed(s'.sh) && Entries(s')
  {
    var s' := Next(s, LeaseTurn(t));
    assert forall e | Out(s, e) :: Out(s', e);
  }

  lemma KeepsChannels(s: System, step: Step)
    requires WellFormed(s.sh) && Channels(s)
    ensures WellFormed(Next(s, step).sh) ==> Channels(Next(s, step))
  {
    if Enabled(s, step) {
      hide Next, Channels;
      match step
      case FinishAdd(op) => KeepsChannelsAdd(s, op);
      case SubscribeTurn(t, id) => KeepsChannelsSubscribe(s, t, id);
      case BroadcastCancel(op) => KeepsChannelsBroadcast(s, op);
      case FinishRemove(op) => KeepsChannelsForget(s, op);
      case _ => KeepsChannelsIdle(s, step);
    }
  }

  lemma KeepsChannelsIdle(s: System, step: Step)
    requires WellFormed(s.sh) && Channels(s)
    requires !(step.FinishAdd? || step.SubscribeTurn? || step.BroadcastCancel? || step.FinishRemove?)
    ensures WellFormed(Next(s, step).sh) ==> Channels(Next(s, step))
  {
    IdleSignals(s, step);
    hide Next;
    var s' := Next(s, step);
    forall t <- s'.turns ensures Listening(s'.sh, s'.turns[t]) { assert Listening(s.sh, s.turns[t]); }
  }

  lemma IdleSignals(s: System, step: Step)
    requires WellFormed(s.sh)
    requires !(step.FinishAdd? || step.SubscribeTurn? || step.BroadcastCancel? || step.FinishRemove?)
    ensures var s' := Next(s, step);
            && s'.sh.channels == s.sh.channels && s'.sh.cancelSignal == s.sh.cancelSignal
            && forall t <- s'.turns ::
                 t in s.turns && s'.turns[t].id == s.turns[t].id && s'.turns[t].rx == s.turns[t].rx
  {}

  lemma KeepsChannelsAdd(s: System, op: nat)
    requires WellFormed(s.sh) && Channels(s) && Enabled(s, FinishAdd(op))
    ensures WellFormed(Next(s, FinishAdd(op)).sh) ==> Channels(Next(s, FinishAdd(op)))
  {
    var s' := Next(s, FinishAdd(op));
    forall t <- s'.turns ensures Listening(s'.sh, s'.turns[t]) { assert Listening(s.sh, s.turns[t]); }
  }

  lemma KeepsChannelsSubscribe(s: System, t: nat, id: ProviderId)
    requires WellFormed(s.sh) && Channels(s) && Enabled(s, SubscribeTurn(t, id))
    ensures WellFormed(Next(s, SubscribeTurn(t, id)).sh) ==> Channels(Next(s, SubscribeTurn(t, id)))
  {
    var s' := Next(s, SubscribeTurn(t, id));
    forall u <- s'.turns ensures Listening(s'.sh, s'.turns[u])
    {
      if u != t { assert Listening(s.sh, s.turns[u]); }
    }
  }

  lemma KeepsChannelsBroadcast(s: System, op: nat)
    requires WellFormed(s.sh) && Channels(s) && Enabled(s, BroadcastCancel(op))
    ensures WellFormed(Next(s, BroadcastCancel(op)).sh) ==> Channels(Next(s, BroadcastCancel(op)))
  {
    var s' := Next(s, BroadcastCancel(op));
    forall t <- s'.turns ensures Listening(s'.sh, s'.turns[t]) { assert Listening(s.sh, s.turns[t]); }
  }

  lemma KeepsChannelsForget(s: System, op: nat)
    requires WellFormed(s.sh) && Channels(s) && Enabled(s, FinishRemove(op))
    ensures WellFormed(Next(s, FinishRemove(op)).sh) ==> Channels(Next(s, FinishRemove(op)))
  {
    var s' := Next(s, FinishRemove(op));
    forall t <- s'.turns ensures Listening(s'.sh, s'.turns[t]) { assert Listening(s.sh, s.turns[t]); }
  }

  /** A receiver that would return at once keeps doing so. */
  lemma ReadyStays(s: System, step: Step, rx: Receiver)
    requires WellFormed(s.sh) && Ready(s.sh, rx)
    ensures Ready(Next(s, step).sh, rx)
  {}

  /** A lease that was not there before is on an entry that is still in the pool. */
  lemma NewLeaseIsIn(s: System, step: Step, t: nat)
    requires WellFormed(s.sh) && Entries(s)
    requires t in Next(s, step).turns && Next(s, step).turns[t].Leased? && !(t in s.turns && s.turns[t].Leased?)
    ensures !Out(s, Next(s, step).turns[t].entry) && Next(s, step).signalled == s.signalled
  {}

  lemma BroadcastReaches(s: System, op: nat, t: nat)
    requires WellFormed(s.sh) && Entries(s) && Channels(s) && Enabled(s, BroadcastCancel(op))
    requires t in s.turns && s.turns[t].Leased? && s.turns[t].entry == s.removals[op].entry
    ensures Ready(Next(s, BroadcastCancel(op)).sh, s.turns[t].rx)
  {
    assert Listening(s.sh, s.turns[t]);
  }

  lemma KeepsCancellable(s: System, step: Step)
    requires WellFormed(s.sh) && Entries(s) && Channels(s) && Cancellable(s)
    ensures Cancellable(Next(s, step))
  {
    hide Channels, Ready;
    var s' := Next(s, step);
    forall t <- s'.turns | s'.turns[t].Leased? && s'.turns[t].entry in s'.signalled
      ensures Ready(s'.sh, s'.turns[t].rx)
    {
      if !(t in s.turns && s.turns[t].Leased?) {
        NewLeaseIsIn(s, step, t);
      } else if s.turns[t].entry in s.signalled {
        ReadyStays(s, step, s.turns[t].rx);
      } else {
        BroadcastReaches(s, step.op, t);
      }
    }
  }

  /** The id an add or a removal step is about. */
  function StepId(s: System, step: Step): Option<ProviderId>
    requires Enabled(s, step)
  {
    match step
    case StartAdd(_, id) => Some(id)
    case FinishAdd(op) => Some(s.adds[op])
    case StartRemove(_, id, _) => Some(id)
    case FinishRemove(op) => Some(s.removals[op].id)
    case _ => None
  }

  /** A step changes nothing about the adds and removals of other ids. */
  lemma OtherIds(s: System, step: Step, id: ProviderId)
    requires WellFormed(s.sh) && Enabled(s, step) && StepId(s, step) != Some(id)
    ensures var s' := Next(s, step);
            (AddInFlight(s', id) <==> AddInFlight(s, id)) && (RemovalInFlight(s', id) <==> RemovalInFlight(s, id))
  {
    var s' := Next(s, step);
    if op :| op in s.adds && s.adds[op] == id { assert op in s'.adds && s'.adds[op] == id; }
    if op :| op in s'.adds && s'.adds[op] == id { assert op in s.adds && s.adds[op] == id; }
    if op :| op in s.removals && s.removals[op].id == id { assert op in s'.removals && s'.removals[op].id == id; }
    if op :| op in s'.removals && s'.removals[op].id == id { assert op in s.removals && s.removals[op].id == id; }
  }

  lemma KeepsSenders(s: System, step: Step)
    requires WellFormed(s.sh) && Senders(s)
    ensures Senders(Next(s, step))
  {
    var s' := Next(s, step);
    if Enabled(s, step) {
      assert step.StartAdd? ==> step.op in s'.adds;
      forall id <- s'.sh.pool | !AddInFlight(s', id)
        ensures if id in s'.overlapped then id in s'.sh.cancelSignal ==> RemovalInFlight(s', id)
                else id in s'.sh.cancelSignal && !RemovalInFlight(s', id)
      {
        if StepId(s, step) != Some(id) {
          OtherIds(s, step, id);
        } else if step.FinishAdd? {
          assert s'.removals == s.removals;
        } else if step.FinishRemove? {
          assert s.removals[step.op].id == id;
        }
      }
    }
  }

  lemma KeepsCounts(s: System, step: Step)
    requires WellFormed(s.sh) && Entries(s) && Counted(s)
    ensures Counted(Next(s, step))
  {
    var s' := Next(s, step);
    forall e: nat | e < |s'.sh.activeTurns|
      ensures s'.sh.activeTurns[e] == Outstanding(s', e)
    {
      if e < |s.sh.activeTurns| { CountsMove(s, step, e); } else { FreshEntry(s, step, e); }
    }
  }

  lemma FreshEntry(s: System, step: Step, e: nat)
    requires WellFormed(s.sh) && Entries(s) && |s.sh.activeTurns| <= e < |Next(s, step).sh.activeTurns|
    ensures Next(s, step).sh.activeTurns[e] == 0 == Outstanding(Next(s, step), e)
  {
    assert TurnLeases(Next(s, step), e) == {} && OtherLeases(Next(s, step), e) == {};
  }

  /** A step changes the leases on one entry by at most the one it takes or drops. */
  lemma CountsMove(s: System, step: Step, e: nat)
    requires WellFormed(s.sh) && Entries(s) && Counted(s) && e < |s.sh.activeTurns|
    ensures Next(s, step).sh.activeTurns[e] == Outstanding(Next(s, step), e)
  {
    hide Next, Outstanding;
    match step
    case LeaseTurn(t) => LeaseCounts(s, t, e);
    case EndTurn(t) => EndCounts(s, step, e);
    case CancelTurn(t) => EndCounts(s, step, e);
    case LeaseOther(l, id) => LeaseOtherCounts(s, l, id, e);
    case DropOther(l) => DropOtherCounts(s, l, e);
    case _ => IdleCounts(s, step, e);
  }

  lemma LeaseCounts(s: System, t: nat, e: nat)
    requires WellFormed(s.sh) && e < |s.sh.activeTurns| && s.sh.activeTurns[e] == Outstanding(s, e)
    ensures var s' := Next(s, LeaseTurn(t)); s'.sh.activeTurns[e] == Outstanding(s', e)
  {
    if Enabled(s, LeaseTurn(t)) {
      LeaseSets(s, t, e);
      hide TurnLeases, OtherLeases;
    }
  }

  lemma LeaseSets(s: System, t: nat, e: nat)
    requires WellFormed(s.sh) && Enabled(s, LeaseTurn(t))
    ensures var s', id := Next(s, LeaseTurn(t)), s.turns[t].id;
            && OtherLeases(s', e) == OtherLeases(s, e)
            && t !in TurnLeases(s, e)
            && TurnLeases(s', e) ==
               TurnLeases(s, e) + if id in s.sh.pool && s.sh.pool[id] == e then {t} else {}
  {
    var s', id := Next(s, LeaseTurn(t)), s.turns[t].id;
    assert s'.others == s.others;
    if id in s.sh.pool {
      assert s'.turns == s.turns[t := Leased(id, s.turns[t].rx, s.sh.pool[id])];
    } else {
      assert s'.turns == s.turns - {t};
    }
  }

  lemma EndCounts(s: System, step: Step, e: nat)
    requires WellFormed(s.sh) && Entries(s) && e < |s.sh.activeTurns| && s.sh.activeTurns[e] == Outstanding(s, e)
    requires step.EndTurn? || step.CancelTurn?
    ensures var s' := Next(s, step); s'.sh.activeTurns[e] == Outstanding(s', e)
  {
    if Enabled(s, step) {
      EndSets(s, step, e);
      EndCounter(s, step, e);
      hide Next, TurnLeases, OtherLeases, Entries;
    }
  }

  lemma EndSets(s: System, step: Step, e: nat)
    requires WellFormed(s.sh) && Enabled(s, step) && (step.EndTurn? || step.CancelTurn?)
    ensures var s' := Next(s, step);
            && OtherLeases(s', e) == OtherLeases(s, e)
            && TurnLeases(s', e) == TurnLeases(s, e) - {step.turn}
            && (step.turn in TurnLeases(s, e) <==> s.turns[step.turn].entry == e)
  {
    var s' := Next(s, step);
    assert s'.turns == s.turns - {step.turn} && s'.others == s.others;
    hide Next;
  }

  lemma EndCounter(s: System, step: Step, e: nat)
    requires WellFormed(s.sh) && Entries(s) && Enabled(s, step) && (step.EndTurn? || step.CancelTurn?)
    requires e < |s.sh.activeTurns|
    ensures var s' := Next(s, step);
            && |s'.sh.activeTurns| == |s.sh.activeTurns|
            && s'.sh.activeTurns[e] == s.sh.activeTurns[e] - if s.turns[step.turn].entry == e then 1 else 0
  {
    assert s.turns[step.turn].entry < |s.sh.activeTurns|;
    hide Entries;
  }

  lemma LeaseOtherCounts(s: System, l: nat, id: ProviderId, e: nat)
    requires WellFormed(s.sh) && e < |s.sh.activeTurns| && s.sh.activeTurns[e] == Outstanding(s, e)
    ensures var s' := Next(s, LeaseOther(l, id)); s'.sh.activeTurns[e] == Outstanding(s', e)
  {
    if Enabled(s, LeaseOther(l, id)) {
      LeaseOtherSets(s, l, id, e);
      hide TurnLeases, OtherLeases;
    }
  }

  lemma LeaseOtherSets(s: System, l: nat, id: ProviderId, e: nat)
    requires WellFormed(s.sh) && Enabled(s, LeaseOther(l, id))
    ensures var s' := Next(s, LeaseOther(l, id));
            && TurnLeases(s', e) == TurnLeases(s, e)
            && l !in OtherLeases(s, e)
            && OtherLeases(s', e) == if s.sh.pool[id] == e then OtherLeases(s, e) + {l} else OtherLeases(s, e)
  {
    var s' := Next(s, LeaseOther(l, id));
    assert s'.turns == s.turns && s'.others == s.others[l := s.sh.pool[id]];
  }

  lemma DropOtherCounts(s: System, l: nat, e: nat)
    requires WellFormed(s.sh) && Entries(s) && e < |s.sh.activeTurns| && s.sh.activeTurns[e] == Outstanding(s, e)
    ensures var s' := Next(s, DropOther(l)); s'.sh.activeTurns[e] == Outstanding(s', e)
  {
    if Enabled(s, DropOther(l)) {
      var s' := Next(s, DropOther(l));
      assert TurnLeases(s', e) == TurnLeases(s, e);
      assert OtherLeases(s', e) == OtherLeases(s, e) - {l};
    }
  }

  lemma IdleCounts(s: System, step: Step, e: nat)
    requires WellFormed(s.sh) && e < |s.sh.activeTurns| && s.sh.activeTurns[e] == Outstanding(s, e)
    requires !(step.LeaseTurn? || step.EndTurn? || step.CancelTurn? || step.LeaseOther? || step.DropOther?)
    ensures var s' := Next(s, step); s'.sh.activeTurns[e] == Outstanding(s', e)
  {
    var s' := Next(s, step);
    assert TurnLeases(s', e) == TurnLeases(s, e) && OtherLeases(s', e) == OtherLeases(s, e);
    assert s'.sh.activeTurns[e] == s.sh.activeTurns[e];
  }

  /** Nothing leases an entry that is out of the pool: its leases only ever go away. */
  lemma OutOnlyShrinks(s: System, step: Step, e: nat)
    requires WellFormed(s.sh) && Entries(s) && Out(s, e)
    ensures var s' := Next(s, step);
            Out(s', e) && TurnLeases(s', e) <= TurnLeases(s, e) && OtherLeases(s', e) <= OtherLeases(s, e)
  {
    hide Next, Entries, Out;
    OutStays(s, step, e);
    forall t <- TurnLeases(Next(s, step), e) ensures t in TurnLeases(s, e) { NoNewTurn(s, step, e, t); }
    forall l <- OtherLeases(Next(s, step), e) ensures l in OtherLeases(s, e) { NoNewOther(s, step, e, l); }
  }

  lemma OutStays(s: System, step: Step, e: nat)
    requires WellFormed(s.sh) && Entries(s) && Out(s, e)
    ensures Out(Next(s, step), e)
  {}

  lemma NoNewTurn(s: System, step: Step, e: nat, t: nat)
    requires WellFormed(s.sh) && Entries(s) && Out(s, e) && t in TurnLeases(Next(s, step), e)
    ensures t in TurnLeases(s, e)
  {}

  lemma NoNewOther(s: System, step: Step, e: nat, l: nat)
    requires WellFormed(s.sh) && Entries(s) && Out(s, e) && l in OtherLeases(Next(s, step), e)
    ensures l in OtherLeases(s, e)
  {}

  lemma KeepsDrained(s: System, step: Step)
    requires WellFormed(s.sh) && Entries(s) && Counted(s) && Drained(s)
    ensures Drained(Next(s, step))
  {
    var s' := Next(s, step);
    forall e <- s'.drained
      ensures TurnLeases(s', e) == {} && OtherLeases(s', e) == {}
    {
      if e in s.drained {
        OutOnlyShrinks(s, step, e);
      } else {
        assert s.sh.activeTurns[e] == Outstanding(s, e);
        assert TurnLeases(s', e) == TurnLeases(s, e) && OtherLeases(s', e) == OtherLeases(s, e);
      }
    }
  }

  lemma KeepsInv(s: System, step: Step)
    requires Inv(s)
    ensures Inv(Next(s, step))
  {
    hide Next, Entries, Channels, Counted, Drained, Cancellable, Senders;
    KeepsEntries(s, step);
    KeepsChannels(s, step);
    KeepsCounts(s, step);
    KeepsDrained(s, step);
    KeepsCancellable(s, step);
    KeepsSenders(s, step);
  }

  // ---- runs -----------------------------------------------------------------------

  /** A host before any provider is connected, and with one more connected at start. */
  function NoProviders(): System {
    System(Shared(map[], [], map[], []), map[], map[], map[], map[], [], {}, {}, {})
  }

  function Connect(s: System, id: ProviderId): System {
    if id in s.sh.pool then s
    else s.(sh := EnsureSender(InsertEntry(s.sh, id), id), owner := s.owner + [id])
  }

  /** A host just started with the given providers, each with a sender of its own. */
  function Start(ids: seq<ProviderId>): System {
    if ids == [] then NoProviders() else Connect(Start(ids[..|ids| - 1]), ids[|ids| - 1])
  }

  /** Nothing is running yet. */
  ghost predicate Idle(s: System) {
    && s.turns == map[] && s.others == map[] && s.adds == map[] && s.removals == map[]
    && s.drained == {} && s.signalled == {} && s.overlapped == {}
    && (forall id <- s.sh.pool :: id in s.sh.cancelSignal)
  }

  lemma IdleLeases(s: System, e: nat)
    requires Idle(s)
    ensures TurnLeases(s, e) == {} && OtherLeases(s, e) == {}
  {}

  lemma NoProvidersInv()
    ensures Inv(NoProviders()) && Idle(NoProviders())
  {}

  lemma ConnectInv(s: System, id: ProviderId)
    requires Inv(s) && Idle(s)
    ensures Inv(Connect(s, id)) && Idle(Connect(s, id))
  {
    if id !in s.sh.pool {
      ConnectCounts(s, id);
      ConnectChannels(s, id);
      var s' := Connect(s, id);
      assert WellFormed(s'.sh) && Entries(s') && Senders(s');
    }
  }

  lemma ConnectChannels(s: System, id: ProviderId)
    requires WellFormed(s.sh) && Channels(s) && s.turns == map[] && id !in s.sh.pool
    ensures var s' := Connect(s, id); WellFormed(s'.sh) && Channels(s')
  {}

  lemma ConnectCounts(s: System, id: ProviderId)
    requires Counted(s) && Idle(s) && id !in s.sh.pool
    ensures Counted(Connect(s, id))
  {
    var s' := Connect(s, id);
    forall e: nat | e < |s'.sh.activeTurns|
      ensures s'.sh.activeTurns[e] == Outstanding(s', e)
    {
      IdleLeases(s, e);
      assert TurnLeases(s', e) == {} && OtherLeases(s', e) == {};
      if e < |s.sh.activeTurns| { assert s.sh.activeTurns[e] == Outstanding(s, e); }
    }
  }

  lemma {:induction false} StartInv(ids: seq<ProviderId>)
    ensures Inv(Start(ids)) && Idle(Start(ids))
  {
    hide Inv, Idle, Connect;
    if ids == [] {
      NoProvidersInv();
    } else {
      StartInv(ids[..|ids| - 1]);
      ConnectInv(Start(ids[..|ids| - 1]), ids[|ids| - 1]);
    }
  }

  function Run(s: System, steps: seq<Step>): System
    requires Inv(s)
    decreases |steps|
  {
    if steps == [] then s
    else
      KeepsInv(s, steps[0]);
      Run(Next(s, steps[0]), steps[1..])
  }

  lemma {:induction false} RunInv(s: System, steps: seq<Step>)
    requires Inv(s)
    ensures Inv(Run(s, steps))
    decreases |steps|
  {
    if steps != [] {
      KeepsInv(s, steps[0]);
      RunInv(Next(s, steps[0]), steps[1..]);
    }
  }

  /** A state some interleaving of the steps reaches. */
  ghost predicate Reachable(s: System) {
    exists ids, steps :: Reaches(ids, steps, s)
  }

  ghost predicate Reaches(ids: seq<ProviderId>, steps: seq<Step>, s: System) {
    Inv(Start(ids)) && Run(Start(ids), steps) == s
  }

  lemma ReachableInv(s: System)
    requires Reachable(s)
    ensures Inv(s)
  {
    hide Inv;
    var ids, steps :| Reaches(ids, steps, s);
    RunInv(Start(ids), steps);
  }

  // ---- the protocol's promises -------------------------------------------------------

  /** `later` comes after taking `step` in `s` and then `steps`. */
  ghost predicate Leads(s: System, step: Step, steps: seq<Step>, later: System) {
    Inv(s) && Enabled(s, step) && Inv(Next(s, step)) && Run(Next(s, step), steps) == later
  }

  /** Once a Force has broadcast for its entry, every turn still holding a lease on that entry
      has a receiver that returns at once, then and in every later state, whatever was added,
      removed or re-added under the same id meanwhile. */
  lemma ForceReachesEveryTurn(s: System, op: nat, steps: seq<Step>, later: System, t: nat)
    requires Leads(s, BroadcastCancel(op), steps, later)
    requires t in later.turns && later.turns[t].Leased? && later.turns[t].entry == s.removals[op].entry
    ensures Ready(later.sh, later.turns[t].rx)
  {
    hide Entries, Channels, Counted, Drained, Senders;
    var now := Next(s, BroadcastCancel(op));
    RunInv(now, steps);
    OnlyGrows(now, steps);
  }

  lemma {:induction false} OnlyGrows(s: System, steps: seq<Step>)
    requires Inv(s)
    ensures s.signalled <= Run(s, steps).signalled && s.drained <= Run(s, steps).drained
    decreases |steps|
  {
    hide Entries, Channels, Counted, Drained, Cancellable, Senders;
    if steps != [] {
      KeepsInv(s, steps[0]);
      GrowsByOne(s, steps[0]);
      hide Next;
      OnlyGrows(Next(s, steps[0]), steps[1..]);
    }
  }

  lemma GrowsByOne(s: System, step: Step)
    requires WellFormed(s.sh)
    ensures s.signalled <= Next(s, step).signalled && s.drained <= Next(s, step).drained
  {}

  /** Each entry's counter is the number of leases outstanding on it, and never underflows. */
  lemma CountIsOutstanding(s: System, e: nat)
    requires Reachable(s) && e < |s.sh.activeTurns|
    ensures s.sh.activeTurns[e] == Outstanding(s, e) >= 0
  {
    ReachableInv(s);
  }

  /** After an entry has left the pool no lease on it is ever created again. */
  lemma {:induction false} NoLeaseAfterRemoval(s: System, e: nat, steps: seq<Step>)
    requires Inv(s) && Out(s, e)
    ensures var later := Run(s, steps);
            Out(later, e) && TurnLeases(later, e) <= TurnLeases(s, e) && OtherLeases(later, e) <= OtherLeases(s, e)
    decreases |steps|
  {
    hide Next, Out, Counted, Drained, Cancellable, Senders, Channels;
    if steps != [] {
      KeepsInv(s, steps[0]);
      OutOnlyShrinks(s, steps[0], e);
      NoLeaseAfterRemoval(Next(s, steps[0]), e, steps[1..]);
    }
  }

  /** A Drain stops waiting only when no lease on its entry is outstanding, and none ever is again. */
  lemma DrainWaitsForAll(s: System, op: nat, steps: seq<Step>, later: System)
    requires Leads(s, StopWaiting(op), steps, later) && s.removals[op].mode == Drain
    ensures Outstanding(s, s.removals[op].entry) == 0 == Outstanding(later, s.removals[op].entry)
  {
    var e := s.removals[op].entry;
    assert Out(s, e) && s.sh.activeTurns[e] == Outstanding(s, e);
    var now := Next(s, StopWaiting(op));
    RunInv(now, steps);
    OnlyGrows(now, steps);
    assert TurnLeases(later, e) == {} && OtherLeases(later, e) == {};
  }

  /** Every connected provider is meant to have a cancel sender. Once the adds and removals of
      its id have finished, it has one exactly when its last sender step did not run while a
      removal of the same id was still in flight. */
  lemma SenderPresentIff(s: System, id: ProviderId)
    requires Reachable(s) && id in s.sh.pool && !AddInFlight(s, id) && !RemovalInFlight(s, id)
    ensures id in s.sh.cancelSignal <==> id !in s.overlapped
  {
    ReachableInv(s);
  }

  /** Re-adding a provider while its own Drain is still waiting leaves it without a sender for
      good: nothing is in flight any more and the provider is connected. */
  lemma ReaddDuringDrainLosesSender(p: ProviderId)
    ensures exists s :: Reachable(s) && p in s.sh.pool && !AddInFlight(s, p) && !RemovalInFlight(s, p)
                        && p !in s.sh.cancelSignal
  {
    hide Inv;
    StartInv([p]);
    assert [p][..0] == [];
    var s0 := Start([p]);
    assert s0 == Connect(NoProviders(), p);
    var s := LosesSender(s0, p);
    var steps := Steps5(StartRemove(0, p, Drain), StartAdd(0, p), FinishAdd(0), StopWaiting(0), FinishRemove(0));
    assert Reaches([p], steps, s);
  }

  /** A turn that finds no sender, whatever happens next, is never made to wait for a cancel. */
  lemma NoSenderNoWait(s: System, t: nat, id: ProviderId, steps: seq<Step>, later: System)
    requires Leads(s, SubscribeTurn(t, id), steps, later) && id !in s.sh.cancelSignal
    ensures Ready(later.sh, Subscribe(s.sh, id).1)
  {
    hide Entries, Channels, Counted, Drained, Cancellable, Senders;
    ClosedStaysClosed(Next(s, SubscribeTurn(t, id)), steps, |s.sh.channels|);
  }

  lemma {:induction false} ClosedStaysClosed(s: System, steps: seq<Step>, c: nat)
    requires Inv(s) && c < |s.sh.channels| && !s.sh.channels[c].open
    ensures var later := Run(s, steps); c < |later.sh.channels| && !later.sh.channels[c].open
    decreases |steps|
  {
    hide Entries, Channels, Counted, Drained, Cancellable, Senders;
    if steps != [] {
      KeepsInv(s, steps[0]);
      ClosedStep(s, steps[0], c);
      hide Next;
      ClosedStaysClosed(Next(s, steps[0]), steps[1..], c);
    }
  }

  lemma ClosedStep(s: System, step: Step, c: nat)
    requires WellFormed(s.sh) && c < |s.sh.channels| && !s.sh.channels[c].open
    ensures var s' := Next(s, step); c < |s'.sh.channels| && !s'.sh.channels[c].open
  {}

  function Steps5(a: Step, b: Step, c: Step, d: Step, e: Step): seq<Step> { [a] + ([b] + ([c] + ([d] + ([e] + [])))) }

  lemma RunCons(s: System, a: Step, rest: seq<Step>)
    requires Inv(s)
    ensures Inv(Next(s, a)) && Run(s, [a] + rest) == Run(Next(s, a), rest)
  {
    hide Inv, Next;
    KeepsInv(s, a);
    assert ([a] + rest)[1..] == rest;
  }

  lemma Run5(s: System, a: Step, b: Step, c: Step, d: Step, e: Step)
    requires Inv(s)
    ensures Inv(Next(s, a)) && Inv(Next(Next(s, a), b)) && Inv(Next(Next(Next(s, a), b), c))
    ensures Inv(Next(Next(Next(Next(s, a), b), c), d))
    ensures Run(s, Steps5(a, b, c, d, e)) == Next(Next(Next(Next(Next(s, a), b), c), d), e)
  {
    hide Next, Entries, Channels, Counted, Drained, Cancellable, Senders;
    RunCons(s, a, [b] + ([c] + ([d] + ([e] + []))));
    var s1 := Next(s, a);
    RunCons(s1, b, [c] + ([d] + ([e] + [])));
    var s2 := Next(s1, b);
    RunCons(s2, c, [d] + ([e] + []));
    var s3 := Next(s2, c);
    RunCons(s3, d, [e] + []);
    var s4 := Next(s3, d);
    RunCons(s4, e, []);
  }

  lemma LosesSender(s0: System, p: ProviderId) returns (s5: System)
    requires Inv(s0) && s0 == Connect(NoProviders(), p)
    ensures s5 ==
            Run(s0, Steps5(StartRemove(0, p, Drain), StartAdd(0, p), FinishAdd(0), StopWaiting(0), FinishRemove(0)))
    ensures p in s5.sh.pool && !AddInFlight(s5, p) && !RemovalInFlight(s5, p) && p !in s5.sh.cancelSignal
  {
    hide Run, Next, Connect, NoProviders, Steps5, Entries, Channels, Counted, Drained, Cancellable, Senders;
    Run5(s0, StartRemove(0, p, Drain), StartAdd(0, p), FinishAdd(0), StopWaiting(0), FinishRemove(0));
    var s2 := Readded(s0, p);
    var s4 := DrainEnds(s2, p);
    s5 := LastForget(s4, p);
  }

  /** A removal has begun and the id was added again: the entry is a new one, the sender the old one. */
  lemma Readded(s0: System, p: ProviderId) returns (s2: System)
    requires s0 == Connect(NoProviders(), p)
    ensures WellFormed(s0.sh) && WellFormed(Next(s0, StartRemove(0, p, Drain)).sh)
    ensures s2 == Next(Next(s0, StartRemove(0, p, Drain)), StartAdd(0, p))
    ensures s2.sh == Shared(map[p := 1], [0, 0], map[p := 0], [Channel(true, 0)])
    ensures s2.removals == map[0 := Removal(p, 0, Drain, Taken)] && s2.adds == map[0 := p]
  {
    var s1 := RemovalBegins(s0, p);
    s2 := Next(s1, StartAdd(0, p));
  }

  lemma RemovalBegins(s0: System, p: ProviderId) returns (s1: System)
    requires s0 == Connect(NoProviders(), p)
    ensures WellFormed(s0.sh) && s1 == Next(s0, StartRemove(0, p, Drain))
    ensures s1.sh == Shared(map[], [0], map[p := 0], [Channel(true, 0)]) && s1.adds == map[]
    ensures s1.removals == map[0 := Removal(p, 0, Drain, Taken)] && s1.owner == [p]
  {
    assert s0.sh == Shared(map[p := 0], [0], map[p := 0], [Channel(true, 0)]);
    s1 := Next(s0, StartRemove(0, p, Drain));
    assert s1.sh.pool == map[];
  }

  lemma LastForget(s4: System, p: ProviderId) returns (s5: System)
    requires WellFormed(s4.sh) && p in s4.sh.pool && s4.adds == map[]
    requires s4.removals == map[0 := Removal(p, 0, Drain, Ending)]
    ensures s5 == Next(s4, FinishRemove(0))
    ensures p in s5.sh.pool && !AddInFlight(s5, p) && !RemovalInFlight(s5, p) && p !in s5.sh.cancelSignal
  {
    s5 := Next(s4, FinishRemove(0));
    assert s5.removals == map[];
  }

  lemma DrainEnds(s2: System, p: ProviderId) returns (s4: System)
    requires WellFormed(s2.sh) && s2.sh == Shared(map[p := 1], [0, 0], map[p := 0], [Channel(true, 0)])
    requires s2.removals == map[0 := Removal(p, 0, Drain, Taken)] && s2.adds == map[0 := p]
    ensures WellFormed(Next(s2, FinishAdd(0)).sh) && s4 == Next(Next(s2, FinishAdd(0)), StopWaiting(0))
    ensures s4.sh == s2.sh && s4.removals == map[0 := Removal(p, 0, Drain, Ending)] && s4.adds == map[]
  {
    var s3 := Next(s2, FinishAdd(0));
    assert s3.sh == s2.sh && s3.adds == map[] && s3.removals == s2.removals;
    s4 := Next(s3, StopWaiting(0));
  }
}
