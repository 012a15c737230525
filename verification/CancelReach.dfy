/** Whom a cancel reaches: over any interleaving, exactly when the receiver of a turn returns. */
module CancelReach {
  import opened ProviderPool
  import opened PoolProtocol

  /** The step is a Force of the id broadcasting, or a removal of the id dropping the sender. */
  predicate Cancels(s: System, step: Step, id: ProviderId) {
    && Enabled(s, step) && (step.BroadcastCancel? || step.FinishRemove?)
    && step.op in s.removals && s.removals[step.op].id == id
  }

  ghost predicate CancelledIn(s: System, steps: seq<Step>, id: ProviderId)
    requires Inv(s)
    decreases |steps|
  {
    steps != [] && (Cancels(s, steps[0], id) || (KeepsInv(s, steps[0]); CancelledIn(Next(s, steps[0]), steps[1..], id)))
  }

  /** The receiver listens on the channel the id has now, and has seen all of it. */
  predicate Waits(sh: Shared, id: ProviderId, rx: Receiver) {
    && id in sh.cancelSignal && sh.cancelSignal[id] == rx.chan && rx.chan < |sh.channels|
    && sh.channels[rx.chan] == Channel(true, rx.from)
  }

  /** One step makes a waiting receiver return exactly when it cancels the very id. */
  lemma WaitsOrReady(s: System, step: Step, id: ProviderId, rx: Receiver)
    requires WellFormed(s.sh) && Channels(s) && Waits(s.sh, id, rx)
    ensures if Cancels(s, step, id) then Ready(Next(s, step).sh, rx) else Waits(Next(s, step).sh, id, rx)
  {}

  /** So a Force leaves the turns of all other ids as they were. */
  lemma BroadcastSparesOthers(s: System, op: nat, t: nat)
    requires Inv(s) && Enabled(s, BroadcastCancel(op))
    requires t in s.turns && s.turns[t].id != s.removals[op].id
    ensures Ready(Next(s, BroadcastCancel(op)).sh, s.turns[t].rx) <==> Ready(s.sh, s.turns[t].rx)
  {
    assert Listening(s.sh, s.turns[t]);
    hide Entries, Counted, Drained, Cancellable, Senders;
  }

  /** A broadcast is one message, on one channel, if the id has one. */
  lemma OneMessage(s: System, op: nat)
    requires Inv(s) && Enabled(s, BroadcastCancel(op))
    ensures var id, before, after := s.removals[op].id, s.sh.channels, Next(s, BroadcastCancel(op)).sh.channels;
            && |after| == |before|
            && forall c | 0 <= c < |before| ::
                 && after[c].open == before[c].open
                 && after[c].sent ==
                    before[c].sent + if id in s.sh.cancelSignal && c == s.sh.cancelSignal[id] then 1 else 0
  {
    hide Entries, Channels, Counted, Drained, Cancellable, Senders;
  }

  lemma {:induction false} ReadyForGood(s: System, steps: seq<Step>, rx: Receiver)
    requires Inv(s) && Ready(s.sh, rx)
    ensures Ready(Run(s, steps).sh, rx)
    decreases |steps|
  {
    hide Entries, Channels, Counted, Drained, Cancellable, Senders, Next, Ready;
    if steps != [] {
      KeepsInv(s, steps[0]);
      ReadyStays(s, steps[0], rx);
      ReadyForGood(Next(s, steps[0]), steps[1..], rx);
    }
  }

  lemma {:induction false} WaitsUntilCancelled(s: System, steps: seq<Step>, id: ProviderId, rx: Receiver)
    requires Inv(s) && Waits(s.sh, id, rx)
    ensures if CancelledIn(s, steps, id) then Ready(Run(s, steps).sh, rx) else Waits(Run(s, steps).sh, id, rx)
    decreases |steps|
  {
    hide Entries, Channels, Counted, Drained, Cancellable, Senders, Next, Ready, Waits, Cancels;
    if steps != [] {
      KeepsInv(s, steps[0]);
      WaitsOrReady(s, steps[0], id, rx);
      var s' := Next(s, steps[0]);
      if Cancels(s, steps[0], id) {
        ReadyForGood(s', steps[1..], rx);
      } else {
        WaitsUntilCancelled(s', steps[1..], id, rx);
      }
    }
  }

  /** In every run from its subscription on, a turn's receiver returns exactly when the turn found no
      sender, or since then a Force of its own id broadcast or a removal of its own id finished. */
  lemma ReadyIff(s: System, t: nat, id: ProviderId, steps: seq<Step>)
    requires Inv(s) && Enabled(s, SubscribeTurn(t, id)) && Inv(Next(s, SubscribeTurn(t, id)))
    ensures var now := Next(s, SubscribeTurn(t, id));
            && t in now.turns
            && (Ready(Run(now, steps).sh, now.turns[t].rx) <==>
                id !in s.sh.cancelSignal || CancelledIn(now, steps, id))
  {
    var now := Next(s, SubscribeTurn(t, id));
    var rx := now.turns[t].rx;
    Subscribes(s, t, id);
    hide Inv, Next, Ready, Waits;
    if id in s.sh.cancelSignal {
      WaitsUntilCancelled(now, steps, id, rx);
      if !CancelledIn(now, steps, id) { WaitingIsNotReady(Run(now, steps).sh, id, rx); }
    } else {
      ReadyForGood(now, steps, rx);
    }
  }

  lemma Subscribes(s: System, t: nat, id: ProviderId)
    requires Inv(s) && Enabled(s, SubscribeTurn(t, id))
    ensures var now := Next(s, SubscribeTurn(t, id));
            && t in now.turns
            && if id in s.sh.cancelSignal then Waits(now.sh, id, now.turns[t].rx) else Ready(now.sh, now.turns[t].rx)
  {
    hide Entries, Counted, Drained, Cancellable, Senders;
  }

  lemma WaitingIsNotReady(sh: Shared, id: ProviderId, rx: Receiver)
    requires Waits(sh, id, rx)
    ensures !Ready(sh, rx)
  {}

  lemma RxStays(s: System, step: Step, t: nat)
    requires WellFormed(s.sh) && t in s.turns && t in Next(s, step).turns
    ensures Next(s, step).turns[t].rx == s.turns[t].rx && Next(s, step).turns[t].id == s.turns[t].id
  {}

  /** The turn is there all the time. */
  ghost predicate Stays(s: System, steps: seq<Step>, t: nat)
    requires Inv(s)
    decreases |steps|
  {
    t in s.turns && (steps == [] || (KeepsInv(s, steps[0]); Stays(Next(s, steps[0]), steps[1..], t)))
  }

  lemma {:induction false} RxStaysIn(s: System, steps: seq<Step>, t: nat)
    requires Inv(s) && Stays(s, steps, t)
    ensures t in Run(s, steps).turns && Run(s, steps).turns[t].rx == s.turns[t].rx
    decreases |steps|
  {
    hide Entries, Channels, Counted, Drained, Cancellable, Senders, Next;
    if steps != [] {
      KeepsInv(s, steps[0]);
      RxStays(s, steps[0], t);
      RxStaysIn(Next(s, steps[0]), steps[1..], t);
    }
  }

  /** A cancel ends a turn that holds its lease exactly then; it never ends a turn for another id's sake. */
  lemma CancelEndsIff(s: System, t: nat, id: ProviderId, steps: seq<Step>)
    requires Inv(s) && Enabled(s, SubscribeTurn(t, id)) && Inv(Next(s, SubscribeTurn(t, id)))
    requires Stays(Next(s, SubscribeTurn(t, id)), steps, t)
    ensures var now := Next(s, SubscribeTurn(t, id)); var later := Run(now, steps);
            && WellFormed(later.sh) && t in later.turns
            && (t !in Next(later, CancelTurn(t)).turns <==>
                later.turns[t].Leased? && (id !in s.sh.cancelSignal || CancelledIn(now, steps, id)))
  {
    var now := Next(s, SubscribeTurn(t, id));
    ReadyIff(s, t, id, steps);
    RunInv(now, steps);
    RxStaysIn(now, steps, t);
    hide Entries, Channels, Counted, Drained, Cancellable, Senders, Ready, CancelledIn, Run;
  }
}
