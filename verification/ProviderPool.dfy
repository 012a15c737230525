/** The provider pool and the cancel broadcast of the host: the lock-protected sections that
    turns, `add_provider` and `remove_provider` are made of. */
module ProviderPool {
  import opened Wrappers

  type ProviderId = string

  /** A broadcast channel: whether its sender is alive and how many messages it has carried. */
  datatype Channel = Channel(open: bool, sent: nat)

  /** A receiver sees the messages its channel carries after position `from`. */
  datatype Receiver = Receiver(chan: nat, from: nat)

  /** The shared fields. Pool entries are numbered in order of creation; `activeTurns[e]` is the
      counter of entry `e`, which outlives the entry's place in the pool. */
  datatype Shared = Shared(
    pool: map<ProviderId, nat>,
    activeTurns: seq<int>,
    cancelSignal: map<ProviderId, nat>,
    channels: seq<Channel>)

  /** `recv` returns at once: a message is waiting, or the sender is gone. */
  predicate Ready(sh: Shared, rx: Receiver) {
    rx.chan < |sh.channels| && (!sh.channels[rx.chan].open || sh.channels[rx.chan].sent > rx.from)
  }

  predicate WellFormed(sh: Shared) {
    && (forall id <- sh.pool :: sh.pool[id] < |sh.activeTurns|)
    && (forall id <- sh.cancelSignal :: sh.cancelSignal[id] < |sh.channels|)
  }

  // ---- the lock-protected sections as functions -----------------------------

  function InsertEntry(sh: Shared, id: ProviderId): Shared {
    if id in sh.pool then sh
    else sh.(pool := sh.pool[id := |sh.activeTurns|], activeTurns := sh.activeTurns + [0])
  }

  function EnsureSender(sh: Shared, id: ProviderId): Shared {
    if id in sh.cancelSignal then sh
    else sh.(cancelSignal := sh.cancelSignal[id := |sh.channels|], channels := sh.channels + [Channel(true, 0)])
  }

  /** Without a sender in the map the code subscribes to a channel whose only sender is a
      temporary, gone when the statement ends. */
  function Subscribe(sh: Shared, id: ProviderId): (Shared, Receiver)
    requires WellFormed(sh)
  {
    if id in sh.cancelSignal then
      (sh, Receiver(sh.cancelSignal[id], sh.channels[sh.cancelSignal[id]].sent))
    else
      (sh.(channels := sh.channels + [Channel(false, 0)]), Receiver(|sh.channels|, 0))
  }

  function TakeLease(sh: Shared, id: ProviderId): (Shared, Option<nat>)
    requires WellFormed(sh)
  {
    if id in sh.pool then
      var e := sh.pool[id];
      (sh.(activeTurns := sh.activeTurns[e := sh.activeTurns[e] + 1]), Some(e))
    else (sh, None)
  }

  function DropLease(sh: Shared, e: nat): Shared {
    if e < |sh.activeTurns| then sh.(activeTurns := sh.activeTurns[e := sh.activeTurns[e] - 1]) else sh
  }

  function RemoveEntry(sh: Shared, id: ProviderId): (Shared, Option<nat>) {
    if id in sh.pool then (sh.(pool := sh.pool - {id}), Some(sh.pool[id])) else (sh, None)
  }

  function SendCancel(sh: Shared, id: ProviderId): Shared
    requires WellFormed(sh)
  {
    if id in sh.cancelSignal then
      var c := sh.cancelSignal[id];
      sh.(channels := sh.channels[c := sh.channels[c].(sent := sh.channels[c].sent + 1)])
    else sh
  }

  function ForgetSender(sh: Shared, id: ProviderId): Shared
    requires WellFormed(sh)
  {
    if id in sh.cancelSignal then
      var c := sh.cancelSignal[id];
      sh.(cancelSignal := sh.cancelSignal - {id}, channels := sh.channels[c := sh.channels[c].(open := false)])
    else sh
  }

  // ---- and as the methods of the host ----------------------------------------

  class Host {
    var pool: map<ProviderId, nat>
    var activeTurns: seq<int>
    var cancelSignal: map<ProviderId, nat>
    var channels: seq<Channel>

    function State(): Shared
      reads this
    {
      Shared(pool, activeTurns, cancelSignal, channels)
    }

    /** A host with one connected provider, as `Host::with_components` builds it. */
    constructor (id: ProviderId)
      ensures State() == EnsureSender(InsertEntry(Shared(map[], [], map[], []), id), id)
    {
      pool, activeTurns := map[id := 0], [0];
      cancelSignal, channels := map[id := 0], [Channel(true, 0)];
    }

    method AddEntry(id: ProviderId) returns (added: bool)
      requires WellFormed(State())
      modifies this`pool, this`activeTurns
      ensures State() == InsertEntry(old(State()), id) && WellFormed(State())
      ensures added <==> id !in old(pool)
    {
      if id in pool {
        return false;
      }
      pool := pool[id := |activeTurns|];
      activeTurns := activeTurns + [0];
      added := true;
    }

    method AddSender(id: ProviderId)
      requires WellFormed(State())
      modifies this`cancelSignal, this`channels
      ensures State() == EnsureSender(old(State()), id) && WellFormed(State())
    {
      if id !in cancelSignal {
        cancelSignal := cancelSignal[id := |channels|];
        channels := channels + [Channel(true, 0)];
      }
    }

    method SubscribeCancel(id: ProviderId) returns (rx: Receiver)
      requires WellFormed(State())
      modifies this`channels
      ensures (State(), rx) == Subscribe(old(State()), id) && WellFormed(State())
      ensures id !in old(cancelSignal) ==> Ready(State(), rx)
    {
      if id in cancelSignal {
        rx := Receiver(cancelSignal[id], channels[cancelSignal[id]].sent);
      } else {
        rx := Receiver(|channels|, 0);
        channels := channels + [Channel(true, 0)];
        channels := channels[rx.chan := Channel(false, 0)];
        assert channels == old(channels) + [Channel(false, 0)];
      }
    }

    method Lease(id: ProviderId) returns (entry: Option<nat>)
      requires WellFormed(State())
      modifies this`activeTurns
      ensures (State(), entry) == TakeLease(old(State()), id) && WellFormed(State())
      ensures entry == if id in old(pool) then Some(old(pool)[id]) else None
    {
      if id !in pool {
        return None;
      }
      var e := pool[id];
      activeTurns := activeTurns[e := activeTurns[e] + 1];
      entry := Some(e);
    }

    method Release(e: nat)
      requires WellFormed(State()) && e < |activeTurns|
      modifies this`activeTurns
      ensures State() == DropLease(old(State()), e) && WellFormed(State())
    {
      activeTurns := activeTurns[e := activeTurns[e] - 1];
    }

    method TakeEntry(id: ProviderId) returns (entry: Option<nat>)
      requires WellFormed(State())
      modifies this`pool
      ensures (State(), entry) == RemoveEntry(old(State()), id) && WellFormed(State())
      ensures entry == if id in old(pool) then Some(old(pool)[id]) else None
    {
      if id !in pool {
        return None;
      }
      entry := Some(pool[id]);
      pool := pool - {id};
    }

    method Broadcast(id: ProviderId)
      requires WellFormed(State())
      modifies this`channels
      ensures State() == SendCancel(old(State()), id) && WellFormed(State())
    {
      if id in cancelSignal {
        var c := cancelSignal[id];
        channels := channels[c := Channel(channels[c].open, channels[c].sent + 1)];
      }
    }

    method RemoveSender(id: ProviderId)
      requires WellFormed(State())
      modifies this`cancelSignal, this`channels
      ensures State() == ForgetSender(old(State()), id) && WellFormed(State())
    {
      if id in cancelSignal {
        var c := cancelSignal[id];
        cancelSignal := cancelSignal - {id};
        channels := channels[c := Channel(false, channels[c].sent)];
      }
    }
  }
}
