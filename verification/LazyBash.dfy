/** The one-slot cache for the bash tool server: reuse it, or replace it blue-green when a call
    needs another network setting; and whether a spawned server has network. */
module LazyBash {
  import opened Wrappers

  datatype NetOverride = Inherit | ForceAllow | ForceDeny

  /** How a spawn would turn out, if the call needs one. `DroppedInSwap` is a call that is dropped while the
      old server stops and the new one, up already, is not in the slot yet; with no old server to stop there
      is no such moment. A call dropped earlier leaves the slot alone like a failed spawn. */
  datatype Attempt = SpawnFails | HandshakeFails | ComesUp | DroppedInSwap

  datatype Server = Server(id: nat, key: bool)

  /** `policy` is what the resolver would answer if it were asked. */
  datatype Request = Request(over: NetOverride, policy: bool, attempt: Attempt)

  datatype Reply = Sent(server: Server) | SpawnError(allowNet: bool) | HandshakeError(allowNet: bool) | Dropped

  /** The slot, the number of servers that came up so far, and the ones told to stop or let go. */
  datatype Slot = Slot(active: Option<Server>, started: nat, stopped: set<nat>)

  const EMPTY := Slot(None, 0, {})

  function Resolved(req: Request): bool {
    match req.over
    case Inherit => req.policy
    case ForceAllow => true
    case ForceDeny => false
  }

  predicate Reuses(s: Slot, req: Request) { s.active.Some? && s.active.value.key == Resolved(req) }

  function Replaced(s: Slot, key: bool): Slot {
    Slot(Some(Server(s.started, key)), s.started + 1, s.stopped + if s.active.Some? then {s.active.value.id} else {})
  }

  /** The old server is out of the slot and told to stop, and the new one goes with the call. */
  function SwapLost(s: Slot): Slot
    requires s.active.Some?
  {
    Slot(None, s.started + 1, s.stopped + {s.active.value.id, s.started})
  }

  predicate Starts(req: Request) { req.attempt.ComesUp? || req.attempt.DroppedInSwap? }

  /** The call is dropped between taking the old server out of the slot and putting the new one in. */
  predicate LosesSwap(s: Slot, req: Request) {
    s.active.Some? && !Reuses(s, req) && req.attempt.DroppedInSwap?
  }

  /** The section under the slot's lock, once the network setting is resolved. */
  function Served(s: Slot, req: Request): (Slot, Reply) {
    if Reuses(s, req) then (s, Sent(s.active.value))
    else if LosesSwap(s, req) then (SwapLost(s), Dropped)
    else
      match req.attempt
      case SpawnFails => (s, SpawnError(Resolved(req)))
      case HandshakeFails => (s, HandshakeError(Resolved(req)))
      case _ => (Replaced(s, Resolved(req)), Sent(Server(s.started, Resolved(req))))
  }

  function Run(s: Slot, reqs: seq<Request>): Slot
    decreases |reqs|
  {
    if reqs == [] then s else Run(Served(s, reqs[0]).0, reqs[1..])
  }

  // ---- whole runs --------------------------------------------------------------------

  /** Of the servers that came up, exactly the one in the slot, if any, is still wanted. */
  ghost predicate OneLive(s: Slot) {
    && (s.active.Some? ==> s.active.value.id < s.started)
    && (forall id: nat :: id in s.stopped <==> id < s.started && (s.active.Some? ==> id != s.active.value.id))
  }

  lemma {:induction false} RunOneLive(s: Slot, reqs: seq<Request>)
    requires OneLive(s)
    ensures OneLive(Run(s, reqs))
    decreases |reqs|
  {
    if reqs != [] {
      RunOneLive(Served(s, reqs[0]).0, reqs[1..]);
    }
  }

  /** After any run, a call is sent only to a live server whose key is the setting resolved for it; a call
      that is not sent leaves the slot as it was, when it needed a spawn that failed, or empties it, when
      it was dropped in a swap. */
  lemma SentToMatchingServer(reqs: seq<Request>, req: Request)
    ensures var s := Run(EMPTY, reqs); var (s', reply) := Served(s, req);
            && (reply.Sent? <==> Reuses(s, req) || (Starts(req) && !LosesSwap(s, req)))
            && (reply.Dropped? <==> LosesSwap(s, req))
            && (reply.Sent? ==> s'.active == Some(reply.server) && reply.server.key == Resolved(req)
                                && reply.server.id < s'.started && reply.server.id !in s'.stopped)
            && (!reply.Sent? ==> if reply.Dropped? then s'.active.None? else s' == s)
  {
    RunOneLive(EMPTY, reqs);
    RunOneLive(EMPTY, reqs + [req]);
    RunSnoc(EMPTY, reqs, req);
  }

  /** The setting a reply is about: the key of the server it went to, or the one no server came up for. */
  function SettingOf(reply: Reply): Option<bool> {
    match reply
    case Sent(server) => Some(server.key)
    case SpawnError(allowNet) => Some(allowNet)
    case HandshakeError(allowNet) => Some(allowNet)
    case Dropped => None
  }

  /** After any run: a call denied network is never sent to a server keyed with network, a call allowed it
      never to one without, and any other call goes by the policy's answer. */
  lemma OverrideDecides(reqs: seq<Request>, req: Request)
    ensures var setting := SettingOf(Served(Run(EMPTY, reqs), req).1);
            setting.Some? ==>
              && (req.over == ForceDeny ==> setting == Some(false))
              && (req.over == ForceAllow ==> setting == Some(true))
              && (req.over == Inherit ==> setting == Some(req.policy))
  {
    SentToMatchingServer(reqs, req);
  }

  /** With an override the policy is not asked: its answer makes no difference to slot or reply. */
  lemma OverrideIgnoresPolicy(s: Slot, req: Request, policy: bool)
    requires req.over != Inherit
    ensures Served(s, req.(policy := policy)) == Served(s, req)
  {}

  lemma {:induction false} RunSnoc(s: Slot, reqs: seq<Request>, req: Request)
    ensures Run(s, reqs + [req]) == Served(Run(s, reqs), req).0
    decreases |reqs|
  {
    if reqs == [] {
      assert (reqs + [req])[1..] == [];
    } else {
      assert (reqs + [req])[1..] == reqs[1..] + [req];
      RunSnoc(Served(s, reqs[0]).0, reqs[1..], req);
    }
  }

  /** A swap was lost, and every call after it failed to start a server. */
  ghost predicate LostForGood(s: Slot, reqs: seq<Request>) {
    exists i | 0 <= i < |reqs| ::
      LosesSwap(Run(s, reqs[..i]), reqs[i]) && forall j | i < j < |reqs| :: !Starts(reqs[j])
  }

  /** A filled slot is empty after a run exactly when a call was dropped in a swap and nothing started
      since: no failed respawn empties it, and the next server that comes up fills it. */
  lemma {:induction false} EmptiedIff(s: Slot, reqs: seq<Request>)
    requires s.active.Some?
    ensures Run(s, reqs).active.None? <==> LostForGood(s, reqs)
    decreases |reqs|
  {
    if reqs != [] {
      var n := |reqs| - 1;
      var front, req := reqs[..n], reqs[n];
      assert reqs == front + [req];
      RunSnoc(s, front, req);
      EmptiedIff(s, front);
      forall i | 0 <= i < n ensures front[..i] == reqs[..i] {}
      if LosesSwap(Run(s, front), req) {
        assert LosesSwap(Run(s, reqs[..n]), reqs[n]);
      } else if Run(s, front).active.None? && !Starts(req) {
        var i :| 0 <= i < n && LosesSwap(Run(s, front[..i]), front[i]) && forall j | i < j < n :: !Starts(front[j]);
        assert LosesSwap(Run(s, reqs[..i]), reqs[i]) && forall j | i < j <= n :: !Starts(reqs[j]);
      }
    }
  }

  /** The setting of the server in the slot: that of the last call that was sent, unless a swap was lost. */
  function Held(reqs: seq<Request>): Option<bool> {
    if reqs == [] then None
    else
      var req := reqs[|reqs| - 1];
      var last := Held(reqs[..|reqs| - 1]);
      if last == Some(Resolved(req)) || !Starts(req) then last
      else if last.Some? && req.attempt.DroppedInSwap? then None
      else Some(Resolved(req))
  }

  /** How often a call that could start a server differs from what the slot holds. */
  function Changes(reqs: seq<Request>): nat {
    if reqs == [] then 0
    else
      var req := reqs[|reqs| - 1];
      var front := reqs[..|reqs| - 1];
      Changes(front) + if Starts(req) && Held(front) != Some(Resolved(req)) then 1 else 0
  }

  /** The number of servers ever started counts the changes of setting, failures and lost swaps included. */
  lemma {:induction false} StartsAreChanges(reqs: seq<Request>)
    ensures Run(EMPTY, reqs).started == Changes(reqs)
    ensures Held(reqs) == (var a := Run(EMPTY, reqs).active; if a.Some? then Some(a.value.key) else None)
    decreases |reqs|
  {
    if reqs != [] {
      var n := |reqs| - 1;
      StartsAreChanges(reqs[..n]);
      RunSnoc(EMPTY, reqs[..n], reqs[n]);
      assert reqs == reqs[..n] + [reqs[n]];
    }
  }

  function Adjacent(keys: seq<bool>): nat {
    if |keys| < 2 then 0 else Adjacent(keys[..|keys| - 1]) + if keys[|keys| - 1] != keys[|keys| - 2] then 1 else 0
  }

  function Settings(reqs: seq<Request>): seq<bool> { seq(|reqs|, i requires 0 <= i < |reqs| => Resolved(reqs[i])) }

  /** When no spawn fails, a non-empty run starts one server plus one for each place where two
      calls in a row resolve differently. */
  lemma {:induction false} StartsWithoutFailures(reqs: seq<Request>)
    requires reqs != [] && forall req <- reqs :: req.attempt.ComesUp?
    ensures Run(EMPTY, reqs).started == 1 + Adjacent(Settings(reqs))
    decreases |reqs|
  {
    var n := |reqs| - 1;
    StartsAreChanges(reqs);
    StartsAreChanges(reqs[..n]);
    assert Settings(reqs)[..n] == Settings(reqs[..n]);
    if n > 0 {
      StartsWithoutFailures(reqs[..n]);
    }
  }

  // ---- the slot itself ---------------------------------------------------------------------

  class LazySlot {
    var active: Option<Server>
    ghost var slot: Slot

    ghost predicate Valid()
      reads this
    {
      slot.active == active && OneLive(slot)
    }

    constructor ()
      ensures Valid() && slot == EMPTY
    {
      active, slot := None, EMPTY;
    }

    /** One call. `newId` is the identity of the server if one comes up. */
    method Dispatch(req: Request, newId: nat) returns (reply: Reply)
      requires Valid() && newId == slot.started
      modifies this
      ensures Valid() && slot == Served(old(slot), req).0 && reply == Served(old(slot), req).1
    {
      var allowNet;
      match req.over {
        case ForceAllow => allowNet := true;
        case ForceDeny => allowNet := false;
        case Inherit => allowNet := req.policy;
      }
      var cachedKey := if active.Some? then Some(active.value.key) else None;
      if cachedKey != Some(allowNet) {
        match req.attempt {
          case SpawnFails => return SpawnError(allowNet);
          case HandshakeFails => return HandshakeError(allowNet);
          case _ =>
        }
        ghost var before := slot;
        var prev := active;
        active := None;
        if prev.Some? && req.attempt.DroppedInSwap? {
          slot := SwapLost(before);
          return Dropped;
        }
        active := Some(Server(newId, allowNet));
        slot := Replaced(before, allowNet);
      }
      reply := Sent(active.value);
    }

    /** Takes the server out to stop it. */
    method Shutdown() returns (last: Option<Server>)
      requires Valid()
      modifies this
      ensures active == None && last == old(active)
      ensures last.Some? ==> last.value.id !in old(slot).stopped
    {
      last := active;
      active := None;
    }
  }

  // ---- the network a spawned server gets ---------------------------------------------------

  const MARKER := "tool-bash"

  predicate Occurs(key: string, s: string) { exists i | 0 <= i <= |s| :: key <= s[i..] }

  /** The key is some part of the text. */
  lemma OccursIff(key: string, s: string)
    ensures Occurs(key, s) <==> exists front, back :: s == front + key + back
  {
    if i :| 0 <= i <= |s| && key <= s[i..] { assert s == s[..i] + key + s[i + |key|..]; }
    if front, back :| s == front + key + back { assert s[|front|..] == key + back; }
  }

  /** Per-tool settings by key; `None` leaves the network unpinned. */
  type Overrides = map<string, Option<bool>>

  /** The settings a spawn uses: the resolved value is put under the marker unless the user pinned
      a value there. */
  function Injected(user: Overrides, allowNet: bool): Overrides {
    if MARKER in user && user[MARKER].Some? then user else user[MARKER := Some(allowNet)]
  }

  /** Some order in which the hash map may hand out its keys. */
  ghost predicate IsOrder(order: seq<string>, overrides: Overrides) {
    && (forall k <- order :: k in overrides)
    && (forall k <- overrides :: k in order)
    && (forall i, j | 0 <= i < j < |order| :: order[i] != order[j])
  }

  predicate Pins(overrides: Overrides, key: string, command: string) {
    key in overrides && overrides[key].Some? && Occurs(key, command)
  }

  function FirstPin(order: seq<string>, overrides: Overrides, command: string): Option<bool> {
    if order == [] then None
    else if Pins(overrides, order[0], command) then overrides[order[0]]
    else FirstPin(order[1..], overrides, command)
  }

  /** Walks the keys in the order given; the first matching key that pins a value decides. */
  method NetAllowedFor(order: seq<string>, overrides: Overrides, command: string, allowNet: bool) returns (net: bool)
    requires IsOrder(order, overrides)
    ensures var pin := FirstPin(order, overrides, command);
            net == if pin.Some? then pin.value else if Occurs(MARKER, command) then false else allowNet
  {
    for i := 0 to |order|
      invariant FirstPin(order, overrides, command) == FirstPin(order[i..], overrides, command)
    {
      assert order[i..][1..] == order[i + 1..];
      var key := order[i];
      if Occurs(key, command) && overrides[key].Some? {
        return overrides[key].value;
      }
    }
    net := !Occurs(MARKER, command) && allowNet;
  }

  lemma {:induction false} FirstPinIsPin(order: seq<string>, overrides: Overrides, command: string)
    ensures match FirstPin(order, overrides, command)
            case Some(v) => exists k :: k in order && Pins(overrides, k, command) && overrides[k] == Some(v)
            case None => forall k <- order :: !Pins(overrides, k, command)
    decreases |order|
  {
    if order != [] {
      FirstPinIsPin(order[1..], overrides, command);
      if Pins(overrides, order[0], command) {
        assert order[0] in order;
      } else if FirstPin(order[1..], overrides, command).Some? {
        var k :| k in order[1..] && Pins(overrides, k, command)
                 && overrides[k] == FirstPin(order[1..], overrides, command);
        assert k in order;
      }
    }
  }

  /** The setting computed for a bash spawn is the one its slot key says, whatever order the map hands
      out its keys in, exactly when no override the user pinned for a matching key differs. */
  lemma SettingIsKeyIff(user: Overrides, command: string, allowNet: bool)
    requires Occurs(MARKER, command)
    ensures (forall order :: IsOrder(order, Injected(user, allowNet)) ==>
               FirstPin(order, Injected(user, allowNet), command) == Some(allowNet)) <==>
            (forall key :: Pins(user, key, command) ==> user[key] == Some(allowNet))
  {
    var overrides := Injected(user, allowNet);
    if forall key :: Pins(user, key, command) ==> user[key] == Some(allowNet) {
      forall order | IsOrder(order, overrides) ensures FirstPin(order, overrides, command) == Some(allowNet) {
        FirstPinIsPin(order, overrides, command);
        assert MARKER in order && Pins(overrides, MARKER, command);
      }
    } else {
      var key :| Pins(user, key, command) && user[key] != Some(allowNet);
      var order := DifferingPinFirst(user, key, command, allowNet);
    }
  }

  lemma DifferingPinFirst(user: Overrides, key: string, command: string, allowNet: bool) returns (order: seq<string>)
    requires Pins(user, key, command) && user[key] != Some(allowNet)
    ensures IsOrder(order, Injected(user, allowNet))
    ensures FirstPin(order, Injected(user, allowNet), command) == user[key]
  {
    var overrides := Injected(user, allowNet);
    assert Pins(overrides, key, command) && overrides[key] == user[key];
    var rest := AnyOrder(overrides - {key});
    OrderCons(key, rest, overrides);
    order := [key] + rest;
    assert order[0] == key;
  }

  // ---- the wrapper ---------------------------------------------------------------------------

  /** Whether sandboxing is on, and whether this platform has a wrapper and its binary is found. */
  datatype Sandbox = Sandbox(enabled: bool, wrapperFound: bool)

  predicate Wrapped(sandbox: Sandbox) { sandbox.enabled && sandbox.wrapperFound }

  /** Whether a bash server spawned for `allowNet` has network: only a wrapper takes it away. */
  function HasNetwork(sandbox: Sandbox, order: seq<string>, user: Overrides, command: string, allowNet: bool): bool {
    Wrapped(sandbox) ==> FirstPin(order, Injected(user, allowNet), command) == Some(true)
  }

  /** A spawned bash server has network exactly as its slot key says, whatever order the map hands out
      its keys in, if and only if it is wrapped and no pinned matching override differs, or it is not
      wrapped and the key grants network. */
  lemma NetworkIsKeyIff(sandbox: Sandbox, user: Overrides, command: string, allowNet: bool)
    requires Occurs(MARKER, command)
    ensures (forall order :: IsOrder(order, Injected(user, allowNet)) ==>
               HasNetwork(sandbox, order, user, command, allowNet) == allowNet) <==>
            if Wrapped(sandbox) then forall key :: Pins(user, key, command) ==> user[key] == Some(allowNet)
            else allowNet
  {
    hide FirstPin, Injected, IsOrder, Occurs;
    var overrides := Injected(user, allowNet);
    if Wrapped(sandbox) {
      SettingIsKeyIff(user, command, allowNet);
      forall order | IsOrder(order, overrides)
        ensures HasNetwork(sandbox, order, user, command, allowNet) == allowNet <==>
                FirstPin(order, overrides, command) == Some(allowNet)
      {
        WrappedFollowsPin(sandbox, order, user, command, allowNet);
      }
    } else {
      var order := AnyOrder(overrides);
      assert IsOrder(order, overrides) && HasNetwork(sandbox, order, user, command, allowNet);
    }
  }

  lemma WrappedFollowsPin(sandbox: Sandbox, order: seq<string>, user: Overrides, command: string, allowNet: bool)
    requires Wrapped(sandbox) && IsOrder(order, Injected(user, allowNet)) && Occurs(MARKER, command)
    ensures HasNetwork(sandbox, order, user, command, allowNet) == allowNet <==>
            FirstPin(order, Injected(user, allowNet), command) == Some(allowNet)
  {
    hide FirstPin, Injected, IsOrder, Occurs;
    SomePin(order, user, command, allowNet);
    match FirstPin(order, Injected(user, allowNet), command)
    case Some(v) => assert v == true || v == false;
  }

  lemma SomePin(order: seq<string>, user: Overrides, command: string, allowNet: bool)
    requires IsOrder(order, Injected(user, allowNet)) && Occurs(MARKER, command)
    ensures FirstPin(order, Injected(user, allowNet), command).Some?
  {
    FirstPinIsPin(order, Injected(user, allowNet), command);
    assert MARKER in order && Pins(Injected(user, allowNet), MARKER, command);
  }

  /** A pin for the key "tool" beside no entry for the marker: in some order a wrapped server
      follows the pin, in another the key. */
  lemma DifferingPin(command: string, allowNet: bool)
    requires Occurs(MARKER, command) && Occurs("tool", command)
    ensures var overrides := Injected(map["tool" := Some(!allowNet)], allowNet);
            && IsOrder(["tool", MARKER], overrides) && FirstPin(["tool", MARKER], overrides, command) == Some(!allowNet)
            && IsOrder([MARKER, "tool"], overrides) && FirstPin([MARKER, "tool"], overrides, command) == Some(allowNet)
            && var user := map["tool" := Some(!allowNet)];
               HasNetwork(Sandbox(true, true), ["tool", MARKER], user, command, allowNet) == !allowNet
  {
    var user := map["tool" := Some(!allowNet)];
    assert |MARKER| != |"tool"|;
    assert Injected(user, allowNet) == user[MARKER := Some(allowNet)];
    assert ["tool", MARKER][0] == "tool" && [MARKER, "tool"][0] == MARKER;
    assert ["tool", MARKER][1] == MARKER && [MARKER, "tool"][1] == "tool";
  }

  /** Without any override, a server whose key denies network has it when nothing wraps it, because
      sandboxing is off or the wrapper is missing. */
  lemma UnwrappedHasNetwork(sandbox: Sandbox, command: string)
    requires !sandbox.enabled || !sandbox.wrapperFound
    ensures IsOrder([MARKER], Injected(map[], false)) && HasNetwork(sandbox, [MARKER], map[], command, false)
  {
    assert Injected(map[], false) == map[MARKER := Some(false)];
    assert [MARKER][0] == MARKER;
  }

  lemma {:induction false} AnyOrder(overrides: Overrides) returns (order: seq<string>)
    ensures IsOrder(order, overrides)
    decreases |overrides|
  {
    if |overrides| == 0 {
      order := [];
    } else {
      var k :| k in overrides;
      var rest := AnyOrder(overrides - {k});
      OrderCons(k, rest, overrides);
      order := [k] + rest;
    }
  }

  lemma OrderCons(key: string, rest: seq<string>, overrides: Overrides)
    requires key in overrides && IsOrder(rest, overrides - {key})
    ensures IsOrder([key] + rest, overrides)
  {
    var order := [key] + rest;
    assert order[0] == key && forall i | 0 < i < |order| :: order[i] == rest[i - 1];
    forall k <- overrides ensures k in order {
      if k != key {
        assert k in overrides - {key};
        assert k in rest;
      }
    }
  }
}
