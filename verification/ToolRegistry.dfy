/** The routing tables a host builds from its configured tool endpoints, and the way a call finds
    its server. What the wire answered for an endpoint is part of the endpoint here. */
module ToolRegistry {
  import opened Wrappers
  import Resources

  /** `spec` stands for the description and input schema of the advertised tool. */
  datatype Tool = Tool(name: string, spec: string)

  datatype Outcome = Broken(reason: string) | Listed(tools: seq<Tool>)

  /** `bash` says that the command path contains the bash marker. */
  datatype Endpoint = Endpoint(name: string, bash: bool, outcome: Outcome)

  datatype ConnectState = Connected | Failed(reason: string)

  datatype Status = Status(name: string, state: ConnectState)

  /** An eager server, with the position of the endpoint it serves. */
  datatype Server = Server(name: string, endpoint: nat)

  datatype LazyTools = LazyTools(endpoint: nat, toolNames: set<string>)

  datatype Registry = Registry(
    eagerServers: seq<Server>,
    routes: map<string, nat>,
    defs: seq<Tool>,
    statuses: seq<Status>,
    lazyBash: Option<LazyTools>)

  const READ_RESOURCE := Tool("read_resource", "Fetch the contents of an MCP resource by URI.")

  const MULTIPLE_BASH := "multiple tool-bash endpoints configured; only one is supported"

  // ---- what a list of endpoints means -----------------------------------------

  function Names(tools: seq<Tool>): set<string> { set t <- tools :: t.name }

  /** Some endpoint is a bash endpoint that came up. */
  predicate HasBash(eps: seq<Endpoint>) { exists e <- eps :: e.bash && e.outcome.Listed? }

  /** Endpoint `i` came up and was kept: a second bash endpoint is refused. */
  predicate Up(eps: seq<Endpoint>, i: nat)
    requires i < |eps|
  {
    eps[i].outcome.Listed? && !(eps[i].bash && HasBash(eps[..i]))
  }

  predicate Advertises(eps: seq<Endpoint>, i: nat, name: string)
    requires i < |eps|
  {
    Up(eps, i) && name in Names(eps[i].outcome.tools)
  }

  /** Endpoint `i` is the first connected one that advertises `name`. */
  predicate Owns(eps: seq<Endpoint>, i: nat, name: string)
    requires i < |eps|
  {
    Advertises(eps, i, name) && forall j: nat | j < i :: !Advertises(eps, j, name)
  }

  /** The tools of a list that are new: not taken before and not listed earlier. */
  function Fresh(tools: seq<Tool>, taken: set<string>): seq<Tool> {
    if tools == [] then []
    else
      var front := tools[..|tools| - 1];
      var t := tools[|tools| - 1];
      Fresh(front, taken) + if t.name in taken || t.name in Names(front) then [] else [t]
  }

  /** Every name advertised by a connected endpoint. */
  function Owned(eps: seq<Endpoint>): set<string> {
    if eps == [] then {}
    else
      var n := |eps| - 1;
      Owned(eps[..n]) + if Up(eps, n) then Names(eps[n].outcome.tools) else {}
  }

  /** The definitions shown to the model, in endpoint order, before the synthetic one. */
  function Surface(eps: seq<Endpoint>): seq<Tool> {
    if eps == [] then []
    else
      var n := |eps| - 1;
      Surface(eps[..n]) + if Up(eps, n) then Fresh(eps[n].outcome.tools, Owned(eps[..n])) else []
  }

  function Servers(eps: seq<Endpoint>): seq<Server> {
    if eps == [] then []
    else
      var n := |eps| - 1;
      Servers(eps[..n]) + if Up(eps, n) && !eps[n].bash then [Server(eps[n].name, n)] else []
  }

  function StatusOf(eps: seq<Endpoint>, i: nat): Status
    requires i < |eps|
  {
    Status(eps[i].name,
           if eps[i].bash && HasBash(eps[..i]) then Failed(MULTIPLE_BASH)
           else if eps[i].outcome.Broken? then Failed(eps[i].outcome.reason)
           else Connected)
  }

  // ---- the tables --------------------------------------------------------------------

  ghost predicate RouteOk(eps: seq<Endpoint>, servers: seq<Server>, routes: map<string, nat>, n: string)
    requires n in routes
  {
    && routes[n] < |servers| && servers[routes[n]].endpoint < |eps|
    && !eps[servers[routes[n]].endpoint].bash && Owns(eps, servers[routes[n]].endpoint, n)
  }

  /** Each owned name is routed exactly one way, to its owner. */
  ghost predicate Routed(eps: seq<Endpoint>, servers: seq<Server>, routes: map<string, nat>, slot: Option<LazyTools>) {
    var lazy := if slot.Some? then slot.value.toolNames else {};
    && routes.Keys + lazy == Owned(eps)
    && routes.Keys !! lazy
    && (forall n <- routes :: RouteOk(eps, servers, routes, n))
    && (slot.Some? ==> slot.value.endpoint < |eps| && eps[slot.value.endpoint].bash && Up(eps, slot.value.endpoint))
    && (forall n <- lazy :: Owns(eps, slot.value.endpoint, n))
  }

  ghost predicate Built(eps: seq<Endpoint>, r: Registry) {
    && r.eagerServers == Servers(eps)
    && r.statuses == seq(|eps|, i requires 0 <= i < |eps| => StatusOf(eps, i))
    && r.defs == Surface(eps) + [READ_RESOURCE]
    && (r.lazyBash.Some? <==> HasBash(eps))
    && Routed(eps, r.eagerServers, r.routes, r.lazyBash)
  }

  /** Registers the tools of an eager server that will get index `idx`. */
  method RegisterEager(tools: seq<Tool>, owner: string, idx: nat, owners0: map<string, string>,
                       routes0: map<string, nat>, defs0: seq<Tool>)
    returns (owners: map<string, string>, routes: map<string, nat>, defs: seq<Tool>)
    ensures owners.Keys == owners0.Keys + Names(tools)
    ensures defs == defs0 + Fresh(tools, owners0.Keys)
    ensures routes.Keys == routes0.Keys + (Names(tools) - owners0.Keys)
    ensures forall n <- routes :: routes[n] == if n in Names(tools) - owners0.Keys then idx else routes0[n]
  {
    hide Names, Fresh;
    NoTools(owners0.Keys);
    owners, routes, defs := owners0, routes0, defs0;
    var seenHere: set<string> := {};
    for k := 0 to |tools|
      invariant seenHere == Names(tools[..k])
      invariant owners.Keys == owners0.Keys + seenHere
      invariant defs == defs0 + Fresh(tools[..k], owners0.Keys)
      invariant routes.Keys == routes0.Keys + (seenHere - owners0.Keys)
      invariant forall n <- routes :: routes[n] == if n in seenHere - owners0.Keys then idx else routes0[n]
    {
      var t := tools[k];
      NextTool(tools, k, owners0.Keys);
      if t.name in seenHere {
        continue;
      }
      seenHere := seenHere + {t.name};
      if t.name in owners {
        continue;
      }
      owners := owners[t.name := owner];
      routes := routes[t.name := idx];
      defs := defs + [t];
    }
    assert tools[..|tools|] == tools;
  }

  /** Registers the tools the bash probe listed; names owned already are taken out again. */
  method RegisterBash(tools: seq<Tool>, owner: string, owners0: map<string, string>, defs0: seq<Tool>)
    returns (owners: map<string, string>, toolNames: set<string>, defs: seq<Tool>)
    ensures owners.Keys == owners0.Keys + Names(tools)
    ensures defs == defs0 + Fresh(tools, owners0.Keys)
    ensures toolNames == Names(tools) - owners0.Keys
  {
    hide Names, Fresh;
    NoTools(owners0.Keys);
    owners, toolNames, defs := owners0, {}, defs0;
    for k := 0 to |tools|
      invariant toolNames == Names(tools[..k]) - owners0.Keys
      invariant owners.Keys == owners0.Keys + Names(tools[..k])
      invariant defs == defs0 + Fresh(tools[..k], owners0.Keys)
    {
      var t := tools[k];
      NextTool(tools, k, owners0.Keys);
      if t.name in toolNames {
        continue;
      }
      toolNames := toolNames + {t.name};
      if t.name in owners {
        toolNames := toolNames - {t.name};
        continue;
      }
      owners := owners[t.name := owner];
      defs := defs + [t];
    }
    assert tools[..|tools|] == tools;
  }

  lemma NoTools(taken: set<string>)
    ensures Names([]) == {} && Fresh([], taken) == []
  {}

  lemma NextTool(tools: seq<Tool>, k: nat, taken: set<string>)
    requires k < |tools|
    ensures Names(tools[..k + 1]) == Names(tools[..k]) + {tools[k].name}
    ensures Fresh(tools[..k + 1], taken) ==
            Fresh(tools[..k], taken) +
            if tools[k].name in taken || tools[k].name in Names(tools[..k]) then [] else [tools[k]]
  {
    assert tools[..k + 1][..k] == tools[..k];
    NamesSnoc(tools[..k], tools[k]);
    assert tools[..k + 1] == tools[..k] + [tools[k]];
  }

  lemma NamesSnoc(tools: seq<Tool>, t: Tool)
    ensures Names(tools + [t]) == Names(tools) + {t.name}
  {
    assert forall x <- tools :: x in tools + [t];
    assert t in tools + [t];
  }

  method Connect(eps: seq<Endpoint>) returns (r: Registry)
    ensures Built(eps, r)
  {
    hide Owned, Surface, Servers, Routed, HasBash;
    NoEndpoints();
    var eagerServers: seq<Server> := [];
    var routes: map<string, nat> := map[];
    var defs: seq<Tool> := [];
    var statuses: seq<Status> := [];
    var lazyBash: Option<LazyTools> := None;
    var toolOwners: map<string, string> := map[];
    for i := 0 to |eps|
      invariant eagerServers == Servers(eps[..i])
      invariant statuses == seq(i, j requires 0 <= j < i => StatusOf(eps[..i], j))
      invariant defs == Surface(eps[..i])
      invariant lazyBash.Some? <==> HasBash(eps[..i])
      invariant toolOwners.Keys == Owned(eps[..i])
      invariant Routed(eps[..i], eagerServers, routes, lazyBash)
    {
      var ep := eps[i];
      ghost var before, now := eps[..i], eps[..i + 1];
      assert now == before + [ep];
      StatusesSnoc(before, ep);
      HasBashSnoc(before, ep);
      OwnedSnoc(before, ep);
      TablesSnoc(before, ep);
      if ep.bash && lazyBash.Some? {
        statuses := statuses + [Status(ep.name, Failed(MULTIPLE_BASH))];
        RoutedSkip(before, ep, eagerServers, routes, lazyBash);
        continue;
      }
      match ep.outcome {
        case Broken(reason) =>
          statuses := statuses + [Status(ep.name, Failed(reason))];
          RoutedSkip(before, ep, eagerServers, routes, lazyBash);
        case Listed(tools) =>
          if ep.bash {
            var toolNames;
            toolOwners, toolNames, defs := RegisterBash(tools, ep.name, toolOwners, defs);
            RoutedBash(before, ep, eagerServers, routes, toolNames);
            lazyBash := Some(LazyTools(i, toolNames));
          } else {
            ghost var routes0 := routes;
            toolOwners, routes, defs := RegisterEager(tools, ep.name, |eagerServers|, toolOwners, routes, defs);
            RoutedEager(before, ep, eagerServers, routes0, routes, lazyBash);
            eagerServers := eagerServers + [Server(ep.name, i)];
          }
          statuses := statuses + [Status(ep.name, Connected)];
      }
    }
    assert eps[..|eps|] == eps;
    defs := defs + [READ_RESOURCE];
    r := Registry(eagerServers, routes, defs, statuses, lazyBash);
  }

  // ---- one more endpoint ---------------------------------------------------------------

  lemma NoEndpoints()
    ensures Owned([]) == {} && Surface([]) == [] && Servers([]) == [] && !HasBash([]) && Routed([], [], map[], None)
  {}

  lemma TablesSnoc(eps: seq<Endpoint>, ep: Endpoint)
    ensures Up(eps + [ep], |eps|) <==> ep.outcome.Listed? && !(ep.bash && HasBash(eps))
    ensures Surface(eps + [ep]) ==
            Surface(eps) + if Up(eps + [ep], |eps|) then Fresh(ep.outcome.tools, Owned(eps)) else []
    ensures Servers(eps + [ep]) ==
            Servers(eps) + if Up(eps + [ep], |eps|) && !ep.bash then [Server(ep.name, |eps|)] else []
    ensures StatusOf(eps + [ep], |eps|) ==
            Status(ep.name, if ep.bash && HasBash(eps) then Failed(MULTIPLE_BASH)
                            else if ep.outcome.Broken? then Failed(ep.outcome.reason) else Connected)
  {
    assert (eps + [ep])[..|eps|] == eps;
  }

  lemma UpStable(eps: seq<Endpoint>, ep: Endpoint, i: nat)
    requires i < |eps|
    ensures Up(eps + [ep], i) == Up(eps, i)
  {
    assert (eps + [ep])[..i] == eps[..i];
  }

  lemma OwnsStable(eps: seq<Endpoint>, ep: Endpoint, i: nat, name: string)
    requires i < |eps|
    ensures Owns(eps + [ep], i, name) == Owns(eps, i, name)
  {
    hide Up;
    UpStable(eps, ep, i);
    forall j: nat | j < i ensures Advertises(eps + [ep], j, name) == Advertises(eps, j, name) {
      UpStable(eps, ep, j);
    }
    if Owns(eps, i, name) {
      assert forall j: nat | j < i :: !Advertises(eps, j, name);
    }
    if Owns(eps + [ep], i, name) {
      assert forall j: nat | j < i :: !Advertises(eps + [ep], j, name);
    }
  }

  lemma HasBashSnoc(eps: seq<Endpoint>, ep: Endpoint)
    ensures HasBash(eps + [ep]) <==> HasBash(eps) || (ep.bash && ep.outcome.Listed?)
  {
    assert forall e <- eps :: e in eps + [ep];
    assert ep in eps + [ep];
  }

  lemma StatusesSnoc(eps: seq<Endpoint>, ep: Endpoint)
    ensures forall j: nat | j < |eps| :: StatusOf(eps + [ep], j) == StatusOf(eps, j)
  {
    forall j: nat | j < |eps| ensures StatusOf(eps + [ep], j) == StatusOf(eps, j) {
      assert (eps + [ep])[..j] == eps[..j];
    }
  }

  /** A name is owned exactly when some connected endpoint advertises it. */
  lemma {:induction false} OwnedIff(eps: seq<Endpoint>, name: string)
    ensures name in Owned(eps) <==> exists i: nat :: i < |eps| && Advertises(eps, i, name)
    decreases |eps|
  {
    if eps != [] {
      var n := |eps| - 1;
      OwnedIff(eps[..n], name);
      assert eps == eps[..n] + [eps[n]];
      if i: nat :| i < n && Advertises(eps[..n], i, name) {
        UpStable(eps[..n], eps[n], i);
        assert Advertises(eps, i, name);
      }
      if i: nat :| i < |eps| && Advertises(eps, i, name) {
        if i < n {
          UpStable(eps[..n], eps[n], i);
          assert Advertises(eps[..n], i, name);
        }
      }
      if Up(eps, n) && name in Names(eps[n].outcome.tools) {
        assert Advertises(eps, n, name);
      }
    }
  }

  lemma OwnedSnoc(eps: seq<Endpoint>, ep: Endpoint)
    ensures Owned(eps + [ep]) == Owned(eps) + if Up(eps + [ep], |eps|) then Names(ep.outcome.tools) else {}
  {
    assert (eps + [ep])[..|eps|] == eps;
  }

  lemma RoutedSkip(
    eps: seq<Endpoint>, ep: Endpoint, servers: seq<Server>, routes: map<string, nat>, slot: Option<LazyTools>)
    requires Routed(eps, servers, routes, slot) && !Up(eps + [ep], |eps|)
    ensures Routed(eps + [ep], servers, routes, slot)
  {
    hide Owns, Up, Owned;
    OwnedSnoc(eps, ep);
    StillRouted(eps, ep, servers, servers, routes, slot);
  }

  /** Names routed so far keep their owner when an endpoint and maybe its server are added. */
  lemma StillRouted(eps: seq<Endpoint>, ep: Endpoint, servers: seq<Server>, servers': seq<Server>,
                    routes: map<string, nat>, slot: Option<LazyTools>)
    requires Routed(eps, servers, routes, slot) && servers <= servers'
    ensures forall n <- routes ::
              && routes[n] < |servers'| && servers'[routes[n]].endpoint < |eps|
              && !eps[servers'[routes[n]].endpoint].bash && Owns(eps + [ep], servers'[routes[n]].endpoint, n)
    ensures slot.Some? ==>
              && slot.value.endpoint < |eps| && eps[slot.value.endpoint].bash && Up(eps + [ep], slot.value.endpoint)
              && forall n <- slot.value.toolNames :: Owns(eps + [ep], slot.value.endpoint, n)
  {
    hide Owns, Up, Owned;
    forall n <- routes ensures Owns(eps + [ep], servers'[routes[n]].endpoint, n) {
      assert servers'[routes[n]] == servers[routes[n]];
      OwnsStable(eps, ep, servers[routes[n]].endpoint, n);
    }
    if slot.Some? {
      UpStable(eps, ep, slot.value.endpoint);
      forall n <- slot.value.toolNames ensures Owns(eps + [ep], slot.value.endpoint, n) {
        OwnsStable(eps, ep, slot.value.endpoint, n);
      }
    }
  }

  lemma NewOwner(eps: seq<Endpoint>, ep: Endpoint, name: string)
    requires Up(eps + [ep], |eps|) && name in Names(ep.outcome.tools) - Owned(eps)
    ensures Owns(eps + [ep], |eps|, name)
  {
    hide Up, Owned;
    OwnedIff(eps, name);
    forall j: nat | j < |eps| ensures !Advertises(eps + [ep], j, name) {
      UpStable(eps, ep, j);
      assert !Advertises(eps, j, name);
    }
  }

  lemma RoutedBash(
    eps: seq<Endpoint>, ep: Endpoint, servers: seq<Server>, routes: map<string, nat>, toolNames: set<string>)
    requires Routed(eps, servers, routes, None) && ep.bash && ep.outcome.Listed? && Up(eps + [ep], |eps|)
    requires toolNames == Names(ep.outcome.tools) - Owned(eps)
    ensures Routed(eps + [ep], servers, routes, Some(LazyTools(|eps|, toolNames)))
  {
    hide Owns, Up, Owned;
    OwnedSnoc(eps, ep);
    StillRouted(eps, ep, servers, servers, routes, None);
    forall n <- toolNames ensures Owns(eps + [ep], |eps|, n) { NewOwner(eps, ep, n); }
  }

  lemma Split(routed: set<string>, lazy: set<string>, owned: set<string>, names: set<string>)
    requires routed + lazy == owned && routed !! lazy
    ensures routed + (names - owned) + lazy == owned + names && routed + (names - owned) !! lazy
  {}

  lemma RoutedEager(eps: seq<Endpoint>, ep: Endpoint, servers: seq<Server>, routes0: map<string, nat>,
                    routes: map<string, nat>, slot: Option<LazyTools>)
    requires Routed(eps, servers, routes0, slot) && !ep.bash && ep.outcome.Listed? && Up(eps + [ep], |eps|)
    requires routes.Keys == routes0.Keys + (Names(ep.outcome.tools) - Owned(eps))
    requires forall n <- routes ::
               routes[n] == if n in Names(ep.outcome.tools) - Owned(eps) then |servers| else routes0[n]
    ensures Routed(eps + [ep], servers + [Server(ep.name, |eps|)], routes, slot)
  {
    hide Owns, Up, Owned, Names, Routed;
    var servers' := servers + [Server(ep.name, |eps|)];
    var lazy := if slot.Some? then slot.value.toolNames else {};
    RoutedSets(eps, servers, routes0, slot);
    OwnedSnoc(eps, ep);
    Split(routes0.Keys, lazy, Owned(eps), Names(ep.outcome.tools));
    StillRouted(eps, ep, servers, servers', routes0, slot);
    forall n <- routes ensures RouteOk(eps + [ep], servers', routes, n) {
      if n in Names(ep.outcome.tools) - Owned(eps) {
        NewOwner(eps, ep, n);
      } else {
        assert n in routes0 && routes[n] == routes0[n];
      }
    }
    RoutedFrom(eps, ep, servers', routes, slot);
  }

  lemma RoutedSets(eps: seq<Endpoint>, servers: seq<Server>, routes: map<string, nat>, slot: Option<LazyTools>)
    requires Routed(eps, servers, routes, slot)
    ensures var lazy := if slot.Some? then slot.value.toolNames else {};
            routes.Keys + lazy == Owned(eps) && routes.Keys !! lazy
  {}

  lemma RoutedFrom(
    eps: seq<Endpoint>, ep: Endpoint, servers: seq<Server>, routes: map<string, nat>, slot: Option<LazyTools>)
    requires var lazy := if slot.Some? then slot.value.toolNames else {};
             routes.Keys + lazy == Owned(eps + [ep]) && routes.Keys !! lazy
    requires forall n <- routes :: RouteOk(eps + [ep], servers, routes, n)
    requires slot.Some? ==>
               && slot.value.endpoint < |eps| && eps[slot.value.endpoint].bash && Up(eps + [ep], slot.value.endpoint)
               && forall n <- slot.value.toolNames :: Owns(eps + [ep], slot.value.endpoint, n)
    ensures Routed(eps + [ep], servers, routes, slot)
  {
    hide Owns, Up, Owned;
  }

  // ---- the definitions -------------------------------------------------------------

  predicate Distinct(tools: seq<Tool>) {
    forall i, j | 0 <= i < j < |tools| :: tools[i].name != tools[j].name
  }

  lemma {:induction false} FreshNames(tools: seq<Tool>, taken: set<string>)
    ensures Names(Fresh(tools, taken)) == Names(tools) - taken && Distinct(Fresh(tools, taken))
    decreases |tools|
  {
    hide Names, Fresh;
    NoTools(taken);
    if tools != [] {
      var n := |tools| - 1;
      var found := Fresh(tools[..n], taken);
      FreshNames(tools[..n], taken);
      NextTool(tools, n, taken);
      assert tools[..n + 1] == tools;
      NamesSnoc(found, tools[n]);
      if tools[n].name !in taken && tools[n].name !in Names(tools[..n]) { DistinctSnoc(found, tools[n]); }
      assert found + [] == found;
    }
  }

  lemma DistinctSnoc(tools: seq<Tool>, t: Tool)
    requires Distinct(tools) && t.name !in Names(tools)
    ensures Distinct(tools + [t])
  {
    assert forall f <- tools :: f.name in Names(tools);
  }

  lemma NamesConcat(a: seq<Tool>, b: seq<Tool>)
    ensures Names(a + b) == Names(a) + Names(b)
  {
    assert forall x <- a :: x in a + b;
    assert forall x <- b :: x in a + b;
  }

  /** The definitions have one entry for each name some connected endpoint advertises, and no
      name twice. */
  lemma {:induction false} SurfaceIsOwned(eps: seq<Endpoint>)
    ensures Names(Surface(eps)) == Owned(eps) && Distinct(Surface(eps))
    decreases |eps|
  {
    if eps != [] {
      var n := |eps| - 1;
      SurfaceIsOwned(eps[..n]);
      if Up(eps, n) {
        var front, tail := Surface(eps[..n]), Fresh(eps[n].outcome.tools, Owned(eps[..n]));
        FreshNames(eps[n].outcome.tools, Owned(eps[..n]));
        NamesConcat(front, tail);
        assert forall t <- front :: t.name in Names(front);
        assert forall t <- tail :: t.name in Names(tail);
      }
    }
  }

  /** The first tool of that name in the list. */
  predicate FirstNamed(tools: seq<Tool>, k: nat) {
    k < |tools| && forall j: nat | j < k :: tools[j].name != tools[k].name
  }

  lemma {:induction false} FreshIsFirst(tools: seq<Tool>, taken: set<string>, t: Tool)
    requires t in Fresh(tools, taken)
    ensures exists k: nat :: FirstNamed(tools, k) && tools[k] == t
    decreases |tools|
  {
    var front := tools[..|tools| - 1];
    if t in Fresh(front, taken) {
      FreshIsFirst(front, taken, t);
      var k: nat :| FirstNamed(front, k) && front[k] == t;
      assert FirstNamed(tools, k) && tools[k] == t;
    } else {
      var k := |tools| - 1;
      forall j: nat | j < k ensures tools[j].name != tools[k].name {
        assert front[j] in front;
      }
      assert FirstNamed(tools, k);
    }
  }

  /** Each definition is the first tool of its name in its owner's own list. */
  lemma {:induction false} SurfaceFromOwner(eps: seq<Endpoint>, t: Tool)
    requires t in Surface(eps)
    ensures exists i: nat, k: nat :: i < |eps| && Owns(eps, i, t.name) && FirstNamed(eps[i].outcome.tools, k)
                                     && eps[i].outcome.tools[k] == t
    decreases |eps|
  {
    var n := |eps| - 1;
    assert eps == eps[..n] + [eps[n]];
    if t in Surface(eps[..n]) {
      SurfaceFromOwner(eps[..n], t);
      var i: nat, k: nat :| i < n && Owns(eps[..n], i, t.name) && FirstNamed(eps[i].outcome.tools, k)
                            && eps[i].outcome.tools[k] == t;
      OwnsStable(eps[..n], eps[n], i, t.name);
    } else {
      FreshNames(eps[n].outcome.tools, Owned(eps[..n]));
      FreshIsFirst(eps[n].outcome.tools, Owned(eps[..n]), t);
      assert t.name in Names(Fresh(eps[n].outcome.tools, Owned(eps[..n])));
      NewOwner(eps[..n], eps[n], t.name);
    }
  }

  /** With the synthetic definition at the end, names are unique exactly when no connected endpoint
      advertises the synthetic name itself. */
  lemma DefsDistinctIff(eps: seq<Endpoint>, r: Registry)
    requires Built(eps, r)
    ensures Distinct(r.defs) <==> !exists i: nat :: i < |eps| && Advertises(eps, i, READ_RESOURCE.name)
  {
    hide Surface, Owned, Routed;
    SurfaceIsOwned(eps);
    OwnedIff(eps, READ_RESOURCE.name);
    var front := Surface(eps);
    if READ_RESOURCE.name in Names(front) {
      var k :| 0 <= k < |front| && front[k].name == READ_RESOURCE.name;
      assert r.defs[k].name == r.defs[|front|].name;
    } else {
      assert forall t <- front :: t.name in Names(front);
    }
  }

  /** All names the model is shown: these definitions and behind them those of the in-process tools,
      which have distinct names of their own. They are unique exactly when no connected endpoint
      advertises the synthetic name and no in-process tool has it or a name some endpoint advertises. */
  lemma ShownDistinctIff(eps: seq<Endpoint>, r: Registry, inProcess: seq<Tool>)
    requires Built(eps, r) && Distinct(inProcess)
    ensures Distinct(r.defs + inProcess) <==>
            && (!exists i: nat :: i < |eps| && Advertises(eps, i, READ_RESOURCE.name))
            && (forall t <- inProcess ::
                  t.name != READ_RESOURCE.name && !exists i: nat :: i < |eps| && Advertises(eps, i, t.name))
  {
    hide Surface, Owned, Routed, Advertises;
    DefsDistinctIff(eps, r);
    DistinctConcat(r.defs, inProcess);
    SurfaceIsOwned(eps);
    NamesSnoc(Surface(eps), READ_RESOURCE);
    forall t <- inProcess ensures t.name in Owned(eps) <==> exists i: nat :: i < |eps| && Advertises(eps, i, t.name) {
      OwnedIff(eps, t.name);
    }
  }

  lemma DistinctConcat(a: seq<Tool>, b: seq<Tool>)
    requires Distinct(b)
    ensures Distinct(a + b) <==> Distinct(a) && forall t <- b :: t.name !in Names(a)
  {
    var all := a + b;
    assert forall i | 0 <= i < |a| :: all[i] == a[i] && a[i].name in Names(a);
    assert forall i | |a| <= i < |all| :: all[i] == b[i - |a|] && b[i - |a|] in b;
    if Distinct(all) {
      forall t <- b ensures t.name !in Names(a) {
        var j :| 0 <= j < |b| && b[j] == t;
        assert all[|a| + j] == t;
        forall i | 0 <= i < |a| ensures a[i].name != t.name { assert all[i].name != all[|a| + j].name; }
      }
    }
  }

  /** An endpoint that advertises a tool named as the synthetic one: the model is shown the name twice,
      the registry would reach the endpoint, and the turn never does. */
  lemma ReadResourceTwice(name: string, spec: string, r: Registry)
    requires Built([Endpoint(name, false, Listed([Tool(READ_RESOURCE.name, spec)]))], r)
    ensures !Distinct(r.defs)
    ensures (forall n <- r.routes :: r.routes[n] < |r.eagerServers|)
            && CallTarget(r, {}, READ_RESOURCE.name) == Eager(0)
               && TurnTarget(r, {}, READ_RESOURCE.name) == ReadResource
  {
    hide Built;
    var tool := Tool(READ_RESOURCE.name, spec);
    var eps := [Endpoint(name, false, Listed([tool]))];
    assert tool in [tool] && READ_RESOURCE.name in Names([tool]);
    assert Advertises(eps, 0, READ_RESOURCE.name) && Owns(eps, 0, READ_RESOURCE.name);
    DefsDistinctIff(eps, r);
    CallTargetDefined(eps, r);
    CallReachesOwner(eps, r, {}, READ_RESOURCE.name, 0);
  }

  // ---- calls ----------------------------------------------------------------------------

  datatype Target = InProcess | ReadResource | Bash(endpoint: nat) | Eager(endpoint: nat) | Unknown

  /** Where a call ends up: the lazy slot is looked at first, then the routes. */
  method Call(r: Registry, inProcess: set<string>, name: string) returns (target: Target)
    requires forall n <- r.routes :: r.routes[n] < |r.eagerServers|
    ensures target == CallTarget(r, inProcess, name)
  {
    if name in inProcess {
      return InProcess;
    }
    if r.lazyBash.Some? && name in r.lazyBash.value.toolNames {
      return Bash(r.lazyBash.value.endpoint);
    }
    if name !in r.routes {
      return Unknown;
    }
    var idx := r.routes[name];
    target := Eager(r.eagerServers[idx].endpoint);
  }

  function CallTarget(r: Registry, inProcess: set<string>, name: string): Target
    requires forall n <- r.routes :: r.routes[n] < |r.eagerServers|
  {
    if name in inProcess then InProcess
    else if r.lazyBash.Some? && name in r.lazyBash.value.toolNames then Bash(r.lazyBash.value.endpoint)
    else if name in r.routes then Eager(r.eagerServers[r.routes[name]].endpoint)
    else Unknown
  }

  /** The turn loop answers the synthetic name itself before it asks the registry. */
  function TurnTarget(r: Registry, inProcess: set<string>, name: string): Target
    requires forall n <- r.routes :: r.routes[n] < |r.eagerServers|
  {
    if name == READ_RESOURCE.name then ReadResource else CallTarget(r, inProcess, name)
  }

  /** A call that is not taken by an in-process tool reaches endpoint `i` exactly when `i` is the
      first connected endpoint advertising the name, as bash or eagerly as `i` is configured. */
  lemma CallReachesOwner(eps: seq<Endpoint>, r: Registry, inProcess: set<string>, name: string, i: nat)
    requires Built(eps, r) && name !in inProcess && i < |eps|
    ensures var target := CallTarget(r, inProcess, name);
            && (Owns(eps, i, name) <==> target == if eps[i].bash then Bash(i) else Eager(i))
            && (target == Unknown <==> forall j: nat | j < |eps| :: !Advertises(eps, j, name))
  {
    hide Up, Owned, Surface, Servers;
    OwnedIff(eps, name);
    if r.lazyBash.Some? && name in r.lazyBash.value.toolNames {
      OneOwner(eps, r.lazyBash.value.endpoint, i, name);
    } else if name in r.routes {
      OneOwner(eps, r.eagerServers[r.routes[name]].endpoint, i, name);
    }
  }

  lemma OneOwner(eps: seq<Endpoint>, i: nat, j: nat, name: string)
    requires i < |eps| && j < |eps| && Owns(eps, i, name)
    ensures Owns(eps, j, name) <==> i == j
  {
    hide Up;
    if j < i { assert !Advertises(eps, j, name); }
  }

  /** In a turn, an advertised tool reaches its owner exactly when it does not carry the synthetic
      name: then the model is shown both definitions and every call goes to the synthetic one. */
  lemma TurnReachesOwnerIff(eps: seq<Endpoint>, r: Registry, inProcess: set<string>, name: string, i: nat)
    requires Built(eps, r) && name !in inProcess && i < |eps| && Owns(eps, i, name)
    ensures TurnTarget(r, inProcess, name) == (if eps[i].bash then Bash(i) else Eager(i)) <==>
            name != READ_RESOURCE.name
  {
    hide Built, Owns;
    CallTargetDefined(eps, r);
    CallReachesOwner(eps, r, inProcess, name, i);
  }

  lemma CallTargetDefined(eps: seq<Endpoint>, r: Registry)
    requires Built(eps, r)
    ensures forall n <- r.routes :: r.routes[n] < |r.eagerServers|
  {}

  // ---- resource reads ---------------------------------------------------------------------

  /** The first eager server with the owner's label. */
  method DispatchReadResource(r: Registry, owner: string) returns (server: Option<nat>)
    ensures server.None? ==> forall k | 0 <= k < |r.eagerServers| :: r.eagerServers[k].name != owner
    ensures server.Some? ==>
              && server.value < |r.eagerServers| && r.eagerServers[server.value].name == owner
              && forall k | 0 <= k < server.value :: r.eagerServers[k].name != owner
  {
    for k := 0 to |r.eagerServers|
      invariant forall j | 0 <= j < k :: r.eagerServers[j].name != owner
    {
      if r.eagerServers[k].name == owner {
        return Some(k);
      }
    }
    server := None;
  }

  /** The eager servers are the connected endpoints that are not bash, in order. */
  lemma {:induction false} ServersAre(eps: seq<Endpoint>)
    ensures forall s <- Servers(eps) ::
              && s.endpoint < |eps| && Up(eps, s.endpoint)
              && !eps[s.endpoint].bash && s.name == eps[s.endpoint].name
    ensures forall i: nat | i < |eps| && Up(eps, i) && !eps[i].bash :: Server(eps[i].name, i) in Servers(eps)
    ensures forall a, b | 0 <= a < b < |Servers(eps)| :: Servers(eps)[a].endpoint < Servers(eps)[b].endpoint
    decreases |eps|
  {
    if eps != [] {
      var n := |eps| - 1;
      ServersAre(eps[..n]);
      assert eps == eps[..n] + [eps[n]];
      forall i: nat | i < n ensures Up(eps, i) == Up(eps[..n], i) { UpStable(eps[..n], eps[n], i); }
      var front := Servers(eps[..n]);
      assert forall s <- front :: s.endpoint < n;
      forall s <- Servers(eps) ensures s in front || (s == Server(eps[n].name, n) && Up(eps, n) && !eps[n].bash) {}
    }
  }

  ghost predicate FirstLabelled(r: Registry, k: nat, owner: string) {
    k < |r.eagerServers| && r.eagerServers[k].name == owner && forall j | 0 <= j < k :: r.eagerServers[j].name != owner
  }

  /** Resources are marked with the label of the server that announced them, and labels are endpoint
      names. A read of a resource that connected eager endpoint `i` announced goes back to `i` exactly
      when no earlier eager endpoint that connected has the same name. */
  lemma ReadReachesAnnouncerIff(eps: seq<Endpoint>, r: Registry, i: nat)
    requires Built(eps, r) && i < |eps| && Up(eps, i) && !eps[i].bash
    ensures (exists k: nat :: FirstLabelled(r, k, eps[i].name) && r.eagerServers[k].endpoint == i) <==>
            !exists j: nat :: j < i && Up(eps, j) && !eps[j].bash && eps[j].name == eps[i].name
  {
    hide Up, Owned, Surface, Servers, Routed;
    ServersAre(eps);
    var servers := r.eagerServers;
    var k: nat :| k < |servers| && servers[k] == Server(eps[i].name, i);
    if j: nat :| j < i && Up(eps, j) && !eps[j].bash && eps[j].name == eps[i].name {
      var m: nat :| m < |servers| && servers[m] == Server(eps[j].name, j);
      assert servers[m].name == eps[i].name;
      forall k': nat | FirstLabelled(r, k', eps[i].name) ensures servers[k'].endpoint != i {
        assert k' <= m;
      }
    } else {
      forall m: nat | m < k ensures servers[m].name != eps[i].name {
        assert servers[m] in servers;
      }
      assert FirstLabelled(r, k, eps[i].name);
    }
  }

  /** Over any run of announcements and drains, a read of a resource last announced by connected eager
      endpoint `i` goes to `i` exactly when no earlier such endpoint has its name; whoever announced
      the resource before is not asked. */
  lemma ReadReachesLastAnnouncerIff(
    eps: seq<Endpoint>, r: Registry, events: seq<Resources.Event>, uri: string, k: nat, i: nat)
    requires Built(eps, r) && i < |eps| && Up(eps, i) && !eps[i].bash
    requires Resources.LastMark(events, k, uri) && events[k].owner == eps[i].name
    ensures uri in Resources.Run(events).entries
    ensures (exists m: nat ::
               FirstLabelled(r, m, Resources.Run(events).entries[uri].owner) && r.eagerServers[m].endpoint == i) <==>
            !exists j: nat :: j < i && Up(eps, j) && !eps[j].bash && eps[j].name == eps[i].name
  {
    hide Built, Up, Resources.Run, FirstLabelled;
    Resources.EntryIsLastMark(events, uri);
    assert Resources.Marks(events, k, uri);
    var n: nat :| Resources.LastMark(events, n, uri)
        && Resources.Run(events).entries[uri] == Resources.MarkSnapshot(events, n);
    assert n == k by { assert !(n < k) && !(k < n); }
    ReadReachesAnnouncerIff(eps, r, i);
  }
}
