/**
 The running MCP bridge: start-up, tool calls, the health monitor and shutdown, interleaved at the points where the
 source releases the lock on the connection map, together with the set of tool names the kernel has registered.
 */
module BridgeRunner {
  import opened Common
  import opened BridgeRouting

  datatype Health = Connected | Degraded

  datatype Conn = Conn(namespace: string, tools: seq<string>, health: Health)

  const META_TOOLS: set<string> := {"mcp/servers", "mcp/server-status", "mcp/tools"}

  /** The kernel's answer to a request; a request whose answer is lost has still been carried out. */
  datatype KernelReply = Accepted | Rejected | Lost

  datatype Response = MetaTool | NotFound | Unavailable | WrongNamespace
    | Forwarded(server: string, raw: string, ok: bool)

  /** A tool call between its two lock acquisitions, and after. */
  datatype Call = Routed(server: string, name: string) | Answered(name: string, response: Response)

  /** Where the health monitor is; `todo` are the servers left in the current round. */
  datatype Monitor =
    | Sleeping
    | AtServer(todo: seq<string>)
    | SawHealthy(server: string, healthy: bool, todo: seq<string>)
    | SawBoth(server: string, healthy: bool, degraded: bool, todo: seq<string>)
    | Checked(server: string, healthy: bool, degraded: bool, ok: bool, todo: seq<string>)
    | Reregistering(server: string, names: seq<string>, todo: seq<string>)
    | Deregistering(server: string, names: seq<string>, todo: seq<string>)
    | Aborted

  /** Shutdown asks the kernel once to remove every recorded name, then aborts the monitor. */
  datatype Shutdown = NotAsked | Refused | Removed

  /** The bridge, the kernel's registry and, as history, who put names in and took them out. */
  datatype State = State(
    conns: map<string, Conn>,
    initial: map<string, seq<string>>,  // raw names registered for each server at start
    recorded: seq<string>,              // the bridge's own list of what it registered
    kernel: set<string>,
    others: set<string>,                // registered before the bridge started
    added: set<string>,                 // put into the kernel by the bridge
    lost: set<string>,                  // those of them whose acknowledgement was lost
    removed: set<string>,               // taken out by the monitor
    calls: seq<Call>,
    monitor: Monitor,
    shutdown: Shutdown)

  function FullNames(namespace: string, tools: seq<string>): seq<string> {
    seq(|tools|, i requires 0 <= i < |tools| => namespace + tools[i])
  }

  function ToSet(names: seq<string>): set<string> {
    set n | n in names
  }

  function Namespaces(s: State): map<string, string> {
    map k | k in s.conns :: s.conns[k].namespace
  }

  // Start-up.

  datatype ServerStart =
    | ConnectFailed
    | DiscoverFailed
    | Discovered(tools: seq<string>, reply: KernelReply)

  datatype ServerConfig = ServerConfig(name: string, mount: Option<string>, outcome: ServerStart)

  function Fresh(others: set<string>): State {
    State(map[], map[], [], others, others, {}, {}, {}, [], Sleeping, NotAsked)
  }

  /** Ask the kernel to add names; an empty list is not sent at all. */
  function AddNames(s: State, names: seq<string>, reply: KernelReply): State {
    if names == [] || reply.Rejected? then s
    else
      var taken := s.(kernel := s.kernel + ToSet(names), added := s.added + ToSet(names));
      if reply.Lost? then taken.(lost := s.lost + ToSet(names)) else taken.(recorded := s.recorded + names)
  }

  function StartServer(s: State, c: ServerConfig): State {
    var ns := Namespace(c.name, c.mount);
    match c.outcome
    case ConnectFailed => s
    case DiscoverFailed => s.(conns := s.conns[c.name := Conn(ns, [], Degraded)], initial := s.initial[c.name := []])
    case Discovered(tools, reply) =>
      var asked := AddNames(s, FullNames(ns, tools), reply);
      if tools == [] || reply.Accepted?
      then asked.(conns := s.conns[c.name := Conn(ns, tools, Connected)], initial := s.initial[c.name := tools])
      else asked
  }

  function StartServers(s: State, servers: seq<ServerConfig>): State
    decreases |servers|
  {
    if servers == [] then s else StartServers(StartServer(s, servers[0]), servers[1..])
  }

  const META_ORDER: seq<string> := ["mcp/servers", "mcp/server-status", "mcp/tools"]

  function Start(others: set<string>, servers: seq<ServerConfig>, meta: KernelReply): State {
    AddNames(StartServers(Fresh(others), servers), META_ORDER, meta)
  }

  // Steps of the running bridge.

  datatype Step =
    | RouteCall(name: string, order: seq<string>)
    | FinishCall(call: nat, ok: bool)
    | Tick(order: seq<string>)
    | LookHealthy
    | LookDegraded
    | Check(ok: bool, tools: seq<string>)
    | Decide
    | Reregister(reply: KernelReply)
    | Deregister(applied: bool)
    | ShutdownRemove(applied: bool)
    | Abort

  ghost predicate Enabled(s: State, step: Step) {
    match step
    case RouteCall(_, order) => Enumerates(order, s.conns.Keys)
    case FinishCall(c, _) => c < |s.calls| && s.calls[c].Routed?
    case Tick(order) => s.monitor.Sleeping? && Enumerates(order, s.conns.Keys)
    case LookHealthy => s.monitor.AtServer?
    case LookDegraded => s.monitor.SawHealthy?
    case Check(_, _) => s.monitor.SawBoth?
    case Decide => s.monitor.Checked?
    case Reregister(_) => s.monitor.Reregistering?
    case Deregister(_) => s.monitor.Deregistering?
    case ShutdownRemove(_) => s.shutdown.NotAsked?
    case Abort => !s.shutdown.NotAsked?
  }

  predicate IsHealthy(s: State, server: string) {
    server in s.conns && s.conns[server].health.Connected?
  }

  predicate IsDegraded(s: State, server: string) {
    server in s.conns && s.conns[server].health.Degraded?
  }

  function SetHealth(s: State, server: string, health: Health): State
    requires server in s.conns
  {
    s.(conns := s.conns[server := s.conns[server].(health := health)])
  }

  /** A degraded connection fails without asking; a connected one becomes degraded when the call fails. */
  function Forward(s: State, server: string, name: string, ok: bool): (State, Response)
    requires server in s.conns && IsPrefix(s.conns[server].namespace, name)
  {
    var raw := name[|s.conns[server].namespace|..];
    if s.conns[server].health.Degraded? then (s, Forwarded(server, raw, false))
    else (if ok then s else SetHealth(s, server, Degraded), Forwarded(server, raw, ok))
  }

  ghost function Finish(s: State, c: nat, ok: bool): State
    requires c < |s.calls| && s.calls[c].Routed?
  {
    var name, server := s.calls[c].name, s.calls[c].server;
    if server !in s.conns then s.(calls := s.calls[c := Answered(name, Unavailable)])
    else if !IsPrefix(s.conns[server].namespace, name) then s.(calls := s.calls[c := Answered(name, WrongNamespace)])
    else
      var (t, response) := Forward(s, server, name, ok);
      t.(calls := s.calls[c := Answered(name, response)])
  }

  /** `tools/list` as a health check: new tools are cached on success, the connection degrades on failure. */
  function Discover(s: State, server: string, ok: bool, tools: seq<string>): (State, bool) {
    if server !in s.conns then (s, true)
    else if s.conns[server].health.Degraded? then (s, false)
    else if ok then (s.(conns := s.conns[server := s.conns[server].(tools := tools)]), true)
    else (SetHealth(s, server, Degraded), false)
  }

  function CachedNames(s: State, server: string): seq<string> {
    if server in s.conns then FullNames(s.conns[server].namespace, s.conns[server].tools) else []
  }

  ghost function Apply(s: State, step: Step): State
    requires Enabled(s, step)
  {
    match step
    case RouteCall(name, order) =>
      if name in META_TOOLS then s.(calls := s.calls + [Answered(name, MetaTool)])
      else
        var owner := Route(Namespaces(s), order, name);
        s.(calls := s.calls + [if owner.None? then Answered(name, NotFound) else Routed(owner.value, name)])
    case FinishCall(c, ok) => Finish(s, c, ok)
    case Tick(order) => s.(monitor := AtServer(order))
    case LookHealthy =>
      var todo := s.monitor.todo;
      if todo == [] then s.(monitor := Sleeping)
      else s.(monitor := SawHealthy(todo[0], IsHealthy(s, todo[0]), todo[1..]))
    case LookDegraded =>
      var m := s.monitor;
      s.(monitor := SawBoth(m.server, m.healthy, IsDegraded(s, m.server), m.todo))
    case Check(ok, tools) =>
      var m := s.monitor;
      var (t, result) := Discover(s, m.server, ok, tools);
      t.(monitor := Checked(m.server, m.healthy, m.degraded, result, m.todo))
    case Decide =>
      var m := s.monitor;
      if m.ok && m.degraded && m.server in s.conns
      then s.(monitor := Reregistering(m.server, CachedNames(s, m.server), m.todo))
      else if !m.ok && m.healthy then s.(monitor := Deregistering(m.server, CachedNames(s, m.server), m.todo))
      else s.(monitor := AtServer(m.todo))
    case Reregister(reply) =>
      // the names are not recorded: the bridge's list is owned by the handle that shuts it down
      AddNames(s, s.monitor.names, reply).(recorded := s.recorded, monitor := AtServer(s.monitor.todo))
    case Deregister(applied) =>
      var names := ToSet(s.monitor.names);
      (if applied then s.(kernel := s.kernel - names, removed := s.removed + names) else s)
        .(monitor := AtServer(s.monitor.todo))
    case ShutdownRemove(applied) =>
      if applied then s.(kernel := s.kernel - ToSet(s.recorded), shutdown := Removed) else s.(shutdown := Refused)
    case Abort => s.(monitor := Aborted)
  }

  ghost predicate IsRun(first: State, states: seq<State>, steps: seq<Step>) {
    && |states| == |steps| + 1
    && states[0] == first
    && forall i :: 0 <= i < |steps| ==> Enabled(states[i], steps[i]) && states[i + 1] == Apply(states[i], steps[i])
  }

  // The inductive invariant.

  ghost predicate KernelAccounted(s: State) {
    && s.kernel == (s.others + s.added) - s.removed - (if s.shutdown.Removed? then ToSet(s.recorded) else {})
    && s.lost <= s.added <= ToSet(s.recorded) + s.lost
  }

  /** The monitor only ever takes out names in the namespace of a server that is degraded. */
  ghost predicate RemovedExplained(s: State) {
    forall n :: n in s.removed ==> exists k :: IsDegraded(s, k) && IsPrefix(s.conns[k].namespace, n)
  }

  ghost predicate InitialRegistered(s: State) {
    && s.initial.Keys == s.conns.Keys
    && forall k, raw :: k in s.conns && raw in s.initial[k] ==> s.conns[k].namespace + raw in s.added
  }

  ghost predicate Known(s: State, todo: seq<string>) {
    forall i :: 0 <= i < |todo| ==> todo[i] in s.conns
  }

  ghost predicate MonitorInv(s: State) {
    match s.monitor
    case Sleeping => true
    case AtServer(todo) => Known(s, todo)
    case SawHealthy(server, _, todo) => server in s.conns && Known(s, todo)
    case SawBoth(server, _, degraded, todo) => server in s.conns && Known(s, todo)
      && (degraded ==> IsDegraded(s, server))
    case Checked(server, _, degraded, ok, todo) =>
      server in s.conns && Known(s, todo) && (degraded ==> !ok) && (!ok ==> IsDegraded(s, server))
    case Reregistering(_, _, _) => false
    case Deregistering(server, names, todo) =>
      IsDegraded(s, server) && Known(s, todo) && names == CachedNames(s, server)
    case Aborted => true
  }

  ghost predicate CallInv(s: State, call: Call) {
    match call
    case Routed(server, name) => name !in META_TOOLS && Owns(Namespaces(s), server, name)
    case Answered(name, response) =>
      match response
      case MetaTool => name in META_TOOLS
      case NotFound => name !in META_TOOLS && forall k :: !Owns(Namespaces(s), k, name)
      case Unavailable => false
      case WrongNamespace => false
      case Forwarded(server, raw, _) =>
        name !in META_TOOLS && server in s.conns && name == s.conns[server].namespace + raw
  }

  ghost predicate CallsInv(s: State) {
    forall i :: 0 <= i < |s.calls| ==> CallInv(s, s.calls[i])
  }

  ghost predicate Inv(s: State) {
    KernelAccounted(s) && RemovedExplained(s) && InitialRegistered(s) && MonitorInv(s) && CallsInv(s)
  }

  /** What no step undoes. */
  ghost predicate Later(s: State, t: State) {
    && Namespaces(t) == Namespaces(s) && t.conns.Keys == s.conns.Keys
    && t.initial == s.initial && t.recorded == s.recorded && t.others == s.others
    && t.added == s.added && t.lost == s.lost && s.removed <= t.removed
    && (forall k :: IsDegraded(s, k) ==> IsDegraded(t, k) && t.conns[k].tools == s.conns[k].tools)
    && (s.shutdown.Removed? ==> t.shutdown.Removed?)
  }

  lemma FullNamesHavePrefix(ns: string, tools: seq<string>)
    ensures forall n :: n in FullNames(ns, tools) ==> IsPrefix(ns, n)
    ensures forall raw :: raw in tools ==> ns + raw in FullNames(ns, tools)
  {
    forall raw | raw in tools ensures ns + raw in FullNames(ns, tools) {
      var i :| 0 <= i < |tools| && tools[i] == raw;
      assert FullNames(ns, tools)[i] == ns + raw;
    }
  }

  lemma StartServerKeepsInv(s: State, c: ServerConfig)
    requires Inv(s) && s.removed == {} && s.calls == [] && s.monitor.Sleeping? && s.shutdown.NotAsked?
    ensures var t := StartServer(s, c);
      Inv(t) && t.removed == {} && t.calls == [] && t.monitor.Sleeping? && t.shutdown.NotAsked?
  {
    if c.outcome.Discovered? {
      FullNamesHavePrefix(Namespace(c.name, c.mount), c.outcome.tools);
    }
  }

  lemma {:induction false} StartServersKeepsInv(s: State, servers: seq<ServerConfig>)
    requires Inv(s) && s.removed == {} && s.calls == [] && s.monitor.Sleeping? && s.shutdown.NotAsked?
    ensures var t := StartServers(s, servers);
      Inv(t) && t.removed == {} && t.calls == [] && t.monitor.Sleeping? && t.shutdown.NotAsked?
    decreases |servers|
  {
    if servers != [] {
      StartServerKeepsInv(s, servers[0]);
      StartServersKeepsInv(StartServer(s, servers[0]), servers[1..]);
    }
  }

  lemma StartEstablishesInv(others: set<string>, servers: seq<ServerConfig>, meta: KernelReply)
    ensures Inv(Start(others, servers, meta))
  {
    StartServersKeepsInv(Fresh(others), servers);
  }

  /** Replacing one connection by one with the same namespace that is no healthier. */
  lemma ReplaceConnIsLater(s: State, server: string, c: Conn)
    requires server in s.conns && c.namespace == s.conns[server].namespace
    requires s.conns[server].health.Degraded? ==> c.health.Degraded? && c.tools == s.conns[server].tools
    ensures Later(s, s.(conns := s.conns[server := c]))
  {
    var t := s.(conns := s.conns[server := c]);
    assert t.conns.Keys == s.conns.Keys;
    assert Namespaces(t) == Namespaces(s);
  }

  /** Everything that `Later` looks at, apart from the connections. */
  ghost predicate SameHistory(s: State, t: State) {
    && t.initial == s.initial && t.recorded == s.recorded && t.others == s.others
    && t.added == s.added && t.lost == s.lost && s.removed <= t.removed
    && (s.shutdown.Removed? ==> t.shutdown.Removed?)
  }

  lemma LaterByConns(s: State, mid: State, t: State)
    requires Later(s, mid) && t.conns == mid.conns && SameHistory(s, t)
    ensures Later(s, t)
  {
    assert Namespaces(t) == Namespaces(mid);
    forall k | IsDegraded(s, k) ensures IsDegraded(t, k) && t.conns[k].tools == s.conns[k].tools {
      assert IsDegraded(mid, k);
    }
  }

  lemma FinishIsLater(s: State, c: nat, ok: bool)
    requires c < |s.calls| && s.calls[c].Routed?
    ensures Later(s, Finish(s, c, ok))
  {
    var server := s.calls[c].server;
    if server in s.conns {
      ReplaceConnIsLater(s, server, s.conns[server].(health := Degraded));
      var after := Finish(s, c, ok);
      LaterByConns(s, if after.conns == s.conns then s else SetHealth(s, server, Degraded), after);
    }
  }

  lemma CheckIsLater(s: State, server: string, ok: bool, tools: seq<string>)
    ensures Later(s, Discover(s, server, ok, tools).0)
  {
    if server in s.conns {
      ReplaceConnIsLater(s, server, s.conns[server].(health := Degraded));
      if s.conns[server].health.Connected? {
        ReplaceConnIsLater(s, server, s.conns[server].(tools := tools));
      }
    }
  }

  lemma StepIsLater(s: State, step: Step)
    requires MonitorInv(s) && Enabled(s, step)
    ensures Later(s, Apply(s, step))
  {
    if step.FinishCall? {
      FinishIsLater(s, step.call, step.ok);
    } else if step.Check? {
      CheckIsLater(s, s.monitor.server, step.ok, step.tools);
      LaterByConns(s, Discover(s, s.monitor.server, step.ok, step.tools).0, Apply(s, step));
    } else {
      LaterByConns(s, s, Apply(s, step));
    }
  }

  lemma LaterKeepsCalls(s: State, t: State)
    requires CallsInv(s) && Later(s, t) && t.calls == s.calls
    ensures CallsInv(t)
  {
    forall i | 0 <= i < |t.calls| ensures CallInv(t, t.calls[i]) {
      assert CallInv(s, s.calls[i]);
      if s.calls[i].Answered? && s.calls[i].response.Forwarded? {
        var server := s.calls[i].response.server;
        assert Namespaces(s)[server] == Namespaces(t)[server];
      }
    }
  }

  lemma LaterKeepsRemoved(s: State, t: State)
    requires RemovedExplained(s) && Later(s, t)
    ensures forall n :: n in s.removed ==> exists k :: IsDegraded(t, k) && IsPrefix(t.conns[k].namespace, n)
  {
    forall n | n in s.removed ensures exists k :: IsDegraded(t, k) && IsPrefix(t.conns[k].namespace, n) {
      var k :| IsDegraded(s, k) && IsPrefix(s.conns[k].namespace, n);
      assert Namespaces(s)[k] == Namespaces(t)[k];
      assert IsDegraded(t, k);
    }
  }

  lemma LaterKeepsInitial(s: State, t: State)
    requires InitialRegistered(s) && Later(s, t)
    ensures InitialRegistered(t)
  {
    forall k, raw | k in t.conns && raw in t.initial[k] ensures t.conns[k].namespace + raw in t.added {
      assert Namespaces(s)[k] == Namespaces(t)[k];
    }
  }

  /** Steps that leave the registry and its history alone. */
  ghost predicate SameAccounts(s: State, t: State) {
    && t.kernel == s.kernel && t.others == s.others && t.added == s.added && t.lost == s.lost
    && t.removed == s.removed && t.recorded == s.recorded && t.shutdown == s.shutdown
  }

  lemma RemovalKeepsAccounts(s: State, step: Step)
    requires KernelAccounted(s) && Enabled(s, step) && (step.Deregister? || step.ShutdownRemove?)
    ensures KernelAccounted(Apply(s, step))
  {
  }

  lemma OtherStepsKeepAccounts(s: State, step: Step)
    requires Enabled(s, step) && !step.Deregister? && !step.ShutdownRemove? && !step.Reregister?
    ensures SameAccounts(s, Apply(s, step))
  {
  }

  lemma StepKeepsAccounts(s: State, step: Step)
    requires KernelAccounted(s) && MonitorInv(s) && Enabled(s, step)
    ensures KernelAccounted(Apply(s, step))
  {
    if step.Deregister? || step.ShutdownRemove? {
      RemovalKeepsAccounts(s, step);
    } else {
      OtherStepsKeepAccounts(s, step);
    }
  }

  lemma StepKeepsRemoved(s: State, step: Step)
    requires Inv(s) && Enabled(s, step)
    ensures RemovedExplained(Apply(s, step))
  {
    var t := Apply(s, step);
    StepIsLater(s, step);
    LaterKeepsRemoved(s, t);
    if step.Deregister? && step.applied {
      var server := s.monitor.server;
      assert IsDegraded(t, server);
      FullNamesHavePrefix(s.conns[server].namespace, s.conns[server].tools);
    }
  }

  /** What the monitor knows stays true while others act. */
  lemma LaterKeepsMonitor(s: State, t: State)
    requires MonitorInv(s) && Later(s, t) && t.monitor == s.monitor
    ensures MonitorInv(t)
  {
    if s.monitor.Deregistering? {
      assert IsDegraded(t, s.monitor.server);
      assert Namespaces(s)[s.monitor.server] == Namespaces(t)[s.monitor.server];
    }
  }

  lemma CheckKeepsMonitor(s: State, ok: bool, tools: seq<string>)
    requires MonitorInv(s) && Enabled(s, Check(ok, tools))
    ensures MonitorInv(Apply(s, Check(ok, tools)))
  {
    CheckIsLater(s, s.monitor.server, ok, tools);
  }

  lemma LooksKeepMonitor(s: State, step: Step)
    requires MonitorInv(s) && Enabled(s, step) && (step.LookHealthy? || step.LookDegraded?)
    ensures MonitorInv(Apply(s, step))
  {
  }

  lemma DecideKeepsMonitor(s: State)
    requires MonitorInv(s) && Enabled(s, Decide)
    ensures MonitorInv(Apply(s, Decide))
  {
    var server := s.monitor.server;
    FullNamesHavePrefix(s.conns[server].namespace, s.conns[server].tools);
  }

  lemma StepKeepsMonitor(s: State, step: Step)
    requires MonitorInv(s) && Enabled(s, step)
    ensures MonitorInv(Apply(s, step))
  {
    if step.Check? {
      CheckKeepsMonitor(s, step.ok, step.tools);
    } else if step.LookHealthy? || step.LookDegraded? {
      LooksKeepMonitor(s, step);
    } else if step.Decide? {
      DecideKeepsMonitor(s);
    } else if step.Tick? {
      assert forall i :: 0 <= i < |step.order| ==> step.order[i] in step.order;
    } else if step.RouteCall? || step.FinishCall? || step.ShutdownRemove? {
      StepIsLater(s, step);
      LaterKeepsMonitor(s, Apply(s, step));
    }
  }

  lemma FinishKeepsCalls(s: State, c: nat, ok: bool)
    requires CallsInv(s) && c < |s.calls| && s.calls[c].Routed?
    ensures CallsInv(Finish(s, c, ok))
  {
    var t := Finish(s, c, ok);
    FinishIsLater(s, c, ok);
    var u := t.(calls := s.calls);
    LaterByConns(s, t, u);
    LaterKeepsCalls(s, u);
    assert CallInv(s, s.calls[c]);
    var server := s.calls[c].server;
    assert Namespaces(s)[server] == Namespaces(t)[server];
    forall i | 0 <= i < |t.calls| ensures CallInv(t, t.calls[i]) {
      if i != c {
        assert CallInv(u, s.calls[i]) && Namespaces(u) == Namespaces(t);
      }
    }
  }

  lemma RouteKeepsCalls(s: State, name: string, order: seq<string>)
    requires CallsInv(s) && Enumerates(order, s.conns.Keys)
    ensures CallsInv(Apply(s, RouteCall(name, order)))
  {
    var t := Apply(s, RouteCall(name, order));
    RouteFindsOwner(Namespaces(s), order, name);
    assert Namespaces(t) == Namespaces(s);
    assert CallInv(t, t.calls[|s.calls|]);
    forall i | 0 <= i < |s.calls| ensures CallInv(t, t.calls[i]) {
      assert CallInv(s, s.calls[i]);
    }
  }

  lemma StepKeepsCalls(s: State, step: Step)
    requires Inv(s) && Enabled(s, step)
    ensures CallsInv(Apply(s, step))
  {
    if step.RouteCall? {
      RouteKeepsCalls(s, step.name, step.order);
    } else if step.FinishCall? {
      FinishKeepsCalls(s, step.call, step.ok);
    } else {
      StepIsLater(s, step);
      LaterKeepsCalls(s, Apply(s, step));
    }
  }

  lemma StepKeepsInv(s: State, step: Step)
    requires Inv(s) && Enabled(s, step)
    ensures Inv(Apply(s, step)) && Later(s, Apply(s, step))
  {
    StepIsLater(s, step);
    StepKeepsAccounts(s, step);
    StepKeepsRemoved(s, step);
    LaterKeepsInitial(s, Apply(s, step));
    StepKeepsMonitor(s, step);
    StepKeepsCalls(s, step);
  }

  lemma {:induction false} RunKeepsInv(first: State, states: seq<State>, steps: seq<Step>, i: nat)
    requires Inv(first) && IsRun(first, states, steps) && i < |states|
    ensures Inv(states[i])
  {
    if i > 0 {
      RunKeepsInv(first, states, steps, i - 1);
      StepKeepsInv(states[i - 1], steps[i - 1]);
    }
  }

  lemma LaterIsTransitive(s: State, t: State, u: State)
    requires Later(s, t) && Later(t, u)
    ensures Later(s, u)
  {
    forall k | IsDegraded(s, k) ensures IsDegraded(u, k) && u.conns[k].tools == s.conns[k].tools {
      assert IsDegraded(t, k);
    }
  }

  // The main results.

  lemma RunStepIsLater(first: State, states: seq<State>, steps: seq<Step>, i: nat)
    requires Inv(first) && IsRun(first, states, steps) && i < |steps|
    ensures Later(states[i], states[i + 1])
  {
    RunKeepsInv(first, states, steps, i);
    StepKeepsInv(states[i], steps[i]);
  }

  lemma LaterIsReflexive(s: State)
    ensures Later(s, s)
  {
  }

  /** A degraded server stays degraded, and what the bridge registered, recorded and lost is settled at start. */
  lemma {:induction false} DegradedIsAbsorbing(first: State, states: seq<State>, steps: seq<Step>, i: nat, j: nat)
    requires Inv(first) && IsRun(first, states, steps) && i <= j < |states|
    ensures Later(states[i], states[j])
    decreases j
  {
    if i < j {
      DegradedIsAbsorbing(first, states, steps, i, j - 1);
      RunStepIsLater(first, states, steps, j - 1);
      LaterIsTransitive(states[i], states[j - 1], states[j]);
    } else {
      LaterIsReflexive(states[i]);
    }
  }

  /** The branch that re-registers a recovered server's tools is dead code. */
  lemma ReregisterNeverFires(others: set<string>, servers: seq<ServerConfig>, meta: KernelReply,
                             states: seq<State>, steps: seq<Step>, i: nat)
    requires IsRun(Start(others, servers, meta), states, steps) && i < |states|
    ensures !states[i].monitor.Reregistering? && !Enabled(states[i], Reregister(Accepted))
  {
    StartEstablishesInv(others, servers, meta);
    RunKeepsInv(Start(others, servers, meta), states, steps, i);
  }

  /** Once shutdown's removal is carried out, the bridge leaves behind exactly the names whose acknowledgement was lost
      at start and that neither its list nor the monitor took out; the monitor, still running, adds nothing. */
  lemma ShutdownLeavesOnlyLostNames(others: set<string>, servers: seq<ServerConfig>, meta: KernelReply,
                                    states: seq<State>, steps: seq<Step>, i: nat)
    requires IsRun(Start(others, servers, meta), states, steps) && i < |states|
    requires states[i].shutdown.Removed?
    ensures var s := states[i];
      s.kernel * s.added == s.lost - ToSet(s.recorded) - s.removed
    ensures states[i].lost == {} ==> states[i].kernel * states[i].added == {}
  {
    StartEstablishesInv(others, servers, meta);
    RunKeepsInv(Start(others, servers, meta), states, steps, i);
  }

  /** A server whose registration is carried out but not acknowledged leaves its name behind: it is skipped at start, so
      shutdown does not know the name. */
  lemma LostNameSurvivesShutdown(server: string, mount: Option<string>, raw: string)
    returns (servers: seq<ServerConfig>, states: seq<State>, steps: seq<Step>)
    ensures IsRun(Start({}, servers, Rejected), states, steps)
    ensures states[|steps|].shutdown.Removed?
    ensures Namespace(server, mount) + raw in states[|steps|].kernel * states[|steps|].added
  {
    var c := ServerConfig(server, mount, Discovered([raw], Lost));
    servers, steps := [c], [ShutdownRemove(true)];
    var s := Start({}, servers, Rejected);
    StartOfOneLost(c, raw);
    states := [s, Apply(s, ShutdownRemove(true))];
  }

  lemma StartOfOneLost(c: ServerConfig, raw: string)
    requires c.outcome == Discovered([raw], Lost)
    ensures var s, name := Start({}, [c], Rejected), Namespace(c.name, c.mount) + raw;
      name in s.kernel && name in s.added && s.recorded == [] && s.shutdown.NotAsked?
  {
    var ns := Namespace(c.name, c.mount);
    assert FullNames(ns, [raw])[0] == ns + raw;
    assert [c][1..] == [];
    assert StartServers(Fresh({}), [c]) == StartServers(StartServer(Fresh({}), c), []) == StartServer(Fresh({}), c);
  }

  /** With prefix-free namespaces, a connected server keeps every name registered for it at start until shutdown. */
  lemma ConnectedKeepsItsNames(others: set<string>, servers: seq<ServerConfig>, meta: KernelReply,
                               states: seq<State>, steps: seq<Step>, i: nat, server: string, raw: string)
    requires IsRun(Start(others, servers, meta), states, steps) && i < |states|
    requires PrefixFree(Namespaces(states[i])) && !states[i].shutdown.Removed?
    requires IsHealthy(states[i], server) && server in states[i].initial && raw in states[i].initial[server]
    ensures states[i].conns[server].namespace + raw in states[i].kernel
  {
    StartEstablishesInv(others, servers, meta);
    RunKeepsInv(Start(others, servers, meta), states, steps, i);
    var s := states[i];
    var name := s.conns[server].namespace + raw;
    if name in s.removed {
      var k :| IsDegraded(s, k) && IsPrefix(s.conns[k].namespace, name);
      OwnerIsUnique(Namespaces(s), k, server, name);
    }
  }

  /** Every answered call: meta-tools by name; otherwise the owner's raw name, or not found when there is no owner. */
  lemma CallsGoToTheirOwner(others: set<string>, servers: seq<ServerConfig>, meta: KernelReply,
                            states: seq<State>, steps: seq<Step>, i: nat, c: nat)
    requires IsRun(Start(others, servers, meta), states, steps) && i < |states|
    requires c < |states[i].calls| && states[i].calls[c].Answered?
    ensures var s, name, response := states[i], states[i].calls[c].name, states[i].calls[c].response;
      && !response.Unavailable? && !response.WrongNamespace?
      && (response.MetaTool? <==> name in META_TOOLS)
      && (response.NotFound? <==> name !in META_TOOLS && forall k :: !Owns(Namespaces(s), k, name))
      && (response.Forwarded? ==>
            response.server in s.conns && name == s.conns[response.server].namespace + response.raw)
      && (response.Forwarded? && PrefixFree(Namespaces(s)) ==>
            forall k :: Owns(Namespaces(s), k, name) ==> k == response.server)
  {
    StartEstablishesInv(others, servers, meta);
    RunKeepsInv(Start(others, servers, meta), states, steps, i);
    var s, name, response := states[i], states[i].calls[c].name, states[i].calls[c].response;
    assert CallInv(s, s.calls[c]);
    if response.Forwarded? {
      assert Owns(Namespaces(s), response.server, name);
      forall k | PrefixFree(Namespaces(s)) && Owns(Namespaces(s), k, name) ensures k == response.server {
        OwnerIsUnique(Namespaces(s), k, response.server, name);
      }
    }
  }

  // What single steps of a run do, in terms of the servers and the kernel's names.

  /** Nothing but the connection to this server differs. */
  ghost predicate OnlyConn(s: State, t: State, k: string) {
    t.conns.Keys == s.conns.Keys && forall other :: other in s.conns && other != k ==> t.conns[other] == s.conns[other]
  }

  /** A tool call succeeds exactly when its server is connected and answers; it leaves the server connected exactly
      then, and touches no other server and no other call. */
  lemma FinishedCallTells(first: State, states: seq<State>, steps: seq<Step>, i: nat)
    requires Inv(first) && IsRun(first, states, steps) && i < |steps| && steps[i].FinishCall?
    ensures var s, t, c := states[i], states[i + 1], steps[i].call;
      && c < |s.calls| && s.calls[c].Routed?
      && var k, name, done := s.calls[c].server, s.calls[c].name, IsHealthy(s, s.calls[c].server) && steps[i].ok;
         && k in s.conns && s.conns[k].namespace <= name
         && t.calls == s.calls[c := Answered(name, Forwarded(k, name[|s.conns[k].namespace|..], done))]
         && (IsHealthy(t, k) <==> done) && OnlyConn(s, t, k) && t.conns[k].tools == s.conns[k].tools
         && t.kernel == s.kernel && t.monitor == s.monitor
  {
    RunKeepsInv(first, states, steps, i);
    assert CallInv(states[i], states[i].calls[steps[i].call]);
  }

  /** A health check of a connected server that answers caches exactly the tools it lists; one that does not answer
      degrades it; a degraded server is not asked. */
  lemma CheckTells(first: State, states: seq<State>, steps: seq<Step>, i: nat)
    requires Inv(first) && IsRun(first, states, steps) && i < |steps| && steps[i].Check?
    ensures var s, t := states[i], states[i + 1];
      && s.monitor.SawBoth? && s.monitor.server in s.conns
      && var k := s.monitor.server;
         var done := IsHealthy(s, k) && steps[i].ok;
         && (IsHealthy(t, k) <==> done) && OnlyConn(s, t, k)
         && t.conns[k].tools == (if done then steps[i].tools else s.conns[k].tools)
         && t.monitor == Checked(k, s.monitor.healthy, s.monitor.degraded, done, s.monitor.todo)
         && t.kernel == s.kernel && t.calls == s.calls
  {
    RunKeepsInv(first, states, steps, i);
  }

  /** A round visits the servers one after another: it notes whether the next is connected, and after the check goes on
      to remove its names exactly when it was connected before and the check failed. */
  lemma MonitorTells(first: State, states: seq<State>, steps: seq<Step>, i: nat)
    requires Inv(first) && IsRun(first, states, steps) && i < |steps|
    ensures var s, t := states[i], states[i + 1];
      && (steps[i].Tick? ==> t.monitor == AtServer(steps[i].order) && forall k :: k in steps[i].order <==> k in s.conns)
      && (steps[i].LookHealthy? && s.monitor.todo == [] ==> t.monitor == Sleeping)
      && (steps[i].LookHealthy? && s.monitor.todo != [] ==>
            t.monitor == SawHealthy(s.monitor.todo[0], IsHealthy(s, s.monitor.todo[0]), s.monitor.todo[1..]))
      && (steps[i].LookDegraded? ==>
            t.monitor == SawBoth(s.monitor.server, s.monitor.healthy, IsDegraded(s, s.monitor.server), s.monitor.todo))
      && (steps[i].Decide? ==>
            if s.monitor.healthy && !s.monitor.ok
            then t.monitor.Deregistering? && t.monitor.server == s.monitor.server && t.monitor.todo == s.monitor.todo
            else t.monitor == AtServer(s.monitor.todo))
      && (steps[i].Tick? || steps[i].LookHealthy? || steps[i].LookDegraded? || steps[i].Decide? ==>
            t == s.(monitor := t.monitor))
  {
    RunKeepsInv(first, states, steps, i);
  }

  /** A removal takes exactly the namespaced names of the failed server's cached tools out of the kernel, if it is
      carried out, and the round goes on. */
  lemma RemovalIsExact(first: State, states: seq<State>, steps: seq<Step>, i: nat, name: string)
    requires Inv(first) && IsRun(first, states, steps) && i < |steps| && steps[i].Deregister?
    ensures var s, t := states[i], states[i + 1];
      && s.monitor.Deregistering? && IsDegraded(s, s.monitor.server) && t.monitor == AtServer(s.monitor.todo)
      && var conn := s.conns[s.monitor.server];
         name in t.kernel <==>
           name in s.kernel && !(steps[i].applied && exists raw :: raw in conn.tools && name == conn.namespace + raw)
  {
    RunKeepsInv(first, states, steps, i);
    var conn := states[i].conns[states[i].monitor.server];
    FullNamesAre(conn.namespace, conn.tools, name);
  }

  ghost predicate HasAborted(steps: seq<Step>, n: nat)
    requires n <= |steps|
  {
    exists i :: 0 <= i < n && steps[i].Abort?
  }

  ghost predicate HasAsked(steps: seq<Step>, n: nat)
    requires n <= |steps|
  {
    exists i :: 0 <= i < n && steps[i].ShutdownRemove?
  }

  lemma {:induction false} ShutdownSoFar(first: State, states: seq<State>, steps: seq<Step>, n: nat)
    requires IsRun(first, states, steps) && n < |states| && first.shutdown.NotAsked? && !first.monitor.Aborted?
    ensures states[n].shutdown.NotAsked? <==> !HasAsked(steps, n)
    ensures states[n].monitor.Aborted? <==> HasAborted(steps, n)
    decreases n
  {
    if n > 0 {
      ShutdownSoFar(first, states, steps, n - 1);
      assert HasAsked(steps, n) <==> HasAsked(steps, n - 1) || steps[n - 1].ShutdownRemove?;
      assert HasAborted(steps, n) <==> HasAborted(steps, n - 1) || steps[n - 1].Abort?;
      StepShutsDown(states[n - 1], steps[n - 1]);
    }
  }

  lemma StepShutsDown(s: State, step: Step)
    requires Enabled(s, step)
    ensures var t := Apply(s, step);
      && (t.shutdown.NotAsked? <==> s.shutdown.NotAsked? && !step.ShutdownRemove?)
      && (t.monitor.Aborted? <==> s.monitor.Aborted? || step.Abort?)
  {
  }

  /** Shutdown asks once: carried out, the request takes exactly the recorded names out of the kernel, refused it
      changes nothing; the monitor is stopped only after that and does nothing from then on. */
  lemma ShutdownTells(first: State, states: seq<State>, steps: seq<Step>, i: nat)
    requires IsRun(first, states, steps) && i < |steps| && first.shutdown.NotAsked? && !first.monitor.Aborted?
    ensures var s, t, step := states[i], states[i + 1], steps[i];
      && (step.ShutdownRemove? ==>
            && !HasAsked(steps, i)
            && t == s.(kernel := t.kernel, shutdown := t.shutdown)
            && t.shutdown == (if step.applied then Removed else Refused)
            && forall name :: name in t.kernel <==> name in s.kernel && !(step.applied && name in s.recorded))
      && (step.Abort? ==> HasAsked(steps, i))
      && (HasAborted(steps, i) ==>
            step.RouteCall? || step.FinishCall? || step.ShutdownRemove? || step.Abort?)
  {
    ShutdownSoFar(first, states, steps, i);
  }

  lemma FullNamesAre(ns: string, tools: seq<string>, name: string)
    ensures name in FullNames(ns, tools) <==> exists raw :: raw in tools && name == ns + raw
  {
    FullNamesHavePrefix(ns, tools);
    if name in FullNames(ns, tools) {
      var i :| 0 <= i < |tools| && FullNames(ns, tools)[i] == name;
      assert tools[i] in tools && name == ns + tools[i];
    }
  }

  // What start-up leaves.

  /** A server is kept unless the connection fails, or its tools are not acknowledged. */
  predicate IsKept(c: ServerConfig) {
    c.outcome.DiscoverFailed? || (c.outcome.Discovered? && (c.outcome.tools == [] || c.outcome.reply.Accepted?))
  }

  ghost predicate UniqueNames(servers: seq<ServerConfig>) {
    forall i, j :: 0 <= i < j < |servers| ==> servers[i].name != servers[j].name
  }

  lemma {:induction false} StartServersConn(s: State, servers: seq<ServerConfig>, k: string)
    requires UniqueNames(servers)
    ensures var t := StartServers(s, servers);
      && ((forall i :: 0 <= i < |servers| ==> servers[i].name != k) ==>
            (k in t.conns <==> k in s.conns) && (k in s.conns ==> t.conns[k] == s.conns[k]))
      && forall i :: 0 <= i < |servers| && servers[i].name == k && k !in s.conns ==>
           var c := servers[i];
           && (k in t.conns <==> IsKept(c))
           && (IsKept(c) ==> t.conns[k] == if c.outcome.DiscoverFailed?
             then Conn(Namespace(c.name, c.mount), [], Degraded)
                                           else Conn(Namespace(c.name, c.mount), c.outcome.tools, Connected))
    decreases |servers|
  {
    if servers != [] {
      var rest := servers[1..];
      assert forall i :: 0 <= i < |rest| ==> rest[i] == servers[i + 1];
      assert UniqueNames(rest);
      StartServersConn(StartServer(s, servers[0]), rest, k);
      forall i | 0 < i < |servers| ensures servers[i] == rest[i - 1] && servers[i].name != servers[0].name { }
    }
  }

  /** After start-up exactly the kept servers are there, connected with the tools they listed, or degraded without tools
      if they could not list them. */
  lemma StartKeepsServers(others: set<string>, servers: seq<ServerConfig>, meta: KernelReply, i: nat)
    requires UniqueNames(servers) && i < |servers|
    ensures var c, s := servers[i], Start(others, servers, meta);
      && (c.name in s.conns <==> IsKept(c))
      && (IsKept(c) ==>
            s.conns[c.name] == if c.outcome.DiscoverFailed? then Conn(Namespace(c.name, c.mount), [], Degraded)
                               else Conn(Namespace(c.name, c.mount), c.outcome.tools, Connected))
  {
    StartServersConn(Fresh(others), servers, servers[i].name);
  }

  /** The name is that of a tool this server listed at start. */
  ghost predicate Offered(c: ServerConfig, name: string) {
    c.outcome.Discovered? && exists raw :: raw in c.outcome.tools && name == Namespace(c.name, c.mount) + raw
  }

  lemma StartServerNames(s: State, c: ServerConfig, name: string)
    ensures var t := StartServer(s, c);
      && (name in t.kernel <==> name in s.kernel || (Offered(c, name) && !c.outcome.reply.Rejected?))
      && (name in t.added <==> name in s.added || (Offered(c, name) && !c.outcome.reply.Rejected?))
      && (name in t.lost <==> name in s.lost || (Offered(c, name) && c.outcome.reply.Lost?))
      && (name in t.recorded <==> name in s.recorded || (Offered(c, name) && c.outcome.reply.Accepted?))
  {
    if c.outcome.Discovered? {
      FullNamesAre(Namespace(c.name, c.mount), c.outcome.tools, name);
    }
  }

  lemma {:induction false} StartServersNames(s: State, servers: seq<ServerConfig>, name: string)
    ensures var t := StartServers(s, servers);
      && (name in t.kernel <==>
            name in s.kernel || exists c :: c in servers && Offered(c, name) && !c.outcome.reply.Rejected?)
      && (name in t.lost <==> name in s.lost || exists c :: c in servers && Offered(c, name) && c.outcome.reply.Lost?)
      && (name in t.recorded <==>
            name in s.recorded || exists c :: c in servers && Offered(c, name) && c.outcome.reply.Accepted?)
    decreases |servers|
  {
    if servers != [] {
      StartServerNames(s, servers[0], name);
      StartServersNames(StartServer(s, servers[0]), servers[1..], name);
      assert forall c :: c in servers <==> c == servers[0] || c in servers[1..];
    }
  }

  /** After start-up the kernel holds what it held, and the tools and meta-tools it did not reject; the bridge's own
      list holds those that were acknowledged. */
  lemma StartRegisters(others: set<string>, servers: seq<ServerConfig>, meta: KernelReply, name: string)
    ensures var s := Start(others, servers, meta);
      var isMeta := name == "mcp/servers" || name == "mcp/server-status" || name == "mcp/tools";
      && (name in s.kernel <==>
            || name in others || (isMeta && !meta.Rejected?)
            || exists c :: c in servers && Offered(c, name) && !c.outcome.reply.Rejected?)
      && (name in s.recorded <==>
            || (isMeta && meta.Accepted?)
            || exists c :: c in servers && Offered(c, name) && c.outcome.reply.Accepted?)
      && (name in s.lost <==>
            || (isMeta && meta.Lost?)
            || exists c :: c in servers && Offered(c, name) && c.outcome.reply.Lost?)
  {
    StartServersNames(Fresh(others), servers, name);
    assert name in META_ORDER <==> name == "mcp/servers" || name == "mcp/server-status" || name == "mcp/tools";
  }

  /** The monitor has seen this server healthy in the current round and has not finished with it. */
  predicate Watching(s: State, server: string) {
    match s.monitor
    case SawHealthy(k, healthy, _) => k == server && healthy
    case SawBoth(k, healthy, _, _) => k == server && healthy
    case Checked(k, healthy, _, _, _) => k == server && healthy
    case Deregistering(k, _, _) => k == server
    case _ => false
  }

  lemma StaleStep(s: State, step: Step, server: string, name: string)
    requires Inv(s) && Enabled(s, step) && PrefixFree(Namespaces(s))
    requires IsDegraded(s, server) && !Watching(s, server) && Owns(Namespaces(s), server, name)
    ensures !Watching(Apply(s, step), server)
    ensures name in Apply(s, step).removed <==> name in s.removed
  {
    if step.Deregister? && name in s.monitor.names {
      FullNamesHavePrefix(s.conns[s.monitor.server].namespace, s.conns[s.monitor.server].tools);
      OwnerIsUnique(Namespaces(s), s.monitor.server, server, name);
    }
  }

  lemma {:induction false} UnwatchedNamesNotRemoved(first: State, states: seq<State>, steps: seq<Step>, i: nat, j: nat,
                                                    server: string, name: string)
    requires Inv(first) && IsRun(first, states, steps) && i <= j < |states|
    requires PrefixFree(Namespaces(states[i])) && IsDegraded(states[i], server) && !Watching(states[i], server)
    requires Owns(Namespaces(states[i]), server, name)
    ensures !Watching(states[j], server)
    ensures name in states[j].removed <==> name in states[i].removed
    decreases j
  {
    if i < j {
      UnwatchedNamesNotRemoved(first, states, steps, i, j - 1, server, name);
      DegradedIsAbsorbing(first, states, steps, i, j - 1);
      RunKeepsInv(first, states, steps, j - 1);
      StaleStep(states[j - 1], steps[j - 1], server, name);
    }
  }

  /** A server that degrades while the monitor is not watching it, as by a failed tool call, keeps its names registered:
      no later step removes them before shutdown does. */
  lemma UnwatchedFailureLeavesNames(first: State, states: seq<State>, steps: seq<Step>, i: nat, j: nat,
                                    server: string, name: string)
    requires Inv(first) && IsRun(first, states, steps) && i <= j < |states|
    requires PrefixFree(Namespaces(states[i])) && IsDegraded(states[i], server) && !Watching(states[i], server)
    requires Owns(Namespaces(states[i]), server, name) && name in states[i].kernel
    ensures !states[j].shutdown.Removed? ==> name in states[j].kernel
  {
    UnwatchedNamesNotRemoved(first, states, steps, i, j, server, name);
    DegradedIsAbsorbing(first, states, steps, i, j);
    RunKeepsInv(first, states, steps, i);
    RunKeepsInv(first, states, steps, j);
    assert KernelAccounted(states[i]) && KernelAccounted(states[j]);
  }

  /** In particular by a tool call that fails between health checks: its server is degraded from then on, and the names
      it had stay registered until shutdown. */
  lemma FailedCallLeavesNames(first: State, states: seq<State>, steps: seq<Step>, i: nat, j: nat, name: string)
    requires Inv(first) && IsRun(first, states, steps) && i < j < |states|
    requires steps[i].FinishCall? && !steps[i].ok && PrefixFree(Namespaces(states[i]))
    requires steps[i].call < |states[i].calls| && states[i].calls[steps[i].call].Routed?
    requires var k := states[i].calls[steps[i].call].server;
      !Watching(states[i], k) && Owns(Namespaces(states[i]), k, name) && name in states[i].kernel
    ensures IsDegraded(states[j], states[i].calls[steps[i].call].server)
    ensures !states[j].shutdown.Removed? ==> name in states[j].kernel
  {
    var k := states[i].calls[steps[i].call].server;
    FinishedCallTells(first, states, steps, i);
    DegradedIsAbsorbing(first, states, steps, i, i + 1);
    assert IsDegraded(states[i + 1], k);
    UnwatchedFailureLeavesNames(first, states, steps, i + 1, j, k, name);
    DegradedIsAbsorbing(first, states, steps, i + 1, j);
  }

  ghost predicate LosesName(others: set<string>, servers: seq<ServerConfig>, meta: KernelReply, states: seq<State>,
                            steps: seq<Step>, server: string, raw: string)
  {
    && IsRun(Start(others, servers, meta), states, steps)
    && var s := states[|steps|];
       && IsHealthy(s, server) && server in s.initial && raw in s.initial[server] && s.shutdown.NotAsked?
       && s.conns[server].namespace + raw !in s.kernel
  }

  lemma ExtendRun(first: State, states: seq<State>, steps: seq<Step>, step: Step)
    requires IsRun(first, states, steps) && Enabled(states[|steps|], step)
    ensures IsRun(first, states + [Apply(states[|steps|], step)], steps + [step])
  {
  }

  /** The monitor looks at a server that is healthy, and its check then fails. */
  lemma FailedCheck(s: State, a: string, rest: seq<string>) returns (states: seq<State>, steps: seq<Step>)
    requires s.monitor.Sleeping? && IsHealthy(s, a) && Enumerates([a] + rest, s.conns.Keys)
    ensures IsRun(s, states, steps)
    ensures states[|steps|] == SetHealth(s, a, Degraded).(monitor := Checked(a, true, false, false, rest))
  {
    states, steps := [s], [];
    var order := [a] + rest;
    assert order[1..] == rest;
    ExtendRun(s, states, steps, Tick(order));
    states, steps := states + [s.(monitor := AtServer(order))], steps + [Tick(order)];
    ExtendRun(s, states, steps, LookHealthy);
    states, steps := states + [s.(monitor := SawHealthy(a, true, rest))], steps + [LookHealthy];
    ExtendRun(s, states, steps, LookDegraded);
    states, steps := states + [s.(monitor := SawBoth(a, true, false, rest))], steps + [LookDegraded];
    ExtendRun(s, states, steps, Check(false, []));
    states, steps := states + [Apply(states[3], Check(false, []))], steps + [Check(false, [])];
  }

  /** One round of the monitor that finds its first server failing and removes the names cached for it. */
  lemma FailedRound(s: State, a: string, rest: seq<string>) returns (states: seq<State>, steps: seq<Step>)
    requires s.monitor.Sleeping? && IsHealthy(s, a) && Enumerates([a] + rest, s.conns.Keys)
    ensures IsRun(s, states, steps)
    ensures var names := ToSet(CachedNames(s, a));
      states[|steps|] ==
        SetHealth(s, a, Degraded).(monitor := AtServer(rest), kernel := s.kernel - names, removed := s.removed + names)
  {
    states, steps := FailedCheck(s, a, rest);
    var checked := states[|steps|];
    assert CachedNames(checked, a) == CachedNames(s, a);
    ExtendRun(s, states, steps, Decide);
    var decided := Apply(checked, Decide);
    states, steps := states + [decided], steps + [Decide];
    ExtendRun(s, states, steps, Deregister(true));
    states, steps := states + [Apply(decided, Deregister(true))], steps + [Deregister(true)];
  }

  /** Without prefix-freeness the promise fails: for any two servers whose namespaces overlap this way, there is a run
      in which the failure of the first removes a tool of the second while that one is connected. */
  lemma OverlapLosesNames(a: string, aMount: Option<string>, b: string, bMount: Option<string>, raw: string)
    returns (servers: seq<ServerConfig>, states: seq<State>, steps: seq<Step>)
    requires a != b && IsPrefix(Namespace(a, aMount), Namespace(b, bMount))
    ensures LosesName({}, servers, Rejected, states, steps, b, raw)
  {
    var x, y := Namespace(a, aMount), Namespace(b, bMount);
    var clash := y[|x|..] + raw;
    servers := [ServerConfig(a, aMount, Discovered([clash], Accepted)),
                ServerConfig(b, bMount, Discovered([raw], Accepted))];
    var s := Start({}, servers, Rejected);
    StartOfTwo(servers[0], servers[1]);
    assert Enumerates([a] + [b], s.conns.Keys);
    states, steps := FailedRound(s, a, [b]);
    assert CachedNames(s, a) == [x + clash];
    assert x + clash == y + raw;
    assert y + raw in ToSet(CachedNames(s, a));
  }

  lemma StartOfTwo(c: ServerConfig, d: ServerConfig)
    requires c.name != d.name && c.outcome.Discovered? && d.outcome.Discovered?
    requires c.outcome.reply.Accepted? && d.outcome.reply.Accepted?
    ensures var s := Start({}, [c, d], Rejected);
      && s.conns == map[c.name := Conn(Namespace(c.name, c.mount), c.outcome.tools, Connected),
                        d.name := Conn(Namespace(d.name, d.mount), d.outcome.tools, Connected)]
      && s.initial == map[c.name := c.outcome.tools, d.name := d.outcome.tools]
      && s.monitor == Sleeping && s.shutdown == NotAsked && s.removed == {}
  {
    var s1 := StartServer(Fresh({}), c);
    var s2 := StartServer(s1, d);
    assert [c, d][1..] == [d] && [d][1..] == [];
    assert StartServers(Fresh({}), [c, d]) == StartServers(s1, [d]) == StartServers(s2, []) == s2;
  }

  /** The bridge object. Each method is one stretch of the source between two releases of the connection lock. */
  class Bridge {
    var conns: map<string, Conn>
    var recorded: seq<string>
    var kernel: set<string>
    var calls: seq<Call>
    var monitor: Monitor
    var shutdown: Shutdown
    ghost var initial: map<string, seq<string>>
    ghost var others: set<string>
    ghost var added: set<string>
    ghost var lost: set<string>
    ghost var removed: set<string>

    ghost function View(): State
      reads this
    {
      State(conns, initial, recorded, kernel, others, added, lost, removed, calls, monitor, shutdown)
    }

    /** Connect to every configured server, register what it offers, then the bridge's own meta-tools. */
    constructor (kernelNames: set<string>, servers: seq<ServerConfig>, meta: KernelReply)
      ensures View() == Start(kernelNames, servers, meta) && Inv(View())
    {
      conns, recorded, kernel, calls := map[], [], kernelNames, [];
      monitor, shutdown := Sleeping, NotAsked;
      initial, others, added, lost, removed := map[], kernelNames, {}, {}, {};
      new;
      ghost var begun := View();
      for i := 0 to |servers|
        invariant StartServers(View(), servers[i..]) == StartServers(begun, servers)
      {
        var c := servers[i];
        var ns := Namespace(c.name, c.mount);
        assert servers[i..][1..] == servers[i + 1..];
        ghost var before := View();
        match c.outcome {
          case ConnectFailed =>
          case DiscoverFailed =>
            conns := conns[c.name := Conn(ns, [], Degraded)];
            initial := initial[c.name := []];
          case Discovered(tools, reply) =>
            var registered := RegisterTools(FullNames(ns, tools), reply);
            if registered {
              conns := conns[c.name := Conn(ns, tools, Connected)];
              initial := initial[c.name := tools];
            }
        }
        assert View() == StartServer(before, c);
      }
      var _ := RegisterTools(META_ORDER, meta);
      StartEstablishesInv(kernelNames, servers, meta);
    }

    /** One `ipc.tool-add` request; nothing is sent for an empty list. */
    method RegisterTools(names: seq<string>, reply: KernelReply) returns (registered: bool)
      modifies this`kernel, this`recorded, this`added, this`lost
      ensures View() == AddNames(old(View()), names, reply)
      ensures registered <==> names == [] || reply.Accepted?
    {
      if names == [] {
        return true;
      }
      if !reply.Rejected? {
        kernel := kernel + ToSet(names);
        added := added + ToSet(names);
      }
      if reply.Lost? {
        lost := lost + ToSet(names);
      }
      if reply.Accepted? {
        recorded := recorded + names;
      }
      registered := reply.Accepted?;
    }

    /** First half of a tool call: meta-tools are answered, otherwise the owner is looked up. */
    method RouteRequest(name: string, order: seq<string>)
      requires Inv(View()) && Enumerates(order, conns.Keys)
      modifies this`calls
      ensures Inv(View()) && View() == Apply(old(View()), RouteCall(name, order))
    {
      StepKeepsInv(View(), RouteCall(name, order));
      if name in META_TOOLS {
        calls := calls + [Answered(name, MetaTool)];
      } else {
        var owner := FindServer(map k | k in conns :: conns[k].namespace, order, name);
        calls := calls + [if owner.None? then Answered(name, NotFound) else Routed(owner.value, name)];
      }
    }

    /** Second half: strip the namespace and forward; a failure degrades the connection. */
    method ForwardRequest(c: nat, ok: bool)
      requires Inv(View()) && c < |calls| && calls[c].Routed?
      modifies this`calls, this`conns
      ensures Inv(View()) && View() == Apply(old(View()), FinishCall(c, ok))
    {
      StepKeepsInv(View(), FinishCall(c, ok));
      assert CallInv(View(), calls[c]);
      var name, server := calls[c].name, calls[c].server;
      var raw := name[|conns[server].namespace|..];
      var done := ok && conns[server].health.Connected?;
      if conns[server].health.Connected? && !ok {
        conns := conns[server := conns[server].(health := Degraded)];
      }
      calls := calls[c := Answered(name, Forwarded(server, raw, done))];
    }

    /** The monitor's health check of the server it is at. */
    method CheckServer(ok: bool, tools: seq<string>)
      requires Inv(View()) && monitor.SawBoth?
      modifies this`conns, this`monitor
      ensures Inv(View()) && View() == Apply(old(View()), Check(ok, tools))
    {
      StepKeepsInv(View(), Check(ok, tools));
      var server := monitor.server;
      var result := conns[server].health.Connected? && ok;
      if conns[server].health.Connected? {
        if ok {
          conns := conns[server := conns[server].(tools := tools)];
        } else {
          conns := conns[server := conns[server].(health := Degraded)];
        }
      }
      monitor := Checked(server, monitor.healthy, monitor.degraded, result, monitor.todo);
    }

    /** What the monitor does with the result; the recovery branch is never taken. */
    method DecideServer()
      requires Inv(View()) && monitor.Checked?
      modifies this`monitor
      ensures Inv(View()) && View() == Apply(old(View()), Decide) && !monitor.Reregistering?
    {
      StepKeepsInv(View(), Decide);
      var server := monitor.server;
      if !monitor.ok && monitor.healthy {
        monitor := Deregistering(server, FullNames(conns[server].namespace, conns[server].tools), monitor.todo);
      } else {
        monitor := AtServer(monitor.todo);
      }
    }

    /** `ipc.tool-remove` for a server that has just gone down. */
    method RemoveServerNames(applied: bool)
      requires Inv(View()) && monitor.Deregistering?
      modifies this`kernel, this`monitor, this`removed
      ensures Inv(View()) && View() == Apply(old(View()), Deregister(applied))
    {
      StepKeepsInv(View(), Deregister(applied));
      if applied {
        kernel := kernel - ToSet(monitor.names);
        removed := removed + ToSet(monitor.names);
      }
      monitor := AtServer(monitor.todo);
    }

    /** Shutdown's removal of everything recorded, while the monitor still runs. */
    method RemoveRecorded(applied: bool)
      requires Inv(View()) && shutdown.NotAsked?
      modifies this`kernel, this`shutdown
      ensures Inv(View()) && View() == Apply(old(View()), ShutdownRemove(applied))
      ensures applied && lost == {} ==> kernel * added == {}
    {
      StepKeepsInv(View(), ShutdownRemove(applied));
      if applied {
        kernel := kernel - ToSet(recorded);
        shutdown := Removed;
      } else {
        shutdown := Refused;
      }
    }
  }
}
