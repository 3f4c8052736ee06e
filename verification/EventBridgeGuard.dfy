/** The client state's guard against starting the event bridge twice on one connection. */
module EventBridgeGuard {
  import opened Common

  datatype Status = Disconnected | Connecting | Connected

  /** Where a caller of do_connect stands; it holds the state exclusively, so there is only one. */
  datatype Phase = Idle | Dialling | Swapped | Cleared

  /** A bridge task, bound to the connection it was started on. */
  datatype Task = Task(connection: nat, live: bool)

  /** Connections are numbered from 1; 0 means that there is no dispatcher yet. */
  datatype State = State(
    status: Status, phase: Phase, connection: nat, callback: bool, started: bool, tasks: seq<Task>)

  datatype Step =
    | BeginConnect
    | ConnectFails
    | SwapDispatcher
    | ClearFlag
    | FinishConnect
    | SetCallback
    | Exit(task: nat)

  const INITIAL := State(Disconnected, Idle, 0, false, false, [])

  /** start_event_bridge: the compare-exchange lets a task be spawned only when the flag is down. */
  function Start(s: State): State {
    if s.connection == 0 || !s.callback || s.started then s
    else s.(started := true, tasks := s.tasks + [Task(s.connection, true)])
  }

  predicate Enabled(s: State, step: Step) {
    match step
    case BeginConnect => s.phase.Idle?
    case ConnectFails => s.phase.Dialling?
    case SwapDispatcher => s.phase.Dialling?
    case ClearFlag => s.phase.Swapped?
    case FinishConnect => s.phase.Cleared?
    case SetCallback => s.phase.Idle?
    case Exit(k) => k < |s.tasks| && s.tasks[k].live
  }

  function Apply(s: State, step: Step): State
    requires Enabled(s, step)
  {
    match step
    case BeginConnect => s.(status := Connecting, phase := Dialling)
    case ConnectFails => s.(status := Disconnected, phase := Idle)
    case SwapDispatcher => s.(status := Connected, phase := Swapped, connection := s.connection + 1)
    case ClearFlag => s.(started := false, phase := Cleared)
    case FinishConnect => (if s.callback then Start(s) else s).(phase := Idle)
    case SetCallback => Start(s.(callback := true))
    case Exit(k) => s.(tasks := s.tasks[k := s.tasks[k].(live := false)], started := false)
  }

  function After(steps: seq<Step>): State {
    if steps == [] then INITIAL
    else
      var before := After(steps[..|steps| - 1]);
      if Enabled(before, steps[|steps| - 1]) then Apply(before, steps[|steps| - 1]) else before
  }

  predicate IsRun(steps: seq<Step>) {
    steps == [] ||
    var n := |steps| - 1;
    IsRun(steps[..n]) && Enabled(After(steps[..n]), steps[n])
  }

  /** Live bridge tasks of one connection. */
  function LiveOn(tasks: seq<Task>, connection: nat): nat {
    if tasks == [] then 0
    else
      var n := |tasks| - 1;
      LiveOn(tasks[..n], connection) + if tasks[n].live && tasks[n].connection == connection then 1 else 0
  }

  function LiveNow(s: State): nat {
    LiveOn(s.tasks, s.connection)
  }

  predicate IsOlderExit(s: State, step: Step) {
    step.Exit? && step.task < |s.tasks| && s.tasks[step.task].connection != s.connection
  }

  /** How many tasks of older connections exited since the current connection cleared the flag. */
  function OlderExits(steps: seq<Step>): nat {
    if steps == [] then 0
    else
      var n := |steps| - 1;
      if steps[n].ClearFlag? then 0
      else OlderExits(steps[..n]) + if IsOlderExit(After(steps[..n]), steps[n]) then 1 else 0
  }

  lemma {:induction false} OneMoreStep(steps: seq<Step>, step: Step)
    requires IsRun(steps) && Enabled(After(steps), step)
    ensures IsRun(steps + [step]) && After(steps + [step]) == Apply(After(steps), step)
    ensures OlderExits(steps + [step])
         == if step.ClearFlag? then 0 else OlderExits(steps) + if IsOlderExit(After(steps), step) then 1 else 0
  {
    var all := steps + [step];
    assert all[..|all| - 1] == steps && all[|all| - 1] == step;
  }

  lemma {:induction false} LiveOnOneMore(tasks: seq<Task>, task: Task, connection: nat)
    ensures LiveOn(tasks + [task], connection)
         == LiveOn(tasks, connection) + if task.live && task.connection == connection then 1 else 0
  {
    assert (tasks + [task])[..|tasks|] == tasks;
  }

  lemma {:induction false} LiveOnAfterExit(tasks: seq<Task>, k: nat, connection: nat)
    requires k < |tasks| && tasks[k].live
    ensures LiveOn(tasks[k := tasks[k].(live := false)], connection)
         == LiveOn(tasks, connection) - if tasks[k].connection == connection then 1 else 0
    decreases |tasks|
  {
    var n := |tasks| - 1;
    var after := tasks[k := tasks[k].(live := false)];
    if k == n {
      assert after[..n] == tasks[..n];
    } else {
      LiveOnAfterExit(tasks[..n], k, connection);
      assert after[..n] == tasks[..n][k := tasks[..n][k].(live := false)];
    }
  }

  /** No task is bound to a connection that does not exist yet. */
  predicate NoneAhead(s: State) {
    forall k :: 0 <= k < |s.tasks| ==> 0 < s.tasks[k].connection <= s.connection
  }

  lemma {:induction false} NoneLiveAhead(tasks: seq<Task>, connection: nat)
    requires forall k :: 0 <= k < |tasks| ==> tasks[k].connection < connection
    ensures LiveOn(tasks, connection) == 0
    decreases |tasks|
  {
    if tasks != [] {
      NoneLiveAhead(tasks[..|tasks| - 1], connection);
    }
  }

  /**
    * A freshly swapped connection has no bridge; a settled one has at most one per lowered flag or older
    * exit, and a raised flag means that it has one.
    */
  predicate Guarded(s: State, olderExits: nat) {
    && NoneAhead(s)
    && (s.phase.Swapped? || s.connection == 0 ==> LiveNow(s) == 0)
    && (!s.phase.Swapped? ==> LiveNow(s) + (if s.started then 0 else 1) <= 1 + olderExits)
    && (!s.phase.Swapped? && s.started ==> LiveNow(s) >= 1)
  }

  lemma {:induction false} StartKeepsGuarded(s: State, olderExits: nat)
    requires Guarded(s, olderExits) && !s.phase.Swapped?
    ensures Guarded(Start(s), olderExits)
    ensures s.connection != 0 && s.callback ==> LiveNow(Start(s)) >= 1
    ensures LiveNow(Start(s)) == LiveNow(s) + if s.connection != 0 && s.callback && !s.started then 1 else 0
  {
    LiveOnOneMore(s.tasks, Task(s.connection, true), s.connection);
  }

  lemma {:induction false} ExitKeepsGuarded(s: State, k: nat, olderExits: nat)
    requires Guarded(s, olderExits) && Enabled(s, Exit(k))
    ensures Guarded(Apply(s, Exit(k)), olderExits + if IsOlderExit(s, Exit(k)) then 1 else 0)
  {
    LiveOnAfterExit(s.tasks, k, s.connection);
  }

  lemma {:induction false} StepKeepsGuarded(s: State, step: Step, olderExits: nat)
    requires Guarded(s, olderExits) && Enabled(s, step)
    ensures Guarded(Apply(s, step),
                    if step.ClearFlag? then 0 else olderExits + if IsOlderExit(s, step) then 1 else 0)
  {
    if step.Exit? {
      ExitKeepsGuarded(s, step.task, olderExits);
    } else if step.SetCallback? {
      StartKeepsGuarded(s.(callback := true), olderExits);
    } else if step.FinishConnect? {
      StartKeepsGuarded(s, olderExits);
    } else if step.SwapDispatcher? {
      NoneLiveAhead(s.tasks, s.connection + 1);
    }
  }

  lemma {:induction false} RunKeepsGuarded(steps: seq<Step>)
    requires IsRun(steps)
    ensures Guarded(After(steps), OlderExits(steps))
    decreases |steps|
  {
    if steps != [] {
      var n := |steps| - 1;
      RunKeepsGuarded(steps[..n]);
      StepKeepsGuarded(After(steps[..n]), steps[n], OlderExits(steps[..n]));
    }
  }

  /** The last step of any connect. */
  function LastConnectStep(steps: seq<Step>): (last: Option<Step>)
    ensures last.Some? ==> last.value in steps
  {
    if steps == [] then None
    else
      var n := |steps| - 1;
      if steps[n].SetCallback? || steps[n].Exit? then LastConnectStep(steps[..n]) else Some(steps[n])
  }

  /** What clients see of a run: the status and progress that the last connect step gives, a connection per installed
      dispatcher, a callback once one was registered. */
  lemma {:induction false} RunTells(steps: seq<Step>)
    requires IsRun(steps)
    ensures var s, last := After(steps), LastConnectStep(steps);
      && (s.status.Disconnected? <==> last.None? || last.value.ConnectFails?)
      && (s.status.Connecting? <==> last.Some? && last.value.BeginConnect?)
      && (s.phase.Idle? <==> last.None? || last.value.ConnectFails? || last.value.FinishConnect?)
      && (s.phase.Dialling? <==> last.Some? && last.value.BeginConnect?)
      && s.connection == multiset(steps)[SwapDispatcher]
      && (s.callback <==> SetCallback in steps)
    decreases |steps|
  {
    if steps != [] {
      var n := |steps| - 1;
      RunTells(steps[..n]);
      assert steps == steps[..n] + [steps[n]];
      StepTells(After(steps[..n]), steps[n]);
    }
  }

  lemma StepTells(s: State, step: Step)
    requires Enabled(s, step)
    ensures var t := Apply(s, step);
      && t.connection == s.connection + (if step.SwapDispatcher? then 1 else 0)
      && t.callback == (s.callback || step.SetCallback?)
      && (step.SetCallback? || step.Exit? ==> t.status == s.status && t.phase == s.phase)
      && (step.BeginConnect? ==> t.status.Connecting? && t.phase.Dialling?)
      && (step.ConnectFails? ==> t.status.Disconnected? && t.phase.Idle?)
      && (step.SwapDispatcher? ==> t.status.Connected? && t.phase.Swapped?)
      && (step.ClearFlag? ==> t.status == s.status && t.phase.Cleared?)
      && (step.FinishConnect? ==> t.status == s.status && t.phase.Idle?)
  {
  }

  /** In every interleaving the current connection has at most one live bridge per older exit, plus one. */
  lemma {:induction false} BridgesAreBounded(steps: seq<Step>)
    requires IsRun(steps)
    ensures LiveNow(After(steps)) <= 1 + OlderExits(steps)
  {
    RunKeepsGuarded(steps);
  }

  /** Once the callback and a connection exist, connecting or registering leaves the connection with a bridge. */
  lemma {:induction false} ConnectionIsServed(steps: seq<Step>)
    requires IsRun(steps) && steps != [] && After(steps).connection != 0 && After(steps).callback
    requires steps[|steps| - 1].SetCallback? || steps[|steps| - 1].FinishConnect?
    ensures LiveNow(After(steps)) >= 1
  {
    var n := |steps| - 1;
    RunKeepsGuarded(steps[..n]);
    var s := After(steps[..n]);
    StartKeepsGuarded(if steps[n].SetCallback? then s.(callback := true) else s, OlderExits(steps[..n]));
  }

  /** Registering a callback adds a bridge exactly when the flag is down, however many are already live. */
  lemma {:induction false} RegistrationAddsIff(steps: seq<Step>)
    requires IsRun(steps) && After(steps).phase.Idle? && After(steps).connection != 0
    ensures var s := After(steps);
      LiveNow(Apply(s, SetCallback)) == LiveNow(s) + if s.started then 0 else 1
  {
    RunKeepsGuarded(steps);
    StartKeepsGuarded(After(steps).(callback := true), OlderExits(steps));
  }

  /** The exit of an older task lowers the flag under a live bridge, so the next registration adds another. */
  lemma {:induction false} OlderExitThenRegistrationDuplicates(steps: seq<Step>, k: nat)
    requires IsRun(steps) && After(steps).phase.Idle? && Enabled(After(steps), Exit(k))
    requires IsOlderExit(After(steps), Exit(k))
    ensures IsRun(steps + [Exit(k), SetCallback])
    ensures LiveNow(After(steps + [Exit(k), SetCallback])) == LiveNow(After(steps)) + 1
    ensures OlderExits(steps + [Exit(k), SetCallback]) == OlderExits(steps) + 1
    ensures After(steps + [Exit(k), SetCallback]).phase.Idle?
    ensures After(steps + [Exit(k), SetCallback]).connection == After(steps).connection
    ensures forall j :: 0 <= j < |After(steps).tasks| && j != k ==>
      j < |After(steps + [Exit(k), SetCallback]).tasks| &&
      After(steps + [Exit(k), SetCallback]).tasks[j] == After(steps).tasks[j]
  {
    var exited := steps + [Exit(k)];
    assert steps + [Exit(k), SetCallback] == exited + [SetCallback];
    OneMoreStep(steps, Exit(k));
    OneMoreStep(exited, SetCallback);
    RunKeepsGuarded(steps);
    LiveOnAfterExit(After(steps).tasks, k, After(steps).connection);
    RegistrationAddsIff(exited);
  }

  /** A whole successful connect with nothing in between. */
  const CONNECT_STEPS := [BeginConnect, SwapDispatcher, ClearFlag, FinishConnect]

  lemma {:induction false} ConnectAddsBridge(steps: seq<Step>)
    requires IsRun(steps) && After(steps).phase.Idle? && After(steps).callback
    ensures IsRun(steps + CONNECT_STEPS)
    ensures OlderExits(steps + CONNECT_STEPS) == 0
    ensures var s, t := After(steps), After(steps + CONNECT_STEPS);
      t == State(Connected, Idle, s.connection + 1, true, true, s.tasks + [Task(s.connection + 1, true)])
  {
    var a := steps + [BeginConnect];
    var b := a + [SwapDispatcher];
    var c := b + [ClearFlag];
    OneMoreStep(steps, BeginConnect);
    OneMoreStep(a, SwapDispatcher);
    OneMoreStep(b, ClearFlag);
    OneMoreStep(c, FinishConnect);
    assert steps + CONNECT_STEPS == c + [FinishConnect];
  }

  ghost predicate AllLiveInTurn(tasks: seq<Task>) {
    forall k :: 0 <= k < |tasks| ==> tasks[k] == Task(k + 1, true)
  }

  /** Connections that outlive one another: n reconnects leave n live bridges, one per connection. */
  lemma {:induction false} ReconnectsPileUp(n: nat) returns (steps: seq<Step>)
    ensures IsRun(steps)
    ensures var s := After(steps);
      s.phase.Idle? && s.callback && s.connection == n && |s.tasks| == n && AllLiveInTurn(s.tasks)
    ensures n > 0 ==> OlderExits(steps) == 0
  {
    if n == 0 {
      steps := [SetCallback];
      OneMoreStep([], SetCallback);
      assert [] + [SetCallback] == steps;
    } else {
      var before := ReconnectsPileUp(n - 1);
      ConnectAddsBridge(before);
      steps := before + CONNECT_STEPS;
    }
  }

  lemma {:induction false} OneLiveEach(tasks: seq<Task>, connection: nat)
    requires AllLiveInTurn(tasks) && 0 < connection <= |tasks|
    ensures LiveOn(tasks, connection) == 1
    decreases |tasks|
  {
    var n := |tasks| - 1;
    if connection == |tasks| {
      NoneLiveAhead(tasks[..n], connection);
    } else {
      OneLiveEach(tasks[..n], connection);
    }
  }

  /** The bound is attained: for every k some run has k older exits and k + 1 live bridges on one connection. */
  lemma {:induction false} BoundIsTight(k: nat) returns (steps: seq<Step>)
    ensures IsRun(steps) && OlderExits(steps) == k && LiveNow(After(steps)) == k + 1
  {
    steps := PileUpAndExit(k, k);
  }

  lemma {:induction false} PileUpAndExit(older: nat, exits: nat) returns (steps: seq<Step>)
    requires exits <= older
    ensures IsRun(steps) && OlderExits(steps) == exits && LiveNow(After(steps)) == exits + 1
    ensures var s := After(steps);
      && s.phase.Idle? && s.connection == older + 1 && |s.tasks| >= older
      && forall k :: exits <= k < older ==> s.tasks[k] == Task(k + 1, true)
    decreases exits
  {
    if exits == 0 {
      steps := ReconnectsPileUp(older + 1);
      OneLiveEach(After(steps).tasks, older + 1);
    } else {
      var before := PileUpAndExit(older, exits - 1);
      assert After(before).tasks[exits - 1] == Task(exits, true);
      OlderExitThenRegistrationDuplicates(before, exits - 1);
      steps := before + [Exit(exits - 1), SetCallback];
    }
  }

  class AppState {
    var status: Status
    var connection: nat
    var callback: bool
    var started: bool
    var tasks: seq<Task>
    ghost var phase: Phase
    ghost var steps: seq<Step>

    ghost function Model(): State
      reads this
    {
      State(status, phase, connection, callback, started, tasks)
    }

    ghost predicate Valid()
      reads this
    {
      IsRun(steps) && Model() == After(steps)
    }

    constructor ()
      ensures Valid() && steps == []
    {
      status, connection, callback, started, tasks := Disconnected, 0, false, false, [];
      phase, steps := Idle, [];
    }

    ghost method Record(step: Step)
      requires Valid() && Enabled(Model(), step)
      modifies this`steps
      ensures steps == old(steps) + [step]
      ensures IsRun(steps) && After(steps) == Apply(Model(), step)
    {
      OneMoreStep(steps, step);
      steps := steps + [step];
    }

    /** Spawns a bridge task unless the flag says that one is running. */
    method StartEventBridge()
      modifies this
      ensures Model() == Start(old(Model())) && steps == old(steps)
    {
      if connection != 0 && callback {
        if started {
          return;
        }
        started := true;
        tasks := tasks + [Task(connection, true)];
      }
    }

    method BridgeExits(k: nat)
      requires Valid()
      modifies this`started, this`tasks, this`steps
      ensures Valid() && (steps == old(steps) || steps == old(steps) + [Exit(k)])
      ensures tasks == if k < |old(tasks)| then old(tasks)[k := old(tasks)[k].(live := false)] else old(tasks)
      ensures started <==> old(started) && (k < |old(tasks)| ==> !old(tasks)[k].live)
    {
      if k < |tasks| && tasks[k].live {
        Record(Exit(k));
        tasks := tasks[k := tasks[k].(live := false)];
        started := false;
      }
    }

    /** The end of bridge tasks while another caller holds the state; indices that name no live task are skipped. */
    method BridgesExit(exits: seq<nat>)
      requires Valid()
      modifies this
      ensures Valid() && phase == old(phase) && connection == old(connection) && callback == old(callback)
      ensures old(steps) <= steps && forall i :: |old(steps)| <= i < |steps| ==> steps[i].Exit?
      ensures status == old(status) && |tasks| == |old(tasks)|
      ensures forall k :: 0 <= k < |tasks| ==>
        tasks[k] == if k in exits then old(tasks)[k].(live := false) else old(tasks)[k]
      ensures started <==> old(started) && forall k :: k in exits && k < |tasks| ==> !old(tasks)[k].live
    {
      for i := 0 to |exits|
        invariant Valid() && phase == old(phase) && connection == old(connection) && callback == old(callback)
        invariant old(steps) <= steps && forall i :: |old(steps)| <= i < |steps| ==> steps[i].Exit?
        invariant status == old(status) && |tasks| == |old(tasks)|
        invariant forall k :: 0 <= k < |tasks| ==>
          tasks[k] == if k in exits[..i] then old(tasks)[k].(live := false) else old(tasks)[k]
        invariant started <==> old(started) && forall k :: k in exits[..i] && k < |tasks| ==> !old(tasks)[k].live
      {
        assert forall j :: j in exits[..i + 1] <==> j in exits[..i] || j == exits[i];
        BridgeExits(exits[i]);
      }
      assert exits[..|exits|] == exits;
    }

    /** The part of a connect after the handshake: new dispatcher, flag down, bridge up. */
    method InstallDispatcher(swapped: seq<nat>, cleared: seq<nat>)
      requires Valid() && phase.Dialling?
      modifies this
      ensures Valid() && phase.Idle? && status.Connected?
      ensures connection == old(connection) + 1 && callback == old(callback)
      ensures steps != [] && steps[|steps| - 1].FinishConnect?
    {
      Record(SwapDispatcher);
      connection, status, phase := connection + 1, Connected, Swapped;
      BridgesExit(swapped);
      Record(ClearFlag);
      started, phase := false, Cleared;
      BridgesExit(cleared);
      Record(FinishConnect);
      if callback {
        StartEventBridge();
      }
      phase := Idle;
    }

    /** Connects with bridge exits interleaved at every point where another task can run. */
    method DoConnect(succeeds: bool, dialling: seq<nat>, swapped: seq<nat>, cleared: seq<nat>) returns (ok: bool)
      requires Valid() && phase.Idle?
      modifies this
      ensures Valid() && phase.Idle? && ok == succeeds && callback == old(callback)
      ensures connection == old(connection) + if ok then 1 else 0
      ensures status == if ok then Connected else Disconnected
      ensures LiveOn(tasks, connection) <= 1 + OlderExits(steps)
      ensures ok && callback ==> LiveOn(tasks, connection) >= 1
    {
      Record(BeginConnect);
      status, phase := Connecting, Dialling;
      BridgesExit(dialling);
      if succeeds {
        InstallDispatcher(swapped, cleared);
        if callback {
          ConnectionIsServed(steps);
        }
      } else {
        Record(ConnectFails);
        status, phase := Disconnected, Idle;
      }
      BridgesAreBounded(steps);
      ok := succeeds;
    }

    method SetEmitCallback()
      requires Valid() && phase.Idle?
      modifies this
      ensures Valid() && steps == old(steps) + [SetCallback]
      ensures connection == old(connection) && callback && phase.Idle? && status == old(status)
      ensures LiveOn(tasks, connection) <= 1 + OlderExits(steps)
      ensures connection != 0 ==> LiveOn(tasks, connection) >= 1
    {
      Record(SetCallback);
      callback := true;
      if connection != 0 {
        StartEventBridge();
      }
      BridgesAreBounded(steps);
      if connection != 0 {
        ConnectionIsServed(steps);
      }
    }
  }
}
