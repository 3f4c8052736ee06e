/**
 The asynchronous task of one agent: fresh or restored entry, the shared turn loop, the status events it emits, its
 writes to the process table and the signal channel it registers. How turns end and which goals arrive is up to the
 environment, and so are the writes of others to the process table, which all tasks, the launcher and the signal
 handlers share.
 */
module AgentLifecycle {
  import opened Common

  type Pid = nat

  datatype Event = Spawned | Running | Waiting | Crashed | Exit(code: int)

  /** Pending, Running, Paused, Waiting, Stopped and Crashed of the process table, named apart from the events. */
  datatype ProcessStatus = Created | InTurn | Suspended | Idle | Halted | Dead

  /** What happens to the table and the event bus: the agent task emits or writes its own entry, others write some
      entry. */
  datatype Act = Emit(event: Event) | Own(status: ProcessStatus) | Outside(pid: Pid, status: ProcessStatus)

  /** Where a task is when the environment has nothing more to say: in a turn, waiting for a goal, or finished. The
      waits for the table's lock between an event and its write are not among them. */
  datatype Position = BlockedInTurn | BlockedWaiting | Ended

  /** The environment: whether the executor spawns, how each turn ends, and each answer to a wait; None is a kill. */
  datatype World = World(spawns: bool, turns: seq<bool>, goals: seq<Option<string>>)

  // The turn loop as a function of the environment; each step looks at the next turn and the next answer.

  /** The turn ends and a goal arrives. */
  predicate Continues(turns: seq<bool>, goals: seq<Option<string>>) {
    turns != [] && goals != [] && goals[0].Some?
  }

  function TurnEvents(turns: seq<bool>, goals: seq<Option<string>>): seq<Event> {
    if turns == [] then [Running]
    else if goals == [] || goals[0].Some? || turns[0] then [Running, Waiting]
    else [Running, Waiting, Crashed, Exit(1)]
  }

  function LoopEvents(turns: seq<bool>, goals: seq<Option<string>>): seq<Event>
    decreases |turns|
  {
    TurnEvents(turns, goals) + if Continues(turns, goals) then LoopEvents(turns[1..], goals[1..]) else []
  }

  function LoopGoals(first: string, turns: seq<bool>, goals: seq<Option<string>>): seq<string>
    decreases |turns|
  {
    [first] + if Continues(turns, goals) then LoopGoals(goals[0].value, turns[1..], goals[1..]) else []
  }

  function LoopPosition(turns: seq<bool>, goals: seq<Option<string>>): Position
    decreases |turns|
  {
    if Continues(turns, goals) then LoopPosition(turns[1..], goals[1..])
    else if turns == [] then BlockedInTurn
    else if goals == [] then BlockedWaiting
    else Ended
  }

  /** The whole task. */
  function TaskEvents(restored: bool, w: World): seq<Event> {
    (if restored then [] else [Spawned]) +
    if !w.spawns then [Crashed, Exit(1)]
    else if !restored then LoopEvents(w.turns, w.goals)
    else [Waiting] + if w.goals == [] || w.goals[0].None? then [] else LoopEvents(w.turns, w.goals[1..])
  }

  function TaskGoals(goal: string, restored: bool, w: World): seq<string> {
    if !w.spawns then []
    else if !restored then LoopGoals(goal, w.turns, w.goals)
    else if w.goals == [] || w.goals[0].None? then []
    else LoopGoals(w.goals[0].value, w.turns, w.goals[1..])
  }

  function TaskPosition(restored: bool, w: World): Position {
    if !w.spawns then Ended
    else if !restored then LoopPosition(w.turns, w.goals)
    else if w.goals == [] then BlockedWaiting
    else if w.goals[0].None? then Ended
    else LoopPosition(w.turns, w.goals[1..])
  }

  // The same with the writes to the table: an event comes before its write, except when the executor does not spawn.

  function TurnActs(turns: seq<bool>, goals: seq<Option<string>>): seq<Act> {
    var begin, wait := [Emit(Running), Own(InTurn)], [Emit(Waiting), Own(Idle)];
    if turns == [] then begin
    else if goals == [] || goals[0].Some? || turns[0] then begin + wait
    else begin + wait + [Emit(Crashed), Emit(Exit(1)), Own(Dead)]
  }

  function LoopActs(turns: seq<bool>, goals: seq<Option<string>>): seq<Act>
    decreases |turns|
  {
    TurnActs(turns, goals) + if Continues(turns, goals) then LoopActs(turns[1..], goals[1..]) else []
  }

  /** What the agent task does after announcing itself. */
  function TaskBody(restored: bool, w: World): seq<Act> {
    if !w.spawns then [Own(Dead), Emit(Crashed), Emit(Exit(1))]
    else if !restored then LoopActs(w.turns, w.goals)
    else
      [Emit(Waiting), Own(Idle)]
        + if w.goals == [] || w.goals[0].None? then [] else LoopActs(w.turns, w.goals[1..])
  }

  function TaskActs(restored: bool, w: World): seq<Act> {
    (if restored then [] else [Emit(Spawned)]) + TaskBody(restored, w)
  }

  // Histories: the agent task's acts, interleaved with the writes of others.

  function Mine(history: seq<Act>): seq<Act> {
    if history == [] then []
    else
      var n := |history| - 1;
      Mine(history[..n]) + if history[n].Outside? then [] else [history[n]]
  }

  function EventsIn(acts: seq<Act>): seq<Event> {
    if acts == [] then []
    else
      var n := |acts| - 1;
      EventsIn(acts[..n]) + if acts[n].Emit? then [acts[n].event] else []
  }

  /** Setting the status of an unknown pid changes nothing. */
  function Write(table: map<Pid, ProcessStatus>, pid: Pid, status: ProcessStatus): map<Pid, ProcessStatus> {
    if pid in table then table[pid := status] else table
  }

  function TableStep(table: map<Pid, ProcessStatus>, me: Pid, act: Act): map<Pid, ProcessStatus> {
    match act
    case Emit(_) => table
    case Own(status) => Write(table, me, status)
    case Outside(pid, status) => Write(table, pid, status)
  }

  function TableAfter(table: map<Pid, ProcessStatus>, me: Pid, history: seq<Act>): map<Pid, ProcessStatus> {
    if history == [] then table
    else TableStep(TableAfter(table, me, history[..|history| - 1]), me, history[|history| - 1])
  }

  /** The last status the agent task itself wrote. */
  function LastOwn(acts: seq<Act>): Option<ProcessStatus> {
    if acts == [] then None
    else
      var n := |acts| - 1;
      if acts[n].Own? then Some(acts[n].status) else LastOwn(acts[..n])
  }

  /** The last status others wrote to the agent task's entry since the agent task's own last write. */
  function LateWrite(me: Pid, history: seq<Act>): Option<ProcessStatus> {
    if history == [] then None
    else
      var n := |history| - 1;
      match history[n]
      case Own(_) => None
      case Emit(_) => LateWrite(me, history[..n])
      case Outside(pid, status) => if pid == me then Some(status) else LateWrite(me, history[..n])
  }

  // The language of status traces.

  function Rounds(n: nat): seq<Event> {
    if n == 0 then [] else [Running, Waiting] + Rounds(n - 1)
  }

  function Crash(crashed: bool): seq<Event> {
    if crashed then [Crashed, Exit(1)] else []
  }

  /** `(running waiting)^n`, then nothing, an open turn, or a crash: the shapes a loop trace can have at each
      position. */
  predicate LoopShape(trace: seq<Event>, position: Position, n: nat, crashed: bool) {
    match position
    case BlockedInTurn => trace == Rounds(n) + [Running] && !crashed
    case BlockedWaiting => n >= 1 && trace == Rounds(n) && !crashed
    case Ended => n >= 1 && trace == Rounds(n) + Crash(crashed)
  }

  function StatusAfter(events: seq<Event>): Option<ProcessStatus> {
    if events == [] then None
    else
      match events[|events| - 1]
      case Running => Some(InTurn)
      case Waiting => Some(Idle)
      case Crashed => Some(Dead)
      case _ => StatusAfter(events[..|events| - 1])
  }

  lemma {:induction false} EventsInAppend(a: seq<Act>, b: seq<Act>)
    ensures EventsIn(a + b) == EventsIn(a) + EventsIn(b)
    decreases |b|
  {
    if b == [] {
      assert a + b == a;
    } else {
      var n := |b| - 1;
      assert (a + b)[..|a| + n] == a + b[..n] && (a + b)[|a| + n] == b[n];
      EventsInAppend(a, b[..n]);
      Associates(EventsIn(a), EventsIn(b[..n]), if b[n].Emit? then [b[n].event] else []);
    }
  }

  lemma EventsInPair(e: Event, status: ProcessStatus)
    ensures EventsIn([Emit(e)]) == [e]
    ensures EventsIn([Emit(e), Own(status)]) == [e]
  {
    assert [Emit(e)][..0] == [] && [Emit(e), Own(status)][..1] == [Emit(e)];
  }

  lemma EventsInCrash()
    ensures EventsIn([Emit(Crashed), Emit(Exit(1)), Own(Dead)]) == [Crashed, Exit(1)]
    ensures EventsIn([Own(Dead), Emit(Crashed), Emit(Exit(1))]) == [Crashed, Exit(1)]
  {
    var late, early := [Emit(Crashed), Emit(Exit(1)), Own(Dead)], [Own(Dead), Emit(Crashed), Emit(Exit(1))];
    assert late[..2] == [Emit(Crashed), Emit(Exit(1))] && late[..2][..1] == [Emit(Crashed)];
    assert early[..2] == [Own(Dead), Emit(Crashed)] && early[..2][..1] == [Own(Dead)] && [Own(Dead)][..0] == [];
    EventsInPair(Crashed, Dead);
    assert EventsIn([Own(Dead)]) == [];
  }

  lemma TurnEmits(turns: seq<bool>, goals: seq<Option<string>>)
    ensures EventsIn(TurnActs(turns, goals)) == TurnEvents(turns, goals)
  {
    var begin, wait := [Emit(Running), Own(InTurn)], [Emit(Waiting), Own(Idle)];
    EventsInPair(Running, InTurn);
    EventsInPair(Waiting, Idle);
    EventsInCrash();
    EventsInAppend(begin, wait);
    EventsInAppend(begin + wait, [Emit(Crashed), Emit(Exit(1)), Own(Dead)]);
  }

  lemma {:induction false} LoopEmits(turns: seq<bool>, goals: seq<Option<string>>)
    ensures EventsIn(LoopActs(turns, goals)) == LoopEvents(turns, goals)
    decreases |turns|
  {
    TurnEmits(turns, goals);
    if Continues(turns, goals) {
      LoopEmits(turns[1..], goals[1..]);
      EventsInAppend(TurnActs(turns, goals), LoopActs(turns[1..], goals[1..]));
    } else {
      assert TurnActs(turns, goals) + [] == TurnActs(turns, goals);
    }
  }

  /** The agent task emits its trace. */
  lemma TaskEmits(restored: bool, w: World)
    ensures EventsIn(TaskActs(restored, w)) == TaskEvents(restored, w)
  {
    var entry, body := if restored then [] else [Emit(Spawned)], TaskBody(restored, w);
    EventsInPair(Spawned, Created);
    EventsInPair(Waiting, Idle);
    EventsInCrash();
    LoopEmits(w.turns, w.goals);
    if w.goals != [] {
      LoopEmits(w.turns, w.goals[1..]);
      EventsInAppend([Emit(Waiting), Own(Idle)], LoopActs(w.turns, w.goals[1..]));
    }
    assert [Emit(Waiting), Own(Idle)] + [] == [Emit(Waiting), Own(Idle)];
    EventsInAppend(entry, body);
  }

  // The agent task's own writes match its events.

  lemma {:induction false} LastOwnAppend(a: seq<Act>, b: seq<Act>)
    ensures LastOwn(a + b) == if LastOwn(b).Some? then LastOwn(b) else LastOwn(a)
    decreases |b|
  {
    if b == [] {
      assert a + b == a;
    } else {
      var n := |b| - 1;
      assert (a + b)[..|a| + n] == a + b[..n] && (a + b)[|a| + n] == b[n];
      LastOwnAppend(a, b[..n]);
    }
  }

  lemma {:induction false} StatusAppend(a: seq<Event>, b: seq<Event>)
    ensures StatusAfter(a + b) == if StatusAfter(b).Some? then StatusAfter(b) else StatusAfter(a)
    decreases |b|
  {
    if b == [] {
      assert a + b == a;
    } else {
      var n := |b| - 1;
      assert (a + b)[..|a| + n] == a + b[..n] && (a + b)[|a| + n] == b[n];
      StatusAppend(a, b[..n]);
    }
  }

  lemma TurnWritesStatus(turns: seq<bool>, goals: seq<Option<string>>)
    ensures LastOwn(TurnActs(turns, goals)).Some?
    ensures LastOwn(TurnActs(turns, goals)) == StatusAfter(TurnEvents(turns, goals))
  {
    var trace := TurnEvents(turns, goals);
    if |trace| == 4 {
      assert trace[..3] == [Running, Waiting, Crashed];
    }
  }

  lemma {:induction false} LoopWritesStatus(turns: seq<bool>, goals: seq<Option<string>>)
    ensures LastOwn(LoopActs(turns, goals)).Some?
    ensures LastOwn(LoopActs(turns, goals)) == StatusAfter(LoopEvents(turns, goals))
    decreases |turns|
  {
    TurnWritesStatus(turns, goals);
    if Continues(turns, goals) {
      LoopWritesStatus(turns[1..], goals[1..]);
      LastOwnAppend(TurnActs(turns, goals), LoopActs(turns[1..], goals[1..]));
      StatusAppend(TurnEvents(turns, goals), LoopEvents(turns[1..], goals[1..]));
    } else {
      assert TurnActs(turns, goals) + [] == TurnActs(turns, goals);
      assert TurnEvents(turns, goals) + [] == TurnEvents(turns, goals);
    }
  }

  lemma RestoredWritesStatus(turns: seq<bool>, goals: seq<Option<string>>)
    ensures LastOwn([Emit(Waiting), Own(Idle)] + LoopActs(turns, goals)).Some?
    ensures LastOwn([Emit(Waiting), Own(Idle)] + LoopActs(turns, goals))
      == StatusAfter([Waiting] + LoopEvents(turns, goals))
  {
    LoopWritesStatus(turns, goals);
    LastOwnAppend([Emit(Waiting), Own(Idle)], LoopActs(turns, goals));
    StatusAppend([Waiting], LoopEvents(turns, goals));
  }

  lemma FreshWritesStatus(turns: seq<bool>, goals: seq<Option<string>>)
    ensures LastOwn([Emit(Spawned)] + LoopActs(turns, goals)).Some?
    ensures LastOwn([Emit(Spawned)] + LoopActs(turns, goals)) == StatusAfter([Spawned] + LoopEvents(turns, goals))
  {
    LoopWritesStatus(turns, goals);
    LastOwnAppend([Emit(Spawned)], LoopActs(turns, goals));
    StatusAppend([Spawned], LoopEvents(turns, goals));
  }

  /** Wherever the agent task blocks or ends, its last own write is the status its last status event announced. */
  lemma TaskWritesStatus(restored: bool, w: World)
    ensures LastOwn(TaskActs(restored, w)).Some?
    ensures LastOwn(TaskActs(restored, w)) == StatusAfter(TaskEvents(restored, w))
  {
    if !w.spawns {
      FailedSpawnStatus(restored);
      LastOwnAppend(if restored then [] else [Emit(Spawned)], [Own(Dead), Emit(Crashed), Emit(Exit(1))]);
    } else if !restored {
      FreshWritesStatus(w.turns, w.goals);
    } else if w.goals == [] || w.goals[0].None? {
      assert TaskActs(restored, w) == [Emit(Waiting), Own(Idle)];
      assert TaskEvents(restored, w) == [Waiting];
    } else {
      var rest := w.goals[1..];
      RestoredWritesStatus(w.turns, rest);
      assert TaskActs(restored, w) == [Emit(Waiting), Own(Idle)] + LoopActs(w.turns, rest);
      assert TaskEvents(restored, w) == [Waiting] + LoopEvents(w.turns, rest);
    }
  }

  lemma FailedSpawnStatus(restored: bool)
    ensures StatusAfter((if restored then [] else [Spawned]) + [Crashed, Exit(1)]) == Some(Dead)
    ensures LastOwn([Own(Dead), Emit(Crashed), Emit(Exit(1))]) == Some(Dead)
  {
    var acts := [Own(Dead), Emit(Crashed), Emit(Exit(1))];
    assert acts[..2] == [Own(Dead), Emit(Crashed)] && acts[..2][..1] == [Own(Dead)];
    assert [Crashed, Exit(1)][..1] == [Crashed];
    StatusAppend(if restored then [] else [Spawned], [Crashed, Exit(1)]);
  }

  // The shared entry.

  /** The entry holds the last late write of others, or else the agent task's own last write, or else what it held at
      first. */
  lemma {:induction false} EntryIsLastWrite(table: map<Pid, ProcessStatus>, me: Pid, history: seq<Act>)
    requires me in table
    ensures var after := TableAfter(table, me, history);
      && me in after
      && after[me] == if LateWrite(me, history).Some? then LateWrite(me, history).value
                      else if LastOwn(Mine(history)).Some? then LastOwn(Mine(history)).value
                      else table[me]
    decreases |history|
  {
    if history != [] {
      var n := |history| - 1;
      EntryIsLastWrite(table, me, history[..n]);
      LastOwnAppend(Mine(history[..n]), if history[n].Outside? then [] else [history[n]]);
      assert LastOwn([history[n]]) == if history[n].Own? then Some(history[n].status) else None by {
        assert [history[n]][..0] == [];
      }
    }
  }

  /** Under every interleaving with the writes of others: wherever the agent task blocks or ends, its table entry shows
      what its last status event announced exactly when nobody wrote to the entry after the agent task's own last write,
      or the last who did wrote that status. */
  lemma TableAgreesIff(table: map<Pid, ProcessStatus>, me: Pid, restored: bool, w: World, history: seq<Act>)
    requires me in table && Mine(history) == TaskActs(restored, w)
    ensures StatusAfter(TaskEvents(restored, w)).Some? && me in TableAfter(table, me, history)
    ensures var announced := StatusAfter(TaskEvents(restored, w)).value;
      TableAfter(table, me, history)[me] == announced <==>
        LateWrite(me, history).None? || LateWrite(me, history) == Some(announced)
  {
    TaskWritesStatus(restored, w);
    EntryIsLastWrite(table, me, history);
  }

  /** A late write of another status breaks the agreement, and nothing the agent task does before its next write repairs
      it. */
  lemma {:induction false} LateWriteStays(table: map<Pid, ProcessStatus>, me: Pid, history: seq<Act>,
                                          status: ProcessStatus, more: seq<Act>)
    requires me in table && forall i :: 0 <= i < |more| ==> more[i].Emit? || (more[i].Outside? && more[i].pid != me)
    ensures var all := history + [Outside(me, status)] + more;
      me in TableAfter(table, me, all) && TableAfter(table, me, all)[me] == status
    decreases |more|
  {
    var all := history + [Outside(me, status)] + more;
    var n := |all| - 1;
    if more == [] {
      assert all[..n] == history && all[n] == Outside(me, status);
      EntryIsLastWrite(table, me, history);
    } else {
      assert all[..n] == history + [Outside(me, status)] + more[..|more| - 1] && all[n] == more[|more| - 1];
      LateWriteStays(table, me, history, status, more[..|more| - 1]);
    }
  }

  lemma {:induction false} MineOfOwnActs(acts: seq<Act>)
    requires forall i :: 0 <= i < |acts| ==> !acts[i].Outside?
    ensures Mine(acts) == acts
    decreases |acts|
  {
    if acts != [] {
      MineOfOwnActs(acts[..|acts| - 1]);
    }
  }

  /** So the agreement fails: when the executor does not spawn, a launcher that marks the agent as running only
      afterwards leaves it running in the table for good, although its last event says that it crashed. */
  lemma LauncherOverwritesCrash(table: map<Pid, ProcessStatus>, me: Pid) returns (w: World, history: seq<Act>)
    requires me in table
    ensures TaskPosition(false, w).Ended? && Mine(history) == TaskActs(false, w)
    ensures StatusAfter(TaskEvents(false, w)) == Some(Dead) && me in TableAfter(table, me, history)
    ensures TableAfter(table, me, history)[me] == InTurn
  {
    w := World(false, [], []);
    var acts := TaskActs(false, w);
    history := acts + [Outside(me, InTurn)];
    assert history[..|acts|] == acts;
    MineOfOwnActs(acts);
    FailedSpawnStatus(false);
    LateWriteStays(table, me, acts, InTurn, []);
    assert history + [] == history;
  }

  /** And resuming an agent that waits for a goal leaves it running in the table while its last event says waiting. */
  lemma ResumeOverwritesWaiting(table: map<Pid, ProcessStatus>, me: Pid) returns (w: World, history: seq<Act>)
    requires me in table
    ensures TaskPosition(true, w).BlockedWaiting? && Mine(history) == TaskActs(true, w)
    ensures StatusAfter(TaskEvents(true, w)) == Some(Idle) && me in TableAfter(table, me, history)
    ensures TableAfter(table, me, history)[me] == InTurn
  {
    w := World(true, [], []);
    var acts := TaskActs(true, w);
    assert acts == [Emit(Waiting), Own(Idle)] && TaskEvents(true, w) == [Waiting];
    history := acts + [Outside(me, InTurn)];
    assert history[..|acts|] == acts;
    MineOfOwnActs(acts);
    LateWriteStays(table, me, acts, InTurn, []);
    assert history + [] == history;
  }

  /** A round that continues, put in front of what follows it. */
  lemma ActsThenRest(acts: seq<Act>, t: seq<bool>, g: seq<Option<string>>)
    requires Continues(t, g)
    ensures acts + LoopActs(t, g) == acts + TurnActs(t, g) + LoopActs(t[1..], g[1..])
  {
    Associates(acts, TurnActs(t, g), LoopActs(t[1..], g[1..]));
  }

  lemma GoalsThenRest(run: seq<string>, recorded: seq<string>, goal: string, t: seq<bool>, g: seq<Option<string>>)
    requires Continues(t, g)
    ensures run + LoopGoals(goal, t, g) == run + [goal] + LoopGoals(g[0].value, t[1..], g[1..])
    ensures recorded + LoopGoals(goal, t, g)[1..]
      == recorded + [g[0].value] + LoopGoals(g[0].value, t[1..], g[1..])[1..]
  {
    var rest := LoopGoals(g[0].value, t[1..], g[1..]);
    FirstThenRest(goal, rest);
    Associates(run, [goal], rest);
    Associates(recorded, [g[0].value], rest[1..]);
  }

  lemma FirstThenRest(goal: string, rest: seq<string>)
    requires rest != []
    ensures ([goal] + rest)[1..] == rest && rest == [rest[0]] + rest[1..]
  {
  }

  /** A write by the launcher, a signal handler or the kill command. */
  datatype OtherWrite = OtherWrite(pid: Pid, status: ProcessStatus)

  function Theirs(history: seq<Act>): seq<Act> {
    if history == [] then []
    else
      var n := |history| - 1;
      Theirs(history[..n]) + if history[n].Outside? then [history[n]] else []
  }

  function AsActs(batch: seq<OtherWrite>): seq<Act> {
    seq(|batch|, i requires 0 <= i < |batch| => Outside(batch[i].pid, batch[i].status))
  }

  function AllActs(batches: seq<seq<OtherWrite>>): seq<Act> {
    if batches == [] then [] else AsActs(batches[0]) + AllActs(batches[1..])
  }

  lemma OneMoreAct(table: map<Pid, ProcessStatus>, me: Pid, history: seq<Act>, act: Act)
    ensures var all := history + [act];
      && Mine(all) == (if act.Outside? then Mine(history) else Mine(history) + [act])
      && Theirs(all) == (if act.Outside? then Theirs(history) + [act] else Theirs(history))
      && EventsIn(Mine(all)) == (if act.Emit? then EventsIn(Mine(history)) + [act.event] else EventsIn(Mine(history)))
      && TableAfter(table, me, all) == TableStep(TableAfter(table, me, history), me, act)
  {
    assert (history + [act])[..|history|] == history;
    assert Theirs(history) + [] == Theirs(history) && Mine(history) + [] == Mine(history);
    if !act.Outside? {
      var mine := Mine(history);
      assert (mine + [act])[..|mine|] == mine;
      assert EventsIn(mine) + [] == EventsIn(mine);
    }
  }

  lemma OwnWriteShows(table: map<Pid, ProcessStatus>, me: Pid, history: seq<Act>, status: ProcessStatus)
    ensures var all := history + [Own(status)];
      && LateWrite(me, all).None?
      && (me in table ==> me in TableAfter(table, me, all) && TableAfter(table, me, all)[me] == status)
  {
    assert (history + [Own(status)])[..|history|] == history;
    if me in table {
      EntryIsLastWrite(table, me, history);
    }
  }

  /** An agent task. `others` are the writes of others to the shared table, in batches: one before each of the agent
      task's next acts. */
  class AgentTask {
    const pid: Pid
    var events: seq<Event>
    var table: map<Pid, ProcessStatus>
    var others: seq<seq<OtherWrite>>
    var registered: bool
    var goalsRun: seq<string>
    var goalsRecorded: seq<string>
    ghost const initial: map<Pid, ProcessStatus>
    ghost const given: seq<Act>
    ghost var history: seq<Act>
    ghost var mine: seq<Act>
    ghost var theirs: seq<Act>

    ghost predicate Consistent()
      reads this
    {
      && table == TableAfter(initial, pid, history)
      && mine == Mine(history) && events == EventsIn(mine)
      && theirs == Theirs(history)
    }

    /** And every write of others has either happened, in its turn, or is still to come. */
    ghost predicate Valid()
      reads this
    {
      Consistent() && theirs + AllActs(others) == given
    }

    constructor (pid: Pid, table: map<Pid, ProcessStatus>, others: seq<seq<OtherWrite>>)
      ensures Valid() && this.pid == pid && initial == table && this.table == table && this.others == others
      ensures given == AllActs(others)
      ensures history == [] && mine == [] && !registered && goalsRun == [] && goalsRecorded == []
    {
      this.pid, this.table, this.others, initial, given := pid, table, others, table, AllActs(others);
      events, registered, goalsRun, goalsRecorded := [], false, [], [];
      history, mine, theirs := [], [], [];
    }

    method WriteFor(write: OtherWrite)
      requires Consistent()
      modifies this`table, this`history, this`theirs
      ensures Consistent() && theirs == old(theirs) + [Outside(write.pid, write.status)]
    {
      ghost var act := Outside(write.pid, write.status);
      OneMoreAct(initial, pid, history, act);
      history, theirs := history + [act], theirs + [act];
      if write.pid in table {
        table := table[write.pid := write.status];
      }
    }

    /** Others write to the table, one after another. */
    method LetOthersWrite()
      requires Valid()
      modifies this`table, this`others, this`history, this`mine, this`theirs
      ensures Valid() && mine == old(mine)
      ensures |others| == if old(others) == [] then 0 else |old(others)| - 1
    {
      if others == [] {
        return;
      }
      var batch := others[0];
      others := others[1..];
      ghost var before := theirs;
      for i := 0 to |batch|
        invariant Consistent() && mine == old(mine) && others == old(others)[1..]
        invariant theirs == before + AsActs(batch[..i])
      {
        WriteFor(batch[i]);
        assert AsActs(batch[..i + 1]) == AsActs(batch[..i]) + [Outside(batch[i].pid, batch[i].status)];
        Associates(before, AsActs(batch[..i]), [Outside(batch[i].pid, batch[i].status)]);
      }
      assert batch[..|batch|] == batch;
      Associates(before, AsActs(batch), AllActs(others));
    }

    method EmitEvent(event: Event)
      requires Valid()
      modifies this`events, this`table, this`others, this`history, this`mine, this`theirs
      ensures Valid() && mine == old(mine) + [Emit(event)]
    {
      LetOthersWrite();
      OneMoreAct(initial, pid, history, Emit(event));
      history, mine := history + [Emit(event)], mine + [Emit(event)];
      events := events + [event];
    }

    /** Setting the status of an unknown pid is an error that is ignored. */
    method SetStatus(status: ProcessStatus)
      requires Valid()
      modifies this`table, this`others, this`history, this`mine, this`theirs
      ensures Valid() && mine == old(mine) + [Own(status)]
      ensures pid in initial ==> pid in table && table[pid] == status
      ensures LateWrite(pid, history).None?
    {
      LetOthersWrite();
      OwnWriteShows(initial, pid, history, status);
      WriteOwn(status);
    }

    method WriteOwn(status: ProcessStatus)
      requires Consistent()
      modifies this`table, this`history, this`mine
      ensures Consistent() && history == old(history) + [Own(status)] && mine == old(mine) + [Own(status)]
    {
      OneMoreAct(initial, pid, history, Own(status));
      history, mine := history + [Own(status)], mine + [Own(status)];
      if pid in table {
        table := table[pid := status];
      }
    }

    /** A status event and then its write to the table. */
    method Announce(event: Event, status: ProcessStatus)
      requires Valid()
      modifies this`events, this`table, this`others, this`history, this`mine, this`theirs
      ensures Valid() && mine == old(mine) + [Emit(event), Own(status)]
    {
      EmitEvent(event);
      SetStatus(status);
    }

    /** The end of a task that is killed after a failed turn. */
    method DieAfterFailedTurn()
      requires Valid()
      modifies this`events, this`table, this`others, this`history, this`mine, this`theirs
      ensures Valid() && mine == old(mine) + [Emit(Crashed), Emit(Exit(1)), Own(Dead)]
    {
      EmitEvent(Crashed);
      EmitEvent(Exit(1));
      SetStatus(Dead);
    }

    /** The end of a task whose executor does not spawn. */
    method DieUnspawned()
      requires Valid()
      modifies this`events, this`table, this`others, this`history, this`mine, this`theirs
      ensures Valid() && mine == old(mine) + [Own(Dead), Emit(Crashed), Emit(Exit(1))]
    {
      SetStatus(Dead);
      EmitEvent(Crashed);
      EmitEvent(Exit(1));
    }

    /** One iteration: run the turn, go idle, wait for a goal. */
    method OneTurn(goal: string, turns: seq<bool>, goals: seq<Option<string>>)
      returns (next: Option<string>, position: Position)
      requires Valid()
      modifies this`events, this`table, this`others, this`history, this`mine, this`theirs, this`goalsRun,
        this`goalsRecorded
      ensures Valid() && mine == old(mine) + TurnActs(turns, goals)
      ensures goalsRun == old(goalsRun) + [goal]
      ensures next == if Continues(turns, goals) then goals[0] else None
      ensures next.None? ==> position == LoopPosition(turns, goals)
      ensures goalsRecorded == old(goalsRecorded) + if next.Some? then [next.value] else []
    {
      ghost var before := mine;
      ghost var begin, wait := [Emit(Running), Own(InTurn)], [Emit(Waiting), Own(Idle)];
      Announce(Running, InTurn);
      goalsRun := goalsRun + [goal];
      if turns == [] {
        return None, BlockedInTurn;
      }
      Announce(Waiting, Idle);
      Associates(before, begin, wait);
      if goals == [] {
        return None, BlockedWaiting;
      }
      next, position := goals[0], Ended;
      if next.Some? {
        goalsRecorded := goalsRecorded + [next.value];
      } else if !turns[0] {
        DieAfterFailedTurn();
        Associates(before, begin + wait, [Emit(Crashed), Emit(Exit(1)), Own(Dead)]);
      }
    }

    method RunTurnLoop(goal: string, turns: seq<bool>, goals: seq<Option<string>>) returns (position: Position)
      requires Valid()
      modifies this`events, this`table, this`others, this`history, this`mine, this`theirs, this`goalsRun,
        this`goalsRecorded
      ensures Valid() && mine == old(mine) + LoopActs(turns, goals)
      ensures goalsRun == old(goalsRun) + LoopGoals(goal, turns, goals)
      ensures goalsRecorded == old(goalsRecorded) + LoopGoals(goal, turns, goals)[1..]
      ensures position == LoopPosition(turns, goals)
    {
      var currentGoal, t, g := goal, turns, goals;
      while true
        invariant Valid() && mine + LoopActs(t, g) == old(mine) + LoopActs(turns, goals)
        invariant goalsRun + LoopGoals(currentGoal, t, g) == old(goalsRun) + LoopGoals(goal, turns, goals)
        invariant goalsRecorded + LoopGoals(currentGoal, t, g)[1..]
          == old(goalsRecorded) + LoopGoals(goal, turns, goals)[1..]
        invariant LoopPosition(t, g) == LoopPosition(turns, goals)
        decreases |t|
      {
        ghost var before, run, recorded := mine, goalsRun, goalsRecorded;
        var next;
        next, position := OneTurn(currentGoal, t, g);
        if next.None? {
          assert LoopActs(t, g) == TurnActs(t, g);
          assert LoopGoals(currentGoal, t, g) == [currentGoal];
          assert recorded + [] == recorded;
          return;
        }
        ActsThenRest(before, t, g);
        GoalsThenRest(run, recorded, currentGoal, t, g);
        currentGoal, t, g := next.value, t[1..], g[1..];
      }
    }

    /** What the entry shows once others have written all they are going to. */
    method SettleTable(restored: bool, w: World)
      requires Valid() && mine == TaskActs(restored, w)
      modifies this`table, this`others, this`history, this`mine, this`theirs
      ensures Valid() && mine == TaskActs(restored, w) && theirs == given
      ensures table.Keys == initial.Keys && StatusAfter(events).Some?
      ensures pid in table ==>
        (table[pid] == StatusAfter(events).value <==>
           LateWrite(pid, history).None? || LateWrite(pid, history) == StatusAfter(events))
    {
      while others != []
        invariant Valid() && mine == TaskActs(restored, w)
        decreases |others|
      {
        LetOthersWrite();
      }
      assert theirs + [] == theirs;
      TaskEmits(restored, w);
      TaskWritesStatus(restored, w);
      KeysStay(initial, pid, history);
      if pid in table {
        TableAgreesIff(initial, pid, restored, w, history);
      }
    }

    /** A restored task waits for a goal before its first turn. */
    method RunRestored(w: World) returns (position: Position)
      requires Valid() && w.spawns && mine == [] && goalsRun == [] && goalsRecorded == []
      modifies this`events, this`table, this`others, this`history, this`mine, this`theirs, this`goalsRun,
        this`goalsRecorded
      ensures Valid() && mine == TaskBody(true, w)
      ensures goalsRun == TaskGoals("", true, w)
      ensures goalsRecorded == if goalsRun == [] then [] else goalsRun[1..]
      ensures position == TaskPosition(true, w)
    {
      Announce(Waiting, Idle);
      if w.goals == [] {
        return BlockedWaiting;
      }
      if w.goals[0].None? {
        return Ended;
      }
      position := RunTurnLoop(w.goals[0].value, w.turns, w.goals[1..]);
    }

    /** The body of a launched task that nobody aborts. */
    method RunTask(goal: string, restored: bool, w: World) returns (position: Position)
      requires Valid() && mine == [] && !registered && goalsRun == [] && goalsRecorded == []
      modifies this
      ensures Valid() && mine == TaskActs(restored, w)
      ensures goalsRun == TaskGoals(goal, restored, w)
      ensures goalsRecorded == if goalsRun == [] then [] else goalsRun[1..]
      ensures position == TaskPosition(restored, w)
      ensures registered <==> w.spawns && !position.Ended?
    {
      if !restored {
        EmitEvent(Spawned);
      }
      assert mine == if restored then [] else [Emit(Spawned)];
      if !w.spawns {
        DieUnspawned();
        return Ended;
      }
      registered := true;
      if restored {
        position := RunRestored(w);
      } else {
        position := RunTurnLoop(goal, w.turns, w.goals);
      }
      if position.Ended? {
        registered := false;
      }
    }

    /** The agent task up to where it blocks or ends, and the table after that: the trace is the agent task's, the
        signal channel is registered exactly while the agent task lives on, and the entry agrees with the last status
        event exactly when no late write says otherwise. */
    method Launch(goal: string, restored: bool, w: World) returns (position: Position)
      requires Valid() && mine == [] && !registered && goalsRun == [] && goalsRecorded == []
      modifies this
      ensures Valid() && events == TaskEvents(restored, w) && mine == TaskActs(restored, w) && theirs == given
      ensures goalsRun == TaskGoals(goal, restored, w)
      ensures goalsRecorded == if goalsRun == [] then [] else goalsRun[1..]
      ensures position == TaskPosition(restored, w)
      ensures registered <==> w.spawns && !position.Ended?
      ensures table.Keys == initial.Keys && StatusAfter(events).Some?
      ensures pid in table ==>
        (table[pid] == StatusAfter(events).value <==>
           LateWrite(pid, history).None? || LateWrite(pid, history) == StatusAfter(events))
    {
      position := RunTask(goal, restored, w);
      SettleTable(restored, w);
      TaskEmits(restored, w);
    }
  }

  lemma {:induction false} KeysStay(table: map<Pid, ProcessStatus>, me: Pid, history: seq<Act>)
    ensures TableAfter(table, me, history).Keys == table.Keys
    decreases |history|
  {
    if history != [] {
      KeysStay(table, me, history[..|history| - 1]);
    }
  }

  // The traces of the loop are exactly the shapes of the language.

  lemma ShapeOfOneMoreRound(rest: seq<Event>, position: Position, n: nat, crashed: bool)
    requires LoopShape(rest, position, n, crashed)
    ensures LoopShape([Running, Waiting] + rest, position, n + 1, crashed)
  {
    assert [Running, Waiting] + (Rounds(n) + [Running]) == Rounds(n + 1) + [Running];
    assert [Running, Waiting] + (Rounds(n) + Crash(crashed)) == Rounds(n + 1) + Crash(crashed);
  }

  lemma ShapeOfLastRound(turns: seq<bool>, goals: seq<Option<string>>)
    requires !Continues(turns, goals)
    ensures LoopShape(LoopEvents(turns, goals), LoopPosition(turns, goals), if turns == [] then 0 else 1,
                      turns != [] && goals != [] && !turns[0])
  {
    assert Rounds(0) == [] && Rounds(1) == [Running, Waiting] + [] == [Running, Waiting];
    assert [] + [Running] == [Running];
    assert LoopEvents(turns, goals) == TurnEvents(turns, goals);
  }

  /** Soundness: every loop trace has one of the shapes, with a crash exactly when it is killed after a failed turn. */
  lemma {:induction false} LoopTraceHasShape(turns: seq<bool>, goals: seq<Option<string>>)
    returns (n: nat, crashed: bool)
    ensures LoopShape(LoopEvents(turns, goals), LoopPosition(turns, goals), n, crashed)
    ensures n <= |turns| && (LoopPosition(turns, goals).BlockedInTurn? ==> n == |turns|)
    ensures LoopPosition(turns, goals).Ended? ==>
      1 <= n <= |goals| && goals[n - 1].None? && (crashed <==> !turns[n - 1])
    decreases |turns|
  {
    if Continues(turns, goals) {
      n, crashed := LoopTraceHasShape(turns[1..], goals[1..]);
      ShapeOfOneMoreRound(LoopEvents(turns[1..], goals[1..]), LoopPosition(turns, goals), n, crashed);
      n := n + 1;
    } else {
      n := if turns == [] then 0 else 1;
      crashed := turns != [] && goals != [] && !turns[0];
      ShapeOfLastRound(turns, goals);
    }
  }

  /** An ended fresh task: it never spawned, or it went round at least once and may have crashed. */
  ghost predicate FreshEnded(trace: seq<Event>) {
    || trace == [Spawned, Crashed, Exit(1)]
    || exists n: nat, crashed: bool :: n >= 1 && trace == [Spawned] + Rounds(n) + Crash(crashed)
  }

  /** An ended restored task whose executor spawned: it waited first, and can crash only after a round. */
  ghost predicate RestoredEnded(trace: seq<Event>) {
    exists n: nat, crashed: bool :: (crashed ==> n >= 1) && trace == [Waiting] + Rounds(n) + Crash(crashed)
  }

  lemma EndedTracesAreInLanguage(restored: bool, w: World)
    requires TaskPosition(restored, w).Ended?
    ensures !restored ==> FreshEnded(TaskEvents(restored, w))
    ensures restored && w.spawns ==> RestoredEnded(TaskEvents(restored, w))
    ensures restored && !w.spawns ==> TaskEvents(restored, w) == [Crashed, Exit(1)]
  {
    if w.spawns {
      if !restored {
        var n, crashed := LoopTraceHasShape(w.turns, w.goals);
        assert TaskEvents(restored, w) == [Spawned] + Rounds(n) + Crash(crashed);
      } else if w.goals[0].None? {
        assert TaskEvents(restored, w) == [Waiting] + Rounds(0) + Crash(false);
      } else {
        var n, crashed := LoopTraceHasShape(w.turns, w.goals[1..]);
        assert TaskEvents(restored, w) == [Waiting] + Rounds(n) + Crash(crashed);
      }
    }
  }

  /** Completeness: every such number of rounds, with or without a crash, is the trace of some environment. */
  lemma {:induction false} EveryShapeOccurs(n: nat, crashed: bool)
    returns (turns: seq<bool>, goals: seq<Option<string>>)
    requires n >= 1
    ensures LoopPosition(turns, goals).Ended? && LoopEvents(turns, goals) == Rounds(n) + Crash(crashed)
  {
    assert Rounds(0) == [] && Rounds(1) == [Running, Waiting] + [] == [Running, Waiting];
    if n == 1 {
      turns, goals := [!crashed], [None];
      assert LoopEvents(turns, goals) == TurnEvents(turns, goals) + [];
    } else {
      var t, g := EveryShapeOccurs(n - 1, crashed);
      turns, goals := [true] + t, [Some("next")] + g;
      assert turns[1..] == t && goals[1..] == g;
      assert [Running, Waiting] + (Rounds(n - 1) + Crash(crashed)) == Rounds(n) + Crash(crashed);
    }
  }

  /** The goals run are the first one and then each received goal, once, in order; nothing received is skipped. */
  lemma {:induction false} GoalsRunInOrder(first: string, turns: seq<bool>, goals: seq<Option<string>>)
    ensures var run := LoopGoals(first, turns, goals);
      && |run| >= 1 && run[0] == first && |run| - 1 <= |goals|
      && (forall i :: 1 <= i < |run| ==> goals[i - 1] == Some(run[i]))
      && (LoopPosition(turns, goals).Ended? ==> |run| - 1 < |goals| && goals[|run| - 1] == None)
      && (LoopPosition(turns, goals).BlockedWaiting? ==> |run| - 1 == |goals|)
    decreases |turns|
  {
    if Continues(turns, goals) {
      GoalsRunInOrder(goals[0].value, turns[1..], goals[1..]);
      var run, rest := LoopGoals(first, turns, goals), LoopGoals(goals[0].value, turns[1..], goals[1..]);
      forall i | 1 <= i < |run| ensures goals[i - 1] == Some(run[i]) {
        if i == 1 {
          assert run[1] == rest[0];
        } else {
          assert run[i] == rest[i - 1] && goals[1..][i - 2] == Some(rest[i - 1]);
        }
      }
    }
  }

  /** Every task, wherever it blocks or ends: a failed spawn, a restored wait that got no goal, or a loop trace behind
      the entry event. */
  lemma TaskTraceHasShape(restored: bool, w: World) returns (n: nat, crashed: bool)
    ensures var trace, position := TaskEvents(restored, w), TaskPosition(restored, w);
      var entry := if restored then [Waiting] else [Spawned];
      if !w.spawns then position.Ended? && trace == (if restored then [] else [Spawned]) + [Crashed, Exit(1)]
      else if restored && (w.goals == [] || w.goals[0].None?)
      then trace == [Waiting] && position == if w.goals == [] then BlockedWaiting else Ended
      else entry <= trace && LoopShape(trace[1..], position, n, crashed)
  {
    n, crashed := 0, false;
    if w.spawns && !restored {
      n, crashed := LoopTraceHasShape(w.turns, w.goals);
      BehindEntry(Spawned, LoopEvents(w.turns, w.goals));
    } else if w.spawns && w.goals != [] && w.goals[0].Some? {
      n, crashed := LoopTraceHasShape(w.turns, w.goals[1..]);
      BehindEntry(Waiting, LoopEvents(w.turns, w.goals[1..]));
    }
  }

  lemma BehindEntry(entry: Event, trace: seq<Event>)
    ensures [entry] <= [entry] + trace && ([entry] + trace)[1..] == trace && [] + ([entry] + trace) == [entry] + trace
  {
  }

  /** Every task runs the initial goal, unless it is restored, and then each received goal, once and in order: all of
      them when it waits for the next, all up to the kill when it ends. */
  lemma TaskGoalsRunInOrder(goal: string, restored: bool, w: World)
    requires w.spawns
    ensures var run, first := TaskGoals(goal, restored, w), if restored then 0 else 1;
      && (!restored ==> run != [] && run[0] == goal)
      && first <= |run| <= |w.goals| + first
      && (forall i :: first <= i < |run| ==> w.goals[i - first] == Some(run[i]))
      && (TaskPosition(restored, w).BlockedWaiting? ==> |run| == |w.goals| + first)
      && (TaskPosition(restored, w).Ended? ==> |run| < |w.goals| + first && w.goals[|run| - first] == None)
  {
    if !restored {
      GoalsRunInOrder(goal, w.turns, w.goals);
    } else if w.goals != [] && w.goals[0].Some? {
      var run := TaskGoals(goal, restored, w);
      GoalsRunInOrder(w.goals[0].value, w.turns, w.goals[1..]);
      forall i | 0 <= i < |run| ensures w.goals[i] == Some(run[i]) {
        if i > 0 { assert w.goals[1..][i - 1] == Some(run[i]); }
      }
    }
  }
}
