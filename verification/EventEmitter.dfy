/** The reconnecting event emitter: its resume cursor and its back-off between connection attempts. */
module EventEmitter {
  import opened Common

  datatype Event = Event(seqNo: nat, body: string)

  /** What the dispatcher's receiver yields until it reports that the channel is closed. */
  datatype Item = Received(event: Event) | Lagged(count: nat)

  /** The environment's answer to one connection attempt. */
  datatype Attempt = Fails | Connects(items: seq<Item>)

  /** What the emitter does, in order. */
  datatype Action =
    | Connect(cursor: Option<nat>)
    | Online
    | Forward(event: Event)
    | Offline
    | Sleep(seconds: nat)

  datatype State = State(lastSeq: Option<nat>, backoff: nat, log: seq<Action>)

  const MAX_BACKOFF := 60

  function Doubled(backoff: nat): nat {
    if 2 * backoff <= MAX_BACKOFF then 2 * backoff else MAX_BACKOFF
  }

  function Raise(last: Option<nat>, seqNo: nat): Option<nat> {
    Some(if last.Some? && last.value > seqNo then last.value else seqNo)
  }

  function OnItem(s: State, item: Item): State {
    if item.Lagged? then s
    else s.(lastSeq := Raise(s.lastSeq, item.event.seqNo), log := s.log + [Forward(item.event)])
  }

  function OnItems(s: State, items: seq<Item>): State {
    if items == [] then s
    else OnItem(OnItems(s, items[..|items| - 1]), items[|items| - 1])
  }

  function Acts(s: State, action: Action): State {
    s.(log := s.log + [action])
  }

  function Session(s: State, items: seq<Item>): State {
    Acts(OnItems(Acts(s, Online), items), Offline).(backoff := 1)
  }

  function Pause(s: State): State {
    Acts(s, Sleep(s.backoff)).(backoff := Doubled(s.backoff))
  }

  function OnAttempt(s: State, attempt: Attempt): State {
    var asked := Acts(s, Connect(s.lastSeq));
    Pause(if attempt.Fails? then asked else Session(asked, attempt.items))
  }

  function After(attempts: seq<Attempt>): State {
    if attempts == [] then State(None, 1, [])
    else OnAttempt(After(attempts[..|attempts| - 1]), attempts[|attempts| - 1])
  }

  // The same quantities read off the log alone.

  /** The highest sequence number forwarded in a log. */
  function Highest(log: seq<Action>): (high: Option<nat>)
    ensures high.None? <==> forall i :: 0 <= i < |log| ==> !log[i].Forward?
    ensures high.Some? ==> exists i :: 0 <= i < |log| && log[i].Forward? && log[i].event.seqNo == high.value
    ensures high.Some? ==> forall i :: 0 <= i < |log| && log[i].Forward? ==> log[i].event.seqNo <= high.value
  {
    if log == [] then None
    else
      var n := |log| - 1;
      var before := Highest(log[..n]);
      assert forall i :: 0 <= i < n ==> log[..n][i] == log[i];
      if log[n].Forward? then Raise(before, log[n].event.seqNo) else before
  }

  /** How often the emitter has slept since it started or since its last session ended. */
  function SleepsInARow(log: seq<Action>): nat {
    if log == [] then 0
    else
      var n := |log| - 1;
      if log[n].Offline? then 0
      else SleepsInARow(log[..n]) + if log[n].Sleep? then 1 else 0
  }

  function PowerOfTwo(j: nat): nat {
    if j == 0 then 1 else 2 * PowerOfTwo(j - 1)
  }

  function Capped(j: nat): nat {
    if PowerOfTwo(j) <= MAX_BACKOFF then PowerOfTwo(j) else MAX_BACKOFF
  }

  /** Whether the last session opened is still running. */
  predicate IsOnline(log: seq<Action>) {
    log != [] &&
    var n := |log| - 1;
    log[n].Online? || (!log[n].Offline? && IsOnline(log[..n]))
  }

  /** A connect carries the highest number forwarded so far, a sleep the capped power of two, a forward happens in a
      session. */
  predicate Lawful(before: seq<Action>, action: Action) {
    match action
    case Connect(cursor) => cursor == Highest(before) && !IsOnline(before)
    case Sleep(seconds) => seconds == Capped(SleepsInARow(before)) && !IsOnline(before)
    case Forward(_) => IsOnline(before)
    case Online => !IsOnline(before)
    case Offline => IsOnline(before)
  }

  ghost predicate AllLawful(log: seq<Action>) {
    forall i :: 0 <= i < |log| ==> Lawful(log[..i], log[i])
  }

  ghost predicate Tracks(s: State) {
    AllLawful(s.log) && s.lastSeq == Highest(s.log)
  }

  lemma {:induction false} OneMoreAction(s: State, action: Action)
    requires AllLawful(s.log) && Lawful(s.log, action)
    ensures var log := s.log + [action];
      && AllLawful(log)
      && Highest(log) == (if action.Forward? then Raise(Highest(s.log), action.event.seqNo) else Highest(s.log))
      && SleepsInARow(log) == (if action.Offline? then 0 else SleepsInARow(s.log) + if action.Sleep? then 1 else 0)
      && IsOnline(log) == (action.Online? || (!action.Offline? && IsOnline(s.log)))
  {
    var log := s.log + [action];
    var n := |s.log|;
    assert log[..n] == s.log && log[n] == action;
    forall i | 0 <= i < |log| ensures Lawful(log[..i], log[i]) {
      if i < n {
        assert log[..i] == s.log[..i] && log[i] == s.log[i];
      }
    }
  }

  lemma {:induction false} DoublingIsCapped(j: nat)
    ensures Doubled(Capped(j)) == Capped(j + 1)
  {
    assert PowerOfTwo(j + 1) == 2 * PowerOfTwo(j);
  }

  lemma {:induction false} SessionKeepsTracking(s: State, items: seq<Item>)
    requires Tracks(s) && IsOnline(s.log)
    ensures Tracks(OnItems(s, items)) && IsOnline(OnItems(s, items).log)
    decreases |items|
  {
    if items != [] {
      var n := |items| - 1;
      SessionKeepsTracking(s, items[..n]);
      if items[n].Received? {
        OneMoreAction(OnItems(s, items[..n]), Forward(items[n].event));
      }
    }
  }

  /** Between attempts: no session is open and the next sleep is as long as the log says. */
  ghost predicate Rests(s: State) {
    Tracks(s) && !IsOnline(s.log) && s.backoff == Capped(SleepsInARow(s.log))
  }

  lemma {:induction false} AskingKeepsRest(s: State)
    requires Rests(s)
    ensures Rests(Acts(s, Connect(s.lastSeq)))
  {
    OneMoreAction(s, Connect(s.lastSeq));
  }

  lemma {:induction false} SessionEndsAtRest(s: State, items: seq<Item>)
    requires Rests(s)
    ensures Rests(Session(s, items))
  {
    OneMoreAction(s, Online);
    SessionKeepsTracking(Acts(s, Online), items);
    OneMoreAction(OnItems(Acts(s, Online), items), Offline);
  }

  lemma {:induction false} PauseKeepsRest(s: State)
    requires Rests(s)
    ensures Rests(Pause(s))
  {
    OneMoreAction(s, Sleep(s.backoff));
    DoublingIsCapped(SleepsInARow(s.log));
  }

  lemma {:induction false} AttemptKeepsRest(s: State, attempt: Attempt)
    requires Rests(s)
    ensures Rests(OnAttempt(s, attempt))
  {
    AskingKeepsRest(s);
    var asked := Acts(s, Connect(s.lastSeq));
    if attempt.Connects? {
      SessionEndsAtRest(asked, attempt.items);
      PauseKeepsRest(Session(asked, attempt.items));
    } else {
      PauseKeepsRest(asked);
    }
  }

  /** Every action of every run is lawful; in particular all cursors and all sleeps. */
  lemma {:induction false} RunIsLawful(attempts: seq<Attempt>)
    ensures Rests(After(attempts))
    decreases |attempts|
  {
    if attempts != [] {
      var n := |attempts| - 1;
      RunIsLawful(attempts[..n]);
      AttemptKeepsRest(After(attempts[..n]), attempts[n]);
    }
  }

  /** The cursor of a connect is the highest number forwarded before it, and none exactly when nothing was. */
  ghost predicate IsHighestBefore(log: seq<Action>, i: nat, cursor: Option<nat>)
    requires i <= |log|
  {
    && (cursor.None? <==> forall j :: 0 <= j < i ==> !log[j].Forward?)
    && (cursor.Some? ==>
          && (exists j :: 0 <= j < i && log[j].Forward? && log[j].event.seqNo == cursor.value)
          && forall j :: 0 <= j < i && log[j].Forward? ==> log[j].event.seqNo <= cursor.value)
  }

  lemma {:induction false} HighestOfPrefix(log: seq<Action>, i: nat)
    requires i <= |log|
    ensures IsHighestBefore(log, i, Highest(log[..i]))
  {
    var before, high := log[..i], Highest(log[..i]);
    assert forall j :: 0 <= j < i ==> before[j] == log[j];
    if high.Some? {
      var j :| 0 <= j < |before| && before[j].Forward? && before[j].event.seqNo == high.value;
      assert log[j].Forward? && log[j].event.seqNo == high.value;
    }
  }

  /** Each connect is given the highest sequence number forwarded before it, and none exactly when nothing was
      forwarded. */
  lemma {:induction false} CursorIsHighestForwarded(attempts: seq<Attempt>, i: nat)
    requires i < |After(attempts).log| && After(attempts).log[i].Connect?
    ensures IsHighestBefore(After(attempts).log, i, After(attempts).log[i].cursor)
  {
    RunIsLawful(attempts);
    var log := After(attempts).log;
    assert Lawful(log[..i], log[i]);
    HighestOfPrefix(log, i);
  }

  predicate AtMost(a: Option<nat>, b: Option<nat>) {
    a.None? || (b.Some? && a.value <= b.value)
  }

  lemma {:induction false} HighestGrows(log: seq<Action>, i: nat, j: nat, a: Option<nat>, b: Option<nat>)
    requires i <= j <= |log| && IsHighestBefore(log, i, a) && IsHighestBefore(log, j, b)
    ensures AtMost(a, b)
  {
    if a.Some? {
      var k :| 0 <= k < i && log[k].Forward? && log[k].event.seqNo == a.value;
      assert 0 <= k < j && log[k].Forward?;
    }
  }

  lemma {:induction false} CursorNeverDecreases(attempts: seq<Attempt>, i: nat, j: nat)
    requires i < j < |After(attempts).log|
    requires After(attempts).log[i].Connect? && After(attempts).log[j].Connect?
    ensures AtMost(After(attempts).log[i].cursor, After(attempts).log[j].cursor)
  {
    CursorIsHighestForwarded(attempts, i);
    CursorIsHighestForwarded(attempts, j);
    var log := After(attempts).log;
    HighestGrows(log, i, j, log[i].cursor, log[j].cursor);
  }

  lemma {:induction false} LawfulSleep(log: seq<Action>, i: nat)
    requires AllLawful(log) && i < |log| && log[i].Sleep?
    ensures log[i].seconds == (var p := PowerOfTwo(SleepsInARow(log[..i])); if p < 60 then p else 60)
  {
    assert Lawful(log[..i], log[i]);
  }

  /** The j-th sleep since the start or since the last session ended lasts min(2^j, 60) seconds. */
  lemma {:induction false} SleepIsCappedPower(attempts: seq<Attempt>, i: nat)
    requires i < |After(attempts).log| && After(attempts).log[i].Sleep?
    ensures var log := After(attempts).log;
      log[i].seconds == (var p := PowerOfTwo(SleepsInARow(log[..i])); if p < 60 then p else 60)
  {
    RunIsLawful(attempts);
    LawfulSleep(After(attempts).log, i);
  }

  // Nothing is forwarded twice, out of order or not at all.

  function EventsIn(items: seq<Item>): seq<Event> {
    if items == [] then []
    else
      var n := |items| - 1;
      EventsIn(items[..n]) + if items[n].Received? then [items[n].event] else []
  }

  function EventsOf(attempts: seq<Attempt>): seq<Event> {
    if attempts == [] then []
    else
      var n := |attempts| - 1;
      EventsOf(attempts[..n]) + if attempts[n].Connects? then EventsIn(attempts[n].items) else []
  }

  function Forwarded(log: seq<Action>): seq<Event> {
    if log == [] then []
    else
      var n := |log| - 1;
      Forwarded(log[..n]) + if log[n].Forward? then [log[n].event] else []
  }

  function ConnectsIn(log: seq<Action>): nat {
    if log == [] then 0
    else ConnectsIn(log[..|log| - 1]) + if log[|log| - 1].Connect? then 1 else 0
  }

  function SleepsIn(log: seq<Action>): nat {
    if log == [] then 0
    else SleepsIn(log[..|log| - 1]) + if log[|log| - 1].Sleep? then 1 else 0
  }

  lemma {:induction false} TallyOneMore(log: seq<Action>, action: Action)
    ensures Forwarded(log + [action]) == Forwarded(log) + if action.Forward? then [action.event] else []
    ensures ConnectsIn(log + [action]) == ConnectsIn(log) + if action.Connect? then 1 else 0
    ensures SleepsIn(log + [action]) == SleepsIn(log) + if action.Sleep? then 1 else 0
  {
    assert (log + [action])[..|log|] == log;
  }

  lemma {:induction false} SessionForwards(s: State, items: seq<Item>)
    ensures var t := OnItems(s, items);
      && Forwarded(t.log) == Forwarded(s.log) + EventsIn(items)
      && ConnectsIn(t.log) == ConnectsIn(s.log) && SleepsIn(t.log) == SleepsIn(s.log)
    decreases |items|
  {
    if items != [] {
      var n := |items| - 1;
      SessionForwards(s, items[..n]);
      if items[n].Received? {
        TallyOneMore(OnItems(s, items[..n]).log, Forward(items[n].event));
      }
    }
  }

  lemma {:induction false} AttemptForwards(s: State, attempt: Attempt)
    ensures var t := OnAttempt(s, attempt);
      && Forwarded(t.log) == Forwarded(s.log) + (if attempt.Connects? then EventsIn(attempt.items) else [])
      && ConnectsIn(t.log) == ConnectsIn(s.log) + 1 && SleepsIn(t.log) == SleepsIn(s.log) + 1
  {
    var asked := Acts(s, Connect(s.lastSeq));
    TallyOneMore(s.log, Connect(s.lastSeq));
    if attempt.Connects? {
      var online := Acts(asked, Online);
      TallyOneMore(asked.log, Online);
      SessionForwards(online, attempt.items);
      TallyOneMore(OnItems(online, attempt.items).log, Offline);
      TallyOneMore(Session(asked, attempt.items).log, Sleep(1));
    } else {
      TallyOneMore(asked.log, Sleep(s.backoff));
    }
  }

  /** Subscribers get the received events of all sessions in order, and each attempt is one connect and one sleep. */
  lemma {:induction false} ForwardsEverythingReceived(attempts: seq<Attempt>)
    ensures var log := After(attempts).log;
      && Forwarded(log) == EventsOf(attempts)
      && ConnectsIn(log) == |attempts| && SleepsIn(log) == |attempts|
    decreases |attempts|
  {
    if attempts != [] {
      var n := |attempts| - 1;
      ForwardsEverythingReceived(attempts[..n]);
      AttemptForwards(After(attempts[..n]), attempts[n]);
    }
  }

  // What the code can reach. The dispatcher lives as long as the receive loop and itself holds a sender of the channel,
  // so the loop never sees the channel closed: a run fails some attempts, then connects, and stays in that session.

  function Failures(n: nat): seq<Attempt> {
    seq(n, i => Fails)
  }

  function InSession(failures: nat, items: seq<Item>): State {
    var s := After(Failures(failures));
    OnItems(Acts(Acts(s, Connect(s.lastSeq)), Online), items)
  }

  lemma {:induction false} FailuresForwardNothing(n: nat)
    ensures var s := After(Failures(n));
      s.lastSeq == None && Forwarded(s.log) == [] && ConnectsIn(s.log) == n && SleepsIn(s.log) == n
  {
    ForwardsEverythingReceived(Failures(n));
    NoEventsInFailures(n);
    RunIsLawful(Failures(n));
    NothingForwarded(After(Failures(n)).log);
  }

  lemma {:induction false} NoEventsInFailures(n: nat)
    ensures EventsOf(Failures(n)) == []
  {
    if n > 0 {
      assert Failures(n)[..n - 1] == Failures(n - 1);
      NoEventsInFailures(n - 1);
    }
  }

  lemma {:induction false} NothingForwarded(log: seq<Action>)
    requires Forwarded(log) == []
    ensures Highest(log) == None
    decreases |log|
  {
    if log != [] {
      NothingForwarded(log[..|log| - 1]);
    }
  }

  lemma {:induction false} FailuresAskWithoutCursor(n: nat)
    ensures var log := After(Failures(n)).log; forall i :: 0 <= i < |log| && log[i].Connect? ==> log[i].cursor.None?
  {
    if n > 0 {
      assert Failures(n)[..n - 1] == Failures(n - 1);
      FailuresAskWithoutCursor(n - 1);
      FailuresForwardNothing(n - 1);
    }
  }

  lemma {:induction false} ItemsOnlyForward(s: State, items: seq<Item>)
    ensures var log := OnItems(s, items).log;
      s.log <= log && forall i :: |s.log| <= i < |log| ==> log[i].Forward?
    decreases |items|
  {
    if items != [] {
      ItemsOnlyForward(s, items[..|items| - 1]);
    }
  }

  /** From a connection on, as long as it lasts. */
  lemma ConnectAndReceive(s: State, items: seq<Item>)
    requires Rests(s)
    ensures var t := OnItems(Acts(Acts(s, Connect(s.lastSeq)), Online), items);
      && Tracks(t) && IsOnline(t.log)
      && ConnectsIn(t.log) == ConnectsIn(s.log) + 1 && SleepsIn(t.log) == SleepsIn(s.log)
      && Forwarded(t.log) == Forwarded(s.log) + EventsIn(items)
  {
    var online := Acts(Acts(s, Connect(s.lastSeq)), Online);
    GoesOnline(s);
    SessionKeepsTracking(online, items);
    SessionForwards(online, items);
  }

  lemma GoesOnline(s: State)
    requires Rests(s)
    ensures var t := Acts(Acts(s, Connect(s.lastSeq)), Online);
      && Tracks(t) && IsOnline(t.log)
      && ConnectsIn(t.log) == ConnectsIn(s.log) + 1 && SleepsIn(t.log) == SleepsIn(s.log)
      && Forwarded(t.log) == Forwarded(s.log)
  {
    var asked := Acts(s, Connect(s.lastSeq));
    AskingKeepsRest(s);
    OneMoreAction(asked, Online);
    TallyOneMore(s.log, Connect(s.lastSeq));
    TallyOneMore(asked.log, Online);
    assert Forwarded(s.log) + [] == Forwarded(s.log);
  }

  lemma SessionAsksOnce(s: State, items: seq<Item>)
    requires s.lastSeq == None && forall i :: 0 <= i < |s.log| && s.log[i].Connect? ==> s.log[i].cursor.None?
    ensures var log := OnItems(Acts(Acts(s, Connect(s.lastSeq)), Online), items).log;
      forall i :: 0 <= i < |log| && log[i].Connect? ==> log[i].cursor.None?
  {
    ItemsOnlyForward(Acts(Acts(s, Connect(s.lastSeq)), Online), items);
  }

  /** A run of the code: every attempt asks without a cursor, each failure is followed by one sleep and nothing sleeps
      after the connection; in the session everything received is forwarded and the cursor is the highest number
      forwarded. */
  lemma {:induction false} OnlySessionIsTheLast(failures: nat, items: seq<Item>)
    ensures var s := InSession(failures, items);
      && Tracks(s) && IsOnline(s.log)
      && ConnectsIn(s.log) == failures + 1 && SleepsIn(s.log) == failures
      && Forwarded(s.log) == EventsIn(items)
      && forall i :: 0 <= i < |s.log| && s.log[i].Connect? ==> s.log[i].cursor.None?
  {
    var s := After(Failures(failures));
    FailuresForwardNothing(failures);
    FailuresAskWithoutCursor(failures);
    RunIsLawful(Failures(failures));
    ConnectAndReceive(s, items);
    SessionAsksOnce(s, items);
    assert [] + EventsIn(items) == EventsIn(items);
  }

  class EventEmitter {
    var lastSeq: Option<nat>
    var connected: bool
    ghost var log: seq<Action>

    constructor ()
      ensures lastSeq == None && !connected && log == []
    {
      lastSeq, connected, log := None, false, [];
    }

    /** The receive loop of one session; it ends when the channel closes. */
    method Drain(items: seq<Item>, ghost backoff: nat)
      modifies this
      ensures State(lastSeq, backoff, log) == OnItems(old(State(lastSeq, backoff, log)), items)
      ensures connected == old(connected)
    {
      ghost var start := State(lastSeq, backoff, log);
      for i := 0 to |items|
        invariant State(lastSeq, backoff, log) == OnItems(start, items[..i])
        invariant connected == old(connected)
      {
        assert items[..i + 1][..i] == items[..i];
        if items[i].Received? {
          var e := items[i].event;
          lastSeq := Some(if lastSeq.Some? && lastSeq.value >= e.seqNo then lastSeq.value else e.seqNo);
          log := log + [Forward(e)];
        }
      }
      assert items[..|items|] == items;
    }

    /** The runs of the code: some failures, then the session that never ends, as far as it has got. */
    method RunIntoSession(failures: nat, items: seq<Item>)
      requires lastSeq == None && !connected && log == []
      modifies this
      ensures lastSeq == InSession(failures, items).lastSeq && log == InSession(failures, items).log && connected
    {
      var attempts := Failures(failures);
      Run(attempts);
      ghost var backoff := After(attempts).backoff;
      log := log + [Connect(lastSeq)];
      connected := true;
      log := log + [Online];
      Drain(items, backoff);
    }

    /** The outer loop over its first attempts, if sessions ended. */
    method Run(attempts: seq<Attempt>)
      requires lastSeq == None && !connected && log == []
      modifies this
      ensures lastSeq == After(attempts).lastSeq && log == After(attempts).log
      ensures lastSeq == Highest(log) && !connected
    {
      var backoff: nat := 1;
      for i := 0 to |attempts|
        invariant State(lastSeq, backoff, log) == After(attempts[..i])
        invariant !connected
      {
        assert attempts[..i + 1][..i] == attempts[..i];
        var cursor := lastSeq;
        log := log + [Connect(cursor)];
        if attempts[i].Connects? {
          connected := true;
          log := log + [Online];
          Drain(attempts[i].items, backoff);
          connected := false;
          log := log + [Offline];
          backoff := 1;
        }
        log := log + [Sleep(backoff)];
        backoff := if 2 * backoff < MAX_BACKOFF then 2 * backoff else MAX_BACKOFF;
      }
      assert attempts[..|attempts|] == attempts;
      RunIsLawful(attempts);
    }
  }
}
