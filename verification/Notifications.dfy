/** The client's notification store: kept newest first by a stable sort, resolved and marked read in place. */
module Notifications {
  import opened Common

  datatype Kind = Hil | AgentExit | SysAlert

  datatype HilOutcome = Approved | Denied | Timeout

  datatype HilState = HilState(hilId: string, pid: nat, approvalToken: string, prompt: string, timeoutSecs: nat,
                               outcome: Option<HilOutcome>)

  datatype Notification = Notification(id: string, kind: Kind, agentPid: Option<nat>, sessionId: Option<string>,
                                       message: string, hil: Option<HilState>, createdAt: int,
                                       resolvedAt: Option<int>, read: bool)

  datatype HilRequest = HilRequest(hilId: string, pid: nat, sessionId: string, approvalToken: string, prompt: string,
                                   timeoutSecs: nat)

  // Constructors.

  function FromHilRequest(body: HilRequest, now: int): Notification {
    Notification(body.hilId, Hil, Some(body.pid), Some(body.sessionId), body.prompt,
                 Some(HilState(body.hilId, body.pid, body.approvalToken, body.prompt, body.timeoutSecs, None)),
                 now, None, false)
  }

  function FromAgentExit(uuid: string, pid: nat, sessionId: string, reason: Option<string>, now: int): Notification {
    var message := if reason.Some? then "Agent exited: " + reason.value else "Agent exited";
    Notification(uuid, AgentExit, Some(pid), Some(sessionId), message, None, now, None, false)
  }

  function FromSysAlert(uuid: string, message: string, now: int): Notification {
    Notification(uuid, SysAlert, None, None, message, None, now, None, false)
  }

  /** An approval request carries its state. */
  predicate WellFormed(n: Notification) {
    n.kind.Hil? ==> n.hil.Some?
  }

  predicate Resolved(n: Notification) {
    n.hil.Some? && n.hil.value.outcome.Some?
  }

  /** The time of resolution is there exactly when the outcome is. */
  predicate Consistent(n: Notification) {
    n.resolvedAt.Some? <==> Resolved(n)
  }

  lemma {:induction false} ConstructorsAreWellFormed(body: HilRequest, uuid: string, pid: nat, text: string,
                                                     reason: Option<string>, now: int)
    ensures var ns := [FromHilRequest(body, now), FromAgentExit(uuid, pid, text, reason, now),
      FromSysAlert(uuid, text, now)];
      forall i :: 0 <= i < |ns| ==>
        WellFormed(ns[i]) && Consistent(ns[i]) && !Resolved(ns[i]) && !ns[i].read && ns[i].createdAt == now
  {
  }

  /** What the constructors carry over: the request's ids, pid, session, token, prompt and timeout, the exit's pid,
      session and reason, the alert's text. */
  lemma {:induction false} ConstructorsCarryFields(body: HilRequest, uuid: string, pid: nat, session: string,
                                                   reason: Option<string>, text: string, now: int)
    ensures var n := FromHilRequest(body, now);
      && n.id == body.hilId && n.kind.Hil? && n.agentPid == Some(body.pid) && n.sessionId == Some(body.sessionId)
      && n.message == body.prompt && n.hil.Some? && n.hil.value.hilId == body.hilId && n.hil.value.pid == body.pid
      && n.hil.value.approvalToken == body.approvalToken && n.hil.value.prompt == body.prompt
      && n.hil.value.timeoutSecs == body.timeoutSecs
    ensures var n := FromAgentExit(uuid, pid, session, reason, now);
      && n.id == uuid && n.kind.AgentExit? && n.agentPid == Some(pid) && n.sessionId == Some(session) && n.hil.None?
      && n.message == (if reason.Some? then "Agent exited: " + reason.value else "Agent exited")
    ensures var n := FromSysAlert(uuid, text, now);
      n.id == uuid && n.kind.SysAlert? && n.agentPid.None? && n.sessionId.None? && n.hil.None? && n.message == text
  {
  }

  // The stable sort, newest first.

  /** How many entries at the front are at least as new. */
  function Position(s: seq<Notification>, t: int): (p: nat)
    ensures p <= |s|
    ensures forall i :: 0 <= i < p ==> s[i].createdAt >= t
    ensures p < |s| ==> s[p].createdAt < t
  {
    if s == [] || s[0].createdAt < t then 0 else 1 + Position(s[1..], t)
  }

  function Insert(s: seq<Notification>, n: Notification): seq<Notification> {
    var p := Position(s, n.createdAt);
    s[..p] + [n] + s[p..]
  }

  function NewestFirst(s: seq<Notification>): seq<Notification> {
    if s == [] then [] else Insert(NewestFirst(s[..|s| - 1]), s[|s| - 1])
  }

  predicate Sorted(s: seq<Notification>) {
    forall i, j :: 0 <= i < j < |s| ==> s[i].createdAt >= s[j].createdAt
  }

  /** The entries created at one instant, in their order. */
  function At(s: seq<Notification>, t: int): seq<Notification> {
    if s == [] then [] else (if s[0].createdAt == t then [s[0]] else []) + At(s[1..], t)
  }

  lemma {:induction false} AtAppend(a: seq<Notification>, b: seq<Notification>, t: int)
    ensures At(a + b, t) == At(a, t) + At(b, t)
  {
    if a == [] {
      assert a + b == b;
    } else {
      assert (a + b)[1..] == a[1..] + b && (a + b)[0] == a[0];
      AtAppend(a[1..], b, t);
      Associates(if a[0].createdAt == t then [a[0]] else [], At(a[1..], t), At(b, t));
    }
  }

  lemma {:induction false} AtOlder(s: seq<Notification>, t: int)
    requires forall i :: 0 <= i < |s| ==> s[i].createdAt < t
    ensures At(s, t) == []
  {
    if s != [] { AtOlder(s[1..], t); }
  }

  lemma {:induction false} SortedSlice(s: seq<Notification>, lo: nat, hi: nat)
    requires Sorted(s) && lo <= hi <= |s|
    ensures Sorted(s[lo..hi])
  {
  }

  /** Where an entry goes: behind everything at least as new, before everything older. */
  lemma {:induction false} Splits(s: seq<Notification>, t: int)
    requires Sorted(s)
    ensures var p := Position(s, t);
      && s == s[..p] + s[p..] && Sorted(s[..p]) && Sorted(s[p..])
      && (forall i :: 0 <= i < |s[..p]| ==> s[..p][i].createdAt >= t)
      && (forall i :: 0 <= i < |s[p..]| ==> s[p..][i].createdAt < t)
  {
    var p := Position(s, t);
    var front, back := s[0..p], s[p..|s|];
    SortedSlice(s, 0, p);
    SortedSlice(s, p, |s|);
    assert s[..p] == front && s[p..] == back;
    forall i | 0 <= i < |back| ensures back[i].createdAt < t {
      assert back[i] == s[p + i];
    }
  }

  lemma {:induction false} SortedJoin(front: seq<Notification>, n: Notification, back: seq<Notification>)
    requires Sorted(front) && Sorted(back)
    requires forall i :: 0 <= i < |front| ==> front[i].createdAt >= n.createdAt
    requires forall i :: 0 <= i < |back| ==> back[i].createdAt < n.createdAt
    ensures Sorted(front + [n] + back)
  {
    var all, f := front + [n] + back, |front|;
    forall i, j | 0 <= i < j < |all| ensures all[i].createdAt >= all[j].createdAt {
      if i < f { assert all[i] == front[i]; }
      if j > f { assert all[j] == back[j - f - 1]; }
    }
  }

  lemma {:induction false} InsertKeepsSorted(s: seq<Notification>, n: Notification)
    requires Sorted(s)
    ensures Sorted(Insert(s, n))
  {
    var p := Position(s, n.createdAt);
    Splits(s, n.createdAt);
    SortedJoin(s[..p], n, s[p..]);
  }

  lemma {:induction false} AtOne(n: Notification, t: int)
    ensures At([n], t) == if n.createdAt == t then [n] else []
  {
    assert [n][1..] == [];
  }

  /** An entry passes older ones without disturbing any instant. */
  lemma {:induction false} AtPassesOlder(front: seq<Notification>, n: Notification, back: seq<Notification>, t: int)
    requires forall i :: 0 <= i < |back| ==> back[i].createdAt < n.createdAt
    ensures At(front + [n] + back, t) == At(front + back + [n], t)
  {
    AtAppend(front + [n], back, t);
    AtAppend(front, [n], t);
    AtAppend(front + back, [n], t);
    AtAppend(front, back, t);
    AtOne(n, t);
    if t == n.createdAt { AtOlder(back, t); }
    assert At([n], t) + At(back, t) == At(back, t) + At([n], t);
    Associates(At(front, t), At([n], t), At(back, t));
    Associates(At(front, t), At(back, t), At([n], t));
  }

  lemma {:induction false} InsertKeepsAt(s: seq<Notification>, n: Notification, t: int)
    requires Sorted(s)
    ensures At(Insert(s, n), t) == At(s + [n], t)
  {
    var p := Position(s, n.createdAt);
    Splits(s, n.createdAt);
    AtPassesOlder(s[..p], n, s[p..], t);
  }

  /** Sorting yields newest first and keeps, for every instant, the entries of that instant in their order of
      arrival. */
  lemma {:induction false} NewestFirstIsStableSort(s: seq<Notification>, t: int)
    ensures Sorted(NewestFirst(s)) && At(NewestFirst(s), t) == At(s, t)
    decreases |s|
  {
    if s != [] {
      var n := |s| - 1;
      NewestFirstIsStableSort(s[..n], t);
      InsertKeepsSorted(NewestFirst(s[..n]), s[n]);
      InsertKeepsAt(NewestFirst(s[..n]), s[n], t);
      AtAppend(NewestFirst(s[..n]), [s[n]], t);
      AtAppend(s[..n], [s[n]], t);
      assert s == s[..n] + [s[n]];
    }
  }

  /** The two clauses leave no choice: sequences that are sorted and agree at every instant are equal. */
  lemma {:induction false} StableSortIsUnique(a: seq<Notification>, b: seq<Notification>)
    requires Sorted(a) && Sorted(b) && forall t :: At(a, t) == At(b, t)
    ensures a == b
    decreases |a|
  {
    if a == [] {
      AtOwnInstant(b);
    } else {
      var t := a[0].createdAt;
      assert At(a, t) == At(b, t) && At(a, t)[0] == a[0];
      AtHasNewest(b, t);
      assert b != [];
      AtHasNewest(a, b[0].createdAt);
      assert At(a, b[0].createdAt) == At(b, b[0].createdAt);
      assert b[0] == a[0];
      forall u ensures At(a[1..], u) == At(b[1..], u) {
        assert At(a, u) == At(b, u);
        AtTail(a, u);
        AtTail(b, u);
      }
      StableSortIsUnique(a[1..], b[1..]);
    }
  }

  lemma {:induction false} AtOwnInstant(s: seq<Notification>)
    ensures s != [] ==> At(s, s[0].createdAt) != []
  {
  }

  lemma {:induction false} AtTail(s: seq<Notification>, t: int)
    requires s != []
    ensures At(s[1..], t) == if s[0].createdAt == t then At(s, t)[1..] else At(s, t)
  {
    assert [] + At(s[1..], t) == At(s[1..], t);
  }

  lemma {:induction false} AtHasNewest(s: seq<Notification>, t: int)
    requires Sorted(s)
    ensures At(s, t) != [] ==> s != [] && s[0].createdAt >= t
  {
    if s != [] && s[0].createdAt < t { AtOlder(s, t); }
  }

  // The operations of the store.

  datatype Op =
    | Add(n: Notification)
    | ResolveHil(id: string, outcome: HilOutcome, now: int)
    | MarkRead(id: string)

  /** The first entry with this id; with `onlyHil`, the first that is an approval request. */
  function Find(s: seq<Notification>, id: string, onlyHil: bool): (i: nat)
    ensures i <= |s|
    ensures i < |s| ==> s[i].id == id && (onlyHil ==> s[i].kind.Hil?)
    ensures forall j :: 0 <= j < i ==> s[j].id != id || (onlyHil && !s[j].kind.Hil?)
  {
    if s == [] then 0
    else if s[0].id == id && (onlyHil ==> s[0].kind.Hil?) then 0
    else 1 + Find(s[1..], id, onlyHil)
  }

  function Resolve(n: Notification, outcome: HilOutcome, now: int): Notification
    requires n.hil.Some?
  {
    if n.hil.value.outcome.Some? then n
    else n.(hil := Some(n.hil.value.(outcome := Some(outcome))), resolvedAt := Some(now))
  }

  /** One operation; None is the panic of unwrapping an approval request without state. */
  function Apply(s: seq<Notification>, op: Op): Option<seq<Notification>> {
    match op
    case Add(n) => Some(NewestFirst(s + [n]))
    case ResolveHil(id, outcome, now) =>
      var i := Find(s, id, true);
      if i == |s| then Some(s)
      else if s[i].hil.None? then None
      else Some(s[i := Resolve(s[i], outcome, now)])
    case MarkRead(id) =>
      var i := Find(s, id, false);
      Some(if i == |s| then s else s[i := s[i].(read := true)])
  }

  function After(ops: seq<Op>): Option<seq<Notification>> {
    if ops == [] then Some([])
    else
      var before := After(ops[..|ops| - 1]);
      if before.None? then None else Apply(before.value, ops[|ops| - 1])
  }

  // The reference: every notification lives on its own, touched only by operations that name it.

  function Touch(n: Notification, op: Op): Notification {
    match op
    case Add(_) => n
    case ResolveHil(id, outcome, now) =>
      if n.id == id && n.kind.Hil? && n.hil.Some? then Resolve(n, outcome, now) else n
    case MarkRead(id) => if n.id == id then n.(read := true) else n
  }

  /** Every notification ever added, in order of arrival, as its own history has left it. */
  function Histories(ops: seq<Op>): seq<Notification> {
    if ops == [] then []
    else
      Next(Histories(ops[..|ops| - 1]), ops[|ops| - 1])
  }

  /** The same change to every notification. */
  function Each(s: seq<Notification>, f: Notification -> Notification): (r: seq<Notification>)
    ensures |r| == |s| && forall i :: 0 <= i < |s| ==> r[i] == f(s[i])
  {
    seq(|s|, i requires 0 <= i < |s| => f(s[i]))
  }

  function TouchAll(s: seq<Notification>, op: Op): seq<Notification> {
    Each(s, n => Touch(n, op))
  }

  ghost predicate KeepsTime(f: Notification -> Notification) {
    forall n :: f(n).createdAt == n.createdAt
  }

  predicate UniqueIds(s: seq<Notification>) {
    forall i, j :: 0 <= i < j < |s| ==> s[i].id != s[j].id
  }

  predicate AllWellFormed(s: seq<Notification>) {
    forall i :: 0 <= i < |s| ==> WellFormed(s[i])
  }

  lemma {:induction false} InsertPermutes(s: seq<Notification>, n: Notification)
    ensures multiset(Insert(s, n)) == multiset(s + [n])
  {
    var p := Position(s, n.createdAt);
    assert multiset(s) == multiset(s[..p]) + multiset(s[p..]) by { assert s == s[..p] + s[p..]; }
  }

  /** Entries may move, but none appears, disappears or is duplicated. */
  lemma {:induction false} NewestFirstPermutes(s: seq<Notification>)
    ensures multiset(NewestFirst(s)) == multiset(s)
    decreases |s|
  {
    if s != [] {
      var n := |s| - 1;
      NewestFirstPermutes(s[..n]);
      InsertPermutes(NewestFirst(s[..n]), s[n]);
      assert s == s[..n] + [s[n]];
    }
  }

  lemma {:induction false} InsertKeepsUniqueIds(s: seq<Notification>, n: Notification)
    requires UniqueIds(s) && forall i :: 0 <= i < |s| ==> s[i].id != n.id
    ensures UniqueIds(Insert(s, n))
  {
  }

  lemma {:induction false} NewestFirstKeepsUniqueIds(s: seq<Notification>)
    requires UniqueIds(s)
    ensures UniqueIds(NewestFirst(s))
    decreases |s|
  {
    if s != [] {
      var n := |s| - 1;
      NewestFirstKeepsUniqueIds(s[..n]);
      NewestFirstPermutes(s[..n]);
      var sorted := NewestFirst(s[..n]);
      forall i | 0 <= i < |sorted| ensures sorted[i].id != s[n].id {
        assert sorted[i] in multiset(sorted);
        assert sorted[i] in s[..n];
      }
      InsertKeepsUniqueIds(sorted, s[n]);
    }
  }

  /** Sorting a list whose front is already sorted is sorting it from the start. */
  lemma {:induction false} SortIsIncremental(s: seq<Notification>, n: Notification)
    ensures NewestFirst(NewestFirst(s) + [n]) == NewestFirst(s + [n])
  {
    forall t ensures At(NewestFirst(NewestFirst(s) + [n]), t) == At(NewestFirst(s + [n]), t) {
      NewestFirstIsStableSort(NewestFirst(s) + [n], t);
      NewestFirstIsStableSort(s + [n], t);
      NewestFirstIsStableSort(s, t);
      AtAppend(NewestFirst(s), [n], t);
      AtAppend(s, [n], t);
    }
    NewestFirstIsStableSort(NewestFirst(s) + [n], 0);
    NewestFirstIsStableSort(s + [n], 0);
    StableSortIsUnique(NewestFirst(NewestFirst(s) + [n]), NewestFirst(s + [n]));
  }

  /** A change that leaves the times alone does not move anything. */
  lemma {:induction false} SortThenEach(s: seq<Notification>, f: Notification -> Notification)
    requires KeepsTime(f)
    ensures Each(NewestFirst(s), f) == NewestFirst(Each(s, f))
    decreases |s|
  {
    if s != [] {
      var n := |s| - 1;
      SortThenEach(s[..n], f);
      assert Each(s, f)[..n] == Each(s[..n], f);
      InsertThenEach(NewestFirst(s[..n]), s[n], f);
    }
  }

  lemma {:induction false} EachKeepsPosition(s: seq<Notification>, f: Notification -> Notification, t: int)
    requires KeepsTime(f)
    ensures Position(Each(s, f), t) == Position(s, t)
    decreases |s|
  {
    if s != [] {
      EachKeepsPosition(s[1..], f, t);
      assert Each(s, f)[1..] == Each(s[1..], f);
    }
  }

  lemma {:induction false} InsertThenEach(s: seq<Notification>, n: Notification, f: Notification -> Notification)
    requires KeepsTime(f)
    ensures Each(Insert(s, n), f) == Insert(Each(s, f), f(n))
  {
    EachKeepsPosition(s, f, n.createdAt);
    var p := Position(s, n.createdAt);
    assert f(n).createdAt == n.createdAt;
    EachSlices(s, p, f);
    EachOfThree(s[..p], n, s[p..], f);
  }

  lemma {:induction false} EachSlices(s: seq<Notification>, p: nat, f: Notification -> Notification)
    requires p <= |s|
    ensures Each(s, f)[..p] == Each(s[..p], f) && Each(s, f)[p..] == Each(s[p..], f)
  {
  }

  lemma {:induction false} EachOfThree(a: seq<Notification>, n: Notification, b: seq<Notification>,
                                       f: Notification -> Notification)
    ensures Each(a + [n] + b, f) == Each(a, f) + [f(n)] + Each(b, f)
  {
  }

  // With unique ids, looking for the first match touches exactly what the operation names.

  lemma {:induction false} TouchFirst(s: seq<Notification>, op: Op)
    requires UniqueIds(s) && AllWellFormed(s) && !op.Add?
    ensures Apply(s, op) == Some(TouchAll(s, op))
  {
    var i := Find(s, op.id, op.ResolveHil?);
    forall j | 0 <= j < |s| && j != i ensures Touch(s[j], op) == s[j] {
      if i < |s| && j > i {
        assert s[i].id != s[j].id;
      }
    }
    if i == |s| {
      assert TouchAll(s, op) == s;
    } else {
      assert TouchAll(s, op) == s[i := Touch(s[i], op)];
    }
  }

  ghost predicate AddsWellFormed(ops: seq<Op>) {
    forall i :: 0 <= i < |ops| && ops[i].Add? ==> WellFormed(ops[i].n)
  }

  lemma {:induction false} NextWellFormed(before: seq<Notification>, op: Op)
    ensures AllWellFormed(Next(before, op)) <==> AllWellFormed(before) && (op.Add? ==> WellFormed(op.n))
  {
    var next := Next(before, op);
    if op.Add? {
      assert next[|before|] == op.n && forall i :: 0 <= i < |before| ==> next[i] == before[i];
    } else {
      assert forall i :: 0 <= i < |before| ==> next[i] == Touch(before[i], op);
      assert forall i :: 0 <= i < |before| ==> (WellFormed(next[i]) <==> WellFormed(before[i]));
    }
  }

  /** Every entry carries its approval state exactly when everything added did. */
  lemma {:induction false} HistoriesStayWellFormed(ops: seq<Op>)
    ensures AllWellFormed(Histories(ops)) <==> AddsWellFormed(ops)
    decreases |ops|
  {
    if ops != [] {
      var n := |ops| - 1;
      HistoriesStayWellFormed(ops[..n]);
      NextWellFormed(Histories(ops[..n]), ops[n]);
      assert forall i :: 0 <= i < n ==> ops[..n][i] == ops[i];
    }
  }

  ghost predicate ProperOps(ops: seq<Op>) {
    && AddsWellFormed(ops)
    && (forall i, j :: 0 <= i < j < |ops| && ops[i].Add? && ops[j].Add? ==> ops[i].n.id != ops[j].n.id)
  }

  lemma {:induction false} HistoryWasAdded(ops: seq<Op>, k: nat) returns (i: nat)
    requires k < |Histories(ops)|
    ensures i < |ops| && ops[i].Add? && ops[i].n.id == Histories(ops)[k].id
    decreases |ops|
  {
    var n := |ops| - 1;
    var before := Histories(ops[..n]);
    if k < |before| {
      i := HistoryWasAdded(ops[..n], k);
      assert Histories(ops)[k].id == before[k].id;
    } else {
      i := n;
    }
  }

  lemma {:induction false} HistoriesHaveUniqueIds(ops: seq<Op>)
    requires ProperOps(ops)
    ensures UniqueIds(Histories(ops))
    decreases |ops|
  {
    if ops != [] {
      var n := |ops| - 1;
      assert ProperOps(ops[..n]);
      HistoriesHaveUniqueIds(ops[..n]);
      var before := Histories(ops[..n]);
      if ops[n].Add? {
        forall k | 0 <= k < |before| ensures before[k].id != ops[n].n.id {
          var i := HistoryWasAdded(ops[..n], k);
          assert ops[i] == ops[..n][i];
        }
      }
    }
  }

  function Next(before: seq<Notification>, op: Op): seq<Notification> {
    if op.Add? then before + [op.n] else TouchAll(before, op)
  }

  lemma {:induction false} StoreStep(before: seq<Notification>, op: Op)
    requires UniqueIds(before) && AllWellFormed(before)
    ensures Apply(NewestFirst(before), op) == Some(NewestFirst(Next(before, op)))
  {
    if op.Add? {
      SortIsIncremental(before, op.n);
    } else {
      NewestFirstKeepsUniqueIds(before);
      NewestFirstKeepsWellFormed(before);
      TouchFirst(NewestFirst(before), op);
      SortThenEach(before, n => Touch(n, op));
    }
  }

  /** In every run the store is the stable newest-first arrangement of the notifications' own histories, and nothing
      panics. */
  lemma {:induction false} StoreIsSortedHistories(ops: seq<Op>)
    requires ProperOps(ops)
    ensures After(ops) == Some(NewestFirst(Histories(ops)))
    decreases |ops|
  {
    if ops != [] {
      var n := |ops| - 1;
      assert ProperOps(ops[..n]);
      StoreIsSortedHistories(ops[..n]);
      HistoriesHaveUniqueIds(ops[..n]);
      HistoriesStayWellFormed(ops[..n]);
      StoreStep(Histories(ops[..n]), ops[n]);
      assert Histories(ops) == Next(Histories(ops[..n]), ops[n]);
    }
  }

  lemma {:induction false} NewestFirstKeepsWellFormed(s: seq<Notification>)
    ensures AllWellFormed(NewestFirst(s)) <==> AllWellFormed(s)
  {
    NewestFirstPermutes(s);
    var sorted := NewestFirst(s);
    if AllWellFormed(s) {
      forall i | 0 <= i < |sorted| ensures WellFormed(sorted[i]) {
        assert sorted[i] in multiset(sorted);
        assert sorted[i] in s;
      }
    }
    if AllWellFormed(sorted) {
      forall i | 0 <= i < |s| ensures WellFormed(s[i]) {
        assert s[i] in multiset(s);
        assert s[i] in sorted;
      }
    }
  }

  // What a notification's own history looks like.

  /** Later operations never change what a notification is, and once it is resolved never its outcome or time of
      resolution. */
  lemma {:induction false} HistoryIsFinal(ops: seq<Op>, more: seq<Op>, k: nat)
    requires k < |Histories(ops)|
    ensures k < |Histories(ops + more)|
    ensures var n, m := Histories(ops)[k], Histories(ops + more)[k];
      && m.id == n.id && m.kind == n.kind && m.createdAt == n.createdAt && m.message == n.message && (n.read ==> m.read)
      && (Resolved(n) ==> m.hil == n.hil && m.resolvedAt == n.resolvedAt)
    decreases |more|
  {
    if more == [] {
      assert ops + more == ops;
    } else {
      var n := |more| - 1;
      HistoryIsFinal(ops, more[..n], k);
      var all := ops + more;
      assert all[..|all| - 1] == ops + more[..n] && all[|all| - 1] == more[n];
    }
  }

  /** The first resolution of an open request is the one that counts. */
  lemma {:induction false} HistoryKeepsFirstResolution(ops: seq<Op>, k: nat, outcome: HilOutcome, now: int,
                                                       more: seq<Op>)
    requires k < |Histories(ops)| && Histories(ops)[k].kind.Hil? && Histories(ops)[k].hil.Some?
      && !Resolved(Histories(ops)[k])
    ensures var op := ResolveHil(Histories(ops)[k].id, outcome, now);
      && k < |Histories(ops + [op] + more)|
      && var m := Histories(ops + [op] + more)[k];
         m.hil == Some(Histories(ops)[k].hil.value.(outcome := Some(outcome))) && m.resolvedAt == Some(now)
  {
    var op := ResolveHil(Histories(ops)[k].id, outcome, now);
    var all := ops + [op];
    assert all[..|all| - 1] == ops && all[|all| - 1] == op;
    assert Histories(all) == TouchAll(Histories(ops), op);
    HistoryIsFinal(all, more, k);
  }

  predicate AllConsistent(s: seq<Notification>) {
    forall i :: 0 <= i < |s| ==> Consistent(s[i])
  }

  lemma {:induction false} HistoriesStayConsistent(ops: seq<Op>)
    requires forall i :: 0 <= i < |ops| && ops[i].Add? ==> Consistent(ops[i].n)
    ensures AllConsistent(Histories(ops))
    decreases |ops|
  {
    if ops != [] {
      var n := |ops| - 1;
      assert forall i :: 0 <= i < n ==> ops[..n][i] == ops[i];
      HistoriesStayConsistent(ops[..n]);
      var before, next := Histories(ops[..n]), Histories(ops);
      forall i | 0 <= i < |next| ensures Consistent(next[i]) {
        if i < |before| { assert Consistent(before[i]); }
      }
    }
  }

  // Exactly which operations mark and resolve.

  /** The operation that added the k-th notification. */
  function AddIndex(ops: seq<Op>, k: nat): (a: nat)
    requires k < |Histories(ops)|
    ensures a < |ops| && ops[a].Add?
    decreases |ops|
  {
    var n := |ops| - 1;
    if k < |Histories(ops[..n])| then AddIndex(ops[..n], k) else n
  }

  ghost predicate MarkedAfter(ops: seq<Op>, a: nat, id: string) {
    exists j :: a < j < |ops| && ops[j] == MarkRead(id)
  }

  ghost predicate ResolvedAfter(ops: seq<Op>, a: nat, id: string) {
    exists j :: a < j < |ops| && ops[j].ResolveHil? && ops[j].id == id
  }

  lemma MarkedOneMore(ops: seq<Op>, a: nat, id: string)
    requires a < |ops| - 1
    ensures MarkedAfter(ops, a, id) <==> MarkedAfter(ops[..|ops| - 1], a, id) || ops[|ops| - 1] == MarkRead(id)
    ensures ResolvedAfter(ops, a, id) <==>
      ResolvedAfter(ops[..|ops| - 1], a, id) || (ops[|ops| - 1].ResolveHil? && ops[|ops| - 1].id == id)
  {
    var before := ops[..|ops| - 1];
    assert forall j :: 0 <= j < |before| ==> before[j] == ops[j];
    if MarkedAfter(before, a, id) {
      var j :| a < j < |before| && before[j] == MarkRead(id);
      assert ops[j] == MarkRead(id);
    }
    if MarkedAfter(ops, a, id) && ops[|ops| - 1] != MarkRead(id) {
      var j :| a < j < |ops| && ops[j] == MarkRead(id);
      assert before[j] == MarkRead(id);
    }
    if ResolvedAfter(before, a, id) {
      var j :| a < j < |before| && before[j].ResolveHil? && before[j].id == id;
      assert ops[j].ResolveHil? && ops[j].id == id;
    }
    if ResolvedAfter(ops, a, id) && !(ops[|ops| - 1].ResolveHil? && ops[|ops| - 1].id == id) {
      var j :| a < j < |ops| && ops[j].ResolveHil? && ops[j].id == id;
      assert before[j].ResolveHil? && before[j].id == id;
    }
  }

  /** What is left of `was` after everything behind its addition: read exactly if it was or some operation marked its
      id, resolved exactly if it was or it is a request with state whose id some operation resolved. */
  ghost predicate Explains(ops: seq<Op>, a: nat, was: Notification, n: Notification) {
    && Fixed(n) == Fixed(was)
    && (n.read <==> was.read || MarkedAfter(ops, a, was.id))
    && (Resolved(n) <==> Resolved(was) || (was.kind.Hil? && was.hil.Some? && ResolvedAfter(ops, a, was.id)))
  }

  lemma TouchExplained(ops: seq<Op>, a: nat, was: Notification, n: Notification)
    requires a < |ops| - 1 && Explains(ops[..|ops| - 1], a, was, n)
    ensures Explains(ops, a, was, Touch(n, ops[|ops| - 1]))
  {
    MarkedOneMore(ops, a, was.id);
    assert n.id == Fixed(n).id == was.id && n.kind == Fixed(n).kind == was.kind;
    assert n.hil.Some? <==> Fixed(n).hil.Some?;
  }

  lemma {:induction false} HistoryExplained(ops: seq<Op>, k: nat)
    requires k < |Histories(ops)|
    ensures Explains(ops, AddIndex(ops, k), ops[AddIndex(ops, k)].n, Histories(ops)[k])
    decreases |ops|
  {
    var n := |ops| - 1;
    var before := Histories(ops[..n]);
    if k < |before| {
      HistoryExplained(ops[..n], k);
      var a := AddIndex(ops[..n], k);
      assert ops[..n][a] == ops[a];
      TouchExplained(ops, a, ops[a].n, before[k]);
      assert Histories(ops)[k] == Touch(before[k], ops[n]);
    }
  }

  /** With unique ids and well-formed entries, every entry of the store is explained by the operations since it was
      added. */
  lemma {:induction false} StoreEntryExplained(ops: seq<Op>, n: Notification) returns (a: nat)
    requires ProperOps(ops) && After(ops).Some? && n in After(ops).value
    ensures a < |ops| && ops[a].Add? && Explains(ops, a, ops[a].n, n)
  {
    StoreIsSortedHistories(ops);
    NewestFirstPermutes(Histories(ops));
    assert n in multiset(NewestFirst(Histories(ops)));
    var k :| 0 <= k < |Histories(ops)| && Histories(ops)[k] == n;
    HistoryExplained(ops, k);
    a := AddIndex(ops, k);
  }

  // Counts shown to the user.

  function Unread(s: seq<Notification>): nat {
    if s == [] then 0 else (if s[0].read then 0 else 1) + Unread(s[1..])
  }

  /** The number of open approval requests; None is the panic on a request without state. */
  function PendingHil(s: seq<Notification>): Option<nat> {
    if s == [] then Some(0)
    else if s[0].kind.Hil? && s[0].hil.None? then None
    else
      var rest := PendingHil(s[1..]);
      if rest.None? then None
      else Some((if s[0].kind.Hil? && s[0].hil.value.outcome.None? then 1 else 0) + rest.value)
  }

  lemma {:induction false} PendingPanicsIff(s: seq<Notification>)
    ensures PendingHil(s).None? <==> !AllWellFormed(s)
  {
    if s != [] {
      PendingPanicsIff(s[1..]);
      assert AllWellFormed(s) <==> WellFormed(s[0]) && AllWellFormed(s[1..]) by {
        if WellFormed(s[0]) && AllWellFormed(s[1..]) {
          forall i | 0 <= i < |s| ensures WellFormed(s[i]) {
            if i > 0 { assert WellFormed(s[1..][i - 1]); }
          }
        }
        if AllWellFormed(s) {
          forall i | 0 <= i < |s[1..]| ensures WellFormed(s[1..][i]) { assert WellFormed(s[i + 1]); }
        }
      }
    }
  }

  lemma {:induction false} PendingAppend(a: seq<Notification>, b: seq<Notification>)
    requires AllWellFormed(a) && AllWellFormed(b)
    ensures PendingHil(a).Some? && PendingHil(b).Some?
    ensures PendingHil(a + b) == Some(PendingHil(a).value + PendingHil(b).value)
  {
    PendingPanicsIff(a);
    PendingPanicsIff(b);
    if a == [] {
      assert a + b == b;
    } else {
      assert (a + b)[1..] == a[1..] + b && (a + b)[0] == a[0];
      assert AllWellFormed(a[1..]);
      PendingAppend(a[1..], b);
    }
  }

  predicate IsPending(n: Notification) {
    n.kind.Hil? && n.hil.Some? && n.hil.value.outcome.None?
  }

  /** The counts are the numbers of entries that are unread, and of requests without an outcome. */
  lemma {:induction false} UnreadIsCardinality(s: seq<Notification>)
    ensures Unread(s) == |set i | 0 <= i < |s| && !s[i].read|
    decreases |s|
  {
    if s != [] {
      var n := |s| - 1;
      UnreadIsCardinality(s[..n]);
      assert s == s[..n] + [s[n]];
      UnreadAppend(s[..n], [s[n]]);
      var before := set i | 0 <= i < n && !s[..n][i].read;
      assert (set i | 0 <= i < |s| && !s[i].read) == before + if s[n].read then {} else {n};
    }
  }

  lemma PendingOneMore(s: seq<Notification>, n: Notification)
    ensures |set i | 0 <= i < |s + [n]| && IsPending((s + [n])[i])|
      == |set i | 0 <= i < |s| && IsPending(s[i])| + if IsPending(n) then 1 else 0
  {
    var before, after := set i | 0 <= i < |s| && IsPending(s[i]), set i | 0 <= i < |s + [n]| && IsPending((s + [n])[i]);
    forall i ensures i in after <==> i in before || (i == |s| && IsPending(n)) {
      if 0 <= i < |s| { assert (s + [n])[i] == s[i]; }
    }
    assert after == before + if IsPending(n) then {|s|} else {};
  }

  lemma {:induction false} PendingIsCardinality(s: seq<Notification>)
    requires AllWellFormed(s)
    ensures PendingHil(s) == Some(|set i | 0 <= i < |s| && IsPending(s[i])|)
    decreases |s|
  {
    if s != [] {
      var n := |s| - 1;
      PendingIsCardinality(s[..n]);
      PendingAppend(s[..n], [s[n]]);
      OnePending(s[n]);
      PendingOneMore(s[..n], s[n]);
      assert s == s[..n] + [s[n]];
    }
  }

  lemma OnePending(n: Notification)
    requires WellFormed(n)
    ensures PendingHil([n]) == Some(if IsPending(n) then 1 else 0)
  {
    assert [n][1..] == [];
  }

  // What holds in every run, even with repeated ids or malformed notifications.

  function Added(ops: seq<Op>): seq<Notification> {
    if ops == [] then []
    else
      var n := |ops| - 1;
      Added(ops[..n]) + if ops[n].Add? then [ops[n].n] else []
  }

  /** A notification without what operations can change. */
  function Fixed(n: Notification): Notification {
    n.(read := false, resolvedAt := None, hil := if n.hil.Some? then Some(n.hil.value.(outcome := None)) else None)
  }

  lemma {:induction false} UpdateKeepsFixed(s: seq<Notification>, op: Op)
    requires !op.Add? && Apply(s, op).Some?
    ensures Each(Apply(s, op).value, Fixed) == Each(s, Fixed)
  {
  }

  lemma {:induction false} AddKeepsArrivals(s: seq<Notification>, arrived: seq<Notification>, n: Notification)
    requires Each(s, Fixed) == NewestFirst(Each(arrived, Fixed))
    ensures Each(NewestFirst(s + [n]), Fixed) == NewestFirst(Each(arrived + [n], Fixed))
  {
    SortThenEach(s + [n], Fixed);
    assert Each(s + [n], Fixed) == Each(s, Fixed) + [Fixed(n)];
    assert Each(arrived + [n], Fixed) == Each(arrived, Fixed) + [Fixed(n)];
    SortIsIncremental(Each(arrived, Fixed), Fixed(n));
  }

  /** The store always holds everything added, once each, newest first and ties in order of arrival. */
  lemma {:induction false} StoreIsSortedArrivals(ops: seq<Op>)
    requires After(ops).Some?
    ensures Each(After(ops).value, Fixed) == NewestFirst(Each(Added(ops), Fixed))
    decreases |ops|
  {
    if ops != [] {
      var n := |ops| - 1;
      StoreIsSortedArrivals(ops[..n]);
      var before := After(ops[..n]).value;
      if ops[n].Add? {
        AddKeepsArrivals(before, Added(ops[..n]), ops[n].n);
      } else {
        UpdateKeepsFixed(before, ops[n]);
        assert Added(ops[..n]) + [] == Added(ops[..n]);
      }
    }
  }

  // Resolution, on the store itself.

  /** The same notification, resolved the same way. */
  ghost predicate SameResolution(n: Notification, m: Notification) {
    Fixed(m) == Fixed(n) && m.hil == n.hil && m.resolvedAt == n.resolvedAt
  }

  lemma {:induction false} StepKeepsResolution(s: seq<Notification>, op: Op, n: Notification) returns (m: Notification)
    requires Apply(s, op).Some? && n in s && Resolved(n)
    ensures m in Apply(s, op).value && SameResolution(n, m)
  {
    if op.Add? {
      NewestFirstPermutes(s + [op.n]);
      assert n in multiset(s + [op.n]);
      m := n;
    } else {
      var j :| 0 <= j < |s| && s[j] == n;
      m := Apply(s, op).value[j];
    }
  }

  /** A resolved entry of the store keeps its outcome and its time of resolution through everything that follows,
      whatever the ids. */
  lemma {:induction false} FirstResolutionIsFinal(ops: seq<Op>, more: seq<Op>, n: Notification)
    returns (m: Notification)
    requires After(ops).Some? && After(ops + more).Some? && n in After(ops).value && Resolved(n)
    ensures m in After(ops + more).value && SameResolution(n, m)
    decreases |more|
  {
    if more == [] {
      assert ops + more == ops;
      m := n;
    } else {
      var k := |more| - 1;
      assert (ops + more)[..|ops + more| - 1] == ops + more[..k] && (ops + more)[|ops + more| - 1] == more[k];
      var before := FirstResolutionIsFinal(ops, more[..k], n);
      m := StepKeepsResolution(After(ops + more[..k]).value, more[k], before);
    }
  }

  lemma {:induction false} ResolvesOpenRequest(s: seq<Notification>, n: Notification, outcome: HilOutcome, now: int)
    requires UniqueIds(s) && n in s && n.kind.Hil? && n.hil.Some? && !Resolved(n)
    ensures Apply(s, ResolveHil(n.id, outcome, now)).Some?
    ensures Resolve(n, outcome, now) in Apply(s, ResolveHil(n.id, outcome, now)).value
  {
    var i := Find(s, n.id, true);
    var j :| 0 <= j < |s| && s[j] == n;
    assert i == j;
    assert s[i := Resolve(n, outcome, now)][i] == Resolve(n, outcome, now);
  }

  /** With unique ids the first resolution of an open request fixes its outcome and time forever. */
  lemma {:induction false} FirstResolutionWins(ops: seq<Op>, n: Notification, outcome: HilOutcome, now: int,
                                               more: seq<Op>)
    returns (m: Notification)
    requires After(ops).Some? && UniqueIds(Added(ops)) && n in After(ops).value
    requires n.kind.Hil? && n.hil.Some? && !Resolved(n)
    requires After(ops + [ResolveHil(n.id, outcome, now)] + more).Some?
    ensures m in After(ops + [ResolveHil(n.id, outcome, now)] + more).value && Fixed(m) == Fixed(n)
    ensures m.hil == Some(n.hil.value.(outcome := Some(outcome))) && m.resolvedAt == Some(now)
  {
    var op := ResolveHil(n.id, outcome, now);
    assert (ops + [op])[..|ops|] == ops;
    StoreHasUniqueIds(ops);
    ResolvesOpenRequest(After(ops).value, n, outcome, now);
    m := FirstResolutionIsFinal(ops + [op], more, Resolve(n, outcome, now));
  }

  lemma {:induction false} NewestFirstKeepsConsistent(s: seq<Notification>)
    requires AllConsistent(s)
    ensures AllConsistent(NewestFirst(s))
  {
    NewestFirstPermutes(s);
    var sorted := NewestFirst(s);
    forall i | 0 <= i < |sorted| ensures Consistent(sorted[i]) {
      assert sorted[i] in multiset(sorted);
      assert sorted[i] in s;
    }
  }

  /** In every run the time of resolution is set exactly when the outcome is, if that held of everything added. */
  lemma {:induction false} StoreStaysConsistent(ops: seq<Op>)
    requires After(ops).Some? && forall i :: 0 <= i < |ops| && ops[i].Add? ==> Consistent(ops[i].n)
    ensures AllConsistent(After(ops).value)
    decreases |ops|
  {
    if ops != [] {
      var n := |ops| - 1;
      assert forall i :: 0 <= i < n ==> ops[..n][i] == ops[i];
      StoreStaysConsistent(ops[..n]);
      if ops[n].Add? {
        NewestFirstKeepsConsistent(After(ops[..n]).value + [ops[n].n]);
      }
    }
  }

  lemma {:induction false} AddedWellFormed(ops: seq<Op>)
    ensures AllWellFormed(Added(ops)) <==> AddsWellFormed(ops)
    decreases |ops|
  {
    if ops != [] {
      var n := |ops| - 1;
      AddedWellFormed(ops[..n]);
      assert forall i :: 0 <= i < n ==> ops[..n][i] == ops[i];
      var before, now := Added(ops[..n]), Added(ops);
      assert forall i :: 0 <= i < |before| ==> now[i] == before[i];
      if ops[n].Add? { assert now[|before|] == ops[n].n; }
    }
  }

  lemma {:induction false} FixedKeepsWellFormed(s: seq<Notification>)
    ensures AllWellFormed(Each(s, Fixed)) <==> AllWellFormed(s)
  {
    forall i | 0 <= i < |s| ensures WellFormed(Each(s, Fixed)[i]) <==> WellFormed(s[i]) { }
  }

  /** Every approval request in the store carries its state exactly when every one added did. */
  lemma {:induction false} StoreWellFormedIff(ops: seq<Op>)
    requires After(ops).Some?
    ensures AllWellFormed(After(ops).value) <==> AddsWellFormed(ops)
  {
    StoreIsSortedArrivals(ops);
    FixedKeepsWellFormed(After(ops).value);
    NewestFirstKeepsWellFormed(Each(Added(ops), Fixed));
    FixedKeepsWellFormed(Added(ops));
    AddedWellFormed(ops);
  }

  /** Then no resolution panics. */
  lemma {:induction false} ResolvingIsSafe(ops: seq<Op>)
    requires AddsWellFormed(ops)
    ensures After(ops).Some?
    decreases |ops|
  {
    if ops != [] {
      var n := |ops| - 1;
      assert forall i :: 0 <= i < n ==> ops[..n][i] == ops[i];
      ResolvingIsSafe(ops[..n]);
      StoreWellFormedIff(ops[..n]);
    }
  }

  /** And with unique ids some resolution does panic otherwise. */
  lemma {:induction false} SomeResolutionPanicsIff(ops: seq<Op>, outcome: HilOutcome, now: int)
    requires After(ops).Some? && UniqueIds(Added(ops))
    ensures (exists id :: After(ops + [ResolveHil(id, outcome, now)]).None?) <==> !AddsWellFormed(ops)
  {
    var store := After(ops).value;
    StoreWellFormedIff(ops);
    StoreHasUniqueIds(ops);
    forall id ensures After(ops + [ResolveHil(id, outcome, now)]) == Apply(store, ResolveHil(id, outcome, now)) {
      assert (ops + [ResolveHil(id, outcome, now)])[..|ops|] == ops;
    }
    if !AllWellFormed(store) {
      var k :| 0 <= k < |store| && !WellFormed(store[k]);
      assert Find(store, store[k].id, true) == k;
      assert After(ops + [ResolveHil(store[k].id, outcome, now)]).None?;
    }
  }

  lemma {:induction false} StoreHasUniqueIds(ops: seq<Op>)
    requires After(ops).Some? && UniqueIds(Added(ops))
    ensures UniqueIds(After(ops).value)
  {
    StoreIsSortedArrivals(ops);
    NewestFirstKeepsUniqueIds(Each(Added(ops), Fixed));
    var store := After(ops).value;
    var fixed := Each(store, Fixed);
    forall i, j | 0 <= i < j < |store| ensures store[i].id != store[j].id {
      assert fixed[i].id != fixed[j].id;
    }
  }

  /** The refresh of the screen counts the pending requests without panicking exactly then. */
  lemma {:induction false} PendingIsSafeIff(ops: seq<Op>)
    requires After(ops).Some?
    ensures PendingHil(After(ops).value).Some? <==> AddsWellFormed(ops)
  {
    PendingPanicsIff(After(ops).value);
    StoreWellFormedIff(ops);
  }

  lemma {:induction false} UnreadAppend(a: seq<Notification>, b: seq<Notification>)
    ensures Unread(a + b) == Unread(a) + Unread(b)
  {
    if a == [] {
      assert a + b == b;
    } else {
      assert (a + b)[1..] == a[1..] + b;
      UnreadAppend(a[1..], b);
    }
  }

  lemma {:induction false} InsertKeepsUnread(s: seq<Notification>, n: Notification)
    ensures Unread(Insert(s, n)) == Unread(s) + Unread([n])
  {
    var p := Position(s, n.createdAt);
    assert s == s[..p] + s[p..];
    UnreadAppend(s[..p], s[p..]);
    UnreadAppend(s[..p] + [n], s[p..]);
    UnreadAppend(s[..p], [n]);
  }

  /** Sorting does not change the unread count. */
  lemma {:induction false} NewestFirstKeepsUnread(s: seq<Notification>)
    ensures Unread(NewestFirst(s)) == Unread(s)
    decreases |s|
  {
    if s != [] {
      var n := |s| - 1;
      NewestFirstKeepsUnread(s[..n]);
      InsertKeepsUnread(NewestFirst(s[..n]), s[n]);
      assert s == s[..n] + [s[n]];
      UnreadAppend(s[..n], [s[n]]);
    }
  }

  class NotificationStore {
    var inner: seq<Notification>
    ghost var ops: seq<Op>

    ghost predicate Valid()
      reads this
    {
      After(ops) == Some(inner)
    }

    constructor ()
      ensures Valid() && ops == []
    {
      inner, ops := [], [];
    }

    /** Push, then sort the whole vector in place. */
    method AddNotification(n: Notification)
      requires Valid()
      modifies this
      ensures Valid() && ops == old(ops) + [Add(n)]
    {
      ops := ops + [Add(n)];
      assert ops[..|ops| - 1] == old(ops);
      inner := SortNewestFirst(inner + [n]);
    }

    static method SortNewestFirst(entries: seq<Notification>) returns (sorted: seq<Notification>)
      ensures sorted == NewestFirst(entries)
    {
      sorted := [];
      for k := 0 to |entries|
        invariant sorted == NewestFirst(entries[..k])
      {
        var p := 0;
        while p < |sorted| && sorted[p].createdAt >= entries[k].createdAt
          invariant 0 <= p <= |sorted|
          invariant forall i :: 0 <= i < p ==> sorted[i].createdAt >= entries[k].createdAt
        {
          p := p + 1;
        }
        assert p == Position(sorted, entries[k].createdAt);
        assert entries[..k + 1][..k] == entries[..k];
        sorted := sorted[..p] + [entries[k]] + sorted[p..];
      }
      assert entries[..|entries|] == entries;
    }

    method ResolveRequest(id: string, outcome: HilOutcome, now: int) returns (panicked: bool)
      requires Valid()
      modifies this
      ensures ops == old(ops) + [ResolveHil(id, outcome, now)]
      ensures panicked <==> After(ops).None?
      ensures !panicked ==> Valid()
    {
      ops := ops + [ResolveHil(id, outcome, now)];
      assert ops[..|ops| - 1] == old(ops);
      panicked := false;
      var i := 0;
      while i < |inner| && !(inner[i].id == id && inner[i].kind.Hil?)
        invariant 0 <= i <= |inner|
        invariant forall j :: 0 <= j < i ==> !(inner[j].id == id && inner[j].kind.Hil?)
      {
        i := i + 1;
      }
      assert i == Find(inner, id, true);
      if i < |inner| {
        var n := inner[i];
        if n.hil.None? {
          return true;
        }
        if n.hil.value.outcome.None? {
          n := n.(hil := Some(n.hil.value.(outcome := Some(outcome))));
          n := n.(resolvedAt := Some(now));
          inner := inner[i := n];
        } else {
          assert inner[i := n] == inner;
        }
      }
    }

    method MarkAsRead(id: string)
      requires Valid()
      modifies this
      ensures Valid() && ops == old(ops) + [MarkRead(id)]
    {
      ops := ops + [MarkRead(id)];
      assert ops[..|ops| - 1] == old(ops);
      var i := 0;
      while i < |inner| && inner[i].id != id
        invariant 0 <= i <= |inner|
        invariant forall j :: 0 <= j < i ==> inner[j].id != id
      {
        i := i + 1;
      }
      assert i == Find(inner, id, false);
      if i < |inner| {
        inner := inner[i := inner[i].(read := true)];
      }
    }

    method UnreadCount() returns (count: nat)
      requires Valid()
      ensures count == Unread(inner) == |set i | 0 <= i < |inner| && !inner[i].read|
      ensures ProperOps(ops) ==> count == Unread(Histories(ops))
    {
      count := 0;
      for i := 0 to |inner|
        invariant count + Unread(inner[i..]) == Unread(inner)
      {
        assert inner[i..][1..] == inner[i + 1..];
        if !inner[i].read {
          count := count + 1;
        }
      }
      UnreadIsCardinality(inner);
      if ProperOps(ops) {
        StoreIsSortedHistories(ops);
        NewestFirstKeepsUnread(Histories(ops));
      }
    }
  }
}
