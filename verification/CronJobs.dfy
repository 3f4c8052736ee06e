/** One cron job: attempts with a timeout, then the failure policy: ignore, alert, or retry with back-off and a final
    alert. */
module CronJobs {
  import opened Common
  import Rendering

  const U32_LIMIT: nat := 0x1_0000_0000

  type U32 = n: nat | n < U32_LIMIT

  datatype OnFailure = Ignore | Alert | Retry

  /** `args` lists the job's arguments as text, in the order in which its map is traversed. */
  datatype Job = Job(id: string, goal: string, args: seq<Rendering.Binding>, timeout: nat, onFailure: OnFailure,
                     maxAttempts: U32, backoff: nat)

  /** The goal every attempt is given: the template with the arguments filled in one after another. */
  function GoalOf(job: Job): string {
    Rendering.ReplaceInOrder(Rendering.Single, job.goal, job.args)
  }

  /** What the world does with one attempt. */
  datatype Attempt = SpawnError(error: string) | Exits(status: ExitStatus) | TimesOut

  datatype ExitStatus = Success | Failure(reason: Reason)

  datatype Reason = SpawnFailed(error: string) | AgentFailed(text: string) | TimeoutAfter(seconds: nat)

  datatype Message = Plain(reason: Reason) | Exhausted(attempts: nat, last: Reason)

  /** What the job does, in order; an attempt is named by its number, counted from 0. */
  datatype Effect =
    | Spawn(attempt: nat, goal: string, timeout: nat, accepted: bool)
    | ExitSeen(attempt: nat)
    | Stop(attempt: nat)
    | Backoff(seconds: nat)
    | AlertSent(jobId: string, message: Message)

  function StatusOf(job: Job, a: Attempt): ExitStatus {
    match a
    case SpawnError(e) => Failure(SpawnFailed(e))
    case Exits(status) => status
    case TimesOut => Failure(TimeoutAfter(job.timeout))
  }

  predicate Succeeds(a: Attempt) {
    a == Exits(Success)
  }

  function Limit(job: Job): nat {
    if job.onFailure.Retry? && job.maxAttempts > 1 then job.maxAttempts else 1
  }

  /** `n` attempts are made: up to the first success, or up to the limit. */
  ghost predicate MakesAttempts(job: Job, world: nat -> Attempt, n: nat) {
    && 1 <= n <= Limit(job)
    && (forall i :: 0 <= i < n - 1 ==> !Succeeds(world(i)))
    && (n < Limit(job) ==> Succeeds(world(n - 1)))
  }

  /** The number of attempts written out: one without Retry, under Retry up to and including the first success, or
      max_attempts of them, but at least one, when none succeeds. */
  lemma AttemptsIff(job: Job, world: nat -> Attempt, n: nat)
    ensures MakesAttempts(job, world, n) <==>
      if !job.onFailure.Retry? then n == 1
      else
        var m := if job.maxAttempts == 0 then 1 else job.maxAttempts;
        || (1 <= n <= m && Succeeds(world(n - 1)) && forall i :: 0 <= i < n - 1 ==> !Succeeds(world(i)))
        || (n == m && forall i :: 0 <= i < m ==> !Succeeds(world(i)))
  {
  }

  lemma AttemptsAreDetermined(job: Job, world: nat -> Attempt, m: nat, n: nat)
    requires MakesAttempts(job, world, m) && MakesAttempts(job, world, n)
    ensures m == n
  {
  }

  function AttemptEffects(job: Job, goal: string, a: Attempt, i: nat): seq<Effect> {
    match a
    case SpawnError(_) => [Spawn(i, goal, job.timeout, false)]
    case Exits(_) => [Spawn(i, goal, job.timeout, true), ExitSeen(i)]
    case TimesOut => [Spawn(i, goal, job.timeout, true), Stop(i)]
  }

  function Attempts(job: Job, world: nat -> Attempt, n: nat): seq<Effect> {
    if n == 0 then []
    else
      var pause := if n == 1 then [] else [Backoff(job.backoff)];
      Attempts(job, world, n - 1) + pause + AttemptEffects(job, GoalOf(job), world(n - 1), n - 1)
  }

  function FinalAlert(job: Job, last: Attempt): seq<Effect> {
    match StatusOf(job, last)
    case Success => []
    case Failure(reason) =>
      match job.onFailure
      case Ignore => []
      case Alert => [AlertSent(job.id, Plain(reason))]
      case Retry => [AlertSent(job.id, Exhausted(Limit(job), reason))]
  }

  function Effects(job: Job, world: nat -> Attempt, n: nat): seq<Effect>
    requires n >= 1
  {
    Attempts(job, world, n) + FinalAlert(job, world(n - 1))
  }

  /** Spawn once, wait no longer than the timeout, and stop the agent when the timeout fires. */
  method ExecuteOnce(job: Job, goal: string, world: Attempt, attempt: nat)
    returns (status: ExitStatus, log: seq<Effect>)
    ensures status == StatusOf(job, world) && log == AttemptEffects(job, goal, world, attempt)
  {
    match world {
      case SpawnError(e) =>
        log := [Spawn(attempt, goal, job.timeout, false)];
        status := Failure(SpawnFailed(e));
      case Exits(s) =>
        log := [Spawn(attempt, goal, job.timeout, true)];
        log := log + [ExitSeen(attempt)];
        status := s;
      case TimesOut =>
        log := [Spawn(attempt, goal, job.timeout, true)];
        log := log + [Stop(attempt)];
        status := Failure(TimeoutAfter(job.timeout));
    }
  }

  /** The retry loop; the 32-bit attempt counter never overflows. */
  method RunJob(job: Job, world: nat -> Attempt) returns (log: seq<Effect>, attempts: U32)
    ensures MakesAttempts(job, world, attempts)
    ensures log == Effects(job, world, attempts)
    ensures !job.onFailure.Retry? ==> attempts == 1
    ensures job.onFailure.Retry? ==>
      var m := if job.maxAttempts == 0 then 1 else job.maxAttempts;
      && 1 <= attempts <= m && (forall i :: 0 <= i < attempts - 1 ==> !Succeeds(world(i)))
      && (attempts < m ==> Succeeds(world(attempts - 1)))
  {
    var maxAttempts: U32 := if job.onFailure.Retry? then (if job.maxAttempts > 1 then job.maxAttempts else 1) else 1;
    attempts := 0;
    log := [];
    while true
      invariant 0 <= attempts < maxAttempts == Limit(job)
      invariant forall i :: 0 <= i < attempts ==> !Succeeds(world(i))
      invariant log == Attempts(job, world, attempts) + (if attempts == 0 then [] else [Backoff(job.backoff)])
      decreases maxAttempts - attempts
    {
      attempts := attempts + 1;
      var goal := Rendering.Render(Rendering.Single, job.goal, job.args);
      var status, effects := ExecuteOnce(job, goal, world(attempts - 1), attempts - 1);
      log := log + effects;
      match status {
        case Success =>
          return;
        case Failure(reason) =>
          match job.onFailure {
            case Ignore =>
              return;
            case Alert =>
              log := log + [AlertSent(job.id, Plain(reason))];
              return;
            case Retry =>
              if attempts >= maxAttempts {
                log := log + [AlertSent(job.id, Exhausted(maxAttempts, reason))];
                return;
              }
              log := log + [Backoff(job.backoff)];
          }
      }
    }
  }

  // What the log says.

  function Count(log: seq<Effect>, wanted: Effect -> bool): nat {
    if log == [] then 0 else (if wanted(log[0]) then 1 else 0) + Count(log[1..], wanted)
  }

  lemma {:induction false} CountAppend(a: seq<Effect>, b: seq<Effect>, wanted: Effect -> bool)
    ensures Count(a + b, wanted) == Count(a, wanted) + Count(b, wanted)
  {
    if a == [] {
      assert a + b == b;
    } else {
      assert (a + b)[1..] == a[1..] + b;
      CountAppend(a[1..], b, wanted);
    }
  }

  lemma CountFew(x: Effect, y: Effect, wanted: Effect -> bool)
    ensures Count([x], wanted) == if wanted(x) then 1 else 0
    ensures Count([x, y], wanted) == (if wanted(x) then 1 else 0) + (if wanted(y) then 1 else 0)
  {
    assert [x][1..] == [] && [x, y][1..] == [y] && [y][1..] == [];
    assert Count([y], wanted) == if wanted(y) then 1 else 0;
  }

  function Tally(b: bool): nat {
    if b then 1 else 0
  }

  lemma CountAttempt(job: Job, a: Attempt, i: nat, wanted: Effect -> bool)
    ensures Count(AttemptEffects(job, GoalOf(job), a, i), wanted) ==
      Tally(wanted(Spawn(i, GoalOf(job), job.timeout, !a.SpawnError?)))
      + Tally(a.Exits? && wanted(ExitSeen(i))) + Tally(a.TimesOut? && wanted(Stop(i)))
  {
    CountFew(Spawn(i, GoalOf(job), job.timeout, !a.SpawnError?), if a.TimesOut? then Stop(i) else ExitSeen(i), wanted);
  }

  /** The count grows by the last attempt's share. */
  lemma CountStep(job: Job, world: nat -> Attempt, n: nat, wanted: Effect -> bool)
    requires n >= 1 && !wanted(Backoff(job.backoff))
    ensures Count(Attempts(job, world, n), wanted)
      == Count(Attempts(job, world, n - 1), wanted)
        + Count(AttemptEffects(job, GoalOf(job), world(n - 1), n - 1), wanted)
  {
    var pause := if n == 1 then [] else [Backoff(job.backoff)];
    CountFew(Backoff(job.backoff), Backoff(job.backoff), wanted);
    CountAppend(Attempts(job, world, n - 1), pause, wanted);
    CountAppend(Attempts(job, world, n - 1) + pause, AttemptEffects(job, GoalOf(job), world(n - 1), n - 1), wanted);
  }

  predicate IsSpawn(e: Effect) { e.Spawn? }
  predicate IsAlert(e: Effect) { e.AlertSent? }

  lemma {:induction false} AttemptsSpawn(job: Job, world: nat -> Attempt, n: nat)
    ensures Count(Attempts(job, world, n), IsSpawn) == n && Count(Attempts(job, world, n), IsAlert) == 0
  {
    if n > 0 {
      AttemptsSpawn(job, world, n - 1);
      CountStep(job, world, n, IsSpawn);
      CountStep(job, world, n, IsAlert);
      CountAttempt(job, world(n - 1), n - 1, IsSpawn);
      CountAttempt(job, world(n - 1), n - 1, IsAlert);
    }
  }

  /** One spawn per attempt, and one alert exactly when every allowed attempt failed under a policy that alerts. */
  lemma SpawnsAndAlerts(job: Job, world: nat -> Attempt, n: nat)
    requires MakesAttempts(job, world, n)
    ensures Count(Effects(job, world, n), IsSpawn) == n
    ensures Count(Effects(job, world, n), IsAlert)
      == Tally(!job.onFailure.Ignore? && forall i :: 0 <= i < Limit(job) ==> !Succeeds(world(i)))
  {
    AttemptsSpawn(job, world, n);
    var alert := FinalAlert(job, world(n - 1));
    CountAppend(Attempts(job, world, n), alert, IsSpawn);
    CountAppend(Attempts(job, world, n), alert, IsAlert);
    if alert != [] {
      assert alert == [alert[0]];
      CountFew(alert[0], alert[0], IsSpawn);
      CountFew(alert[0], alert[0], IsAlert);
    }
    assert Succeeds(world(n - 1)) <==> StatusOf(job, world(n - 1)).Success?;
    assert (forall i :: 0 <= i < Limit(job) ==> !Succeeds(world(i))) <==> !Succeeds(world(n - 1));
  }

  lemma {:induction false} AttemptsStop(job: Job, world: nat -> Attempt, n: nat, i: nat)
    ensures Count(Attempts(job, world, n), e => e == Stop(i)) == Tally(i < n && world(i).TimesOut?)
  {
    if n > 0 {
      AttemptsStop(job, world, n - 1, i);
      CountStep(job, world, n, e => e == Stop(i));
      CountAttempt(job, world(n - 1), n - 1, e => e == Stop(i));
    }
  }

  /** Every attempt is spawned with the rendered goal and the job's own timeout. */
  lemma {:induction false} SpawnsRenderedGoal(job: Job, world: nat -> Attempt, n: nat, k: nat)
    requires k < |Attempts(job, world, n)| && Attempts(job, world, n)[k].Spawn?
    ensures var e := Attempts(job, world, n)[k];
      && e.attempt < n && e.timeout == job.timeout && (e.accepted <==> !world(e.attempt).SpawnError?)
      && e.goal == Rendering.ReplaceInOrder(Rendering.Single, job.goal, job.args)
  {
    var before := Attempts(job, world, n - 1);
    if k < |before| {
      SpawnsRenderedGoal(job, world, n - 1, k);
    } else {
      var pause := if n == 1 then [] else [Backoff(job.backoff)];
      var last := AttemptEffects(job, GoalOf(job), world(n - 1), n - 1);
      assert k >= |before + pause| && Attempts(job, world, n)[k] == last[k - |before + pause|];
    }
  }

  predicate IsBackoff(e: Effect) { e.Backoff? }

  /** Every attempt but the first is spawned directly behind a pause of the configured length; */
  lemma {:induction false} PausesBeforeRetries(job: Job, world: nat -> Attempt, n: nat, k: nat)
    requires k < |Attempts(job, world, n)| && Attempts(job, world, n)[k].Spawn?
    ensures var log := Attempts(job, world, n);
      (log[k].attempt == 0 <==> k == 0) && (k > 0 ==> log[k - 1] == Backoff(job.backoff))
  {
    var before := Attempts(job, world, n - 1);
    var pause := if n == 1 then [] else [Backoff(job.backoff)];
    var last := AttemptEffects(job, GoalOf(job), world(n - 1), n - 1);
    assert Attempts(job, world, n) == before + pause + last;
    if k < |before| {
      PausesBeforeRetries(job, world, n - 1, k);
    } else {
      assert k == |before| + |pause|;
      if n > 1 { assert Attempts(job, world, n)[k - 1] == pause[0]; }
    }
  }

  /** there are no other pauses, */
  lemma {:induction false} PausesAreExact(job: Job, world: nat -> Attempt, n: nat)
    ensures Count(Attempts(job, world, n), IsBackoff) == if n == 0 then 0 else n - 1
  {
    if n > 0 {
      PausesAreExact(job, world, n - 1);
      var pause := if n == 1 then [] else [Backoff(job.backoff)];
      var before, last := Attempts(job, world, n - 1), AttemptEffects(job, GoalOf(job), world(n - 1), n - 1);
      CountFew(Backoff(job.backoff), Backoff(job.backoff), IsBackoff);
      CountAppend(before, pause, IsBackoff);
      CountAppend(before + pause, last, IsBackoff);
      CountAttempt(job, world(n - 1), n - 1, IsBackoff);
    }
  }

  /** and every attempt is spawned exactly once. */
  lemma {:induction false} EachAttemptSpawnsOnce(job: Job, world: nat -> Attempt, n: nat, i: nat)
    ensures Count(Attempts(job, world, n), (e: Effect) => e.Spawn? && e.attempt == i) == Tally(i < n)
  {
    if n > 0 {
      EachAttemptSpawnsOnce(job, world, n - 1, i);
      CountStep(job, world, n, (e: Effect) => e.Spawn? && e.attempt == i);
      CountAttempt(job, world(n - 1), n - 1, (e: Effect) => e.Spawn? && e.attempt == i);
    }
  }

  /** The alert is the last thing a job does: it names the job and the reason of the last attempt, and under Retry how
      many attempts were allowed. */
  lemma AlertTellsWhy(job: Job, world: nat -> Attempt, n: nat)
    requires MakesAttempts(job, world, n) && !job.onFailure.Ignore? && !Succeeds(world(n - 1))
    ensures var log, last := Effects(job, world, n), world(n - 1);
      var reason := if last.SpawnError? then SpawnFailed(last.error)
                    else if last.TimesOut? then TimeoutAfter(job.timeout)
                    else last.status.reason;
      && log != []
      && log[|log| - 1] == AlertSent(job.id, if job.onFailure.Alert? then Plain(reason)
                                             else Exhausted(if job.maxAttempts == 0 then 1
                                               else job.maxAttempts, reason))
      && log[..|log| - 1] == Attempts(job, world, n)
  {
    var alert := FinalAlert(job, world(n - 1));
    assert |alert| == 1;
    assert Effects(job, world, n)[..|Attempts(job, world, n)|] == Attempts(job, world, n);
  }

  /** A timed-out agent is stopped exactly once, and no other agent is. */
  lemma {:induction false} StopsAreExact(job: Job, world: nat -> Attempt, n: nat, i: nat)
    requires n >= 1
    ensures Count(Effects(job, world, n), e => e == Stop(i)) == Tally(i < n && world(i).TimesOut?)
  {
    AttemptsStop(job, world, n, i);
    var alert := FinalAlert(job, world(n - 1));
    CountAppend(Attempts(job, world, n), alert, e => e == Stop(i));
    if alert != [] {
      assert alert == [alert[0]];
      CountFew(alert[0], alert[0], e => e == Stop(i));
    }
  }

  /** The attempts that have been spawned and have neither exited nor been stopped. */
  function LiveStep(live: set<nat>, e: Effect): set<nat> {
    match e
    case Spawn(i, _, _, accepted) => if accepted then live + {i} else live
    case ExitSeen(i) => live - {i}
    case Stop(i) => live - {i}
    case _ => live
  }

  function LiveAfter(live: set<nat>, log: seq<Effect>): set<nat>
    decreases |log|
  {
    if log == [] then live else LiveAfter(LiveStep(live, log[0]), log[1..])
  }

  lemma {:induction false} LiveAppend(live: set<nat>, a: seq<Effect>, b: seq<Effect>)
    ensures LiveAfter(live, a + b) == LiveAfter(LiveAfter(live, a), b)
    decreases |a|
  {
    if a == [] {
      assert a + b == b;
    } else {
      assert (a + b)[1..] == a[1..] + b;
      LiveAppend(LiveStep(live, a[0]), a[1..], b);
    }
  }

  /** Whenever an attempt is spawned every earlier one is resolved, and the log ends with nothing unresolved. */
  ghost predicate OneAtATime(log: seq<Effect>) {
    && LiveAfter({}, log) == {}
    && forall k :: 0 <= k < |log| && log[k].Spawn? ==> LiveAfter({}, log[..k]) == {}
  }

  lemma OneAtATimeAppend(a: seq<Effect>, b: seq<Effect>)
    requires OneAtATime(a) && OneAtATime(b)
    ensures OneAtATime(a + b)
  {
    LiveAppend({}, a, b);
    forall k | 0 <= k < |a + b| && (a + b)[k].Spawn? ensures LiveAfter({}, (a + b)[..k]) == {} {
      if k < |a| {
        assert (a + b)[..k] == a[..k];
      } else {
        assert (a + b)[..k] == a + b[..k - |a|];
        LiveAppend({}, a, b[..k - |a|]);
      }
    }
  }

  lemma AttemptIsResolved(job: Job, a: Attempt, i: nat)
    ensures OneAtATime(AttemptEffects(job, GoalOf(job), a, i))
  {
    var log := AttemptEffects(job, GoalOf(job), a, i);
    assert log[..0] == [];
    if |log| == 2 {
      assert log[1..] == [log[1]] && [log[1]][1..] == [];
      assert LiveStep({}, log[0]) == {i} && LiveStep({i}, log[1]) == {};
      assert LiveAfter({i}, [log[1]]) == {};
    } else {
      assert log[1..] == [];
    }
  }

  lemma QuietEffect(e: Effect)
    requires e.Backoff? || e.AlertSent?
    ensures OneAtATime([e])
  {
    assert [e][1..] == [];
  }

  lemma {:induction false} AttemptsOneAtATime(job: Job, world: nat -> Attempt, n: nat)
    ensures OneAtATime(Attempts(job, world, n))
  {
    if n > 0 {
      AttemptsOneAtATime(job, world, n - 1);
      var before := Attempts(job, world, n - 1);
      var pause := if n == 1 then [] else [Backoff(job.backoff)];
      QuietEffect(Backoff(job.backoff));
      OneAtATimeAppend(before, pause);
      AttemptIsResolved(job, world(n - 1), n - 1);
      OneAtATimeAppend(before + pause, AttemptEffects(job, GoalOf(job), world(n - 1), n - 1));
    }
  }

  /** A job never has two unresolved attempts: each is stopped or has exited before the next is spawned. */
  lemma JobRunsOneAtATime(job: Job, world: nat -> Attempt, n: nat)
    requires n >= 1
    ensures OneAtATime(Effects(job, world, n))
  {
    AttemptsOneAtATime(job, world, n);
    var alert := FinalAlert(job, world(n - 1));
    if alert == [] {
      assert Effects(job, world, n) == Attempts(job, world, n);
    } else {
      assert alert == [alert[0]];
      QuietEffect(alert[0]);
      OneAtATimeAppend(Attempts(job, world, n), alert);
    }
  }
}
