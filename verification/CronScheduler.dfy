/**
 The cron scheduler and the tick loop that asks it for due jobs. The clock is read twice per tick: once by the loop,
 once by the scheduler.
 */
module CronScheduler {
  import opened Common

  /** A cron expression, reduced to the instants at which it fires. */
  datatype Expression = Invalid | Valid(fires: seq<int>)

  datatype CronJob = CronJob(id: string, name: string, expression: Expression, lastRun: Option<int>, enabled: bool)

  datatype CronError = InvalidExpression | NotFound(id: string)

  predicate Increasing(fires: seq<int>) {
    forall i, j :: 0 <= i < j < |fires| ==> fires[i] < fires[j]
  }

  /** The first instant of the list strictly after `t`. */
  function NextAfter(fires: seq<int>, t: int): Option<int> {
    if fires == [] then None
    else if fires[0] > t then Some(fires[0])
    else NextAfter(fires[1..], t)
  }

  lemma {:induction false} NextAfterIsLeast(fires: seq<int>, t: int)
    requires Increasing(fires)
    ensures NextAfter(fires, t).Some? ==>
      var n := NextAfter(fires, t).value;
      n in fires && n > t && forall f :: f in fires && f > t ==> n <= f
    ensures NextAfter(fires, t).None? ==> forall f :: f in fires ==> f <= t
  {
    if fires != [] {
      NextAfterIsLeast(fires[1..], t);
      assert forall f :: f in fires <==> f == fires[0] || f in fires[1..];
    }
  }

  /** The scheduler's test: enabled, and the next run after `since` is not in the future. */
  predicate Due(job: CronJob, since: int, now: int) {
    && job.enabled
    && job.expression.Valid?
    && var next := NextAfter(job.expression.fires, since);
       next.Some? && next.value <= now
  }

  predicate WellFormed(job: CronJob) {
    job.expression.Valid? ==> Increasing(job.expression.fires)
  }

  predicate FiresAt(job: CronJob, f: int) {
    job.expression.Valid? && f in job.expression.fires
  }

  /** A job is due exactly when it is enabled and fires in the half-open window. */
  lemma DueIffFiresInWindow(job: CronJob, since: int, now: int)
    requires WellFormed(job)
    ensures Due(job, since, now) <==> job.enabled && exists f :: FiresAt(job, f) && since < f <= now
  {
    if job.expression.Valid? {
      NextAfterIsLeast(job.expression.fires, since);
      if Due(job, since, now) {
        var next := NextAfter(job.expression.fires, since).value;
        assert FiresAt(job, next) && since < next <= now;
      }
    }
  }

  /** The mark left by a run plays no part in the test. */
  lemma LastRunIsIgnored(job: CronJob, when: Option<int>, since: int, now: int)
    ensures Due(job.(lastRun := when), since, now) <==> Due(job, since, now)
  {
  }

  class CronScheduler {
    var jobs: map<string, CronJob>

    ghost predicate Valid()
      reads this
    {
      forall id :: id in jobs ==> jobs[id].id == id && WellFormed(jobs[id])
    }

    constructor ()
      ensures Valid() && jobs == map[]
    {
      jobs := map[];
    }

    method AddJob(name: string, expression: Expression, uuid: string) returns (r: Result<string, CronError>)
      requires Valid() && (expression.Valid? ==> Increasing(expression.fires))
      modifies this
      ensures Valid()
      ensures r == if expression.Invalid? then Err(InvalidExpression) else Ok(uuid)
      ensures jobs == if expression.Invalid? then old(jobs)
                      else old(jobs)[uuid := CronJob(uuid, name, expression, None, true)]
    {
      if expression.Invalid? {
        return Err(InvalidExpression);
      }
      jobs := jobs[uuid := CronJob(uuid, name, expression, None, true)];
      r := Ok(uuid);
    }

    method RemoveJob(id: string) returns (r: Result<(), CronError>)
      requires Valid()
      modifies this
      ensures Valid() && jobs == old(jobs) - {id}
      ensures r == if id in old(jobs) then Ok(()) else Err(NotFound(id))
    {
      r := if id in jobs then Ok(()) else Err(NotFound(id));
      jobs := jobs - {id};
    }

    method UpdateLastRun(id: string, when: int)
      requires Valid()
      modifies this
      ensures Valid() && jobs.Keys == old(jobs.Keys)
      ensures forall k :: k in jobs ==>
        jobs[k] == if k == id then old(jobs)[k].(lastRun := Some(when)) else old(jobs)[k]
    {
      if id in jobs {
        jobs := jobs[id := jobs[id].(lastRun := Some(when))];
      }
    }

    /** The due jobs, in whatever order the map yields them. */
    method DueJobs(since: int, now: int) returns (due: seq<string>)
      requires Valid()
      ensures forall id :: id in due <==> id in jobs && Due(jobs[id], since, now)
      ensures forall i, j :: 0 <= i < j < |due| ==> due[i] != due[j]
    {
      due := [];
      var todo := jobs.Keys;
      while todo != {}
        invariant todo <= jobs.Keys
        invariant forall id :: id in due <==> id in jobs && id !in todo && Due(jobs[id], since, now)
        invariant forall i, j :: 0 <= i < j < |due| ==> due[i] != due[j]
        decreases todo
      {
        var id :| id in todo;
        todo := todo - {id};
        if Due(jobs[id], since, now) {
          due := due + [id];
        }
      }
    }
  }

  // The tick loop.

  /** The two clock reads of one tick. */
  datatype Tick = Tick(tickTime: int, now: int)

  ghost predicate ReadInOrder(start: int, ticks: seq<Tick>, i: nat)
    requires i < |ticks|
  {
    && (if i == 0 then start else ticks[i - 1].now) <= ticks[i].tickTime
    && ticks[i].tickTime <= ticks[i].now
  }

  /** The clock never runs backwards. */
  ghost predicate Monotone(start: int, ticks: seq<Tick>) {
    forall i :: 0 <= i < |ticks| ==> ReadInOrder(start, ticks, i)
  }

  /** Where the window of tick `i` begins: at the loop's own clock read of the tick before. */
  function Since(start: int, ticks: seq<Tick>, i: nat): int
    requires i <= |ticks|
  {
    if i == 0 then start else ticks[i - 1].tickTime
  }

  predicate InWindow(start: int, ticks: seq<Tick>, i: nat, f: int)
    requires i < |ticks|
  {
    Since(start, ticks, i) < f <= ticks[i].now
  }

  lemma {:induction false} TickTimesIncrease(start: int, ticks: seq<Tick>, i: nat, j: nat)
    requires Monotone(start, ticks) && i <= j <= |ticks|
    ensures Since(start, ticks, i) <= Since(start, ticks, j)
    decreases j
  {
    if i < j {
      TickTimesIncrease(start, ticks, i, j - 1);
      assert ReadInOrder(start, ticks, j - 1);
      if j > 1 { assert ReadInOrder(start, ticks, j - 2); }
    }
  }

  /** The tick at whose own clock read the instant has just passed. */
  lemma {:induction false} FindTick(start: int, ticks: seq<Tick>, f: int, n: nat) returns (i: nat)
    requires n <= |ticks| && start < f <= Since(start, ticks, n)
    ensures i < n && Since(start, ticks, i) < f <= ticks[i].tickTime
    decreases n
  {
    if Since(start, ticks, n - 1) < f {
      i := n - 1;
    } else {
      i := FindTick(start, ticks, f, n - 1);
    }
  }

  /** Windows of earlier ticks end too soon, except that the one just before may reach past its own start of the
      next. */
  lemma WindowsBefore(start: int, ticks: seq<Tick>, f: int, i: nat, j: nat)
    requires Monotone(start, ticks) && j < i < |ticks| && Since(start, ticks, i) < f
    ensures InWindow(start, ticks, j, f) <==> j + 1 == i && f <= ticks[j].now
  {
    TickTimesIncrease(start, ticks, j, i);
    if j + 1 < i {
      assert ReadInOrder(start, ticks, j + 1);
      TickTimesIncrease(start, ticks, j + 2, i);
    }
  }

  /** Every instant after the start and up to the latest tick lies in one window, and in the one before it as well
      exactly when it falls between the two clock reads of that earlier tick. */
  lemma FireInOneOrTwoWindows(start: int, ticks: seq<Tick>, f: int) returns (i: nat)
    requires Monotone(start, ticks) && start < f <= Since(start, ticks, |ticks|)
    ensures i < |ticks|
    ensures forall j :: 0 <= j < |ticks| ==>
      (InWindow(start, ticks, j, f) <==> j == i || (j + 1 == i && ticks[j].tickTime < f <= ticks[j].now))
  {
    i := FindTick(start, ticks, f, |ticks|);
    assert ReadInOrder(start, ticks, i);
    forall j | 0 <= j < |ticks|
      ensures InWindow(start, ticks, j, f) <==> j == i || (j + 1 == i && ticks[j].tickTime < f <= ticks[j].now)
    {
      if j < i {
        WindowsBefore(start, ticks, f, i, j);
      } else if i < j {
        TickTimesIncrease(start, ticks, i + 1, j);
      }
    }
  }

  // The runner.

  datatype CrontabEntry = CrontabEntry(id: string, schedule: Expression)

  /** The runner keeps entries under their own ids, the last one winning; */
  function Kept(entries: seq<CrontabEntry>): map<string, CrontabEntry> {
    if entries == [] then map[]
    else
      var n := |entries| - 1;
      Kept(entries[..n])[entries[n].id := entries[n]]
  }

  /** the scheduler keeps them under generated ids. */
  function Scheduled(entries: seq<CrontabEntry>, uuids: seq<string>): map<string, CronJob>
    requires |uuids| == |entries|
  {
    if entries == [] then map[]
    else
      var n := |entries| - 1;
      Scheduled(entries[..n], uuids[..n])[uuids[n] := CronJob(uuids[n], entries[n].id, entries[n].schedule, None, true)]
  }

  lemma {:induction false} TablesHaveKeys(entries: seq<CrontabEntry>, uuids: seq<string>, key: string)
    requires |uuids| == |entries|
    ensures key in Kept(entries) <==> exists i :: 0 <= i < |entries| && entries[i].id == key
    ensures key in Scheduled(entries, uuids) <==> key in uuids
    decreases |entries|
  {
    if entries != [] {
      var n := |entries| - 1;
      TablesHaveKeys(entries[..n], uuids[..n], key);
      assert forall i :: 0 <= i < n ==> entries[..n][i] == entries[i];
      assert uuids == uuids[..n] + [uuids[n]];
      assert entries[n].id == key ==> exists i :: 0 <= i < |entries| && entries[i].id == key;
    }
  }

  /** Of entries with one id the runner keeps the last. */
  lemma {:induction false} LastEntryIsKept(entries: seq<CrontabEntry>, i: nat)
    requires i < |entries| && forall j :: i < j < |entries| ==> entries[j].id != entries[i].id
    ensures entries[i].id in Kept(entries) && Kept(entries)[entries[i].id] == entries[i]
    decreases |entries|
  {
    var n := |entries| - 1;
    if i < n {
      LastEntryIsKept(entries[..n], i);
    }
  }

  /** With distinct generated ids every entry is scheduled: none displaces another. */
  lemma {:induction false} EveryEntryIsScheduled(entries: seq<CrontabEntry>, uuids: seq<string>, i: nat)
    requires |uuids| == |entries| && i < |entries| && forall a, b :: 0 <= a < b < |uuids| ==> uuids[a] != uuids[b]
    ensures uuids[i] in Scheduled(entries, uuids)
    ensures Scheduled(entries, uuids)[uuids[i]] == CronJob(uuids[i], entries[i].id, entries[i].schedule, None, true)
    decreases |entries|
  {
    var n := |entries| - 1;
    if i < n {
      EveryEntryIsScheduled(entries[..n], uuids[..n], i);
    }
  }

  /** What one tick reported and which of the runner's jobs it dispatched. */
  datatype Report = Report(due: set<string>, dispatched: seq<string>)

  /** A report lists the jobs due in the window, and dispatches once each of those the runner keeps under the reported
      id. */
  ghost predicate IsReport(report: Report, scheduled: map<string, CronJob>, kept: set<string>, since: int, now: int) {
    && (forall id :: id in report.due <==> id in scheduled && Due(scheduled[id], since, now))
    && (forall id :: id in report.dispatched <==> id in report.due && id in kept)
    && (forall a, b :: 0 <= a < b < |report.dispatched| ==> report.dispatched[a] != report.dispatched[b])
  }

  ghost predicate ReportAt(reports: seq<Report>, scheduled: map<string, CronJob>, kept: set<string>, start: int,
                           ticks: seq<Tick>, i: nat)
    requires i < |reports| <= |ticks|
  {
    IsReport(reports[i], scheduled, kept, Since(start, ticks, i), ticks[i].now)
  }

  ghost predicate AreReports(reports: seq<Report>, scheduled: map<string, CronJob>, kept: set<string>, start: int,
                             ticks: seq<Tick>) {
    && |reports| <= |ticks|
    && forall i :: 0 <= i < |reports| ==> ReportAt(reports, scheduled, kept, start, ticks, i)
  }

  lemma AppendReport(reports: seq<Report>, report: Report, scheduled: map<string, CronJob>, kept: set<string>,
                     start: int, ticks: seq<Tick>)
    requires |reports| < |ticks| && AreReports(reports, scheduled, kept, start, ticks)
    requires IsReport(report, scheduled, kept, Since(start, ticks, |reports|), ticks[|reports|].now)
    ensures AreReports(reports + [report], scheduled, kept, start, ticks)
  {
    var more := reports + [report];
    forall i | 0 <= i < |more| ensures ReportAt(more, scheduled, kept, start, ticks, i) {
      if i < |reports| {
        assert ReportAt(reports, scheduled, kept, start, ticks, i);
      }
    }
  }

  /** A runner built from a crontab dispatches an id exactly when it was generated for an entry, is also the own id of
      an entry, and the job scheduled under it is due. */
  lemma {:induction false} DispatchIffSharedId(entries: seq<CrontabEntry>, uuids: seq<string>, report: Report,
                                               since: int, now: int, id: string)
    requires |uuids| == |entries|
    requires IsReport(report, Scheduled(entries, uuids), Kept(entries).Keys, since, now)
    ensures id in report.dispatched <==>
      && id in uuids && (exists i :: 0 <= i < |entries| && entries[i].id == id)
      && id in Scheduled(entries, uuids) && Due(Scheduled(entries, uuids)[id], since, now)
  {
    TablesHaveKeys(entries, uuids, id);
  }

  /** So when no generated id is a crontab id, no run of the runner ever dispatches anything. */
  lemma {:induction false} DisjointIdsDispatchNothing(entries: seq<CrontabEntry>, uuids: seq<string>,
                                                      reports: seq<Report>, start: int, ticks: seq<Tick>, i: nat)
    requires |uuids| == |entries| && AreReports(reports, Scheduled(entries, uuids), Kept(entries).Keys, start, ticks)
    requires forall j :: 0 <= j < |entries| ==> entries[j].id !in uuids
    requires i < |reports|
    ensures reports[i].dispatched == []
  {
    assert ReportAt(reports, Scheduled(entries, uuids), Kept(entries).Keys, start, ticks, i);
    if reports[i].dispatched != [] {
      DispatchIffSharedId(entries, uuids, reports[i], Since(start, ticks, i), ticks[i].now, reports[i].dispatched[0]);
    }
  }

  /** A report about jobs that differ only in their marks is a report about the original ones. */
  lemma ReportDespiteMarks(report: Report, before: map<string, CronJob>, after: map<string, CronJob>, kept: set<string>,
                           since: int, now: int)
    requires SameButLastRun(before, after) && IsReport(report, after, kept, since, now)
    ensures IsReport(report, before, kept, since, now)
  {
    forall id | id in before ensures Due(before[id], since, now) <==> Due(after[id], since, now) {
      LastRunIsIgnored(before[id], after[id].lastRun, since, now);
    }
  }

  /** The mark of a job after `n` ticks. */
  function MarkAfter(job: CronJob, start: int, ticks: seq<Tick>, n: nat): Option<int>
    requires n <= |ticks|
  {
    if n == 0 then job.lastRun
    else if Due(job, Since(start, ticks, n - 1), ticks[n - 1].now) then Some(ticks[n - 1].tickTime)
    else MarkAfter(job, start, ticks, n - 1)
  }

  /** It is the loop's clock read of the last tick that found the job due, if there is one. */
  lemma {:induction false} MarkIsLastDueTick(job: CronJob, start: int, ticks: seq<Tick>, n: nat, i: nat)
    requires i < n <= |ticks| && Due(job, Since(start, ticks, i), ticks[i].now)
    requires forall j :: i < j < n ==> !Due(job, Since(start, ticks, j), ticks[j].now)
    ensures MarkAfter(job, start, ticks, n) == Some(ticks[i].tickTime)
    decreases n
  {
    if i < n - 1 {
      MarkIsLastDueTick(job, start, ticks, n - 1, i);
    }
  }

  class CronRunner {
    const scheduler: CronScheduler
    const jobs: map<string, CrontabEntry>

    ghost predicate Valid()
      reads this, scheduler
    {
      scheduler.Valid()
    }

    constructor (scheduler: CronScheduler, jobs: map<string, CrontabEntry>)
      ensures this.scheduler == scheduler && this.jobs == jobs
    {
      this.scheduler, this.jobs := scheduler, jobs;
    }

    /** Register every entry with the scheduler and keep it under its own id. */
    static method FromCrontab(entries: seq<CrontabEntry>, uuids: seq<string>) returns (r: Result<CronRunner, CronError>)
      requires |uuids| == |entries|
      requires forall i :: 0 <= i < |entries| && entries[i].schedule.Valid? ==> Increasing(entries[i].schedule.fires)
      ensures r.Err? <==> exists i :: 0 <= i < |entries| && entries[i].schedule.Invalid?
      ensures r.Err? ==> r.error == InvalidExpression
      ensures r.Ok? ==>
        && r.value.Valid() && r.value.jobs == Kept(entries)
        && r.value.scheduler.jobs == Scheduled(entries, uuids)
    {
      var scheduler := new CronScheduler();
      var jobs: map<string, CrontabEntry> := map[];
      for k := 0 to |entries|
        invariant scheduler.Valid() && fresh(scheduler)
        invariant forall i :: 0 <= i < k ==> entries[i].schedule.Valid?
        invariant jobs == Kept(entries[..k])
        invariant scheduler.jobs == Scheduled(entries[..k], uuids[..k])
      {
        var added := scheduler.AddJob(entries[k].id, entries[k].schedule, uuids[k]);
        if added.Err? {
          return Err(added.error);
        }
        jobs := jobs[entries[k].id := entries[k]];
        assert entries[..k + 1][..k] == entries[..k] && uuids[..k + 1][..k] == uuids[..k];
      }
      assert entries[..|entries|] == entries && uuids[..|entries|] == uuids;
      var runner := new CronRunner(scheduler, jobs);
      r := Ok(runner);
    }

    /** The tick loop, over the clock reads of any number of ticks. */
    method Run(start: int, ticks: seq<Tick>) returns (reports: seq<Report>)
      requires Valid()
      modifies scheduler
      ensures Valid() && |reports| == |ticks|
      ensures AreReports(reports, old(scheduler.jobs), jobs.Keys, start, ticks)
      ensures SameButLastRun(old(scheduler.jobs), scheduler.jobs)
      ensures forall id :: id in scheduler.jobs ==>
        scheduler.jobs[id].lastRun == MarkAfter(old(scheduler.jobs)[id], start, ticks, |ticks|)
    {
      reports := [];
      var lastTick := start;
      ghost var initial := scheduler.jobs;
      for k := 0 to |ticks|
        invariant Valid() && |reports| == k && lastTick == Since(start, ticks, k)
        invariant SameButLastRun(initial, scheduler.jobs)
        invariant AreReports(reports, initial, jobs.Keys, start, ticks)
        invariant forall id :: id in scheduler.jobs ==>
          scheduler.jobs[id].lastRun == MarkAfter(initial[id], start, ticks, k)
      {
        ghost var marked := scheduler.jobs;
        var report := OnTick(lastTick, ticks[k]);
        ReportDespiteMarks(report, initial, marked, jobs.Keys, lastTick, ticks[k].now);
        forall id | id in initial ensures Due(marked[id], lastTick, ticks[k].now) <==>
          Due(initial[id], lastTick, ticks[k].now) {
          LastRunIsIgnored(initial[id], marked[id].lastRun, lastTick, ticks[k].now);
        }
        AppendReport(reports, report, initial, jobs.Keys, start, ticks);
        reports := reports + [report];
        lastTick := ticks[k].tickTime;
      }
    }

    method OnTick(lastTick: int, tick: Tick) returns (report: Report)
      requires Valid()
      modifies scheduler
      ensures Valid() && SameButLastRun(old(scheduler.jobs), scheduler.jobs)
      ensures IsReport(report, old(scheduler.jobs), jobs.Keys, lastTick, tick.now)
      ensures forall id :: id in scheduler.jobs ==>
        scheduler.jobs[id].lastRun == if Due(old(scheduler.jobs)[id], lastTick, tick.now) then Some(tick.tickTime)
                                      else old(scheduler.jobs)[id].lastRun
    {
      var due := scheduler.DueJobs(lastTick, tick.now);
      var dispatched := FireAll(due, tick.tickTime);
      report := Report((set id | id in due), dispatched);
    }

    /** Mark every due job as run and dispatch those that the runner knows under the reported id. */
    method FireAll(due: seq<string>, tickTime: int) returns (dispatched: seq<string>)
      requires Valid()
      requires forall i, j :: 0 <= i < j < |due| ==> due[i] != due[j]
      modifies scheduler
      ensures Valid() && SameButLastRun(old(scheduler.jobs), scheduler.jobs)
      ensures forall id :: id in scheduler.jobs ==>
        scheduler.jobs[id].lastRun == if id in due then Some(tickTime) else old(scheduler.jobs)[id].lastRun
      ensures forall id :: id in dispatched <==> id in due && id in jobs
      ensures forall a, b :: 0 <= a < b < |dispatched| ==> dispatched[a] != dispatched[b]
    {
      dispatched := [];
      for k := 0 to |due|
        invariant Valid() && SameButLastRun(old(scheduler.jobs), scheduler.jobs)
        invariant forall id :: id in scheduler.jobs ==>
          scheduler.jobs[id].lastRun == if id in due[..k] then Some(tickTime) else old(scheduler.jobs)[id].lastRun
        invariant forall id :: id in dispatched <==> id in due[..k] && id in jobs
        invariant forall a, b :: 0 <= a < b < |dispatched| ==> dispatched[a] != dispatched[b]
      {
        scheduler.UpdateLastRun(due[k], tickTime);
        assert due[..k + 1] == due[..k] + [due[k]];
        if due[k] in jobs {
          dispatched := dispatched + [due[k]];
        }
      }
      assert due[..|due|] == due;
    }
  }

  ghost predicate SameButLastRun(before: map<string, CronJob>, after: map<string, CronJob>) {
    && after.Keys == before.Keys
    && forall id :: id in before ==> after[id] == before[id].(lastRun := after[id].lastRun)
  }

  /** The reports a run makes about one job: the ticks whose window the scheduler finds due. */
  ghost predicate ReportedAt(job: CronJob, start: int, ticks: seq<Tick>, i: nat)
    requires i < |ticks|
  {
    Due(job, Since(start, ticks, i), ticks[i].now)
  }

  /** No firing of an enabled job is missed: it is reported by the tick that follows it. A tick that reports a job does
      so for a firing inside its window. */
  lemma NoFiringMissed(job: CronJob, start: int, ticks: seq<Tick>, f: int) returns (i: nat)
    requires WellFormed(job) && job.enabled && FiresAt(job, f)
    requires Monotone(start, ticks) && start < f <= Since(start, ticks, |ticks|)
    ensures i < |ticks| && Since(start, ticks, i) < f <= ticks[i].tickTime && ReportedAt(job, start, ticks, i)
  {
    i := FindTick(start, ticks, f, |ticks|);
    assert ReadInOrder(start, ticks, i);
    DueIffFiresInWindow(job, Since(start, ticks, i), ticks[i].now);
  }

  /** A firing whose job fires neither in its own window nor in the one before for another reason is reported by its own
      tick, and by the tick before exactly when it falls between the two clock reads of that tick. */
  lemma FiringReportedTwiceIff(job: CronJob, start: int, ticks: seq<Tick>, f: int, i: nat)
    requires WellFormed(job) && job.enabled && FiresAt(job, f)
    requires Monotone(start, ticks) && i < |ticks| && Since(start, ticks, i) < f <= ticks[i].tickTime
    requires forall g :: FiresAt(job, g) && g != f ==>
      !InWindow(start, ticks, i, g) && (i > 0 ==> !InWindow(start, ticks, i - 1, g))
    ensures ReportedAt(job, start, ticks, i)
    ensures i > 0 ==> (ReportedAt(job, start, ticks, i - 1) <==> ticks[i - 1].tickTime < f <= ticks[i - 1].now)
  {
    assert ReadInOrder(start, ticks, i);
    DueIffFiresInWindow(job, Since(start, ticks, i), ticks[i].now);
    if i > 0 {
      DueIffFiresInWindow(job, Since(start, ticks, i - 1), ticks[i - 1].now);
      WindowsBefore(start, ticks, f, i, i - 1);
    }
  }

  /** In particular a job that fires once is reported by two ticks exactly when that firing falls between the two clock
      reads of one of them. */
  lemma SingleFiringReportedTwiceIff(job: CronJob, start: int, ticks: seq<Tick>, f: int)
    requires job.enabled && job.expression == Valid([f])
    requires Monotone(start, ticks) && start < f <= Since(start, ticks, |ticks|)
    ensures (exists i, j :: 0 <= i < j < |ticks| && ReportedAt(job, start, ticks, i)
               && ReportedAt(job, start, ticks, j))
      <==> (exists i :: 0 <= i < |ticks| - 1 && ticks[i].tickTime < f <= ticks[i].now)
  {
    forall i | 0 <= i < |ticks| ensures ReportedAt(job, start, ticks, i) <==> InWindow(start, ticks, i, f) {
      DueIffFiresInWindow(job, Since(start, ticks, i), ticks[i].now);
      assert FiresAt(job, f);
    }
    var k := FireInOneOrTwoWindows(start, ticks, f);
    if i :| 0 <= i < |ticks| - 1 && ticks[i].tickTime < f <= ticks[i].now {
      TickTimesIncrease(start, ticks, i, i + 1);
      assert ReadInOrder(start, ticks, i + 1);
      assert InWindow(start, ticks, i, f) && InWindow(start, ticks, i + 1, f);
      assert ReportedAt(job, start, ticks, i) && ReportedAt(job, start, ticks, i + 1);
    }
  }
}
