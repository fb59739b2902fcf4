/** One worker, left alone, brings every job and every delivery to its end. */
module OneWorker {
  import opened Common
  import opened Analysis
  import opened LeaseQueue
  import opened QueueProgress
  import opened Store
  import opened Workers
  import opened SystemInvariant
  import opened WorkerProcess
  import opened Guarantees

  /** What Loki, Gemini, Slack and the database answer in each call, chosen by nobody in particular. */
  datatype Answers = Answers(work: nat -> Event, late: nat -> Option<AnalyzeError>, send: nat -> Event)

  ghost predicate AnswersFor(a: Answers, w: string) {
    forall k: nat :: a.work(k).Work? && a.work(k).worker == w && a.send(k).Send? && a.send(k).worker == w
  }

  // ---------------------------------------------------------------- calls at given times

  function JobCall(w: string, now: int, a: Answers, k: nat): seq<Event> {
    [PollJob(w, now, {}), a.work(k), FinishJob(w, now, a.late(k)), ReportJob(w, now)]
  }

  function DeliveryCall(w: string, now: int, a: Answers, k: nat): seq<Event> {
    [PollDelivery(w, now, {}), a.send(k), FinishDelivery(w, now), ReportDelivery(w, now)]
  }

  /** Calls of run_once at the given times, the first of them call number k. */
  function JobCalls(w: string, times: seq<int>, a: Answers, k: nat): seq<Event> {
    if times == [] then [] else JobCall(w, times[0], a, k) + JobCalls(w, times[1..], a, k + 1)
  }

  function DeliveryCalls(w: string, times: seq<int>, a: Answers, k: nat): seq<Event> {
    if times == [] then [] else DeliveryCall(w, times[0], a, k) + DeliveryCalls(w, times[1..], a, k + 1)
  }

  /** Times that never go back, from t on. */
  ghost predicate Ascending(times: seq<int>, t: int) {
    && (forall i | 0 <= i < |times| :: t <= times[i])
    && forall i, j | 0 <= i < j < |times| :: times[i] <= times[j]
  }

  ghost predicate AllEnded(rows: seq<Row>) {
    forall i | 0 <= i < |rows| :: Terminal(rows[i])
  }

  // ---------------------------------------------------------------- jobs

  /** A call that finds a job due leaves less work. */
  lemma JobCallWorks(cfg: Config, s: System, w: string, now: int, a: Answers, k: nat)
    requires cfg.Valid() && Inv(cfg, s) && w in s.workers && s.workers[w].Idle? && AnswersFor(a, w)
    requires NextRow(s.tables.jobs, now, {}).Some?
    ensures var s' := Run(cfg, s, JobCall(w, now, a, k));
            && Inv(cfg, s') && s'.workers == s.workers && |s'.tables.jobs| == |s.tables.jobs|
            && WorkLeft(s'.tables.jobs, cfg.JobPolicy()) + 2 <= WorkLeft(s.tables.jobs, cfg.JobPolicy())
  {
    hide Run, NextRow, Legal, Apply, WorkLeft, TakeJob, Analysed, AllConsistent;
    RunOnceAlone(cfg, s, w, PollJob(w, now, {}), a.work(k), FinishJob(w, now, a.late(k)), ReportJob(w, now));
    RunKeepsInv(cfg, s, JobCall(w, now, a, k));
    var p, next := cfg.JobPolicy(), NextRow(s.tables.jobs, now, {});
    var open := TakeJob(cfg, s.tables, w, now, next).1;
    var ph := Analysed(cfg, open.ticket, open.incident, a.work(k));
    var outcome := JobOutcome(ph, w, FinishJob(w, now, a.late(k)), ReportJob(w, now));
    ClaimAndOutcome(s.tables.jobs, Grant(next.value, w, now, {}), [], outcome, p);
    StepKeepsLength(s.tables.jobs, Grant(next.value, w, now, {}), p);
    StepKeepsLength(Apply(s.tables.jobs, Grant(next.value, w, now, {}), p), outcome, p);
  }

  lemma StepKeepsLength(rows: seq<Row>, op: Op, p: Policy)
    requires !op.Insert?
    ensures |Apply(rows, op, p)| == |rows|
  {
  }

  lemma {:induction false} MessagesKeepWork(rows: seq<Row>, ops: seq<Op>, p: Policy)
    requires p.Valid() && AllConsistent(rows, p) && LegalAll(rows, ops, p) && forall op | op in ops :: op.Message?
    ensures AllConsistent(ApplyAll(rows, ops, p), p) && WorkLeft(ApplyAll(rows, ops, p), p) <= WorkLeft(rows, p)
    decreases |ops|
  {
    hide Legal, Apply, WorkLeft, AllConsistent;
    if ops != [] {
      assert ops[0] in ops && forall op | op in ops[1..] :: op in ops;
      AllConsistentKept(rows, ops[0], p);
      WorkLeftStep(rows, ops[0], p);
      MessagesKeepWork(Apply(rows, ops[0], p), ops[1..], p);
    }
  }

  lemma ClaimAndOutcome(rows: seq<Row>, grant: Op, messages: seq<Op>, outcome: Op, p: Policy)
    requires p.Valid() && AllConsistent(rows, p) && Legal(rows, grant, p) && grant.Grant?
    requires LegalAll(Apply(rows, grant, p), messages, p) && forall op | op in messages :: op.Message?
    requires Legal(ApplyAll(Apply(rows, grant, p), messages, p), outcome, p) && (outcome.Finish? || outcome.Release?)
    ensures WorkLeft(Apply(ApplyAll(Apply(rows, grant, p), messages, p), outcome, p), p) + 2 <= WorkLeft(rows, p)
  {
    hide Legal, LegalAll, Apply, ApplyAll, WorkLeft, AllConsistent;
    AllConsistentKept(rows, grant, p);
    WorkLeftStep(rows, grant, p);
    MessagesKeepWork(Apply(rows, grant, p), messages, p);
    WorkLeftStep(ApplyAll(Apply(rows, grant, p), messages, p), outcome, p);
  }

  /** Whatever the services answer, some ascending times let the worker finish all jobs. */
  lemma {:induction false} JobsFinish(cfg: Config, s: System, w: string, a: Answers, t: int, k: nat)
    returns (times: seq<int>)
    requires cfg.Valid() && Inv(cfg, s) && w in s.workers && s.workers[w].Idle? && AnswersFor(a, w)
    ensures var s' := Run(cfg, s, JobCalls(w, times, a, k));
            && Ascending(times, t) && Inv(cfg, s') && s'.workers == s.workers
            && AllEnded(s'.tables.jobs) && |s'.tables.jobs| == |s.tables.jobs|
            && 2 * |times| <= WorkLeft(s.tables.jobs, cfg.JobPolicy())
    decreases WorkLeft(s.tables.jobs, cfg.JobPolicy())
  {
    hide Run, WorkLeft, NextRow, AllConsistent, Terminal, PhaseOk, Sound, JobOwnersOk, DeliveryOwnersOk, JobCall;
    var p, rows := cfg.JobPolicy(), s.tables.jobs;
    WorkLeftBounds(rows, p);
    if AllEnded(rows) {
      times := [];
      NoRun(cfg, s);
    } else {
      var i :| 0 <= i < |rows| && !Terminal(rows[i]);
      var now := Max(t, DueAt(rows[i]));
      SomethingDue(rows, p, i, now);
      JobCallWorks(cfg, s, w, now, a, k);
      var next := Run(cfg, s, JobCall(w, now, a, k));
      WorkLeftBounds(next.tables.jobs, p);
      var rest := JobsFinish(cfg, next, w, a, now, k + 1);
      times := [now] + rest;
      assert times[1..] == rest;
      RunConcat(cfg, s, JobCall(w, now, a, k), JobCalls(w, rest, a, k + 1));
    }
  }

  lemma NoRun(cfg: Config, s: System)
    ensures Run(cfg, s, []) == s
  {
  }

  // ---------------------------------------------------------------- deliveries

  lemma DeliveryCallWorks(cfg: Config, s: System, w: string, now: int, a: Answers, k: nat)
    requires cfg.Valid() && Inv(cfg, s) && w in s.workers && s.workers[w].Idle? && AnswersFor(a, w)
    requires NextRow(s.tables.deliveries, now, {}).Some?
    ensures var s', p := Run(cfg, s, DeliveryCall(w, now, a, k)), cfg.DeliveryPolicy();
            && Inv(cfg, s') && s'.workers == s.workers && s'.tables.jobs == s.tables.jobs
            && WorkLeft(s'.tables.deliveries, p) + 2 <= WorkLeft(s.tables.deliveries, p)
  {
    hide Run, NextRow, Legal, LegalAll, Apply, ApplyAll, WorkLeft, TakeDelivery, Workers.SendMessage, AllConsistent;
    DeliverOnceAlone(cfg, s, w, PollDelivery(w, now, {}), a.send(k), FinishDelivery(w, now), ReportDelivery(w, now));
    RunKeepsInv(cfg, s, DeliveryCall(w, now, a, k));
    var p, next := cfg.DeliveryPolicy(), NextRow(s.tables.deliveries, now, {});
    var open := TakeDelivery(cfg, s.tables, w, now, next).1;
    var ph := Workers.SendMessage(s.tables, open, a.send(k).configured, a.send(k).reply).1;
    var outcome := DeliveryOutcome(ph, w, FinishDelivery(w, now), ReportDelivery(w, now));
    ClaimAndOutcome(s.tables.deliveries, Grant(next.value, w, now, {}), MessageOps(open.ticket, a.send(k)), outcome, p);
  }

  lemma {:induction false} DeliveriesFinish(cfg: Config, s: System, w: string, a: Answers, t: int, k: nat)
    returns (times: seq<int>)
    requires cfg.Valid() && Inv(cfg, s) && w in s.workers && s.workers[w].Idle? && AnswersFor(a, w)
    ensures var s' := Run(cfg, s, DeliveryCalls(w, times, a, k));
            && Ascending(times, t) && Inv(cfg, s') && s'.tables.jobs == s.tables.jobs
            && AllEnded(s'.tables.deliveries)
            && 2 * |times| <= WorkLeft(s.tables.deliveries, cfg.DeliveryPolicy())
    decreases WorkLeft(s.tables.deliveries, cfg.DeliveryPolicy())
  {
    hide Run, WorkLeft, NextRow, AllConsistent, Terminal, PhaseOk, Sound, JobOwnersOk, DeliveryOwnersOk, DeliveryCall;
    var p, rows := cfg.DeliveryPolicy(), s.tables.deliveries;
    WorkLeftBounds(rows, p);
    if AllEnded(rows) {
      times := [];
      NoRun(cfg, s);
    } else {
      var i :| 0 <= i < |rows| && !Terminal(rows[i]);
      var now := Max(t, DueAt(rows[i]));
      SomethingDue(rows, p, i, now);
      DeliveryCallWorks(cfg, s, w, now, a, k);
      var next := Run(cfg, s, DeliveryCall(w, now, a, k));
      WorkLeftBounds(next.tables.deliveries, p);
      var rest := DeliveriesFinish(cfg, next, w, a, now, k + 1);
      times := [now] + rest;
      assert times[1..] == rest;
      RunConcat(cfg, s, DeliveryCall(w, now, a, k), DeliveryCalls(w, rest, a, k + 1));
    }
  }

  // ---------------------------------------------------------------- both

  /** The run of a worker that starts, works off the jobs, and then the deliveries. */
  function Shift(w: string, jobTimes: seq<int>, deliveryTimes: seq<int>, a: Answers): seq<Event> {
    [Start(w)] + JobCalls(w, jobTimes, a, 0) + DeliveryCalls(w, deliveryTimes, a, 0)
  }

  lemma Starts(cfg: Config, s: System, w: string)
    requires w !in s.workers
    ensures Run(cfg, s, [Start(w)]) == s.(workers := s.workers[w := Idle])
  {
    RunOfOne(cfg, s, Start(w));
  }

  function LastTime(times: seq<int>, t: int): int {
    if times == [] then t else Last(times)
  }

  /**
   From every reachable state, whatever other workers have left behind and whatever the services
   answer, one new worker alone and a clock that only advances end every job and delivery. It makes
   at most one call of run_once for each two units of work left: the rank of the jobs and one
   takeover for each leased one; likewise for the deliveries it finds then. Together that is at
   most J + D calls for each job.
   */
  lemma OneWorkerFinishes(cfg: Config, s: System, w: string, a: Answers, t: int)
    returns (jobTimes: seq<int>, deliveryTimes: seq<int>)
    requires cfg.Valid() && Reachable(cfg, s) && w !in s.workers && AnswersFor(a, w)
    ensures Ascending(jobTimes + deliveryTimes, t)
    ensures var s' := Run(cfg, s, Shift(w, jobTimes, deliveryTimes, a));
            AllEnded(s'.tables.jobs) && AllEnded(s'.tables.deliveries)
    ensures 2 * |jobTimes| <= WorkLeft(s.tables.jobs, cfg.JobPolicy())
    ensures |jobTimes| + |deliveryTimes| <= (cfg.jobMax + cfg.deliveryMax) * |s.tables.jobs|
  {
    hide Run, WorkLeft, Ascending, AllEnded, Inv, JobCalls, DeliveryCalls, AllConsistent;
    Reached(cfg, s);
    var started := Run(cfg, s, [Start(w)]);
    RunKeepsInv(cfg, s, [Start(w)]);
    Starts(cfg, s, w);
    jobTimes := JobsFinish(cfg, started, w, a, t, 0);
    var worked := Run(cfg, started, JobCalls(w, jobTimes, a, 0));
    deliveryTimes := DeliveriesFinish(cfg, worked, w, a, LastTime(jobTimes, t), 0);
    RunConcat(cfg, s, [Start(w)], JobCalls(w, jobTimes, a, 0));
    RunConcat(cfg, s, [Start(w)] + JobCalls(w, jobTimes, a, 0), DeliveryCalls(w, deliveryTimes, a, 0));
    AscendingConcat(jobTimes, deliveryTimes, t);
    CallsBounded(cfg, s.tables.jobs, worked, |jobTimes|, |deliveryTimes|);
  }

  lemma AscendingConcat(a: seq<int>, b: seq<int>, t: int)
    requires Ascending(a, t) && Ascending(b, LastTime(a, t))
    ensures Ascending(a + b, t)
  {
  }

  lemma CallsBounded(cfg: Config, jobs: seq<Row>, worked: System, n: nat, m: nat)
    requires cfg.Valid() && Inv(cfg, worked) && AllConsistent(jobs, cfg.JobPolicy()) && |worked.tables.jobs| == |jobs|
    requires 2 * n <= WorkLeft(jobs, cfg.JobPolicy())
    requires 2 * m <= WorkLeft(worked.tables.deliveries, cfg.DeliveryPolicy())
    ensures n + m <= (cfg.jobMax + cfg.deliveryMax) * |jobs|
  {
    hide WorkLeft, OutboxSound, PhaseOk, JobOwnersOk, DeliveryOwnersOk;
    WorkLeftBounds(jobs, cfg.JobPolicy());
    WorkLeftBounds(worked.tables.deliveries, cfg.DeliveryPolicy());
    DeliveriesWithinJobs(worked.tables);
    HalfOfTwice(n, cfg.jobMax, |jobs|, |jobs|);
    HalfOfTwice(m, cfg.deliveryMax, |worked.tables.deliveries|, |jobs|);
    TimesDistributes(cfg.jobMax, cfg.deliveryMax, |jobs|);
  }

  lemma HalfOfTwice(n: nat, a: nat, j: nat, k: nat)
    requires 2 * n <= 2 * a * j && j <= k
    ensures n <= a * k
  {
    assert a * j <= a * k;
  }

  lemma TimesDistributes(a: nat, b: nat, k: nat)
    ensures (a + b) * k == a * k + b * k
  {
  }
}
