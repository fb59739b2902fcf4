/** Runs that do what a reader might think the code rules out. */
module Counterexamples {
  import opened Common
  import opened Evidence
  import opened Loki
  import opened Analysis
  import Slack
  import opened LeaseQueue
  import opened LeaseLaws
  import opened Store
  import opened Workers
  import opened SystemInvariant
  import opened WorkerProcess
  import opened Guarantees

  // ---------------------------------------------------------------- the limit is not a limit on attempts

  /** The n-th worker claims the one job a lease after the worker before it, and never reports. */
  function SilentWorkers(cfg: Config, x: Item, n: nat): seq<Event> {
    if n == 0 then [Create(x)]
    else SilentWorkers(cfg, x, n - 1) + [Start(Decimal(n)), PollJob(Decimal(n), x.now + n * (cfg.jobLease + 1), {})]
  }

  ghost predicate ClaimedTimes(cfg: Config, x: Item, n: nat, s: System) {
    && |s.tables.jobs| == 1 && Ids(s.tables.incidents) == [x.id]
    && (forall w | w in s.workers :: exists i :: 1 <= i <= n && w == Decimal(i))
    && var r := s.tables.jobs[0];
       && r.incident == x.id && r.attempts == n && r.availableAt == x.now
       && (if n == 0 then r.status.Pending?
           else r.status.Leased? && r.until == Some(x.now + n * (cfg.jobLease + 1) + cfg.jobLease))
  }

  lemma ClaimedOnceMore(cfg: Config, x: Item, n: nat, s: System)
    requires cfg.Valid() && ClaimedTimes(cfg, x, n, s)
    ensures ClaimedTimes(cfg, x, n + 1,
      Next(cfg, Next(cfg, s, Start(Decimal(n + 1))), PollJob(Decimal(n + 1), x.now + (n + 1) * (cfg.jobLease + 1), {})))
  {
    hide Decimal, ReceiveRow, FailRow, CompleteRow;
    var w, now := Decimal(n + 1), x.now + (n + 1) * (cfg.jobLease + 1);
    LaterBy(n, cfg.jobLease + 1);
    forall i | 1 <= i <= n ensures Decimal(i) != w {
      if Decimal(i) == w {
        DecimalInjective(i, n + 1);
      }
    }
    var jobs := s.tables.jobs;
    OnlyCandidate(jobs, now);
    assert Ids(s.tables.incidents)[0] == x.id;
  }

  lemma LaterBy(n: nat, step: nat)
    ensures (n + 1) * step == n * step + step >= step
  {
  }

  lemma OnlyCandidate(rows: seq<Row>, now: int)
    requires |rows| == 1 && Candidate(rows, now, {}, 0)
    ensures NextRow(rows, now, {}) == Some(0)
  {
    assert rows[..0] == [];
  }

  /**
   job_max_attempts does not bound attempt_count: for any settings and any n there is a run in
   which no worker reports and a job that has not ended has been attempted n times.
   */
  lemma {:induction false} AttemptsAreUnbounded(cfg: Config, x: Item, n: nat)
    requires cfg.Valid() && x.fault.NoFault?
    ensures ClaimedTimes(cfg, x, n, After(cfg, SilentWorkers(cfg, x, n)))
  {
    hide ClaimedTimes, Next, Run;
    if n == 0 {
      CreatedOnce(cfg, x);
      RunOfOne(cfg, INITIAL, Create(x));
    } else {
      AttemptsAreUnbounded(cfg, x, n - 1);
      var es := SilentWorkers(cfg, x, n - 1);
      var start, poll := Start(Decimal(n)), PollJob(Decimal(n), x.now + n * (cfg.jobLease + 1), {});
      ClaimedOnceMore(cfg, x, n - 1, After(cfg, es));
      RunConcat(cfg, INITIAL, es, [start, poll]);
      RunOfTwo(cfg, After(cfg, es), start, poll);
    }
  }

  lemma CreatedOnce(cfg: Config, x: Item)
    requires cfg.Valid() && x.fault.NoFault?
    ensures ClaimedTimes(cfg, x, 0, Next(cfg, INITIAL, Create(x)))
  {
    assert Ids([]) == [] && Episodes([]) == [];
    IdsPushed([], IncidentFrom(x));
  }

  // ---------------------------------------------------------------- answers that do not arrive

  const WORKER := "worker"

  /** An incident without labels is analysed while Loki is down; its delivery is left to be sent. */
  function Analysing(x: Item): seq<Event> {
    [PollJob(WORKER, x.now, {}), Work(WORKER, Response.Failed, Response.Failed, None, NoText),
     FinishJob(WORKER, x.now, None), ReportJob(WORKER, x.now)]
  }

  /** When the delivery is due after n retries. */
  function DueAfter(x: Item, n: nat): int {
    x.now + BackoffSum(Deliveries, n) * SECOND
  }

  function Sending(now: int, reply: Slack.Reply): seq<Event> {
    [PollDelivery(WORKER, now, {}), Send(WORKER, true, reply), FinishDelivery(WORKER, now), ReportDelivery(WORKER, now)]
  }

  /** n times Slack receives the message, but its answer is lost. */
  function LostAnswers(x: Item, n: nat): seq<Event> {
    if n == 0 then [Create(x), Start(WORKER)] + Analysing(x)
    else LostAnswers(x, n - 1) + Sending(DueAfter(x, n - 1), Slack.RequestError(true))
  }

  /** The n-th answer arrives. */
  function LastAnswered(x: Item, n: nat): seq<Event>
    requires n >= 1
  {
    LostAnswers(x, n - 1) + Sending(DueAfter(x, n - 1), Slack.Response(200, Slack.Missing, true, true))
  }

  ghost predicate LostTimes(cfg: Config, x: Item, n: nat, r: Row) {
    && r.attempts == |r.claims| == n && Received(r) == n && Takeovers(r) == 0
    && (if n == cfg.deliveryMax then r.status.Failed? else r.status.Pending? && r.availableAt == DueAfter(x, n))
  }

  ghost predicate LostState(cfg: Config, x: Item, n: nat, s: System) {
    && s.workers == map[WORKER := Idle] && |s.tables.deliveries| == 1
    && LostTimes(cfg, x, n, s.tables.deliveries[0])
  }

  /** The one delivery after a call that sends it. */
  function AfterSending(r: Row, now: int, accepted: bool, p: Policy): Row {
    var sent := ReceiveRow(ClaimRow(r, WORKER, now, p), r.attempts + 1, accepted);
    if accepted then CompleteRow(sent, now) else FailRow(sent, now, Failure("SLACK_UNAVAILABLE", true, None), p)
  }

  /** It holds one message more, and nobody has taken it over. */
  lemma SendingCounts(r: Row, now: int, accepted: bool, p: Policy)
    requires r.status.Pending? && r.attempts == |r.claims| && p.kind.Deliveries?
    ensures var r' := AfterSending(r, now, accepted, p);
            && Received(r') == Received(r) + 1 && Takeovers(r') == Takeovers(r)
            && r'.attempts == |r'.claims| == r.attempts + 1
            && (accepted ==> r'.status.Succeeded?)
            && (!accepted ==> r'.status == (if r.attempts + 1 < p.maxAttempts then Pending else Status.Failed)
                              && r'.availableAt == now + Backoff(Deliveries, r.attempts + 1) * SECOND)
  {
    hide Count, Backoff;
    var claims' := AfterSending(r, now, accepted, p).claims;
    assert claims' == r.claims + [Last(claims')];
    CountPushed(r.claims, Last(claims'), IsReceived);
    CountPushed(r.claims, Last(claims'), IsTakenOver);
  }

  lemma SendingIsCall(cfg: Config, s: System, now: int, reply: Slack.Reply)
    requires cfg.Valid() && Inv(cfg, s) && s.workers == map[WORKER := Idle] && |s.tables.deliveries| == 1
    requires Slack.Received(reply) && (reply.RequestError? || Slack.Send(reply).Ok?)
    requires s.tables.deliveries[0].status.Pending? && s.tables.deliveries[0].availableAt <= now
    ensures var s' := Run(cfg, s, Sending(now, reply));
            && s'.workers == s.workers
            && s'.tables.deliveries
               == [AfterSending(s.tables.deliveries[0], now, Slack.Send(reply).Ok?, cfg.DeliveryPolicy())]
  {
    hide Inv, Run, Legal, LegalAll, ClaimRow, CompleteRow, FailRow, ReceiveRow;
    var rows, p := s.tables.deliveries, cfg.DeliveryPolicy();
    OnlyCandidate(rows, now);
    DeliverOnceAlone(cfg, s, WORKER, PollDelivery(WORKER, now, {}), Send(WORKER, true, reply),
                     FinishDelivery(WORKER, now), ReportDelivery(WORKER, now));
    var taken := Apply(rows, Grant(0, WORKER, now, {}), p);
    ApplyOne(taken, Message(0, rows[0].attempts + 1, Slack.Send(reply).Ok?), p);
  }

  lemma {:induction false} AnswersGetLost(cfg: Config, x: Item, n: nat)
    requires cfg.Valid() && x.fault.NoFault? && x.command.event.labels.None? && n <= cfg.deliveryMax
    ensures LostState(cfg, x, n, After(cfg, LostAnswers(x, n)))
  {
    hide LostTimes, Inv, Run, Backoff, BackoffSum;
    if n == 0 {
      DeliveryIsDue(cfg, x);
    } else {
      var reply := Slack.RequestError(true);
      AnswersGetLost(cfg, x, n - 1);
      AfterIsReachable(cfg, LostAnswers(x, n - 1));
      StillPending(cfg, x, n - 1, After(cfg, LostAnswers(x, n - 1)).tables.deliveries[0]);
      SendingIsCall(cfg, After(cfg, LostAnswers(x, n - 1)), DueAfter(x, n - 1), reply);
      RunConcat(cfg, INITIAL, LostAnswers(x, n - 1), Sending(DueAfter(x, n - 1), reply));
    }
  }

  lemma StillPending(cfg: Config, x: Item, n: nat, r: Row)
    requires LostTimes(cfg, x, n, r) && n < cfg.deliveryMax
    ensures r.status.Pending? && r.availableAt == DueAfter(x, n) && r.attempts == |r.claims| == n
    ensures LostTimes(cfg, x, n + 1, AfterSending(r, DueAfter(x, n), false, cfg.DeliveryPolicy()))
    ensures var r' := AfterSending(r, DueAfter(x, n), true, cfg.DeliveryPolicy());
            r'.status.Succeeded? && Received(r') == n + 1 && Takeovers(r') == 0
  {
    hide AfterSending, Received, Takeovers, Backoff;
    SendingCounts(r, DueAfter(x, n), false, cfg.DeliveryPolicy());
    SendingCounts(r, DueAfter(x, n), true, cfg.DeliveryPolicy());
  }

  /** After the analysis one delivery waits, due at once. */
  lemma DeliveryIsDue(cfg: Config, x: Item)
    requires cfg.Valid() && x.fault.NoFault? && x.command.event.labels.None?
    ensures LostState(cfg, x, 0, After(cfg, LostAnswers(x, 0)))
  {
    hide Inv, Run, Analysed, Legal, NextRow;
    var start := [Create(x), Start(WORKER)];
    var s := After(cfg, start);
    CreatedAndStarted(cfg, x);
    AfterIsReachable(cfg, start);
    RunConcat(cfg, INITIAL, start, Analysing(x));
    OnlyCandidate(s.tables.jobs, x.now);
    var e := Analysing(x);
    RunOnceAlone(cfg, s, WORKER, e[0], e[1], e[2], e[3]);
    var open := TakeJob(cfg, s.tables, WORKER, x.now, Some(0)).1;
    TakenTicket(cfg, s.tables, x);
    AnalysedWithoutLoki(cfg, open.ticket, open.incident, e[1]);
  }

  lemma CreatedAndStarted(cfg: Config, x: Item)
    requires cfg.Valid() && x.fault.NoFault?
    ensures var s := After(cfg, [Create(x), Start(WORKER)]);
            && s.workers == map[WORKER := Idle] && s.tables.incidents == [IncidentFrom(x)]
            && s.tables.jobs == [NewRow(x.id, 1, x.now)] && s.tables.deliveries == []
  {
    RunOfTwo(cfg, INITIAL, Create(x), Start(WORKER));
    assert Ids([]) == [] && Episodes([]) == [];
  }

  lemma TakenTicket(cfg: Config, t: Tables, x: Item)
    requires t.incidents == [IncidentFrom(x)] && t.jobs == [NewRow(x.id, 1, x.now)]
    ensures TakeJob(cfg, t, WORKER, x.now, Some(0)).1
            == JobOpen(Ticket(0, Key(x.id, 1), 1), IncidentFrom(x))
  {
    assert Ids(t.incidents)[0] == x.id;
  }

  lemma AnalysedWithoutLoki(cfg: Config, ticket: Ticket, incident: Incident, work: Event)
    requires work.Work? && work.application.Failed? && work.mysql.Failed? && incident.event.labels.None?
    ensures var ph := Analysed(cfg, ticket, incident, work); ph.JobReady? && ph.ticket == ticket
  {
    hide Collect;
    NothingCollected(cfg.lokiLimit, incident.startedAt);
  }

  /**
   Without any takeover Slack can hold as many copies of a message as there are attempts: for every n
   up to the limit there is a run in which it holds n and the delivery is SENT.
   */
  lemma SentWithCopies(cfg: Config, x: Item, n: nat)
    requires cfg.Valid() && x.fault.NoFault? && x.command.event.labels.None? && 1 <= n <= cfg.deliveryMax
    ensures var t := After(cfg, LastAnswered(x, n)).tables;
            && |t.deliveries| == 1 && t.deliveries[0].status.Succeeded?
            && Received(t.deliveries[0]) == n && Takeovers(t.deliveries[0]) == 0
  {
    hide LostTimes, Inv, Run, Backoff, BackoffSum;
    var reply := Slack.Response(200, Slack.Missing, true, true);
    AnswersGetLost(cfg, x, n - 1);
    AfterIsReachable(cfg, LostAnswers(x, n - 1));
    StillPending(cfg, x, n - 1, After(cfg, LostAnswers(x, n - 1)).tables.deliveries[0]);
    SendingIsCall(cfg, After(cfg, LostAnswers(x, n - 1)), DueAfter(x, n - 1), reply);
    RunConcat(cfg, INITIAL, LostAnswers(x, n - 1), Sending(DueAfter(x, n - 1), reply));
  }

  /** And it can hold a copy for every attempt while the delivery is DEAD. */
  lemma DeadThoughReceived(cfg: Config, x: Item)
    requires cfg.Valid() && x.fault.NoFault? && x.command.event.labels.None?
    ensures var t := After(cfg, LostAnswers(x, cfg.deliveryMax)).tables;
            && |t.deliveries| == 1 && t.deliveries[0].status.Failed?
            && Received(t.deliveries[0]) == cfg.deliveryMax && Takeovers(t.deliveries[0]) == 0
  {
    AnswersGetLost(cfg, x, cfg.deliveryMax);
  }
}
