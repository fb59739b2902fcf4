/** What one call does to the row it takes, in terms of what the outside world answered. */
module Calls {
  import opened Common
  import opened Evidence
  import opened Loki
  import opened Analysis
  import Slack
  import opened LeaseQueue
  import opened LeaseLaws
  import opened Store
  import opened Workers
  import opened SystemInvariant
  import opened WorkerProcess

  // ---------------------------------------------------------------- a claim

  /** Row i as a claim of worker w leaves it, every other row as it was. */
  ghost predicate ClaimedAt(rows: seq<Row>, rows': seq<Row>, i: nat, w: string, now: int, lease: int) {
    && i < |rows| == |rows'|
    && (forall j | 0 <= j < |rows| && j != i :: rows'[j] == rows[j])
    && var r, r' := rows[i], rows'[i];
       && r'.status.Leased? && r'.attempts == r.attempts + 1 && r'.owner == Some(w) && r'.until == Some(now + lease)
       && r'.failure.None? && r'.updatedAt == now
       && r'.incident == r.incident && r'.revision == r.revision && r'.createdAt == r.createdAt
       && r'.availableAt == r.availableAt
  }

  /** A job claim leases the job for job_lease_seconds and gives the worker the job's incident. */
  lemma JobClaim(cfg: Config, s: System, w: string, now: int, locked: set<nat>, k: nat)
    requires cfg.Valid() && Inv(cfg, s) && w in s.workers && s.workers[w].Idle?
    requires NextRow(s.tables.jobs, now, locked).Some? && k < |s.tables.incidents|
    requires s.tables.incidents[k].id == s.tables.jobs[NextRow(s.tables.jobs, now, locked).value].incident
    ensures var s', i := Next(cfg, s, PollJob(w, now, locked)), NextRow(s.tables.jobs, now, locked).value;
            && s'.tables == s.tables.(jobs := s'.tables.jobs)
            && ClaimedAt(s.tables.jobs, s'.tables.jobs, i, w, now, cfg.jobLease)
            && s'.workers == s.workers[w := JobOpen(Ticket(i, RowKey(s.tables.jobs[i]), s.tables.jobs[i].attempts + 1),
                                                    s.tables.incidents[k])]
  {
    hide NextRow, Sound;
    SourcesPresent(s.tables, cfg, w, now, locked);
    IncidentOfOne(s.tables, k);
  }

  lemma IncidentOfOne(t: Tables, k: nat)
    requires Sound(t) && k < |t.incidents|
    ensures t.incidents[k].id in Ids(t.incidents) && IncidentOf(t.incidents, t.incidents[k].id) == t.incidents[k]
  {
    IncidentOfFinds(t.incidents, k);
  }

  lemma ResultOfOne(t: Tables, j: nat)
    requires Sound(t) && j < |t.results|
    ensures IsStored(t.results, t.results[j].key) && ResultOf(t.results, t.results[j].key) == t.results[j]
  {
    ResultOfFinds(t, j);
  }

  /** A delivery claim leases it for notification_lease_seconds and gives the worker what to announce. */
  lemma DeliveryClaim(cfg: Config, s: System, w: string, now: int, locked: set<nat>, k: nat, j: nat)
    requires cfg.Valid() && Inv(cfg, s) && w in s.workers && s.workers[w].Idle?
    requires NextRow(s.tables.deliveries, now, locked).Some? && k < |s.tables.incidents| && j < |s.tables.results|
    requires s.tables.incidents[k].id == s.tables.deliveries[NextRow(s.tables.deliveries, now, locked).value].incident
    requires s.tables.results[j].key == RowKey(s.tables.deliveries[NextRow(s.tables.deliveries, now, locked).value])
    ensures var s', i := Next(cfg, s, PollDelivery(w, now, locked)), NextRow(s.tables.deliveries, now, locked).value;
            var r := s.tables.deliveries[i];
            && s'.tables == s.tables.(deliveries := s'.tables.deliveries)
            && ClaimedAt(s.tables.deliveries, s'.tables.deliveries, i, w, now, cfg.deliveryLease)
            && s'.workers == s.workers[w := DeliveryOpen(Ticket(i, RowKey(r), r.attempts + 1), s.tables.incidents[k],
                                                         s.tables.results[j].analysis.result)]
  {
    hide NextRow, Sound;
    SourcesPresent(s.tables, cfg, w, now, locked);
    IncidentOfOne(s.tables, k);
    ResultOfOne(s.tables, j);
  }

  // ---------------------------------------------------------------- the analysis

  /** What run_once makes of what it collected: stored, failed for good, or to be retried. */
  datatype Verdict = Stored(bundle: EvidenceBundle, analysis: LlmAnalysis) | Invalid | Unavailable

  /** The rules of run_once and of the model client, for the incident analysed and the answers given. */
  ghost function VerdictOn(cfg: Config, incident: Incident, work: Event): Verdict
    requires work.Work?
  {
    var alerts := BuildAlertEvidence(incident.event);
    if alerts.Err? then Verdict.Invalid else
    var collected := Collect(work.application, work.mysql, cfg.lokiLimit, incident.startedAt);
    var b := EvidenceBundle("grafana-loki-mysql-v3", collected.windowStart, collected.windowEnd, collected.logEvidence,
                            alerts.value, collected.truncated);
    if !WorthAsking(b) then Stored(b, InsufficientEvidence(b))
    else if work.model.Some? && work.gemini.Unreachable? then Verdict.Unavailable
    else if work.model.Some? && work.gemini.Answer? && AnswerOk(b, work.gemini.result)
      then Stored(b, LlmAnalysis(work.gemini.result, "gemini", work.model.value))
    else Verdict.Invalid
  }

  /** The worker's decision is that verdict, and its two except clauses tell it apart. */
  lemma AnalysedIsVerdict(cfg: Config, ticket: Ticket, incident: Incident, work: Event)
    requires work.Work?
    ensures Analysed(cfg, ticket, incident, work)
            == match VerdictOn(cfg, incident, work)
               case Stored(bundle, analysis) => JobReady(ticket, bundle, analysis)
               case Invalid => JobFailing(ticket, Failure("INVALID_ANALYSIS", false, None))
               case Unavailable => JobFailing(ticket, Failure("DEPENDENCY_UNAVAILABLE", true, None))
  {
    hide Collect, WorthAsking, AnswerOk, InsufficientEvidence, Decide;
    var alerts := BuildAlertEvidence(incident.event);
    if alerts.Ok? {
      var collected := Collect(work.application, work.mysql, cfg.lokiLimit, incident.startedAt);
      var b := collected.(alertEvidence := alerts.value, collectorVersion := "grafana-loki-mysql-v3");
      AskedIffWorthAsking(b, work.model, work.gemini);
    }
  }

  /** The job after a failure: invalid is final, a missing dependency is retried while attempts are left. */
  ghost predicate FailedAs(r: Row, r': Row, retryable: bool, code: string, now: int, cfg: Config) {
    && r'.attempts == r.attempts + 1 && r'.failure == Some(code)
    && r'.owner.None? && r'.until.None? && r'.updatedAt == now
    && (r'.status.Pending? <==> retryable && r.attempts + 1 < cfg.jobMax)
    && (r'.status.Failed? <==> !r'.status.Pending?)
    && (r'.status.Pending? ==> r'.availableAt == now + 5 * (r.attempts + 1) * SECOND)
  }

  /** A call of run_once that finds a job due, by what Loki, Gemini and the settings gave it. */
  lemma RunOnceOutcome(cfg: Config, s: System, w: string, poll: Event, work: Event, finish: Event, report: Event,
                       k: nat)
    requires cfg.Valid() && Inv(cfg, s)
    requires poll.PollJob? && work.Work? && finish.FinishJob? && report.ReportJob?
    requires w == poll.worker == work.worker == finish.worker == report.worker && w in s.workers && s.workers[w].Idle?
    requires NextRow(s.tables.jobs, poll.now, poll.locked).Some? && k < |s.tables.incidents|
    requires s.tables.incidents[k].id == s.tables.jobs[NextRow(s.tables.jobs, poll.now, poll.locked).value].incident
    ensures var i := NextRow(s.tables.jobs, poll.now, poll.locked).value;
            var t, t' := s.tables, Run(cfg, s, [poll, work, finish, report]).tables;
            var r := t.jobs[i];
            |t'.jobs| == |t.jobs| && i < |t.jobs| &&
            match VerdictOn(cfg, t.incidents[k], work)
            case Stored(bundle, analysis) =>
              && t'.jobs[i].status.Succeeded? && t'.jobs[i].attempts == r.attempts + 1 && t'.jobs[i].failure.None?
              && t'.bundles == t.bundles + [EvidenceRow(RowKey(r), bundle)]
              && t'.results == t.results + [ResultRow(RowKey(r), analysis)]
              && |t'.deliveries| == |t.deliveries| + 1 && RowKey(t'.deliveries[|t.deliveries|]) == RowKey(r)
            case Invalid =>
              && FailedAs(r, t'.jobs[i], false, "INVALID_ANALYSIS", report.now, cfg)
              && t' == t.(jobs := t'.jobs)
            case Unavailable =>
              && FailedAs(r, t'.jobs[i], true, "DEPENDENCY_UNAVAILABLE", report.now, cfg)
              && t' == t.(jobs := t'.jobs)
  {
    hide Inv, Run, NextRow, Legal, VerdictOn, Analysed;
    RunOnceAlone(cfg, s, w, poll, work, finish, report);
    var next := NextRow(s.tables.jobs, poll.now, poll.locked);
    var open := TakeJob(cfg, s.tables, w, poll.now, next).1;
    InvSound(cfg, s);
    IncidentOfOne(s.tables, k);
    AnalysedIsVerdict(cfg, open.ticket, s.tables.incidents[k], work);
  }

  lemma InvSound(cfg: Config, s: System)
    requires Inv(cfg, s)
    ensures Sound(s.tables)
  {
  }

  /** An exception while collecting, asking or storing ends the call by the same two except clauses. */
  lemma AbortOutcome(cfg: Config, s: System, w: string, error: AnalyzeError, now: int)
    requires cfg.Valid() && Inv(cfg, s) && w in s.workers && (s.workers[w].JobOpen? || s.workers[w].JobReady?)
    requires Owns(s.tables.jobs, s.workers[w].ticket.id, w)
    ensures var s', i := Run(cfg, s, [Abort(w, error), ReportJob(w, now)]), s.workers[w].ticket.id;
            && s'.workers == s.workers[w := Idle] && |s'.tables.jobs| == |s.tables.jobs|
            && s'.tables == s.tables.(jobs := s'.tables.jobs)
            && (var r, r' := s.tables.jobs[i], s'.tables.jobs[i];
                && r'.attempts == r.attempts && r'.owner.None?
                && r'.failure == Some(if error.Invalid? then "INVALID_ANALYSIS" else "DEPENDENCY_UNAVAILABLE")
                && (r'.status.Pending? <==> error.Unavailable? && r.attempts < cfg.jobMax)
                && (r'.status.Failed? <==> !r'.status.Pending?))
  {
    hide Inv;
    RunOfTwo(cfg, s, Abort(w, error), ReportJob(w, now));
    var s1 := Next(cfg, s, Abort(w, error));
    assert s1.workers[w := Idle] == s.workers[w := Idle];
  }

  /** An exception after complete has committed is reported too, and changes nothing any more. */
  lemma LateErrorIsHarmless(cfg: Config, s: System, w: string, now: int, error: AnalyzeError, later: int)
    requires cfg.Valid() && Inv(cfg, s) && w in s.workers && s.workers[w].JobReady?
    requires Owns(s.tables.jobs, s.workers[w].ticket.id, w)
    ensures Next(cfg, s, FinishJob(w, now, Some(error))).workers[w].JobFailing?
    ensures Run(cfg, s, [FinishJob(w, now, Some(error)), ReportJob(w, later)]) == Next(cfg, s, FinishJob(w, now, None))
  {
    hide Inv, InsertOutcome;
    RunOfTwo(cfg, s, FinishJob(w, now, Some(error)), ReportJob(w, later));
    CompletionOutcomes(cfg, s, w, now);
    var s1 := Next(cfg, s, FinishJob(w, now, Some(error)));
    assert s1.workers[w := Idle] == s.workers[w := Idle];
  }

  // ---------------------------------------------------------------- the message

  /** The seconds Slack's 429 asks for, as far as they are from 1 to 3600. */
  function AskedSeconds(h: Slack.RetryAfter): int {
    if !h.Seconds? || h.n < 1 then 1 else if h.n > 3600 then 3600 else h.n
  }

  /** A failed delivery: the code it gets, and when it is due again if it is retried. */
  ghost predicate UndeliveredAs(r: Row, r': Row, retryable: bool, code: string, seconds: int, explicit: bool,
                                now: int, cfg: Config)
  {
    && r'.attempts == r.attempts + 1 && r'.failure == Some(code)
    && r'.owner.None? && r'.until.None? && r'.updatedAt == now
    && (r'.status.Pending? <==> retryable && r.attempts + 1 < cfg.deliveryMax)
    && (r'.status.Failed? <==> !r'.status.Pending?)
    && r'.availableAt == now + seconds * SECOND
    && (r'.status.Pending? ==> r'.claims != [] && Last(r'.claims).fate == Requeued(seconds * SECOND, explicit))
  }

  /** A call of deliver_notification_once that finds a delivery due, by what Slack answered. */
  lemma DeliverOnceOutcome(cfg: Config, s: System, w: string, poll: Event, send: Event, finish: Event, report: Event)
    requires cfg.Valid() && Inv(cfg, s)
    requires poll.PollDelivery? && send.Send? && finish.FinishDelivery? && report.ReportDelivery?
    requires w == poll.worker == send.worker == finish.worker == report.worker && w in s.workers && s.workers[w].Idle?
    requires NextRow(s.tables.deliveries, poll.now, poll.locked).Some?
    ensures var i := NextRow(s.tables.deliveries, poll.now, poll.locked).value;
            var t, t' := s.tables, Run(cfg, s, [poll, send, finish, report]).tables;
            |t'.deliveries| == |t.deliveries| && i < |t.deliveries| && t' == t.(deliveries := t'.deliveries) &&
            var r, r', reply := t.deliveries[i], t'.deliveries[i], send.reply;
            var backoff := Min(5 * Pow2(r.attempts), 300);
            if !send.configured then
              UndeliveredAs(r, r', false, "SLACK_NOT_CONFIGURED", backoff, false, report.now, cfg)
            else if reply.RequestError? then
              UndeliveredAs(r, r', true, "SLACK_UNAVAILABLE", backoff, false, report.now, cfg)
            else if reply.status == 429 then
              UndeliveredAs(r, r', true, "SLACK_RATE_LIMITED", AskedSeconds(reply.retryAfter), true, report.now, cfg)
            else if reply.status >= 500 then
              UndeliveredAs(r, r', true, "SLACK_UNAVAILABLE", backoff, false, report.now, cfg)
            else if reply.status >= 400 then
              UndeliveredAs(r, r', false, "SLACK_REJECTED", backoff, false, report.now, cfg)
            else if !reply.bodyIsOk then
              UndeliveredAs(r, r', false, "SLACK_INVALID_RESPONSE", backoff, false, report.now, cfg)
            else
              && r'.status.Succeeded? && r'.attempts == r.attempts + 1 && r'.failure.None?
              && r'.owner.None? && r'.until.None? && r'.updatedAt == finish.now
  {
    hide Inv, Run, NextRow, Legal, TakeDelivery, FailRow, CompleteRow, Pow2, UndeliveredAs;
    DeliverOnceAlone(cfg, s, w, poll, send, finish, report);
    var next, p := NextRow(s.tables.deliveries, poll.now, poll.locked), cfg.DeliveryPolicy();
    var i, rows := next.value, s.tables.deliveries;
    var open := TakeDelivery(cfg, s.tables, w, poll.now, next).1;
    var taken := Apply(rows, Grant(i, w, poll.now, poll.locked), p);
    if MessageOps(open.ticket, send) != [] {
      ApplyOne(taken, MessageOps(open.ticket, send)[0], p);
    }
    var sent := ApplyAll(taken, MessageOps(open.ticket, send), p)[i];
    assert sent.attempts == rows[i].attempts + 1 && sent.claims != [];
    if send.configured && Slack.Send(send.reply).Ok? {
      CompletedColumns(sent, finish.now);
    } else {
      var f := if send.configured then Slack.Send(send.reply).error else Slack.NOT_CONFIGURED;
      FailedColumns(rows[i], sent, report.now, f, cfg);
    }
  }

  lemma CompletedColumns(r: Row, now: int)
    ensures var r' := CompleteRow(r, now);
            && r'.status.Succeeded? && r'.attempts == r.attempts && r'.failure.None?
            && r'.owner.None? && r'.until.None? && r'.updatedAt == now
  {
  }

  lemma FailedColumns(before: Row, r: Row, now: int, f: Failure, cfg: Config)
    requires r.attempts == before.attempts + 1 && r.claims != [] && |f.code| <= 64
    ensures UndeliveredAs(before, FailRow(r, now, f, cfg.DeliveryPolicy()), f.retryable, f.code,
                          if f.retryAfter.Some? then f.retryAfter.value else Min(5 * Pow2(before.attempts), 300),
                          f.retryAfter.Some?, now, cfg)
  {
    hide Pow2;
    if f.retryAfter.Some? {
      RetryAfterHonoured(r, now, f, cfg.DeliveryPolicy());
    } else {
      DeliveryRetryDelay(r, now, f, cfg.DeliveryPolicy());
    }
  }
}
