/** run_once and deliver_notification_once as a process runs them against the repositories (worker.py). */
module WorkerProcess {
  import opened Common
  import opened Evidence
  import opened Loki
  import opened Analysis
  import Slack
  import opened LeaseQueue
  import opened Store
  import opened Database
  import opened Workers
  import opened SystemInvariant

  /** run_once after its query, with nobody in between: claim, decide, outcome. */
  function RunOnceFrom(cfg: Config, t: Tables, w: string, now: int, next: Option<nat>,
                       work: Event, finish: Event, report: Event)
    : (Tables, Phase)
    requires work.Work? && finish.FinishJob? && report.ReportJob? && (next.Some? ==> next.value < |t.jobs|)
  {
    var (t1, p1) := TakeJob(cfg, t, w, now, next);
    if p1.JobOpen? then Settled(cfg, t1, Analysed(cfg, p1.ticket, p1.incident, work), w, finish, report) else (t1, p1)
  }

  function Settled(cfg: Config, t: Tables, ph: Phase, w: string, finish: Event, report: Event): (Tables, Phase)
    requires finish.FinishJob? && report.ReportJob?
  {
    var (t1, p1) := ConcludeJob(t, ph, w, finish.now, finish.late);
    GiveUpJob(cfg, t1, p1, w, report.now)
  }

  function DeliverOnceFrom(cfg: Config, t: Tables, w: string, now: int, next: Option<nat>,
                           send: Event, finish: Event, report: Event)
    : (Tables, Phase)
    requires send.Send? && finish.FinishDelivery? && report.ReportDelivery?
             && (next.Some? ==> next.value < |t.deliveries|)
  {
    var (t1, p1) := TakeDelivery(cfg, t, w, now, next);
    var (t2, p2) := Workers.SendMessage(t1, p1, send.configured, send.reply);
    SettledDelivery(cfg, t2, p2, w, finish, report)
  }

  function SettledDelivery(cfg: Config, t: Tables, ph: Phase, w: string, finish: Event, report: Event): (Tables, Phase)
    requires finish.FinishDelivery? && report.ReportDelivery?
  {
    var (t1, p1) := ConcludeDelivery(t, ph, w, finish.now);
    GiveUpDelivery(cfg, t1, p1, w, report.now)
  }

  // ---------------------------------------------------------------- the calls as runs of the system

  lemma RunOfFour(cfg: Config, s: System, a: Event, b: Event, c: Event, d: Event)
    ensures Run(cfg, s, [a, b, c, d]) == Next(cfg, Next(cfg, Next(cfg, Next(cfg, s, a), b), c), d)
  {
    hide Next;
    var s1 := Next(cfg, s, a);
    var s2 := Next(cfg, s1, b);
    var s3 := Next(cfg, s2, c);
    var s4 := Next(cfg, s3, d);
    assert [a, b, c, d][1..] == [b, c, d] && [b, c, d][1..] == [c, d] && [c, d][1..] == [d] && [d][1..] == [];
    assert Run(cfg, s4, []) == s4;
    assert Run(cfg, s3, [d]) == s4;
    assert Run(cfg, s2, [c, d]) == s4;
    assert Run(cfg, s1, [b, c, d]) == s4;
  }

  lemma NextOfWorker(cfg: Config, t: Tables, workers: map<string, Phase>, ph: Phase, w: string, e: Event)
    requires !e.Create? && !e.CreateBatch? && !e.Start? && e.worker == w
    ensures var (t', ph') := WorkerStep(cfg, t, ph, e);
            Next(cfg, System(t, workers[w := ph]), e) == System(t', workers[w := ph'])
  {
    hide WorkerStep;
    var (t', ph') := WorkerStep(cfg, t, ph, e);
    assert workers[w := ph][w := ph'] == workers[w := ph'];
  }

  /** A call of run_once is the run of its worker's events with no other event among them. */
  lemma RunOnceIsARun(cfg: Config, s: System, w: string, poll: Event, work: Event, finish: Event, report: Event)
    requires poll.PollJob? && work.Work? && finish.FinishJob? && report.ReportJob?
    requires w == poll.worker == work.worker == finish.worker == report.worker && w in s.workers && s.workers[w].Idle?
    ensures var next := NextRow(s.tables.jobs, poll.now, poll.locked);
            var (t, ph) := RunOnceFrom(cfg, s.tables, w, poll.now, next, work, finish, report);
            Run(cfg, s, [poll, work, finish, report]) == System(t, s.workers[w := ph])
  {
    hide Analysed, TakeJob, ConcludeJob, GiveUpJob, Next;
    RunOfFour(cfg, s, poll, work, finish, report);
    assert s.workers == s.workers[w := Idle];
    NextOfWorker(cfg, s.tables, s.workers, Idle, w, poll);
    var (t1, p1) := TakeJob(cfg, s.tables, w, poll.now, NextRow(s.tables.jobs, poll.now, poll.locked));
    NextOfWorker(cfg, t1, s.workers, p1, w, work);
    var p2 := if p1.JobOpen? then Analysed(cfg, p1.ticket, p1.incident, work) else p1;
    NextOfWorker(cfg, t1, s.workers, p2, w, finish);
    var (t3, p3) := ConcludeJob(t1, p2, w, finish.now, finish.late);
    NextOfWorker(cfg, t3, s.workers, p3, w, report);
    TakenPhases(cfg, s.tables, w, poll.now, NextRow(s.tables.jobs, poll.now, poll.locked));
    if !p1.JobOpen? {
      SettledLeavesAlone(cfg, t1, p1, w, finish, report);
    }
  }

  lemma TakenPhases(cfg: Config, t: Tables, w: string, now: int, next: Option<nat>)
    requires next.Some? ==> next.value < |t.jobs|
    ensures var ph := TakeJob(cfg, t, w, now, next).1;
            ph.Idle? || ph.Crashed? || ph.JobOpen?
  {
  }

  lemma SettledLeavesAlone(cfg: Config, t: Tables, ph: Phase, w: string, finish: Event, report: Event)
    requires finish.FinishJob? && report.ReportJob? && (ph.Idle? || ph.Crashed?)
    ensures ConcludeJob(t, ph, w, finish.now, finish.late) == (t, ph)
    ensures GiveUpJob(cfg, t, ph, w, report.now) == (t, ph)
  {
  }

  /** A call of deliver_notification_once likewise. */
  lemma DeliverOnceIsARun(cfg: Config, s: System, w: string, poll: Event, send: Event, finish: Event, report: Event)
    requires poll.PollDelivery? && send.Send? && finish.FinishDelivery? && report.ReportDelivery?
    requires w == poll.worker == send.worker == finish.worker == report.worker && w in s.workers && s.workers[w].Idle?
    ensures var next := NextRow(s.tables.deliveries, poll.now, poll.locked);
            var (t, ph) := DeliverOnceFrom(cfg, s.tables, w, poll.now, next, send, finish, report);
            Run(cfg, s, [poll, send, finish, report]) == System(t, s.workers[w := ph])
  {
    hide TakeDelivery, SendMessage, ConcludeDelivery, GiveUpDelivery, Next;
    RunOfFour(cfg, s, poll, send, finish, report);
    assert s.workers == s.workers[w := Idle];
    NextOfWorker(cfg, s.tables, s.workers, Idle, w, poll);
    var (t1, p1) := TakeDelivery(cfg, s.tables, w, poll.now, NextRow(s.tables.deliveries, poll.now, poll.locked));
    NextOfWorker(cfg, t1, s.workers, p1, w, send);
    var (t2, p2) := SendMessage(t1, p1, send.configured, send.reply);
    NextOfWorker(cfg, t2, s.workers, p2, w, finish);
    var (t3, p3) := ConcludeDelivery(t2, p2, w, finish.now);
    NextOfWorker(cfg, t3, s.workers, p3, w, report);
  }

  // ---------------------------------------------------------------- calls without interference

  lemma TakenIsOwned(cfg: Config, s: System, w: string, poll: Event)
    requires cfg.Valid() && Inv(cfg, s) && poll.PollJob? && poll.worker == w && w in s.workers && s.workers[w].Idle?
    ensures var next := NextRow(s.tables.jobs, poll.now, poll.locked);
            var (t, ph) := TakeJob(cfg, s.tables, w, poll.now, next);
            && (next.None? ==> (t, ph) == (s.tables, Idle))
            && (next.Some? ==>
                  var grant := Grant(next.value, w, poll.now, poll.locked);
                  && Legal(s.tables.jobs, grant, cfg.JobPolicy())
                  && t == s.tables.(jobs := Apply(s.tables.jobs, grant, cfg.JobPolicy()))
                  && ph.JobOpen? && ph.ticket.id == next.value && Owns(t.jobs, next.value, w))
            && Inv(cfg, System(t, s.workers[w := ph]))
  {
    hide Sound, AllConsistent, PhaseOk, JobOwnersOk, DeliveryOwnersOk, NextRow;
    SourcesPresent(s.tables, cfg, w, poll.now, poll.locked);
    NextKeepsInv(cfg, s, poll);
  }

  lemma AnalysedKeepsOwner(cfg: Config, s: System, w: string, work: Event)
    requires cfg.Valid() && Inv(cfg, s) && work.Work? && work.worker == w && w in s.workers && s.workers[w].JobOpen?
    ensures var ph := Analysed(cfg, s.workers[w].ticket, s.workers[w].incident, work);
            && (ph.JobReady? || ph.JobFailing?) && ph.ticket == s.workers[w].ticket
            && Inv(cfg, System(s.tables, s.workers[w := ph]))
  {
    hide Inv, Collect, Judged;
    WorkKeepsInv(cfg, s, work);
    var ph := s.workers[w];
    var collected := Collect(work.application, work.mysql, cfg.lokiLimit, ph.incident.startedAt);
    JudgedKeepsTicket(ph.ticket, ph.incident.event, collected, work.model, work.gemini);
  }

  /** How a job's owner that is ready or failing reports: by complete, or by fail. */
  function JobOutcome(ph: Phase, w: string, finish: Event, report: Event): Op
    requires finish.FinishJob? && report.ReportJob? && (ph.JobReady? || ph.JobFailing?)
  {
    if ph.JobReady? then Finish(ph.ticket.id, w, finish.now) else Release(ph.ticket.id, w, report.now, ph.failure)
  }

  /** The tables after a job's outcome: a completed one leaves its bundle, its result and a delivery. */
  function WithOutcome(t: Tables, jobs: seq<Row>, ph: Phase, now: int): Tables {
    if !ph.JobReady? then t.(jobs := jobs) else
    var k := ph.ticket.key;
    Tables(t.incidents, jobs,
           t.bundles + [EvidenceRow(k, ph.bundle)],
           t.results + [ResultRow(k, ph.analysis)],
           t.deliveries + [NewRow(k.incident, k.revision, now)])
  }

  lemma SettledWhenOwned(cfg: Config, s: System, w: string, finish: Event, report: Event)
    requires cfg.Valid() && Inv(cfg, s) && finish.FinishJob? && report.ReportJob? && w in s.workers
    requires (s.workers[w].JobReady? || s.workers[w].JobFailing?) && Owns(s.tables.jobs, s.workers[w].ticket.id, w)
    ensures var (t, ph) := Settled(cfg, s.tables, s.workers[w], w, finish, report);
            var op := JobOutcome(s.workers[w], w, finish, report);
            && ph.Idle? && Legal(s.tables.jobs, op, cfg.JobPolicy())
            && t == WithOutcome(s.tables, Apply(s.tables.jobs, op, cfg.JobPolicy()), s.workers[w], finish.now)
  {
    hide Sound;
    var ph := s.workers[w];
    assert PhaseOk(s.tables, w, ph);
    assert Consistent(s.tables.jobs[ph.ticket.id], cfg.JobPolicy());
    assert ClaimOk(s.tables.jobs[ph.ticket.id].claims, ph.ticket.token - 1, cfg.JobPolicy());
    if ph.JobReady? {
      CompletionOutcomes(cfg, s, w, finish.now);
    }
  }

  /**
   Without interference run_once settles what it claims: a claim, then complete exactly if the
   analysis is ready and fail otherwise, and the worker is idle again. Without a job due it does
   nothing.
   */
  lemma RunOnceAlone(cfg: Config, s: System, w: string, poll: Event, work: Event, finish: Event, report: Event)
    requires cfg.Valid() && Inv(cfg, s)
    requires poll.PollJob? && work.Work? && finish.FinishJob? && report.ReportJob?
    requires w == poll.worker == work.worker == finish.worker == report.worker && w in s.workers && s.workers[w].Idle?
    ensures var s' := Run(cfg, s, [poll, work, finish, report]);
            var next, p := NextRow(s.tables.jobs, poll.now, poll.locked), cfg.JobPolicy();
            && s'.workers == s.workers && (next.None? ==> s'.tables == s.tables)
            && (next.Some? ==>
                  var grant := Grant(next.value, w, poll.now, poll.locked);
                  var (t, open) := TakeJob(cfg, s.tables, w, poll.now, next);
                  open.JobOpen? &&
                  var ph := Analysed(cfg, open.ticket, open.incident, work);
                  (ph.JobReady? || ph.JobFailing?) && ph.ticket.id == next.value &&
                  var outcome := JobOutcome(ph, w, finish, report);
                  var jobs := Apply(Apply(s.tables.jobs, grant, p), outcome, p);
                  && Legal(s.tables.jobs, grant, p) && Legal(Apply(s.tables.jobs, grant, p), outcome, p)
                  && s'.tables == WithOutcome(s.tables, jobs, ph, finish.now))
  {
    hide Inv, Analysed, TakeJob, Settled, Run, NextRow, Legal, Apply;
    RunOnceIsARun(cfg, s, w, poll, work, finish, report);
    var next := NextRow(s.tables.jobs, poll.now, poll.locked);
    TakenIsOwned(cfg, s, w, poll);
    var (t1, p1) := TakeJob(cfg, s.tables, w, poll.now, next);
    assert s.workers[w := Idle] == s.workers;
    if next.Some? {
      var s1 := System(t1, s.workers[w := p1]);
      AnalysedKeepsOwner(cfg, s1, w, work);
      var p2 := Analysed(cfg, p1.ticket, p1.incident, work);
      assert s1.workers[w := p2] == s.workers[w := p2];
      SettledWhenOwned(cfg, System(t1, s.workers[w := p2]), w, finish, report);
    }
  }

  lemma TakenDeliveryIsOwned(cfg: Config, s: System, w: string, poll: Event)
    requires cfg.Valid() && Inv(cfg, s) && poll.PollDelivery? && poll.worker == w
    requires w in s.workers && s.workers[w].Idle?
    ensures var next := NextRow(s.tables.deliveries, poll.now, poll.locked);
            var (t, ph) := TakeDelivery(cfg, s.tables, w, poll.now, next);
            && (next.None? ==> (t, ph) == (s.tables, Idle))
            && (next.Some? ==>
                  var grant := Grant(next.value, w, poll.now, poll.locked);
                  && Legal(s.tables.deliveries, grant, cfg.DeliveryPolicy())
                  && t == s.tables.(deliveries := Apply(s.tables.deliveries, grant, cfg.DeliveryPolicy()))
                  && ph.DeliveryOpen? && ph.ticket.id == next.value && Owns(t.deliveries, next.value, w))
            && Inv(cfg, System(t, s.workers[w := ph]))
  {
    hide Sound, AllConsistent, PhaseOk, JobOwnersOk, DeliveryOwnersOk, NextRow;
    SourcesPresent(s.tables, cfg, w, poll.now, poll.locked);
    NextKeepsInv(cfg, s, poll);
  }

  /** What a sent message leaves in the ledger before its outcome is reported. */
  function MessageOps(ticket: Ticket, send: Event): seq<Op>
    requires send.Send?
  {
    if send.configured && Slack.Received(send.reply)
    then [Message(ticket.id, ticket.token, Slack.Send(send.reply).Ok?)] else []
  }

  lemma SentKeepsOwner(cfg: Config, s: System, w: string, send: Event)
    requires cfg.Valid() && Inv(cfg, s) && send.Send? && send.worker == w
    requires w in s.workers && s.workers[w].DeliveryOpen?
    requires Owns(s.tables.deliveries, s.workers[w].ticket.id, w)
    ensures var (t, ph) := Workers.SendMessage(s.tables, s.workers[w], send.configured, send.reply);
            var ticket, ops := s.workers[w].ticket, MessageOps(s.workers[w].ticket, send);
            && LegalAll(s.tables.deliveries, ops, cfg.DeliveryPolicy())
            && t == s.tables.(deliveries := ApplyAll(s.tables.deliveries, ops, cfg.DeliveryPolicy()))
            && Owns(t.deliveries, ticket.id, w)
            && (if send.configured && Slack.Send(send.reply).Ok? then ph == DeliverySent(ticket)
                else ph.DeliveryFailing? && ph.ticket == ticket)
            && Inv(cfg, System(t, s.workers[w := ph]))
  {
    hide Sound, AllConsistent, JobOwnersOk, DeliveryOwnersOk;
    assert PhaseOk(s.tables, w, s.workers[w]);
    var ops := MessageOps(s.workers[w].ticket, send);
    if ops != [] {
      ApplyOne(s.tables.deliveries, ops[0], cfg.DeliveryPolicy());
    }
    NextKeepsInv(cfg, s, send);
  }

  function DeliveryOutcome(ph: Phase, w: string, finish: Event, report: Event): Op
    requires finish.FinishDelivery? && report.ReportDelivery? && (ph.DeliverySent? || ph.DeliveryFailing?)
  {
    if ph.DeliverySent? then Finish(ph.ticket.id, w, finish.now) else Release(ph.ticket.id, w, report.now, ph.failure)
  }

  lemma SettledDeliveryWhenOwned(cfg: Config, s: System, w: string, finish: Event, report: Event)
    requires cfg.Valid() && Inv(cfg, s) && finish.FinishDelivery? && report.ReportDelivery? && w in s.workers
    requires s.workers[w].DeliverySent? || s.workers[w].DeliveryFailing?
    requires Owns(s.tables.deliveries, s.workers[w].ticket.id, w)
    ensures var (t, ph) := SettledDelivery(cfg, s.tables, s.workers[w], w, finish, report);
            var op := DeliveryOutcome(s.workers[w], w, finish, report);
            && ph.Idle? && Legal(s.tables.deliveries, op, cfg.DeliveryPolicy())
            && t == s.tables.(deliveries := Apply(s.tables.deliveries, op, cfg.DeliveryPolicy()))
  {
    hide Sound, JobOwnersOk, DeliveryOwnersOk;
    var ph := s.workers[w];
    assert PhaseOk(s.tables, w, ph);
    assert Consistent(s.tables.deliveries[ph.ticket.id], cfg.DeliveryPolicy());
  }

  /**
   Without interference deliver_notification_once settles what it claims: claim, message, then
   complete iff Slack's "ok" was read and fail otherwise. Without a delivery due it does nothing.
   */
  lemma DeliverOnceAlone(cfg: Config, s: System, w: string, poll: Event, send: Event, finish: Event, report: Event)
    requires cfg.Valid() && Inv(cfg, s)
    requires poll.PollDelivery? && send.Send? && finish.FinishDelivery? && report.ReportDelivery?
    requires w == poll.worker == send.worker == finish.worker == report.worker && w in s.workers && s.workers[w].Idle?
    ensures var s' := Run(cfg, s, [poll, send, finish, report]);
            var next, p := NextRow(s.tables.deliveries, poll.now, poll.locked), cfg.DeliveryPolicy();
            && s'.workers == s.workers && s'.tables == s.tables.(deliveries := s'.tables.deliveries)
            && (next.None? ==> s'.tables == s.tables)
            && (next.Some? ==>
                  var grant := Grant(next.value, w, poll.now, poll.locked);
                  var open := TakeDelivery(cfg, s.tables, w, poll.now, next).1;
                  open.DeliveryOpen? && open.ticket.id == next.value &&
                  var ph := Workers.SendMessage(s.tables, open, send.configured, send.reply).1;
                  (ph.DeliverySent? || ph.DeliveryFailing?) && ph.ticket == open.ticket &&
                  var taken := Apply(s.tables.deliveries, grant, p);
                  var sent := ApplyAll(taken, MessageOps(open.ticket, send), p);
                  var outcome := DeliveryOutcome(ph, w, finish, report);
                  && Legal(s.tables.deliveries, grant, p) && LegalAll(taken, MessageOps(open.ticket, send), p)
                  && Legal(sent, outcome, p)
                  && s'.tables.deliveries == Apply(sent, outcome, p))
  {
    hide Inv, Run, NextRow, Legal, Apply;
    hide TakeDelivery, Workers.SendMessage, SettledDelivery, MessageOps, DeliveryOutcome;
    DeliverOnceIsARun(cfg, s, w, poll, send, finish, report);
    var next := NextRow(s.tables.deliveries, poll.now, poll.locked);
    TakenDeliveryIsOwned(cfg, s, w, poll);
    var (t1, p1) := TakeDelivery(cfg, s.tables, w, poll.now, next);
    assert s.workers[w := Idle] == s.workers;
    if next.Some? {
      SentKeepsOwner(cfg, System(t1, s.workers[w := p1]), w, send);
      var (t2, p2) := Workers.SendMessage(t1, p1, send.configured, send.reply);
      assert s.workers[w := p1][w := p2] == s.workers[w := p2];
      SettledDeliveryWhenOwned(cfg, System(t2, s.workers[w := p2]), w, finish, report);
      PhaseOfSend(s.tables, t1, p1, send);
    } else {
      NothingToSend(cfg, t1, p1, w, send, finish, report);
    }
  }

  lemma NothingToSend(cfg: Config, t: Tables, ph: Phase, w: string, send: Event, finish: Event, report: Event)
    requires send.Send? && finish.FinishDelivery? && report.ReportDelivery? && ph.Idle?
    ensures Workers.SendMessage(t, ph, send.configured, send.reply) == (t, ph)
    ensures SettledDelivery(cfg, t, ph, w, finish, report) == (t, ph)
  {
  }

  lemma PhaseOfSend(t: Tables, t': Tables, ph: Phase, send: Event)
    requires send.Send?
    ensures Workers.SendMessage(t, ph, send.configured, send.reply).1
            == Workers.SendMessage(t', ph, send.configured, send.reply).1
  {
  }

  /** Where a delivery is after the call that sent it: SENT iff Slack's "ok" was read. */
  function SentStatus(r: Row, send: Event, p: Policy): Status
    requires send.Send?
  {
    if !send.configured then Status.Failed
    else if Slack.Send(send.reply).Ok? then Succeeded
    else if Slack.Send(send.reply).error.retryable && r.attempts + 1 < p.maxAttempts then Pending
    else Status.Failed
  }

  /** After the call a due delivery has used one attempt and is SENT, waits for a retry, or is DEAD. */
  lemma DeliverOnceEnds(cfg: Config, s: System, w: string, poll: Event, send: Event, finish: Event, report: Event)
    requires cfg.Valid() && Inv(cfg, s)
    requires poll.PollDelivery? && send.Send? && finish.FinishDelivery? && report.ReportDelivery?
    requires w == poll.worker == send.worker == finish.worker == report.worker && w in s.workers && s.workers[w].Idle?
    requires NextRow(s.tables.deliveries, poll.now, poll.locked).Some?
    ensures var i := NextRow(s.tables.deliveries, poll.now, poll.locked).value;
            var r, after := s.tables.deliveries[i], Run(cfg, s, [poll, send, finish, report]).tables.deliveries;
            && i < |after| && after[i].attempts == r.attempts + 1
            && after[i].status == SentStatus(r, send, cfg.DeliveryPolicy())
  {
    hide Inv, Run, NextRow, Legal, TakeDelivery;
    DeliverOnceAlone(cfg, s, w, poll, send, finish, report);
    var i, p := NextRow(s.tables.deliveries, poll.now, poll.locked).value, cfg.DeliveryPolicy();
    var open := TakeDelivery(cfg, s.tables, w, poll.now, Some(i)).1;
    var taken := Apply(s.tables.deliveries, Grant(i, w, poll.now, poll.locked), p);
    if MessageOps(open.ticket, send) != [] {
      ApplyOne(taken, MessageOps(open.ticket, send)[0], p);
    }
  }

  /** Where a job is after the call that analysed it. */
  function AnalysedStatus(r: Row, ph: Phase, p: Policy): Status
    requires ph.JobReady? || ph.JobFailing?
  {
    if ph.JobReady? then Succeeded
    else if ph.failure.retryable && r.attempts + 1 < p.maxAttempts then Pending
    else Status.Failed
  }

  /** After the call a due job has used one attempt and has succeeded, waits for a retry, or has failed. */
  lemma RunOnceEnds(cfg: Config, s: System, w: string, poll: Event, work: Event, finish: Event, report: Event)
    requires cfg.Valid() && Inv(cfg, s)
    requires poll.PollJob? && work.Work? && finish.FinishJob? && report.ReportJob?
    requires w == poll.worker == work.worker == finish.worker == report.worker && w in s.workers && s.workers[w].Idle?
    requires NextRow(s.tables.jobs, poll.now, poll.locked).Some?
    ensures var next := NextRow(s.tables.jobs, poll.now, poll.locked);
            var r, after := s.tables.jobs[next.value], Run(cfg, s, [poll, work, finish, report]).tables.jobs;
            var open := TakeJob(cfg, s.tables, w, poll.now, next).1;
            open.JobOpen? &&
            var ph := Analysed(cfg, open.ticket, open.incident, work);
            && (ph.JobReady? || ph.JobFailing?)
            && next.value < |after| && after[next.value].attempts == r.attempts + 1
            && after[next.value].status == AnalysedStatus(r, ph, cfg.JobPolicy())
  {
    hide Inv, Run, NextRow, Legal, TakeJob, Analysed;
    RunOnceAlone(cfg, s, w, poll, work, finish, report);
  }

  class Worker {
    const id: string
    const cfg: Config
    const db: Repositories
    var phase: Phase

    constructor (id: string, cfg: Config, db: Repositories)
      ensures this.id == id && this.cfg == cfg && this.db == db && phase == Idle
    {
      this.id, this.cfg, this.db, phase := id, cfg, db, Idle;
    }

    // -------------------------------------------------------------- run_once

    method BeginJob(now: int, next: Option<nat>)
      requires db.Valid() && (next.Some? ==> next.value < |db.jobs|)
      modifies this, db, db.jobs
      ensures db.Valid() && (db.View(), phase) == TakeJob(cfg, old(db.View()), id, now, next)
      ensures db.jobs == old(db.jobs)
    {
      hide ClaimRow, IncidentOf;
      if next.None? || !db.HasIncident(db.jobs[next.value].incident) {
        var claimed := db.GrantJob(cfg, id, now, next);
        phase := if claimed.SourceMissing? then Crashed else Idle;
        return;
      }
      var row := db.jobs[next.value];
      var ticket := Ticket(next.value, Key(row.incident, row.revision), row.attempts + 1);
      var incident := IncidentOf(db.incidents, row.incident);
      var claimed := db.GrantJob(cfg, id, now, next);
      phase := JobOpen(ticket, incident);
    }

    /** The try block up to the decision, its exceptions turned into a failing phase. */
    method Investigate(ticket: Ticket, incident: Incident, work: Event) returns (next: Phase)
      requires work.Work?
      ensures next == Analysed(cfg, ticket, incident, work)
    {
      hide Collect, Decide;
      var evidence := CollectEvidence(work.application, work.mysql, cfg.lokiLimit, incident.startedAt);
      var alerts := BuildAlertEvidence(incident.event);
      if alerts.Err? {
        return JobFailing(ticket, JobFailure(Invalid));
      }
      evidence.alertEvidence := alerts.value;
      evidence.collectorVersion := "grafana-loki-mysql-v3";
      var decision := Decide(evidence.View(), work.model, work.gemini);
      next := match decision
        case Ok(analysis) => JobReady(ticket, evidence.View(), analysis)
        case Err(error) => JobFailing(ticket, JobFailure(error));
    }

    method Conclude(now: int, late: Option<AnalyzeError>)
      requires db.Valid()
      modifies this, db, db.jobs
      ensures db.Valid() && (db.View(), phase) == ConcludeJob(old(db.View()), old(phase), id, now, late)
      ensures db.jobs == old(db.jobs)
    {
      hide Store.CompleteJob;
      if phase.JobReady? {
        var k := phase.ticket;
        var outcome := db.CompleteJob(k.id, k.key, id, now, phase.bundle, phase.analysis);
        if outcome.OwnershipLost? || outcome.ConstraintViolated? {
          phase := Crashed;
        } else if late.Some? {
          phase := JobFailing(k, JobFailure(late.value));
        } else {
          phase := Idle;
        }
      }
    }

    method ReportFailure(now: int)
      requires db.Valid()
      modifies this, db, db.jobs
      ensures db.Valid() && (db.View(), phase) == GiveUpJob(cfg, old(db.View()), old(phase), id, now)
    {
      if phase.JobFailing? {
        db.FailJob(cfg, phase.ticket.id, id, now, phase.failure);
        phase := Idle;
      }
    }

    method Settle(finish: Event, report: Event)
      requires finish.FinishJob? && report.ReportJob? && db.Valid()
      modifies this, db, db.jobs
      ensures db.Valid() && (db.View(), phase) == Settled(cfg, old(db.View()), old(phase), id, finish, report)
    {
      Conclude(finish.now, finish.late);
      ReportFailure(report.now);
    }

    method WorkOn(now: int, next: Option<nat>, work: Event, finish: Event, report: Event)
      requires work.Work? && finish.FinishJob? && report.ReportJob?
               && db.Valid() && (next.Some? ==> next.value < |db.jobs|)
      modifies this, db, db.jobs
      ensures db.Valid() && (db.View(), phase) == RunOnceFrom(cfg, old(db.View()), id, now, next, work, finish, report)
    {
      hide Analysed, TakeJob, Settled;
      BeginJob(now, next);
      if phase.JobOpen? {
        phase := Investigate(phase.ticket, phase.incident, work);
        Settle(finish, report);
      }
    }

    /** One call of run_once without interference; false means there was nothing to do. */
    method RunOnce(poll: Event, work: Event, finish: Event, report: Event) returns (worked: bool)
      requires poll.PollJob? && work.Work? && finish.FinishJob? && report.ReportJob? && db.Valid()
      modifies this, db, db.jobs
      ensures db.Valid()
      ensures var next := NextRow(old(db.View()).jobs, poll.now, poll.locked);
              && worked == next.Some?
              && (db.View(), phase) == RunOnceFrom(cfg, old(db.View()), id, poll.now, next, work, finish, report)
    {
      var next := SelectNext(db.jobs, poll.now, poll.locked);
      worked := next.Some?;
      WorkOn(poll.now, next, work, finish, report);
    }

    // -------------------------------------------------------------- deliver_notification_once

    method BeginDelivery(now: int, next: Option<nat>)
      requires db.Valid() && (next.Some? ==> next.value < |db.deliveries|)
      modifies this, db, db.deliveries
      ensures db.Valid() && (db.View(), phase) == TakeDelivery(cfg, old(db.View()), id, now, next)
      ensures db.deliveries == old(db.deliveries)
    {
      hide ClaimRow, IncidentOf, ResultOf, Ids, ResultKeys, IsStored;
      var present := false;
      if next.Some? {
        present := db.SourcesOf(next.value);
      }
      if !present {
        var claimed := db.GrantDelivery(cfg, id, now, next);
        phase := if claimed.SourceMissing? then Crashed else Idle;
        return;
      }
      var row := db.deliveries[next.value];
      var key := Key(row.incident, row.revision);
      var ticket := Ticket(next.value, key, row.attempts + 1);
      StoredIffKey(db.View(), key);
      var incident, stored := IncidentOf(db.incidents, row.incident), ResultOf(db.results, key);
      var claimed := db.GrantDelivery(cfg, id, now, next);
      phase := DeliveryOpen(ticket, incident, stored.analysis.result);
    }

    /** send, and the ledger entry of a message Slack received. */
    method Send(configured: bool, reply: Slack.Reply)
      requires db.Valid()
      modifies this, db.deliveries
      ensures db.Valid() && (db.View(), phase) == Workers.SendMessage(old(db.View()), old(phase), configured, reply)
    {
      if !phase.DeliveryOpen? {
        return;
      }
      var k := phase.ticket;
      if !configured {
        phase := DeliveryFailing(k, Slack.NOT_CONFIGURED);
        return;
      }
      var r := Slack.Send(reply);
      phase := if r.Ok? then DeliverySent(k) else DeliveryFailing(k, r.error);
      if Slack.Received(reply) && k.id < |db.deliveries| {
        ReceiveAt(db.deliveries, db.jobs, k.id, k.token, r.Ok?);
      }
    }

    method SettleDelivery(finish: Event, report: Event)
      requires finish.FinishDelivery? && report.ReportDelivery? && db.Valid()
      modifies this, db, db.deliveries
      ensures db.Valid() && (db.View(), phase) == SettledDelivery(cfg, old(db.View()), old(phase), id, finish, report)
    {
      if phase.DeliverySent? {
        var outcome := db.CompleteDelivery(phase.ticket.id, id, finish.now);
        phase := if outcome.Done? then Idle else Crashed;
      } else if phase.DeliveryFailing? {
        db.FailDelivery(cfg, phase.ticket.id, id, report.now, phase.failure);
        phase := Idle;
      }
    }

    method DeliverFrom(now: int, next: Option<nat>, send: Event, finish: Event, report: Event)
      requires send.Send? && finish.FinishDelivery? && report.ReportDelivery? && db.Valid()
      requires next.Some? ==> next.value < |db.deliveries|
      modifies this, db, db.deliveries
      ensures db.Valid() && (db.View(), phase)
              == DeliverOnceFrom(cfg, old(db.View()), id, now, next, send, finish, report)
    {
      BeginDelivery(now, next);
      Send(send.configured, send.reply);
      SettleDelivery(finish, report);
    }

    /** One call of deliver_notification_once without interference. */
    method DeliverOnce(poll: Event, send: Event, finish: Event, report: Event) returns (worked: bool)
      requires poll.PollDelivery? && send.Send? && finish.FinishDelivery? && report.ReportDelivery? && db.Valid()
      modifies this, db, db.deliveries
      ensures db.Valid()
      ensures var next := NextRow(old(db.View()).deliveries, poll.now, poll.locked);
              && worked == next.Some?
              && (db.View(), phase) == DeliverOnceFrom(cfg, old(db.View()), id, poll.now, next, send, finish, report)
    {
      var next := SelectNext(db.deliveries, poll.now, poll.locked);
      worked := next.Some?;
      DeliverFrom(poll.now, next, send, finish, report);
    }
  }

  method ReceiveAt(rows: seq<QueueRow>, others: seq<QueueRow>, i: nat, token: nat, accepted: bool)
    requires i < |rows| && Alone(rows, others, i)
    modifies rows[i]
    ensures Views(rows) == old(Views(rows))[i := ReceiveRow(old(rows[i].View()), token, accepted)]
    ensures Views(others) == old(Views(others))
  {
    ghost var r := ReceiveRow(rows[i].View(), token, accepted);
    rows[i].claims := r.claims;
  }
}
