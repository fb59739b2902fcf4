/** The invariant of the whole system, and that every event of every run keeps it. */
module SystemInvariant {
  import opened Common
  import opened Evidence
  import opened Loki
  import opened Analysis
  import Slack
  import opened LeaseQueue
  import opened Store
  import opened Creation
  import opened Workers

  // ---------------------------------------------------------------- tickets

  /** The ticket names a claim of this worker; owning the row means it is the latest one. */
  predicate TicketOk(rows: seq<Row>, w: string, t: Ticket) {
    && t.id < |rows| && t.key == RowKey(rows[t.id])
    && 1 <= t.token <= |rows[t.id].claims|
    && rows[t.id].claims[t.token - 1].worker == w
    && (rows[t.id].owner == Some(w) ==> t.token == |rows[t.id].claims|)
  }

  function ClaimOf(rows: seq<Row>, t: Ticket): Claim
    requires t.id < |rows| && 1 <= t.token <= |rows[t.id].claims|
  {
    rows[t.id].claims[t.token - 1]
  }

  predicate Unreported(c: Claim) {
    c.fate.Open? || c.fate.TakenOver?
  }

  ghost predicate PhaseOk(t: Tables, w: string, ph: Phase) {
    match ph
    case Idle => true
    case Crashed => true
    case JobOpen(k, _) => TicketOk(t.jobs, w, k) && Unreported(ClaimOf(t.jobs, k))
    case JobReady(k, bundle, analysis) =>
      TicketOk(t.jobs, w, k) && Unreported(ClaimOf(t.jobs, k)) && WellNumbered(bundle) && Storable(bundle, analysis)
    case JobFailing(k, f) => TicketOk(t.jobs, w, k) && RetryAfterInRange(f)
    case DeliveryOpen(k, _, _) =>
      TicketOk(t.deliveries, w, k) && Unreported(ClaimOf(t.deliveries, k)) && !ClaimOf(t.deliveries, k).received
             && !ClaimOf(t.deliveries, k).accepted
    case DeliverySent(k) =>
      TicketOk(t.deliveries, w, k) && Unreported(ClaimOf(t.deliveries, k)) && ClaimOf(t.deliveries, k).accepted
    case DeliveryFailing(k, f) =>
      && TicketOk(t.deliveries, w, k) && Unreported(ClaimOf(t.deliveries, k)) && !ClaimOf(t.deliveries, k).accepted
      && RetryAfterInRange(f)
  }

  predicate HoldsJob(ph: Phase, id: nat) {
    (ph.JobOpen? || ph.JobReady? || ph.JobFailing?) && ph.ticket.id == id
  }

  predicate HoldsDelivery(ph: Phase, id: nat) {
    (ph.DeliveryOpen? || ph.DeliverySent? || ph.DeliveryFailing?) && ph.ticket.id == id
  }

  /** A leased row's owner still works on it, or is dead. */
  ghost predicate JobOwnersOk(s: System) {
    forall i: nat | i < |s.tables.jobs| && s.tables.jobs[i].owner.Some? ::
      var w := s.tables.jobs[i].owner.value;
      w in s.workers && (s.workers[w].Crashed? || HoldsJob(s.workers[w], i))
  }

  ghost predicate DeliveryOwnersOk(s: System) {
    forall i: nat | i < |s.tables.deliveries| && s.tables.deliveries[i].owner.Some? ::
      var w := s.tables.deliveries[i].owner.value;
      w in s.workers && (s.workers[w].Crashed? || HoldsDelivery(s.workers[w], i))
  }

  ghost predicate Inv(cfg: Config, s: System) {
    && Sound(s.tables)
    && AllConsistent(s.tables.jobs, cfg.JobPolicy())
    && AllConsistent(s.tables.deliveries, cfg.DeliveryPolicy())
    && (forall w | w in s.workers :: PhaseOk(s.tables, w, s.workers[w]))
    && JobOwnersOk(s) && DeliveryOwnersOk(s)
  }

  // ---------------------------------------------------------------- a step leaves other workers' tickets alone

  /** The operation is performed by worker w. */
  predicate ActsFor(rows: seq<Row>, op: Op, w: string) {
    match op
    case Insert(_, _, _) => true
    case Message(id, token, _) =>
      id < |rows| && 1 <= token <= |rows[id].claims| && rows[id].claims[token - 1].worker == w
    case _ => op.worker == w
  }

  lemma OtherTicketKept(rows: seq<Row>, op: Op, p: Policy, w: string, other: string, t: Ticket)
    requires AllConsistent(rows, p) && Legal(rows, op, p) && ActsFor(rows, op, w)
    requires w != other && TicketOk(rows, other, t)
    ensures var rows' := Apply(rows, op, p);
            && TicketOk(rows', other, t)
            && (Unreported(ClaimOf(rows, t)) ==> Unreported(ClaimOf(rows', t)))
            && ClaimOf(rows', t).received == ClaimOf(rows, t).received
            && ClaimOf(rows', t).accepted == ClaimOf(rows, t).accepted
  {
    if !op.Insert? && op.id == t.id {
      assert Consistent(rows[t.id], p);
    }
  }

  lemma TicketKeptByInserts(rows: seq<Row>, more: seq<Row>, w: string, t: Ticket)
    requires TicketOk(rows, w, t)
    ensures TicketOk(rows + more, w, t) && ClaimOf(rows + more, t) == ClaimOf(rows, t)
  {
  }

  /** Phases that hold no ticket of a changed table, or belong to another worker, stay right. */
  lemma OtherPhaseKept(cfg: Config, t: Tables, t': Tables, jobOp: Option<Op>, deliveryOp: Option<Op>,
                       w: string, other: string, ph: Phase)
    requires AllConsistent(t.jobs, cfg.JobPolicy()) && AllConsistent(t.deliveries, cfg.DeliveryPolicy())
    requires PhaseOk(t, other, ph) && w != other
    requires jobOp.None? ==> t'.jobs == t.jobs
    requires jobOp.Some? ==> Legal(t.jobs, jobOp.value, cfg.JobPolicy()) && ActsFor(t.jobs, jobOp.value, w)
                             && t'.jobs == Apply(t.jobs, jobOp.value, cfg.JobPolicy())
    requires deliveryOp.None? ==> t'.deliveries == t.deliveries
    requires deliveryOp.Some? ==>
             Legal(t.deliveries, deliveryOp.value, cfg.DeliveryPolicy()) && ActsFor(t.deliveries, deliveryOp.value, w)
             && t'.deliveries == Apply(t.deliveries, deliveryOp.value, cfg.DeliveryPolicy())
    ensures PhaseOk(t', other, ph)
  {
    if jobOp.Some? && (ph.JobOpen? || ph.JobReady? || ph.JobFailing?) {
      OtherTicketKept(t.jobs, jobOp.value, cfg.JobPolicy(), w, other, ph.ticket);
    }
    if deliveryOp.Some? && (ph.DeliveryOpen? || ph.DeliverySent? || ph.DeliveryFailing?) {
      OtherTicketKept(t.deliveries, deliveryOp.value, cfg.DeliveryPolicy(), w, other, ph.ticket);
    }
  }

  // ---------------------------------------------------------------- facts a step starts from

  lemma OwnedIsLatest(cfg: Config, s: System, w: string)
    requires Inv(cfg, s) && w in s.workers
    ensures forall i: nat | i < |s.tables.jobs| && s.tables.jobs[i].owner == Some(w) ::
              s.workers[w].Crashed? || HoldsJob(s.workers[w], i)
    ensures forall i: nat | i < |s.tables.deliveries| && s.tables.deliveries[i].owner == Some(w) ::
              s.workers[w].Crashed? || HoldsDelivery(s.workers[w], i)
  {
  }

  /** Ownership, being the open claim, and holding the latest claim are the same thing for a ticket. */
  lemma OwnsIffOpen(rows: seq<Row>, p: Policy, w: string, t: Ticket)
    requires AllConsistent(rows, p) && TicketOk(rows, w, t)
    ensures Owns(rows, t.id, w) <==> ClaimOf(rows, t).fate.Open?
  {
    var r := rows[t.id];
    assert Consistent(r, p);
    assert ClaimOk(r.claims, t.token - 1, p);
  }

  // ---------------------------------------------------------------- the outcomes that cannot happen

  /** A job's incident is always there, and so is the result a delivery is about. */
  lemma SourcesPresent(s: Tables, cfg: Config, w: string, now: int, locked: set<nat>)
    requires Sound(s)
    ensures !ClaimJob(s, cfg, w, now, locked).1.SourceMissing?
    ensures !ClaimDelivery(s, cfg, w, now, locked).1.SourceMissing?
  {
    var d := NextRow(s.deliveries, now, locked);
    if d.Some? {
      assert RowKeys(s.deliveries)[d.value] == RowKey(s.deliveries[d.value]);
      var k := RowKey(s.deliveries[d.value]);
      assert k in ResultKeys(s);
      assert k in RowKeys(s.jobs);
      var j :| 0 <= j < |s.jobs| && RowKeys(s.jobs)[j] == k;
      assert s.jobs[j].incident in Ids(s.incidents);
    }
  }

  /** complete either stores everything or finds that it no longer owns the job. */
  lemma CompletionOutcomes(cfg: Config, s: System, w: string, now: int)
    requires Inv(cfg, s) && w in s.workers && s.workers[w].JobReady?
    ensures var ph := s.workers[w];
            var outcome := CompleteJob(s.tables, ph.ticket.id, ph.ticket.key, w, now, ph.bundle, ph.analysis).1;
            outcome == if Owns(s.tables.jobs, ph.ticket.id, w) then Done else OwnershipLost
  {
    var ph := s.workers[w];
    assert PhaseOk(s.tables, w, ph);
    if Owns(s.tables.jobs, ph.ticket.id, w) {
      assert Consistent(s.tables.jobs[ph.ticket.id], cfg.JobPolicy());
      CompleteKeepsSound(s.tables, ph.ticket.id, w, now, ph.bundle, ph.analysis);
    }
  }

  // ---------------------------------------------------------------- every event keeps the invariant

  /** A step of worker w makes nobody else an owner of anything. */
  lemma OtherOwnersKept(rows: seq<Row>, op: Op, p: Policy, w: string)
    requires Legal(rows, op, p) && ActsFor(rows, op, w)
    ensures var rows' := Apply(rows, op, p);
            forall i | 0 <= i < |rows'| && rows'[i].owner.Some? && rows'[i].owner != Some(w) ::
              i < |rows| && rows[i].owner == rows'[i].owner
  {
  }

  /** Worker w moves to phase ph while at most one row of each table changes on its behalf. */
  lemma StepKeepsInv(cfg: Config, s: System, w: string, t': Tables, ph: Phase,
                     jobOp: Option<Op>, deliveryOp: Option<Op>)
    requires cfg.Valid() && Inv(cfg, s) && w in s.workers && Sound(t')
    requires jobOp.None? ==> t'.jobs == s.tables.jobs
    requires jobOp.Some? ==>
             Legal(s.tables.jobs, jobOp.value, cfg.JobPolicy()) && ActsFor(s.tables.jobs, jobOp.value, w)
             && t'.jobs == Apply(s.tables.jobs, jobOp.value, cfg.JobPolicy())
    requires deliveryOp.None? ==> t'.deliveries == s.tables.deliveries
    requires deliveryOp.Some? ==> Legal(s.tables.deliveries, deliveryOp.value, cfg.DeliveryPolicy())
                                  && ActsFor(s.tables.deliveries, deliveryOp.value, w)
                                  && t'.deliveries == Apply(s.tables.deliveries, deliveryOp.value, cfg.DeliveryPolicy())
    requires PhaseOk(t', w, ph)
    requires forall i: nat | i < |t'.jobs| && t'.jobs[i].owner == Some(w) :: ph.Crashed? || HoldsJob(ph, i)
    requires forall i: nat | i < |t'.deliveries| && t'.deliveries[i].owner == Some(w) ::
             ph.Crashed? || HoldsDelivery(ph, i)
    ensures Inv(cfg, System(t', s.workers[w := ph]))
  {
    hide Sound, AllConsistent, Legal, LegalRow, ActsFor, PhaseOk, Apply;
    if jobOp.Some? {
      AllConsistentKept(s.tables.jobs, jobOp.value, cfg.JobPolicy());
      OtherOwnersKept(s.tables.jobs, jobOp.value, cfg.JobPolicy(), w);
    }
    if deliveryOp.Some? {
      AllConsistentKept(s.tables.deliveries, deliveryOp.value, cfg.DeliveryPolicy());
      OtherOwnersKept(s.tables.deliveries, deliveryOp.value, cfg.DeliveryPolicy(), w);
    }
    forall v | v in s.workers && v != w ensures PhaseOk(t', v, s.workers[v]) {
      OtherPhaseKept(cfg, s.tables, t', jobOp, deliveryOp, w, v, s.workers[v]);
    }
  }

  lemma PollJobKeepsInv(cfg: Config, s: System, w: string, now: int, locked: set<nat>)
    requires cfg.Valid() && Inv(cfg, s) && w in s.workers && s.workers[w].Idle?
    ensures Inv(cfg, Next(cfg, s, PollJob(w, now, locked)))
  {
    hide Sound, NextRow;
    var e := PollJob(w, now, locked);
    var (t', ph) := WorkerStep(cfg, s.tables, s.workers[w], e);
    SourcesPresent(s.tables, cfg, w, now, locked);
    match NextRow(s.tables.jobs, now, locked)
    case None => StepKeepsInv(cfg, s, w, t', ph, None, None);
    case Some(i) =>
      assert Consistent(s.tables.jobs[i], cfg.JobPolicy());
      JobStepKeepsSound(s.tables, i, ClaimRow(s.tables.jobs[i], w, now, cfg.JobPolicy()));
      StepKeepsInv(cfg, s, w, t', ph, Some(Grant(i, w, now, locked)), None);
  }

  lemma PollDeliveryKeepsInv(cfg: Config, s: System, w: string, now: int, locked: set<nat>)
    requires cfg.Valid() && Inv(cfg, s) && w in s.workers && s.workers[w].Idle?
    ensures Inv(cfg, Next(cfg, s, PollDelivery(w, now, locked)))
  {
    hide Sound, NextRow;
    var e := PollDelivery(w, now, locked);
    var (t', ph) := WorkerStep(cfg, s.tables, s.workers[w], e);
    SourcesPresent(s.tables, cfg, w, now, locked);
    match NextRow(s.tables.deliveries, now, locked)
    case None => StepKeepsInv(cfg, s, w, t', ph, None, None);
    case Some(i) =>
      assert Consistent(s.tables.deliveries[i], cfg.DeliveryPolicy());
      DeliveryStepKeepsSound(s.tables, i, ClaimRow(s.tables.deliveries[i], w, now, cfg.DeliveryPolicy()));
      StepKeepsInv(cfg, s, w, t', ph, None, Some(Grant(i, w, now, locked)));
  }

  /** Analysis ends ready with a closed result about a well numbered bundle, or failing. */
  predicate JudgedOk(ticket: Ticket, ph: Phase) {
    || (ph.JobFailing? && ph.ticket == ticket && ph.failure.retryAfter.None?)
    || (ph.JobReady? && ph.ticket == ticket)
  }

  /** Judging neither drops the ticket nor stays in between. */
  lemma JudgedKeepsTicket(ticket: Ticket, event: MaskedEvent, collected: EvidenceBundle,
                          model: Option<string>, gemini: GeminiReply)
    ensures var ph := Judged(ticket, event, collected, model, gemini);
            (ph.JobReady? || ph.JobFailing?) && ph.ticket == ticket
  {
    hide Decide;
  }

  lemma JudgedOutcomes(ticket: Ticket, event: MaskedEvent, collected: EvidenceBundle,
                       model: Option<string>, gemini: GeminiReply)
    requires WellNumbered(collected)
    ensures var ph := Judged(ticket, event, collected, model, gemini);
            JudgedOk(ticket, ph) && (ph.JobReady? ==> WellNumbered(ph.bundle) && Storable(ph.bundle, ph.analysis))
  {
    var alerts := BuildAlertEvidence(event);
    if alerts.Ok? {
      var bundle := collected.(alertEvidence := alerts.value, collectorVersion := "grafana-loki-mysql-v3");
      assert WellNumbered(bundle);
      DecisionIsStorable(bundle, model, gemini);
    }
  }

  lemma AnalysedPhaseKeepsInv(cfg: Config, s: System, w: string, ph: Phase)
    requires cfg.Valid() && Inv(cfg, s) && w in s.workers && s.workers[w].JobOpen?
    requires JudgedOk(s.workers[w].ticket, ph)
    requires ph.JobReady? ==> WellNumbered(ph.bundle) && Storable(ph.bundle, ph.analysis)
    ensures Inv(cfg, System(s.tables, s.workers[w := ph]))
  {
    assert PhaseOk(s.tables, w, s.workers[w]);
    OwnedIsLatest(cfg, s, w);
    StepKeepsInv(cfg, s, w, s.tables, ph, None, None);
  }

  lemma WorkKeepsInv(cfg: Config, s: System, e: Event)
    requires cfg.Valid() && Inv(cfg, s) && e.Work? && e.worker in s.workers && s.workers[e.worker].JobOpen?
    ensures Inv(cfg, Next(cfg, s, e))
  {
    hide Inv, Collect, Judged, WellNumbered, Storable;
    var ph := s.workers[e.worker];
    CollectedIsWellNumbered(e.application, e.mysql, cfg.lokiLimit, ph.incident.startedAt);
    JudgedOutcomes(ph.ticket, ph.incident.event,
                   Collect(e.application, e.mysql, cfg.lokiLimit, ph.incident.startedAt), e.model, e.gemini);
    AnalysedPhaseKeepsInv(cfg, s, e.worker, Analysed(cfg, ph.ticket, ph.incident, e));
  }

  lemma FinishOwnedJobKeepsInv(cfg: Config, s: System, w: string, now: int, t': Tables, ph': Phase)
    requires cfg.Valid() && Inv(cfg, s) && w in s.workers && s.workers[w].JobReady?
    requires var k := s.workers[w].ticket;
             && Owns(s.tables.jobs, k.id, w)
             && t'.jobs == s.tables.jobs[k.id := CompleteRow(s.tables.jobs[k.id], now)]
             && t'.deliveries == s.tables.deliveries + [NewRow(k.key.incident, k.key.revision, now)]
             && (ph'.Idle? || (ph'.JobFailing? && ph'.ticket == k && RetryAfterInRange(ph'.failure)))
    requires Sound(t')
    ensures Inv(cfg, System(t', s.workers[w := ph']))
  {
    hide Sound;
    var k := s.workers[w].ticket;
    assert PhaseOk(s.tables, w, s.workers[w]);
    OwnedIsLatest(cfg, s, w);
    assert Consistent(s.tables.jobs[k.id], cfg.JobPolicy());
    StepKeepsInv(cfg, s, w, t', ph', Some(Finish(k.id, w, now)), Some(Insert(k.key.incident, k.key.revision, now)));
  }

  lemma FinishJobKeepsInv(cfg: Config, s: System, w: string, now: int, late: Option<AnalyzeError>)
    requires cfg.Valid() && Inv(cfg, s) && w in s.workers && s.workers[w].JobReady?
    ensures Inv(cfg, Next(cfg, s, FinishJob(w, now, late)))
  {
    var ph := s.workers[w];
    var k := ph.ticket;
    assert PhaseOk(s.tables, w, ph);
    var (t', ph') := WorkerStep(cfg, s.tables, ph, FinishJob(w, now, late));
    CompletionOutcomes(cfg, s, w, now);
    if Owns(s.tables.jobs, k.id, w) {
      assert Consistent(s.tables.jobs[k.id], cfg.JobPolicy());
      CompleteKeepsSound(s.tables, k.id, w, now, ph.bundle, ph.analysis);
      FinishOwnedJobKeepsInv(cfg, s, w, now, t', ph');
    } else {
      QuietStepKeepsInv(cfg, s, w, Crashed);
    }
  }

  lemma ReportJobKeepsInv(cfg: Config, s: System, w: string, now: int)
    requires cfg.Valid() && Inv(cfg, s) && w in s.workers && s.workers[w].JobFailing?
    ensures Inv(cfg, Next(cfg, s, ReportJob(w, now)))
  {
    hide Sound;
    var ph := s.workers[w];
    var k := ph.ticket;
    assert PhaseOk(s.tables, w, ph);
    var (t', ph') := WorkerStep(cfg, s.tables, ph, ReportJob(w, now));
    OwnedIsLatest(cfg, s, w);
    if Owns(s.tables.jobs, k.id, w) {
      assert Consistent(s.tables.jobs[k.id], cfg.JobPolicy());
      assert ClaimOk(s.tables.jobs[k.id].claims, k.token - 1, cfg.JobPolicy());
      JobStepKeepsSound(s.tables, k.id, FailRow(s.tables.jobs[k.id], now, ph.failure, cfg.JobPolicy()));
      StepKeepsInv(cfg, s, w, t', ph', Some(Release(k.id, w, now, ph.failure)), None);
    } else {
      StepKeepsInv(cfg, s, w, t', ph', None, None);
    }
  }

  /** Slack has received the message of worker w, and the worker goes on to complete or to fail. */
  lemma MessageKeepsInv(cfg: Config, s: System, w: string, accepted: bool, ph': Phase)
    requires cfg.Valid() && Inv(cfg, s) && w in s.workers && s.workers[w].DeliveryOpen?
    requires if accepted then ph' == DeliverySent(s.workers[w].ticket)
             else ph'.DeliveryFailing? && ph'.ticket == s.workers[w].ticket && RetryAfterInRange(ph'.failure)
    ensures Inv(cfg, System(Noted(s.tables, s.workers[w].ticket, accepted), s.workers[w := ph']))
  {
    hide Sound, AllConsistent, JobOwnersOk, DeliveryOwnersOk;
    var k := s.workers[w].ticket;
    assert PhaseOk(s.tables, w, s.workers[w]);
    OwnedIsLatest(cfg, s, w);
    DeliveryStepKeepsSound(s.tables, k.id, ReceiveRow(s.tables.deliveries[k.id], k.token, accepted));
    StepKeepsInv(cfg, s, w, Noted(s.tables, k, accepted), ph', None, Some(Message(k.id, k.token, accepted)));
  }

  lemma NoMessageKeepsInv(cfg: Config, s: System, w: string, f: Failure)
    requires cfg.Valid() && Inv(cfg, s) && w in s.workers && s.workers[w].DeliveryOpen? && RetryAfterInRange(f)
    ensures Inv(cfg, System(s.tables, s.workers[w := DeliveryFailing(s.workers[w].ticket, f)]))
  {
    hide Sound, AllConsistent, JobOwnersOk, DeliveryOwnersOk;
    assert PhaseOk(s.tables, w, s.workers[w]);
    OwnedIsLatest(cfg, s, w);
    StepKeepsInv(cfg, s, w, s.tables, DeliveryFailing(s.workers[w].ticket, f), None, None);
  }

  lemma SendKeepsInv(cfg: Config, s: System, w: string, configured: bool, reply: Slack.Reply)
    requires cfg.Valid() && Inv(cfg, s) && w in s.workers && s.workers[w].DeliveryOpen?
    ensures Inv(cfg, Next(cfg, s, Send(w, configured, reply)))
  {
    hide Inv, Noted, Slack.Send;
    var sent := Slack.Send(reply);
    Slack.SendOutcomes(reply);
    if !configured {
      NoMessageKeepsInv(cfg, s, w, Slack.NOT_CONFIGURED);
    } else if Slack.Received(reply) {
      var k := s.workers[w].ticket;
      MessageKeepsInv(cfg, s, w, sent.Ok?, if sent.Ok? then DeliverySent(k) else DeliveryFailing(k, sent.error));
    } else {
      NoMessageKeepsInv(cfg, s, w, sent.error);
    }
  }

  lemma FinishDeliveryKeepsInv(cfg: Config, s: System, w: string, now: int)
    requires cfg.Valid() && Inv(cfg, s) && w in s.workers && s.workers[w].DeliverySent?
    ensures Inv(cfg, Next(cfg, s, FinishDelivery(w, now)))
  {
    hide Sound;
    var ph := s.workers[w];
    var k := ph.ticket;
    assert PhaseOk(s.tables, w, ph);
    var (t', ph') := WorkerStep(cfg, s.tables, ph, FinishDelivery(w, now));
    OwnedIsLatest(cfg, s, w);
    if Owns(s.tables.deliveries, k.id, w) {
      DeliveryStepKeepsSound(s.tables, k.id, CompleteRow(s.tables.deliveries[k.id], now));
      StepKeepsInv(cfg, s, w, t', ph', None, Some(Finish(k.id, w, now)));
    } else {
      StepKeepsInv(cfg, s, w, t', ph', None, None);
    }
  }

  lemma ReportDeliveryKeepsInv(cfg: Config, s: System, w: string, now: int)
    requires cfg.Valid() && Inv(cfg, s) && w in s.workers && s.workers[w].DeliveryFailing?
    ensures Inv(cfg, Next(cfg, s, ReportDelivery(w, now)))
  {
    hide Sound;
    var ph := s.workers[w];
    var k := ph.ticket;
    assert PhaseOk(s.tables, w, ph);
    var (t', ph') := WorkerStep(cfg, s.tables, ph, ReportDelivery(w, now));
    OwnedIsLatest(cfg, s, w);
    if Owns(s.tables.deliveries, k.id, w) {
      DeliveryStepKeepsSound(s.tables, k.id, FailRow(s.tables.deliveries[k.id], now, ph.failure, cfg.DeliveryPolicy()));
      StepKeepsInv(cfg, s, w, t', ph', None, Some(Release(k.id, w, now, ph.failure)));
    } else {
      StepKeepsInv(cfg, s, w, t', ph', None, None);
    }
  }

  /** Crashes, aborts and everything a worker is not in the phase for. */
  lemma QuietStepKeepsInv(cfg: Config, s: System, w: string, ph: Phase)
    requires cfg.Valid() && Inv(cfg, s) && w in s.workers
    requires ph == s.workers[w] || ph.Crashed? ||
             ((s.workers[w].JobOpen? || s.workers[w].JobReady?) && ph.JobFailing? && ph.ticket == s.workers[w].ticket
              && ph.failure.retryAfter.None?)
    ensures Inv(cfg, System(s.tables, s.workers[w := ph]))
  {
    assert PhaseOk(s.tables, w, s.workers[w]);
    OwnedIsLatest(cfg, s, w);
    StepKeepsInv(cfg, s, w, s.tables, ph, None, None);
  }

  lemma ExtensionKeepsInv(cfg: Config, s: System, added: seq<Item>)
    requires cfg.Valid() && Inv(cfg, s) && Sound(Extended(s.tables, added))
    ensures Inv(cfg, s.(tables := Extended(s.tables, added)))
  {
    var jobs := s.tables.jobs + NewJobs(added);
    forall w | w in s.workers ensures PhaseOk(Extended(s.tables, added), w, s.workers[w]) {
      var ph := s.workers[w];
      assert PhaseOk(s.tables, w, ph);
      if ph.JobOpen? || ph.JobReady? || ph.JobFailing? {
        TicketKeptByInserts(s.tables.jobs, NewJobs(added), w, ph.ticket);
      }
    }
  }

  lemma CreateKeepsInv(cfg: Config, s: System, e: Event)
    requires cfg.Valid() && Inv(cfg, s) && (e.Create? || e.CreateBatch?)
    ensures Inv(cfg, Next(cfg, s, e))
  {
    if e.Create? {
      if TryInsert(s.tables, e.item).Inserted? {
        InsertKeepsSound(s.tables, e.item);
        ExtendedByOneMore(s.tables, [], e.item);
        assert Extended(s.tables, []) == s.tables;
        assert [] + [e.item] == [e.item];
        ExtensionKeepsInv(cfg, s, [e.item]);
      }
    } else if CreateLoop(s.tables, e.items).Some? {
      CreateLoopKeepsSound(s.tables, e.items);
      BatchCreatesFirstNew(s.tables, e.items);
      ExtensionKeepsInv(cfg, s, FirstNew(s.tables, e.items));
    }
  }

  /** One event of any kind, in any interleaving. */
  lemma NextKeepsInv(cfg: Config, s: System, e: Event)
    requires cfg.Valid() && Inv(cfg, s)
    ensures Inv(cfg, Next(cfg, s, e))
  {
    if e.Create? || e.CreateBatch? {
      CreateKeepsInv(cfg, s, e);
    } else if e.Start? {
    } else if e.worker in s.workers {
      var ph := s.workers[e.worker];
      match e
      case PollJob(w, now, locked) =>
        if ph.Idle? { PollJobKeepsInv(cfg, s, w, now, locked); } else { QuietStepKeepsInv(cfg, s, w, ph); }
      case Work(w, _, _, _, _) =>
        if ph.JobOpen? { WorkKeepsInv(cfg, s, e); } else { QuietStepKeepsInv(cfg, s, w, ph); }
      case FinishJob(w, now, late) =>
        if ph.JobReady? { FinishJobKeepsInv(cfg, s, w, now, late); } else { QuietStepKeepsInv(cfg, s, w, ph); }
      case ReportJob(w, now) =>
        if ph.JobFailing? { ReportJobKeepsInv(cfg, s, w, now); } else { QuietStepKeepsInv(cfg, s, w, ph); }
      case PollDelivery(w, now, locked) =>
        if ph.Idle? { PollDeliveryKeepsInv(cfg, s, w, now, locked); } else { QuietStepKeepsInv(cfg, s, w, ph); }
      case Send(w, configured, reply) =>
        if ph.DeliveryOpen? { SendKeepsInv(cfg, s, w, configured, reply); } else { QuietStepKeepsInv(cfg, s, w, ph); }
      case FinishDelivery(w, now) =>
        if ph.DeliverySent? { FinishDeliveryKeepsInv(cfg, s, w, now); } else { QuietStepKeepsInv(cfg, s, w, ph); }
      case ReportDelivery(w, now) =>
        if ph.DeliveryFailing? { ReportDeliveryKeepsInv(cfg, s, w, now); } else { QuietStepKeepsInv(cfg, s, w, ph); }
      case Crash(w) =>
        QuietStepKeepsInv(cfg, s, w, Crashed);
      case Abort(w, _) =>
        QuietStepKeepsInv(cfg, s, w, WorkerStep(cfg, s.tables, ph, e).1);
    }
  }

  /** The invariant holds at the end of every run. */
  lemma {:induction false} RunKeepsInv(cfg: Config, s: System, es: seq<Event>)
    requires cfg.Valid() && Inv(cfg, s)
    ensures Inv(cfg, Run(cfg, s, es))
    decreases |es|
  {
    if es != [] {
      NextKeepsInv(cfg, s, es[0]);
      RunKeepsInv(cfg, Next(cfg, s, es[0]), es[1..]);
    }
  }

  lemma InitialInv(cfg: Config)
    ensures Inv(cfg, INITIAL)
  {
    assert RowKeys([]) == [];
    assert BundleKeys(EMPTY) == [] && ResultKeys(EMPTY) == [];
  }
}
