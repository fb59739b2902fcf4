/**
 Workers and the webhook acting on the tables, one atomic transaction or external effect at a
 time (worker.py). Every choice outside the program is a field of the event: the clock, which
 rows other transactions hold locked, what Loki, Gemini and Slack answer, where a process dies.
 A run is any sequence of events, so it ranges over all interleavings.
 */
module Workers {
  import opened Common
  import opened Evidence
  import opened Grouping
  import opened Loki
  import opened Analysis
  import Slack
  import opened LeaseQueue
  import opened Store
  import opened Creation

  /** A claimed row as the worker remembers it. The token is the claim's number; the code has none. */
  datatype Ticket = Ticket(id: nat, key: Key, token: nat)

  datatype Phase =
    | Idle
    | JobOpen(ticket: Ticket, incident: Incident)
    | JobReady(ticket: Ticket, bundle: EvidenceBundle, analysis: LlmAnalysis)
    | JobFailing(ticket: Ticket, failure: Failure)
    | DeliveryOpen(ticket: Ticket, incident: Incident, announced: AnalysisResult)
    | DeliverySent(ticket: Ticket)
    | DeliveryFailing(ticket: Ticket, failure: Failure)
    | Crashed

  datatype System = System(tables: Tables, workers: map<string, Phase>)

  const INITIAL := System(EMPTY, map[])

  datatype Event =
    | Create(item: Item)
    | CreateBatch(items: seq<Item>)
    | Start(worker: string)
    | Crash(worker: string)
    | PollJob(worker: string, now: int, locked: set<nat>)
    | Work(worker: string, application: Response<Line>, mysql: Response<Option<Line>>,
           model: Option<string>, gemini: GeminiReply)
    | Abort(worker: string, error: AnalyzeError)
    | FinishJob(worker: string, now: int, late: Option<AnalyzeError>)
    | ReportJob(worker: string, now: int)
    | PollDelivery(worker: string, now: int, locked: set<nat>)
    | Send(worker: string, configured: bool, reply: Slack.Reply)
    | FinishDelivery(worker: string, now: int)
    | ReportDelivery(worker: string, now: int)

  // ---------------------------------------------------------------- one worker's step

  /** The two except clauses of run_once. */
  function JobFailure(e: AnalyzeError): Failure {
    match e
    case Invalid => Failure("INVALID_ANALYSIS", false, None)
    case Unavailable => Failure("DEPENDENCY_UNAVAILABLE", true, None)
  }

  /** The decision about a collected bundle, alert evidence attached after the byte cap. */
  function Judged(ticket: Ticket, event: MaskedEvent, collected: EvidenceBundle,
                  model: Option<string>, gemini: GeminiReply): Phase {
    var alerts := BuildAlertEvidence(event);
    if alerts.Err? then JobFailing(ticket, JobFailure(Invalid)) else
    var bundle := collected.(alertEvidence := alerts.value, collectorVersion := "grafana-loki-mysql-v3");
    match Decide(bundle, model, gemini)
    case Ok(analysis) => JobReady(ticket, bundle, analysis)
    case Err(error) => JobFailing(ticket, JobFailure(error))
  }

  function Analysed(cfg: Config, ticket: Ticket, incident: Incident, e: Event): Phase
    requires e.Work?
  {
    var collected := Collect(e.application, e.mysql, cfg.lokiLimit, incident.startedAt);
    Judged(ticket, incident.event, collected, e.model, e.gemini)
  }

  /** The ledger entry of a message Slack received. */
  function Noted(t: Tables, ticket: Ticket, accepted: bool): Tables {
    if ticket.id < |t.deliveries|
    then t.(deliveries := t.deliveries[ticket.id := ReceiveRow(t.deliveries[ticket.id], ticket.token, accepted)])
    else t
  }

  /** claim_next of the job queue, and what the worker then holds. */
  function TakeJob(cfg: Config, t: Tables, w: string, now: int, next: Option<nat>): (Tables, Phase)
    requires next.Some? ==> next.value < |t.jobs|
  {
    var (t', claimed) := GrantJob(t, cfg, w, now, next);
    (t', match claimed
         case NothingDue => Idle
         case SourceMissing => Crashed
         case ClaimedRow(i) =>
           JobOpen(Ticket(i, RowKey(t.jobs[i]), t.jobs[i].attempts + 1),
                   IncidentOf(t.incidents, t.jobs[i].incident)))
  }

  function TakeDelivery(cfg: Config, t: Tables, w: string, now: int, next: Option<nat>): (Tables, Phase)
    requires next.Some? ==> next.value < |t.deliveries|
  {
    var (t', claimed) := GrantDelivery(t, cfg, w, now, next);
    (t', match claimed
         case NothingDue => Idle
         case SourceMissing => Crashed
         case ClaimedRow(i) =>
           DeliveryOpen(Ticket(i, RowKey(t.deliveries[i]), t.deliveries[i].attempts + 1),
                        IncidentOf(t.incidents, t.deliveries[i].incident),
                        ResultOf(t.results, RowKey(t.deliveries[i])).analysis.result))
  }

  /** complete; its RuntimeError is one no except clause names, so it ends the process. */
  function ConcludeJob(t: Tables, ph: Phase, w: string, now: int, late: Option<AnalyzeError>): (Tables, Phase) {
    if !ph.JobReady? then (t, ph) else
    var (t', outcome) := CompleteJob(t, ph.ticket.id, ph.ticket.key, w, now, ph.bundle, ph.analysis);
    (t', if outcome.OwnershipLost? || outcome.ConstraintViolated? then Crashed
         else if late.Some? then JobFailing(ph.ticket, JobFailure(late.value))
         else Idle)
  }

  function GiveUpJob(cfg: Config, t: Tables, ph: Phase, w: string, now: int): (Tables, Phase) {
    if ph.JobFailing? then (FailJob(t, cfg, ph.ticket.id, w, now, ph.failure), Idle) else (t, ph)
  }

  function SendMessage(t: Tables, ph: Phase, configured: bool, reply: Slack.Reply): (Tables, Phase) {
    if !ph.DeliveryOpen? then (t, ph)
    else if !configured then (t, DeliveryFailing(ph.ticket, Slack.NOT_CONFIGURED))
    else
      var sent := Slack.Send(reply);
      (if Slack.Received(reply) then Noted(t, ph.ticket, sent.Ok?) else t,
       if sent.Ok? then DeliverySent(ph.ticket) else DeliveryFailing(ph.ticket, sent.error))
  }

  function ConcludeDelivery(t: Tables, ph: Phase, w: string, now: int): (Tables, Phase) {
    if !ph.DeliverySent? then (t, ph) else
    var (t', outcome) := CompleteDelivery(t, ph.ticket.id, w, now);
    (t', if outcome.Done? then Idle else Crashed)
  }

  function GiveUpDelivery(cfg: Config, t: Tables, ph: Phase, w: string, now: int): (Tables, Phase) {
    if ph.DeliveryFailing? then (FailDelivery(t, cfg, ph.ticket.id, w, now, ph.failure), Idle) else (t, ph)
  }

  /** Any event of a worker; events its phase does not allow change nothing. */
  function WorkerStep(cfg: Config, t: Tables, ph: Phase, e: Event): (Tables, Phase)
    requires !e.Create? && !e.CreateBatch? && !e.Start?
  {
    match e
    case Crash(_) => (t, Crashed)
    case PollJob(w, now, locked) => if ph.Idle? then TakeJob(cfg, t, w, now, NextRow(t.jobs, now, locked)) else (t, ph)
    case Work(_, _, _, _, _) => if ph.JobOpen? then (t, Analysed(cfg, ph.ticket, ph.incident, e)) else (t, ph)
    case Abort(_, error) =>
      if ph.JobOpen? || ph.JobReady? then (t, JobFailing(ph.ticket, JobFailure(error))) else (t, ph)
    case FinishJob(w, now, late) => ConcludeJob(t, ph, w, now, late)
    case ReportJob(w, now) => GiveUpJob(cfg, t, ph, w, now)
    case PollDelivery(w, now, locked) =>
      if ph.Idle? then TakeDelivery(cfg, t, w, now, NextRow(t.deliveries, now, locked)) else (t, ph)
    case Send(_, configured, reply) => SendMessage(t, ph, configured, reply)
    case FinishDelivery(w, now) => ConcludeDelivery(t, ph, w, now)
    case ReportDelivery(w, now) => GiveUpDelivery(cfg, t, ph, w, now)
  }

  /** Worker ids are never reused: Start takes a new one, and a crashed worker stays crashed. */
  function Next(cfg: Config, s: System, e: Event): System {
    match e
    case Create(x) => s.(tables := CreateWithJob(s.tables, x).0)
    case CreateBatch(xs) => s.(tables := CreateMany(s.tables, xs).0)
    case Start(w) => if w in s.workers then s else s.(workers := s.workers[w := Idle])
    case _ =>
      if e.worker !in s.workers then s else
      var (t, ph) := WorkerStep(cfg, s.tables, s.workers[e.worker], e);
      System(t, s.workers[e.worker := ph])
  }

  function Run(cfg: Config, s: System, es: seq<Event>): System
    decreases |es|
  {
    if es == [] then s else Run(cfg, Next(cfg, s, es[0]), es[1..])
  }

  lemma {:induction false} RunConcat(cfg: Config, s: System, a: seq<Event>, b: seq<Event>)
    ensures Run(cfg, s, a + b) == Run(cfg, Run(cfg, s, a), b)
    decreases |a|
  {
    if a == [] {
      assert a + b == b;
    } else {
      assert (a + b)[1..] == a[1..] + b;
      RunConcat(cfg, Next(cfg, s, a[0]), a[1..], b);
    }
  }

  lemma RunOfOne(cfg: Config, s: System, e: Event)
    ensures Run(cfg, s, [e]) == Next(cfg, s, e)
  {
    hide Next;
    assert [e][1..] == [];
    assert Run(cfg, Next(cfg, s, e), []) == Next(cfg, s, e);
  }

  lemma RunOfTwo(cfg: Config, s: System, a: Event, b: Event)
    ensures Run(cfg, s, [a, b]) == Next(cfg, Next(cfg, s, a), b)
  {
    hide Next;
    assert [a, b][1..] == [b];
    RunOfOne(cfg, Next(cfg, s, a), b);
  }

  // ---------------------------------------------------------------- the two queues inside the system

  function InsertsFor(items: seq<Item>): seq<Op> {
    seq(|items|, i requires 0 <= i < |items| => Insert(items[i].id, 1, items[i].now))
  }

  /** The operations an event performs on the job table. */
  function JobOps(s: System, e: Event): seq<Op> {
    match e
    case Create(x) => if TryInsert(s.tables, x).Inserted? then [Insert(x.id, 1, x.now)] else []
    case CreateBatch(xs) => if CreateLoop(s.tables, xs).Some? then InsertsFor(FirstNew(s.tables, xs)) else []
    case Start(_) => []
    case _ =>
      if e.worker !in s.workers then [] else
      var w, ph, t := e.worker, s.workers[e.worker], s.tables;
      match e
      case PollJob(_, now, locked) =>
        if ph.Idle? && NextRow(t.jobs, now, locked).Some?
        then [Grant(NextRow(t.jobs, now, locked).value, w, now, locked)] else []
      case FinishJob(_, now, _) => if ph.JobReady? && Owns(t.jobs, ph.ticket.id, w)
        then [Finish(ph.ticket.id, w, now)] else []
      case ReportJob(_, now) =>
        if ph.JobFailing? && Owns(t.jobs, ph.ticket.id, w) then [Release(ph.ticket.id, w, now, ph.failure)] else []
      case _ => []
  }

  /** The operations an event performs on the delivery table. */
  function DeliveryOps(s: System, e: Event): seq<Op> {
    if e.Create? || e.CreateBatch? || e.Start? || e.worker !in s.workers then [] else
    var w, ph, t := e.worker, s.workers[e.worker], s.tables;
    match e
    case FinishJob(_, now, _) =>
      if ph.JobReady? && Owns(t.jobs, ph.ticket.id, w)
      then [Insert(ph.ticket.key.incident, ph.ticket.key.revision, now)] else []
    case PollDelivery(_, now, locked) =>
      if ph.Idle? && NextRow(t.deliveries, now, locked).Some?
      then [Grant(NextRow(t.deliveries, now, locked).value, w, now, locked)] else []
    case Send(_, configured, reply) =>
      if ph.DeliveryOpen? && configured && Slack.Received(reply)
      then [Message(ph.ticket.id, ph.ticket.token, Slack.Send(reply).Ok?)] else []
    case FinishDelivery(_, now) =>
      if ph.DeliverySent? && Owns(t.deliveries, ph.ticket.id, w) then [Finish(ph.ticket.id, w, now)] else []
    case ReportDelivery(_, now) =>
      if ph.DeliveryFailing? && Owns(t.deliveries, ph.ticket.id, w)
      then [Release(ph.ticket.id, w, now, ph.failure)] else []
    case _ => []
  }

  function JobTrace(cfg: Config, s: System, es: seq<Event>): seq<Op>
    decreases |es|
  {
    if es == [] then [] else JobOps(s, es[0]) + JobTrace(cfg, Next(cfg, s, es[0]), es[1..])
  }

  function DeliveryTrace(cfg: Config, s: System, es: seq<Event>): seq<Op>
    decreases |es|
  {
    if es == [] then [] else DeliveryOps(s, es[0]) + DeliveryTrace(cfg, Next(cfg, s, es[0]), es[1..])
  }
}
