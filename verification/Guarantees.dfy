/**
 The promises of the analyzer in every reachable state: after any events in any order, from empty
 tables or from tables that migration 0004 has cleaned.
 */
module Guarantees {
  import opened Common
  import opened Evidence
  import opened Analysis
  import Slack
  import opened LeaseQueue
  import opened LeaseLaws
  import opened QueueProgress
  import opened Store
  import opened Creation
  import opened Workers
  import opened SystemInvariant
  import opened QueueRuns
  import opened Migration

  // ---------------------------------------------------------------- reachable states

  ghost function LeaseOwners(rows: seq<Row>): set<string> {
    set i | 0 <= i < |rows| && rows[i].owner.Some? :: rows[i].owner.value
  }

  /** The services restarted on given tables: whoever held a lease is gone. */
  ghost function Restarted(t: Tables): System {
    System(t, map w | w in LeaseOwners(t.jobs) + LeaseOwners(t.deliveries) :: Crashed)
  }

  /** Tables of the releases before migration 0004: the outbox is sound, but episodes may repeat. */
  ghost predicate Legacy(cfg: Config, t: Tables) {
    && OutboxSound(t) && Distinct(Ids(t.incidents))
    && AllConsistent(t.jobs, cfg.JobPolicy()) && AllConsistent(t.deliveries, cfg.DeliveryPolicy())
  }

  ghost predicate IsStart(cfg: Config, s: System) {
    s == INITIAL || exists legacy :: Legacy(cfg, legacy) && s == Restarted(Migrated(legacy))
  }

  ghost predicate Reachable(cfg: Config, s: System) {
    exists start, es :: IsStart(cfg, start) && s == Run(cfg, start, es)
  }

  lemma KeptConsistent(rows: seq<Row>, all: seq<Incident>, p: Policy)
    requires AllConsistent(rows, p)
    ensures AllConsistent(Kept(rows, RowKey, all), p)
  {
    hide Consistent, IsDuplicateId, Kept;
    var kept := Kept(rows, RowKey, all);
    forall i | 0 <= i < |kept| ensures Consistent(kept[i], p) {
      KeptMembers(rows, RowKey, all, kept[i]);
      var j :| 0 <= j < |rows| && rows[j] == kept[i];
    }
  }

  /** What the migration leaves satisfies the invariant of the running system. */
  lemma MigratedSatisfiesInv(cfg: Config, legacy: Tables)
    requires cfg.Valid() && Legacy(cfg, legacy)
    ensures Inv(cfg, Restarted(Migrated(legacy)))
  {
    hide OutboxSound, Sound, Consistent, Distinct, Kept, AllConsistent;
    MigrationEstablishesSound(legacy);
    KeptConsistent(legacy.jobs, legacy.incidents, cfg.JobPolicy());
    KeptConsistent(legacy.deliveries, legacy.incidents, cfg.DeliveryPolicy());
  }

  lemma StartSatisfiesInv(cfg: Config, start: System)
    requires cfg.Valid() && IsStart(cfg, start)
    ensures Inv(cfg, start)
  {
    hide Inv, Legacy;
    if start == INITIAL {
      InitialInv(cfg);
    } else {
      var legacy :| Legacy(cfg, legacy) && start == Restarted(Migrated(legacy));
      MigratedSatisfiesInv(cfg, legacy);
    }
  }

  /** Every reachable state satisfies the invariant. */
  lemma Reached(cfg: Config, s: System)
    requires cfg.Valid() && Reachable(cfg, s)
    ensures Inv(cfg, s)
  {
    hide Inv, IsStart;
    var start, es :| IsStart(cfg, start) && s == Run(cfg, start, es);
    StartSatisfiesInv(cfg, start);
    RunKeepsInv(cfg, start, es);
  }

  /** A reachable state stays one through any further events. */
  lemma ReachableGoesOn(cfg: Config, s: System, more: seq<Event>)
    requires Reachable(cfg, s)
    ensures Reachable(cfg, Run(cfg, s, more))
  {
    hide IsStart;
    var start, es :| IsStart(cfg, start) && s == Run(cfg, start, es);
    RunConcat(cfg, start, es, more);
  }

  /** The state after a run from empty tables. */
  function After(cfg: Config, es: seq<Event>): System {
    Run(cfg, INITIAL, es)
  }

  lemma AfterIsReachable(cfg: Config, es: seq<Event>)
    requires cfg.Valid()
    ensures Reachable(cfg, After(cfg, es)) && Inv(cfg, After(cfg, es))
  {
    hide Inv;
    assert IsStart(cfg, INITIAL);
    Reached(cfg, After(cfg, es));
  }

  // ---------------------------------------------------------------- transactional outbox

  /** complete stores a result together with its delivery. */
  lemma ConcludeDelivers(t: Tables, ph: Phase, w: string, now: int, late: Option<AnalyzeError>, k: Key)
    requires Undelivered(ConcludeJob(t, ph, w, now, late).0, k)
    ensures Undelivered(t, k)
  {
    var t' := ConcludeJob(t, ph, w, now, late).0;
    if ph.JobReady? && t'.results != t.results {
      var key := ph.ticket.key;
      assert ResultKeys(t') == ResultKeys(t) + [key];
      RowKeysPushed(t.deliveries, NewRow(key.incident, key.revision, now));
    } else {
      assert ResultKeys(t') == ResultKeys(t);
    }
  }

  /** No other step stores a result or removes a delivery. */
  lemma OthersKeepOutbox(cfg: Config, t: Tables, ph: Phase, e: Event)
    requires !e.Create? && !e.CreateBatch? && !e.Start? && !e.FinishJob?
    ensures var t' := WorkerStep(cfg, t, ph, e).0;
            t'.results == t.results && RowKeys(t'.deliveries) == RowKeys(t.deliveries)
  {
    hide Slack.Send, Slack.Received, Analysed, NextRow, IncidentOf, ResultOf;
  }

  /** No event leaves a result without a delivery that was not there before. */
  lemma NextDelivers(cfg: Config, s: System, e: Event, k: Key)
    requires Undelivered(Next(cfg, s, e).tables, k)
    ensures Undelivered(s.tables, k)
  {
    hide WorkerStep, Undelivered, ConcludeJob;
    if e.Create? || e.CreateBatch? {
      CreationKeepsOutbox(cfg, s, e, k);
    } else if !e.Start? && e.worker in s.workers {
      if e.FinishJob? {
        ConcludeIsStep(cfg, s.tables, s.workers[e.worker], e);
        ConcludeDelivers(s.tables, s.workers[e.worker], e.worker, e.now, e.late, k);
      } else {
        OthersKeepOutbox(cfg, s.tables, s.workers[e.worker], e);
        SameOutbox(s.tables, Next(cfg, s, e).tables, k);
      }
    }
  }

  lemma ConcludeIsStep(cfg: Config, t: Tables, ph: Phase, e: Event)
    requires e.FinishJob?
    ensures WorkerStep(cfg, t, ph, e) == ConcludeJob(t, ph, e.worker, e.now, e.late)
  {
  }

  lemma SameOutbox(t: Tables, t': Tables, k: Key)
    requires t'.results == t.results && RowKeys(t'.deliveries) == RowKeys(t.deliveries)
    ensures Undelivered(t', k) <==> Undelivered(t, k)
  {
    assert ResultKeys(t') == ResultKeys(t);
  }

  lemma CreationKeepsOutbox(cfg: Config, s: System, e: Event, k: Key)
    requires (e.Create? || e.CreateBatch?) && Undelivered(Next(cfg, s, e).tables, k)
    ensures Undelivered(s.tables, k)
  {
    if e.CreateBatch? && CreateLoop(s.tables, e.items).Some? {
      BatchCreatesFirstNew(s.tables, e.items);
    }
    SameOutbox(s.tables, Next(cfg, s, e).tables, k);
  }

  lemma {:induction false} RunDelivers(cfg: Config, s: System, es: seq<Event>, k: Key)
    requires Undelivered(Run(cfg, s, es).tables, k)
    ensures Undelivered(s.tables, k)
    decreases |es|
  {
    hide Next, Undelivered;
    if es != [] {
      RunDelivers(cfg, Next(cfg, s, es[0]), es[1..], k);
      NextDelivers(cfg, s, es[0], k);
    }
  }

  /** A job has succeeded iff its bundle, its result and its delivery exist, each exactly once. */
  lemma OutboxOnEveryRun(cfg: Config, es: seq<Event>, j: nat)
    requires cfg.Valid() && j < |After(cfg, es).tables.jobs|
    ensures var t := After(cfg, es).tables;
            var k, n := RowKey(t.jobs[j]), if t.jobs[j].status.Succeeded? then 1 else 0;
            Rows(BundleKeys(t), k) == n && Rows(ResultKeys(t), k) == n && Rows(RowKeys(t.deliveries), k) == n
  {
    var t := After(cfg, es).tables;
    AfterIsReachable(cfg, es);
    OutboxExact(t, j);
    if Undelivered(t, RowKey(t.jobs[j])) {
      RunDelivers(cfg, INITIAL, es, RowKey(t.jobs[j]));
    }
  }

  /** The same after the migration, except that a result which had no delivery before it has none. */
  lemma OutboxAfterMigration(cfg: Config, legacy: Tables, es: seq<Event>, j: nat)
    requires cfg.Valid() && Legacy(cfg, legacy) && j < |Run(cfg, Restarted(Migrated(legacy)), es).tables.jobs|
    ensures var t := Run(cfg, Restarted(Migrated(legacy)), es).tables;
            var k, n := RowKey(t.jobs[j]), if t.jobs[j].status.Succeeded? then 1 else 0;
            && Rows(BundleKeys(t), k) == n && Rows(ResultKeys(t), k) == n
            && (Rows(RowKeys(t.deliveries), k) == n || (Rows(RowKeys(t.deliveries), k) == 0 && Undelivered(legacy, k)))
  {
    hide Inv, Migrated, Restarted;
    var start := Restarted(Migrated(legacy));
    var t := Run(cfg, start, es).tables;
    var k := RowKey(t.jobs[j]);
    MigratedSatisfiesInv(cfg, legacy);
    RunKeepsInv(cfg, start, es);
    InvIsSound(cfg, Run(cfg, start, es));
    OutboxExact(t, j);
    if Undelivered(t, k) {
      RunDelivers(cfg, start, es, k);
      RestartKeepsTables(Migrated(legacy));
      MigrationEstablishesSound(legacy);
    }
  }

  lemma InvIsSound(cfg: Config, s: System)
    requires Inv(cfg, s)
    ensures Sound(s.tables)
  {
  }

  lemma RestartKeepsTables(t: Tables)
    ensures Restarted(t).tables == t
  {
  }

  lemma NextKeepsStored(cfg: Config, s: System, e: Event)
    ensures s.tables.results <= Next(cfg, s, e).tables.results
    ensures s.tables.bundles <= Next(cfg, s, e).tables.bundles
  {
    if e.CreateBatch? && CreateLoop(s.tables, e.items).Some? {
      BatchCreatesFirstNew(s.tables, e.items);
    }
  }

  /** What has been stored is never changed or removed by anything that happens later. */
  lemma {:induction false} StoredNeverChanges(cfg: Config, s: System, es: seq<Event>)
    ensures s.tables.results <= Run(cfg, s, es).tables.results
    ensures s.tables.bundles <= Run(cfg, s, es).tables.bundles
    decreases |es|
  {
    if es != [] {
      NextKeepsStored(cfg, s, es[0]);
      StoredNeverChanges(cfg, Next(cfg, s, es[0]), es[1..]);
    }
  }

  /** The existing-result branch, constraint violations and both "missing" errors never happen. */
  lemma UnreachableBranches(cfg: Config, s: System, w: string, now: int, locked: set<nat>)
    requires cfg.Valid() && Reachable(cfg, s) && w in s.workers
    ensures !ClaimJob(s.tables, cfg, w, now, locked).1.SourceMissing?
    ensures !ClaimDelivery(s.tables, cfg, w, now, locked).1.SourceMissing?
    ensures s.workers[w].JobReady? ==>
              var ph := s.workers[w];
              var outcome := CompleteJob(s.tables, ph.ticket.id, ph.ticket.key, w, now, ph.bundle, ph.analysis).1;
              outcome.Done? || outcome.OwnershipLost?
  {
    Reached(cfg, s);
    SourcesPresent(s.tables, cfg, w, now, locked);
    if s.workers[w].JobReady? {
      CompletionOutcomes(cfg, s, w, now);
    }
  }

  /** Every stored result is valid and refers only to ids of the bundle stored under the same key. */
  lemma EvidenceClosure(cfg: Config, s: System, i: nat) returns (j: nat)
    requires cfg.Valid() && Reachable(cfg, s) && i < |s.tables.results|
    ensures var t := s.tables;
            && j < |t.bundles| && t.bundles[j].key == t.results[i].key && Rows(BundleKeys(t), t.results[i].key) == 1
            && Valid(t.results[i].analysis.result)
            && References(t.results[i].analysis.result) <= EvidenceIds(t.bundles[j].bundle)
            && EvidenceIds(t.bundles[j].bundle)
               == (set n | 1 <= n <= |t.bundles[j].bundle.logEvidence| :: LogId(n))
                  + (if t.bundles[j].bundle.alertEvidence == [] then {} else {ALERT_ID})
            && 1 <= |t.bundles[j].bundle.logEvidence| <= 20
  {
    var t := s.tables;
    Reached(cfg, s);
    assert ResultKeys(t)[i] in BundleKeys(t);
    DistinctOccurrences(BundleKeys(t), ResultKeys(t)[i]);
    j :| 0 <= j < |t.bundles| && BundleKeys(t)[j] == ResultKeys(t)[i];
    assert t.bundles[j].key == t.results[i].key;
    WellNumberedIds(t.bundles[j].bundle);
  }

  // ---------------------------------------------------------------- fencing

  /** The event reports the outcome of the claim its worker holds. */
  predicate ReportsJob(s: System, e: Event) {
    (e.FinishJob? && e.worker in s.workers && s.workers[e.worker].JobReady?)
    || (e.ReportJob? && e.worker in s.workers && s.workers[e.worker].JobFailing?)
  }

  predicate ReportsDelivery(s: System, e: Event) {
    (e.FinishDelivery? && e.worker in s.workers && s.workers[e.worker].DeliverySent?)
    || (e.ReportDelivery? && e.worker in s.workers && s.workers[e.worker].DeliveryFailing?)
  }

  /**
   complete and fail of a job change the tables exactly when the worker's claim is still open,
   and then it is the row's latest claim. Otherwise complete raises and fail does nothing: a
   superseded worker, and a fail that follows the worker's own committed complete.
   */
  lemma JobFencing(cfg: Config, s: System, e: Event)
    requires cfg.Valid() && Reachable(cfg, s) && ReportsJob(s, e)
    ensures var w, k := e.worker, s.workers[e.worker].ticket;
            && TicketOk(s.tables.jobs, w, k)
            && (Next(cfg, s, e).tables != s.tables <==> ClaimOf(s.tables.jobs, k).fate.Open?)
            && (ClaimOf(s.tables.jobs, k).fate.Open? ==> k.token == s.tables.jobs[k.id].attempts)
            && (!ClaimOf(s.tables.jobs, k).fate.Open?
                ==> Next(cfg, s, e).workers[w] == if e.FinishJob? then Crashed else Idle)
  {
    var w, ph := e.worker, s.workers[e.worker];
    Reached(cfg, s);
    assert PhaseOk(s.tables, w, ph);
    OwnsIffOpen(s.tables.jobs, cfg.JobPolicy(), w, ph.ticket);
    assert Consistent(s.tables.jobs[ph.ticket.id], cfg.JobPolicy());
    if e.FinishJob? {
      CompletionOutcomes(cfg, s, w, e.now);
    }
    if Owns(s.tables.jobs, ph.ticket.id, w) {
      assert Next(cfg, s, e).tables.jobs[ph.ticket.id].owner == None;
    }
  }

  /** The same for deliveries; there a completed send can only be followed by complete. */
  lemma DeliveryFencing(cfg: Config, s: System, e: Event)
    requires cfg.Valid() && Reachable(cfg, s) && ReportsDelivery(s, e)
    ensures var w, k := e.worker, s.workers[e.worker].ticket;
            && TicketOk(s.tables.deliveries, w, k)
            && (Next(cfg, s, e).tables != s.tables <==> ClaimOf(s.tables.deliveries, k).fate.Open?)
            && (ClaimOf(s.tables.deliveries, k).fate.Open? ==> k.token == s.tables.deliveries[k.id].attempts)
            && (!ClaimOf(s.tables.deliveries, k).fate.Open? ==>
                  Next(cfg, s, e).workers[w] == if e.FinishDelivery? then Crashed else Idle)
            && (ClaimOf(s.tables.deliveries, k).accepted <==> e.FinishDelivery?)
  {
    var w, ph := e.worker, s.workers[e.worker];
    Reached(cfg, s);
    assert PhaseOk(s.tables, w, ph);
    OwnsIffOpen(s.tables.deliveries, cfg.DeliveryPolicy(), w, ph.ticket);
    assert Consistent(s.tables.deliveries[ph.ticket.id], cfg.DeliveryPolicy());
    if Owns(s.tables.deliveries, ph.ticket.id, w) {
      assert Next(cfg, s, e).tables.deliveries[ph.ticket.id].owner == None;
    }
  }

  // ---------------------------------------------------------------- what the ledgers say

  /**
   Attempts balance, retries and backoff are bounded, for every job of every run; attempt_count has
   kept to the limit iff the job was taken over no more often than that leaves room for.
   */
  lemma JobLedger(cfg: Config, s: System, i: nat)
    requires cfg.Valid() && Reachable(cfg, s) && i < |s.tables.jobs|
    ensures var r := s.tables.jobs[i];
            && r.attempts == Completes(r) + Fails(r) + Takeovers(r) + (if r.status.Leased? then 1 else 0)
            && (r.owner.Some? <==> r.status.Leased?) && (r.until.Some? <==> r.status.Leased?)
            && (r.status.Pending? ==> r.attempts < cfg.jobMax)
            && r.attempts - Takeovers(r) <= cfg.jobMax
            && (r.attempts <= cfg.jobMax <==>
                  Takeovers(r) <= cfg.jobMax - Requeues(r) - if r.status.Pending? then 0 else 1)
            && 2 * BackoffDelay(r.claims) <= 5 * cfg.jobMax * (cfg.jobMax - 1) * SECOND
  {
    var r := s.tables.jobs[i];
    Reached(cfg, s);
    AttemptsConserved(r, cfg.JobPolicy());
    RetryBound(r, cfg.JobPolicy());
    WithinLimitIff(r, cfg.JobPolicy());
    JobBackoffBound(r, cfg.JobPolicy());
  }

  /** The same for every delivery. */
  lemma DeliveryLedger(cfg: Config, s: System, i: nat)
    requires cfg.Valid() && Reachable(cfg, s) && i < |s.tables.deliveries|
    ensures var r := s.tables.deliveries[i];
            var m := cfg.deliveryMax;
            && r.attempts == Completes(r) + Fails(r) + Takeovers(r) + (if r.status.Leased? then 1 else 0)
            && (r.owner.Some? <==> r.status.Leased?) && (r.until.Some? <==> r.status.Leased?)
            && (r.status.Pending? ==> r.attempts < m)
            && r.attempts - Takeovers(r) <= m
            && (r.attempts <= m <==> Takeovers(r) <= m - Requeues(r) - if r.status.Pending? then 0 else 1)
            && BackoffDelay(r.claims) <= (if m <= 7 then 5 * (Pow2(m - 1) - 1) else 315 + 300 * (m - 7)) * SECOND
            && forall k | 0 <= k < |r.claims| && r.claims[k].fate.Requeued? && r.claims[k].fate.explicit ::
                 SECOND <= r.claims[k].fate.delay <= 3600 * SECOND
  {
    var r := s.tables.deliveries[i];
    Reached(cfg, s);
    AttemptsConserved(r, cfg.DeliveryPolicy());
    RetryBound(r, cfg.DeliveryPolicy());
    WithinLimitIff(r, cfg.DeliveryPolicy());
    DeliveryBackoffBound(r, cfg.DeliveryPolicy());
  }

  /**
   Slack holds at most one copy of a message more than there are takeovers and answers that did not
   reach the worker, and at most as many as the attempt limit and takeovers together. SENT means at
   least one; without takeovers and lost answers it means exactly one.
   */
  lemma NotificationDuplicates(cfg: Config, s: System, i: nat)
    requires cfg.Valid() && Reachable(cfg, s) && i < |s.tables.deliveries|
    ensures var r := s.tables.deliveries[i];
            && Received(r) == Accepted(r) + LostReplies(r)
            && Received(r) <= 1 + Takeovers(r) + LostReplies(r)
            && Received(r) <= cfg.deliveryMax + Takeovers(r)
            && (r.status.Succeeded? ==> Received(r) >= 1 + LostReplies(r))
            && (r.status.Succeeded? && Takeovers(r) == 0 ==> Received(r) == 1 + LostReplies(r))
            && (r.status.Failed? || r.status.Pending? ==> Received(r) <= Takeovers(r) + LostReplies(r))
            && forall c | c in r.claims && c.accepted :: c.received && !IsFailed(c)
  {
    Reached(cfg, s);
    DuplicationBound(s.tables.deliveries[i], cfg.DeliveryPolicy());
    AcceptedBound(s.tables.deliveries[i], cfg.DeliveryPolicy());
  }

  /** The ledgers grow by exactly what a run does to a row, so the bounds above are about the run. */
  lemma JobLedgerIsTheRun(cfg: Config, s: System, es: seq<Event>, i: nat)
    requires cfg.Valid() && Reachable(cfg, s)
    ensures OfRow(Run(cfg, s, es).tables.jobs, i)
            == Plus(OfRow(s.tables.jobs, i), OfRun(s.tables.jobs, JobTrace(cfg, s, es), i, cfg.JobPolicy()))
  {
    Reached(cfg, s);
    RunSimulatesQueues(cfg, s, es);
    LedgerIsTheRun(s.tables.jobs, JobTrace(cfg, s, es), i, cfg.JobPolicy());
  }

  lemma DeliveryLedgerIsTheRun(cfg: Config, s: System, es: seq<Event>, i: nat)
    requires cfg.Valid() && Reachable(cfg, s)
    ensures OfRow(Run(cfg, s, es).tables.deliveries, i)
            == Plus(OfRow(s.tables.deliveries, i),
                    OfRun(s.tables.deliveries, DeliveryTrace(cfg, s, es), i, cfg.DeliveryPolicy()))
  {
    Reached(cfg, s);
    RunSimulatesQueues(cfg, s, es);
    LedgerIsTheRun(s.tables.deliveries, DeliveryTrace(cfg, s, es), i, cfg.DeliveryPolicy());
  }

  // ---------------------------------------------------------------- end states

  /** A job that is SUCCEEDED or FAILED keeps all its columns, whatever happens later. */
  lemma EndedJobsStay(cfg: Config, s: System, es: seq<Event>, i: nat)
    requires cfg.Valid() && Reachable(cfg, s) && i < |s.tables.jobs| && Terminal(s.tables.jobs[i])
    ensures i < |Run(cfg, s, es).tables.jobs|
    ensures Run(cfg, s, es).tables.jobs[i].(claims := s.tables.jobs[i].claims) == s.tables.jobs[i]
  {
    Reached(cfg, s);
    RunSimulatesQueues(cfg, s, es);
    RunKeepsTerminal(s.tables.jobs, JobTrace(cfg, s, es), i, cfg.JobPolicy());
  }

  /** A delivery that is SENT or DEAD likewise. */
  lemma EndedDeliveriesStay(cfg: Config, s: System, es: seq<Event>, i: nat)
    requires cfg.Valid() && Reachable(cfg, s) && i < |s.tables.deliveries| && Terminal(s.tables.deliveries[i])
    ensures i < |Run(cfg, s, es).tables.deliveries|
    ensures Run(cfg, s, es).tables.deliveries[i].(claims := s.tables.deliveries[i].claims) == s.tables.deliveries[i]
  {
    Reached(cfg, s);
    RunSimulatesQueues(cfg, s, es);
    RunKeepsTerminal(s.tables.deliveries, DeliveryTrace(cfg, s, es), i, cfg.DeliveryPolicy());
  }

  // ---------------------------------------------------------------- leases

  /**
   With a clock that does not go back, no two claims of a job hold live leases at the same time. From
   empty tables any starting time will do; other tables must not hold claims from the future.
   */
  lemma JobLeaseExclusion(cfg: Config, s: System, es: seq<Event>, i: nat, a: nat, b: nat, now: int, t: int)
    requires cfg.Valid() && Reachable(cfg, s) && AllChronological(s.tables.jobs, t) && Clock(JobTrace(cfg, s, es), t)
    requires i < |Run(cfg, s, es).tables.jobs| && a < b < |Run(cfg, s, es).tables.jobs[i].claims|
    ensures var r := Run(cfg, s, es).tables.jobs[i];
            !(Live(r.claims[a], now, cfg.JobPolicy()) && Live(r.claims[b], now, cfg.JobPolicy()))
  {
    var trace, p := JobTrace(cfg, s, es), cfg.JobPolicy();
    Reached(cfg, s);
    RunKeepsInv(cfg, s, es);
    RunSimulatesQueues(cfg, s, es);
    RunChronological(s.tables.jobs, trace, t, p);
    LeaseExclusion(Run(cfg, s, es).tables.jobs[i], now, EndTime(trace, t), a, b, p);
  }

  lemma DeliveryLeaseExclusion(cfg: Config, s: System, es: seq<Event>, i: nat, a: nat, b: nat, now: int, t: int)
    requires cfg.Valid() && Reachable(cfg, s)
    requires AllChronological(s.tables.deliveries, t) && Clock(DeliveryTrace(cfg, s, es), t)
    requires i < |Run(cfg, s, es).tables.deliveries| && a < b < |Run(cfg, s, es).tables.deliveries[i].claims|
    ensures var r := Run(cfg, s, es).tables.deliveries[i];
            !(Live(r.claims[a], now, cfg.DeliveryPolicy()) && Live(r.claims[b], now, cfg.DeliveryPolicy()))
  {
    var trace, p := DeliveryTrace(cfg, s, es), cfg.DeliveryPolicy();
    Reached(cfg, s);
    RunKeepsInv(cfg, s, es);
    RunSimulatesQueues(cfg, s, es);
    RunChronological(s.tables.deliveries, trace, t, p);
    LeaseExclusion(Run(cfg, s, es).tables.deliveries[i], now, EndTime(trace, t), a, b, p);
  }

  // ---------------------------------------------------------------- progress

  /** A due job is overtaken at most once by each row waiting ahead, apart from takeovers and while it is locked. */
  lemma JobsDoNotStarve(cfg: Config, s: System, more: seq<Event>, r: nat, t: int)
    requires cfg.Valid() && Reachable(cfg, s) && r < |s.tables.jobs| && Eligible(s.tables.jobs[r], t)
    requires Waits(s.tables.jobs, JobTrace(cfg, s, more), r, cfg.JobPolicy())
    requires forall op | op in JobTrace(cfg, s, more) :: NotBefore(op, t)
    ensures var rows, ops := s.tables.jobs, JobTrace(cfg, s, more);
            && Overtakes(rows, ops, cfg.JobPolicy())
               <= |WaitingAhead(rows, r)| + TakeoverCount(rows, ops, cfg.JobPolicy()) + LockedOut(ops, r)
            && forall op | op in ops && op.Grant? && r !in op.locked :: op.id in Ahead(rows, r)
  {
    Reached(cfg, s);
    RunSimulatesQueues(cfg, s, more);
    NoStarvation(s.tables.jobs, JobTrace(cfg, s, more), r, t, cfg.JobPolicy());
  }

  lemma DeliveriesDoNotStarve(cfg: Config, s: System, more: seq<Event>, r: nat, t: int)
    requires cfg.Valid() && Reachable(cfg, s) && r < |s.tables.deliveries| && Eligible(s.tables.deliveries[r], t)
    requires Waits(s.tables.deliveries, DeliveryTrace(cfg, s, more), r, cfg.DeliveryPolicy())
    requires forall op | op in DeliveryTrace(cfg, s, more) :: NotBefore(op, t)
    ensures var rows, ops := s.tables.deliveries, DeliveryTrace(cfg, s, more);
            && Overtakes(rows, ops, cfg.DeliveryPolicy())
               <= |WaitingAhead(rows, r)| + TakeoverCount(rows, ops, cfg.DeliveryPolicy()) + LockedOut(ops, r)
            && forall op | op in ops && op.Grant? && r !in op.locked :: op.id in Ahead(rows, r)
  {
    Reached(cfg, s);
    RunSimulatesQueues(cfg, s, more);
    NoStarvation(s.tables.deliveries,
                 DeliveryTrace(cfg, s, more), r, t, cfg.DeliveryPolicy());
  }

  /** Claims of waiting rows and outcomes, on both queues, takeovers not counted. */
  function EffectiveSteps(cfg: Config, s: System, es: seq<Event>): nat {
    Effective(s.tables.jobs, JobTrace(cfg, s, es), cfg.JobPolicy())
    + Effective(s.tables.deliveries, DeliveryTrace(cfg, s, es), cfg.DeliveryPolicy())
  }

  lemma QueueWork(rows: seq<Row>, ops: seq<Op>, p: Policy)
    requires p.Valid() && AllConsistent(rows, p) && LegalAll(rows, ops, p)
    ensures Effective(rows, ops, p) <= 2 * p.maxAttempts * |ApplyAll(rows, ops, p)|
  {
    hide Rank, Effective, ApplyAll, Inserts, Budget, AllConsistent, LegalAll;
    EffectiveStepsBounded(rows, ops, p);
    BudgetOfInserts(ops, p);
    RunKeepsConsistent(rows, ops, p);
    RankNonNegative(ApplyAll(rows, ops, p), p);
    InsertsCountRows(rows, ops, p);
    WorkLeftBounds(rows, p);
    TimesSum(2 * p.maxAttempts, |rows|, Inserts(ops));
  }

  lemma TimesSum(m: int, n: nat, k: nat)
    ensures m * (n + k) == m * n + m * k
  {
  }

  lemma TimesMonotone(a: int, m: nat, n: nat)
    requires a >= 0 && m <= n
    ensures a * m <= a * n
  {
  }

  /** The i-th job is that of the i-th incident, so there is exactly one job for each. */
  ghost predicate Paired(t: Tables) {
    |t.jobs| == |t.incidents|
    && forall i | 0 <= i < |t.jobs| :: t.jobs[i].incident == t.incidents[i].id && t.jobs[i].revision == 1
  }

  lemma NextKeepsPaired(cfg: Config, s: System, e: Event)
    requires Paired(s.tables)
    ensures Paired(Next(cfg, s, e).tables)
  {
    hide Slack.Send, Slack.Received, Analysed, NextRow, IncidentOf, ResultOf;
    if e.CreateBatch? && CreateLoop(s.tables, e.items).Some? {
      BatchCreatesFirstNew(s.tables, e.items);
    }
  }

  lemma {:induction false} OneJobPerIncident(cfg: Config, s: System, es: seq<Event>)
    requires Paired(s.tables)
    ensures Paired(Run(cfg, s, es).tables)
    decreases |es|
  {
    if es != [] {
      NextKeepsPaired(cfg, s, es[0]);
      OneJobPerIncident(cfg, Next(cfg, s, es[0]), es[1..]);
    }
  }

  /** A run takes at most 2(J + D) effective steps for each job, however it interleaves. */
  lemma WorkPerJob(cfg: Config, s: System, es: seq<Event>)
    requires cfg.Valid() && Reachable(cfg, s)
    ensures EffectiveSteps(cfg, s, es)
            <= 2 * cfg.jobMax * |Run(cfg, s, es).tables.jobs| + 2 * cfg.deliveryMax * |Run(cfg, s, es).tables.jobs|
  {
    Reached(cfg, s);
    RunKeepsInv(cfg, s, es);
    RunSimulatesQueues(cfg, s, es);
    DeliveriesWithinJobs(Run(cfg, s, es).tables);
    QueueWork(s.tables.jobs, JobTrace(cfg, s, es), cfg.JobPolicy());
    QueueWork(s.tables.deliveries, DeliveryTrace(cfg, s, es), cfg.DeliveryPolicy());
    TimesMonotone(2 * cfg.deliveryMax, |Run(cfg, s, es).tables.deliveries|, |Run(cfg, s, es).tables.jobs|);
  }

  /** From empty tables that is 2(J + D) for each incident. */
  lemma BoundedWork(cfg: Config, es: seq<Event>)
    requires cfg.Valid()
    ensures EffectiveSteps(cfg, INITIAL, es)
            <= 2 * cfg.jobMax * |After(cfg, es).tables.incidents|
               + 2 * cfg.deliveryMax * |After(cfg, es).tables.incidents|
  {
    AfterIsReachable(cfg, []);
    WorkPerJob(cfg, INITIAL, es);
    OneJobPerIncident(cfg, INITIAL, es);
  }

  /** Nothing is left to claim, now or ever, exactly when all jobs and deliveries have ended. */
  lemma QuiescenceOnEveryRun(cfg: Config, s: System)
    requires cfg.Valid() && Reachable(cfg, s)
    ensures var t := s.tables;
            (forall now: int :: NextRow(t.jobs, now, {}).None?)
            && (forall now: int :: NextRow(t.deliveries, now, {}).None?)
            <==> (forall i | 0 <= i < |t.jobs| :: Terminal(t.jobs[i]))
                 && (forall i | 0 <= i < |t.deliveries| :: Terminal(t.deliveries[i]))
  {
    Reached(cfg, s);
    QuiescentIffTerminal(s.tables.jobs, cfg.JobPolicy());
    QuiescentIffTerminal(s.tables.deliveries, cfg.DeliveryPolicy());
  }
}
