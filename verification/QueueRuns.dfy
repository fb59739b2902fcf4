/** Both tables of every run evolve as runs of the one abstract lease queue. */
module QueueRuns {
  import opened LeaseQueue
  import opened Store
  import opened Creation
  import opened Workers
  import opened SystemInvariant

  lemma {:induction false} InsertsApply(rows: seq<Row>, items: seq<Item>, p: Policy)
    ensures ApplyAll(rows, InsertsFor(items), p) == rows + NewJobs(items)
    ensures LegalAll(rows, InsertsFor(items), p)
    decreases |items|
  {
    if items == [] {
      assert NewJobs(items) == [];
    } else {
      var row := NewRow(items[0].id, 1, items[0].now);
      assert InsertsFor(items)[1..] == InsertsFor(items[1..]);
      assert Apply(rows, InsertsFor(items)[0], p) == rows + [row];
      InsertsApply(rows + [row], items[1..], p);
      assert rows + [row] + NewJobs(items[1..]) == rows + NewJobs(items);
    }
  }

  ghost predicate Simulated(rows: seq<Row>, ops: seq<Op>, rows': seq<Row>, p: Policy) {
    LegalAll(rows, ops, p) && ApplyAll(rows, ops, p) == rows'
  }

  lemma OneOpSimulated(rows: seq<Row>, ops: seq<Op>, rows': seq<Row>, p: Policy)
    requires |ops| == 1 && Legal(rows, ops[0], p) && Apply(rows, ops[0], p) == rows'
    ensures Simulated(rows, ops, rows', p)
  {
    assert ops == [ops[0]];
    ApplyOne(rows, ops[0], p);
  }

  lemma CreationSimulated(cfg: Config, s: System, e: Event)
    requires cfg.Valid() && Inv(cfg, s) && (e.Create? || e.CreateBatch?)
    ensures Simulated(s.tables.jobs, JobOps(s, e), Next(cfg, s, e).tables.jobs, cfg.JobPolicy())
    ensures Next(cfg, s, e).tables.deliveries == s.tables.deliveries
  {
    if e.Create? && TryInsert(s.tables, e.item).Inserted? {
      OneOpSimulated(s.tables.jobs, JobOps(s, e), Next(cfg, s, e).tables.jobs, cfg.JobPolicy());
    } else if e.CreateBatch? && CreateLoop(s.tables, e.items).Some? {
      BatchCreatesFirstNew(s.tables, e.items);
      InsertsApply(s.tables.jobs, FirstNew(s.tables, e.items), cfg.JobPolicy());
    }
  }

  lemma FinishJobSimulated(cfg: Config, s: System, e: Event)
    requires cfg.Valid() && Inv(cfg, s) && e.FinishJob? && e.worker in s.workers && s.workers[e.worker].JobReady?
    ensures Simulated(s.tables.jobs, JobOps(s, e), Next(cfg, s, e).tables.jobs, cfg.JobPolicy())
    ensures Simulated(s.tables.deliveries, DeliveryOps(s, e), Next(cfg, s, e).tables.deliveries, cfg.DeliveryPolicy())
  {
    CompletionOutcomes(cfg, s, e.worker, e.now);
    if Owns(s.tables.jobs, s.workers[e.worker].ticket.id, e.worker) {
      OneOpSimulated(s.tables.jobs, JobOps(s, e), Next(cfg, s, e).tables.jobs, cfg.JobPolicy());
      OneOpSimulated(s.tables.deliveries, DeliveryOps(s, e), Next(cfg, s, e).tables.deliveries, cfg.DeliveryPolicy());
    }
  }

  lemma JobStepSimulated(cfg: Config, s: System, e: Event)
    requires cfg.Valid() && Inv(cfg, s) && !e.Create? && !e.CreateBatch? && !e.FinishJob?
    ensures Simulated(s.tables.jobs, JobOps(s, e), Next(cfg, s, e).tables.jobs, cfg.JobPolicy())
  {
    hide Sound, JobOwnersOk, DeliveryOwnersOk, Analysed, NextRow;
    if JobOps(s, e) != [] {
      var w, p := e.worker, cfg.JobPolicy();
      var ph := s.workers[w];
      assert PhaseOk(s.tables, w, ph);
      if e.PollJob? {
        SourcesPresent(s.tables, cfg, w, e.now, e.locked);
      } else {
        assert Consistent(s.tables.jobs[ph.ticket.id], p);
        assert ClaimOk(s.tables.jobs[ph.ticket.id].claims, ph.ticket.token - 1, p);
      }
      OneOpSimulated(s.tables.jobs, JobOps(s, e), Next(cfg, s, e).tables.jobs, p);
    }
  }

  lemma DeliveryStepSimulated(cfg: Config, s: System, e: Event)
    requires cfg.Valid() && Inv(cfg, s) && !e.Create? && !e.CreateBatch? && !e.FinishJob?
    ensures Simulated(s.tables.deliveries, DeliveryOps(s, e), Next(cfg, s, e).tables.deliveries, cfg.DeliveryPolicy())
  {
    hide Sound, JobOwnersOk, DeliveryOwnersOk, Analysed, NextRow;
    if DeliveryOps(s, e) != [] {
      var w := e.worker;
      assert PhaseOk(s.tables, w, s.workers[w]);
      if e.PollDelivery? {
        SourcesPresent(s.tables, cfg, w, e.now, e.locked);
      }
      OneOpSimulated(s.tables.deliveries, DeliveryOps(s, e), Next(cfg, s, e).tables.deliveries, cfg.DeliveryPolicy());
    }
  }

  /** One event is, on each table, a legal run of queue operations. */
  lemma StepSimulated(cfg: Config, s: System, e: Event)
    requires cfg.Valid() && Inv(cfg, s)
    ensures Simulated(s.tables.jobs, JobOps(s, e), Next(cfg, s, e).tables.jobs, cfg.JobPolicy())
    ensures Simulated(s.tables.deliveries, DeliveryOps(s, e), Next(cfg, s, e).tables.deliveries, cfg.DeliveryPolicy())
  {
    if e.Create? || e.CreateBatch? {
      CreationSimulated(cfg, s, e);
    } else if e.FinishJob? && e.worker in s.workers && s.workers[e.worker].JobReady? {
      FinishJobSimulated(cfg, s, e);
    } else if !e.FinishJob? {
      JobStepSimulated(cfg, s, e);
      DeliveryStepSimulated(cfg, s, e);
    }
  }

  /** Every run of the system is, on each table, a legal run of the abstract queue. */
  lemma {:induction false} RunSimulatesQueues(cfg: Config, s: System, es: seq<Event>)
    requires cfg.Valid() && Inv(cfg, s)
    ensures Simulated(s.tables.jobs, JobTrace(cfg, s, es), Run(cfg, s, es).tables.jobs, cfg.JobPolicy())
    ensures Simulated(s.tables.deliveries, DeliveryTrace(cfg, s, es),
                      Run(cfg, s, es).tables.deliveries, cfg.DeliveryPolicy())
    decreases |es|
  {
    if es != [] {
      var n := Next(cfg, s, es[0]);
      NextKeepsInv(cfg, s, es[0]);
      StepSimulated(cfg, s, es[0]);
      RunSimulatesQueues(cfg, n, es[1..]);
      ApplyConcat(s.tables.jobs, JobOps(s, es[0]), JobTrace(cfg, n, es[1..]), cfg.JobPolicy());
      ApplyConcat(s.tables.deliveries, DeliveryOps(s, es[0]), DeliveryTrace(cfg, n, es[1..]), cfg.DeliveryPolicy());
    }
  }
}
