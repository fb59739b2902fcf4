/** What workers hold is what the tables say, and what is stored is what a worker decided. */
module Contents {
  import opened Common
  import opened Loki
  import opened Analysis
  import Slack
  import opened LeaseQueue
  import opened Store
  import opened Creation
  import opened Workers
  import opened SystemInvariant
  import opened Guarantees

  // ---------------------------------------------------------------- what a worker holds

  /** The result stored for a key. */
  ghost predicate IsResultOf(t: Tables, r: AnalysisResult, k: Key) {
    exists j :: 0 <= j < |t.results| && t.results[j].key == k && t.results[j].analysis.result == r
  }

  /** A worker on a job holds that job's incident; one on a delivery also the result to announce. */
  ghost predicate PhaseInformed(t: Tables, ph: Phase) {
    && (ph.JobOpen? || ph.DeliveryOpen? ==> ph.incident in t.incidents && ph.incident.id == ph.ticket.key.incident)
    && (ph.DeliveryOpen? ==> IsResultOf(t, ph.announced, ph.ticket.key))
  }

  ghost predicate Informed(s: System) {
    forall w | w in s.workers :: PhaseInformed(s.tables, s.workers[w])
  }

  lemma InformedGrows(t: Tables, t': Tables, ph: Phase)
    requires PhaseInformed(t, ph) && t.incidents <= t'.incidents && t.results <= t'.results
    ensures PhaseInformed(t', ph)
  {
    if ph.DeliveryOpen? {
      var j :|
        0 <= j < |t.results| && t.results[j].key == ph.ticket.key && t.results[j].analysis.result == ph.announced;
      assert t'.results[j] == t.results[j];
    }
  }

  lemma TakenInformed(cfg: Config, t: Tables, w: string, now: int, next: Option<nat>)
    requires next.Some? ==> next.value < |t.deliveries|
    ensures PhaseInformed(TakeDelivery(cfg, t, w, now, next).0, TakeDelivery(cfg, t, w, now, next).1)
  {
    hide ClaimRow;
  }

  lemma StepInformed(cfg: Config, t: Tables, ph: Phase, e: Event)
    requires !e.Create? && !e.CreateBatch? && !e.Start? && PhaseInformed(t, ph)
    ensures var (t', ph') := WorkerStep(cfg, t, ph, e);
            t'.incidents == t.incidents && t.results <= t'.results && PhaseInformed(t', ph')
  {
    hide NextRow, ClaimRow, CompleteRow, FailRow, Judged, Collect, Slack.Send, Slack.Received;
    if e.PollDelivery? && ph.Idle? {
      TakenInformed(cfg, t, e.worker, e.now, NextRow(t.deliveries, e.now, e.locked));
    } else if e.Work? && ph.JobOpen? {
      var collected := Collect(e.application, e.mysql, cfg.lokiLimit, ph.incident.startedAt);
      JudgedKeepsTicket(ph.ticket, ph.incident.event, collected, e.model, e.gemini);
    }
  }

  lemma NextKeepsInformed(cfg: Config, s: System, e: Event)
    requires Informed(s)
    ensures Informed(Next(cfg, s, e))
  {
    hide PhaseInformed, WorkerStep, CreateMany;
    var s' := Next(cfg, s, e);
    if e.Create? || e.CreateBatch? {
      CreationGrows(cfg, s, e);
    } else if !e.Start? && e.worker in s.workers {
      StepInformed(cfg, s.tables, s.workers[e.worker], e);
    } else if e.Start? && e.worker !in s.workers {
      IdleInformed(s.tables);
    }
    forall v | v in s.workers && s'.workers[v] == s.workers[v] ensures PhaseInformed(s'.tables, s.workers[v]) {
      InformedGrows(s.tables, s'.tables, s.workers[v]);
    }
  }

  lemma IdleInformed(t: Tables)
    ensures PhaseInformed(t, Idle) && PhaseInformed(t, Crashed)
  {
  }

  lemma CreationGrows(cfg: Config, s: System, e: Event)
    requires e.Create? || e.CreateBatch?
    ensures var s' := Next(cfg, s, e);
            && s.tables.incidents <= s'.tables.incidents && s'.tables.results == s.tables.results
            && s'.workers == s.workers
  {
    if e.CreateBatch? && CreateLoop(s.tables, e.items).Some? {
      BatchCreatesFirstNew(s.tables, e.items);
    }
  }

  lemma {:induction false} RunKeepsInformed(cfg: Config, s: System, es: seq<Event>)
    requires Informed(s)
    ensures Informed(Run(cfg, s, es))
    decreases |es|
  {
    hide Informed, Next;
    if es != [] {
      NextKeepsInformed(cfg, s, es[0]);
      RunKeepsInformed(cfg, Next(cfg, s, es[0]), es[1..]);
    }
  }

  lemma ReachableInformed(cfg: Config, s: System)
    requires Reachable(cfg, s)
    ensures Informed(s)
  {
    hide Run, Legacy;
    var start, es :| IsStart(cfg, start) && s == Run(cfg, start, es);
    RunKeepsInformed(cfg, start, es);
  }

  /** In every reachable state a worker analyses the incident of the job it has claimed. */
  lemma AnalysesItsIncident(cfg: Config, s: System, w: string, i: nat)
    requires cfg.Valid() && Reachable(cfg, s) && w in s.workers && s.workers[w].JobOpen? && i < |s.tables.incidents|
    requires s.tables.incidents[i].id == s.workers[w].ticket.key.incident
    ensures s.workers[w].incident == s.tables.incidents[i]
  {
    Reached(cfg, s);
    ReachableInformed(cfg, s);
    SameIncident(s.tables, s.workers[w].incident, i);
  }

  lemma SameIncident(t: Tables, d: Incident, i: nat)
    requires Distinct(Ids(t.incidents)) && d in t.incidents && i < |t.incidents| && t.incidents[i].id == d.id
    ensures d == t.incidents[i]
  {
    var j :| 0 <= j < |t.incidents| && t.incidents[j] == d;
    assert Ids(t.incidents)[i] == Ids(t.incidents)[j];
  }

  /** And it announces the result that is stored for the delivery it has claimed, for that incident. */
  lemma AnnouncesTheStoredResult(cfg: Config, s: System, w: string, i: nat, j: nat)
    requires cfg.Valid() && Reachable(cfg, s) && w in s.workers && s.workers[w].DeliveryOpen?
    requires i < |s.tables.incidents| && s.tables.incidents[i].id == s.workers[w].ticket.key.incident
    requires j < |s.tables.results| && s.tables.results[j].key == s.workers[w].ticket.key
    ensures s.workers[w].incident == s.tables.incidents[i]
    ensures s.workers[w].announced == s.tables.results[j].analysis.result
  {
    var t, ph := s.tables, s.workers[w];
    Reached(cfg, s);
    ReachableInformed(cfg, s);
    SameIncident(t, ph.incident, i);
    var k :| 0 <= k < |t.results| && t.results[k].key == ph.ticket.key && t.results[k].analysis.result == ph.announced;
    assert ResultKeys(t)[k] == ResultKeys(t)[j];
  }

  // ---------------------------------------------------------------- what is stored

  /** The event with which a worker that still owns its job stores what it has decided. */
  ghost predicate StoresDecision(s: System, e: Event) {
    && e.FinishJob? && e.worker in s.workers && s.workers[e.worker].JobReady?
    && Owns(s.tables.jobs, s.workers[e.worker].ticket.id, e.worker)
  }

  /** complete stores exactly the bundle and analysis the worker holds, and a delivery that is due at once. */
  lemma DecisionIsStored(cfg: Config, s: System, e: Event)
    requires cfg.Valid() && Reachable(cfg, s) && StoresDecision(s, e)
    ensures var t, t', ph := s.tables, Next(cfg, s, e).tables, s.workers[e.worker];
            && t'.bundles == t.bundles + [EvidenceRow(ph.ticket.key, ph.bundle)]
            && t'.results == t.results + [ResultRow(ph.ticket.key, ph.analysis)]
            && |t'.deliveries| == |t.deliveries| + 1 && t'.deliveries[..|t.deliveries|] == t.deliveries
            && (var d := Last(t'.deliveries);
                && d.incident == ph.ticket.key.incident && d.revision == ph.ticket.key.revision
                && d.status.Pending? && d.attempts == 0 && d.availableAt == d.createdAt == e.now && d.claims == [])
            && t'.incidents == t.incidents
  {
    Reached(cfg, s);
    CompletionOutcomes(cfg, s, e.worker, e.now);
  }

  /** No other event stores or removes a bundle or a result. */
  lemma NothingElseIsStored(cfg: Config, s: System, e: Event)
    requires cfg.Valid() && Reachable(cfg, s) && !StoresDecision(s, e)
    ensures Next(cfg, s, e).tables.bundles == s.tables.bundles && Next(cfg, s, e).tables.results == s.tables.results
  {
    hide NextRow, Analysed, Slack.Send, Slack.Received, IncidentOf, ResultOf;
    if e.CreateBatch? && CreateLoop(s.tables, e.items).Some? {
      BatchCreatesFirstNew(s.tables, e.items);
    }
  }

  /** Every result that a run adds is the decision of a worker at the moment it completed its job. */
  lemma {:induction false} EveryResultWasDecided(cfg: Config, s: System, es: seq<Event>, i: nat) returns (n: nat)
    requires cfg.Valid() && Reachable(cfg, s) && |s.tables.results| <= i < |Run(cfg, s, es).tables.results|
    ensures n < |es| && StoresDecision(Run(cfg, s, es[..n]), es[n])
    ensures var ph, t := Run(cfg, s, es[..n]).workers[es[n].worker], Run(cfg, s, es).tables;
            && t.results[i] == ResultRow(ph.ticket.key, ph.analysis)
            && EvidenceRow(ph.ticket.key, ph.bundle) in t.bundles
    decreases |es|
  {
    hide Reachable, Next;
    var next := Next(cfg, s, es[0]);
    RunOfOne(cfg, s, es[0]);
    ReachableGoesOn(cfg, s, [es[0]]);
    if i < |next.tables.results| {
      n := 0;
      if !StoresDecision(s, es[0]) {
        NothingElseIsStored(cfg, s, es[0]);
        assert false;
      }
      DecisionIsStored(cfg, s, es[0]);
      StoredNeverChanges(cfg, next, es[1..]);
      assert es[..0] == [];
      var ph := s.workers[es[0].worker];
      assert EvidenceRow(ph.ticket.key, ph.bundle) in next.tables.bundles;
    } else {
      n := EveryResultWasDecided(cfg, next, es[1..], i);
      assert es[..n + 1] == [es[0]] + es[1..][..n];
      RunConcat(cfg, s, [es[0]], es[1..][..n]);
      n := n + 1;
    }
  }
}
