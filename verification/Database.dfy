/** The repositories as methods that update row objects in place (persistence/repositories.py). */
module Database {
  import opened Common
  import opened Evidence
  import opened Analysis
  import opened LeaseQueue
  import opened Store

  /** AnalysisJobModel and NotificationDeliveryModel: the same columns under two names. */
  class QueueRow {
    const incident: string
    const revision: int
    var status: Status
    var availableAt: int
    var attempts: nat
    var owner: Option<string>
    var until: Option<int>
    var failure: Option<string>
    const createdAt: int
    var updatedAt: int
    ghost var claims: seq<Claim>

    constructor (incident: string, revision: int, now: int)
      ensures View() == NewRow(incident, revision, now)
    {
      this.incident, this.revision := incident, revision;
      status, availableAt, attempts := Pending, now, 0;
      owner, until, failure := None, None, None;
      createdAt, updatedAt := now, now;
      claims := [];
    }

    ghost function View(): Row
      reads this
    {
      Row(incident, revision, status, availableAt, attempts, owner, until, failure, createdAt, updatedAt, claims)
    }

    method Claim(worker: string, now: int, p: Policy)
      modifies this
      ensures View() == ClaimRow(old(View()), worker, now, p)
    {
      claims := (if status.Leased? then WithFate(claims, TakenOver) else claims)
                + [NewClaim(worker, now)];
      status := Leased;
      attempts := attempts + 1;
      owner := Some(worker);
      until := Some(now + p.lease);
      failure := None;
      updatedAt := now;
    }

    method Complete(now: int)
      modifies this
      ensures View() == CompleteRow(old(View()), now)
    {
      claims := WithFate(claims, Completed);
      status := Succeeded;
      owner := None;
      until := None;
      failure := None;
      updatedAt := now;
    }

    method Fail(now: int, f: Failure, p: Policy)
      modifies this
      ensures View() == FailRow(old(View()), now, f, p)
    {
      var shouldRetry := f.retryable && attempts < p.maxAttempts;
      var delay := Delay(p.kind, attempts, f);
      claims := WithFate(claims,
        if shouldRetry then Requeued(delay * SECOND, p.kind.Deliveries? && f.retryAfter.Some?) else GaveUp);
      status := if shouldRetry then Pending else Failed;
      availableAt := now + delay * SECOND;
      owner := None;
      until := None;
      failure := Some(Take(f.code, 64));
      updatedAt := now;
    }
  }

  ghost function Views(rows: seq<QueueRow>): (v: seq<Row>)
    reads rows
    ensures |v| == |rows| && forall i | 0 <= i < |rows| :: v[i] == rows[i].View()
  {
    seq(|rows|, i requires 0 <= i < |rows| reads rows => rows[i].View())
  }

  /** ORDER BY available_at, id LIMIT 1 with SKIP LOCKED, as a scan in id order. */
  method SelectNext(rows: seq<QueueRow>, now: int, locked: set<nat>) returns (next: Option<nat>)
    ensures next == NextRow(Views(rows), now, locked)
    ensures next.Some? ==> next.value < |rows|
  {
    next := None;
    for i := 0 to |rows|
      invariant next == NextRow(Views(rows)[..i], now, locked)
    {
      assert Views(rows)[..i + 1][..i] == Views(rows)[..i];
      var r := rows[i];
      if i !in locked && r.availableAt <= now
         && (r.status.Pending? || (r.status.Leased? && r.until.Some? && r.until.value < now)) {
        if next.None? || r.availableAt < rows[next.value].availableAt {
          next := Some(i);
        }
      }
    }
    assert Views(rows)[..|rows|] == Views(rows);
  }

  /** Row i is a row of its own: no other position of either table holds the same object. */
  ghost predicate Alone(rows: seq<QueueRow>, others: seq<QueueRow>, i: nat)
    requires i < |rows|
  {
    && (forall j | 0 <= j < |rows| && j != i :: rows[j] != rows[i])
    && (forall j | 0 <= j < |others| :: others[j] != rows[i])
  }

  method ClaimAt(rows: seq<QueueRow>, others: seq<QueueRow>, i: nat, worker: string, now: int, p: Policy)
    requires i < |rows| && Alone(rows, others, i)
    modifies rows[i]
    ensures Views(rows) == old(Views(rows))[i := ClaimRow(old(rows[i].View()), worker, now, p)]
    ensures Views(others) == old(Views(others))
  {
    rows[i].Claim(worker, now, p);
  }

  method CompleteAt(rows: seq<QueueRow>, others: seq<QueueRow>, i: nat, now: int)
    requires i < |rows| && Alone(rows, others, i)
    modifies rows[i]
    ensures Views(rows) == old(Views(rows))[i := CompleteRow(old(rows[i].View()), now)]
    ensures Views(others) == old(Views(others))
  {
    rows[i].Complete(now);
  }

  method FailAt(rows: seq<QueueRow>, others: seq<QueueRow>, i: nat, now: int, f: Failure, p: Policy)
    requires i < |rows| && Alone(rows, others, i)
    modifies rows[i]
    ensures Views(rows) == old(Views(rows))[i := FailRow(old(rows[i].View()), now, f, p)]
    ensures Views(others) == old(Views(others))
  {
    rows[i].Fail(now, f, p);
  }

  class Repositories {
    var incidents: seq<Incident>
    var jobs: seq<QueueRow>
    var bundles: seq<EvidenceRow>
    var results: seq<ResultRow>
    var deliveries: seq<QueueRow>

    /** No two table positions share a row object. */
    ghost predicate Valid()
      reads this
    {
      && (forall i, j | 0 <= i < j < |jobs| :: jobs[i] != jobs[j])
      && (forall i, j | 0 <= i < j < |deliveries| :: deliveries[i] != deliveries[j])
      && (forall i, j | 0 <= i < |jobs| && 0 <= j < |deliveries| :: jobs[i] != deliveries[j])
    }

    ghost function View(): Tables
      reads this, jobs, deliveries
    {
      Tables(incidents, Views(jobs), bundles, results, Views(deliveries))
    }

    constructor ()
      ensures Valid() && View() == EMPTY
    {
      incidents, jobs, bundles, results, deliveries := [], [], [], [], [];
    }

    predicate HasIncident(id: string)
      reads this
      ensures HasIncident(id) <==> id in Ids(incidents)
    {
      assert forall i | 0 <= i < |incidents| :: Ids(incidents)[i] == incidents[i].id;
      exists i :: 0 <= i < |incidents| && incidents[i].id == id
    }

    predicate HasEpisode(e: Episode)
      reads this
      ensures HasEpisode(e) <==> e in Episodes(incidents)
    {
      assert forall i | 0 <= i < |incidents| :: Episodes(incidents)[i] == EpisodeOf(incidents[i]);
      exists i :: 0 <= i < |incidents| && EpisodeOf(incidents[i]) == e
    }

    method HasResult(k: Key) returns (found: bool)
      ensures found <==> k in ResultKeys(View())
    {
      assert forall i | 0 <= i < |results| :: ResultKeys(View())[i] == results[i].key;
      found := exists i :: 0 <= i < |results| && results[i].key == k;
    }

    method HasBundle(k: Key) returns (found: bool)
      ensures found <==> k in BundleKeys(View())
    {
      assert forall i | 0 <= i < |bundles| :: BundleKeys(View())[i] == bundles[i].key;
      found := exists i :: 0 <= i < |bundles| && bundles[i].key == k;
    }

    method HasDelivery(k: Key) returns (found: bool)
      ensures found <==> k in RowKeys(View().deliveries)
    {
      assert forall i | 0 <= i < |deliveries| ::
        RowKeys(View().deliveries)[i] == Key(deliveries[i].incident, deliveries[i].revision);
      found := exists i ::
        0 <= i < |deliveries| && deliveries[i].incident == k.incident && deliveries[i].revision == k.revision;
    }

    // -------------------------------------------------------------- creation

    method AddIncident(x: Item)
      requires Valid()
      modifies this
      ensures Valid() && View() == WithIncident(old(View()), x)
      ensures jobs[..|old(jobs)|] == old(jobs) && |jobs| == |old(jobs)| + 1 && fresh(jobs[|old(jobs)|])
      ensures deliveries == old(deliveries)
    {
      var job := new QueueRow(x.id, 1, x.now);
      incidents := incidents + [IncidentFrom(x)];
      jobs := jobs + [job];
      assert Views(jobs) == old(Views(jobs)) + [job.View()];
    }

    /** add and flush of one incident and its job, or what the database says instead. */
    method TryAdd(x: Item) returns (r: Insertion)
      requires Valid()
      modifies this
      ensures Valid() && r == TryInsert(old(View()), x)
      ensures View() == if r.Inserted? then WithIncident(old(View()), x) else old(View())
      ensures jobs[..|old(jobs)|] == old(jobs) <= jobs && deliveries == old(deliveries)
    {
      if x.fault.AtIncident? || HasIncident(x.id) {
        return Raised;
      }
      if HasEpisode(Episode(x.command.dedupKey, x.command.startedAt)) {
        return Duplicate;
      }
      if x.fault.AtJob? {
        return Raised;
      }
      AddIncident(x);
      r := Inserted;
    }

    method CreateWithJob(x: Item) returns (created: Option<Created>)
      requires Valid()
      modifies this
      ensures Valid() && (View(), created) == Store.CreateWithJob(old(View()), x)
    {
      var jobId := |jobs|;
      var r := TryAdd(x);
      created := if r.Inserted? then Some(Created(x.id, jobId, 1)) else None;
    }

    /** The savepoint loop. */
    method CreateEach(items: seq<Item>) returns (made: Option<seq<Created>>)
      requires Valid()
      modifies this
      ensures Valid() && old(jobs) <= jobs && deliveries == old(deliveries)
      ensures bundles == old(bundles) && results == old(results)
      ensures CreateLoop(old(View()), items) == if made.Some? then Some((View(), made.value)) else None
    {
      ghost var before := View();
      var soFar: seq<Created> := [];
      for n := 0 to |items|
        invariant Valid() && old(jobs) <= jobs && deliveries == old(deliveries)
        invariant bundles == old(bundles) && results == old(results)
        invariant CreateLoop(before, items[..n]) == Some((View(), soFar))
      {
        assert items[..n + 1][..n] == items[..n];
        var jobId := |jobs|;
        var r := TryAdd(items[n]);
        if r.Raised? {
          RaisedStaysRaised(before, items, n + 1);
          return None;
        }
        if r.Inserted? {
          soFar := soFar + [Created(items[n].id, jobId, 1)];
        }
      }
      assert items[..|items|] == items;
      made := Some(soFar);
    }

    /** One transaction around the loop: a raised error undoes all of it. */
    method CreateManyWithJobs(items: seq<Item>) returns (created: Option<seq<Created>>)
      requires Valid()
      modifies this
      ensures Valid() && (View(), created) == CreateMany(old(View()), items)
    {
      var savedIncidents, savedJobs := incidents, jobs;
      created := CreateEach(items);
      if created.None? {
        incidents, jobs := savedIncidents, savedJobs;
      }
    }

    // -------------------------------------------------------------- both queues

    method GrantJob(cfg: Config, worker: string, now: int, next: Option<nat>) returns (claimed: Claimed)
      requires Valid() && (next.Some? ==> next.value < |jobs|)
      modifies this, jobs
      ensures Valid() && (View(), claimed) == Store.GrantJob(old(View()), cfg, worker, now, next)
      ensures jobs == old(jobs) && deliveries == old(deliveries)
    {
      if next.None? {
        return NothingDue;
      }
      if !HasIncident(jobs[next.value].incident) {
        return SourceMissing;
      }
      ClaimAt(jobs, deliveries, next.value, worker, now, cfg.JobPolicy());
      claimed := ClaimedRow(next.value);
    }

    method ClaimJob(cfg: Config, worker: string, now: int, locked: set<nat>) returns (claimed: Claimed)
      requires Valid()
      modifies this, jobs
      ensures Valid() && (View(), claimed) == Store.ClaimJob(old(View()), cfg, worker, now, locked)
      ensures jobs == old(jobs) && deliveries == old(deliveries)
    {
      var next := SelectNext(jobs, now, locked);
      claimed := GrantJob(cfg, worker, now, next);
    }

    method AddOutcome(key: Key, now: int, bundle: EvidenceBundle, analysis: LlmAnalysis)
      requires Valid()
      modifies this
      ensures Valid() && jobs == old(jobs) && |deliveries| == |old(deliveries)| + 1
      ensures View() == old(View()).(
        bundles := old(bundles) + [EvidenceRow(key, bundle)],
        results := old(results) + [ResultRow(key, analysis)],
        deliveries := Views(old(deliveries)) + [NewRow(key.incident, key.revision, now)])
    {
      var delivery := new QueueRow(key.incident, key.revision, now);
      bundles := bundles + [EvidenceRow(key, bundle)];
      results := results + [ResultRow(key, analysis)];
      deliveries := deliveries + [delivery];
      assert Views(deliveries) == old(Views(deliveries)) + [delivery.View()];
    }

    /** The existing-result query, and whether the inserts would meet a constraint. */
    method CheckInserts(key: Key) returns (outcome: Completion)
      ensures outcome == InsertOutcome(View(), key)
    {
      var existing := HasResult(key);
      var bundled := HasBundle(key);
      var queued := HasDelivery(key);
      outcome := if existing then AlreadyStored
                 else if bundled || queued || !HasIncident(key.incident) then ConstraintViolated
                 else Done;
    }

    method CompleteJob(id: nat, key: Key, worker: string, now: int, bundle: EvidenceBundle, analysis: LlmAnalysis)
      returns (outcome: Completion)
      requires Valid()
      modifies this, jobs
      ensures Valid() && (View(), outcome) == Store.CompleteJob(old(View()), id, key, worker, now, bundle, analysis)
      ensures jobs == old(jobs)
    {
      if id >= |jobs| || jobs[id].owner != Some(worker) {
        return OwnershipLost;
      }
      outcome := CheckInserts(key);
      if outcome.ConstraintViolated? {
        return;
      }
      if outcome.Done? {
        AddOutcome(key, now, bundle, analysis);
      }
      CompleteAt(jobs, deliveries, id, now);
    }

    method FailJob(cfg: Config, id: nat, worker: string, now: int, f: Failure)
      requires Valid()
      modifies this, jobs
      ensures Valid() && View() == Store.FailJob(old(View()), cfg, id, worker, now, f)
      ensures jobs == old(jobs) && deliveries == old(deliveries)
    {
      if id >= |jobs| || jobs[id].owner != Some(worker) {
        return;
      }
      FailAt(jobs, deliveries, id, now, f, cfg.JobPolicy());
    }

    /** Whether a delivery's incident and result can be read. */
    method SourcesOf(i: nat) returns (present: bool)
      requires i < |deliveries|
      ensures present <==> HasSources(View(), i)
    {
      var row := deliveries[i];
      StoredIffKey(View(), Key(row.incident, row.revision));
      var analysed := HasResult(Key(row.incident, row.revision));
      present := HasIncident(row.incident) && analysed;
    }

    method GrantDelivery(cfg: Config, worker: string, now: int, next: Option<nat>) returns (claimed: Claimed)
      requires Valid() && (next.Some? ==> next.value < |deliveries|)
      modifies this, deliveries
      ensures Valid() && (View(), claimed) == Store.GrantDelivery(old(View()), cfg, worker, now, next)
      ensures jobs == old(jobs) && deliveries == old(deliveries)
    {
      if next.None? {
        return NothingDue;
      }
      var present := SourcesOf(next.value);
      if !present {
        return SourceMissing;
      }
      ClaimAt(deliveries, jobs, next.value, worker, now, cfg.DeliveryPolicy());
      claimed := ClaimedRow(next.value);
    }

    method ClaimDelivery(cfg: Config, worker: string, now: int, locked: set<nat>) returns (claimed: Claimed)
      requires Valid()
      modifies this, deliveries
      ensures Valid() && (View(), claimed) == Store.ClaimDelivery(old(View()), cfg, worker, now, locked)
      ensures jobs == old(jobs) && deliveries == old(deliveries)
    {
      var next := SelectNext(deliveries, now, locked);
      claimed := GrantDelivery(cfg, worker, now, next);
    }

    method CompleteDelivery(id: nat, worker: string, now: int) returns (outcome: Completion)
      requires Valid()
      modifies this, deliveries
      ensures Valid() && (View(), outcome) == Store.CompleteDelivery(old(View()), id, worker, now)
      ensures jobs == old(jobs) && deliveries == old(deliveries)
    {
      if id >= |deliveries| || deliveries[id].owner != Some(worker) {
        return OwnershipLost;
      }
      CompleteAt(deliveries, jobs, id, now);
      outcome := Done;
    }

    method FailDelivery(cfg: Config, id: nat, worker: string, now: int, f: Failure)
      requires Valid()
      modifies this, deliveries
      ensures Valid() && View() == Store.FailDelivery(old(View()), cfg, id, worker, now, f)
      ensures jobs == old(jobs) && deliveries == old(deliveries)
    {
      if id >= |deliveries| || deliveries[id].owner != Some(worker) {
        return;
      }
      FailAt(deliveries, jobs, id, now, f, cfg.DeliveryPolicy());
    }
  }

  /** Once an item has raised, the loop's outcome is the error whatever follows. */
  lemma {:induction false} RaisedStaysRaised(s: Tables, items: seq<Item>, n: nat)
    requires n <= |items| && CreateLoop(s, items[..n]).None?
    ensures CreateLoop(s, items).None?
    decreases |items|
  {
    if n < |items| {
      assert items[..|items| - 1][..n] == items[..n];
      RaisedStaysRaised(s, items[..|items| - 1], n);
    } else {
      assert items[..n] == items;
    }
  }
}
