/**
 The tables, and every repository transaction as one atomic step on them
 (persistence/models.py, persistence/repositories.py). A transaction that raises is rolled
 back, so its step returns the tables it was given.
 */
module Store {
  import opened Common
  import opened Evidence
  import opened Analysis
  import opened LeaseQueue

  datatype Incident = Incident(
    id: string,
    dedupKey: string,
    startedAt: int,
    fingerprint: Option<string>,
    payloadVersion: string,
    event: MaskedEvent)

  datatype Key = Key(incident: string, revision: int)

  datatype EvidenceRow = EvidenceRow(key: Key, bundle: EvidenceBundle)

  datatype ResultRow = ResultRow(key: Key, analysis: LlmAnalysis)

  datatype Tables = Tables(
    incidents: seq<Incident>,
    jobs: seq<Row>,
    bundles: seq<EvidenceRow>,
    results: seq<ResultRow>,
    deliveries: seq<Row>)

  const EMPTY := Tables([], [], [], [], [])

  /** The settings the steps depend on; leases in microseconds. */
  datatype Config = Config(jobMax: int, jobLease: int, deliveryMax: int, deliveryLease: int, lokiLimit: nat) {
    predicate Valid() {
      1 <= jobMax && 1 <= jobLease && 1 <= deliveryMax && 1 <= deliveryLease
    }

    function JobPolicy(): Policy {
      Policy(Jobs, jobMax, jobLease)
    }

    function DeliveryPolicy(): Policy {
      Policy(Deliveries, deliveryMax, deliveryLease)
    }
  }

  // ---------------------------------------------------------------- keys

  datatype Episode = Episode(dedupKey: string, startedAt: int)

  function EpisodeOf(i: Incident): Episode {
    Episode(i.dedupKey, i.startedAt)
  }

  function Ids(incidents: seq<Incident>): seq<string> {
    seq(|incidents|, i requires 0 <= i < |incidents| => incidents[i].id)
  }

  function Episodes(incidents: seq<Incident>): seq<Episode> {
    seq(|incidents|, i requires 0 <= i < |incidents| => EpisodeOf(incidents[i]))
  }

  function RowKey(r: Row): Key {
    Key(r.incident, r.revision)
  }

  function RowKeys(rows: seq<Row>): seq<Key> {
    seq(|rows|, i requires 0 <= i < |rows| => RowKey(rows[i]))
  }

  function BundleKeys(s: Tables): seq<Key> {
    seq(|s.bundles|, i requires 0 <= i < |s.bundles| => s.bundles[i].key)
  }

  function ResultKeys(s: Tables): seq<Key> {
    seq(|s.results|, i requires 0 <= i < |s.results| => s.results[i].key)
  }

  // ---------------------------------------------------------------- creation

  datatype Command = Command(
    dedupKey: string,
    startedAt: int,
    fingerprint: Option<string>,
    payloadVersion: string,
    event: MaskedEvent)

  /** Where the database raises something other than the episode's unique key. */
  datatype Fault = NoFault | AtIncident | AtJob

  /** A command with what is drawn for it: a ULID, the clock, and a possible fault. */
  datatype Item = Item(command: Command, id: string, now: int, fault: Fault)

  datatype Created = Created(incidentId: string, jobId: nat, revision: int)

  function CommandEpisode(c: Command): Episode {
    Episode(c.dedupKey, c.startedAt)
  }

  function IncidentFrom(x: Item): Incident {
    Incident(x.id, x.command.dedupKey, x.command.startedAt,
             x.command.fingerprint, x.command.payloadVersion, x.command.event)
  }

  datatype Insertion = Inserted | Duplicate | Raised

  /** A clash of the drawn id is an integrity error too, but not that of the episode key. */
  function TryInsert(s: Tables, x: Item): Insertion {
    if x.fault.AtIncident? || x.id in Ids(s.incidents) then Raised
    else if CommandEpisode(x.command) in Episodes(s.incidents) then Duplicate
    else if x.fault.AtJob? then Raised
    else Inserted
  }

  function WithIncident(s: Tables, x: Item): Tables {
    s.(incidents := s.incidents + [IncidentFrom(x)], jobs := s.jobs + [NewRow(x.id, 1, x.now)])
  }

  /** create_with_job: any integrity error is raised. */
  function CreateWithJob(s: Tables, x: Item): (Tables, Option<Created>) {
    if TryInsert(s, x).Inserted? then (WithIncident(s, x), Some(Created(x.id, |s.jobs|, 1))) else (s, None)
  }

  /** The body of create_many_with_jobs after the given items; None once it has raised. */
  function CreateLoop(s: Tables, items: seq<Item>): Option<(Tables, seq<Created>)> {
    if items == [] then Some((s, [])) else
    var before := CreateLoop(s, items[..|items| - 1]);
    if before.None? then None else
    var (t, created) := before.value;
    match TryInsert(t, Last(items))
    case Raised => None
    case Duplicate => before
    case Inserted => Some((WithIncident(t, Last(items)), created + [Created(Last(items).id, |t.jobs|, 1)]))
  }

  /** The savepoint loop inside one transaction. */
  function CreateMany(s: Tables, items: seq<Item>): (Tables, Option<seq<Created>>) {
    var r := CreateLoop(s, items);
    if r.None? then (s, None) else (r.value.0, Some(r.value.1))
  }

  // ---------------------------------------------------------------- reading rows

  /** session.get by primary key. */
  function IncidentOf(incidents: seq<Incident>, id: string): (found: Incident)
    requires id in Ids(incidents)
    ensures found in incidents && found.id == id
  {
    if Last(incidents).id == id then Last(incidents)
    else
      assert forall i | 0 <= i < |incidents| - 1 :: Ids(incidents)[i] == Ids(incidents[..|incidents| - 1])[i];
      IncidentOf(incidents[..|incidents| - 1], id)
  }

  lemma {:induction false} IncidentOfFinds(incidents: seq<Incident>, i: nat)
    requires Distinct(Ids(incidents)) && i < |incidents|
    ensures incidents[i].id in Ids(incidents) && IncidentOf(incidents, incidents[i].id) == incidents[i]
  {
    assert Ids(incidents)[i] == incidents[i].id;
    if i < |incidents| - 1 {
      var front := incidents[..|incidents| - 1];
      assert forall j | 0 <= j < |front| :: Ids(front)[j] == Ids(incidents)[j];
      assert Ids(incidents)[|incidents| - 1] == Last(incidents).id;
      IncidentOfFinds(front, i);
    }
  }

  predicate IsStored(results: seq<ResultRow>, k: Key) {
    exists i :: 0 <= i < |results| && results[i].key == k
  }

  lemma StoredIffKey(s: Tables, k: Key)
    ensures IsStored(s.results, k) <==> k in ResultKeys(s)
  {
    assert forall i | 0 <= i < |s.results| :: ResultKeys(s)[i] == s.results[i].key;
  }

  /** The result under a unique key. */
  function ResultOf(results: seq<ResultRow>, k: Key): (found: ResultRow)
    requires IsStored(results, k)
    ensures found in results && found.key == k
  {
    if Last(results).key == k then Last(results)
    else
      assert forall i | 0 <= i < |results| - 1 :: results[..|results| - 1][i] == results[i];
      ResultOf(results[..|results| - 1], k)
  }

  lemma {:induction false} ResultOfFinds(s: Tables, i: nat)
    requires Distinct(ResultKeys(s)) && i < |s.results|
    ensures IsStored(s.results, s.results[i].key) && ResultOf(s.results, s.results[i].key) == s.results[i]
    decreases |s.results|
  {
    if i < |s.results| - 1 {
      var front := s.(results := s.results[..|s.results| - 1]);
      assert forall j | 0 <= j < |front.results| :: ResultKeys(front)[j] == ResultKeys(s)[j];
      assert ResultKeys(s)[i] != ResultKeys(s)[|s.results| - 1];
      ResultOfFinds(front, i);
    }
  }

  // ---------------------------------------------------------------- jobs

  datatype Claimed = NothingDue | SourceMissing | ClaimedRow(id: nat)

  /** What claim_next does with the row its query found. */
  function GrantJob(s: Tables, cfg: Config, worker: string, now: int, next: Option<nat>): (Tables, Claimed)
    requires next.Some? ==> next.value < |s.jobs|
  {
    match next
    case None => (s, NothingDue)
    case Some(i) =>
      if s.jobs[i].incident !in Ids(s.incidents) then (s, SourceMissing)
      else (s.(jobs := s.jobs[i := ClaimRow(s.jobs[i], worker, now, cfg.JobPolicy())]), ClaimedRow(i))
  }

  function ClaimJob(s: Tables, cfg: Config, worker: string, now: int, locked: set<nat>): (Tables, Claimed) {
    GrantJob(s, cfg, worker, now, NextRow(s.jobs, now, locked))
  }

  predicate Owns(rows: seq<Row>, id: nat, worker: string) {
    id < |rows| && rows[id].owner == Some(worker)
  }

  datatype Completion = Done | AlreadyStored | ConstraintViolated | OwnershipLost

  /** The existing-result query of complete, and whether its inserts meet a unique or foreign key. */
  function InsertOutcome(s: Tables, key: Key): (outcome: Completion)
    ensures !outcome.OwnershipLost?
  {
    if key in ResultKeys(s) then AlreadyStored
    else if key in BundleKeys(s) || key in RowKeys(s.deliveries) || key.incident !in Ids(s.incidents)
      then ConstraintViolated
    else Done
  }

  /** The inserts and the status change of complete, or the branch it takes instead. */
  function CompleteJob(s: Tables, id: nat, key: Key, worker: string, now: int,
                     bundle: EvidenceBundle, analysis: LlmAnalysis)
    : (Tables, Completion)
  {
    if !Owns(s.jobs, id, worker) then (s, OwnershipLost) else
    var jobs := s.jobs[id := CompleteRow(s.jobs[id], now)];
    match InsertOutcome(s, key)
    case AlreadyStored => (s.(jobs := jobs), AlreadyStored)
    case Done =>
      (s.(jobs := jobs,
          bundles := s.bundles + [EvidenceRow(key, bundle)],
          results := s.results + [ResultRow(key, analysis)],
          deliveries := s.deliveries + [NewRow(key.incident, key.revision, now)]), Done)
    case _ => (s, ConstraintViolated)
  }

  function FailJob(s: Tables, cfg: Config, id: nat, worker: string, now: int, f: Failure): Tables {
    if !Owns(s.jobs, id, worker) then s
    else s.(jobs := s.jobs[id := FailRow(s.jobs[id], now, f, cfg.JobPolicy())])
  }

  // ---------------------------------------------------------------- deliveries

  /** A delivery's incident and result are both there. */
  predicate HasSources(s: Tables, i: nat)
    requires i < |s.deliveries|
  {
    s.deliveries[i].incident in Ids(s.incidents) && IsStored(s.results, RowKey(s.deliveries[i]))
  }

  function GrantDelivery(s: Tables, cfg: Config, worker: string, now: int, next: Option<nat>): (Tables, Claimed)
    requires next.Some? ==> next.value < |s.deliveries|
  {
    match next
    case None => (s, NothingDue)
    case Some(i) =>
      if !HasSources(s, i) then (s, SourceMissing)
      else (s.(deliveries := s.deliveries[i := ClaimRow(s.deliveries[i], worker, now, cfg.DeliveryPolicy())]),
            ClaimedRow(i))
  }

  function ClaimDelivery(s: Tables, cfg: Config, worker: string, now: int, locked: set<nat>): (Tables, Claimed) {
    GrantDelivery(s, cfg, worker, now, NextRow(s.deliveries, now, locked))
  }

  function CompleteDelivery(s: Tables, id: nat, worker: string, now: int): (Tables, Completion) {
    if !Owns(s.deliveries, id, worker) then (s, OwnershipLost)
    else (s.(deliveries := s.deliveries[id := CompleteRow(s.deliveries[id], now)]), Done)
  }

  function FailDelivery(s: Tables, cfg: Config, id: nat, worker: string, now: int, f: Failure): Tables {
    if !Owns(s.deliveries, id, worker) then s
    else s.(deliveries := s.deliveries[id := FailRow(s.deliveries[id], now, f, cfg.DeliveryPolicy())])
  }

  // ---------------------------------------------------------------- the invariant of the tables

  ghost predicate Sound(s: Tables) {
    && Distinct(Ids(s.incidents)) && Distinct(Episodes(s.incidents))
    && OutboxSound(s)
  }

  /**
   Everything except the uniqueness of incidents: what the dedup migration may start from. Results
   may lack a delivery, as those do that were stored before the deliveries table was created.
   */
  ghost predicate OutboxSound(s: Tables) {
    && Distinct(RowKeys(s.jobs)) && Distinct(RowKeys(s.deliveries))
    && Distinct(BundleKeys(s)) && Distinct(ResultKeys(s))
    && (forall j | 0 <= j < |s.jobs| :: s.jobs[j].incident in Ids(s.incidents))
    && (forall k :: k in BundleKeys(s) <==> k in ResultKeys(s))
    && (forall k | k in RowKeys(s.deliveries) :: k in ResultKeys(s))
    && (forall j | 0 <= j < |s.jobs| :: s.jobs[j].status.Succeeded? <==> RowKey(s.jobs[j]) in ResultKeys(s))
    && (forall k | k in ResultKeys(s) :: k in RowKeys(s.jobs))
    && EvidenceClosed(s)
  }

  /** A result is valid and refers only to ids of the bundle under its key. */
  ghost predicate EvidenceClosed(s: Tables) {
    forall i, j | 0 <= i < |s.results| && 0 <= j < |s.bundles| && s.bundles[j].key == s.results[i].key ::
      WellNumbered(s.bundles[j].bundle) && Storable(s.bundles[j].bundle, s.results[i].analysis)
  }

  /** Results that never had a delivery. */
  ghost predicate Undelivered(s: Tables, k: Key) {
    k in ResultKeys(s) && k !in RowKeys(s.deliveries)
  }

  /** How many rows of a table carry a key. */
  function Rows(keys: seq<Key>, k: Key): nat {
    multiset(keys)[k]
  }

  /** A job has succeeded iff its key has one bundle and one result, and one delivery unless it never had any. */
  lemma OutboxExact(s: Tables, j: nat)
    requires OutboxSound(s) && j < |s.jobs|
    ensures var k, n := RowKey(s.jobs[j]), if s.jobs[j].status.Succeeded? then 1 else 0;
            && Rows(BundleKeys(s), k) == n && Rows(ResultKeys(s), k) == n
            && Rows(RowKeys(s.deliveries), k) == if Undelivered(s, k) then 0 else n
  {
    var k := RowKey(s.jobs[j]);
    DistinctOccurrences(BundleKeys(s), k);
    DistinctOccurrences(ResultKeys(s), k);
    DistinctOccurrences(RowKeys(s.deliveries), k);
  }

  /** No table of the outbox has a row for a key without a job. */
  lemma OutboxOnlyForJobs(s: Tables, k: Key)
    requires OutboxSound(s) && k !in RowKeys(s.jobs)
    ensures Rows(BundleKeys(s), k) == 0 && Rows(ResultKeys(s), k) == 0 && Rows(RowKeys(s.deliveries), k) == 0
  {
    assert k !in BundleKeys(s) && k !in RowKeys(s.deliveries);
  }

  /** Every delivery has its own job, so there are never more deliveries than jobs. */
  lemma DeliveriesWithinJobs(s: Tables)
    requires OutboxSound(s)
    ensures |s.deliveries| <= |s.jobs|
  {
    DistinctWithin(RowKeys(s.deliveries), RowKeys(s.jobs));
  }

  // ---------------------------------------------------------------- every step keeps it

  lemma RowKeysKept(rows: seq<Row>, id: nat, r: Row)
    requires id < |rows| && RowKey(r) == RowKey(rows[id])
    ensures RowKeys(rows[id := r]) == RowKeys(rows)
  {
  }

  /** A job step that is not a success touches nothing the outbox invariant speaks of. */
  lemma JobStepKeepsSound(s: Tables, id: nat, r: Row)
    requires Sound(s) && id < |s.jobs| && RowKey(r) == RowKey(s.jobs[id])
    requires !s.jobs[id].status.Succeeded? && !r.status.Succeeded?
    ensures Sound(s.(jobs := s.jobs[id := r]))
  {
    RowKeysKept(s.jobs, id, r);
  }

  lemma DeliveryStepKeepsSound(s: Tables, id: nat, r: Row)
    requires Sound(s) && id < |s.deliveries| && RowKey(r) == RowKey(s.deliveries[id])
    ensures Sound(s.(deliveries := s.deliveries[id := r]))
  {
    RowKeysKept(s.deliveries, id, r);
  }

  lemma IdsPushed(incidents: seq<Incident>, i: Incident)
    ensures Ids(incidents + [i]) == Ids(incidents) + [i.id]
    ensures Episodes(incidents + [i]) == Episodes(incidents) + [EpisodeOf(i)]
  {
  }

  lemma RowKeysPushed(rows: seq<Row>, r: Row)
    ensures RowKeys(rows + [r]) == RowKeys(rows) + [RowKey(r)]
  {
  }

  lemma InsertKeepsSound(s: Tables, x: Item)
    requires Sound(s) && TryInsert(s, x).Inserted?
    ensures Sound(WithIncident(s, x))
  {
    var t := WithIncident(s, x);
    IdsPushed(s.incidents, IncidentFrom(x));
    RowKeysPushed(s.jobs, NewRow(x.id, 1, x.now));
    forall j | 0 <= j < |s.jobs| ensures RowKeys(s.jobs)[j] != Key(x.id, 1) {
      assert s.jobs[j].incident in Ids(s.incidents);
    }
    assert ResultKeys(t) == ResultKeys(s);
    assert BundleKeys(t) == BundleKeys(s);
    assert Key(x.id, 1) !in RowKeys(s.jobs);
  }

  lemma {:induction false} CreateLoopKeepsSound(s: Tables, items: seq<Item>)
    requires Sound(s)
    ensures CreateLoop(s, items).Some? ==> Sound(CreateLoop(s, items).value.0)
  {
    if items != [] {
      var before := CreateLoop(s, items[..|items| - 1]);
      CreateLoopKeepsSound(s, items[..|items| - 1]);
      if before.Some? && TryInsert(before.value.0, Last(items)).Inserted? {
        InsertKeepsSound(before.value.0, Last(items));
      }
    }
  }

  lemma CompleteKeepsSound(s: Tables, id: nat, worker: string, now: int, bundle: EvidenceBundle, analysis: LlmAnalysis)
    requires Sound(s) && Owns(s.jobs, id, worker) && !s.jobs[id].status.Succeeded?
    requires WellNumbered(bundle) && Storable(bundle, analysis)
    ensures var (t, outcome) := CompleteJob(s, id, RowKey(s.jobs[id]), worker, now, bundle, analysis);
            outcome.Done? && Sound(t)
  {
    var key := RowKey(s.jobs[id]);
    var (t, outcome) := CompleteJob(s, id, key, worker, now, bundle, analysis);
    assert outcome.Done?;
    RowKeysKept(s.jobs, id, CompleteRow(s.jobs[id], now));
    RowKeysPushed(s.deliveries, NewRow(key.incident, key.revision, now));
    assert ResultKeys(t) == ResultKeys(s) + [key];
    assert BundleKeys(t) == BundleKeys(s) + [key];
    assert key !in BundleKeys(s) && key !in RowKeys(s.deliveries);
    forall i, j | 0 <= i < |t.results| && 0 <= j < |t.bundles| && t.bundles[j].key == t.results[i].key
      ensures WellNumbered(t.bundles[j].bundle) && Storable(t.bundles[j].bundle, t.results[i].analysis)
    {
      assert ResultKeys(t)[i] == t.results[i].key && BundleKeys(t)[j] == t.bundles[j].key;
      assert i < |s.results| ==> ResultKeys(s)[i] == t.results[i].key;
      assert j < |s.bundles| ==> BundleKeys(s)[j] == t.bundles[j].key;
    }
    assert RowKeys(t.jobs)[id] == key;
    forall j | 0 <= j < |t.jobs| ensures t.jobs[j].status.Succeeded? <==> RowKey(t.jobs[j]) in ResultKeys(t) {
      assert RowKeys(t.jobs)[j] == RowKeys(s.jobs)[j];
      assert j != id ==> RowKeys(s.jobs)[j] != RowKeys(s.jobs)[id];
    }
  }
}
