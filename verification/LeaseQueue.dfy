/**
 The lease queue that analysis_jobs and notification_deliveries both are: rows that wait,
 are leased to one worker at a time, and end in a terminal state. The two tables differ only
 in their labels and in the delay before a retry, so everything here is proved once.

 Times are microseconds. A row's id is its position in the table: the code uses the
 auto-increment ids only to find a row again and to order rows with equal times.
 */
module LeaseQueue {
  import opened Common

  /** PENDING; ANALYZING or SENDING; SUCCEEDED or SENT; FAILED or DEAD. */
  datatype Status = Pending | Leased | Succeeded | Failed

  /** How a claim ended, if it did. */
  datatype Fate =
    | Open
    | Completed
    | Requeued(delay: int, explicit: bool)
    | GaveUp
    | TakenOver

  /**
   One entry of a row's ledger. Claim number k of a row is entry k - 1. `received` says that Slack
   holds the message sent under the claim, `accepted` that its "ok" also reached the worker.
   */
  datatype Claim = Claim(worker: string, at: int, received: bool, accepted: bool, fate: Fate)

  /** The columns of a row, and the ledger of its claims, which is not a column. */
  datatype Row = Row(
    incident: string,
    revision: int,
    status: Status,
    availableAt: int,
    attempts: nat,
    owner: Option<string>,
    until: Option<int>,
    failure: Option<string>,
    createdAt: int,
    updatedAt: int,
    claims: seq<Claim>)

  datatype Kind = Jobs | Deliveries

  datatype Policy = Policy(kind: Kind, maxAttempts: int, lease: int) {
    predicate Valid() {
      1 <= maxAttempts && 1 <= lease
    }
  }

  /** What fail is told: DeliveryFailure, or a job's failure code with no Retry-After. */
  datatype Failure = Failure(code: string, retryable: bool, retryAfter: Option<int>)

  function Pow2(n: nat): (r: nat)
    ensures r >= 1
  {
    if n == 0 then 1 else 2 * Pow2(n - 1)
  }

  /** Seconds before a retry after the given attempt. */
  function Backoff(kind: Kind, attempt: nat): int {
    match kind
    case Jobs => 5 * attempt
    case Deliveries => Min(5 * Pow2(if attempt == 0 then 0 else attempt - 1), 300)
  }

  function Delay(kind: Kind, attempt: nat, f: Failure): int {
    if kind.Deliveries? && f.retryAfter.Some? then f.retryAfter.value else Backoff(kind, attempt)
  }

  // ---------------------------------------------------------------- steps of one row

  function NewRow(incident: string, revision: int, now: int): Row {
    Row(incident, revision, Pending, now, 0, None, None, None, now, now, [])
  }

  predicate Eligible(r: Row, now: int) {
    && r.availableAt <= now
    && (r.status.Pending? || (r.status.Leased? && r.until.Some? && r.until.value < now))
  }

  function WithFate(claims: seq<Claim>, fate: Fate): seq<Claim> {
    if claims == [] then [] else claims[|claims| - 1 := Last(claims).(fate := fate)]
  }

  function NewClaim(worker: string, now: int): Claim {
    Claim(worker, now, false, false, Open)
  }

  function ClaimRow(r: Row, worker: string, now: int, p: Policy): Row {
    r.(status := Leased,
       attempts := r.attempts + 1,
       owner := Some(worker),
       until := Some(now + p.lease),
       failure := None,
       updatedAt := now,
       claims := (if r.status.Leased? then WithFate(r.claims, TakenOver) else r.claims)
                 + [NewClaim(worker, now)])
  }

  function CompleteRow(r: Row, now: int): Row {
    r.(status := Succeeded,
       owner := None,
       until := None,
       failure := None,
       updatedAt := now,
       claims := WithFate(r.claims, Completed))
  }

  predicate Retries(r: Row, f: Failure, p: Policy) {
    f.retryable && r.attempts < p.maxAttempts
  }

  function FailRow(r: Row, now: int, f: Failure, p: Policy): Row {
    var delay := Delay(p.kind, r.attempts, f) * SECOND;
    r.(status := if Retries(r, f, p) then Pending else Failed,
       availableAt := now + delay,
       owner := None,
       until := None,
       failure := Some(Take(f.code, 64)),
       updatedAt := now,
       claims := WithFate(r.claims,
         if Retries(r, f, p) then Requeued(delay, p.kind.Deliveries? && f.retryAfter.Some?) else GaveUp))
  }

  function Receive(c: Claim, accepted: bool): Claim {
    c.(received := true, accepted := c.accepted || accepted)
  }

  /** Slack received the message sent under claim number `token`: a ledger entry only. */
  function ReceiveRow(r: Row, token: nat, accepted: bool): Row {
    if 1 <= token <= |r.claims|
    then r.(claims := r.claims[token - 1 := Receive(r.claims[token - 1], accepted)])
    else r
  }

  // ---------------------------------------------------------------- the ordered query

  predicate Before(rows: seq<Row>, i: nat, j: nat)
    requires i < |rows| && j < |rows|
  {
    rows[i].availableAt < rows[j].availableAt || (rows[i].availableAt == rows[j].availableAt && i < j)
  }

  predicate Candidate(rows: seq<Row>, now: int, locked: set<nat>, i: nat) {
    i < |rows| && i !in locked && Eligible(rows[i], now)
  }

  /** A scan in id order that keeps the earliest candidate seen so far. */
  function NextRow(rows: seq<Row>, now: int, locked: set<nat>): (r: Option<nat>)
    ensures r.Some? ==> Candidate(rows, now, locked, r.value)
  {
    if rows == [] then None else
    var n := |rows| - 1;
    var best := NextRow(rows[..n], now, locked);
    if !Candidate(rows, now, locked, n) then best
    else if best.None? || rows[n].availableAt < rows[best.value].availableAt then Some(n)
    else best
  }

  /** The query's meaning: first candidate by (available_at, id). */
  ghost predicate IsLeast(rows: seq<Row>, now: int, locked: set<nat>, i: nat) {
    && Candidate(rows, now, locked, i)
    && forall j: nat | Candidate(rows, now, locked, j) && j != i :: Before(rows, i, j)
  }

  lemma {:induction false} ScanFindsLeast(rows: seq<Row>, now: int, locked: set<nat>)
    ensures NextRow(rows, now, locked).None? <==> forall i: nat :: !Candidate(rows, now, locked, i)
    ensures NextRow(rows, now, locked).Some? ==> IsLeast(rows, now, locked, NextRow(rows, now, locked).value)
  {
    if rows != [] {
      var n := |rows| - 1;
      var front := rows[..n];
      ScanFindsLeast(front, now, locked);
      assert forall i: nat | i < n :: Candidate(rows, now, locked, i) <==> Candidate(front, now, locked, i);
      var best := NextRow(front, now, locked);
      if best.None? {
        assert forall i: nat | Candidate(rows, now, locked, i) :: i == n;
      } else {
        assert forall j: nat | j < n && Candidate(rows, now, locked, j) && j != best.value
          :: Before(front, best.value, j);
      }
    }
  }

  lemma LeastComesFirst(rows: seq<Row>, now: int, locked: set<nat>, i: nat, k: nat)
    requires IsLeast(rows, now, locked, i) && Candidate(rows, now, locked, k)
    ensures rows[i].availableAt < rows[k].availableAt || (rows[i].availableAt == rows[k].availableAt && i <= k)
  {
  }

  lemma LeastIsUnique(rows: seq<Row>, now: int, locked: set<nat>, i: nat, k: nat)
    requires IsLeast(rows, now, locked, i) && IsLeast(rows, now, locked, k)
    ensures i == k
  {
    LeastComesFirst(rows, now, locked, i, k);
    LeastComesFirst(rows, now, locked, k, i);
  }

  /** claim_next picks row i exactly when i is first by (available_at, id) among the candidates. */
  lemma NextRowIffLeast(rows: seq<Row>, now: int, locked: set<nat>, i: nat)
    ensures NextRow(rows, now, locked) == Some(i) <==> IsLeast(rows, now, locked, i)
  {
    ScanFindsLeast(rows, now, locked);
    if IsLeast(rows, now, locked, i) {
      assert Candidate(rows, now, locked, i);
      LeastIsUnique(rows, now, locked, i, NextRow(rows, now, locked).value);
    }
  }

  /** The query in terms of columns: WHERE, SKIP LOCKED, ORDER BY and LIMIT 1. */
  lemma QueryIsExact(rows: seq<Row>, now: int, locked: set<nat>, i: nat)
    requires forall r | r in rows :: r.until.Some? <==> r.status.Leased?
    ensures NextRow(rows, now, locked) == Some(i) <==>
            && i < |rows| && i !in locked && rows[i].availableAt <= now
            && (rows[i].status.Pending? || (rows[i].status.Leased? && rows[i].until.value < now))
            && forall j: nat | j < |rows| && j !in locked && rows[j].availableAt <= now
                               && (rows[j].status.Pending? || (rows[j].status.Leased? && rows[j].until.value < now)) ::
                 rows[i].availableAt < rows[j].availableAt || (rows[i].availableAt == rows[j].availableAt && i <= j)
  {
    NextRowIffLeast(rows, now, locked, i);
    assert forall j: nat | j < |rows| :: rows[j] in rows;
    if IsLeast(rows, now, locked, i) {
      forall j: nat | Candidate(rows, now, locked, j)
        ensures rows[i].availableAt < rows[j].availableAt || (rows[i].availableAt == rows[j].availableAt && i <= j)
      {
        LeastComesFirst(rows, now, locked, i, j);
      }
    }
  }

  // ---------------------------------------------------------------- operations on a table

  datatype Op =
    | Insert(incident: string, revision: int, now: int)
    | Grant(id: nat, worker: string, now: int, locked: set<nat>)
    | Message(id: nat, token: nat, accepted: bool)
    | Finish(id: nat, worker: string, now: int)
    | Release(id: nat, worker: string, now: int, failure: Failure)

  predicate NotBefore(op: Op, t: int) {
    op.Message? || op.now >= t
  }

  function Apply(rows: seq<Row>, op: Op, p: Policy): seq<Row> {
    if op.Insert? then rows + [NewRow(op.incident, op.revision, op.now)]
    else if op.id >= |rows| then rows
    else rows[op.id := ApplyRow(rows[op.id], op, p)]
  }

  function ApplyRow(r: Row, op: Op, p: Policy): Row
    requires !op.Insert?
  {
    match op
    case Grant(_, worker, now, _) => ClaimRow(r, worker, now, p)
    case Message(_, token, accepted) => ReceiveRow(r, token, accepted)
    case Finish(_, _, now) => CompleteRow(r, now)
    case Release(_, _, now, f) => FailRow(r, now, f, p)
  }

  predicate RetryAfterInRange(f: Failure) {
    f.retryAfter.Some? ==> 1 <= f.retryAfter.value <= 3600
  }

  /** What the code and its workers allow: a claim takes the query's row and sends once, outcomes need ownership. */
  predicate LegalRow(r: Row, op: Op, p: Policy) {
    match op
    case Insert(_, _, _) => true
    case Grant(_, _, now, _) => Eligible(r, now)
    case Message(_, token, _) =>
      && p.kind.Deliveries? && 1 <= token <= |r.claims| && !r.claims[token - 1].received
      && (r.claims[token - 1].fate.Open? || r.claims[token - 1].fate.TakenOver?)
    case Finish(_, worker, _) =>
      r.owner == Some(worker) && (p.kind.Deliveries? ==> r.claims != [] && Last(r.claims).accepted)
    case Release(_, worker, _, f) =>
      r.owner == Some(worker) && RetryAfterInRange(f) && r.claims != [] && !Last(r.claims).accepted
  }

  predicate Legal(rows: seq<Row>, op: Op, p: Policy) {
    || op.Insert?
    || (op.id < |rows| && LegalRow(rows[op.id], op, p)
        && (op.Grant? ==> NextRow(rows, op.now, op.locked) == Some(op.id)))
  }

  function ApplyAll(rows: seq<Row>, ops: seq<Op>, p: Policy): seq<Row>
    decreases |ops|
  {
    if ops == [] then rows else ApplyAll(Apply(rows, ops[0], p), ops[1..], p)
  }

  predicate LegalAll(rows: seq<Row>, ops: seq<Op>, p: Policy)
    decreases |ops|
  {
    ops == [] || (Legal(rows, ops[0], p) && LegalAll(Apply(rows, ops[0], p), ops[1..], p))
  }

  lemma {:induction false} ApplyConcat(rows: seq<Row>, a: seq<Op>, b: seq<Op>, p: Policy)
    ensures ApplyAll(rows, a + b, p) == ApplyAll(ApplyAll(rows, a, p), b, p)
    ensures LegalAll(rows, a + b, p) <==> LegalAll(rows, a, p) && LegalAll(ApplyAll(rows, a, p), b, p)
    decreases |a|
  {
    if a == [] {
      assert a + b == b;
    } else {
      assert (a + b)[1..] == a[1..] + b;
      ApplyConcat(Apply(rows, a[0], p), a[1..], b, p);
    }
  }

  lemma ApplyOne(rows: seq<Row>, op: Op, p: Policy)
    ensures ApplyAll(rows, [op], p) == Apply(rows, op, p)
    ensures LegalAll(rows, [op], p) <==> Legal(rows, op, p)
  {
    assert [op][1..] == [];
    assert ApplyAll(Apply(rows, op, p), [], p) == Apply(rows, op, p);
  }

  // ---------------------------------------------------------------- the invariant

  predicate RequeueOk(k: nat, fate: Fate, p: Policy)
    requires fate.Requeued?
  {
    && k + 1 < p.maxAttempts
    && if fate.explicit then p.kind.Deliveries? && SECOND <= fate.delay <= 3600 * SECOND
       else fate.delay == Backoff(p.kind, k + 1) * SECOND
  }

  predicate ClaimOk(cs: seq<Claim>, k: nat, p: Policy)
    requires k < |cs|
  {
    var c := cs[k];
    && (k + 1 < |cs| ==> c.fate.Requeued? || c.fate.TakenOver?)
    && (c.fate.TakenOver? ==> k + 1 < |cs| && cs[k + 1].at > c.at + p.lease)
    && (c.fate.Requeued? ==> RequeueOk(k, c.fate, p))
    && (c.received ==> p.kind.Deliveries?)
    && (c.accepted ==> c.received && !c.fate.Requeued? && !c.fate.GaveUp?)
    && (p.kind.Deliveries? && c.fate.Completed? ==> c.accepted)
  }

  /** The columns agree with the ledger, and the ledger is one the protocol can produce. */
  ghost predicate Consistent(r: Row, p: Policy) {
    && r.attempts == |r.claims|
    && (r.status.Leased? <==> r.owner.Some?)
    && (r.status.Leased? <==> r.until.Some?)
    && (r.claims == [] ==> r.status.Pending? && r.availableAt == r.updatedAt == r.createdAt && r.failure.None?)
    && (r.claims != [] ==>
          var c := Last(r.claims);
          && (r.status.Pending? <==> c.fate.Requeued?)
          && (r.status.Leased? <==> c.fate.Open?)
          && (r.status.Leased? ==> r.owner == Some(c.worker) && r.until == Some(c.at + p.lease))
          && (r.status.Succeeded? <==> c.fate.Completed?)
          && (r.status.Failed? <==> c.fate.GaveUp?)
          && (r.status.Leased? ==> r.updatedAt == c.at)
          && (r.status.Pending? ==> r.availableAt == r.updatedAt + c.fate.delay)
          && (r.failure.Some? <==> c.fate.Requeued? || c.fate.GaveUp?))
    && (r.failure.Some? ==> |r.failure.value| <= 64)
    && forall k: nat | k < |r.claims| :: ClaimOk(r.claims, k, p)
  }

  ghost predicate AllConsistent(rows: seq<Row>, p: Policy) {
    forall i | 0 <= i < |rows| :: Consistent(rows[i], p)
  }

  lemma ConsistentKept(r: Row, op: Op, p: Policy)
    requires p.Valid() && Consistent(r, p) && LegalRow(r, op, p) && !op.Insert?
    ensures Consistent(ApplyRow(r, op, p), p)
  {
    var r' := ApplyRow(r, op, p);
    forall k: nat | k < |r'.claims| ensures ClaimOk(r'.claims, k, p) {
      if k < |r.claims| {
        assert ClaimOk(r.claims, k, p);
        if k + 1 < |r.claims| {
          assert ClaimOk(r.claims, k + 1, p);
        }
      }
    }
  }

  lemma AllConsistentKept(rows: seq<Row>, op: Op, p: Policy)
    requires p.Valid() && AllConsistent(rows, p) && Legal(rows, op, p)
    ensures AllConsistent(Apply(rows, op, p), p)
  {
    if !op.Insert? {
      ConsistentKept(rows[op.id], op, p);
    }
  }

  /** Every run of a queue keeps every row consistent with its ledger. */
  lemma {:induction false} RunKeepsConsistent(rows: seq<Row>, ops: seq<Op>, p: Policy)
    requires p.Valid() && AllConsistent(rows, p) && LegalAll(rows, ops, p)
    ensures AllConsistent(ApplyAll(rows, ops, p), p)
    decreases |ops|
  {
    if ops != [] {
      AllConsistentKept(rows, ops[0], p);
      RunKeepsConsistent(Apply(rows, ops[0], p), ops[1..], p);
    }
  }
}
