/** What the ledger of every row says: conservation, retry and backoff bounds, sends, leases. */
module LeaseLaws {
  import opened Common
  import opened LeaseQueue

  predicate IsTakenOver(c: Claim) { c.fate.TakenOver? }
  predicate IsRequeued(c: Claim) { c.fate.Requeued? }
  predicate IsFailed(c: Claim) { c.fate.Requeued? || c.fate.GaveUp? }
  predicate IsCompleted(c: Claim) { c.fate.Completed? }
  predicate IsOpen(c: Claim) { c.fate.Open? }
  predicate IsReceived(c: Claim) { c.received }
  predicate IsAccepted(c: Claim) { c.accepted }
  predicate IsLost(c: Claim) { c.received && !c.accepted }

  function Takeovers(r: Row): nat { Count(r.claims, IsTakenOver) }
  function Fails(r: Row): nat { Count(r.claims, IsFailed) }
  function Completes(r: Row): nat { Count(r.claims, IsCompleted) }
  function Requeues(r: Row): nat { Count(r.claims, IsRequeued) }

  /** Messages Slack holds; those whose "ok" the worker read; those whose "ok" it did not. */
  function Received(r: Row): nat { Count(r.claims, IsReceived) }
  function Accepted(r: Row): nat { Count(r.claims, IsAccepted) }
  function LostReplies(r: Row): nat { Count(r.claims, IsLost) }

  // ---------------------------------------------------------------- conservation

  ghost predicate EarlierEnded(cs: seq<Claim>) {
    forall k | 0 <= k < |cs| :: cs[k].fate.Requeued? || cs[k].fate.TakenOver?
  }

  lemma {:induction false} EarlierCounts(cs: seq<Claim>)
    requires EarlierEnded(cs)
    ensures Count(cs, IsOpen) == 0 == Count(cs, IsCompleted)
    ensures |cs| == Count(cs, IsFailed) + Count(cs, IsTakenOver)
    ensures Count(cs, IsFailed) == Count(cs, IsRequeued)
  {
    if cs != [] {
      EarlierCounts(cs[..|cs| - 1]);
    }
  }

  /** All claims but the last have been requeued or taken over. */
  lemma FrontEnded(r: Row, p: Policy)
    requires Consistent(r, p) && r.claims != []
    ensures EarlierEnded(r.claims[..|r.claims| - 1])
  {
    forall k | 0 <= k < |r.claims| - 1 ensures r.claims[k].fate.Requeued? || r.claims[k].fate.TakenOver? {
      assert ClaimOk(r.claims, k, p);
    }
  }

  /** attempt_count balances completes, fails, takeovers and the lease still held. */
  lemma AttemptsConserved(r: Row, p: Policy)
    requires Consistent(r, p)
    ensures r.attempts == Completes(r) + Fails(r) + Takeovers(r) + if r.status.Leased? then 1 else 0
    ensures Completes(r) == if r.status.Succeeded? then 1 else 0
  {
    if r.claims != [] {
      FrontEnded(r, p);
      EarlierCounts(r.claims[..|r.claims| - 1]);
      assert ClaimOk(r.claims, |r.claims| - 1, p);
    }
  }

  // ---------------------------------------------------------------- retry bound

  lemma {:induction false} RequeuesBounded(cs: seq<Claim>, max: int)
    requires max >= 1
    requires forall k | 0 <= k < |cs| && cs[k].fate.Requeued? :: k + 1 < max
    ensures Count(cs, IsRequeued) <= max - 1
  {
    if cs != [] && !Last(cs).fate.Requeued? {
      RequeuesBounded(cs[..|cs| - 1], max);
    }
  }

  /** Claims taken from PENDING, that is attempts other than takeovers, never exceed the limit. */
  lemma RetryBound(r: Row, p: Policy)
    requires p.Valid() && Consistent(r, p)
    ensures r.status.Pending? ==> r.attempts < p.maxAttempts
    ensures 0 <= r.attempts - Takeovers(r) <= p.maxAttempts
    ensures Requeues(r) <= p.maxAttempts - 1
    ensures r.attempts - Takeovers(r) == Requeues(r) + if r.status.Pending? then 0 else 1
  {
    forall k | 0 <= k < |r.claims| && r.claims[k].fate.Requeued? ensures k + 1 < p.maxAttempts {
      assert ClaimOk(r.claims, k, p);
    }
    RequeuesBounded(r.claims, p.maxAttempts);
    if r.claims != [] {
      FrontEnded(r, p);
      EarlierCounts(r.claims[..|r.claims| - 1]);
      assert ClaimOk(r.claims, |r.claims| - 1, p);
    }
  }

  /**
   A claim keeps attempt_count within the limit exactly when it does not take over a row that
   has used its attempts up: the query for expired leases has no check of the limit.
   */
  lemma LimitKeptIff(r: Row, worker: string, now: int, p: Policy)
    requires p.Valid() && Consistent(r, p) && Eligible(r, now)
    ensures ClaimRow(r, worker, now, p).attempts <= p.maxAttempts <==> r.status.Pending? || r.attempts < p.maxAttempts
  {
    RetryBound(r, p);
  }

  /** A row's history has kept to the limit iff takeovers took no more than its requeues and last claim left over. */
  lemma WithinLimitIff(r: Row, p: Policy)
    requires p.Valid() && Consistent(r, p)
    ensures r.attempts <= p.maxAttempts <==>
            Takeovers(r) <= p.maxAttempts - Requeues(r) - if r.status.Pending? then 0 else 1
  {
    RetryBound(r, p);
  }

  // ---------------------------------------------------------------- the delay of a retry

  /** Slack's Retry-After is kept to the second, in the column and in the ledger. */
  lemma RetryAfterHonoured(r: Row, now: int, f: Failure, p: Policy)
    requires p.kind.Deliveries? && f.retryAfter.Some? && r.claims != []
    ensures var r' := FailRow(r, now, f, p);
            && r'.availableAt == now + f.retryAfter.value * SECOND
            && (r'.status.Pending? ==> Last(r'.claims).fate == Requeued(f.retryAfter.value * SECOND, true))
  {
  }

  /** Without one a delivery waits 5, 10, 20, ... seconds, at most 300. */
  lemma DeliveryRetryDelay(r: Row, now: int, f: Failure, p: Policy)
    requires p.kind.Deliveries? && f.retryAfter.None? && r.claims != [] && r.attempts >= 1
    ensures var r' := FailRow(r, now, f, p);
            && r'.availableAt == now + Min(5 * Pow2(r.attempts - 1), 300) * SECOND
            && (r'.status.Pending? ==> Last(r'.claims).fate == Requeued(r'.availableAt - now, false))
  {
  }

  /** A job waits five seconds for each attempt it has used. */
  lemma JobRetryDelay(r: Row, now: int, f: Failure, p: Policy)
    requires p.kind.Jobs? && r.claims != []
    ensures var r' := FailRow(r, now, f, p);
            && r'.availableAt == now + 5 * r.attempts * SECOND
            && (r'.status.Pending? ==> Last(r'.claims).fate == Requeued(r'.availableAt - now, false))
  {
  }

  // ---------------------------------------------------------------- backoff totals

  /** Total delay a row has been given by requeues without an explicit Retry-After. */
  function BackoffDelay(cs: seq<Claim>): int {
    if cs == [] then 0
    else BackoffDelay(cs[..|cs| - 1])
         + if Last(cs).fate.Requeued? && !Last(cs).fate.explicit then Last(cs).fate.delay else 0
  }

  function BackoffSum(kind: Kind, n: nat): (total: int)
    ensures total >= 0
  {
    if n == 0 then 0 else BackoffSum(kind, n - 1) + Backoff(kind, n)
  }

  lemma {:induction false} BackoffSumMonotone(kind: Kind, m: nat, n: nat)
    requires m <= n
    ensures BackoffSum(kind, m) <= BackoffSum(kind, n)
    decreases n
  {
    if m < n {
      BackoffSumMonotone(kind, m, n - 1);
    }
  }

  ghost predicate RequeuesOk(cs: seq<Claim>, p: Policy) {
    forall k: nat | k < |cs| && cs[k].fate.Requeued? :: RequeueOk(k, cs[k].fate, p)
  }

  lemma {:induction false} BackoffDelayBounded(cs: seq<Claim>, p: Policy, n: nat)
    requires p.Valid() && RequeuesOk(cs, p) && n == Min(|cs|, p.maxAttempts - 1)
    ensures BackoffDelay(cs) <= BackoffSum(p.kind, n) * SECOND
  {
    if cs != [] {
      var m := Min(|cs| - 1, p.maxAttempts - 1);
      BackoffDelayBounded(cs[..|cs| - 1], p, m);
      BackoffSumMonotone(p.kind, m, n);
      if Last(cs).fate.Requeued? {
        assert RequeueOk(|cs| - 1, Last(cs).fate, p);
      }
    }
  }

  /** 5 + 10 + ... + 5n. */
  lemma {:induction false} JobBackoffTotal(n: nat)
    ensures 2 * BackoffSum(Jobs, n) == 5 * n * (n + 1)
  {
    if n > 0 {
      JobBackoffTotal(n - 1);
    }
  }

  lemma {:induction false} PowBeyond(n: nat)
    requires n >= 6
    ensures Pow2(n) >= 64
  {
    if n == 6 {
      assert Pow2(4) == 16;
    } else {
      PowBeyond(n - 1);
    }
  }

  /** Doubling from 5 until the cap of 300 takes over at the seventh attempt. */
  lemma {:induction false} DeliveryBackoffTotal(n: nat)
    ensures n <= 6 ==> BackoffSum(Deliveries, n) == 5 * (Pow2(n) - 1)
    ensures n >= 6 ==> BackoffSum(Deliveries, n) == 315 + 300 * (n - 6)
  {
    if n > 0 {
      DeliveryBackoffTotal(n - 1);
      if n > 6 {
        PowBeyond(n - 1);
      } else {
        assert Pow2(4) == 16;
        assert n - 1 == 0 || n - 1 == 1 || n - 1 == 2 || n - 1 == 3 || n - 1 == 4 || n - 1 == 5;
      }
    }
  }

  lemma RowRequeuesOk(r: Row, p: Policy)
    requires Consistent(r, p)
    ensures RequeuesOk(r.claims, p)
  {
    forall k: nat | k < |r.claims| && r.claims[k].fate.Requeued? ensures RequeueOk(k, r.claims[k].fate, p) {
      assert ClaimOk(r.claims, k, p);
    }
  }

  lemma BackoffWithinLimit(r: Row, p: Policy)
    requires p.Valid() && Consistent(r, p)
    ensures BackoffDelay(r.claims) <= BackoffSum(p.kind, p.maxAttempts - 1) * SECOND
  {
    RowRequeuesOk(r, p);
    var n := Min(|r.claims|, p.maxAttempts - 1);
    BackoffDelayBounded(r.claims, p, n);
    BackoffSumMonotone(p.kind, n, p.maxAttempts - 1);
  }

  /** Requeue delay over a job's whole life, however often it was taken over in between. */
  lemma JobBackoffBound(r: Row, p: Policy)
    requires p.Valid() && Consistent(r, p) && p.kind.Jobs?
    ensures 2 * BackoffDelay(r.claims) <= 5 * p.maxAttempts * (p.maxAttempts - 1) * SECOND
  {
    BackoffWithinLimit(r, p);
    var m := p.maxAttempts - 1;
    JobBackoffTotal(m);
    assert 5 * m * (m + 1) == 5 * p.maxAttempts * m;
  }

  /** The same for a delivery, apart from the delays that Slack asked for. */
  lemma DeliveryBackoffBound(r: Row, p: Policy)
    requires p.Valid() && Consistent(r, p) && p.kind.Deliveries?
    ensures BackoffDelay(r.claims) <=
      (if p.maxAttempts <= 7 then 5 * (Pow2(p.maxAttempts - 1) - 1) else 315 + 300 * (p.maxAttempts - 7)) * SECOND
    ensures forall k | 0 <= k < |r.claims| && r.claims[k].fate.Requeued? && r.claims[k].fate.explicit ::
      SECOND <= r.claims[k].fate.delay <= 3600 * SECOND
  {
    BackoffWithinLimit(r, p);
    DeliveryBackoffTotal(p.maxAttempts - 1);
    RowRequeuesOk(r, p);
  }

  // ---------------------------------------------------------------- messages

  lemma {:induction false} AcceptedWereTakenOver(cs: seq<Claim>)
    requires forall k | 0 <= k < |cs| && cs[k].accepted :: cs[k].fate.TakenOver?
    ensures Count(cs, IsAccepted) <= Count(cs, IsTakenOver)
  {
    if cs != [] {
      AcceptedWereTakenOver(cs[..|cs| - 1]);
    }
  }

  lemma {:induction false} ReceivedSplit(cs: seq<Claim>)
    requires forall c | c in cs && c.accepted :: c.received
    ensures Count(cs, IsReceived) == Count(cs, IsAccepted) + Count(cs, IsLost)
  {
    if cs != [] {
      ReceivedSplit(cs[..|cs| - 1]);
    }
  }

  /** A message whose "ok" was read is never failed; SENT means that one was. */
  lemma AcceptedBound(r: Row, p: Policy)
    requires Consistent(r, p) && p.kind.Deliveries?
    ensures Accepted(r) <= Takeovers(r) + if r.status.Failed? || r.status.Pending? then 0 else 1
    ensures r.status.Succeeded? ==> Accepted(r) >= 1
    ensures forall c | c in r.claims && c.accepted :: c.received && !IsFailed(c)
  {
    if r.claims != [] {
      var front := r.claims[..|r.claims| - 1];
      FrontEnded(r, p);
      forall k | 0 <= k < |front| && front[k].accepted ensures front[k].fate.TakenOver? {
        assert ClaimOk(r.claims, k, p);
      }
      AcceptedWereTakenOver(front);
      assert ClaimOk(r.claims, |r.claims| - 1, p);
    }
    forall c | c in r.claims && c.accepted ensures c.received && !IsFailed(c) {
      var k :| 0 <= k < |r.claims| && r.claims[k] == c;
      assert ClaimOk(r.claims, k, p);
    }
  }

  /**
   The copies of a message Slack holds: duplicates come from takeovers and from answers the worker
   did not get, and there are never more than claims of a waiting row and takeovers.
   */
  lemma DuplicationBound(r: Row, p: Policy)
    requires p.Valid() && Consistent(r, p) && p.kind.Deliveries?
    ensures Received(r) == Accepted(r) + LostReplies(r)
    ensures Received(r) <= 1 + Takeovers(r) + LostReplies(r)
    ensures Received(r) <= p.maxAttempts + Takeovers(r)
    ensures r.status.Succeeded? ==> 1 + LostReplies(r) <= Received(r)
    ensures r.status.Succeeded? && Takeovers(r) == 0 ==> Received(r) == 1 + LostReplies(r)
    ensures r.status.Failed? || r.status.Pending? ==> Received(r) <= Takeovers(r) + LostReplies(r)
  {
    AcceptedBound(r, p);
    ReceivedSplit(r.claims);
    RetryBound(r, p);
  }

  // ---------------------------------------------------------------- the ledger is the run

  datatype Tally = Tally(grants: nat, takeovers: nat, completes: nat, fails: nat, received: nat, accepted: nat)

  const NOTHING := Tally(0, 0, 0, 0, 0, 0)

  function Plus(a: Tally, b: Tally): Tally {
    Tally(a.grants + b.grants, a.takeovers + b.takeovers, a.completes + b.completes, a.fails + b.fails,
          a.received + b.received, a.accepted + b.accepted)
  }

  function One(b: bool): nat {
    if b then 1 else 0
  }

  function OfClaim(c: Claim): Tally {
    Tally(1, One(IsTakenOver(c)), One(IsCompleted(c)), One(IsFailed(c)), One(IsReceived(c)), One(IsAccepted(c)))
  }

  function OfClaims(cs: seq<Claim>): Tally {
    Tally(|cs|, Count(cs, IsTakenOver), Count(cs, IsCompleted), Count(cs, IsFailed),
          Count(cs, IsReceived), Count(cs, IsAccepted))
  }

  function OfRow(rows: seq<Row>, i: nat): Tally {
    if i < |rows| then OfClaims(rows[i].claims) else NOTHING
  }

  /** What one operation does to its row, read off the operation and the row's status. */
  function OfRowOp(r: Row, op: Op): Tally {
    match op
    case Insert(_, _, _) => NOTHING
    case Grant(_, _, _, _) => NOTHING.(grants := 1, takeovers := One(r.status.Leased?))
    case Message(_, _, accepted) => NOTHING.(received := 1, accepted := One(accepted))
    case Finish(_, _, _) => NOTHING.(completes := 1)
    case Release(_, _, _, _) => NOTHING.(fails := 1)
  }

  function OfOp(rows: seq<Row>, op: Op, i: nat): Tally {
    if op.Insert? || op.id != i || i >= |rows| then NOTHING else OfRowOp(rows[i], op)
  }

  function OfRun(rows: seq<Row>, ops: seq<Op>, i: nat, p: Policy): Tally
    decreases |ops|
  {
    if ops == [] then NOTHING
    else Plus(OfOp(rows, ops[0], i), OfRun(Apply(rows, ops[0], p), ops[1..], i, p))
  }

  /** Replacing a claim changes the tally by the two claims' own tallies. */
  lemma ReplaceTally(cs: seq<Claim>, k: nat, c: Claim)
    requires k < |cs|
    ensures Plus(OfClaims(cs[k := c]), OfClaim(cs[k])) == Plus(OfClaims(cs), OfClaim(c))
  {
    hide Count;
    CountReplaced(cs, k, c, IsTakenOver);
    CountReplaced(cs, k, c, IsCompleted);
    CountReplaced(cs, k, c, IsFailed);
    CountReplaced(cs, k, c, IsReceived);
    CountReplaced(cs, k, c, IsAccepted);
  }

  lemma PushTally(cs: seq<Claim>, c: Claim)
    ensures OfClaims(cs + [c]) == Plus(OfClaims(cs), OfClaim(c))
  {
    hide Count;
    CountPushed(cs, c, IsTakenOver);
    CountPushed(cs, c, IsCompleted);
    CountPushed(cs, c, IsFailed);
    CountPushed(cs, c, IsReceived);
    CountPushed(cs, c, IsAccepted);
  }

  lemma RowStepTally(r: Row, op: Op, p: Policy)
    requires Consistent(r, p) && LegalRow(r, op, p) && !op.Insert?
    ensures OfClaims(ApplyRow(r, op, p).claims) == Plus(OfClaims(r.claims), OfRowOp(r, op))
  {
    hide OfClaims;
    var cs, last := r.claims, |r.claims| - 1;
    match op
    case Message(_, token, accepted) =>
      assert ClaimOk(cs, token - 1, p);
      ReplaceTally(cs, token - 1, Receive(cs[token - 1], accepted));
    case Finish(_, _, _) => ReplaceTally(cs, last, Last(cs).(fate := Completed));
    case Release(_, _, now, f) => ReplaceTally(cs, last, Last(FailRow(r, now, f, p).claims));
    case Grant(_, worker, now, _) =>
      if r.status.Leased? {
        ReplaceTally(cs, last, Last(cs).(fate := TakenOver));
        PushTally(WithFate(cs, TakenOver), NewClaim(worker, now));
      } else {
        PushTally(cs, NewClaim(worker, now));
      }
  }

  lemma StepTally(rows: seq<Row>, op: Op, i: nat, p: Policy)
    requires AllConsistent(rows, p) && Legal(rows, op, p)
    ensures OfRow(Apply(rows, op, p), i) == Plus(OfRow(rows, i), OfOp(rows, op, i))
  {
    hide ApplyRow, LegalRow, Consistent, OfRowOp, OfClaims, NextRow, Plus;
    var next := Apply(rows, op, p);
    if i < |rows| && !op.Insert? && op.id == i {
      assert next[i] == ApplyRow(rows[i], op, p);
      RowStepTally(rows[i], op, p);
    } else {
      NothingAdded(OfRow(rows, i));
      if i < |rows| {
        assert next[i] == rows[i];
      } else if i < |next| {
        NoClaims(next[i].claims);
      }
    }
  }

  lemma NoClaims(cs: seq<Claim>)
    requires cs == []
    ensures OfClaims(cs) == NOTHING
  {
  }

  lemma NothingAdded(a: Tally)
    ensures Plus(a, NOTHING) == a == Plus(NOTHING, a)
  {
  }

  lemma PlusAssociative(a: Tally, b: Tally, c: Tally)
    ensures Plus(Plus(a, b), c) == Plus(a, Plus(b, c))
  {
  }

  /** The ledger of a row counts exactly the operations of the run that acted on it. */
  lemma {:induction false} LedgerIsTheRun(rows: seq<Row>, ops: seq<Op>, i: nat, p: Policy)
    requires p.Valid() && AllConsistent(rows, p) && LegalAll(rows, ops, p)
    ensures OfRow(ApplyAll(rows, ops, p), i) == Plus(OfRow(rows, i), OfRun(rows, ops, i, p))
    decreases |ops|
  {
    hide Apply, Legal, OfRow, OfOp, Plus;
    NothingAdded(OfRow(rows, i));
    if ops != [] {
      var next := Apply(rows, ops[0], p);
      var rest := OfRun(next, ops[1..], i, p);
      StepTally(rows, ops[0], i, p);
      AllConsistentKept(rows, ops[0], p);
      LedgerIsTheRun(next, ops[1..], i, p);
      PlusAssociative(OfRow(rows, i), OfOp(rows, ops[0], i), rest);
    }
  }

  // ---------------------------------------------------------------- columns belong to the last transaction

  /** A claim or an outcome of row i. */
  predicate Touches(op: Op, i: nat) {
    !op.Insert? && !op.Message? && op.id == i
  }

  function LastTouch(ops: seq<Op>, i: nat): Option<Op> {
    if ops == [] then None
    else if Touches(Last(ops), i) then Some(Last(ops))
    else LastTouch(ops[..|ops| - 1], i)
  }

  /** Where in the run row i was last given back by fail. */
  function LastRelease(ops: seq<Op>, i: nat): (at: Option<nat>)
    ensures at.Some? ==> at.value < |ops| && ops[at.value].Release?
  {
    if ops == [] then None
    else if Last(ops).Release? && Last(ops).id == i then Some(|ops| - 1)
    else LastRelease(ops[..|ops| - 1], i)
  }

  lemma ApplyAllPushed(rows: seq<Row>, ops: seq<Op>, p: Policy)
    requires ops != []
    ensures ApplyAll(rows, ops, p) == Apply(ApplyAll(rows, ops[..|ops| - 1], p), Last(ops), p)
  {
    hide Apply, ApplyAll;
    var front, last := ops[..|ops| - 1], Last(ops);
    assert ops == front + [last];
    ApplyConcat(rows, front, [last], p);
    ApplyOne(ApplyAll(rows, front, p), last, p);
  }

  /** What the last claim or outcome of a row leaves in its columns. */
  predicate LeftBy(r: Row, op: Op, p: Policy) {
    match op
    case Grant(_, worker, now, _) =>
      && r.status.Leased? && r.owner == Some(worker) && r.until == Some(now + p.lease)
      && r.failure.None? && r.updatedAt == now
    case Finish(_, _, now) =>
      && r.status.Succeeded? && r.owner.None? && r.until.None?
      && r.failure.None? && r.updatedAt == now
    case Release(_, _, now, f) =>
      && (r.status == if Retries(r, f, p) then Pending else Failed) && r.owner.None? && r.until.None?
      && r.failure == Some(Take(f.code, 64)) && r.updatedAt == now
    case _ => false
  }

  /**
   After a run a row's status, lease, failure code and update time are those of its last claim
   or outcome; its time to run is set by its last fail alone; its identity never changes.
   */
  lemma {:induction false} ColumnsOfRun(rows: seq<Row>, ops: seq<Op>, i: nat, p: Policy)
    requires i < |rows|
    ensures i < |ApplyAll(rows, ops, p)|
    ensures var r := ApplyAll(rows, ops, p)[i];
            && r.incident == rows[i].incident && r.revision == rows[i].revision && r.createdAt == rows[i].createdAt
            && (LastTouch(ops, i).None? ==> r.(claims := rows[i].claims) == rows[i])
            && (LastTouch(ops, i).Some? ==> LeftBy(r, LastTouch(ops, i).value, p))
            && (LastRelease(ops, i).None? ==> r.availableAt == rows[i].availableAt)
    ensures LastRelease(ops, i).Some? ==>
              var k := LastRelease(ops, i).value;
              var before := ApplyAll(rows, ops[..k], p);
              && i < |before|
              && ApplyAll(rows, ops, p)[i].availableAt
                 == ops[k].now + Delay(p.kind, before[i].attempts, ops[k].failure) * SECOND
  {
    hide Apply, Delay;
    if ops != [] {
      var front, last := ops[..|ops| - 1], Last(ops);
      ColumnsOfRun(rows, front, i, p);
      ApplyAllPushed(rows, ops, p);
      var k := LastRelease(front, i);
      if k.Some? {
        assert ops[..k.value] == front[..k.value] && ops[k.value] == front[k.value];
      }
      ColumnsOfStep(ApplyAll(rows, front, p), last, i, p);
    }
  }

  /** The same for one operation. */
  lemma ColumnsOfStep(rows: seq<Row>, op: Op, i: nat, p: Policy)
    requires i < |rows|
    ensures i < |Apply(rows, op, p)|
    ensures var r, r' := rows[i], Apply(rows, op, p)[i];
            && r'.incident == r.incident && r'.revision == r.revision && r'.createdAt == r.createdAt
            && (!Touches(op, i) ==> r'.(claims := r.claims) == r)
            && (Touches(op, i) ==> LeftBy(r', op, p))
            && r'.availableAt == if op.Release? && op.id == i
                                 then op.now + Delay(p.kind, r.attempts, op.failure) * SECOND
                                 else r.availableAt
  {
  }

  // ---------------------------------------------------------------- lease exclusion

  /** Times of a run that never go back, starting at t. */
  predicate Clock(ops: seq<Op>, t: int)
    decreases |ops|
  {
    ops == [] || (NotBefore(ops[0], t) && Clock(ops[1..], TimeAfter(ops[0], t)))
  }

  function TimeAfter(op: Op, t: int): int {
    if op.Message? then t else op.now
  }

  function EndTime(ops: seq<Op>, t: int): int
    decreases |ops|
  {
    if ops == [] then t else EndTime(ops[1..], TimeAfter(ops[0], t))
  }

  ghost predicate Chronological(cs: seq<Claim>, t: int) {
    && (forall i, j | 0 <= i < j < |cs| :: cs[i].at <= cs[j].at)
    && (forall i | 0 <= i < |cs| :: cs[i].at <= t)
  }

  ghost predicate AllChronological(rows: seq<Row>, t: int) {
    forall i | 0 <= i < |rows| :: Chronological(rows[i].claims, t)
  }

  lemma RowStepChronological(r: Row, op: Op, t: int, p: Policy)
    requires Chronological(r.claims, t) && NotBefore(op, t) && !op.Insert?
    ensures Chronological(ApplyRow(r, op, p).claims, TimeAfter(op, t))
  {
  }

  lemma StepChronological(rows: seq<Row>, op: Op, t: int, p: Policy)
    requires AllChronological(rows, t) && NotBefore(op, t)
    ensures AllChronological(Apply(rows, op, p), TimeAfter(op, t))
  {
    hide ApplyRow;
    if !op.Insert? && op.id < |rows| {
      RowStepChronological(rows[op.id], op, t, p);
    }
  }

  lemma {:induction false} RunChronological(rows: seq<Row>, ops: seq<Op>, t: int, p: Policy)
    requires AllChronological(rows, t) && Clock(ops, t)
    ensures AllChronological(ApplyAll(rows, ops, p), EndTime(ops, t))
    decreases |ops|
  {
    hide AllChronological, Apply;
    if ops != [] {
      StepChronological(rows, ops[0], t, p);
      RunChronological(Apply(rows, ops[0], p), ops[1..], TimeAfter(ops[0], t), p);
    }
  }

  /** The worker of claim c has not reported and its lease covers `now`. */
  predicate Live(c: Claim, now: int, p: Policy) {
    (c.fate.Open? || c.fate.TakenOver?) && c.at <= now <= c.at + p.lease
  }

  /** At no time do two claims of one row hold live leases. */
  lemma LeaseExclusion(r: Row, now: int, t: int, j: nat, k: nat, p: Policy)
    requires Consistent(r, p) && Chronological(r.claims, t)
    requires j < |r.claims| && k < |r.claims| && j != k
    ensures !(Live(r.claims[j], now, p) && Live(r.claims[k], now, p))
  {
    var lo, hi := if j < k then j else k, if j < k then k else j;
    assert ClaimOk(r.claims, lo, p);
    if Live(r.claims[lo], now, p) {
      assert r.claims[lo + 1].at > now;
      assert r.claims[lo + 1].at <= r.claims[hi].at;
    }
  }

  /** A leased row is claimed again only strictly after its lease has run out. */
  lemma LeaseBlocksClaims(rows: seq<Row>, now: int, locked: set<nat>, i: nat, p: Policy)
    requires AllConsistent(rows, p) && NextRow(rows, now, locked) == Some(i)
    ensures rows[i].status.Leased? ==> rows[i].claims != [] && now > Last(rows[i].claims).at + p.lease
    ensures rows[i].status.Pending? ==> now >= rows[i].availableAt
  {
    assert Consistent(rows[i], p);
  }
}
