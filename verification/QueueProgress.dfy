/** Progress of a lease queue: bounded effective steps, what quiescence means, no starvation. */
module QueueProgress {
  import opened Common
  import opened LeaseQueue
  import opened LeaseLaws

  predicate Terminal(r: Row) {
    r.status.Succeeded? || r.status.Failed?
  }

  // ---------------------------------------------------------------- bounded effective steps

  /** Effective steps a row can still take if nobody takes it over. */
  function RowRank(r: Row, p: Policy): int {
    match r.status
    case Pending => 2 * (p.maxAttempts - Requeues(r))
    case Leased => 2 * (p.maxAttempts - Requeues(r)) - 1
    case _ => 0
  }

  function Rank(rows: seq<Row>, p: Policy): int {
    if rows == [] then 0 else Rank(rows[..|rows| - 1], p) + RowRank(Last(rows), p)
  }

  lemma {:induction false} RankReplaced(rows: seq<Row>, i: nat, r: Row, p: Policy)
    requires i < |rows|
    ensures Rank(rows[i := r], p) == Rank(rows, p) - RowRank(rows[i], p) + RowRank(r, p)
  {
    var front := rows[..|rows| - 1];
    if i == |rows| - 1 {
      assert rows[i := r][..|rows| - 1] == front;
    } else {
      assert rows[i := r][..|rows| - 1] == front[i := r];
      RankReplaced(front, i, r, p);
    }
  }

  lemma {:induction false} RankNonNegative(rows: seq<Row>, p: Policy)
    requires p.Valid() && AllConsistent(rows, p)
    ensures Rank(rows, p) >= 0
  {
    if rows != [] {
      assert Consistent(Last(rows), p);
      RetryBound(Last(rows), p);
      RankNonNegative(rows[..|rows| - 1], p);
    }
  }

  predicate IsTakeover(rows: seq<Row>, op: Op) {
    op.Grant? && op.id < |rows| && rows[op.id].status.Leased?
  }

  /** A claim of a waiting row or an outcome: everything that changes a row except a takeover. */
  predicate IsEffective(rows: seq<Row>, op: Op) {
    (op.Grant? && !IsTakeover(rows, op)) || op.Finish? || op.Release?
  }

  lemma RequeuesAfterOutcome(cs: seq<Claim>, fate: Fate)
    requires cs != [] && Last(cs).fate.Open?
    ensures Count(WithFate(cs, fate), IsRequeued) == Count(cs, IsRequeued) + if fate.Requeued? then 1 else 0
  {
    CountLastReplaced(cs, Last(cs).(fate := fate), IsRequeued);
  }

  lemma RequeuesAfterGrant(r: Row, worker: string, now: int, p: Policy)
    requires Consistent(r, p) && (r.status.Leased? || r.status.Pending?)
    ensures Requeues(ClaimRow(r, worker, now, p)) == Requeues(r)
  {
    var kept := r.claims;
    if r.status.Leased? {
      RequeuesAfterOutcome(r.claims, TakenOver);
      kept := WithFate(r.claims, TakenOver);
    }
    CountPushed(kept, NewClaim(worker, now), IsRequeued);
  }

  /** Takeovers and sends leave the rank of a row alone; every other step lowers it. */
  lemma RowRankFalls(r: Row, op: Op, p: Policy)
    requires p.Valid() && Consistent(r, p) && LegalRow(r, op, p) && !op.Insert?
    ensures RowRank(ApplyRow(r, op, p), p) <= RowRank(r, p)
    ensures !op.Message? && !(op.Grant? && r.status.Leased?) ==> RowRank(ApplyRow(r, op, p), p) < RowRank(r, p)
    ensures op.Message? || (op.Grant? && r.status.Leased?) ==> RowRank(ApplyRow(r, op, p), p) == RowRank(r, p)
  {
    RetryBound(r, p);
    match op
    case Message(_, token, accepted) =>
      CountReplaced(r.claims, token - 1, Receive(r.claims[token - 1], accepted), IsRequeued);
    case Finish(_, _, _) => RequeuesAfterOutcome(r.claims, Completed);
    case Release(_, _, now, f) => RequeuesAfterOutcome(r.claims, Last(FailRow(r, now, f, p).claims).fate);
    case Grant(_, worker, now, _) => RequeuesAfterGrant(r, worker, now, p);
  }

  lemma RankStep(rows: seq<Row>, op: Op, p: Policy)
    requires p.Valid() && AllConsistent(rows, p) && Legal(rows, op, p)
    ensures Rank(Apply(rows, op, p), p) + (if IsEffective(rows, op) then 1 else 0)
            <= Rank(rows, p) + if op.Insert? then 2 * p.maxAttempts else 0
  {
    if op.Insert? {
      var r := NewRow(op.incident, op.revision, op.now);
      assert Requeues(r) == 0;
      assert (rows + [r])[..|rows|] == rows;
    } else {
      assert Consistent(rows[op.id], p);
      RowRankFalls(rows[op.id], op, p);
      RankReplaced(rows, op.id, ApplyRow(rows[op.id], op, p), p);
    }
  }

  function Effective(rows: seq<Row>, ops: seq<Op>, p: Policy): nat
    decreases |ops|
  {
    if ops == [] then 0
    else (if IsEffective(rows, ops[0]) then 1 else 0) + Effective(Apply(rows, ops[0], p), ops[1..], p)
  }

  function Inserts(ops: seq<Op>): nat {
    if ops == [] then 0 else (if ops[0].Insert? then 1 else 0) + Inserts(ops[1..])
  }

  /** The rank that the insertions of a run bring in. */
  function Budget(ops: seq<Op>, p: Policy): int {
    if ops == [] then 0 else (if ops[0].Insert? then 2 * p.maxAttempts else 0) + Budget(ops[1..], p)
  }

  lemma {:induction false} BudgetOfInserts(ops: seq<Op>, p: Policy)
    ensures Budget(ops, p) == 2 * p.maxAttempts * Inserts(ops)
  {
    if ops != [] {
      BudgetOfInserts(ops[1..], p);
      var m, n := 2 * p.maxAttempts, Inserts(ops[1..]);
      assert m * (n + 1) == m * n + m;
    }
  }

  /** Over any run, effective steps other than takeovers are paid for by rank: 2 * limit a row. */
  lemma {:induction false} EffectiveStepsBounded(rows: seq<Row>, ops: seq<Op>, p: Policy)
    requires p.Valid() && AllConsistent(rows, p) && LegalAll(rows, ops, p)
    ensures Rank(ApplyAll(rows, ops, p), p) + Effective(rows, ops, p) <= Rank(rows, p) + Budget(ops, p)
    decreases |ops|
  {
    if ops != [] {
      RankStep(rows, ops[0], p);
      AllConsistentKept(rows, ops[0], p);
      EffectiveStepsBounded(Apply(rows, ops[0], p), ops[1..], p);
    }
  }

  lemma {:induction false} InsertsCountRows(rows: seq<Row>, ops: seq<Op>, p: Policy)
    ensures |ApplyAll(rows, ops, p)| == |rows| + Inserts(ops)
    decreases |ops|
  {
    if ops != [] {
      InsertsCountRows(Apply(rows, ops[0], p), ops[1..], p);
    }
  }

  // ---------------------------------------------------------------- work left for one worker

  predicate IsLeased(r: Row) { r.status.Leased? }

  /** The rank, and one takeover for each row somebody else has leased. */
  function WorkLeft(rows: seq<Row>, p: Policy): int {
    Rank(rows, p) + Count(rows, IsLeased)
  }

  /** Only an outcome lowers it, and by two: its claim has paid with a lease. */
  lemma WorkLeftStep(rows: seq<Row>, op: Op, p: Policy)
    requires p.Valid() && AllConsistent(rows, p) && Legal(rows, op, p) && !op.Insert?
    ensures WorkLeft(Apply(rows, op, p), p) + (if op.Finish? || op.Release? then 2 else 0) <= WorkLeft(rows, p)
  {
    var r, r' := rows[op.id], ApplyRow(rows[op.id], op, p);
    assert Consistent(r, p);
    RowRankFalls(r, op, p);
    RankReplaced(rows, op.id, r', p);
    CountReplaced(rows, op.id, r', IsLeased);
  }

  lemma {:induction false} WorkLeftBounds(rows: seq<Row>, p: Policy)
    requires p.Valid() && AllConsistent(rows, p)
    ensures 0 <= WorkLeft(rows, p) <= 2 * p.maxAttempts * |rows|
  {
    if rows != [] {
      var n, m := |rows| - 1, 2 * p.maxAttempts;
      assert Consistent(Last(rows), p);
      RetryBound(Last(rows), p);
      WorkLeftBounds(rows[..n], p);
      assert m * (n + 1) == m * n + m;
    }
  }

  // ---------------------------------------------------------------- quiescence

  /** From this time on a row that is not terminal and stays as it is can be claimed. */
  function DueAt(r: Row): int {
    if r.until.Some? then Max(r.availableAt, r.until.value + 1) else r.availableAt
  }

  lemma BecomesEligible(r: Row, now: int, p: Policy)
    requires Consistent(r, p) && !Terminal(r)
    ensures Eligible(r, now) <==> now >= DueAt(r)
  {
  }

  /** From the time on that a row is due, a claim that finds no locks finds something. */
  lemma SomethingDue(rows: seq<Row>, p: Policy, i: nat, now: int)
    requires AllConsistent(rows, p) && i < |rows| && !Terminal(rows[i]) && now >= DueAt(rows[i])
    ensures NextRow(rows, now, {}).Some?
  {
    BecomesEligible(rows[i], now, p);
    assert Candidate(rows, now, {}, i);
    ScanFindsLeast(rows, now, {});
  }

  /** The queue never again has anything to claim exactly when every row has reached an end state. */
  lemma QuiescentIffTerminal(rows: seq<Row>, p: Policy)
    requires AllConsistent(rows, p)
    ensures (forall now: int :: NextRow(rows, now, {}).None?) <==> forall i | 0 <= i < |rows| :: Terminal(rows[i])
  {
    if i :| 0 <= i < |rows| && !Terminal(rows[i]) {
      SomethingDue(rows, p, i, DueAt(rows[i]));
    }
  }

  /** End states absorb: no legal operation changes such a row's columns or ledger, a late send apart. */
  lemma TerminalAbsorbs(rows: seq<Row>, op: Op, i: nat, p: Policy)
    requires AllConsistent(rows, p) && Legal(rows, op, p) && i < |rows| && Terminal(rows[i])
    ensures var r := Apply(rows, op, p)[i]; r == rows[i] || (op.Message? && r.(claims := rows[i].claims) == rows[i])
  {
    assert Consistent(rows[i], p);
  }

  /** Through a whole run the columns of an ended row stay as they are. */
  lemma {:induction false} RunKeepsTerminal(rows: seq<Row>, ops: seq<Op>, i: nat, p: Policy)
    requires p.Valid() && AllConsistent(rows, p) && LegalAll(rows, ops, p) && i < |rows| && Terminal(rows[i])
    ensures i < |ApplyAll(rows, ops, p)|
    ensures ApplyAll(rows, ops, p)[i].(claims := rows[i].claims) == rows[i]
    decreases |ops|
  {
    if ops != [] {
      TerminalAbsorbs(rows, ops[0], i, p);
      AllConsistentKept(rows, ops[0], p);
      RunKeepsTerminal(Apply(rows, ops[0], p), ops[1..], i, p);
    }
  }

  // ---------------------------------------------------------------- no starvation

  /** Rows that still matter and that the query orders before row r. */
  ghost function Ahead(rows: seq<Row>, r: nat): set<nat>
    requires r < |rows|
  {
    set i: nat | i < |rows| && !Terminal(rows[i]) && Before(rows, i, r)
  }

  ghost function WaitingAhead(rows: seq<Row>, r: nat): set<nat>
    requires r < |rows|
  {
    set i: nat | i < |rows| && rows[i].status.Pending? && Before(rows, i, r)
  }

  lemma DelayPositive(kind: Kind, attempt: nat, f: Failure)
    requires attempt >= 1 && RetryAfterInRange(f)
    ensures Delay(kind, attempt, f) >= 1
  {
  }

  /** Once row r is due, nothing enters the set of rows ahead of it: new rows are later, retries too. */
  lemma AheadNeverGrows(rows: seq<Row>, op: Op, r: nat, t: int, p: Policy)
    requires AllConsistent(rows, p) && Legal(rows, op, p) && NotBefore(op, t)
    requires r < |rows| && rows[r].availableAt <= t && Apply(rows, op, p)[r] == rows[r]
    ensures Ahead(Apply(rows, op, p), r) <= Ahead(rows, r)
    ensures WaitingAhead(Apply(rows, op, p), r) <= WaitingAhead(rows, r)
  {
    if op.Release? {
      assert Consistent(rows[op.id], p);
      DelayPositive(p.kind, rows[op.id].attempts, op.failure);
    }
  }

  /** A claim made while r is due and not locked takes r itself or a row ahead of r. */
  lemma OvertakerIsAhead(rows: seq<Row>, op: Op, r: nat, p: Policy)
    requires Legal(rows, op, p) && op.Grant? && op.id != r
    requires r < |rows| && r !in op.locked && Eligible(rows[r], op.now)
    ensures op.id in Ahead(rows, r)
    ensures rows[op.id].status.Pending? ==>
            op.id in WaitingAhead(rows, r) && op.id !in WaitingAhead(Apply(rows, op, p), r)
  {
    NextRowIffLeast(rows, op.now, op.locked, op.id);
    assert Candidate(rows, op.now, op.locked, r);
  }

  /** Row r is left alone by the whole run. */
  predicate Waits(rows: seq<Row>, ops: seq<Op>, r: nat, p: Policy)
    requires r < |rows|
    decreases |ops|
  {
    ops == [] ||
    var next := Apply(rows, ops[0], p);
    next[r] == rows[r] && (ops[0].Grant? ==> ops[0].id != r) && Waits(next, ops[1..], r, p)
  }

  /** The claims made in a run, how many of them were takeovers, and how many found row r locked. */
  function Overtakes(rows: seq<Row>, ops: seq<Op>, p: Policy): nat
    decreases |ops|
  {
    if ops == [] then 0 else (if ops[0].Grant? then 1 else 0) + Overtakes(Apply(rows, ops[0], p), ops[1..], p)
  }

  function TakeoverCount(rows: seq<Row>, ops: seq<Op>, p: Policy): nat
    decreases |ops|
  {
    if ops == [] then 0
    else (if IsTakeover(rows, ops[0]) then 1 else 0) + TakeoverCount(Apply(rows, ops[0], p), ops[1..], p)
  }

  function LockedOut(ops: seq<Op>, r: nat): nat {
    if ops == [] then 0 else (if ops[0].Grant? && r in ops[0].locked then 1 else 0) + LockedOut(ops[1..], r)
  }

  /** One operation while r waits: it overtakes at the cost of a row ahead, a takeover or a lock on r. */
  lemma OvertakesOnce(rows: seq<Row>, op: Op, r: nat, t: int, p: Policy)
    requires AllConsistent(rows, p) && Legal(rows, op, p) && NotBefore(op, t)
    requires r < |rows| && Eligible(rows[r], t) && Apply(rows, op, p)[r] == rows[r] && (op.Grant? ==> op.id != r)
    ensures var next := Apply(rows, op, p);
            && r < |next| && Ahead(next, r) <= Ahead(rows, r)
            && (op.Grant? && r !in op.locked ==> op.id in Ahead(rows, r))
            && (if op.Grant? then 1 else 0) + |WaitingAhead(next, r)|
               <= |WaitingAhead(rows, r)| + (if IsTakeover(rows, op) then 1 else 0)
                  + if op.Grant? && r in op.locked then 1 else 0
  {
    var next := Apply(rows, op, p);
    AheadNeverGrows(rows, op, r, t, p);
    SubsetSize(WaitingAhead(next, r), WaitingAhead(rows, r));
    if op.Grant? && r !in op.locked {
      OvertakerIsAhead(rows, op, r, p);
      if !IsTakeover(rows, op) {
        SubsetSize(WaitingAhead(next, r), WaitingAhead(rows, r) - {op.id});
      }
    }
  }

  /**
   A row that is due at t and waits through a run whose times are not before t is overtaken only by
   rows ahead of it at the start, each at most once, apart from takeovers and from claims that
   found the row locked by another transaction.
   */
  lemma {:induction false} NoStarvation(rows: seq<Row>, ops: seq<Op>, r: nat, t: int, p: Policy)
    requires p.Valid() && AllConsistent(rows, p) && LegalAll(rows, ops, p)
    requires r < |rows| && Eligible(rows[r], t) && Waits(rows, ops, r, p)
    requires forall op | op in ops :: NotBefore(op, t)
    ensures forall op | op in ops && op.Grant? && r !in op.locked :: op.id in Ahead(rows, r)
    ensures Overtakes(rows, ops, p) <= |WaitingAhead(rows, r)| + TakeoverCount(rows, ops, p) + LockedOut(ops, r)
    decreases |ops|
  {
    hide AllConsistent, Legal, NotBefore, Eligible, Ahead, WaitingAhead, IsTakeover, Apply;
    if ops != [] {
      var op, rest := ops[0], ops[1..];
      assert op in ops && forall o | o in rest :: o in ops;
      AllConsistentKept(rows, op, p);
      OvertakesOnce(rows, op, r, t, p);
      NoStarvation(Apply(rows, op, p), rest, r, t, p);
      assert ops == [op] + rest;
    }
  }

  lemma SubsetSize(a: set<nat>, b: set<nat>)
    requires a <= b
    ensures |a| <= |b|
  {
    assert |b - a| + |a| == |b| by { assert (b - a) + a == b; }
  }
}
