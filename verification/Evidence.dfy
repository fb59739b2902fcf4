/** The evidence records an analysis is given (domain/evidence.py, collectors/alert.py). */
module Evidence {
  import opened Common

  datatype EvidenceStatus = OK | NO_DATA | QUERY_FAILED | LIMIT_EXCEEDED

  function StatusName(s: EvidenceStatus): string {
    match s
    case OK => "OK"
    case NO_DATA => "NO_DATA"
    case QUERY_FAILED => "QUERY_FAILED"
    case LIMIT_EXCEEDED => "LIMIT_EXCEEDED"
  }

  datatype LogEvidence = LogEvidence(
    id: string,
    status: EvidenceStatus,
    signature: string,
    count: nat,
    samples: seq<string>)

  datatype AlertEvidence = AlertEvidence(
    id: string,
    alertName: string,
    service: string,
    environment: string,
    route: string,
    severity: string,
    values: map<string, real>)

  datatype EvidenceBundle = EvidenceBundle(
    collectorVersion: string,
    windowStart: int,
    windowEnd: int,
    logEvidence: seq<LogEvidence>,
    alertEvidence: seq<AlertEvidence>,
    truncated: bool)

  /**
   The part of a masked Grafana event that alert evidence is built from. Labels or values that are
   not a dict are None; a value that cannot be read as a float is None in the map.
   */
  datatype MaskedEvent = MaskedEvent(labels: Option<map<string, string>>, values: Option<map<string, Option<real>>>)

  // ---------------------------------------------------------------- ids

  function Digit(d: nat): char
    requires d < 10
  {
    "0123456789"[d]
  }

  function Decimal(n: nat): (s: string)
    ensures s != ""
    ensures n < 10 ==> |s| == 1
    ensures n < 100 ==> |s| <= 2
    ensures n < 1000 ==> |s| <= 3
  {
    if n < 10 then [Digit(n)] else Decimal(n / 10) + [Digit(n % 10)]
  }

  lemma {:induction false} DecimalInjective(m: nat, n: nat)
    requires Decimal(m) == Decimal(n)
    ensures m == n
  {
    assert Last(Decimal(m)) == Last(Decimal(n));
    assert m % 10 == n % 10;
    if m >= 10 && n >= 10 {
      assert Decimal(m)[..|Decimal(m)| - 1] == Decimal(m / 10);
      assert Decimal(n)[..|Decimal(n)| - 1] == Decimal(n / 10);
      DecimalInjective(m / 10, n / 10);
    }
  }

  /** What a decimal numeral stands for. */
  function Value(s: string): int {
    if s == "" then 0 else 10 * Value(s[..|s| - 1]) + (Last(s) as int - '0' as int)
  }

  /** Decimal writes the numeral of its argument, in digits and without a leading zero. */
  lemma {:induction false} DecimalReadsBack(n: nat)
    ensures Value(Decimal(n)) == n
    ensures forall c | c in Decimal(n) :: '0' <= c <= '9'
    ensures n > 0 ==> Decimal(n)[0] != '0'
  {
    if n < 10 {
      assert Value("") == 0;
      assert Decimal(n)[..0] == "";
    } else {
      DecimalReadsBack(n / 10);
      assert Decimal(n)[..|Decimal(n)| - 1] == Decimal(n / 10);
    }
  }

  function LogId(n: nat): string {
    "L" + Decimal(n)
  }

  const ALERT_ID := "A1"

  function LogIds(items: seq<LogEvidence>): set<string> {
    set e | e in items :: e.id
  }

  function AlertIds(items: seq<AlertEvidence>): set<string> {
    set e | e in items :: e.id
  }

  function EvidenceIds(b: EvidenceBundle): set<string> {
    LogIds(b.logEvidence) + AlertIds(b.alertEvidence)
  }

  /** The list is numbered L1, L2, ... in order. */
  ghost predicate Numbered(items: seq<LogEvidence>) {
    forall i | 0 <= i < |items| :: items[i].id == LogId(i + 1)
  }

  lemma NumberedIdsDistinct(items: seq<LogEvidence>, i: nat, j: nat)
    requires Numbered(items) && i < j < |items|
    ensures items[i].id != items[j].id && items[i].id != ALERT_ID
  {
    if items[i].id == items[j].id {
      assert items[i].id[1..] == Decimal(i + 1) && items[j].id[1..] == Decimal(j + 1);
      DecimalInjective(i + 1, j + 1);
    }
    assert items[i].id[0] == 'L';
  }

  // ---------------------------------------------------------------- field bounds

  predicate LogEvidenceOk(e: LogEvidence) {
    |e.signature| <= 512 && e.count <= 200 && |e.samples| <= 2
  }

  /** What every list out of the collector satisfies; 700 is the longest sample cut. */
  predicate WithinFieldLimits(e: LogEvidence) {
    LogEvidenceOk(e) && forall s | s in e.samples :: |s| <= 700
  }

  function Label(labels: map<string, string>, key: string): (value: string)
    ensures key in labels ==> value == labels[key]
    ensures key !in labels ==> value == "unknown"
  {
    if key in labels then labels[key] else "unknown"
  }

  /** The labels that alert evidence quotes, absent ones as "unknown". */
  function Quoted(labels: map<string, string>): seq<string> {
    [Label(labels, "alertname"), Label(labels, "service"), Label(labels, "environment"),
     Label(labels, "route"), Label(labels, "severity")]
  }

  predicate ValuesOk(values: map<string, Option<real>>) {
    |values| <= 10 && forall k | k in values :: values[k].Some?
  }

  /** build_alert_evidence; the error is the model's validation error. */
  function BuildAlertEvidence(e: MaskedEvent): (r: Result<seq<AlertEvidence>, ()>)
    ensures r.Err? <==> e.labels.Some? && ((exists l :: l in Quoted(e.labels.value) && |l| > 256)
                                           || (e.values.Some? && !ValuesOk(e.values.value)))
    ensures r.Ok? ==> (r.value == [] <==> e.labels.None?) && |r.value| <= 1
    ensures r.Ok? && r.value != [] ==>
              var a := r.value[0];
              && a.id == "A1"
              && a.alertName == Label(e.labels.value, "alertname") && a.service == Label(e.labels.value, "service")
              && a.environment == Label(e.labels.value, "environment") && a.route == Label(e.labels.value, "route")
              && a.severity == Label(e.labels.value, "severity")
              && a.values.Keys == (if e.values.None? then {} else e.values.value.Keys)
              && forall k | k in a.values :: e.values.value[k] == Some(a.values[k])
  {
    if e.labels.None? then Ok([]) else
    var q := Quoted(e.labels.value);
    var values := if e.values.None? then map[] else e.values.value;
    if !ValuesOk(values) || |q[0]| > 256 || |q[1]| > 256 || |q[2]| > 256 || |q[3]| > 256 || |q[4]| > 256 then Err(())
    else Ok([AlertEvidence(ALERT_ID, q[0], q[1], q[2], q[3], q[4], map k | k in values :: values[k].value)])
  }

  /** A bundle an analysis may refer to: log ids exactly L1..Lk with k >= 1, and at most A1. */
  ghost predicate WellNumbered(b: EvidenceBundle) {
    && 1 <= |b.logEvidence| <= 20
    && Numbered(b.logEvidence)
    && |b.alertEvidence| <= 1
    && forall a | a in b.alertEvidence :: a.id == ALERT_ID
  }

  /** Such a bundle offers exactly k + (0 or 1) ids. */
  lemma WellNumberedIds(b: EvidenceBundle)
    requires WellNumbered(b)
    ensures EvidenceIds(b) == (set i | 1 <= i <= |b.logEvidence| :: LogId(i))
                              + if b.alertEvidence == [] then {} else {ALERT_ID}
    ensures forall i, j | 0 <= i < j < |b.logEvidence| :: b.logEvidence[i].id != b.logEvidence[j].id
  {
    forall i, j | 0 <= i < j < |b.logEvidence| ensures b.logEvidence[i].id != b.logEvidence[j].id {
      NumberedIdsDistinct(b.logEvidence, i, j);
    }
    var numbered := set i | 1 <= i <= |b.logEvidence| :: LogId(i);
    forall i | 1 <= i <= |b.logEvidence| ensures LogId(i) in LogIds(b.logEvidence) {
      assert b.logEvidence[i - 1].id == LogId(i);
    }
    forall id | id in LogIds(b.logEvidence) ensures id in numbered {
      var k :| 0 <= k < |b.logEvidence| && b.logEvidence[k].id == id;
      assert LogId(k + 1) in numbered;
    }
    if b.alertEvidence != [] {
      assert b.alertEvidence[0] in b.alertEvidence;
      assert AlertIds(b.alertEvidence) == {ALERT_ID};
    }
  }
}
