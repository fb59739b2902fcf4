/** Analysis results, their validation, and the decision to ask the model (domain/analysis.py, llm/). */
module Analysis {
  import opened Common
  import opened Evidence

  datatype AnalysisStatus = ANALYZED | INSUFFICIENT_EVIDENCE

  /** A fact, a hypothesis or an excluded candidate: a text and the evidence it rests on. */
  datatype Statement = Statement(text: string, evidenceIds: seq<string>)

  datatype AnalysisResult = AnalysisResult(
    status: AnalysisStatus,
    facts: seq<Statement>,
    hypotheses: seq<Statement>,
    excluded: seq<Statement>,
    missing: seq<string>,
    nextChecks: seq<string>,
    rootCauseConfirmed: bool)

  datatype LlmAnalysis = LlmAnalysis(result: AnalysisResult, provider: string, model: string)

  predicate StatementOk(s: Statement) {
    1 <= |s.text| <= 500 && 1 <= |s.evidenceIds| <= 5
  }

  function Statements(r: AnalysisResult): seq<Statement> {
    r.facts + r.hypotheses + r.excluded
  }

  /** The field bounds and enforce_read_only_conclusion. */
  predicate Valid(r: AnalysisResult) {
    && |r.facts| <= 10 && |r.hypotheses| <= 5 && |r.excluded| <= 5
    && |r.missing| <= 10 && |r.nextChecks| <= 10
    && (forall s | s in Statements(r) :: StatementOk(s))
    && !r.rootCauseConfirmed
    && (r.status.INSUFFICIENT_EVIDENCE? ==> r.hypotheses == [])
  }

  function References(r: AnalysisResult): set<string> {
    set s, id | s in Statements(r) && id in s.evidenceIds :: id
  }

  /** validate_evidence_references raises on the difference being non-empty. */
  predicate ReferencesAllowed(r: AnalysisResult, allowed: set<string>) {
    References(r) - allowed == {}
  }

  /** What came back from Gemini, its own retry included. */
  datatype GeminiReply = Unreachable | NoText | NotSchema | Answer(result: AnalysisResult)

  datatype AnalyzeError = Invalid | Unavailable

  function Analyze(b: EvidenceBundle, model: string, reply: GeminiReply): Result<LlmAnalysis, AnalyzeError> {
    match reply
    case Unreachable => Err(Unavailable)
    case NoText => Err(Invalid)
    case NotSchema => Err(Invalid)
    case Answer(result) =>
      if !Valid(result) || !ReferencesAllowed(result, EvidenceIds(b)) then Err(Invalid)
      else Ok(LlmAnalysis(result, "gemini", model))
  }

  function StatusNames(items: seq<LogEvidence>): seq<string> {
    (if exists e :: e in items && e.status == LIMIT_EXCEEDED then ["LIMIT_EXCEEDED"] else [])
    + (if exists e :: e in items && e.status == NO_DATA then ["NO_DATA"] else [])
    + (if exists e :: e in items && e.status == OK then ["OK"] else [])
    + (if exists e :: e in items && e.status == QUERY_FAILED then ["QUERY_FAILED"] else [])
  }

  function Joined(parts: seq<string>): string {
    if parts == [] then "" else if |parts| == 1 then parts[0] else parts[0] + ", " + Joined(parts[1..])
  }

  function InsufficientEvidence(b: EvidenceBundle): LlmAnalysis {
    LlmAnalysis(
      AnalysisResult(INSUFFICIENT_EVIDENCE, [], [], [],
                     ["Loki evidence status: " + Joined(StatusNames(b.logEvidence))],
                     ["Check Loki collection and the WARN and ERROR logs of the same window"],
                     false),
      "deterministic", "no-llm")
  }

  predicate Useful(b: EvidenceBundle) {
    b.alertEvidence != [] || exists e :: e in b.logEvidence && e.status.OK? && e.count > 0
  }

  /** run_once after collection. `model` is None when the key or the model is not configured. */
  function Decide(b: EvidenceBundle, model: Option<string>, reply: GeminiReply): Result<LlmAnalysis, AnalyzeError> {
    if !Useful(b) then Ok(InsufficientEvidence(b))
    else if model.None? then Err(Invalid)
    else Analyze(b, model.value, reply)
  }

  /** A result that may be stored: well formed, and closed over the ids of its bundle. */
  ghost predicate Storable(b: EvidenceBundle, a: LlmAnalysis) {
    Valid(a.result) && References(a.result) <= EvidenceIds(b)
  }

  lemma DecisionIsStorable(b: EvidenceBundle, model: Option<string>, reply: GeminiReply)
    ensures Decide(b, model, reply).Ok? ==> Storable(b, Decide(b, model, reply).value)
  {
    var d := Decide(b, model, reply);
    if d.Ok? && Useful(b) {
      forall id | id in References(reply.result) ensures id in EvidenceIds(b) {
        assert id !in References(reply.result) - EvidenceIds(b);
      }
    }
  }

  /** Alert data, or a log item that is OK and was seen. */
  ghost predicate WorthAsking(b: EvidenceBundle) {
    b.alertEvidence != []
    || exists i :: 0 <= i < |b.logEvidence| && b.logEvidence[i].status == OK && b.logEvidence[i].count > 0
  }

  lemma UsefulIffWorthAsking(b: EvidenceBundle)
    ensures Useful(b) <==> WorthAsking(b)
  {
    if e :| e in b.logEvidence && e.status.OK? && e.count > 0 {
      var i :| 0 <= i < |b.logEvidence| && b.logEvidence[i] == e;
    }
  }

  /** Gemini is asked exactly when that is worth it; its own answer is stored, and only if it follows the rules. */
  lemma AskedIffWorthAsking(b: EvidenceBundle, model: Option<string>, reply: GeminiReply)
    ensures Decide(b, model, reply)
            == if !WorthAsking(b) then Ok(InsufficientEvidence(b))
               else if model.Some? && reply.Unreachable? then Err(Unavailable)
               else if model.Some? && reply.Answer? && AnswerOk(b, reply.result)
                 then Ok(LlmAnalysis(reply.result, "gemini", model.value))
               else Err(Invalid)
  {
    UsefulIffWorthAsking(b);
    if model.Some? && reply.Answer? {
      AnswerOkIff(b, model.value, reply.result);
    }
  }

  /** Each statement rests on one to five ids of the bundle. */
  ghost predicate Grounded(b: EvidenceBundle, statements: seq<Statement>) {
    forall s | s in statements ::
      && 1 <= |s.text| <= 500 && 1 <= |s.evidenceIds| <= 5
      && forall id | id in s.evidenceIds :: id in EvidenceIds(b)
  }

  /** The rules for an answer, written out. */
  ghost predicate AnswerOk(b: EvidenceBundle, r: AnalysisResult) {
    && |r.facts| <= 10 && |r.hypotheses| <= 5 && |r.excluded| <= 5 && |r.missing| <= 10 && |r.nextChecks| <= 10
    && Grounded(b, r.facts) && Grounded(b, r.hypotheses) && Grounded(b, r.excluded)
    && !r.rootCauseConfirmed
    && (r.status == INSUFFICIENT_EVIDENCE ==> r.hypotheses == [])
  }

  /** What is storable is exactly what follows the rules. */
  lemma StorableIffAnswerOk(b: EvidenceBundle, a: LlmAnalysis)
    ensures Storable(b, a) <==> AnswerOk(b, a.result)
  {
    var r := a.result;
    assert forall s :: s in Statements(r) <==> s in r.facts || s in r.hypotheses || s in r.excluded;
    if Storable(b, a) {
      forall s, id | s in Statements(r) && id in s.evidenceIds ensures id in EvidenceIds(b) {
        assert id in References(r);
      }
    }
  }

  lemma AnswerOkIff(b: EvidenceBundle, model: string, result: AnalysisResult)
    ensures Analyze(b, model, Answer(result)).Ok? <==> AnswerOk(b, result)
  {
    StorableIffAnswerOk(b, LlmAnalysis(result, "gemini", model));
    if ReferencesAllowed(result, EvidenceIds(b)) {
      forall id | id in References(result) ensures id in EvidenceIds(b) {
        assert id !in References(result) - EvidenceIds(b);
      }
    }
  }

  /** The stand-in analysis claims nothing and names the statuses that were collected, in order, once each. */
  lemma InsufficientNamesStatuses(b: EvidenceBundle)
    ensures InsufficientEvidence(b).provider == "deterministic" && InsufficientEvidence(b).model == "no-llm"
    ensures var r := InsufficientEvidence(b).result;
            && r.status == INSUFFICIENT_EVIDENCE && r.facts == r.hypotheses == r.excluded == []
            && r.missing == ["Loki evidence status: " + Joined(StatusNames(b.logEvidence))]
    ensures forall n :: n in StatusNames(b.logEvidence) <==> exists e :: e in b.logEvidence && StatusName(e.status) == n
    ensures forall i, j | 0 <= i < j < |StatusNames(b.logEvidence)| ::
              Less(StatusNames(b.logEvidence)[i], StatusNames(b.logEvidence)[j])
  {
    hide StatusNames, Less, Joined;
    forall n ensures n in StatusNames(b.logEvidence) <==> exists e :: e in b.logEvidence && StatusName(e.status) == n {
      NamedIffCollected(b.logEvidence, n);
    }
    NamesAscend(b.logEvidence);
  }

  lemma NamedIffCollected(items: seq<LogEvidence>, n: string)
    ensures n in StatusNames(items) <==> exists e :: e in items && StatusName(e.status) == n
  {
  }

  lemma NamesAscend(items: seq<LogEvidence>)
    ensures forall i, j | 0 <= i < j < |StatusNames(items)| :: Less(StatusNames(items)[i], StatusNames(items)[j])
  {
    assert Less("LIMIT_EXCEEDED", "NO_DATA") && Less("NO_DATA", "OK") && Less("OK", "QUERY_FAILED");
    LessTransitive("LIMIT_EXCEEDED", "NO_DATA", "OK");
    LessTransitive("LIMIT_EXCEEDED", "OK", "QUERY_FAILED");
    LessTransitive("NO_DATA", "OK", "QUERY_FAILED");
    hide Less;
  }

  /** For useful evidence an answer is accepted exactly when it is storable. */
  lemma AcceptedIffStorable(b: EvidenceBundle, model: string, result: AnalysisResult)
    requires Useful(b)
    ensures Decide(b, Some(model), Answer(result)).Ok? <==> Storable(b, LlmAnalysis(result, "gemini", model))
  {
    if ReferencesAllowed(result, EvidenceIds(b)) {
      forall id | id in References(result) ensures id in EvidenceIds(b) {
        assert id !in References(result) - EvidenceIds(b);
      }
    }
  }
}
