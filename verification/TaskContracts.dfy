/**
 The identity encodings of the shared contracts: fingerprints of task revisions, the executor request
 that must carry it, the correlation key, and equality of executor reports.
 */
module TaskContracts {
  import opened Common
  import opened JsText
  import opened Json
  import opened Base64Url

  // ----- Task work specifications

  datatype TaskWorkSpecification = TaskWorkSpecification(
    body: JsString, fingerprint: JsString, taskId: JsString, title: JsString)

  function VersionPrefix(): JsString {
    Ascii("tr1.")
  }

  function EncodeTaskRevisionFingerprint(normalizedTaskJson: JsString): JsString {
    VersionPrefix() + EncodeBase64Url(EncodeText(normalizedTaskJson))
  }

  function NormalizedTaskJson(body: JsString, title: JsString): JsString {
    Stringify(FrameFor("body", "title"), body, title)
  }

  function FingerprintOf(body: JsString, title: JsString): JsString {
    EncodeTaskRevisionFingerprint(NormalizedTaskJson(body, title))
  }

  /** The schema and its check: non-empty identities and a fingerprint of this very body and title. */
  predicate ValidSpecification(s: TaskWorkSpecification) {
    && s.title != []
    && s.taskId != []
    && s.fingerprint != []
    && s.fingerprint == FingerprintOf(s.body, s.title)
  }

  /** None stands for the exception a schema violation raises. */
  function MakeTaskWorkSpecification(body: JsString, taskId: JsString, title: JsString): Option<TaskWorkSpecification> {
    var s := TaskWorkSpecification(body, FingerprintOf(body, title), taskId, title);
    if ValidSpecification(s) then Some(s) else None
  }

  /** Undoes every stage of the fingerprint: version, base64url, UTF-8, JSON. */
  function DecodeFingerprint(fingerprint: JsString): Option<(JsString, JsString)> {
    match StripPrefix(VersionPrefix(), fingerprint)
    case None => None
    case Some(letters) =>
      match DecodeText(DecodeBase64Url(letters))
      case None => None
      case Some(json) => Parse(FrameFor("body", "title"), json)
  }

  /** The body and title can be read back out of the fingerprint, whatever code units they hold. */
  lemma FingerprintRoundTrip(body: JsString, title: JsString)
    ensures DecodeFingerprint(FingerprintOf(body, title)) == Some((body, title))
  {
    var frame := FrameFor("body", "title");
    var json := Stringify(frame, body, title);
    var letters := EncodeBase64Url(EncodeText(json));
    assert (VersionPrefix() + letters)[|VersionPrefix()|..] == letters;
    DecodeEncodeBase64Url(EncodeText(json));
    FramesArePlain("body", "title");
    StringifyIsWellFormed(frame, body, title);
    DecodeEncodeText(json);
    ParseStringify(frame, body, title);
  }

  /** The fingerprint covers the exact title and body: it is equal exactly when both are. */
  lemma FingerprintCoversContent(left: TaskWorkSpecification, right: TaskWorkSpecification)
    requires ValidSpecification(left) && ValidSpecification(right)
    ensures left.fingerprint == right.fingerprint <==> left.title == right.title && left.body == right.body
  {
    FingerprintRoundTrip(left.body, left.title);
    FingerprintRoundTrip(right.body, right.title);
  }

  /** Construction succeeds exactly on non-empty identities, and gives the only valid specification of its inputs. */
  lemma MakeGivesTheValidSpecification(body: JsString, taskId: JsString, title: JsString, s: TaskWorkSpecification)
    ensures MakeTaskWorkSpecification(body, taskId, title).Some? <==> taskId != [] && title != []
    ensures MakeTaskWorkSpecification(body, taskId, title) == Some(s) <==>
            ValidSpecification(s) && s.body == body && s.taskId == taskId && s.title == title
  {
    assert VersionPrefix() != [];
  }

  // ----- Executor requests

  datatype PlannedTaskAttempt = PlannedTaskAttempt(
    attemptId: JsString, baseSha: JsString, branch: JsString, executor: JsString,
    runId: JsString, taskId: JsString, taskRevision: JsString, worktree: JsString)

  datatype ExecutorRequest = ExecutorRequest(plannedAttempt: PlannedTaskAttempt, specification: TaskWorkSpecification)

  predicate ValidRequest(r: ExecutorRequest) {
    && ValidSpecification(r.specification)
    && r.specification.taskId == r.plannedAttempt.taskId
    && r.specification.fingerprint == r.plannedAttempt.taskRevision
  }

  /** A planned attempt admits at most one specification: no second set of instructions passes its checks. */
  lemma AttemptFixesSpecification(left: ExecutorRequest, right: ExecutorRequest)
    requires ValidRequest(left) && ValidRequest(right)
    requires left.plannedAttempt == right.plannedAttempt
    ensures left == right
  {
    FingerprintCoversContent(left.specification, right.specification);
  }

  // ----- Correlations

  datatype Correlation = Correlation(attemptId: JsString, runId: JsString)

  function CorrelationKey(c: Correlation): JsString {
    Stringify(FrameFor("attemptId", "runId"), c.attemptId, c.runId)
  }

  predicate SameCorrelation(left: Correlation, right: Correlation) {
    left.attemptId == right.attemptId && left.runId == right.runId
  }

  /** The key may stand for the correlation: keys agree exactly when the correlations do. */
  lemma CorrelationKeyIsExact(left: Correlation, right: Correlation)
    ensures CorrelationKey(left) == CorrelationKey(right) <==> SameCorrelation(left, right)
  {
    var frame := FrameFor("attemptId", "runId");
    ParseStringify(frame, left.attemptId, left.runId);
    ParseStringify(frame, right.attemptId, right.runId);
  }

  // ----- Executor reports

  datatype EvidenceReference = EvidenceReference(byteLength: nat, digest: JsString)

  datatype ExecutorResult =
    | Accepted(commit: JsString, evidenceManifest: EvidenceReference)
    | Completed
    | Failed(failureCode: Option<JsString>, observedHead: Option<JsString>)

  datatype Custody = Stopped | Unresolved

  datatype ExecutorReport =
    | WorkExecuting(correlation: Correlation)
    | WorkSafelySuspended(correlation: Correlation)
    | WorkResultRejected(correlation: Correlation, reason: JsString, recoveryCause: JsString, responseCount: nat,
      custody: Custody)
    | WorkTerminal(correlation: Correlation, result: ExecutorResult)

  predicate SameTag(left: ExecutorReport, right: ExecutorReport) {
    && left.WorkExecuting? == right.WorkExecuting?
    && left.WorkSafelySuspended? == right.WorkSafelySuspended?
    && left.WorkResultRejected? == right.WorkResultRejected?
  }

  predicate SameExecutorResult(left: ExecutorResult, right: ExecutorResult) {
    if left.Failed? && right.Failed? then left.failureCode == right.failureCode &&
      left.observedHead == right.observedHead
    else if left.Accepted? && right.Accepted? then
      && left.commit == right.commit
      && left.evidenceManifest.byteLength == right.evidenceManifest.byteLength
      && left.evidenceManifest.digest == right.evidenceManifest.digest
    else left.Completed? && right.Completed?
  }

  predicate SameExecutorReport(left: ExecutorReport, right: ExecutorReport) {
    if !SameCorrelation(left.correlation, right.correlation) || !SameTag(left, right) then false
    else if left.WorkResultRejected? && right.WorkResultRejected? then
      && left.reason == right.reason
      && left.recoveryCause == right.recoveryCause
      && left.responseCount == right.responseCount
      && left.custody == right.custody
    else if !left.WorkTerminal? || !right.WorkTerminal? then true
    else SameExecutorResult(left.result, right.result)
  }

  /** The comparison leaves out nothing that a report carries. */
  lemma ReportComparisonIsEquality(left: ExecutorReport, right: ExecutorReport)
    ensures SameExecutorReport(left, right) <==> left == right
  {
  }
}
