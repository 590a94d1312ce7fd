/** DS-13 is complete after A1 is accepted and releases its position and the original B1 resumes ahead of fresh E. */
module Ds13 {
  import opened Common
  import opened TaskContracts
  import opened Journal
  import opened ControlledScenario
  import opened Continuation
  import opened Ds12

  const A1_TERMINAL_ORDINAL: nat := 2

  // ----- The continuation

  function PlanRecord(records: seq<JournalRecord>, attempt: PlannedTaskAttempt): Option<JournalRecord> {
    Only(records, Found(ScenarioRun, (e: Event) => e.TaskAttemptPlanned? && e.plannedAttempt == attempt))
  }

  function Acquired(records: seq<JournalRecord>): Option<Claim> {
    match Only(records, Found(ScenarioRun, (e: Event) => e.TaskClaimAcquired? && e.claim.taskId == TaskB()))
    case None => None
    case Some(r) => if r.event.TaskClaimAcquired? then Some(r.event.claim) else None
  }

  datatype Continued = Continued(plan: JournalRecord, choice: JournalRecord, acquired: Claim, found: Reads)

  /** The exact B1 plan is a constant, so the record found is of that attempt. */
  function ContinuedHistory(records: seq<JournalRecord>): Option<Continued> {
    var plan, choice, acquired := PlanRecord(records, B1()), ExactChoice(ScenarioRun, records, B1()), Acquired(records);
    if plan.None? || !plan.value.event.TaskAttemptPlanned? || choice.None? || acquired.None? then None
    else if plan.value.position >= choice.value.position then None
    else
      match FindReads(ScenarioRun, records, choice.value.position, plan.value.event.operationId, B1(), acquired)
      case None => None
      case Some(found) => Some(Continued(plan.value, choice.value, acquired.value, found))
  }

  // ----- A1's end

  predicate IsAcceptedTerminal(report: ExecutorReport, attemptId: Id) {
    && report.WorkTerminal? && report.result.Accepted?
    && report.correlation == Correlation(attemptId, RunId())
  }

  predicate IsA1State(e: Event) {
    && e.ExecutorStateObserved? && e.state.ExactExecutorReport?
    && e.plannedAttempt == A1()
    && IsAcceptedTerminal(e.state.report, AttemptA1())
  }

  predicate IsA1Report(e: Event) {
    e.ExecutorWorkReported? && IsAcceptedTerminal(e.report, AttemptA1())
  }

  datatype A1End = A1End(state: JournalRecord, report: JournalRecord)

  function A1Terminal(records: seq<JournalRecord>, after: int): Option<A1End> {
    if PlanRecord(records, A1()).None? then None
    else
      match Only(records, Wanted(ScenarioRun, after, IsA1State))
      case None => None
      case Some(state) =>
        match Only(records, Wanted(ScenarioRun, state.position, IsA1Report))
        case None => None
        case Some(report) =>
          if && state.event.ExecutorStateObserved? && state.event.state.ExactExecutorReport?
             && report.event.ExecutorWorkReported?
             && report.event.ordinal == A1_TERMINAL_ORDINAL
             && SameExecutorReport(state.event.state.report, report.event.report)
          then Some(A1End(state, report))
          else None
  }

  // ----- Authorization and Resume

  predicate DistinctWitness(w: Witness) {
    |{w.claim, w.graph, w.specification, w.lineage, w.worktree}| == 5
  }

  predicate IsAuthorization(e: Event, found: Reads) {
    && e.ContinuationAuthorized?
    && e.plannedAttempt == B1()
    && DistinctWitness(e.basis)
    && e.basis == WitnessOf(found)
  }

  predicate AuthorizesB(e: Event) {
    e.ContinuationAuthorized? && e.plannedAttempt.taskId == TaskB()
  }

  function Authorization(records: seq<JournalRecord>, after: int, found: Reads): Option<JournalRecord> {
    match Only(records, Found(ScenarioRun, AuthorizesB))
    case None => None
    case Some(r) => if r.position > after && IsAuthorization(r.event, found) then Some(r) else None
  }

  predicate IsResume(e: Event) {
    e.CommandIntended? && e.command.Resume?
  }

  function ResumeIntent(records: seq<JournalRecord>): Option<JournalRecord> {
    match Only(records, Found(ScenarioRun, IsResume))
    case None => None
    case Some(r) => if r.event.CommandIntended? && r.event.plannedAttempt == B1() then Some(r) else None
  }

  predicate AnswersB1(e: Event, ordinal: nat) {
    e.CommandResponseObserved? && e.commandOrdinal == ordinal && e.plannedAttempt == B1()
  }

  function ResumeResponse(records: seq<JournalRecord>, intent: JournalRecord): Option<JournalRecord> {
    if !intent.event.CommandIntended? then None
    else
      match Only(records, Found(ScenarioRun, (e: Event) => AnswersB1(e, intent.event.ordinal)))
      case None => None
      case Some(r) =>
        if && r.event.CommandResponseObserved? && r.position > intent.position
           && r.event.report == WorkExecuting(Correlation(AttemptB1(), RunId()))
        then Some(r)
        else None
  }

  predicate ReportsB1(e: Event) {
    e.ExecutorWorkReported? && e.report.correlation == Correlation(AttemptB1(), RunId())
  }

  function BReport(records: seq<JournalRecord>, response: JournalRecord): Option<JournalRecord> {
    match Only(records, Wanted(ScenarioRun, response.position, ReportsB1))
    case None => None
    case Some(r) =>
      if && r.event.ExecutorWorkReported? && r.event.report.WorkExecuting? && response.event.CommandResponseObserved?
         && r.event.ordinal == response.event.commandOrdinal
         && SameExecutorReport(r.event.report, response.event.report)
      then Some(r)
      else None
  }

  datatype Resumed = Resumed(intent: JournalRecord, response: JournalRecord, report: JournalRecord)

  function ResumeHistory(records: seq<JournalRecord>, authorization: JournalRecord): Option<Resumed> {
    match ResumeIntent(records)
    case None => None
    case Some(intent) =>
      if intent.position <= authorization.position then None
      else
        match ResumeResponse(records, intent)
        case None => None
        case Some(response) =>
          match BReport(records, response)
          case None => None
          case Some(report) => Some(Resumed(intent, response, report))
  }

  datatype Course = Course(continued: Continued, a1: A1End, authorization: JournalRecord, resumed: Resumed)

  function FullCourse(records: seq<JournalRecord>): Option<Course> {
    match ContinuedHistory(records)
    case None => None
    case Some(continued) =>
      match A1Terminal(records, continued.found.lineage.outcome.position)
      case None => None
      case Some(a1) =>
        match Authorization(records, a1.report.position, continued.found)
        case None => None
        case Some(authorization) =>
          match ResumeHistory(records, authorization)
          case None => None
          case Some(resumed) => Some(Course(continued, a1, authorization, resumed))
  }

  // ----- The publication

  predicate HoldsExactly(occupied: map<Id, Occupancy>, taskId: Id, attempt: PlannedTaskAttempt) {
    taskId in occupied && occupied[taskId] == ExactAttemptHeld(attempt)
  }

  predicate FinalPositions(pub: Publication) {
    && HeldText(pub.held) == HeldText([Correlation(AttemptB1(), RunId()), Correlation(AttemptD1(), RunId())])
    && |pub.occupied| == 2
    && HoldsExactly(pub.occupied, TaskB(), B1())
    && HoldsExactly(pub.occupied, TaskD(), D1())
  }

  predicate A1Evidence(pub: Publication, report: ExecutorReport) {
    match Only(pub.evidence, (e: Evidence) => e.FreshResponsibility? && e.plannedAttempt == A1())
    case None => false
    case Some(e) =>
      && e.FreshResponsibility? && e.disposition.Concluded?
      && SameExecutorReport(e.disposition.report, report)
  }

  predicate ReadyBEvidence(pub: Publication, ordinal: nat) {
    match Only(pub.evidence, IsFreshB1)
    case None => false
    case Some(e) => e == FreshResponsibility(B1(), Ready(ReportAccepted(ordinal)))
  }

  function ExactC1Attempt(records: seq<JournalRecord>): Option<PlannedTaskAttempt> {
    var plan := PlanRecord(records, C1());
    var began := Only(records, Found(ScenarioRun, (e: Event) => e.ResponsibilityBegan? && e.plannedAttempt == C1()));
    if plan.Some? && began.Some? then Some(C1()) else None
  }

  predicate RetainedC1Evidence(pub: Publication, records: seq<JournalRecord>) {
    match ExactC1Attempt(records)
    case None => false
    case Some(attempt) =>
      match Only(pub.evidence, (e: Evidence) => e.FreshResponsibility? && e.plannedAttempt == attempt)
      case None => false
      case Some(e) => e.FreshResponsibility? && e.disposition.TaskLifecycleConstraint?
  }

  predicate PublicationMatches(pub: Publication, records: seq<JournalRecord>, h: Course) {
    && pub.acceptedAt.Some? && pub.graphRevision.Some?
    && h.a1.report.event.ExecutorWorkReported? && h.resumed.report.event.ExecutorWorkReported?
    && pub.acceptedAt.value >= h.resumed.report.position
    && pub.graphRevision.value == GraphG2()
    && pub.policyCapacity == CAPACITY_P2
    && pub.workCapacity == CAPACITY_P2
    && FinalPositions(pub)
    && A1Evidence(pub, h.a1.report.event.report)
    && ReadyBEvidence(pub, h.resumed.report.event.ordinal)
    && RetainedC1Evidence(pub, records)
    && forall i :: 0 <= i < |pub.proposals| ==> pub.proposals[i].orderTaskId != Some(TaskE())
  }

  // ----- Work that must not have happened

  predicate IsEWork(e: Event) {
    match e
    case TaskAttemptPlanned(_, attempt) => attempt.taskId == TaskE()
    case WorktreeReconciliationIntended(attempt) => attempt.taskId == TaskE()
    case TaskClaimAcquisitionIntended(taskId) => taskId == TaskE()
    case TaskClaimAcquired(claim) => claim.taskId == TaskE()
    case TrackerReadIntended(r) => (r.ReadTaskClaim? || r.ReadTaskWorkSpecification?) && r.taskId == TaskE()
    case GitReadIntended(r) => r.plannedAttempt.taskId == TaskE()
    case _ => false
  }

  predicate IsFreshMutation(e: Event) {
    e.TaskClaimAcquisitionIntended? || e.TaskClaimAcquired? || e.TaskAttemptPlanned? ||
      e.WorktreeReconciliationIntended?
  }

  predicate IsReconfirmation(e: Event) {
    && e.TrackerReadIntended? && e.trackerRead.ReadTrackerGraph?
    && e.trackerRead.cause.PostQuiescenceReconfirmation? && e.trackerRead.target == Target()
  }

  predicate IsForbiddenCommand(e: Event) {
    e.CommandIntended? && (e.command.Begin? || e.command.Suspend?)
  }

  predicate NoForbiddenWork(records: seq<JournalRecord>, after: int) {
    forall i :: 0 <= i < |records| && Later(ScenarioRun, records[i], after) ==>
      var e := records[i].event; !IsEWork(e) && !IsFreshMutation(e) && !IsReconfirmation(e) && !IsForbiddenCommand(e)
  }

  predicate SingleContinueChoice(records: seq<JournalRecord>) {
    Only(records, Found(ScenarioRun, (e: Event) =>
      e.AttemptChoiceApplied? && e.choice.ContinueExistingAttempt? && e.plannedAttempt.taskId == TaskB())).Some?
  }

  predicate SingleExactBPlan(records: seq<JournalRecord>) {
    match Only(records, Found(ScenarioRun, (e: Event) => e.TaskAttemptPlanned? && e.plannedAttempt.taskId == TaskB()))
    case None => false
    case Some(r) => r.event.TaskAttemptPlanned? && r.event.plannedAttempt == B1()
  }

  predicate Ds13Complete(pub: Publication, records: seq<JournalRecord>) {
    match FullCourse(records)
    case None => false
    case Some(h) =>
      && PublicationMatches(pub, records, h)
      && SingleContinueChoice(records)
      && SingleExactBPlan(records)
      && h.continued.choice.position < h.continued.found.graph.intent.position
      && h.continued.found.lineage.outcome.position < h.a1.state.position
      && h.a1.state.position < h.a1.report.position
      && h.resumed.report.position > h.resumed.response.position
      && NoForbiddenWork(records, h.continued.choice.position)
  }
}
