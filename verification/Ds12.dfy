/** DS-12 is complete when the exact B1 attempt may resume but A1 and D1 still fill the capacity. */
module Ds12 {
  import opened Common
  import opened JsText
  import opened TaskContracts
  import opened Journal
  import opened OperationIds
  import opened ControlledScenario
  import opened Continuation

  // ----- Shared with DS-13

  predicate IsExactChoice(e: Event, attempt: PlannedTaskAttempt) {
    && e.AttemptChoiceApplied? && e.choice.ContinueExistingAttempt?
    && e.nonce == ContinueNonce()
    && e.requestRunId == RunId()
    && e.observedTaskRevision == ChangedFingerprint()
    && e.plannedAttempt == attempt
  }

  function Found(scope: Scope, isWanted: Event -> bool): JournalRecord -> bool {
    (r: JournalRecord) => InScope(scope, r) && isWanted(r.event)
  }

  function ExactChoice(scope: Scope, records: seq<JournalRecord>, attempt: PlannedTaskAttempt): Option<JournalRecord> {
    Only(records, Found(scope, (e: Event) => IsExactChoice(e, attempt)))
  }

  predicate IsFreshB1(e: Evidence) {
    e.FreshResponsibility? && e.plannedAttempt.runId == RunId() && e.plannedAttempt.attemptId == AttemptB1()
  }

  /** The text by which held positions are compared. */
  function HeldText(held: seq<Correlation>): JsString {
    Join(Sort(seq(|held|, i requires 0 <= i < |held| => held[i].runId + Text(":") + held[i].attemptId)))
  }

  predicate Holds(occupied: map<Id, Occupancy>, taskId: Id, attemptId: Id) {
    && taskId in occupied && occupied[taskId].ExactAttemptHeld?
    && var attempt := occupied[taskId].plannedAttempt;
       attempt.runId == RunId() && attempt.attemptId == attemptId && attempt.taskId == taskId
  }

  // ----- DS-12

  function IsPlanOf(attempt: PlannedTaskAttempt): JournalRecord -> bool {
    (r: JournalRecord) => r.event.TaskAttemptPlanned? && r.event.plannedAttempt == attempt
  }

  predicate IsBClaim(r: JournalRecord) {
    r.event.TaskClaimAcquired? && r.event.claim.taskId == TaskB()
  }

  function PlanOperation(records: seq<JournalRecord>, attempt: PlannedTaskAttempt): Option<Id> {
    match First(records, IsPlanOf(attempt))
    case None => None
    case Some(r) => if r.event.TaskAttemptPlanned? then Some(r.event.operationId) else None
  }

  function AcquiredClaim(records: seq<JournalRecord>): Option<Claim> {
    match First(records, IsBClaim)
    case None => None
    case Some(r) => if r.event.TaskClaimAcquired? then Some(r.event.claim) else None
  }

  datatype History = History(choice: JournalRecord, planOperation: Id, acquired: Claim, found: Reads)

  function ContinuationHistory(records: seq<JournalRecord>, attempt: PlannedTaskAttempt): Option<History> {
    var plan, choice, acquired := PlanOperation(records, attempt), ExactChoice(AnyRun, records, attempt),
      AcquiredClaim(records);
    if plan.None? || choice.None? || acquired.None? then None
    else
      match FindReads(AnyRun, records, choice.value.position, plan.value, attempt, acquired)
      case None => None
      case Some(found) => Some(History(choice.value, plan.value, acquired.value, found))
  }

  predicate IsWaitingBProposal(p: Proposal, attempt: PlannedTaskAttempt, basis: Witness) {
    && p.route == ResumeAfterCurrentFacts(attempt, basis)
    && p.position == ReserveOrReuse(TaskB())
    && p.protocol == AttemptProtocol(Correlation(attempt.attemptId, attempt.runId))
  }

  predicate RetainsReadyB(pub: Publication, attempt: PlannedTaskAttempt) {
    match Only(pub.evidence, IsFreshB1)
    case None => false
    case Some(e) =>
      && e.FreshResponsibility? && e.disposition.Ready?
      && e.plannedAttempt == B1() && e.plannedAttempt == attempt
  }

  predicate IsFreshC1(e: Evidence) {
    e.FreshResponsibility? && e.plannedAttempt.runId == RunId() && e.plannedAttempt.attemptId == AttemptC1()
  }

  predicate BeganC1(r: JournalRecord) {
    && r.event.ResponsibilityBegan?
    && r.event.plannedAttempt.attemptId == AttemptC1() && r.event.plannedAttempt.runId == RunId()
  }

  predicate RetainsExactC(pub: Publication, records: seq<JournalRecord>) {
    var began, exact := First(records, BeganC1), Only(pub.evidence, IsFreshC1);
    && began.Some? && began.value.event.ResponsibilityBegan?
    && exact.Some? && exact.value.FreshResponsibility?
    && exact.value.disposition.TaskLifecycleConstraint?
    && exact.value.plannedAttempt == began.value.event.plannedAttempt
  }

  predicate IsPrematureBAction(e: Event) {
    || (e.ContinuationAuthorized? && e.plannedAttempt.attemptId == AttemptB1())
    || (e.CommandIntended? && e.command.Resume? && e.plannedAttempt.attemptId == AttemptB1())
  }

  predicate NoPrematureBAction(records: seq<JournalRecord>, after: int) {
    forall i :: 0 <= i < |records| ==> !(records[i].position > after && IsPrematureBAction(records[i].event))
  }

  predicate Ds12Complete(pub: Publication, records: seq<JournalRecord>) {
    match First(pub.evidence, IsFreshB1)
    case None => false
    case Some(b) =>
      match (if b.FreshResponsibility? then ContinuationHistory(records, b.plannedAttempt) else None)
      case None => false
      case Some(h) =>
        && b.FreshResponsibility?
        && pub.acceptedAt.Some? && pub.graphRevision.Some?
        && pub.acceptedAt.value >= h.found.lineage.outcome.position
        && pub.graphRevision.value == GraphG2()
        && pub.policyCapacity == CAPACITY_P2
        && HeldText(pub.held) == HeldText([Correlation(AttemptA1(), RunId()), Correlation(AttemptD1(), RunId())])
        && |pub.occupied| == 2
        && Holds(pub.occupied, TaskA(), AttemptA1())
        && Holds(pub.occupied, TaskD(), AttemptD1())
        && |Where(pub.proposals, (p: Proposal) => IsWaitingBProposal(p, b.plannedAttempt, WitnessOf(h.found)))| == 1
        && RetainsReadyB(pub, b.plannedAttempt)
        && RetainsExactC(pub, records)
        && NoPrematureBAction(records, h.choice.position)
  }
}
