/** The workflow journal and the published delivery facts, with the fields that the controlled checkpoints read. */
module Journal {
  import opened Common
  import opened JsText
  import opened TaskContracts

  type Id = JsString

  // ----- Journal events

  datatype ReadCause = AttemptContinuation | PostQuiescenceReconfirmation | OtherCause

  /** A target is represented by its encoded key. */
  datatype TrackerRead =
    | ReadTrackerGraph(operationId: Id, predecessors: seq<Id>, target: Id, cause: ReadCause, coveredTaskIds: seq<Id>)
    | ReadTaskWorkSpecification(operationId: Id, predecessors: seq<Id>, target: Id, taskId: Id)
    | ReadTaskClaim(operationId: Id, predecessors: seq<Id>, target: Id, taskId: Id)
    | OtherTrackerRead(operationId: Id)

  datatype Claim = Claim(operationId: Id, owner: Id, taskId: Id, token: Id)

  datatype ClaimObservation = ActiveTaskClaim(claim: Claim) | OtherClaimObservation

  datatype TrackerFacts =
    | UnchangedFactsReconfirmed(target: Id, contentIdentities: seq<Id>)
    | FocusedSpecificationFacts(target: Id, coverageTaskId: Id, freshnessOperationId: Id, taskId: Id,
      contentIdentity: Id,
                                fingerprint: Id, title: Id, body: Id)
    | FocusedClaimFacts(target: Id, coverageTaskId: Id, freshnessOperationId: Id, observation: ClaimObservation)
    | OtherFacts

  datatype GitRead =
    | ReadTaskWorktree(operationId: Id, predecessors: seq<Id>, plannedAttempt: PlannedTaskAttempt)
    | ReadTargetLineage(operationId: Id, predecessors: seq<Id>, plannedAttempt: PlannedTaskAttempt, repository: Id,
      ref: Id)
    | OtherGitRead(operationId: Id, plannedAttempt: PlannedTaskAttempt)

  datatype WorktreeObservation = PlannedWorktreeReady(baseSha: Id, branch: Id, headSha: Id,
    worktree: Id) | OtherWorktree

  datatype StateObservation = ExactExecutorReport(report: ExecutorReport) | OtherState

  datatype Choice = ContinueExistingAttempt | OtherChoice

  datatype Command = Begin | Resume | Suspend | OtherCommand

  /** The operations whose observations a continuation rests on. */
  datatype Witness = Witness(claim: Id, graph: Id, specification: Id, lineage: Id, worktree: Id)

  datatype Event =
    | TaskAttemptPlanned(operationId: Id, plannedAttempt: PlannedTaskAttempt)
    | AttemptChoiceApplied(choice: Choice, nonce: Id, requestRunId: Id, observedTaskRevision: Id,
      plannedAttempt: PlannedTaskAttempt)
    | TrackerReadIntended(trackerRead: TrackerRead)
    | TrackerFactsObserved(operationId: Id, facts: TrackerFacts)
    | TaskClaimAcquisitionIntended(taskId: Id)
    | TaskClaimAcquired(claim: Claim)
    | WorktreeReconciliationIntended(plannedAttempt: PlannedTaskAttempt)
    | GitReadIntended(gitRead: GitRead)
    | WorktreeObserved(operationId: Id, worktree: WorktreeObservation)
    | TargetLineageObserved(operationId: Id, plannedAttempt: PlannedTaskAttempt, plannedBaseSha: Id,
      baseIsAncestor: bool)
    | ExecutorStateObserved(plannedAttempt: PlannedTaskAttempt, state: StateObservation)
    | ExecutorWorkReported(ordinal: nat, report: ExecutorReport)
    | ResponsibilityBegan(plannedAttempt: PlannedTaskAttempt)
    | ContinuationAuthorized(plannedAttempt: PlannedTaskAttempt, basis: Witness)
    | CommandIntended(plannedAttempt: PlannedTaskAttempt, command: Command, ordinal: nat)
    | CommandResponseObserved(plannedAttempt: PlannedTaskAttempt, commandOrdinal: nat, report: ExecutorReport)
    | OtherEvent

  datatype JournalRecord = JournalRecord(position: int, runId: Id, event: Event)

  /** The operation an intended read stands for. */
  function OperationOf(e: Event): Id {
    match e
    case TrackerReadIntended(r) => r.operationId
    case GitReadIntended(r) => r.operationId
    case _ => []
  }

  // ----- Published facts

  datatype Progress = ReportAccepted(ordinal: nat) | OtherProgress

  datatype Disposition =
    | Ready(progress: Progress)
    | Concluded(report: ExecutorReport)
    | TaskLifecycleConstraint
    | OtherDisposition

  datatype Evidence = FreshResponsibility(plannedAttempt: PlannedTaskAttempt, disposition: Disposition) | OtherEvidence

  datatype Occupancy = ExactAttemptHeld(plannedAttempt: PlannedTaskAttempt) | OtherOccupancy

  datatype Route = ResumeAfterCurrentFacts(plannedAttempt: PlannedTaskAttempt, basis: Witness) | OtherRoute

  datatype PositionNeed = ReserveOrReuse(taskId: Id) | OtherPositionNeed

  datatype ProtocolNeed = AttemptProtocol(correlation: Correlation) | OtherProtocolNeed

  datatype Proposal = Proposal(route: Route, position: PositionNeed, protocol: ProtocolNeed, orderTaskId: Option<Id>)

  /** `graphRevision` and `acceptedAt` are absent when no graph is established and nothing was accepted. */
  datatype Publication = Publication(
    graphRevision: Option<Id>,
    policyCapacity: nat,
    evidence: seq<Evidence>,
    acceptedAt: Option<int>,
    held: seq<Correlation>,
    occupied: map<Id, Occupancy>,
    workCapacity: nat,
    proposals: seq<Proposal>)

  // ----- Filters

  function Where<T>(items: seq<T>, keep: T -> bool): seq<T> {
    if items == [] then [] else (if keep(items[0]) then [items[0]] else []) + Where(items[1..], keep)
  }

  function OnlyItem<T>(items: seq<T>): Option<T> {
    if |items| == 1 then Some(items[0]) else None
  }

  function Only<T>(items: seq<T>, keep: T -> bool): Option<T> {
    OnlyItem(Where(items, keep))
  }

  function First<T>(items: seq<T>, keep: T -> bool): Option<T> {
    if items == [] then None else if keep(items[0]) then Some(items[0]) else First(items[1..], keep)
  }

  lemma {:induction false} WhereMember<T>(items: seq<T>, keep: T -> bool, item: T)
    ensures item in Where(items, keep) <==> item in items && keep(item)
  {
    if items != [] {
      WhereMember(items[1..], keep, item);
      assert item in items <==> item == items[0] || item in items[1..];
    }
  }

  lemma {:induction false} WhereAppend<T>(a: seq<T>, b: seq<T>, keep: T -> bool)
    ensures Where(a + b, keep) == Where(a, keep) + Where(b, keep)
  {
    if a == [] {
      AppendEmpty(b);
      AppendEmpty(Where(b, keep));
    } else {
      TailOfAppend(a, b);
      WhereAppend(a[1..], b, keep);
      var head := if keep(a[0]) then [a[0]] else [];
      AppendAssociative(head, Where(a[1..], keep), Where(b, keep));
    }
  }

  /** The only item kept is one of the items, is kept, and every kept item is it. */
  lemma OnlyIsTheOne<T>(items: seq<T>, keep: T -> bool, item: T)
    ensures Only(items, keep).Some? ==>
              var only := Only(items, keep).value;
              only in items && keep(only) && (item in items && keep(item) ==> item == only)
  {
    if Only(items, keep).Some? {
      WhereMember(items, keep, Only(items, keep).value);
      WhereMember(items, keep, item);
    }
  }

  lemma {:induction false} FirstIsKept<T>(items: seq<T>, keep: T -> bool)
    ensures First(items, keep).Some? ==> First(items, keep).value in items && keep(First(items, keep).value)
  {
    if items != [] {
      FirstIsKept(items[1..], keep);
    }
  }
}
