/** The continuation reads that both checkpoints look for: five intended reads, each with its one outcome. */
module Continuation {
  import opened Common
  import opened JsText
  import opened TaskContracts
  import opened Journal
  import opened OperationIds
  import opened ControlledScenario

  type Id = JsString

  /** DS-12 looks at the records of every run, DS-13 at those of the scenario's run. */
  datatype Scope = AnyRun | ScenarioRun

  predicate InScope(scope: Scope, r: JournalRecord) {
    scope.AnyRun? || r.runId == RunId()
  }

  predicate Later(scope: Scope, r: JournalRecord, after: int) {
    InScope(scope, r) && r.position > after
  }

  datatype Pair = Pair(intent: JournalRecord, outcome: JournalRecord)

  function Operation(p: Pair): Id {
    OperationOf(p.intent.event)
  }

  function Wanted(scope: Scope, after: int, isWanted: Event -> bool): JournalRecord -> bool {
    (r: JournalRecord) => Later(scope, r, after) && isWanted(r.event)
  }

  function Of(isOutcome: (Event, Id) -> bool, operation: Id): Event -> bool {
    (e: Event) => isOutcome(e, operation)
  }

  lemma OnlyWanted(scope: Scope, records: seq<JournalRecord>, after: int, isWanted: Event -> bool, other: JournalRecord)
    ensures var found := Only(records, Wanted(scope, after, isWanted));
            found.Some? ==>
              && found.value in records && Later(scope, found.value, after) && isWanted(found.value.event)
              && (other in records && Later(scope, other, after) && isWanted(other.event) ==> other == found.value)
  {
    var keep := Wanted(scope, after, isWanted);
    OnlyIsTheOne(records, keep, other);
    assert forall r :: keep(r) <==> Later(scope, r, after) && isWanted(r.event);
  }

  /** The one intent after a position, and the one outcome of its operation after it. */
  function FindPair(scope: Scope, records: seq<JournalRecord>, after: int, isIntent: Event -> bool,
                    isOutcome: (Event, Id) -> bool): Option<Pair>
  {
    match Only(records, Wanted(scope, after, isIntent))
    case None => None
    case Some(intent) =>
      match Only(records, Wanted(scope, intent.position, Of(isOutcome, OperationOf(intent.event))))
      case None => None
      case Some(outcome) => Some(Pair(intent, outcome))
  }

  ghost predicate IsPair(scope: Scope, records: seq<JournalRecord>, after: int, p: Pair) {
    && p.intent in records && p.outcome in records
    && InScope(scope, p.intent) && InScope(scope, p.outcome)
    && after < p.intent.position < p.outcome.position
  }

  lemma PairIsFound(scope: Scope, records: seq<JournalRecord>, after: int, isIntent: Event -> bool,
                    isOutcome: (Event, Id) -> bool)
    ensures var found := FindPair(scope, records, after, isIntent, isOutcome);
            found.Some? ==>
              && IsPair(scope, records, after, found.value)
              && isIntent(found.value.intent.event)
              && isOutcome(found.value.outcome.event, Operation(found.value))
  {
    var found := FindPair(scope, records, after, isIntent, isOutcome);
    if found.Some? {
      var p := found.value;
      OnlyWanted(scope, records, after, isIntent, p.intent);
      OnlyWanted(scope, records, p.intent.position, Of(isOutcome, Operation(p)), p.outcome);
    }
  }

  // ----- The five reads

  predicate IsGraphIntent(e: Event, plan: Id) {
    && e.TrackerReadIntended? && e.trackerRead.ReadTrackerGraph?
    && e.trackerRead.cause.AttemptContinuation?
    && e.trackerRead.target == Target()
    && e.trackerRead.coveredTaskIds == [TaskB()]
    && SameOperationIds(e.trackerRead.predecessors, [plan])
  }

  predicate IsGraphOutcome(e: Event, operation: Id) {
    && e.TrackerFactsObserved? && e.facts.UnchangedFactsReconfirmed?
    && e.operationId == operation
    && e.facts.target == Target()
    && forall i :: 0 <= i < |e.facts.contentIdentities| ==> e.facts.contentIdentities[i] == GraphG2()
  }

  predicate IsSpecificationIntent(e: Event, predecessors: seq<Id>) {
    && e.TrackerReadIntended? && e.trackerRead.ReadTaskWorkSpecification?
    && e.trackerRead.taskId == TaskB()
    && e.trackerRead.target == Target()
    && SameOperationIds(e.trackerRead.predecessors, predecessors)
  }

  predicate IsSpecificationOutcome(e: Event, operation: Id) {
    && e.TrackerFactsObserved? && e.facts.FocusedSpecificationFacts?
    && e.operationId == operation
    && e.facts == FocusedSpecificationFacts(Target(), TaskB(), operation, TaskB(), ChangedFingerprint(),
       ChangedFingerprint(),
                                            ChangedTitle(), ChangedBody())
  }

  predicate IsClaimIntent(e: Event, predecessors: seq<Id>) {
    && e.TrackerReadIntended? && e.trackerRead.ReadTaskClaim?
    && e.trackerRead.taskId == TaskB()
    && e.trackerRead.target == Target()
    && SameOperationIds(e.trackerRead.predecessors, predecessors)
  }

  predicate IsClaimOutcome(e: Event, operation: Id, acquired: Claim) {
    && e.TrackerFactsObserved? && e.facts.FocusedClaimFacts? && e.facts.observation.ActiveTaskClaim?
    && e.operationId == operation
    && e.facts.target == Target()
    && e.facts.coverageTaskId == TaskB()
    && e.facts.freshnessOperationId == operation
    && e.facts.observation.claim == acquired
  }

  predicate IsWorktreeIntent(e: Event, attempt: PlannedTaskAttempt, predecessors: seq<Id>) {
    && e.GitReadIntended? && e.gitRead.ReadTaskWorktree?
    && e.gitRead.plannedAttempt == attempt
    && SameOperationIds(e.gitRead.predecessors, predecessors)
  }

  /** Only DS-13 also wants the worktree's head to be the planned base. */
  predicate IsWorktreeOutcome(scope: Scope, e: Event, operation: Id, attempt: PlannedTaskAttempt) {
    && e.WorktreeObserved? && e.worktree.PlannedWorktreeReady?
    && e.operationId == operation
    && e.worktree.baseSha == attempt.baseSha
    && e.worktree.branch == attempt.branch
    && (scope.ScenarioRun? ==> e.worktree.headSha == attempt.baseSha)
    && e.worktree.worktree == attempt.worktree
  }

  predicate IsLineageIntent(e: Event, attempt: PlannedTaskAttempt, worktree: Id) {
    && e.GitReadIntended? && e.gitRead.ReadTargetLineage?
    && e.gitRead.plannedAttempt == attempt
    && e.gitRead.repository == Repository()
    && e.gitRead.ref == TargetRef()
    && SameOperationIds(e.gitRead.predecessors, [worktree])
  }

  predicate IsLineageOutcome(e: Event, operation: Id, attempt: PlannedTaskAttempt) {
    && e.TargetLineageObserved?
    && e.operationId == operation
    && e.plannedAttempt == attempt
    && e.plannedBaseSha == attempt.baseSha
    && e.baseIsAncestor
  }

  datatype Reads = Reads(graph: Pair, specification: Pair, claim: Pair, worktree: Pair, lineage: Pair)

  function GraphPair(scope: Scope, records: seq<JournalRecord>, after: int, plan: Id): Option<Pair> {
    FindPair(scope, records, after, (e: Event) => IsGraphIntent(e, plan), (e: Event, op: Id) => IsGraphOutcome(e, op))
  }

  function SpecificationPair(scope: Scope, records: seq<JournalRecord>, after: int,
                             predecessors: seq<Id>): Option<Pair> {
    FindPair(scope, records, after, (e: Event) => IsSpecificationIntent(e, predecessors),
             (e: Event, op: Id) => IsSpecificationOutcome(e, op))
  }

  function ClaimPair(scope: Scope, records: seq<JournalRecord>, after: int, predecessors: seq<Id>,
                     acquired: Option<Claim>)
    : Option<Pair>
  {
    if acquired.None? then None
    else FindPair(scope, records, after, (e: Event) => IsClaimIntent(e, predecessors),
                  (e: Event, op: Id) => IsClaimOutcome(e, op, acquired.value))
  }

  function WorktreePair(scope: Scope, records: seq<JournalRecord>, after: int, attempt: PlannedTaskAttempt,
                        predecessors: seq<Id>)
    : Option<Pair>
  {
    FindPair(scope, records, after, (e: Event) => IsWorktreeIntent(e, attempt, predecessors),
             (e: Event, op: Id) => IsWorktreeOutcome(scope, e, op, attempt))
  }

  function LineagePair(scope: Scope, records: seq<JournalRecord>, after: int, attempt: PlannedTaskAttempt, worktree: Id)
    : Option<Pair>
  {
    FindPair(scope, records, after, (e: Event) => IsLineageIntent(e, attempt, worktree),
             (e: Event, op: Id) => IsLineageOutcome(e, op, attempt))
  }

  /** Each read is looked for after the outcome of the one before, with exactly its predecessors. */
  function FindReads(scope: Scope, records: seq<JournalRecord>, choice: int, plan: Id, attempt: PlannedTaskAttempt,
                     acquired: Option<Claim>): Option<Reads>
  {
    match GraphPair(scope, records, choice, plan)
    case None => None
    case Some(graph) =>
      match SpecificationPair(scope, records, graph.outcome.position, [plan, Operation(graph)])
      case None => None
      case Some(specification) =>
        match ClaimPair(scope, records, specification.outcome.position,
                        [plan, Operation(graph), Operation(specification)], acquired)
        case None => None
        case Some(claim) =>
          match WorktreePair(scope, records, claim.outcome.position, attempt,
                             [plan, Operation(graph), Operation(specification), Operation(claim)])
          case None => None
          case Some(worktree) =>
            match LineagePair(scope, records, worktree.outcome.position, attempt, Operation(worktree))
            case None => None
            case Some(lineage) => Some(Reads(graph, specification, claim, worktree, lineage))
  }

  /** The witness that these reads bear out. */
  function WitnessOf(r: Reads): Witness {
    Witness(Operation(r.claim), Operation(r.graph), Operation(r.specification), Operation(r.lineage),
      Operation(r.worktree))
  }

  ghost predicate InOrder(scope: Scope, records: seq<JournalRecord>, choice: int, r: Reads) {
    && IsPair(scope, records, choice, r.graph)
    && IsPair(scope, records, r.graph.outcome.position, r.specification)
    && IsPair(scope, records, r.specification.outcome.position, r.claim)
    && IsPair(scope, records, r.claim.outcome.position, r.worktree)
    && IsPair(scope, records, r.worktree.outcome.position, r.lineage)
  }

  /** The reads are of the right kinds, each resting on the operations before it. */
  ghost predicate AreContinuationReads(scope: Scope, plan: Id, attempt: PlannedTaskAttempt, acquired: Claim, r: Reads) {
    var g, s, c, w, l := Operation(r.graph), Operation(r.specification), Operation(r.claim), Operation(r.worktree),
                         Operation(r.lineage);
    && IsGraphIntent(r.graph.intent.event, plan) && IsGraphOutcome(r.graph.outcome.event, g)
    && IsSpecificationIntent(r.specification.intent.event, [plan, g]) &&
       IsSpecificationOutcome(r.specification.outcome.event, s)
    && IsClaimIntent(r.claim.intent.event, [plan, g, s]) && IsClaimOutcome(r.claim.outcome.event, c, acquired)
    && IsWorktreeIntent(r.worktree.intent.event, attempt, [plan, g, s, c])
    && IsWorktreeOutcome(scope, r.worktree.outcome.event, w, attempt)
    && IsLineageIntent(r.lineage.intent.event, attempt, w) && IsLineageOutcome(r.lineage.outcome.event, l, attempt)
  }

  lemma ReadsAreInOrder(scope: Scope, records: seq<JournalRecord>, choice: int, plan: Id, attempt: PlannedTaskAttempt,
                        acquired: Option<Claim>)
    ensures var found := FindReads(scope, records, choice, plan, attempt, acquired);
            found.Some? ==>
              && InOrder(scope, records, choice, found.value)
              && acquired.Some? && AreContinuationReads(scope, plan, attempt, acquired.value, found.value)
  {
    var found := FindReads(scope, records, choice, plan, attempt, acquired);
    if found.Some? {
      var r := found.value;
      GraphIsFound(scope, records, choice, plan);
      SpecificationIsFound(scope, records, r.graph.outcome.position, [plan, Operation(r.graph)]);
      ClaimIsFound(scope, records, r.specification.outcome.position,
                   [plan, Operation(r.graph), Operation(r.specification)], acquired);
      WorktreeIsFound(scope, records, r.claim.outcome.position, attempt,
                      [plan, Operation(r.graph), Operation(r.specification), Operation(r.claim)]);
      LineageIsFound(scope, records, r.worktree.outcome.position, attempt, Operation(r.worktree));
    }
  }

  /** Five pairs, each found where it is looked for, are the reads. */
  lemma ReadsCompose(scope: Scope, records: seq<JournalRecord>, choice: int, plan: Id, attempt: PlannedTaskAttempt,
                     acquired: Option<Claim>, r: Reads)
    requires GraphPair(scope, records, choice, plan) == Some(r.graph)
    requires SpecificationPair(scope, records, r.graph.outcome.position, [plan, Operation(r.graph)]) ==
             Some(r.specification)
    requires ClaimPair(scope, records, r.specification.outcome.position,
                       [plan, Operation(r.graph), Operation(r.specification)], acquired) == Some(r.claim)
    requires WorktreePair(scope, records, r.claim.outcome.position, attempt,
                          [plan, Operation(r.graph), Operation(r.specification), Operation(r.claim)]) ==
                            Some(r.worktree)
    requires LineagePair(scope, records, r.worktree.outcome.position, attempt, Operation(r.worktree)) == Some(r.lineage)
    ensures FindReads(scope, records, choice, plan, attempt, acquired) == Some(r)
  {
  }

  lemma GraphIsFound(scope: Scope, records: seq<JournalRecord>, after: int, plan: Id)
    ensures var found := GraphPair(scope, records, after, plan);
            found.Some? ==>
              && IsPair(scope, records, after, found.value) && IsGraphIntent(found.value.intent.event, plan)
              && IsGraphOutcome(found.value.outcome.event, Operation(found.value))
  {
    PairIsFound(scope, records, after, (e: Event) => IsGraphIntent(e, plan),
      (e: Event, op: Id) => IsGraphOutcome(e, op));
  }

  lemma SpecificationIsFound(scope: Scope, records: seq<JournalRecord>, after: int, predecessors: seq<Id>)
    ensures var found := SpecificationPair(scope, records, after, predecessors);
            found.Some? ==>
              && IsPair(scope, records, after, found.value) &&
                 IsSpecificationIntent(found.value.intent.event, predecessors)
              && IsSpecificationOutcome(found.value.outcome.event, Operation(found.value))
  {
    PairIsFound(scope, records, after, (e: Event) => IsSpecificationIntent(e, predecessors),
                (e: Event, op: Id) => IsSpecificationOutcome(e, op));
  }

  lemma ClaimIsFound(scope: Scope, records: seq<JournalRecord>, after: int, predecessors: seq<Id>,
                     acquired: Option<Claim>)
    ensures var found := ClaimPair(scope, records, after, predecessors, acquired);
            found.Some? ==>
              && acquired.Some?
              && IsPair(scope, records, after, found.value) && IsClaimIntent(found.value.intent.event, predecessors)
              && IsClaimOutcome(found.value.outcome.event, Operation(found.value), acquired.value)
  {
    if acquired.Some? {
      PairIsFound(scope, records, after, (e: Event) => IsClaimIntent(e, predecessors),
                  (e: Event, op: Id) => IsClaimOutcome(e, op, acquired.value));
    }
  }

  lemma WorktreeIsFound(scope: Scope, records: seq<JournalRecord>, after: int, attempt: PlannedTaskAttempt,
                        predecessors: seq<Id>)
    ensures var found := WorktreePair(scope, records, after, attempt, predecessors);
            found.Some? ==>
              && IsPair(scope, records, after, found.value) &&
                 IsWorktreeIntent(found.value.intent.event, attempt, predecessors)
              && IsWorktreeOutcome(scope, found.value.outcome.event, Operation(found.value), attempt)
  {
    PairIsFound(scope, records, after, (e: Event) => IsWorktreeIntent(e, attempt, predecessors),
                (e: Event, op: Id) => IsWorktreeOutcome(scope, e, op, attempt));
  }

  lemma LineageIsFound(scope: Scope, records: seq<JournalRecord>, after: int, attempt: PlannedTaskAttempt, worktree: Id)
    ensures var found := LineagePair(scope, records, after, attempt, worktree);
            found.Some? ==>
              && IsPair(scope, records, after, found.value) &&
                 IsLineageIntent(found.value.intent.event, attempt, worktree)
              && IsLineageOutcome(found.value.outcome.event, Operation(found.value), attempt)
  {
    PairIsFound(scope, records, after, (e: Event) => IsLineageIntent(e, attempt, worktree),
                (e: Event, op: Id) => IsLineageOutcome(e, op, attempt));
  }

  // ----- What the reads rest on

  function PredecessorsOf(e: Event): seq<Id> {
    match e
    case TrackerReadIntended(r) => if r.OtherTrackerRead? then [] else r.predecessors
    case GitReadIntended(r) => if r.OtherGitRead? then [] else r.predecessors
    case _ => []
  }

  /** No identity among these holds a comma. */
  predicate CommaFree(plan: Id, r: Reads) {
    && AllPlain([plan, Operation(r.graph), Operation(r.specification), Operation(r.claim), Operation(r.worktree)])
    && AllPlain(PredecessorsOf(r.graph.intent.event)) && AllPlain(PredecessorsOf(r.specification.intent.event))
    && AllPlain(PredecessorsOf(r.claim.intent.event)) && AllPlain(PredecessorsOf(r.worktree.intent.event))
    && AllPlain(PredecessorsOf(r.lineage.intent.event))
  }

  /** The comparisons that the searches make. */
  predicate RestsOn(plan: Id, r: Reads) {
    var g, s, c, w := Operation(r.graph), Operation(r.specification), Operation(r.claim), Operation(r.worktree);
    && SameOperationIds(PredecessorsOf(r.graph.intent.event), [plan])
    && SameOperationIds(PredecessorsOf(r.specification.intent.event), [plan, g])
    && SameOperationIds(PredecessorsOf(r.claim.intent.event), [plan, g, s])
    && SameOperationIds(PredecessorsOf(r.worktree.intent.event), [plan, g, s, c])
    && SameOperationIds(PredecessorsOf(r.lineage.intent.event), [w])
  }

  lemma ReadsRestOn(scope: Scope, plan: Id, attempt: PlannedTaskAttempt, acquired: Claim, r: Reads)
    requires AreContinuationReads(scope, plan, attempt, acquired, r)
    ensures RestsOn(plan, r)
  {
    var g, s, c, w := Operation(r.graph), Operation(r.specification), Operation(r.claim), Operation(r.worktree);
    IntentRests(r.graph.intent.event, attempt, [plan], plan);
    IntentRests(r.specification.intent.event, attempt, [plan, g], plan);
    IntentRests(r.claim.intent.event, attempt, [plan, g, s], plan);
    IntentRests(r.worktree.intent.event, attempt, [plan, g, s, c], plan);
    IntentRests(r.lineage.intent.event, attempt, [w], w);
  }

  lemma IntentRests(e: Event, attempt: PlannedTaskAttempt, before: seq<Id>, one: Id)
    ensures IsGraphIntent(e, one) ==> SameOperationIds(PredecessorsOf(e), [one])
    ensures IsSpecificationIntent(e, before) ==> SameOperationIds(PredecessorsOf(e), before)
    ensures IsClaimIntent(e, before) ==> SameOperationIds(PredecessorsOf(e), before)
    ensures IsWorktreeIntent(e, attempt, before) ==> SameOperationIds(PredecessorsOf(e), before)
    ensures IsLineageIntent(e, attempt, one) ==> SameOperationIds(PredecessorsOf(e), [one])
  {
  }

  lemma PlainParts(plan: Id, g: Id, s: Id, c: Id, w: Id)
    requires AllPlain([plan, g, s, c, w])
    ensures AllPlain([plan]) && AllPlain([plan, g]) && AllPlain([plan, g, s]) && AllPlain([plan, g, s, c]) &&
            AllPlain([w])
  {
    var all := [plan, g, s, c, w];
    assert Plain(all[0]) && Plain(all[1]) && Plain(all[2]) && Plain(all[3]) && Plain(all[4]);
  }

  /** Without commas, each read rests on exactly these operations, in some order. */
  lemma PredecessorsAreExact(scope: Scope, plan: Id, attempt: PlannedTaskAttempt, acquired: Claim, r: Reads)
    requires AreContinuationReads(scope, plan, attempt, acquired, r) && CommaFree(plan, r)
    ensures var g, s, c, w := Operation(r.graph), Operation(r.specification), Operation(r.claim), Operation(r.worktree);
            && multiset(PredecessorsOf(r.graph.intent.event)) == multiset([plan])
            && multiset(PredecessorsOf(r.specification.intent.event)) == multiset([plan, g])
            && multiset(PredecessorsOf(r.claim.intent.event)) == multiset([plan, g, s])
            && multiset(PredecessorsOf(r.worktree.intent.event)) == multiset([plan, g, s, c])
            && multiset(PredecessorsOf(r.lineage.intent.event)) == multiset([w])
  {
    ReadsRestOn(scope, plan, attempt, acquired, r);
    ExactPredecessors(plan, r);
  }

  lemma ExactPredecessors(plan: Id, r: Reads)
    requires RestsOn(plan, r) && CommaFree(plan, r)
    ensures var g, s, c, w := Operation(r.graph), Operation(r.specification), Operation(r.claim), Operation(r.worktree);
            && multiset(PredecessorsOf(r.graph.intent.event)) == multiset([plan])
            && multiset(PredecessorsOf(r.specification.intent.event)) == multiset([plan, g])
            && multiset(PredecessorsOf(r.claim.intent.event)) == multiset([plan, g, s])
            && multiset(PredecessorsOf(r.worktree.intent.event)) == multiset([plan, g, s, c])
            && multiset(PredecessorsOf(r.lineage.intent.event)) == multiset([w])
  {
    var g, s, c, w := Operation(r.graph), Operation(r.specification), Operation(r.claim), Operation(r.worktree);
    PlainParts(plan, g, s, c, w);
    ComparisonIsExact(PredecessorsOf(r.graph.intent.event), [plan]);
    ComparisonIsExact(PredecessorsOf(r.specification.intent.event), [plan, g]);
    ComparisonIsExact(PredecessorsOf(r.claim.intent.event), [plan, g, s]);
    ComparisonIsExact(PredecessorsOf(r.worktree.intent.event), [plan, g, s, c]);
    ComparisonIsExact(PredecessorsOf(r.lineage.intent.event), [w]);
  }
}
