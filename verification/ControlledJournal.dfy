/**
 Journals of the scenario's run whose events come in the order of the story, and what the searches of the
 checkpoints find in them.
 */
module ControlledJournal {
  import opened Common
  import opened JsText
  import opened TaskContracts
  import opened Journal
  import opened ControlledScenario
  import opened Continuation
  import opened Ds12
  import opened Ds13

  type Id = JsString

  const DS12_LENGTH := 16
  const DS13_LENGTH := 22

  type Events = seq<Event>

  /** The events of the scenario's run as a journal, at consecutive positions. */
  function RecordAt(es: Events, i: nat): JournalRecord
    requires i < |es|
  {
    JournalRecord(i, RunId(), es[i])
  }

  function Records(es: Events, n: nat): (records: seq<JournalRecord>)
    requires n <= |es|
    ensures |records| == n && forall i :: 0 <= i < n ==> records[i] == RecordAt(es, i)
  {
    seq(n, i requires 0 <= i < n => RecordAt(es, i))
  }

  // ----- Searching it

  lemma {:induction false} WhereNone<T>(items: seq<T>, keep: T -> bool)
    requires forall i :: 0 <= i < |items| ==> !keep(items[i])
    ensures Where(items, keep) == []
  {
    if items != [] {
      WhereNone(items[1..], keep);
    }
  }

  lemma OnlyAt<T>(items: seq<T>, keep: T -> bool, k: nat)
    requires k < |items| && keep(items[k]) && forall i :: 0 <= i < |items| && i != k ==> !keep(items[i])
    ensures Only(items, keep) == Some(items[k])
  {
    WhereNone(items[..k], keep);
    WhereNone(items[k + 1..], keep);
    WhereAppend(items[..k], [items[k]], keep);
    WhereAppend(items[..k] + [items[k]], items[k + 1..], keep);
    assert items[..k] + [items[k]] + items[k + 1..] == items;
    assert Where([items[k]], keep) == [items[k]];
  }

  lemma {:induction false} FirstAt<T>(items: seq<T>, keep: T -> bool, k: nat)
    requires k < |items| && keep(items[k]) && forall i :: 0 <= i < k ==> !keep(items[i])
    ensures First(items, keep) == Some(items[k])
  {
    if k > 0 {
      FirstAt(items[1..], keep, k - 1);
    }
  }

  /** From `from` on, before `n`, event `k` is the only one of this kind. */
  ghost predicate OnlyEvent(es: Events, isWanted: Event -> bool, from: nat, n: nat, k: nat) {
    && from <= k < n <= |es| && isWanted(es[k])
    && forall i :: from <= i < n && i != k ==> !isWanted(es[i])
  }

  lemma FoundAt(es: Events, scope: Scope, isWanted: Event -> bool, n: nat, k: nat)
    requires OnlyEvent(es, isWanted, 0, n, k)
    ensures Only(Records(es, n), Found(scope, isWanted)) == Some(RecordAt(es, k))
  {
    var keep := Found(scope, isWanted);
    assert forall r :: keep(r) <==> InScope(scope, r) && isWanted(r.event);
    OnlyAt(Records(es, n), keep, k);
  }

  lemma WantedAt(es: Events, scope: Scope, isWanted: Event -> bool, n: nat, after: nat, k: nat)
    requires OnlyEvent(es, isWanted, after + 1, n, k)
    ensures Only(Records(es, n), Wanted(scope, after, isWanted)) == Some(RecordAt(es, k))
  {
    var keep := Wanted(scope, after, isWanted);
    assert forall r :: keep(r) <==> Later(scope, r, after) && isWanted(r.event);
    OnlyAt(Records(es, n), keep, k);
  }

  lemma PairAt(es: Events, scope: Scope, isIntent: Event -> bool, isOutcome: (Event, Id) -> bool, n: nat, after: nat,
               k: nat)
    requires OnlyEvent(es, isIntent, after + 1, n, k)
    requires OnlyEvent(es, Of(isOutcome, OperationOf(es[k])), k + 1, n, k + 1)
    ensures FindPair(scope, Records(es, n), after, isIntent, isOutcome) ==
            Some(Pair(RecordAt(es, k), RecordAt(es, k + 1)))
  {
    WantedAt(es, scope, isIntent, n, after, k);
    WantedAt(es, scope, Of(isOutcome, OperationOf(es[k])), n, k, k + 1);
  }

  // ----- The kinds of events, in order

  predicate IsGraphRead(e: Event) { e.TrackerReadIntended? && e.trackerRead.ReadTrackerGraph? }
  predicate IsSpecificationRead(e: Event) { e.TrackerReadIntended? && e.trackerRead.ReadTaskWorkSpecification? }
  predicate IsClaimRead(e: Event) { e.TrackerReadIntended? && e.trackerRead.ReadTaskClaim? }
  predicate IsGraphFacts(e: Event) { e.TrackerFactsObserved? && e.facts.UnchangedFactsReconfirmed? }
  predicate IsSpecificationFacts(e: Event) { e.TrackerFactsObserved? && e.facts.FocusedSpecificationFacts? }
  predicate IsClaimFacts(e: Event) { e.TrackerFactsObserved? && e.facts.FocusedClaimFacts? }
  predicate IsWorktreeRead(e: Event) { e.GitReadIntended? && e.gitRead.ReadTaskWorktree? }
  predicate IsLineageRead(e: Event) { e.GitReadIntended? && e.gitRead.ReadTargetLineage? }

  /** Plans of A1, C1 and B1 with C1's responsibility and B's claim, the choice, and the five reads. */
  predicate Shape12(es: Events) {
    && |es| >= DS12_LENGTH
    && es[0].TaskAttemptPlanned? && es[1].TaskAttemptPlanned? && es[2].ResponsibilityBegan?
    && es[3].TaskClaimAcquired? && es[4].TaskAttemptPlanned? && es[5].AttemptChoiceApplied?
    && IsGraphRead(es[6]) && IsGraphFacts(es[7]) && IsSpecificationRead(es[8]) && IsSpecificationFacts(es[9])
    && IsClaimRead(es[10]) && IsClaimFacts(es[11]) && IsWorktreeRead(es[12]) && es[13].WorktreeObserved?
    && IsLineageRead(es[14]) && es[15].TargetLineageObserved?
  }

  /** After them A1's end, the authorization, Resume, its answer and B1's report. */
  predicate Shape13(es: Events) {
    && Shape12(es) && |es| == DS13_LENGTH
    && es[16].ExecutorStateObserved? && es[17].ExecutorWorkReported? && es[18].ContinuationAuthorized?
    && IsResume(es[19]) && es[20].CommandResponseObserved? && es[21].ExecutorWorkReported?
  }

  /** A journal as far as DS-12, or all of it as far as DS-13. */
  predicate Reaches(es: Events, n: nat) {
    (n == DS12_LENGTH && Shape12(es)) || (n == DS13_LENGTH && Shape13(es))
  }

  lemma ReadKinds(es: Events, n: nat, i: nat)
    requires Reaches(es, n) && i < n
    ensures IsGraphRead(es[i]) <==> i == 6
    ensures IsGraphFacts(es[i]) <==> i == 7
    ensures IsSpecificationRead(es[i]) <==> i == 8
    ensures IsSpecificationFacts(es[i]) <==> i == 9
    ensures IsClaimRead(es[i]) <==> i == 10
    ensures IsClaimFacts(es[i]) <==> i == 11
    ensures IsWorktreeRead(es[i]) <==> i == 12
    ensures es[i].WorktreeObserved? <==> i == 13
    ensures IsLineageRead(es[i]) <==> i == 14
    ensures es[i].TargetLineageObserved? <==> i == 15
  {
  }

  lemma OtherKinds(es: Events, n: nat, i: nat)
    requires Reaches(es, n) && i < n
    ensures es[i].TaskAttemptPlanned? <==> i == 0 || i == 1 || i == 4
    ensures es[i].ResponsibilityBegan? <==> i == 2
    ensures es[i].TaskClaimAcquired? <==> i == 3
    ensures es[i].AttemptChoiceApplied? <==> i == 5
    ensures es[i].ExecutorStateObserved? <==> i == 16
    ensures es[i].ExecutorWorkReported? <==> i == 17 || i == 21
    ensures es[i].ContinuationAuthorized? <==> i == 18
    ensures es[i].CommandIntended? <==> i == 19
    ensures es[i].CommandResponseObserved? <==> i == 20
    ensures !es[i].TaskClaimAcquisitionIntended? && !es[i].WorktreeReconciliationIntended?
  {
  }

  // ----- The continuation reads are found

  function PairIn(es: Events, k: nat): Pair
    requires k + 1 < |es|
  {
    Pair(RecordAt(es, k), RecordAt(es, k + 1))
  }

  function ReadsIn(es: Events): Reads
    requires |es| >= DS12_LENGTH
  {
    Reads(PairIn(es, 6), PairIn(es, 8), PairIn(es, 10), PairIn(es, 12), PairIn(es, 14))
  }

  predicate Plans(es: Events)
    requires Shape12(es)
  {
    && es[0].plannedAttempt == A1() && es[1].plannedAttempt == C1() && es[2].plannedAttempt == C1()
    && es[4].plannedAttempt == B1() && es[3].claim.taskId == TaskB() && IsExactChoice(es[5], B1())
  }

  /** What the events as far as DS-12 say. */
  ghost predicate Content12(es: Events)
    requires Shape12(es)
  {
    Plans(es) && AreContinuationReads(ScenarioRun, es[4].operationId, B1(), es[3].claim, ReadsIn(es))
  }

  lemma GraphAt(es: Events, scope: Scope, n: nat, plan: Id)
    requires Reaches(es, n) && IsGraphIntent(es[6], plan) && IsGraphOutcome(es[7], OperationOf(es[6]))
    ensures GraphPair(scope, Records(es, n), 5, plan) == Some(PairIn(es, 6))
  {
    var isIntent, isOutcome := (e: Event) => IsGraphIntent(e, plan), (e: Event, op: Id) => IsGraphOutcome(e, op);
    forall i | 0 <= i < n ensures isIntent(es[i]) <==> i == 6 {
      ReadKinds(es, n, i);
    }
    forall i | 0 <= i < n ensures IsGraphOutcome(es[i], OperationOf(es[6])) <==> i == 7 {
      ReadKinds(es, n, i);
    }
    PairAt(es, scope, isIntent, isOutcome, n, 5, 6);
  }

  lemma SpecificationAt(es: Events, scope: Scope, n: nat, before: seq<Id>)
    requires Reaches(es, n) && IsSpecificationIntent(es[8], before) && IsSpecificationOutcome(es[9], OperationOf(es[8]))
    ensures SpecificationPair(scope, Records(es, n), 7, before) == Some(PairIn(es, 8))
  {
    var isIntent, isOutcome :=
      (e: Event) => IsSpecificationIntent(e, before), (e: Event, op: Id) => IsSpecificationOutcome(e, op);
    forall i | 0 <= i < n ensures isIntent(es[i]) <==> i == 8 {
      ReadKinds(es, n, i);
    }
    forall i | 0 <= i < n ensures IsSpecificationOutcome(es[i], OperationOf(es[8])) <==> i == 9 {
      ReadKinds(es, n, i);
    }
    PairAt(es, scope, isIntent, isOutcome, n, 7, 8);
  }

  lemma ClaimAt(es: Events, scope: Scope, n: nat, before: seq<Id>, acquired: Claim)
    requires Reaches(es, n) && IsClaimIntent(es[10], before) && IsClaimOutcome(es[11], OperationOf(es[10]), acquired)
    ensures ClaimPair(scope, Records(es, n), 9, before, Some(acquired)) == Some(PairIn(es, 10))
  {
    var isIntent, isOutcome :=
      (e: Event) => IsClaimIntent(e, before), (e: Event, op: Id) => IsClaimOutcome(e, op, Some(acquired).value);
    forall i | 0 <= i < n ensures isIntent(es[i]) <==> i == 10 {
      ReadKinds(es, n, i);
    }
    forall i | 0 <= i < n ensures IsClaimOutcome(es[i], OperationOf(es[10]), acquired) <==> i == 11 {
      ReadKinds(es, n, i);
    }
    PairAt(es, scope, isIntent, isOutcome, n, 9, 10);
  }

  lemma WorktreeAt(es: Events, scope: Scope, n: nat, attempt: PlannedTaskAttempt, before: seq<Id>)
    requires Reaches(es, n) && IsWorktreeIntent(es[12], attempt, before)
    requires IsWorktreeOutcome(scope, es[13], OperationOf(es[12]), attempt)
    ensures WorktreePair(scope, Records(es, n), 11, attempt, before) == Some(PairIn(es, 12))
  {
    var isIntent, isOutcome :=
      (e: Event) => IsWorktreeIntent(e, attempt, before),
        (e: Event, op: Id) => IsWorktreeOutcome(scope, e, op, attempt);
    forall i | 0 <= i < n ensures isIntent(es[i]) <==> i == 12 {
      ReadKinds(es, n, i);
    }
    forall i | 0 <= i < n ensures IsWorktreeOutcome(scope, es[i], OperationOf(es[12]), attempt) <==> i == 13 {
      ReadKinds(es, n, i);
    }
    PairAt(es, scope, isIntent, isOutcome, n, 11, 12);
  }

  lemma LineageAt(es: Events, scope: Scope, n: nat, attempt: PlannedTaskAttempt, worktree: Id)
    requires Reaches(es, n) && IsLineageIntent(es[14], attempt, worktree)
    requires IsLineageOutcome(es[15], OperationOf(es[14]), attempt)
    ensures LineagePair(scope, Records(es, n), 13, attempt, worktree) == Some(PairIn(es, 14))
  {
    var isIntent, isOutcome :=
      (e: Event) => IsLineageIntent(e, attempt, worktree), (e: Event, op: Id) => IsLineageOutcome(e, op, attempt);
    forall i | 0 <= i < n ensures isIntent(es[i]) <==> i == 14 {
      ReadKinds(es, n, i);
    }
    forall i | 0 <= i < n ensures IsLineageOutcome(es[i], OperationOf(es[14]), attempt) <==> i == 15 {
      ReadKinds(es, n, i);
    }
    PairAt(es, scope, isIntent, isOutcome, n, 13, 14);
  }

  /** The worktree read that DS-13 accepts is one that DS-12 accepts. */
  lemma StricterHead(scope: Scope, e: Event, operation: Id, attempt: PlannedTaskAttempt)
    requires IsWorktreeOutcome(ScenarioRun, e, operation, attempt)
    ensures IsWorktreeOutcome(scope, e, operation, attempt)
  {
  }

  lemma ReadsAreFound(es: Events, scope: Scope, n: nat)
    requires Reaches(es, n) && Content12(es)
    ensures FindReads(scope, Records(es, n), 5, es[4].operationId, B1(), Some(es[3].claim)) == Some(ReadsIn(es))
  {
    var plan, r := es[4].operationId, ReadsIn(es);
    GraphAt(es, scope, n, plan);
    SpecificationAt(es, scope, n, [plan, Operation(r.graph)]);
    ClaimAt(es, scope, n, [plan, Operation(r.graph), Operation(r.specification)], es[3].claim);
    StricterHead(scope, es[13], Operation(r.worktree), B1());
    WorktreeAt(es, scope, n, B1(), [plan, Operation(r.graph), Operation(r.specification), Operation(r.claim)]);
    LineageAt(es, scope, n, B1(), Operation(r.worktree));
    ReadsCompose(scope, Records(es, n), 5, plan, B1(), Some(es[3].claim), r);
  }
}
