/** Journals that DS-12 and DS-13 accept: every story-shaped journal with the right contents, and one such story. */
module AcceptedJournals {
  import opened Common
  import opened JsText
  import opened TaskContracts
  import opened Journal
  import opened ControlledScenario
  import opened Continuation
  import opened Ds12
  import opened Ds13
  import opened ControlledJournal

  type Id = JsString

  // ----- Identities that must differ

  lemma TasksDiffer()
    ensures TaskA() != TaskB() && TaskA() != TaskD() && TaskB() != TaskC() && TaskB() != TaskD()
    ensures TaskB() != TaskE()
  {
    assert TaskA()[0] == 65 && TaskB()[0] == 66 && TaskC()[0] == 67 && TaskD()[0] == 68 && TaskE()[0] == 69;
  }

  lemma AttemptsDiffer()
    ensures AttemptA1() != AttemptB1() && AttemptA1() != AttemptC1() && AttemptB1() != AttemptC1()
  {
    assert AttemptA1()[8] == 65 && AttemptB1()[8] == 66 && AttemptC1()[8] == 67;
  }

  lemma PlannedDiffer()
    ensures A1() != B1() && A1() != C1() && B1() != C1()
    ensures A1().taskId != TaskB() && C1().taskId != TaskB()
  {
    AttemptsDiffer();
    TasksDiffer();
  }

  // ----- DS-12

  lemma PlanAt(es: Events, n: nat)
    requires Reaches(es, n) && Plans(es)
    ensures PlanOperation(Records(es, n), B1()) == Some(es[4].operationId)
  {
    PlannedDiffer();
    var keep := IsPlanOf(B1());
    forall i | 0 <= i < n ensures keep(Records(es, n)[i]) <==> i == 4 {
      OtherKinds(es, n, i);
    }
    FirstAt(Records(es, n), keep, 4);
  }

  lemma ClaimRecordAt(es: Events, n: nat)
    requires Reaches(es, n) && Plans(es)
    ensures AcquiredClaim(Records(es, n)) == Some(es[3].claim)
  {
    forall i | 0 <= i < n ensures IsBClaim(Records(es, n)[i]) <==> i == 3 {
      OtherKinds(es, n, i);
    }
    FirstAt(Records(es, n), IsBClaim, 3);
  }

  lemma ChoiceAt(es: Events, scope: Scope, n: nat)
    requires Reaches(es, n) && Plans(es)
    ensures ExactChoice(scope, Records(es, n), B1()) == Some(RecordAt(es, 5))
  {
    var isChoice := (e: Event) => IsExactChoice(e, B1());
    forall i | 0 <= i < n ensures isChoice(es[i]) <==> i == 5 {
      OtherKinds(es, n, i);
    }
    FoundAt(es, scope, isChoice, n, 5);
  }

  lemma HistoryAt(es: Events, n: nat)
    requires Reaches(es, n) && Content12(es)
    ensures ContinuationHistory(Records(es, n), B1()) ==
            Some(History(RecordAt(es, 5), es[4].operationId, es[3].claim, ReadsIn(es)))
  {
    PlanAt(es, n);
    ClaimRecordAt(es, n);
    ChoiceAt(es, AnyRun, n);
    ReadsAreFound(es, AnyRun, n);
  }

  lemma NothingPremature(es: Events)
    requires Shape12(es)
    ensures NoPrematureBAction(Records(es, DS12_LENGTH), 5)
  {
    forall i | 0 <= i < DS12_LENGTH ensures !IsPrematureBAction(Records(es, DS12_LENGTH)[i].event) {
      OtherKinds(es, DS12_LENGTH, i);
    }
  }

  lemma BeganAt(es: Events, n: nat)
    requires Reaches(es, n) && Plans(es)
    ensures First(Records(es, n), BeganC1) == Some(RecordAt(es, 2))
  {
    forall i | 0 <= i < n ensures BeganC1(Records(es, n)[i]) <==> i == 2 {
      OtherKinds(es, n, i);
    }
    FirstAt(Records(es, n), BeganC1, 2);
  }

  /** The publication at DS-12: A1 and D1 hold the two positions, B1 is ready and proposed. */
  function Publication12(basis: Witness): Publication {
    Publication(
      Some(GraphG2()), CAPACITY_P2,
      [FreshResponsibility(B1(), Ready(OtherProgress)), FreshResponsibility(C1(), TaskLifecycleConstraint)],
      Some(DS12_LENGTH),
      [Correlation(AttemptA1(), RunId()), Correlation(AttemptD1(), RunId())],
      map[TaskA() := ExactAttemptHeld(A1()), TaskD() := ExactAttemptHeld(D1())],
      CAPACITY_P2,
      [Proposal(ResumeAfterCurrentFacts(B1(), basis), ReserveOrReuse(TaskB()),
                AttemptProtocol(Correlation(B1().attemptId, B1().runId)), Some(TaskB()))])
  }

  lemma ReadyEvidence(d: Disposition, others: seq<Evidence>)
    requires forall i :: 0 <= i < |others| ==> !IsFreshB1(others[i])
    ensures var all := [FreshResponsibility(B1(), d)] + others;
            First(all, IsFreshB1) == Only(all, IsFreshB1) == Some(FreshResponsibility(B1(), d))
  {
    var all := [FreshResponsibility(B1(), d)] + others;
    FirstAt(all, IsFreshB1, 0);
    OnlyAt(all, IsFreshB1, 0);
  }

  lemma TwoOccupied<T>(a: Id, b: Id, x: T, y: T)
    requires a != b
    ensures |map[a := x, b := y]| == 2
  {
    assert map[a := x, b := y].Keys == {a, b};
  }

  lemma Evidence12(basis: Witness)
    ensures var pub := Publication12(basis);
            && First(pub.evidence, IsFreshB1) == Some(FreshResponsibility(B1(), Ready(OtherProgress)))
            && RetainsReadyB(pub, B1())
            && Only(pub.evidence, IsFreshC1) == Some(FreshResponsibility(C1(), TaskLifecycleConstraint))
  {
    AttemptsDiffer();
    var b, c := FreshResponsibility(B1(), Ready(OtherProgress)), FreshResponsibility(C1(), TaskLifecycleConstraint);
    assert Publication12(basis).evidence == [b] + [c];
    ReadyEvidence(Ready(OtherProgress), [c]);
    OnlyAt([b, c], IsFreshC1, 1);
  }

  lemma Positions12(basis: Witness)
    ensures var pub := Publication12(basis);
            |pub.occupied| == 2 && Holds(pub.occupied, TaskA(), AttemptA1()) &&
              Holds(pub.occupied, TaskD(), AttemptD1())
  {
    TasksDiffer();
    TwoOccupied(TaskA(), TaskD(), ExactAttemptHeld(A1()), ExactAttemptHeld(D1()));
  }

  lemma Proposals12(basis: Witness)
    ensures |Where(Publication12(basis).proposals, (p: Proposal) => IsWaitingBProposal(p, B1(), basis))| == 1
  {
    var keep := (p: Proposal) => IsWaitingBProposal(p, B1(), basis);
    OnlyAt(Publication12(basis).proposals, keep, 0);
  }

  /** Every such journal is accepted at DS-12 with this publication. */
  lemma AcceptedAtDs12(es: Events)
    requires Shape12(es) && Content12(es)
    ensures Ds12Complete(Publication12(WitnessOf(ReadsIn(es))), Records(es, DS12_LENGTH))
  {
    var basis := WitnessOf(ReadsIn(es));
    Evidence12(basis);
    Positions12(basis);
    Proposals12(basis);
    HistoryAt(es, DS12_LENGTH);
    BeganAt(es, DS12_LENGTH);
    NothingPremature(es);
  }

  // ----- DS-13

  lemma PlanRecordAt(es: Events, n: nat, attempt: PlannedTaskAttempt, k: nat)
    requires Reaches(es, n) && Plans(es)
    requires (attempt == A1() && k == 0) || (attempt == C1() && k == 1) || (attempt == B1() && k == 4)
    ensures PlanRecord(Records(es, n), attempt) == Some(RecordAt(es, k))
  {
    PlannedDiffer();
    var isPlan := (e: Event) => e.TaskAttemptPlanned? && e.plannedAttempt == attempt;
    forall i | 0 <= i < n ensures isPlan(es[i]) <==> i == k {
      OtherKinds(es, n, i);
    }
    FoundAt(es, ScenarioRun, isPlan, n, k);
  }

  lemma AcquiredAt(es: Events, n: nat)
    requires Reaches(es, n) && Plans(es)
    ensures Acquired(Records(es, n)) == Some(es[3].claim)
  {
    var isClaim := (e: Event) => e.TaskClaimAcquired? && e.claim.taskId == TaskB();
    forall i | 0 <= i < n ensures isClaim(es[i]) <==> i == 3 {
      OtherKinds(es, n, i);
    }
    FoundAt(es, ScenarioRun, isClaim, n, 3);
  }

  function ContinuedIn(es: Events): Continued
    requires Shape12(es)
  {
    Continued(RecordAt(es, 4), RecordAt(es, 5), es[3].claim, ReadsIn(es))
  }

  lemma ContinuedAt(es: Events, n: nat)
    requires Reaches(es, n) && Content12(es)
    ensures ContinuedHistory(Records(es, n)) == Some(ContinuedIn(es))
  {
    PlanRecordAt(es, n, B1(), 4);
    AcquiredAt(es, n);
    ChoiceAt(es, ScenarioRun, n);
    ReadsAreFound(es, ScenarioRun, n);
    ContinuedCompose(Records(es, n), ContinuedIn(es));
  }

  lemma ContinuedCompose(records: seq<JournalRecord>, c: Continued)
    requires PlanRecord(records, B1()) == Some(c.plan) && c.plan.event.TaskAttemptPlanned?
    requires ExactChoice(ScenarioRun, records, B1()) == Some(c.choice) && Acquired(records) == Some(c.acquired)
    requires c.plan.position < c.choice.position
    requires FindReads(ScenarioRun, records, c.choice.position, c.plan.event.operationId, B1(), Some(c.acquired)) ==
             Some(c.found)
    ensures ContinuedHistory(records) == Some(c)
  {
  }

  /** What the events from A1's end on say. */
  predicate Content13(es: Events)
    requires Shape13(es)
  {
    && IsA1State(es[16]) && IsA1Report(es[17]) && es[17].ordinal == A1_TERMINAL_ORDINAL
    && es[17].report == es[16].state.report
    && IsAuthorization(es[18], ReadsIn(es))
    && es[19].plannedAttempt == B1()
    && AnswersB1(es[20], es[19].ordinal) && es[20].report == WorkExecuting(Correlation(AttemptB1(), RunId()))
    && es[21].report == es[20].report && es[21].ordinal == es[20].commandOrdinal
  }

  lemma A1StateAt(es: Events)
    requires Shape13(es) && Content13(es)
    ensures Only(Records(es, DS13_LENGTH), Wanted(ScenarioRun, 15, IsA1State)) == Some(RecordAt(es, 16))
  {
    forall i | 0 <= i < DS13_LENGTH ensures IsA1State(es[i]) <==> i == 16 {
      OtherKinds(es, DS13_LENGTH, i);
    }
    WantedAt(es, ScenarioRun, IsA1State, DS13_LENGTH, 15, 16);
  }

  lemma A1ReportAt(es: Events)
    requires Shape13(es) && Content13(es)
    ensures Only(Records(es, DS13_LENGTH), Wanted(ScenarioRun, 16, IsA1Report)) == Some(RecordAt(es, 17))
  {
    forall i | 0 <= i < DS13_LENGTH ensures IsA1Report(es[i]) <==> i == 17 {
      OtherKinds(es, DS13_LENGTH, i);
    }
    WantedAt(es, ScenarioRun, IsA1Report, DS13_LENGTH, 16, 17);
  }

  lemma A1Compose(records: seq<JournalRecord>, after: int, a: A1End)
    requires PlanRecord(records, A1()).Some?
    requires Only(records, Wanted(ScenarioRun, after, IsA1State)) == Some(a.state)
    requires Only(records, Wanted(ScenarioRun, a.state.position, IsA1Report)) == Some(a.report)
    requires a.state.event.ExecutorStateObserved? && a.state.event.state.ExactExecutorReport?
    requires a.report.event == ExecutorWorkReported(A1_TERMINAL_ORDINAL, a.state.event.state.report)
    ensures A1Terminal(records, after) == Some(a)
  {
    ReportComparisonIsEquality(a.state.event.state.report, a.report.event.report);
  }

  lemma A1EndAt(es: Events)
    requires Shape13(es) && Plans(es) && Content13(es)
    ensures A1Terminal(Records(es, DS13_LENGTH), 15) == Some(A1End(RecordAt(es, 16), RecordAt(es, 17)))
  {
    PlanRecordAt(es, DS13_LENGTH, A1(), 0);
    A1StateAt(es);
    A1ReportAt(es);
    A1Compose(Records(es, DS13_LENGTH), 15, A1End(RecordAt(es, 16), RecordAt(es, 17)));
  }

  lemma AuthorizationAt(es: Events)
    requires Shape13(es) && Content13(es)
    ensures Authorization(Records(es, DS13_LENGTH), 17, ReadsIn(es)) == Some(RecordAt(es, 18))
  {
    forall i | 0 <= i < DS13_LENGTH ensures AuthorizesB(es[i]) <==> i == 18 {
      OtherKinds(es, DS13_LENGTH, i);
    }
    FoundAt(es, ScenarioRun, AuthorizesB, DS13_LENGTH, 18);
  }

  lemma ResumeAt(es: Events)
    requires Shape13(es) && Content13(es)
    ensures ResumeIntent(Records(es, DS13_LENGTH)) == Some(RecordAt(es, 19))
    ensures ResumeResponse(Records(es, DS13_LENGTH), RecordAt(es, 19)) == Some(RecordAt(es, 20))
  {
    var isAnswer := (e: Event) => AnswersB1(e, es[19].ordinal);
    forall i | 0 <= i < DS13_LENGTH ensures (IsResume(es[i]) <==> i == 19) && (isAnswer(es[i]) <==> i == 20) {
      OtherKinds(es, DS13_LENGTH, i);
    }
    FoundAt(es, ScenarioRun, IsResume, DS13_LENGTH, 19);
    FoundAt(es, ScenarioRun, isAnswer, DS13_LENGTH, 20);
  }

  lemma BReportAt(es: Events)
    requires Shape13(es) && Content13(es)
    ensures BReport(Records(es, DS13_LENGTH), RecordAt(es, 20)) == Some(RecordAt(es, 21))
  {
    forall i | 21 <= i < DS13_LENGTH ensures ReportsB1(es[i]) <==> i == 21 {
      OtherKinds(es, DS13_LENGTH, i);
    }
    WantedAt(es, ScenarioRun, ReportsB1, DS13_LENGTH, 20, 21);
    ReportComparisonIsEquality(es[21].report, es[20].report);
  }

  function CourseIn(es: Events): Course
    requires Shape13(es)
  {
    Course(ContinuedIn(es), A1End(RecordAt(es, 16), RecordAt(es, 17)), RecordAt(es, 18),
           Resumed(RecordAt(es, 19), RecordAt(es, 20), RecordAt(es, 21)))
  }

  lemma CourseAt(es: Events)
    requires Shape13(es) && Content12(es) && Content13(es)
    ensures FullCourse(Records(es, DS13_LENGTH)) == Some(CourseIn(es))
  {
    ContinuedAt(es, DS13_LENGTH);
    A1EndAt(es);
    AuthorizationAt(es);
    ResumedAt(es);
    CourseCompose(Records(es, DS13_LENGTH), CourseIn(es));
  }

  lemma ResumedAt(es: Events)
    requires Shape13(es) && Content13(es)
    ensures ResumeHistory(Records(es, DS13_LENGTH), RecordAt(es, 18)) ==
            Some(Resumed(RecordAt(es, 19), RecordAt(es, 20), RecordAt(es, 21)))
  {
    ResumeAt(es);
    BReportAt(es);
  }

  lemma CourseCompose(records: seq<JournalRecord>, h: Course)
    requires ContinuedHistory(records) == Some(h.continued)
    requires A1Terminal(records, h.continued.found.lineage.outcome.position) == Some(h.a1)
    requires Authorization(records, h.a1.report.position, h.continued.found) == Some(h.authorization)
    requires ResumeHistory(records, h.authorization) == Some(h.resumed)
    ensures FullCourse(records) == Some(h)
  {
  }

  lemma SinglesAt(es: Events)
    requires Shape13(es) && Plans(es)
    ensures SingleContinueChoice(Records(es, DS13_LENGTH)) && SingleExactBPlan(Records(es, DS13_LENGTH))
  {
    PlannedDiffer();
    var isChoice := (e: Event) =>
      e.AttemptChoiceApplied? && e.choice.ContinueExistingAttempt? && e.plannedAttempt.taskId == TaskB();
    var isPlan := (e: Event) => e.TaskAttemptPlanned? && e.plannedAttempt.taskId == TaskB();
    forall i | 0 <= i < DS13_LENGTH ensures (isChoice(es[i]) <==> i == 5) && (isPlan(es[i]) <==> i == 4) {
      OtherKinds(es, DS13_LENGTH, i);
    }
    FoundAt(es, ScenarioRun, isChoice, DS13_LENGTH, 5);
    FoundAt(es, ScenarioRun, isPlan, DS13_LENGTH, 4);
  }

  lemma NoMutation(es: Events, i: nat)
    requires Shape13(es) && 5 < i < DS13_LENGTH
    ensures !IsFreshMutation(es[i]) && !IsForbiddenCommand(es[i])
  {
    OtherKinds(es, DS13_LENGTH, i);
  }

  /** The reads are about B and follow the choice, not a lull. */
  predicate ReadsOfB(es: Events)
    requires Shape12(es)
  {
    && es[6].trackerRead.cause.AttemptContinuation? && es[8].trackerRead.taskId == TaskB()
    && es[10].trackerRead.taskId == TaskB()
    && es[12].gitRead.plannedAttempt.taskId == TaskB() && es[14].gitRead.plannedAttempt.taskId == TaskB()
  }

  lemma ReadsAreOfB(es: Events)
    requires Shape12(es) && Content12(es)
    ensures ReadsOfB(es)
  {
  }

  lemma NoEWork(es: Events, i: nat)
    requires Shape13(es) && ReadsOfB(es) && 5 < i < DS13_LENGTH
    ensures !IsEWork(es[i]) && !IsReconfirmation(es[i])
  {
    TasksDiffer();
    NoMutation(es, i);
    ReadKinds(es, DS13_LENGTH, i);
    IntentKinds(es, i);
  }

  lemma IntentKinds(es: Events, i: nat)
    requires Shape13(es) && i < DS13_LENGTH
    ensures es[i].TrackerReadIntended? ==> i == 6 || i == 8 || i == 10
    ensures es[i].GitReadIntended? ==> i == 12 || i == 14
  {
  }

  lemma NothingForbidden(es: Events)
    requires Shape13(es) && ReadsOfB(es)
    ensures NoForbiddenWork(Records(es, DS13_LENGTH), 5)
  {
    forall i | 5 < i < DS13_LENGTH
      ensures !IsEWork(es[i]) && !IsFreshMutation(es[i]) && !IsReconfirmation(es[i]) && !IsForbiddenCommand(es[i])
    {
      NoMutation(es, i);
      NoEWork(es, i);
    }
  }

  /** The publication at DS-13: B1 and D1 hold the positions, A1 is concluded, C1 retained, E not proposed. */
  function Publication13(report: ExecutorReport, ordinal: nat): Publication {
    Publication(
      Some(GraphG2()), CAPACITY_P2,
      [FreshResponsibility(B1(), Ready(ReportAccepted(ordinal))), FreshResponsibility(C1(), TaskLifecycleConstraint),
       FreshResponsibility(A1(), Concluded(report))],
      Some(DS13_LENGTH),
      [Correlation(AttemptB1(), RunId()), Correlation(AttemptD1(), RunId())],
      map[TaskB() := ExactAttemptHeld(B1()), TaskD() := ExactAttemptHeld(D1())],
      CAPACITY_P2,
      [])
  }

  lemma ReadyEvidence13(report: ExecutorReport, ordinal: nat)
    ensures ReadyBEvidence(Publication13(report, ordinal), ordinal)
  {
    AttemptsDiffer();
    OnlyAt(Publication13(report, ordinal).evidence, IsFreshB1, 0);
  }

  lemma AttemptEvidence13(report: ExecutorReport, ordinal: nat, attempt: PlannedTaskAttempt, k: nat)
    requires (attempt == C1() && k == 1) || (attempt == A1() && k == 2)
    ensures var all := Publication13(report, ordinal).evidence;
            Only(all, (e: Evidence) => e.FreshResponsibility? && e.plannedAttempt == attempt) == Some(all[k])
  {
    PlannedDiffer();
    OnlyAt(Publication13(report, ordinal).evidence,
           (e: Evidence) => e.FreshResponsibility? && e.plannedAttempt == attempt, k);
  }

  lemma A1Evidence13(report: ExecutorReport, ordinal: nat)
    ensures A1Evidence(Publication13(report, ordinal), report)
  {
    AttemptEvidence13(report, ordinal, A1(), 2);
    ReportComparisonIsEquality(report, report);
  }

  lemma Positions13(report: ExecutorReport, ordinal: nat)
    ensures FinalPositions(Publication13(report, ordinal))
  {
    TasksDiffer();
    TwoOccupied(TaskB(), TaskD(), ExactAttemptHeld(B1()), ExactAttemptHeld(D1()));
  }

  lemma BeganRecordAt(es: Events)
    requires Shape13(es) && Plans(es)
    ensures Only(Records(es, DS13_LENGTH), Found(ScenarioRun, (e: Event) => e.ResponsibilityBegan? &&
            e.plannedAttempt == C1()))
            == Some(RecordAt(es, 2))
  {
    var isBegan := (e: Event) => e.ResponsibilityBegan? && e.plannedAttempt == C1();
    forall i | 0 <= i < DS13_LENGTH ensures isBegan(es[i]) <==> i == 2 {
      OtherKinds(es, DS13_LENGTH, i);
    }
    FoundAt(es, ScenarioRun, isBegan, DS13_LENGTH, 2);
  }

  lemma C1Evidence13(es: Events, report: ExecutorReport, ordinal: nat)
    requires Shape13(es) && Plans(es)
    ensures RetainedC1Evidence(Publication13(report, ordinal), Records(es, DS13_LENGTH))
  {
    PlanRecordAt(es, DS13_LENGTH, C1(), 1);
    BeganRecordAt(es);
    AttemptEvidence13(report, ordinal, C1(), 1);
  }

  lemma Published13(es: Events)
    requires Shape13(es) && Plans(es)
    ensures PublicationMatches(Publication13(es[17].report, es[21].ordinal), Records(es, DS13_LENGTH), CourseIn(es))
  {
    ReadyEvidence13(es[17].report, es[21].ordinal);
    A1Evidence13(es[17].report, es[21].ordinal);
    C1Evidence13(es, es[17].report, es[21].ordinal);
    Positions13(es[17].report, es[21].ordinal);
  }

  /** Every such journal is accepted at DS-13 with this publication. */
  lemma AcceptedAtDs13(es: Events)
    requires Shape13(es) && Content12(es) && Content13(es)
    ensures Ds13Complete(Publication13(es[17].report, es[21].ordinal), Records(es, DS13_LENGTH))
  {
    CourseAt(es);
    Published13(es);
    SinglesAt(es);
    ReadsAreOfB(es);
    NothingForbidden(es);
  }

  // ----- One such story

  const PLAN: Id := [80]
  const GRAPH: Id := [71]
  const SPECIFICATION: Id := [83]
  const CLAIM: Id := [67]
  const WORKTREE: Id := [87]
  const LINEAGE: Id := [76]

  /** Who takes part, so that the story can be told without looking inside its identities. */
  datatype Cast = Cast(a: PlannedTaskAttempt, b: PlannedTaskAttempt, c: PlannedTaskAttempt, claim: Claim, choice: Event,
                       aReport: ExecutorReport, bReport: ExecutorReport)

  function BASIS(): Witness {
    Witness(CLAIM, GRAPH, SPECIFICATION, LINEAGE, WORKTREE)
  }

  function Opening(x: Cast): Events {
    [TaskAttemptPlanned([6], x.a), TaskAttemptPlanned([7], x.c), ResponsibilityBegan(x.c), TaskClaimAcquired(x.claim),
     TaskAttemptPlanned(PLAN, x.b), x.choice]
  }

  function TrackerPart(x: Cast): Events {
    [TrackerReadIntended(ReadTrackerGraph(GRAPH, [PLAN], Target(), AttemptContinuation, [TaskB()])),
     TrackerFactsObserved(GRAPH, UnchangedFactsReconfirmed(Target(), [GraphG2()])),
     TrackerReadIntended(ReadTaskWorkSpecification(SPECIFICATION, [PLAN, GRAPH], Target(), TaskB())),
     TrackerFactsObserved(SPECIFICATION, FocusedSpecificationFacts(
       Target(), TaskB(), SPECIFICATION, TaskB(), ChangedFingerprint(), ChangedFingerprint(), ChangedTitle(),
         ChangedBody())),
     TrackerReadIntended(ReadTaskClaim(CLAIM, [PLAN, GRAPH, SPECIFICATION], Target(), TaskB())),
     TrackerFactsObserved(CLAIM, FocusedClaimFacts(Target(), TaskB(), CLAIM, ActiveTaskClaim(x.claim)))]
  }

  function GitPart(x: Cast): Events {
    [GitReadIntended(ReadTaskWorktree(WORKTREE, [PLAN, GRAPH, SPECIFICATION, CLAIM], x.b)),
     WorktreeObserved(WORKTREE, PlannedWorktreeReady(x.b.baseSha, x.b.branch, x.b.baseSha, x.b.worktree)),
     GitReadIntended(ReadTargetLineage(LINEAGE, [WORKTREE], x.b, Repository(), TargetRef())),
     TargetLineageObserved(LINEAGE, x.b, x.b.baseSha, true),
     ExecutorStateObserved(x.a, ExactExecutorReport(x.aReport)),
     ExecutorWorkReported(A1_TERMINAL_ORDINAL, x.aReport)]
  }

  function LastPart(x: Cast): Events {
    [ContinuationAuthorized(x.b, BASIS()), CommandIntended(x.b, Resume, 3), CommandResponseObserved(x.b, 3, x.bReport),
     ExecutorWorkReported(3, x.bReport)]
  }

  function Story(x: Cast): Events {
    Opening(x) + TrackerPart(x) + GitPart(x) + LastPart(x)
  }

  lemma SixAt<T>(all: seq<T>, from: nat, part: seq<T>)
    requires |part| == 6 && from + 6 <= |all| && all[from..from + 6] == part
    ensures all[from] == part[0] && all[from + 1] == part[1] && all[from + 2] == part[2]
    ensures all[from + 3] == part[3] && all[from + 4] == part[4] && all[from + 5] == part[5]
  {
  }

  lemma FourAt<T>(all: seq<T>, from: nat, part: seq<T>)
    requires |part| == 4 && from + 4 <= |all| && all[from..from + 4] == part
    ensures all[from] == part[0] && all[from + 1] == part[1] && all[from + 2] == part[2] && all[from + 3] == part[3]
  {
  }

  lemma Blocks<T>(a: seq<T>, b: seq<T>, c: seq<T>, d: seq<T>)
    requires |a| == |b| == |c| == 6 && |d| == 4
    ensures var all := a + b + c + d;
            |all| == 22 && all[0..6] == a && all[6..12] == b && all[12..18] == c && all[18..22] == d
  {
  }

  lemma StoryBlocks(x: Cast)
    ensures var es := Story(x);
            && |es| == DS13_LENGTH && es[0..6] == Opening(x) && es[6..12] == TrackerPart(x)
            && es[12..18] == GitPart(x) && es[18..22] == LastPart(x)
  {
    Blocks(Opening(x), TrackerPart(x), GitPart(x), LastPart(x));
  }

  lemma OpeningHolds(es: Events, x: Cast)
    requires |es| == DS13_LENGTH && es[0..6] == Opening(x)
    ensures es[0] == TaskAttemptPlanned([6], x.a) && es[1] == TaskAttemptPlanned([7], x.c)
            && es[2] == ResponsibilityBegan(x.c) && es[3] == TaskClaimAcquired(x.claim)
            && es[4] == TaskAttemptPlanned(PLAN, x.b) && es[5] == x.choice
  {
    SixAt(es, 0, Opening(x));
  }

  lemma TrackerPartHolds(es: Events, x: Cast)
    requires |es| == DS13_LENGTH && es[6..12] == TrackerPart(x)
    ensures IsGraphIntent(es[6], PLAN) && OperationOf(es[6]) == GRAPH && IsGraphOutcome(es[7], GRAPH)
            && IsSpecificationIntent(es[8], [PLAN, GRAPH]) && OperationOf(es[8]) == SPECIFICATION
            && IsSpecificationOutcome(es[9], SPECIFICATION)
            && IsClaimIntent(es[10], [PLAN, GRAPH, SPECIFICATION]) && OperationOf(es[10]) == CLAIM
            && IsClaimOutcome(es[11], CLAIM, x.claim)
  {
    SixAt(es, 6, TrackerPart(x));
  }

  lemma GitPartHolds(es: Events, x: Cast)
    requires |es| == DS13_LENGTH && es[12..18] == GitPart(x)
    ensures IsWorktreeIntent(es[12], x.b, [PLAN, GRAPH, SPECIFICATION, CLAIM]) && OperationOf(es[12]) == WORKTREE
            && IsWorktreeOutcome(ScenarioRun, es[13], WORKTREE, x.b)
            && IsLineageIntent(es[14], x.b, WORKTREE) && OperationOf(es[14]) == LINEAGE
            && IsLineageOutcome(es[15], LINEAGE, x.b)
            && es[16] == ExecutorStateObserved(x.a, ExactExecutorReport(x.aReport))
            && es[17] == ExecutorWorkReported(A1_TERMINAL_ORDINAL, x.aReport)
  {
    SixAt(es, 12, GitPart(x));
  }

  lemma LastPartHolds(es: Events, x: Cast)
    requires |es| == DS13_LENGTH && es[18..22] == LastPart(x)
    ensures es[18] == ContinuationAuthorized(x.b, BASIS()) && es[19] == CommandIntended(x.b, Resume, 3)
            && es[20] == CommandResponseObserved(x.b, 3, x.bReport) && es[21] == ExecutorWorkReported(3, x.bReport)
  {
    FourAt(es, 18, LastPart(x));
  }

  lemma StoryShape(x: Cast)
    requires x.choice.AttemptChoiceApplied?
    ensures Shape13(Story(x))
  {
    StoryBlocks(x);
    OpeningHolds(Story(x), x);
    TrackerPartHolds(Story(x), x);
    GitPartHolds(Story(x), x);
    LastPartHolds(Story(x), x);
  }

  lemma StoryReads(x: Cast)
    ensures |Story(x)| == DS13_LENGTH
    ensures AreContinuationReads(ScenarioRun, PLAN, x.b, x.claim, ReadsIn(Story(x)))
    ensures WitnessOf(ReadsIn(Story(x))) == BASIS()
  {
    StoryBlocks(x);
    TrackerPartHolds(Story(x), x);
    GitPartHolds(Story(x), x);
  }

  lemma WitnessesDiffer()
    ensures DistinctWitness(BASIS())
  {
    assert CLAIM[0] == 67 && GRAPH[0] == 71 && SPECIFICATION[0] == 83 && LINEAGE[0] == 76 && WORKTREE[0] == 87;
  }

  function ScenarioCast(): Cast {
    Cast(A1(), B1(), C1(), Claim([1], [2], TaskB(), [3]),
         AttemptChoiceApplied(ContinueExistingAttempt, ContinueNonce(), RunId(), ChangedFingerprint(), B1()),
         WorkTerminal(Correlation(AttemptA1(), RunId()), Accepted([4], EvidenceReference(1, [5]))),
         WorkExecuting(Correlation(AttemptB1(), RunId())))
  }

  /** The cast says what the checkpoints want to hear. */
  predicate Suits(x: Cast) {
    && x.a == A1() && x.b == B1() && x.c == C1() && x.claim.taskId == TaskB() && IsExactChoice(x.choice, B1())
    && IsAcceptedTerminal(x.aReport, AttemptA1()) && x.bReport == WorkExecuting(Correlation(AttemptB1(), RunId()))
  }

  lemma ScenarioCastSuits()
    ensures Suits(ScenarioCast())
  {
  }

  lemma StoryContents12(x: Cast)
    requires Suits(x)
    ensures Shape12(Story(x)) && Content12(Story(x))
  {
    StoryBlocks(x);
    StoryShape(x);
    OpeningHolds(Story(x), x);
    StoryReads(x);
  }

  lemma StoryContents13(x: Cast)
    requires Suits(x)
    ensures Shape13(Story(x)) && Content13(Story(x))
  {
    StoryBlocks(x);
    StoryShape(x);
    GitPartHolds(Story(x), x);
    LastPartHolds(Story(x), x);
    StoryReads(x);
    WitnessesDiffer();
  }

  /** Both checkpoints accept journals: this one at its sixteenth record, and then at its last. */
  lemma CheckpointsAreReached()
    ensures exists pub, records :: Ds12Complete(pub, records)
    ensures exists pub, records :: Ds13Complete(pub, records)
  {
    var x := ScenarioCast();
    ScenarioCastSuits();
    StoryContents12(x);
    StoryContents13(x);
    AcceptedAtDs12(Story(x));
    AcceptedAtDs13(Story(x));
  }
}
