/** What the acceptance of a journal at DS-12 or DS-13 says about it, whatever else the journal holds. */
module Checkpoints {
  import opened Common
  import opened TaskContracts
  import opened Journal
  import opened ControlledScenario
  import opened Continuation
  import opened Ds12
  import opened Ds13

  // ----- What each search yields

  lemma OnlyFound(scope: Scope, records: seq<JournalRecord>, isWanted: Event -> bool, other: JournalRecord)
    ensures var found := Only(records, Found(scope, isWanted));
            found.Some? ==>
              && found.value in records && InScope(scope, found.value) && isWanted(found.value.event)
              && (other in records && InScope(scope, other) && isWanted(other.event) ==> other == found.value)
  {
    var keep := Found(scope, isWanted);
    OnlyIsTheOne(records, keep, other);
    assert forall r :: keep(r) <==> InScope(scope, r) && isWanted(r.event);
  }

  lemma ChoiceIsFound(scope: Scope, records: seq<JournalRecord>, attempt: PlannedTaskAttempt, other: JournalRecord)
    ensures var found := ExactChoice(scope, records, attempt);
            found.Some? ==>
              && found.value in records && InScope(scope, found.value) && IsExactChoice(found.value.event, attempt)
              && (other in records && InScope(scope, other) && IsExactChoice(other.event, attempt) ==>
                 other == found.value)
  {
    OnlyFound(scope, records, (e: Event) => IsExactChoice(e, attempt), other);
  }

  /** Record `r` of the scenario's run. */
  ghost predicate Recorded(records: seq<JournalRecord>, r: JournalRecord) {
    r in records && r.runId == RunId()
  }

  lemma ContinuedIsFound(records: seq<JournalRecord>)
    ensures var found := ContinuedHistory(records);
            found.Some? ==> IsContinued(records, found.value)
  {
    var found := ContinuedHistory(records);
    if found.Some? {
      var c := found.value;
      OnlyFound(ScenarioRun, records, (e: Event) => e.TaskAttemptPlanned? && e.plannedAttempt == B1(), c.plan);
      ChoiceIsFound(ScenarioRun, records, B1(), c.choice);
      ReadsAreInOrder(ScenarioRun, records, c.choice.position, c.plan.event.operationId, B1(), Some(c.acquired));
    }
  }

  lemma A1IsFound(records: seq<JournalRecord>, after: int)
    ensures var found := A1Terminal(records, after);
            found.Some? ==> IsA1End(records, after, found.value)
  {
    var found := A1Terminal(records, after);
    if found.Some? {
      var a := found.value;
      OnlyWanted(ScenarioRun, records, after, IsA1State, a.state);
      OnlyWanted(ScenarioRun, records, a.state.position, IsA1Report, a.report);
      ReportComparisonIsEquality(a.state.event.state.report, a.report.event.report);
    }
  }

  lemma ResumedIsFound(records: seq<JournalRecord>, authorization: JournalRecord)
    ensures var found := ResumeHistory(records, authorization);
            found.Some? ==> IsResumed(records, authorization.position, found.value)
  {
    var found := ResumeHistory(records, authorization);
    if found.Some? {
      var r := found.value;
      OnlyFound(ScenarioRun, records, IsResume, r.intent);
      OnlyFound(ScenarioRun, records, (e: Event) => AnswersB1(e, r.intent.event.ordinal), r.response);
      OnlyWanted(ScenarioRun, records, r.response.position, ReportsB1, r.report);
      ReportComparisonIsEquality(r.report.event.report, r.response.event.report);
    }
  }

  lemma AuthorizationIsFound(records: seq<JournalRecord>, after: int, found: Reads)
    ensures var authorization := Authorization(records, after, found);
            authorization.Some? ==>
              && Recorded(records, authorization.value) && IsAuthorization(authorization.value.event, found)
              && after < authorization.value.position
  {
    if Authorization(records, after, found).Some? {
      OnlyFound(ScenarioRun, records, AuthorizesB, Authorization(records, after, found).value);
    }
  }

  // ----- The causal chain of DS-13

  predicate PairAfter(after: int, p: Pair) {
    after < p.intent.position < p.outcome.position
  }

  /** The positions of the eighteen records of a course increase strictly, in causal order. */
  predicate Increasing(h: Course) {
    var r := h.continued.found;
    && h.continued.plan.position < h.continued.choice.position
    && PairAfter(h.continued.choice.position, r.graph)
    && PairAfter(r.graph.outcome.position, r.specification)
    && PairAfter(r.specification.outcome.position, r.claim)
    && PairAfter(r.claim.outcome.position, r.worktree)
    && PairAfter(r.worktree.outcome.position, r.lineage)
    && r.lineage.outcome.position < h.a1.state.position < h.a1.report.position < h.authorization.position
    && h.authorization.position < h.resumed.intent.position < h.resumed.response.position < h.resumed.report.position
  }

  /** The authorization rests on the operations of the five reads, which are distinct. */
  ghost predicate Witnessed(h: Course) {
    var r := h.continued.found;
    && h.authorization.event.ContinuationAuthorized?
    && var w := h.authorization.event.basis;
       && w.graph == Operation(r.graph)
       && w.specification == Operation(r.specification)
       && w.claim == Operation(r.claim)
       && w.worktree == Operation(r.worktree)
       && w.lineage == Operation(r.lineage)
       && Distinct5(w.claim, w.graph, w.specification, w.lineage, w.worktree)
  }

  predicate Distinct5<T(==)>(a: T, b: T, c: T, d: T, e: T) {
    a != b && a != c && a != d && a != e && b != c && b != d && b != e && c != d && c != e && d != e
  }

  lemma FiveMembers<T>(a: T, b: T, c: T, d: T, e: T)
    requires |{a, b, c, d, e}| == 5
    ensures Distinct5(a, b, c, d, e)
  {
    AtMostFour(b, c, d, e);
    AtMostFour(a, c, d, e);
    AtMostFour(a, b, d, e);
    AtMostFour(a, b, c, e);
    assert a in {b, c, d, e} ==> {a, b, c, d, e} == {b, c, d, e};
    assert b in {a, c, d, e} ==> {a, b, c, d, e} == {a, c, d, e};
    assert c in {a, b, d, e} ==> {a, b, c, d, e} == {a, b, d, e};
    assert d in {a, b, c, e} ==> {a, b, c, d, e} == {a, b, c, e};
  }

  lemma AtMostFour<T>(a: T, b: T, c: T, d: T)
    ensures |{a, b, c, d}| <= 4
  {
    assert {a, b, c, d} == {a} + {b} + {c} + {d};
  }

  ghost predicate IsContinued(records: seq<JournalRecord>, c: Continued) {
    && Recorded(records, c.plan) && c.plan.event.TaskAttemptPlanned? && c.plan.event.plannedAttempt == B1()
    && Recorded(records, c.choice) && IsExactChoice(c.choice.event, B1())
    && c.plan.position < c.choice.position
    && InOrder(ScenarioRun, records, c.choice.position, c.found)
    && AreContinuationReads(ScenarioRun, c.plan.event.operationId, B1(), c.acquired, c.found)
  }

  ghost predicate IsA1End(records: seq<JournalRecord>, after: int, a: A1End) {
    && Recorded(records, a.state) && IsA1State(a.state.event)
    && Recorded(records, a.report) && IsA1Report(a.report.event)
    && a.report.event.report == a.state.event.state.report
    && after < a.state.position < a.report.position
  }

  ghost predicate IsResumed(records: seq<JournalRecord>, after: int, r: Resumed) {
    && Recorded(records, r.intent) && IsResume(r.intent.event) && r.intent.event.plannedAttempt == B1()
    && Recorded(records, r.response) && AnswersB1(r.response.event, r.intent.event.ordinal)
    && Recorded(records, r.report) && ReportsB1(r.report.event)
    && r.report.event.report == r.response.event.report == WorkExecuting(Correlation(AttemptB1(), RunId()))
    && after < r.intent.position < r.response.position < r.report.position
  }

  ghost predicate IsCourse(records: seq<JournalRecord>, h: Course) {
    && IsContinued(records, h.continued)
    && IsA1End(records, h.continued.found.lineage.outcome.position, h.a1)
    && Recorded(records, h.authorization) && IsAuthorization(h.authorization.event, h.continued.found)
    && h.a1.report.position < h.authorization.position
    && IsResumed(records, h.authorization.position, h.resumed)
  }

  lemma CourseIsFound(records: seq<JournalRecord>)
    ensures FullCourse(records).Some? ==> IsCourse(records, FullCourse(records).value)
  {
    var found := FullCourse(records);
    if found.Some? {
      var h := found.value;
      ContinuedIsFound(records);
      A1IsFound(records, h.continued.found.lineage.outcome.position);
      AuthorizationIsFound(records, h.a1.report.position, h.continued.found);
      ResumedIsFound(records, h.authorization);
    }
  }

  lemma CourseIncreases(records: seq<JournalRecord>, h: Course)
    requires IsCourse(records, h)
    ensures Increasing(h)
  {
  }

  lemma CourseIsWitnessed(records: seq<JournalRecord>, h: Course)
    requires IsCourse(records, h)
    ensures Witnessed(h)
  {
    var w := h.authorization.event.basis;
    FiveMembers(w.claim, w.graph, w.specification, w.lineage, w.worktree);
  }

  /** An accepted journal holds the whole course, strictly in order, up to the position the publication accepted. */
  lemma Ds13ForcesCourse(pub: Publication, records: seq<JournalRecord>) returns (h: Course)
    requires Ds13Complete(pub, records)
    ensures IsCourse(records, h) && Increasing(h) && Witnessed(h)
    ensures pub.acceptedAt.Some? && h.resumed.report.position <= pub.acceptedAt.value
  {
    h := FullCourse(records).value;
    CourseIsFound(records);
    CourseIncreases(records, h);
    CourseIsWitnessed(records, h);
  }
}
