/** How the two checkpoints relate: no journal is at both, DS-12 never follows DS-13, and a second Resume is refused. */
module CheckpointOrder {
  import opened Common
  import opened TaskContracts
  import opened Journal
  import opened ControlledScenario
  import opened Continuation
  import opened Ds12
  import opened Ds13
  import opened Checkpoints

  // ----- DS-12

  lemma Ds12IsAboutB1(pub: Publication, records: seq<JournalRecord>)
    requires Ds12Complete(pub, records)
    ensures var h := ContinuationHistory(records, B1());
            && h.Some? && PlanOperation(records, B1()) == Some(h.value.planOperation)
            && AcquiredClaim(records) == Some(h.value.acquired)
            && ExactChoice(AnyRun, records, B1()) == Some(h.value.choice)
            && NoPrematureBAction(records, h.value.choice.position)
            && FindReads(AnyRun, records, h.value.choice.position, h.value.planOperation, B1(), Some(h.value.acquired))
               == Some(h.value.found)
            && pub.acceptedAt.Some? && h.value.found.lineage.outcome.position <= pub.acceptedAt.value
  {
  }

  lemma PlanIsFound(records: seq<JournalRecord>, attempt: PlannedTaskAttempt)
    ensures var plan := PlanOperation(records, attempt);
            plan.Some? ==>
              exists r :: r in records && r.event == TaskAttemptPlanned(plan.value, attempt)
  {
    FirstIsKept(records, IsPlanOf(attempt));
  }

  lemma ClaimIsAcquired(records: seq<JournalRecord>)
    ensures var acquired := AcquiredClaim(records);
            acquired.Some? ==>
              && acquired.value.taskId == TaskB()
              && exists r :: r in records && r.event == TaskClaimAcquired(acquired.value)
  {
    FirstIsKept(records, IsBClaim);
  }

  /**
   A journal at DS-12 holds B1's plan and claim, the choice, and the five continuation reads: of the right kinds,
   each resting on those before it, in order, up to the accepted position; and no action on B1 since the choice.
   */
  lemma Ds12ForcesReads(pub: Publication, records: seq<JournalRecord>)
    returns (choice: JournalRecord, plan: Id, acquired: Claim, found: Reads)
    requires Ds12Complete(pub, records)
    ensures choice in records && IsExactChoice(choice.event, B1())
    ensures exists r :: r in records && r.event == TaskAttemptPlanned(plan, B1())
    ensures acquired.taskId == TaskB() && exists r :: r in records && r.event == TaskClaimAcquired(acquired)
    ensures InOrder(AnyRun, records, choice.position, found)
    ensures AreContinuationReads(AnyRun, plan, B1(), acquired, found)
    ensures pub.acceptedAt.Some? && found.lineage.outcome.position <= pub.acceptedAt.value
    ensures forall r :: r in records && r.position > choice.position ==> !IsPrematureBAction(r.event)
  {
    Ds12IsAboutB1(pub, records);
    var h := ContinuationHistory(records, B1()).value;
    choice, plan, acquired, found := h.choice, h.planOperation, h.acquired, h.found;
    ChoiceIsFound(AnyRun, records, B1(), choice);
    PlanIsFound(records, B1());
    ClaimIsAcquired(records);
    ReadsAreInOrder(AnyRun, records, choice.position, h.planOperation, B1(), Some(h.acquired));
  }

  /** DS-12's choice is the only one of the journal, in any run. */
  lemma Ds12ChoiceIsUnique(pub: Publication, records: seq<JournalRecord>, choice: JournalRecord, r: JournalRecord)
    requires Ds12Complete(pub, records)
    requires choice in records && IsExactChoice(choice.event, B1())
    requires r in records && r.position > choice.position
    ensures !IsPrematureBAction(r.event)
  {
    Ds12IsAboutB1(pub, records);
    ChoiceIsFound(AnyRun, records, B1(), choice);
    var i :| 0 <= i < |records| && records[i] == r;
  }

  // ----- Exclusion

  /** Once a journal is at DS-13, no journal that extends it is at DS-12, whatever is published. */
  lemma NoReturnToDs12(pub: Publication, records: seq<JournalRecord>, later: Publication, more: seq<JournalRecord>)
    requires Ds13Complete(pub, records)
    ensures !Ds12Complete(later, records + more)
  {
    var h := Ds13ForcesCourse(pub, records);
    if Ds12Complete(later, records + more) {
      Ds12ChoiceIsUnique(later, records + more, h.continued.choice, h.authorization);
      assert false;
    }
  }

  /** No journal is at both checkpoints, for any two publications. */
  lemma CheckpointsExclude(left: Publication, right: Publication, records: seq<JournalRecord>)
    ensures !(Ds12Complete(left, records) && Ds13Complete(right, records))
  {
    if Ds13Complete(right, records) {
      AppendEmpty(records);
      NoReturnToDs12(right, records, left, []);
    }
  }

  // ----- A second Resume

  ghost predicate IsScenarioResume(r: JournalRecord) {
    r.runId == RunId() && IsResume(r.event)
  }

  /** The journal with a record put in at `k`. */
  function With(records: seq<JournalRecord>, k: nat, r: JournalRecord): seq<JournalRecord>
    requires k <= |records|
  {
    records[..k] + [r] + records[k..]
  }

  lemma {:induction false} OneResume(records: seq<JournalRecord>)
    requires FullCourse(records).Some?
    ensures |Where(records, Found(ScenarioRun, IsResume))| == 1
  {
    var h := FullCourse(records).value;
    assert ResumeHistory(records, h.authorization).Some?;
    assert ResumeIntent(records).Some?;
  }

  lemma {:induction false} InsertedCount<T>(items: seq<T>, k: nat, x: T, keep: T -> bool)
    requires k <= |items| && keep(x)
    ensures |Where(items[..k] + [x] + items[k..], keep)| == |Where(items, keep)| + 1
  {
    SplitAt(items, k);
    WhereAppend(items[..k], items[k..], keep);
    WhereAppend(items[..k] + [x], items[k..], keep);
    WhereAppend(items[..k], [x], keep);
    assert Where([x], keep) == [x];
  }

  lemma CompleteHasCourse(pub: Publication, records: seq<JournalRecord>)
    ensures Ds13Complete(pub, records) ==> FullCourse(records).Some?
  {
  }

  /** A second Resume intent of the scenario's run, wherever it is recorded, undoes acceptance for every publication. */
  lemma SecondResumeIsRefused(pub: Publication, records: seq<JournalRecord>, k: nat, r: JournalRecord,
                              other: Publication)
    requires Ds13Complete(pub, records) && k <= |records| && IsScenarioResume(r)
    ensures !Ds13Complete(other, With(records, k, r))
  {
    CompleteHasCourse(pub, records);
    CompleteHasCourse(other, With(records, k, r));
    OneResume(records);
    InsertedCount(records, k, r, Found(ScenarioRun, IsResume));
    if FullCourse(With(records, k, r)).Some? {
      OneResume(With(records, k, r));
      assert false;
    }
  }

  // ----- Progress

  ghost predicate PositionsIncrease(records: seq<JournalRecord>) {
    forall i, j :: 0 <= i < j < |records| ==> records[i].position < records[j].position
  }

  lemma LaterIsBeyond(records: seq<JournalRecord>, more: seq<JournalRecord>, a: JournalRecord, b: JournalRecord)
    requires PositionsIncrease(records + more) && a in records + more && a !in records && b in records + more
    requires a.position < b.position
    ensures b !in records
  {
    var all := records + more;
    assert a in more;
    var i :| 0 <= i < |more| && more[i] == a;
    assert all[|records| + i] == a;
    forall j | 0 <= j < |records| ensures records[j].position < a.position {
      assert all[j] == records[j];
    }
  }

  /** If a journal passes DS-12 and later DS-13, B1's authorization, Resume and report were all recorded in between. */
  lemma Ds13FollowsDs12(pub: Publication, records: seq<JournalRecord>, later: Publication, more: seq<JournalRecord>)
    returns (h: Course)
    requires PositionsIncrease(records + more)
    requires Ds12Complete(pub, records) && Ds13Complete(later, records + more)
    ensures IsCourse(records + more, h)
    ensures h.authorization in more && h.resumed.intent in more && h.resumed.response in more &&
            h.resumed.report in more
  {
    h := Ds13ForcesCourse(later, records + more);
    var choice := h.continued.choice;
    if choice !in records {
      LaterIsBeyond(records, more, choice, h.authorization);
    } else if h.authorization in records {
      Ds12ChoiceIsUnique(pub, records, choice, h.authorization);
    }
    assert h.authorization !in records;
    LaterIsBeyond(records, more, h.authorization, h.resumed.intent);
    LaterIsBeyond(records, more, h.authorization, h.resumed.response);
    LaterIsBeyond(records, more, h.authorization, h.resumed.report);
  }
}
