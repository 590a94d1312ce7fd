/**
 The controlled provider that outlives its child processes: Codex threads with idempotent turn delivery,
 claim labels with creation receipts, and the graph traversal that makes the dependant task ready.
 Requests are handled one at a time.
 */
module Provider {
  import opened Common
  import opened Decimal

  // ----- Threads and turns

  datatype TurnStatus = InProgress | Completed

  datatype Turn = Turn(id: string, status: TurnStatus, token: string, text: string)

  datatype Thread = Thread(id: string, cwd: string, ownedThreadToken: Option<string>, turns: seq<Turn>)

  type Threads = map<string, Thread>

  function ThreadId(n: nat): string {
    "hermetic-thread" + ":" + Numeral(n)
  }

  function TurnId(threadId: string, n: nat): string {
    "hermetic-turn:" + threadId + ":" + Numeral(n)
  }

  function FindTurn(turns: seq<Turn>, token: string): (found: Option<Turn>)
    ensures found.Some? ==> found.value in turns && found.value.token == token
    ensures found.None? ==> forall i :: 0 <= i < |turns| ==> turns[i].token != token
  {
    if turns == [] then None else if turns[0].token == token then Some(turns[0]) else FindTurn(turns[1..], token)
  }

  /** A thread's turns are numbered in order, completed, and carry distinct ownership tokens. */
  ghost predicate ThreadOk(t: Thread) {
    && (forall i :: 0 <= i < |t.turns| ==> t.turns[i].id == TurnId(t.id, i) && t.turns[i].status == Completed)
    && forall i, j :: 0 <= i < j < |t.turns| ==> t.turns[i].token != t.turns[j].token
  }

  ghost predicate Numbered(id: string, count: nat) {
    exists n :: 0 <= n < count && id == ThreadId(n)
  }

  ghost predicate NumberedAll(ids: set<string>, count: nat) {
    forall id :: id in ids <==> Numbered(id, count)
  }

  lemma NumberedNext(id: string, count: nat)
    ensures Numbered(id, count + 1) <==> Numbered(id, count) || id == ThreadId(count)
  {
  }

  ghost predicate EachOk(ts: Threads) {
    forall id :: id in ts ==> ts[id].id == id && ThreadOk(ts[id])
  }

  lemma EachOkWith(ts: Threads, id: string, t: Thread)
    requires EachOk(ts) && t.id == id && ThreadOk(t)
    ensures EachOk(ts[id := t])
  {
  }

  /** Threads are numbered from zero without gaps. */
  ghost predicate ThreadsOk(ts: Threads) {
    EachOk(ts) && NumberedAll(ts.Keys, |ts|)
  }

  lemma ThreadIdsDiffer(a: nat, b: nat)
    requires ThreadId(a) == ThreadId(b)
    ensures a == b
  {
    SuffixedInjective("hermetic-thread", a, "hermetic-thread", b);
  }

  lemma NextIsNotNumbered(count: nat)
    ensures !Numbered(ThreadId(count), count)
  {
    forall n | 0 <= n < count ensures ThreadId(n) != ThreadId(count) {
      if ThreadId(n) == ThreadId(count) {
        ThreadIdsDiffer(n, count);
      }
    }
  }

  lemma NumberedAllNext(ids: set<string>, count: nat)
    requires NumberedAll(ids, count)
    ensures NumberedAll(ids + {ThreadId(count)}, count + 1)
  {
    forall id ensures id in ids + {ThreadId(count)} <==> Numbered(id, count + 1) {
      NumberedNext(id, count);
    }
  }

  lemma NewKey<V>(m: map<string, V>, key: string, value: V)
    requires key !in m
    ensures m[key := value].Keys == m.Keys + {key} && |m[key := value]| == |m| + 1
  {
    assert m[key := value].Keys == m.Keys + {key};
  }

  lemma WithThread(ts: Threads, id: string, t: Thread)
    requires ThreadsOk(ts) && id !in ts && t.id == id && t.turns == []
    requires NumberedAll(ts.Keys + {id}, |ts| + 1)
    ensures ThreadsOk(ts[id := t])
  {
    EachOkWith(ts, id, t);
    NewKey(ts, id, t);
  }

  /** A new thread never takes an existing id. */
  lemma FreshThread(ts: Threads, cwd: string, token: Option<string>)
    requires ThreadsOk(ts)
    ensures ThreadId(|ts|) !in ts
    ensures ThreadsOk(ts[ThreadId(|ts|) := Thread(ThreadId(|ts|), cwd, token, [])])
  {
    NextIsNotNumbered(|ts|);
    NumberedAllNext(ts.Keys, |ts|);
    WithThread(ts, ThreadId(|ts|), Thread(ThreadId(|ts|), cwd, token, []));
  }

  lemma TurnKeepsThread(t: Thread, turn: Turn)
    requires ThreadOk(t) && FindTurn(t.turns, turn.token).None?
    requires turn.id == TurnId(t.id, |t.turns|) && turn.status == Completed
    ensures ThreadOk(t.(turns := t.turns + [turn]))
  {
    var more := t.turns + [turn];
    assert forall i :: 0 <= i < |t.turns| ==> more[i] == t.turns[i];
    assert more[|t.turns|] == turn;
  }

  function WithTurn(ts: Threads, id: string, turn: Turn): Threads
    requires id in ts
  {
    ts[id := ts[id].(turns := ts[id].turns + [turn])]
  }

  /** Appending a turn under a token the thread does not hold keeps the numbering and the tokens. */
  lemma TurnAppended(ts: Threads, id: string, turn: Turn)
    requires ThreadsOk(ts) && id in ts && FindTurn(ts[id].turns, turn.token).None?
    requires turn.id == TurnId(id, |ts[id].turns|) && turn.status == Completed
    ensures ThreadsOk(WithTurn(ts, id, turn))
  {
    TurnKeepsThread(ts[id], turn);
    EachOkWith(ts, id, ts[id].(turns := ts[id].turns + [turn]));
    var more := WithTurn(ts, id, turn);
    assert more.Keys == ts.Keys;
    assert |more| == |ts|;
  }

  /** Turn ids are unique across all threads, not only within one. */
  lemma TurnIdsDiffer(ts: Threads, a: string, i: nat, b: string, j: nat)
    requires ThreadsOk(ts) && a in ts && b in ts
    requires i < |ts[a].turns| && j < |ts[b].turns|
    requires ts[a].turns[i].id == ts[b].turns[j].id
    ensures a == b && i == j
  {
    assert ThreadOk(ts[a]) && ThreadOk(ts[b]);
    SuffixedInjective("hermetic-turn:" + a, i, "hermetic-turn:" + b, j);
    assert a == ("hermetic-turn:" + a)[14..] && b == ("hermetic-turn:" + b)[14..];
  }

  // ----- The graph traversal

  datatype Relation = BlockedBy | SubIssues

  datatype Read = Read(issue: string, relation: Relation)

  datatype Traversal = Traversal(complete: nat, pending: seq<Read>)

  function ExpectedOrder(root: string, dependant: string): seq<Read> {
    [Read(root, BlockedBy), Read(root, SubIssues), Read(dependant, BlockedBy), Read(dependant, SubIssues)]
  }

  /** One relation read while the root is completed. */
  function Observe(expected: seq<Read>, t: Traversal, read: Read): Traversal {
    if |t.pending| >= |expected| || expected[|t.pending|] != read then t.(pending := [])
    else if |t.pending| + 1 == |expected| then Traversal(t.complete + 1, [])
    else t.(pending := t.pending + [read])
  }

  function ObserveAll(expected: seq<Read>, trail: seq<Read>): Traversal {
    if trail == [] then Traversal(0, [])
    else Observe(expected, ObserveAll(expected, trail[..|trail| - 1]), trail[|trail| - 1])
  }

  ghost predicate OccursAt(expected: seq<Read>, trail: seq<Read>, k: nat) {
    k + |expected| <= |trail| && trail[k..k + |expected|] == expected
  }

  /** The expected order occurs as consecutive reads. */
  ghost predicate Traversed(expected: seq<Read>, trail: seq<Read>) {
    exists k: nat :: OccursAt(expected, trail, k)
  }

  /** The pending reads are the latest ones and start the expected order, and no read counts towards two traversals. */
  ghost predicate PendingOk(expected: seq<Read>, trail: seq<Read>, t: Traversal) {
    && |t.pending| < |expected|
    && |t.pending| <= |trail|
    && t.pending == trail[|trail| - |t.pending|..] == expected[..|t.pending|]
    && |expected| * t.complete + |t.pending| <= |trail|
  }

  lemma LatestSnoc<T>(front: seq<T>, last: T, n: nat)
    requires n <= |front|
    ensures (front + [last])[|front| - n..] == front[|front| - n..] + [last]
    ensures (front + [last])[|front| + 1..] == []
  {
  }

  lemma CountingOn(size: nat, complete: nat, length: nat)
    requires size * complete + size - 1 <= length
    ensures size * (complete + 1) <= length + 1
  {
  }

  lemma ObserveKeepsPending(expected: seq<Read>, front: seq<Read>, last: Read, t: Traversal)
    requires PendingOk(expected, front, t)
    ensures PendingOk(expected, front + [last], Observe(expected, t, last))
    ensures Observe(expected, t, last).complete > t.complete ==> Traversed(expected, front + [last])
  {
    var n := |t.pending|;
    LatestSnoc(front, last, n);
    if expected[n] == last {
      TakeSnoc(expected, n);
      if n + 1 == |expected| {
        CountingOn(|expected|, t.complete, |front|);
        assert expected[..n + 1] == expected;
        assert OccursAt(expected, front + [last], |front| - n);
      }
    }
  }

  lemma TraversedStays(expected: seq<Read>, front: seq<Read>, last: Read)
    requires Traversed(expected, front)
    ensures Traversed(expected, front + [last])
  {
    var k: nat :| OccursAt(expected, front, k);
    assert (front + [last])[k..k + |expected|] == front[k..k + |expected|];
    assert OccursAt(expected, front + [last], k);
  }

  /** A completed traversal means that the whole order was read consecutively. */
  lemma {:induction false} TraversalIsSound(expected: seq<Read>, trail: seq<Read>)
    requires expected != []
    ensures var t := ObserveAll(expected, trail);
            PendingOk(expected, trail, t) && (t.complete > 0 ==> Traversed(expected, trail))
  {
    if trail != [] {
      var front, last := trail[..|trail| - 1], trail[|trail| - 1];
      TraversalIsSound(expected, front);
      assert trail == front + [last];
      var before := ObserveAll(expected, front);
      ObserveKeepsPending(expected, front, last, before);
      if before.complete > 0 {
        TraversedStays(expected, front, last);
      }
    }
  }

  function ObserveFour(expected: seq<Read>, t: Traversal): Traversal
    requires |expected| == 4
  {
    Observe(expected, Observe(expected, Observe(expected, Observe(expected, t, expected[0]), expected[1]),
      expected[2]), expected[3])
  }

  lemma {:induction false} FourMore(expected: seq<Read>, trail: seq<Read>)
    requires |expected| == 4
    ensures ObserveAll(expected, trail + expected) == ObserveFour(expected, ObserveAll(expected, trail))
  {
    ObserveSnoc(expected, trail, expected[0]);
    ObserveSnoc(expected, trail + [expected[0]], expected[1]);
    ObserveSnoc(expected, trail + [expected[0]] + [expected[1]], expected[2]);
    ObserveSnoc(expected, trail + [expected[0]] + [expected[1]] + [expected[2]], expected[3]);
    FourOnes(trail, expected);
  }

  lemma FourOnes<T>(front: seq<T>, four: seq<T>)
    requires |four| == 4
    ensures front + [four[0]] + [four[1]] + [four[2]] + [four[3]] == front + four
  {
  }

  lemma FourFromPending(root: string, dependant: string, t: Traversal)
    requires root != dependant && |t.pending| < 4
    ensures ObserveFour(ExpectedOrder(root, dependant), t).complete == t.complete + 1 <==> t.pending == []
  {
    var expected := ExpectedOrder(root, dependant);
    if t.pending != [] {
      assert Observe(expected, t, expected[0]) == t.(pending := []);
      assert Observe(expected, t.(pending := []), expected[1]) == t.(pending := []);
    }
  }

  /** Four reads in the expected order complete a traversal exactly when none was under way. */
  lemma {:induction false} TraversalCompletesWhenFresh(root: string, dependant: string, trail: seq<Read>)
    requires root != dependant
    ensures var expected := ExpectedOrder(root, dependant);
            ObserveAll(expected, trail + expected).complete == ObserveAll(expected, trail).complete + 1 <==>
            ObserveAll(expected, trail).pending == []
  {
    var expected := ExpectedOrder(root, dependant);
    TraversalIsSound(expected, trail);
    FourMore(expected, trail);
    FourFromPending(root, dependant, ObserveAll(expected, trail));
  }

  lemma {:induction false} ObserveSnoc(expected: seq<Read>, trail: seq<Read>, read: Read)
    ensures ObserveAll(expected, trail + [read]) == Observe(expected, ObserveAll(expected, trail), read)
  {
    assert (trail + [read])[..|trail|] == trail;
  }

  // ----- Tracker requests

  datatype Lifecycle = Open | Closed

  datatype Label = Label(id: string, name: string, description: string)

  datatype Receipt = IssueReceipt(nodeId: string) | LabelReceipt(nodeId: string, name: string, fingerprint: string)

  datatype GraphRead = ReadIssue(issue: string) | ReadRelation(read: Read)

  function IssueOf(r: GraphRead): string {
    if r.ReadIssue? then r.issue else r.read.issue
  }

  datatype Request =
    | ReadGraphBatch(batch: seq<GraphRead>)
    | ResolveIssue(locatorMatches: bool)
    | ResolveRepository(locatorMatches: bool)
    | ReadGraph(graphRead: GraphRead)
    | ReadTaskWorkSpecification(issue: string)
    | FindClaimLabel(repository: string, labelName: string)
    | CreateClaimLabel(repository: string, labelName: string, operationId: string, description: string)
    | DeleteClaimLabel(labelNodeId: string)
    | CloseIssue(issue: string)
    | Unsupported(name: string, subject: Option<string>, owner: Option<string>)

  datatype Reply = Accepted | Throttled | Rejected

  function RelationName(r: Relation): string {
    match r
    case BlockedBy => "ReadBlockedBy"
    case SubIssues => "ReadSubIssues"
  }

  /** The name under which a request is counted. */
  function CallName(r: Request): string {
    match r
    case ReadGraphBatch(_) => "ReadGraphBatch"
    case ResolveIssue(_) => "ResolveIssue"
    case ResolveRepository(_) => "ResolveRepository"
    case ReadGraph(read) => if read.ReadIssue? then "ReadIssue" else RelationName(read.read.relation)
    case ReadTaskWorkSpecification(_) => "ReadTaskWorkSpecification"
    case FindClaimLabel(_, _) => "FindClaimLabel"
    case CreateClaimLabel(_, _, _, _) => "CreateClaimLabel"
    case DeleteClaimLabel(_) => "DeleteClaimLabel"
    case CloseIssue(_) => "CloseIssue"
    case Unsupported(name, _, _) => name
  }

  type Calls = map<string, nat>

  function CallCount(calls: Calls, name: string): nat {
    if name in calls then calls[name] else 0
  }

  function Counted(calls: Calls, name: string): Calls {
    calls[name := CallCount(calls, name) + 1]
  }

  /** How many reads of a batch come before the first whose issue is foreign. */
  function OwnCount(batch: seq<GraphRead>, issues: set<string>): (n: nat)
    ensures n <= |batch|
    ensures forall i :: 0 <= i < n ==> IssueOf(batch[i]) in issues
    ensures n < |batch| ==> IssueOf(batch[n]) !in issues
  {
    if batch == [] || IssueOf(batch[0]) !in issues then 0 else OwnCount(batch[1..], issues) + 1
  }

  function RelationOf(r: GraphRead): seq<Read> {
    if r.ReadRelation? then [r.read] else []
  }

  /** The relation reads among the first `n` of a batch. */
  function Relations(batch: seq<GraphRead>, n: nat): seq<Read>
    requires n <= |batch|
  {
    if n == 0 then []
    else Relations(batch, n - 1) + RelationOf(batch[n - 1])
  }

  function Stamped(trail: seq<Read>, lifecycle: Lifecycle): seq<(Read, Lifecycle)> {
    seq(|trail|, i requires 0 <= i < |trail| => (trail[i], lifecycle))
  }

  /** Noting two stretches of reads is noting them as one. */
  lemma StampedOn(before: seq<(Read, Lifecycle)>, trail: seq<Read>, more: seq<Read>, lifecycle: Lifecycle)
    ensures before + Stamped(trail, lifecycle) + Stamped(more, lifecycle) == before + Stamped(trail + more, lifecycle)
  {
  }

  /** The reads that count towards a traversal. */
  function Counting(trail: seq<Read>, lifecycle: Lifecycle): seq<Read> {
    if lifecycle == Closed then trail else []
  }

  lemma CountingOnReads(before: seq<Read>, trail: seq<Read>, more: seq<Read>, lifecycle: Lifecycle)
    ensures before + Counting(trail, lifecycle) + Counting(more, lifecycle) == before +
            Counting(trail + more, lifecycle)
  {
  }

  /** What a batch leaves in the observation log, whether it is accepted or rejected. */
  function BatchTrace(batch: seq<GraphRead>, issues: set<string>): seq<Read> {
    Relations(batch, OwnCount(batch, issues))
  }

  /** Nothing is left exactly when no relation read precedes the first foreign node. */
  lemma {:induction false} EmptyTrace(batch: seq<GraphRead>, n: nat)
    requires n <= |batch|
    ensures Relations(batch, n) == [] <==> OnlyIssues(batch, n)
  {
    if n > 0 {
      EmptyTrace(batch, n - 1);
      NoneOfBoth(Relations(batch, n - 1), RelationOf(batch[n - 1]));
      OnlyIssuesNext(batch, n);
    }
  }

  ghost predicate OnlyIssues(batch: seq<GraphRead>, n: nat)
    requires n <= |batch|
  {
    forall i :: 0 <= i < n ==> batch[i].ReadIssue?
  }

  lemma OnlyIssuesNext(batch: seq<GraphRead>, n: nat)
    requires 0 < n <= |batch|
    ensures OnlyIssues(batch, n) <==> OnlyIssues(batch, n - 1) && batch[n - 1].ReadIssue?
  {
  }

  lemma NoneOfBoth<T>(a: seq<T>, b: seq<T>)
    ensures a + b == [] <==> a == [] && b == []
  {
    assert |a + b| == |a| + |b|;
  }

  lemma TraceIsVisible(before: seq<(Read, Lifecycle)>, trail: seq<Read>, lifecycle: Lifecycle)
    ensures before + Stamped(trail, lifecycle) == before <==> trail == []
  {
    assert |before + Stamped(trail, lifecycle)| == |before| + |trail|;
    if trail == [] {
      AppendEmpty(before);
    }
  }

  lemma CountedIsVisible(calls: Calls, name: string)
    ensures Counted(calls, name) != calls
  {
    assert CallCount(Counted(calls, name), name) == CallCount(calls, name) + 1;
  }

  /**
   The provider's own statement, that an out-of-fixture request never changes its state, fails for
   batches: a rejected batch has still recorded the relation reads before its first foreign node.
   */
  lemma RejectedBatchLeavesReads(root: string, dependant: string, foreign: string)
    requires foreign != root && foreign != dependant
    ensures var batch := [ReadRelation(Read(root, BlockedBy)), ReadIssue(foreign)];
            OwnCount(batch, {root, dependant}) < |batch| &&
              BatchTrace(batch, {root, dependant}) == [Read(root, BlockedBy)]
  {
    var batch := [ReadRelation(Read(root, BlockedBy)), ReadIssue(foreign)];
    assert OwnCount(batch, {root, dependant}) == 1;
    assert Relations(batch, 0) == [] && Relations(batch, 1) == [batch[0].read];
  }

  // ----- The provider

  class ProviderState {
    const root: string
    const dependant: string
    const repository: string
    const attemptRoot: string
    const candidateRoot: string
    const fingerprint: string -> string

    var threads: Threads
    var labels: map<string, Label>
    var receipts: seq<Receipt>
    var rootLifecycle: Lifecycle
    var dependantLifecycle: Lifecycle
    var throttled: bool
    var observations: seq<(Read, Lifecycle)>
    var pending: seq<Read>
    var completeObservationCount: nat
    var produced: nat
    var calls: Calls
    /** The relation reads made while the root was completed, oldest first. */
    ghost var completedReads: seq<Read>

    constructor (root: string, dependant: string, repository: string, attemptRoot: string, candidateRoot: string,
                 fingerprint: string -> string)
      ensures Valid()
      ensures this.root == root && this.dependant == dependant && this.repository == repository
      ensures threads == map[] && labels == map[] && rootLifecycle == dependantLifecycle == Open && !throttled
      ensures observations == [] && completeObservationCount == 0 && produced == 0 && calls == map[]
    {
      this.root, this.dependant, this.repository := root, dependant, repository;
      this.attemptRoot, this.candidateRoot, this.fingerprint := attemptRoot, candidateRoot, fingerprint;
      threads, labels, receipts := map[], map[], [IssueReceipt(root)];
      rootLifecycle, dependantLifecycle, throttled := Open, Open, false;
      observations, pending, completeObservationCount, produced, completedReads := [], [], 0, 0, [];
      calls := map[];
    }

    ghost function Expected(): seq<Read> {
      ExpectedOrder(root, dependant)
    }

    ghost predicate LabelsOk()
      reads this`labels, this`receipts
    {
      && |receipts| > 0 && receipts[0] == IssueReceipt(root)
      && forall name :: name in labels ==>
           && labels[name].name == name
           && LabelReceipt(labels[name].id, name, fingerprint(labels[name].description)) in receipts
    }

    ghost predicate GraphOk()
      reads this`pending, this`completeObservationCount, this`completedReads
    {
      Traversal(completeObservationCount, pending) == ObserveAll(Expected(), completedReads)
    }

    /** What every request keeps. */
    ghost predicate Valid()
      reads this`threads, this`labels, this`receipts, this`pending, this`completeObservationCount, this`completedReads
    {
      ThreadsOk(threads) && LabelsOk() && GraphOk()
    }

    // ----- Codex

    method StartThread(cwd: string, ownedThreadToken: Option<string>) returns (started: Option<Thread>)
      requires Valid()
      modifies this`threads, this`calls
      ensures Valid() && calls == Counted(old(calls), "CodexStartThread")
      ensures started.Some? <==> attemptRoot + "/" <= cwd || candidateRoot + "/" <= cwd
      ensures started.None? ==> threads == old(threads)
      ensures started.Some? ==>
                && started.value.id !in old(threads)
                && started.value.cwd == cwd && started.value.turns == []
                && threads == old(threads)[started.value.id := started.value]
    {
      calls := Counted(calls, "CodexStartThread");
      if !(attemptRoot + "/" <= cwd) && !(candidateRoot + "/" <= cwd) {
        return None;
      }
      var thread := Thread(ThreadId(|threads|), cwd, ownedThreadToken, []);
      FreshThread(threads, cwd, ownedThreadToken);
      threads := threads[thread.id := thread];
      started := Some(thread);
    }

    /**
     Turn delivery. `result` is what producing a result would give. A token the thread already holds
     is answered with the retained turn: nothing is produced and nothing changes.
     */
    method StartTurn(id: string, cwd: string, token: Option<string>, result: Option<string>)
      returns (turn: Option<Turn>, notified: bool)
      requires Valid()
      modifies this`threads, this`produced, this`calls
      ensures Valid() && calls == Counted(old(calls), "CodexStartTurn")
      ensures var before := old(threads);
              if id !in before || before[id].cwd != cwd || token.None? then
                turn.None? && !notified && threads == before && produced == old(produced)
              else if FindTurn(before[id].turns, token.value).Some? then
                turn == FindTurn(before[id].turns, token.value) && !notified && threads == before &&
                  produced == old(produced)
              else if result.None? then
                turn.None? && !notified && threads == before && produced == old(produced) + 1
              else
                var id' := TurnId(id, |before[id].turns|);
                && turn == Some(Turn(id', InProgress, token.value, result.value)) && notified
                && threads == WithTurn(before, id, Turn(id', Completed, token.value, result.value))
                && produced == old(produced) + 1
    {
      notified := false;
      calls := Counted(calls, "CodexStartTurn");
      if id !in threads || threads[id].cwd != cwd || token.None? {
        return None, false;
      }
      var thread := threads[id];
      var retained := FindTurn(thread.turns, token.value);
      if retained.Some? {
        return retained, false;
      }
      produced := produced + 1;
      if result.None? {
        return None, false;
      }
      var startResponse := AppendTurn(id, token.value, result.value);
      turn, notified := Some(startResponse), true;
    }

    /** The response shows the turn in progress; what is kept is the completed turn. */
    method AppendTurn(id: string, token: string, text: string) returns (startResponse: Turn)
      requires Valid() && id in threads && FindTurn(threads[id].turns, token).None?
      modifies this`threads
      ensures Valid()
      ensures startResponse == Turn(TurnId(id, |old(threads)[id].turns|), InProgress, token, text)
      ensures threads == WithTurn(old(threads), id, startResponse.(status := Completed))
    {
      startResponse := Turn(TurnId(id, |threads[id].turns|), InProgress, token, text);
      TurnAppended(threads, id, startResponse.(status := Completed));
      threads := WithTurn(threads, id, startResponse.(status := Completed));
    }

    // ----- Graph reads

    method ObserveRelation(read: Read)
      requires GraphOk()
      modifies this`observations, this`pending, this`completeObservationCount, this`completedReads
      ensures GraphOk()
      ensures observations == old(observations) + [(read, rootLifecycle)]
      ensures completedReads == if rootLifecycle == Closed then old(completedReads) + [read] else old(completedReads)
    {
      observations := observations + [(read, rootLifecycle)];
      if rootLifecycle != Closed {
        return;
      }
      ghost var before := Traversal(completeObservationCount, pending);
      ObserveSnoc(Expected(), completedReads, read);
      completedReads := completedReads + [read];
      var expectedOrder := ExpectedOrder(root, dependant);
      if |pending| >= |expectedOrder| || expectedOrder[|pending|] != read {
        pending := [];
      } else {
        var next := pending + [read];
        if |next| == |expectedOrder| {
          completeObservationCount := completeObservationCount + 1;
          pending := [];
        } else {
          pending := next;
        }
      }
      assert Traversal(completeObservationCount, pending) == Observe(Expected(), before, read);
    }

    /** One read of the graph: reading an issue leaves nothing behind. */
    method HandleRead(r: GraphRead)
      requires GraphOk()
      modifies this`observations, this`pending, this`completeObservationCount, this`completedReads
      ensures GraphOk()
      ensures completedReads == old(completedReads) + Counting(RelationOf(r), rootLifecycle)
      ensures observations == old(observations) + Stamped(RelationOf(r), rootLifecycle)
    {
      if r.ReadRelation? {
        assert Stamped([r.read], rootLifecycle) == [(r.read, rootLifecycle)];
        AppendEmpty(completedReads);
        ObserveRelation(r.read);
      } else {
        AppendEmpty(completedReads);
        AppendEmpty(observations);
      }
    }

    /** What the reads leave behind, after what was there before. */
    ghost predicate Noted(before: seq<(Read, Lifecycle)>, counted: seq<Read>, trail: seq<Read>)
      reads this`observations, this`completedReads, this`rootLifecycle
    {
      observations == before + Stamped(trail, rootLifecycle) &&
        completedReads == counted + Counting(trail, rootLifecycle)
    }

    lemma NotedNothing()
      ensures Noted(observations, completedReads, [])
    {
      AppendEmpty(observations);
      AppendEmpty(completedReads);
    }

    method HandleNext(r: GraphRead, ghost before: seq<(Read, Lifecycle)>, ghost counted: seq<Read>,
                      ghost trail: seq<Read>)
      requires GraphOk() && Noted(before, counted, trail)
      modifies this`observations, this`pending, this`completeObservationCount, this`completedReads
      ensures GraphOk() && Noted(before, counted, trail + RelationOf(r))
    {
      CountingOnReads(counted, trail, RelationOf(r), rootLifecycle);
      StampedOn(before, trail, RelationOf(r), rootLifecycle);
      HandleRead(r);
    }

    /** The reads in order, up to the first of an issue that is not among the fixture's. */
    method ReadOwn(batch: seq<GraphRead>, issues: set<string>) returns (reply: Reply)
      requires GraphOk()
      modifies this`observations, this`pending, this`completeObservationCount, this`completedReads
      ensures GraphOk() && reply == if OwnCount(batch, issues) == |batch| then Accepted else Rejected
      ensures Noted(old(observations), old(completedReads), BatchTrace(batch, issues))
    {
      NotedNothing();
      ghost var own, before, counted := OwnCount(batch, issues), observations, completedReads;
      for n := 0 to |batch|
        invariant GraphOk() && n <= own
        invariant Noted(before, counted, Relations(batch, n))
      {
        if IssueOf(batch[n]) !in issues {
          return Rejected;
        }
        HandleNext(batch[n], before, counted, Relations(batch, n));
      }
      reply := Accepted;
    }

    /** A batch handles its reads in order and stops at the first foreign issue. */
    method ReadBatch(batch: seq<GraphRead>) returns (reply: Reply)
      requires GraphOk()
      modifies this`observations, this`pending, this`completeObservationCount, this`completedReads
      ensures GraphOk()
      ensures reply == if OwnCount(batch, {root, dependant}) == |batch| then Accepted else Rejected
      ensures Noted(old(observations), old(completedReads), BatchTrace(batch, {root, dependant}))
    {
      reply := ReadOwn(batch, {root, dependant});
    }

    // ----- Tracker requests

    predicate OwnIssue(issue: string) {
      issue == root || issue == dependant
    }

    /** The identity a request must have before it is even counted; batches are checked read by read. */
    predicate OutsideFixture(r: Request) {
      match r
      case ReadGraphBatch(_) => false
      case ResolveIssue(matches) => !matches
      case ResolveRepository(matches) => !matches
      case ReadGraph(read) => !OwnIssue(IssueOf(read))
      case ReadTaskWorkSpecification(issue) => !OwnIssue(issue)
      case FindClaimLabel(owner, _) => owner != repository
      case CreateClaimLabel(owner, _, _, _) => owner != repository
      case DeleteClaimLabel(_) => false
      case CloseIssue(issue) => !OwnIssue(issue)
      case Unsupported(_, subject, owner) =>
        (subject.Some? && !OwnIssue(subject.value)) || (owner.Some? && owner.value != repository)
    }

    method CreateLabel(name: string, operationId: string, description: string) returns (reply: Reply)
      requires LabelsOk()
      modifies this`labels, this`receipts
      ensures LabelsOk()
      ensures reply == if name in old(labels) then Rejected else Accepted
      ensures reply == Rejected ==> labels == old(labels) && receipts == old(receipts)
      ensures reply == Accepted ==>
                var made := Label("hermetic-label:" + operationId, name, description);
                && labels == old(labels)[name := made]
                && receipts == old(receipts) + [LabelReceipt(made.id, name, fingerprint(description))]
    {
      if name in labels {
        return Rejected;
      }
      var made := Label("hermetic-label:" + operationId, name, description);
      labels := labels[name := made];
      receipts := receipts + [LabelReceipt(made.id, made.name, fingerprint(made.description))];
      reply := Accepted;
    }

    /** Removes every label with the node id; the receipts stay. */
    method DeleteLabel(nodeId: string) returns (reply: Reply)
      requires LabelsOk()
      modifies this`labels
      ensures LabelsOk()
      ensures reply == Rejected <==> forall name :: name in old(labels) ==> old(labels)[name].id != nodeId
      ensures reply == Rejected || reply == Accepted
      ensures reply == Rejected ==> labels == old(labels)
      ensures labels == map name | name in old(labels) && old(labels)[name].id != nodeId :: old(labels)[name]
    {
      var kept := map name | name in labels && labels[name].id != nodeId :: labels[name];
      if kept.Keys == labels.Keys {
        assert kept == labels;
        return Rejected;
      }
      labels := kept;
      reply := Accepted;
    }

    /** The controller decides how completions are answered from now on. */
    method SetCompletionResponse(throttle: bool)
      requires Valid()
      modifies this`throttled
      ensures Valid() && throttled == throttle
    {
      throttled := throttle;
    }

    /** Completes exactly the issue asked for, unless completions are throttled. */
    method Close(issue: string) returns (reply: Reply)
      requires OwnIssue(issue)
      modifies this`rootLifecycle, this`dependantLifecycle
      ensures reply == if throttled then Throttled else Accepted
      ensures rootLifecycle == if !throttled && issue == root then Closed else old(rootLifecycle)
      ensures dependantLifecycle == if !throttled && issue != root then Closed else old(dependantLifecycle)
    {
      if throttled {
        return Throttled;
      }
      if issue == root {
        rootLifecycle := Closed;
      } else {
        dependantLifecycle := Closed;
      }
      reply := Accepted;
    }

    ghost predicate Refuses(r: Request)
      reads this`labels
    {
      match r
      case ReadGraphBatch(batch) => OwnCount(batch, {root, dependant}) < |batch|
      case CreateClaimLabel(_, name, _, _) => name in labels
      case DeleteClaimLabel(nodeId) => forall name :: name in labels ==> labels[name].id != nodeId
      case Unsupported(_, _, _) => true
      case _ => false
    }

    /** The reads a request observes. */
    ghost function Observed(r: Request): seq<Read> {
      match r
      case ReadGraphBatch(batch) => BatchTrace(batch, {root, dependant})
      case ReadGraph(read) => RelationOf(read)
      case _ => []
    }

    /** Reads of the graph, alone or in a batch. */
    method ReadRequest(r: Request) returns (reply: Reply)
      requires GraphOk() && (r.ReadGraphBatch? || r.ReadGraph?)
      modifies this`observations, this`pending, this`completeObservationCount, this`completedReads
      ensures GraphOk() && reply == if Refuses(r) then Rejected else Accepted
      ensures completedReads == old(completedReads) + Counting(Observed(r), rootLifecycle)
      ensures observations == old(observations) + Stamped(Observed(r), rootLifecycle)
    {
      if r.ReadGraphBatch? {
        reply := ReadBatch(r.batch);
      } else {
        HandleRead(r.graphRead);
        reply := Accepted;
      }
    }

    /** The labels and receipts after a request that is not refused. */
    ghost function LabelsAfter(r: Request): map<string, Label>
      reads this`labels
    {
      match r
      case CreateClaimLabel(_, name, operationId, description) =>
        if name in labels then labels else labels[name := Label("hermetic-label:" + operationId, name, description)]
      case DeleteClaimLabel(nodeId) => map name | name in labels && labels[name].id != nodeId :: labels[name]
      case _ => labels
    }

    ghost function ReceiptsAfter(r: Request): seq<Receipt>
      reads this`labels, this`receipts
    {
      if r.CreateClaimLabel? && r.labelName !in labels
      then receipts + [LabelReceipt("hermetic-label:" + r.operationId, r.labelName, fingerprint(r.description))]
      else receipts
    }

    method LabelRequest(r: Request) returns (reply: Reply)
      requires LabelsOk() && (r.CreateClaimLabel? || r.DeleteClaimLabel?)
      modifies this`labels, this`receipts
      ensures LabelsOk() && reply == if old(Refuses(r)) then Rejected else Accepted
      ensures labels == old(LabelsAfter(r)) && receipts == old(ReceiptsAfter(r))
    {
      if r.CreateClaimLabel? {
        reply := CreateLabel(r.labelName, r.operationId, r.description);
      } else {
        reply := DeleteLabel(r.labelNodeId);
      }
    }

    /** A request inside the fixture: exactly what it changes, by kind of request. */
    method Dispatch(r: Request) returns (reply: Reply)
      requires Valid() && !OutsideFixture(r)
      modifies this`labels, this`receipts, this`rootLifecycle, this`dependantLifecycle, this`observations, this`pending,
               this`completeObservationCount, this`completedReads
      ensures Valid()
      ensures reply == if old(Refuses(r)) then Rejected else if r.CloseIssue? && throttled then Throttled else Accepted
      ensures observations == old(observations) + Stamped(Observed(r), old(rootLifecycle))
      ensures completedReads == old(completedReads) + Counting(Observed(r), old(rootLifecycle))
      ensures rootLifecycle == if r == CloseIssue(root) && !throttled then Closed else old(rootLifecycle)
      ensures dependantLifecycle == if r.CloseIssue? && r.issue != root && !throttled then Closed
              else old(dependantLifecycle)
      ensures labels == old(LabelsAfter(r)) && receipts == old(ReceiptsAfter(r))
    {
      if r.ReadGraphBatch? || r.ReadGraph? {
        NoLabelEffect(r);
        reply := ReadRequest(r);
        return;
      }
      NoReadEffect(r);
      if r.CreateClaimLabel? || r.DeleteClaimLabel? {
        reply := LabelRequest(r);
        return;
      }
      NoLabelEffect(r);
      reply := OtherRequest(r);
    }

    method OtherRequest(r: Request) returns (reply: Reply)
      requires !r.ReadGraphBatch? && !r.ReadGraph? && !r.CreateClaimLabel? && !r.DeleteClaimLabel?
      requires !OutsideFixture(r)
      modifies this`rootLifecycle, this`dependantLifecycle
      ensures reply == if r.Unsupported? then Rejected else if r.CloseIssue? && throttled then Throttled else Accepted
      ensures rootLifecycle == if r == CloseIssue(root) && !throttled then Closed else old(rootLifecycle)
      ensures dependantLifecycle == if r.CloseIssue? && r.issue != root && !throttled then Closed
                                    else old(dependantLifecycle)
    {
      if r.CloseIssue? {
        reply := Close(r.issue);
      } else {
        reply := if r.Unsupported? then Rejected else Accepted;
      }
    }

    lemma NoLabelEffect(r: Request)
      requires !r.CreateClaimLabel? && !r.DeleteClaimLabel?
      ensures LabelsAfter(r) == labels && ReceiptsAfter(r) == receipts
      ensures !r.ReadGraphBatch? ==> (Refuses(r) <==> r.Unsupported?)
    {
    }

    lemma NoReadEffect(r: Request)
      requires !r.ReadGraphBatch? && !r.ReadGraph?
      ensures observations + Stamped(Observed(r), rootLifecycle) == observations
      ensures completedReads + Counting(Observed(r), rootLifecycle) == completedReads
    {
      AppendEmpty(observations);
      AppendEmpty(completedReads);
    }

    /** A request inside the fixture is counted before anything else, and stays counted if it is refused. */
    method Serve(r: Request) returns (reply: Reply)
      requires Valid() && !OutsideFixture(r)
      modifies this`labels, this`receipts, this`rootLifecycle, this`dependantLifecycle, this`observations, this`pending,
               this`completeObservationCount, this`completedReads, this`calls
      ensures Valid() && calls == Counted(old(calls), CallName(r)) && calls != old(calls)
      ensures reply == if old(Refuses(r)) then Rejected else if r.CloseIssue? && throttled then Throttled else Accepted
      ensures observations == old(observations) + Stamped(Observed(r), old(rootLifecycle))
      ensures completedReads == old(completedReads) + Counting(Observed(r), old(rootLifecycle))
      ensures rootLifecycle == if r == CloseIssue(root) && !throttled then Closed else old(rootLifecycle)
      ensures dependantLifecycle == if r.CloseIssue? && r.issue != root && !throttled then Closed
                                    else old(dependantLifecycle)
      ensures labels == old(LabelsAfter(r)) && receipts == old(ReceiptsAfter(r))
      ensures reply == Rejected ==> (observations == old(observations) <==> !LeavesReads(r))
    {
      CountedIsVisible(calls, CallName(r));
      TraceIsVisible(observations, Observed(r), rootLifecycle);
      RefusedTrace(r);
      calls := Counted(calls, CallName(r));
      reply := Dispatch(r);
    }

    lemma RefusedLabels(r: Request)
      ensures Refuses(r) ==> LabelsAfter(r) == labels && ReceiptsAfter(r) == receipts
      ensures receipts <= ReceiptsAfter(r)
    {
    }

    /**
     One tracker request. A malformed request and one outside the fixture change nothing at all; any other is
     counted, and what it changes besides is what its kind says. A refused request leaves its count, exactly when
     it is inside the fixture, and observed reads, exactly when it is a batch with a relation read before its first
     foreign issue. No request removes a thread or a receipt, and none reopens an issue.
     */
    method Github(input: Option<Request>) returns (reply: Reply)
      requires Valid()
      modifies this`labels, this`receipts, this`rootLifecycle, this`dependantLifecycle, this`observations, this`pending,
               this`completeObservationCount, this`completedReads, this`calls
      ensures Valid()
      ensures old(receipts) <= receipts && old(observations) <= observations && old(completedReads) <= completedReads
      ensures old(rootLifecycle) == Closed ==> rootLifecycle == Closed
      ensures old(dependantLifecycle) == Closed ==> dependantLifecycle == Closed
      ensures input.None? || OutsideFixture(input.value) ==> reply == Rejected && unchanged(this)
      ensures input.Some? && !OutsideFixture(input.value) ==>
                var r := input.value;
                && calls == Counted(old(calls), CallName(r))
                && reply == (if old(Refuses(r)) then Rejected
                             else if r.CloseIssue? && throttled then Throttled else Accepted)
                && observations == old(observations) + Stamped(Observed(r), old(rootLifecycle))
                && (rootLifecycle == if r == CloseIssue(root) && !throttled then Closed else old(rootLifecycle))
                && (dependantLifecycle == if r.CloseIssue? && r.issue != root && !throttled then Closed
                                          else old(dependantLifecycle))
                && labels == old(LabelsAfter(r)) && receipts == old(ReceiptsAfter(r))
      ensures reply == Rejected && input.Some? ==>
                && (calls == old(calls) <==> OutsideFixture(input.value))
                && (observations == old(observations) <==> !LeavesReads(input.value))
                && labels == old(labels) && receipts == old(receipts)
    {
      if input.None? || OutsideFixture(input.value) {
        return Rejected;
      }
      RefusedLabels(input.value);
      reply := Serve(input.value);
    }

    /** A batch with a relation read before its first foreign issue. */
    ghost predicate LeavesReads(r: Request) {
      r.ReadGraphBatch? && !OnlyIssues(r.batch, OwnCount(r.batch, {root, dependant}))
    }

    /** Of the requests that can be refused, only such a batch has observed anything by then. */
    lemma RefusedTrace(r: Request)
      ensures Refuses(r) ==> (Observed(r) == [] <==> !LeavesReads(r))
      ensures OutsideFixture(r) ==> !LeavesReads(r)
    {
      if r.ReadGraphBatch? {
        EmptyTrace(r.batch, OwnCount(r.batch, {root, dependant}));
      }
    }

    /** The dependant counts as ready only after the whole order was read consecutively with the root completed. */
    method DependantReady() returns (ready: bool)
      requires Valid()
      ensures ready ==> Traversed(Expected(), completedReads)
      ensures 4 * completeObservationCount + |pending| <= |completedReads|
    {
      TraversalIsSound(Expected(), completedReads);
      ready := completeObservationCount > 0;
    }
  }
}
