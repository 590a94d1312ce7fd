/**
 The shared occurrence recorder, the cassette that compares its snapshot with an accepted order, and
 the required-edge validator with its negative control.
 */
module Occurrences {
  import opened Common

  datatype Source = Action | Control | Executor | Git | Journal | Publication | Tracker | Trace

  datatype Observed = Observed(detail: string, kind: string, ordinal: int, source: Source, sourceSequence: int)

  datatype Input = Input(detail: Option<string>, kind: string, source: Source)

  /** What the cassette compares: everything but the stamps. */
  datatype Identity = Identity(detail: string, kind: string, source: Source)

  const OCCURRENCE_LIMIT: nat := 20_000

  function IdentityOf(o: Observed): Identity {
    Identity(o.detail, o.kind, o.source)
  }

  function InputIdentity(i: Input): Identity {
    Identity(if i.detail.Some? then i.detail.value else "", i.kind, i.source)
  }

  // ----- What a recording should be

  /** How many of the first `n` identities come from `source`. */
  function CountSource(ids: seq<Identity>, n: nat, source: Source): nat
    requires n <= |ids|
  {
    if n == 0 then 0 else CountSource(ids, n - 1, source) + (if ids[n - 1].source == source then 1 else 0)
  }

  /** The occurrence at index `i`: the global ordinal and the per-source sequence both count from one. */
  function StampAt(ids: seq<Identity>, i: nat): Observed
    requires i < |ids|
  {
    Observed(ids[i].detail, ids[i].kind, i + 1, ids[i].source, CountSource(ids, i, ids[i].source) + 1)
  }

  function Stamp(ids: seq<Identity>): (r: seq<Observed>)
    ensures |r| == |ids| && forall i :: 0 <= i < |ids| ==> r[i] == StampAt(ids, i)
  {
    seq(|ids|, i requires 0 <= i < |ids| => StampAt(ids, i))
  }

  lemma {:induction false} CountOfPrefix(ids: seq<Identity>, more: seq<Identity>, n: nat, source: Source)
    requires n <= |ids|
    ensures CountSource(ids + more, n, source) == CountSource(ids, n, source)
  {
    if n > 0 {
      CountOfPrefix(ids, more, n - 1, source);
    }
  }

  lemma StampedPrefix(ids: seq<Identity>, id: Identity, i: nat)
    requires i < |ids|
    ensures StampAt(ids + [id], i) == StampAt(ids, i)
  {
    CountOfPrefix(ids, [id], i, ids[i].source);
  }

  lemma {:induction false} StampedLast(ids: seq<Identity>, id: Identity)
    ensures StampAt(ids + [id], |ids|) ==
            Observed(id.detail, id.kind, |ids| + 1, id.source, CountSource(ids, |ids|, id.source) + 1)
  {
    CountOfPrefix(ids, [id], |ids|, id.source);
  }

  lemma StampSnoc(ids: seq<Identity>, id: Identity)
    ensures Stamp(ids + [id]) == Stamp(ids) + [StampAt(ids + [id], |ids|)]
  {
    forall i | 0 <= i < |ids| ensures Stamp(ids + [id])[i] == Stamp(ids)[i] {
      StampedPrefix(ids, id, i);
    }
  }

  // ----- The recorder

  /** The persistent list the recorder grows, newest entry first. */
  datatype Chain = Nothing | Link(entry: Observed, previous: Chain)

  function Oldest(chain: Chain): seq<Observed> {
    match chain
    case Nothing => []
    case Link(entry, previous) => Oldest(previous) + [entry]
  }

  function Reversed(s: seq<Observed>): seq<Observed> {
    if s == [] then [] else Reversed(s[1..]) + [s[0]]
  }

  lemma {:induction false} ReversedSnoc(s: seq<Observed>, x: Observed)
    ensures Reversed(s + [x]) == [x] + Reversed(s)
  {
    if s == [] {
      assert s + [x] == [x];
    } else {
      assert (s + [x])[1..] == s[1..] + [x];
      ReversedSnoc(s[1..], x);
    }
  }

  class Recorder {
    var count: nat
    var head: Chain
    var sourceSequences: map<Source, nat>
    /** The identities accepted so far, in call order. */
    ghost var recorded: seq<Identity>

    ghost predicate Valid()
      reads this
    {
      && count == |recorded| <= OCCURRENCE_LIMIT
      && Oldest(head) == Stamp(recorded)
      && forall s :: (if s in sourceSequences then sourceSequences[s] else 0) == CountSource(recorded, count, s)
    }

    constructor ()
      ensures Valid() && recorded == []
    {
      count, head, sourceSequences, recorded := 0, Nothing, map[], [];
    }

    /** Stamps and appends, unless the limit is reached; then nothing changes. */
    method Record(input: Input) returns (accepted: bool)
      requires Valid()
      modifies this
      ensures Valid()
      ensures accepted <==> |old(recorded)| < OCCURRENCE_LIMIT
      ensures recorded == if accepted then old(recorded) + [InputIdentity(input)] else old(recorded)
    {
      if count >= OCCURRENCE_LIMIT {
        return false;
      }
      ghost var before := recorded;
      var sourceSequence := (if input.source in sourceSequences then sourceSequences[input.source] else 0) + 1;
      var detail := if input.detail.Some? then input.detail.value else "";
      head := Link(Observed(detail, input.kind, count + 1, input.source, sourceSequence), head);
      sourceSequences := sourceSequences[input.source := sourceSequence];
      count := count + 1;
      recorded := recorded + [InputIdentity(input)];
      StampSnoc(before, InputIdentity(input));
      StampedLast(before, InputIdentity(input));
      forall s ensures CountSource(recorded, count, s) ==
                       CountSource(before, |before|, s) + (if input.source == s then 1 else 0)
      {
        CountOfPrefix(before, [InputIdentity(input)], |before|, s);
      }
      accepted := true;
    }

    /** The snapshot is in call order with contiguous ordinals and contiguous per-source sequences. */
    method Snapshot() returns (entries: seq<Observed>)
      requires Valid()
      ensures entries == Stamp(recorded)
    {
      var reversed := [];
      var current := head;
      while current.Link?
        invariant Oldest(head) == Oldest(current) + Reversed(reversed)
        decreases current
      {
        ReversedSnoc(reversed, current.entry);
        AppendAssociative(Oldest(current.previous), [current.entry], Reversed(reversed));
        reversed := reversed + [current.entry];
        current := current.previous;
      }
      entries := Reversed(reversed);
      AppendEmpty(entries);
    }
  }

  // ----- The cassette

  datatype Mismatch =
    | DifferentOccurrence(actual: Identity, expected: Identity, position: nat)
    | InvalidOrdinal(wanted: nat, received: int, position: nat)
    | InvalidSourceSequence(source: Source, wanted: nat, received: int, position: nat)
    | UnconsumedExpectedOccurrence(expected: Identity, position: nat)
    | UnexpectedOccurrence(actual: Identity, position: nat)

  datatype Consumption = Consumed(occurrenceCount: nat) | OrderMismatch(mismatch: Mismatch)

  function Identities(actual: seq<Observed>): (ids: seq<Identity>)
    ensures |ids| == |actual| && forall i :: 0 <= i < |actual| ==> ids[i] == IdentityOf(actual[i])
  {
    seq(|actual|, i requires 0 <= i < |actual| => IdentityOf(actual[i]))
  }

  function Longer(expected: seq<Identity>, actual: seq<Observed>): nat {
    if |expected| < |actual| then |actual| else |expected|
  }

  /** What is wrong at index `i` when everything before it was right. */
  function MismatchAt(expected: seq<Identity>, actual: seq<Observed>, i: nat): Option<Mismatch>
    requires i < Longer(expected, actual)
  {
    if i >= |expected| then Some(UnexpectedOccurrence(IdentityOf(actual[i]), i + 1))
    else if i >= |actual| then Some(UnconsumedExpectedOccurrence(expected[i], i + 1))
    else if actual[i].ordinal != i + 1 then Some(InvalidOrdinal(i + 1, actual[i].ordinal, i + 1))
    else
      var wanted := CountSource(Identities(actual), i, actual[i].source) + 1;
      if actual[i].sourceSequence != wanted then
        Some(InvalidSourceSequence(actual[i].source, wanted, actual[i].sourceSequence, i + 1))
      else if expected[i] != IdentityOf(actual[i]) then
        Some(DifferentOccurrence(IdentityOf(actual[i]), expected[i], i + 1))
      else None
  }

  /** One position of the compare loop, with the running per-source counters. */
  method OccurrenceMismatchAt(expected: Option<Identity>, observed: Option<Observed>, position: nat,
                              nextIn: map<Source, nat>)
    returns (mismatch: Option<Mismatch>, next: map<Source, nat>)
    requires position > 0
    ensures expected.None? && observed.Some? ==>
              mismatch == Some(UnexpectedOccurrence(IdentityOf(observed.value), position))
    ensures expected.Some? && observed.None? ==>
              mismatch == Some(UnconsumedExpectedOccurrence(expected.value, position))
    ensures expected.Some? && observed.Some? ==>
              var o := observed.value;
              var wanted := (if o.source in nextIn then nextIn[o.source] else 0) + 1;
              && mismatch == (if o.ordinal != position then Some(InvalidOrdinal(position, o.ordinal, position))
                              else if o.sourceSequence != wanted then
                                Some(InvalidSourceSequence(o.source, wanted, o.sourceSequence, position))
                              else if expected.value != IdentityOf(o) then
                                Some(DifferentOccurrence(IdentityOf(o), expected.value, position))
                              else None)
              && (mismatch.None? ==> next == nextIn[o.source := wanted])
  {
    next, mismatch := nextIn, None;
    if expected.None? && observed.Some? {
      mismatch := Some(UnexpectedOccurrence(IdentityOf(observed.value), position));
      return;
    }
    if expected.Some? && observed.None? {
      mismatch := Some(UnconsumedExpectedOccurrence(expected.value, position));
      return;
    }
    if expected.None? || observed.None? {
      return;
    }
    var o := observed.value;
    if o.ordinal != position {
      mismatch := Some(InvalidOrdinal(position, o.ordinal, position));
      return;
    }
    var wanted := (if o.source in next then next[o.source] else 0) + 1;
    if o.sourceSequence != wanted {
      mismatch := Some(InvalidSourceSequence(o.source, wanted, o.sourceSequence, position));
      return;
    }
    next := next[o.source := wanted];
    if expected.value != IdentityOf(o) {
      mismatch := Some(DifferentOccurrence(IdentityOf(o), expected.value, position));
    }
  }

  /** Accepts exactly when no position is wrong, and otherwise reports the first that is. */
  method ConsumeAcceptedOrder(expected: seq<Identity>, actual: seq<Observed>) returns (result: Consumption)
    ensures result == Consume(expected, actual, 0)
  {
    var next: map<Source, nat> := map[];
    var comparedLength := Longer(expected, actual);
    for index := 0 to comparedLength
      invariant Consume(expected, actual, 0) == Consume(expected, actual, index)
      invariant index <= |actual| && index <= |expected|
      invariant forall s :: (if s in next then next[s] else 0) == CountSource(Identities(actual), index, s)
    {
      var e := if index < |expected| then Some(expected[index]) else None;
      var o := if index < |actual| then Some(actual[index]) else None;
      var mismatch;
      mismatch, next := OccurrenceMismatchAt(e, o, index + 1, next);
      assert mismatch == MismatchAt(expected, actual, index);
      if mismatch.Some? {
        return OrderMismatch(mismatch.value);
      }
    }
    result := Consumed(|actual|);
  }

  /** The first mismatch from index `i` on. */
  function Consume(expected: seq<Identity>, actual: seq<Observed>, i: nat): Consumption
    requires i <= Longer(expected, actual)
    decreases Longer(expected, actual) - i
  {
    if i == Longer(expected, actual) then Consumed(|actual|)
    else
      var mismatch := MismatchAt(expected, actual, i);
      if mismatch.Some? then OrderMismatch(mismatch.value) else Consume(expected, actual, i + 1)
  }

  /** The two orders agree before index `i` and differ, in length or in content, at it. */
  ghost predicate FirstDifference(expected: seq<Identity>, ids: seq<Identity>, i: nat) {
    && i <= |expected| && i <= |ids| && expected[..i] == ids[..i]
    && (i == |expected| < |ids| || i == |ids| < |expected| || (i < |expected| && i < |ids| && expected[i] != ids[i]))
  }

  lemma StampedIdentities(ids: seq<Identity>)
    ensures Identities(Stamp(ids)) == ids
  {
  }

  /** On a stamped recording only presence and identity can be wrong. */
  lemma MismatchAtStamped(expected: seq<Identity>, ids: seq<Identity>, i: nat)
    requires i < Longer(expected, Stamp(ids))
    ensures MismatchAt(expected, Stamp(ids), i) ==
            if i >= |expected| then Some(UnexpectedOccurrence(ids[i], i + 1))
            else if i >= |ids| then Some(UnconsumedExpectedOccurrence(expected[i], i + 1))
            else if expected[i] != ids[i] then Some(DifferentOccurrence(ids[i], expected[i], i + 1))
            else None
  {
    StampedIdentities(ids);
  }

  lemma {:induction false} ConsumeStamped(expected: seq<Identity>, ids: seq<Identity>, i: nat)
    requires i <= |expected| && i <= |ids| && expected[..i] == ids[..i]
    ensures match Consume(expected, Stamp(ids), i)
            case Consumed(n) => expected == ids && n == |ids|
            case OrderMismatch(m) => m.position > 0 && FirstDifference(expected, ids, m.position - 1)
    decreases |ids| - i
  {
    if i == |expected| && i == |ids| {
      assert expected[..i] == expected && ids[..i] == ids;
    } else {
      MismatchAtStamped(expected, ids, i);
      if i < |expected| && i < |ids| && expected[i] == ids[i] {
        TakeSnoc(expected, i);
        TakeSnoc(ids, i);
        ConsumeStamped(expected, ids, i + 1);
      }
    }
  }

  /**
   The recorder's own stamps never fail the cassette: a snapshot is accepted against an expected order
   if and only if the identities are equal as sequences, and otherwise the reported position is the
   first at which they differ.
   */
  lemma {:induction false} RecorderAndCassetteAgree(expected: seq<Identity>, ids: seq<Identity>)
    ensures Consume(expected, Stamp(ids), 0).Consumed? <==> expected == ids
    ensures Consume(expected, Stamp(ids), 0).OrderMismatch? ==>
              var m := Consume(expected, Stamp(ids), 0).mismatch;
              m.position > 0 && FirstDifference(expected, ids, m.position - 1)
  {
    ConsumeStamped(expected, ids, 0);
  }

  ghost predicate StampedAt(expected: seq<Identity>, actual: seq<Observed>, i: nat) {
    i < |expected| && i < |actual| && actual[i] == StampAt(Identities(actual), i) &&
      expected[i] == IdentityOf(actual[i])
  }

  lemma NoMismatchIsStamped(expected: seq<Identity>, actual: seq<Observed>, i: nat)
    requires i < Longer(expected, actual) && MismatchAt(expected, actual, i) == None
    ensures StampedAt(expected, actual, i)
  {
  }

  lemma {:induction false} ConsumedIsStamped(expected: seq<Identity>, actual: seq<Observed>, i: nat, j: nat)
    requires i <= j < Longer(expected, actual) && Consume(expected, actual, i).Consumed?
    ensures StampedAt(expected, actual, j)
    decreases j - i
  {
    if i == j {
      NoMismatchIsStamped(expected, actual, i);
    } else {
      ConsumedIsStamped(expected, actual, i + 1, j);
    }
  }

  /** Conversely, only a properly stamped recording of the expected order is accepted at all. */
  lemma {:induction false} OnlyStampedIsConsumed(expected: seq<Identity>, actual: seq<Observed>)
    ensures Consume(expected, actual, 0).Consumed? <==> actual == Stamp(expected)
  {
    if Consume(expected, actual, 0).Consumed? {
      forall j | 0 <= j < Longer(expected, actual) ensures StampedAt(expected, actual, j) {
        ConsumedIsStamped(expected, actual, 0, j);
      }
      if Longer(expected, actual) > 0 {
        assert StampedAt(expected, actual, Longer(expected, actual) - 1);
      }
      assert |expected| == |actual|;
      forall j | 0 <= j < |actual| ensures Identities(actual)[j] == expected[j] {
        assert StampedAt(expected, actual, j);
      }
      assert Identities(actual) == expected;
      forall j | 0 <= j < |actual| ensures actual[j] == Stamp(expected)[j] {
        assert StampedAt(expected, actual, j);
      }
    }
    if actual == Stamp(expected) {
      RecorderAndCassetteAgree(expected, expected);
    }
  }

  // ----- Required edges

  datatype Landmark = Landmark(key: string, occurrence: Observed)

  datatype RequiredEdge = RequiredEdge(after: string, before: string, claim: int, id: string)

  datatype Reason = AfterNotAfterBefore | DuplicateEndpoint | MissingEndpoint

  function OccurrencesFor(landmarks: seq<Landmark>, key: string): seq<Landmark> {
    if landmarks == [] then []
    else (if landmarks[0].key == key then [landmarks[0]] else []) + OccurrencesFor(landmarks[1..], key)
  }

  function Violation(landmarks: seq<Landmark>, edge: RequiredEdge): Option<Reason> {
    var before, after := OccurrencesFor(landmarks, edge.before), OccurrencesFor(landmarks, edge.after);
    if before == [] || after == [] then Some(MissingEndpoint)
    else if |before| != 1 || |after| != 1 then Some(DuplicateEndpoint)
    else if before[0].occurrence.ordinal < after[0].occurrence.ordinal then None
    else Some(AfterNotAfterBefore)
  }

  function FindIndex(landmarks: seq<Landmark>, key: string): (i: nat)
    ensures i <= |landmarks|
    ensures i < |landmarks| ==> landmarks[i].key == key
    ensures forall j :: 0 <= j < i ==> landmarks[j].key != key
  {
    if landmarks == [] || landmarks[0].key == key then 0 else FindIndex(landmarks[1..], key) + 1
  }

  function Renumbered(landmarks: seq<Landmark>): (r: seq<Landmark>)
    ensures |r| == |landmarks|
    ensures forall i :: 0 <= i < |r| ==> r[i] == Landmark(landmarks[i].key, landmarks[i].occurrence.(ordinal := i + 1))
  {
    seq(|landmarks|, i requires 0 <= i < |landmarks| =>
      Landmark(landmarks[i].key, landmarks[i].occurrence.(ordinal := i + 1)))
  }

  /** The landmark at `from` moved to just before the landmark keyed `before`. */
  function MovedBefore(landmarks: seq<Landmark>, from: nat, before: string): seq<Landmark>
    requires from < |landmarks|
  {
    var without := landmarks[..from] + landmarks[from + 1..];
    var target := FindIndex(without, before);
    without[..target] + [landmarks[from]] + without[target..]
  }

  function ReverseRequiredEdge(landmarks: seq<Landmark>, edge: RequiredEdge): seq<Landmark> {
    var beforeIndex, afterIndex := FindIndex(landmarks, edge.before), FindIndex(landmarks, edge.after);
    if beforeIndex == |landmarks| || afterIndex == |landmarks| || beforeIndex == afterIndex then landmarks
    else Renumbered(MovedBefore(landmarks, afterIndex, edge.before))
  }

  lemma {:induction false} OccurrencesAppend(left: seq<Landmark>, right: seq<Landmark>, key: string)
    ensures OccurrencesFor(left + right, key) == OccurrencesFor(left, key) + OccurrencesFor(right, key)
  {
    if left == [] {
      AppendEmpty(right);
      AppendEmpty(OccurrencesFor(right, key));
    } else {
      TailOfAppend(left, right);
      OccurrencesAppend(left[1..], right, key);
      var head := if left[0].key == key then [left[0]] else [];
      AppendAssociative(head, OccurrencesFor(left[1..], key), OccurrencesFor(right, key));
    }
  }

  /** Moving a landmark changes no key's number of occurrences. */
  lemma {:induction false} MoveKeepsCounts(landmarks: seq<Landmark>, from: nat, before: string, key: string)
    requires from < |landmarks|
    ensures |OccurrencesFor(MovedBefore(landmarks, from, before), key)| == |OccurrencesFor(landmarks, key)|
  {
    var front, moved, back := landmarks[..from], [landmarks[from]], landmarks[from + 1..];
    var without := front + back;
    var target := FindIndex(without, before);
    assert landmarks == (front + moved) + back;
    SplitAt(without, target);
    OccurrencesAppend(front + moved, back, key);
    OccurrencesAppend(front, moved, key);
    OccurrencesAppend(front, back, key);
    OccurrencesAppend(without[..target], without[target..], key);
    OccurrencesAppend(without[..target] + moved, without[target..], key);
    OccurrencesAppend(without[..target], moved, key);
  }

  /** All evidence members survive the move. */
  lemma MoveKeepsMembers(landmarks: seq<Landmark>, from: nat, before: string)
    requires from < |landmarks|
    ensures multiset(MovedBefore(landmarks, from, before)) == multiset(landmarks)
  {
    var front, moved, back := landmarks[..from], [landmarks[from]], landmarks[from + 1..];
    var without := front + back;
    var target := FindIndex(without, before);
    SplitAt(without, target);
    assert landmarks == front + moved + back;
    calc {
      multiset(MovedBefore(landmarks, from, before));
      multiset(without[..target]) + multiset(moved) + multiset(without[target..]);
      multiset(without[..target] + without[target..]) + multiset(moved);
      multiset(front) + multiset(back) + multiset(moved);
      multiset(landmarks);
    }
  }

  lemma {:induction false} OnlyOccurrence(landmarks: seq<Landmark>, i: nat)
    requires i < |landmarks| && |OccurrencesFor(landmarks, landmarks[i].key)| == 1
    ensures OccurrencesFor(landmarks, landmarks[i].key) == [landmarks[i]]
  {
    var key := landmarks[i].key;
    if i > 0 {
      var rest := landmarks[1..];
      assert rest[i - 1] == landmarks[i];
      HasOccurrence(rest, i - 1);
      OnlyOccurrence(rest, i - 1);
    }
  }

  lemma {:induction false} HasOccurrence(landmarks: seq<Landmark>, i: nat)
    requires i < |landmarks|
    ensures OccurrencesFor(landmarks, landmarks[i].key) != []
  {
    if i > 0 {
      assert landmarks[1..][i - 1] == landmarks[i];
      HasOccurrence(landmarks[1..], i - 1);
    }
  }

  lemma {:induction false} NoOccurrence(landmarks: seq<Landmark>, key: string)
    ensures FindIndex(landmarks, key) == |landmarks| <==> OccurrencesFor(landmarks, key) == []
  {
    if landmarks != [] && landmarks[0].key != key {
      NoOccurrence(landmarks[1..], key);
    }
  }

  lemma {:induction false} RenumberedCounts(landmarks: seq<Landmark>, numbered: seq<Landmark>, key: string)
    requires |numbered| == |landmarks| && forall i :: 0 <= i < |landmarks| ==> numbered[i].key == landmarks[i].key
    ensures |OccurrencesFor(numbered, key)| == |OccurrencesFor(landmarks, key)|
  {
    if landmarks != [] {
      RenumberedCounts(landmarks[1..], numbered[1..], key);
    }
  }

  /** Where the two endpoints end up. */
  lemma MovedPositions(landmarks: seq<Landmark>, from: nat, before: string) returns (target: nat)
    requires from < |landmarks| && landmarks[from].key != before
    requires OccurrencesFor(landmarks, before) != []
    ensures var m := MovedBefore(landmarks, from, before);
            && |m| == |landmarks| && target + 1 < |m|
            && m[target] == landmarks[from] && m[target + 1].key == before
  {
    var front, back := landmarks[..from], landmarks[from + 1..];
    var without := front + back;
    target := FindIndex(without, before);
    assert landmarks == (front + [landmarks[from]]) + back;
    OccurrencesAppend(front + [landmarks[from]], back, before);
    OccurrencesAppend(front, [landmarks[from]], before);
    OccurrencesAppend(front, back, before);
    assert OccurrencesFor([landmarks[from]], before) == [];
    NoOccurrence(without, before);
  }

  /** The negative control works: reversing any satisfied edge is always caught as an ordering violation. */
  lemma ReversalIsDetected(landmarks: seq<Landmark>, edge: RequiredEdge)
    requires Violation(landmarks, edge) == None
    ensures Violation(ReverseRequiredEdge(landmarks, edge), edge) == Some(AfterNotAfterBefore)
  {
    NoOccurrence(landmarks, edge.before);
    NoOccurrence(landmarks, edge.after);
    var beforeIndex, afterIndex := FindIndex(landmarks, edge.before), FindIndex(landmarks, edge.after);
    assert edge.before != edge.after;
    var moved := MovedBefore(landmarks, afterIndex, edge.before);
    var result := Renumbered(moved);
    var target := MovedPositions(landmarks, afterIndex, edge.before);
    MoveKeepsCounts(landmarks, afterIndex, edge.before, edge.before);
    MoveKeepsCounts(landmarks, afterIndex, edge.before, edge.after);
    RenumberedCounts(moved, result, edge.before);
    RenumberedCounts(moved, result, edge.after);
    assert result[target].key == edge.after && result[target + 1].key == edge.before;
    OnlyOccurrence(result, target);
    OnlyOccurrence(result, target + 1);
  }
}
