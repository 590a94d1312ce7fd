/** Comparison of operation identities as sorted, comma-joined text. */
module OperationIds {
  import opened Common
  import opened JsText

  type Id = JsString

  const COMMA: Unit := 44

  /** Order by code units. */
  predicate AtMost(a: Id, b: Id) {
    a == [] || (b != [] && (a[0] < b[0] || (a[0] == b[0] && AtMost(a[1..], b[1..]))))
  }

  function Insert(x: Id, ids: seq<Id>): seq<Id> {
    if ids == [] || AtMost(x, ids[0]) then [x] + ids else [ids[0]] + Insert(x, ids[1..])
  }

  function Sort(ids: seq<Id>): seq<Id> {
    if ids == [] then [] else Insert(ids[0], Sort(ids[1..]))
  }

  function Join(ids: seq<Id>): Id {
    if ids == [] then [] else if |ids| == 1 then ids[0] else ids[0] + [COMMA] + Join(ids[1..])
  }

  predicate SameOperationIds(left: seq<Id>, right: seq<Id>) {
    Join(Sort(left)) == Join(Sort(right))
  }

  // ----- The order

  lemma {:induction false} AtMostIsTotal(a: Id, b: Id)
    ensures AtMost(a, b) || AtMost(b, a)
    ensures AtMost(a, b) && AtMost(b, a) ==> a == b
    decreases |a|
  {
    if a != [] && b != [] {
      AtMostIsTotal(a[1..], b[1..]);
      HeadTail(a);
      HeadTail(b);
    }
  }

  lemma {:induction false} AtMostIsTransitive(a: Id, b: Id, c: Id)
    requires AtMost(a, b) && AtMost(b, c)
    ensures AtMost(a, c)
    decreases |a|
  {
    if a != [] && a[0] == b[0] == c[0] {
      AtMostIsTransitive(a[1..], b[1..], c[1..]);
    }
  }

  // ----- Sorting

  predicate Ascending(ids: seq<Id>) {
    |ids| <= 1 || (AtMost(ids[0], ids[1]) && Ascending(ids[1..]))
  }

  lemma {:induction false} AscendingFrom(x: Id, ids: seq<Id>)
    requires Ascending(ids) && (ids == [] || AtMost(x, ids[0]))
    ensures Ascending([x] + ids)
  {
    assert ([x] + ids)[1..] == ids;
  }

  lemma {:induction false} InsertHead(x: Id, ids: seq<Id>)
    ensures Insert(x, ids) != []
    ensures Insert(x, ids)[0] == if ids == [] || AtMost(x, ids[0]) then x else ids[0]
  {
  }

  lemma {:induction false} InsertMembers(x: Id, ids: seq<Id>)
    ensures multiset(Insert(x, ids)) == multiset(ids) + multiset{x}
  {
    if ids != [] && !AtMost(x, ids[0]) {
      InsertMembers(x, ids[1..]);
      HeadTail(ids);
    }
  }

  lemma {:induction false} AscendingRest(ids: seq<Id>)
    requires Ascending(ids) && ids != []
    ensures Ascending(ids[1..]) && (|ids| > 1 ==> AtMost(ids[0], ids[1..][0]))
  {
  }

  lemma {:induction false} InsertIsAscending(x: Id, ids: seq<Id>)
    requires Ascending(ids)
    ensures Ascending(Insert(x, ids))
  {
    if ids == [] || AtMost(x, ids[0]) {
      AscendingFrom(x, ids);
    } else {
      AtMostIsTotal(x, ids[0]);
      AscendingRest(ids);
      InsertIsAscending(x, ids[1..]);
      InsertHead(x, ids[1..]);
      AscendingFrom(ids[0], Insert(x, ids[1..]));
    }
  }

  lemma {:induction false} SortIsSorted(ids: seq<Id>)
    ensures Ascending(Sort(ids)) && multiset(Sort(ids)) == multiset(ids)
  {
    if ids != [] {
      SortIsSorted(ids[1..]);
      InsertIsAscending(ids[0], Sort(ids[1..]));
      InsertMembers(ids[0], Sort(ids[1..]));
      HeadTail(ids);
    }
  }

  lemma {:induction false} HeadIsLeast(ids: seq<Id>, x: Id)
    requires Ascending(ids) && x in ids
    ensures AtMost(ids[0], x)
  {
    AtMostIsTotal(x, x);
    if x != ids[0] {
      HeadTail(ids);
      HeadIsLeast(ids[1..], x);
      AtMostIsTransitive(ids[0], ids[1], x);
    }
  }

  lemma {:induction false} AscendingIsUnique(a: seq<Id>, b: seq<Id>)
    requires Ascending(a) && Ascending(b) && multiset(a) == multiset(b)
    ensures a == b
    decreases |a|
  {
    assert |a| == |multiset(a)| == |multiset(b)| == |b|;
    if a != [] {
      assert a[0] in multiset(a) && b[0] in multiset(b);
      HeadIsLeast(a, b[0]);
      HeadIsLeast(b, a[0]);
      AtMostIsTotal(a[0], b[0]);
      HeadTail(a);
      HeadTail(b);
      assert multiset(a[1..]) == multiset(a) - multiset{a[0]};
      assert multiset(b[1..]) == multiset(b) - multiset{b[0]};
      AscendingIsUnique(a[1..], b[1..]);
    }
  }

  // ----- Joining

  /** A non-empty identity without the separator. */
  predicate Plain(id: Id) {
    id != [] && COMMA !in id
  }

  predicate AllPlain(ids: seq<Id>) {
    forall i :: 0 <= i < |ids| ==> Plain(ids[i])
  }

  /** What follows the first identity in the joined text. */
  function Rest(ids: seq<Id>): Id
    requires ids != []
  {
    if |ids| == 1 then [] else [COMMA] + Join(ids[1..])
  }

  lemma {:induction false} JoinSplits(ids: seq<Id>)
    requires ids != []
    ensures Join(ids) == ids[0] + Rest(ids)
  {
    if |ids| == 1 {
      AppendEmpty(ids[0]);
    } else {
      AppendAssociative(ids[0], [COMMA], Join(ids[1..]));
    }
  }

  lemma SeparatorInLonger(a: Id, b: Id, restA: Id, restB: Id)
    requires a + restA == b + restB && (restA == [] || restA[0] == COMMA)
    ensures |a| < |b| ==> COMMA in b
  {
    if |a| < |b| {
      assert (a + restA)[|a|] == (b + restB)[|a|] == b[|a|];
    }
  }

  lemma SamePrefix(a: Id, b: Id, restA: Id, restB: Id)
    requires COMMA !in a && COMMA !in b && a + restA == b + restB
    requires (restA == [] || restA[0] == COMMA) && (restB == [] || restB[0] == COMMA)
    ensures a == b && restA == restB
  {
    SeparatorInLonger(a, b, restA, restB);
    SeparatorInLonger(b, a, restB, restA);
    DropAppended(a, restA);
    DropAppended(b, restB);
  }

  lemma {:induction false} JoinIsInjective(a: seq<Id>, b: seq<Id>)
    requires AllPlain(a) && AllPlain(b) && Join(a) == Join(b)
    ensures a == b
    decreases |a|
  {
    if a != [] && b != [] {
      JoinSplits(a);
      JoinSplits(b);
      SamePrefix(a[0], b[0], Rest(a), Rest(b));
      HeadTail(a);
      HeadTail(b);
      if |a| > 1 && |b| > 1 {
        DropAppended([COMMA], Join(a[1..]));
        DropAppended([COMMA], Join(b[1..]));
        JoinIsInjective(a[1..], b[1..]);
      }
    } else if b != [] {
      JoinSplits(b);
    } else if a != [] {
      JoinSplits(a);
    }
  }

  // ----- The comparison

  lemma {:induction false} PlainAfterSorting(ids: seq<Id>)
    requires AllPlain(ids)
    ensures AllPlain(Sort(ids))
  {
    SortIsSorted(ids);
    forall i | 0 <= i < |Sort(ids)| ensures Plain(Sort(ids)[i]) {
      assert Sort(ids)[i] in multiset(Sort(ids));
      assert Sort(ids)[i] in multiset(ids);
      assert Sort(ids)[i] in ids;
    }
  }

  /** On identities without a comma the comparison is equality of the collections, whatever their order. */
  lemma ComparisonIsExact(left: seq<Id>, right: seq<Id>)
    requires AllPlain(left) && AllPlain(right)
    ensures SameOperationIds(left, right) <==> multiset(left) == multiset(right)
  {
    SortIsSorted(left);
    SortIsSorted(right);
    PlainAfterSorting(left);
    PlainAfterSorting(right);
    if SameOperationIds(left, right) {
      JoinIsInjective(Sort(left), Sort(right));
    }
    if multiset(left) == multiset(right) {
      AscendingIsUnique(Sort(left), Sort(right));
    }
  }

  /** A comma inside an identity can make different collections compare equal. */
  lemma CommaConfuses(a: Unit, b: Unit)
    requires a < b
    ensures SameOperationIds([[a, COMMA, b]], [[a], [b]])
    ensures multiset([[a, COMMA, b]]) != multiset([[a], [b]])
  {
    var x, y: Id, z: Id := [a, COMMA, b], [a], [b];
    assert Sort([x][1..]) == [];
    assert Sort([x]) == [x];
    assert [y, z][1..] == [z] && [z][1..] == [];
    assert Sort([z]) == [z];
    assert AtMost(y, z);
    assert Sort([y, z]) == [y, z];
    assert Join([y, z]) == y + [COMMA] + Join([z]);
    assert |multiset([x])| == 1 && |multiset([y, z])| == 2;
  }
}
