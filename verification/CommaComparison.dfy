/** Exactly what the comma-joined comparison can and cannot tell apart, for any non-empty identities. */
module CommaComparison {
  import opened Common
  import opened JsText
  import opened OperationIds

  type Id = JsString

  /** Identities are non-empty texts, with or without commas. */
  predicate AllNonEmpty(ids: seq<Id>) {
    forall i :: 0 <= i < |ids| ==> ids[i] != []
  }

  // ----- Sorting short collections

  lemma {:induction false} SortOne(x: Id)
    ensures Sort([x]) == [x]
  {
    assert [x][1..] == [];
    assert Sort([x][1..]) == [];
  }

  lemma {:induction false} SortTwo(x: Id, y: Id)
    requires AtMost(x, y)
    ensures Sort([x, y]) == [x, y] && Join([x, y]) == x + [COMMA] + y
  {
    assert [x, y][1..] == [y];
    SortOne(y);
  }

  lemma {:induction false} SortOfAscending(ids: seq<Id>)
    requires Ascending(ids)
    ensures Sort(ids) == ids
  {
    SortIsSorted(ids);
    AscendingIsUnique(Sort(ids), ids);
  }

  lemma {:induction false} NonEmptyAfterSorting(ids: seq<Id>)
    requires AllNonEmpty(ids)
    ensures AllNonEmpty(Sort(ids)) && |Sort(ids)| == |ids|
  {
    SortIsSorted(ids);
    assert |multiset(Sort(ids))| == |multiset(ids)|;
    forall i | 0 <= i < |Sort(ids)| ensures Sort(ids)[i] != [] {
      assert Sort(ids)[i] in multiset(Sort(ids));
      assert Sort(ids)[i] in multiset(ids);
      assert Sort(ids)[i] in ids;
    }
  }

  lemma SizesTell(a: seq<Id>, b: seq<Id>)
    requires |a| != |b|
    ensures multiset(a) != multiset(b)
  {
    assert |multiset(a)| == |a| && |multiset(b)| == |b|;
  }

  // ----- Against which collections the comparison is exact

  lemma {:induction false} PrefixIsAtMost(a: Id, b: Id)
    requires a <= b
    ensures AtMost(a, b)
    decreases |a|
  {
    if a != [] {
      PrefixIsAtMost(a[1..], b[1..]);
    }
  }

  /** The identity reads as two identities in ascending order. */
  predicate SplitsAt(id: Id, k: nat) {
    0 < k && k + 1 < |id| && id[k] == COMMA && AtMost(id[..k], id[k + 1..])
  }

  ghost predicate Splits(id: Id) {
    exists k: nat :: SplitsAt(id, k)
  }

  ghost predicate ExactAgainst(right: seq<Id>) {
    forall left :: AllNonEmpty(left) && SameOperationIds(left, right) ==> multiset(left) == multiset(right)
  }

  lemma {:induction false} JoinStarts(ids: seq<Id>)
    requires ids != [] && AllNonEmpty(ids)
    ensures ids[0] <= Join(ids) && Join(ids) != []
  {
    JoinSplits(ids);
  }

  /** Two or more identities in ascending order join to a text that splits. */
  lemma {:induction false} JoinedSplits(ids: seq<Id>)
    requires |ids| >= 2 && AllNonEmpty(ids) && Ascending(ids)
    ensures Splits(Join(ids))
  {
    var x, y, t := ids[0], Join(ids[1..]), Join(ids);
    JoinSplits(ids);
    JoinStarts(ids[1..]);
    PrefixIsAtMost(ids[1..][0], y);
    AtMostIsTransitive(x, ids[1], y);
    assert t == x + ([COMMA] + y);
    assert t[..|x|] == x && t[|x|] == COMMA && t[|x| + 1..] == y;
    assert SplitsAt(t, |x|);
  }

  lemma OneIsExact(id: Id, left: seq<Id>)
    requires id != [] && !Splits(id) && AllNonEmpty(left) && SameOperationIds(left, [id])
    ensures multiset(left) == multiset([id])
  {
    var ids := Sort(left);
    SortOne(id);
    SortIsSorted(left);
    NonEmptyAfterSorting(left);
    assert Join(ids) == id;
    if |ids| >= 2 {
      JoinedSplits(ids);
    }
    assert ids == [id];
  }

  lemma SplitIsConfused(id: Id, k: nat)
    requires SplitsAt(id, k)
    ensures SameOperationIds([id[..k], id[k + 1..]], [id]) && !ExactAgainst([id])
  {
    var left := [id[..k], id[k + 1..]];
    SortTwo(left[0], left[1]);
    SortOne(id);
    assert id == id[..k] + [COMMA] + id[k + 1..];
    SizesTell(left, [id]);
    assert AllNonEmpty(left);
  }

  lemma {:induction false} SeveralAreConfused(right: seq<Id>)
    requires |right| >= 2 && AllNonEmpty(right)
    ensures SameOperationIds([Join(Sort(right))], right) && !ExactAgainst(right)
  {
    var left := [Join(Sort(right))];
    NonEmptyAfterSorting(right);
    JoinStarts(Sort(right));
    SortOne(left[0]);
    SizesTell(left, right);
    assert AllNonEmpty(left);
  }

  lemma NoneIsExact(left: seq<Id>)
    requires AllNonEmpty(left) && SameOperationIds(left, [])
    ensures left == []
  {
    NonEmptyAfterSorting(left);
    if left != [] {
      JoinStarts(Sort(left));
      assert false;
    }
  }

  /**
   The comparison against a collection identifies it if and only if the collection is empty or one identity that
   does not read as two in ascending order: several identities are always confused with their joined text.
   */
  lemma ExactAgainstIff(right: seq<Id>)
    requires AllNonEmpty(right)
    ensures ExactAgainst(right) <==> |right| == 0 || (|right| == 1 && !Splits(right[0]))
  {
    if |right| >= 2 {
      SeveralAreConfused(right);
    } else if |right| == 1 {
      assert right == [right[0]];
      if Splits(right[0]) {
        var k: nat :| SplitsAt(right[0], k);
        SplitIsConfused(right[0], k);
      } else {
        forall left | AllNonEmpty(left) && SameOperationIds(left, right) ensures multiset(left) == multiset(right) {
          OneIsExact(right[0], left);
        }
      }
    } else {
      forall left | AllNonEmpty(left) && SameOperationIds(left, right) ensures multiset(left) == multiset(right) {
        NoneIsExact(left);
      }
    }
  }

  // ----- What the comparison sees of any two collections

  function CommaIndex(id: Id): (k: nat)
    ensures k <= |id| && COMMA !in id[..k] && (k < |id| ==> id[k] == COMMA)
    ensures k == |id| <==> COMMA !in id
  {
    if id == [] || id[0] == COMMA then 0
    else
      var k := CommaIndex(id[1..]) + 1;
      assert id[..k] == [id[0]] + id[1..][..k - 1];
      k
  }

  /** The text between the commas. */
  function Pieces(id: Id): (ps: seq<Id>)
    ensures ps != []
    decreases |id|
  {
    var k := CommaIndex(id);
    if k == |id| then [id] else [id[..k]] + Pieces(id[k + 1..])
  }

  function AllPieces(ids: seq<Id>): seq<Id> {
    if ids == [] then [] else Pieces(ids[0]) + AllPieces(ids[1..])
  }

  lemma {:induction false} JoinOfFirst(first: Id, rest: seq<Id>)
    requires rest != []
    ensures Join([first] + rest) == first + [COMMA] + Join(rest)
  {
    assert ([first] + rest)[1..] == rest;
  }

  lemma CutAt(id: Id, k: nat)
    requires k < |id|
    ensures id == id[..k] + [id[k]] + id[k + 1..]
  {
  }

  lemma {:induction false} JoinPieces(id: Id)
    ensures Join(Pieces(id)) == id
    decreases |id|
  {
    var k := CommaIndex(id);
    if k < |id| {
      var rest := id[k + 1..];
      JoinPieces(rest);
      JoinOfFirst(id[..k], Pieces(rest));
      CutAt(id, k);
    }
  }

  lemma {:induction false} CommaIndexIs(id: Id, k: nat)
    requires k <= |id| && COMMA !in id[..k] && (k < |id| ==> id[k] == COMMA)
    ensures CommaIndex(id) == k
  {
    Taken(id, CommaIndex(id), k);
    Taken(id, k, CommaIndex(id));
  }

  lemma Taken(id: Id, i: nat, j: nat)
    requires j <= |id|
    ensures i < j ==> id[i] in id[..j]
  {
    if i < j {
      assert id[..j][i] == id[i];
    }
  }

  lemma {:induction false} PiecesOfPlain(a: Id)
    requires COMMA !in a
    ensures Pieces(a) == [a]
  {
  }

  lemma {:induction false} FirstPiece(first: Id, rest: Id)
    requires COMMA !in first
    ensures Pieces(first + [COMMA] + rest) == [first] + Pieces(rest)
  {
    var t := first + [COMMA] + rest;
    assert t[..|first|] == first && t[|first| + 1..] == rest;
    CommaIndexIs(t, |first|);
  }

  lemma AppendThree(first: Id, middle: Id, last: Id)
    ensures (first + [COMMA] + middle) + [COMMA] + last == first + [COMMA] + (middle + [COMMA] + last)
  {
  }

  lemma {:induction false} PiecesAppend(a: Id, b: Id)
    ensures Pieces(a + [COMMA] + b) == Pieces(a) + Pieces(b)
    decreases |a|
  {
    var k := CommaIndex(a);
    if k < |a| {
      var first, rest := a[..k], a[k + 1..];
      CutAt(a, k);
      AppendThree(first, rest, b);
      FirstPiece(first, rest + [COMMA] + b);
      PiecesAppend(rest, b);
      AppendAssociative([first], Pieces(rest), Pieces(b));
    } else {
      FirstPiece(a, b);
    }
  }

  lemma {:induction false} PiecesJoin(ids: seq<Id>)
    requires ids != []
    ensures Pieces(Join(ids)) == AllPieces(ids)
  {
    if |ids| == 1 {
      assert ids[1..] == [];
      AppendEmpty(Pieces(ids[0]));
    } else {
      PiecesAppend(ids[0], Join(ids[1..]));
      PiecesJoin(ids[1..]);
    }
  }

  lemma {:induction false} AllPiecesOfPlain(ids: seq<Id>)
    requires AllPlain(ids)
    ensures AllPieces(ids) == ids
  {
    if ids != [] {
      PiecesOfPlain(ids[0]);
      AllPiecesOfPlain(ids[1..]);
      HeadTail(ids);
    }
  }

  /** Two collections compare equal if and only if, in ascending order, both have the same pieces between commas. */
  lemma {:induction false} ComparisonSeesPieces(left: seq<Id>, right: seq<Id>)
    requires left != [] && right != []
    ensures SameOperationIds(left, right) <==> AllPieces(Sort(left)) == AllPieces(Sort(right))
  {
    SortIsSorted(left);
    SortIsSorted(right);
    assert |multiset(Sort(left))| == |multiset(left)| && |multiset(Sort(right))| == |multiset(right)|;
    PiecesJoin(Sort(left));
    PiecesJoin(Sort(right));
    JoinPieces(Join(Sort(left)));
    JoinPieces(Join(Sort(right)));
  }

  // ----- One identity against plain ones

  ghost predicate ConfusedWithPlain(id: Id) {
    exists ps :: AllPlain(ps) && SameOperationIds([id], ps) && multiset(ps) != multiset([id])
  }

  lemma {:induction false} PlainNeedsAscendingPieces(id: Id, ps: seq<Id>)
    requires id != [] && AllPlain(ps) && SameOperationIds([id], ps) && multiset(ps) != multiset([id])
    ensures COMMA in id && AllPlain(Pieces(id)) && Ascending(Pieces(id))
  {
    SortOne(id);
    SortIsSorted(ps);
    PlainAfterSorting(ps);
    assert Join(Sort(ps)) == id;
    assert Sort(ps) != [];
    PiecesJoin(Sort(ps));
    AllPiecesOfPlain(Sort(ps));
    if COMMA !in id {
      PiecesOfPlain(id);
    }
  }

  lemma {:induction false} AscendingPiecesConfuse(id: Id)
    requires COMMA in id && AllPlain(Pieces(id)) && Ascending(Pieces(id))
    ensures ConfusedWithPlain(id)
  {
    var ps := Pieces(id);
    SortOfAscending(ps);
    SortOne(id);
    JoinPieces(id);
    SizesTell(ps, [id]);
  }

  /**
   An identity is confused with a collection of identities without commas if and only if it holds a comma and its
   pieces are non-empty and in ascending order.
   */
  lemma {:induction false} ConfusedWithPlainIff(id: Id)
    requires id != []
    ensures ConfusedWithPlain(id) <==> COMMA in id && AllPlain(Pieces(id)) && Ascending(Pieces(id))
  {
    if ConfusedWithPlain(id) {
      var ps :| AllPlain(ps) && SameOperationIds([id], ps) && multiset(ps) != multiset([id]);
      PlainNeedsAscendingPieces(id, ps);
    }
    if COMMA in id && AllPlain(Pieces(id)) && Ascending(Pieces(id)) {
      AscendingPiecesConfuse(id);
    }
  }
}
