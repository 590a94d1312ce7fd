/**
 Disposal of a fixture: after every precondition holds, the ledger's resources are removed one by one,
 each checked against its creation receipt first, and the first failure retains the rest.
 */
module FixtureCleanup {
  import opened Common
  import opened FixtureLedger

  datatype RetentionCause =
    | ChangedIdentity(resource: Resource)
    | Unreadable(resource: Resource)
    | AuthorizationRejected
    | ChildrenRunning
    | UnfinishedRun
    | RemovalIncomplete

  datatype Disposal =
    | RemovedResources(removed: seq<Resource>)
    | RetainedFixture(cause: RetentionCause, retained: seq<Resource>, removed: seq<Resource>)

  /** The controller and what it reports when asked. */
  datatype Controller = Controller(invocationId: string, childrenStopped: bool, runsCompleted: bool)

  /**
   The file system, answering the n-th question put to it: the identity at a locator, whether a removal
   reports success, whether something is still there. `documentsAuthorize` is what re-reading the
   manifest and configuration documents gives once the ledger itself has been accepted.
   */
  datatype World = World(
    observe: (nat, string) -> FileIdentity,
    remove: (nat, string) -> bool,
    present: (nat, string) -> bool,
    documentsAuthorize: bool)

  // ----- Identity

  function IdentityFailure(receipt: Receipt, observed: FileIdentity): Option<RetentionCause> {
    if receipt.identity.Unavailable? || observed.Unavailable? then Some(Unreadable(receipt.resource))
    else if receipt.identity != observed then Some(ChangedIdentity(receipt.resource))
    else None
  }

  function FindReceipt(receipts: seq<Receipt>, r: Resource): (found: Option<Receipt>)
    ensures found.Some? ==> found.value in receipts && found.value.resource == r
    ensures found.None? ==> forall i :: 0 <= i < |receipts| ==> receipts[i].resource != r
  {
    if receipts == [] then None
    else if receipts[0].resource == r then Some(receipts[0])
    else FindReceipt(receipts[1..], r)
  }

  function FindReceiptOfKind(receipts: seq<Receipt>, tag: Kind): (found: Option<Receipt>)
    ensures found.Some? ==> found.value in receipts && found.value.resource.tag == tag
  {
    if receipts == [] then None
    else if receipts[0].resource.tag == tag then Some(receipts[0])
    else FindReceiptOfKind(receipts[1..], tag)
  }

  function Find(rs: seq<Resource>, tag: Kind): (found: Option<Resource>)
    ensures found.Some? ==> found.value in rs && found.value.tag == tag
    ensures found.None? ==> forall i :: 0 <= i < |rs| ==> rs[i].tag != tag
  {
    if rs == [] then None else if rs[0].tag == tag then Some(rs[0]) else Find(rs[1..], tag)
  }

  /** A receipt's recorded identity is the one observed at its locator at the `n`-th question. */
  predicate Confirmed(w: World, n: nat, receipt: Receipt) {
    IdentityFailure(receipt, w.observe(n, receipt.resource.locator)) == None
  }

  /** The receipt of a kind that is looked up is there and confirmed at the `n`-th question. */
  predicate KindConfirmed(f: Fixture, w: World, n: nat, tag: Kind) {
    var receipt := FindReceiptOfKind(f.identities, tag);
    receipt.Some? && Confirmed(w, n, receipt.value)
  }

  predicate ReceiptConfirmed(f: Fixture, w: World, n: nat, r: Resource) {
    var receipt := FindReceipt(f.identities, r);
    receipt.Some? && Confirmed(w, n, receipt.value)
  }

  /** A removal that counts: identity confirmed, for a repository its common directory's too, then gone. */
  predicate RemovedExactly(f: Fixture, w: World, r: Resource, n: nat) {
    && ReceiptConfirmed(f, w, n, r)
    && (r.tag == Repository ==> KindConfirmed(f, w, n + 1, CommonDirectory))
    && w.remove(n + 2, r.locator)
    && !w.present(n + 3, r.locator)
  }

  /** It fails exactly when the removal does not count, and says why in the order of the questions. */
  method RemoveExactResource(f: Fixture, w: World, r: Resource, n: nat) returns (cause: Option<RetentionCause>)
    ensures cause.None? <==> RemovedExactly(f, w, r, n)
    ensures cause == Some(AuthorizationRejected) <==>
              || r !in ReceiptResources(f.identities)
              || (ReceiptConfirmed(f, w, n, r) && r.tag == Repository &&
                  FindReceiptOfKind(f.identities, CommonDirectory).None?)
    ensures cause == Some(RemovalIncomplete) <==>
              && ReceiptConfirmed(f, w, n, r) && (r.tag == Repository ==> KindConfirmed(f, w, n + 1, CommonDirectory))
              && !(w.remove(n + 2, r.locator) && !w.present(n + 3, r.locator))
  {
    var receipt := FindReceipt(f.identities, r);
    ReceiptListed(f.identities, r);
    if receipt.None? {
      return Some(AuthorizationRejected);
    }
    cause := IdentityFailure(receipt.value, w.observe(n, receipt.value.resource.locator));
    if cause.Some? {
      return;
    }
    if r.tag == Repository {
      var common := FindReceiptOfKind(f.identities, CommonDirectory);
      if common.None? {
        return Some(AuthorizationRejected);
      }
      cause := IdentityFailure(common.value, w.observe(n + 1, common.value.resource.locator));
      if cause.Some? {
        return;
      }
    }
    if !w.remove(n + 2, r.locator) || w.present(n + 3, r.locator) {
      return Some(RemovalIncomplete);
    }
  }

  lemma {:induction false} ReceiptListed(receipts: seq<Receipt>, r: Resource)
    ensures FindReceipt(receipts, r).Some? <==> r in ReceiptResources(receipts)
  {
    if FindReceipt(receipts, r).Some? {
      var i :| 0 <= i < |receipts| && receipts[i] == FindReceipt(receipts, r).value;
      assert ReceiptResources(receipts)[i] == r;
    }
  }

  // ----- The order of removal

  datatype Stage = OrdinaryStage | RepositoryStage | CommonDirectoryStage | MetadataStage

  function StageOf(r: Resource): Stage {
    match r.tag
    case Repository => RepositoryStage
    case CommonDirectory => CommonDirectoryStage
    case ConfigurationDocument | ManifestDocument | OwnershipMarker => MetadataStage
    case _ => OrdinaryStage
  }

  function Select(rs: seq<Resource>, stage: Stage): (kept: seq<Resource>)
    ensures forall r :: r in kept <==> r in rs && StageOf(r) == stage
  {
    if rs == [] then [] else (if StageOf(rs[0]) == stage then [rs[0]] else []) + Select(rs[1..], stage)
  }

  /** What is removed before the documents: ordinary resources, the repository, its common directory. */
  function BeforeMetadata(rs: seq<Resource>): seq<Resource> {
    Select(rs, OrdinaryStage) + Select(rs, RepositoryStage) + Select(rs, CommonDirectoryStage)
  }

  function RemovalOrder(rs: seq<Resource>): seq<Resource> {
    BeforeMetadata(rs) + Select(rs, MetadataStage)
  }

  lemma {:induction false} SelectMembers(rs: seq<Resource>, stage: Stage)
    requires rs != []
    ensures multiset(Select(rs, stage)) ==
            multiset(Select(rs[1..], stage)) + (if StageOf(rs[0]) == stage then multiset{rs[0]} else multiset{})
  {
  }

  lemma {:induction false} OrderMembers(rs: seq<Resource>)
    ensures multiset(RemovalOrder(rs)) ==
            multiset(Select(rs, OrdinaryStage)) + multiset(Select(rs, RepositoryStage)) +
            multiset(Select(rs, CommonDirectoryStage)) + multiset(Select(rs, MetadataStage))
  {
  }

  lemma {:induction false} OrderIsPermutation(rs: seq<Resource>)
    ensures multiset(RemovalOrder(rs)) == multiset(rs)
  {
    OrderMembers(rs);
    if rs != [] {
      OrderIsPermutation(rs[1..]);
      OrderMembers(rs[1..]);
      SelectMembers(rs, OrdinaryStage);
      SelectMembers(rs, RepositoryStage);
      SelectMembers(rs, CommonDirectoryStage);
      SelectMembers(rs, MetadataStage);
      HeadTail(rs);
    }
  }

  /** Each removal may ask four questions, so its place in the order numbers them. */
  const QUESTIONS_PER_REMOVAL: nat := 4

  /**
   The `i`-th resource of the order goes when its turn comes. The common directory disappears with its
   repository and is only looked for.
   */
  predicate GoesAt(f: Fixture, w: World, r: Resource, i: nat) {
    if r.tag == CommonDirectory then !w.present(QUESTIONS_PER_REMOVAL * i, r.locator)
    else RemovedExactly(f, w, r, QUESTIONS_PER_REMOVAL * i)
  }

  /** From the `from`-th on, exactly those up to the `n`-th go; the `n`-th, if there is one, does not. */
  ghost predicate GoUpTo(f: Fixture, w: World, order: seq<Resource>, from: nat, n: nat) {
    && from <= n <= |order|
    && (forall i :: from <= i < n ==> GoesAt(f, w, order[i], i))
    && (n < |order| ==> !GoesAt(f, w, order[n], n))
  }

  /** Removes the resources in turn, appending each to the list once it is gone, up to the first that is not. */
  method RemoveInTurn(f: Fixture, w: World, resources: seq<Resource>, removedIn: seq<Resource>)
    returns (removed: seq<Resource>, cause: Option<RetentionCause>)
    requires forall i :: 0 <= i < |resources| ==> resources[i].tag != CommonDirectory
    ensures removedIn <= removed <= removedIn + resources
    ensures cause.None? <==> removed == removedIn + resources
    ensures GoUpTo(f, w, removedIn + resources, |removedIn|, |removed|)
  {
    removed, cause := removedIn, None;
    ghost var order := removedIn + resources;
    AppendEmpty(removedIn);
    for k := 0 to |resources|
      invariant removed == removedIn + resources[..k] && cause.None?
      invariant forall i :: |removedIn| <= i < |removed| ==> GoesAt(f, w, order[i], i)
    {
      assert order == removed + resources[k..];
      assert order[|removed|] == resources[k];
      cause := RemoveExactResource(f, w, resources[k], QUESTIONS_PER_REMOVAL * |removed|);
      if cause.Some? {
        return;
      }
      removed := removed + [resources[k]];
      TakeSnoc(resources, k);
    }
    assert resources[..|resources|] == resources;
  }

  // ----- The whole removal

  lemma FirstIn(rs: seq<Resource>)
    ensures rs == [] || rs[0] in rs
  {
  }

  lemma {:induction false} SelectedStage(rs: seq<Resource>, stage: Stage)
    ensures forall i :: 0 <= i < |Select(rs, stage)| ==> StageOf(Select(rs, stage)[i]) == stage
  {
    forall i | 0 <= i < |Select(rs, stage)| ensures StageOf(Select(rs, stage)[i]) == stage {
      assert Select(rs, stage)[i] in Select(rs, stage);
    }
  }

  lemma {:induction false} OnlyOfStage(rs: seq<Resource>, r: Resource)
    requires r in rs && forall q :: q in rs && StageOf(q) == StageOf(r) ==> q == r
    requires Distinct(rs)
    ensures Select(rs, StageOf(r)) == [r]
  {
    var rest := rs[1..];
    assert forall q :: q in rest ==> q in rs;
    assert forall i, j :: 0 <= i < j < |rest| ==> rest[i] == rs[i + 1] && rest[j] == rs[j + 1];
    if rs[0] == r {
      assert r !in rest;
      var others := Select(rest, StageOf(r));
      FirstIn(others);
    } else {
      OnlyOfStage(rest, r);
    }
  }

  /** A complete ledger has one repository and one common directory. */
  lemma {:induction false} SingleOf(f: Fixture, rs: seq<Resource>, tag: Kind)
    requires IsCompleteLedger(f, rs) && Distinct(rs)
    requires tag == Repository || tag == CommonDirectory
    ensures var found := Find(rs, tag); found.Some? && Select(rs, StageOf(found.value)) == [found.value]
  {
    assert Resource(tag, LocatorFor(f, tag)) in rs;
    OnlyOfStage(rs, Find(rs, tag).value);
  }

  lemma OrderOf(f: Fixture, rs: seq<Resource>) returns (repository: Resource, common: Resource)
    requires IsCompleteLedger(f, rs) && Distinct(rs)
    ensures Find(rs, Repository) == Some(repository) && Find(rs, CommonDirectory) == Some(common)
    ensures repository.tag == Repository && common.tag == CommonDirectory
    ensures RemovalOrder(rs) == Select(rs, OrdinaryStage) + [repository] + [common] + Select(rs, MetadataStage)
  {
    SingleOf(f, rs, Repository);
    SingleOf(f, rs, CommonDirectory);
    repository, common := Find(rs, Repository).value, Find(rs, CommonDirectory).value;
  }

  lemma PrefixOfLonger<T>(a: seq<T>, b: seq<T>, c: seq<T>)
    requires a <= b
    ensures a <= b + c
  {
  }

  lemma GoOn(f: Fixture, w: World, order: seq<Resource>, from: nat, mid: nat, n: nat)
    requires from <= mid && GoUpTo(f, w, order, mid, n) && forall i :: from <= i < mid ==> GoesAt(f, w, order[i], i)
    ensures GoUpTo(f, w, order, from, n)
  {
  }

  /** Where the first part of the order stops, the whole order stops. */
  lemma StopsEarly(f: Fixture, w: World, first: seq<Resource>, rest: seq<Resource>, n: nat)
    requires GoUpTo(f, w, first, 0, n) && n < |first|
    ensures GoUpTo(f, w, first + rest, 0, n)
  {
    assert forall i :: 0 <= i < |first| ==> (first + rest)[i] == first[i];
  }

  /** The common directory goes with the repository: it is only checked to be gone. */
  lemma CommonStops(f: Fixture, w: World, first: seq<Resource>, common: Resource, metadata: seq<Resource>)
    requires common.tag == CommonDirectory && GoUpTo(f, w, first, 0, |first|)
    requires w.present(QUESTIONS_PER_REMOVAL * |first|, common.locator)
    ensures GoUpTo(f, w, first + [common] + metadata, 0, |first|)
  {
    var order := first + [common] + metadata;
    assert order[|first|] == common && forall i :: 0 <= i < |first| ==> order[i] == first[i];
  }

  lemma MetadataStops(
      f: Fixture, w: World, first: seq<Resource>, common: Resource, metadata: seq<Resource>, n: nat)
    requires common.tag == CommonDirectory && GoUpTo(f, w, first, 0, |first|)
    requires !w.present(QUESTIONS_PER_REMOVAL * |first|, common.locator)
    requires GoUpTo(f, w, first + [common] + metadata, |first| + 1, n)
    ensures GoUpTo(f, w, first + [common] + metadata, 0, n)
  {
    var order := first + [common] + metadata;
    assert order[|first|] == common && forall i :: 0 <= i < |first| ==> order[i] == first[i];
    GoOn(f, w, order, 0, |first| + 1, n);
  }

  /** Removes `first`, then expects `common` to have gone with it, then removes `metadata`. */
  method RemoveParts(f: Fixture, w: World, first: seq<Resource>, common: Resource, metadata: seq<Resource>)
    returns (removed: seq<Resource>, cause: Option<RetentionCause>)
    requires common.tag == CommonDirectory
    requires forall i :: 0 <= i < |first| ==> first[i].tag != CommonDirectory
    requires forall i :: 0 <= i < |metadata| ==> metadata[i].tag != CommonDirectory
    ensures removed <= first + [common] + metadata
    ensures cause.None? <==> removed == first + [common] + metadata
    ensures GoUpTo(f, w, first + [common] + metadata, 0, |removed|)
  {
    removed, cause := RemoveInTurn(f, w, first, []);
    AppendEmpty(first);
    AppendAssociative(first, [common], metadata);
    PrefixOfLonger(removed, first, [common] + metadata);
    if cause.Some? {
      StopsEarly(f, w, first, [common] + metadata, |removed|);
      return;
    }
    if w.present(QUESTIONS_PER_REMOVAL * |removed|, common.locator) {
      CommonStops(f, w, first, common, metadata);
      cause := Some(RemovalIncomplete);
      return;
    }
    removed, cause := RemoveInTurn(f, w, metadata, removed + [common]);
    MetadataStops(f, w, first, common, metadata, |removed|);
  }

  /**
   Removes an authorized ledger's resources up to the first that does not go; the ledger is complete, so both
   lookups succeed.
   */
  method RemoveFixtureResources(f: Fixture, w: World) returns (removed: seq<Resource>, cause: Option<RetentionCause>)
    requires IsCompleteLedger(f, f.creation.createdResources) && Distinct(f.creation.createdResources)
    ensures removed <= RemovalOrder(f.creation.createdResources)
    ensures cause.None? <==> removed == RemovalOrder(f.creation.createdResources)
    ensures GoUpTo(f, w, RemovalOrder(f.creation.createdResources), 0, |removed|)
  {
    var resources := f.creation.createdResources;
    ghost var repo, comm := OrderOf(f, resources);
    var ordered, metadata := Select(resources, OrdinaryStage), Select(resources, MetadataStage);
    var repository := Find(resources, Repository).value;
    var common := Find(resources, CommonDirectory).value;
    SelectedStage(resources, OrdinaryStage);
    SelectedStage(resources, MetadataStage);
    removed, cause := RemoveParts(f, w, ordered + [repository], common, metadata);
  }

  // ----- Disposal

  /** The first receipt that does not match what is on disk, asked one question each. */
  method CheckIdentities(f: Fixture, w: World) returns (cause: Option<RetentionCause>)
    ensures cause.None? <==> forall i :: 0 <= i < |f.identities| ==> Confirmed(w, i, f.identities[i])
    ensures cause.Some? ==> cause.value.ChangedIdentity? || cause.value.Unreadable?
  {
    for i := 0 to |f.identities|
      invariant forall j :: 0 <= j < i ==> Confirmed(w, j, f.identities[j])
    {
      cause := IdentityFailure(f.identities[i], w.observe(i, f.identities[i].resource.locator));
      if cause.Some? {
        assert !Confirmed(w, i, f.identities[i]);
        return;
      }
    }
    cause := None;
  }

  /** Everything that must hold before a single resource is touched. */
  ghost predicate Permitted(f: Fixture, c: Controller, w: World) {
    && c.invocationId == f.manifest.invocationId
    && c.childrenStopped
    && c.runsCompleted
    && LedgerAccepted(f) && w.documentsAuthorize
    && forall i :: 0 <= i < |f.identities| ==> Confirmed(w, i, f.identities[i])
  }

  method CheckRemovalConditions(f: Fixture, c: Controller, w: World) returns (cause: Option<RetentionCause>)
    ensures cause.None? <==> Permitted(f, c, w)
    ensures cause == Some(ChildrenRunning) <==> c.invocationId == f.manifest.invocationId && !c.childrenStopped
    ensures cause == Some(UnfinishedRun) <==>
              c.invocationId == f.manifest.invocationId && c.childrenStopped && !c.runsCompleted
  {
    if c.invocationId != f.manifest.invocationId {
      return Some(AuthorizationRejected);
    }
    if !c.childrenStopped {
      return Some(ChildrenRunning);
    }
    if !c.runsCompleted {
      return Some(UnfinishedRun);
    }
    if !LedgerAccepted(f) || !w.documentsAuthorize {
      return Some(AuthorizationRejected);
    }
    cause := CheckIdentities(f, w);
  }

  function Without(rs: seq<Resource>, removed: seq<Resource>): (kept: seq<Resource>)
    ensures forall r :: r in kept <==> r in rs && r !in removed
  {
    if rs == [] then [] else (if rs[0] in removed then [] else [rs[0]]) + Without(rs[1..], removed)
  }

  /**
   Without permission nothing is removed. With it the fixed order is followed up to the first resource that does
   not go, and RemovedResources is reported exactly when all of them go. `later` answers the questions asked
   while removing.
   */
  method DisposeFixture(f: Fixture, c: Controller, w: World, later: World) returns (d: Disposal)
    ensures d.removed <= RemovalOrder(f.creation.createdResources)
    ensures d.RetainedFixture? ==> d.retained == Without(f.creation.createdResources, d.removed)
    ensures !Permitted(f, c, w) ==> d.RetainedFixture? && d.removed == []
    ensures Permitted(f, c, w) ==>
              && GoUpTo(f, later, RemovalOrder(f.creation.createdResources), 0, |d.removed|)
              && (d.RemovedResources? <==> |d.removed| == |RemovalOrder(f.creation.createdResources)|)
    ensures d.RemovedResources? <==> Permitted(f, c, w) && AllGo(f, later, RemovalOrder(f.creation.createdResources))
  {
    var cause := CheckRemovalConditions(f, c, w);
    if cause.Some? {
      return RetainedFixture(cause.value, Without(f.creation.createdResources, []), []);
    }
    AcceptedLedgerIsComplete(f);
    var removed;
    removed, cause := RemoveFixtureResources(f, later);
    if cause.Some? {
      return RetainedFixture(cause.value, Without(f.creation.createdResources, removed), removed);
    }
    d := RemovedResources(removed);
  }

  /** Every resource goes when its turn comes. */
  ghost predicate AllGo(f: Fixture, w: World, order: seq<Resource>) {
    forall i :: 0 <= i < |order| ==> GoesAt(f, w, order[i], i)
  }

  // ----- What the report means

  lemma {:induction false} WithoutSplits(rs: seq<Resource>, removed: seq<Resource>)
    requires Distinct(removed) && Distinct(rs) && forall r :: r in removed ==> r in rs
    ensures multiset(removed) + multiset(Without(rs, removed)) == multiset(rs)
  {
    forall r: Resource
      ensures (multiset(removed) + multiset(Without(rs, removed)))[r] == multiset(rs)[r]
    {
      DistinctCount(rs, r);
      DistinctCount(removed, r);
      WithoutIsDistinct(rs, removed);
      DistinctCount(Without(rs, removed), r);
    }
  }

  lemma {:induction false} DistinctCount(rs: seq<Resource>, r: Resource)
    requires Distinct(rs)
    ensures multiset(rs)[r] == if r in rs then 1 else 0
  {
    if rs != [] {
      var front, last := rs[..|rs| - 1], rs[|rs| - 1];
      DistinctCount(front, r);
      assert rs == front + [last];
    }
  }

  lemma {:induction false} WithoutIsDistinct(rs: seq<Resource>, removed: seq<Resource>)
    requires Distinct(rs)
    ensures Distinct(Without(rs, removed))
  {
    if rs != [] {
      var rest := rs[1..];
      assert forall i, j :: 0 <= i < j < |rest| ==> rest[i] == rs[i + 1] && rest[j] == rs[j + 1];
      WithoutIsDistinct(rest, removed);
      assert rs[0] !in rest;
    }
  }

  lemma PrefixIsDistinct(rs: seq<Resource>, removed: seq<Resource>)
    requires Distinct(rs) && removed <= RemovalOrder(rs)
    ensures Distinct(removed) && forall r :: r in removed ==> r in rs
  {
    var order := RemovalOrder(rs);
    OrderIsPermutation(rs);
    forall i, j | 0 <= i < j < |order| ensures order[i] != order[j] {
      if order[i] == order[j] {
        DistinctCount(rs, order[i]);
        RepeatedCount(order, i, j);
      }
    }
    forall r | r in removed ensures r in rs {
      assert r in order && r in multiset(order);
    }
  }

  lemma RepeatedCount(s: seq<Resource>, i: nat, j: nat)
    requires i < j < |s| && s[i] == s[j]
    ensures multiset(s)[s[i]] >= 2
  {
    assert s == s[..j] + [s[j]] + s[j + 1..];
    assert s[i] in s[..j];
  }

  /**
   Whatever disposal does with an accepted ledger, the removed and the retained resources partition the
   created ones, and no document is removed while anything else remains.
   */
  lemma {:induction false} DisposalPartitions(f: Fixture, removed: seq<Resource>)
    requires LedgerAccepted(f) && removed <= RemovalOrder(f.creation.createdResources)
    ensures multiset(removed) + multiset(Without(f.creation.createdResources, removed)) ==
            multiset(f.creation.createdResources)
  {
    AcceptedLedgerIsComplete(f);
    PrefixIsDistinct(f.creation.createdResources, removed);
    WithoutSplits(f.creation.createdResources, removed);
  }

  lemma MetadataGoesLast(rs: seq<Resource>, removed: seq<Resource>, i: nat, r: Resource)
    requires removed <= RemovalOrder(rs) && i < |removed| && StageOf(removed[i]) == MetadataStage
    requires r in rs && StageOf(r) != MetadataStage
    ensures r in removed[..i]
  {
    var before := BeforeMetadata(rs);
    SelectedStage(rs, OrdinaryStage);
    SelectedStage(rs, RepositoryStage);
    SelectedStage(rs, CommonDirectoryStage);
    assert forall j :: 0 <= j < |before| ==> StageOf(before[j]) != MetadataStage;
    assert RemovalOrder(rs)[i] == removed[i];
    assert r in before;
    var j :| 0 <= j < |before| && before[j] == r;
    assert removed[..i][j] == r;
  }
}
