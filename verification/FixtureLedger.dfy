/**
 The controller's creation ledger. It is accepted only if it names every kind of resource once, each at
 the fixture's own locator, and holds one identity receipt for each.
 */
module FixtureLedger {
  import opened Common

  datatype Kind =
    | Repository | CommonDirectory | ConfigurationDocument | ManifestDocument | JournalDatabase | EvidenceRoot
    | AttemptWorktreeRoot | CodexExecutorPrivateStateDirectory | CandidateRoot | PrivateStore | OwnershipMarker

  datatype Resource = Resource(tag: Kind, locator: string)

  datatype Manifest = Manifest(
    invocationId: string, repository: string, commonDirectory: string, journalDatabase: string, evidenceRoot: string,
    attemptWorktreeRoot: string, codexExecutorPrivateStateDirectory: string, candidateRoot: string,
    privateStore: string, ownershipMarker: string)

  datatype Creation = Creation(
    invocationId: string, repository: string, commonDirectory: string, ownershipMarker: string,
    createdResources: seq<Resource>)

  datatype FileIdentity = Unavailable | Available(device: int, inode: int, fileKind: string)

  datatype Receipt = Receipt(resource: Resource, identity: FileIdentity)

  datatype Fixture = Fixture(
    creation: Creation, manifest: Manifest, configurationPath: string, manifestPath: string, identities: seq<Receipt>)

  // ----- The ledger check

  function LocatorFor(f: Fixture, tag: Kind): string {
    match tag
    case Repository => f.manifest.repository
    case CommonDirectory => f.manifest.commonDirectory
    case ConfigurationDocument => f.configurationPath
    case ManifestDocument => f.manifestPath
    case JournalDatabase => f.manifest.journalDatabase
    case EvidenceRoot => f.manifest.evidenceRoot
    case AttemptWorktreeRoot => f.manifest.attemptWorktreeRoot
    case CodexExecutorPrivateStateDirectory => f.manifest.codexExecutorPrivateStateDirectory
    case CandidateRoot => f.manifest.candidateRoot
    case PrivateStore => f.manifest.privateStore
    case OwnershipMarker => f.manifest.ownershipMarker
  }

  predicate BelongsToFixture(f: Fixture, r: Resource) {
    r.locator == LocatorFor(f, r.tag)
  }

  function TagName(tag: Kind): string {
    match tag
    case Repository => "Repository"
    case CommonDirectory => "CommonDirectory"
    case ConfigurationDocument => "ConfigurationDocument"
    case ManifestDocument => "ManifestDocument"
    case JournalDatabase => "JournalDatabase"
    case EvidenceRoot => "EvidenceRoot"
    case AttemptWorktreeRoot => "AttemptWorktreeRoot"
    case CodexExecutorPrivateStateDirectory => "CodexExecutorPrivateStateDirectory"
    case CandidateRoot => "CandidateRoot"
    case PrivateStore => "PrivateStore"
    case OwnershipMarker => "OwnershipMarker"
  }

  function ResourceKey(r: Resource): string {
    TagName(r.tag) + ":" + r.locator
  }

  function ResourceKeys(rs: seq<Resource>): (keys: seq<string>)
    ensures |keys| == |rs| && forall i :: 0 <= i < |rs| ==> keys[i] == ResourceKey(rs[i])
  {
    seq(|rs|, i requires 0 <= i < |rs| => ResourceKey(rs[i]))
  }

  function ReceiptResources(receipts: seq<Receipt>): (rs: seq<Resource>)
    ensures |rs| == |receipts| && forall i :: 0 <= i < |rs| ==> rs[i] == receipts[i].resource
  {
    seq(|receipts|, i requires 0 <= i < |receipts| => receipts[i].resource)
  }

  function Elements<T>(s: seq<T>): set<T> {
    set x | x in s
  }

  predicate CreationMatchesManifest(f: Fixture) {
    && f.creation.invocationId == f.manifest.invocationId
    && f.creation.repository == f.manifest.repository
    && f.creation.commonDirectory == f.manifest.commonDirectory
    && f.creation.ownershipMarker == f.manifest.ownershipMarker
  }

  const KIND_COUNT: nat := 11

  predicate LedgerAccepted(f: Fixture) {
    var resources := f.creation.createdResources;
    var resourceKeys := Elements(ResourceKeys(resources));
    var identityKeys := Elements(ResourceKeys(ReceiptResources(f.identities)));
    && CreationMatchesManifest(f)
    && (forall r :: r in resources ==> BelongsToFixture(f, r))
    && |resourceKeys| == KIND_COUNT
    && |resourceKeys| == |resources|
    && |identityKeys| == |f.identities|
    && resourceKeys <= identityKeys
    && identityKeys <= resourceKeys
  }

  // ----- Counting

  predicate Distinct<T(==)>(s: seq<T>) {
    forall i, j :: 0 <= i < j < |s| ==> s[i] != s[j]
  }

  lemma {:induction false} ElementCount<T>(s: seq<T>)
    ensures |Elements(s)| <= |s|
    ensures |Elements(s)| == |s| <==> Distinct(s)
  {
    if s != [] {
      var front, last := s[..|s| - 1], s[|s| - 1];
      ElementCount(front);
      assert Elements(s) == Elements(front) + {last};
      if last in front {
        assert Elements(s) == Elements(front);
        var i :| 0 <= i < |front| && front[i] == last;
        assert s[i] == s[|s| - 1];
      } else {
        assert |Elements(s)| == |Elements(front)| + 1;
        assert Distinct(s) <==> Distinct(front) by {
          assert forall i :: 0 <= i < |front| ==> front[i] == s[i];
        }
      }
    }
  }

  // ----- Keys determine resources

  predicate NoColon(s: string) {
    forall i :: 0 <= i < |s| ==> s[i] != ':'
  }

  lemma TagNamesHaveNoColon(tag: Kind)
    ensures NoColon(TagName(tag))
  {
    match tag
    case Repository => assert NoColon("Repository");
    case CommonDirectory => assert NoColon("CommonDirectory");
    case ConfigurationDocument => assert NoColon("ConfigurationDocument");
    case ManifestDocument => assert NoColon("ManifestDocument");
    case JournalDatabase => assert NoColon("JournalDatabase");
    case EvidenceRoot => assert NoColon("EvidenceRoot");
    case AttemptWorktreeRoot => assert NoColon("AttemptWorktreeRoot");
    case CodexExecutorPrivateStateDirectory => assert NoColon("CodexExecutorPrivateStateDirectory");
    case CandidateRoot => assert NoColon("CandidateRoot");
    case PrivateStore => assert NoColon("PrivateStore");
    case OwnershipMarker => assert NoColon("OwnershipMarker");
  }

  lemma TagNamesDiffer(a: Kind, b: Kind)
    requires TagName(a) == TagName(b)
    ensures a == b
  {
    assert |TagName(a)| == |TagName(b)| && TagName(a)[0] == TagName(b)[0];
  }

  lemma KeyIsInjective(a: Resource, b: Resource)
    requires ResourceKey(a) == ResourceKey(b)
    ensures a == b
  {
    TagNamesHaveNoColon(a.tag);
    TagNamesHaveNoColon(b.tag);
    var key, m, n := ResourceKey(a), |TagName(a.tag)|, |TagName(b.tag)|;
    assert key[m] == ':' && key[n] == ':';
    assert forall i :: 0 <= i < m ==> key[i] == TagName(a.tag)[i];
    assert forall i :: 0 <= i < n ==> key[i] == TagName(b.tag)[i];
    assert m == n;
    assert TagName(a.tag) == key[..m] == TagName(b.tag);
    TagNamesDiffer(a.tag, b.tag);
    assert a.locator == key[m + 1..] == b.locator;
  }

  // ----- What acceptance means

  const ALL_KINDS: set<Kind> := {
    Repository, CommonDirectory, ConfigurationDocument, ManifestDocument, JournalDatabase, EvidenceRoot,
    AttemptWorktreeRoot, CodexExecutorPrivateStateDirectory, CandidateRoot, PrivateStore, OwnershipMarker }

  lemma KindCount()
    ensures |ALL_KINDS| == KIND_COUNT
    ensures forall k: Kind :: k in ALL_KINDS
  {
    forall k: Kind ensures k in ALL_KINDS {
      match k
      case Repository | CommonDirectory | ConfigurationDocument | ManifestDocument => assert k in ALL_KINDS;
      case JournalDatabase | EvidenceRoot | AttemptWorktreeRoot => assert k in ALL_KINDS;
      case CodexExecutorPrivateStateDirectory | CandidateRoot | PrivateStore | OwnershipMarker => assert k in ALL_KINDS;
    }
  }

  function Tags(rs: seq<Resource>): (tags: seq<Kind>)
    ensures |tags| == |rs| && forall i :: 0 <= i < |rs| ==> tags[i] == rs[i].tag
  {
    seq(|rs|, i requires 0 <= i < |rs| => rs[i].tag)
  }

  /** Exactly the fixture's own resource of each kind, once. */
  ghost predicate IsCompleteLedger(f: Fixture, rs: seq<Resource>) {
    && |rs| == KIND_COUNT
    && (forall r :: r in rs ==> BelongsToFixture(f, r))
    && forall k: Kind :: Resource(k, LocatorFor(f, k)) in rs
  }

  /** Keys are determined by tags within one fixture, so distinct keys are distinct tags. */
  lemma KeysAndTags(f: Fixture, rs: seq<Resource>)
    requires forall i :: 0 <= i < |rs| ==> BelongsToFixture(f, rs[i])
    ensures Distinct(ResourceKeys(rs)) <==> Distinct(Tags(rs))
  {
    forall i, j | 0 <= i < j < |rs| ensures ResourceKeys(rs)[i] != ResourceKeys(rs)[j] <==> Tags(rs)[i] != Tags(rs)[j] {
      if ResourceKey(rs[i]) == ResourceKey(rs[j]) {
        KeyIsInjective(rs[i], rs[j]);
      }
    }
  }

  /** The pigeonhole: eleven tags are distinct exactly when every kind is among them. */
  lemma EveryKindOnce(tags: seq<Kind>)
    requires |tags| == KIND_COUNT
    ensures Distinct(tags) <==> forall k: Kind :: k in tags
  {
    KindCount();
    ElementCount(tags);
    SubsetSize(Elements(tags), ALL_KINDS);
    if forall k: Kind :: k in tags {
      assert Elements(tags) == ALL_KINDS;
    }
    if Distinct(tags) {
      forall k: Kind ensures k in tags {
        assert k in Elements(tags);
      }
    }
  }

  lemma TagPresent(f: Fixture, rs: seq<Resource>, k: Kind)
    requires forall i :: 0 <= i < |rs| ==> BelongsToFixture(f, rs[i])
    ensures k in Tags(rs) <==> Resource(k, LocatorFor(f, k)) in rs
  {
    if k in Tags(rs) {
      var i :| 0 <= i < |rs| && Tags(rs)[i] == k;
      assert rs[i] == Resource(k, LocatorFor(f, k));
    }
    if Resource(k, LocatorFor(f, k)) in rs {
      var i :| 0 <= i < |rs| && rs[i] == Resource(k, LocatorFor(f, k));
      assert Tags(rs)[i] == k;
    }
  }

  lemma DistinctTags(f: Fixture, rs: seq<Resource>)
    requires |rs| == KIND_COUNT && forall r :: r in rs ==> BelongsToFixture(f, r)
    ensures Distinct(ResourceKeys(rs)) <==> IsCompleteLedger(f, rs)
  {
    KeysAndTags(f, rs);
    EveryKindOnce(Tags(rs));
    forall k: Kind ensures k in Tags(rs) <==> Resource(k, LocatorFor(f, k)) in rs {
      TagPresent(f, rs, k);
    }
  }

  lemma KeysCover(as_: seq<Resource>, bs: seq<Resource>)
    ensures Elements(ResourceKeys(as_)) <= Elements(ResourceKeys(bs)) <==> Elements(as_) <= Elements(bs)
  {
    var ka, kb := ResourceKeys(as_), ResourceKeys(bs);
    if Elements(ka) <= Elements(kb) {
      forall r | r in as_ ensures r in bs {
        var i :| 0 <= i < |as_| && as_[i] == r;
        assert ka[i] in Elements(ka);
        var j :| 0 <= j < |kb| && kb[j] == ka[i];
        KeyIsInjective(as_[i], bs[j]);
      }
    }
    if Elements(as_) <= Elements(bs) {
      forall key | key in ka ensures key in kb {
        var i :| 0 <= i < |ka| && ka[i] == key;
        assert as_[i] in Elements(as_);
        var j :| 0 <= j < |bs| && bs[j] == as_[i];
        assert kb[j] == key;
      }
    }
  }

  lemma DistinctKeys(rs: seq<Resource>)
    ensures Distinct(ResourceKeys(rs)) <==> Distinct(rs)
  {
    if Distinct(rs) {
      forall i, j | 0 <= i < j < |rs| ensures ResourceKeys(rs)[i] != ResourceKeys(rs)[j] {
        if ResourceKey(rs[i]) == ResourceKey(rs[j]) {
          KeyIsInjective(rs[i], rs[j]);
        }
      }
    }
    if Distinct(ResourceKeys(rs)) {
      forall i, j | 0 <= i < j < |rs| ensures rs[i] != rs[j] {
        assert ResourceKeys(rs)[i] != ResourceKeys(rs)[j];
      }
    }
  }

  /**
   A creation ledger is accepted if and only if it lists the fixture's own resource of every kind
   exactly once and there is exactly one identity receipt for each.
   */
  lemma LedgerIsExact(f: Fixture)
    ensures LedgerAccepted(f) <==>
            && CreationMatchesManifest(f)
            && IsCompleteLedger(f, f.creation.createdResources)
            && Distinct(ReceiptResources(f.identities))
            && Elements(ReceiptResources(f.identities)) == Elements(f.creation.createdResources)
  {
    var resources, receipts := f.creation.createdResources, ReceiptResources(f.identities);
    ElementCount(ResourceKeys(resources));
    ElementCount(ResourceKeys(receipts));
    DistinctKeys(receipts);
    KeysCover(resources, receipts);
    KeysCover(receipts, resources);
    if |resources| == KIND_COUNT && forall r :: r in resources ==> BelongsToFixture(f, r) {
      DistinctTags(f, resources);
    }
  }

  lemma AcceptedLedgerIsComplete(f: Fixture)
    requires LedgerAccepted(f)
    ensures IsCompleteLedger(f, f.creation.createdResources) && Distinct(f.creation.createdResources)
  {
    LedgerIsExact(f);
    ElementCount(ResourceKeys(f.creation.createdResources));
    DistinctKeys(f.creation.createdResources);
  }
}
