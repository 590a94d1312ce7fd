/** The checker of the capability-registration inventory, and the exact condition under which it is silent. */
module CapabilityRegistration {
  import opened Common

  datatype Family =
    | Journal | TaskTrackerGraphRead | TaskTrackerClaim | TaskTrackerCompletionClaim | TaskTrackerCompletion
    | GitWorktree | GitLineage | GitTaskAttemptBase | GitIntegratorCandidate | GitTargetPromotion
    | CodexOwnedActivityCensus | PlannedAttemptExecutor | IsolatedPlannedAttemptExecutor | OuterIntegrator
    | ImmutableEvidence | PlannedWorktreeCleanup | PlannedBranchCleanup | IntegratorPredecessorCandidateCleanup
    | CoordinatorOwnership

  const REQUIRED_FAMILIES: seq<Family> := [
    Journal, TaskTrackerGraphRead, TaskTrackerClaim, TaskTrackerCompletionClaim, TaskTrackerCompletion,
    GitWorktree, GitLineage, GitTaskAttemptBase, GitIntegratorCandidate, GitTargetPromotion,
    CodexOwnedActivityCensus, PlannedAttemptExecutor, IsolatedPlannedAttemptExecutor, OuterIntegrator,
    ImmutableEvidence, PlannedWorktreeCleanup, PlannedBranchCleanup, IntegratorPredecessorCandidateCleanup,
    CoordinatorOwnership]

  predicate IsCleanupFamily(f: Family) {
    f == PlannedWorktreeCleanup || f == PlannedBranchCleanup || f == IntegratorPredecessorCandidateCleanup
  }

  const SHARED_CLEANUP_LAYER := "gitDispositionCleanupBoundaryLayer"

  datatype Role = Controlled | Production | Qualification

  datatype Composition = Assembled | SuppliedAtBoundary

  datatype Entry = Implementation(identity: string, composition: Composition) | NotApplicable(detail: string)

  datatype Execution = Execution(role: Role, marker: string)

  /** `qualification` is an implementation when present. */
  datatype Capability = Capability(
    family: Family, controlled: Entry, production: Entry, qualification: Option<(string, Composition)>,
    executions: seq<Execution>)

  datatype Support = Support(identity: string, reason: string, source: string, marker: string)

  datatype Inventory = Inventory(capabilities: seq<Capability>, supports: seq<Support>)

  datatype Slot = Slot(family: Family, role: Role, entry: Entry)

  function ImplementationRoles(c: Capability): (slots: seq<Slot>)
    ensures forall i :: 0 <= i < |slots| ==> slots[i].family == c.family
  {
    [Slot(c.family, Controlled, c.controlled), Slot(c.family, Production, c.production)] +
    if c.qualification.None? then []
    else [Slot(c.family, Qualification, Implementation(c.qualification.value.0, c.qualification.value.1))]
  }

  datatype Issue =
    | MissingFamily(family: Family)
    | DuplicateFamily(family: Family)
    | EmptyNotApplicableReason(family: Family, role: Role)
    | DuplicateImplementation(identity: string)
    | NoContractExecution(family: Family, role: Role)
    | EmptyContractMarker(family: Family)
    | DuplicateSupport(identity: string)
    | CapabilitySupportListed(identity: string)
    | EmptySupportReason(identity: string)
    | EmptySupportSource(identity: string)
    | EmptySupportMarker(identity: string)
    | SupportMarkerMismatch(identity: string, marker: string)

  // ----- Blank text

  predicate IsWhitespace(c: char) {
    || '\t' <= c <= '\r' || c == ' ' || c == '\U{a0}' || c == '\U{1680}' || '\U{2000}' <= c <= '\U{200a}'
    || c == '\U{2028}' || c == '\U{2029}' || c == '\U{202f}' || c == '\U{205f}' || c == '\U{3000}' || c == '\U{feff}'
  }

  /** `trim() === ""`. */
  predicate IsBlank(s: string) {
    forall i :: 0 <= i < |s| ==> IsWhitespace(s[i])
  }

  // ----- What a sound inventory is

  /** Two slots may share an identity only as the shared cleanup layer of two different cleanup families. */
  predicate Compatible(a: Slot, b: Slot) {
    a.entry.Implementation? && b.entry.Implementation? && a.entry.identity == b.entry.identity ==>
      && a.entry.identity == SHARED_CLEANUP_LAYER
      && a.family != b.family && IsCleanupFamily(a.family) && IsCleanupFamily(b.family)
  }

  predicate SlotOk(slots: seq<Slot>, i: nat)
    requires i < |slots|
  {
    && (slots[i].entry.NotApplicable? ==> !IsBlank(slots[i].entry.detail))
    && forall j :: 0 <= j < i ==> Compatible(slots[j], slots[i])
  }

  predicate SlotsOk(slots: seq<Slot>) {
    forall i :: 0 <= i < |slots| ==> SlotOk(slots, i)
  }

  function AllSlots(capabilities: seq<Capability>, n: nat): seq<Slot>
    requires n <= |capabilities|
  {
    if n == 0 then [] else AllSlots(capabilities, n - 1) + ImplementationRoles(capabilities[n - 1])
  }

  predicate HasExecution(c: Capability, role: Role) {
    exists i :: 0 <= i < |c.executions| && c.executions[i].role == role
  }

  /** Every implemented role executes the shared contract, under a named marker. */
  predicate ContractOk(c: Capability) {
    && (forall i :: 0 <= i < |ImplementationRoles(c)| ==>
          (ImplementationRoles(c)[i].entry.Implementation? ==> HasExecution(c, ImplementationRoles(c)[i].role)))
    && forall i :: 0 <= i < |c.executions| ==> !IsBlank(c.executions[i].marker)
  }

  predicate AssembledIdentity(slots: seq<Slot>, identity: string) {
    exists i :: 0 <= i < |slots| && slots[i].entry == Implementation(identity, Assembled)
  }

  /** A support binding is unique, is no assembled capability, and is named by its own non-blank marker. */
  predicate SupportOk(slots: seq<Slot>, supports: seq<Support>, i: nat)
    requires i < |supports|
  {
    var s := supports[i];
    && (forall j :: 0 <= j < i ==> supports[j].identity != s.identity)
    && !AssembledIdentity(slots, s.identity)
    && !IsBlank(s.reason) && !IsBlank(s.source) && !IsBlank(s.marker)
    && s.marker == s.identity
  }

  predicate FamiliesOk(families: seq<Family>) {
    && (forall i :: 0 <= i < |REQUIRED_FAMILIES| ==> REQUIRED_FAMILIES[i] in families)
    && forall i, j :: 0 <= i < j < |families| ==> families[i] != families[j]
  }

  function Families(capabilities: seq<Capability>): (fs: seq<Family>)
    ensures |fs| == |capabilities| && forall i :: 0 <= i < |fs| ==> fs[i] == capabilities[i].family
  {
    seq(|capabilities|, i requires 0 <= i < |capabilities| => capabilities[i].family)
  }

  /** The first `n` capabilities: compatible slots, and contracts executed by every implemented role. */
  predicate CapabilitiesOk(capabilities: seq<Capability>, n: nat)
    requires n <= |capabilities|
  {
    SlotsOk(AllSlots(capabilities, n)) && forall i :: 0 <= i < n ==> ContractOk(capabilities[i])
  }

  predicate Sound(inventory: Inventory) {
    var slots := AllSlots(inventory.capabilities, |inventory.capabilities|);
    && FamiliesOk(Families(inventory.capabilities))
    && CapabilitiesOk(inventory.capabilities, |inventory.capabilities|)
    && forall i :: 0 <= i < |inventory.supports| ==> SupportOk(slots, inventory.supports, i)
  }

  // ----- The checker, loop by loop

  function CountFamily(families: seq<Family>, f: Family, n: nat): nat
    requires n <= |families|
  {
    if n == 0 then 0 else CountFamily(families, f, n - 1) + (if families[n - 1] == f then 1 else 0)
  }

  lemma {:induction false} CountOnce(families: seq<Family>, f: Family, n: nat)
    requires n <= |families|
    ensures CountFamily(families, f, n) > 0 <==> exists i :: 0 <= i < n && families[i] == f
    ensures CountFamily(families, f, n) > 1 <==> exists i, j :: 0 <= i < j < n && families[i] == f && families[j] == f
  {
    if n > 0 {
      CountOnce(families, f, n - 1);
      if families[n - 1] == f && CountFamily(families, f, n - 1) > 0 {
        var i :| 0 <= i < n - 1 && families[i] == f;
        assert families[i] == f && families[n - 1] == f;
      }
      if CountFamily(families, f, n) > 0 && CountFamily(families, f, n - 1) == 0 {
        assert families[n - 1] == f;
      }
    }
  }

  method FamilyIssues(families: seq<Family>) returns (issues: seq<Issue>)
    ensures issues == [] <==> FamiliesOk(families)
  {
    issues := [];
    for i := 0 to |REQUIRED_FAMILIES|
      invariant issues == [] <==> forall k :: 0 <= k < i ==> REQUIRED_FAMILIES[k] in families
    {
      if REQUIRED_FAMILIES[i] !in families {
        issues := issues + [MissingFamily(REQUIRED_FAMILIES[i])];
      }
    }
    ghost var complete := issues == [];
    for i := 0 to |families|
      invariant issues == [] <==> complete && forall k :: 0 <= k < i ==>
                CountFamily(families, families[k], |families|) <= 1
    {
      if CountFamily(families, families[i], |families|) > 1 {
        issues := issues + [DuplicateFamily(families[i])];
      }
    }
    forall k | 0 <= k < |families|
      ensures CountFamily(families, families[k], |families|) > 1 <==>
              exists i, j :: 0 <= i < j < |families| && families[i] == families[k] && families[j] == families[k]
    {
      CountOnce(families, families[k], |families|);
    }
  }

  /** The running sets of the identity check. */
  datatype Tally = Tally(byFamily: set<(Family, string)>, owners: map<string, set<Family>>, assembled: seq<string>)

  function Owners(t: Tally, identity: string): set<Family> {
    if identity in t.owners then t.owners[identity] else {}
  }

  /** Some slot of the family has this implementation. */
  ghost predicate Holds(done: seq<Slot>, f: Family, id: string) {
    exists i :: 0 <= i < |done| && done[i].entry.Implementation? && done[i].family == f && done[i].entry.identity == id
  }

  ghost predicate Records(t: Tally, done: seq<Slot>) {
    && (forall f, id :: (f, id) in t.byFamily <==> Holds(done, f, id))
    && (forall f, id :: f in Owners(t, id) <==> Holds(done, f, id))
    && (forall id :: id in t.assembled <==> AssembledIdentity(done, id))
  }

  predicate AllowedOwners(owners: set<Family>, family: Family, identity: string) {
    || owners == {}
    || (identity == SHARED_CLEANUP_LAYER && IsCleanupFamily(family) && forall o :: o in owners ==> IsCleanupFamily(o))
  }

  /** The two tests together say that the slot is compatible with every earlier one. */
  lemma SlotVerdict(t: Tally, done: seq<Slot>, slot: Slot)
    requires Records(t, done) && slot.entry.Implementation?
    ensures (slot.family, slot.entry.identity) !in t.byFamily &&
            AllowedOwners(Owners(t, slot.entry.identity), slot.family, slot.entry.identity) <==>
            forall j :: 0 <= j < |done| ==> Compatible(done[j], slot)
  {
    var id := slot.entry.identity;
    if (slot.family, id) !in t.byFamily && AllowedOwners(Owners(t, id), slot.family, id) {
      forall j | 0 <= j < |done| ensures Compatible(done[j], slot) {
        if done[j].entry.Implementation? && done[j].entry.identity == id {
          assert Holds(done, done[j].family, id);
          assert done[j].family in Owners(t, id);
        }
      }
    }
    if forall j :: 0 <= j < |done| ==> Compatible(done[j], slot) {
      forall f | Holds(done, f, id) ensures f != slot.family && id == SHARED_CLEANUP_LAYER && IsCleanupFamily(f) &&
        IsCleanupFamily(slot.family) {
        var i :| 0 <= i < |done| && done[i].entry.Implementation? && done[i].family == f &&
          done[i].entry.identity == id;
        assert Compatible(done[i], slot);
      }
    }
  }

  lemma RecordsImplementation(t: Tally, next: Tally, done: seq<Slot>, slot: Slot)
    requires Records(t, done) && slot.entry.Implementation?
    requires next == Tally(t.byFamily + {(slot.family, slot.entry.identity)},
                           t.owners[slot.entry.identity := Owners(t, slot.entry.identity) + {slot.family}],
                           if slot.entry.composition == Assembled then t.assembled + [slot.entry.identity]
                             else t.assembled)
    ensures Records(next, done + [slot])
  {
    forall f, id
      ensures (f, id) in next.byFamily <==> Holds(done + [slot], f, id)
      ensures f in Owners(next, id) <==> Holds(done + [slot], f, id)
    {
      HoldsSnoc(done, slot, f, id);
    }
    forall id ensures id in next.assembled <==> AssembledIdentity(done + [slot], id) {
      AssembledSnoc(done, slot, id);
    }
  }

  method CheckSlot(slot: Slot, tallyIn: Tally, ghost done: seq<Slot>) returns (tally: Tally, issues: seq<Issue>)
    requires Records(tallyIn, done)
    ensures Records(tally, done + [slot])
    ensures issues == [] <==> SlotOk(done + [slot], |done|)
  {
    issues, tally := [], tallyIn;
    ghost var more := done + [slot];
    assert more[|done|] == slot && forall i :: 0 <= i < |done| ==> more[i] == done[i];
    match slot.entry
    case NotApplicable(detail) =>
      if IsBlank(detail) {
        issues := [EmptyNotApplicableReason(slot.family, slot.role)];
      }
      RecordsNothing(tally, done, slot);
    case Implementation(identity, composition) =>
      if (slot.family, identity) in tally.byFamily {
        issues := issues + [DuplicateImplementation(identity)];
      }
      var owners := Owners(tally, identity);
      if !AllowedOwners(owners, slot.family, identity) {
        issues := issues + [DuplicateImplementation(identity)];
      }
      SlotVerdict(tally, done, slot);
      tally := Tally(
        tally.byFamily + {(slot.family, identity)},
        tally.owners[identity := owners + {slot.family}],
        if composition == Assembled then tally.assembled + [identity] else tally.assembled);
      RecordsImplementation(tallyIn, tally, done, slot);
  }

  lemma RecordsNothing(t: Tally, done: seq<Slot>, slot: Slot)
    requires Records(t, done) && slot.entry.NotApplicable?
    ensures Records(t, done + [slot])
  {
    var more := done + [slot];
    forall id ensures AssembledIdentity(more, id) <==> AssembledIdentity(done, id) {
      AssembledSnoc(done, slot, id);
    }
    forall f, id ensures Holds(more, f, id) <==> Holds(done, f, id) {
      HoldsSnoc(done, slot, f, id);
    }
  }

  lemma HoldsSnoc(done: seq<Slot>, slot: Slot, f: Family, id: string)
    ensures Holds(done + [slot], f, id) <==>
            Holds(done, f, id) || (slot.entry.Implementation? && slot.family == f && slot.entry.identity == id)
  {
    var more := done + [slot];
    if Holds(done, f, id) {
      var i :| 0 <= i < |done| && done[i].entry.Implementation? && done[i].family == f && done[i].entry.identity == id;
      assert more[i] == done[i];
    }
    assert more[|done|] == slot;
  }

  lemma AssembledSnoc(done: seq<Slot>, slot: Slot, id: string)
    ensures AssembledIdentity(done + [slot], id) <==>
            AssembledIdentity(done, id) || slot.entry == Implementation(id, Assembled)
  {
    var more := done + [slot];
    if AssembledIdentity(done, id) {
      var i :| 0 <= i < |done| && done[i].entry == Implementation(id, Assembled);
      assert more[i] == done[i];
    }
    assert more[|done|] == slot;
  }

  lemma SlotsSnoc(done: seq<Slot>, slot: Slot)
    ensures SlotsOk(done + [slot]) <==> SlotsOk(done) && SlotOk(done + [slot], |done|)
  {
    var more := done + [slot];
    assert forall i :: 0 <= i < |done| ==> more[i] == done[i];
    forall i | 0 <= i < |done| ensures SlotOk(more, i) <==> SlotOk(done, i) {
    }
  }

  /** The implementation slots of one capability. */
  method CheckSlots(slots: seq<Slot>, tallyIn: Tally, ghost earlier: seq<Slot>) returns (tally: Tally,
                    issues: seq<Issue>)
    requires Records(tallyIn, earlier)
    ensures Records(tally, earlier + slots)
    ensures SlotsOk(earlier) ==> (issues == [] <==> SlotsOk(earlier + slots))
  {
    tally, issues := tallyIn, [];
    AppendEmpty(earlier);
    for n := 0 to |slots|
      invariant Records(tally, earlier + slots[..n])
      invariant SlotsOk(earlier) ==> (issues == [] <==> SlotsOk(earlier + slots[..n]))
    {
      var more;
      ghost var done := earlier + slots[..n];
      TakeSnoc(slots, n);
      AppendAssociative(earlier, slots[..n], [slots[n]]);
      SlotsSnoc(done, slots[n]);
      tally, more := CheckSlot(slots[n], tally, done);
      issues := issues + more;
    }
    assert slots[..|slots|] == slots;
  }

  function PresentRoles(c: Capability): set<Role> {
    set e, slot | e in c.executions && slot in ImplementationRoles(c) && slot.role == e.role :: e.role
  }

  method ContractIssues(c: Capability) returns (issues: seq<Issue>)
    ensures issues == [] <==> ContractOk(c)
  {
    issues := [];
    var slots := ImplementationRoles(c);
    var presentRoles := PresentRoles(c);
    for n := 0 to |slots|
      invariant issues == [] <==> forall i :: 0 <= i < n ==>
                (slots[i].entry.Implementation? ==> HasExecution(c, slots[i].role))
    {
      PresentMeansExecuted(c, slots[n]);
      if slots[n].entry.Implementation? && slots[n].role !in presentRoles {
        issues := issues + [NoContractExecution(c.family, slots[n].role)];
      }
    }
    ghost var executed := issues == [];
    for n := 0 to |c.executions|
      invariant issues == [] <==> executed && forall i :: 0 <= i < n ==> !IsBlank(c.executions[i].marker)
    {
      if IsBlank(c.executions[n].marker) {
        issues := issues + [EmptyContractMarker(c.family)];
      }
    }
  }

  lemma PresentMeansExecuted(c: Capability, slot: Slot)
    requires slot in ImplementationRoles(c)
    ensures slot.role in PresentRoles(c) <==> HasExecution(c, slot.role)
  {
    if HasExecution(c, slot.role) {
      var i :| 0 <= i < |c.executions| && c.executions[i].role == slot.role;
      assert c.executions[i] in c.executions;
    }
  }

  method SupportIssues(supports: seq<Support>, assembled: seq<string>,
                       ghost slots: seq<Slot>) returns (issues: seq<Issue>)
    requires forall id :: id in assembled <==> AssembledIdentity(slots, id)
    ensures issues == [] <==> forall i :: 0 <= i < |supports| ==> SupportOk(slots, supports, i)
  {
    issues := [];
    var identities: set<string> := {};
    for n := 0 to |supports|
      invariant forall id :: id in identities <==> exists i :: 0 <= i < n && supports[i].identity == id
      invariant issues == [] <==> forall i :: 0 <= i < n ==> SupportOk(slots, supports, i)
    {
      var more := SupportIssue(supports[n], supports[n].identity in identities, supports[n].identity in assembled);
      assert more == [] <==> SupportOk(slots, supports, n);
      identities := identities + {supports[n].identity};
      issues := issues + more;
    }
  }

  method SupportIssue(s: Support, repeated: bool, listed: bool) returns (issues: seq<Issue>)
    ensures issues == [] <==>
              && !repeated && !listed && !IsBlank(s.reason) && !IsBlank(s.source) && !IsBlank(s.marker)
              && s.marker == s.identity
  {
    issues := [];
    if repeated {
      issues := issues + [DuplicateSupport(s.identity)];
    }
    if listed {
      issues := issues + [CapabilitySupportListed(s.identity)];
    }
    if IsBlank(s.reason) {
      issues := issues + [EmptySupportReason(s.identity)];
    }
    if IsBlank(s.source) {
      issues := issues + [EmptySupportSource(s.identity)];
    }
    if IsBlank(s.marker) {
      issues := issues + [EmptySupportMarker(s.identity)];
    }
    if s.marker != s.identity {
      issues := issues + [SupportMarkerMismatch(s.identity, s.marker)];
    }
  }

  lemma {:induction false} SlotsOkPrefix(left: seq<Slot>, right: seq<Slot>)
    requires SlotsOk(left + right)
    ensures SlotsOk(left)
  {
    var all := left + right;
    assert forall i :: 0 <= i < |left| ==> all[i] == left[i];
    forall i | 0 <= i < |left| ensures SlotOk(left, i) {
      assert SlotOk(all, i);
    }
  }

  /** The capability loop: identity slots and contract executions of each capability in turn. */
  method CapabilityIssues(capabilities: seq<Capability>) returns (tally: Tally, issues: seq<Issue>)
    ensures issues == [] <==> CapabilitiesOk(capabilities, |capabilities|)
    ensures Records(tally, AllSlots(capabilities, |capabilities|))
  {
    tally, issues := Tally({}, map[], []), [];
    for n := 0 to |capabilities|
      invariant Records(tally, AllSlots(capabilities, n))
      invariant issues == [] <==> CapabilitiesOk(capabilities, n)
    {
      var slotIssues, contractIssues;
      ghost var earlier := AllSlots(capabilities, n);
      tally, slotIssues := CheckSlots(ImplementationRoles(capabilities[n]), tally, earlier);
      contractIssues := ContractIssues(capabilities[n]);
      issues := issues + slotIssues + contractIssues;
      if SlotsOk(AllSlots(capabilities, n + 1)) {
        SlotsOkPrefix(earlier, ImplementationRoles(capabilities[n]));
      }
    }
  }

  /** The checker reports nothing if and only if the inventory is sound. */
  method CapabilityRegistrationIssues(inventory: Inventory) returns (issues: seq<Issue>)
    ensures issues == [] <==> Sound(inventory)
  {
    issues := FamilyIssues(Families(inventory.capabilities));
    var tally, more := CapabilityIssues(inventory.capabilities);
    ghost var slots := AllSlots(inventory.capabilities, |inventory.capabilities|);
    var supportIssues := SupportIssues(inventory.supports, tally.assembled, slots);
    issues := issues + more + supportIssues;
  }
}
