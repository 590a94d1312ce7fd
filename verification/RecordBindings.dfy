/**
 The spawn window and the digest bindings of owned children, as a protocol: calls run in fibers, and
 every fiber may be interrupted wherever the code yields. A run is any sequence of such steps.
 */
module RecordBindings {
  import opened Common

  type Scope = string
  type Digest = string
  type Token = nat
  type Fiber = nat

  /** A child handle is an object: two handles with the same process id are still two handles. */
  datatype Handle = Handle(id: nat, pid: int)

  datatype Window = Idle | Spawning(scope: Scope, token: Token)

  datatype Owned = Owned(handle: Handle, digests: set<Digest>)

  /** Where a suspended call stands. */
  datatype Pending =
    | Ending(scope: Scope, seen: Window)
    | Settling(settles: Token)
    | Binding(scope: Scope, handle: Handle, seen: Window)
    | Registering(scope: Scope, pid: int, digest: Digest, awaits: Option<Token>, readAt: Token)

  datatype Event =
    | Opened(scope: Scope, token: Token)
    | Closed(scope: Scope, shut: Window)
    | Bound(scope: Scope, handle: Handle)
    | Registered(scope: Scope, pid: int, digest: Digest, readAt: Token, during: Window)
    | Forgotten(scope: Scope)

  datatype State = State(
    window: Window,
    owned: map<Scope, Owned>,
    settled: set<Token>,
    nextToken: Token,
    pending: map<Fiber, Pending>,
    ended: set<Scope>,
    history: seq<Event>)

  datatype Action =
    | Begin(scope: Scope)
    | EndCall(fiber: Fiber, scope: Scope)
    | BindCall(fiber: Fiber, scope: Scope, handle: Handle)
    | RegisterCall(fiber: Fiber, scope: Scope, pid: int, digest: Digest)
    | Resume(fiber: Fiber)
    | Forget(scope: Scope, handle: Handle)

  const INITIAL := State(Idle, map[], {}, 0, map[], {}, [])

  // ----- Steps

  function Log(s: State, e: Event): State {
    s.(history := s.history + [e])
  }

  /** Admission reads and writes the window in one atomic modification. */
  function BeginStep(s: State, scope: Scope): State {
    if s.window.Idle? then
      Log(s.(window := Spawning(scope, s.nextToken), nextToken := s.nextToken + 1), Opened(scope, s.nextToken))
    else s
  }

  /** The first step of a call: it reads the window and may be suspended right after. */
  function CallStep(s: State, fiber: Fiber, p: Pending): State {
    if fiber in s.pending then s else s.(pending := s.pending[fiber := p])
  }

  function EndStep(s: State, fiber: Fiber, scope: Scope): State {
    if fiber in s.pending then s else CallStep(s.(ended := s.ended + {scope}), fiber, Ending(scope, s.window))
  }

  function Awaited(w: Window, scope: Scope): Option<Token> {
    if w.Spawning? && w.scope == scope then Some(w.token) else None
  }

  function Drop(s: State, fiber: Fiber): State {
    s.(pending := s.pending - {fiber})
  }

  function RegisterStep(s: State, p: Pending): State
    requires p.Registering?
  {
    if p.scope in s.owned && s.owned[p.scope].handle.pid == p.pid then
      var original := s.owned[p.scope];
      Log(s.(owned := s.owned[p.scope := Owned(original.handle, original.digests + {p.digest})]),
          Registered(p.scope, p.pid, p.digest, p.readAt, s.window))
    else s
  }

  /**
   The rest of a suspended call. An end that saw its scope spawning closes whatever window is open by
   then, and the event says which. A registration that found its scope spawning stays until its
   window settles.
   */
  function ResumeStep(s: State, fiber: Fiber): State {
    if fiber !in s.pending then s
    else
      match s.pending[fiber]
      case Ending(scope, seen) =>
        if seen.Spawning? && seen.scope == scope then
          Log(s.(window := Idle, pending := s.pending[fiber := Settling(seen.token)]), Closed(scope, s.window))
        else Drop(s, fiber)
      case Settling(token) => Drop(s, fiber).(settled := s.settled + {token})
      case Binding(scope, handle, seen) =>
        if seen.Spawning? && seen.scope == scope then
          Log(Drop(s, fiber).(owned := s.owned[scope := Owned(handle, {})]), Bound(scope, handle))
        else Drop(s, fiber)
      case Registering(_, _, _, awaits, _) =>
        if awaits.Some? && awaits.value !in s.settled then s
        else RegisterStep(Drop(s, fiber), s.pending[fiber])
  }

  function ForgetStep(s: State, scope: Scope, handle: Handle): State {
    if scope in s.owned && s.owned[scope].handle == handle
    then Log(s.(owned := s.owned - {scope}), Forgotten(scope))
    else s
  }

  function Apply(s: State, a: Action): State {
    match a
    case Begin(scope) => BeginStep(s, scope)
    case EndCall(fiber, scope) => EndStep(s, fiber, scope)
    case BindCall(fiber, scope, handle) => CallStep(s, fiber, Binding(scope, handle, s.window))
    case RegisterCall(fiber, scope, pid, digest) =>
      CallStep(s, fiber, Registering(scope, pid, digest, Awaited(s.window, scope), s.nextToken))
    case Resume(fiber) => ResumeStep(s, fiber)
    case Forget(scope, handle) => ForgetStep(s, scope, handle)
  }

  function RunFrom(s: State, actions: seq<Action>): State {
    if actions == [] then s else Apply(RunFrom(s, actions[..|actions| - 1]), actions[|actions| - 1])
  }

  function Run(actions: seq<Action>): State {
    RunFrom(INITIAL, actions)
  }

  /** `digestsFor`: a read that changes nothing. */
  function DigestsFor(s: State, scope: Scope, handle: Handle): Option<set<Digest>> {
    if scope in s.owned && s.owned[scope].handle == handle then Some(s.owned[scope].digests) else None
  }

  // ----- What every run keeps

  /** A window is open from its opening until an end of its own scope closes it. */
  ghost predicate OpenWindow(history: seq<Event>, scope: Scope, token: Token) {
    Opened(scope, token) in history && Closed(scope, Spawning(scope, token)) !in history
  }

  /** An end that will close a window. */
  predicate Effective(p: Pending) {
    p.Ending? && p.seen.Spawning? && p.seen.scope == p.scope
  }

  /** The calls in flight agree with the window they read. */
  ghost predicate PendingOk(s: State, p: Pending) {
    match p
    case Ending(scope, seen) => scope in s.ended && (Effective(p) ==> seen == s.window)
    case Settling(token) => token < s.nextToken && !(s.window.Spawning? && s.window.token == token)
    case Binding(_, _, _) => true
    case Registering(scope, _, _, awaits, readAt) =>
      && readAt <= s.nextToken
      && (awaits.Some? ==> awaits.value < s.nextToken)
      && (s.window.Spawning? && s.window.scope == scope && s.window.token < readAt ==> awaits == Some(s.window.token))
  }

  ghost predicate WindowOk(s: State) {
    && (forall t :: t in s.settled ==> t < s.nextToken)
    && (s.window.Spawning? ==> s.window.token < s.nextToken && s.window.token !in s.settled)
    && (s.window.Spawning? ==> Opened(s.window.scope, s.window.token) in s.history)
    && (forall f :: f in s.pending ==> PendingOk(s, s.pending[f]))
  }

  /** At most one call is about to close the window. */
  ghost predicate SingleEnder(s: State) {
    forall f, g :: f in s.pending && g in s.pending && Effective(s.pending[f]) && Effective(s.pending[g]) ==> f == g
  }

  /** A window that was opened is the present one or was closed by an end of its own scope. */
  ghost predicate EventOk(s: State, e: Event) {
    match e
    case Opened(scope, token) =>
      token < s.nextToken && (s.window == Spawning(scope, token) || Closed(scope, Spawning(scope, token)) in s.history)
    case Closed(scope, shut) => shut.Spawning? && shut.scope == scope && shut.token < s.nextToken && s.window != shut
    case Registered(_, _, _, _, _) => RegistrationOk(e)
    case _ => true
  }

  /** A registration took effect inside a window of its scope only if it had read the window before that one opened. */
  ghost predicate RegistrationOk(e: Event) {
    e.Registered? && e.during.Spawning? && e.during.scope == e.scope ==> e.readAt <= e.during.token
  }

  /** The binding in force: the last event of the scope's handle is `Bound` to this one. */
  ghost predicate BoundAt(history: seq<Event>, i: nat, scope: Scope, handle: Handle) {
    && i < |history| && history[i] == Bound(scope, handle)
    && forall j :: i < j < |history| ==>
         !(history[j].Bound? && history[j].scope == scope) && history[j] != Forgotten(scope)
  }

  /** The digest was registered under that binding with its handle's process id. */
  ghost predicate Justified(history: seq<Event>, i: nat, scope: Scope, handle: Handle, digest: Digest) {
    exists j :: i < j < |history| && history[j].Registered? && history[j].scope == scope &&
                history[j].pid == handle.pid && history[j].digest == digest
  }

  ghost predicate OwnedOk(s: State, scope: Scope) {
    scope in s.owned ==>
      exists i: nat :: BoundAt(s.history, i, scope, s.owned[scope].handle) &&
                  forall d :: d in s.owned[scope].digests ==> Justified(s.history, i, scope, s.owned[scope].handle, d)
  }

  ghost predicate Safe(s: State) {
    && WindowOk(s)
    && SingleEnder(s)
    && (forall e :: e in s.history ==> EventOk(s, e))
    && forall scope :: OwnedOk(s, scope)
  }

  // ----- Every step keeps it

  lemma LoggedEvents(history: seq<Event>, e: Event, x: Event)
    ensures x in history + [e] <==> x in history || x == e
  {
  }

  /** A step that keeps the window keeps the account of windows, whatever it logs besides. */
  lemma EventsPersist(s: State, t: State, e: Event)
    requires forall x :: x in s.history ==> EventOk(s, x)
    requires t.window == s.window && t.nextToken == s.nextToken
    requires t.history == s.history || (t.history == s.history + [e] && EventOk(s, e) && !e.Opened?)
    ensures forall x :: x in t.history ==> EventOk(t, x)
  {
    forall x | x in t.history ensures EventOk(t, x) {
      LoggedEvents(s.history, e, x);
    }
  }

  /** An event that does not rebind or forget the scope leaves its binding as it was. */
  lemma OwnedPersists(s: State, t: State, scope: Scope, e: Event)
    requires OwnedOk(s, scope)
    requires t.history == s.history || t.history == s.history + [e]
    requires scope in s.owned ==> !(e.Bound? && e.scope == scope) && e != Forgotten(scope)
    requires scope in t.owned ==> scope in s.owned && t.owned[scope] == s.owned[scope]
    ensures OwnedOk(t, scope)
  {
    if scope in t.owned {
      var handle := s.owned[scope].handle;
      var i: nat :| BoundAt(s.history, i, scope, handle) &&
               forall d :: d in s.owned[scope].digests ==> Justified(s.history, i, scope, handle, d);
      assert BoundAt(t.history, i, scope, handle);
      forall d | d in t.owned[scope].digests ensures Justified(t.history, i, scope, handle, d) {
        assert Justified(s.history, i, scope, handle, d);
        var j :| i < j < |s.history| && s.history[j].Registered? && s.history[j].scope == scope &&
                 s.history[j].pid == handle.pid && s.history[j].digest == d;
        assert t.history[j] == s.history[j];
      }
    }
  }

  lemma BoundNow(t: State, history: seq<Event>, scope: Scope, handle: Handle)
    requires t.history == history + [Bound(scope, handle)]
    requires scope in t.owned && t.owned[scope] == Owned(handle, {})
    ensures OwnedOk(t, scope)
  {
    assert BoundAt(t.history, |history|, scope, handle);
  }

  lemma RegisteredNow(s: State, t: State, p: Pending)
    requires p.Registering? && OwnedOk(s, p.scope)
    requires p.scope in s.owned && s.owned[p.scope].handle.pid == p.pid
    requires t == RegisterStep(s, p)
    ensures OwnedOk(t, p.scope)
  {
    var handle := s.owned[p.scope].handle;
    var i: nat :| BoundAt(s.history, i, p.scope, handle) &&
             forall d :: d in s.owned[p.scope].digests ==> Justified(s.history, i, p.scope, handle, d);
    assert BoundAt(t.history, i, p.scope, handle);
    forall d | d in t.owned[p.scope].digests ensures Justified(t.history, i, p.scope, handle, d) {
      if d == p.digest {
        assert t.history[|s.history|].digest == d;
      } else {
        assert Justified(s.history, i, p.scope, handle, d);
        var j :| i < j < |s.history| && s.history[j].Registered? && s.history[j].scope == p.scope &&
                 s.history[j].pid == handle.pid && s.history[j].digest == d;
        assert t.history[j] == s.history[j];
      }
    }
  }

  lemma BeginKeepsEvents(s: State, scope: Scope)
    requires Safe(s)
    ensures var t := BeginStep(s, scope); forall x :: x in t.history ==> EventOk(t, x)
  {
    var t := BeginStep(s, scope);
    forall x | x in t.history ensures EventOk(t, x) {
      LoggedEvents(s.history, Opened(scope, s.nextToken), x);
      if x in s.history {
        assert EventOk(s, x);
      }
    }
  }

  lemma BeginKeepsSafe(s: State, scope: Scope)
    requires Safe(s)
    ensures Safe(BeginStep(s, scope))
  {
    var t := BeginStep(s, scope);
    BeginKeepsEvents(s, scope);
    forall f | f in t.pending ensures PendingOk(t, t.pending[f]) {
      assert PendingOk(s, s.pending[f]);
    }
    forall x ensures OwnedOk(t, x) {
      OwnedPersists(s, t, x, Opened(scope, s.nextToken));
    }
  }

  lemma CallKeepsSafe(s: State, fiber: Fiber, p: Pending)
    requires Safe(s) && PendingOk(s, p)
    requires Effective(p) ==> forall f :: f in s.pending ==> !Effective(s.pending[f])
    ensures Safe(CallStep(s, fiber, p))
  {
    var t := CallStep(s, fiber, p);
    EventsPersist(s, t, Forgotten(""));
    forall f | f in t.pending ensures PendingOk(t, t.pending[f]) {
      assert f in s.pending ==> PendingOk(s, s.pending[f]);
    }
    forall x ensures OwnedOk(t, x) {
      OwnedPersists(s, t, x, Opened(x, 0));
    }
  }

  lemma EndingKeepsEvents(s: State, fiber: Fiber)
    requires Safe(s) && fiber in s.pending && Effective(s.pending[fiber])
    ensures var t := ResumeStep(s, fiber); forall x :: x in t.history ==> EventOk(t, x)
  {
    var t, p := ResumeStep(s, fiber), s.pending[fiber];
    assert PendingOk(s, p);
    forall x | x in t.history ensures EventOk(t, x) {
      LoggedEvents(s.history, Closed(p.scope, s.window), x);
      if x in s.history {
        assert EventOk(s, x);
        if x.Opened? {
          LoggedEvents(s.history, Closed(p.scope, s.window), Closed(x.scope, Spawning(x.scope, x.token)));
        }
      }
    }
  }

  lemma EndingKeepsSafe(s: State, fiber: Fiber)
    requires Safe(s) && fiber in s.pending && s.pending[fiber].Ending?
    ensures Safe(ResumeStep(s, fiber))
  {
    var t, p := ResumeStep(s, fiber), s.pending[fiber];
    assert PendingOk(s, p);
    if Effective(p) {
      EndingKeepsEvents(s, fiber);
    } else {
      EventsPersist(s, t, Forgotten(""));
    }
    forall f | f in t.pending ensures PendingOk(t, t.pending[f]) {
      assert PendingOk(s, s.pending[f]);
    }
    forall x ensures OwnedOk(t, x) {
      OwnedPersists(s, t, x, Closed(p.scope, s.window));
    }
  }

  lemma SettlingKeepsSafe(s: State, fiber: Fiber)
    requires Safe(s) && fiber in s.pending && s.pending[fiber].Settling?
    ensures Safe(ResumeStep(s, fiber))
  {
    var t := ResumeStep(s, fiber);
    EventsPersist(s, t, Forgotten(""));
    assert PendingOk(s, s.pending[fiber]);
    forall f | f in t.pending ensures PendingOk(t, t.pending[f]) {
      assert PendingOk(s, s.pending[f]);
    }
    forall x ensures OwnedOk(t, x) {
      OwnedPersists(s, t, x, Opened(x, 0));
    }
  }

  lemma BindingKeepsSafe(s: State, fiber: Fiber)
    requires Safe(s) && fiber in s.pending && s.pending[fiber].Binding?
    ensures Safe(ResumeStep(s, fiber))
  {
    var t, p := ResumeStep(s, fiber), s.pending[fiber];
    EventsPersist(s, t, Bound(p.scope, p.handle));
    forall f | f in t.pending ensures PendingOk(t, t.pending[f]) {
      assert PendingOk(s, s.pending[f]);
    }
    forall x ensures OwnedOk(t, x) {
      if x == p.scope && t.history != s.history {
        BoundNow(t, s.history, x, p.handle);
      } else {
        OwnedPersists(s, t, x, if t.history == s.history then Opened(x, 0) else Bound(p.scope, p.handle));
      }
    }
  }

  lemma RegisteringKeepsSafe(s: State, fiber: Fiber)
    requires Safe(s) && fiber in s.pending && s.pending[fiber].Registering?
    ensures Safe(ResumeStep(s, fiber))
  {
    var t, p := ResumeStep(s, fiber), s.pending[fiber];
    var e := Registered(p.scope, p.pid, p.digest, p.readAt, s.window);
    assert PendingOk(s, p);
    EventsPersist(s, t, e);
    forall f | f in t.pending ensures PendingOk(t, t.pending[f]) {
      assert PendingOk(s, s.pending[f]);
    }
    forall x ensures OwnedOk(t, x) {
      if x == p.scope && t.history != s.history {
        assert OwnedOk(Drop(s, fiber), x) by { OwnedPersists(s, Drop(s, fiber), x, e); }
        RegisteredNow(Drop(s, fiber), t, p);
      } else {
        OwnedPersists(s, t, x, e);
      }
    }
  }

  lemma ForgetKeepsSafe(s: State, scope: Scope, handle: Handle)
    requires Safe(s)
    ensures Safe(ForgetStep(s, scope, handle))
  {
    var t := ForgetStep(s, scope, handle);
    EventsPersist(s, t, Forgotten(scope));
    forall f | f in t.pending ensures PendingOk(t, t.pending[f]) {
      assert PendingOk(s, s.pending[f]);
    }
    forall x ensures OwnedOk(t, x) {
      if x in t.owned && t.history != s.history {
        assert x != scope;
      }
      if x in t.owned {
        OwnedPersists(s, t, x, if t.history == s.history then Opened(x, 0) else Forgotten(scope));
      }
    }
  }

  /** An end of the scope that saw this very window is already in flight. */
  ghost predicate Overlaps(s: State, scope: Scope) {
    s.window.Spawning? && s.window.scope == scope &&
    exists f :: f in s.pending && s.pending[f] == Ending(scope, s.window)
  }

  /** The callers' discipline for one step. */
  ghost predicate Separate(s: State, a: Action) {
    a.EndCall? && a.fiber !in s.pending ==> !Overlaps(s, a.scope)
  }

  lemma EndCallKeepsSafe(s: State, fiber: Fiber, scope: Scope)
    requires Safe(s) && Separate(s, EndCall(fiber, scope))
    ensures Safe(Apply(s, EndCall(fiber, scope)))
  {
    var t, p := s.(ended := s.ended + {scope}), Ending(scope, s.window);
    EventsPersist(s, t, Forgotten(""));
    forall f | f in t.pending ensures PendingOk(t, t.pending[f]) {
      assert PendingOk(s, s.pending[f]);
    }
    forall x ensures OwnedOk(t, x) {
      OwnedPersists(s, t, x, Opened(x, 0));
    }
    if fiber !in s.pending {
      if Effective(p) {
        forall f | f in s.pending ensures !Effective(s.pending[f]) {
          assert PendingOk(s, s.pending[f]);
        }
      }
      CallKeepsSafe(t, fiber, p);
    }
  }

  lemma StepKeepsSafe(s: State, a: Action)
    requires Safe(s) && Separate(s, a)
    ensures Safe(Apply(s, a))
  {
    match a
    case Begin(scope) => BeginKeepsSafe(s, scope);
    case EndCall(fiber, scope) => EndCallKeepsSafe(s, fiber, scope);
    case BindCall(fiber, scope, handle) => CallKeepsSafe(s, fiber, Binding(scope, handle, s.window));
    case RegisterCall(fiber, scope, pid, digest) =>
      CallKeepsSafe(s, fiber, Registering(scope, pid, digest, Awaited(s.window, scope), s.nextToken));
    case Resume(fiber) =>
      if fiber in s.pending {
        match s.pending[fiber]
        case Ending(_, _) => EndingKeepsSafe(s, fiber);
        case Settling(_) => SettlingKeepsSafe(s, fiber);
        case Binding(_, _, _) => BindingKeepsSafe(s, fiber);
        case Registering(_, _, _, _, _) => RegisteringKeepsSafe(s, fiber);
      }
    case Forget(scope, handle) => ForgetKeepsSafe(s, scope, handle);
  }

  // ----- Every run

  /** No end of a scope is called while another end of that scope is about to close the same window. */
  ghost predicate Disciplined(s: State, actions: seq<Action>) {
    actions == [] ||
    var front := actions[..|actions| - 1];
    Disciplined(s, front) && Separate(RunFrom(s, front), actions[|actions| - 1])
  }

  lemma {:induction false} RunKeepsSafe(s: State, actions: seq<Action>)
    requires Safe(s) && Disciplined(s, actions)
    ensures Safe(RunFrom(s, actions))
  {
    if actions != [] {
      var front := actions[..|actions| - 1];
      RunKeepsSafe(s, front);
      StepKeepsSafe(RunFrom(s, front), actions[|actions| - 1]);
    }
  }

  /** Over all interleavings in which ends of a scope do not overlap, every reachable state is safe. */
  lemma {:induction false} EveryRunIsSafe(actions: seq<Action>)
    requires Disciplined(INITIAL, actions)
    ensures Safe(Run(actions))
  {
    RunKeepsSafe(INITIAL, actions);
  }

  /** Each scope is ended at most once, which is more than is needed. */
  ghost predicate EndsOnce(actions: seq<Action>) {
    forall i, j :: 0 <= i < j < |actions| && actions[i].EndCall? && actions[j].EndCall? ==>
                     actions[i].scope != actions[j].scope
  }

  lemma {:induction false} PendingEnds(actions: seq<Action>, fiber: Fiber)
    ensures var s := Run(actions);
            fiber in s.pending && s.pending[fiber].Ending? ==>
              exists i :: 0 <= i < |actions| && actions[i].EndCall? && actions[i].scope == s.pending[fiber].scope
  {
    if actions != [] {
      var front, last := actions[..|actions| - 1], actions[|actions| - 1];
      PendingEnds(front, fiber);
      assert forall i :: 0 <= i < |front| ==> front[i] == actions[i];
      assert last == actions[|actions| - 1];
    }
  }

  /** Ending every scope at most once is one way of keeping the ends apart. */
  lemma {:induction false} EndingOnceIsDisciplined(actions: seq<Action>)
    requires EndsOnce(actions)
    ensures Disciplined(INITIAL, actions)
  {
    if actions != [] {
      var front, last := actions[..|actions| - 1], actions[|actions| - 1];
      assert forall i :: 0 <= i < |front| ==> front[i] == actions[i];
      EndingOnceIsDisciplined(front);
      if last.EndCall? && Overlaps(Run(front), last.scope) {
        var f :| f in Run(front).pending && Run(front).pending[f] == Ending(last.scope, Run(front).window);
        PendingEnds(front, f);
        assert false;
      }
    }
  }

  /** A registration that found its scope spawning does nothing until that very window has been closed and settled. */
  lemma {:induction false} RegistrationWaits(actions: seq<Action>, fiber: Fiber)
    requires Disciplined(INITIAL, actions)
    requires var s := Run(actions); fiber in s.pending && s.pending[fiber].Registering? && s.pending[fiber].awaits.Some?
    ensures var s := Run(actions);
            Apply(s, Resume(fiber)) != s ==>
              s.pending[fiber].awaits.value in s.settled &&
                s.window != Spawning(s.pending[fiber].scope, s.pending[fiber].awaits.value)
  {
    EveryRunIsSafe(actions);
  }

  /** Windows that no end of their own scope has closed: there is at most one. */
  ghost predicate OneWindow(history: seq<Event>) {
    forall a, i, b, j :: OpenWindow(history, a, i) && OpenWindow(history, b, j) ==> a == b && i == j
  }

  lemma SafeShowsTheWindow(s: State)
    requires Safe(s)
    ensures forall scope, token :: OpenWindow(s.history, scope, token) <==> s.window == Spawning(scope, token)
    ensures OneWindow(s.history)
  {
    forall scope, token ensures OpenWindow(s.history, scope, token) <==> s.window == Spawning(scope, token) {
      if Opened(scope, token) in s.history {
        assert EventOk(s, Opened(scope, token));
      }
      if Closed(scope, Spawning(scope, token)) in s.history {
        assert EventOk(s, Closed(scope, Spawning(scope, token)));
      }
    }
  }

  /**
   At any moment at most one window is open, it is the one the state shows, and every window that is no
   longer open was closed by an end of its own scope.
   */
  lemma {:induction false} AtMostOneWindow(actions: seq<Action>)
    requires Disciplined(INITIAL, actions)
    ensures var s := Run(actions);
            && OneWindow(s.history)
            && (forall scope, token :: OpenWindow(s.history, scope, token) <==> s.window == Spawning(scope, token))
            && (forall e :: e in s.history && e.Closed? ==> e.shut.Spawning? && e.shut.scope == e.scope)
            && (forall e :: e in s.history && e.Opened? && s.window != Spawning(e.scope, e.token) ==>
                  Closed(e.scope, Spawning(e.scope, e.token)) in s.history && e.scope in s.ended)
  {
    EveryRunIsSafe(actions);
    SafeShowsTheWindow(Run(actions));
    forall e | e in Run(actions).history
      ensures EventOk(Run(actions), e) && (e.Closed? ==> e.scope in Run(actions).ended)
    {
      ClosedWasEnded(actions, e);
    }
  }

  lemma {:induction false} PendingWasEnded(actions: seq<Action>, fiber: Fiber)
    ensures var s := Run(actions); fiber in s.pending && s.pending[fiber].Ending? ==> s.pending[fiber].scope in s.ended
  {
    if actions != [] {
      PendingWasEnded(actions[..|actions| - 1], fiber);
    }
  }

  lemma {:induction false} ClosedWasEnded(actions: seq<Action>, e: Event)
    ensures var s := Run(actions); e in s.history && e.Closed? ==> e.scope in s.ended
  {
    if actions != [] {
      var front, last := actions[..|actions| - 1], actions[|actions| - 1];
      ClosedWasEnded(front, e);
      if last.Resume? {
        PendingWasEnded(front, last.fiber);
      }
    }
  }

  /**
   Whoever reads digests holds the very handle bound last, and every digest it reads was registered
   under that binding with that handle's process id.
   */
  lemma {:induction false} OnlyTheBoundHandleReads(actions: seq<Action>, scope: Scope, handle: Handle)
    requires Disciplined(INITIAL, actions)
    ensures var s := Run(actions);
            DigestsFor(s, scope, handle).Some? ==>
              exists i: nat :: BoundAt(s.history, i, scope, handle) &&
                forall d :: d in DigestsFor(s, scope, handle).value ==> Justified(s.history, i, scope, handle, d)
    ensures forall other :: DigestsFor(Run(actions), scope, handle).Some? && other != handle ==>
              DigestsFor(Run(actions), scope, other).None? && Apply(Run(actions), Forget(scope, other)) == Run(actions)
  {
    EveryRunIsSafe(actions);
    assert OwnedOk(Run(actions), scope);
  }

  // ----- The discipline is exactly what is needed

  /** Two ends of one scope that both saw its window, resumed with two openings after each of them. */
  function Overlapping(first: Fiber, second: Fiber, b: Scope, c: Scope): seq<Action> {
    [Resume(first)] + [Begin(b)] + [Resume(second)] + [Begin(c)]
  }

  lemma {:induction false} RunFromSnoc(s: State, actions: seq<Action>, a: Action)
    ensures RunFrom(s, actions + [a]) == Apply(RunFrom(s, actions), a)
    ensures Disciplined(s, actions) && Separate(RunFrom(s, actions), a) ==> Disciplined(s, actions + [a])
  {
    assert (actions + [a])[..|actions + [a]| - 1] == actions;
  }

  lemma {:induction false} OverlappingRun(s: State, first: Fiber, second: Fiber, b: Scope, c: Scope)
    ensures var s3 := Apply(Apply(Apply(s, Resume(first)), Begin(b)), Resume(second));
            RunFrom(s, Overlapping(first, second, b, c)) == Apply(s3, Begin(c))
    ensures Disciplined(s, Overlapping(first, second, b, c))
  {
    AppendEmpty([Resume(first)]);
    RunFromSnoc(s, [], Resume(first));
    RunFromSnoc(s, [Resume(first)], Begin(b));
    RunFromSnoc(s, [Resume(first)] + [Begin(b)], Resume(second));
    RunFromSnoc(s, [Resume(first)] + [Begin(b)] + [Resume(second)], Begin(c));
  }

  /** Ends of `scope` in two fibers that saw the open window let two other windows be open at once. */
  lemma {:induction false} OverlapOpensTwo(s: State, scope: Scope, first: Fiber, second: Fiber, b: Scope, c: Scope)
    requires first != second && first in s.pending && second in s.pending && s.window.Spawning?
    requires s.window.scope == scope && s.pending[first] == s.pending[second] == Ending(scope, s.window)
    requires b != scope && c != scope
    requires forall e :: e in s.history ==> !(e.Closed? && e.shut.Spawning? && e.shut.token >= s.nextToken)
    ensures var h := RunFrom(s, Overlapping(first, second, b, c)).history;
            OpenWindow(h, b, s.nextToken) && OpenWindow(h, c, s.nextToken + 1)
  {
    OverlappingRun(s, first, second, b, c);
    var s1 := Apply(s, Resume(first));
    var s2 := Apply(s1, Begin(b));
    var s3 := Apply(s2, Resume(second));
    var s4 := Apply(s3, Begin(c));
    assert s1.window == Idle && s1.history == s.history + [Closed(scope, s.window)];
    assert s2.window == Spawning(b, s.nextToken) && s2.history == s1.history + [Opened(b, s.nextToken)];
    assert s3.window == Idle && s3.history == s2.history + [Closed(scope, s2.window)];
    assert s4.history == s3.history + [Opened(c, s.nextToken + 1)];
  }

  /**
   Exactly when a call of `end` is safe: in every disciplined continuation at most one window is open if
   and only if no other end of the scope is about to close the window the call finds.
   */
  lemma {:induction false} EndIsSafeIff(actions: seq<Action>, fiber: Fiber, scope: Scope)
    requires Disciplined(INITIAL, actions) && fiber !in Run(actions).pending
    ensures var s := Run(actions);
            !Overlaps(s, scope) <==>
            forall more :: Disciplined(EndStep(s, fiber, scope), more) ==>
                             OneWindow(RunFrom(EndStep(s, fiber, scope), more).history)
  {
    var s, t := Run(actions), EndStep(Run(actions), fiber, scope);
    EveryRunIsSafe(actions);
    if !Overlaps(s, scope) {
      EndCallKeepsSafe(s, fiber, scope);
      forall more | Disciplined(t, more) ensures OneWindow(RunFrom(t, more).history) {
        RunKeepsSafe(t, more);
        SafeShowsTheWindow(RunFrom(t, more));
      }
    } else {
      var f :| f in s.pending && s.pending[f] == Ending(scope, s.window);
      var b, c := scope + "1", scope + "2";
      forall e | e in t.history ensures !(e.Closed? && e.shut.Spawning? && e.shut.token >= t.nextToken) {
        assert EventOk(s, e);
      }
      OverlapOpensTwo(t, scope, f, fiber, b, c);
      OverlappingRun(t, f, fiber, b, c);
      assert !OneWindow(RunFrom(t, Overlapping(f, fiber, b, c)).history);
    }
  }

  /** A run from the start: two overlapping ends of one scope, and the window of another scope is lost. */
  lemma OverlappingEndsLoseAWindow(a: Scope, b: Scope)
    requires a != b
    ensures var twice := Apply(Apply(Apply(INITIAL, Begin(a)), EndCall(0, a)), EndCall(1, a));
            var open := Apply(Apply(twice, Resume(0)), Begin(b));
            var lost := Apply(open, Resume(1));
            && open.window == Spawning(b, 1) && b !in lost.ended && lost.window == Idle
            && OpenWindow(lost.history, b, 1)
  {
    var twice := Apply(Apply(Apply(INITIAL, Begin(a)), EndCall(0, a)), EndCall(1, a));
    assert twice.window == Spawning(a, 0) && twice.nextToken == 1 && twice.ended == {a} && twice.settled == {};
    assert twice.pending[0] == Ending(a, Spawning(a, 0)) && twice.pending[1] == Ending(a, Spawning(a, 0));
    var open := Apply(Apply(twice, Resume(0)), Begin(b));
    assert open.window == Spawning(b, 1) && open.pending[1] == Ending(a, Spawning(a, 0));
    assert open.history == [Opened(a, 0), Closed(a, Spawning(a, 0)), Opened(b, 1)];
  }
}
