/**
 What every run of the observer accounts for: awaited parent events, generations since the counters were
 cleared, and the errors that stand for everything it could not keep.
 */
module ObserverAccounting {
  import opened Common
  import opened InotifyCodec
  import opened ObservedInputs
  import opened WatchBook
  import opened Observer
  import opened ObserverTracking

  // ----- The account kept by the log of actions

  /** Installs that a watch's removal drove, less the parent events matched to them. */
  function Balance<P(==)>(actions: seq<Action<P>>, path: P): int {
    if actions == [] then 0
    else
      var before, last := Balance(actions[..|actions| - 1], path), actions[|actions| - 1];
      if last == Reinstalled(path) then before + 1 else if last == Cancelled(path) then before - 1 else before
  }

  /** Installs since the counters were last cleared. */
  function Generations<P(==)>(actions: seq<Action<P>>, path: P): nat {
    if actions == [] then 0
    else
      var before, last := Generations(actions[..|actions| - 1], path), actions[|actions| - 1];
      if last.CountersCleared? then 0
      else if last == Reinstalled(path) || last == ParentInstalled(path) then before + 1
      else before
  }

  lemma Logged<P>(actions: seq<Action<P>>, last: Action<P>)
    ensures (actions + [last])[..|actions + [last]| - 1] == actions &&
            (actions + [last])[|actions + [last]| - 1] == last
  {
  }

  lemma {:induction false} LoggedTallies<P>(actions: seq<Action<P>>, last: Action<P>, path: P)
    ensures Balance(actions + [last], path) == Balance(actions, path) +
            (if last == Reinstalled(path) then 1 else if last == Cancelled(path) then -1 else 0)
    ensures Generations(actions + [last], path) ==
            if last.CountersCleared? then 0
            else Generations(actions, path) + (if last == Reinstalled(path) || last == ParentInstalled(path) then 1
              else 0)
  {
    Logged(actions, last);
  }

  // ----- The invariant of one path

  ghost predicate NeverZero<P>(due: Due<P>, path: P) {
    path in due.awaitingParents ==> due.awaitingParents[path] > 0
  }

  ghost predicate Accounted<P>(due: Due<P>, actions: seq<Action<P>>, path: P) {
    && NeverZero(due, path)
    && Count(due.awaitingParents, path) == Balance(actions, path)
    && Count(due.replacementCounts, path) == Generations(actions, path)
  }

  /** Without an error, no watched path has been dropped and no second generation has been installed. */
  ghost predicate Clean<P>(b: Book<P>, due: Due<P>, r: Report<P>, path: P) {
    && (r.crashed ==> r.errors > 0)
    && (r.errors == 0 ==> (path in b.everWatched ==> path in b.watchedPaths) && Count(due.replacementCounts, path) <= 1)
  }

  ghost predicate Kept<P>(s: Obs<P>, path: P) {
    Accounted(s.due, s.actions, path) && Clean(s.book, s.due, s.report, path)
  }

  /** What no step takes back. */
  ghost predicate Continues<P>(s: Obs<P>, t: Obs<P>) {
    && s.config.swappable == t.config.swappable
    && s.report.errors <= t.report.errors
    && s.report.dirtySent <= t.report.dirtySent
    && (s.report.crashed ==> t.report.crashed)
    && (t.report.crashed ==> s.report.crashed || s.report.errors < t.report.errors)
    && s.actions <= t.actions
    && s.book.everWatched <= t.book.everWatched
    && (s.book.kernelFault ==> t.book.kernelFault)
  }

  // ----- One path of a removed watch

  lemma InstallKeepsAccount<P>(due: Due<P>, q: P, answer: Answer, path: P)
    ensures var d := CountInstall(due, q, answer);
            && d.awaitingParents == due.awaitingParents
            && Count(d.replacementCounts, path) ==
               Count(due.replacementCounts, path) + (if q == path && answer.Installed? then 1 else 0)
  {
  }

  lemma RemovedPathAccount<P>(due: Due<P>, actions: seq<Action<P>>, v: RemovalVerdict, wd: Wd, q: P, answer: Answer,
                              path: P)
    requires Accounted(due, actions, path)
    ensures Accounted(DueAfterRemoval(due, v, wd, q, answer), actions + RemovalActions(v, q, answer), path)
    ensures Count(DueAfterRemoval(due, v, wd, q, answer).replacementCounts, path) ==
            Count(due.replacementCounts, path) + (if v.Reinstalls? && q == path && answer.Installed? then 1 else 0)
  {
    AppendEmpty(actions);
    if v.Reinstalls? {
      InstallKeepsAccount(ForgetMove(due, wd, q), q, answer, path);
      LoggedTallies(actions, if answer.Installed? then Reinstalled(q) else ReinstallFailed(q), path);
    }
  }

  lemma RemovedPathIsKept<P>(s: Obs<P>, wd: Wd, q: P, answer: Answer, path: P)
    requires Kept(s, path)
    ensures Kept(RemovePath(s, wd, q, answer), path) && Continues(s, RemovePath(s, wd, q, answer))
  {
    var v := JudgeRemoval(s.book, s.config.swappable, wd, q);
    RemovedPathAccount(s.due, s.actions, v, wd, q, answer, path);
  }

  lemma {:induction false} RemovedPathsAreKept<P>(s: Obs<P>, wd: Wd, order: seq<P>, answer: P -> Answer, path: P)
    requires Kept(s, path)
    ensures Kept(RemovePaths(s, wd, order, answer), path) && Continues(s, RemovePaths(s, wd, order, answer))
    decreases |order|
  {
    if order != [] {
      RemovedPathIsKept(s, wd, order[0], answer(order[0]), path);
      RemovedPathsAreKept(RemovePath(s, wd, order[0], answer(order[0])), wd, order[1..], answer, path);
    }
  }

  // ----- One path of a watch that reports an event

  lemma NoticedPathAccount<P>(due: Due<P>, actions: seq<Action<P>>, v: Verdict, active: map<P, Wd>, q: P, m: Mask,
                              answer: Answer, path: P)
    requires Accounted(due, actions, path) && (v.CancelsAwaited? ==> Count(due.awaitingParents, q) > 0)
    ensures Accounted(DueAfterNotice(due, v, active, q, m, answer), actions + NoticeActions(v, q, answer), path)
    ensures Count(DueAfterNotice(due, v, active, q, m, answer).replacementCounts, path) ==
            Count(due.replacementCounts, path) + (if v.Installs? && q == path && answer.Installed? then 1 else 0)
  {
    AppendEmpty(actions);
    if v.CancelsAwaited? {
      LoggedTallies(actions, Cancelled(q), path);
    } else if v.Installs? {
      InstallKeepsAccount(due, q, answer, path);
      LoggedTallies(actions, if answer.Installed? then ParentInstalled(q) else ParentInstallFailed(q), path);
    }
  }

  lemma NoticedPathIsKept<P>(s: Obs<P>, wd: Wd, q: P, name: Name, m: Mask, answer: Answer, path: P)
    requires Kept(s, path)
    ensures Kept(Notice(s, wd, q, name, m, answer), path) && Continues(s, Notice(s, wd, q, name, m, answer))
  {
    var v := Judge(s, wd, q, name, m);
    NoticedPathAccount(s.due, s.actions, v, BookAfterNotice(s.book, v, q, answer).active, q, m, answer, path);
  }

  lemma FailureIsKept<P>(s: Obs<P>, path: P)
    requires Kept(s, path)
    ensures Kept(Error(s), path) && Continues(s, Error(s))
    ensures Kept(Crash(s), path) && Continues(s, Crash(s))
  {
  }

  lemma ContinuesOn<P>(s: Obs<P>, t: Obs<P>, u: Obs<P>)
    requires Continues(s, t) && Continues(t, u)
    ensures Continues(s, u)
  {
  }

  lemma {:induction false} NoticeAllIsKept<P>(
    s: Obs<P>, wd: Wd, order: seq<P>, name: Name, m: Mask, answer: P -> Answer, path: P)
    requires Kept(s, path)
    ensures Kept(NoticeAll(s, wd, order, name, m, answer), path) &&
            Continues(s, NoticeAll(s, wd, order, name, m, answer))
    decreases |order|
  {
    if order != [] {
      var q := s.config.join(order[0], name);
      var t := Notice(s, wd, q, name, m, answer(q));
      NoticedPathIsKept(s, wd, q, name, m, answer(q), path);
      FailureIsKept(t, path);
      NoticeAllIsKept(t, wd, order[1..], name, m, answer, path);
      ContinuesOn(s, t, Crash(t));
      ContinuesOn(s, t, NoticeAll(t, wd, order[1..], name, m, answer));
      NoticeAllUnfolds(s, wd, order, name, m, answer);
    }
  }

  // ----- Events, drains, commands, runs

  lemma UnhookedIsKept<P>(s: Obs<P>, wd: Wd, path: P)
    requires Kept(s, path)
    ensures Kept(Unhooked(s, wd), path) && Continues(s, Unhooked(s, wd))
  {
  }

  lemma HandleIsKept<P>(s: Obs<P>, e: WatchEvent, env: Env<P>, path: P)
    requires Kept(s, path)
    ensures Kept(Handle(s, e, env), path) && Continues(s, Handle(s, e, env))
  {
    NoticeAllIsKept(s, e.wd, env.order, e.name, Bits(e.mask), env.answer, path);
    FailureIsKept(s, path);
    UnhookedIsKept(s, e.wd, path);
    RemovedPathsAreKept(Unhooked(s, e.wd), e.wd, env.order, env.answer, path);
    ContinuesOn(s, Unhooked(s, e.wd), RemovePaths(Unhooked(s, e.wd), e.wd, env.order, env.answer));
    HandleUnfolds(s, e, env);
  }

  lemma {:induction false} HandleAllIsKept<P>(s: Obs<P>, events: Events<P>, path: P)
    requires Kept(s, path)
    ensures Kept(HandleAll(s, events), path) && Continues(s, HandleAll(s, events))
  {
    if events != [] {
      var init, last := events[..|events| - 1], events[|events| - 1];
      HandleAllIsKept(s, init, path);
      HandleIsKept(HandleAll(s, init), last.0, last.1, path);
      ContinuesOn(s, HandleAll(s, init), HandleAll(s, events));
    }
  }

  lemma DrainIsKept<P>(s: Obs<P>, events: Events<P>, whole: bool, validate: bool, path: P)
    requires Kept(s, path)
    ensures Kept(Drain(s, events, whole, validate), path) && Continues(s, Drain(s, events, whole, validate))
  {
    HandleAllIsKept(BeginDrain(s), events, path);
  }

  lemma {:induction false} WatchAllIsKept<P>(s: Obs<P>, watched: Watches<P>, path: P)
    requires Kept(s, path)
    ensures Kept(WatchAll(s, watched), path) && Continues(s, WatchAll(s, watched))
  {
    if watched != [] {
      WatchAllIsKept(s, watched[..|watched| - 1], path);
    }
  }

  lemma ClearingIsKept<P>(s: Obs<P>, path: P)
    requires Kept(s, path)
    ensures Kept(ClearCounters(s), path) && Continues(s, ClearCounters(s))
  {
    LoggedTallies(s.actions, CountersCleared, path);
  }

  lemma StepIsKept<P>(s: Obs<P>, input: Input<P>, path: P)
    requires Kept(s, path)
    ensures Kept(Step(s, input), path) && Continues(s, Step(s, input))
  {
    match input
    case Background(events, whole) => DrainIsKept(s, events, whole, false, path);
    case DrainCommand(events, whole) =>
      DrainIsKept(s, events, whole, true, path);
      ClearingIsKept(Drain(s, events, whole, true), path);
    case ProtectCommand(invalidates, watched, events, whole) =>
      WatchAllIsKept(Obs(Rules(s.config.swappable, invalidates, s.config.join), s.book, s.due, s.report, s.actions),
        watched, path);
      DrainIsKept(Protect(s, invalidates, watched), events, whole, true, path);
  }

  lemma {:induction false} RunIsKept<P>(config: Rules<P>, inputs: seq<Input<P>>, path: P)
    ensures Kept(Run(config, inputs), path) && Run(config, inputs).config.swappable == config.swappable
  {
    if inputs != [] {
      RunIsKept(config, inputs[..|inputs| - 1], path);
      StepIsKept(Run(config, inputs[..|inputs| - 1]), inputs[|inputs| - 1], path);
    }
  }

  // ----- Main results

  /** The path's active descriptor is live, stands for it and is not obsolete for it. */
  ghost predicate HasLiveWatch<P>(b: Book<P>, path: P) {
    && path in b.active
    && b.active[path] in b.watches
    && path in b.watches[b.active[path]]
    && path !in At(b.obsolete, b.active[path])
  }

  /**
   In every run without an error, every replaceable path ever watched has a live watch, unless the kernel
   answered some request with a descriptor already obsolete for the path it was asked to watch.
   */
  lemma {:induction false} ReplaceablePathsStayWatched<P>(config: Rules<P>, inputs: seq<Input<P>>, path: P)
    requires HonestRun(config, inputs)
    ensures var s := Run(config, inputs);
            s.report.errors == 0 && !s.book.kernelFault && path in s.book.everWatched && path in config.swappable
            ==> HasLiveWatch(s.book, path)
  {
    RunIsHeard(config, inputs);
    RunIsKept(config, inputs, path);
  }

  /**
   The awaited parent events of a path are the installs driven by removals of its watch less the parent
   events matched to them; an entry of zero is never stored.
   */
  lemma {:induction false} AwaitedIsTheBalance<P>(config: Rules<P>, inputs: seq<Input<P>>, path: P)
    ensures var s := Run(config, inputs);
            && Count(s.due.awaitingParents, path) == Balance(s.actions, path)
            && (path in s.due.awaitingParents <==> Balance(s.actions, path) > 0)
  {
    RunIsKept(config, inputs, path);
  }

  /** At most one generation since the counters were cleared, in every run without an error. */
  lemma {:induction false} OneGenerationBetweenClears<P>(config: Rules<P>, inputs: seq<Input<P>>, path: P)
    ensures var s := Run(config, inputs);
            && Count(s.due.replacementCounts, path) == Generations(s.actions, path)
            && (s.report.errors == 0 ==> Generations(s.actions, path) <= 1)
  {
    RunIsKept(config, inputs, path);
  }

  /** A parent's create or move event on a replaceable path cancels one awaited install or makes one attempt. */
  lemma ArrivalIsAnsweredOnce<P>(s: Obs<P>, wd: Wd, path: P, name: Name, m: Mask, answer: Answer)
    requires path in s.config.swappable && path !in At(s.book.obsolete, wd)
    requires name != [] && IsArrival(m) && !IsWrite(m)
    ensures Notice(s, wd, path, name, m, answer).actions == s.actions +
            [if Count(s.due.awaitingParents, path) > 0 then Cancelled(path)
             else if answer.Installed? then ParentInstalled(path)
             else ParentInstallFailed(path)]
  {
  }

  /** Conversely, only such an event, or the removal of the active watch, does anything of the kind. */
  lemma NothingElseInstalls<P>(s: Obs<P>, wd: Wd, path: P, name: Name, m: Mask, answer: Answer)
    ensures Notice(s, wd, path, name, m, answer).actions != s.actions ==>
              && path in s.config.swappable && path !in At(s.book.obsolete, wd)
              && name != [] && IsArrival(m) && !IsWrite(m)
    ensures RemovePath(s, wd, path, answer).actions != s.actions ==>
              && path in s.config.swappable && path !in At(s.book.obsolete, wd)
              && path in s.book.active && s.book.active[path] == wd
              && RemovePath(s, wd, path, answer).actions ==
                 s.actions + [if answer.Installed? then Reinstalled(path) else ReinstallFailed(path)]
  {
    AppendEmpty(s.actions);
  }

  /** A validation drain that sends no error leaves nothing unresolved and expects no arrival move. */
  lemma ValidationSettles<P>(s: Obs<P>, events: Events<P>, whole: bool, path: P)
    requires Kept(s, path) && !s.report.crashed
    ensures var t := Drain(s, events, whole, true);
            t.report.errors == s.report.errors ==> t.due.unresolved == map[] && t.due.expectedMoves == map[]
  {
    HandleAllIsKept(BeginDrain(s), events, path);
    var u := HandleAll(BeginDrain(s), events);
    assert |u.due.unresolved| == 0 ==> u.due.unresolved == map[];
  }

  /** In a run: after such a drain, moreover, at most one generation was installed since the last clearing. */
  lemma {:induction false} ValidatedRun<P>(config: Rules<P>, inputs: seq<Input<P>>, events: Events<P>, whole: bool,
                                           path: P)
    ensures var t := Drain(Run(config, inputs), events, whole, true);
            t.report.errors == 0 ==>
              t.due.unresolved == map[] && t.due.expectedMoves == map[] && Generations(t.actions, path) <= 1
  {
    var s := Run(config, inputs);
    RunIsKept(config, inputs, path);
    DrainIsKept(s, events, whole, true, path);
    if !s.report.crashed {
      ValidationSettles(s, events, whole, path);
    }
  }
}
