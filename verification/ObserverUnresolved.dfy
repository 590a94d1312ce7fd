/**
 What becomes of events on replaceable inputs: a write at the watched file is reported, and anything else is
 explained by an arrival, answered by a new generation, or reported at the next validation.
 */
module ObserverUnresolved {
  import opened InotifyCodec
  import opened ObservedInputs
  import opened WatchBook
  import opened Observer
  import opened ObserverTracking
  import opened ObserverAccounting
  import opened ObserverReports

  // ----- Writes

  lemma {:induction false} HonestPrefix<P>(s: Obs<P>, events: Events<P>, k: nat)
    requires Honest(s, events) && k <= |events|
    ensures Honest(s, events[..k])
  {
    if k == |events| {
      assert events[..k] == events;
    } else {
      HonestPrefix(s, events[..|events| - 1], k);
      assert events[..|events| - 1][..k] == events[..k];
    }
  }

  /** A write that the watch of a replaceable input reports about the input itself. */
  ghost predicate WritesWatched(u: Obs<Path>, e: WatchEvent, path: Path) {
    && path in u.config.swappable && path in u.book.watchedPaths
    && path in u.book.active && e.wd == u.book.active[path] && e.name == []
    && Ordinary(Bits(e.mask)) && IsWrite(Bits(e.mask))
  }

  lemma WatchedWriteTouches(c: Config, u: Obs<Path>, e: WatchEvent, path: Path)
    requires ValidConfig(c) && u.config == RulesFor(c) && path !in c.transientCoordination
    requires Heard(u) && !u.book.kernelFault && WritesWatched(u, e, path)
    ensures TouchesInput(c, u, e, path)
  {
    GuardedIsDeclared(c, path);
    assert Join(path, []) == path;
  }

  /**
   In every honest run in which the kernel has not answered with an obsolete descriptor, a write at the active
   watch of a replaceable input makes the drain send dirty or an error.
   */
  lemma {:induction false} WatchedWriteIsReported(
    c: Config, rules: Rules<Path>, inputs: seq<Input<Path>>, events: Events<Path>, whole: bool, validate: bool, k: nat,
    path: Path)
    requires HonestRun(rules, inputs) && ValidConfig(c) && path !in c.transientCoordination
    requires var s := Run(rules, inputs);
             && s.config == RulesFor(c) && !s.report.crashed && Honest(BeginDrain(s), events) && k < |events|
             && var u := HandleAll(BeginDrain(s), events[..k]);
                !u.book.kernelFault && WritesWatched(u, events[k].0, path)
    ensures Reported(Run(rules, inputs), Drain(Run(rules, inputs), events, whole, validate))
  {
    var s := Run(rules, inputs);
    RunIsHeard(rules, inputs);
    HonestPrefix(BeginDrain(s), events, k);
    HandleAllIsHeard(BeginDrain(s), events[..k]);
    HandleAllKeepsReports(BeginDrain(s), events[..k]);
    WatchedWriteTouches(c, HandleAll(BeginDrain(s), events[..k]), events[k].0, path);
    TouchedInputIsReported(c, s, events, whole, validate, k, path);
  }

  // ----- Unresolved events are answered

  ghost predicate IsInstall<P>(a: Action<P>, path: P) {
    a == Reinstalled(path) || a == ParentInstalled(path)
  }

  ghost predicate InstalledSince<P>(s: Obs<P>, t: Obs<P>, path: P) {
    exists i :: |s.actions| <= i < |t.actions| && IsInstall(t.actions[i], path)
  }

  /** What is unresolved stays so until a new generation is installed. */
  ghost predicate Answers<P>(s: Obs<P>, t: Obs<P>, path: P) {
    s.actions <= t.actions && (path in s.due.unresolved ==> path in t.due.unresolved || InstalledSince(s, t, path))
  }

  lemma InstalledLater<P>(s: Obs<P>, t: Obs<P>, u: Obs<P>, path: P)
    requires s.actions <= t.actions <= u.actions
    ensures InstalledSince(s, t, path) || InstalledSince(t, u, path) ==> InstalledSince(s, u, path)
  {
    if InstalledSince(s, t, path) {
      var i :| |s.actions| <= i < |t.actions| && IsInstall(t.actions[i], path);
      assert IsInstall(u.actions[i], path);
    }
  }

  lemma AnswersOn<P>(s: Obs<P>, t: Obs<P>, u: Obs<P>, path: P)
    requires Answers(s, t, path) && Answers(t, u, path)
    ensures Answers(s, u, path)
  {
    InstalledLater(s, t, u, path);
  }

  lemma SameAnswers<P>(s: Obs<P>, t: Obs<P>, path: P)
    requires t.actions == s.actions && (path in s.due.unresolved ==> path in t.due.unresolved)
    ensures Answers(s, t, path)
  {
  }

  lemma LoggedInstall<P>(s: Obs<P>, t: Obs<P>, a: Action<P>, path: P)
    requires t.actions == s.actions + [a] && IsInstall(a, path)
    ensures InstalledSince(s, t, path)
  {
    assert IsInstall(t.actions[|s.actions|], path);
  }

  lemma RemovedPathAnswers<P>(s: Obs<P>, wd: Wd, q: P, answer: Answer, path: P)
    ensures Answers(s, RemovePath(s, wd, q, answer), path)
  {
    var t := RemovePath(s, wd, q, answer);
    if JudgeRemoval(s.book, s.config.swappable, wd, q).Reinstalls? && answer.Installed? && q == path {
      LoggedInstall(s, t, Reinstalled(q), path);
    }
  }

  lemma {:induction false} RemovedPathsAnswer<P>(s: Obs<P>, wd: Wd, order: seq<P>, answer: P -> Answer, path: P)
    ensures Answers(s, RemovePaths(s, wd, order, answer), path)
    decreases |order|
  {
    if order != [] {
      var t := RemovePath(s, wd, order[0], answer(order[0]));
      RemovedPathAnswers(s, wd, order[0], answer(order[0]), path);
      RemovedPathsAnswer(t, wd, order[1..], answer, path);
      AnswersOn(s, t, RemovePaths(s, wd, order, answer), path);
    }
  }

  lemma NoticeAnswers<P>(s: Obs<P>, wd: Wd, q: P, name: Name, m: Mask, answer: Answer, path: P)
    ensures var t := Notice(s, wd, q, name, m, answer); Answers(s, t, path) && Answers(s, Crash(t), path)
  {
    var t := Notice(s, wd, q, name, m, answer);
    if Judge(s, wd, q, name, m).Installs? && answer.Installed? && q == path {
      LoggedInstall(s, t, ParentInstalled(q), path);
    }
    SameAnswers(t, Crash(t), path);
    AnswersOn(s, t, Crash(t), path);
  }

  lemma {:induction false} NoticeAllAnswers<P>(
    s: Obs<P>, wd: Wd, order: seq<P>, name: Name, m: Mask, answer: P -> Answer, path: P)
    ensures Answers(s, NoticeAll(s, wd, order, name, m, answer), path)
    decreases |order|
  {
    if order != [] {
      var q := s.config.join(order[0], name);
      var t := Notice(s, wd, q, name, m, answer(q));
      NoticeAnswers(s, wd, q, name, m, answer(q), path);
      NoticeAllAnswers(t, wd, order[1..], name, m, answer, path);
      AnswersOn(s, t, NoticeAll(t, wd, order[1..], name, m, answer), path);
      NoticeAllUnfolds(s, wd, order, name, m, answer);
    }
  }

  lemma HandleAnswers<P>(s: Obs<P>, e: WatchEvent, env: Env<P>, path: P)
    ensures Answers(s, Handle(s, e, env), path)
  {
    SameAnswers(s, Error(s), path);
    SameAnswers(s, Crash(s), path);
    SameAnswers(s, Unhooked(s, e.wd), path);
    RemovedPathsAnswer(Unhooked(s, e.wd), e.wd, env.order, env.answer, path);
    AnswersOn(s, Unhooked(s, e.wd), RemovePaths(Unhooked(s, e.wd), e.wd, env.order, env.answer), path);
    NoticeAllAnswers(s, e.wd, env.order, e.name, Bits(e.mask), env.answer, path);
    HandleUnfolds(s, e, env);
  }

  lemma {:induction false} HandleAllAnswers<P>(s: Obs<P>, events: Events<P>, k: nat, path: P)
    requires k <= |events|
    ensures Answers(HandleAll(s, events[..k]), HandleAll(s, events), path)
  {
    if k == |events| {
      assert events[..k] == events;
    } else {
      var init, last := events[..|events| - 1], events[|events| - 1];
      assert init[..k] == events[..k];
      HandleAllAnswers(s, init, k, path);
      HandleAnswers(HandleAll(s, init), last.0, last.1, path);
      AnswersOn(HandleAll(s, events[..k]), HandleAll(s, init), HandleAll(s, events), path);
    }
  }

  // ----- An event on a replaceable input that is neither a write nor an arrival

  lemma UnresolvedIsNoted<P>(s: Obs<P>, wd: Wd, path: P, name: Name, m: Mask, answer: Answer)
    requires Judge(s, wd, path, name, m).Unresolved?
    ensures path in Notice(s, wd, path, name, m, answer).due.unresolved
  {
  }

  lemma StaysUnresolved<P>(s: Obs<P>, wd: Wd, q: P, name: Name, m: Mask, answer: Answer, path: P)
    requires Judge(s, wd, path, name, m).Unresolved? && q != path
    ensures Judge(Notice(s, wd, q, name, m, answer), wd, path, name, m).Unresolved?
  {
  }

  lemma {:induction false} EventIsAnswered<P>(
    s: Obs<P>, wd: Wd, order: seq<P>, name: Name, m: Mask, answer: P -> Answer, base: P)
    requires base in order && Judge(s, wd, s.config.join(base, name), name, m).Unresolved?
    ensures var path, r := s.config.join(base, name), NoticeAll(s, wd, order, name, m, answer);
            s.actions <= r.actions && (Alarmed(r) || path in r.due.unresolved || InstalledSince(s, r, path))
    decreases |order|
  {
    var path, q := s.config.join(base, name), s.config.join(order[0], name);
    var t, r := Notice(s, wd, q, name, m, answer(q)), NoticeAll(s, wd, order, name, m, answer);
    NoticeAnswers(s, wd, q, name, m, answer(q), path);
    if q == path {
      UnresolvedIsNoted(s, wd, path, name, m, answer(q));
      NoticeAllAnswers(t, wd, order[1..], name, m, answer, path);
      InstalledLater(s, t, NoticeAll(t, wd, order[1..], name, m, answer), path);
    } else if !Judge(s, wd, q, name, m).Dirties? && At(t.book.watches, wd) == At(s.book.watches, wd) {
      StaysUnresolved(s, wd, q, name, m, answer(q), path);
      EventIsAnswered(t, wd, order[1..], name, m, answer, base);
      InstalledLater(s, t, r, path);
    }
  }

  /** The paths of the event's watch include one that is replaceable, heard, and not explained by the event. */
  ghost predicate Unexplained<P>(u: Obs<P>, e: WatchEvent, base: P) {
    && Ordinary(Bits(e.mask)) && e.wd in u.book.watches && base in u.book.watches[e.wd]
    && Judge(u, e.wd, u.config.join(base, e.name), e.name, Bits(e.mask)).Unresolved?
  }

  lemma UnexplainedIsAnswered<P>(u: Obs<P>, e: WatchEvent, env: Env<P>, base: P)
    requires Unexplained(u, e, base) && Enumerates(env.order, At(u.book.watches, e.wd)) && !u.report.crashed
    ensures var path, r := u.config.join(base, e.name), Handle(u, e, env);
            u.actions <= r.actions && (Alarmed(r) || path in r.due.unresolved || InstalledSince(u, r, path))
  {
    EventIsAnswered(u, e.wd, env.order, e.name, Bits(e.mask), env.answer, base);
  }

  lemma {:induction false} ValidationReports<P>(s: Obs<P>, events: Events<P>, whole: bool, path: P)
    requires !s.report.crashed && path in HandleAll(BeginDrain(s), events).due.unresolved
    ensures Drain(s, events, whole, true).report.errors > s.report.errors
  {
    HandleAllKeepsReports(BeginDrain(s), events);
    var u := HandleAll(BeginDrain(s), events);
    assert |u.due.unresolved| > 0 by {
      assert path in u.due.unresolved.Keys;
    }
  }

  lemma {:induction false} DrainedActions<P>(s: Obs<P>, events: Events<P>, whole: bool, validate: bool)
    ensures Drain(s, events, whole, validate).actions == HandleAll(BeginDrain(s), events).actions
  {
  }

  /**
   In a validation drain, an event on a replaceable input that is neither a write, an expected move nor an
   arrival is followed by a new generation of that input, or the drain sends dirty or an error.
   */
  lemma {:induction false} UnexplainedEventIsAnswered<P>(s: Obs<P>, events: Events<P>, whole: bool, k: nat, base: P)
    requires !s.report.crashed && Honest(BeginDrain(s), events) && k < |events|
    requires var u := HandleAll(BeginDrain(s), events[..k]); !u.report.crashed && Unexplained(u, events[k].0, base)
    ensures var u, t := HandleAll(BeginDrain(s), events[..k]), Drain(s, events, whole, true);
            Reported(s, t) || InstalledSince(u, t, u.config.join(base, events[k].0.name))
  {
    var b := BeginDrain(s);
    var u, v, w := HandleAll(b, events[..k]), HandleAll(b, events[..k + 1]), HandleAll(b, events);
    var path := u.config.join(base, events[k].0.name);
    HonestAt(b, events, k);
    UnexplainedIsAnswered(u, events[k].0, events[k].1, base);
    HandledPrefix(b, events, k);
    HandleAllAnswers(b, events, k + 1, path);
    DrainedActions(s, events, whole, true);
    InstalledLater(u, v, w, path);
    if Alarmed(v) {
      AlarmIsReported(s, events, whole, true, k + 1);
    } else if path in w.due.unresolved {
      ValidationReports(s, events, whole, path);
    }
  }

  // ----- From one validation to the next

  lemma DrainAnswers<P>(s: Obs<P>, events: Events<P>, whole: bool, validate: bool, path: P)
    ensures Answers(s, Drain(s, events, whole, validate), path)
  {
    assert events[..0] == [];
    HandleAllAnswers(BeginDrain(s), events, 0, path);
    DrainedActions(s, events, whole, validate);
    SameAnswers(s, BeginDrain(s), path);
    SameAnswers(HandleAll(BeginDrain(s), events), Drain(s, events, whole, validate), path);
    AnswersOn(s, BeginDrain(s), HandleAll(BeginDrain(s), events), path);
    AnswersOn(s, HandleAll(BeginDrain(s), events), Drain(s, events, whole, validate), path);
  }

  /** By now the caller knows, or a new generation has been installed. */
  ghost predicate Settled<P>(s: Obs<P>, t: Obs<P>, path: P) {
    t.report.errors > s.report.errors || InstalledSince(s, t, path)
  }

  /** A validation drain answers what was unresolved before it. */
  lemma {:induction false} DrainSettles<P>(s: Obs<P>, events: Events<P>, whole: bool, path: P)
    requires !s.report.crashed && path in s.due.unresolved
    ensures Settled(s, Drain(s, events, whole, true), path)
  {
    assert events[..0] == [];
    HandleAllAnswers(BeginDrain(s), events, 0, path);
    DrainedActions(s, events, whole, true);
    if path in HandleAll(BeginDrain(s), events).due.unresolved {
      ValidationReports(s, events, whole, path);
    }
  }

  lemma {:induction false} WatchAllChangesNothingDue<P>(s: Obs<P>, watched: Watches<P>)
    ensures WatchAll(s, watched).due == s.due && WatchAll(s, watched).actions == s.actions
  {
    if watched != [] {
      WatchAllChangesNothingDue(s, watched[..|watched| - 1]);
    }
  }

  lemma ProtectChangesNothingDue<P>(s: Obs<P>, invalidates: (P, Mask) -> bool, watched: Watches<P>)
    ensures Protect(s, invalidates, watched).due == s.due && Protect(s, invalidates, watched).actions == s.actions
  {
    WatchAllChangesNothingDue(Obs(Rules(s.config.swappable, invalidates, s.config.join), s.book, s.due, s.report,
      s.actions), watched);
  }

  lemma ClearingAnswers<P>(s: Obs<P>, path: P)
    ensures Answers(s, ClearCounters(s), path)
  {
  }

  lemma StepAnswers<P>(s: Obs<P>, input: Input<P>, path: P)
    ensures Answers(s, Step(s, input), path)
  {
    SameAnswers(s, s, path);
    match input
    case Background(events, whole) => DrainAnswers(s, events, whole, false, path);
    case DrainCommand(events, whole) =>
      var t := Drain(s, events, whole, true);
      DrainAnswers(s, events, whole, true, path);
      ClearingAnswers(t, path);
      AnswersOn(s, t, ClearCounters(t), path);
    case ProtectCommand(invalidates, watched, events, whole) =>
      var t := Protect(s, invalidates, watched);
      ProtectChangesNothingDue(s, invalidates, watched);
      SameAnswers(s, t, path);
      DrainAnswers(t, events, whole, true, path);
      AnswersOn(s, t, Drain(t, events, whole, true), path);
  }

  /** The validating inputs are the commands. */
  lemma StepSettles<P>(s: Obs<P>, input: Input<P>, path: P)
    requires Kept(s, path) && !s.report.crashed && path in s.due.unresolved && !input.Background?
    ensures Settled(s, Step(s, input), path)
  {
    StepIsKept(s, input, path);
    match input
    case DrainCommand(events, whole) =>
      var t := Drain(s, events, whole, true);
      DrainSettles(s, events, whole, path);
      DrainAnswers(s, events, whole, true, path);
      ClearingAnswers(t, path);
      InstalledLater(s, t, ClearCounters(t), path);
    case ProtectCommand(invalidates, watched, events, whole) =>
      var t := Protect(s, invalidates, watched);
      ProtectChangesNothingDue(s, invalidates, watched);
      WatchAllIsKept(Obs(Rules(s.config.swappable, invalidates, s.config.join), s.book, s.due, s.report, s.actions),
        watched, path);
      if !t.report.crashed {
        DrainSettles(t, events, whole, path);
      }
  }

  lemma {:induction false} RunFromIsKept<P>(s: Obs<P>, inputs: seq<Input<P>>, path: P)
    requires Kept(s, path)
    ensures Kept(RunFrom(s, inputs), path) && Continues(s, RunFrom(s, inputs)) && Answers(s, RunFrom(s, inputs), path)
  {
    SameAnswers(s, s, path);
    if inputs != [] {
      var front := inputs[..|inputs| - 1];
      RunFromIsKept(s, front, path);
      StepIsKept(RunFrom(s, front), inputs[|inputs| - 1], path);
      ContinuesOn(s, RunFrom(s, front), RunFrom(s, inputs));
      StepAnswers(RunFrom(s, front), inputs[|inputs| - 1], path);
      AnswersOn(s, RunFrom(s, front), RunFrom(s, inputs), path);
    }
  }

  lemma SettledLater<P>(s: Obs<P>, t: Obs<P>, u: Obs<P>, path: P)
    requires Settled(s, t, path) && Continues(s, t) && Continues(t, u)
    ensures Settled(s, u, path)
  {
    InstalledLater(s, t, u, path);
  }

  /**
   Whatever is unresolved at any point of a run has, once a command has validated, led to an error or been
   answered by a new generation.
   */
  lemma {:induction false} UnresolvedIsSettled<P>(s: Obs<P>, inputs: seq<Input<P>>, i: nat, path: P)
    requires Kept(s, path) && !s.report.crashed && path in s.due.unresolved
    requires i < |inputs| && !inputs[i].Background?
    ensures Settled(s, RunFrom(s, inputs), path)
  {
    var front, last := inputs[..|inputs| - 1], inputs[|inputs| - 1];
    var t := RunFrom(s, front);
    RunFromIsKept(s, front, path);
    StepIsKept(t, last, path);
    if i < |front| {
      UnresolvedIsSettled(s, front, i, path);
      SettledLater(s, t, RunFrom(s, inputs), path);
    } else if path in t.due.unresolved && !t.report.crashed {
      StepSettles(t, last, path);
      InstalledLater(s, t, RunFrom(s, inputs), path);
    } else {
      SettledLater(s, t, RunFrom(s, inputs), path);
    }
  }

  lemma ReportedLater<P>(s: Obs<P>, t: Obs<P>, u: Obs<P>)
    requires Reported(s, t) && Continues(t, u)
    ensures Reported(s, u)
  {
  }

  /** What a background drain makes of an unexplained event: a report, a new generation, or an unresolved path. */
  lemma {:induction false} UnexplainedInBackground<P>(s: Obs<P>, events: Events<P>, whole: bool, k: nat, base: P)
    requires !s.report.crashed && Honest(BeginDrain(s), events) && k < |events|
    requires var u := HandleAll(BeginDrain(s), events[..k]); !u.report.crashed && Unexplained(u, events[k].0, base)
    ensures var u, d := HandleAll(BeginDrain(s), events[..k]), Drain(s, events, whole, false);
            var path := u.config.join(base, events[k].0.name);
            && u.actions <= d.actions
            && (Reported(s, d) || InstalledSince(u, d, path) || (path in d.due.unresolved && !d.report.crashed))
  {
    var b := BeginDrain(s);
    var u, v, w := HandleAll(b, events[..k]), HandleAll(b, events[..k + 1]), HandleAll(b, events);
    var path := u.config.join(base, events[k].0.name);
    HonestAt(b, events, k);
    UnexplainedIsAnswered(u, events[k].0, events[k].1, base);
    HandledPrefix(b, events, k);
    HandleAllAnswers(b, events, k + 1, path);
    HandleAllKeepsReports(b, events);
    DrainedActions(s, events, whole, false);
    InstalledLater(u, v, w, path);
    if Alarmed(v) {
      AlarmIsReported(s, events, whole, false, k + 1);
    }
  }

  /**
   The same event in a background drain: once a command has validated after it, the caller has been told or a
   new generation of the input has been installed since the event.
   */
  lemma {:induction false} UnexplainedEventIsSettled<P>(
    s: Obs<P>, events: Events<P>, whole: bool, k: nat, base: P, inputs: seq<Input<P>>, i: nat)
    requires !s.report.crashed && Honest(BeginDrain(s), events) && k < |events|
    requires var u := HandleAll(BeginDrain(s), events[..k]);
             && !u.report.crashed && Unexplained(u, events[k].0, base)
             && Kept(s, u.config.join(base, events[k].0.name))
    requires i < |inputs| && !inputs[i].Background?
    ensures var u := HandleAll(BeginDrain(s), events[..k]);
            var t := RunFrom(Step(s, Background(events, whole)), inputs);
            Reported(s, t) || InstalledSince(u, t, u.config.join(base, events[k].0.name))
  {
    var u, d := HandleAll(BeginDrain(s), events[..k]), Drain(s, events, whole, false);
    var path, t := u.config.join(base, events[k].0.name), RunFrom(d, inputs);
    assert Step(s, Background(events, whole)) == d;
    UnexplainedInBackground(s, events, whole, k, base);
    DrainIsKept(s, events, whole, false, path);
    RunFromIsKept(d, inputs, path);
    InstalledLater(u, d, t, path);
    if Reported(s, d) {
      ReportedLater(s, d, t);
    } else if !InstalledSince(u, d, path) {
      UnresolvedIsSettled(d, inputs, i, path);
    }
  }
}
