/** Every arrival that the observer notices at a replaceable path is answered once: by a cancellation or an attempt. */
module ObserverArrivals {
  import opened Common
  import opened InotifyCodec
  import opened ObservedInputs
  import opened WatchBook
  import opened Observer
  import opened ObserverAccounting
  import opened ObserverReports
  import opened ObserverUnresolved

  // ----- Answers in the log

  predicate IsAnswer<P(==)>(a: Action<P>, path: P) {
    a == Cancelled(path) || a == ParentInstalled(path) || a == ParentInstallFailed(path)
  }

  /** Cancellations of an awaited install, and attempts at a new one, on account of a parent's event. */
  function AnswersLogged<P(==)>(actions: seq<Action<P>>, path: P): nat {
    if actions == [] then 0
    else
      AnswersLogged(actions[..|actions| - 1], path) + (if IsAnswer(actions[|actions| - 1], path) then 1 else 0)
  }

  lemma {:induction false} AnswerLogged<P>(actions: seq<Action<P>>, last: Action<P>, path: P)
    ensures AnswersLogged(actions + [last], path) ==
            AnswersLogged(actions, path) + (if IsAnswer(last, path) then 1 else 0)
  {
    Logged(actions, last);
  }

  // ----- Arrivals among the events

  /** A parent reports that a replaceable path, heard at this descriptor, was created or moved in. */
  predicate Arrives<P(==)>(s: Obs<P>, wd: Wd, path: P, name: Name, m: Mask) {
    path in s.config.swappable && path !in At(s.book.obsolete, wd) && name != [] && IsArrival(m) && !IsWrite(m)
  }

  /** The arrivals at a path among the paths of a reporting watch, as far as they are visited. */
  function ArrivalsNoticed<P(==)>(s: Obs<P>, wd: Wd, order: seq<P>, name: Name, m: Mask, answer: P -> Answer,
                                  path: P): nat
    decreases |order|
  {
    if order == [] then 0
    else
      var q := s.config.join(order[0], name);
      var t := Notice(s, wd, q, name, m, answer(q));
      (if q == path && Arrives(s, wd, q, name, m) then 1 else 0) +
      if Judge(s, wd, q, name, m).Dirties? || At(t.book.watches, wd) != At(s.book.watches, wd) then 0
      else ArrivalsNoticed(t, wd, order[1..], name, m, answer, path)
  }

  function ArrivalsAt<P(==)>(s: Obs<P>, e: WatchEvent, env: Env<P>, path: P): nat {
    var m := Bits(e.mask);
    if s.report.crashed || !Ordinary(m) || e.wd !in s.book.watches then 0
    else ArrivalsNoticed(s, e.wd, env.order, e.name, m, env.answer, path)
  }

  function ArrivalsIn<P(==)>(s: Obs<P>, events: Events<P>, path: P): nat {
    if events == [] then 0
    else
      var init, last := events[..|events| - 1], events[|events| - 1];
      ArrivalsIn(s, init, path) + ArrivalsAt(HandleAll(s, init), last.0, last.1, path)
  }

  function ArrivalsOf<P(==)>(s: Obs<P>, input: Input<P>, path: P): nat {
    if s.report.crashed then 0
    else
      match input
      case Background(events, _) => ArrivalsIn(BeginDrain(s), events, path)
      case DrainCommand(events, _) => ArrivalsIn(BeginDrain(s), events, path)
      case ProtectCommand(invalidates, watched, events, _) =>
        var t := Protect(s, invalidates, watched);
        if t.report.crashed then 0 else ArrivalsIn(BeginDrain(t), events, path)
  }

  function ArrivalsDuring<P(==)>(s: Obs<P>, inputs: seq<Input<P>>, path: P): nat {
    if inputs == [] then 0
    else
      var front := inputs[..|inputs| - 1];
      ArrivalsDuring(s, front, path) + ArrivalsOf(RunFrom(s, front), inputs[|inputs| - 1], path)
  }

  // ----- Each is answered once

  /** The log grows by this many answers for the path. */
  ghost predicate Answered<P>(s: Obs<P>, t: Obs<P>, path: P, n: nat) {
    AnswersLogged(t.actions, path) == AnswersLogged(s.actions, path) + n
  }

  lemma ArrivesByVerdict<P>(s: Obs<P>, wd: Wd, q: P, name: Name, m: Mask)
    ensures var v := Judge(s, wd, q, name, m); Arrives(s, wd, q, name, m) <==> v.CancelsAwaited? || v.Installs?
  {
  }

  lemma {:induction false} AnswersOfNotice<P>(actions: seq<Action<P>>, v: Verdict, q: P, answer: Answer, path: P)
    ensures AnswersLogged(actions + NoticeActions(v, q, answer), path) ==
            AnswersLogged(actions, path) + (if q == path && (v.CancelsAwaited? || v.Installs?) then 1 else 0)
  {
    if v.CancelsAwaited? {
      AnswerLogged(actions, Cancelled(q), path);
    } else if v.Installs? {
      AnswerLogged(actions, if answer.Installed? then ParentInstalled(q) else ParentInstallFailed(q), path);
    } else {
      AppendEmpty(actions);
    }
  }

  lemma {:induction false} NoticeIsAnswered<P>(s: Obs<P>, wd: Wd, q: P, name: Name, m: Mask, answer: Answer, path: P)
    ensures Answered(s, Notice(s, wd, q, name, m, answer), path,
                     if q == path && Arrives(s, wd, q, name, m) then 1 else 0)
  {
    ArrivesByVerdict(s, wd, q, name, m);
    AnswersOfNotice(s.actions, Judge(s, wd, q, name, m), q, answer, path);
  }

  lemma {:induction false} NoticeAllIsAnswered<P>(
    s: Obs<P>, wd: Wd, order: seq<P>, name: Name, m: Mask, answer: P -> Answer, path: P)
    ensures Answered(s, NoticeAll(s, wd, order, name, m, answer), path,
                     ArrivalsNoticed(s, wd, order, name, m, answer, path))
    decreases |order|
  {
    if order != [] {
      var q := s.config.join(order[0], name);
      NoticeIsAnswered(s, wd, q, name, m, answer(q), path);
      NoticeAllIsAnswered(Notice(s, wd, q, name, m, answer(q)), wd, order[1..], name, m, answer, path);
    }
  }

  lemma {:induction false} RemovalIsNoAnswer<P>(s: Obs<P>, wd: Wd, order: seq<P>, answer: P -> Answer, path: P)
    ensures Answered(s, RemovePaths(s, wd, order, answer), path, 0)
    decreases |order|
  {
    if order != [] {
      var q := order[0];
      var v := JudgeRemoval(s.book, s.config.swappable, wd, q);
      AppendEmpty(s.actions);
      if v.Reinstalls? {
        AnswerLogged(s.actions, if answer(q).Installed? then Reinstalled(q) else ReinstallFailed(q), path);
      }
      RemovalIsNoAnswer(RemovePath(s, wd, q, answer(q)), wd, order[1..], answer, path);
    }
  }

  lemma {:induction false} HandleIsAnswered<P>(s: Obs<P>, e: WatchEvent, env: Env<P>, path: P)
    ensures Answered(s, Handle(s, e, env), path, ArrivalsAt(s, e, env, path))
  {
    NoticeAllIsAnswered(s, e.wd, env.order, e.name, Bits(e.mask), env.answer, path);
    RemovalIsNoAnswer(Unhooked(s, e.wd), e.wd, env.order, env.answer, path);
  }

  /** Over any sequence of events, arrivals at a path are as many as cancellations and attempts for it. */
  lemma {:induction false} ArrivalsAreAnswered<P>(s: Obs<P>, events: Events<P>, path: P)
    ensures Answered(s, HandleAll(s, events), path, ArrivalsIn(s, events, path))
  {
    if events != [] {
      var init, last := events[..|events| - 1], events[|events| - 1];
      ArrivalsAreAnswered(s, init, path);
      HandleIsAnswered(HandleAll(s, init), last.0, last.1, path);
    }
  }

  lemma {:induction false} DrainIsAnswered<P>(s: Obs<P>, events: Events<P>, whole: bool, validate: bool, path: P)
    ensures Answered(s, Drain(s, events, whole, validate), path, ArrivalsIn(BeginDrain(s), events, path))
  {
    ArrivalsAreAnswered(BeginDrain(s), events, path);
    DrainedActions(s, events, whole, validate);
  }

  lemma {:induction false} DrainCommandIsAnswered<P>(s: Obs<P>, events: Events<P>, whole: bool, path: P)
    ensures var t := Drain(s, events, whole, true);
            Answered(s, if t.report.crashed then t else ClearCounters(t), path, ArrivalsIn(BeginDrain(s), events, path))
  {
    DrainIsAnswered(s, events, whole, true, path);
    AnswerLogged(Drain(s, events, whole, true).actions, CountersCleared, path);
  }

  lemma {:induction false} ProtectIsNoAnswer<P>(
    s: Obs<P>, invalidates: (P, Mask) -> bool, watched: Watches<P>, path: P)
    ensures Answered(s, Protect(s, invalidates, watched), path, 0)
  {
    ProtectChangesNothingDue(s, invalidates, watched);
  }

  lemma {:induction false} StepIsAnswered<P>(s: Obs<P>, input: Input<P>, path: P)
    ensures Answered(s, Step(s, input), path, ArrivalsOf(s, input, path))
  {
    match input
    case Background(events, whole) => DrainIsAnswered(s, events, whole, false, path);
    case DrainCommand(events, whole) => DrainCommandIsAnswered(s, events, whole, path);
    case ProtectCommand(invalidates, watched, events, whole) =>
      ProtectIsNoAnswer(s, invalidates, watched, path);
      DrainIsAnswered(Protect(s, invalidates, watched), events, whole, true, path);
  }

  lemma {:induction false} RunIsAnswered<P>(s: Obs<P>, inputs: seq<Input<P>>, path: P)
    ensures Answered(s, RunFrom(s, inputs), path, ArrivalsDuring(s, inputs, path))
  {
    if inputs != [] {
      var front := inputs[..|inputs| - 1];
      RunIsAnswered(s, front, path);
      StepIsAnswered(RunFrom(s, front), inputs[|inputs| - 1], path);
    }
  }

  /** In every run the arrivals noticed at a path are exactly the cancellations and attempts logged for it. */
  lemma {:induction false} EveryArrivalIsAnsweredOnce<P>(config: Rules<P>, inputs: seq<Input<P>>, path: P)
    ensures AnswersLogged(Run(config, inputs).actions, path) == ArrivalsDuring(Initial(config), inputs, path)
  {
    RunIsAnswered(Initial(config), inputs, path);
  }

  // ----- Nothing that arrives is passed over

  lemma ArrivalStands<P>(s: Obs<P>, wd: Wd, q: P, name: Name, m: Mask, answer: Answer, path: P)
    requires Arrives(s, wd, path, name, m) && q != path
    ensures Arrives(Notice(s, wd, q, name, m, answer), wd, path, name, m)
  {
    if q in s.book.active {
      AddToAt(s.book.obsolete, s.book.active[q], q, wd);
    }
  }

  /** An arrival at one of the event's paths is noticed, unless the drain is already about to report. */
  lemma {:induction false} ArrivalIsNoticed<P>(
    s: Obs<P>, wd: Wd, order: seq<P>, name: Name, m: Mask, answer: P -> Answer, base: P)
    requires base in order && Arrives(s, wd, s.config.join(base, name), name, m)
    ensures ArrivalsNoticed(s, wd, order, name, m, answer, s.config.join(base, name)) > 0 ||
            Alarmed(NoticeAll(s, wd, order, name, m, answer))
    decreases |order|
  {
    var path, q := s.config.join(base, name), s.config.join(order[0], name);
    var t := Notice(s, wd, q, name, m, answer(q));
    if q != path && !Judge(s, wd, q, name, m).Dirties? && At(t.book.watches, wd) == At(s.book.watches, wd) {
      ArrivalStands(s, wd, q, name, m, answer(q), path);
      ArrivalIsNoticed(t, wd, order[1..], name, m, answer, base);
    }
  }
}
