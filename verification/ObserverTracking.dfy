/**
 What every run of the observer keeps: a live descriptor for each watched replaceable path, one
 generation between counter resets, and an exact account of awaited parent events.
 */
module ObserverTracking {
  import opened InotifyCodec
  import opened ObservedInputs
  import opened WatchBook
  import opened Observer

  ghost predicate Heard<P>(s: Obs<P>) {
    Good(s.book, s.config.swappable)
  }

  /** The paths of an event's watch are visited once each. */
  ghost predicate Enumerates<P>(order: seq<P>, paths: set<P>) {
    && (forall p :: p in paths ==> p in order) && (forall p :: p in order ==> p in paths)
    && forall i, j :: 0 <= i < j < |order| ==> order[i] != order[j]
  }

  // ----- Live descriptors

  lemma RemovedPathBook<P>(s: Obs<P>, wd: Wd, path: P, answer: Answer)
    ensures var t := RemovePath(s, wd, path, answer);
            t.config == s.config && t.book == AfterRemoval(s.book, s.config.swappable, wd, path, answer)
  {
  }

  lemma RemovedPathIsHeard<P>(s: Obs<P>, wd: Wd, path: P, answer: Answer, todo: set<P>)
    requires path in todo && Good(Restored(s.book, wd, todo), s.config.swappable)
    ensures var t := RemovePath(s, wd, path, answer);
            t.config == s.config && Good(Restored(t.book, wd, todo - {path}), s.config.swappable)
  {
    RemovedPathBook(s, wd, path, answer);
    AfterRemovalKeepsGood(s.book, s.config.swappable, wd, path, answer, todo);
  }

  lemma {:induction false} RemovedPathsAreHeard<P>(s: Obs<P>, wd: Wd, order: seq<P>, answer: P -> Answer, todo: set<P>)
    requires Enumerates(order, todo) && Good(Restored(s.book, wd, todo), s.config.swappable)
    ensures Heard(RemovePaths(s, wd, order, answer))
    decreases |order|
  {
    if order == [] {
      assert todo == {};
    } else {
      var path, rest := order[0], order[1..];
      assert path in order;
      RemovedPathIsHeard(s, wd, path, answer(path), todo);
      EnumeratesRest(order, todo);
      RemovedPathsAreHeard(RemovePath(s, wd, path, answer(path)), wd, rest, answer, todo - {path});
    }
  }

  lemma EnumeratesRest<P>(order: seq<P>, paths: set<P>)
    requires order != [] && Enumerates(order, paths)
    ensures Enumerates(order[1..], paths - {order[0]})
  {
    var rest := order[1..];
    assert forall i :: 0 <= i < |rest| ==> rest[i] == order[i + 1];
    forall p | p in rest ensures p in paths && p != order[0] {
      var i :| 0 <= i < |rest| && rest[i] == p;
      assert order[i + 1] == p && order[i + 1] in order;
    }
    forall p | p in paths && p != order[0] ensures p in rest {
      assert p in order;
      var i :| 0 <= i < |order| && order[i] == p;
      assert rest[i - 1] == p;
    }
  }

  lemma RemovalIsHeard<P>(s: Obs<P>, wd: Wd, env: Env<P>)
    requires Heard(s) && Enumerates(env.order, At(s.book.watches, wd))
    ensures Heard(Removal(s, wd, env))
  {
    if wd in s.book.watches {
      var t := Unhooked(s, wd);
      var todo := s.book.watches[wd];
      forall w ensures At(Restored(t.book, wd, todo).watches, w) == At(s.book.watches, w) {
        RestoredAt(t.book, wd, todo, w);
      }
      RemovedPathsAreHeard(t, wd, env.order, env.answer, todo);
    }
  }

  lemma NoticeBook<P>(s: Obs<P>, wd: Wd, path: P, name: Name, m: Mask, answer: Answer)
    ensures var t := Notice(s, wd, path, name, m, answer);
            && t.config == s.config
            && (t.book == s.book || (path in s.config.swappable && t.book == Reinstalling(s.book, path, answer)))
  {
  }

  lemma NoticeIsHeard<P>(s: Obs<P>, wd: Wd, path: P, name: Name, m: Mask, answer: Answer)
    requires Heard(s)
    ensures Heard(Notice(s, wd, path, name, m, answer)) && Notice(s, wd, path, name, m, answer).config == s.config
  {
    NoticeBook(s, wd, path, name, m, answer);
    if path in s.config.swappable && answer.Installed? {
      AdoptedKeepsGood(s.book, s.config.swappable, path, answer.wd);
    }
  }

  lemma {:induction false} NoticeAllIsHeard<P>(s: Obs<P>, wd: Wd, order: seq<P>, name: Name, m: Mask,
                                               answer: P -> Answer)
    requires Heard(s)
    ensures Heard(NoticeAll(s, wd, order, name, m, answer))
    decreases |order|
  {
    if order != [] {
      var path := s.config.join(order[0], name);
      NoticeIsHeard(s, wd, path, name, m, answer(path));
      NoticeAllIsHeard(Notice(s, wd, path, name, m, answer(path)), wd, order[1..], name, m, answer);
    }
  }

  lemma HandleIsHeard<P>(s: Obs<P>, e: WatchEvent, env: Env<P>)
    requires Heard(s) && Enumerates(env.order, At(s.book.watches, e.wd))
    ensures Heard(Handle(s, e, env))
  {
    var m := Bits(e.mask);
    if IGNORED in m {
      RemovalIsHeard(s, e.wd, env);
    }
    NoticeAllIsHeard(s, e.wd, env.order, e.name, m, env.answer);
  }

  /** Each event's watch is enumerated as it stands when the event is handled. */
  ghost predicate Honest<P>(s: Obs<P>, events: Events<P>) {
    events == [] ||
    var init, last := events[..|events| - 1], events[|events| - 1];
    Honest(s, init) && Enumerates(last.1.order, At(HandleAll(s, init).book.watches, last.0.wd))
  }

  lemma {:induction false} HandleAllIsHeard<P>(s: Obs<P>, events: Events<P>)
    requires Heard(s) && Honest(s, events)
    ensures Heard(HandleAll(s, events))
  {
    if events != [] {
      var init, last := events[..|events| - 1], events[|events| - 1];
      HandleAllIsHeard(s, init);
      HandleIsHeard(HandleAll(s, init), last.0, last.1);
    }
  }

  lemma {:induction false} DrainIsHeard<P>(s: Obs<P>, events: Events<P>, whole: bool, validate: bool)
    requires Heard(s) && Honest(BeginDrain(s), events)
    ensures Heard(Drain(s, events, whole, validate))
  {
    HandleAllIsHeard(BeginDrain(s), events);
  }

  lemma {:induction false} WatchAllIsHeard<P>(s: Obs<P>, watched: Watches<P>)
    requires Heard(s)
    ensures Heard(WatchAll(s, watched)) && WatchAll(s, watched).config == s.config
  {
    if watched != [] {
      var t, last := WatchAll(s, watched[..|watched| - 1]), watched[|watched| - 1];
      WatchAllIsHeard(s, watched[..|watched| - 1]);
      if last.0 !in t.book.watchedPaths && last.1.Some? {
        WatchedKeepsGood(t.book, t.config.swappable, last.0, last.1.value);
      }
    }
  }

  ghost predicate HonestInput<P>(s: Obs<P>, input: Input<P>) {
    match input
    case Background(events, _) => Honest(BeginDrain(s), events)
    case DrainCommand(events, _) => Honest(BeginDrain(s), events)
    case ProtectCommand(invalidates, watched, events, _) => Honest(BeginDrain(Protect(s, invalidates, watched)), events)
  }

  lemma StepIsHeard<P>(s: Obs<P>, input: Input<P>)
    requires Heard(s) && HonestInput(s, input)
    ensures Heard(Step(s, input))
  {
    match input
    case Background(events, whole) => DrainIsHeard(s, events, whole, false);
    case DrainCommand(events, whole) => DrainIsHeard(s, events, whole, true);
    case ProtectCommand(invalidates, watched, events, whole) =>
      WatchAllIsHeard(Obs(Rules(s.config.swappable, invalidates, s.config.join), s.book, s.due, s.report, s.actions),
        watched);
      DrainIsHeard(Protect(s, invalidates, watched), events, whole, true);
  }

  ghost predicate HonestRun<P>(config: Rules<P>, inputs: seq<Input<P>>) {
    inputs == [] ||
    var init := inputs[..|inputs| - 1];
    HonestRun(config, init) && HonestInput(Run(config, init), inputs[|inputs| - 1])
  }

  lemma {:induction false} RunSnoc<P>(config: Rules<P>, inputs: seq<Input<P>>, last: Input<P>)
    ensures Run(config, inputs + [last]) == Step(Run(config, inputs), last)
    ensures HonestRun(config, inputs) && HonestInput(Run(config, inputs), last) ==> HonestRun(config, inputs + [last])
  {
    assert (inputs + [last])[..|inputs + [last]| - 1] == inputs;
  }

  lemma {:induction false} RunIsHeard<P>(config: Rules<P>, inputs: seq<Input<P>>)
    requires HonestRun(config, inputs)
    ensures Heard(Run(config, inputs))
  {
    if inputs != [] {
      RunIsHeard(config, inputs[..|inputs| - 1]);
      StepIsHeard(Run(config, inputs[..|inputs| - 1]), inputs[|inputs| - 1]);
    }
  }
}
