/** No silent loss: which events a drain always reports, which it never does, and the one way a write gets lost. */
module ObserverReports {
  import opened Common
  import opened InotifyCodec
  import opened ObservedInputs
  import opened WatchBook
  import opened Observer
  import opened ObserverTracking

  /** The rules of a configuration. */
  function RulesFor(c: Config): Rules<Path> {
    Rules(c.replaceableInputs, (path: Path, m: Mask) => Invalidates(c, path, m), Join)
  }

  /** An event whose watch reports something, as opposed to being removed or losing events. */
  predicate Ordinary(m: Mask) {
    OVERFLOW !in m && UNMOUNT !in m && IGNORED !in m
  }

  /** A drain that meets one of these will report: a dirty path is kept, or the process has ended with an error. */
  predicate Alarmed<P(==)>(s: Obs<P>) {
    s.report.dirty.Some? || s.report.crashed
  }

  // ----- Events that are always reported

  lemma NoticeLeavesOthersAlone<P>(s: Obs<P>, wd: Wd, q: P, name: Name, m: Mask, answer: Answer, path: P)
    requires path !in s.config.swappable || IsWrite(m)
    ensures path in At(Notice(s, wd, q, name, m, answer).book.obsolete, wd) <==> path in At(s.book.obsolete, wd)
  {
    var v := Judge(s, wd, q, name, m);
    if v.Installs? && q in s.book.active {
      AddToAt(s.book.obsolete, s.book.active[q], q, wd);
    }
  }

  lemma {:induction false} NoticeAllReports<P>(
    s: Obs<P>, wd: Wd, order: seq<P>, name: Name, m: Mask, answer: P -> Answer, base: P)
    requires base in order
    requires var path := s.config.join(base, name);
             && path !in At(s.book.obsolete, wd) && s.config.invalidates(path, m)
             && (path !in s.config.swappable || IsWrite(m))
    ensures Alarmed(NoticeAll(s, wd, order, name, m, answer))
    decreases |order|
  {
    var q := s.config.join(order[0], name);
    var t := Notice(s, wd, q, name, m, answer(q));
    NoticeLeavesOthersAlone(s, wd, q, name, m, answer(q), s.config.join(base, name));
    if !Judge(s, wd, q, name, m).Dirties? && At(t.book.watches, wd) == At(s.book.watches, wd) {
      assert base != order[0];
      NoticeAllReports(t, wd, order[1..], name, m, answer, base);
    }
  }

  lemma {:induction false} RemovedPathsStayAlarmed<P>(s: Obs<P>, wd: Wd, order: seq<P>, answer: P -> Answer)
    ensures RemovePaths(s, wd, order, answer).report.dirty == s.report.dirty
    ensures RemovePaths(s, wd, order, answer).report.crashed == s.report.crashed
    decreases |order|
  {
    if order != [] {
      RemovedPathsStayAlarmed(RemovePath(s, wd, order[0], answer(order[0])), wd, order[1..], answer);
    }
  }

  lemma {:induction false} NoticeAllStaysAlarmed<P>(s: Obs<P>, wd: Wd, order: seq<P>, name: Name, m: Mask,
      answer: P -> Answer)
    requires Alarmed(s)
    ensures Alarmed(NoticeAll(s, wd, order, name, m, answer))
    decreases |order|
  {
    if order != [] {
      var q := s.config.join(order[0], name);
      NoticeAllStaysAlarmed(Notice(s, wd, q, name, m, answer(q)), wd, order[1..], name, m, answer);
    }
  }

  lemma HandleStaysAlarmed<P>(s: Obs<P>, e: WatchEvent, env: Env<P>)
    requires Alarmed(s)
    ensures Alarmed(Handle(s, e, env))
  {
    NoticeAllStaysAlarmed(s, e.wd, env.order, e.name, Bits(e.mask), env.answer);
    RemovedPathsStayAlarmed(Unhooked(s, e.wd), e.wd, env.order, env.answer);
  }

  lemma {:induction false} HandleAllStaysAlarmed<P>(s: Obs<P>, events: Events<P>, k: nat)
    requires k <= |events| && Alarmed(HandleAll(s, events[..k]))
    ensures Alarmed(HandleAll(s, events))
  {
    if k < |events| {
      var init, last := events[..|events| - 1], events[|events| - 1];
      assert init[..k] == events[..k];
      HandleAllStaysAlarmed(s, init, k);
      HandleStaysAlarmed(HandleAll(s, init), last.0, last.1);
    } else {
      assert events[..k] == events;
    }
  }

  /** Nothing told is taken back, and an exception is told. */
  ghost predicate TellsOn<P>(s: Obs<P>, t: Obs<P>) {
    && t.config == s.config && t.report.dirtySent == s.report.dirtySent && t.report.errors >= s.report.errors
    && (t.report.crashed ==> s.report.crashed || t.report.errors > s.report.errors)
  }

  lemma {:induction false} HandleAllKeepsReports<P>(s: Obs<P>, events: Events<P>)
    ensures TellsOn(s, HandleAll(s, events))
  {
    if events != [] {
      var init, last := events[..|events| - 1], events[|events| - 1];
      HandleAllKeepsReports(s, init);
      HandleKeepsReports(HandleAll(s, init), last.0, last.1);
    }
  }

  lemma HandleKeepsReports<P>(s: Obs<P>, e: WatchEvent, env: Env<P>)
    ensures TellsOn(s, Handle(s, e, env))
  {
    NoticeAllKeepsReports(s, e.wd, env.order, e.name, Bits(e.mask), env.answer);
    RemovedPathsKeepReports(Unhooked(s, e.wd), e.wd, env.order, env.answer);
    HandleUnfolds(s, e, env);
  }

  lemma NoticeKeepsReports<P>(s: Obs<P>, wd: Wd, q: P, name: Name, m: Mask, answer: Answer)
    ensures var t := Notice(s, wd, q, name, m, answer); TellsOn(s, t) && TellsOn(s, Crash(t))
  {
  }

  lemma {:induction false} NoticeAllKeepsReports<P>(
    s: Obs<P>, wd: Wd, order: seq<P>, name: Name, m: Mask, answer: P -> Answer)
    ensures TellsOn(s, NoticeAll(s, wd, order, name, m, answer))
    decreases |order|
  {
    if order != [] {
      var q := s.config.join(order[0], name);
      NoticeKeepsReports(s, wd, q, name, m, answer(q));
      NoticeAllKeepsReports(Notice(s, wd, q, name, m, answer(q)), wd, order[1..], name, m, answer);
      NoticeAllUnfolds(s, wd, order, name, m, answer);
    }
  }

  lemma {:induction false} RemovedPathsKeepReports<P>(s: Obs<P>, wd: Wd, order: seq<P>, answer: P -> Answer)
    ensures TellsOn(s, RemovePaths(s, wd, order, answer))
    decreases |order|
  {
    if order != [] {
      RemovedPathsKeepReports(RemovePath(s, wd, order[0], answer(order[0])), wd, order[1..], answer);
    }
  }

  /** The caller hears of the drain: a dirty message, or an error. */
  ghost predicate Reported<P>(s: Obs<P>, t: Obs<P>) {
    t.report.dirtySent > s.report.dirtySent || t.report.errors > s.report.errors
  }

  lemma AlarmIsReported<P>(s: Obs<P>, events: Events<P>, whole: bool, validate: bool, k: nat)
    requires !s.report.crashed && k <= |events| && Alarmed(HandleAll(BeginDrain(s), events[..k]))
    ensures Reported(s, Drain(s, events, whole, validate))
  {
    HandleAllStaysAlarmed(BeginDrain(s), events, k);
    HandleAllKeepsReports(BeginDrain(s), events);
  }

  /**
   An event of the drain that concerns a declared input: it names one of its watch's paths, not obsolete
   there, that is a declared input outside the coordination files. On a replaceable input it must be a
   write.
   */
  ghost predicate TouchesInput(c: Config, s: Obs<Path>, e: WatchEvent, base: Path) {
    && Ordinary(Bits(e.mask))
    && base in At(s.book.watches, e.wd)
    && var path := Join(base, e.name);
       && path !in At(s.book.obsolete, e.wd)
       && DeclaredInput(c, path) && path !in c.transientCoordination
       && (path !in c.replaceableInputs || IsWrite(Bits(e.mask)))
  }

  lemma TouchAlarms(c: Config, s: Obs<Path>, e: WatchEvent, env: Env<Path>, base: Path)
    requires s.config == RulesFor(c) && Enumerates(env.order, At(s.book.watches, e.wd)) && TouchesInput(c, s, e, base)
    ensures Alarmed(Handle(s, e, env))
  {
    if !s.report.crashed {
      DeclaredInvalidates(c, Join(base, e.name), Bits(e.mask));
      NoticeAllReports(s, e.wd, env.order, e.name, Bits(e.mask), env.answer, base);
    }
  }

  lemma {:induction false} HandledPrefix<P>(s: Obs<P>, events: Events<P>, k: nat)
    requires k < |events|
    ensures HandleAll(s, events[..k + 1]) == Handle(HandleAll(s, events[..k]), events[k].0, events[k].1)
  {
    var init := events[..k + 1];
    assert init[..|init| - 1] == events[..k] && init[|init| - 1] == events[k];
  }

  /** No silent loss: a drain in which the k-th event touches a declared input sends dirty or an error. */
  lemma {:induction false} TouchedInputIsReported(
    c: Config, s: Obs<Path>, events: Events<Path>, whole: bool, validate: bool, k: nat, base: Path)
    requires s.config == RulesFor(c) && !s.report.crashed && Honest(BeginDrain(s), events) && k < |events|
    requires TouchesInput(c, HandleAll(BeginDrain(s), events[..k]), events[k].0, base)
    ensures Reported(s, Drain(s, events, whole, validate))
  {
    HandleAllKeepsReports(BeginDrain(s), events[..k]);
    HonestAt(BeginDrain(s), events, k);
    TouchAlarms(c, HandleAll(BeginDrain(s), events[..k]), events[k].0, events[k].1, base);
    HandledPrefix(BeginDrain(s), events, k);
    AlarmIsReported(s, events, whole, validate, k + 1);
  }

  lemma {:induction false} HonestAt<P>(s: Obs<P>, events: Events<P>, k: nat)
    requires Honest(s, events) && k < |events|
    ensures Enumerates(events[k].1.order, At(HandleAll(s, events[..k]).book.watches, events[k].0.wd))
  {
    if k < |events| - 1 {
      HonestAt(s, events[..|events| - 1], k);
      assert events[..|events| - 1][..k] == events[..k];
    }
  }

  // ----- Events that are never reported

  lemma {:induction false} QuietPathsChangeNothing<P>(
    s: Obs<P>, wd: Wd, order: seq<P>, name: Name, m: Mask, answer: P -> Answer)
    requires forall base :: base in order ==>
               s.config.join(base, name) !in s.config.swappable && !s.config.invalidates(s.config.join(base, name), m)
    ensures NoticeAll(s, wd, order, name, m, answer) == s
    decreases |order|
  {
    if order != [] {
      var q := s.config.join(order[0], name);
      assert order[0] in order;
      AppendEmpty(s.actions);
      assert Judge(s, wd, q, name, m) == Quiet;
      assert Notice(s, wd, q, name, m, answer(q)) == s;
      QuietPathsChangeNothing(s, wd, order[1..], name, m, answer);
    }
  }

  /** A metadata change all of whose paths are only above inputs leaves the observer exactly as it was. */
  lemma AncestorMetadataIsSilent(c: Config, s: Obs<Path>, e: WatchEvent, env: Env<Path>)
    requires s.config == RulesFor(c) && ValidConfig(c) && e.wd in s.book.watches
    requires Enumerates(env.order, At(s.book.watches, e.wd)) && MetadataOnly(Bits(e.mask))
    requires forall base :: base in At(s.book.watches, e.wd) ==> OnlyStrictAncestor(c, Join(base, e.name))
    ensures Handle(s, e, env) == s
  {
    var m := Bits(e.mask);
    assert OVERFLOW !in m - {ISDIR} && UNMOUNT !in m - {ISDIR} && IGNORED !in m - {ISDIR};
    forall base | base in env.order
      ensures s.config.join(base, e.name) !in s.config.swappable &&
              !s.config.invalidates(s.config.join(base, e.name), m)
    {
      AncestorMetadataIsIgnored(c, Join(base, e.name), m);
    }
    QuietPathsChangeNothing(s, e.wd, env.order, e.name, m, env.answer);
  }

  // ----- The way a write gets lost

  /**
   A descriptor taken as active although it is obsolete for the path makes the observer deaf to the path:
   no event at that descriptor changes anything.
   */
  lemma ObsoleteActiveIsDeaf<P>(s: Obs<P>, wd: Wd, path: P, name: Name, m: Mask, answer: Answer)
    requires path in At(s.book.obsolete, wd)
    ensures Notice(s, wd, path, name, m, answer) == s
  {
    AppendEmpty(s.actions);
  }
}
