/** The observer process itself: the state it updates in place, and its loops over events and their paths. */
module InputObserver {
  import opened Common
  import opened Utf8
  import opened InotifyCodec
  import opened ObservedInputs
  import opened WatchBook
  import Observer
  import opened ObserverTracking
  import opened ObserverAccounting
  import opened ObserverReports
  import opened ObserverUnresolved

  type State = Observer.Obs<Path>

  // ----- What was read from the kernel

  /** The events of one batch of reads; an empty read ends observation. */
  function Received(chunks: seq<seq<byte>>): Parsed {
    if chunks == [] then Parsed([], true)
    else if chunks[0] == [] then Parsed([], false)
    else
      var first := Parse(chunks[0]);
      if !first.whole then first
      else var rest := Received(chunks[1..]); Parsed(first.events + rest.events, rest.whole)
  }

  /** The events handled are the first of those that arrived, each with the kernel's answers to it. */
  ghost predicate CarriesPart(events: Observer.Events<Path>, arrived: seq<WatchEvent>, answers: nat -> Path -> Answer) {
    && |events| <= |arrived|
    && forall i :: 0 <= i < |events| ==> events[i].0 == arrived[i] && events[i].1.answer == answers(i)
  }

  /** They are all of what the reads yield, unless the process ended before. */
  ghost predicate Carries(events: Observer.Events<Path>, whole: bool, chunks: seq<seq<byte>>,
                          answers: nat -> Path -> Answer, ended: bool)
  {
    && whole == Received(chunks).whole
    && CarriesPart(events, Received(chunks).events, answers)
    && (!ended ==> |events| == |Received(chunks).events|)
  }

  lemma CarriesNext(before: Observer.Events<Path>, events: Observer.Events<Path>, arrived: seq<WatchEvent>,
                    answers: nat -> Path -> Answer)
    requires CarriesPart(before, arrived, answers) && |before| < |arrived|
    requires |events| == |before| + 1 && events[..|before|] == before
    requires events[|before|].0 == arrived[|before|] && events[|before|].1.answer == answers(|before|)
    ensures CarriesPart(events, arrived, answers)
  {
    forall i | 0 <= i < |before| ensures events[i] == before[i] {
      assert events[i] == events[..|before|][i];
    }
  }

  lemma {:induction false} HandleAllSnoc(s: State, events: Observer.Events<Path>, e: WatchEvent,
                                         env: Observer.Env<Path>)
    ensures Observer.HandleAll(s, events + [(e, env)]) == Observer.Handle(Observer.HandleAll(s, events), e, env)
    ensures Honest(s, events) && Enumerates(env.order, At(Observer.HandleAll(s, events).book.watches, e.wd))
            ==> Honest(s, events + [(e, env)])
  {
    assert (events + [(e, env)])[..|events|] == events;
  }

  lemma DropTwice<T>(data: seq<T>, i: nat, j: nat)
    requires i + j <= |data|
    ensures data[i..][j..] == data[i + j..]
  {
  }

  // ----- From bytes to reports

  /**
   The `k`-th event that arrived touches a declared input when its turn comes. An event whose turn never comes,
   because the process ended before it, counts as well.
   */
  ghost predicate Concerns(c: Config, s: State, events: Observer.Events<Path>, arrived: seq<WatchEvent>, k: nat,
                           base: Path)
  {
    && k < |arrived|
    && (k < |events| ==> TouchesInput(c, Observer.HandleAll(Observer.BeginDrain(s), events[..k]), arrived[k], base))
  }

  /** It is a write at the active watch of a replaceable input, and the kernel has not been at fault until then. */
  ghost predicate ConcernsWatched(s: State, events: Observer.Events<Path>, arrived: seq<WatchEvent>, k: nat, path: Path)
  {
    && k < |arrived|
    && (k < |events| ==>
          var u := Observer.HandleAll(Observer.BeginDrain(s), events[..k]);
          !u.book.kernelFault && WritesWatched(u, arrived[k], path))
  }

  /** A drain from `s` to `t` that has told the caller of every event concerning a declared input. */
  ghost predicate MissesNothing(c: Config, s: State, events: Observer.Events<Path>, arrived: seq<WatchEvent>,
                                t: State) {
    forall k: nat, base: Path :: Concerns(c, s, events, arrived, k, base) ==> Reported(s, t)
  }

  ghost predicate MissesNoWrite(c: Config, s: State, events: Observer.Events<Path>, arrived: seq<WatchEvent>,
                                t: State) {
    forall k: nat, path: Path ::
      path !in c.transientCoordination && ConcernsWatched(s, events, arrived, k, path) ==> Reported(s, t)
  }

  lemma EndingIsReported(s: State, events: Observer.Events<Path>, whole: bool, validate: bool)
    requires !s.report.crashed && Observer.Drain(s, events, whole, validate).report.crashed
    ensures Reported(s, Observer.Drain(s, events, whole, validate))
  {
    HandleAllKeepsReports(Observer.BeginDrain(s), events);
  }

  /** Clearing the counters after a drain says nothing and takes nothing back. */
  lemma CommandReports(s: State, events: Observer.Events<Path>, whole: bool)
    requires !s.report.crashed
    ensures Observer.Step(s, Observer.DrainCommand(events, whole)).report ==
            Observer.Drain(s, events, whole, true).report
  {
  }

  lemma {:induction false} WatchingKeepsRules(s: State, watched: Observer.Watches<Path>)
    ensures var t := Observer.WatchAll(s, watched);
            t.config == s.config && (t.report.crashed ==> s.report.crashed || t.report.errors > s.report.errors)
            && t.report.errors >= s.report.errors
  {
    if watched != [] {
      WatchingKeepsRules(s, watched[..|watched| - 1]);
    }
  }

  /** Protecting further roots leaves an observer that follows the extended configuration. */
  lemma ProtectedState(s: State, before: Config, c: Config, watched: Observer.Watches<Path>)
    requires s.config == RulesFor(before) && !s.report.crashed && c.replaceableInputs == before.replaceableInputs
    ensures var p := Observer.Protect(s, RulesFor(c).invalidates, watched);
            p.config == RulesFor(c) && (p.report.crashed ==> p.report.errors > s.report.errors)
  {
    WatchingKeepsRules(Observer.Obs(RulesFor(c), s.book, s.due, s.report, s.actions), watched);
  }

  lemma {:induction false} DrainMissesNothing(
    c: Config, s: State, events: Observer.Events<Path>, whole: bool, validate: bool, chunks: seq<seq<byte>>,
    answers: nat -> Path -> Answer)
    requires s.config == RulesFor(c) && !s.report.crashed && Honest(Observer.BeginDrain(s), events)
    requires Carries(events, whole, chunks, answers, Observer.Drain(s, events, whole, validate).report.crashed)
    ensures MissesNothing(c, s, events, Received(chunks).events, Observer.Drain(s, events, whole, validate))
  {
    forall k: nat, base: Path | Concerns(c, s, events, Received(chunks).events, k, base)
      ensures Reported(s, Observer.Drain(s, events, whole, validate))
    {
      if k < |events| {
        TouchedInputIsReported(c, s, events, whole, validate, k, base);
      } else {
        EndingIsReported(s, events, whole, validate);
      }
    }
  }

  lemma {:induction false} RunMissesNoWrite(
    c: Config, rules: Observer.Rules<Path>, inputs: seq<Observer.Input<Path>>, events: Observer.Events<Path>,
    whole: bool, validate: bool, chunks: seq<seq<byte>>, answers: nat -> Path -> Answer)
    requires HonestRun(rules, inputs) && ValidConfig(c)
    requires var s := Observer.Run(rules, inputs);
             && s.config == RulesFor(c) && !s.report.crashed && Honest(Observer.BeginDrain(s), events)
             && Carries(events, whole, chunks, answers, Observer.Drain(s, events, whole, validate).report.crashed)
    ensures var s := Observer.Run(rules, inputs);
            MissesNoWrite(c, s, events, Received(chunks).events, Observer.Drain(s, events, whole, validate))
  {
    var s := Observer.Run(rules, inputs);
    forall k: nat, path: Path |
      path !in c.transientCoordination && ConcernsWatched(s, events, Received(chunks).events, k, path)
      ensures Reported(s, Observer.Drain(s, events, whole, validate))
    {
      if k < |events| {
        WatchedWriteIsReported(c, rules, inputs, events, whole, validate, k, path);
      } else {
        EndingIsReported(s, events, whole, validate);
      }
    }
  }

  /** The first event of the data with its size, unless there is none or it is cut short. */
  function NextEvent(rest: seq<byte>): (next: Option<(WatchEvent, nat)>)
    ensures next.Some? ==>
              && 0 < next.value.1 <= |rest|
              && Parse(rest).events == [next.value.0] + Parse(rest[next.value.1..]).events
              && Parse(rest).whole == Parse(rest[next.value.1..]).whole
    ensures next.None? ==> Parse(rest) == Parsed([], rest == [])
  {
    if |rest| < HEADER_SIZE || HEADER_SIZE + NameLength(rest) > |rest| then None
    else Some((EventOf(rest), HEADER_SIZE + NameLength(rest)))
  }

  /** After the events seen, the rest of the data yields what all of it yields. */
  ghost predicate Remains(events: seq<WatchEvent>, rest: seq<byte>, all: Parsed) {
    var p := Parse(rest);
    all == Parsed(events + p.events, p.whole)
  }

  lemma RemainsAfterNext(events: seq<WatchEvent>, rest: seq<byte>, all: Parsed)
    requires Remains(events, rest, all)
    ensures match NextEvent(rest)
            case None => all == Parsed(events, rest == [])
            case Some(next) => Remains(events + [next.0], rest[next.1..], all)
  {
    AppendEmpty(events);
    if NextEvent(rest).Some? {
      var (e, size) := NextEvent(rest).value;
      AppendAssociative(events, [e], Parse(rest[size..]).events);
    }
  }

  /** The offset loop over one read; `rest` is the data from the offset on. */
  method ReadEvents(data: seq<byte>) returns (p: Parsed)
    ensures p == Parse(data)
  {
    var rest, events := data, [];
    ghost var all := Parse(data);
    AppendEmpty(all.events);
    while rest != []
      invariant Remains(events, rest, all)
      decreases |rest|
    {
      RemainsAfterNext(events, rest, all);
      var next := NextEvent(rest);
      if next.None? {
        return Parsed(events, false);
      }
      events := events + [next.value.0];
      rest := rest[next.value.1..];
    }
    RemainsAfterNext(events, rest, all);
    return Parsed(events, true);
  }

  /** The reads of one drain, until none is available or one cannot be used. */
  method Receive(chunks: seq<seq<byte>>) returns (p: Parsed)
    ensures p == Received(chunks)
  {
    var i, events := 0, [];
    AppendEmpty(Received(chunks).events);
    while i < |chunks|
      invariant 0 <= i <= |chunks|
      invariant events + Received(chunks[i..]).events == Received(chunks).events
      invariant Received(chunks[i..]).whole == Received(chunks).whole
    {
      AppendEmpty(events);
      if chunks[i] == [] {
        return Parsed(events, false);
      }
      var chunk := ReadEvents(chunks[i]);
      DropTwice(chunks, i, 1);
      AppendAssociative(events, chunk.events, Received(chunks[i + 1..]).events);
      events := events + chunk.events;
      if !chunk.whole {
        return Parsed(events, false);
      }
      i := i + 1;
    }
    AppendEmpty(events);
    return Parsed(events, true);
  }

  /** Some order of a set, as iterating over it yields. */
  method InSomeOrder(paths: set<Path>) returns (order: seq<Path>)
    ensures Enumerates(order, paths)
  {
    order := [];
    var todo := paths;
    while todo != {}
      invariant todo <= paths
      invariant Enumerates(order, paths - todo)
      decreases |todo|
    {
      var path :| path in todo;
      todo := todo - {path};
      order := order + [path];
    }
    assert paths - todo == paths;
  }

  function ArrivalVerdict(due: Observer.Due<Path>, path: Path): Observer.Verdict {
    if Observer.Count(due.awaitingParents, path) > 0 then Observer.CancelsAwaited else Observer.Installs
  }

  class InputObserver {
    var config: Config
    var watches: Index<Path>
    var watchedPaths: set<Path>
    var replacementCounts: map<Path, nat>
    var activeWatches: map<Path, Wd>
    var obsoleteWatches: Index<Path>
    var awaitingParents: map<Path, nat>
    var unresolved: map<Path, Mask>
    var expectedMoves: map<Path, Wd>
    var dirtyPath: Option<Path>
    var dirtySent: nat
    var errorsSent: nat
    var ended: bool

    ghost var everWatched: set<Path>
    ghost var kernelFault: bool
    ghost var actions: seq<Observer.Action<Path>>

    ghost function State(): State
      reads this
    {
      Observer.Obs(RulesFor(config), WatchBook(), Owed(), Told(), actions)
    }

    ghost function WatchBook(): Book<Path>
      reads this`watches, this`watchedPaths, this`everWatched, this`activeWatches, this`obsoleteWatches,
        this`kernelFault
    {
      Book(watches, watchedPaths, everWatched, activeWatches, obsoleteWatches, kernelFault)
    }

    ghost function Owed(): Observer.Due<Path>
      reads this`replacementCounts, this`awaitingParents, this`unresolved, this`expectedMoves
    {
      Observer.Due(replacementCounts, awaitingParents, unresolved, expectedMoves)
    }

    ghost function Told(): Observer.Report<Path>
      reads this`dirtyPath, this`dirtySent, this`errorsSent, this`ended
    {
      Observer.Report(dirtyPath, dirtySent, errorsSent, ended)
    }

    constructor (settings: Config)
      ensures State() == Observer.Initial(RulesFor(settings)) && config == settings
    {
      config := settings;
      watches, watchedPaths, replacementCounts, activeWatches, obsoleteWatches := map[], {}, map[], map[], map[];
      awaitingParents, unresolved, expectedMoves := map[], map[], map[];
      dirtyPath, dirtySent, errorsSent, ended := None, 0, 0, false;
      everWatched, kernelFault, actions := {}, false, [];
    }

    method SendError()
      modifies this`errorsSent
      ensures State() == Observer.Error(old(State()))
    {
      errorsSent := errorsSent + 1;
    }

    /** An exception reaches the outermost handler. */
    method Raise()
      modifies this`errorsSent, this`ended
      ensures State() == Observer.Crash(old(State()))
    {
      errorsSent := errorsSent + 1;
      ended := true;
    }

    method Watch(path: Path, wd: Option<Wd>)
      modifies this
      ensures State() == Observer.Watch(old(State()), path, wd) && config == old(config)
    {
      if path in watchedPaths {
        return;
      }
      if wd.None? {
        Raise();
        return;
      }
      AddWatch(path, wd.value);
    }

    method AddWatch(path: Path, wd: Wd)
      modifies this`watches, this`watchedPaths, this`everWatched, this`activeWatches, this`kernelFault
      ensures WatchBook() == Watched(old(WatchBook()), config.replaceableInputs, path, wd)
    {
      kernelFault := kernelFault || path in At(obsoleteWatches, wd);
      watches := AddTo(watches, wd, path);
      watchedPaths := watchedPaths + {path};
      everWatched := everWatched + {path};
      if path in config.replaceableInputs {
        activeWatches := activeWatches[path := wd];
      }
    }

    /** Takes a descriptor as the active one of a replaceable path. */
    method Adopt(path: Path, wd: Wd)
      modifies this`watches, this`watchedPaths, this`everWatched, this`activeWatches, this`obsoleteWatches,
        this`kernelFault
      ensures WatchBook() == Adopted(old(WatchBook()), path, wd)
    {
      kernelFault := kernelFault || path in At(obsoleteWatches, wd);
      if !(path in activeWatches && activeWatches[path] == wd) {
        if path in activeWatches {
          obsoleteWatches := AddTo(obsoleteWatches, activeWatches[path], path);
        }
        watches := AddTo(watches, wd, path);
        watchedPaths := watchedPaths + {path};
        everWatched := everWatched + {path};
        activeWatches := activeWatches[path := wd];
      }
    }

    method InstallReplaceableGeneration(path: Path, answer: Answer) returns (installed: bool)
      modifies this`watches, this`watchedPaths, this`everWatched, this`activeWatches, this`obsoleteWatches,
        this`kernelFault
      modifies this`replacementCounts, this`errorsSent
      ensures installed == answer.Installed?
      ensures WatchBook() == Reinstalling(old(WatchBook()), path, answer)
      ensures errorsSent == old(errorsSent) + Observer.InstallErrors(old(Owed()), path, answer)
      ensures Owed() == Observer.CountInstall(old(Owed()), path, answer)
    {
      if !answer.Installed? {
        SendError();
        return false;
      }
      Adopt(path, answer.wd);
      replacementCounts := replacementCounts[path := Observer.Count(replacementCounts, path) + 1];
      if replacementCounts[path] > 1 {
        SendError();
      }
      return true;
    }

    method RemovePath(wd: Wd, path: Path, answer: Answer)
      modifies this
      ensures State() == Observer.RemovePath(old(State()), wd, path, answer) && config == old(config)
    {
      PathRemoved(wd, path, answer);
    }

    method PathRemoved(wd: Wd, path: Path, answer: Answer)
      modifies this`watches, this`watchedPaths, this`everWatched, this`activeWatches, this`obsoleteWatches,
        this`kernelFault
      modifies this`replacementCounts, this`awaitingParents, this`unresolved, this`expectedMoves, this`errorsSent,
        this`actions
      ensures WatchBook() == AfterRemoval(old(WatchBook()), config.replaceableInputs, wd, path, answer)
      ensures var v := Observer.JudgeRemoval(old(WatchBook()), config.replaceableInputs, wd, path);
              && Owed() == Observer.DueAfterRemoval(old(Owed()), v, wd, path, answer)
              && errorsSent == old(errorsSent) + Observer.RemovalErrors(old(Owed()), v, path, answer)
              && actions == old(actions) + Observer.RemovalActions(v, path, answer)
    {
      AppendEmpty(actions);
      ForgetMove(wd, path);
      if path in At(obsoleteWatches, wd) {
        obsoleteWatches := RemoveFrom(obsoleteWatches, wd, path);
        return;
      }
      if path in config.replaceableInputs && path in activeWatches && activeWatches[path] == wd {
        ActiveRemoved(path, answer);
        return;
      }
      SendError();
    }

    method ForgetMove(wd: Wd, path: Path)
      modifies this`expectedMoves
      ensures Owed() == Observer.ForgetMove(old(Owed()), wd, path)
    {
      if path in expectedMoves && expectedMoves[path] == wd {
        expectedMoves := expectedMoves - {path};
      }
    }

    /** The active watch of a replaceable path is gone. */
    method ActiveRemoved(path: Path, answer: Answer)
      modifies this`watches, this`watchedPaths, this`everWatched, this`activeWatches, this`obsoleteWatches,
        this`kernelFault
      modifies this`replacementCounts, this`awaitingParents, this`unresolved, this`errorsSent, this`actions
      ensures WatchBook() == Reinstalling(Forgotten(old(WatchBook()), path), path, answer)
      ensures Owed() == Observer.AwaitParent(
                          Observer.Resolve(Observer.CountInstall(old(Owed()), path, answer), path, answer), path,
                            answer)
      ensures errorsSent == old(errorsSent) + Observer.InstallErrors(old(Owed()), path, answer)
      ensures actions == old(actions) + Observer.RemovalActions(Observer.Reinstalls, path, answer)
    {
      var installed := Reinstall(path, answer);
      if installed {
        ResolvedBy(path, answer);
        AwaitParent(path, answer);
      }
      actions := actions + [if installed then Observer.Reinstalled(path) else Observer.ReinstallFailed(path)];
    }

    method Reinstall(path: Path, answer: Answer) returns (installed: bool)
      modifies this`watches, this`watchedPaths, this`everWatched, this`activeWatches, this`obsoleteWatches,
        this`kernelFault
      modifies this`replacementCounts, this`errorsSent
      ensures installed == answer.Installed?
      ensures WatchBook() == Reinstalling(Forgotten(old(WatchBook()), path), path, answer)
      ensures errorsSent == old(errorsSent) + Observer.InstallErrors(old(Owed()), path, answer)
      ensures Owed() == Observer.CountInstall(old(Owed()), path, answer)
    {
      Forget(path);
      installed := InstallReplaceableGeneration(path, answer);
    }

    method Forget(path: Path)
      modifies this`watchedPaths, this`activeWatches
      ensures WatchBook() == Forgotten(old(WatchBook()), path)
    {
      watchedPaths := watchedPaths - {path};
      activeWatches := activeWatches - {path};
    }

    method ResolvedBy(path: Path, answer: Answer)
      requires answer.Installed?
      modifies this`unresolved
      ensures Owed() == Observer.Resolve(old(Owed()), path, answer)
    {
      unresolved := unresolved - {path};
    }

    method AwaitParent(path: Path, answer: Answer)
      requires answer.Installed?
      modifies this`awaitingParents
      ensures Owed() == Observer.AwaitParent(old(Owed()), path, answer)
    {
      awaitingParents := awaitingParents[path := Observer.Count(awaitingParents, path) + 1];
    }

    method CancelAwaited(path: Path)
      requires Observer.Count(awaitingParents, path) > 0
      modifies this`awaitingParents
      ensures Owed() == Observer.CancelAwaited(old(Owed()), path)
    {
      if awaitingParents[path] == 1 {
        awaitingParents := awaitingParents - {path};
      } else {
        awaitingParents := awaitingParents[path := awaitingParents[path] - 1];
      }
    }

    method ExpectMove(path: Path, m: Mask)
      modifies this`expectedMoves
      ensures Owed() == Observer.ExpectMove(old(Owed()), activeWatches, path, m)
    {
      if MOVED_TO in m && path in activeWatches {
        expectedMoves := expectedMoves[path := activeWatches[path]];
      }
    }

    method WatchRemoved(wd: Wd, answer: Path -> Answer) returns (order: seq<Path>)
      modifies this
      ensures Enumerates(order, At(old(watches), wd)) && config == old(config)
      ensures State() == Observer.Removal(old(State()), wd, Observer.Env(order, answer))
    {
      if wd !in watches {
        SendError();
        return [];
      }
      order := InSomeOrder(watches[wd]);
      watches := watches - {wd};
      ghost var start := State();
      var i := 0;
      while i < |order|
        invariant 0 <= i <= |order| && config == old(config)
        invariant Observer.RemovePaths(State(), wd, order[i..], answer) ==
                  Observer.RemovePaths(start, wd, order, answer)
      {
        assert order[i..][1..] == order[i + 1..];
        RemovePath(wd, order[i], answer(order[i]));
        i := i + 1;
      }
    }

    /** One path of a watch that reports an event; the result says whether it makes the inputs dirty. */
    method NoticePath(wd: Wd, path: Path, name: Name, m: Mask, answer: Answer) returns (dirties: bool)
      modifies this
      ensures dirties == Observer.Judge(old(State()), wd, path, name, m).Dirties? && config == old(config)
      ensures State() == Observer.Notice(old(State()), wd, path, name, m, answer)
    {
      dirties := PathNoticed(wd, path, name, m, answer);
    }

    method PathNoticed(wd: Wd, path: Path, name: Name, m: Mask, answer: Answer) returns (dirties: bool)
      modifies this`watches, this`watchedPaths, this`everWatched, this`activeWatches, this`obsoleteWatches,
        this`kernelFault
      modifies this`replacementCounts, this`awaitingParents, this`unresolved, this`expectedMoves
      modifies this`errorsSent, this`dirtyPath, this`actions
      ensures var v := Observer.Judge(old(State()), wd, path, name, m);
              && dirties == v.Dirties?
              && WatchBook() == Observer.BookAfterNotice(old(WatchBook()), v, path, answer)
              && Owed() == Observer.DueAfterNotice(old(Owed()), v, activeWatches, path, m, answer)
              && Told() == Observer.ReportAfterNotice(old(Told()), old(Owed()), v, path, answer)
              && actions == old(actions) + Observer.NoticeActions(v, path, answer)
    {
      AppendEmpty(actions);
      if path in At(obsoleteWatches, wd) {
        return false;
      }
      if path in config.replaceableInputs && !IsWrite(m) {
        ReplaceableChanged(wd, path, name, m, answer);
        return false;
      }
      dirties := InputChanged(path, m);
    }

    method InputChanged(path: Path, m: Mask) returns (dirties: bool)
      modifies this`dirtyPath
      ensures dirties == RulesFor(config).invalidates(path, m)
      ensures dirtyPath == if dirties then Some(path) else old(dirtyPath)
    {
      dirties := Invalidates(config, path, m);
      if dirties {
        dirtyPath := Some(path);
      }
    }

    /** Something other than a write at a replaceable path. */
    method ReplaceableChanged(wd: Wd, path: Path, name: Name, m: Mask, answer: Answer)
      requires path !in At(obsoleteWatches, wd) && path in config.replaceableInputs && !IsWrite(m)
      modifies this`watches, this`watchedPaths, this`everWatched, this`activeWatches, this`obsoleteWatches,
        this`kernelFault
      modifies this`replacementCounts, this`awaitingParents, this`unresolved, this`expectedMoves, this`errorsSent,
        this`actions
      ensures var v := Observer.Judge(old(State()), wd, path, name, m);
              && WatchBook() == Observer.BookAfterNotice(old(WatchBook()), v, path, answer)
              && Owed() == Observer.DueAfterNotice(old(Owed()), v, activeWatches, path, m, answer)
              && errorsSent == old(errorsSent) + (if v.Installs? then Observer.InstallErrors(old(Owed()), path, answer)
                 else 0)
              && actions == old(actions) + Observer.NoticeActions(v, path, answer)
    {
      if name == [] && m == {MOVE_SELF} && path in expectedMoves && expectedMoves[path] == wd {
        expectedMoves := expectedMoves - {path};
      } else if name != [] && IsArrival(m) {
        Arrived(path, m, answer);
        return;
      } else {
        unresolved := unresolved[path := (if path in unresolved then unresolved[path] else {}) + m];
      }
      AppendEmpty(actions);
    }

    /** A parent reports that a replaceable file was created or moved in. */
    method Arrived(path: Path, m: Mask, answer: Answer)
      modifies this`watches, this`watchedPaths, this`everWatched, this`activeWatches, this`obsoleteWatches,
        this`kernelFault
      modifies this`replacementCounts, this`awaitingParents, this`unresolved, this`expectedMoves, this`errorsSent,
        this`actions
      ensures var v := ArrivalVerdict(old(Owed()), path);
              && WatchBook() == Observer.BookAfterNotice(old(WatchBook()), v, path, answer)
              && Owed() == Observer.DueAfterNotice(old(Owed()), v, activeWatches, path, m, answer)
              && errorsSent == old(errorsSent) + (if v.Installs? then Observer.InstallErrors(old(Owed()), path, answer)
                 else 0)
              && actions == old(actions) + Observer.NoticeActions(v, path, answer)
    {
      if Observer.Count(awaitingParents, path) > 0 {
        CancelAwaited(path);
        actions := actions + [Observer.Cancelled(path)];
      } else {
        var installed := InstallReplaceableGeneration(path, answer);
        if installed {
          ResolvedBy(path, answer);
        }
        actions := actions + [if installed then Observer.ParentInstalled(path) else Observer.ParentInstallFailed(path)];
      }
      ExpectMove(path, m);
    }

    method WatchReports(wd: Wd, name: Name, m: Mask, answer: Path -> Answer) returns (order: seq<Path>)
      requires wd in watches
      modifies this
      ensures Enumerates(order, At(old(watches), wd)) && config == old(config)
      ensures State() == Observer.NoticeAll(old(State()), wd, order, name, m, answer)
    {
      order := InSomeOrder(watches[wd]);
      var size := watches[wd];
      var i := 0;
      while i < |order|
        invariant 0 <= i <= |order| && config == old(config) && At(watches, wd) == size
        invariant Observer.NoticeAll(State(), wd, order[i..], name, m, answer) ==
                  Observer.NoticeAll(old(State()), wd, order, name, m, answer)
      {
        assert order[i..][1..] == order[i + 1..];
        var path := Join(order[i], name);
        var dirties := NoticePath(wd, path, name, m, answer(path));
        if dirties {
          return;
        }
        if At(watches, wd) != size {
          Raise();
          return;
        }
        i := i + 1;
      }
    }

    method Deliver(e: WatchEvent, answer: Path -> Answer) returns (ghost env: Observer.Env<Path>)
      requires !ended
      modifies this
      ensures config == old(config) && Enumerates(env.order, At(old(watches), e.wd)) && env.answer == answer
      ensures State() == Observer.Handle(old(State()), e, env)
    {
      var m := Bits(e.mask);
      var order := InSomeOrder(At(watches, e.wd));
      if OVERFLOW in m || UNMOUNT in m {
        SendError();
      } else if IGNORED in m {
        order := WatchRemoved(e.wd, answer);
      } else if e.wd !in watches {
        Raise();
      } else {
        order := WatchReports(e.wd, e.name, m, answer);
      }
      env := Observer.Env(order, answer);
    }

    /** Delivers one more event after those handled since `start`. */
    method DeliverNext(e: WatchEvent, answer: Path -> Answer, ghost start: State, ghost before: Observer.Events<Path>)
      returns (ghost events: Observer.Events<Path>)
      requires !ended && State() == Observer.HandleAll(start, before) && Honest(start, before)
      modifies this
      ensures config == old(config) && State() == Observer.HandleAll(start, events) && Honest(start, events)
      ensures |events| == |before| + 1 && events[..|before|] == before
      ensures events[|before|].0 == e && events[|before|].1.answer == answer
    {
      ghost var env := Deliver(e, answer);
      HandleAllSnoc(start, before, e, env);
      events := before + [(e, env)];
    }

    /** Delivers events in order, until one raises. */
    method DeliverAll(arrived: seq<WatchEvent>, answers: nat -> Path -> Answer)
        returns (ghost events: Observer.Events<Path>)
      requires !ended
      modifies this
      ensures config == old(config) && Honest(old(State()), events)
      ensures State() == Observer.HandleAll(old(State()), events)
      ensures CarriesPart(events, arrived, answers) && (!ended ==> |events| == |arrived|)
    {
      events := [];
      var i := 0;
      while i < |arrived| && !ended
        invariant 0 <= i <= |arrived| && config == old(config)
        invariant State() == Observer.HandleAll(old(State()), events) && Honest(old(State()), events)
        invariant |events| == i && CarriesPart(events, arrived, answers)
      {
        ghost var before := events;
        events := DeliverNext(arrived[i], answers(i), old(State()), events);
        CarriesNext(before, events, arrived, answers);
        i := i + 1;
      }
    }

    method SendUnresolved()
      modifies this`errorsSent
      ensures errorsSent == old(errorsSent) + |unresolved|
    {
      var todo := unresolved.Keys;
      while todo != {}
        invariant todo <= unresolved.Keys
        invariant errorsSent == old(errorsSent) + |unresolved| - |todo|
        decreases |todo|
      {
        var path :| path in todo;
        todo := todo - {path};
        errorsSent := errorsSent + 1;
      }
    }

    /** No more events are available. */
    method EndDrain(validate: bool)
      modifies this`expectedMoves, this`errorsSent, this`dirtySent
      ensures State() == Observer.EndDrain(old(State()), validate)
    {
      if validate {
        expectedMoves := map[];
        SendUnresolved();
      }
      if dirtyPath.Some? {
        dirtySent := dirtySent + 1;
      }
    }

    method Drain(chunks: seq<seq<byte>>, answers: nat -> Path -> Answer, validate: bool)
      returns (ghost events: Observer.Events<Path>)
      requires !ended
      modifies this
      ensures config == old(config) && Honest(Observer.BeginDrain(old(State())), events)
      ensures State() == Observer.Drain(old(State()), events, Received(chunks).whole, validate)
      ensures Carries(events, Received(chunks).whole, chunks, answers, ended)
    {
      dirtyPath := None;
      var arrived := Receive(chunks);
      events := DeliverAll(arrived.events, answers);
      if ended {
        return;
      }
      if !arrived.whole {
        Raise();
        return;
      }
      EndDrain(validate);
    }

    /** The drain command of the caller. */
    method DrainCommand(chunks: seq<seq<byte>>, answers: nat -> Path -> Answer)
        returns (ghost input: Observer.Input<Path>)
      requires !ended
      modifies this
      ensures config == old(config) && input.DrainCommand? && Carries(input.events, input.whole, chunks, answers, ended)
      ensures HonestInput(old(State()), input) && State() == Observer.Step(old(State()), input)
    {
      ghost var events := Drain(chunks, answers, true);
      if !ended {
        replacementCounts := map[];
        actions := actions + [Observer.CountersCleared];
      }
      input := Observer.DrainCommand(events, Received(chunks).whole);
    }

    method WatchAll(watched: seq<(Path, Option<Wd>)>)
      requires !ended
      modifies this
      ensures config == old(config) && State() == Observer.WatchAll(old(State()), watched)
    {
      var i := 0;
      while i < |watched|
        invariant 0 <= i <= |watched| && config == old(config)
        invariant State() == Observer.WatchAll(old(State()), watched[..i])
      {
        assert watched[..i + 1][..i] == watched[..i];
        if !ended {
          Watch(watched[i].0, watched[i].1);
        }
        i := i + 1;
      }
      assert watched[..i] == watched;
    }

    /** The protect command; walking the added roots adds the targets of links to the roots and asks for watches. */
    method ProtectCommand(added: seq<Path>, targets: seq<Path>, watched: seq<(Path, Option<Wd>)>,
                          chunks: seq<seq<byte>>, answers: nat -> Path -> Answer)
      returns (ghost input: Observer.Input<Path>)
      requires !ended
      modifies this
      ensures config == old(config).(guarded := old(config).guarded + added, roots := old(config).roots + targets)
      ensures input.ProtectCommand? && input.watched == watched && input.invalidates == RulesFor(config).invalidates
      ensures Carries(input.events, input.whole, chunks, answers, ended)
      ensures HonestInput(old(State()), input) && State() == Observer.Step(old(State()), input)
    {
      config := config.(guarded := config.guarded + added, roots := config.roots + targets);
      ghost var invalidates := RulesFor(config).invalidates;
      assert State().config == Observer.Rules(old(State()).config.swappable, invalidates, old(State()).config.join);
      WatchAll(watched);
      ghost var events: Observer.Events<Path> := [];
      if !ended {
        events := Drain(chunks, answers, true);
      }
      input := Observer.ProtectCommand(invalidates, watched, events, Received(chunks).whole);
    }
  }

  /** The process with its command loop: whatever it has done since it started is a run of the specification. */
  class ObserverProcess {
    const observer: InputObserver
    ghost const rules: Observer.Rules<Path>
    ghost var inputs: seq<Observer.Input<Path>>

    ghost predicate Valid()
      reads this, observer
    {
      HonestRun(rules, inputs) && observer.State() == Observer.Run(rules, inputs)
    }

    constructor (settings: Config)
      ensures Valid() && inputs == [] && rules == RulesFor(settings) && observer.config == settings && fresh(observer)
    {
      observer := new InputObserver(settings);
      rules, inputs := RulesFor(settings), [];
    }

    /** Start-up and the protect command: watch what was found, then validate. */
    method Protect(added: seq<Path>, targets: seq<Path>, watched: seq<(Path, Option<Wd>)>,
                   chunks: seq<seq<byte>>, answers: nat -> Path -> Answer) returns (ghost input: Observer.Input<Path>)
      requires Valid() && !observer.ended
      modifies this, observer
      ensures Valid() && input.ProtectCommand? && inputs == old(inputs) + [input] && input.watched == watched
      ensures observer.config == old(observer.config).(guarded := old(observer.config).guarded + added,
                                                       roots := old(observer.config).roots + targets)
      ensures Carries(input.events, input.whole, chunks, answers, observer.ended)
      ensures var p := Observer.Protect(old(observer.State()), RulesFor(observer.config).invalidates, watched);
              if p.report.crashed then observer.errorsSent > old(observer.errorsSent)
              else MissesNothing(observer.config, p, input.events, Received(chunks).events, observer.State())
    {
      input := observer.ProtectCommand(added, targets, watched, chunks, answers);
      ghost var p := Observer.Protect(old(observer.State()), input.invalidates, watched);
      ProtectedState(old(observer.State()), old(observer.config), observer.config, watched);
      if !p.report.crashed {
        DrainMissesNothing(observer.config, p, input.events, input.whole, true, chunks, answers);
      }
      RunSnoc(rules, inputs, input);
      inputs := inputs + [input];
    }

    /** The descriptor became readable. Whatever the bytes say about a declared input is passed on to the caller. */
    method Background(chunks: seq<seq<byte>>, answers: nat -> Path -> Answer)
        returns (ghost input: Observer.Input<Path>)
      requires Valid() && !observer.ended
      modifies this, observer
      ensures Valid() && input.Background? && inputs == old(inputs) + [input] && observer.config == old(observer.config)
      ensures Carries(input.events, input.whole, chunks, answers, observer.ended)
      ensures MissesNothing(old(observer.config), old(observer.State()), input.events, Received(chunks).events,
                            observer.State())
      ensures ValidConfig(observer.config) ==>
                MissesNoWrite(old(observer.config), old(observer.State()), input.events, Received(chunks).events,
                              observer.State())
    {
      ghost var events := observer.Drain(chunks, answers, false);
      ghost var whole := Received(chunks).whole;
      input := Observer.Background(events, whole);
      DrainMissesNothing(old(observer.config), old(observer.State()), events, whole, false, chunks, answers);
      if ValidConfig(observer.config) {
        RunMissesNoWrite(old(observer.config), rules, inputs, events, whole, false, chunks, answers);
      }
      RunSnoc(rules, inputs, input);
      inputs := inputs + [input];
    }

    /** The same with validation, on the caller's command. */
    method Drain(chunks: seq<seq<byte>>, answers: nat -> Path -> Answer) returns (ghost input: Observer.Input<Path>)
      requires Valid() && !observer.ended
      modifies this, observer
      ensures Valid() && input.DrainCommand? && inputs == old(inputs) + [input]
      ensures observer.config == old(observer.config)
      ensures Carries(input.events, input.whole, chunks, answers, observer.ended)
      ensures MissesNothing(old(observer.config), old(observer.State()), input.events, Received(chunks).events,
                            observer.State())
      ensures ValidConfig(observer.config) ==>
                MissesNoWrite(old(observer.config), old(observer.State()), input.events, Received(chunks).events,
                              observer.State())
    {
      input := observer.DrainCommand(chunks, answers);
      ghost var c, s := old(observer.config), old(observer.State());
      CommandReports(s, input.events, input.whole);
      DrainMissesNothing(c, s, input.events, input.whole, true, chunks, answers);
      if ValidConfig(observer.config) {
        RunMissesNoWrite(c, rules, inputs, input.events, input.whole, true, chunks, answers);
      }
      RunSnoc(rules, inputs, input);
      inputs := inputs + [input];
    }

    /** While no error was sent, every replaceable input ever watched has a live watch. */
    lemma KeepsWatching(path: Path)
      requires Valid()
      ensures observer.errorsSent == 0 && !observer.kernelFault && path in observer.everWatched &&
              path in rules.swappable
              ==> HasLiveWatch(observer.WatchBook(), path)
    {
      ReplaceablePathsStayWatched(rules, inputs, path);
    }

    /** The counters are exact, whatever happened. */
    lemma {:induction false} KeepsAccount(path: Path)
      requires Valid()
      ensures Observer.Count(observer.awaitingParents, path) == Balance(observer.actions, path)
      ensures Observer.Count(observer.replacementCounts, path) == Generations(observer.actions, path)
    {
      AwaitedIsTheBalance(rules, inputs, path);
      OneGenerationBetweenClears(rules, inputs, path);
    }
  }
}
