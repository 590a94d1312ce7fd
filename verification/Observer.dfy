/**
 The input observer's reaction to kernel events, as functions on its state. The kernel is arbitrary: any
 events, any answer to a request for a new watch, any order in which a watch's paths are visited.
 */
module Observer {
  import opened Common
  import opened InotifyCodec
  import opened ObservedInputs
  import opened WatchBook

  /**
   What the machine needs to know about paths: which inputs are replaceable, which events invalidate, and
   how a path under a watched directory is named.
   */
  datatype Rules<!P(==)> = Rules(swappable: set<P>, invalidates: (P, Mask) -> bool, join: (P, Name) -> P)

  /** How one event is processed: the order of its watch's paths and the kernel's answers meanwhile. */
  datatype Env<!P(==)> = Env(order: seq<P>, answer: P -> Answer)

  /** What is still owed to replaceable paths. */
  datatype Due<P> = Due(
    replacementCounts: map<P, nat>,
    awaitingParents: map<P, nat>,
    unresolved: map<P, Mask>,
    expectedMoves: map<P, Wd>)

  /** What has been or will be told to the caller. */
  datatype Report<P> = Report(dirty: Option<P>, dirtySent: nat, errors: nat, crashed: bool)

  /** What was done about replaceable paths, for accounting. */
  datatype Action<P> =
    | Reinstalled(path: P)
    | ReinstallFailed(path: P)
    | Cancelled(path: P)
    | ParentInstalled(path: P)
    | ParentInstallFailed(path: P)
    | CountersCleared

  datatype Obs<!P(==)> = Obs(
    config: Rules<P>,
    book: Book<P>,
    due: Due<P>,
    report: Report<P>,
    actions: seq<Action<P>>)

  function Count<P(==)>(m: map<P, nat>, path: P): nat {
    if path in m then m[path] else 0
  }

  function WithErrors<P>(r: Report<P>, n: nat): Report<P> {
    Report(r.dirty, r.dirtySent, r.errors + n, r.crashed)
  }

  function Error<P(==)>(s: Obs<P>): Obs<P> {
    Obs(s.config, s.book, s.due, WithErrors(s.report, 1), s.actions)
  }

  /** An exception: the error is sent and the process ends. */
  function Crash<P(==)>(s: Obs<P>): Obs<P> {
    Obs(s.config, s.book, s.due, Report(s.report.dirty, s.report.dirtySent, s.report.errors + 1, true), s.actions)
  }

  /** `watch`: None stands for the exception raised when the watch cannot be added. */
  function Watch<P(==)>(s: Obs<P>, path: P, wd: Option<Wd>): Obs<P> {
    if path in s.book.watchedPaths then s
    else if wd.None? then Crash(s)
    else Obs(s.config, Watched(s.book, s.config.swappable, path, wd.value), s.due, s.report, s.actions)
  }

  // ----- Installing a new generation of a replaceable file

  /** The errors of one installation: no file, no watch, or a second generation before validation. */
  function InstallErrors<P(==)>(due: Due<P>, path: P, answer: Answer): nat {
    if !answer.Installed? then 1 else if Count(due.replacementCounts, path) + 1 > 1 then 1 else 0
  }

  function CountInstall<P(==)>(due: Due<P>, path: P, answer: Answer): Due<P> {
    if answer.Installed? then
      Due(due.replacementCounts[path := Count(due.replacementCounts, path) + 1], due.awaitingParents, due.unresolved,
          due.expectedMoves)
    else due
  }

  /** A new generation resolves what was reported about the one before. */
  function Resolve<P(==)>(due: Due<P>, path: P, answer: Answer): Due<P> {
    if answer.Installed? then Due(due.replacementCounts, due.awaitingParents, due.unresolved - {path},
      due.expectedMoves)
    else due
  }

  // ----- A watch is gone

  datatype RemovalVerdict = DropsObsolete | Reinstalls | Unexpected

  function JudgeRemoval<P(==)>(b: Book<P>, swappable: set<P>, wd: Wd, path: P): RemovalVerdict {
    if path in At(b.obsolete, wd) then DropsObsolete
    else if path in swappable && path in b.active && b.active[path] == wd then Reinstalls
    else Unexpected
  }

  function ForgetMove<P(==)>(due: Due<P>, wd: Wd, path: P): Due<P> {
    if path in due.expectedMoves && due.expectedMoves[path] == wd
    then Due(due.replacementCounts, due.awaitingParents, due.unresolved, due.expectedMoves - {path})
    else due
  }

  function AwaitParent<P(==)>(due: Due<P>, path: P, answer: Answer): Due<P> {
    if answer.Installed? then
      Due(due.replacementCounts, due.awaitingParents[path := Count(due.awaitingParents, path) + 1], due.unresolved,
          due.expectedMoves)
    else due
  }

  function DueAfterRemoval<P(==)>(due: Due<P>, v: RemovalVerdict, wd: Wd, path: P, answer: Answer): Due<P> {
    var d := ForgetMove(due, wd, path);
    if v.Reinstalls? then AwaitParent(Resolve(CountInstall(d, path, answer), path, answer), path, answer) else d
  }

  function RemovalErrors<P(==)>(due: Due<P>, v: RemovalVerdict, path: P, answer: Answer): nat {
    match v
    case DropsObsolete => 0
    case Reinstalls => InstallErrors(due, path, answer)
    case Unexpected => 1
  }

  function RemovalActions<P>(v: RemovalVerdict, path: P, answer: Answer): seq<Action<P>> {
    if !v.Reinstalls? then [] else if answer.Installed? then [Reinstalled(path)] else [ReinstallFailed(path)]
  }

  /** One path of a removed watch. */
  function RemovePath<P(==)>(s: Obs<P>, wd: Wd, path: P, answer: Answer): Obs<P> {
    var v := JudgeRemoval(s.book, s.config.swappable, wd, path);
    Obs(s.config,
        AfterRemoval(s.book, s.config.swappable, wd, path, answer),
        DueAfterRemoval(s.due, v, wd, path, answer),
        WithErrors(s.report, RemovalErrors(s.due, v, path, answer)),
        s.actions + RemovalActions(v, path, answer))
  }

  function RemovePaths<P(==)>(s: Obs<P>, wd: Wd, order: seq<P>, answer: P -> Answer): Obs<P>
    decreases |order|
  {
    if order == [] then s else RemovePaths(RemovePath(s, wd, order[0], answer(order[0])), wd, order[1..], answer)
  }

  function Unwatched<P>(b: Book<P>, wd: Wd): Book<P> {
    Book(b.watches - {wd}, b.watchedPaths, b.everWatched, b.active, b.obsolete, b.kernelFault)
  }

  function Unhooked<P(==)>(s: Obs<P>, wd: Wd): Obs<P> {
    Obs(s.config, Unwatched(s.book, wd), s.due, s.report, s.actions)
  }

  function Removal<P(==)>(s: Obs<P>, wd: Wd, env: Env<P>): Obs<P> {
    if wd !in s.book.watches then Error(s) else RemovePaths(Unhooked(s, wd), wd, env.order, env.answer)
  }

  // ----- Something happened at a watch

  datatype Verdict = Quiet | ConsumesMove | CancelsAwaited | Installs | Unresolved | Dirties

  /** What one path of a watch makes of an event. */
  function Judge<P(==)>(s: Obs<P>, wd: Wd, path: P, name: Name, m: Mask): Verdict {
    if path in At(s.book.obsolete, wd) then Quiet
    else if path in s.config.swappable && !IsWrite(m) then
      if name == [] && m == {MOVE_SELF} && path in s.due.expectedMoves && s.due.expectedMoves[path] == wd
        then ConsumesMove
      else if name != [] && IsArrival(m) then if Count(s.due.awaitingParents, path) > 0 then CancelsAwaited
        else Installs
      else Unresolved
    else if s.config.invalidates(path, m) then Dirties
    else Quiet
  }

  function BookAfterNotice<P(==)>(b: Book<P>, v: Verdict, path: P, answer: Answer): Book<P> {
    if v.Installs? then Reinstalling(b, path, answer) else b
  }

  function CancelAwaited<P(==)>(due: Due<P>, path: P): Due<P> {
    var awaited := Count(due.awaitingParents, path);
    Due(due.replacementCounts,
        if awaited <= 1 then due.awaitingParents - {path} else due.awaitingParents[path := awaited - 1],
        due.unresolved, due.expectedMoves)
  }

  /** A file that was moved in is expected to report its own move to the watch now active for it. */
  function ExpectMove<P(==)>(due: Due<P>, active: map<P, Wd>, path: P, m: Mask): Due<P> {
    if MOVED_TO in m && path in active
    then Due(due.replacementCounts, due.awaitingParents, due.unresolved, due.expectedMoves[path := active[path]])
    else due
  }

  function DueAfterNotice<P(==)>(due: Due<P>, v: Verdict, active: map<P, Wd>, path: P, m: Mask,
                            answer: Answer): Due<P> {
    match v
    case Quiet | Dirties => due
    case ConsumesMove => Due(due.replacementCounts, due.awaitingParents, due.unresolved, due.expectedMoves - {path})
    case CancelsAwaited => ExpectMove(CancelAwaited(due, path), active, path, m)
    case Installs => ExpectMove(Resolve(CountInstall(due, path, answer), path, answer), active, path, m)
    case Unresolved =>
      Due(due.replacementCounts, due.awaitingParents,
          due.unresolved[path := (if path in due.unresolved then due.unresolved[path] else {}) + m], due.expectedMoves)
  }

  function ReportAfterNotice<P(==)>(r: Report<P>, due: Due<P>, v: Verdict, path: P, answer: Answer): Report<P> {
    if v.Installs? then WithErrors(r, InstallErrors(due, path, answer))
    else if v.Dirties? then Report(Some(path), r.dirtySent, r.errors, r.crashed)
    else r
  }

  function NoticeActions<P>(v: Verdict, path: P, answer: Answer): seq<Action<P>> {
    if v.CancelsAwaited? then [Cancelled(path)]
    else if v.Installs? then if answer.Installed? then [ParentInstalled(path)] else [ParentInstallFailed(path)]
    else []
  }

  /** One path of a watch that reports an event. */
  function Notice<P(==)>(s: Obs<P>, wd: Wd, path: P, name: Name, m: Mask, answer: Answer): Obs<P> {
    var v := Judge(s, wd, path, name, m);
    var b := BookAfterNotice(s.book, v, path, answer);
    Obs(s.config, b, DueAfterNotice(s.due, v, b.active, path, m, answer),
      ReportAfterNotice(s.report, s.due, v, path, answer),
        s.actions + NoticeActions(v, path, answer))
  }

  /** The loop; it ends at a path that makes the inputs dirty, and a set that changes while it is iterated raises. */
  function NoticeAll<P(==)>(s: Obs<P>, wd: Wd, order: seq<P>, name: Name, m: Mask, answer: P -> Answer): Obs<P>
    decreases |order|
  {
    if order == [] then s
    else
      var path := s.config.join(order[0], name);
      var t := Notice(s, wd, path, name, m, answer(path));
      if Judge(s, wd, path, name, m).Dirties? then t
      else if At(t.book.watches, wd) != At(s.book.watches, wd) then Crash(t)
      else NoticeAll(t, wd, order[1..], name, m, answer)
  }

  // ----- Events and drains

  function Handle<P(==)>(s: Obs<P>, e: WatchEvent, env: Env<P>): Obs<P> {
    var m := Bits(e.mask);
    if s.report.crashed then s
    else if OVERFLOW in m || UNMOUNT in m then Error(s)
    else if IGNORED in m then Removal(s, e.wd, env)
    else if e.wd !in s.book.watches then Crash(s)
    else NoticeAll(s, e.wd, env.order, e.name, m, env.answer)
  }

  /** One turn of the loop over a reporting watch's paths. */
  lemma {:induction false} NoticeAllUnfolds<P>(s: Obs<P>, wd: Wd, order: seq<P>, name: Name,
                                            m: Mask, answer: P -> Answer)
    requires order != []
    ensures var q := s.config.join(order[0], name);
            var t, r := Notice(s, wd, q, name, m, answer(q)), NoticeAll(s, wd, order, name, m, answer);
            r == t || r == Crash(t) || r == NoticeAll(t, wd, order[1..], name, m, answer)
  {
  }

  /** The five ways of handling an event. */
  lemma {:induction false} HandleUnfolds<P>(s: Obs<P>, e: WatchEvent, env: Env<P>)
    ensures var r := Handle(s, e, env);
            || r == s || r == Error(s) || r == Crash(s)
            || (IGNORED in Bits(e.mask) && e.wd in s.book.watches &&
                r == RemovePaths(Unhooked(s, e.wd), e.wd, env.order, env.answer))
            || r == NoticeAll(s, e.wd, env.order, e.name, Bits(e.mask), env.answer)
  {
  }

  type Events<!P(==)> = seq<(WatchEvent, Env<P>)>

  function HandleAll<P(==)>(s: Obs<P>, events: Events<P>): Obs<P> {
    if events == [] then s
    else Handle(HandleAll(s, events[..|events| - 1]), events[|events| - 1].0, events[|events| - 1].1)
  }

  /** The end of the available events: a validation barrier reports every unresolved path as an error. */
  function EndDrain<P(==)>(s: Obs<P>, validate: bool): Obs<P> {
    var r := s.report;
    Obs(s.config, s.book,
        if validate then Due(s.due.replacementCounts, s.due.awaitingParents, s.due.unresolved, map[]) else s.due,
        Report(r.dirty, r.dirtySent + (if r.dirty.Some? then 1 else 0),
               r.errors + (if validate then |s.due.unresolved| else 0), r.crashed),
        s.actions)
  }

  function BeginDrain<P(==)>(s: Obs<P>): Obs<P> {
    Obs(s.config, s.book, s.due, Report(None, s.report.dirtySent, s.report.errors, s.report.crashed), s.actions)
  }

  /** `whole` is false when the data of a read ended inside an event or was empty. */
  function Drain<P(==)>(s: Obs<P>, events: Events<P>, whole: bool, validate: bool): Obs<P> {
    var t := HandleAll(BeginDrain(s), events);
    if t.report.crashed then t else if !whole then Crash(t) else EndDrain(t, validate)
  }

  type Watches<P> = seq<(P, Option<Wd>)>

  function WatchAll<P(==)>(s: Obs<P>, watched: Watches<P>): Obs<P> {
    if watched == [] then s
    else
      var t := WatchAll(s, watched[..|watched| - 1]);
      if t.report.crashed then t else Watch(t, watched[|watched| - 1].0, watched[|watched| - 1].1)
  }

  function ClearCounters<P(==)>(s: Obs<P>): Obs<P> {
    Obs(s.config, s.book, Due(map[], s.due.awaitingParents, s.due.unresolved, s.due.expectedMoves), s.report,
        s.actions + [CountersCleared])
  }

  datatype Input<!P(==)> =
    | Background(events: Events<P>, whole: bool)
    | DrainCommand(events: Events<P>, whole: bool)
    | ProtectCommand(invalidates: (P, Mask) -> bool, watched: Watches<P>, events: Events<P>, whole: bool)

  /** Protecting further roots changes which events invalidate; walking them is any sequence of watches. */
  function Protect<P(==)>(s: Obs<P>, invalidates: (P, Mask) -> bool, watched: Watches<P>): Obs<P> {
    WatchAll(Obs(Rules(s.config.swappable, invalidates, s.config.join), s.book, s.due, s.report, s.actions), watched)
  }

  /** One turn of the command loop. */
  function Step<P(==)>(s: Obs<P>, input: Input<P>): Obs<P> {
    if s.report.crashed then s
    else
      match input
      case Background(events, whole) => Drain(s, events, whole, false)
      case DrainCommand(events, whole) =>
        var t := Drain(s, events, whole, true);
        if t.report.crashed then t else ClearCounters(t)
      case ProtectCommand(invalidates, watched, events, whole) =>
        var t := Protect(s, invalidates, watched);
        if t.report.crashed then t else Drain(t, events, whole, true)
  }

  function Initial<P(==)>(config: Rules<P>): Obs<P> {
    Obs(config, Book(map[], {}, {}, map[], map[], false), Due(map[], map[], map[], map[]), Report(None, 0, 0, false),
      [])
  }

  function RunFrom<P(==)>(s: Obs<P>, inputs: seq<Input<P>>): Obs<P> {
    if inputs == [] then s else Step(RunFrom(s, inputs[..|inputs| - 1]), inputs[|inputs| - 1])
  }

  /** Start-up is itself a protect command: it watches, then drains with validation. */
  function Run<P(==)>(config: Rules<P>, inputs: seq<Input<P>>): Obs<P> {
    RunFrom(Initial(config), inputs)
  }
}
