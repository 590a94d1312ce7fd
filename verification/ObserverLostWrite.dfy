/**
 A run without an error in which a write to a declared input is lost: a replaceable file is replaced, and
 later the first file comes back while its old descriptor is still open. The kernel then answers with a
 descriptor the observer holds obsolete for the path.
 */
module ObserverLostWrite {
  import opened Common
  import opened InotifyCodec
  import opened ObservedInputs
  import opened WatchBook
  import opened Observer
  import opened ObserverTracking
  import opened ObserverReports

  const DIRECTORY: Path := [47, 100]
  const FILE: Path := [47, 100, 47, 102]
  const FILE_NAME: Name := [102]

  function FileConfig(): Config {
    Config([], [], [], [FILE], {FILE}, {})
  }

  function MoveEvent(): WatchEvent {
    WatchEvent(1, PowerOfTwo(MOVED_TO), 0, FILE_NAME)
  }

  function WriteEvent(wd: Wd): WatchEvent {
    WatchEvent(wd, PowerOfTwo(MODIFY), 0, [])
  }

  /** The directory reports a file moved in; the kernel answers the request for its watch with `wd`. */
  function MovedIn(wd: Wd): Input<Path> {
    DrainCommand([(MoveEvent(), Env([DIRECTORY], _ => Installed(wd)))], true)
  }

  function Written(wd: Wd): Input<Path> {
    Background([(WriteEvent(wd), Env([FILE], _ => Absent))], true)
  }

  function Setup(): Input<Path> {
    ProtectCommand(RulesFor(FileConfig()).invalidates, [(DIRECTORY, Some(1)), (FILE, Some(2))], [], true)
  }

  /** The file stands at descriptor `wd`, descriptors `stale` are obsolete for it, and nothing was reported. */
  ghost predicate Standing(s: Obs<Path>, wd: Wd, stale: set<Wd>) {
    && wd != 1 && (forall w :: w != 1 ==> At(s.book.watches, w) <= {FILE})
    && s.config == RulesFor(FileConfig())
    && At(s.book.watches, 1) == {DIRECTORY}
    && FILE in s.book.active && s.book.active[FILE] == wd && At(s.book.watches, wd) == {FILE}
    && (forall w :: FILE in At(s.book.obsolete, w) <==> w in stale)
    && s.due == Due(map[], map[], map[], map[])
    && s.report == Report(None, 0, 0, false)
  }

  lemma {:induction false} TwoWatches(s: Obs<Path>, a: (Path, Option<Wd>), b: (Path, Option<Wd>))
    requires !s.report.crashed && !Watch(s, a.0, a.1).report.crashed
    ensures WatchAll(s, [a, b]) == Watch(Watch(s, a.0, a.1), b.0, b.1)
  {
    var both: Watches<Path> := [a, b];
    assert both[..1] == [a] && both[..1][..0] == [];
    assert WatchAll(s, both[..1]) == Watch(s, a.0, a.1) by {
      assert WatchAll(s, both[..1][..0]) == s;
    }
  }

  lemma {:induction false} OneEvent(s: Obs<Path>, e: WatchEvent, env: Env<Path>)
    ensures HandleAll(s, [(e, env)]) == Handle(s, e, env)
  {
    var events: Events<Path> := [(e, env)];
    assert events[..0] == [];
  }

  lemma {:induction false} OnePath(s: Obs<Path>, wd: Wd, base: Path, name: Name, m: Mask, answer: Path -> Answer)
    ensures var path := s.config.join(base, name);
            var t := Notice(s, wd, path, name, m, answer(path));
            At(t.book.watches, wd) == At(s.book.watches, wd) ==> NoticeAll(s, wd, [base], name, m, answer) == t
  {
    var order := [base];
    assert order[1..] == [];
  }

  lemma SetupStands()
    ensures Standing(Step(Initial(RulesFor(FileConfig())), Setup()), 2, {})
  {
    var s := Initial(RulesFor(FileConfig()));
    assert DIRECTORY != FILE;
    TwoWatches(s, (DIRECTORY, Some(1)), (FILE, Some(2)));
    var b := Watched(Watched(s.book, {FILE}, DIRECTORY, 1), {FILE}, FILE, 2);
    assert Protect(s, s.config.invalidates, [(DIRECTORY, Some(1)), (FILE, Some(2))]).book == b;
    assert At(b.watches, 1) == {DIRECTORY} && At(b.watches, 2) == {FILE};
    assert forall w :: w != 1 && w != 2 ==> At(b.watches, w) == {};
  }

  lemma MoveIsNoticed(s: Obs<Path>, was: Wd, wd: Wd, stale: set<Wd>)
    requires Standing(s, was, stale) && 1 !in stale && wd != 1
    ensures var t := Notice(s, 1, FILE, FILE_NAME, {MOVED_TO}, Installed(wd));
            && t.config == s.config && t.book == Adopted(s.book, FILE, wd)
            && t.due == Due(map[FILE := 1], map[], map[], map[FILE := wd]) && t.report == s.report
  {
  }

  lemma AdoptedStands(s: Obs<Path>, was: Wd, wd: Wd, stale: set<Wd>)
    requires Standing(s, was, stale) && was != wd && wd != 1
    ensures var b := Adopted(s.book, FILE, wd);
            && At(b.watches, 1) == {DIRECTORY} && FILE in b.active && b.active[FILE] == wd &&
               At(b.watches, wd) == {FILE}
            && (forall w :: w != 1 ==> At(b.watches, w) <= {FILE})
            && forall w :: FILE in At(b.obsolete, w) <==> w in stale + {was}
  {
    forall w ensures At(AddTo(s.book.watches, wd, FILE), w) ==
                     if w == wd then At(s.book.watches, wd) + {FILE} else At(s.book.watches, w)
    {
      AddToAt(s.book.watches, wd, FILE, w);
    }
    forall w ensures At(AddTo(s.book.obsolete, was, FILE), w) ==
                     if w == was then At(s.book.obsolete, was) + {FILE} else At(s.book.obsolete, w)
    {
      AddToAt(s.book.obsolete, was, FILE, w);
    }
  }

  lemma {:induction false} MoveIsDispatched(s: Obs<Path>, env: Env<Path>)
    requires !s.report.crashed && 1 in s.book.watches
    ensures Handle(s, MoveEvent(), env) == NoticeAll(s, 1, env.order, FILE_NAME, {MOVED_TO}, env.answer)
  {
    SingleBit(MOVED_TO);
  }

  lemma MoveIsHandled(s: Obs<Path>, was: Wd, wd: Wd, stale: set<Wd>, env: Env<Path>)
    requires Standing(s, was, stale) && 1 !in stale && wd != 1
    requires env.order == [DIRECTORY] && env.answer(FILE) == Installed(wd)
    ensures Handle(s, MoveEvent(), env) == Notice(s, 1, FILE, FILE_NAME, {MOVED_TO}, Installed(wd))
  {
    MoveIsDispatched(s, env);
    assert Join(DIRECTORY, FILE_NAME) == FILE;
    OnePath(s, 1, DIRECTORY, FILE_NAME, {MOVED_TO}, env.answer);
    assert At(Adopted(s.book, FILE, wd).watches, 1) == At(s.book.watches, 1) by {
      AddToAt(s.book.watches, wd, FILE, 1);
    }
    MoveIsNoticed(s, was, wd, stale);
  }

  /** One replacement seen from the parent, and the drain that validates it. */
  lemma ReplacementStands(s: Obs<Path>, was: Wd, wd: Wd, stale: set<Wd>)
    requires Standing(s, was, stale) && 1 !in stale && was != wd && wd != 1
    ensures Standing(Step(s, MovedIn(wd)), wd, stale + {was})
  {
    assert BeginDrain(s) == s;
    var env := MovedIn(wd).events[0].1;
    OneEvent(s, MoveEvent(), env);
    MoveIsHandled(s, was, wd, stale, env);
    MoveIsNoticed(s, was, wd, stale);
    AdoptedStands(s, was, wd, stale);
  }

  lemma WriteIsLost(s: Obs<Path>, wd: Wd, stale: set<Wd>)
    requires Standing(s, wd, stale) && wd in stale
    ensures Standing(Step(s, Written(wd)), wd, stale)
  {
    SingleBit(MODIFY);
    assert BeginDrain(s) == s;
    var env := Env([FILE], _ => Absent);
    OneEvent(s, WriteEvent(wd), env);
    OnePath(s, wd, FILE, [], {MODIFY}, env.answer);
    ObsoleteActiveIsDeaf(s, wd, FILE, [], {MODIFY}, Absent);
  }

  function Story(): seq<Input<Path>> {
    [Setup()] + [MovedIn(3)] + [MovedIn(2)] + [Written(2)]
  }

  // ----- The run is a possible one

  lemma {:induction false} OneEventIsHonest(s: Obs<Path>, e: WatchEvent, env: Env<Path>, path: Path)
    requires env.order == [path] && At(s.book.watches, e.wd) == {path}
    ensures Honest(s, [(e, env)])
  {
    var events: Events<Path> := [(e, env)];
    assert events[..|events| - 1] == [] && events[|events| - 1] == (e, env);
    assert Honest(s, events[..|events| - 1]) && HandleAll(s, events[..|events| - 1]) == s;
    assert env.order[0] == path && forall p :: p in env.order <==> p == path;
    assert Enumerates(env.order, At(s.book.watches, e.wd));
  }

  lemma MoveIsHonest(s: Obs<Path>, was: Wd, wd: Wd, stale: set<Wd>)
    requires Standing(s, was, stale)
    ensures HonestInput(s, MovedIn(wd))
  {
    var event := MovedIn(wd).events[0];
    OneEventIsHonest(BeginDrain(s), event.0, event.1, DIRECTORY);
  }

  lemma WriteIsHonest(s: Obs<Path>, wd: Wd, stale: set<Wd>)
    requires Standing(s, wd, stale)
    ensures HonestInput(s, Written(wd))
  {
    var event := Written(wd).events[0];
    OneEventIsHonest(BeginDrain(s), event.0, event.1, FILE);
  }

  /** The story up to the write: an honest run that has reported nothing. */
  lemma StoryStands()
    ensures var rules, before := RulesFor(FileConfig()), [Setup()] + [MovedIn(3)] + [MovedIn(2)];
            HonestRun(rules, before) && Standing(Run(rules, before), 2, {2, 3})
  {
    var rules := RulesFor(FileConfig());
    SetupStands();
    AppendEmpty([Setup()]);
    RunSnoc(rules, [], Setup());
    RunSnoc(rules, [Setup()], MovedIn(3));
    RunSnoc(rules, [Setup()] + [MovedIn(3)], MovedIn(2));
    ReplacementStands(Run(rules, [Setup()]), 2, 3, {});
    MoveIsHonest(Run(rules, [Setup()]), 2, 3, {});
    ReplacementStands(Run(rules, [Setup()] + [MovedIn(3)]), 3, 2, {2});
    MoveIsHonest(Run(rules, [Setup()] + [MovedIn(3)]), 3, 2, {2});
  }

  /**
   In an honest run the written file is a declared input at its active descriptor, which the run calls
   obsolete for it, and nothing is reported.
   */
  lemma WriteCanBeLost()
    ensures HonestRun(RulesFor(FileConfig()), Story())
    ensures var s := Run(RulesFor(FileConfig()), Story());
            && DeclaredInput(FileConfig(), FILE) && FILE in s.book.active && s.book.active[FILE] == 2
            && FILE in At(s.book.obsolete, 2)
            && s.report == Report(None, 0, 0, false)
  {
    var rules, before := RulesFor(FileConfig()), [Setup()] + [MovedIn(3)] + [MovedIn(2)];
    GuardedIsDeclared(FileConfig(), FILE);
    StoryStands();
    RunSnoc(rules, before, Written(2));
    WriteIsHonest(Run(rules, before), 2, {2, 3});
    WriteIsLost(Run(rules, before), 2, {2, 3});
  }
}
